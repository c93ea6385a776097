/**
 * Repair of malformed string literals. The text is read as a sequence of
 * tokens: a character outside strings, or a quote, an escape or a character
 * inside one. Repair rewrites token by token.
 */
module StringRepair {
  import opened Wrappers
  import opened JsonText
  import PartialParser

  /** The characters a round consumes, what it writes for them, and whether it leaves a string open. */
  datatype Token = Token(raw: string, repaired: string, inString: bool)

  predicate IsControl(c: char) { c as int <= 0x1F }

  function LowerHex(d: nat): (c: char)
    requires d < 16
    ensures IsHex(c) && HexDigit(c) == d
  {
    if d < 10 then ('0' as int + d) as char else ('a' as int + (d - 10)) as char
  }

  function EscapeControl(c: char): string
    requires IsControl(c)
  {
    if c == '\U{0008}' then "\\b"
    else if c == '\U{000C}' then "\\f"
    else if c == '\n' then "\\n"
    else if c == '\r' then "\\r"
    else if c == '\t' then "\\t"
    else ['\\', 'u', '0', '0', LowerHex(c as int / 16), LowerHex(c as int % 16)]
  }

  /** The letters that may follow a backslash; u counts even when its digits are malformed. */
  predicate IsValidEscape(c: char) { PartialParser.IsEscapeLetter(c) || c == 'u' }

  predicate IsUnicodeEscape(s: string) {
    |s| >= 6 && s[0] == '\\' && s[1] == 'u' && PartialParser.IsHex4(s, 2)
  }

  function FirstToken(s: string, inString: bool): (t: Token)
    requires s != ""
    ensures t.raw <= s && t.raw != ""
  {
    var c := s[0];
    if !inString then Token([c], [c], c == '"')
    else if c == '"' then Token([c], [c], false)
    else if c == '\\' then
      if |s| == 1 then Token([c], "\\\\", true)
      else if IsUnicodeEscape(s) then Token(s[..6], s[..6], true)
      else if IsValidEscape(s[1]) then Token(s[..2], s[..2], true)
      else Token([c], "\\\\", true)
    else if IsControl(c) then Token([c], EscapeControl(c), true)
    else Token([c], [c], true)
  }

  function Rest(s: string, inString: bool): (r: string)
    requires s != ""
    ensures |r| < |s|
    ensures s == FirstToken(s, inString).raw + r
  {
    s[|FirstToken(s, inString).raw|..]
  }

  function RepairFrom(s: string, inString: bool): string
    decreases |s|
  {
    if s == "" then ""
    else FirstToken(s, inString).repaired + RepairFrom(Rest(s, inString), FirstToken(s, inString).inString)
  }

  function Repair(s: string): string { RepairFrom(s, false) }

  /** Whether a string is open at the end of s. */
  predicate OpenAtEnd(s: string, inString: bool)
    decreases |s|
  {
    if s == "" then inString
    else OpenAtEnd(Rest(s, inString), FirstToken(s, inString).inString)
  }

  /** Every string in s is one that Repair leaves as it is. */
  predicate Clean(s: string, inString: bool)
    decreases |s|
  {
    s != "" ==>
      var t := FirstToken(s, inString);
      t.repaired == t.raw && Clean(Rest(s, inString), t.inString)
  }

  /** What one round of Repair's loop writes at index, how far it moves on, and its new state. */
  method Round(s: string, index: nat, inString: bool) returns (bytes: string, next: nat, open: bool)
    requires index < |s|
    ensures var t := FirstToken(s[index..], inString);
            bytes == t.repaired && next == index + |t.raw| && open == t.inString
  {
    var c := s[index];
    ghost var rest := s[index..];
    if !inString {
      return [c], index + 1, c == '"';
    }
    if c == '"' {
      return [c], index + 1, false;
    }
    if c == '\\' {
      if index + 1 >= |s| {
        return "\\\\", index + 1, true;
      }
      var following := s[index + 1];
      if following == 'u' {
        if index + 6 <= |s| && PartialParser.IsHex4(s, index + 2) {
          bytes := "\\u" + s[index + 2..index + 6];
          assert bytes == rest[..6];
          return bytes, index + 6, true;
        }
      }
      assert !IsUnicodeEscape(rest);
      if IsValidEscape(following) {
        bytes := [c, following];
        assert bytes == rest[..2];
        return bytes, index + 2, true;
      }
      return "\\\\", index + 1, true;
    }
    if IsControl(c) {
      return EscapeControl(c), index + 1, true;
    }
    return [c], index + 1, true;
  }

  method RunRepair(s: string) returns (repaired: string)
    ensures repaired == Repair(s)
  {
    hide FirstToken, RepairFrom, Repair;
    repaired := "";
    var inString, index := false, 0;
    RepairStart(s);
    while index < |s|
      invariant index <= |s|
      invariant repaired + RepairFrom(s[index..], inString) == Repair(s)
    {
      RepairStep(repaired, s, index, inString);
      var bytes, next, open := Round(s, index, inString);
      repaired, index, inString := repaired + bytes, next, open;
    }
    RepairEnd(repaired, s[index..], inString);
  }

  lemma RepairStart(s: string)
    ensures "" + RepairFrom(s[0..], false) == Repair(s)
  {
    assert s[0..] == s;
  }

  lemma RepairEnd(done: string, rest: string, inString: bool)
    requires rest == ""
    ensures done + RepairFrom(rest, inString) == done
  {
  }

  lemma RepairStep(done: string, s: string, index: nat, inString: bool)
    requires index < |s|
    ensures var t := FirstToken(s[index..], inString);
            && index + |t.raw| <= |s|
            && done + RepairFrom(s[index..], inString) ==
               (done + t.repaired) + RepairFrom(s[index + |t.raw|..], t.inString)
  {
    hide FirstToken;
    var t := FirstToken(s[index..], inString);
    var after := RepairFrom(Rest(s[index..], inString), t.inString);
    assert Rest(s[index..], inString) == s[index + |t.raw|..];
    assert (done + t.repaired) + after == done + (t.repaired + after);
  }

  // ----- Repairing twice is repairing once ---------------------------------------

  /** Repair neither makes nor breaks the four digits of a unicode escape. */
  lemma DigitsKept(s: string, k: nat)
    requires k <= 4
    ensures Digits(s, k) <==> Digits(RepairFrom(s, true), k)
    decreases k
  {
    if s != "" && k > 0 {
      var t := FirstToken(s, true);
      var r := RepairFrom(s, true);
      if IsHex(s[0]) {
        assert t.repaired == [s[0]];
        DigitsKept(s[1..], k - 1);
        assert r[1..] == RepairFrom(s[1..], true);
      } else {
        assert !IsHex(r[0]);
      }
    }
  }

  /** s begins with k hexadecimal digits. */
  predicate Digits(s: string, k: nat) {
    k == 0 || (s != "" && IsHex(s[0]) && Digits(s[1..], k - 1))
  }

  lemma FourDigits(s: string)
    ensures Digits(s, 4) <==> PartialParser.IsHex4(s, 0)
  {
    if |s| >= 4 {
      assert s[1..][1..] == s[2..] && s[2..][1..] == s[3..];
      assert Digits(s[3..], 1) == IsHex(s[3]);
      assert Digits(s[2..], 2) == (IsHex(s[2]) && Digits(s[3..], 1));
      assert Digits(s[1..], 3) == (IsHex(s[1]) && Digits(s[2..], 2));
    } else {
      TooFewDigits(s, 4);
    }
  }

  lemma TooFewDigits(s: string, k: nat)
    requires |s| < k
    ensures !Digits(s, k)
  {
  }

  /** A malformed unicode escape stays malformed. */
  lemma MalformedKept(s: string)
    requires |s| >= 2 && s[0] == '\\' && s[1] == 'u' && !IsUnicodeEscape(s)
    ensures !IsUnicodeEscape("\\u" + RepairFrom(s[2..], true))
  {
    var rest := RepairFrom(s[2..], true);
    DigitsKept(s[2..], 4);
    FourDigits(s[2..]);
    FourDigits(rest);
    assert ("\\u" + rest)[2..] == rest;
  }

  lemma EscapedControlToken(c: char, rest: string)
    requires IsControl(c)
    ensures FirstToken(EscapeControl(c) + rest, true) == Token(EscapeControl(c), EscapeControl(c), true)
  {
    var e := EscapeControl(c);
    assert (e + rest)[..|e|] == e;
    assert IsHex('0');
  }

  /** A repaired token, before the repaired rest, is read back as that token. */
  lemma RepairedToken(s: string, inString: bool)
    requires s != ""
    ensures var t := FirstToken(s, inString);
            FirstToken(t.repaired + RepairFrom(Rest(s, inString), t.inString), inString) ==
            Token(t.repaired, t.repaired, t.inString)
  {
    hide RepairFrom;
    var t := FirstToken(s, inString);
    var rest := RepairFrom(Rest(s, inString), t.inString);
    assert (t.repaired + rest)[..|t.repaired|] == t.repaired;
    if inString && IsControl(s[0]) {
      EscapedControlToken(s[0], rest);
    } else if inString && s[0] == '\\' && |s| >= 2 && s[1] == 'u' && !IsUnicodeEscape(s) {
      MalformedKept(s);
      assert t.repaired == "\\u";
    }
  }

  lemma {:induction false} RepairIsClean(s: string, inString: bool)
    ensures Clean(RepairFrom(s, inString), inString)
    ensures OpenAtEnd(RepairFrom(s, inString), inString) == OpenAtEnd(s, inString)
    decreases |s|
  {
    if s != "" {
      var t := FirstToken(s, inString);
      RepairedToken(s, inString);
      RepairIsClean(Rest(s, inString), t.inString);
      var r := RepairFrom(s, inString);
      assert Rest(r, inString) == RepairFrom(Rest(s, inString), t.inString);
    }
  }

  lemma {:induction false} CleanIsKept(s: string, inString: bool)
    requires Clean(s, inString)
    ensures RepairFrom(s, inString) == s
    decreases |s|
  {
    if s != "" {
      CleanIsKept(Rest(s, inString), FirstToken(s, inString).inString);
    }
  }

  lemma RepairIdempotent(s: string)
    ensures Repair(Repair(s)) == Repair(s)
  {
    RepairIsClean(s, false);
    CleanIsKept(Repair(s), false);
  }

  /** Only text that is already clean is left as it is. */
  lemma {:induction false} OnlyCleanIsKept(s: string, inString: bool)
    requires !Clean(s, inString)
    ensures |RepairFrom(s, inString)| > |s|
    decreases |s|
  {
    TokenNeverShrinks(s, inString);
    hide FirstToken, Rest;
    var t, rest := FirstToken(s, inString), Rest(s, inString);
    if Clean(rest, t.inString) {
      CleanIsKept(rest, t.inString);
    } else {
      OnlyCleanIsKept(rest, t.inString);
    }
  }

  /** A repaired token is longer, or it is the token. */
  lemma TokenNeverShrinks(s: string, inString: bool)
    requires s != ""
    ensures var t := FirstToken(s, inString); t.repaired == t.raw || |t.repaired| > |t.raw|
  {
  }

  lemma RepairKeepsIffClean(s: string)
    ensures Repair(s) == s <==> Clean(s, false)
  {
    if Clean(s, false) {
      CleanIsKept(s, false);
    } else {
      OnlyCleanIsKept(s, false);
    }
  }

  // ----- Repair keeps boundaries and meaning ---------------------------------------

  /** What a token stands for. */
  datatype Mark = Outside(c: char) | Quote | Byte(c: char) | CodeUnit(code: nat)

  function CodeMark(code: nat): Mark { if code < 0x80 then Byte(code as char) else CodeUnit(code) }

  /** Section 7 of RFC 8259: None on a raw control character and on an invalid escape. */
  function StrictMark(raw: string, inString: bool): Option<Mark>
    requires raw != ""
  {
    if raw == "\"" then Some(Quote)
    else if !inString then Some(Outside(raw[0]))
    else if IsUnicodeEscape(raw) then Some(CodeMark(PartialParser.Hex4(raw, 2)))
    else if raw[0] == '\\' then
      if |raw| == 2 && PartialParser.IsEscapeLetter(raw[1]) then Some(Byte(PartialParser.Unescaped(raw[1]))) else None
    else if IsControl(raw[0]) then None
    else Some(Byte(raw[0]))
  }

  /** The forgiving reading: a control character is itself, a bad escape is a literal backslash. */
  function LenientMark(raw: string, inString: bool): Mark
    requires raw != ""
  {
    match StrictMark(raw, inString)
    case Some(m) => m
    case None => Byte(raw[0])
  }

  /** The strict reading of a text; None when it has an invalid token. */
  function StrictMarks(s: string, inString: bool): Option<seq<Mark>>
    decreases |s|
  {
    if s == "" then Some([])
    else
      var t := FirstToken(s, inString);
      match (StrictMark(t.raw, inString), StrictMarks(Rest(s, inString), t.inString))
      case (Some(m), Some(rest)) => Some([m] + rest)
      case _ => None
  }

  function LenientMarks(s: string, inString: bool): seq<Mark>
    decreases |s|
  {
    if s == "" then []
    else
      var t := FirstToken(s, inString);
      [LenientMark(t.raw, inString)] + LenientMarks(Rest(s, inString), t.inString)
  }

  /** Every u escape has its four digits. */
  predicate WellFormedUnicode(s: string, inString: bool)
    decreases |s|
  {
    s != "" ==>
      var t := FirstToken(s, inString);
      !(inString && t.raw == "\\u") && WellFormedUnicode(Rest(s, inString), t.inString)
  }

  lemma RepairedMark(s: string, inString: bool)
    requires s != ""
    ensures var t := FirstToken(s, inString);
            && t.repaired != ""
            && StrictMark(t.repaired, inString) ==
               if inString && t.raw == "\\u" then None else Some(LenientMark(t.raw, inString))
  {
    if inString && IsControl(s[0]) {
      var e := EscapeControl(s[0]);
      if |e| == 6 {
        assert PartialParser.Hex4(e, 2) == s[0] as int;
      }
    }
  }

  /**
   * The repaired text reads strictly as the original reads leniently, string by
   * string and character by character; it fails to read exactly when the
   * original has a malformed u escape, which Repair leaves alone.
   */
  lemma {:induction false} RepairKeepsMeaning(s: string, inString: bool)
    ensures StrictMarks(RepairFrom(s, inString), inString) ==
            if WellFormedUnicode(s, inString) then Some(LenientMarks(s, inString)) else None
    decreases |s|
  {
    hide FirstToken, StrictMark, LenientMark;
    if s != "" {
      var t, r := FirstToken(s, inString), RepairFrom(s, inString);
      RepairedToken(s, inString);
      RepairedMark(s, inString);
      RepairKeepsMeaning(Rest(s, inString), t.inString);
      assert Rest(r, inString) == RepairFrom(Rest(s, inString), t.inString);
    }
  }

  /** A string that begins with a u escape of too few digits: its repair does not read strictly. */
  lemma MalformedUnicodeStays(rest: string)
    requires |rest| < 4 || !PartialParser.IsHex4(rest, 0)
    ensures StrictMarks(Repair("\"\\u" + rest), false).None?
  {
    hide StrictMarks, LenientMarks, RepairFrom;
    var escape := "\\u" + rest;
    var s := "\"" + escape;
    assert s == "\"\\u" + rest;
    RepairKeepsMeaning(s, false);
    assert FirstToken(s, false) == Token("\"", "\"", true);
    assert Rest(s, false) == escape;
    assert !IsUnicodeEscape(escape) by {
      assert |escape| >= 6 ==> escape[2] == rest[0] && escape[3] == rest[1] && escape[4] == rest[2] && escape[5] == rest[3];
    }
    assert FirstToken(escape, true).raw == escape[..2] == "\\u";
  }

  // ----- Text whose strings are already valid ----------------------------------------

  lemma HexStaysOpen(s: string)
    requires forall i | 0 <= i < |s| :: IsHex(s[i])
    ensures OpenAtEnd(s, true)
  {
    if s != "" {
      assert FirstToken(s, true) == Token([s[0]], [s[0]], true);
      HexStaysOpen(s[1..]);
    }
  }

  /** An escape that has been cut leaves its string open. */
  lemma CutEscapeStaysOpen(a: string)
    requires 0 < |a| < 6 && a[0] == '\\' && (|a| > 1 ==> a[1] == 'u')
    requires forall i | 2 <= i < |a| :: IsHex(a[i])
    ensures OpenAtEnd(a, true)
  {
    if |a| > 1 {
      HexStaysOpen(a[2..]);
      assert Rest(a, true) == a[2..];
    }
  }

  /** A text that leaves no string open is tokenized the same whatever follows. */
  lemma TokenBeforeMore(a: string, b: string, inString: bool)
    requires a != "" && !OpenAtEnd(a, inString)
    ensures FirstToken(a + b, inString) == FirstToken(a, inString)
  {
    hide OpenAtEnd;
    if inString && a[0] == '\\' {
      if |a| == 1 || (a[1] == 'u' && |a| < 6 && forall i | 2 <= i < |a| :: IsHex(a[i])) {
        CutEscapeStaysOpen(a);
        assert false;
      }
      EscapeBeforeMore(a, b);
    }
  }

  lemma EscapeBeforeMore(a: string, b: string)
    requires |a| >= 2 && a[0] == '\\'
    requires a[1] == 'u' && |a| < 6 ==> exists i | 2 <= i < |a| :: !IsHex(a[i])
    ensures FirstToken(a + b, true) == FirstToken(a, true)
  {
    var s := a + b;
    assert s[..2] == a[..2];
    if |a| >= 6 {
      assert s[..6] == a[..6];
    } else if a[1] == 'u' {
      var i :| 2 <= i < |a| && !IsHex(a[i]);
      assert s[i] == a[i];
    }
  }

  lemma RestBeforeMore(a: string, b: string, inString: bool)
    requires a != "" && !OpenAtEnd(a, inString)
    ensures a + b != "" && FirstToken(a + b, inString) == FirstToken(a, inString)
    ensures Rest(a + b, inString) == Rest(a, inString) + b
  {
    hide FirstToken, OpenAtEnd;
    TokenBeforeMore(a, b, inString);
    SliceBeforeMore(a, b, |FirstToken(a, inString).raw|);
  }

  lemma SliceBeforeMore(a: string, b: string, k: nat)
    requires k <= |a|
    ensures (a + b)[k..] == a[k..] + b
  {
  }

  /** No escape is invalid or malformed, and unless raw control characters are let pass there are none in strings. */
  predicate Sane(s: string, inString: bool, strict: bool)
    decreases |s|
  {
    s != "" ==>
      var t := FirstToken(s, inString);
      && (t.repaired == t.raw || (!strict && inString && IsControl(s[0])))
      && !(inString && t.raw == "\\u")
      && Sane(Rest(s, inString), t.inString, strict)
  }

  lemma {:induction false} SaneIsClean(s: string, inString: bool)
    requires Sane(s, inString, true)
    ensures Clean(s, inString)
    decreases |s|
  {
    if s != "" {
      hide FirstToken, Rest;
      SaneIsClean(Rest(s, inString), FirstToken(s, inString).inString);
    }
  }

  lemma {:induction false} SaneAppend(a: string, b: string, inString: bool, strict: bool)
    requires Sane(a, inString, strict) && !OpenAtEnd(a, inString) && Sane(b, false, strict)
    ensures Sane(a + b, inString, strict) && OpenAtEnd(a + b, inString) == OpenAtEnd(b, false)
    decreases |a|
  {
    if a == "" {
      assert a + b == b;
    } else {
      hide FirstToken, Rest;
      RestBeforeMore(a, b, inString);
      SaneAppend(Rest(a, inString), b, FirstToken(a, inString).inString, strict);
    }
  }

  /** A prefix of a clean text is clean unless it ends inside a string. */
  lemma {:induction false} CleanPrefix(s: string, n: nat, inString: bool)
    requires n <= |s| && Clean(s, inString) && !OpenAtEnd(s[..n], inString)
    ensures Clean(s[..n], inString)
    decreases |s|
  {
    if n > 0 {
      var t := FirstToken(s, inString);
      var k := |t.raw|;
      NotInsideToken(s, n, inString);
      hide FirstToken;
      TokenOfPrefix(s, n, inString);
      SliceOfSlice(s, n, k);
      CleanPrefix(Rest(s, inString), n - k, t.inString);
    }
  }

  lemma SliceOfSlice(s: string, n: nat, k: nat)
    requires k <= n <= |s|
    ensures s[..n][k..] == s[k..][..n - k]
  {
  }

  lemma NotInsideToken(s: string, n: nat, inString: bool)
    requires 0 < n <= |s| && FirstToken(s, inString).repaired == FirstToken(s, inString).raw
    requires !OpenAtEnd(s[..n], inString)
    ensures |FirstToken(s, inString).raw| <= n
  {
    hide OpenAtEnd;
    if n < |FirstToken(s, inString).raw| {
      CutEscapeStaysOpen(s[..n]);
      assert false;
    }
  }

  lemma TokenOfPrefix(s: string, n: nat, inString: bool)
    requires 0 < n <= |s| && |FirstToken(s, inString).raw| <= n
    requires FirstToken(s, inString).repaired == FirstToken(s, inString).raw
    ensures FirstToken(s[..n], inString) == FirstToken(s, inString)
  {
    var t := FirstToken(s, inString);
    assert s[..n][..|t.raw|] == t.raw;
  }
}
