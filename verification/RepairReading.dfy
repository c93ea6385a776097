/**
 * What the partial parser makes of a text and of its repair: the same, unless it
 * stops at an invalid escape that the repair has mended.
 */
module RepairReading {
  import opened Wrappers
  import opened JsonText
  import opened PartialParser
  import opened StringRepair

  /** The text ends with a backslash that nothing follows in its string. */
  predicate EndsInBackslash(s: string, inString: bool)
    decreases |s|
  {
    s != "" && ((inString && s == "\\") || EndsInBackslash(Rest(s, inString), FirstToken(s, inString).inString))
  }

  /** The repaired text, except that such a backslash is left as it is. */
  function Mended(s: string, inString: bool): string
    decreases |s|
  {
    if s == "" then ""
    else if inString && s == "\\" then s
    else FirstToken(s, inString).repaired + Mended(Rest(s, inString), FirstToken(s, inString).inString)
  }

  lemma {:induction false} MendedIsRepaired(s: string, inString: bool)
    ensures RepairFrom(s, inString) == Mended(s, inString) + if EndsInBackslash(s, inString) then "\\" else ""
    decreases |s|
  {
    hide FirstToken, Rest;
    if s == "" {
    } else if inString && s == "\\" {
      LoneBackslash();
    } else {
      var t := FirstToken(s, inString);
      var rest := Rest(s, inString);
      MendedIsRepaired(rest, t.inString);
      Regroup(t.repaired, Mended(rest, t.inString), if EndsInBackslash(s, inString) then "\\" else "");
    }
  }

  lemma LoneBackslash()
    ensures RepairFrom("\\", true) == "\\" + "\\"
  {
    assert Rest("\\", true) == "";
  }

  lemma Regroup(a: string, b: string, c: string)
    ensures (a + b) + c == a + (b + c)
  {
  }

  predicate AllHex(s: string) { forall i | 0 <= i < |s| :: IsHex(s[i]) }

  /** Every u escape has its digits, except for one that the end of the text has cut. */
  predicate Mendable(s: string, inString: bool)
    decreases |s|
  {
    s != "" ==>
      var t := FirstToken(s, inString);
      && (inString && t.raw == "\\u" ==> AllHex(Rest(s, inString)))
      && Mendable(Rest(s, inString), t.inString)
  }

  /** A backslash before a character that makes no escape. */
  predicate IsStray(s: string, inString: bool) {
    inString && |s| > 1 && FirstToken(s, inString).raw == "\\"
  }

  predicate HasStray(s: string, inString: bool)
    decreases |s|
  {
    s != "" && (IsStray(s, inString) || HasStray(Rest(s, inString), FirstToken(s, inString).inString))
  }

  // ----- Positions in the two texts -------------------------------------------------------

  /** From p on s is mendable, and from q on r is what it mends to. */
  predicate InStep(s: string, r: string, p: nat, q: nat, inString: bool) {
    p <= |s| && q <= |r| && r[q..] == Mended(s[p..], inString) && Mendable(s[p..], inString)
  }

  /** Whether a stray is still to come. */
  predicate StrayFrom(s: string, p: nat, inString: bool)
    requires p <= |s|
  {
    HasStray(s[p..], inString)
  }

  lemma TokenStep(s: string, r: string, p: nat, q: nat, inString: bool)
    requires InStep(s, r, p, q, inString) && p < |s| && !(inString && s[p..] == "\\")
    ensures var t := FirstToken(s[p..], inString); var p', q' := p + |t.raw|, q + |t.repaired|;
            && p' <= |s| && q' <= |r|
            && InStep(s, r, p', q', t.inString) && r[q..q'] == t.repaired
            && (StrayFrom(s, p, inString) <==> IsStray(s[p..], inString) || StrayFrom(s, p', t.inString))
            && (inString && t.raw == "\\u" ==> AllHex(s[p'..]) && r[q'..] == Mended(s[p'..], t.inString))
  {
    hide FirstToken, IsStray;
    var t := FirstToken(s[p..], inString);
    assert Rest(s[p..], inString) == s[p + |t.raw|..];
    var rest := Mended(s[p + |t.raw|..], t.inString);
    assert r[q..] == t.repaired + rest;
    assert r[q..][|t.repaired|..] == rest;
    assert r[q..][..|t.repaired|] == t.repaired;
  }

  lemma AtTheEnd(s: string, r: string)
    ensures InStep(s, r, |s|, |r|, false) && !StrayFrom(s, |s|, false)
  {
  }

  lemma EndsTogether(s: string, r: string, p: nat, q: nat, inString: bool)
    requires InStep(s, r, p, q, inString)
    ensures p == |s| <==> q == |r|
  {
    hide FirstToken;
    if p < |s| {
      RepairedNotEmpty(s[p..], inString);
    }
  }

  lemma RepairedNotEmpty(s: string, inString: bool)
    requires s != ""
    ensures FirstToken(s, inString).repaired != ""
  {
  }

  /** Outside strings the two texts go on with the same character. */
  lemma OutsideStep(s: string, r: string, p: nat, q: nat)
    requires InStep(s, r, p, q, false) && p < |s|
    ensures q < |r| && r[q] == s[p] && InStep(s, r, p + 1, q + 1, s[p] == '"')
    ensures StrayFrom(s, p, false) <==> StrayFrom(s, p + 1, s[p] == '"')
  {
    EndsTogether(s, r, p, q, false);
    TokenStep(s, r, p, q, false);
    assert FirstToken(s[p..], false) == Token([s[p]], [s[p]], s[p] == '"');
    assert r[q..q + 1][0] == r[q];
  }

  lemma {:induction false} SpaceStep(s: string, r: string, p: nat, q: nat)
    requires InStep(s, r, p, q, false)
    ensures var p', q' := SkipSpace(s, p), SkipSpace(r, q);
            InStep(s, r, p', q', false) && (StrayFrom(s, p, false) <==> StrayFrom(s, p', false))
    decreases |s| - p
  {
    hide InStep, StrayFrom;
    EndsTogether'(s, r, p, q);
    if p < |s| {
      OutsideStep'(s, r, p, q);
      if IsSpace(s[p]) {
        SpaceStep(s, r, p + 1, q + 1);
      }
    }
  }

  lemma EndsTogether'(s: string, r: string, p: nat, q: nat)
    requires InStep(s, r, p, q, false)
    ensures p <= |s| && q <= |r| && (p == |s| <==> q == |r|)
  {
    EndsTogether(s, r, p, q, false);
  }

  lemma OutsideStep'(s: string, r: string, p: nat, q: nat)
    requires InStep(s, r, p, q, false) && p < |s|
    ensures q < |r| && r[q] == s[p]
    ensures s[p] != '"' ==> InStep(s, r, p + 1, q + 1, false) && (StrayFrom(s, p, false) <==> StrayFrom(s, p + 1, false))
    ensures s[p] == '"' ==> InStep(s, r, p + 1, q + 1, true) && (StrayFrom(s, p, false) <==> StrayFrom(s, p + 1, true))
  {
    OutsideStep(s, r, p, q);
  }

  // ----- Strings ------------------------------------------------------------------------------

  /** One round of the string loop, in step. */
  predicate RoundsAgree(s: string, r: string, p: nat, q: nat)
    requires p <= |s| && q <= |r|
  {
    match (StringRound(s, p), StringRound(r, q))
    case (Stop(p'), Stop(q')) => InStep(s, r, p', q', false) && (StrayFrom(s, p, true) <==> StrayFrom(s, p', false))
    case (Emit(a, p'), Emit(b, q')) => a == b && InStep(s, r, p', q', true) && (StrayFrom(s, p, true) <==> StrayFrom(s, p', true))
    case (BadEscape, _) => StrayFrom(s, p, true)
    case _ => false
  }

  lemma CutBackslash(s: string, r: string, p: nat, q: nat)
    requires InStep(s, r, p, q, true) && s[p..] == "\\"
    ensures RoundsAgree(s, r, p, q)
  {
    assert r[q..] == "\\";
    assert s[p] == s[p..][0] && r[q] == r[q..][0];
    AtTheEnd(s, r);
    assert Rest(s[p..], true) == "" && !HasStray("", true);
    assert !HasStray("\\", true);
  }

  lemma {:induction false} HexIsMended(s: string)
    requires AllHex(s)
    ensures Mended(s, true) == s && !HasStray(s, true)
  {
    if s != "" {
      assert FirstToken(s, true) == Token([s[0]], [s[0]], true);
      HexIsMended(s[1..]);
    }
  }

  /** A u escape that the end of the text has cut. */
  lemma CutUnicode(s: string, r: string, p: nat, q: nat)
    requires InStep(s, r, p, q, true) && p + 1 < |s| && s[p] == '\\' && s[p + 1] == 'u' && !IsUnicodeEscape(s[p..])
    ensures RoundsAgree(s, r, p, q)
  {
    var t := FirstToken(s[p..], true);
    assert t == Token("\\u", "\\u", true);
    TokenStep(s, r, p, q, true);
    var rest := s[p + 2..];
    HexIsMended(rest);
    assert r[q + 2..] == rest;
    FewerThanFour(s, p);
    assert r[q] == r[q..q + 2][0] && r[q + 1] == r[q..q + 2][1];
    AtTheEnd(s, r);
  }

  lemma FewerThanFour(s: string, p: nat)
    requires p + 1 < |s| && s[p] == '\\' && s[p + 1] == 'u' && !IsUnicodeEscape(s[p..]) && AllHex(s[p + 2..])
    ensures |s| < p + 6
  {
    forall i | p + 2 <= i < |s| ensures IsHex(s[i]) {
      assert s[p + 2..][i - p - 2] == s[i];
    }
    if |s| >= p + 6 {
      SixOfRest(s, p);
    }
  }

  lemma ControlRound(s: string, r: string, p: nat, q: nat)
    requires InStep(s, r, p, q, true) && p < |s| && IsControl(s[p])
    ensures RoundsAgree(s, r, p, q)
  {
    hide InStep, StrayFrom, StringRound, EscapeControl;
    StringEnd(s, r, p, q);
    var c := s[p];
    ControlToken(s, p);
    TokenStep(s, r, p, q, true);
    ControlEmits(r, q, c);
    PlainEmits(s, p);
  }

  lemma ControlToken(s: string, p: nat)
    requires p < |s| && IsControl(s[p])
    ensures FirstToken(s[p..], true) == Token([s[p]], EscapeControl(s[p]), true)
    ensures !IsStray(s[p..], true) && s[p..] != "\\"
  {
    hide EscapeControl;
    assert s[p..][0] == s[p];
  }

  lemma ControlEmits(r: string, q: nat, c: char)
    requires IsControl(c)
    requires var e := EscapeControl(c); q + |e| <= |r| && r[q..q + |e|] == e
    ensures StringRound(r, q) == Emit([c], q + |EscapeControl(c)|)
  {
    var e := EscapeControl(c);
    SliceIs(r, q, e);
    if |e| == 6 {
      assert r[q + 2] == '0' && r[q + 3] == '0';
      assert IsHex4(r, q + 2) && Hex4(r, q + 2) == c as int;
      assert Utf8(c as int) == [c];
    }
  }

  lemma PlainEmits(s: string, p: nat)
    requires p < |s| && s[p] != '\\' && s[p] != '"'
    ensures StringRound(s, p) == Emit([s[p]], p + 1)
  {
  }

  /** A low surrogate's escape stands in both texts or in none. */
  lemma SameLowEscape(s: string, r: string, p: nat, q: nat)
    requires InStep(s, r, p, q, true)
    ensures IsLowEscape(s, p) <==> IsLowEscape(r, q)
    ensures IsLowEscape(s, p) ==>
              && Hex4(s, p + 2) == Hex4(r, q + 2) && InStep(s, r, p + 6, q + 6, true)
              && (StrayFrom(s, p, true) <==> StrayFrom(s, p + 6, true))
  {
    hide InStep, StrayFrom, FirstToken;
    StringEnd(s, r, p, q);
    if IsLowEscape(s, p) {
      UnicodeToken(s, p);
      TokenStep(s, r, p, q, true);
      SameSix(s, p, r, q);
    } else if IsLowEscape(r, q) {
      EndsTogether(s, r, p, q, true);
      OnlyOneLeft(s, r, p, q);
      TokenStep(s, r, p, q, true);
      UnicodeLeavesOpen(s, p);
      NoLowEscape(s, r, p, q);
    }
  }

  lemma UnicodeLeavesOpen(s: string, p: nat)
    requires p < |s|
    ensures var t := FirstToken(s[p..], true); t.raw == "\\u" ==> t.repaired == "\\u" && t.inString
  {
  }

  lemma OnlyOneLeft(s: string, r: string, p: nat, q: nat)
    requires InStep(s, r, p, q, true)
    ensures s[p..] == "\\" ==> |r| == q + 1
  {
    if s[p..] == "\\" {
      assert |r[q..]| == 1;
    }
  }

  lemma UnicodeToken(s: string, p: nat)
    requires p + 6 <= |s| && s[p] == '\\' && s[p + 1] == 'u' && IsHex4(s, p + 2)
    ensures FirstToken(s[p..], true) == Token(s[p..p + 6], s[p..p + 6], true)
  {
    assert s[p..][..6] == s[p..p + 6];
    SixOfRest(s, p);
  }

  predicate SixAlike(s: string, p: nat, r: string, q: nat)
    requires p + 6 <= |s| && q + 6 <= |r|
  {
    && r[q] == s[p] && r[q + 1] == s[p + 1] && r[q + 2] == s[p + 2]
    && r[q + 3] == s[p + 3] && r[q + 4] == s[p + 4] && r[q + 5] == s[p + 5]
  }

  lemma SameSix(s: string, p: nat, r: string, q: nat)
    requires p + 6 <= |s| && q + 6 <= |r| && r[q..q + 6] == s[p..p + 6]
    ensures SixAlike(s, p, r, q)
  {
    SliceIs(r, q, s[p..p + 6]);
  }

  lemma SixOfRest(s: string, p: nat)
    requires p + 6 <= |s|
    ensures SixAlike(s, p, s[p..], 0)
  {
  }

  /** The characters of a slice, one by one. */
  lemma SliceIs(r: string, q: nat, e: string)
    requires q + |e| <= |r| && r[q..q + |e|] == e
    ensures |e| > 0 ==> r[q] == e[0]
    ensures |e| > 1 ==> r[q + 1] == e[1]
    ensures |e| > 5 ==> r[q + 2] == e[2] && r[q + 3] == e[3] && r[q + 4] == e[4] && r[q + 5] == e[5]
  {
    if |e| > 1 {
      assert r[q..q + |e|][1] == r[q + 1];
    }
    if |e| > 5 {
      var slice := r[q..q + |e|];
      assert slice[2] == r[q + 2] && slice[3] == r[q + 3] && slice[4] == r[q + 4] && slice[5] == r[q + 5];
    }
  }

  /** A token that is no low surrogate's escape does not become one. */
  lemma NoLowEscape(s: string, r: string, p: nat, q: nat)
    requires p < |s| && s[p..] != "\\"
    requires var t := FirstToken(s[p..], true); q + |t.repaired| <= |r| && r[q..q + |t.repaired|] == t.repaired
    requires !IsLowEscape(s, p)
    requires FirstToken(s[p..], true).raw == "\\u" ==>
               p + 2 <= |s| && q + 2 <= |r| && AllHex(s[p + 2..]) && r[q + 2..] == Mended(s[p + 2..], true)
    ensures !IsLowEscape(r, q)
  {
    assert s[p..][0] == s[p];
    if IsControl(s[p]) {
      hide EscapeControl, Mended;
      ControlIsNotLow(r, q, s[p]);
    } else if s[p] == '\\' {
      EscapeIsNotLow(s, r, p, q);
    } else {
      SliceIs(r, q, [s[p]]);
    }
  }

  lemma ControlIsNotLow(r: string, q: nat, c: char)
    requires IsControl(c)
    requires var e := EscapeControl(c); q + |e| <= |r| && r[q..q + |e|] == e
    ensures !IsLowEscape(r, q)
  {
    var e := EscapeControl(c);
    SliceIs(r, q, e);
    if |e| == 6 {
      assert r[q + 2] == '0' && r[q + 3] == '0';
      assert IsHex4(r, q + 2) ==> Hex4(r, q + 2) == c as int;
    }
  }

  lemma EscapeIsNotLow(s: string, r: string, p: nat, q: nat)
    requires p < |s| && s[p] == '\\' && s[p..] != "\\"
    requires var t := FirstToken(s[p..], true); q + |t.repaired| <= |r| && r[q..q + |t.repaired|] == t.repaired
    requires !IsLowEscape(s, p)
    requires FirstToken(s[p..], true).raw == "\\u" ==>
               p + 2 <= |s| && q + 2 <= |r| && AllHex(s[p + 2..]) && r[q + 2..] == Mended(s[p + 2..], true)
    ensures !IsLowEscape(r, q)
  {
    var t := FirstToken(s[p..], true);
    assert s[p..][0] == s[p];
    SliceIs(r, q, t.repaired);
    if t.raw == "\\u" {
      HexIsMended(s[p + 2..]);
      FewerThanFour(s, p);
    } else if |t.raw| == 6 {
      assert s[p..][..6] == s[p..p + 6];
      SameSix(s, p, r, q);
    }
  }

  lemma UnicodeRound(s: string, r: string, p: nat, q: nat)
    requires InStep(s, r, p, q, true) && p + 6 <= |s| && s[p] == '\\' && s[p + 1] == 'u' && IsHex4(s, p + 2)
    ensures RoundsAgree(s, r, p, q)
  {
    UnicodeToken(s, p);
    TokenStep(s, r, p, q, true);
    SameSix(s, p, r, q);
    SameLowEscape(s, r, p + 6, q + 6);
  }

  lemma PlainRound(s: string, r: string, p: nat, q: nat)
    requires InStep(s, r, p, q, true) && p < |s| && s[p] != '\\' && !IsControl(s[p])
    ensures RoundsAgree(s, r, p, q)
  {
    hide InStep, StrayFrom;
    StringEnd(s, r, p, q);
    assert s[p..][0] == s[p];
    assert FirstToken(s[p..], true) == Token([s[p]], [s[p]], s[p] != '"');
    hide FirstToken;
    TokenStep(s, r, p, q, true);
    SliceIs(r, q, [s[p]]);
  }

  /** A two-character escape, or a stray backslash. */
  lemma EscapeRound(s: string, r: string, p: nat, q: nat)
    requires InStep(s, r, p, q, true) && p + 1 < |s| && s[p] == '\\' && s[p + 1] != 'u'
    ensures RoundsAgree(s, r, p, q)
  {
    hide InStep, StrayFrom;
    StringEnd(s, r, p, q);
    assert s[p..][0] == s[p] && s[p..][1] == s[p + 1];
    TokenStep(s, r, p, q, true);
    if IsEscapeLetter(s[p + 1]) {
      assert s[p..][..2] == [s[p], s[p + 1]];
      SliceIs(r, q, [s[p], s[p + 1]]);
    }
  }

  lemma StringRoundsAgree(s: string, r: string, p: nat, q: nat)
    requires InStep(s, r, p, q, true)
    ensures RoundsAgree(s, r, p, q)
  {
    hide InStep, StrayFrom, RoundsAgree, StringRound;
    StringEnd(s, r, p, q);
    if p < |s| {
      if s[p] != '\\' {
        if IsControl(s[p]) {
          ControlRound(s, r, p, q);
        } else {
          PlainRound(s, r, p, q);
        }
      } else if p + 1 == |s| {
        assert s[p..] == "\\";
        CutBackslash(s, r, p, q);
      } else if s[p + 1] != 'u' {
        EscapeRound(s, r, p, q);
      } else if p + 6 <= |s| && IsHex4(s, p + 2) {
        UnicodeRound(s, r, p, q);
      } else {
        NotUnicode(s, p);
        CutUnicode(s, r, p, q);
      }
    }
  }

  lemma NotUnicode(s: string, p: nat)
    requires p + 1 < |s| && !(p + 6 <= |s| && IsHex4(s, p + 2))
    ensures !IsUnicodeEscape(s[p..])
  {
    if |s| >= p + 6 {
      SixOfRest(s, p);
    }
  }

  lemma StringEnd(s: string, r: string, p: nat, q: nat)
    requires InStep(s, r, p, q, true)
    ensures p <= |s| && q <= |r|
    ensures p == |s| ==> RoundsAgree(s, r, p, q)
  {
    EndsTogether(s, r, p, q, true);
    AtTheEnd(s, r);
  }

  /** What two readings of the same kind have in common. */
  predicate ReadAlike<T(==)>(s: string, r: string, stray: bool, a: Parsed<T>, b: Parsed<T>) {
    match a
    case Parsed(v, p) => b.Parsed? && b.value == v && InStep(s, r, p, b.pos, false) && (stray <==> StrayFrom(s, p, false))
    case IncompleteScalar => b.IncompleteScalar? && !stray
    case Unparsable => stray || b.Unparsable?
  }

  lemma {:induction false} StringReadAlike(s: string, r: string, p: nat, q: nat)
    requires InStep(s, r, p, q, true)
    ensures ReadAlike(s, r, StrayFrom(s, p, true), ParseStringRest(s, p), ParseStringRest(r, q))
    decreases |s| - p
  {
    hide InStep, StrayFrom, StringRound;
    StringEnd(s, r, p, q);
    StringRoundsAgree(s, r, p, q);
    match StringRound(s, p)
    case Emit(_, p') => StringReadAlike(s, r, p', StringRound(r, q).next);
    case _ =>
  }

  // ----- Values -------------------------------------------------------------------------------

  lemma {:induction false} NumberInStep(s: string, r: string, p: nat, q: nat)
    requires InStep(s, r, p, q, false)
    ensures p <= |s| && q <= |r|
    ensures var p', q' := NumberEnd(s, p), NumberEnd(r, q);
            && InStep(s, r, p', q', false) && (StrayFrom(s, p, false) <==> StrayFrom(s, p', false))
            && r[q..q'] == s[p..p'] && (p' == |s| <==> q' == |r|)
    decreases |s| - p
  {
    hide InStep, StrayFrom;
    EndsTogether'(s, r, p, q);
    if p < |s| {
      OutsideStep'(s, r, p, q);
      if IsNumberChar(s[p]) {
        NumberInStep(s, r, p + 1, q + 1);
        var p', q' := NumberEnd(s, p + 1), NumberEnd(r, q + 1);
        assert s[p..p'] == [s[p]] + s[p + 1..p'] && r[q..q'] == [r[q]] + r[q + 1..q'];
      }
    }
  }

  lemma NumberReadAlike(s: string, r: string, p: nat, q: nat)
    requires InStep(s, r, p, q, false)
    ensures ReadAlike(s, r, StrayFrom(s, p, false), ParseNumber(s, p), ParseNumber(r, q))
  {
    hide InStep, StrayFrom, NumberEnd, IsFloat, LongestFloat;
    NumberInStep(s, r, p, q);
    AtTheEnd(s, r);
  }

  /** Outside strings the two texts begin alike with a literal, and end alike inside one. */
  lemma {:induction false} LiteralInStep(s: string, r: string, p: nat, q: nat, literal: string)
    requires InStep(s, r, p, q, false) && '"' !in literal
    ensures p <= |s| && q <= |r|
    ensures literal <= s[p..] <==> literal <= r[q..]
    ensures s[p..] <= literal <==> r[q..] <= literal
    ensures literal <= s[p..] ==>
              && InStep(s, r, p + |literal|, q + |literal|, false)
              && (StrayFrom(s, p, false) <==> StrayFrom(s, p + |literal|, false))
    ensures s[p..] <= literal ==> !StrayFrom(s, p, false)
    decreases |literal|
  {
    hide InStep, StrayFrom;
    EndsTogether'(s, r, p, q);
    AtTheEnd(s, r);
    if p < |s| && literal != "" {
      OutsideStep'(s, r, p, q);
      var tail := literal[1..];
      Unconsed(s, p, literal);
      Unconsed(r, q, literal);
      if s[p] == literal[0] {
        LiteralInStep(s, r, p + 1, q + 1, tail);
      }
    }
  }

  lemma Unconsed(s: string, p: nat, literal: string)
    requires p < |s| && literal != ""
    ensures literal <= s[p..] <==> literal[0] == s[p] && literal[1..] <= s[p + 1..]
    ensures s[p..] <= literal <==> literal[0] == s[p] && s[p + 1..] <= literal[1..]
  {
    assert s[p..] == [s[p]] + s[p + 1..] && literal == [literal[0]] + literal[1..];
  }

  lemma LiteralReadAlike(s: string, r: string, p: nat, q: nat)
    requires InStep(s, r, p, q, false) && p < |s| && q < |r|
    ensures ReadAlike(s, r, StrayFrom(s, p, false), ParseLiteral(s, p), ParseLiteral(r, q))
  {
    hide InStep, StrayFrom;
    LiteralInStep(s, r, p, q, "true");
    LiteralInStep(s, r, p, q, "false");
    LiteralInStep(s, r, p, q, "null");
    AtTheEnd(s, r);
  }

  lemma {:induction false} ValueReadAlike(s: string, r: string, p: nat, q: nat)
    requires InStep(s, r, p, q, false) && p <= |s| && q <= |r|
    ensures ReadAlike(s, r, StrayFrom(s, p, false), ParseValue(s, p), ParseValue(r, q))
    decreases |s| - p, 2
  {
    hide InStep, StrayFrom, SkipSpace, ParseNumber, ParseLiteral, ParseStringRest;
    SpaceStep(s, r, p, q);
    var p', q' := SkipSpace(s, p), SkipSpace(r, q);
    EndsTogether'(s, r, p', q');
    AtTheEnd(s, r);
    if p' < |s| {
      OutsideStep'(s, r, p', q');
      var c := s[p'];
      if c == '{' {
        MembersReadAlike(s, r, p' + 1, q' + 1, map[]);
      } else if c == '[' {
        ItemsReadAlike(s, r, p' + 1, q' + 1, []);
      } else if c == '"' {
        StringReadAlike(s, r, p' + 1, q' + 1);
      } else if c == 't' || c == 'f' || c == 'n' {
        LiteralReadAlike(s, r, p', q');
      } else if c == '-' || IsDigit(c) {
        NumberReadAlike(s, r, p', q');
      }
    }
  }

  lemma {:induction false} ItemsReadAlike(s: string, r: string, p: nat, q: nat, done: seq<Value>)
    requires InStep(s, r, p, q, false) && p <= |s| && q <= |r|
    ensures ReadAlike(s, r, StrayFrom(s, p, false), ParseItems(s, p, done), ParseItems(r, q, done))
    decreases |s| - p, 3
  {
    hide InStep, StrayFrom, SkipSpace, ParseValue;
    SpaceStep(s, r, p, q);
    var p', q' := SkipSpace(s, p), SkipSpace(r, q);
    EndsTogether'(s, r, p', q');
    AtTheEnd(s, r);
    if p' < |s| {
      OutsideStep'(s, r, p', q');
      if s[p'] != ']' {
        ValueReadAlike(s, r, p', q');
        var a, b := ParseValue(s, p'), ParseValue(r, q');
        if a.Parsed? {
          SpaceStep(s, r, a.pos, b.pos);
          var next, next' := SkipSpace(s, a.pos), SkipSpace(r, b.pos);
          EndsTogether'(s, r, next, next');
          if next < |s| {
            OutsideStep'(s, r, next, next');
            if s[next] == ',' {
              ItemsReadAlike(s, r, next + 1, next' + 1, done + [a.value]);
            }
          }
        }
      }
    }
  }

  lemma {:induction false} MembersReadAlike(s: string, r: string, p: nat, q: nat, done: map<string, Value>)
    requires InStep(s, r, p, q, false) && p <= |s| && q <= |r|
    ensures ReadAlike(s, r, StrayFrom(s, p, false), ParseMembers(s, p, done), ParseMembers(r, q, done))
    decreases |s| - p, 3
  {
    hide InStep, StrayFrom, SkipSpace, ParseMember, IsSpace;
    SpaceStep(s, r, p, q);
    var p', q' := SkipSpace(s, p), SkipSpace(r, q);
    EndsTogether'(s, r, p', q');
    AtTheEnd(s, r);
    if p' < |s| {
      OutsideStep'(s, r, p', q');
      if s[p'] == '"' {
        MemberReadAlike(s, r, p', q');
        var a, b := ParseMember(s, p'), ParseMember(r, q');
        if a.Parsed? {
          SpaceStep(s, r, a.pos, b.pos);
          var next, next' := SkipSpace(s, a.pos), SkipSpace(r, b.pos);
          EndsTogether'(s, r, next, next');
          if next < |s| {
            OutsideStep'(s, r, next, next');
            if s[next] == ',' {
              MembersReadAlike(s, r, next + 1, next' + 1, done[a.value.0 := a.value.1]);
            }
          }
        }
      }
    }
  }

  lemma {:induction false} MemberReadAlike(s: string, r: string, p: nat, q: nat)
    requires InStep(s, r, p, q, false) && p < |s| && q < |r| && s[p] == '"' && r[q] == '"'
    ensures ReadAlike(s, r, StrayFrom(s, p, false), ParseMember(s, p), ParseMember(r, q))
    decreases |s| - p, 2
  {
    hide InStep, StrayFrom, SkipSpace, ParseValue, ParseStringRest;
    OutsideStep'(s, r, p, q);
    StringReadAlike(s, r, p + 1, q + 1);
    var key, key' := ParseStringRest(s, p + 1), ParseStringRest(r, q + 1);
    AtTheEnd(s, r);
    if key.Parsed? {
      SpaceStep(s, r, key.pos, key'.pos);
      var colon, colon' := SkipSpace(s, key.pos), SkipSpace(r, key'.pos);
      EndsTogether'(s, r, colon, colon');
      if colon < |s| {
        OutsideStep'(s, r, colon, colon');
        if s[colon] == ':' {
          SpaceStep(s, r, colon + 1, colon' + 1);
          var v, v' := SkipSpace(s, colon + 1), SkipSpace(r, colon' + 1);
          EndsTogether'(s, r, v, v');
          if v < |s| {
            ValueReadAlike(s, r, v, v');
          }
        }
      }
    }
  }

  /**
   * The partial parser reads a mendable text as it reads the mended one, unless
   * it gives up at a stray backslash.
   */
  lemma MendedReadsAlike(s: string)
    requires Mendable(s, false)
    ensures ParsePartial(s).Some? ==> ParsePartial(Mended(s, false)) == ParsePartial(s)
    ensures ParsePartial(s).None? && !HasStray(s, false) ==> ParsePartial(Mended(s, false)).None?
  {
    hide ParseValue;
    var r := Mended(s, false);
    assert s[0..] == s && r[0..] == r;
    ValueReadAlike(s, r, 0, 0);
  }

  // ----- Prefixes -----------------------------------------------------------------------------

  lemma {:induction false} SaneHasNoStray(s: string, inString: bool, strict: bool)
    requires Sane(s, inString, strict)
    ensures WellFormedUnicode(s, inString) && !HasStray(s, inString)
    decreases |s|
  {
    if s != "" {
      SaneToken(s, inString, strict);
      hide FirstToken, Rest, IsStray;
      SaneHasNoStray(Rest(s, inString), FirstToken(s, inString).inString, strict);
    }
  }

  lemma SaneToken(s: string, inString: bool, strict: bool)
    requires s != "" && Sane(s, inString, strict)
    ensures !IsStray(s, inString)
  {
  }

  lemma {:induction false} BackslashStaysOpen(s: string, inString: bool)
    requires EndsInBackslash(s, inString)
    ensures OpenAtEnd(s, inString)
    decreases |s|
  {
    if inString && s == "\\" {
      assert Rest(s, inString) == "";
    } else {
      hide FirstToken, Rest;
      BackslashStaysOpen(Rest(s, inString), FirstToken(s, inString).inString);
    }
  }

  /** Cut behind its first token, a text begins with that token still. */
  lemma TokenKept(t: string, n: nat, inString: bool)
    requires 0 < n <= |t| && |FirstToken(t, inString).raw| <= n
    requires !(inString && FirstToken(t, inString).raw == "\\u") && !(inString && t[..n] == "\\")
    ensures FirstToken(t[..n], inString) == FirstToken(t, inString)
  {
    var raw := FirstToken(t, inString).raw;
    assert t[..n][..|raw|] == t[..|raw|];
    assert t[..n][0] == t[0] && (n > 1 ==> t[..n][1] == t[1]);
    if inString && t[0] == '\\' && IsUnicodeEscape(t[..n]) {
      SixOfRest(t[..n], 0);
      assert IsUnicodeEscape(t);
    }
  }

  /** Cut inside its first token, an escape, a text mends to itself. */
  lemma TokenCut(t: string, n: nat, inString: bool)
    requires 0 < n <= |t| && n < |FirstToken(t, inString).raw|
    ensures Mendable(t[..n], inString) && Mended(t[..n], inString) == t[..n] && !HasStray(t[..n], inString)
    ensures FirstToken(t, inString).repaired == FirstToken(t, inString).raw
  {
    var s := t[..n];
    if n == 1 {
      assert s == "\\" && Rest(s, inString) == "";
      assert Mendable("", true) && !HasStray("", true);
    } else {
      assert s[0] == '\\' && s[1] == 'u';
      assert FirstToken(s, inString) == Token(s[..2], s[..2], true);
      var hex := s[2..];
      forall i | 0 <= i < |hex| ensures IsHex(hex[i]) {
        assert hex[i] == t[i + 2];
      }
      HexIsMendable(hex);
      assert Rest(s, inString) == hex && s == s[..2] + hex;
    }
  }

  lemma {:induction false} HexIsMendable(s: string)
    requires AllHex(s)
    ensures Mendable(s, true) && Mended(s, true) == s && !HasStray(s, true)
  {
    HexIsMended(s);
    if s != "" {
      assert FirstToken(s, true) == Token([s[0]], [s[0]], true);
      HexIsMendable(s[1..]);
    }
  }

  /** Any prefix of a text with well-formed u escapes is mendable, and mends to a prefix of the repaired text. */
  lemma {:induction false} PrefixMends(t: string, n: nat, inString: bool)
    requires n <= |t| && WellFormedUnicode(t, inString)
    ensures Mendable(t[..n], inString) && Mended(t[..n], inString) <= RepairFrom(t, inString)
    ensures HasStray(t[..n], inString) ==> HasStray(t, inString)
    decreases |t|
  {
    hide FirstToken, Rest;
    if n > 0 {
      var s, token := t[..n], FirstToken(t, inString);
      if n < |token.raw| {
        hide Mended, Mendable, HasStray;
        TokenCut(t, n, inString);
        PrefixOfToken(t, n, inString);
      } else if inString && s == "\\" {
        hide Mended, Mendable, HasStray;
        CutAtBackslash(t);
      } else {
        PrefixMends(Rest(t, inString), n - |token.raw|, token.inString);
        PrefixStep(t, n, inString);
      }
    }
  }

  lemma PrefixOfToken(t: string, n: nat, inString: bool)
    requires 0 < n <= |t| && n < |FirstToken(t, inString).raw|
    requires FirstToken(t, inString).repaired == FirstToken(t, inString).raw
    ensures t[..n] <= RepairFrom(t, inString)
  {
    hide FirstToken;
    assert t[..n] <= FirstToken(t, inString).raw;
  }

  lemma PrefixStep(t: string, n: nat, inString: bool)
    requires 0 < n <= |t| && WellFormedUnicode(t, inString) && !(inString && t[..n] == "\\")
    requires var token := FirstToken(t, inString); var k := |token.raw|;
             && k <= n && n - k <= |Rest(t, inString)|
             && var rest := Rest(t, inString)[..n - k];
                && Mendable(rest, token.inString) && Mended(rest, token.inString) <= RepairFrom(Rest(t, inString), token.inString)
                && (HasStray(rest, token.inString) ==> HasStray(Rest(t, inString), token.inString))
    ensures Mendable(t[..n], inString) && Mended(t[..n], inString) <= RepairFrom(t, inString)
    ensures HasStray(t[..n], inString) ==> HasStray(t, inString)
  {
    hide FirstToken, IsStray, Rest;
    var s, token := t[..n], FirstToken(t, inString);
    NotMalformed(t, inString);
    SameStart(t, n, inString);
    PrefixAppended(token.repaired, Mended(Rest(s, inString), token.inString), RepairFrom(Rest(t, inString), token.inString));
  }

  lemma NotMalformed(t: string, inString: bool)
    requires t != "" && WellFormedUnicode(t, inString)
    ensures !(inString && FirstToken(t, inString).raw == "\\u")
    ensures WellFormedUnicode(Rest(t, inString), FirstToken(t, inString).inString)
  {
  }

  lemma SameStart(t: string, n: nat, inString: bool)
    requires 0 < n <= |t| && |FirstToken(t, inString).raw| <= n
    requires !(inString && FirstToken(t, inString).raw == "\\u") && !(inString && t[..n] == "\\")
    ensures FirstToken(t[..n], inString) == FirstToken(t, inString) && (IsStray(t[..n], inString) ==> IsStray(t, inString))
    ensures Rest(t[..n], inString) == Rest(t, inString)[..n - |FirstToken(t, inString).raw|]
  {
    TokenKept(t, n, inString);
    StrayKept(t, n, inString);
    hide FirstToken;
    SliceOfSlice(t, n, |FirstToken(t, inString).raw|);
  }

  lemma PrefixAppended(a: string, b: string, c: string)
    requires b <= c
    ensures a + b <= a + c
  {
  }

  lemma StrayKept(t: string, n: nat, inString: bool)
    requires 0 < n <= |t| && FirstToken(t[..n], inString) == FirstToken(t, inString)
    ensures IsStray(t[..n], inString) ==> IsStray(t, inString)
  {
  }

  lemma CutAtBackslash(t: string)
    requires t != "" && t[0] == '\\'
    ensures Mendable("\\", true) && Mended("\\", true) <= RepairFrom(t, true) && !HasStray("\\", true)
  {
    assert Rest("\\", true) == "" && Mendable("", true) && !HasStray("", true);
    assert FirstToken(t, true).repaired[0] == '\\';
  }

  // ----- Valid text is repaired to valid text ----------------------------------------------------

  predicate AllAscii(s: string) { forall i | 0 <= i < |s| :: s[i] as int < 0x80 }

  lemma {:induction false} AsciiInFront(a: string, b: string)
    requires AllAscii(a)
    ensures IsUtf8(a + b) <==> IsUtf8(b)
    decreases |a|
  {
    if a == "" {
      assert a + b == b;
    } else {
      assert (a + b)[1..] == a[1..] + b && (a + b)[0] == a[0];
      AsciiInFront(a[1..], b);
    }
  }

  lemma AsciiToken(s: string, inString: bool)
    requires s != "" && s[0] as int < 0x80
    ensures AllAscii(FirstToken(s, inString).raw) && AllAscii(FirstToken(s, inString).repaired)
  {
  }

  lemma NonAsciiToken(s: string, inString: bool)
    requires s != "" && s[0] as int >= 0x80
    ensures FirstToken(s, inString) == Token([s[0]], [s[0]], inString) && Rest(s, inString) == s[1..]
  {
  }

  /** Bytes that are not ASCII are copied. */
  lemma {:induction false} NonAsciiCopied(s: string, k: nat, inString: bool)
    requires k <= |s| && forall i | 0 <= i < k :: s[i] as int >= 0x80
    ensures RepairFrom(s, inString) == s[..k] + RepairFrom(s[k..], inString)
    decreases k
  {
    hide FirstToken, Rest;
    if k > 0 {
      NonAsciiToken(s, inString);
      NonAsciiCopied(s[1..], k - 1, inString);
      Unconsing(s, k, RepairFrom(s[k..], inString));
    } else {
      assert s[0..] == s;
    }
  }

  lemma Unconsing(s: string, k: nat, after: string)
    requires 0 < k <= |s|
    ensures s[1..][k - 1..] == s[k..] && s[..k] + after == [s[0]] + (s[1..][..k - 1] + after)
  {
  }

  lemma RuneInFront(s: string, k: nat, rest: string)
    requires k == RuneSize(s) > 0
    ensures RuneSize(s[..k] + rest) == k && (s[..k] + rest)[k..] == rest
  {
  }

  lemma {:induction false} RepairIsUtf8(s: string, inString: bool)
    requires IsUtf8(s)
    ensures IsUtf8(RepairFrom(s, inString))
    decreases |s|
  {
    if s != "" {
      var k := RuneSize(s);
      if s[0] as int < 0x80 {
        AsciiToken(s, inString);
        hide FirstToken, RuneSize;
        var t, rest := FirstToken(s, inString), Rest(s, inString);
        AsciiInFront(t.raw, rest);
        RepairIsUtf8(rest, t.inString);
        AsciiInFront(t.repaired, RepairFrom(rest, t.inString));
      } else {
        NonAsciiCopied(s, k, inString);
        RepairIsUtf8(s[k..], inString);
        RuneInFront(s, k, RepairFrom(s[k..], inString));
      }
    }
  }

  predicate EndsAscii(s: string) { s != "" && s[|s| - 1] as int < 0x80 }

  lemma TokenEndsAscii(s: string, inString: bool)
    requires s != "" && EndsAscii(FirstToken(s, inString).repaired)
    ensures EndsAscii(FirstToken(s, inString).raw)
  {
    if s[0] as int < 0x80 {
      AsciiToken(s, inString);
      hide FirstToken;
      var raw := FirstToken(s, inString).raw;
      assert raw[|raw| - 1] as int < 0x80;
    }
  }

  lemma LastPart(a: string, b: string)
    ensures EndsAscii(a + b) <==> EndsAscii(if b == "" then a else b)
  {
    assert b == "" ==> a + b == a;
  }

  /** A text whose repair ends with an ASCII character ends with one itself. */
  lemma {:induction false} EndsAsciiBefore(s: string, inString: bool)
    requires EndsAscii(RepairFrom(s, inString))
    ensures EndsAscii(s)
    decreases |s|
  {
    hide FirstToken, EndsAscii;
    NothingEnds();
    var t, rest := FirstToken(s, inString), Rest(s, inString);
    LastPart(t.raw, rest);
    LastPart(t.repaired, RepairFrom(rest, t.inString));
    if rest == "" {
      TokenEndsAscii(s, inString);
    } else {
      AfterNotEmpty(rest, t.inString);
      EndsAsciiBefore(rest, t.inString);
    }
  }

  lemma NothingEnds()
    ensures !EndsAscii("")
  {
  }

  lemma AfterNotEmpty(s: string, inString: bool)
    requires s != ""
    ensures RepairFrom(s, inString) != ""
  {
    RepairedNotEmpty(s, inString);
  }
}
