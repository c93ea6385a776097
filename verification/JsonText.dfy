/**
 * The JSON values that the partial parser produces, and the text-level
 * vocabulary it shares with the document model: white space, hexadecimal
 * escapes, UTF-8 encoding and float syntax.
 *
 * A string stands for a Go string: each char is one byte. Numbers are kept as
 * token text, because the value of a float64 plays no part in what is proved.
 */
module JsonText {
  import opened Wrappers

  datatype Value =
    | Null
    | Bool(b: bool)
    | Number(text: string)
    | String(text: string)
    | Array(items: seq<Value>)
    | Object(fields: map<string, Value>)

  /** The value seen so far is part of the value that is coming. */
  ghost predicate Approximates(a: Value, b: Value) {
    match (a, b)
    case (Number(s), Number(t)) => s <= t
    case (String(s), String(t)) => s <= t
    case (Array(xs), Array(ys)) =>
      |xs| <= |ys| && forall i | 0 <= i < |xs| :: Approximates(xs[i], ys[i])
    case (Object(f), Object(g)) =>
      forall k | k in f :: k in g && Approximates(f[k], g[k])
    case _ => a == b
  }

  lemma ApproximatesReflexive(a: Value)
    ensures Approximates(a, a)
  {
  }

  predicate IsSpace(c: char) { c == ' ' || c == '\t' || c == '\n' || c == '\r' }

  predicate IsDigit(c: char) { '0' <= c <= '9' }

  predicate IsNumberChar(c: char) {
    IsDigit(c) || c == '-' || c == '+' || c == '.' || c == 'e' || c == 'E'
  }

  predicate IsHex(c: char) { IsDigit(c) || 'a' <= c <= 'f' || 'A' <= c <= 'F' }

  function HexDigit(c: char): (d: nat)
    requires IsHex(c)
    ensures d < 16
  {
    if IsDigit(c) then c as int - '0' as int
    else if 'a' <= c <= 'f' then c as int - 'a' as int + 10
    else c as int - 'A' as int + 10
  }

  function HexCode(a: char, b: char, c: char, d: char): (code: nat)
    requires IsHex(a) && IsHex(b) && IsHex(c) && IsHex(d)
    ensures code < 0x1_0000
  {
    ((HexDigit(a) * 16 + HexDigit(b)) * 16 + HexDigit(c)) * 16 + HexDigit(d)
  }

  // ----- UTF-8 ---------------------------------------------------------------

  predicate IsHighSurrogate(code: int) { 0xD800 <= code < 0xDC00 }

  predicate IsLowSurrogate(code: int) { 0xDC00 <= code < 0xE000 }

  /** utf16.DecodeRune on a matching pair. */
  function PairRune(high: nat, low: nat): (rune: nat)
    requires IsHighSurrogate(high) && IsLowSurrogate(low)
    ensures 0x1_0000 <= rune < 0x11_0000
  {
    (high - 0xD800) * 0x400 + (low - 0xDC00) + 0x1_0000
  }

  /** strings.Builder.WriteRune: a lone surrogate is written as U+FFFD. */
  function Utf8(rune: nat): (bytes: string)
    requires rune < 0x11_0000
  {
    var r := if IsHighSurrogate(rune) || IsLowSurrogate(rune) then 0xFFFD else rune;
    if r < 0x80 then [r as char]
    else if r < 0x800 then [(0xC0 + r / 0x40) as char, Continuation(r)]
    else if r < 0x1_0000 then [(0xE0 + r / 0x1000) as char, Continuation(r / 0x40), Continuation(r)]
    else [(0xF0 + r / 0x4_0000) as char, Continuation(r / 0x1000), Continuation(r / 0x40), Continuation(r)]
  }

  function Continuation(bits: nat): char { (0x80 + bits % 0x40) as char }

  predicate IsContinuation(c: char) { 0x80 <= c as int < 0xC0 }

  /** The second byte that a leading byte of three or four allows: no overlong form, no surrogate, nothing past U+10FFFF. */
  predicate MayFollow(lead: char, c: char) {
    && IsContinuation(c)
    && (lead as int == 0xE0 ==> 0xA0 <= c as int) && (lead as int == 0xED ==> c as int < 0xA0)
    && (lead as int == 0xF0 ==> 0x90 <= c as int) && (lead as int == 0xF4 ==> c as int < 0x90)
  }

  /** The bytes of the valid encoding that s begins with; 0 when it begins with none (section 4 of RFC 3629). */
  function RuneSize(s: string): (n: nat)
    ensures n <= |s| && n <= 4
    ensures n > 0 && s[0] as int < 0x80 ==> n == 1
    ensures forall k | 1 <= k < n :: IsContinuation(s[k])
  {
    if s == "" then 0
    else
      var lead := s[0] as int;
      if lead < 0x80 then 1
      else if 0xC2 <= lead < 0xE0 then (if |s| >= 2 && IsContinuation(s[1]) then 2 else 0)
      else if 0xE0 <= lead < 0xF0 then (if |s| >= 3 && MayFollow(s[0], s[1]) && IsContinuation(s[2]) then 3 else 0)
      else if 0xF0 <= lead < 0xF5 then
        (if |s| >= 4 && MayFollow(s[0], s[1]) && IsContinuation(s[2]) && IsContinuation(s[3]) then 4 else 0)
      else 0
  }

  predicate IsUtf8(s: string)
    decreases |s|
  {
    s == "" || (RuneSize(s) > 0 && IsUtf8(s[RuneSize(s)..]))
  }

  /** Cut after an ASCII character, valid text stays valid. */
  lemma {:induction false} Utf8Prefix(s: string, n: nat)
    requires n <= |s| && IsUtf8(s) && (n > 0 ==> s[n - 1] as int < 0x80)
    ensures IsUtf8(s[..n])
    decreases n
  {
    if n > 0 {
      var k := RuneSize(s);
      assert k <= n;
      assert RuneSize(s[..n]) == k;
      assert s[..n][k..] == s[k..n] == s[k..][..n - k];
      assert n > k ==> s[k..][n - k - 1] == s[n - 1];
      Utf8Prefix(s[k..], n - k);
    }
  }

  /** The bytes of U+FFFD never begin the bytes of a surrogate pair's rune. */
  lemma ReplacementIsNoPairPrefix(rune: nat)
    requires 0x1_0000 <= rune < 0x11_0000
    ensures Utf8(0xFFFD)[0] != Utf8(rune)[0]
  {
    assert Utf8(0xFFFD)[0] as int == 0xEF;
  }

  // ----- Numbers -------------------------------------------------------------

  function DigitsEnd(t: string, i: nat): (j: nat)
    requires i <= |t|
    ensures i <= j <= |t|
    decreases |t| - i
  {
    if i < |t| && IsDigit(t[i]) then DigitsEnd(t, i + 1) else i
  }

  predicate IsSign(c: char) { c == '+' || c == '-' }

  /** End of a mantissa that starts at i: digits with at most one dot. */
  function MantissaEnd(t: string, i: nat): (k: nat)
    requires i <= |t|
    ensures i <= k <= |t|
  {
    var j := DigitsEnd(t, i);
    if j < |t| && t[j] == '.' then DigitsEnd(t, j + 1) else j
  }

  function SignEnd(t: string, i: nat): (j: nat)
    requires i <= |t|
    ensures i <= j <= |t|
  {
    if i < |t| && IsSign(t[i]) then i + 1 else i
  }

  /**
   * The decimal syntax of strconv.ParseFloat. Hexadecimal floats, infinities
   * and underscores use characters that never reach it here.
   */
  predicate FloatSyntax(t: string) {
    var i := SignEnd(t, 0);
    var j := DigitsEnd(t, i);
    var k := MantissaEnd(t, i);
    && (j > i || k > j + 1)
    && (k < |t| ==>
          && (t[k] == 'e' || t[k] == 'E')
          && var m := SignEnd(t, k + 1);
          m < |t| && DigitsEnd(t, m) == |t|)
  }

  function Pow(base: nat, exponent: nat): nat {
    if exponent == 0 then 1 else base * Pow(base, exponent - 1)
  }

  function DigitsValue(t: string, i: nat, j: nat, acc: nat): nat
    requires i <= j <= |t|
    decreases j - i
  {
    if i == j then acc
    else if IsDigit(t[i]) then DigitsValue(t, i + 1, j, acc * 10 + (t[i] as int - '0' as int))
    else DigitsValue(t, i + 1, j, acc)
  }

  /**
   * ParseFloat fails with ErrRange when the decimal rounds past the largest
   * float64, that is from 2^1024 - 2^970 on.
   */
  predicate OutOfFloatRange(t: string)
    requires FloatSyntax(t)
  {
    var i := SignEnd(t, 0);
    var j := DigitsEnd(t, i);
    var k := MantissaEnd(t, i);
    var digits := DigitsValue(t, i, k, 0);
    var places := if k > j then k - j - 1 else 0;
    var exponent := if k == |t| then 0
                    else var m := SignEnd(t, k + 1);
                    var e: int := DigitsValue(t, m, |t|, 0);
                    if t[k + 1] == '-' then -e else e;
    var scale := exponent - places;
    var limit := (Pow(2, 54) - 1) * Pow(2, 970);
    if scale >= 0 then digits * Pow(10, scale) >= limit else digits >= limit * Pow(10, -scale)
  }

  /** parseNumberText succeeds. */
  predicate IsFloat(t: string) { FloatSyntax(t) && !OutOfFloatRange(t) }

  /** The longest prefix of t that parses, found by dropping trailing characters. */
  function LongestFloat(t: string): (r: Option<string>)
    ensures r.Some? ==> r.value <= t && IsFloat(r.value)
    ensures r.None? ==> forall k | 0 <= k <= |t| :: !IsFloat(t[..k])
    ensures r.Some? ==> forall k | |r.value| < k <= |t| :: !IsFloat(t[..k])
  {
    hide IsFloat;
    assert t == t[..|t|];
    if IsFloat(t) then
      Some(t)
    else if t == "" then
      None
    else
      ShorterPrefixes(t);
      LongestFloat(t[..|t| - 1])
  }

  lemma ShorterPrefixes(t: string)
    requires t != ""
    ensures forall k | 0 <= k < |t| :: t[..|t| - 1][..k] == t[..k]
  {
  }

  /** More text never shortens the number that can be read from it. */
  lemma LongestFloatGrows(s: string, t: string)
    requires s <= t && LongestFloat(s).Some?
    ensures LongestFloat(t).Some? && LongestFloat(s).value <= LongestFloat(t).value
  {
    var a := LongestFloat(s).value;
    assert a == t[..|a|];
    var b := LongestFloat(t).value;
    assert b == t[..|b|];
  }
}
