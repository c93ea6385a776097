/**
 * String literals that are written here by tables of their own, and what the
 * parser reads in them: every string comes back, and escaped UTF-16 code units
 * come back as the UTF-8 of the characters they stand for.
 */
module StringSpelling {
  import opened Wrappers
  import opened JsonText
  import opened JsonDocument
  import opened PartialMeaning
  import opened PartialParser

  // ----- Any string --------------------------------------------------------------------------

  /** Whether a slash, and whether control characters, are escaped. */
  datatype Style = Style(slash: bool, controls: bool)

  const HEX_DIGITS := "0123456789abcdef"

  /** Section 7 of RFC 8259. */
  function SpelledChar(c: char, style: Style): string {
    if c == '"' then "\\\""
    else if c == '\\' then "\\\\"
    else if c == '/' && style.slash then "\\/"
    else if c as int >= 0x20 || !style.controls then [c]
    else if c as int == 8 then "\\b"
    else if c as int == 12 then "\\f"
    else if c as int == 10 then "\\n"
    else if c as int == 13 then "\\r"
    else if c as int == 9 then "\\t"
    else "\\u00" + [HEX_DIGITS[c as int / 16], HEX_DIGITS[c as int % 16]]
  }

  function Spelled(t: string, style: Style): string {
    if t == "" then "" else SpelledChar(t[0], style) + Spelled(t[1..], style)
  }

  /** The escape, or the character, that spells c. */
  function PieceFor(c: char, style: Style): (p: Piece)
    ensures WellFormedPiece(p) && PieceText(p) == SpelledChar(c, style)
  {
    if c == '"' || c == '\\' || (c == '/' && style.slash) then Escaped(c)
    else if c as int >= 0x20 || !style.controls then Raw(c)
    else if c as int == 8 then Escaped('b')
    else if c as int == 12 then Escaped('f')
    else if c as int == 10 then Escaped('n')
    else if c as int == 13 then Escaped('r')
    else if c as int == 9 then Escaped('t')
    else Unicode('0', '0', HEX_DIGITS[c as int / 16], HEX_DIGITS[c as int % 16])
  }

  function PiecesFor(t: string, style: Style): (ps: Pieces)
    ensures WellFormedPieces(ps)
  {
    if t == "" then End else More(PieceFor(t[0], style), PiecesFor(t[1..], style))
  }

  lemma PieceReadsBack(c: char, style: Style)
    ensures PieceBytes(PieceFor(c, style)) == [c]
    ensures !IsHigh(PieceFor(c, style))
  {
    if PieceFor(c, style).Unicode? {
      ControlCode(c as int);
      hide HexCode, IsHex;
      assert Code(PieceFor(c, style)) == c as int;
    }
  }

  lemma ControlCode(n: nat)
    requires n < 0x20
    ensures HexCode('0', '0', HEX_DIGITS[n / 16], HEX_DIGITS[n % 16]) == n
  {
    var high, low := HEX_DIGITS[n / 16], HEX_DIGITS[n % 16];
    assert HexDigit(high) == n / 16;
    assert HexDigit(low) == n % 16;
    hide HexDigit;
    assert HexDigit('0') == 0;
  }

  lemma {:induction false} PiecesReadBack(t: string, style: Style)
    ensures LiteralTail(PiecesFor(t, style)) == Spelled(t, style) + "\"" && Decode(PiecesFor(t, style)) == t
  {
    hide PieceFor, PieceBytes, SpelledChar;
    if t != "" {
      PieceReadsBack(t[0], style);
      PiecesReadBack(t[1..], style);
      assert [t[0]] + t[1..] == t;
      assert (SpelledChar(t[0], style) + Spelled(t[1..], style)) + "\"" == SpelledChar(t[0], style) + (Spelled(t[1..], style) + "\"");
    } else {
      assert "" + "\"" == "\"";
    }
  }

  /** Every string, written in any of the styles, is read back. */
  lemma SpelledIsRead(t: string, style: Style)
    ensures ParsePartial("\"" + (Spelled(t, style) + "\"")) == Some(String(t))
  {
    hide ParsePartial, Decode, LiteralTail;
    PiecesReadBack(t, style);
    var d := StringDoc(PiecesFor(t, style));
    ParsePartialWhole("", d, "");
    assert "" + (Text(d) + "") == "\"" + (Spelled(t, style) + "\"");
  }

  // ----- Escaped code units --------------------------------------------------------------------

  const UPPER_HEX_DIGITS := "0123456789ABCDEF"

  function HexOf(digit: nat, upper: bool): (c: char)
    requires digit < 16
  {
    if upper then UPPER_HEX_DIGITS[digit] else HEX_DIGITS[digit]
  }

  /** A UTF-16 code unit as a u escape. */
  function Escape(unit: nat, upper: bool): string
    requires unit < 0x1_0000
  {
    "\\u" + [HexOf(unit / 0x1000, upper), HexOf(unit / 0x100 % 16, upper), HexOf(unit / 0x10 % 16, upper), HexOf(unit % 16, upper)]
  }

  predicate AreUnits(us: seq<nat>) { forall i | 0 <= i < |us| :: us[i] < 0x1_0000 }

  function Escapes(us: seq<nat>, upper: bool): string
    requires AreUnits(us)
  {
    if us == [] then "" else Escape(us[0], upper) + Escapes(us[1..], upper)
  }

  /** The characters that code units stand for, U+FFFD for a surrogate without its other half (chapter 3.9 of the Unicode standard). */
  function Characters(us: seq<nat>): seq<nat>
    requires AreUnits(us)
  {
    if us == [] then []
    else if 0xD800 <= us[0] < 0xDC00 && |us| > 1 && 0xDC00 <= us[1] < 0xE000 then
      [0x1_0000 + (us[0] - 0xD800) * 1024 + (us[1] - 0xDC00)] + Characters(us[2..])
    else [if 0xD800 <= us[0] < 0xE000 then 0xFFFD else us[0]] + Characters(us[1..])
  }

  predicate IsScalar(r: nat) { r < 0xD800 || 0xE000 <= r < 0x11_0000 }

  /** The code units of characters: one, or the two halves of what is left of the character above 0xFFFF. */
  function UnitsOf(rs: seq<nat>): (us: seq<nat>)
    requires forall i | 0 <= i < |rs| :: IsScalar(rs[i])
    ensures AreUnits(us)
  {
    if rs == [] then []
    else
      assert IsScalar(rs[0]);
      var first: seq<nat> := if rs[0] < 0x1_0000 then [rs[0]]
                             else [0xD800 + (rs[0] - 0x1_0000) / 1024, 0xDC00 + (rs[0] - 0x1_0000) % 1024];
      assert AreUnits(first);
      first + UnitsOf(rs[1..])
  }

  lemma {:induction false} CharactersOfUnits(rs: seq<nat>)
    requires forall i | 0 <= i < |rs| :: IsScalar(rs[i])
    ensures Characters(UnitsOf(rs)) == rs
  {
    if rs != [] {
      CharactersOfUnits(rs[1..]);
      var us, rest := UnitsOf(rs), UnitsOf(rs[1..]);
      if rs[0] < 0x1_0000 {
        assert us[1..] == rest;
      } else {
        assert us[2..] == rest;
      }
    }
  }

  /** The value of a continuation byte, if it is one. */
  function Bits(c: char): Option<nat> { if 128 <= c as int < 192 then Some(c as int - 128) else None }

  /** The characters that UTF-8 bytes stand for: each byte's bits in turn (section 3 of RFC 3629). */
  function Scalars(b: string): Option<seq<nat>>
    decreases |b|
  {
    if b == "" then Some([])
    else
      var x := b[0] as int;
      var size := if x < 128 then 1 else if x < 224 then 2 else if x < 240 then 3 else 4;
      if size > |b| || 128 <= x < 192 || x >= 248 then None
      else if exists i :: 1 <= i < size && Bits(b[i]).None? then None
      else
        var r := if size == 1 then x
                 else if size == 2 then (x - 192) * 64 + Bits(b[1]).value
                 else if size == 3 then ((x - 224) * 64 + Bits(b[1]).value) * 64 + Bits(b[2]).value
                 else (((x - 240) * 64 + Bits(b[1]).value) * 64 + Bits(b[2]).value) * 64 + Bits(b[3]).value;
        match Scalars(b[size..])
        case Some(rest) => Some([r] + rest)
        case None => None
  }

  lemma Quotients(r: nat)
    ensures r / 0x1000 == r / 64 / 64 && r / 0x4_0000 == r / 64 / 64 / 64
    ensures r == r / 64 * 64 + r % 64 && r / 64 == r / 64 / 64 * 64 + r / 64 % 64
    ensures r / 64 / 64 == r / 64 / 64 / 64 * 64 + r / 64 / 64 % 64
  {
  }

  /** Lead byte and continuation bytes, bit by bit. */
  lemma Utf8Bits(r: nat)
    requires IsScalar(r)
    ensures var b := Utf8(r);
            if r < 0x80 then b == [r as char]
            else if r < 0x800 then |b| == 2 && b[0] as int == 192 + r / 64 && Bits(b[1]) == Some(r % 64)
            else if r < 0x1_0000 then
              |b| == 3 && b[0] as int == 224 + r / 64 / 64 && Bits(b[1]) == Some(r / 64 % 64) && Bits(b[2]) == Some(r % 64)
            else
              && |b| == 4 && b[0] as int == 240 + r / 64 / 64 / 64 && Bits(b[1]) == Some(r / 64 / 64 % 64)
              && Bits(b[2]) == Some(r / 64 % 64) && Bits(b[3]) == Some(r % 64)
  {
    Quotients(r);
  }

  function WithFirst(r: nat, rest: Option<seq<nat>>): Option<seq<nat>> {
    match rest case Some(rs) => Some([r] + rs) case None => None
  }

  /** One character is taken off the front: a lead byte and the bits of the bytes that it asks for. */
  lemma FrontScalar(b: string, size: nat, lead: nat, bits: seq<nat>)
    requires 1 <= size <= 4 && size <= |b| && |bits| == size - 1
    requires forall i | 1 <= i < size :: Bits(b[i]) == Some(bits[i - 1])
    requires b[0] as int == lead + match size case 1 => 0 case 2 => 192 case 3 => 224 case _ => 240
    requires lead < match size case 1 => 128 case 2 => 32 case 3 => 16 case _ => 8
    ensures Scalars(b) ==
              WithFirst(match size
                        case 1 => lead
                        case 2 => lead * 64 + bits[0]
                        case 3 => (lead * 64 + bits[0]) * 64 + bits[1]
                        case _ => ((lead * 64 + bits[0]) * 64 + bits[1]) * 64 + bits[2], Scalars(b[size..]))
  {
    hide Bits;
  }

  /** The bytes written for a character are its encoding: their bits are the character's. */
  lemma Utf8IsEncoding(r: nat, rest: string)
    requires IsScalar(r)
    ensures Scalars(Utf8(r) + rest) == WithFirst(r, Scalars(rest))
  {
    var bytes := Utf8(r);
    var b := bytes + rest;
    Utf8Bits(r);
    Quotients(r);
    hide Utf8, Bits, Scalars;
    assert b[|bytes|..] == rest;
    assert forall i | 0 <= i < |bytes| :: b[i] == bytes[i];
    var low, mid := r % 64, r / 64 % 64;
    if r < 0x80 {
      FrontScalar(b, 1, r, []);
    } else if r < 0x800 {
      FrontScalar(b, 2, r / 64, [low]);
    } else if r < 0x1_0000 {
      FrontScalar(b, 3, r / 64 / 64, [mid, low]);
    } else {
      FrontScalar(b, 4, r / 64 / 64 / 64, [r / 64 / 64 % 64, mid, low]);
    }
  }

  /** They are valid: no overlong form, and no surrogate. */
  lemma Utf8IsValid(r: nat, rest: string)
    requires IsScalar(r)
    ensures IsUtf8(Utf8(r) + rest) <==> IsUtf8(rest)
  {
    var bytes := Utf8(r);
    var b := bytes + rest;
    Utf8Bits(r);
    Quotients(r);
    assert b[|bytes|..] == rest;
    assert forall i | 0 <= i < |bytes| :: b[i] == bytes[i];
    assert RuneSize(b) == |bytes|;
  }

  /** The bytes of a text, character by character. */
  function Encoded(rs: seq<nat>): string
    requires AreScalars(rs)
  {
    if rs == [] then "" else Utf8(rs[0]) + Encoded(rs[1..])
  }

  predicate AreScalars(rs: seq<nat>) { forall i | 0 <= i < |rs| :: IsScalar(rs[i]) }

  lemma OneByte(c: char)
    requires c as int < 0x80
    ensures IsScalar(c as int) && Utf8(c as int) == [c]
  {
  }

  lemma TwoBytes(a: nat, d: nat)
    requires 2 <= a < 32 && d < 64
    ensures var r := a * 64 + d; IsScalar(r) && Utf8(r) == [(0xC0 + a) as char, (0x80 + d) as char]
  {
  }

  lemma ThreeBytes(a: nat, c: nat, d: nat)
    requires a < 16 && c < 64 && d < 64 && (a == 0 ==> c >= 32) && (a == 13 ==> c < 32)
    ensures var r := (a * 64 + c) * 64 + d; IsScalar(r) && Utf8(r) == [(0xE0 + a) as char, (0x80 + c) as char, (0x80 + d) as char]
  {
    var r := (a * 64 + c) * 64 + d;
    Quotients(r);
    assert r / 64 == a * 64 + c && r / 64 / 64 == a;
  }

  lemma FourBytes(a: nat, b: nat, c: nat, d: nat)
    requires a < 5 && b < 64 && c < 64 && d < 64 && (a == 0 ==> b >= 16) && (a == 4 ==> b < 16)
    ensures var r := ((a * 64 + b) * 64 + c) * 64 + d;
            IsScalar(r) && Utf8(r) == [(0xF0 + a) as char, (0x80 + b) as char, (0x80 + c) as char, (0x80 + d) as char]
  {
    var r := ((a * 64 + b) * 64 + c) * 64 + d;
    Quotients(r);
    assert r / 64 == (a * 64 + b) * 64 + c && r / 64 / 64 == a * 64 + b && r / 64 / 64 / 64 == a;
  }

  /** A valid encoding of a character is the one that is written for it. */
  lemma RuneIsWritten(b: string) returns (r: nat)
    requires b != "" && RuneSize(b) > 0
    ensures IsScalar(r) && b == Utf8(r) + b[RuneSize(b)..]
  {
    var k, x := RuneSize(b), b[0] as int;
    hide Utf8, IsScalar;
    if k == 1 {
      r := x;
      OneByte(b[0]);
    } else if k == 2 {
      r := (x - 0xC0) * 64 + (b[1] as int - 0x80);
      TwoBytes(x - 0xC0, b[1] as int - 0x80);
    } else if k == 3 {
      r := ((x - 0xE0) * 64 + (b[1] as int - 0x80)) * 64 + (b[2] as int - 0x80);
      ThreeBytes(x - 0xE0, b[1] as int - 0x80, b[2] as int - 0x80);
    } else {
      r := (((x - 0xF0) * 64 + (b[1] as int - 0x80)) * 64 + (b[2] as int - 0x80)) * 64 + (b[3] as int - 0x80);
      FourBytes(x - 0xF0, b[1] as int - 0x80, b[2] as int - 0x80, b[3] as int - 0x80);
    }
    assert Utf8(r) == b[..k];
  }

  lemma {:induction false} ValidIsWritten(b: string) returns (rs: seq<nat>)
    requires IsUtf8(b)
    ensures AreScalars(rs) && b == Encoded(rs)
    decreases |b|
  {
    rs := [];
    if b != "" {
      var r := RuneIsWritten(b);
      var rest := ValidIsWritten(b[RuneSize(b)..]);
      rs := [r] + rest;
      assert rs[1..] == rest;
    }
  }

  lemma {:induction false} WrittenIsValid(rs: seq<nat>)
    requires AreScalars(rs)
    ensures IsUtf8(Encoded(rs)) && Scalars(Encoded(rs)) == Some(rs)
  {
    hide IsUtf8, Scalars, Utf8;
    if rs == [] {
      assert IsUtf8("") && Scalars("") == Some([]) by { Empty(); }
    } else {
      WrittenIsValid(rs[1..]);
      Utf8IsValid(rs[0], Encoded(rs[1..]));
      Utf8IsEncoding(rs[0], Encoded(rs[1..]));
      assert [rs[0]] + rs[1..] == rs;
    }
  }

  lemma Empty()
    ensures IsUtf8("") && Scalars("") == Some([])
  {
  }

  /** Bytes are valid exactly if they are what is written for some characters, and those are the ones they stand for. */
  lemma ValidExactly(b: string)
    ensures IsUtf8(b) <==> exists rs :: AreScalars(rs) && b == Encoded(rs)
    ensures forall rs | AreScalars(rs) && b == Encoded(rs) :: Scalars(b) == Some(rs)
  {
    hide IsUtf8, Scalars, Encoded;
    if IsUtf8(b) {
      var rs := ValidIsWritten(b);
    }
    forall rs | AreScalars(rs) && b == Encoded(rs) ensures IsUtf8(b) && Scalars(b) == Some(rs) {
      WrittenIsValid(rs);
    }
  }

  // ----- What the parser reads -----------------------------------------------------------------

  function EscapePieces(us: seq<nat>, upper: bool): Pieces
    requires AreUnits(us)
  {
    if us == [] then End
    else More(Unicode(HexOf(us[0] / 0x1000, upper), HexOf(us[0] / 0x100 % 16, upper),
                      HexOf(us[0] / 0x10 % 16, upper), HexOf(us[0] % 16, upper)),
              EscapePieces(us[1..], upper))
  }

  lemma DigitReadsBack(digit: nat, upper: bool)
    requires digit < 16
    ensures IsHex(HexOf(digit, upper)) && HexDigit(HexOf(digit, upper)) == digit
  {
  }

  lemma Nibbles(n: nat)
    ensures n == n / 0x10 * 16 + n % 16 && n / 0x10 == n / 0x100 * 16 + n / 0x10 % 16
    ensures n / 0x100 == n / 0x1000 * 16 + n / 0x100 % 16
  {
    assert n / 0x100 == n / 0x10 / 16 && n / 0x1000 == n / 0x100 / 16;
  }

  /** Four printed digits give the number back. */
  lemma HexReadsBack(n: nat, upper: bool)
    requires n < 0x1_0000
    ensures var a, b, c, d := HexOf(n / 0x1000, upper), HexOf(n / 0x100 % 16, upper), HexOf(n / 0x10 % 16, upper), HexOf(n % 16, upper);
            IsHex(a) && IsHex(b) && IsHex(c) && IsHex(d) && HexCode(a, b, c, d) == n
  {
    hide HexOf, IsHex, HexDigit;
    Nibbles(n);
    DigitReadsBack(n / 0x1000, upper);
    DigitReadsBack(n / 0x100 % 16, upper);
    DigitReadsBack(n / 0x10 % 16, upper);
    DigitReadsBack(n % 16, upper);
  }

  lemma {:induction false} EscapesAreLiteral(us: seq<nat>, upper: bool)
    requires AreUnits(us)
    ensures WellFormedPieces(EscapePieces(us, upper)) && LiteralTail(EscapePieces(us, upper)) == Escapes(us, upper) + "\""
  {
    hide HexOf;
    if us == [] {
      assert "" + "\"" == "\"";
    } else {
      EscapesAreLiteral(us[1..], upper);
      HexReadsBack(us[0], upper);
      var e, rest := Escape(us[0], upper), Escapes(us[1..], upper);
      assert PieceText(EscapePieces(us, upper).piece) == e;
      assert (e + rest) + "\"" == e + (rest + "\"");
    }
  }

  /** The halves of a pair pair up, and nothing else does. */
  lemma PairsAlike(us: seq<nat>, upper: bool)
    requires AreUnits(us) && us != []
    ensures var ps := EscapePieces(us, upper);
            && ps.More? && ps.piece.Unicode? && WellFormedPiece(ps.piece) && Code(ps.piece) == us[0]
            && (StartsPair(ps) <==> 0xD800 <= us[0] < 0xDC00 && |us| > 1 && 0xDC00 <= us[1] < 0xE000)
            && (|us| > 1 ==> ps.rest == EscapePieces(us[1..], upper) && ps.rest.piece.Unicode?
                             && WellFormedPiece(ps.rest.piece) && Code(ps.rest.piece) == us[1])
  {
    hide HexOf, HexCode;
    HexReadsBack(us[0], upper);
    if |us| > 1 {
      HexReadsBack(us[1], upper);
    }
  }

  lemma {:induction false} EscapesDecode(us: seq<nat>, upper: bool)
    requires AreUnits(us) && WellFormedPieces(EscapePieces(us, upper))
    ensures Scalars(Decode(EscapePieces(us, upper))) == Some(Characters(us)) && IsUtf8(Decode(EscapePieces(us, upper)))
    decreases |us|
  {
    hide EscapePieces, Utf8, Scalars, IsUtf8, Code, HexOf, PairRune;
    var ps := EscapePieces(us, upper);
    if us == [] {
      NothingEscaped(upper);
    } else {
      PairsAlike(us, upper);
      NextPieces(us, upper);
      if StartsPair(ps) {
        assert us[1..][1..] == us[2..];
        EscapesDecode(us[2..], upper);
        PairIsCharacter(us[0], us[1]);
        Utf8IsEncoding(PairRune(us[0], us[1]), Decode(ps.rest.rest));
        Utf8IsValid(PairRune(us[0], us[1]), Decode(ps.rest.rest));
      } else {
        EscapesDecode(us[1..], upper);
        var r := if 0xD800 <= us[0] < 0xE000 then 0xFFFD else us[0];
        LoneIsReplaced(us[0]);
        Utf8IsEncoding(r, Decode(ps.rest));
        Utf8IsValid(r, Decode(ps.rest));
      }
    }
  }

  lemma NothingEscaped(upper: bool)
    ensures EscapePieces([], upper) == End && Scalars("") == Some([]) && IsUtf8("")
  {
  }

  lemma NextPieces(us: seq<nat>, upper: bool)
    requires AreUnits(us) && us != [] && WellFormedPieces(EscapePieces(us, upper))
    ensures EscapePieces(us, upper).More? && EscapePieces(us, upper).rest == EscapePieces(us[1..], upper)
    ensures WellFormedPieces(EscapePieces(us[1..], upper))
    ensures |us| > 1 ==>
              && EscapePieces(us[1..], upper).More? && EscapePieces(us[1..], upper).rest == EscapePieces(us[1..][1..], upper)
              && WellFormedPieces(EscapePieces(us[1..][1..], upper))
  {
  }

  lemma PairIsCharacter(high: nat, low: nat)
    requires 0xD800 <= high < 0xDC00 && 0xDC00 <= low < 0xE000
    ensures PairRune(high, low) == 0x1_0000 + (high - 0xD800) * 1024 + (low - 0xDC00) && IsScalar(PairRune(high, low))
  {
  }

  lemma LoneIsReplaced(unit: nat)
    requires unit < 0x1_0000
    ensures Utf8(unit) == Utf8(if 0xD800 <= unit < 0xE000 then 0xFFFD else unit)
  {
  }

  /**
   * Any UTF-16 code units, written as u escapes with digits of either case: the
   * parser reads the UTF-8 text of the characters they stand for.
   */
  lemma EscapesAreRead(us: seq<nat>, upper: bool)
    requires AreUnits(us)
    ensures var r := ParsePartial("\"" + (Escapes(us, upper) + "\""));
            r.Some? && r.value.String? && IsUtf8(r.value.text) && Scalars(r.value.text) == Some(Characters(us))
  {
    hide ParsePartial, Decode, LiteralTail, Scalars, IsUtf8, Escapes, EscapePieces, WellFormedPieces;
    EscapesAreLiteral(us, upper);
    EscapesDecode(us, upper);
    var d := StringDoc(EscapePieces(us, upper));
    ParsePartialWhole("", d, "");
    assert "" + (Text(d) + "") == "\"" + (Escapes(us, upper) + "\"");
  }

  /** And so every Unicode text that is written so is read back, character by character. */
  lemma EscapedTextIsRead(rs: seq<nat>, upper: bool)
    requires forall i | 0 <= i < |rs| :: IsScalar(rs[i])
    ensures var r := ParsePartial("\"" + (Escapes(UnitsOf(rs), upper) + "\""));
            r.Some? && r.value.String? && IsUtf8(r.value.text) && Scalars(r.value.text) == Some(rs)
  {
    hide ParsePartial, Escapes, Scalars, IsUtf8, UnitsOf, Characters;
    EscapesAreRead(UnitsOf(rs), upper);
    CharactersOfUnits(rs);
  }
}
