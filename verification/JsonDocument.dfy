/**
 * JSON documents as concrete syntax trees: every text that section 2 of
 * RFC 8259 calls a JSON text is the Text of one of them, with its white space,
 * its choice of escapes and the spelling of its numbers. (Raw control
 * characters in strings, one comma after the last element, and every float
 * spelling that ParseFloat takes are documents too.)
 *
 * Shown is what a document means after its first n characters, by structure
 * and without any parsing.
 */
module JsonDocument {
  import opened Wrappers
  import opened JsonText
  import PartialParser

  /** One character of a string literal as it is written. */
  datatype Piece =
    | Raw(c: char)
    | Escaped(c: char)
    | Unicode(h0: char, h1: char, h2: char, h3: char)

  datatype Pieces = End | More(piece: Piece, rest: Pieces)

  datatype Document =
    | NullDoc
    | BoolDoc(b: bool)
    | NumberDoc(text: string)
    | StringDoc(pieces: Pieces)
    | ArrayDoc(items: Items)
    | ObjectDoc(members: Members)

  /** What follows an opening bracket. */
  datatype Items =
    | NoItems(gap: string)
    | LastItem(pre: string, item: Document, post: string)
    | MoreItems(pre: string, item: Document, post: string, rest: Items)

  datatype Member = Member(pre: string, key: Pieces, mid: string, gap: string, value: Document, post: string)

  /** What follows an opening brace. */
  datatype Members =
    | NoMembers(gap: string)
    | LastMember(member: Member)
    | MoreMembers(member: Member, rest: Members)

  predicate AllSpace(w: string) { forall i | 0 <= i < |w| :: IsSpace(w[i]) }

  predicate WellFormedPiece(p: Piece) {
    match p
    case Raw(c) => c != '"' && c != '\\'
    case Escaped(c) => PartialParser.IsEscapeLetter(c)
    case Unicode(a, b, c, d) => IsHex(a) && IsHex(b) && IsHex(c) && IsHex(d)
  }

  predicate WellFormedPieces(ps: Pieces) {
    ps.More? ==> WellFormedPiece(ps.piece) && WellFormedPieces(ps.rest)
  }

  predicate WellFormedNumber(t: string) {
    && t != "" && (t[0] == '-' || IsDigit(t[0]))
    && (forall i | 0 <= i < |t| :: IsNumberChar(t[i]))
    && IsFloat(t)
  }

  predicate WellFormed(d: Document) {
    match d
    case NumberDoc(t) => WellFormedNumber(t)
    case StringDoc(ps) => WellFormedPieces(ps)
    case ArrayDoc(items) => WellFormedItems(items)
    case ObjectDoc(members) => WellFormedMembers(members)
    case _ => true
  }

  predicate WellFormedItems(items: Items) {
    match items
    case NoItems(gap) => AllSpace(gap)
    case LastItem(pre, d, post) => AllSpace(pre) && WellFormed(d) && AllSpace(post)
    case MoreItems(pre, d, post, rest) => AllSpace(pre) && WellFormed(d) && AllSpace(post) && WellFormedItems(rest)
  }

  predicate WellFormedMember(m: Member) {
    && AllSpace(m.pre) && WellFormedPieces(m.key) && AllSpace(m.mid) && AllSpace(m.gap)
    && WellFormed(m.value) && AllSpace(m.post)
  }

  predicate WellFormedMembers(members: Members) {
    match members
    case NoMembers(gap) => AllSpace(gap)
    case LastMember(m) => WellFormedMember(m)
    case MoreMembers(m, rest) => WellFormedMember(m) && WellFormedMembers(rest)
  }

  // ----- Text ----------------------------------------------------------------

  function PieceText(p: Piece): string {
    match p
    case Raw(c) => [c]
    case Escaped(c) => ['\\', c]
    case Unicode(a, b, c, d) => ['\\', 'u', a, b, c, d]
  }

  /** A literal from after its opening quote. */
  function LiteralTail(ps: Pieces): (t: string)
    ensures t != ""
  {
    match ps
    case End => "\""
    case More(p, rest) => PieceText(p) + LiteralTail(rest)
  }

  function Text(d: Document): (t: string)
    ensures t != "" || (d.NumberDoc? && d.text == "")
  {
    match d
    case NullDoc => "null"
    case BoolDoc(b) => if b then "true" else "false"
    case NumberDoc(t) => t
    case StringDoc(ps) => "\"" + LiteralTail(ps)
    case ArrayDoc(items) => "[" + ItemsText(items)
    case ObjectDoc(members) => "{" + MembersText(members)
  }

  function ItemsText(items: Items): string {
    match items
    case NoItems(gap) => gap + "]"
    case LastItem(pre, d, post) => pre + (Text(d) + (post + "]"))
    case MoreItems(pre, d, post, rest) => pre + (Text(d) + (post + ("," + ItemsText(rest))))
  }

  /** A member, and the text after it. */
  function MemberText(m: Member, tail: string): string {
    m.pre + ("\"" + (LiteralTail(m.key) + (m.mid + (":" + (m.gap + (Text(m.value) + (m.post + tail)))))))
  }

  function MembersText(members: Members): string {
    match members
    case NoMembers(gap) => gap + "}"
    case LastMember(m) => MemberText(m, "}")
    case MoreMembers(m, rest) => MemberText(m, "," + MembersText(rest))
  }

  // ----- Meaning -------------------------------------------------------------

  function Code(p: Piece): (code: nat)
    requires p.Unicode? && WellFormedPiece(p)
    ensures code < 0x1_0000
  {
    HexCode(p.h0, p.h1, p.h2, p.h3)
  }

  predicate IsHigh(p: Piece) { p.Unicode? && WellFormedPiece(p) && IsHighSurrogate(Code(p)) }

  predicate IsLow(p: Piece) { p.Unicode? && WellFormedPiece(p) && IsLowSurrogate(Code(p)) }

  /** The literal goes on with the two halves of a surrogate pair. */
  predicate StartsPair(ps: Pieces) {
    ps.More? && IsHigh(ps.piece) && ps.rest.More? && IsLow(ps.rest.piece)
  }

  function PairBytes(ps: Pieces): string
    requires StartsPair(ps)
  {
    Utf8(PairRune(Code(ps.piece), Code(ps.rest.piece)))
  }

  function PieceBytes(p: Piece): string
    requires WellFormedPiece(p)
  {
    match p
    case Raw(c) => [c]
    case Escaped(c) => [PartialParser.Unescaped(c)]
    case Unicode(_, _, _, _) => Utf8(Code(p))
  }

  function Decode(ps: Pieces): string
    requires WellFormedPieces(ps)
  {
    if ps.End? then ""
    else if StartsPair(ps) then
      assert WellFormedPieces(ps.rest);
      PairBytes(ps) + Decode(ps.rest.rest)
    else PieceBytes(ps.piece) + Decode(ps.rest)
  }

  function Meaning(d: Document): Value
    requires WellFormed(d)
  {
    match d
    case NullDoc => Null
    case BoolDoc(b) => Bool(b)
    case NumberDoc(t) => Number(t)
    case StringDoc(ps) => String(Decode(ps))
    case ArrayDoc(items) => Array(ItemsMeaning(items))
    case ObjectDoc(members) => Object(MembersMeaning(members, map[]))
  }

  function ItemsMeaning(items: Items): seq<Value>
    requires WellFormedItems(items)
  {
    match items
    case NoItems(_) => []
    case LastItem(_, d, _) => [Meaning(d)]
    case MoreItems(_, d, _, rest) => [Meaning(d)] + ItemsMeaning(rest)
  }

  /** Of equal keys the last one counts, as in a Go map. */
  function MembersMeaning(members: Members, before: map<string, Value>): map<string, Value>
    requires WellFormedMembers(members)
  {
    match members
    case NoMembers(_) => before
    case LastMember(m) => MemberMeaning(m, before)
    case MoreMembers(m, rest) => MembersMeaning(rest, MemberMeaning(m, before))
  }

  function MemberMeaning(m: Member, before: map<string, Value>): map<string, Value>
    requires WellFormedMember(m)
  {
    before[Decode(m.key) := Meaning(m.value)]
  }

  // ----- Meaning of the first n characters -------------------------------------

  /**
   * What the first n characters after the opening quote decode to: a piece that
   * is cut in two is dropped, and a high surrogate whose other half has not yet
   * arrived is taken for a lone one.
   */
  function DecodeSeen(ps: Pieces, n: nat): string
    requires WellFormedPieces(ps)
  {
    if ps.End? || n < |PieceText(ps.piece)| then ""
    else if StartsPair(ps) && n >= 12 then
      assert WellFormedPieces(ps.rest);
      PairBytes(ps) + DecodeSeen(ps.rest.rest, n - 12)
    else PieceBytes(ps.piece) + DecodeSeen(ps.rest, n - |PieceText(ps.piece)|)
  }

  /** The value that the first n characters of d show; None while they show none. */
  function Shown(d: Document, n: nat): Option<Value>
    requires WellFormed(d)
    decreases d
  {
    if n == 0 then None else
    match d
    case NullDoc => Some(Null)
    case BoolDoc(b) => Some(Bool(b))
    case NumberDoc(t) =>
      (match LongestFloat(if n < |t| then t[..n] else t)
       case Some(shorter) => Some(Number(shorter))
       case None => None)
    case StringDoc(ps) => Some(String(DecodeSeen(ps, n - 1)))
    case ArrayDoc(items) => Some(Array(ShownItems(items, n - 1)))
    case ObjectDoc(members) => Some(Object(ShownMembers(members, n - 1, map[])))
  }

  /** How many of n characters are left after the first width of them. */
  function After(n: nat, width: nat): nat { if n <= width then 0 else n - width }

  function AsItems(v: Option<Value>): seq<Value> { if v.None? then [] else [v.value] }

  function ItemWidth(items: Items): nat
    requires !items.NoItems?
  {
    |items.pre| + |Text(items.item)| + |items.post| + 1
  }

  function ShownItems(items: Items, n: nat): seq<Value>
    requires WellFormedItems(items)
    decreases items
  {
    match items
    case NoItems(_) => []
    case LastItem(pre, d, _) => AsItems(Shown(d, After(n, |pre|)))
    case MoreItems(pre, d, _, rest) =>
      AsItems(Shown(d, After(n, |pre|))) + ShownItems(rest, After(n, ItemWidth(items)))
  }

  /** The length of a member's text before its value. */
  function HeadWidth(m: Member): nat { |m.pre| + 1 + |LiteralTail(m.key)| + |m.mid| + 1 + |m.gap| }

  function MemberWidth(m: Member): nat { HeadWidth(m) + |Text(m.value)| + |m.post| + 1 }

  function WithMember(fields: map<string, Value>, m: Member, n: nat): map<string, Value>
    requires WellFormedMember(m)
    decreases m
  {
    match Shown(m.value, After(n, HeadWidth(m)))
    case None => fields
    case Some(v) => fields[Decode(m.key) := v]
  }

  function ShownMembers(members: Members, n: nat, before: map<string, Value>): map<string, Value>
    requires WellFormedMembers(members)
    decreases members
  {
    match members
    case NoMembers(_) => before
    case LastMember(m) => WithMember(before, m, n)
    case MoreMembers(m, rest) => ShownMembers(rest, After(n, MemberWidth(m)), WithMember(before, m, n))
  }

  lemma NothingShown(d: Document)
    requires WellFormed(d)
    ensures Shown(d, 0).None?
  {
  }

  lemma NoItemsShownYet(items: Items)
    requires WellFormedItems(items)
    ensures ShownItems(items, 0) == []
  {
  }

  lemma NoMembersShownYet(members: Members, before: map<string, Value>)
    requires WellFormedMembers(members)
    ensures ShownMembers(members, 0, before) == before
  {
    match members
    case NoMembers(_) =>
    case LastMember(m) => NothingShown(m.value);
    case MoreMembers(m, rest) =>
      NothingShown(m.value);
      NoMembersShownYet(rest, before);
  }

  /** A literal whose closing quote has been seen is decoded whole. */
  lemma WholeLiteral(ps: Pieces, n: nat)
    requires WellFormedPieces(ps) && n + 1 >= |LiteralTail(ps)|
    ensures DecodeSeen(ps, n) == Decode(ps)
  {
    if ps.More? {
      if StartsPair(ps) {
        assert WellFormedPieces(ps.rest);
        WholeLiteral(ps.rest.rest, n - 12);
      } else {
        WholeLiteral(ps.rest, n - |PieceText(ps.piece)|);
      }
    }
  }

  /** All of a document's text shows all of its meaning. */
  lemma {:induction false} FullyShown(d: Document, n: nat)
    requires WellFormed(d) && n >= |Text(d)|
    ensures Shown(d, n) == Some(Meaning(d))
    decreases d
  {
    hide FloatSyntax, OutOfFloatRange;
    match d
    case NumberDoc(t) =>
      assert t[..|t|] == t;
      assert LongestFloat(t) == Some(t);
    case StringDoc(ps) => WholeLiteral(ps, n - 1);
    case ArrayDoc(items) => ItemsFullyShown(items, n - 1);
    case ObjectDoc(members) => MembersFullyShown(members, n - 1, map[]);
    case _ =>
  }

  lemma {:induction false} ItemsFullyShown(items: Items, n: nat)
    requires WellFormedItems(items) && n >= |ItemsText(items)|
    ensures ShownItems(items, n) == ItemsMeaning(items)
    decreases items
  {
    if !items.NoItems? {
      FullyShown(items.item, After(n, |items.pre|));
      if items.MoreItems? {
        ItemsFullyShown(items.rest, After(n, ItemWidth(items)));
      }
    }
  }

  lemma MemberTextLength(m: Member, tail: string)
    ensures |MemberText(m, tail)| == MemberWidth(m) - 1 + |tail|
  {
  }

  lemma {:induction false} MembersFullyShown(members: Members, n: nat, before: map<string, Value>)
    requires WellFormedMembers(members) && n >= |MembersText(members)|
    ensures ShownMembers(members, n, before) == MembersMeaning(members, before)
    decreases members
  {
    if !members.NoMembers? {
      var m := members.member;
      assert WellFormedMember(m);
      MemberTextLength(m, if members.LastMember? then "}" else "," + MembersText(members.rest));
      FullyShown(m.value, After(n, HeadWidth(m)));
      if members.MoreMembers? {
        MembersFullyShown(members.rest, After(n, MemberWidth(m)), MemberMeaning(m, before));
      }
    }
  }
}
