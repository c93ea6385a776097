/**
 * ParseStreaming: strict parse, then strict parse of the repaired text, then
 * partial parse, then partial parse of the repaired text, then an empty
 * object. Strict parsing is a library's; it is specified here by the documents
 * it accepts.
 */
module StreamingJson {
  import opened Wrappers
  import opened JsonText
  import opened JsonDocument
  import opened PartialMeaning
  import opened PartialGrowth
  import opened StringRepair
  import opened RepairReading
  import PartialParser

  // ----- Strict JSON ------------------------------------------------------------

  /** The number grammar of section 6 of RFC 8259. */
  predicate IsJsonNumber(t: string) {
    var i := if t != "" && t[0] == '-' then 1 else 0;
    var j := DigitsEnd(t, i);
    var k := if j < |t| && t[j] == '.' then DigitsEnd(t, j + 1) else j;
    && j > i && (t[i] == '0' ==> j == i + 1)
    && k != j + 1
    && (k < |t| ==>
          && (t[k] == 'e' || t[k] == 'E')
          && var m := SignEnd(t, k + 1);
          m < |t| && DigitsEnd(t, m) == |t|)
  }

  lemma {:induction false} DigitsAreDigits(t: string, i: nat, k: nat)
    requires i <= |t| && i <= k < DigitsEnd(t, i)
    ensures IsDigit(t[k])
    decreases k - i
  {
    if k > i {
      DigitsAreDigits(t, i + 1, k);
    }
  }

  lemma JsonNumberIsFloat(t: string)
    requires IsJsonNumber(t)
    ensures FloatSyntax(t)
  {
  }

  lemma JsonNumberChars(t: string)
    requires IsJsonNumber(t)
    ensures t[0] == '-' || IsDigit(t[0])
    ensures forall c | 0 <= c < |t| :: IsNumberChar(t[c])
  {
    hide DigitsEnd;
    var i := if t != "" && t[0] == '-' then 1 else 0;
    var j := DigitsEnd(t, i);
    var k := if j < |t| && t[j] == '.' then DigitsEnd(t, j + 1) else j;
    DigitsAreDigits(t, i, i);
    forall c | 0 <= c < |t| ensures IsNumberChar(t[c]) {
      if i <= c < j {
        DigitsAreDigits(t, i, c);
      } else if j < c < k {
        DigitsAreDigits(t, j + 1, c);
      } else if k < c && SignEnd(t, k + 1) <= c {
        DigitsAreDigits(t, SignEnd(t, k + 1), c);
      }
    }
  }

  /**
   * Every number that the grammar allows is one that the partial parser reads
   * whole, and a document of its own unless it is out of a float64's range.
   */
  lemma JsonNumberIsDocument(t: string)
    requires IsJsonNumber(t)
    ensures FloatSyntax(t) && (WellFormed(NumberDoc(t)) <==> !OutOfFloatRange(t))
  {
    JsonNumberIsFloat(t);
    JsonNumberChars(t);
    hide OutOfFloatRange, FloatSyntax, IsJsonNumber;
  }

  predicate StrictPieces(ps: Pieces) {
    ps.More? ==> !(ps.piece.Raw? && IsControl(ps.piece.c)) && StrictPieces(ps.rest)
  }

  /** No string of the document holds a raw control character. */
  predicate StrictStrings(d: Document) {
    match d
    case StringDoc(ps) => StrictPieces(ps)
    case ArrayDoc(items) => StrictItemStrings(items)
    case ObjectDoc(members) => StrictMemberStrings(members)
    case _ => true
  }

  predicate StrictItemStrings(items: Items) {
    !items.NoItems? ==> StrictStrings(items.item) && (items.MoreItems? ==> StrictItemStrings(items.rest))
  }

  predicate StrictMemberStrings(members: Members) {
    !members.NoMembers? ==>
      && StrictPieces(members.member.key) && StrictStrings(members.member.value)
      && (members.MoreMembers? ==> StrictMemberStrings(members.rest))
  }

  /** Numbers follow the grammar, and no comma stands before a closing bracket. */
  predicate StrictSyntax(d: Document) {
    match d
    case NumberDoc(t) => IsJsonNumber(t)
    case ArrayDoc(items) => StrictItems(items)
    case ObjectDoc(members) => StrictMembers(members)
    case _ => true
  }

  predicate StrictItems(items: Items) {
    !items.NoItems? ==>
      StrictSyntax(items.item) && (items.MoreItems? ==> !items.rest.NoItems? && StrictItems(items.rest))
  }

  predicate StrictMembers(members: Members) {
    !members.NoMembers? ==>
      && StrictSyntax(members.member.value)
      && (members.MoreMembers? ==> !members.rest.NoMembers? && StrictMembers(members.rest))
  }

  /** The text t is the strict JSON document d between white space. */
  predicate IsStrictText(t: string, lead: string, d: Document, trail: string) {
    && AllSpace(lead) && AllSpace(trail) && WellFormed(d) && StrictStrings(d) && StrictSyntax(d)
    && t == lead + (Text(d) + trail)
  }

  /** The raw bytes that a literal goes on with. */
  function RawBytes(ps: Pieces): string {
    if ps.More? && ps.piece.Raw? then [ps.piece.c] + RawBytes(ps.rest) else ""
  }

  /** A byte that is not part of a valid encoding is read as U+FFFD; the next valid bytes are known already. */
  function Coerced(ps: Pieces, valid: nat): Pieces {
    if ps.End? then End
    else if !ps.piece.Raw? then More(ps.piece, Coerced(ps.rest, 0))
    else if valid > 0 then More(ps.piece, Coerced(ps.rest, valid - 1))
    else if RuneSize(RawBytes(ps)) > 0 then More(ps.piece, Coerced(ps.rest, RuneSize(RawBytes(ps)) - 1))
    else More(Raw('\U{EF}'), More(Raw('\U{BF}'), More(Raw('\U{BD}'), Coerced(ps.rest, 0))))
  }

  function CoercedDocument(d: Document): Document {
    match d
    case StringDoc(ps) => StringDoc(Coerced(ps, 0))
    case ArrayDoc(items) => ArrayDoc(CoercedItems(items))
    case ObjectDoc(members) => ObjectDoc(CoercedMembers(members))
    case _ => d
  }

  function CoercedItems(items: Items): Items {
    match items
    case NoItems(_) => items
    case LastItem(pre, d, post) => LastItem(pre, CoercedDocument(d), post)
    case MoreItems(pre, d, post, rest) => MoreItems(pre, CoercedDocument(d), post, CoercedItems(rest))
  }

  function CoercedMember(m: Member): Member { m.(key := Coerced(m.key, 0), value := CoercedDocument(m.value)) }

  function CoercedMembers(members: Members): Members {
    match members
    case NoMembers(_) => members
    case LastMember(m) => LastMember(CoercedMember(m))
    case MoreMembers(m, rest) => MoreMembers(CoercedMember(m), CoercedMembers(rest))
  }

  lemma {:induction false} CoercedPiecesFit(ps: Pieces, valid: nat)
    requires WellFormedPieces(ps)
    ensures WellFormedPieces(Coerced(ps, valid))
    decreases ps
  {
    if ps.More? {
      var size := RuneSize(RawBytes(ps));
      CoercedPiecesFit(ps.rest, if !ps.piece.Raw? then 0 else if valid > 0 then valid - 1 else if size > 0 then size - 1 else 0);
    }
  }

  lemma {:induction false} CoercedFits(d: Document)
    requires WellFormed(d)
    ensures WellFormed(CoercedDocument(d))
    decreases d
  {
    hide IsFloat;
    match d
    case StringDoc(ps) => CoercedPiecesFit(ps, 0);
    case ArrayDoc(items) => CoercedItemsFit(items);
    case ObjectDoc(members) => CoercedMembersFit(members);
    case _ =>
  }

  lemma {:induction false} CoercedItemsFit(items: Items)
    requires WellFormedItems(items)
    ensures WellFormedItems(CoercedItems(items))
    decreases items
  {
    if !items.NoItems? {
      CoercedFits(items.item);
      if items.MoreItems? {
        CoercedItemsFit(items.rest);
      }
    }
  }

  lemma {:induction false} CoercedMembersFit(members: Members)
    requires WellFormedMembers(members)
    ensures WellFormedMembers(CoercedMembers(members))
    decreases members
  {
    if !members.NoMembers? {
      assert WellFormedMember(members.member);
      CoercedPiecesFit(members.member.key, 0);
      CoercedFits(members.member.value);
      if members.MoreMembers? {
        CoercedMembersFit(members.rest);
      }
    }
  }

  /** What a strict JSON parser returns for a text: the meaning of its document, with invalid UTF-8 replaced. */
  ghost function StrictParse(t: string): Option<Value> {
    if exists lead, d, trail :: IsStrictText(t, lead, d, trail) then
      var lead, d, trail :| IsStrictText(t, lead, d, trail);
      CoercedFits(d);
      Some(if IsUtf8(t) then Meaning(d) else Meaning(CoercedDocument(d)))
    else
      None
  }

  lemma StrictDocument(t: string) returns (lead: string, d: Document, trail: string)
    requires StrictParse(t).Some? || exists lead, d, trail :: IsStrictText(t, lead, d, trail)
    ensures IsStrictText(t, lead, d, trail)
    ensures IsUtf8(t) ==> StrictParse(t) == Some(Meaning(d))
  {
    hide CoercedDocument, IsUtf8, WellFormed, StrictStrings, StrictSyntax, Meaning, Text;
    assert exists lead, d, trail :: IsStrictText(t, lead, d, trail);
    lead, d, trail :| IsStrictText(t, lead, d, trail) && (IsUtf8(t) ==> StrictParse(t) == Some(Meaning(d)));
  }

  /** The strict value of a text does not depend on how it is taken apart. */
  lemma StrictParseIsPartialParse(t: string, lead: string, d: Document, trail: string)
    requires IsUtf8(t) && IsStrictText(t, lead, d, trail)
    ensures StrictParse(t) == Some(Meaning(d)) == PartialParser.ParsePartial(t)
    ensures Clean(t, false) && !OpenAtEnd(t, false)
  {
    hide WellFormed, StrictStrings, StrictSyntax, Meaning, Text, PartialParser.ParsePartial, Sane;
    ParsePartialWhole(lead, d, trail);
    var lead', d', trail' := StrictDocument(t);
    ParsePartialWhole(lead', d', trail');
    TextIsWhole(lead, d, trail, true);
    SaneIsClean(t, false);
  }

  // ----- The strings of a document hardly need repair -----------------------------------

  /** Sane, and complete: no string is left open. */
  predicate Whole(s: string, strict: bool) { Sane(s, false, strict) && !OpenAtEnd(s, false) }

  lemma WholeAppend(a: string, b: string, strict: bool)
    requires Whole(a, strict) && Whole(b, strict)
    ensures Whole(a + b, strict)
  {
    SaneAppend(a, b, false, strict);
  }

  lemma NoQuoteIsWhole(s: string, strict: bool)
    requires '"' !in s
    ensures Whole(s, strict)
  {
    if s != "" {
      assert FirstToken(s, false) == Token([s[0]], [s[0]], false);
      NoQuoteIsWhole(s[1..], strict);
    }
  }

  lemma SpaceIsWhole(w: string, strict: bool)
    requires AllSpace(w)
    ensures Whole(w, strict)
  {
    NoQuoteIsWhole(w, strict);
  }

  lemma PieceToken(p: Piece, rest: string)
    requires WellFormedPiece(p)
    ensures var s := PieceText(p) + rest; var control := p.Raw? && IsControl(p.c);
            && FirstToken(s, true) == Token(PieceText(p), if control then EscapeControl(p.c) else PieceText(p), true)
            && Rest(s, true) == rest && s[0] == PieceText(p)[0]
  {
    hide EscapeControl;
    var raw, s := PieceText(p), PieceText(p) + rest;
    assert s[..|raw|] == raw;
  }

  lemma {:induction false} LiteralIsWhole(ps: Pieces, strict: bool)
    requires WellFormedPieces(ps) && (strict ==> StrictPieces(ps))
    ensures Sane(LiteralTail(ps), true, strict) && !OpenAtEnd(LiteralTail(ps), true)
    decreases ps
  {
    if ps.End? {
      ClosingQuote(strict);
    } else {
      PieceToken(ps.piece, LiteralTail(ps.rest));
      PieceIsNoU(ps.piece);
      hide FirstToken, PieceText, EscapeControl;
      LiteralIsWhole(ps.rest, strict);
    }
  }

  lemma PieceIsNoU(p: Piece)
    ensures PieceText(p) != "" && (WellFormedPiece(p) ==> PieceText(p) != "\\u")
    ensures p.Raw? ==> PieceText(p)[0] == p.c
  {
  }

  lemma ClosingQuote(strict: bool)
    ensures Sane("\"", true, strict) && !OpenAtEnd("\"", true)
  {
    assert FirstToken("\"", true) == Token("\"", "\"", false);
  }

  lemma QuotedIsWhole(ps: Pieces, strict: bool)
    requires WellFormedPieces(ps) && (strict ==> StrictPieces(ps))
    ensures Whole("\"" + LiteralTail(ps), strict)
  {
    var s := "\"" + LiteralTail(ps);
    assert FirstToken(s, false) == Token("\"", "\"", true);
    assert Rest(s, false) == LiteralTail(ps);
    LiteralIsWhole(ps, strict);
  }

  lemma {:induction false} DocumentIsWhole(d: Document, strict: bool)
    requires WellFormed(d) && (strict ==> StrictStrings(d))
    ensures Whole(Text(d), strict)
    decreases d
  {
    hide Whole, WellFormedPieces, LiteralTail;
    match d
    case StringDoc(ps) => QuotedIsWhole(ps, strict);
    case ArrayDoc(items) =>
      NoQuoteIsWhole("[", strict);
      ItemsAreWhole(items, strict);
      WholeAppend("[", ItemsText(items), strict);
    case ObjectDoc(members) =>
      NoQuoteIsWhole("{", strict);
      MembersAreWhole(members, strict);
      WholeAppend("{", MembersText(members), strict);
    case NumberDoc(t) =>
      assert '"' !in t;
      NoQuoteIsWhole(t, strict);
    case _ => NoQuoteIsWhole(Text(d), strict);
  }

  lemma {:induction false} ItemsAreWhole(items: Items, strict: bool)
    requires WellFormedItems(items) && (strict ==> StrictItemStrings(items))
    ensures Whole(ItemsText(items), strict)
    decreases items
  {
    hide Whole, WellFormed, Text;
    if items.NoItems? {
      SpaceIsWhole(items.gap, strict);
      NoQuoteIsWhole("]", strict);
      WholeAppend(items.gap, "]", strict);
    } else {
      DocumentIsWhole(items.item, strict);
      if items.LastItem? {
        NoQuoteIsWhole("]", strict);
      } else {
        NoQuoteIsWhole(",", strict);
        ItemsAreWhole(items.rest, strict);
        WholeAppend(",", ItemsText(items.rest), strict);
      }
      ItemsWidth(items);
      BetweenSpaces(items.pre, Text(items.item), items.post, ItemTail(items), strict);
    }
  }

  lemma BetweenSpaces(pre: string, t: string, post: string, tail: string, strict: bool)
    requires AllSpace(pre) && AllSpace(post) && Whole(t, strict) && Whole(tail, strict)
    ensures Whole(pre + (t + (post + tail)), strict)
  {
    hide Whole;
    SpaceIsWhole(pre, strict);
    SpaceIsWhole(post, strict);
    WholeAppend(post, tail, strict);
    WholeAppend(t, post + tail, strict);
    WholeAppend(pre, t + (post + tail), strict);
  }

  lemma {:induction false} MembersAreWhole(members: Members, strict: bool)
    requires WellFormedMembers(members) && (strict ==> StrictMemberStrings(members))
    ensures Whole(MembersText(members), strict)
    decreases members
  {
    hide Whole, WellFormed, Text, WellFormedPieces, LiteralTail;
    if members.NoMembers? {
      SpaceIsWhole(members.gap, strict);
      NoQuoteIsWhole("}", strict);
      WholeAppend(members.gap, "}", strict);
    } else {
      var m := members.member;
      assert WellFormedMember(m);
      DocumentIsWhole(m.value, strict);
      if members.LastMember? {
        NoQuoteIsWhole("}", strict);
      } else {
        NoQuoteIsWhole(",", strict);
        MembersAreWhole(members.rest, strict);
        WholeAppend(",", MembersText(members.rest), strict);
      }
      MemberIsWhole(m, MemberTail(members), strict);
      MembersTextIs(members);
    }
  }

  lemma MemberIsWhole(m: Member, tail: string, strict: bool)
    requires WellFormedMember(m) && (strict ==> StrictPieces(m.key)) && Whole(Text(m.value), strict) && Whole(tail, strict)
    ensures Whole(MemberText(m, tail), strict)
  {
    hide Whole, WellFormed, Text, WellFormedPieces, LiteralTail;
    BetweenSpaces(m.gap, Text(m.value), m.post, tail, strict);
    var value := m.gap + (Text(m.value) + (m.post + tail));
    NoQuoteIsWhole(":", strict);
    QuotedIsWhole(m.key, strict);
    WholeAppend(":", value, strict);
    BetweenSpaces(m.pre, "\"" + LiteralTail(m.key), m.mid, ":" + value, strict);
    assert "\"" + LiteralTail(m.key) + (m.mid + (":" + value)) == "\"" + (LiteralTail(m.key) + (m.mid + (":" + value)));
  }

  lemma TextIsWhole(lead: string, d: Document, trail: string, strict: bool)
    requires AllSpace(lead) && AllSpace(trail) && WellFormed(d) && (strict ==> StrictStrings(d))
    ensures Whole(lead + (Text(d) + trail), strict)
  {
    hide Whole, WellFormed, Text;
    DocumentIsWhole(d, strict);
    SpaceIsWhole(lead, strict);
    SpaceIsWhole(trail, strict);
    WholeAppend(Text(d), trail, strict);
    WholeAppend(lead, Text(d) + trail, strict);
  }

  /** Whatever is parsed strictly needs no repair. */
  lemma StrictIsWhole(t: string)
    requires StrictParse(t).Some?
    ensures Clean(t, false) && !OpenAtEnd(t, false)
  {
    hide WellFormed, StrictStrings, StrictSyntax, Text, StrictParse, Sane;
    var lead, d, trail := StrictDocument(t);
    TextIsWhole(lead, d, trail, true);
    SaneIsClean(t, false);
  }

  // ----- A document ends with an ASCII character ----------------------------------------

  lemma {:induction false} LiteralEndsAscii(ps: Pieces)
    ensures EndsAscii(LiteralTail(ps))
    decreases ps
  {
    if ps.More? {
      LiteralEndsAscii(ps.rest);
    }
  }

  lemma {:induction false} DocumentEndsAscii(d: Document)
    requires WellFormed(d)
    ensures EndsAscii(Text(d))
  {
    hide IsFloat, ItemsText, MembersText, LiteralTail;
    match d
    case StringDoc(ps) => LiteralEndsAscii(ps);
    case ArrayDoc(items) => ItemsEndAscii(items);
    case ObjectDoc(members) => MembersEndAscii(members);
    case NumberDoc(t) => assert IsNumberChar(t[|t| - 1]);
    case _ =>
  }

  lemma {:induction false} ItemsEndAscii(items: Items)
    ensures EndsAscii(ItemsText(items))
    decreases items
  {
    hide Text;
    if items.MoreItems? {
      ItemsEndAscii(items.rest);
    }
  }

  lemma {:induction false} MembersEndAscii(members: Members)
    ensures EndsAscii(MembersText(members))
    decreases members
  {
    hide Text, LiteralTail;
    if members.MoreMembers? {
      MembersEndAscii(members.rest);
    }
  }

  lemma StrictEndsAscii(t: string)
    requires StrictParse(t).Some?
    ensures EndsAscii(t)
  {
    hide WellFormed, StrictStrings, StrictSyntax, Text, StrictParse;
    var lead, d, trail := StrictDocument(t);
    DocumentEndsAscii(d);
    assert trail != "" ==> IsSpace(trail[|trail| - 1]);
  }

  /** What is parsed strictly out of valid text, as it is or repaired, is valid text. */
  lemma StrictPrefixIsUtf8(s: string, n: nat)
    requires n <= |s| && IsUtf8(s)
    ensures StrictParse(s[..n]).Some? ==> IsUtf8(s[..n])
    ensures StrictParse(Repair(s[..n])).Some? ==> IsUtf8(Repair(s[..n]))
  {
    hide StrictParse, IsUtf8, RepairFrom;
    if StrictParse(s[..n]).Some? {
      StrictEndsAscii(s[..n]);
      Utf8Prefix(s, n);
    }
    if StrictParse(Repair(s[..n])).Some? {
      StrictEndsAscii(Repair(s[..n]));
      EndsAsciiBefore(s[..n], false);
      Utf8Prefix(s, n);
      RepairIsUtf8(s[..n], false);
    }
  }

  // ----- ParseStreaming ---------------------------------------------------------------

  /** The bytes that strings.TrimSpace removes; longer space characters never begin a value. */
  predicate IsTrimmed(c: char) { IsSpace(c) || c == '\U{000B}' || c == '\U{000C}' }

  predicate IsBlank(s: string) { forall i | 0 <= i < |s| :: IsTrimmed(s[i]) }

  /** A JSON null becomes an empty object. */
  function Normalize(v: Value): Value { if v.Null? then Object(map[]) else v }

  function NormalizeShown(v: Option<Value>): Value {
    match v
    case Some(value) => Normalize(value)
    case None => Object(map[])
  }

  ghost function ParseWithRepair(s: string): Option<Value> {
    if StrictParse(s).Some? then StrictParse(s)
    else if Repair(s) != s then StrictParse(Repair(s))
    else None
  }

  ghost function ParseStreaming(s: string): Value {
    if IsBlank(s) then Object(map[])
    else if ParseWithRepair(s).Some? then Normalize(ParseWithRepair(s).value)
    else if PartialParser.ParsePartial(s).Some? then Normalize(PartialParser.ParsePartial(s).value)
    else NormalizeShown(PartialParser.ParsePartial(Repair(s)))
  }

  ghost function ParseStreamingObject(s: string): map<string, Value> {
    match ParseStreaming(s)
    case Object(fields) => fields
    case _ => map[]
  }

  lemma BlankShowsNothing(s: string)
    requires IsBlank(s)
    ensures PartialParser.ParsePartial(s).None? && Repair(s) == s
  {
    NoQuoteIsWhole(s, true);
    SaneIsClean(s, false);
    RepairKeepsIffClean(s);
  }

  /** The repaired text is read strictly only as the partial parser reads it. */
  lemma RepairedStrictly(t: string, n: nat)
    requires n <= |t| && IsUtf8(t) && StrictParse(Repair(t[..n])).Some?
    ensures StrictParse(Repair(t[..n])) == PartialParser.ParsePartial(Repair(t[..n]))
    ensures !EndsInBackslash(t[..n], false)
  {
    hide StrictParse, IsUtf8, RepairFrom, Repair, IsStrictText, Meaning, PartialParser.ParsePartial, Clean, OpenAtEnd, EndsInBackslash;
    var s := t[..n];
    StrictPrefixIsUtf8(t, n);
    var lead, d, trail := StrictDocument(Repair(s));
    StrictParseIsPartialParse(Repair(s), lead, d, trail);
    RepairIsWhat(s);
    RepairIsClean(s, false);
    if EndsInBackslash(s, false) {
      BackslashStaysOpen(s, false);
    }
  }

  lemma RepairIsWhat(s: string)
    ensures Repair(s) == RepairFrom(s, false)
  {
  }

  /**
   * For any prefix of a valid text whose u escapes are whole, or cut by its end:
   * the strict attempts never change the answer. It is the partial parser's, and
   * the partial parser's for the repaired text if that gives up; unless the
   * prefix ends in a backslash it is the latter at once.
   */
  lemma StrictAddsNothing(t: string, n: nat)
    requires n <= |t| && IsUtf8(t) && Mendable(t[..n], false)
    ensures var s := t[..n]; var direct, repaired := PartialParser.ParsePartial(s), PartialParser.ParsePartial(Repair(s));
            && ParseStreaming(s) == NormalizeShown(if direct.Some? then direct else repaired)
            && (!EndsInBackslash(s, false) ==> ParseStreaming(s) == NormalizeShown(repaired))
  {
    hide PartialParser.ParsePartial, Clean, OpenAtEnd, StrictParse, IsUtf8, IsStrictText, Meaning, IsBlank, RepairFrom, Repair,
         Mendable, HasStray, Mended, EndsInBackslash;
    var s := t[..n];
    RepairIsWhat(s);
    MendedIsRepaired(s, false);
    MendedReadsAlike(s);
    if !EndsInBackslash(s, false) {
      assert Mended(s, false) + "" == Mended(s, false);
    }
    if IsBlank(s) {
      BlankShowsNothing(s);
    } else if StrictParse(s).Some? {
      StrictPrefixIsUtf8(t, n);
      var lead, d, trail := StrictDocument(s);
      StrictParseIsPartialParse(s, lead, d, trail);
    } else if Repair(s) != s && StrictParse(Repair(s)).Some? {
      RepairedStrictly(t, n);
    }
  }

  /** While a document shows nothing, no reading of its text succeeds. */
  lemma NothingToRepair(lead: string, d: Document, trail: string, n: nat)
    requires WellFormed(d) && AllSpace(lead) && AllSpace(trail)
    requires n <= |lead + (Text(d) + trail)| && Shown(d, After(n, |lead|)).None?
    ensures Repair((lead + (Text(d) + trail))[..n]) == (lead + (Text(d) + trail))[..n]
  {
    hide IsFloat, LongestFloat, RepairFrom;
    var full := lead + (Text(d) + trail);
    assert '"' !in full[..n] by {
      if n > |lead| {
        assert d.NumberDoc?;
      }
    }
    NoQuoteIsWhole(full[..n], true);
    SaneIsClean(full[..n], false);
    RepairKeepsIffClean(full[..n]);
  }

  lemma DocumentIsNotBlank(lead: string, d: Document, trail: string, n: nat)
    requires WellFormed(d) && |lead| < n <= |lead + (Text(d) + trail)|
    ensures !IsBlank((lead + (Text(d) + trail))[..n])
  {
    FirstChar(d);
    assert (lead + (Text(d) + trail))[..n][|lead|] == Text(d)[0];
  }

  /**
   * On every prefix of a document, ParseStreaming returns what the prefix shows:
   * none of the strict and repairing attempts before the partial parse, nor the
   * one after it, ever changes the answer, even when raw control characters in
   * strings make the repair a different text.
   */
  lemma ParseStreamingShows(lead: string, d: Document, trail: string, n: nat)
    requires WellFormed(d) && AllSpace(lead) && AllSpace(trail)
    requires n <= |lead + (Text(d) + trail)| && IsUtf8(lead + (Text(d) + trail))
    ensures ParseStreaming((lead + (Text(d) + trail))[..n]) == NormalizeShown(Shown(d, After(n, |lead|)))
  {
    hide WellFormed, Shown, Sane, OpenAtEnd, PartialParser.ParsePartial, Text, IsUtf8, ParseStreaming, Repair, EndsInBackslash;
    var full := lead + (Text(d) + trail);
    ParsePartialShows(lead, d, trail, n);
    TextIsWhole(lead, d, trail, false);
    SaneHasNoStray(full, false, false);
    PrefixMends(full, n, false);
    StrictAddsNothing(full, n);
    if Shown(d, After(n, |lead|)).None? {
      NothingToRepair(lead, d, trail, n);
    }
  }

  lemma RepairedIsNotBlank(s: string, lead: string, d: Document, trail: string)
    requires WellFormed(d) && Repair(s) == lead + (Text(d) + trail)
    ensures !IsBlank(s)
  {
    hide WellFormed, Text, RepairFrom, Repair;
    FirstChar(d);
    if IsBlank(s) {
      NoQuoteIsWhole(s, true);
      SaneIsClean(s, false);
      RepairKeepsIffClean(s);
      assert s[..|s|] == s;
      DocumentIsNotBlank(lead, d, trail, |s|);
    }
  }

  /** A text whose repair is a document, whole, is read as that document. */
  lemma RepairedTextIsRead(s: string, lead: string, d: Document, trail: string)
    requires IsUtf8(Repair(s)) && IsStrictText(Repair(s), lead, d, trail)
    ensures ParseStreaming(s) == Normalize(Meaning(d))
  {
    hide WellFormed, StrictStrings, StrictSyntax, Meaning, Text, PartialParser.ParsePartial, Clean, OpenAtEnd, StrictParse, IsUtf8;
    StrictParseIsPartialParse(Repair(s), lead, d, trail);
    if StrictParse(s).Some? {
      StrictIsWhole(s);
      RepairKeepsIffClean(s);
    } else if Repair(s) == s {
      assert false;
    }
    RepairedIsNotBlank(s, lead, d, trail);
  }

  /** What ParseStreamingObject returns for a prefix of an object: its shown fields, or none yet. */
  lemma StreamedArguments(lead: string, d: Document, trail: string, n: nat)
    requires WellFormed(d) && d.ObjectDoc? && AllSpace(lead) && AllSpace(trail)
    requires n <= |lead + (Text(d) + trail)| && IsUtf8(lead + (Text(d) + trail))
    ensures var shown := Shown(d, After(n, |lead|));
            && (shown.None? <==> After(n, |lead|) == 0)
            && Object(ParseStreamingObject((lead + (Text(d) + trail))[..n])) ==
               if shown.None? then Object(map[]) else shown.value
  {
    hide ParseStreaming, WellFormed, Text;
    ParseStreamingShows(lead, d, trail, n);
  }

  lemma NothingSplit(d: Document)
    requires WellFormed(d)
    ensures !SplitsPair(d, 0)
  {
  }

  /** The arguments shown on one delta approximate those shown on any later one that gives none of their keys again. */
  lemma StreamedArgumentsGrow(lead: string, d: Document, trail: string, n: nat, m: nat)
    requires WellFormed(d) && d.ObjectDoc? && AllSpace(lead) && AllSpace(trail)
    requires n <= m <= |lead + (Text(d) + trail)| && IsUtf8(lead + (Text(d) + trail))
    requires !SplitsPair(d, After(n, |lead|)) && NoneOverridden(d, After(n, |lead|), After(m, |lead|))
    ensures var full := lead + (Text(d) + trail);
            Approximates(Object(ParseStreamingObject(full[..n])), Object(ParseStreamingObject(full[..m])))
  {
    hide ParseStreaming, ParseStreamingObject, WellFormed, SplitsPair, Shown, Text;
    StreamedArguments(lead, d, trail, n);
    StreamedArguments(lead, d, trail, m);
    ShownGrows(d, After(n, |lead|), After(m, |lead|));
  }

  /**
   * The arguments shown on a delta approximate the final ones if and only if
   * the delta does not end inside a surrogate pair of a string value.
   */
  lemma StreamedArgumentsApproximateIff(lead: string, d: Document, trail: string, n: nat)
    requires WellFormed(d) && d.ObjectDoc? && DistinctKeys(d) && AllSpace(lead) && AllSpace(trail)
    requires n <= |lead + (Text(d) + trail)| && IsUtf8(lead + (Text(d) + trail))
    ensures var full := lead + (Text(d) + trail);
            && Object(ParseStreamingObject(full)) == Meaning(d)
            && (Approximates(Object(ParseStreamingObject(full[..n])), Meaning(d)) <==> !SplitsPair(d, After(n, |lead|)))
  {
    hide ParseStreaming, ParseStreamingObject, WellFormed, SplitsPair, Shown, Text;
    var full, k := lead + (Text(d) + trail), After(n, |lead|);
    assert full[..|full|] == full;
    StreamedArguments(lead, d, trail, |full|);
    FullyShown(d, After(|full|, |lead|));
    StreamedArguments(lead, d, trail, n);
    if k > 0 {
      ShownApproximatesIff(d, k);
    } else {
      NothingSplit(d);
    }
  }

  /**
   * Between any two deltas: the arguments shown on the earlier one approximate
   * those shown on the later one if and only if it does not end inside a
   * surrogate pair, or every cut between them does.
   */
  lemma StreamedArgumentsExactly(lead: string, d: Document, trail: string, n: nat, m: nat)
    requires WellFormed(d) && d.ObjectDoc? && DistinctKeys(d) && AllSpace(lead) && AllSpace(trail)
    requires n <= m <= |lead + (Text(d) + trail)| && IsUtf8(lead + (Text(d) + trail))
    ensures var full := lead + (Text(d) + trail); var i, j := After(n, |lead|), After(m, |lead|);
            Approximates(Object(ParseStreamingObject(full[..n])), Object(ParseStreamingObject(full[..m]))) <==>
              !SplitsPair(d, i) || forall k | i <= k <= j :: SplitsPair(d, k)
  {
    hide ParseStreaming, ParseStreamingObject, WellFormed, SplitsPair, Shown, Text;
    var i, j := After(n, |lead|), After(m, |lead|);
    StreamedArguments(lead, d, trail, n);
    StreamedArguments(lead, d, trail, m);
    if i > 0 {
      ShownApproximatesExactly(d, i, j);
    } else {
      NothingSplit(d);
    }
  }
}
