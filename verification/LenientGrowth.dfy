/**
 * When a prefix of a lenient text shows an approximation of what the text
 * means: the exact condition, also at a backslash that Repair escapes before
 * the rest of its escape has arrived.
 */
module LenientGrowth {
  import opened Wrappers
  import opened JsonText
  import opened JsonDocument
  import opened PartialGrowth
  import opened StringRepair
  import opened RepairReading
  import opened StreamingJson
  import opened LenientText

  // ----- Where the early backslash is wrong -----------------------------------------------

  /** The cut escape is not for a backslash, or is the second half of a surrogate pair. */
  predicate LiteralWrong(ps: Pieces, n: nat)
    requires WellFormedPieces(ps) && LiteralCuts(ps, n)
    decreases ps
  {
    if n < |PieceText(ps.piece)| then PieceBytes(ps.piece) != "\\"
    else if StartsPair(ps) then
      assert WellFormedPieces(ps.rest) && LiteralCuts(ps.rest, n - 6);
      n < 12 || LiteralWrong(ps.rest.rest, n - 12)
    else LiteralWrong(ps.rest, n - |PieceText(ps.piece)|)
  }

  /** It is wrong so in the string value that is open at the cut; a key that is cut is dropped. */
  predicate Wrong(d: Document, k: nat)
    requires WellFormed(d) && CutsEscape(d, k)
    decreases d
  {
    match d
    case StringDoc(ps) => LiteralWrong(ps, k - 1)
    case ArrayDoc(items) => ItemsWrong(items, k - 1)
    case ObjectDoc(members) => MembersWrong(members, k - 1)
  }

  predicate ItemsWrong(items: Items, n: nat)
    requires WellFormedItems(items) && ItemsCut(items, n)
    decreases items
  {
    if CutsEscape(items.item, After(n, |items.pre|)) then Wrong(items.item, After(n, |items.pre|))
    else ItemsWrong(items.rest, After(n, ItemWidth(items)))
  }

  predicate MemberWrong(m: Member, n: nat)
    requires WellFormedMember(m) && MemberCuts(m, n)
    decreases m
  {
    !KeyCut(m, n) && Wrong(m.value, After(n, HeadWidth(m)))
  }

  predicate MembersWrong(members: Members, n: nat)
    requires WellFormedMembers(members) && MembersCut(members, n)
    decreases members
  {
    if MemberCuts(members.member, n) then MemberWrong(members.member, n)
    else MembersWrong(members.rest, After(n, MemberWidth(members.member)))
  }

  // ----- Strings -----------------------------------------------------------------------------

  lemma NothingDecodedYet(ps: Pieces)
    requires WellFormedPieces(ps)
    ensures DecodeSeen(ps, 0) == ""
  {
  }

  /** What a piece stands for begins with a backslash only if it is one. */
  lemma BackslashPiece(p: Piece, rest: string)
    requires WellFormedPiece(p)
    ensures "\\" <= PieceBytes(p) + rest <==> PieceBytes(p) == "\\"
  {
    var bytes := PieceBytes(p);
    assert bytes != "" && (bytes[0] == '\\' ==> bytes == "\\");
    assert (bytes + rest)[0] == bytes[0];
  }

  lemma CutPieceShown(ps: Pieces, n: nat)
    requires WellFormedPieces(ps) && LiteralCuts(ps, n) && WellFormedPieces(LiteralWith(ps, n)) && n < |PieceText(ps.piece)|
    ensures DecodeSeen(LiteralWith(ps, n), n + 1) <= Decode(ps) <==> PieceBytes(ps.piece) == "\\"
  {
    var r := LiteralWith(ps, n);
    NothingDecodedYet(r.rest);
    assert DecodeSeen(r, n + 1) == "\\";
    if StartsPair(ps) {
      assert PieceBytes(ps.piece) != "\\";
      assert Decode(ps)[0] == PairBytes(ps)[0] != '\\';
    } else {
      BackslashPiece(ps.piece, Decode(ps.rest));
    }
  }

  lemma PairWidth(ps: Pieces, n: nat)
    requires StartsPair(ps) && n >= |PieceText(ps.piece)|
    ensures n >= 6
  {
  }

  lemma {:induction false} LiteralWithShown(ps: Pieces, n: nat)
    requires WellFormedPieces(ps) && LiteralCuts(ps, n) && WellFormedPieces(LiteralWith(ps, n))
    ensures DecodeSeen(LiteralWith(ps, n), n + 1) <= Decode(ps) <==> !LiteralWrong(ps, n)
    decreases ps
  {
    hide PieceBytes, PairBytes, PieceText;
    var r, w := LiteralWith(ps, n), |PieceText(ps.piece)|;
    if n < w {
      CutPieceShown(ps, n);
    } else if StartsPair(ps) {
      assert WellFormedPieces(ps.rest) && n >= 6 by { PairWidth(ps, n); }
      PairWithShown(ps, n);
    } else {
      assert !StartsPair(r);
      LiteralWithShown(ps.rest, n - w);
      SamePrefix(PieceBytes(ps.piece), DecodeSeen(r.rest, n - w + 1), Decode(ps.rest));
    }
  }

  lemma PairWithShown(ps: Pieces, n: nat)
    requires WellFormedPieces(ps) && LiteralCuts(ps, n) && WellFormedPieces(LiteralWith(ps, n))
    requires StartsPair(ps) && n >= 6 && WellFormedPieces(ps.rest)
    ensures DecodeSeen(LiteralWith(ps, n), n + 1) <= Decode(ps) <==> !LiteralWrong(ps, n)
    decreases ps, 0
  {
    var r := LiteralWith(ps, n);
    if n < 12 {
      ReplacementIsNoPairPrefix(PairRune(Code(ps.piece), Code(ps.rest.piece)));
      assert PieceBytes(ps.piece) == Utf8(0xFFFD);
      assert DecodeSeen(r, n + 1)[0] == Utf8(0xFFFD)[0];
      assert Decode(ps)[0] == PairBytes(ps)[0];
    } else {
      assert r.rest == LiteralWith(ps.rest, n - 6) && r.rest.rest == LiteralWith(ps.rest.rest, n - 12);
      LiteralWithShown(ps.rest.rest, n - 12);
      SamePrefix(PairBytes(ps), DecodeSeen(r.rest.rest, n - 11), Decode(ps.rest.rest));
    }
  }

  // ----- Documents -----------------------------------------------------------------------------

  /** The value shown with the early backslash approximates the document's unless it is wrong there. */
  lemma {:induction false} WithShown(d: Document, k: nat)
    requires WellFormed(d) && DistinctKeys(d) && CutsEscape(d, k) && WellFormed(WithBackslash(d, k))
    ensures var shown := Shown(WithBackslash(d, k), k + 1);
            shown.Some? && (Approximates(shown.value, Meaning(d)) <==> !Wrong(d, k))
    decreases d, 0
  {
    hide LiteralWith, LiteralCuts, LiteralWrong, ItemsWith, ItemsCut, ItemsWrong, MembersWith, MembersCut, MembersWrong,
         DecodeSeen, ShownItems, ShownMembers, Decode, ItemsMeaning, MembersMeaning, ItemsDistinctKeys, MembersDistinctKeys;
    match d
    case StringDoc(ps) => LiteralWithShown(ps, k - 1);
    case ArrayDoc(items) => ItemsWithShown(items, k - 1);
    case ObjectDoc(members) => MembersWithShown(members, k - 1, map[], map[], {});
  }

  lemma OneApproximates(v: Value, ys: seq<Value>)
    requires ys != []
    ensures ItemsApproximate([v], ys) <==> Approximates(v, ys[0])
  {
  }

  lemma SameFirst(v: Value, xs: seq<Value>, ys: seq<Value>)
    ensures ItemsApproximate([v] + xs, [v] + ys) <==> ItemsApproximate(xs, ys)
  {
    hide Approximates;
    ApproximatesReflexive(v);
    assert ([v] + xs)[1..] == xs && ([v] + ys)[1..] == ys;
    TailApproximates([v] + xs, [v] + ys);
  }

  lemma {:induction false} ItemsWithShown(items: Items, n: nat)
    requires WellFormedItems(items) && ItemsDistinctKeys(items) && ItemsCut(items, n)
    requires WellFormedItems(ItemsWith(items, n))
    ensures ItemsApproximate(ShownItems(ItemsWith(items, n), n + 1), ItemsMeaning(items)) <==> !ItemsWrong(items, n)
    decreases items
  {
    hide CutsEscape, WithBackslash, WellFormed, Text, Shown, Meaning, Approximates, DistinctKeys, Wrong, ItemsApproximate;
    var d, pre, r := items.item, items.pre, ItemsWith(items, n);
    var i := After(n, |pre|);
    if CutsEscape(d, i) {
      WithText(d, i);
      WithShown(d, i);
      var shown := Shown(r.item, i + 1).value;
      if r.MoreItems? {
        assert After(n + 1, ItemWidth(r)) == 0;
        NoItemsShownYet(r.rest);
      }
      assert ShownItems(r, n + 1) == [shown];
      OneApproximates(shown, ItemsMeaning(items));
    } else {
      var w := ItemWidth(items);
      var left := After(n, w);
      NothingCut(items.rest);
      FullyShown(d, After(n + 1, |pre|));
      ItemsWithShown(items.rest, left);
      assert ShownItems(r, n + 1) == [Meaning(d)] + ShownItems(r.rest, left + 1);
      SameFirst(Meaning(d), ShownItems(r.rest, left + 1), ItemsMeaning(items.rest));
    }
  }

  /** Fields whose keys are taken are still approximated when all members are read. */
  lemma TakenFieldsKept(members: Members, f: map<string, Value>, g: map<string, Value>, taken: set<string>)
    requires WellFormedMembers(members) && MembersDistinctKeys(members, taken)
    requires FieldsApproximate(f, g) && f.Keys <= taken
    ensures FieldsApproximate(f, MembersMeaning(members, g))
  {
    hide MembersMeaning, MembersDistinctKeys, Approximates;
    forall key | key in f ensures key in MembersMeaning(members, g) && Approximates(f[key], MembersMeaning(members, g)[key]) {
      TakenKeyKept(members, g, taken, key);
    }
  }

  lemma {:induction false} MembersWithShown(members: Members, n: nat, f: map<string, Value>, g: map<string, Value>,
                                            taken: set<string>)
    requires WellFormedMembers(members) && MembersDistinctKeys(members, taken) && MembersCut(members, n)
    requires WellFormedMembers(MembersWith(members, n))
    requires FieldsApproximate(f, g) && f.Keys <= taken
    ensures FieldsApproximate(ShownMembers(MembersWith(members, n), n + 1, f), MembersMeaning(members, g)) <==>
              !MembersWrong(members, n)
    decreases members
  {
    hide Shown, Meaning, Approximates, DistinctKeys, Text, MemberText, LiteralTail, MemberCuts, MemberWith, MemberWrong;
    var m, r := members.member, MembersWith(members, n);
    assert WellFormedMember(m);
    if MemberCuts(m, n) {
      FirstMemberWith(members, n, f, g, taken);
    } else {
      var w, key := MemberWidth(m), Decode(m.key);
      var left := After(n, w);
      NoMemberCut(members.rest);
      FullyShown(m.value, After(n + 1, HeadWidth(m)));
      ApproximatesReflexive(Meaning(m.value));
      MembersWithShown(members.rest, left, f[key := Meaning(m.value)], g[key := Meaning(m.value)], taken + {key});
    }
  }

  lemma FirstMemberWith(members: Members, n: nat, f: map<string, Value>, g: map<string, Value>, taken: set<string>)
    requires WellFormedMembers(members) && !members.NoMembers? && MembersDistinctKeys(members, taken)
    requires WellFormedMember(members.member) && MemberCuts(members.member, n)
    requires MembersCut(members, n) && WellFormedMembers(MembersWith(members, n))
    requires FieldsApproximate(f, g) && f.Keys <= taken
    ensures FieldsApproximate(ShownMembers(MembersWith(members, n), n + 1, f), MembersMeaning(members, g)) <==>
              !MembersWrong(members, n)
    decreases members, 0
  {
    hide Shown, Meaning, Approximates, DistinctKeys, Text, MemberText, LiteralTail, MembersMeaning, FieldsApproximate, CutsEscape, WithBackslash, Wrong, LiteralWith, LiteralCuts, WellFormedPieces, WellFormed;
    var m, r := members.member, MemberWith(members.member, n);
    CutMemberShows(members, n, f);
    if KeyCut(m, n) {
      NothingShown(r.value);
      assert WithMember(f, r, n + 1) == f;
      TakenFieldsKept(members, f, g, taken);
    } else {
      var key, i := Decode(m.key), After(n, HeadWidth(m));
      WithText(m.value, i);
      WithShown(m.value, i);
      FieldAdded(members, Shown(r.value, i + 1).value, f, g, taken);
    }
  }

  /** Of a member whose key is cut nothing is shown, of one whose value is cut the value with the backslash. */
  lemma CutMemberShows(members: Members, n: nat, f: map<string, Value>)
    requires WellFormedMembers(members) && !members.NoMembers? && WellFormedMember(members.member)
    requires MemberCuts(members.member, n) && MembersCut(members, n) && WellFormedMembers(MembersWith(members, n))
    ensures WellFormedMember(MemberWith(members.member, n))
    ensures ShownMembers(MembersWith(members, n), n + 1, f) == WithMember(f, MemberWith(members.member, n), n + 1)
    ensures KeyCut(members.member, n) ==> After(n + 1, HeadWidth(MemberWith(members.member, n))) == 0
  {
    hide Shown, Text, MemberText, LiteralTail, CutsEscape, WithBackslash, LiteralWith, LiteralCuts, WellFormedPieces, WellFormed;
    var m, r := members.member, MembersWith(members, n);
    if KeyCut(m, n) {
      LiteralWithText(m.key, n - |m.pre| - 1);
    } else {
      WithText(m.value, After(n, HeadWidth(m)));
    }
    if r.MoreMembers? {
      assert After(n + 1, MemberWidth(r.member)) == 0;
      NoMembersShownYet(r.rest, WithMember(f, r.member, n + 1));
    }
  }

  /** One more field under a new key is right exactly when its value is. */
  lemma FieldAdded(members: Members, v: Value, f: map<string, Value>, g: map<string, Value>, taken: set<string>)
    requires WellFormedMembers(members) && !members.NoMembers? && MembersDistinctKeys(members, taken)
    requires WellFormedMember(members.member) && FieldsApproximate(f, g) && f.Keys <= taken
    ensures FieldsApproximate(f[Decode(members.member.key) := v], MembersMeaning(members, g)) <==>
              Approximates(v, Meaning(members.member.value))
  {
    hide Meaning, Approximates, DistinctKeys, Text;
    var m := members.member;
    var key := Decode(m.key);
    TakenFieldsKept(members, f, g, taken);
    if members.MoreMembers? {
      TakenKeyKept(members.rest, MemberMeaning(m, g), taken + {key}, key);
    }
    var more, whole := f[key := v], MembersMeaning(members, g);
    assert key in more && key in whole && whole[key] == Meaning(m.value);
  }

  // ----- Streamed arguments ----------------------------------------------------------------------

  /**
   * The arguments shown on any prefix of a lenient text approximate the final
   * ones if and only if the prefix does not end inside a surrogate pair of a
   * string value and, where Repair escapes a backslash at its end, the escape
   * that is cut there is one for a backslash, or stands in a key.
   */
  lemma LenientApproximatesIff(t: string, n: nat, lead: string, d: Document, trail: string)
    requires IsLenientText(t, lead, d, trail) && d.ObjectDoc? && DistinctKeys(d) && n <= |t|
    ensures var s, k := t[..n], Seen(t, n, lead);
            var early := EndsInBackslash(s, false) && HasStray(s, false);
            && (early ==> CutsEscape(d, k))
            && (Approximates(Object(ParseStreamingObject(s)), Meaning(d)) <==>
                  if early then !Wrong(d, k) else !SplitsPair(d, k))
  {
    hide ParseStreaming, WellFormed, SplitsPair, Shown, Text, DistinctKeys, Wrong, CutsEscape, WithBackslash, Approximates,
         EndsInBackslash, HasStray, IsUtf8, Meaning, Repair, AllSpace, Mended;
    var s, k := t[..n], Seen(t, n, lead);
    if EndsInBackslash(s, false) && HasStray(s, false) {
      LenientBackslashShows(t, n, lead, d, trail);
      WithShown(d, k);
      StaysObject(d, k);
      ObjectShown(WithBackslash(d, k), k + 1);
    } else {
      LenientShows(t, n, lead, d, trail);
      ObjectShown(d, k);
      if k > 0 {
        ShownApproximatesIff(d, k);
      } else {
        NothingSplit(d);
        ObjectMeans(d);
      }
    }
  }

  /** The whole text of an object between white space does not end in a string's backslash. */
  lemma WholeHasNoCut(t: string, lead: string, d: Document, trail: string)
    requires IsLenientText(t, lead, d, trail) && d.ObjectDoc?
    ensures !EndsInBackslash(t, false)
  {
    hide IsUtf8, EndsInBackslash, Mended, Clean, AllSpace;
    var full := lead + (Text(d) + trail);
    if EndsInBackslash(t, false) {
      assert t[..|t|] == t;
      CutInDocument(t, |t|, lead, d, trail);
      MendedIsRepaired(t, false);
      assert full[|full| - 1] == '\\';
      ObjectEnds(d);
      SpaceAround(lead, Text(d), trail, |full| - 1);
      assert false;
    }
  }

  lemma ObjectEnds(d: Document)
    requires d.ObjectDoc?
    ensures Text(d)[|Text(d)| - 1] == '}'
  {
    MembersEnd(d.members);
    LastOf("{", MembersText(d.members));
  }

  lemma {:induction false} MembersEnd(members: Members)
    ensures MembersText(members) != "" && MembersText(members)[|MembersText(members)| - 1] == '}'
    decreases members
  {
    hide Text, LiteralTail;
    match members
    case NoMembers(gap) => LastOf(gap, "}");
    case LastMember(m) => MemberEnds(m, "}");
    case MoreMembers(m, rest) =>
      MembersEnd(rest);
      LastOf(",", MembersText(rest));
      MemberEnds(m, "," + MembersText(rest));
  }

  lemma MemberEnds(m: Member, tail: string)
    requires tail != ""
    ensures MemberText(m, tail) != "" && MemberText(m, tail)[|MemberText(m, tail)| - 1] == tail[|tail| - 1]
  {
    hide Text, LiteralTail;
    MemberHead(m, tail);
    var head := m.pre + ("\"" + (LiteralTail(m.key) + (m.mid + (":" + m.gap))));
    var value := Text(m.value) + (m.post + tail);
    assert MemberText(m, tail) == head + value;
    LastOf(m.post, tail);
    LastOf(Text(m.value), m.post + tail);
    LastOf(head, value);
  }

  /** The whole lenient text is read as the object that Repair makes of it. */
  lemma WholeLenientArguments(t: string, lead: string, d: Document, trail: string)
    requires IsLenientText(t, lead, d, trail) && d.ObjectDoc?
    ensures Object(ParseStreamingObject(t)) == Meaning(d)
  {
    hide ParseStreaming, WellFormed, Shown, Text, EndsInBackslash, HasStray, IsUtf8, Meaning, AllSpace, Mended, RepairFrom;
    assert t[..|t|] == t;
    WholeHasNoCut(t, lead, d, trail);
    MendedIsRepaired(t, false);
    LenientShows(t, |t|, lead, d, trail);
    FullyShown(d, Seen(t, |t|, lead));
    ObjectShown(d, Seen(t, |t|, lead));
  }

  /** What is shown of an object document is an object, once anything is. */
  lemma ObjectShown(d: Document, k: nat)
    requires WellFormed(d) && d.ObjectDoc?
    ensures Shown(d, k).Some? <==> k > 0
    ensures k > 0 ==> Shown(d, k).value.Object? && NormalizeShown(Shown(d, k)) == Shown(d, k).value
  {
  }

  lemma StaysObject(d: Document, k: nat)
    requires d.ObjectDoc? && CutsEscape(d, k)
    ensures WithBackslash(d, k).ObjectDoc?
  {
  }

  lemma ObjectMeans(d: Document)
    requires WellFormed(d) && d.ObjectDoc?
    ensures Approximates(Object(map[]), Meaning(d))
  {
  }

  // ----- An input that fails -----------------------------------------------------------------------

  /** A character that is its own token. */
  lemma Plain(c: char, rest: string, inString: bool)
    requires c != '\\' && (inString ==> !IsControl(c))
    ensures var s, open := [c] + rest, inString != (c == '"');
            && RepairFrom(s, inString) == [c] + RepairFrom(rest, open)
            && Mended(s, inString) == [c] + Mended(rest, open)
            && EndsInBackslash(s, inString) == EndsInBackslash(rest, open)
            && (HasStray(rest, open) ==> HasStray(s, inString))
  {
    var s := [c] + rest;
    assert s != "\\" by { assert s[0] == c; }
    assert FirstToken(s, inString) == Token([c], [c], inString != (c == '"'));
    assert Rest(s, inString) == rest;
  }

  /** A stray backslash inside a string. */
  lemma Stray(rest: string)
    requires rest != "" && !IsValidEscape(rest[0])
    ensures var s := "\\" + rest;
            && RepairFrom(s, true) == "\\\\" + RepairFrom(rest, true)
            && Mended(s, true) == "\\\\" + Mended(rest, true)
            && EndsInBackslash(s, true) == EndsInBackslash(rest, true)
            && HasStray(s, true)
  {
    var s := "\\" + rest;
    assert s[1] == rest[0];
    assert FirstToken(s, true) == Token("\\", "\\\\", true);
    assert Rest(s, true) == rest;
  }

  lemma LineFeedEscape(rest: string)
    ensures RepairFrom("\\n" + rest, true) == "\\n" + RepairFrom(rest, true)
  {
    var s := "\\n" + rest;
    assert s[1] == 'n' && s[..2] == "\\n";
    assert FirstToken(s, true) == Token("\\n", "\\n", true);
    assert Rest(s, true) == rest;
  }

  /** A prefix {"a":" of a text. */
  lemma Opening(rest: string)
    ensures var s := "{\"a\":\"" + rest;
            && RepairFrom(s, false) == "{\"a\":\"" + RepairFrom(rest, true)
            && Mended(s, false) == "{\"a\":\"" + Mended(rest, true)
            && EndsInBackslash(s, false) == EndsInBackslash(rest, true)
            && (HasStray(rest, true) ==> HasStray(s, false))
  {
    hide RepairFrom, Mended, EndsInBackslash, HasStray;
    var s1 := "\"" + rest;
    var s2 := ":" + s1;
    var s3 := "\"" + s2;
    var s4 := "a" + s3;
    var s5 := "\"" + s4;
    assert "{\"a\":\"" + rest == "{" + s5;
    Plain('"', rest, false);
    Plain(':', s1, false);
    Plain('"', s2, true);
    Plain('a', s3, true);
    Plain('"', s4, false);
    Plain('{', s5, false);
  }

  /** {"a":"\\q\n"}, which Repair makes of {"a":"\q\n"}. */
  function Sample(): (d: Document)
    ensures WellFormed(d) && d.ObjectDoc? && DistinctKeys(d)
  {
    var literal := More(Escaped('\\'), More(Raw('q'), More(Escaped('n'), End)));
    ObjectDoc(LastMember(Member("", More(Raw('a'), End), "", "", StringDoc(literal), "")))
  }

  lemma SampleText()
    ensures Text(Sample()) == "{\"a\":\"" + ("\\\\" + ("q" + ("\\n" + "\"}")))
  {
    var literal := More(Escaped('\\'), More(Raw('q'), More(Escaped('n'), End)));
    assert LiteralTail(End) == "\"";
    assert LiteralTail(More(Escaped('n'), End)) == "\\n\"";
    assert LiteralTail(More(Raw('q'), More(Escaped('n'), End))) == "q\\n\"";
    assert LiteralTail(literal) == "\\\\q\\n\"";
    assert LiteralTail(More(Raw('a'), End)) == "a\"";
  }

  lemma SampleIsWrong()
    ensures CutsEscape(Sample(), 10) && Wrong(Sample(), 10)
  {
    var literal := More(Escaped('\\'), More(Raw('q'), More(Escaped('n'), End)));
    var m := Sample().members.member;
    assert HeadWidth(m) == 4;
    assert !LiteralCuts(End, 7) && !KeyCut(m, 9);
    assert LiteralCuts(More(Escaped('n'), End), 1) && LiteralWrong(More(Escaped('n'), End), 1);
    assert LiteralCuts(literal.rest, 2) && LiteralWrong(literal.rest, 2);
    assert LiteralCuts(literal, 4) && LiteralWrong(literal, 4);
    assert CutsEscape(m.value, 5) && Wrong(m.value, 5);
  }

  /** Cut before its n, {"a":"\q\n"} shows a second backslash where it means a line feed. */
  lemma EarlyBackslashIsWrong()
    ensures var t := "{\"a\":\"" + ("\\" + ("q" + ("\\n" + "\"}")));
            && |t| == 12 && IsLenientText(t, "", Sample(), "")
            && !Approximates(Object(ParseStreamingObject(t[..9])), Meaning(Sample()))
  {
    hide RepairFrom, Mended, EndsInBackslash, HasStray, ParseStreamingObject, Approximates, Text, Wrong, CutsEscape, Meaning,
         DistinctKeys, WellFormed;
    var end := "\"}";
    var t := "{\"a\":\"" + ("\\" + ("q" + ("\\n" + end)));
    var s := "{\"a\":\"" + ("\\" + ("q" + "\\"));
    assert t[..9] == s;
    LoneEnds();
    assert ['}'] + "" == "}" && ['"'] + "}" == end;
    Plain('}', "", false);
    Plain('"', "}", true);
    assert RepairFrom(end, true) == end;
    LineFeedEscape(end);
    Plain('q', "\\n" + end, true);
    Stray("q" + ("\\n" + end));
    Opening("\\" + ("q" + ("\\n" + end)));
    Plain('q', "\\", true);
    Stray("q" + "\\");
    Opening("\\" + ("q" + "\\"));
    SampleText();
    SampleIsWrong();
    assert IsUtf8(t) by {
      assert t + "" == t;
      AsciiInFront(t, "");
    }
    assert "" + (Text(Sample()) + "") == Text(Sample());
    assert Repair(t) == Text(Sample());
    LenientApproximatesIff(t, 9, "", Sample(), "");
  }

  lemma LoneEnds()
    ensures Mended("\\", true) == "\\" && EndsInBackslash("\\", true) && RepairFrom("", false) == ""
  {
  }
}
