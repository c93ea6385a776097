/**
 * Texts whose strings may hold raw control characters and backslashes that make
 * no escape: whatever Repair turns into a document. What ParseStreaming shows of
 * their prefixes, and when that is no approximation of what they mean.
 */
module LenientText {
  import opened Wrappers
  import opened JsonText
  import opened JsonDocument
  import opened PartialMeaning
  import opened PartialGrowth
  import opened PartialParser
  import opened StringRepair
  import opened RepairReading
  import opened StreamingJson

  /** Repair makes the text of document d out of t, between white space. */
  predicate IsLenientText(t: string, lead: string, d: Document, trail: string) {
    IsUtf8(t) && WellFormed(d) && AllSpace(lead) && AllSpace(trail) && Repair(t) == lead + (Text(d) + trail)
  }

  /** How many characters of the document's text the mended prefix has. */
  function Seen(t: string, n: nat, lead: string): nat
    requires n <= |t|
  {
    After(|Mended(t[..n], false)|, |lead|)
  }

  lemma {:induction false} UnicodeBefore(s: string, inString: bool)
    requires WellFormedUnicode(RepairFrom(s, inString), inString)
    ensures WellFormedUnicode(s, inString)
    decreases |s|
  {
    if s != "" {
      RepairedToken(s, inString);
      MalformedIsKept(s, inString);
      hide FirstToken;
      var t, rest := FirstToken(s, inString), Rest(s, inString);
      var r := RepairFrom(s, inString);
      assert r == t.repaired + RepairFrom(rest, t.inString);
      RepairedNotEmpty(s, inString);
      assert Rest(r, inString) == RepairFrom(rest, t.inString);
      UnicodeBefore(rest, t.inString);
    }
  }

  lemma MalformedIsKept(s: string, inString: bool)
    requires s != ""
    ensures inString && FirstToken(s, inString).raw == "\\u" ==> FirstToken(s, inString).repaired == "\\u"
  {
  }

  /** The mended prefix is a prefix of the document's text. */
  lemma MendedIsPrefix(t: string, n: nat, lead: string, d: Document, trail: string)
    requires IsLenientText(t, lead, d, trail) && n <= |t|
    ensures var full := lead + (Text(d) + trail); var m := |Mended(t[..n], false)|;
            && Mendable(t[..n], false) && m <= |full| && Mended(t[..n], false) == full[..m]
            && ParsePartial(full[..m]) == Shown(d, Seen(t, n, lead))
  {
    hide WellFormed, Text, Sane, Mended, Mendable, RepairFrom, ParsePartial, Shown, IsUtf8;
    var full := lead + (Text(d) + trail);
    TextIsWhole(lead, d, trail, false);
    SaneHasNoStray(full, false, false);
    UnicodeBefore(t, false);
    PrefixMends(t, n, false);
    var mended := Mended(t[..n], false);
    assert mended == full[..|mended|];
    ParsePartialShows(lead, d, trail, |mended|);
  }

  lemma {:induction false} BackslashHasQuote(s: string)
    requires EndsInBackslash(s, false)
    ensures '"' in Mended(s, false)
    decreases |s|
  {
    assert FirstToken(s, false) == Token([s[0]], [s[0]], s[0] == '"');
    assert Rest(s, false) == s[1..];
    if s[0] != '"' {
      BackslashHasQuote(s[1..]);
      assert Mended(s, false) == [s[0]] + Mended(s[1..], false);
    } else {
      assert Mended(s, false)[0] == '"';
    }
  }

  /** A prefix that shows nothing holds no string. */
  lemma NothingShownNoQuote(lead: string, d: Document, trail: string, m: nat)
    requires WellFormed(d) && AllSpace(lead) && AllSpace(trail)
    requires m <= |lead + (Text(d) + trail)| && Shown(d, After(m, |lead|)).None?
    ensures '"' !in (lead + (Text(d) + trail))[..m]
  {
    hide IsFloat, LongestFloat;
    if m > |lead| {
      assert d.NumberDoc?;
    }
  }

  /**
   * A prefix that has no stray backslash yet, or does not end in a backslash,
   * shows what its mended text shows of the document.
   */
  lemma LenientShows(t: string, n: nat, lead: string, d: Document, trail: string)
    requires IsLenientText(t, lead, d, trail) && n <= |t|
    requires !EndsInBackslash(t[..n], false) || !HasStray(t[..n], false)
    ensures ParseStreaming(t[..n]) == NormalizeShown(Shown(d, Seen(t, n, lead)))
  {
    hide WellFormed, Text, Mended, Mendable, RepairFrom, ParsePartial, Shown, IsUtf8, ParseStreaming, HasStray, EndsInBackslash;
    var s := t[..n];
    MendedIsPrefix(t, n, lead, d, trail);
    StrictAddsNothing(t, n);
    MendedIsRepaired(s, false);
    MendedReadsAlike(s);
    if !EndsInBackslash(s, false) {
      assert Mended(s, false) + "" == Mended(s, false);
    } else {
      BackslashHasQuote(s);
      if Shown(d, Seen(t, n, lead)).None? {
        NothingShownNoQuote(lead, d, trail, |Mended(s, false)|);
      }
    }
  }

  // ----- A backslash at the end ------------------------------------------------------------------

  /** What closes all its strings leaves the end to what follows. */
  lemma {:induction false} EndsAppend(a: string, b: string, inString: bool)
    requires !OpenAtEnd(a, inString)
    ensures EndsInBackslash(a + b, inString) == EndsInBackslash(b, false)
    ensures OpenAtEnd(a + b, inString) == OpenAtEnd(b, false)
    decreases |a|
  {
    if a == "" {
      assert a + b == b;
    } else {
      LoneIsOpen(a, b, inString);
      hide FirstToken, Rest;
      RestBeforeMore(a, b, inString);
      EndsAppend(Rest(a, inString), b, FirstToken(a, inString).inString);
    }
  }

  lemma LoneIsOpen(a: string, b: string, inString: bool)
    requires a != "" && !OpenAtEnd(a, inString)
    ensures !(inString && a + b == "\\")
  {
    LoneStaysOpen();
    assert a + b == "\\" ==> a == "\\";
  }

  lemma LoneStaysOpen()
    ensures OpenAtEnd("\\", true)
  {
    assert Rest("\\", true) == "";
  }

  /** One token further. */
  lemma EndsStep(s: string, inString: bool)
    ensures EndsInBackslash(s, inString) ==>
              && s != ""
              && ((inString && s == "\\") || EndsInBackslash(Rest(s, inString), FirstToken(s, inString).inString))
  {
  }

  lemma LastOf(a: string, b: string)
    requires b != ""
    ensures (a + b)[|a + b| - 1] == b[|b| - 1]
  {
  }

  lemma {:induction false} LastIsBackslash(s: string, inString: bool)
    requires EndsInBackslash(s, inString)
    ensures s != "" && s[|s| - 1] == '\\'
    decreases |s|
  {
    hide FirstToken, Rest, EndsInBackslash;
    EndsStep(s, inString);
    if !(inString && s == "\\") {
      var t, rest := FirstToken(s, inString), Rest(s, inString);
      LastIsBackslash(rest, t.inString);
      LastOf(t.raw, rest);
    }
  }

  lemma {:induction false} CleanHasNone(s: string, inString: bool)
    requires Clean(s, inString)
    ensures !EndsInBackslash(s, inString)
    decreases |s|
  {
    if s != "" {
      LoneIsNotClean();
      hide FirstToken, Rest;
      CleanHasNone(Rest(s, inString), FirstToken(s, inString).inString);
    }
  }

  lemma LoneIsNotClean()
    ensures !Clean("\\", true)
  {
  }

  lemma TokenBeforeBackslash(s: string, inString: bool)
    requires s != "" && !(inString && s == "\\")
    ensures FirstToken(s + "\\", inString) == FirstToken(s, inString)
    ensures Rest(s + "\\", inString) == Rest(s, inString) + "\\"
  {
    var more, raw := s + "\\", FirstToken(s, inString).raw;
    assert more[0] == s[0] && (|s| > 1 ==> more[1] == s[1]);
    assert more[..|raw|] == s[..|raw|];
    if |s| >= 6 {
      assert more[..6] == s[..6] && more[2] == s[2] && more[3] == s[3] && more[4] == s[4] && more[5] == s[5];
    } else if |more| == 6 {
      assert !IsHex(more[5]);
    }
    SliceBeforeMore(s, "\\", |raw|);
  }

  lemma {:induction false} BackslashAppended(s: string, inString: bool)
    requires OpenAtEnd(s, inString) && !EndsInBackslash(s, inString)
    ensures EndsInBackslash(s + "\\", inString)
    decreases |s|
  {
    if s == "" {
      assert s + "\\" == "\\";
    } else {
      TokenBeforeBackslash(s, inString);
      hide FirstToken, Rest;
      BackslashAppended(Rest(s, inString), FirstToken(s, inString).inString);
    }
  }

  /** Mending leaves the backslash alone. */
  lemma MendedEnds(s: string)
    requires EndsInBackslash(s, false)
    ensures EndsInBackslash(Mended(s, false), false)
  {
    hide EndsInBackslash, Mended, RepairFrom, Clean, OpenAtEnd;
    var r, m := RepairFrom(s, false), Mended(s, false);
    MendedIsRepaired(s, false);
    RepairIsClean(s, false);
    CleanHasNone(r, false);
    BackslashStaysOpen(s, false);
    if OpenAtEnd(m, false) {
      if !EndsInBackslash(m, false) {
        BackslashAppended(m, false);
      }
    } else {
      EndsAppend(m, "\\", false);
      OutsideIsClosed();
    }
  }

  lemma OutsideIsClosed()
    ensures !OpenAtEnd("\\", false)
  {
    assert Rest("\\", false) == "";
  }

  lemma SpaceAround(lead: string, text: string, trail: string, i: nat)
    requires AllSpace(lead) && AllSpace(trail) && i < |lead + (text + trail)|
    ensures i < |lead| || i >= |lead| + |text| ==> IsSpace((lead + (text + trail))[i])
  {
  }

  /** The cut is in the document. */
  lemma CutInDocument(t: string, n: nat, lead: string, d: Document, trail: string)
    requires IsLenientText(t, lead, d, trail) && n <= |t| && EndsInBackslash(t[..n], false)
    ensures |lead| < |Mended(t[..n], false)| <= |lead| + |Text(d)|
    ensures EndsInBackslash(Text(d)[..Seen(t, n, lead)], false)
  {
    hide EndsInBackslash, Mended, WellFormed, Text, RepairFrom, Mendable, OpenAtEnd, Sane;
    var full, m := lead + (Text(d) + trail), |Mended(t[..n], false)|;
    MendedIsPrefix(t, n, lead, d, trail);
    MendedEnds(t[..n]);
    LastIsBackslash(full[..m], false);
    assert full[m - 1] == '\\';
    SpaceAround(lead, Text(d), trail, m - 1);
    assert full[..m] == lead + Text(d)[..m - |lead|];
    SpaceIsWhole(lead, false);
    EndsAppend(lead, Text(d)[..m - |lead|], false);
  }

  /** With a stray before the backslash at its end the prefix is not read as it is. */
  lemma StrayFails(t: string, n: nat, lead: string, d: Document, trail: string)
    requires IsLenientText(t, lead, d, trail) && n <= |t|
    requires EndsInBackslash(t[..n], false) && HasStray(t[..n], false)
    ensures ParsePartial(t[..n]).None?
  {
    hide EndsInBackslash, Mended, WellFormed, Text, RepairFrom, Mendable, ParseValue, Shown, HasStray, IsUtf8;
    var s, full := t[..n], lead + (Text(d) + trail);
    var r := Mended(s, false);
    var p := |lead|;
    MendedIsPrefix(t, n, lead, d, trail);
    CutInDocument(t, n, lead, d, trail);
    WhereDocumentStands(full, |r|, lead, d, trail);
    DocumentShown(full, |r|, p, d);
    FromTheStart(r, p);
    assert s[0..] == s && r[0..] == r;
    ValueReadAlike(s, r, 0, 0);
    var a := ParseValue(s, 0);
    if a.Parsed? {
      EndsTogether(s, r, a.pos, |r|, false);
      AtTheEnd(s, r);
    }
  }

  lemma FromTheStart(r: string, p: nat)
    requires p <= |r| && SkipSpace(r, 0) == p
    ensures ParseValue(r, 0) == ParseValue(r, p)
  {
    SkipSpaceTwice(r, 0);
  }

  // ----- The escape that was cut ---------------------------------------------------------------------

  /** The first n characters of the literal end behind the backslash of an escape. */
  predicate LiteralCuts(ps: Pieces, n: nat) {
    ps.More? &&
    if n < |PieceText(ps.piece)| then n == 1 else LiteralCuts(ps.rest, n - |PieceText(ps.piece)|)
  }

  predicate CutsEscape(d: Document, k: nat)
    decreases d
  {
    match d
    case StringDoc(ps) => k > 0 && LiteralCuts(ps, k - 1)
    case ArrayDoc(items) => k > 0 && ItemsCut(items, k - 1)
    case ObjectDoc(members) => k > 0 && MembersCut(members, k - 1)
    case _ => false
  }

  predicate ItemsCut(items: Items, n: nat)
    decreases items
  {
    match items
    case NoItems(_) => false
    case LastItem(pre, d, _) => CutsEscape(d, After(n, |pre|))
    case MoreItems(pre, d, _, rest) => CutsEscape(d, After(n, |pre|)) || ItemsCut(rest, After(n, ItemWidth(items)))
  }

  predicate KeyCut(m: Member, n: nat) { n > |m.pre| && LiteralCuts(m.key, n - |m.pre| - 1) }

  predicate MemberCuts(m: Member, n: nat)
    decreases m
  {
    KeyCut(m, n) || CutsEscape(m.value, After(n, HeadWidth(m)))
  }

  predicate MembersCut(members: Members, n: nat)
    decreases members
  {
    match members
    case NoMembers(_) => false
    case LastMember(m) => MemberCuts(m, n)
    case MoreMembers(m, rest) => MemberCuts(m, n) || MembersCut(rest, After(n, MemberWidth(m)))
  }

  /** A cut of two texts, the first of which closes its strings. */
  lemma EndsAt(a: string, b: string, n: nat)
    requires n <= |a + b| && !OpenAtEnd(a, false)
    ensures EndsInBackslash((a + b)[..n], false) ==
              if n <= |a| then EndsInBackslash(a[..n], false) else EndsInBackslash(b[..n - |a|], false)
  {
    hide EndsInBackslash, OpenAtEnd;
    if n <= |a| {
      assert (a + b)[..n] == a[..n];
    } else {
      assert (a + b)[..n] == a + b[..n - |a|];
      EndsAppend(a, b[..n - |a|], false);
    }
  }

  lemma NoStringNoEnd(a: string, n: nat)
    requires '"' !in a && n <= |a|
    ensures !OpenAtEnd(a, false) && !EndsInBackslash(a[..n], false)
  {
    NoQuoteIsWhole(a, true);
    if EndsInBackslash(a[..n], false) {
      NoQuoteIsWhole(a[..n], true);
      BackslashStaysOpen(a[..n], false);
    }
  }

  lemma {:induction false} LiteralPlace(ps: Pieces, n: nat)
    requires WellFormedPieces(ps) && n <= |LiteralTail(ps)| && EndsInBackslash(LiteralTail(ps)[..n], true)
    ensures LiteralCuts(ps, n)
    decreases ps
  {
    hide EndsInBackslash, PieceText;
    if ps.End? {
      NoEndInQuote(n);
    } else {
      PieceIsNoU(ps.piece);
      PiecePlace(ps.piece, LiteralTail(ps.rest), n);
      if n >= |PieceText(ps.piece)| {
        LiteralPlace(ps.rest, n - |PieceText(ps.piece)|);
      }
    }
  }

  /** The cut is behind the backslash of the piece, or behind the piece. */
  lemma PiecePlace(p: Piece, rest: string, n: nat)
    requires WellFormedPiece(p) && n <= |PieceText(p) + rest| && EndsInBackslash((PieceText(p) + rest)[..n], true)
    ensures if n < |PieceText(p)| then n == 1 else EndsInBackslash(rest[..n - |PieceText(p)|], true)
  {
    var w := |PieceText(p)|;
    if n < w {
      assert (PieceText(p) + rest)[..n] == PieceText(p)[..n];
      CutPiece(p, n);
    } else {
      var after := rest[..n - w];
      assert (PieceText(p) + rest)[..n] == PieceText(p) + after;
      PieceToken(p, after);
      WholePieceIsNotLone(p, after);
    }
  }

  lemma NoEndInQuote(n: nat)
    requires n <= 1
    ensures !EndsInBackslash("\""[..n], true)
  {
    if n == 1 {
      assert "\""[..1] == "\"" && FirstToken("\"", true) == Token("\"", "\"", false);
      assert Rest("\"", true) == "";
    }
  }

  lemma WholePieceIsNotLone(p: Piece, rest: string)
    requires WellFormedPiece(p)
    ensures PieceText(p) + rest != "\\" && PieceText(p) + rest != ""
  {
    var s := PieceText(p) + rest;
    assert |s| >= |PieceText(p)| && s[0] == PieceText(p)[0];
  }

  /** An escape that is cut ends in a lone backslash only when nothing else is left of it. */
  lemma CutPiece(p: Piece, n: nat)
    requires WellFormedPiece(p) && n < |PieceText(p)| && EndsInBackslash(PieceText(p)[..n], true)
    ensures n == 1
  {
    var s := PieceText(p)[..n];
    LastIsBackslash(s, true);
    assert s[n - 1] == PieceText(p)[n - 1];
  }

  lemma {:induction false} Place(d: Document, k: nat)
    requires WellFormed(d) && k <= |Text(d)| && EndsInBackslash(Text(d)[..k], false)
    ensures CutsEscape(d, k)
    decreases d, 0
  {
    hide EndsInBackslash, LiteralTail, ItemsText, MembersText, WellFormedPieces, IsFloat;
    match d
    case StringDoc(ps) =>
      QuotedPlace(ps, k);
    case ArrayDoc(items) =>
      NoStringNoEnd("[", if k == 0 then 0 else 1);
      EndsAt("[", ItemsText(items), k);
      ItemsPlace(items, k - 1);
    case ObjectDoc(members) =>
      NoStringNoEnd("{", if k == 0 then 0 else 1);
      EndsAt("{", MembersText(members), k);
      MembersPlace(members, k - 1);
    case _ => NoStringNoEnd(Text(d), k);
  }

  lemma QuotedPlace(ps: Pieces, k: nat)
    requires WellFormedPieces(ps) && k <= |"\"" + LiteralTail(ps)| && EndsInBackslash(("\"" + LiteralTail(ps))[..k], false)
    ensures k > 0 && LiteralCuts(ps, k - 1)
  {
    hide EndsInBackslash, LiteralTail, LiteralCuts, WellFormedPieces;
    var s := ("\"" + LiteralTail(ps))[..k];
    EndsStep(s, false);
    assert FirstToken(s, false) == Token("\"", "\"", true);
    assert Rest(s, false) == LiteralTail(ps)[..k - 1];
    LiteralPlace(ps, k - 1);
  }

  lemma {:induction false} ItemsPlace(items: Items, n: nat)
    requires WellFormedItems(items) && n <= |ItemsText(items)| && EndsInBackslash(ItemsText(items)[..n], false)
    ensures ItemsCut(items, n)
    decreases items
  {
    hide EndsInBackslash, Text, CutsEscape, WellFormed, Sane;
    if items.NoItems? {
      NoStringNoEnd(items.gap + "]", n);
    } else {
      var tail := ItemTail(items);
      ItemsWidth(items);
      var rest := SpacedPlace(items.pre, items.item, items.post, tail, n);
      if !CutsEscape(items.item, After(n, |items.pre|)) {
        if items.LastItem? {
          NoStringNoEnd("]", rest);
        } else {
          NoStringNoEnd(",", 1);
          EndsAt(",", ItemsText(items.rest), rest);
          ItemsPlace(items.rest, rest - 1);
        }
      }
    }
  }

  /** The cut is in the document, or behind it and the space after it, where rest characters are left. */
  lemma SpacedPlace(pre: string, d: Document, post: string, tail: string, n: nat) returns (rest: nat)
    requires AllSpace(pre) && WellFormed(d) && AllSpace(post) && n <= |pre + (Text(d) + (post + tail))|
    requires EndsInBackslash((pre + (Text(d) + (post + tail)))[..n], false)
    ensures rest <= |tail|
    ensures !CutsEscape(d, After(n, |pre|)) ==>
              rest > 0 && n == |pre| + |Text(d)| + |post| + rest && EndsInBackslash(tail[..rest], false)
    decreases d, 1
  {
    hide EndsInBackslash, Text, CutsEscape, WellFormed, Sane;
    rest := 0;
    SpacesHaveNoString(pre);
    NoStringNoEnd(pre, if n < |pre| then n else |pre|);
    EndsAt(pre, Text(d) + (post + tail), n);
    var i := After(n, |pre|);
    DocumentIsWhole(d, false);
    EndsAt(Text(d), post + tail, i);
    if i <= |Text(d)| {
      Place(d, i);
    } else {
      var j := i - |Text(d)|;
      SpacesHaveNoString(post);
      NoStringNoEnd(post, if j < |post| then j else |post|);
      EndsAt(post, tail, j);
      rest := j - |post|;
    }
  }

  lemma SpacesHaveNoString(w: string)
    requires AllSpace(w)
    ensures '"' !in w
  {
  }

  lemma {:induction false} MembersPlace(members: Members, n: nat)
    requires WellFormedMembers(members) && n <= |MembersText(members)| && EndsInBackslash(MembersText(members)[..n], false)
    ensures MembersCut(members, n)
    decreases members
  {
    hide EndsInBackslash, Text, CutsEscape, WellFormed, LiteralCuts, MemberText, LiteralTail, WellFormedPieces;
    if members.NoMembers? {
      NoStringNoEnd(members.gap + "}", n);
    } else {
      var m, tail := members.member, MemberTail(members);
      assert WellFormedMember(m);
      MembersTextIs(members);
      MemberTextLength(m, tail);
      var rest := MemberPlaceOf(m, tail, n);
      if !MemberCuts(m, n) {
        if members.LastMember? {
          NoStringNoEnd("}", rest);
        } else {
          NoStringNoEnd(",", if rest == 0 then 0 else 1);
          EndsAt(",", MembersText(members.rest), rest);
          MembersPlace(members.rest, rest - 1);
        }
      }
    }
  }

  /** The cut is in the member's key or value, or behind the member, where rest characters are left. */
  lemma MemberPlaceOf(m: Member, tail: string, n: nat) returns (rest: nat)
    requires WellFormedMember(m) && n <= |MemberText(m, tail)| && EndsInBackslash(MemberText(m, tail)[..n], false)
    ensures rest <= |tail|
    ensures !MemberCuts(m, n) ==> rest > 0 && n == MemberWidth(m) - 1 + rest && EndsInBackslash(tail[..rest], false)
    decreases m
  {
    hide EndsInBackslash, Text, CutsEscape, WellFormed, LiteralCuts, LiteralTail, WellFormedPieces, Sane;
    rest := 0;
    var key := "\"" + LiteralTail(m.key);
    var value := m.gap + (Text(m.value) + (m.post + tail));
    var colon := m.mid + (":" + value);
    assert MemberText(m, tail) == m.pre + (key + colon);
    SpacesHaveNoString(m.pre);
    NoStringNoEnd(m.pre, if n < |m.pre| then n else |m.pre|);
    EndsAt(m.pre, key + colon, n);
    var i := After(n, |m.pre|);
    KeyIsWhole(m.key);
    EndsAt(key, colon, i);
    if i <= |key| {
      KeyPlace(m, n);
    } else {
      var j := i - |key|;
      ColonPlace(m.mid, value, j);
      var v := After(j, |m.mid| + 1);
      rest := SpacedPlace(m.gap, m.value, m.post, tail, v);
      assert After(n, HeadWidth(m)) == After(v, |m.gap|);
    }
  }

  lemma KeyIsWhole(key: Pieces)
    requires WellFormedPieces(key)
    ensures !OpenAtEnd("\"" + LiteralTail(key), false)
  {
    QuotedIsWhole(key, false);
  }

  lemma KeyPlace(m: Member, n: nat)
    requires WellFormedPieces(m.key) && n > |m.pre| && n - |m.pre| <= |"\"" + LiteralTail(m.key)|
    requires EndsInBackslash(("\"" + LiteralTail(m.key))[..n - |m.pre|], false)
    ensures KeyCut(m, n)
  {
    hide EndsInBackslash, LiteralTail, WellFormedPieces, LiteralCuts;
    QuotedPlace(m.key, n - |m.pre|);
  }

  lemma ColonPlace(mid: string, value: string, j: nat)
    requires AllSpace(mid) && j <= |mid + (":" + value)| && EndsInBackslash((mid + (":" + value))[..j], false)
    ensures j > |mid| + 1 && EndsInBackslash(value[..j - |mid| - 1], false)
  {
    hide EndsInBackslash;
    SpacesHaveNoString(mid);
    NoStringNoEnd(mid, if j < |mid| then j else |mid|);
    EndsAt(mid, ":" + value, j);
    NoStringNoEnd(":", 1);
    NoStringNoEnd(":", 0);
    EndsAt(":", value, j - |mid|);
  }

  // ----- The document with an escaped backslash instead -------------------------------------------------

  function LiteralWith(ps: Pieces, n: nat): Pieces
    requires LiteralCuts(ps, n)
  {
    if n < |PieceText(ps.piece)| then More(Escaped('\\'), ps.rest)
    else More(ps.piece, LiteralWith(ps.rest, n - |PieceText(ps.piece)|))
  }

  /** The document in which the escape that is cut is an escaped backslash. */
  function WithBackslash(d: Document, k: nat): Document
    requires CutsEscape(d, k)
    decreases d
  {
    match d
    case StringDoc(ps) => StringDoc(LiteralWith(ps, k - 1))
    case ArrayDoc(items) => ArrayDoc(ItemsWith(items, k - 1))
    case ObjectDoc(members) => ObjectDoc(MembersWith(members, k - 1))
  }

  function ItemsWith(items: Items, n: nat): (r: Items)
    requires ItemsCut(items, n)
    ensures !r.NoItems? && r.pre == items.pre && r.MoreItems? == items.MoreItems?
    decreases items
  {
    var i := After(n, |items.pre|);
    match items
    case LastItem(pre, d, post) => LastItem(pre, WithBackslash(d, i), post)
    case MoreItems(pre, d, post, rest) =>
      if CutsEscape(d, i) then MoreItems(pre, WithBackslash(d, i), post, rest)
      else MoreItems(pre, d, post, ItemsWith(rest, After(n, ItemWidth(items))))
  }

  function MemberWith(m: Member, n: nat): Member
    requires MemberCuts(m, n)
    decreases m
  {
    if KeyCut(m, n) then m.(key := LiteralWith(m.key, n - |m.pre| - 1))
    else m.(value := WithBackslash(m.value, After(n, HeadWidth(m))))
  }

  function MembersWith(members: Members, n: nat): (r: Members)
    requires MembersCut(members, n)
    ensures !r.NoMembers? && r.MoreMembers? == members.MoreMembers?
    decreases members
  {
    match members
    case LastMember(m) => LastMember(MemberWith(m, n))
    case MoreMembers(m, rest) =>
      if MemberCuts(m, n) then MoreMembers(MemberWith(m, n), rest)
      else MoreMembers(m, MembersWith(rest, After(n, MemberWidth(m))))
  }

  /** Text b goes on from i with one more backslash than text a. */
  predicate OneMore(a: string, b: string, i: nat) {
    i < |a| && i < |b| && b[..i + 1] == a[..i] + "\\"
  }

  lemma OneMoreFramed(pre: string, a: string, b: string, post: string, i: nat)
    requires OneMore(a, b, i)
    ensures OneMore(pre + (a + post), pre + (b + post), |pre| + i)
  {
    assert (pre + (a + post))[..|pre| + i] == pre + a[..i];
    assert (pre + (b + post))[..|pre| + i + 1] == pre + b[..i + 1];
  }

  lemma OneMoreBehind(pre: string, a: string, b: string, i: nat)
    requires OneMore(a, b, i)
    ensures OneMore(pre + a, pre + b, |pre| + i)
  {
    assert (pre + a)[..|pre| + i] == pre + a[..i];
    assert (pre + b)[..|pre| + i + 1] == pre + b[..i + 1];
  }

  lemma {:induction false} LiteralWithText(ps: Pieces, n: nat)
    requires WellFormedPieces(ps) && LiteralCuts(ps, n)
    ensures WellFormedPieces(LiteralWith(ps, n)) && OneMore(LiteralTail(ps), LiteralTail(LiteralWith(ps, n)), n)
    ensures n + 1 < |LiteralTail(LiteralWith(ps, n))|
    decreases ps
  {
    var w := |PieceText(ps.piece)|;
    if n < w {
      assert LiteralTail(ps)[..1] == [PieceText(ps.piece)[0]];
      assert LiteralTail(LiteralWith(ps, n))[..2] == "\\\\";
    } else {
      LiteralWithText(ps.rest, n - w);
      OneMoreBehind(PieceText(ps.piece), LiteralTail(ps.rest), LiteralTail(LiteralWith(ps.rest, n - w)), n - w);
    }
  }

  lemma {:induction false} WithText(d: Document, k: nat)
    requires WellFormed(d) && CutsEscape(d, k)
    ensures k > 0 && WellFormed(WithBackslash(d, k)) && OneMore(Text(d), Text(WithBackslash(d, k)), k)
    decreases d, 0
  {
    hide LiteralTail, LiteralCuts, LiteralWith, WellFormedPieces, ItemsText, MembersText, OneMore;
    match d
    case StringDoc(ps) =>
      LiteralWithText(ps, k - 1);
      OneMoreBehind("\"", LiteralTail(ps), LiteralTail(LiteralWith(ps, k - 1)), k - 1);
    case ArrayDoc(items) =>
      ItemsWithText(items, k - 1);
      OneMoreBehind("[", ItemsText(items), ItemsText(ItemsWith(items, k - 1)), k - 1);
    case ObjectDoc(members) =>
      MembersWithText(members, k - 1);
      OneMoreBehind("{", MembersText(members), MembersText(MembersWith(members, k - 1)), k - 1);
  }

  lemma {:induction false} ItemsWithText(items: Items, n: nat)
    requires WellFormedItems(items) && ItemsCut(items, n)
    ensures WellFormedItems(ItemsWith(items, n)) && OneMore(ItemsText(items), ItemsText(ItemsWith(items, n)), n)
    decreases items
  {
    hide CutsEscape, WithBackslash, WellFormed, Text, OneMore;
    var d, pre, i, tail := items.item, items.pre, After(n, |items.pre|), ItemTail(items);
    var r := ItemsWith(items, n);
    ItemsWidth(items);
    ItemsWidth(r);
    if CutsEscape(d, i) {
      WithText(d, i);
      OneMoreFramed(pre, Text(d), Text(WithBackslash(d, i)), items.post + tail, i);
    } else {
      var w := ItemWidth(items);
      var left := After(n, w);
      ItemsWithText(items.rest, left);
      NothingCut(items.rest);
      var head := pre + (Text(d) + (items.post + ","));
      OneMoreBehind(head, ItemsText(items.rest), ItemsText(r.rest), left);
      ItemsHead(items);
      ItemsHead(r);
    }
  }

  lemma ItemsHead(items: Items)
    requires items.MoreItems?
    ensures ItemsText(items) == (items.pre + (Text(items.item) + (items.post + ","))) + ItemsText(items.rest)
    ensures |items.pre + (Text(items.item) + (items.post + ","))| == ItemWidth(items)
  {
  }

  lemma {:induction false} NothingCutYet(d: Document)
    ensures !CutsEscape(d, 0)
  {
  }

  lemma {:induction false} NothingCut(items: Items)
    ensures !ItemsCut(items, 0)
    decreases items
  {
    if !items.NoItems? {
      NothingCutYet(items.item);
      if items.MoreItems? {
        NothingCut(items.rest);
      }
    }
  }

  lemma {:induction false} NoMemberCut(members: Members)
    ensures !MembersCut(members, 0)
    decreases members
  {
    if !members.NoMembers? {
      NothingCutYet(members.member.value);
      if members.MoreMembers? {
        NoMemberCut(members.rest);
      }
    }
  }

  lemma MemberWithText(m: Member, tail: string, n: nat)
    requires WellFormedMember(m) && MemberCuts(m, n)
    ensures WellFormedMember(MemberWith(m, n)) && OneMore(MemberText(m, tail), MemberText(MemberWith(m, n), tail), n)
    decreases m
  {
    hide CutsEscape, WithBackslash, WellFormed, Text, OneMore, LiteralTail, LiteralCuts, LiteralWith, WellFormedPieces;
    if KeyCut(m, n) {
      var i := n - |m.pre| - 1;
      LiteralWithText(m.key, i);
      var after := m.mid + (":" + (m.gap + (Text(m.value) + (m.post + tail))));
      OneMoreFramed("\"", LiteralTail(m.key), LiteralTail(LiteralWith(m.key, i)), after, i);
      OneMoreBehind(m.pre, "\"" + (LiteralTail(m.key) + after), "\"" + (LiteralTail(LiteralWith(m.key, i)) + after), i + 1);
    } else {
      var i := After(n, HeadWidth(m));
      WithText(m.value, i);
      var head := m.pre + ("\"" + (LiteralTail(m.key) + (m.mid + (":" + m.gap))));
      OneMoreFramed(head, Text(m.value), Text(WithBackslash(m.value, i)), m.post + tail, i);
      MemberHead(m, tail);
      MemberHead(MemberWith(m, n), tail);
    }
  }

  lemma MemberHead(m: Member, tail: string)
    ensures var head := m.pre + ("\"" + (LiteralTail(m.key) + (m.mid + (":" + m.gap))));
            |head| == HeadWidth(m) && MemberText(m, tail) == head + (Text(m.value) + (m.post + tail))
  {
    hide Text, LiteralTail;
    var rest := Text(m.value) + (m.post + tail);
    assert (":" + m.gap) + rest == ":" + (m.gap + rest);
    assert (m.mid + (":" + m.gap)) + rest == m.mid + (":" + (m.gap + rest));
    assert (LiteralTail(m.key) + (m.mid + (":" + m.gap))) + rest == LiteralTail(m.key) + (m.mid + (":" + (m.gap + rest)));
  }

  lemma {:induction false} MembersWithText(members: Members, n: nat)
    requires WellFormedMembers(members) && MembersCut(members, n)
    ensures WellFormedMembers(MembersWith(members, n)) && OneMore(MembersText(members), MembersText(MembersWith(members, n)), n)
    decreases members
  {
    hide CutsEscape, WithBackslash, WellFormed, Text, OneMore, MemberCuts, MemberWith, MemberText, LiteralTail, WellFormedPieces;
    var m, r := members.member, MembersWith(members, n);
    assert WellFormedMember(m);
    MembersTextIs(members);
    MembersTextIs(r);
    if MemberCuts(m, n) {
      MemberWithText(m, MemberTail(members), n);
    } else {
      var w := MemberWidth(m);
      MembersWithText(members.rest, After(n, w));
      NoMemberCut(members.rest);
      OneMoreBehind(MemberText(m, ","), MembersText(members.rest), MembersText(r.rest), After(n, w));
      MemberTextLength(m, ",");
      MemberTailSplit(m, MembersText(members.rest));
      MemberTailSplit(m, MembersText(r.rest));
    }
  }

  lemma MemberTailSplit(m: Member, tail: string)
    ensures MemberText(m, ",") + tail == MemberText(m, "," + tail)
  {
    hide Text, LiteralTail;
    MemberHead(m, ",");
    MemberHead(m, "," + tail);
    var head := m.pre + ("\"" + (LiteralTail(m.key) + (m.mid + (":" + m.gap))));
    assert (m.post + ",") + tail == m.post + ("," + tail);
    assert (Text(m.value) + (m.post + ",")) + tail == Text(m.value) + (m.post + ("," + tail));
  }

  /**
   * A prefix that ends in a backslash after a stray one: Repair escapes that
   * backslash too, and so what is shown is what the document would show if the
   * escape that was cut were an escaped backslash.
   */
  lemma LenientBackslashShows(t: string, n: nat, lead: string, d: Document, trail: string)
    requires IsLenientText(t, lead, d, trail) && n <= |t|
    requires EndsInBackslash(t[..n], false) && HasStray(t[..n], false)
    ensures var k := Seen(t, n, lead);
            CutsEscape(d, k) && WellFormed(WithBackslash(d, k))
            && ParseStreaming(t[..n]) == NormalizeShown(Shown(WithBackslash(d, k), k + 1))
  {
    hide WellFormed, Text, Mended, Mendable, RepairFrom, ParsePartial, Shown, IsUtf8, ParseStreaming, HasStray, EndsInBackslash,
         CutsEscape, WithBackslash, AllSpace;
    var s, k, full := t[..n], Seen(t, n, lead), lead + (Text(d) + trail);
    MendedIsPrefix(t, n, lead, d, trail);
    StrictAddsNothing(t, n);
    StrayFails(t, n, lead, d, trail);
    CutInDocument(t, n, lead, d, trail);
    Place(d, k);
    WithText(d, k);
    MendedIsRepaired(s, false);
    var e := WithBackslash(d, k);
    OneMoreFramed(lead, Text(d), Text(e), trail, k);
    ParsePartialShows(lead, e, trail, |lead| + k + 1);
  }
}
