/**
 * What a document shows grows with the text: the value shown by fewer
 * characters approximates the value shown by more, and so the document's
 * meaning. The one exception is exact: a string that is cut between the two
 * halves of a surrogate pair shows U+FFFD for the first half.
 */
module PartialGrowth {
  import opened Wrappers
  import opened JsonText
  import opened JsonDocument

  // ----- The exception, and the domain -------------------------------------------

  /** The first n characters of the literal end after a high surrogate whose low half is cut. */
  predicate LiteralSplitsPair(ps: Pieces, n: nat)
    requires WellFormedPieces(ps)
  {
    if ps.End? || n < |PieceText(ps.piece)| then false
    else if StartsPair(ps) then
      assert WellFormedPieces(ps.rest);
      n < 12 || LiteralSplitsPair(ps.rest.rest, n - 12)
    else LiteralSplitsPair(ps.rest, n - |PieceText(ps.piece)|)
  }

  /** The cut falls so in the value that is open at it; a key that is cut is dropped. */
  predicate SplitsPair(d: Document, n: nat)
    requires WellFormed(d)
    decreases d
  {
    match d
    case StringDoc(ps) => n > 0 && LiteralSplitsPair(ps, n - 1)
    case ArrayDoc(items) => n > 0 && ItemsSplitPair(items, n - 1)
    case ObjectDoc(members) => n > 0 && MembersSplitPair(members, n - 1)
    case _ => false
  }

  predicate ItemsSplitPair(items: Items, n: nat)
    requires WellFormedItems(items)
    decreases items
  {
    match items
    case NoItems(_) => false
    case LastItem(pre, d, _) => SplitsPair(d, After(n, |pre|))
    case MoreItems(pre, d, _, rest) =>
      SplitsPair(d, After(n, |pre|)) || ItemsSplitPair(rest, After(n, ItemWidth(items)))
  }

  predicate MemberSplitsPair(m: Member, n: nat)
    requires WellFormedMember(m)
    decreases m
  {
    SplitsPair(m.value, After(n, HeadWidth(m)))
  }

  predicate MembersSplitPair(members: Members, n: nat)
    requires WellFormedMembers(members)
    decreases members
  {
    match members
    case NoMembers(_) => false
    case LastMember(m) => MemberSplitsPair(m, n)
    case MoreMembers(m, rest) => MemberSplitsPair(m, n) || MembersSplitPair(rest, After(n, MemberWidth(m)))
  }

  /** No object of the document has one key twice. */
  predicate DistinctKeys(d: Document)
    requires WellFormed(d)
    decreases d
  {
    match d
    case ArrayDoc(items) => ItemsDistinctKeys(items)
    case ObjectDoc(members) => MembersDistinctKeys(members, {})
    case _ => true
  }

  predicate ItemsDistinctKeys(items: Items)
    requires WellFormedItems(items)
    decreases items
  {
    match items
    case NoItems(_) => true
    case LastItem(_, d, _) => DistinctKeys(d)
    case MoreItems(_, d, _, rest) => DistinctKeys(d) && ItemsDistinctKeys(rest)
  }

  predicate MembersDistinctKeys(members: Members, taken: set<string>)
    requires WellFormedMembers(members)
    decreases members
  {
    match members
    case NoMembers(_) => true
    case LastMember(m) => NewKey(m, taken)
    case MoreMembers(m, rest) => NewKey(m, taken) && MembersDistinctKeys(rest, taken + {Decode(m.key)})
  }

  predicate NewKey(m: Member, taken: set<string>)
    requires WellFormedMember(m)
    decreases m
  {
    Decode(m.key) !in taken && DistinctKeys(m.value)
  }

  /**
   * No key that the first n characters show is given again by a member that only
   * the first m characters show.
   */
  predicate NoneOverridden(d: Document, n: nat, m: nat)
    requires WellFormed(d)
    decreases d
  {
    match d
    case ArrayDoc(items) => n > 0 && m > 0 ==> NoItemOverridden(items, n - 1, m - 1)
    case ObjectDoc(members) => n > 0 && m > 0 ==> NoMemberOverridden(members, n - 1, m - 1, {})
    case _ => true
  }

  predicate NoItemOverridden(items: Items, n: nat, m: nat)
    requires WellFormedItems(items)
    decreases items
  {
    match items
    case NoItems(_) => true
    case LastItem(pre, d, _) => NoneOverridden(d, After(n, |pre|), After(m, |pre|))
    case MoreItems(pre, d, _, rest) =>
      && NoneOverridden(d, After(n, |pre|), After(m, |pre|))
      && NoItemOverridden(rest, After(n, ItemWidth(items)), After(m, ItemWidth(items)))
  }

  predicate IsShown(m: Member, n: nat)
    requires WellFormedMember(m)
    decreases m
  {
    Shown(m.value, After(n, HeadWidth(m))).Some?
  }

  predicate OverridesNone(field: Member, n: nat, m: nat, shown: set<string>)
    requires WellFormedMember(field)
    decreases field
  {
    && NoneOverridden(field.value, After(n, HeadWidth(field)), After(m, HeadWidth(field)))
    && (IsShown(field, m) && !IsShown(field, n) ==> Decode(field.key) !in shown)
  }

  predicate NoMemberOverridden(members: Members, n: nat, m: nat, shown: set<string>)
    requires WellFormedMembers(members)
    decreases members
  {
    match members
    case NoMembers(_) => true
    case LastMember(field) => OverridesNone(field, n, m, shown)
    case MoreMembers(field, rest) =>
      && OverridesNone(field, n, m, shown)
      && NoMemberOverridden(rest, After(n, MemberWidth(field)), After(m, MemberWidth(field)),
                            if IsShown(field, n) then shown + {Decode(field.key)} else shown)
  }

  lemma {:induction false} DistinctIsNotOverridden(d: Document, n: nat, m: nat)
    requires WellFormed(d) && DistinctKeys(d)
    ensures NoneOverridden(d, n, m)
    decreases d
  {
    hide Shown;
    if n > 0 && m > 0 {
      match d
      case ArrayDoc(items) => DistinctItems(items, n - 1, m - 1);
      case ObjectDoc(members) => DistinctMembers(members, n - 1, m - 1, {}, {});
      case _ =>
    }
  }

  lemma {:induction false} DistinctItems(items: Items, n: nat, m: nat)
    requires WellFormedItems(items) && ItemsDistinctKeys(items)
    ensures NoItemOverridden(items, n, m)
    decreases items
  {
    if !items.NoItems? {
      DistinctIsNotOverridden(items.item, After(n, |items.pre|), After(m, |items.pre|));
      if items.MoreItems? {
        DistinctItems(items.rest, After(n, ItemWidth(items)), After(m, ItemWidth(items)));
      }
    }
  }

  lemma {:induction false} DistinctMembers(members: Members, n: nat, m: nat, shown: set<string>, taken: set<string>)
    requires WellFormedMembers(members) && MembersDistinctKeys(members, taken) && shown <= taken
    ensures NoMemberOverridden(members, n, m, shown)
    decreases members
  {
    hide IsShown;
    if !members.NoMembers? {
      var field := members.member;
      assert WellFormedMember(field);
      DistinctIsNotOverridden(field.value, After(n, HeadWidth(field)), After(m, HeadWidth(field)));
      if members.MoreMembers? {
        DistinctMembers(members.rest, After(n, MemberWidth(field)), After(m, MemberWidth(field)),
                        if IsShown(field, n) then shown + {Decode(field.key)} else shown, taken + {Decode(field.key)});
      }
    }
  }

  // ----- Strings -------------------------------------------------------------------

  lemma {:induction false} LiteralGrows(ps: Pieces, n: nat, m: nat)
    requires WellFormedPieces(ps) && n <= m && !LiteralSplitsPair(ps, n)
    ensures DecodeSeen(ps, n) <= DecodeSeen(ps, m)
    decreases ps
  {
    hide PieceBytes, PairBytes;
    if ps.End? || n < |PieceText(ps.piece)| {
    } else if StartsPair(ps) {
      assert WellFormedPieces(ps.rest);
      LiteralGrows(ps.rest.rest, n - 12, m - 12);
    } else {
      LiteralGrows(ps.rest, n - |PieceText(ps.piece)|, m - |PieceText(ps.piece)|);
    }
  }

  lemma {:induction false} SplitLiteralIsNoPrefix(ps: Pieces, n: nat)
    requires WellFormedPieces(ps) && LiteralSplitsPair(ps, n)
    ensures !(DecodeSeen(ps, n) <= Decode(ps))
    decreases ps
  {
    if StartsPair(ps) {
      assert WellFormedPieces(ps.rest);
      if n < 12 {
        ReplacementIsNoPairPrefix(PairRune(Code(ps.piece), Code(ps.rest.piece)));
        assert PieceBytes(ps.piece) == Utf8(0xFFFD);
        assert DecodeSeen(ps, n)[0] == Utf8(0xFFFD)[0];
        assert Decode(ps)[0] == PairBytes(ps)[0];
      } else {
        SplitLiteralIsNoPrefix(ps.rest.rest, n - 12);
        SamePrefix(PairBytes(ps), DecodeSeen(ps.rest.rest, n - 12), Decode(ps.rest.rest));
      }
    } else {
      var w := |PieceText(ps.piece)|;
      SplitLiteralIsNoPrefix(ps.rest, n - w);
      SamePrefix(PieceBytes(ps.piece), DecodeSeen(ps.rest, n - w), Decode(ps.rest));
    }
  }

  lemma SamePrefix(a: string, s: string, t: string)
    ensures a + s <= a + t <==> s <= t
  {
    assert (a + s)[|a|..] == s;
    assert (a + t)[|a|..] == t;
    if a + s <= a + t {
      assert (a + t)[..|a + s|][|a|..] == t[..|s|];
    }
  }

  // ----- Documents -------------------------------------------------------------------

  ghost predicate ItemsApproximate(xs: seq<Value>, ys: seq<Value>) {
    |xs| <= |ys| && forall i | 0 <= i < |xs| :: Approximates(xs[i], ys[i])
  }

  ghost predicate FieldsApproximate(f: map<string, Value>, g: map<string, Value>) {
    forall k | k in f :: k in g && Approximates(f[k], g[k])
  }

  /** A shown value stays shown and is approximated by what was shown of it before. */
  ghost predicate Grows(before: Option<Value>, after: Option<Value>) {
    before.Some? ==> after.Some? && Approximates(before.value, after.value)
  }

  /** More text only adds to what is shown, as long as no key that is shown is given again. */
  lemma {:induction false} ShownGrows(d: Document, n: nat, m: nat)
    requires WellFormed(d) && NoneOverridden(d, n, m) && n <= m && !SplitsPair(d, n)
    ensures Grows(Shown(d, n), Shown(d, m))
    decreases d
  {
    hide IsFloat, LongestFloat, DecodeSeen, LiteralSplitsPair, ShownItems, ShownMembers, LiteralTail;
    hide ItemsSplitPair, MembersSplitPair, NoItemOverridden, NoMemberOverridden;
    if n > 0 {
      match d
      case NumberDoc(t) =>
        if LongestFloat(if n < |t| then t[..n] else t).Some? {
          LongestFloatGrows(if n < |t| then t[..n] else t, if m < |t| then t[..m] else t);
        }
      case StringDoc(ps) => LiteralGrows(ps, n - 1, m - 1);
      case ArrayDoc(items) => ItemsGrow(items, n - 1, m - 1);
      case ObjectDoc(members) => MembersGrow(members, n - 1, m - 1, map[], map[], {});
      case _ =>
    }
  }

  lemma {:induction false} ItemsGrow(items: Items, n: nat, m: nat)
    requires WellFormedItems(items) && NoItemOverridden(items, n, m) && n <= m && !ItemsSplitPair(items, n)
    ensures ItemsApproximate(ShownItems(items, n), ShownItems(items, m))
    decreases items
  {
    if !items.NoItems? {
      var a, b := Shown(items.item, After(n, |items.pre|)), Shown(items.item, After(m, |items.pre|));
      ShownGrows(items.item, After(n, |items.pre|), After(m, |items.pre|));
      if items.MoreItems? {
        var left := After(n, ItemWidth(items));
        if left == 0 {
          NoItemsShownYet(items.rest);
        } else {
          FullyShown(items.item, After(n, |items.pre|));
          FullyShown(items.item, After(m, |items.pre|));
          ItemsGrow(items.rest, left, After(m, ItemWidth(items)));
        }
      }
    }
  }

  lemma {:induction false} MembersGrow(members: Members, n: nat, m: nat, f: map<string, Value>, g: map<string, Value>,
                                       shown: set<string>)
    requires WellFormedMembers(members) && n <= m && !MembersSplitPair(members, n)
    requires NoMemberOverridden(members, n, m, shown) && FieldsApproximate(f, g) && f.Keys <= shown
    ensures FieldsApproximate(ShownMembers(members, n, f), ShownMembers(members, m, g))
    decreases members
  {
    hide Shown, SplitsPair, NoneOverridden, Approximates;
    if !members.NoMembers? {
      var field := members.member;
      ShownGrows(field.value, After(n, HeadWidth(field)), After(m, HeadWidth(field)));
      if members.MoreMembers? {
        MembersGrow(members.rest, After(n, MemberWidth(field)), After(m, MemberWidth(field)),
                    WithMember(f, field, n), WithMember(g, field, m),
                    if IsShown(field, n) then shown + {Decode(field.key)} else shown);
      }
    }
  }

  // ----- The exception is exact ----------------------------------------------------

  lemma {:induction false} SplitIsNoApproximation(d: Document, n: nat)
    requires WellFormed(d) && DistinctKeys(d) && SplitsPair(d, n)
    ensures Shown(d, n).Some? && !Approximates(Shown(d, n).value, Meaning(d))
    decreases d
  {
    match d
    case StringDoc(ps) => SplitLiteralIsNoPrefix(ps, n - 1);
    case ArrayDoc(items) => SplitItems(items, n - 1);
    case ObjectDoc(members) => SplitMembers(members, n - 1, map[], map[], {});
  }

  lemma {:induction false} SplitItems(items: Items, n: nat)
    requires WellFormedItems(items) && ItemsDistinctKeys(items) && ItemsSplitPair(items, n)
    ensures !ItemsApproximate(ShownItems(items, n), ItemsMeaning(items))
    decreases items
  {
    hide Shown, Meaning, Approximates, SplitsPair, DistinctKeys;
    var shown, whole := ShownItems(items, n), ItemsMeaning(items);
    if SplitsPair(items.item, After(n, |items.pre|)) {
      SplitIsNoApproximation(items.item, After(n, |items.pre|));
      assert !Approximates(shown[0], whole[0]);
    } else {
      var left := After(n, ItemWidth(items));
      NothingSplitYet(items.rest);
      FullyShown(items.item, After(n, |items.pre|));
      SplitItems(items.rest, left);
      assert shown[1..] == ShownItems(items.rest, left) && whole[1..] == ItemsMeaning(items.rest);
      TailApproximates(shown, whole);
    }
  }

  lemma TailApproximates(xs: seq<Value>, ys: seq<Value>)
    requires xs != [] && ys != []
    ensures ItemsApproximate(xs, ys) ==> ItemsApproximate(xs[1..], ys[1..])
  {
  }

  lemma NothingSplitYet(items: Items)
    requires WellFormedItems(items)
    ensures !ItemsSplitPair(items, 0)
  {
  }

  /** A key that is taken keeps its value. */
  lemma {:induction false} TakenKeyKept(members: Members, g: map<string, Value>, taken: set<string>, key: string)
    requires WellFormedMembers(members) && MembersDistinctKeys(members, taken) && key in taken && key in g
    ensures key in MembersMeaning(members, g) && MembersMeaning(members, g)[key] == g[key]
    decreases members
  {
    if members.MoreMembers? {
      TakenKeyKept(members.rest, MemberMeaning(members.member, g), taken + {Decode(members.member.key)}, key);
    }
  }

  lemma {:induction false} SplitMembers(members: Members, n: nat, f: map<string, Value>, g: map<string, Value>,
                                        taken: set<string>)
    requires WellFormedMembers(members) && MembersSplitPair(members, n) && MembersDistinctKeys(members, taken)
    ensures !FieldsApproximate(ShownMembers(members, n, f), MembersMeaning(members, g))
    decreases members
  {
    var m := members.member;
    var key := Decode(m.key);
    if MemberSplitsPair(m, n) {
      SplitIsNoApproximation(m.value, After(n, HeadWidth(m)));
      var shown := WithMember(f, m, n);
      assert key in shown && !Approximates(shown[key], Meaning(m.value));
      if members.MoreMembers? {
        if After(n, MemberWidth(m)) > 0 {
          FullyShown(m.value, After(n, HeadWidth(m)));
          ApproximatesReflexive(Meaning(m.value));
        }
        NoMembersShownYet(members.rest, shown);
        TakenKeyKept(members.rest, MemberMeaning(m, g), taken + {key}, key);
      }
    } else {
      SplitMembers(members.rest, After(n, MemberWidth(m)), WithMember(f, m, n), MemberMeaning(m, g), taken + {key});
    }
  }

  /**
   * The value shown by n characters approximates the document's meaning if and
   * only if they do not end inside a surrogate pair.
   */
  lemma ShownApproximatesIff(d: Document, n: nat)
    requires WellFormed(d) && DistinctKeys(d) && Shown(d, n).Some?
    ensures Approximates(Shown(d, n).value, Meaning(d)) <==> !SplitsPair(d, n)
  {
    hide Shown;
    if SplitsPair(d, n) {
      SplitIsNoApproximation(d, n);
    } else {
      var m := if n < |Text(d)| then |Text(d)| else n;
      DistinctIsNotOverridden(d, n, m);
      ShownGrows(d, n, m);
      FullyShown(d, m);
    }
  }

  // ----- Between any two cuts ------------------------------------------------------------

  /** A literal without its first piece, or its first pair. */
  function Later(ps: Pieces): Pieces
    requires ps.More?
  {
    if StartsPair(ps) then ps.rest.rest else ps.rest
  }

  function FirstWidth(ps: Pieces): nat
    requires ps.More?
  {
    if StartsPair(ps) then 12 else |PieceText(ps.piece)|
  }

  function FirstBytes(ps: Pieces): string
    requires ps.More? && WellFormedPieces(ps)
  {
    if StartsPair(ps) then PairBytes(ps) else PieceBytes(ps.piece)
  }

  lemma LaterSeen(ps: Pieces, j: nat)
    requires WellFormedPieces(ps) && ps.More? && j >= FirstWidth(ps)
    ensures WellFormedPieces(Later(ps)) && |LiteralTail(ps)| == FirstWidth(ps) + |LiteralTail(Later(ps))|
    ensures DecodeSeen(ps, j) == FirstBytes(ps) + DecodeSeen(Later(ps), j - FirstWidth(ps))
    ensures LiteralSplitsPair(ps, j) <==> LiteralSplitsPair(Later(ps), j - FirstWidth(ps))
  {
    hide PieceBytes, PairBytes;
    assert WellFormedPieces(ps.rest);
  }

  lemma LaterFits(ps: Pieces, n: nat)
    requires WellFormedPieces(ps) && LiteralSplitsPair(ps, n)
    ensures ps.More? && Later(ps) < ps && WellFormedPieces(Later(ps))
    ensures if n < FirstWidth(ps) then StartsPair(ps) && 6 <= n < 12 else LiteralSplitsPair(Later(ps), n - FirstWidth(ps))
  {
    hide PieceBytes, PairBytes;
    assert WellFormedPieces(ps.rest);
  }

  /** While its second half is on the way, a pair shows the replacement character. */
  lemma HalfSeen(ps: Pieces, j: nat)
    requires WellFormedPieces(ps) && StartsPair(ps) && 6 <= j < 12
    ensures LiteralSplitsPair(ps, j) && DecodeSeen(ps, j) == Utf8(0xFFFD)
  {
    hide Utf8;
    assert WellFormedPieces(ps.rest);
    assert DecodeSeen(ps.rest, j - 6) == "";
    assert DecodeSeen(ps, j) == PieceBytes(ps.piece) + "";
    LoneHigh(Code(ps.piece));
  }

  lemma LoneHigh(code: nat)
    requires IsHighSurrogate(code)
    ensures Utf8(code) == Utf8(0xFFFD)
  {
  }

  lemma HalfIsNoPrefix(ps: Pieces, m: nat)
    requires WellFormedPieces(ps) && StartsPair(ps) && m >= 12
    ensures !LiteralSplitsPair(ps, 12) && 12 < |LiteralTail(ps)| && !(Utf8(0xFFFD) <= DecodeSeen(ps, m))
  {
    LaterSeen(ps, 12);
    LaterSeen(ps, m);
    PairBytesAreNoReplacement(ps);
    hide DecodeSeen, PairBytes, Utf8;
    NothingSplitAtStart(Later(ps));
    var pair, rest := PairBytes(ps), DecodeSeen(Later(ps), m - 12);
    assert (pair + rest)[0] == pair[0];
  }

  lemma PairBytesAreNoReplacement(ps: Pieces)
    requires StartsPair(ps)
    ensures PairBytes(ps) != "" && Utf8(0xFFFD) != "" && Utf8(0xFFFD)[0] != PairBytes(ps)[0]
  {
    ReplacementIsNoPairPrefix(PairRune(Code(ps.piece), Code(ps.rest.piece)));
  }

  lemma NothingSplitAtStart(ps: Pieces)
    requires WellFormedPieces(ps)
    ensures !LiteralSplitsPair(ps, 0)
  {
  }

  /** What becomes of a split pair by m characters: it is still split, or its second half has come by character k. */
  lemma {:induction false} LiteralSplitOutcome(ps: Pieces, n: nat, m: nat) returns (k: nat)
    requires WellFormedPieces(ps) && LiteralSplitsPair(ps, n) && n <= m
    ensures n <= k <= m && k < |LiteralTail(ps)|
    ensures LiteralSplitsPair(ps, k) ==>
              k == m && DecodeSeen(ps, n) == DecodeSeen(ps, m) && forall j | n <= j <= m :: LiteralSplitsPair(ps, j)
    ensures !LiteralSplitsPair(ps, k) ==> !(DecodeSeen(ps, n) <= DecodeSeen(ps, m))
    decreases ps
  {
    hide DecodeSeen, LiteralSplitsPair, FirstBytes, FirstWidth, Later, Utf8, LiteralTail;
    LaterFits(ps, n);
    var w := FirstWidth(ps);
    if n < w {
      k := PairOutcome(ps, n, m);
    } else {
      LaterSeen(ps, n);
      LaterSeen(ps, m);
      var after := LiteralSplitOutcome(Later(ps), n - w, m - w);
      k := after + w;
      SamePrefix(FirstBytes(ps), DecodeSeen(Later(ps), n - w), DecodeSeen(Later(ps), m - w));
      forall j | n <= j <= m ensures LiteralSplitsPair(ps, j) <==> LiteralSplitsPair(Later(ps), j - w) {
        LaterSeen(ps, j);
      }
    }
  }

  lemma PairOutcome(ps: Pieces, n: nat, m: nat) returns (k: nat)
    requires WellFormedPieces(ps) && StartsPair(ps) && 6 <= n < 12 && n <= m
    ensures n <= k <= m && k < |LiteralTail(ps)|
    ensures LiteralSplitsPair(ps, k) ==>
              k == m && DecodeSeen(ps, n) == DecodeSeen(ps, m) && forall j | n <= j <= m :: LiteralSplitsPair(ps, j)
    ensures !LiteralSplitsPair(ps, k) ==> !(DecodeSeen(ps, n) <= DecodeSeen(ps, m))
  {
    hide DecodeSeen, LiteralSplitsPair, Utf8, LiteralTail;
    k := if m < 12 then m else 12;
    HalfIsNoPrefix(ps, if m < 12 then 12 else m);
    HalfSeen(ps, n);
    forall j | n <= j <= m && j < 12 ensures LiteralSplitsPair(ps, j) && DecodeSeen(ps, j) == Utf8(0xFFFD) {
      HalfSeen(ps, j);
    }
  }

  lemma {:induction false} LiteralSplitInside(ps: Pieces, n: nat)
    requires WellFormedPieces(ps) && LiteralSplitsPair(ps, n)
    ensures n + 1 < |LiteralTail(ps)|
    decreases ps
  {
    if StartsPair(ps) {
      assert WellFormedPieces(ps.rest);
      if n >= 12 {
        LiteralSplitInside(ps.rest.rest, n - 12);
      }
    } else {
      LiteralSplitInside(ps.rest, n - |PieceText(ps.piece)|);
    }
  }

  /** A split lies inside the text. */
  lemma {:induction false} SplitInside(d: Document, n: nat)
    requires WellFormed(d) && SplitsPair(d, n)
    ensures n < |Text(d)|
    decreases d
  {
    hide LiteralSplitsPair, LiteralTail;
    match d
    case StringDoc(ps) => LiteralSplitInside(ps, n - 1);
    case ArrayDoc(items) => ItemsSplitInside(items, n - 1);
    case ObjectDoc(members) => MembersSplitInside(members, n - 1);
  }

  lemma {:induction false} ItemsSplitInside(items: Items, n: nat)
    requires WellFormedItems(items) && ItemsSplitPair(items, n)
    ensures n < |ItemsText(items)|
    decreases items
  {
    hide SplitsPair, Text;
    if SplitsPair(items.item, After(n, |items.pre|)) {
      SplitInside(items.item, After(n, |items.pre|));
    } else {
      NothingSplitYet(items.rest);
      ItemsSplitInside(items.rest, After(n, ItemWidth(items)));
    }
  }

  lemma {:induction false} MembersSplitInside(members: Members, n: nat)
    requires WellFormedMembers(members) && MembersSplitPair(members, n)
    ensures n < |MembersText(members)|
    decreases members
  {
    hide SplitsPair, Text, MemberText, LiteralTail;
    var m := members.member;
    MemberTextLength(m, if members.LastMember? then "}" else "," + MembersText(members.rest));
    if MemberSplitsPair(m, n) {
      SplitInside(m.value, After(n, HeadWidth(m)));
    } else {
      NoMemberSplitYet(members.rest);
      MembersSplitInside(members.rest, After(n, MemberWidth(m)));
    }
  }

  lemma {:induction false} NoMemberSplitYet(members: Members)
    requires WellFormedMembers(members)
    ensures !MembersSplitPair(members, 0)
    decreases members
  {
    hide SplitsPair;
    if !members.NoMembers? {
      assert WellFormedMember(members.member);
      NothingSplit0(members.member.value);
      if members.MoreMembers? {
        NoMemberSplitYet(members.rest);
      }
    }
  }

  /** Past its text nothing of a document is split. */
  lemma NotSplitPast(d: Document, n: nat)
    requires WellFormed(d) && n >= |Text(d)|
    ensures !SplitsPair(d, n)
  {
    if SplitsPair(d, n) {
      SplitInside(d, n);
    }
  }

  lemma {:induction false} SplitOutcome(d: Document, n: nat, m: nat) returns (k: nat)
    requires WellFormed(d) && DistinctKeys(d) && SplitsPair(d, n) && n <= m
    ensures n <= k <= m && k <= |Text(d)| && Shown(d, n).Some? && Shown(d, m).Some?
    ensures SplitsPair(d, k) ==> k == m && Shown(d, n) == Shown(d, m) && forall j | n <= j <= m :: SplitsPair(d, j)
    ensures !SplitsPair(d, k) ==> !Approximates(Shown(d, n).value, Shown(d, m).value)
    decreases d
  {
    hide LiteralSplitsPair, DecodeSeen, LiteralTail, ItemsSplitPair, MembersSplitPair, ShownItems, ShownMembers;
    match d
    case StringDoc(ps) =>
      var after := LiteralSplitOutcome(ps, n - 1, m - 1);
      k := after + 1;
    case ArrayDoc(items) =>
      var after := ItemsSplitOutcome(items, n - 1, m - 1);
      k := after + 1;
    case ObjectDoc(members) =>
      var after := MembersSplitOutcome(members, n - 1, m - 1, map[], map[], {});
      k := after + 1;
  }

  lemma {:induction false} ItemsSplitOutcome(items: Items, n: nat, m: nat) returns (k: nat)
    requires WellFormedItems(items) && ItemsDistinctKeys(items) && ItemsSplitPair(items, n) && n <= m
    ensures n <= k <= m && k < |ItemsText(items)|
    ensures ItemsSplitPair(items, k) ==>
              k == m && ShownItems(items, n) == ShownItems(items, m) && forall j | n <= j <= m :: ItemsSplitPair(items, j)
    ensures !ItemsSplitPair(items, k) ==> !ItemsApproximate(ShownItems(items, n), ShownItems(items, m))
    decreases items
  {
    hide Shown, Approximates, SplitsPair, DistinctKeys, Text;
    var d, pre := items.item, |items.pre|;
    if SplitsPair(d, After(n, pre)) {
      k := FirstItemOutcome(items, n, m);
    } else {
      var w := ItemWidth(items);
      NothingSplitYet(items.rest);
      var after := ItemsSplitOutcome(items.rest, After(n, w), After(m, w));
      k := after + w;
      FullyShown(d, After(n, pre));
      FullyShown(d, After(m, pre));
      forall j | n <= j <= m ensures ItemsSplitPair(items, j) <==> ItemsSplitPair(items.rest, After(j, w)) {
        NotSplitPast(d, After(j, pre));
      }
      var xs, ys := ShownItems(items, n), ShownItems(items, m);
      assert xs[1..] == ShownItems(items.rest, After(n, w)) && ys[1..] == ShownItems(items.rest, After(m, w));
      TailApproximates(xs, ys);
    }
  }

  lemma FirstItemOutcome(items: Items, n: nat, m: nat) returns (k: nat)
    requires WellFormedItems(items) && ItemsDistinctKeys(items) && !items.NoItems? && n <= m
    requires SplitsPair(items.item, After(n, |items.pre|))
    ensures n <= k <= m && k < |ItemsText(items)|
    ensures ItemsSplitPair(items, k) ==>
              k == m && ShownItems(items, n) == ShownItems(items, m) && forall j | n <= j <= m :: ItemsSplitPair(items, j)
    ensures !ItemsSplitPair(items, k) ==> !ItemsApproximate(ShownItems(items, n), ShownItems(items, m))
    decreases items, 0
  {
    hide Shown, Approximates, SplitsPair, DistinctKeys, Text;
    var d, pre := items.item, |items.pre|;
    NothingSplit0(d);
    SplitInside(d, After(n, pre));
    var after := SplitOutcome(d, After(n, pre), After(m, pre));
    k := after + pre;
    if items.MoreItems? {
      NothingSplitYet(items.rest);
      NoItemsShownYet(items.rest);
    }
    if SplitsPair(d, after) {
      SplitInside(d, after);
    } else {
      assert !Approximates(ShownItems(items, n)[0], ShownItems(items, m)[0]);
    }
  }

  lemma NothingSplit0(d: Document)
    requires WellFormed(d)
    ensures !SplitsPair(d, 0)
  {
  }

  /** A key that is taken keeps its shown value. */
  lemma {:induction false} TakenKeyShown(members: Members, m: nat, g: map<string, Value>, taken: set<string>, key: string)
    requires WellFormedMembers(members) && MembersDistinctKeys(members, taken) && key in taken && key in g
    ensures key in ShownMembers(members, m, g) && ShownMembers(members, m, g)[key] == g[key]
    decreases members
  {
    hide Shown;
    if members.MoreMembers? {
      var field := members.member;
      TakenKeyShown(members.rest, After(m, MemberWidth(field)), WithMember(g, field, m), taken + {Decode(field.key)}, key);
    }
  }

  lemma {:induction false} MembersSplitOutcome(members: Members, n: nat, m: nat, f: map<string, Value>, g: map<string, Value>,
                                               taken: set<string>) returns (k: nat)
    requires WellFormedMembers(members) && MembersSplitPair(members, n) && MembersDistinctKeys(members, taken) && n <= m
    ensures n <= k <= m && k < |MembersText(members)|
    ensures MembersSplitPair(members, k) ==>
              && k == m && (f == g ==> ShownMembers(members, n, f) == ShownMembers(members, m, g))
              && forall j | n <= j <= m :: MembersSplitPair(members, j)
    ensures !MembersSplitPair(members, k) ==> !FieldsApproximate(ShownMembers(members, n, f), ShownMembers(members, m, g))
    decreases members
  {
    hide Shown, Approximates, SplitsPair, DistinctKeys, Text, MemberText, LiteralTail;
    var field := members.member;
    assert WellFormedMember(field);
    MemberTextLength(field, if members.LastMember? then "}" else "," + MembersText(members.rest));
    if MemberSplitsPair(field, n) {
      k := FirstMemberOutcome(members, n, m, f, g, taken);
    } else {
      var w := MemberWidth(field);
      NoMemberSplitYet(members.rest);
      var f', g', taken' := WithMember(f, field, n), WithMember(g, field, m), taken + {Decode(field.key)};
      var after := MembersSplitOutcome(members.rest, After(n, w), After(m, w), f', g', taken');
      k := after + w;
      FullyShown(field.value, After(n, HeadWidth(field)));
      FullyShown(field.value, After(m, HeadWidth(field)));
      forall j | n <= j <= m ensures MembersSplitPair(members, j) <==> MembersSplitPair(members.rest, After(j, w)) {
        NotSplitPast(field.value, After(j, HeadWidth(field)));
      }
    }
  }

  lemma FirstMemberOutcome(members: Members, n: nat, m: nat, f: map<string, Value>, g: map<string, Value>,
                           taken: set<string>) returns (k: nat)
    requires WellFormedMembers(members) && !members.NoMembers? && MembersDistinctKeys(members, taken) && n <= m
    requires MemberSplitsPair(members.member, n)
    ensures n <= k <= m && k < |MembersText(members)|
    ensures MembersSplitPair(members, k) ==>
              && k == m && (f == g ==> ShownMembers(members, n, f) == ShownMembers(members, m, g))
              && forall j | n <= j <= m :: MembersSplitPair(members, j)
    ensures !MembersSplitPair(members, k) ==> !FieldsApproximate(ShownMembers(members, n, f), ShownMembers(members, m, g))
    decreases members, 0
  {
    hide Shown, Approximates, SplitsPair, DistinctKeys, Text, MemberText, LiteralTail, ShownMembers, MembersSplitPair, MembersText;
    var field := members.member;
    var d, head, key := field.value, HeadWidth(field), Decode(field.key);
    MemberPlace(members, n);
    NothingSplit0(d);
    SplitInside(d, After(n, head));
    var after := SplitOutcome(d, After(n, head), After(m, head));
    k := after + head;
    assert k - head == after && After(k, head) == after;
    FirstMemberSplit(members, k);
    var x, y := Shown(d, After(n, head)).value, Shown(d, After(m, head)).value;
    FirstMemberShown(members, n, f, taken);
    FirstMemberShown(members, m, g, taken);
    if SplitsPair(d, after) {
      SplitInside(d, after);
      FirstMemberOnly(members, n, f);
      FirstMemberOnly(members, m, g);
      forall j | n <= j <= m ensures MembersSplitPair(members, j) {
        assert SplitsPair(d, After(j, head));
        FirstMemberSplit(members, j);
      }
    }
  }

  lemma MemberPlace(members: Members, n: nat)
    requires WellFormedMembers(members) && !members.NoMembers?
    ensures WellFormedMember(members.member)
    ensures HeadWidth(members.member) + |Text(members.member.value)| < |MembersText(members)|
    ensures HeadWidth(members.member) + |Text(members.member.value)| < MemberWidth(members.member)
  {
    hide Text, MemberText, LiteralTail;
    var field := members.member;
    MemberTextLength(field, if members.LastMember? then "}" else "," + MembersText(members.rest));
  }

  /** A cut in the first member's value, or at its end. */
  lemma FirstMemberSplit(members: Members, k: nat)
    requires WellFormedMembers(members) && !members.NoMembers? && WellFormedMember(members.member)
    ensures var field := members.member; var cut := After(k, HeadWidth(field));
            cut <= |Text(field.value)| ==> (MembersSplitPair(members, k) <==> SplitsPair(field.value, cut))
    ensures SplitsPair(members.member.value, After(k, HeadWidth(members.member))) ==> MembersSplitPair(members, k)
  {
    hide SplitsPair, Text, LiteralTail;
    var field := members.member;
    if members.MoreMembers? {
      NoMemberSplitYet(members.rest);
      if After(k, HeadWidth(field)) <= |Text(field.value)| {
        assert After(k, MemberWidth(field)) == 0;
      }
    }
  }

  /** The first member's value, once there is one, is shown under its key. */
  lemma FirstMemberShown(members: Members, n: nat, f: map<string, Value>, taken: set<string>)
    requires WellFormedMembers(members) && !members.NoMembers? && WellFormedMember(members.member) && MembersDistinctKeys(members, taken)
    ensures var field := members.member; var shown := Shown(field.value, After(n, HeadWidth(field)));
            shown.Some? ==>
              && Decode(field.key) in ShownMembers(members, n, f)
              && ShownMembers(members, n, f)[Decode(field.key)] == shown.value
  {
    hide Shown, Text, LiteralTail;
    var field := members.member;
    var key := Decode(field.key);
    if members.MoreMembers? && Shown(field.value, After(n, HeadWidth(field))).Some? {
      TakenKeyShown(members.rest, After(n, MemberWidth(field)), WithMember(f, field, n), taken + {key}, key);
    }
  }

  /** While the cut is in the first member, there is nothing but it. */
  lemma FirstMemberOnly(members: Members, n: nat, f: map<string, Value>)
    requires WellFormedMembers(members) && !members.NoMembers?
    requires After(n, HeadWidth(members.member)) <= |Text(members.member.value)|
    ensures ShownMembers(members, n, f) == WithMember(f, members.member, n)
  {
    hide Shown, Text, LiteralTail, WithMember;
    if members.MoreMembers? {
      assert After(n, MemberWidth(members.member)) == 0;
      NoMembersShownYet(members.rest, WithMember(f, members.member, n));
    }
  }

  lemma SplitApproximatesExactly(d: Document, n: nat, m: nat)
    requires WellFormed(d) && DistinctKeys(d) && n <= m && SplitsPair(d, n)
    ensures Shown(d, n).Some? && Shown(d, m).Some?
    ensures Approximates(Shown(d, n).value, Shown(d, m).value) <==> forall k | n <= k <= m :: SplitsPair(d, k)
  {
    hide Shown, SplitsPair, DistinctKeys, Text, Approximates;
    var k := SplitOutcome(d, n, m);
    if SplitsPair(d, k) {
      ApproximatesReflexive(Shown(d, n).value);
    } else {
      assert exists j :: n <= j <= m && !SplitsPair(d, j);
    }
  }

  /**
   * With distinct keys, and between any two cuts: what the shorter prefix shows
   * approximates what the longer one shows if and only if it does not end inside
   * a surrogate pair, or every cut up to the longer one still does.
   */
  lemma ShownApproximatesExactly(d: Document, n: nat, m: nat)
    requires WellFormed(d) && DistinctKeys(d) && n <= m && Shown(d, n).Some?
    ensures Shown(d, m).Some?
    ensures Approximates(Shown(d, n).value, Shown(d, m).value) <==>
              !SplitsPair(d, n) || forall k | n <= k <= m :: SplitsPair(d, k)
  {
    hide Shown, SplitsPair, NoneOverridden, DistinctKeys, Text, Approximates, WellFormed;
    if SplitsPair(d, n) {
      SplitApproximatesExactly(d, n, m);
    } else {
      DistinctIsNotOverridden(d, n, m);
      ShownGrows(d, n, m);
    }
  }

  lemma RepeatedKeyShows(d: Document)
    requires var key := More(Raw('a'), End);
             d == ObjectDoc(MoreMembers(Member("", key, "", "", BoolDoc(true), ""),
                                        LastMember(Member("", key, "", "", BoolDoc(false), ""))))
    ensures WellFormed(d) && !SplitsPair(d, 10) && Shown(d, 10).Some?
    ensures !Approximates(Shown(d, 10).value, Meaning(d))
  {
    var key := More(Raw('a'), End);
    var first, second := Member("", key, "", "", BoolDoc(true), ""), Member("", key, "", "", BoolDoc(false), "");
    var last := LastMember(second);
    var shown, whole := map["a" := Bool(true)], map["a" := Bool(false)];
    assert WellFormedMember(first) && WellFormedMember(second) && WellFormedMembers(last);
    assert LiteralTail(key) == "a\"" && Decode(key) == "a";
    assert HeadWidth(first) == 4 && MemberWidth(first) == 9;
    assert WithMember(map[], first, 9) == shown;
    NoMembersShownYet(last, shown);
    assert ShownMembers(d.members, 9, map[]) == shown;
    assert MemberMeaning(second, shown) == whole;
    assert MembersMeaning(d.members, map[]) == MembersMeaning(last, MemberMeaning(first, map[])) == whole;
    assert !MemberSplitsPair(first, 9) && !MembersSplitPair(last, 0);
    assert "a" in shown && !Approximates(shown["a"], whole["a"]);
  }

  /** A shown key must not be given again: cut after its first comma, {"a":true,"a":false} shows what it does not mean. */
  lemma RepeatedKeyNeedNotGrow(d: Document)
    requires var key := More(Raw('a'), End);
             d == ObjectDoc(MoreMembers(Member("", key, "", "", BoolDoc(true), ""),
                                        LastMember(Member("", key, "", "", BoolDoc(false), ""))))
    ensures WellFormed(d) && !SplitsPair(d, 10) && Shown(d, 10).Some?
    ensures !Approximates(Shown(d, 10).value, Meaning(d)) && !NoneOverridden(d, 10, |Text(d)| + 10)
  {
    RepeatedKeyShows(d);
    hide Shown, Meaning, SplitsPair, NoneOverridden, Approximates, WellFormed, Text;
    FullyShown(d, |Text(d)| + 10);
    if NoneOverridden(d, 10, |Text(d)| + 10) {
      ShownGrows(d, 10, |Text(d)| + 10);
    }
  }
}
