/**
 * The partial parser run on a document that was cut anywhere returns exactly
 * what the document shows up to the cut.
 */
module PartialMeaning {
  import opened Wrappers
  import opened JsonText
  import opened JsonDocument
  import opened PartialParser

  /** The text t stands at position p of the full text. */
  predicate At(full: string, p: nat, t: string) {
    p + |t| <= |full| && full[p..p + |t|] == t
  }

  lemma AtSplit(full: string, p: nat, a: string, b: string)
    requires At(full, p, a + b)
    ensures At(full, p, a) && At(full, p + |a|, b) && p + |a| + |b| <= |full|
    ensures a != "" ==> full[p] == a[0]
    ensures b != "" ==> full[p + |a|] == b[0]
  {
    var whole := full[p..p + |a + b|];
    assert whole[..|a|] == a && whole[|a|..] == b;
  }

  /** The same for three parts, whose positions are given. */
  lemma AtSplit3(full: string, p: nat, a: string, q: nat, b: string, r: nat, c: string)
    requires At(full, p, a + (b + c)) && q == p + |a| && r == q + |b|
    ensures At(full, p, a) && At(full, q, b) && At(full, r, c) && r + |c| <= |full|
    ensures a != "" ==> full[p] == a[0]
    ensures b != "" ==> full[q] == b[0]
  {
    hide At;
    AtSplit(full, p, a, b + c);
    AtSplit(full, q, b, c);
    assert b != "" ==> (b + c)[0] == b[0];
  }

  function Min(a: nat, b: nat): nat { if a < b then a else b }

  lemma SkipSpaceAt(full: string, n: nat, p: nat, w: string)
    requires p <= n <= |full| && At(full, p, w) && AllSpace(w)
    requires p + |w| < |full| ==> !IsSpace(full[p + |w|])
    ensures SkipSpace(full[..n], p) == Min(n, p + |w|)
    decreases |w|
  {
    if w != "" && p < n {
      assert w == w[..1] + w[1..];
      AtSplit(full, p, w[..1], w[1..]);
      SkipSpaceAt(full, n, p + 1, w[1..]);
    }
  }

  lemma NumberEndAt(full: string, n: nat, p: nat, t: string)
    requires p <= n <= |full| && At(full, p, t) && forall i | 0 <= i < |t| :: IsNumberChar(t[i])
    requires p + |t| < |full| ==> !IsNumberChar(full[p + |t|])
    ensures NumberEnd(full[..n], p) == Min(n, p + |t|)
    decreases |t|
  {
    if t != "" && p < n {
      assert t == t[..1] + t[1..];
      AtSplit(full, p, t[..1], t[1..]);
      NumberEndAt(full, n, p + 1, t[1..]);
    }
  }

  lemma AtIndex(full: string, p: nat, t: string, i: nat)
    requires At(full, p, t) && i < |t|
    ensures full[p + i] == t[i]
  {
    assert full[p..p + |t|][i] == t[i];
  }

  predicate EscapeAt(s: string, p: nat, h0: char, h1: char, h2: char, h3: char) {
    p + 6 <= |s| && s[p] == '\\' && s[p + 1] == 'u' && s[p + 2] == h0 && s[p + 3] == h1 && s[p + 4] == h2 && s[p + 5] == h3
  }

  lemma UnicodeAt(full: string, n: nat, p: nat, piece: Piece)
    requires p + 6 <= n <= |full| && piece.Unicode? && At(full, p, PieceText(piece))
    ensures EscapeAt(full[..n], p, piece.h0, piece.h1, piece.h2, piece.h3)
  {
    var t := PieceText(piece);
    AtIndex(full, p, t, 0); AtIndex(full, p, t, 1); AtIndex(full, p, t, 2);
    AtIndex(full, p, t, 3); AtIndex(full, p, t, 4); AtIndex(full, p, t, 5);
  }

  lemma PieceAt(full: string, p: nat, ps: Pieces)
    requires At(full, p, LiteralTail(ps)) && ps.More?
    ensures At(full, p, PieceText(ps.piece))
    ensures At(full, p + |PieceText(ps.piece)|, LiteralTail(ps.rest))
    ensures |LiteralTail(ps)| == |PieceText(ps.piece)| + |LiteralTail(ps.rest)|
  {
    AtSplit(full, p, PieceText(ps.piece), LiteralTail(ps.rest));
  }

  /** Only a low-surrogate piece reads as a low-surrogate escape. */
  lemma LowEscapeIsPiece(full: string, n: nat, p: nat, ps: Pieces)
    requires p <= n <= |full| && At(full, p, LiteralTail(ps)) && WellFormedPieces(ps)
    requires IsLowEscape(full[..n], p)
    ensures ps.More? && IsLow(ps.piece)
  {
    if ps.End? {
      AtIndex(full, p, LiteralTail(ps), 0);
    } else {
      PieceAt(full, p, ps);
      AtIndex(full, p, PieceText(ps.piece), 0);
      if !ps.piece.Raw? {
        AtIndex(full, p, PieceText(ps.piece), 1);
      }
      if ps.piece.Unicode? {
        UnicodeAt(full, n, p, ps.piece);
      }
    }
  }

  /** A piece that lies whole before the cut is decoded, unless it pairs with the one after it. */
  lemma PieceStep(full: string, n: nat, p: nat, ps: Pieces)
    requires p <= n <= |full| && At(full, p, LiteralTail(ps)) && WellFormedPieces(ps)
    requires ps.More? && p + |PieceText(ps.piece)| <= n
    requires StartsPair(ps) ==> n < p + 12
    ensures StringRound(full[..n], p) == Emit(PieceBytes(ps.piece), p + |PieceText(ps.piece)|)
  {
    PieceAt(full, p, ps);
    AtIndex(full, p, PieceText(ps.piece), 0);
    match ps.piece
    case Raw(_) =>
    case Escaped(_) =>
      AtIndex(full, p, PieceText(ps.piece), 1);
    case Unicode(_, _, _, _) =>
      UnicodeAt(full, n, p, ps.piece);
      if IsLowEscape(full[..n], p + 6) {
        LowEscapeIsPiece(full, n, p + 6, ps.rest);
      }
  }

  lemma PairStep(full: string, n: nat, p: nat, ps: Pieces)
    requires p + 12 <= n <= |full| && At(full, p, LiteralTail(ps)) && WellFormedPieces(ps)
    requires StartsPair(ps)
    ensures StringRound(full[..n], p) == Emit(PairBytes(ps), p + 12)
    ensures At(full, p + 12, LiteralTail(ps.rest.rest))
    ensures |LiteralTail(ps)| == 12 + |LiteralTail(ps.rest.rest)|
  {
    PieceAt(full, p, ps);
    PieceAt(full, p + 6, ps.rest);
    assert WellFormedPieces(ps.rest);
    UnicodeAt(full, n, p, ps.piece);
    UnicodeAt(full, n, p + 6, ps.rest.piece);
  }

  /** A piece cut in two is dropped. */
  lemma PieceCut(full: string, n: nat, p: nat, ps: Pieces)
    requires p <= n <= |full| && At(full, p, LiteralTail(ps)) && WellFormedPieces(ps)
    requires ps.More? && n < p + |PieceText(ps.piece)|
    ensures StringRound(full[..n], p) == Stop(n)
  {
    PieceAt(full, p, ps);
    if p < n {
      AtIndex(full, p, PieceText(ps.piece), 0);
    }
    if p + 1 < n {
      AtIndex(full, p, PieceText(ps.piece), 1);
    }
  }

  predicate ReadsAs(r: Parsed<string>, text: string, q: nat) {
    r.Parsed? && r.value == text && r.pos == q
  }

  lemma PieceShown(s: string, p: nat, ps: Pieces, m: nat, rest: nat, q: nat)
    requires p <= |s| && WellFormedPieces(ps) && ps.More?
    requires StartsPair(ps) ==> m < 12
    requires StringRound(s, p) == Emit(PieceBytes(ps.piece), p + |PieceText(ps.piece)|)
    requires ReadsAs(ParseStringRest(s, p + |PieceText(ps.piece)|), DecodeSeen(ps.rest, rest), q)
    requires rest == m - |PieceText(ps.piece)|
    ensures ReadsAs(ParseStringRest(s, p), DecodeSeen(ps, m), q)
  {
    hide StringRound;
  }

  lemma PairShown(s: string, p: nat, ps: Pieces, m: nat, rest: nat, q: nat)
    requires p <= |s| && WellFormedPieces(ps) && StartsPair(ps) && WellFormedPieces(ps.rest)
    requires StringRound(s, p) == Emit(PairBytes(ps), p + 12)
    requires ReadsAs(ParseStringRest(s, p + 12), DecodeSeen(ps.rest.rest, rest), q)
    requires rest == m - 12
    ensures ReadsAs(ParseStringRest(s, p), DecodeSeen(ps, m), q)
  {
    hide StringRound;
  }

  lemma EndShown(full: string, n: nat, p: nat, ps: Pieces)
    requires p <= n <= |full| && At(full, p, LiteralTail(ps)) && WellFormedPieces(ps)
    requires ps.End? || n < p + |PieceText(ps.piece)|
    ensures ReadsAs(ParseStringRest(full[..n], p), DecodeSeen(ps, n - p), Min(n, p + |LiteralTail(ps)|))
  {
    if ps.End? {
      AtIndex(full, p, LiteralTail(ps), 0);
    } else {
      PieceAt(full, p, ps);
      PieceCut(full, n, p, ps);
    }
  }

  /** The string routine decodes what the literal shows, and stops at its end or at the cut. */
  lemma {:induction false} LiteralShown(full: string, n: nat, p: nat, ps: Pieces)
    requires p <= n <= |full| && At(full, p, LiteralTail(ps)) && WellFormedPieces(ps)
    ensures ReadsAs(ParseStringRest(full[..n], p), DecodeSeen(ps, n - p), Min(n, p + |LiteralTail(ps)|))
    decreases ps
  {
    hide StringRound, DecodeSeen, ParseStringRest, PieceBytes, PairBytes, LiteralTail, At;
    if ps.End? || n < p + |PieceText(ps.piece)| {
      EndShown(full, n, p, ps);
      return;
    }
    PieceAt(full, p, ps);
    var w, q := |PieceText(ps.piece)|, Min(n, p + |LiteralTail(ps)|);
    if StartsPair(ps) && p + 12 <= n {
      assert WellFormedPieces(ps.rest);
      PairStep(full, n, p, ps);
      LiteralShown(full, n, p + 12, ps.rest.rest);
      PairShown(full[..n], p, ps, n - p, n - (p + 12), q);
    } else {
      PieceStep(full, n, p, ps);
      LiteralShown(full, n, p + w, ps.rest);
      PieceShown(full[..n], p, ps, n - p, n - (p + w), q);
    }
  }

  // ----- Scalars ---------------------------------------------------------------

  /** r is the value shown, with the cursor at q; or, when none is, the incomplete scalar. */
  predicate Agrees(r: Parsed<Value>, shown: Option<Value>, q: nat) {
    match shown
    case None => r.IncompleteScalar?
    case Some(v) => r.Parsed? && r.value == v && r.pos == q
  }

  /** No number runs on past position p. */
  predicate Delimited(full: string, p: nat) { p < |full| ==> !IsNumberChar(full[p]) }

  lemma FirstChar(d: Document)
    requires WellFormed(d)
    ensures Text(d) != "" && !IsSpace(Text(d)[0])
    ensures var c := Text(d)[0];
            match d
            case NullDoc => c == 'n'
            case BoolDoc(b) => c == if b then 't' else 'f'
            case NumberDoc(_) => c == '-' || IsDigit(c)
            case StringDoc(_) => c == '"'
            case ArrayDoc(_) => c == '['
            case ObjectDoc(_) => c == '{'
  {
  }

  lemma LiteralWordShown(full: string, n: nat, p: nat, word: string, v: Value)
    requires p < n <= |full| && At(full, p, word)
    requires (word == "true" && v == Bool(true)) || (word == "false" && v == Bool(false)) || (word == "null" && v == Null)
    ensures Agrees(ParseLiteral(full[..n], p), Some(v), Min(n, p + |word|))
  {
    var rest := full[..n][p..];
    AtIndex(full, p, word, 0);
    assert rest[0] == word[0];
    if n < p + |word| {
      assert rest == full[p..p + |word|][..n - p];
    } else {
      assert rest[..|word|] == full[p..p + |word|];
    }
  }

  lemma SliceAt(full: string, n: nat, p: nat, t: string, end: nat)
    requires p <= end <= n <= |full| && At(full, p, t) && end <= p + |t|
    ensures full[..n][p..end] == t[..end - p]
  {
    assert full[p..p + |t|][..end - p] == full[..n][p..end];
  }

  lemma NumberShown(full: string, n: nat, p: nat, t: string)
    requires p < n <= |full| && At(full, p, t) && WellFormedNumber(t) && Delimited(full, p + |t|)
    ensures Agrees(ParseNumber(full[..n], p), Shown(NumberDoc(t), n - p), Min(n, p + |t|))
  {
    hide FloatSyntax, OutOfFloatRange;
    var end := Min(n, p + |t|);
    NumberEndAt(full, n, p, t);
    var seen := if n - p < |t| then t[..n - p] else t;
    assert t[..|t|] == t;
    SliceAt(full, n, p, t, end);
    hide At;
    assert IsFloat(seen) ==> LongestFloat(seen) == Some(seen);
  }

  lemma StringShown(full: string, n: nat, p: nat, ps: Pieces)
    requires p < n <= |full| && At(full, p, "\"" + LiteralTail(ps)) && WellFormedPieces(ps)
    ensures full[p] == '"'
    ensures ReadsAs(ParseStringRest(full[..n], p + 1), DecodeSeen(ps, n - p - 1), Min(n, p + 1 + |LiteralTail(ps)|))
  {
    hide ParseStringRest, DecodeSeen, LiteralTail;
    assert n - p - 1 == n - (p + 1);
    AtSplit(full, p, "\"", LiteralTail(ps));
    LiteralShown(full, n, p + 1, ps);
  }

  lemma ScalarShown(full: string, n: nat, p: nat, d: Document)
    requires p <= n <= |full| && At(full, p, Text(d)) && WellFormed(d) && Delimited(full, p + |Text(d)|)
    requires !d.ArrayDoc? && !d.ObjectDoc?
    ensures Agrees(ParseValue(full[..n], p), Shown(d, n - p), Min(n, p + |Text(d)|))
  {
    hide ParseNumber, ParseLiteral, ParseStringRest, DecodeSeen, IsFloat, LongestFloat, At, LiteralTail;
    if p == n {
      return;
    }
    FirstChar(d);
    AtIndex(full, p, Text(d), 0);
    match d
    case NullDoc => LiteralWordShown(full, n, p, "null", Null);
    case BoolDoc(b) => LiteralWordShown(full, n, p, if b then "true" else "false", Bool(b));
    case NumberDoc(t) => NumberShown(full, n, p, t);
    case StringDoc(ps) => StringShown(full, n, p, ps);
  }

  // ----- Containers --------------------------------------------------------------

  lemma {:induction false} DocumentShown(full: string, n: nat, p: nat, d: Document)
    requires p <= n <= |full| && At(full, p, Text(d)) && WellFormed(d) && Delimited(full, p + |Text(d)|)
    ensures Agrees(ParseValue(full[..n], p), Shown(d, n - p), Min(n, p + |Text(d)|))
    decreases d, 0
  {
    hide ParseItems, ParseMembers, ParseStringRest, ParseNumber, ParseLiteral, LongestFloat, DecodeSeen;
    hide ItemsText, MembersText, ShownItems, ShownMembers, LiteralTail, WellFormedNumber;
    if p < n && (d.ArrayDoc? || d.ObjectDoc?) {
      FirstChar(d);
      AtIndex(full, p, Text(d), 0);
      if d.ArrayDoc? {
        AtSplit(full, p, "[", ItemsText(d.items));
        ItemsShown(full, n, p + 1, d.items, []);
        assert [] + ShownItems(d.items, n - (p + 1)) == ShownItems(d.items, n - p - 1);
      } else {
        AtSplit(full, p, "{", MembersText(d.members));
        MembersShown(full, n, p + 1, d.members, map[]);
      }
    } else if p < n {
      ScalarShown(full, n, p, d);
    }
  }

  /** White space up to a character that ends values, or to the end, delimits the value before it. */
  lemma SpaceDelimits(full: string, q: nat, post: string, rest: string)
    requires At(full, q, post + rest) && AllSpace(post)
    requires if rest == "" then q + |post| == |full| else rest[0] == ',' || rest[0] == ']' || rest[0] == '}'
    ensures Delimited(full, q) && At(full, q, post) && At(full, q + |post|, rest)
    ensures rest != "" ==> full[q + |post|] == rest[0]
  {
    AtSplit(full, q, post, rest);
    assert post != "" ==> post[0] in post;
  }

  /** White space, then a value, then white space up to the character c. */
  lemma {:induction false} ValueShown(full: string, n: nat, p: nat, d: Document, post: string, rest: string)
    requires p <= n <= |full| && At(full, p, Text(d) + (post + rest)) && WellFormed(d) && AllSpace(post)
    requires rest != "" && (rest[0] == ',' || rest[0] == ']' || rest[0] == '}')
    ensures Agrees(ParseValue(full[..n], p), Shown(d, n - p), Min(n, p + |Text(d)|))
    ensures var q := p + |Text(d)|; SkipSpace(full[..n], Min(n, q)) == Min(n, q + |post|)
    ensures At(full, p + |Text(d)| + |post|, rest) && full[p + |Text(d)| + |post|] == rest[0]
    decreases d, 1
  {
    hide ParseValue, Shown, WellFormed, Text, At, AllSpace, Delimited, SkipSpace;
    var q := p + |Text(d)|;
    AtSplit(full, p, Text(d), post + rest);
    SpaceDelimits(full, q, post, rest);
    DocumentShown(full, n, p, d);
    if q <= n {
      SkipSpaceAt(full, n, q, post);
    } else {
      SkipToEnd(full, n);
    }
  }

  /** What follows an element's value: the closing bracket, or a comma and the other elements. */
  function ItemTail(items: Items): string
    requires !items.NoItems?
  {
    if items.LastItem? then "]" else "," + ItemsText(items.rest)
  }

  lemma ItemsWidth(items: Items)
    requires !items.NoItems?
    ensures |ItemsText(items)| == ItemWidth(items) + if items.LastItem? then 0 else |ItemsText(items.rest)|
    ensures ItemsText(items) == items.pre + (Text(items.item) + (items.post + ItemTail(items)))
  {
  }

  lemma ItemLayout(full: string, p: nat, items: Items)
    requires At(full, p, ItemsText(items)) && WellFormedItems(items) && !items.NoItems?
    ensures At(full, p, items.pre)
    ensures At(full, p + |items.pre|, Text(items.item) + (items.post + ItemTail(items)))
    ensures var c := full[p + |items.pre|]; !IsSpace(c) && c != ']'
  {
    hide At, WellFormed, ItemsText;
    var d := items.item;
    ItemsWidth(items);
    AtSplit(full, p, items.pre, Text(d) + (items.post + ItemTail(items)));
    FirstChar(d);
    assert full[p + |items.pre|] == Text(d)[0];
  }

  lemma NextItems(full: string, p: nat, items: Items)
    requires At(full, p, ItemsText(items)) && items.MoreItems?
    ensures At(full, p + ItemWidth(items), ItemsText(items.rest))
  {
    hide At;
    ItemsWidth(items);
    var head := items.pre + (Text(items.item) + (items.post + ","));
    assert head + ItemsText(items.rest) == ItemsText(items);
    AtSplit(full, p, head, ItemsText(items.rest));
  }

  /** One round of the array loop on a value that stands at start. */
  lemma ItemRound(s: string, p: nat, done: seq<Value>, start: nat, shown: Option<Value>, q: nat, next: nat)
    requires p <= |s| && start == SkipSpace(s, p) < |s| && s[start] != ']'
    requires Agrees(ParseValue(s, start), shown, q) && q <= |s| && next == SkipSpace(s, q)
    ensures shown.None? ==> ParseItems(s, p, done) == Parsed(Array(done), |s|)
    ensures shown.Some? ==>
              ParseItems(s, p, done) ==
              if next == |s| then Parsed(Array(done + [shown.value]), |s|)
              else if s[next] == ',' then ParseItems(s, next + 1, done + [shown.value])
              else if s[next] == ']' then Parsed(Array(done + [shown.value]), next + 1)
              else Unparsable
  {
    hide ParseValue;
  }

  lemma ArrayCut(s: string, p: nat, done: seq<Value>)
    requires p <= |s| && SkipSpace(s, p) == |s|
    ensures ParseItems(s, p, done) == Parsed(Array(done), |s|)
  {
  }

  /** One round of the array loop, given what the element's value shows. */
  lemma {:induction false} ItemShown(full: string, n: nat, p: nat, items: Items, done: seq<Value>)
    requires p <= n <= |full| && At(full, p, ItemsText(items)) && WellFormedItems(items) && !items.NoItems?
    ensures var shown := done + AsItems(Shown(items.item, After(n - p, |items.pre|)));
            if n < p + ItemWidth(items) then Agrees(ParseItems(full[..n], p, done), Some(Array(shown)), n)
            else if items.LastItem? then
              Agrees(ParseItems(full[..n], p, done), Some(Array(shown)), p + ItemWidth(items))
            else ParseItems(full[..n], p, done) == ParseItems(full[..n], p + ItemWidth(items), shown)
    decreases items, 0
  {
    hide Shown, ParseValue, ParseItems, Text, WellFormed, ItemsText, At, SkipSpace, AllSpace;
    var d, start := items.item, p + |items.pre|;
    ItemLayout(full, p, items);
    SkipSpaceAt(full, n, p, items.pre);
    assert done + [] == done;
    if n <= start {
      NothingShown(d);
      ArrayCut(full[..n], p, done);
    } else {
      var shown, q, next := Shown(d, n - start), Min(n, start + |Text(d)|), Min(n, p + ItemWidth(items) - 1);
      ValueShown(full, n, start, d, items.post, ItemTail(items));
      assert n - start == After(n - p, |items.pre|);
      if shown.None? && start + |Text(d)| <= n {
        FullyShown(d, n - start);
      }
      ItemRound(full[..n], p, done, start, shown, q, next);
    }
  }

  lemma EmptyShown(full: string, n: nat, p: nat, gap: string, done: seq<Value>)
    requires p <= n <= |full| && At(full, p, ItemsText(NoItems(gap))) && AllSpace(gap)
    ensures Agrees(ParseItems(full[..n], p, done), Some(Array(done)), Min(n, p + |ItemsText(NoItems(gap))|))
    ensures done + ShownItems(NoItems(gap), n - p) == done
  {
    AtSplit(full, p, gap, "]");
    SkipSpaceAt(full, n, p, gap);
  }

  lemma ItemsJoin(a: seq<Value>, b: seq<Value>, c: seq<Value>)
    ensures a + (b + c) == (a + b) + c
  {
  }

  lemma {:induction false} ItemsShown(full: string, n: nat, p: nat, items: Items, done: seq<Value>)
    requires p <= n <= |full| && At(full, p, ItemsText(items)) && WellFormedItems(items)
    ensures Agrees(ParseItems(full[..n], p, done), Some(Array(done + ShownItems(items, n - p))),
                   Min(n, p + |ItemsText(items)|))
    decreases items, 1
  {
    hide ParseItems, Shown, Text, ItemsText, ItemWidth, At;
    if items.NoItems? {
      EmptyShown(full, n, p, items.gap, done);
      return;
    }
    ItemsWidth(items);
    ItemShown(full, n, p, items, done);
    var shown := AsItems(Shown(items.item, After(n - p, |items.pre|)));
    hide AsItems;
    if items.MoreItems? {
      var left := After(n - p, ItemWidth(items));
      ItemsJoin(done, shown, ShownItems(items.rest, left));
      if n < p + ItemWidth(items) {
        NoItemsShownYet(items.rest);
      } else {
        NextItems(full, p, items);
        assert n - (p + ItemWidth(items)) == left;
        ItemsShown(full, n, p + ItemWidth(items), items.rest, done + shown);
      }
    }
  }

  function MemberTail(members: Members): string
    requires !members.NoMembers?
  {
    if members.LastMember? then "}" else "," + MembersText(members.rest)
  }

  lemma MemberTailStarts(members: Members)
    requires !members.NoMembers?
    ensures MemberTail(members) != "" && MemberTail(members)[0] == if members.LastMember? then '}' else ','
  {
  }

  lemma MembersTextIs(members: Members)
    requires !members.NoMembers?
    ensures MembersText(members) == MemberText(members.member, MemberTail(members))
  {
  }

  lemma NextMembers(full: string, p: nat, members: Members)
    requires At(full, p, MembersText(members)) && members.MoreMembers?
    ensures At(full, p + MemberWidth(members.member), MembersText(members.rest))
  {
    hide At, MembersText, Text, LiteralTail;
    var m, rest := members.member, MembersText(members.rest);
    MembersTextIs(members);
    MemberTextLength(m, ",");
    assert MemberText(m, ",") + rest == MemberText(m, "," + rest);
    AtSplit(full, p, MemberText(m, ","), rest);
  }

  /** Where the parts of a member stand. */
  datatype Layout = Layout(quote: nat, key: nat, keyEnd: nat, colon: nat, gap: nat, value: nat)

  function LayoutOf(p: nat, m: Member): Layout {
    var quote := p + |m.pre|;
    var keyEnd := quote + 1 + |LiteralTail(m.key)|;
    var colon := keyEnd + |m.mid|;
    Layout(quote, quote + 1, keyEnd, colon, colon + 1, p + HeadWidth(m))
  }

  lemma MemberLayout(full: string, p: nat, m: Member, tail: string, l: Layout)
    requires At(full, p, MemberText(m, tail)) && WellFormedMember(m) && l == LayoutOf(p, m)
    ensures l.value < |full|
    ensures At(full, p, m.pre) && full[l.quote] == '"' && At(full, l.key, LiteralTail(m.key))
    ensures At(full, l.keyEnd, m.mid) && full[l.colon] == ':' && At(full, l.gap, m.gap)
    ensures At(full, l.value, Text(m.value) + (m.post + tail)) && !IsSpace(full[l.value])
  {
    hide At, LiteralTail, WellFormed, Text, IsSpace;
    var value := Text(m.value) + (m.post + tail);
    var afterKey := m.mid + (":" + (m.gap + value));
    FirstChar(m.value);
    AtSplit3(full, p, m.pre, l.quote, "\"", l.key, LiteralTail(m.key) + afterKey);
    AtSplit3(full, l.key, LiteralTail(m.key), l.keyEnd, m.mid, l.colon, ":" + (m.gap + value));
    AtSplit3(full, l.colon, ":", l.gap, m.gap, l.value, value);
    AtSplit(full, l.value, Text(m.value), m.post + tail);
    assert full[l.value] == Text(m.value)[0];
  }

  lemma MemberRound(s: string, p: nat, key: string, q: nat, colon: nat, start: nat, shown: Option<Value>, next: nat)
    requires p < |s| && s[p] == '"' && ReadsAs(ParseStringRest(s, p + 1), key, q) && q <= |s|
    requires colon == SkipSpace(s, q) && (colon < |s| ==> s[colon] == ':' && start == SkipSpace(s, colon + 1))
    requires colon < |s| && start < |s| ==> Agrees(ParseValue(s, start), shown, next)
    ensures ParseMember(s, p) ==
            if colon == |s| || start == |s| || shown.None? then IncompleteScalar
            else Parsed((key, shown.value), next)
  {
    hide ParseValue, ParseStringRest, SkipSpace;
  }

  /** The key of a member, and the white space and colon after it. */
  lemma KeyShown(full: string, n: nat, p: nat, m: Member, tail: string, l: Layout)
    requires l == LayoutOf(p, m) && l.quote < n <= |full|
    requires At(full, p, MemberText(m, tail)) && WellFormedMember(m)
    ensures l.value < |full| && full[l.quote] == '"' && full[l.colon] == ':'
    ensures ReadsAs(ParseStringRest(full[..n], l.key), DecodeSeen(m.key, n - l.key), Min(n, l.keyEnd))
    ensures SkipSpace(full[..n], Min(n, l.keyEnd)) == Min(n, l.colon)
    ensures l.colon < n ==> SkipSpace(full[..n], l.gap) == Min(n, l.value)
    ensures l.keyEnd <= n ==> DecodeSeen(m.key, n - l.key) == Decode(m.key)
  {
    hide At, ParseStringRest, DecodeSeen, Decode, LiteralTail, SkipSpace, MemberText, Text, WellFormed;
    MemberLayout(full, p, m, tail, l);
    LiteralShown(full, n, l.key, m.key);
    SkipAt(full, n, l.keyEnd, m.mid);
    if l.colon < n {
      SkipAt(full, n, l.gap, m.gap);
    }
    if l.keyEnd <= n {
      WholeLiteral(m.key, n - l.key);
    }
  }

  /** White space that a cut may have shortened or removed. */
  lemma SkipAt(full: string, n: nat, p: nat, w: string)
    requires n <= |full| && At(full, p, w) && AllSpace(w) && p + |w| < |full| && !IsSpace(full[p + |w|])
    ensures SkipSpace(full[..n], Min(n, p)) == Min(n, p + |w|)
  {
    if p <= n {
      SkipSpaceAt(full, n, p, w);
    }
  }

  /** A key and its value, read from the opening quote of the key. */
  lemma {:induction false} MemberShown(full: string, n: nat, p: nat, m: Member, tail: string, l: Layout)
    requires l == LayoutOf(p, m) && l.quote < n <= |full|
    requires At(full, p, MemberText(m, tail)) && WellFormedMember(m)
    requires tail != "" && (tail[0] == ',' || tail[0] == '}')
    ensures full[l.quote] == '"'
    ensures ParseMember(full[..n], l.quote) ==
            match Shown(m.value, After(n - p, HeadWidth(m)))
            case None => IncompleteScalar
            case Some(v) => Parsed((Decode(m.key), v), Min(n, l.value + |Text(m.value)|))
    ensures var q := l.value + |Text(m.value)|;
            && (q <= n ==> SkipSpace(full[..n], q) == Min(n, q + |m.post|))
            && (q + |m.post| < n ==> full[q + |m.post|] == tail[0])
    decreases m, 0
  {
    hide At, ParseStringRest, DecodeSeen, Decode, LiteralTail, SkipSpace, MemberText, Text, WellFormed, ParseValue;
    hide Shown, ParseMember;
    MemberLayout(full, p, m, tail, l);
    KeyShown(full, n, p, m, tail, l);
    var seen := After(n - p, HeadWidth(m));
    var q := Min(n, l.value + |Text(m.value)|);
    if l.value < n {
      assert seen == n - l.value;
      ValueShown(full, n, l.value, m.value, m.post, tail);
      MemberRound(full[..n], l.quote, Decode(m.key), l.keyEnd, l.colon, l.value, Shown(m.value, seen), q);
    } else {
      NothingShown(m.value);
      var key := DecodeSeen(m.key, n - l.key);
      MemberRound(full[..n], l.quote, key, Min(n, l.keyEnd), Min(n, l.colon), n, None, n);
    }
  }

  /** One round of the object loop on a key that stands at quote. */
  lemma FieldRound(s: string, p: nat, done: map<string, Value>, quote: nat, r: Parsed<(string, Value)>, next: nat)
    requires p <= |s| && quote == SkipSpace(s, p) < |s| && s[quote] == '"' && ParseMember(s, quote) == r
    requires r.Parsed? ==> next == SkipSpace(s, r.pos)
    ensures r.IncompleteScalar? ==> ParseMembers(s, p, done) == Parsed(Object(done), |s|)
    ensures r.Parsed? ==>
              var fields := done[r.value.0 := r.value.1];
              ParseMembers(s, p, done) ==
              if next == |s| then Parsed(Object(fields), |s|)
              else if s[next] == ',' then ParseMembers(s, next + 1, fields)
              else if s[next] == '}' then Parsed(Object(fields), next + 1)
              else Unparsable
  {
    hide ParseMember, SkipSpace;
  }

  /** The round on a key that is seen at least in part. */
  lemma {:induction false} FieldSeen(full: string, n: nat, p: nat, m: Member, tail: string, l: Layout, done: map<string, Value>)
    requires p <= n <= |full| && At(full, p, MemberText(m, tail)) && WellFormedMember(m) && l == LayoutOf(p, m)
    requires tail != "" && (tail[0] == ',' || tail[0] == '}')
    requires SkipSpace(full[..n], p) == l.quote < n
    ensures var shown, end := WithMember(done, m, n - p), p + MemberWidth(m) - 1;
            if n <= end then Agrees(ParseMembers(full[..n], p, done), Some(Object(shown)), n)
            else if tail[0] == '}' then Agrees(ParseMembers(full[..n], p, done), Some(Object(shown)), end + 1)
            else ParseMembers(full[..n], p, done) == ParseMembers(full[..n], end + 1, shown)
    decreases m, 1
  {
    hide At, ParseStringRest, Decode, LiteralTail, SkipSpace, MemberText, Text, ParseValue, Shown, ParseMember, ParseMembers;
    hide WellFormed, AllSpace, WellFormedPieces;
    MemberShown(full, n, p, m, tail, l);
    var r, end := ParseMember(full[..n], l.quote), p + MemberWidth(m) - 1;
    if r.IncompleteScalar? {
      FieldRound(full[..n], p, done, l.quote, r, n);
      if n > end {
        FullyShown(m.value, After(n - p, HeadWidth(m)));
      }
    } else if n < l.value + |Text(m.value)| {
      SkipToEnd(full, n);
      FieldRound(full[..n], p, done, l.quote, r, n);
    } else {
      FieldRound(full[..n], p, done, l.quote, r, Min(n, end));
    }
  }

  /** One round of the object loop, given what the member shows. */
  lemma {:induction false} FieldShown(full: string, n: nat, p: nat, members: Members, done: map<string, Value>)
    requires p <= n <= |full| && At(full, p, MembersText(members)) && WellFormedMembers(members) && !members.NoMembers?
    ensures var m := members.member; var shown := WithMember(done, m, n - p);
            if n < p + MemberWidth(m) then Agrees(ParseMembers(full[..n], p, done), Some(Object(shown)), n)
            else if members.LastMember? then
              Agrees(ParseMembers(full[..n], p, done), Some(Object(shown)), p + MemberWidth(m))
            else ParseMembers(full[..n], p, done) == ParseMembers(full[..n], p + MemberWidth(m), shown)
    decreases members, 0
  {
    hide At, ParseStringRest, Decode, LiteralTail, SkipSpace, MemberText, MembersText, Text, ParseValue;
    hide Shown, ParseMember, ParseMembers, WellFormed, AllSpace, WellFormedPieces, MemberTail;
    var m := members.member;
    var l, tail := LayoutOf(p, m), MemberTail(members);
    MembersTextIs(members);
    MemberTailStarts(members);
    MemberLayout(full, p, m, tail, l);
    SkipSpaceAt(full, n, p, m.pre);
    if n <= l.quote {
      NothingShown(m.value);
      ObjectCut(full[..n], p, done);
    } else {
      FieldSeen(full, n, p, m, tail, l, done);
    }
  }

  lemma ObjectCut(s: string, p: nat, done: map<string, Value>)
    requires p <= |s| && SkipSpace(s, p) == |s|
    ensures ParseMembers(s, p, done) == Parsed(Object(done), |s|)
  {
  }

  lemma SkipToEnd(full: string, n: nat)
    requires n <= |full|
    ensures SkipSpace(full[..n], n) == n
  {
  }

  lemma EmptyObjectShown(full: string, n: nat, p: nat, gap: string, done: map<string, Value>)
    requires p <= n <= |full| && At(full, p, MembersText(NoMembers(gap))) && AllSpace(gap)
    ensures Agrees(ParseMembers(full[..n], p, done), Some(Object(done)), Min(n, p + |MembersText(NoMembers(gap))|))
  {
    AtSplit(full, p, gap, "}");
    SkipSpaceAt(full, n, p, gap);
  }

  lemma {:induction false} MembersShown(full: string, n: nat, p: nat, members: Members, done: map<string, Value>)
    requires p <= n <= |full| && At(full, p, MembersText(members)) && WellFormedMembers(members)
    ensures Agrees(ParseMembers(full[..n], p, done), Some(Object(ShownMembers(members, n - p, done))),
                   Min(n, p + |MembersText(members)|))
    decreases members, 1
  {
    hide ParseMembers, Shown, Text, MembersText, MemberWidth, At, WithMember;
    if members.NoMembers? {
      EmptyObjectShown(full, n, p, members.gap, done);
      return;
    }
    var m := members.member;
    MembersTextIs(members);
    MemberTextLength(m, MemberTail(members));
    FieldShown(full, n, p, members, done);
    var shown := WithMember(done, m, n - p);
    if members.MoreMembers? {
      var left := After(n - p, MemberWidth(m));
      if n < p + MemberWidth(m) {
        NoMembersShownYet(members.rest, shown);
      } else {
        NextMembers(full, p, members);
        assert n - (p + MemberWidth(m)) == left;
        MembersShown(full, n, p + MemberWidth(m), members.rest, shown);
      }
    }
  }

  // ----- The parser ----------------------------------------------------------------

  lemma WhereDocumentStands(full: string, n: nat, lead: string, d: Document, trail: string)
    requires WellFormed(d) && AllSpace(lead) && AllSpace(trail)
    requires full == lead + (Text(d) + trail) && n <= |full|
    ensures At(full, |lead|, Text(d)) && Delimited(full, |lead| + |Text(d)|)
    ensures SkipSpace(full[..n], 0) == Min(n, |lead|)
  {
    hide WellFormed, Text, SkipSpace, AllSpace, Delimited;
    assert At(full, 0, full);
    var p := |lead|;
    FirstChar(d);
    AtSplit(full, 0, lead, Text(d) + trail);
    AtSplit(full, p, Text(d), trail);
    assert trail + "" == trail;
    SpaceDelimits(full, p + |Text(d)|, trail, "");
    SkipSpaceAt(full, n, 0, lead);
  }

  /**
   * ParsePartial on any prefix of a document's text, white space around it
   * included, returns what the document shows so far, and an error exactly
   * when it shows nothing.
   */
  lemma ParsePartialShows(lead: string, d: Document, trail: string, n: nat)
    requires WellFormed(d) && AllSpace(lead) && AllSpace(trail)
    requires n <= |lead + (Text(d) + trail)|
    ensures ParsePartial((lead + (Text(d) + trail))[..n]) == Shown(d, After(n, |lead|))
  {
    hide ParseMembers, ParseItems, ParseStringRest, WellFormed, ParseNumber, ParseLiteral, Text, Shown, At;
    var full, p := lead + (Text(d) + trail), |lead|;
    WhereDocumentStands(full, n, lead, d, trail);
    if n <= p {
      NothingShown(d);
    } else {
      SkipSpaceTwice(full[..n], 0);
      assert ParseValue(full[..n], 0) == ParseValue(full[..n], p);
      DocumentShown(full, n, p, d);
    }
  }

  /** On the whole text it returns the document's meaning. */
  lemma ParsePartialWhole(lead: string, d: Document, trail: string)
    requires WellFormed(d) && AllSpace(lead) && AllSpace(trail)
    ensures ParsePartial(lead + (Text(d) + trail)) == Some(Meaning(d))
  {
    hide ParsePartial, Shown;
    var full := lead + (Text(d) + trail);
    assert full[..|full|] == full;
    FirstChar(d);
    ParsePartialShows(lead, d, trail, |full|);
    FullyShown(d, After(|full|, |lead|));
  }
}
