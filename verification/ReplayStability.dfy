/** Replaying a replayed conversation. */
module ReplayStability {
  import opened Wrappers
  import opened Conversation
  import opened OrphanResults
  import opened HistoryClosure
  import opened Replay

  // ----- What one pass leaves ---------------------------------------------------------------

  predicate NoImages(content: seq<UserPart>) { forall p | p in content :: p.Text? }

  /** A block as a turn of this kind keeps it, up to the id of a call. */
  predicate KeptShape(p: Part, same: bool) {
    if same then OwnPart(p) == [p]
    else (p.TextPart? && p.signature == "") || (p.Call? && p.call.thoughtSignature == "")
  }

  predicate Clean(m: Message, target: Target) {
    match m
    case User(plain, blocks, _) =>
      plain.None? ==> blocks.Some? && (target.readsImages || NoImages(blocks.value))
    case ToolResult(_, _, content, _, _) => content.Some? && (target.readsImages || NoImages(content.value))
    case Assistant(parts, _, _, _, _, _) =>
      parts.Some? && forall p | p in parts.value :: KeptShape(p, IsSameModel(m, target))
  }

  lemma {:induction false} ReplacedHasNoImages(content: seq<UserPart>, placeholder: string, after: bool)
    ensures NoImages(ImagesReplaced(content, placeholder, after))
  {
    if content != [] {
      ReplacedHasNoImages(content[1..], placeholder, content[0].Image? || content[0].text == placeholder);
    }
  }

  lemma {:induction false} NoImagesStays(content: seq<UserPart>, placeholder: string, after: bool)
    requires NoImages(content)
    ensures ImagesReplaced(content, placeholder, after) == content
  {
    if content != [] {
      assert content[0] in content;
      NoImagesStays(content[1..], placeholder, content[0].text == placeholder);
      assert content == [content[0]] + content[1..];
    }
  }

  lemma {:induction false} PartsHaveKeptShape(ps: seq<Part>, o: Origin, target: Target)
    ensures forall p | p in Parts(ps, o, target) :: KeptShape(p, IsOwn(o, target))
  {
    if ps != [] {
      PartsHaveKeptShape(ps[1..], o, target);
    }
  }

  lemma TransformedIsClean(m: Message, target: Target, ids: map<string, string>)
    ensures Clean(Transformed(WithoutImages(WithContent(m), target), target, ids), target)
  {
    var explicit := WithContent(m);
    match explicit
    case User(_, blocks, _) =>
      if blocks.Some? {
        ReplacedHasNoImages(blocks.value, USER_IMAGE_OMITTED, false);
      }
    case ToolResult(_, _, content, _, _) => ReplacedHasNoImages(content.value, TOOL_IMAGE_OMITTED, false);
    case Assistant(parts, _, _, _, _, _) => PartsHaveKeptShape(parts.value, OriginOf(explicit), target);
  }

  lemma CleanIsPrepared(m: Message, target: Target)
    requires Clean(m, target)
    ensures WithoutImages(WithContent(m), target) == m
  {
    if !target.readsImages {
      match m
      case User(plain, blocks, _) =>
        if plain.None? {
          NoImagesStays(blocks.value, USER_IMAGE_OMITTED, false);
        }
      case ToolResult(_, _, content, _, _) => NoImagesStays(content.value, TOOL_IMAGE_OMITTED, false);
      case _ =>
    }
  }

  lemma {:induction false} TransformedAllIsClean(ms: seq<Message>, target: Target, ids: map<string, string>, all: seq<Message>)
    requires ms == Prepared(all, target)
    ensures forall m | m in TransformedAll(ms, target, ids) :: Clean(m, target)
  {
    if ms != [] {
      TransformedIsClean(all[0], target, ids);
      TransformedAllIsClean(ms[1..], target, RenamedBy(ms[0], target, ids), all[1..]);
    }
  }

  lemma ReplayedIsClean(ms: seq<Message>, target: Target, now: int)
    ensures forall m | m in Replayed(ms, target, now) :: Clean(m, target)
  {
    var all := TransformedAll(Prepared(ms, target), target, map[]);
    TransformedAllIsClean(Prepared(ms, target), target, map[], ms);
    InsertRefers(all, 0, NO_TURN);
    var es := Insert(all, 0, NO_TURN);
    forall k | 0 <= k < |es| ensures Clean(Replayed(ms, target, now)[k], target) {
      assert Refers(all, es[k]);
    }
  }

  // ----- What a second pass does to it ------------------------------------------------------

  /** The ids that the normalizer gives to the calls of another model's turn are final. */
  predicate IdFixed(p: Part, o: Origin, target: Target) { p.Call? ==> NewId(p.call.id, o, target) == p.call.id }

  predicate IdsFixed(m: Message, target: Target) {
    m.Assistant? && m.parts.Some? && !IsSameModel(m, target) ==>
      forall p | p in m.parts.value :: IdFixed(p, OriginOf(m), target)
  }

  /** Parts of kept shape stay, except for the ids that are not fixed. */
  lemma {:induction false} KeptPartsStay(ps: seq<Part>, o: Origin, target: Target)
    requires forall p | p in ps :: KeptShape(p, IsOwn(o, target))
    ensures |Parts(ps, o, target)| == |ps|
    ensures Parts(ps, o, target) == ps <==> IsOwn(o, target) || forall p | p in ps :: IdFixed(p, o, target)
  {
    if ps != [] {
      assert ps[0] in ps;
      KeptPartsStay(ps[1..], o, target);
      assert ps == [ps[0]] + ps[1..];
      var head := PartOf(ps[0], o, target);
      assert |head| == 1 && (head == [ps[0]] <==> IsOwn(o, target) || IdFixed(ps[0], o, target));
      assert Parts(ps, o, target)[1..] == Parts(ps[1..], o, target);
      assert Parts(ps, o, target)[0] == head[0];
    }
  }

  lemma {:induction false} FixedRenamesNothing(ps: seq<Part>, o: Origin, target: Target, ids: map<string, string>)
    requires IsOwn(o, target) || forall p | p in ps :: IdFixed(p, o, target)
    ensures Renamed(ps, o, target, ids) == ids
  {
    if ps != [] {
      assert ps[0] in ps;
      FixedRenamesNothing(ps[1..], o, target, ids);
    }
  }

  lemma CleanStays(m: Message, target: Target, ids: map<string, string>)
    requires Clean(m, target)
    ensures IdsFixed(m, target) && ids == map[] ==> Transformed(m, target, ids) == m && RenamedBy(m, target, ids) == ids
    ensures Transformed(m, target, ids) == m ==> IdsFixed(m, target)
    ensures IsFailedTurn(Transformed(m, target, ids)) == IsFailedTurn(m)
  {
    if m.Assistant? {
      KeptPartsStay(m.parts.value, OriginOf(m), target);
      if IdsFixed(m, target) {
        FixedRenamesNothing(m.parts.value, OriginOf(m), target, ids);
      }
    }
  }

  lemma {:induction false} CleanListStays(ms: seq<Message>, target: Target, ids: map<string, string>)
    requires forall m | m in ms :: Clean(m, target)
    ensures ids == map[] && (forall m | m in ms :: IdsFixed(m, target)) ==> TransformedAll(ms, target, ids) == ms
    ensures TransformedAll(ms, target, ids) == ms ==> forall m | m in ms :: IdsFixed(m, target)
    ensures (forall m | m in ms :: !IsFailedTurn(m)) ==>
              forall m | m in TransformedAll(ms, target, ids) :: !IsFailedTurn(m)
  {
    hide IdsFixed, Clean, Transformed, RenamedBy, IsFailedTurn;
    if ms != [] {
      assert ms[0] in ms;
      CleanStays(ms[0], target, ids);
      CleanListStays(ms[1..], target, RenamedBy(ms[0], target, ids));
      assert ms == [ms[0]] + ms[1..];
      assert TransformedAll(ms, target, ids)[0] == Transformed(ms[0], target, ids);
      assert TransformedAll(ms, target, ids)[1..] == TransformedAll(ms[1..], target, RenamedBy(ms[0], target, ids));
    }
  }

  lemma {:induction false} NoneFailedStay(all: seq<Message>)
    requires forall m | m in all :: !IsFailedTurn(m)
    ensures NonFailed(all) == all
  {
    if all != [] {
      assert all[0] in all;
      NoneFailedStay(all[1..]);
      assert all == [all[0]] + all[1..];
    }
  }

  lemma {:induction false} AllKept(all: seq<Message>, es: seq<Entry>, now: int)
    requires forall e | e in es :: Refers(all, e)
    ensures |KeptOf(all, es)| <= |es|
    ensures |KeptOf(all, es)| == |es| ==> RealizedAll(all, es, now) == KeptOf(all, es)
  {
    if es != [] {
      assert es[0] in es;
      AllKept(all, es[1..], now);
    }
  }

  /** A pass that drops no turn and keeps the length changes nothing. */
  lemma SameLengthIsUnchanged(all: seq<Message>, now: int)
    requires forall m | m in all :: !IsFailedTurn(m)
    requires |Closed(all, now)| == |all|
    ensures Closed(all, now) == all
  {
    InsertRefers(all, 0, NO_TURN);
    ErasingSyntheticGivesInput(all);
    NoneFailedStay(all);
    AllKept(all, Insert(all, 0, NO_TURN), now);
  }

  /** A second pass changes nothing exactly if it keeps every id that the first one left. */
  lemma StableIfOutputFixed(ms: seq<Message>, target: Target, now: int, later: int)
    ensures var out := Replayed(ms, target, now);
            Replayed(out, target, later) == out <==> forall m | m in out :: IdsFixed(m, target)
  {
    hide IdsFixed, Clean, Closed, IsFailedTurn;
    var out := Replayed(ms, target, now);
    ReplayedIsClean(ms, target, now);
    forall i | 0 <= i < |out| ensures Prepared(out, target)[i] == out[i] {
      CleanIsPrepared(out[i], target);
    }
    assert Prepared(out, target) == out;
    CleanListStays(out, target, map[]);
    OutputIsClosed(TransformedAll(Prepared(ms, target), target, map[]), now);
    ClosedExactlyWhenUnchanged(out, later);
    var again := TransformedAll(out, target, map[]);
    if Closed(again, later) == out {
      SameLengthIsUnchanged(again, later);
    }
  }

  // ----- On the history itself ----------------------------------------------------------------

  /** The new id of the call is one that the normalizer keeps. */
  predicate SettlesAtOnce(p: Part, o: Origin, target: Target) {
    p.Call? ==> NewId(NewId(p.call.id, o, target), o, target) == NewId(p.call.id, o, target)
  }

  /** So it is for every call of another model's turn, unless the turn failed. */
  predicate TurnSettles(m: Message, target: Target) {
    m.Assistant? && m.parts.Some? && !IsSameModel(m, target) && !IsFailedTurn(m) ==>
      forall p | p in m.parts.value :: SettlesAtOnce(p, OriginOf(m), target)
  }

  lemma {:induction false} PartsFixedExactly(ps: seq<Part>, o: Origin, target: Target)
    requires !IsOwn(o, target)
    ensures (forall p | p in Parts(ps, o, target) :: IdFixed(p, o, target)) <==> forall p | p in ps :: SettlesAtOnce(p, o, target)
  {
    if ps != [] {
      PartsFixedExactly(ps[1..], o, target);
      var head := ForeignPart(ps[0], o, target);
      assert Parts(ps, o, target) == head + Parts(ps[1..], o, target);
      assert ps == [ps[0]] + ps[1..];
      if ps[0].Call? {
        assert head[0] in head && (IdFixed(head[0], o, target) <==> SettlesAtOnce(ps[0], o, target));
      }
      assert forall p | p in head :: IdFixed(p, o, target) <==> SettlesAtOnce(ps[0], o, target);
    }
  }

  lemma TurnFixedExactly(m: Message, target: Target, ids: map<string, string>)
    ensures var r := Transformed(WithoutImages(WithContent(m), target), target, ids);
            IsFailedTurn(r) == IsFailedTurn(m) && (!IsFailedTurn(m) ==> (IdsFixed(r, target) <==> TurnSettles(m, target)))
  {
    if m.Assistant? && !IsSameModel(m, target) {
      PartsFixedExactly(if m.parts.Some? then m.parts.value else [], OriginOf(m), target);
    }
  }

  lemma {:induction false} TurnsFixedExactly(ms: seq<Message>, target: Target, ids: map<string, string>, i: nat)
    requires i < |ms|
    ensures var r := TransformedAll(Prepared(ms, target), target, ids)[i];
            IsFailedTurn(r) == IsFailedTurn(ms[i]) && (!IsFailedTurn(r) ==> (IdsFixed(r, target) <==> TurnSettles(ms[i], target)))
    decreases |ms|
  {
    hide IsFailedTurn, IdsFixed, TurnSettles, Transformed, RenamedBy;
    var prepared := Prepared(ms, target);
    if i == 0 {
      TurnFixedExactly(ms[0], target, ids);
    } else {
      assert Prepared(ms[1..], target) == prepared[1..];
      TurnsFixedExactly(ms[1..], target, RenamedBy(prepared[0], target, ids), i - 1);
    }
  }

  lemma OutputFixedExactly(ms: seq<Message>, target: Target, now: int)
    ensures (forall m | m in Replayed(ms, target, now) :: IdsFixed(m, target)) <==> forall m | m in ms :: TurnSettles(m, target)
  {
    hide IsFailedTurn, IdsFixed, TurnSettles, Insert;
    var all := TransformedAll(Prepared(ms, target), target, map[]);
    var out, es := Replayed(ms, target, now), Insert(all, 0, NO_TURN);
    InsertRefers(all, 0, NO_TURN);
    assert out == RealizedAll(all, es, now);
    forall i | 0 <= i < |ms|
      ensures Kept(i) in es <==> !IsFailedTurn(all[i])
      ensures IsFailedTurn(all[i]) == IsFailedTurn(ms[i])
      ensures !IsFailedTurn(ms[i]) ==> (IdsFixed(all[i], target) <==> TurnSettles(ms[i], target))
      ensures IsFailedTurn(ms[i]) ==> TurnSettles(ms[i], target)
    {
      KeptExactlyUnlessFailed(all, i);
      TurnsFixedExactly(ms, target, map[], i);
      FailedSettles(ms[i], target);
    }
    if forall m | m in out :: IdsFixed(m, target) {
      forall i | 0 <= i < |ms| ensures TurnSettles(ms[i], target) {
        if !IsFailedTurn(ms[i]) {
          var k :| 0 <= k < |es| && es[k] == Kept(i);
          assert out[k] == all[i] && out[k] in out;
        }
      }
    }
    if forall m | m in ms :: TurnSettles(m, target) {
      forall k | 0 <= k < |out| ensures IdsFixed(out[k], target) {
        assert Refers(all, es[k]) && es[k] in es;
        if es[k].Kept? {
          KeptExactlyUnlessFailed(all, es[k].at);
          assert ms[es[k].at] in ms;
        } else {
          SyntheticIsFixed(Calls(all[es[k].at])[es[k].call], now, target);
        }
      }
    }
  }

  lemma FailedSettles(m: Message, target: Target)
    ensures IsFailedTurn(m) ==> TurnSettles(m, target)
  {
  }

  lemma SyntheticIsFixed(c: ToolCall, now: int, target: Target)
    ensures IdsFixed(SyntheticResult(c, now), target)
  {
  }

  /**
   * Replaying a replayed conversation again changes nothing, at whatever time,
   * exactly when the normalizer, asked again, keeps its answer for every call of
   * another model's turn that did not fail.
   */
  lemma StableExactlyWhenIdsSettle(ms: seq<Message>, target: Target, now: int, later: int)
    ensures Replayed(Replayed(ms, target, now), target, later) == Replayed(ms, target, now)
            <==> forall m | m in ms :: TurnSettles(m, target)
  {
    hide Replayed, IdsFixed, TurnSettles;
    StableIfOutputFixed(ms, target, now, later);
    OutputFixedExactly(ms, target, now);
  }

  ghost predicate IsIdempotent(target: Target) {
    forall id: string, o: Origin :: NewId(NewId(id, o, target), o, target) == NewId(id, o, target)
  }

  /** So for any idempotent normalizer, and for none, replaying is idempotent. */
  lemma IdempotentNormalizerIsStable(ms: seq<Message>, target: Target, now: int, later: int)
    requires IsIdempotent(target)
    ensures Replayed(Replayed(ms, target, now), target, later) == Replayed(ms, target, now)
  {
    hide Replayed;
    StableExactlyWhenIdsSettle(ms, target, now, later);
  }
}
