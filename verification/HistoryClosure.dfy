/** What the orphan pass guarantees about the history it returns. */
module HistoryClosure {
  import opened Wrappers
  import opened Conversation
  import opened OrphanResults

  // ----- Deleting the synthetic results leaves the input ------------------------------------

  function NonFailed(all: seq<Message>): seq<Message> {
    if all == [] then [] else (if IsFailedTurn(all[0]) then [] else [all[0]]) + NonFailed(all[1..])
  }

  /** The messages among a list of entries that come from the input. */
  function KeptOf(all: seq<Message>, es: seq<Entry>): seq<Message> {
    if es == [] then []
    else (if es[0].Kept? && es[0].at < |all| then [all[es[0].at]] else []) + KeptOf(all, es[1..])
  }

  lemma {:induction false} KeptOfAppend(all: seq<Message>, a: seq<Entry>, b: seq<Entry>)
    ensures KeptOf(all, a + b) == KeptOf(all, a) + KeptOf(all, b)
  {
    if a == [] {
      assert a + b == b;
    } else {
      assert (a + b)[1..] == a[1..] + b;
      KeptOfAppend(all, a[1..], b);
      var head := if a[0].Kept? && a[0].at < |all| then [all[a[0].at]] else [];
      assert head + (KeptOf(all, a[1..]) + KeptOf(all, b)) == (head + KeptOf(all, a[1..])) + KeptOf(all, b);
    }
  }

  lemma {:induction false} NoneKeptOf(all: seq<Message>, es: seq<Entry>)
    requires forall e | e in es :: e.Synthetic?
    ensures KeptOf(all, es) == []
  {
    if es != [] {
      assert es[0] in es;
      NoneKeptOf(all, es[1..]);
    }
  }

  lemma {:induction false} MissingIsSynthetic(t: Turn, k: nat)
    requires k <= |t.pending|
    ensures forall e | e in Missing(t, k) :: e.Synthetic? && e.at == t.at && k <= e.call < |t.pending|
    decreases |t.pending| - k
  {
    if k < |t.pending| {
      MissingIsSynthetic(t, k + 1);
    }
  }

  lemma {:induction false} InsertKeeps(all: seq<Message>, i: nat, t: Turn)
    requires i <= |all|
    ensures KeptOf(all, Insert(all, i, t)) == NonFailed(all[i..])
    decreases |all| - i
  {
    hide Missing;
    MissingIsSynthetic(t, 0);
    NoneKeptOf(all, Missing(t, 0));
    if i < |all| {
      AddedKeeps(all, i, t);
      KeptOfAppend(all, Added(all, i, t), Insert(all, i + 1, Next(all, i, t)));
      InsertKeeps(all, i + 1, Next(all, i, t));
      assert all[i..][1..] == all[i + 1..];
    }
  }

  lemma AddedKeeps(all: seq<Message>, i: nat, t: Turn)
    requires i < |all| && KeptOf(all, Missing(t, 0)) == []
    ensures KeptOf(all, Added(all, i, t)) == if IsFailedTurn(all[i]) then [] else [all[i]]
  {
    hide Missing;
    var kept := if IsFailedTurn(all[i]) then [] else [Kept(i)];
    assert KeptOf(all, kept) == if IsFailedTurn(all[i]) then [] else [all[i]];
    KeptOfAppend(all, Missing(t, 0), kept);
    assert [] + kept == kept;
  }

  /** Without its synthetic results, the output is the input without its failed turns. */
  lemma ErasingSyntheticGivesInput(all: seq<Message>)
    ensures KeptOf(all, Insert(all, 0, NO_TURN)) == NonFailed(all)
  {
    InsertKeeps(all, 0, NO_TURN);
    assert all[0..] == all;
  }

  // ----- Which results are synthetic ----------------------------------------------------------

  /** A result with this id comes before the next message that is no tool result. */
  predicate AnsweredFrom(all: seq<Message>, i: nat, id: string)
    decreases |all| - i
  {
    i < |all| && all[i].ToolResult? && (all[i].callId == id || AnsweredFrom(all, i + 1, id))
  }

  /** Call k of message i is replayed and its own turn leaves it without a result. */
  predicate Orphan(all: seq<Message>, i: nat, k: nat) {
    i < |all| && !IsFailedTurn(all[i]) && k < |Calls(all[i])| && !AnsweredFrom(all, i + 1, Calls(all[i])[k].id)
  }

  lemma {:induction false} MissingExactly(t: Turn, k: nat, e: Entry)
    requires k <= |t.pending|
    ensures e in Missing(t, k) <==>
              e.Synthetic? && e.at == t.at && k <= e.call < |t.pending| && t.pending[e.call].id !in t.answered
    decreases |t.pending| - k
  {
    if k < |t.pending| {
      MissingExactly(t, k + 1, e);
    }
  }

  /** Call k of the turn that is open before message i stays without a result. */
  predicate StillOrphan(all: seq<Message>, i: nat, t: Turn, k: nat) {
    k < |t.pending| && t.pending[k].id !in t.answered && !AnsweredFrom(all, i, t.pending[k].id)
  }

  lemma {:induction false} InsertSynthesizes(all: seq<Message>, i: nat, t: Turn, p: nat, k: nat)
    requires i <= |all| && (t.pending != [] ==> t.at < i)
    ensures Synthetic(p, k) in Insert(all, i, t) <==>
              (p == t.at && StillOrphan(all, i, t, k)) || (i <= p && Orphan(all, p, k))
    decreases |all| - i
  {
    hide Missing, CallsIn;
    MissingExactly(t, 0, Synthetic(p, k));
    if i < |all| {
      InsertSynthesizes(all, i + 1, Next(all, i, t), p, k);
    }
  }

  /** A result is synthesized for exactly the replayed calls that their turn leaves unanswered. */
  lemma SyntheticExactlyForOrphans(all: seq<Message>, p: nat, k: nat)
    ensures Synthetic(p, k) in Insert(all, 0, NO_TURN) <==> Orphan(all, p, k)
  {
    InsertSynthesizes(all, 0, NO_TURN, p, k);
  }

  lemma {:induction false} InsertKeepsPosition(all: seq<Message>, i: nat, t: Turn, p: nat)
    requires i <= |all|
    ensures Kept(p) in Insert(all, i, t) <==> i <= p < |all| && !IsFailedTurn(all[p])
    decreases |all| - i
  {
    hide Missing, CallsIn;
    MissingExactly(t, 0, Kept(p));
    if i < |all| {
      InsertKeepsPosition(all, i + 1, Next(all, i, t), p);
    }
  }

  /** A message is kept exactly when it is no failed turn. */
  lemma KeptExactlyUnlessFailed(all: seq<Message>, p: nat)
    ensures Kept(p) in Insert(all, 0, NO_TURN) <==> p < |all| && !IsFailedTurn(all[p])
  {
    InsertKeepsPosition(all, 0, NO_TURN, p);
  }

  // ----- Where they go ------------------------------------------------------------------------

  /** The first message from i on that is no tool result, or the end. */
  function TurnEnd(all: seq<Message>, i: nat): (r: nat)
    ensures i <= r && (i <= |all| ==> r <= |all|)
    decreases |all| - i
  {
    if i < |all| && all[i].ToolResult? then TurnEnd(all, i + 1) else i
  }

  /** A synthetic result stands just before the message that ends its turn, call by call. */
  function Place(all: seq<Message>, e: Entry): nat {
    match e case Kept(i) => i case Synthetic(i, _) => TurnEnd(all, i + 1)
  }

  predicate Precedes(all: seq<Message>, a: Entry, b: Entry) {
    Place(all, a) < Place(all, b) ||
    (Place(all, a) == Place(all, b) && a.Synthetic? && (b.Kept? || (a.at == b.at && a.call < b.call)))
  }

  ghost predicate InOrder(all: seq<Message>, es: seq<Entry>) {
    forall a, b | 0 <= a < b < |es| :: Precedes(all, es[a], es[b])
  }

  lemma {:induction false} MissingInOrder(all: seq<Message>, t: Turn, k: nat)
    requires k <= |t.pending|
    ensures InOrder(all, Missing(t, k))
    decreases |t.pending| - k
  {
    if k < |t.pending| {
      MissingInOrder(all, t, k + 1);
      MissingIsSynthetic(t, k + 1);
    }
  }

  lemma KeptBeforeRest(all: seq<Message>, i: nat, t: Turn, rest: seq<Entry>)
    requires i < |all| && InOrder(all, rest)
    requires forall e | e in rest :: i + 1 <= Place(all, e)
    ensures var kept := if IsFailedTurn(all[i]) then [] else [Kept(i)];
            && InOrder(all, kept + rest)
            && forall e | e in kept + rest :: i <= Place(all, e) && (Place(all, e) == i ==> e.Kept?)
  {
    var kept := if IsFailedTurn(all[i]) then [] else [Kept(i)];
    assert forall k | 0 <= k < |rest| :: rest[k] in rest;
  }

  lemma MissingBeforeRest(all: seq<Message>, i: nat, t: Turn, rest: seq<Entry>)
    requires i < |all| && InOrder(all, rest) && !all[i].ToolResult?
    requires t.pending != [] ==> TurnEnd(all, t.at + 1) == TurnEnd(all, i)
    requires InOrder(all, Missing(t, 0))
    requires forall e | e in Missing(t, 0) :: e.Synthetic? && e.at == t.at && 0 <= e.call < |t.pending|
    requires forall e | e in rest :: i <= Place(all, e) && (Place(all, e) == i ==> e.Kept?)
    ensures InOrder(all, Missing(t, 0) + rest)
    ensures forall e | e in Missing(t, 0) :: Place(all, e) == i
  {
    hide Missing, Calls;
    var es := Missing(t, 0);
    forall a, b | 0 <= a < b < |es + rest| ensures Precedes(all, (es + rest)[a], (es + rest)[b]) {
      if b < |es| {
        assert Precedes(all, es[a], es[b]);
      } else if |es| <= a {
        assert Precedes(all, rest[a - |es|], rest[b - |es|]);
      } else {
        assert es[a] in es && rest[b - |es|] in rest;
      }
    }
  }

  lemma {:induction false} InsertInOrder(all: seq<Message>, i: nat, t: Turn)
    requires i <= |all| && (t.pending != [] ==> TurnEnd(all, t.at + 1) == TurnEnd(all, i))
    ensures InOrder(all, Insert(all, i, t))
    ensures forall e | e in Insert(all, i, t) :: i <= Place(all, e)
    ensures forall e | e in Insert(all, i, t) && e.Synthetic? && Place(all, e) == i :: t.pending != [] && e.at == t.at
    decreases |all| - i
  {
    hide Missing, CallsIn;
    MissingInOrder(all, t, 0);
    MissingIsSynthetic(t, 0);
    if i < |all| {
      InsertInOrder(all, i + 1, Next(all, i, t));
      var rest := Insert(all, i + 1, Next(all, i, t));
      var kept := if IsFailedTurn(all[i]) then [] else [Kept(i)];
      KeptBeforeRest(all, i, Next(all, i, t), rest);
      if !all[i].ToolResult? {
        MissingBeforeRest(all, i, t, kept + rest);
        assert Missing(t, 0) + (kept + rest) == Insert(all, i, t);
      } else {
        assert kept + rest == Insert(all, i, t);
      }
    }
  }

  /**
   * The output is sorted by place without repetition. With the two lemmas on
   * which entries there are, this determines it.
   */
  lemma OutputInOrder(all: seq<Message>)
    ensures InOrder(all, Insert(all, 0, NO_TURN))
  {
    InsertInOrder(all, 0, NO_TURN);
  }

  // ----- The output is closed -------------------------------------------------------------------

  /** Every call has a result with its id before the next assistant or user message, and no turn failed. */
  predicate IsClosed(out: seq<Message>) {
    && (forall i | 0 <= i < |out| :: !IsFailedTurn(out[i]))
    && (forall i, k | 0 <= i < |out| && 0 <= k < |Calls(out[i])| :: AnsweredFrom(out, i + 1, Calls(out[i])[k].id))
  }

  function Ids(calls: seq<ToolCall>): set<string> { set c | c in calls :: c.id }

  /** The same, read from the front: need holds the ids that still want a result. */
  predicate Closes(out: seq<Message>, need: set<string>) {
    if out == [] then need == {}
    else match out[0]
      case User(_, _, _) => need == {} && Closes(out[1..], {})
      case ToolResult(id, _, _, _, _) => Closes(out[1..], need - {id})
      case Assistant(_, _, _, _, _, _) => need == {} && !IsFailedTurn(out[0]) && Closes(out[1..], Ids(Calls(out[0])))
  }

  lemma {:induction false} ClosesFewer(out: seq<Message>, need: set<string>, fewer: set<string>)
    requires Closes(out, need) && fewer <= need
    ensures Closes(out, fewer)
  {
    if out != [] && out[0].ToolResult? {
      ClosesFewer(out[1..], need - {out[0].callId}, fewer - {out[0].callId});
    }
  }

  function Need(t: Turn, k: nat): set<string>
    requires k <= |t.pending|
  {
    Ids(t.pending[k..]) - t.answered
  }

  /** The synthetic results of a turn close it. */
  lemma {:induction false} MissingCloses(all: seq<Message>, i: nat, t: Turn, k: nat, now: int, rest: seq<Message>)
    requires TurnIn(all, i, t) && k <= |t.pending| && Closes(rest, {})
    requires forall e | e in Missing(t, k) :: Refers(all, e)
    ensures Closes(RealizedAll(all, Missing(t, k), now) + rest, Need(t, k))
    decreases |t.pending| - k
  {
    hide CallsIn, IsFailedTurn, Closes, Need;
    if k == |t.pending| {
      assert RealizedAll(all, Missing(t, k), now) + rest == rest;
      NeedStep(t, k);
    } else {
      MissingRefers(all, i, t, k + 1);
      MissingCloses(all, i, t, k + 1, now, rest);
      NeedStep(t, k);
      var later := RealizedAll(all, Missing(t, k + 1), now);
      if t.pending[k].id in t.answered {
        assert Missing(t, k) == Missing(t, k + 1);
      } else {
        var r := SyntheticResult(t.pending[k], now);
        assert Missing(t, k)[1..] == Missing(t, k + 1);
        assert RealizedAll(all, Missing(t, k), now) == [r] + later;
        ResultCloses(r, later + rest, Need(t, k), Need(t, k + 1));
        assert [r] + (later + rest) == ([r] + later) + rest;
      }
    }
  }

  lemma NeedStep(t: Turn, k: nat)
    requires k <= |t.pending|
    ensures k == |t.pending| ==> Need(t, k) == {}
    ensures k < |t.pending| && t.pending[k].id in t.answered ==> Need(t, k) == Need(t, k + 1)
    ensures k < |t.pending| ==> Need(t, k) - {t.pending[k].id} <= Need(t, k + 1)
  {
    if k < |t.pending| {
      assert t.pending[k..] == [t.pending[k]] + t.pending[k + 1..];
    }
  }

  lemma ResultCloses(r: Message, tail: seq<Message>, need: set<string>, more: set<string>)
    requires r.ToolResult? && Closes(tail, more) && need - {r.callId} <= more
    ensures Closes([r] + tail, need)
  {
    ClosesFewer(tail, more, need - {r.callId});
    assert ([r] + tail)[1..] == tail;
  }

  lemma {:induction false} RealizedAppend(all: seq<Message>, a: seq<Entry>, b: seq<Entry>, now: int)
    requires forall e | e in a + b :: Refers(all, e)
    ensures forall e | e in a :: e in a + b
    ensures forall e | e in b :: e in a + b
    ensures RealizedAll(all, a + b, now) == RealizedAll(all, a, now) + RealizedAll(all, b, now)
  {
    assert forall e | e in a :: e in a + b;
    assert forall e | e in b :: e in a + b;
  }

  lemma {:induction false} InsertCloses(all: seq<Message>, i: nat, t: Turn, now: int)
    requires i <= |all| && TurnIn(all, i, t)
    requires forall e | e in Insert(all, i, t) :: Refers(all, e)
    ensures Closes(RealizedAll(all, Insert(all, i, t), now), Need(t, 0))
    decreases |all| - i
  {
    hide Missing, CallsIn, Refers, Realized;
    MissingRefers(all, i, t, 0);
    if i == |all| {
      MissingCloses(all, i, t, 0, now, []);
      assert RealizedAll(all, Missing(t, 0), now) + [] == RealizedAll(all, Missing(t, 0), now);
    } else {
      InsertRefers(all, i + 1, Next(all, i, t));
      InsertCloses(all, i + 1, Next(all, i, t), now);
      InsertClosesStep(all, i, t, now, Insert(all, i + 1, Next(all, i, t)));
    }
  }

  lemma InsertClosesStep(all: seq<Message>, i: nat, t: Turn, now: int, rest: seq<Entry>)
    requires i < |all| && TurnIn(all, i, t)
    requires forall e | e in Missing(t, 0) :: Refers(all, e)
    requires forall e | e in rest :: Refers(all, e)
    requires Closes(RealizedAll(all, rest, now), Need(Next(all, i, t), 0))
    ensures forall e | e in Added(all, i, t) + rest :: Refers(all, e)
    ensures Closes(RealizedAll(all, Added(all, i, t) + rest, now), Need(t, 0))
  {
    hide Missing, CallsIn, RealizedAll, Closes, Refers;
    var kept := if IsFailedTurn(all[i]) then [] else [Kept(i)];
    KeptCloses(all, i, t, now, rest);
    if all[i].ToolResult? {
      assert Added(all, i, t) + rest == kept + rest;
    } else {
      assert Added(all, i, t) + rest == Missing(t, 0) + (kept + rest);
      RealizedAppend(all, Missing(t, 0), kept + rest, now);
      MissingCloses(all, i, t, 0, now, RealizedAll(all, kept + rest, now));
    }
  }

  /** The message itself, if it is kept, before what closes the turn after it. */
  lemma KeptCloses(all: seq<Message>, i: nat, t: Turn, now: int, rest: seq<Entry>)
    requires i < |all| && forall e | e in rest :: Refers(all, e)
    requires Closes(RealizedAll(all, rest, now), Need(Next(all, i, t), 0))
    ensures var kept := if IsFailedTurn(all[i]) then [] else [Kept(i)];
            && (forall e | e in kept + rest :: Refers(all, e))
            && Closes(RealizedAll(all, kept + rest, now), if all[i].ToolResult? then Need(t, 0) else {})
  {
    hide CallsIn, RealizedAll;
    var m, tail := all[i], RealizedAll(all, rest, now);
    if IsFailedTurn(m) {
      assert [] + rest == rest;
      assert Need(NO_TURN, 0) == {};
    } else {
      RealizedAppend(all, [Kept(i)], rest, now);
      OneRealized(all, i, now);
      assert ([m] + tail)[1..] == tail;
      assert Need(Next(all, i, t), 0) ==
        if m.ToolResult? then Need(t, 0) - {m.callId} else if m.User? then {} else Ids(Calls(m));
    }
  }

  lemma OneRealized(all: seq<Message>, i: nat, now: int)
    requires i < |all|
    ensures RealizedAll(all, [Kept(i)], now) == [all[i]]
  {
  }

  lemma {:induction false} ClosesAnswers(out: seq<Message>, i: nat, need: set<string>, id: string)
    requires i <= |out| && Closes(out[i..], need) && id in need
    ensures AnsweredFrom(out, i, id)
    decreases |out| - i
  {
    if i < |out| && out[i].ToolResult? && out[i].callId != id {
      assert out[i..][1..] == out[i + 1..];
      ClosesAnswers(out, i + 1, need - {out[i].callId}, id);
    }
  }

  /** What the tail of out that starts at i must satisfy for Closes. */
  ghost predicate ClosedFrom(out: seq<Message>, i: nat) {
    && (forall p | i <= p < |out| :: !IsFailedTurn(out[p]))
    && (forall p, k | i <= p < |out| && 0 <= k < |Calls(out[p])| :: AnsweredFrom(out, p + 1, Calls(out[p])[k].id))
  }

  lemma {:induction false} ClosesIffClosed(out: seq<Message>, i: nat, need: set<string>)
    requires i <= |out|
    ensures Closes(out[i..], need) <==> ClosedFrom(out, i) && forall id | id in need :: AnsweredFrom(out, i, id)
    decreases |out| - i
  {
    hide CallsIn, Calls;
    if i < |out| {
      assert out[i..][1..] == out[i + 1..];
      var next := NextNeed(out[i], need);
      ClosesIffClosed(out, i + 1, next);
      ClosedFromStep(out, i, need);
      assert Closes(out[i..], need) <==>
        !IsFailedTurn(out[i]) && (!out[i].ToolResult? ==> need == {}) && Closes(out[i + 1..], next);
    }
  }

  function NextNeed(m: Message, need: set<string>): set<string> {
    if m.ToolResult? then need - {m.callId} else if m.User? then {} else Ids(Calls(m))
  }

  lemma ClosedFromStep(out: seq<Message>, i: nat, need: set<string>)
    requires i < |out|
    ensures (ClosedFrom(out, i) && forall id | id in need :: AnsweredFrom(out, i, id)) <==>
              && !IsFailedTurn(out[i]) && (!out[i].ToolResult? ==> need == {}) && ClosedFrom(out, i + 1)
              && forall id | id in NextNeed(out[i], need) :: AnsweredFrom(out, i + 1, id)
  {
    hide CallsIn;
    var next := NextNeed(out[i], need);
    var calls := Calls(out[i]);
    if ClosedFrom(out, i) {
      forall id | id in next && out[i].Assistant? ensures AnsweredFrom(out, i + 1, id) {
        var c :| c in calls && c.id == id;
        var k :| 0 <= k < |calls| && calls[k] == c;
      }
    }
    if ClosedFrom(out, i + 1) && forall id | id in next :: AnsweredFrom(out, i + 1, id) {
      forall k | 0 <= k < |calls| ensures AnsweredFrom(out, i + 1, calls[k].id) {
        assert calls[k] in calls && calls[k].id in next;
      }
      forall id | id in need && out[i].ToolResult? ensures AnsweredFrom(out, i, id) {
        assert id == out[i].callId || id in next;
      }
    }
  }

  /** Every history that the pass returns is closed. */
  lemma OutputIsClosed(all: seq<Message>, now: int)
    ensures IsClosed(Closed(all, now))
  {
    InsertRefers(all, 0, NO_TURN);
    InsertCloses(all, 0, NO_TURN, now);
    var out := Closed(all, now);
    assert Need(NO_TURN, 0) == {};
    assert out[0..] == out;
    ClosesIffClosed(out, 0, {});
  }

  /** On a closed tail the pass adds nothing. */
  lemma {:induction false} ClosedTailStays(all: seq<Message>, i: nat, t: Turn, now: int)
    requires i <= |all| && TurnIn(all, i, t) && Closes(all[i..], Need(t, 0))
    requires forall e | e in Insert(all, i, t) :: Refers(all, e)
    ensures RealizedAll(all, Insert(all, i, t), now) == all[i..]
    decreases |all| - i
  {
    hide CallsIn, Missing, Refers, Realized;
    if i == |all| || !all[i].ToolResult? {
      NothingMissing(t, 0);
    }
    if i < |all| {
      var next := Next(all, i, t);
      assert all[i..][1..] == all[i + 1..];
      assert Added(all, i, t) == [Kept(i)];
      assert Need(next, 0) == NextNeed(all[i], Need(t, 0)) by {
        assert next.pending[0..] == next.pending && t.pending[0..] == t.pending;
      }
      InsertRefers(all, i + 1, next);
      ClosedTailStays(all, i + 1, next, now);
      KeptFirst(all, i, Insert(all, i + 1, next), now);
    }
  }

  lemma KeptFirst(all: seq<Message>, i: nat, rest: seq<Entry>, now: int)
    requires i < |all| && forall e | e in rest :: Refers(all, e)
    requires RealizedAll(all, rest, now) == all[i + 1..]
    ensures forall e | e in [Kept(i)] + rest :: Refers(all, e)
    ensures RealizedAll(all, [Kept(i)] + rest, now) == all[i..]
  {
    assert ([Kept(i)] + rest)[1..] == rest;
    assert all[i..] == [all[i]] + all[i + 1..];
  }

  lemma {:induction false} NothingMissing(t: Turn, k: nat)
    requires k <= |t.pending| && Need(t, 0) == {}
    ensures Missing(t, k) == []
    decreases |t.pending| - k
  {
    if k < |t.pending| {
      assert t.pending[k] in t.pending[0..];
      assert t.pending[k].id in Ids(t.pending[0..]) && t.pending[k].id !in Need(t, 0);
      NothingMissing(t, k + 1);
    }
  }

  /** The pass changes nothing exactly when the history is closed already. */
  lemma ClosedExactlyWhenUnchanged(all: seq<Message>, now: int)
    ensures Closed(all, now) == all <==> IsClosed(all)
  {
    OutputIsClosed(all, now);
    if IsClosed(all) {
      assert all[0..] == all;
      ClosesIffClosed(all, 0, {});
      assert Need(NO_TURN, 0) == {};
      InsertRefers(all, 0, NO_TURN);
      ClosedTailStays(all, 0, NO_TURN, now);
    }
  }

  /**
   * What stands in the output: the input's messages as they are, and for a call
   * without a result an error result that names the call and says so.
   */
  lemma OutputExactly(all: seq<Message>, now: int, k: nat)
    requires k < |Insert(all, 0, NO_TURN)|
    ensures |Closed(all, now)| == |Insert(all, 0, NO_TURN)| && Refers(all, Insert(all, 0, NO_TURN)[k])
    ensures var e := Insert(all, 0, NO_TURN)[k];
            && (e.Kept? ==> Closed(all, now)[k] == all[e.at])
            && (e.Synthetic? ==>
                 var c := Calls(all[e.at])[e.call];
                 Closed(all, now)[k] ==
                   ToolResult(c.id, c.name, Some([Text("No result provided", "")]), true, now))
  {
    hide Insert;
    InsertRefers(all, 0, NO_TURN);
    assert Insert(all, 0, NO_TURN)[k] in Insert(all, 0, NO_TURN);
  }
}
