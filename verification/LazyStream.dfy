/**
 * Lazy streams, nested to any depth: each level is a stream whose goroutine
 * first runs a setup and then forwards every event of the level below, through
 * that level's pump, until the pump's channel closes. Level 0 is an adapter's
 * own stream.
 */
module LazyStream {
  import opened Wrappers
  import opened EventStream
  import opened StreamPump

  /** The goroutine that feeds a level from the one below. */
  datatype Forwarder = SettingUp | Forwarding(held: Option<Event>) | Finished(failed: bool)

  datatype Level = Level(
    stream: State,
    accepted: seq<Event>,
    ended: Option<Option<Message>>,
    forwarder: Forwarder,     // how this level is fed; level 0 is fed by its adapter
    taken: seq<Event>,        // events its consumer has received
    pumped: Option<Event>,    // the event its pump is sending
    closed: bool)             // its events channel

  datatype Move =
    | Produce(event: Event)
    | EndAdapter(result: Option<Message>)
    | SetupFails(i: nat, message: Message)
    | SetupSucceeds(i: nat)
    | PumpTakes(i: nat)
    | PumpCloses(i: nat)
    | Receives(i: nat)
    | Forwards(i: nat)
    | EndsOuter(i: nat)
    | OuterReceives

  function AsSeq(e: Option<Event>): seq<Event> { if e.None? then [] else [e.value] }

  function PushTo(l: Level, e: Event): Level {
    if l.stream.done then l else l.(stream := Pushed(l.stream, e), accepted := l.accepted + [e])
  }

  function EndOf(l: Level, r: Option<Message>): Level {
    if l.stream.done then l else l.(stream := Ended(l.stream, r), ended := Some(r))
  }

  predicate CanMove(ls: seq<Level>, m: Move)
    requires ls != []
  {
    match m
    case Produce(_) => true
    case EndAdapter(_) => true
    case SetupFails(i, _) => 0 < i < |ls| && ls[i].forwarder.SettingUp?
    case SetupSucceeds(i) => 0 < i < |ls| && ls[i].forwarder.SettingUp?
    case PumpTakes(i) =>
      && i < |ls| && (i + 1 < |ls| ==> ls[i + 1].forwarder.Forwarding?)
      && ls[i].pumped.None? && ls[i].stream.queue != []
    case PumpCloses(i) =>
      && i < |ls| && (i + 1 < |ls| ==> ls[i + 1].forwarder.Forwarding?)
      && ls[i].pumped.None? && ls[i].stream.queue == [] && ls[i].stream.done && !ls[i].closed
    case Receives(i) => 0 < i < |ls| && ls[i].forwarder == Forwarding(None) && ls[i - 1].pumped.Some?
    case Forwards(i) => 0 < i < |ls| && ls[i].forwarder.Forwarding? && ls[i].forwarder.held.Some?
    case EndsOuter(i) => 0 < i < |ls| && ls[i].forwarder == Forwarding(None) && ls[i - 1].closed
    case OuterReceives => ls[|ls| - 1].pumped.Some?
  }

  function Taken(l: Level): Level
    requires l.pumped.Some?
  {
    l.(taken := l.taken + [l.pumped.value], pumped := None)
  }

  function AfterMove(ls: seq<Level>, m: Move): (r: seq<Level>)
    requires ls != [] && CanMove(ls, m)
    ensures |r| == |ls|
  {
    match m
    case Produce(e) => ls[0 := PushTo(ls[0], e)]
    case EndAdapter(r) => ls[0 := EndOf(ls[0], r)]
    case SetupFails(i, message) => ls[i := PushTo(ls[i], Error(message)).(forwarder := Finished(true))]
    case SetupSucceeds(i) => ls[i := ls[i].(forwarder := Forwarding(None))]
    case PumpTakes(i) =>
      ls[i := ls[i].(pumped := Some(ls[i].stream.queue[0]), stream := Popped(ls[i].stream))]
    case PumpCloses(i) => ls[i := ls[i].(closed := true)]
    case Receives(i) => ls[i := ls[i].(forwarder := Forwarding(ls[i - 1].pumped))][i - 1 := Taken(ls[i - 1])]
    case Forwards(i) => ls[i := PushTo(ls[i], ls[i].forwarder.held.value).(forwarder := Forwarding(None))]
    case EndsOuter(i) => ls[i := EndOf(ls[i], None).(forwarder := Finished(false))]
    case OuterReceives => ls[|ls| - 1 := Taken(ls[|ls| - 1])]
  }

  function FreshLevel(forwarder: Forwarder): Level { Level(OPEN, [], None, forwarder, [], None, false) }

  predicate Initial(ls: seq<Level>) {
    && ls != [] && ls[0] == FreshLevel(Finished(false))
    && forall i | 1 <= i < |ls| :: ls[i] == FreshLevel(SettingUp)
  }

  function RunMoves(ls: seq<Level>, moves: seq<Move>): Option<seq<Level>>
    requires ls != []
    decreases |moves|
  {
    if moves == [] then Some(ls)
    else if CanMove(ls, moves[0]) then RunMoves(AfterMove(ls, moves[0]), moves[1..])
    else None
  }

  // ----- The invariant ---------------------------------------------------------------

  predicate LevelCompletes(l: Level) {
    && (forall i | 0 <= i < |l.accepted| - 1 :: !IsTerminal(l.accepted[i]))
    && (l.ended.Some? ==> !EndsWithTerminal(l.accepted))
    && l.stream.done == (l.ended.Some? || EndsWithTerminal(l.accepted))
    && l.stream.result == if l.ended.Some? then l.ended.value
                          else if EndsWithTerminal(l.accepted) then EventResult(l.accepted[|l.accepted| - 1])
                          else None
  }

  predicate LevelConserves(l: Level) {
    && l.accepted == l.taken + AsSeq(l.pumped) + l.stream.queue
    && (l.closed ==> l.stream.done && l.stream.queue == [] && l.pumped.None?)
  }

  /** How what level hi has accepted relates to what was taken from level lo. */
  predicate Link(lo: Level, hi: Level) {
    match hi.forwarder
    case SettingUp => hi.accepted == [] && hi.ended.None? && lo.taken == [] && lo.pumped.None? && !lo.closed
    case Forwarding(held) => hi.accepted + AsSeq(held) == lo.taken && hi.ended.None?
    case Finished(true) =>
      && |hi.accepted| == 1 && hi.accepted[0].Error? && hi.ended.None?
      && lo.taken == [] && lo.pumped.None? && !lo.closed
    case Finished(false) =>
      && lo.closed && hi.accepted == lo.taken
      && hi.ended == if EndsWithTerminal(lo.accepted) then None else Some(None)
  }

  predicate ChainInvariant(ls: seq<Level>) {
    && ls != []
    && (forall i | 0 <= i < |ls| :: LevelCompletes(ls[i]) && LevelConserves(ls[i]))
    && (forall i | 0 < i < |ls| :: Link(ls[i - 1], ls[i]))
  }

  // ----- Each move keeps each level and each link ------------------------------------------

  /** The adapter may push or end whenever it likes, and a setup that is running may end either way. */
  lemma SetupMayGoEitherWay(ls: seq<Level>, i: nat)
    requires 0 < i < |ls| && ls[i].forwarder.SettingUp?
    ensures CanMove(ls, SetupSucceeds(i)) && forall message :: CanMove(ls, SetupFails(i, message))
    ensures (forall e :: CanMove(ls, Produce(e))) && forall r :: CanMove(ls, EndAdapter(r))
  {
  }

  lemma LevelStep(l: Level, e: Event, r: Option<Message>, f: Forwarder)
    requires LevelCompletes(l) && LevelConserves(l)
    ensures LevelCompletes(PushTo(l, e).(forwarder := f)) && LevelConserves(PushTo(l, e).(forwarder := f))
    ensures LevelCompletes(EndOf(l, r).(forwarder := f)) && LevelConserves(EndOf(l, r).(forwarder := f))
  {
  }

  lemma PumpStep(l: Level, f: Forwarder)
    requires LevelCompletes(l) && LevelConserves(l)
    ensures LevelCompletes(l.(forwarder := f)) && LevelConserves(l.(forwarder := f))
    ensures l.pumped.None? && l.stream.queue == [] && l.stream.done ==>
      LevelCompletes(l.(closed := true)) && LevelConserves(l.(closed := true))
    ensures l.pumped.Some? ==> LevelCompletes(Taken(l)) && LevelConserves(Taken(l))
    ensures l.pumped.None? && l.stream.queue != [] ==>
      var t := l.(pumped := Some(l.stream.queue[0]), stream := Popped(l.stream)); LevelCompletes(t) && LevelConserves(t)
  {
  }

  lemma MoveKeepsLevel(ls: seq<Level>, m: Move, k: nat)
    requires ls != [] && CanMove(ls, m) && k < |ls|
    requires LevelCompletes(ls[k]) && LevelConserves(ls[k])
    ensures LevelCompletes(AfterMove(ls, m)[k]) && LevelConserves(AfterMove(ls, m)[k])
  {
    hide LevelCompletes, LevelConserves;
    var l := ls[k];
    PumpStep(l, match m case SetupSucceeds(_) => Forwarding(None) case Receives(i) => Forwarding(ls[i - 1].pumped) case _ => l.forwarder);
    match m
    case Produce(e) => LevelStep(l, e, None, l.forwarder);
    case EndAdapter(r) => LevelStep(l, Error(Message("", "")), r, l.forwarder);
    case SetupFails(_, message) => LevelStep(l, Error(message), None, Finished(true));
    case Forwards(i) => LevelStep(l, ls[i].forwarder.held.value, None, Forwarding(None));
    case EndsOuter(_) => LevelStep(l, Error(Message("", "")), None, Finished(false));
    case _ =>
  }

  /** The lower level accepts something, or is ended: nothing was taken from it, so the link stays. */
  lemma LowerStep(lo: Level, hi: Level, e: Event, r: Option<Message>, f: Forwarder)
    requires Link(lo, hi) && LevelConserves(lo)
    ensures Link(PushTo(lo, e).(forwarder := f), hi) && Link(EndOf(lo, r).(forwarder := f), hi)
  {
  }

  /** The upper level pushes the event it holds: its stream cannot have completed before. */
  lemma UpperForwards(lo: Level, hi: Level)
    requires Link(lo, hi) && LevelConserves(lo) && LevelCompletes(lo) && LevelCompletes(hi)
    requires hi.forwarder.Forwarding? && hi.forwarder.held.Some?
    ensures Link(lo, PushTo(hi, hi.forwarder.held.value).(forwarder := Forwarding(None)))
  {
    if hi.accepted != [] {
      var last := |hi.accepted| - 1;
      assert lo.taken[last] == hi.accepted[last];
      assert lo.accepted[last] == lo.taken[last];
    }
  }

  lemma UpperEnds(lo: Level, hi: Level)
    requires Link(lo, hi) && LevelConserves(lo) && LevelCompletes(hi)
    requires hi.forwarder == Forwarding(None) && lo.closed
    ensures Link(lo, EndOf(hi, None).(forwarder := Finished(false)))
  {
  }

  lemma UpperFails(lo: Level, hi: Level, message: Message)
    requires Link(lo, hi) && LevelCompletes(hi) && hi.forwarder.SettingUp?
    ensures Link(lo, PushTo(hi, Error(message)).(forwarder := Finished(true)))
  {
  }

  lemma MoveKeepsLinkBelow(ls: seq<Level>, m: Move, k: nat)
    requires ls != [] && CanMove(ls, m) && 0 < k < |ls| && Link(ls[k - 1], ls[k])
    requires LevelCompletes(ls[k - 1]) && LevelConserves(ls[k - 1])
    requires LevelCompletes(ls[k])
    ensures Link(AfterMove(ls, m)[k - 1], AfterMove(ls, m)[k])
  {
    hide LevelCompletes, LevelConserves;
    var lo, hi := ls[k - 1], ls[k];
    match m
    case Produce(e) => LowerStep(lo, hi, e, None, lo.forwarder);
    case EndAdapter(r) => LowerStep(lo, hi, Error(Message("", "")), r, lo.forwarder);
    case SetupFails(i, message) =>
      if i == k - 1 {
        LowerStep(lo, hi, Error(message), None, Finished(true));
      } else if i == k {
        UpperFails(lo, hi, message);
      }
    case Forwards(i) =>
      if i == k - 1 {
        LowerStep(lo, hi, lo.forwarder.held.value, None, Forwarding(None));
      } else if i == k {
        UpperForwards(lo, hi);
      }
    case EndsOuter(i) =>
      if i == k - 1 {
        LowerStep(lo, hi, Error(Message("", "")), None, Finished(false));
      } else if i == k {
        UpperEnds(lo, hi);
      }
    case _ =>
  }

  lemma MoveKeepsChain(ls: seq<Level>, m: Move)
    requires ChainInvariant(ls) && CanMove(ls, m)
    ensures ChainInvariant(AfterMove(ls, m))
  {
    hide LevelCompletes, LevelConserves, Link, AfterMove, CanMove;
    var r := AfterMove(ls, m);
    forall i | 0 <= i < |r| ensures LevelCompletes(r[i]) && LevelConserves(r[i]) {
      MoveKeepsLevel(ls, m, i);
    }
    forall i | 0 < i < |r| ensures Link(r[i - 1], r[i]) {
      MoveKeepsLinkBelow(ls, m, i);
    }
  }

  lemma {:induction false} RunKeepsChain(ls: seq<Level>, moves: seq<Move>)
    requires ChainInvariant(ls) && RunMoves(ls, moves).Some?
    ensures ChainInvariant(RunMoves(ls, moves).value)
    ensures |RunMoves(ls, moves).value| == |ls|
    decreases |moves|
  {
    hide LevelCompletes, LevelConserves, Link, AfterMove;
    if moves != [] {
      assert CanMove(ls, moves[0]);
      MoveKeepsChain(ls, moves[0]);
      RunKeepsChain(AfterMove(ls, moves[0]), moves[1..]);
    }
  }

  // ----- What the outermost consumer sees -----------------------------------------------------

  /** No setup failed at the levels above lo, up to and with hi. */
  predicate NoSetupFailed(ls: seq<Level>, lo: nat, hi: nat)
    requires lo <= hi < |ls|
  {
    forall k | lo < k <= hi :: ls[k].forwarder != Finished(true)
  }

  /**
   * At any depth and at any moment, a level has accepted a prefix of what any
   * level below it has accepted, unless a setup between them failed.
   */
  lemma {:induction false} OuterIsPrefixOfInner(ls: seq<Level>, moves: seq<Move>, lo: nat, hi: nat)
    requires Initial(ls) && RunMoves(ls, moves).Some? && lo <= hi < |ls|
    ensures var t := RunMoves(ls, moves).value;
            && |t| == |ls|
            && (NoSetupFailed(t, lo, hi) ==> t[hi].accepted <= t[lo].accepted)
    decreases hi
  {
    hide Initial, Link, LevelCompletes, LevelConserves, RunMoves;
    InitialChain(ls);
    RunKeepsChain(ls, moves);
    var t := RunMoves(ls, moves).value;
    if lo < hi && NoSetupFailed(t, lo, hi) {
      OuterIsPrefixOfInner(ls, moves, lo, hi - 1);
      LinkPrefix(t[hi - 1], t[hi]);
    }
  }

  lemma LinkPrefix(lo: Level, hi: Level)
    requires Link(lo, hi) && LevelConserves(lo) && hi.forwarder != Finished(true)
    ensures hi.accepted <= lo.accepted
  {
  }

  lemma InitialChain(ls: seq<Level>)
    requires Initial(ls)
    ensures ChainInvariant(ls)
  {
  }

  /** All goroutines between lo and hi have finished forwarding. */
  predicate AllFinished(ls: seq<Level>, lo: nat, hi: nat)
    requires lo <= hi < |ls|
  {
    forall k | lo < k <= hi :: ls[k].forwarder == Finished(false)
  }

  /**
   * Once they have finished, the outer stream accepted exactly what the inner
   * one did; it is done, with the inner result if the inner stream ended with a
   * terminal event, and without a result if it ended without one.
   */
  lemma {:induction false} FinishedOuterEqualsInner(ls: seq<Level>, moves: seq<Move>, lo: nat, hi: nat)
    requires Initial(ls) && RunMoves(ls, moves).Some? && lo < hi < |ls|
    ensures var t := RunMoves(ls, moves).value;
            && |t| == |ls|
            && (AllFinished(t, lo, hi) ==>
                  && t[hi].accepted == t[lo].accepted && t[lo].stream.done && t[hi].stream.done
                  && t[hi].stream.result ==
                       if EndsWithTerminal(t[lo].accepted) then t[lo].stream.result else None)
    decreases hi
  {
    hide Initial, Link, LevelCompletes, LevelConserves, RunMoves;
    InitialChain(ls);
    RunKeepsChain(ls, moves);
    var t := RunMoves(ls, moves).value;
    if AllFinished(t, lo, hi) {
      if lo < hi - 1 {
        FinishedOuterEqualsInner(ls, moves, lo, hi - 1);
      }
      FinishedLink(t[hi - 1], t[hi]);
      FinishedResult(t[hi - 1], t[hi]);
      ResultOf(t[lo]);
    }
  }

  /** Without a terminal event below, the outer stream was ended without a result. */
  lemma FinishedResult(lo: Level, hi: Level)
    requires Link(lo, hi) && LevelConserves(lo) && LevelCompletes(lo) && LevelCompletes(hi)
    requires hi.forwarder == Finished(false) && hi.accepted == lo.accepted
    ensures hi.stream.result ==
              if EndsWithTerminal(lo.accepted) then EventResult(lo.accepted[|lo.accepted| - 1]) else None
  {
  }

  lemma ResultOf(l: Level)
    requires LevelCompletes(l)
    ensures EndsWithTerminal(l.accepted) ==> l.stream.result == EventResult(l.accepted[|l.accepted| - 1])
  {
  }

  lemma FinishedLink(lo: Level, hi: Level)
    requires Link(lo, hi) && LevelConserves(lo) && LevelCompletes(lo) && LevelCompletes(hi)
    requires hi.forwarder == Finished(false)
    ensures hi.accepted == lo.accepted && lo.stream.done && hi.stream.done
  {
  }

  /** At every level, a done or error event that was accepted last brings its message as the result. */
  lemma LevelResultIsMessage(ls: seq<Level>, moves: seq<Move>, i: nat)
    requires Initial(ls) && RunMoves(ls, moves).Some? && i < |ls|
    ensures var t := RunMoves(ls, moves).value;
            && |t| == |ls|
            && var n := |t[i].accepted|;
               && (n > 0 && t[i].accepted[n - 1].Done? ==> t[i].stream.result == Some(t[i].accepted[n - 1].message))
               && (n > 0 && t[i].accepted[n - 1].Error? ==> t[i].stream.result == Some(t[i].accepted[n - 1].message))
               && (n > 0 && !t[i].accepted[n - 1].Update? ==> t[i].stream.done)
               && (n == 0 || t[i].accepted[n - 1].Update? ==>
                     t[i].stream.result == if t[i].ended.Some? then t[i].ended.value else None)
  {
    hide RunMoves, Link, LevelConserves;
    InitialChain(ls);
    RunKeepsChain(ls, moves);
    assert LevelCompletes(RunMoves(ls, moves).value[i]);
  }

  /** A setup that fails is the only event of its level from then on, with its message, which is the result. */
  lemma {:induction false} FailureStays(ls: seq<Level>, moves: seq<Move>, i: nat, message: Message)
    requires ls != [] && RunMoves(ls, moves).Some? && 0 < i < |ls|
    requires ls[i].forwarder == Finished(true) && ls[i].stream.done && ls[i].accepted == [Error(message)]
    requires ls[i].stream.result == Some(message)
    ensures var t := RunMoves(ls, moves).value;
            && |t| == |ls| && t[i].forwarder == Finished(true) && t[i].stream.done
            && t[i].accepted == [Error(message)] && t[i].stream.result == Some(message)
    decreases |moves|
  {
    if moves != [] {
      FailureStays(AfterMove(ls, moves[0]), moves[1..], i, message);
    }
  }

  /** The setup of level i fails with move k of a run. */
  predicate FailsAt(moves: seq<Move>, i: nat, k: nat) { k < |moves| && moves[k].SetupFails? && moves[k].i == i }

  lemma {:induction false} SetupErrorStays(ls: seq<Level>, moves: seq<Move>, i: nat, k: nat)
    requires Initial(ls) && RunMoves(ls, moves).Some? && 0 < i < |ls| && FailsAt(moves, i, k)
    ensures var t, message := RunMoves(ls, moves).value, moves[k].message;
            && |t| == |ls| && t[i].forwarder == Finished(true) && t[i].stream.done
            && t[i].accepted == [Error(message)] && t[i].stream.result == Some(message)
  {
    hide LevelCompletes, LevelConserves, Link;
    var before := moves[..k];
    RunSplit(ls, moves, k);
    InitialChain(ls);
    RunKeepsChain(ls, before);
    var s := RunMoves(ls, before).value;
    assert moves[k..][0] == moves[k];
    FreshSetup(s, i);
    FailureStays(AfterMove(s, moves[k]), moves[k..][1..], i, moves[k].message);
  }

  lemma FreshSetup(ls: seq<Level>, i: nat)
    requires ChainInvariant(ls) && 0 < i < |ls| && ls[i].forwarder.SettingUp?
    ensures ls[i].accepted == [] && !ls[i].stream.done
  {
    assert Link(ls[i - 1], ls[i]) && LevelCompletes(ls[i]);
  }

  lemma {:induction false} RunSplit(ls: seq<Level>, moves: seq<Move>, k: nat)
    requires ls != [] && RunMoves(ls, moves).Some? && k <= |moves|
    ensures RunMoves(ls, moves[..k]).Some? && RunMoves(ls, moves[..k]).value != []
    ensures RunMoves(RunMoves(ls, moves[..k]).value, moves[k..]) == RunMoves(ls, moves)
    decreases k
  {
    hide CanMove, AfterMove;
    if k == 0 {
      assert moves[0..] == moves;
    } else {
      RunSplit(AfterMove(ls, moves[0]), moves[1..], k - 1);
      assert moves[..k][1..] == moves[1..][..k - 1] && moves[k..] == moves[1..][k - 1..];
    }
  }

  /** And only a setup that failed leaves a level so. */
  lemma {:induction false} OnlySetupFails(ls: seq<Level>, moves: seq<Move>, i: nat)
    requires ls != [] && RunMoves(ls, moves).Some? && 0 < i < |ls| && ls[i].forwarder != Finished(true)
    ensures |RunMoves(ls, moves).value| == |ls|
    ensures RunMoves(ls, moves).value[i].forwarder == Finished(true) ==>
              exists k: nat :: FailsAt(moves, i, k)
    decreases |moves|
  {
    if moves != [] {
      var r := AfterMove(ls, moves[0]);
      if r[i].forwarder == Finished(true) {
        assert FailsAt(moves, i, 0);
        SameLength(r, moves[1..]);
      } else {
        OnlySetupFails(r, moves[1..], i);
        if RunMoves(ls, moves).value[i].forwarder == Finished(true) {
          var k: nat :| FailsAt(moves[1..], i, k);
          assert FailsAt(moves, i, k + 1);
        }
      }
    }
  }

  lemma {:induction false} SameLength(ls: seq<Level>, moves: seq<Move>)
    requires ls != [] && RunMoves(ls, moves).Some?
    ensures |RunMoves(ls, moves).value| == |ls|
    decreases |moves|
  {
    if moves != [] {
      SameLength(AfterMove(ls, moves[0]), moves[1..]);
    }
  }

  /**
   * A level is left failed exactly if its setup failed in the run, and then its
   * stream is completed by one event, an error with the setup's message, which
   * is the result.
   */
  lemma FailedSetupIsOneError(ls: seq<Level>, moves: seq<Move>, i: nat)
    requires Initial(ls) && RunMoves(ls, moves).Some? && 0 < i < |ls|
    ensures |RunMoves(ls, moves).value| == |ls|
    ensures RunMoves(ls, moves).value[i].forwarder == Finished(true) <==> exists k: nat :: FailsAt(moves, i, k)
    ensures forall k: nat | FailsAt(moves, i, k) ::
              var l := RunMoves(ls, moves).value[i];
              l.stream.done && l.accepted == [Error(moves[k].message)] && l.stream.result == Some(moves[k].message)
  {
    hide RunMoves;
    OnlySetupFails(ls, moves, i);
    forall k: nat | FailsAt(moves, i, k)
      ensures var l := RunMoves(ls, moves).value[i];
              && l.forwarder == Finished(true)
              && l.stream.done && l.accepted == [Error(moves[k].message)] && l.stream.result == Some(moves[k].message)
    {
      SetupErrorStays(ls, moves, i, k);
    }
  }

  // ----- Everything arrives ----------------------------------------------------------------------

  predicate IsProgress(m: Move) { !m.Produce? && !m.EndAdapter? }

  /** The moves that an event in the queue of level i of n has before it: three a level, and two at the top. */
  function Way(i: nat, n: nat): nat
    requires i < n
  {
    3 * (n - 1 - i) + 2
  }

  function Ways(events: nat, way: nat): nat { if events == 0 then 0 else way + Ways(events - 1, way) }

  /** The moves that level i still has in it. */
  function LevelRank(l: Level, i: nat, n: nat): nat
    requires i < n
  {
    Ways(|l.stream.queue|, Way(i, n)) + (if l.pumped.Some? then Way(i, n) - 1 else 0) + (if l.closed then 0 else 1) +
    match l.forwarder
    case SettingUp => Way(i, n) + 2
    case Forwarding(held) => 1 + if held.Some? then Way(i, n) + 1 else 0
    case Finished(_) => 0
  }

  function RankUpTo(ls: seq<Level>, k: nat): nat
    requires k <= |ls|
  {
    if k == 0 then 0 else RankUpTo(ls, k - 1) + LevelRank(ls[k - 1], k - 1, |ls|)
  }

  function Rank(ls: seq<Level>): nat { RankUpTo(ls, |ls|) }

  /** A change of level i alone, or of it and the one below. */
  lemma {:induction false} RankFalls(ls: seq<Level>, r: seq<Level>, i: nat, k: nat)
    requires |r| == |ls| && i < |ls| && k <= |ls|
    requires forall j | 0 <= j < |ls| && j != i && j + 1 != i :: r[j] == ls[j]
    requires LevelRank(r[i], i, |ls|) + (if i > 0 then LevelRank(r[i - 1], i - 1, |ls|) else 0)
           < LevelRank(ls[i], i, |ls|) + (if i > 0 then LevelRank(ls[i - 1], i - 1, |ls|) else 0)
    ensures k > i ==> RankUpTo(r, k) < RankUpTo(ls, k)
    ensures k < i ==> RankUpTo(r, k) == RankUpTo(ls, k)
  {
    hide LevelRank;
    if k > 0 {
      RankFalls(ls, r, i, k - 1);
      if k == i + 1 && i > 0 {
        RankFalls(ls, r, i, i - 1);
      }
    }
  }

  lemma OneMoreWay(l: Level, e: Event, way: nat)
    ensures Ways(|PushTo(l, e).stream.queue|, way) <= Ways(|l.stream.queue|, way) + way
  {
  }

  lemma SetupLowersRank(l: Level, message: Message, i: nat, n: nat)
    requires i < n && l.forwarder.SettingUp?
    ensures LevelRank(PushTo(l, Error(message)).(forwarder := Finished(true)), i, n) < LevelRank(l, i, n)
    ensures LevelRank(l.(forwarder := Forwarding(None)), i, n) < LevelRank(l, i, n)
  {
    hide Way, Ways;
    OneMoreWay(l, Error(message), Way(i, n));
  }

  lemma PumpLowersRank(l: Level, i: nat, n: nat)
    requires i < n
    ensures l.pumped.None? && l.stream.queue != [] ==>
      LevelRank(l.(pumped := Some(l.stream.queue[0]), stream := Popped(l.stream)), i, n) < LevelRank(l, i, n)
    ensures !l.closed ==> LevelRank(l.(closed := true), i, n) < LevelRank(l, i, n)
    ensures l.pumped.Some? ==> LevelRank(Taken(l), i, n) < LevelRank(l, i, n)
  {
  }

  lemma ForwarderLowersRank(l: Level, i: nat, n: nat)
    requires i < n && l.forwarder.Forwarding?
    ensures l.forwarder.held.Some? ==>
      LevelRank(PushTo(l, l.forwarder.held.value).(forwarder := Forwarding(None)), i, n) < LevelRank(l, i, n)
    ensures l.forwarder.held.None? ==>
      LevelRank(EndOf(l, None).(forwarder := Finished(false)), i, n) < LevelRank(l, i, n)
  {
    hide Way, Ways;
    if l.forwarder.held.Some? {
      OneMoreWay(l, l.forwarder.held.value, Way(i, n));
    }
  }

  /** The event that level i receives has one move less before it. */
  lemma ReceiveLowersRank(lo: Level, hi: Level, i: nat, n: nat)
    requires 0 < i < n && hi.forwarder == Forwarding(None) && lo.pumped.Some?
    ensures LevelRank(hi.(forwarder := Forwarding(lo.pumped)), i, n) + LevelRank(Taken(lo), i - 1, n)
          < LevelRank(hi, i, n) + LevelRank(lo, i - 1, n)
  {
    hide Ways;
  }

  lemma ProgressLowersRank(ls: seq<Level>, m: Move)
    requires ls != [] && CanMove(ls, m) && IsProgress(m)
    ensures Rank(AfterMove(ls, m)) < Rank(ls)
  {
    hide RankUpTo, LevelRank, Way, Ways, PushTo, EndOf, Taken, Popped;
    var r, n := AfterMove(ls, m), |ls|;
    match m
    case SetupFails(i, message) =>
      SetupLowersRank(ls[i], message, i, n);
      RankFalls(ls, r, i, n);
    case SetupSucceeds(i) =>
      SetupLowersRank(ls[i], Message("", ""), i, n);
      RankFalls(ls, r, i, n);
    case PumpTakes(i) =>
      PumpLowersRank(ls[i], i, n);
      RankFalls(ls, r, i, n);
    case PumpCloses(i) =>
      PumpLowersRank(ls[i], i, n);
      RankFalls(ls, r, i, n);
    case Receives(i) =>
      ReceiveLowersRank(ls[i - 1], ls[i], i, n);
      RankFalls(ls, r, i, n);
    case Forwards(i) =>
      ForwarderLowersRank(ls[i], i, n);
      RankFalls(ls, r, i, n);
    case EndsOuter(i) =>
      ForwarderLowersRank(ls[i], i, n);
      RankFalls(ls, r, i, n);
    case OuterReceives =>
      PumpLowersRank(ls[n - 1], n - 1, n);
      RankFalls(ls, r, n - 1, n);
  }

  /** The setup of level i failed, or all it was to forward has been forwarded; its stream is done either way. */
  predicate IsSettled(l: Level) { l.forwarder.Finished? && l.stream.done }

  ghost predicate NoProgress(ls: seq<Level>)
    requires ls != []
  {
    forall m: Move | IsProgress(m) :: !CanMove(ls, m)
  }

  lemma {:induction false} StuckIsSettled(ls: seq<Level>, i: nat)
    requires ChainInvariant(ls) && ls[0].stream.done && NoProgress(ls) && 0 < i < |ls|
    ensures IsSettled(ls[i])
    decreases i
  {
    hide LevelCompletes, LevelConserves, Link;
    if i > 1 {
      StuckIsSettled(ls, i - 1);
    }
    var lo, hi := ls[i - 1], ls[i];
    assert !CanMove(ls, SetupSucceeds(i)) && !CanMove(ls, Forwards(i)) && !CanMove(ls, EndsOuter(i));
    assert !CanMove(ls, Receives(i)) && !CanMove(ls, PumpTakes(i - 1)) && !CanMove(ls, PumpCloses(i - 1));
    assert LevelCompletes(lo) && LevelCompletes(hi) && LevelConserves(lo);
    assert Link(lo, hi);
    FinishedIsDone(lo, hi);
  }

  lemma FinishedIsDone(lo: Level, hi: Level)
    requires Link(lo, hi) && LevelCompletes(lo) && LevelCompletes(hi) && LevelConserves(lo)
    ensures hi.forwarder.Finished? ==> hi.stream.done
  {
  }

  lemma StuckIsDelivered(ls: seq<Level>)
    requires ChainInvariant(ls) && NoProgress(ls) && ls[|ls| - 1].stream.done
    ensures var top := ls[|ls| - 1]; top.closed && top.taken == top.accepted
  {
    var i := |ls| - 1;
    assert !CanMove(ls, OuterReceives) && !CanMove(ls, PumpTakes(i)) && !CanMove(ls, PumpCloses(i));
    assert LevelConserves(ls[i]);
  }

  function CountMoves(moves: seq<Move>): nat {
    if moves == [] then 0 else (if IsProgress(moves[0]) then 1 else 0) + CountMoves(moves[1..])
  }

  lemma DoneStays(ls: seq<Level>, m: Move)
    requires ls != [] && CanMove(ls, m) && ls[0].stream.done
    ensures AfterMove(ls, m)[0].stream.done
    ensures !IsProgress(m) ==> AfterMove(ls, m) == ls
  {
  }

  /**
   * Once the adapter's own stream is done, every move of the setups, pumps,
   * forwarders and the consumer lowers a rank that nothing raises; and when none
   * of them can move, every level is done and settled, and the consumer of the
   * outermost stream has received all that it accepted and seen it closed.
   */
  lemma {:induction false} CompletedChainDrains(ls: seq<Level>, moves: seq<Move>)
    requires ChainInvariant(ls) && ls[0].stream.done && RunMoves(ls, moves).Some?
    ensures var t := RunMoves(ls, moves).value;
            && |t| == |ls| && CountMoves(moves) + Rank(t) <= Rank(ls)
            && (NoProgress(t) ==>
                  && (forall i | 0 < i < |t| :: IsSettled(t[i]))
                  && t[|t| - 1].closed && t[|t| - 1].taken == t[|t| - 1].accepted)
    decreases |moves|
  {
    hide CanMove, AfterMove, ChainInvariant, IsProgress, Rank, NoProgress, IsSettled;
    NotEmpty(ls);
    if moves == [] {
      if NoProgress(ls) {
        Settled(ls);
      }
    } else {
      MoveKeepsChain(ls, moves[0]);
      DoneStays(ls, moves[0]);
      if IsProgress(moves[0]) {
        ProgressLowersRank(ls, moves[0]);
      }
      CompletedChainDrains(AfterMove(ls, moves[0]), moves[1..]);
    }
  }

  lemma NotEmpty(ls: seq<Level>)
    requires ChainInvariant(ls)
    ensures ls != []
  {
  }

  lemma Settled(ls: seq<Level>)
    requires ChainInvariant(ls) && ls[0].stream.done && NoProgress(ls)
    ensures forall i | 0 < i < |ls| :: IsSettled(ls[i])
    ensures ls[|ls| - 1].closed && ls[|ls| - 1].taken == ls[|ls| - 1].accepted
  {
    hide LevelConserves, LevelCompletes, Link, NoProgress, ChainInvariant;
    NotEmpty(ls);
    forall i | 0 < i < |ls| ensures IsSettled(ls[i]) {
      StuckIsSettled(ls, i);
    }
    assert |ls| > 1 ==> IsSettled(ls[|ls| - 1]);
    StuckIsDelivered(ls);
  }
}
