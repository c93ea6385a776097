/**
 * A stream with one consumer, as a transition system: producers, the pump
 * goroutine that Events starts, the watcher that turns a cancellation into a
 * broadcast, the consumer, and the canceller, interleaved at every point where
 * the mutex, the condition variable or a channel lets them.
 */
module StreamPump {
  import opened Wrappers
  import opened EventStream

  datatype Owner = Free | ByPump | ByWatcher

  datatype PumpPc =
    | Acquiring            // next wants the mutex
    | AtLoopHead           // holds it, about to look at the context
    | ContextLive          // holds it, has seen the context live
    | Parked               // asleep on the condition variable
    | Woken                // notified, wants the mutex back
    | Sending(held: Event) // has an event, selects between the consumer and the context
    | Stopping             // left the loop, stop not yet closed
    | StopClosed           // stop closed, the events channel not yet
    | Closed

  datatype WatcherPc = Watching | WantsLock | Broadcasting | WatcherGone

  datatype System = System(
    stream: State,
    owner: Owner,
    pump: PumpPc,
    watcher: WatcherPc,
    cancelled: bool,
    accepted: seq<Event>,           // pushed while the stream was open
    ended: Option<Option<Message>>, // the End that completed the stream
    delivered: seq<Event>,          // received by the consumer
    dropped: seq<Event>)            // held by the pump when it gave up

  datatype Step =
    | Push(event: Event)
    | End(result: Option<Message>)
    | Cancel
    | PumpLocks
    | PumpSeesCancelled
    | PumpSeesLive
    | PumpPops
    | PumpSeesDone
    | PumpParks
    | PumpRelocks
    | ConsumerReceives
    | PumpGivesUp
    | PumpClosesStop
    | PumpClosesChannel
    | WatcherSeesCancel
    | WatcherSeesStop
    | WatcherLocks
    | WatcherBroadcasts

  const INITIAL := System(OPEN, Free, Acquiring, Watching, false, [], None, [], [])

  predicate Enabled(s: System, step: Step) {
    match step
    case Push(_) => s.owner == Free
    case End(_) => s.owner == Free
    case Cancel => true
    case PumpLocks => s.pump == Acquiring && s.owner == Free
    case PumpSeesCancelled => s.pump == AtLoopHead && s.cancelled
    case PumpSeesLive => s.pump == AtLoopHead && !s.cancelled
    case PumpPops => s.pump == ContextLive && s.stream.queue != []
    case PumpSeesDone => s.pump == ContextLive && s.stream.queue == [] && s.stream.done
    case PumpParks => s.pump == ContextLive && s.stream.queue == [] && !s.stream.done
    case PumpRelocks => s.pump == Woken && s.owner == Free
    case ConsumerReceives => s.pump.Sending?
    case PumpGivesUp => s.pump.Sending? && s.cancelled
    case PumpClosesStop => s.pump == Stopping
    case PumpClosesChannel => s.pump == StopClosed
    case WatcherSeesCancel => s.watcher == Watching && s.cancelled
    case WatcherSeesStop => s.watcher == Watching && IsStopClosed(s)
    case WatcherLocks => s.watcher == WantsLock && s.owner == Free
    case WatcherBroadcasts => s.watcher == Broadcasting
  }

  predicate IsStopClosed(s: System) { s.pump == StopClosed || s.pump == Closed }

  /** cond.Broadcast */
  function Notified(pump: PumpPc): PumpPc { if pump == Parked then Woken else pump }

  function After(s: System, step: Step): System
    requires Enabled(s, step)
  {
    match step
    case Push(e) =>
      if s.stream.done then s
      else s.(stream := Pushed(s.stream, e), accepted := s.accepted + [e], pump := Notified(s.pump))
    case End(r) =>
      if s.stream.done then s
      else s.(stream := Ended(s.stream, r), ended := Some(r), pump := Notified(s.pump))
    case Cancel => s.(cancelled := true)
    case PumpLocks => s.(owner := ByPump, pump := AtLoopHead)
    case PumpSeesCancelled => s.(owner := Free, pump := Stopping)
    case PumpSeesLive => s.(pump := ContextLive)
    case PumpPops => s.(owner := Free, pump := Sending(s.stream.queue[0]), stream := Popped(s.stream))
    case PumpSeesDone => s.(owner := Free, pump := Stopping)
    case PumpParks => s.(owner := Free, pump := Parked)
    case PumpRelocks => s.(owner := ByPump, pump := AtLoopHead)
    case ConsumerReceives => s.(pump := Acquiring, delivered := s.delivered + [s.pump.held])
    case PumpGivesUp => s.(pump := Stopping, dropped := [s.pump.held])
    case PumpClosesStop => s.(pump := StopClosed)
    case PumpClosesChannel => s.(pump := Closed)
    case WatcherSeesCancel => s.(watcher := WantsLock)
    case WatcherSeesStop => s.(watcher := WatcherGone)
    case WatcherLocks => s.(watcher := Broadcasting, owner := ByWatcher)
    case WatcherBroadcasts => s.(watcher := WatcherGone, owner := Free, pump := Notified(s.pump))
  }

  /** The state that a run of steps leads to; None when one of them was not enabled. */
  function Run(s: System, steps: seq<Step>): Option<System>
    decreases |steps|
  {
    if steps == [] then Some(s)
    else if Enabled(s, steps[0]) then Run(After(s, steps[0]), steps[1..])
    else None
  }

  // ----- The invariant ---------------------------------------------------------------

  /** Who holds the mutex, and what the watcher has seen. */
  predicate LocksAgree(s: System) {
    && (s.owner == ByPump <==> s.pump == AtLoopHead || s.pump == ContextLive)
    && (s.owner == ByWatcher <==> s.watcher == Broadcasting)
    && (s.watcher == WantsLock || s.watcher == Broadcasting ==> s.cancelled)
    && (s.watcher == WatcherGone ==> s.cancelled || IsStopClosed(s))
  }

  /**
   * No lost wakeup: a pump that is asleep, un-notified, has nothing to do, and
   * if the context is cancelled then the watcher's broadcast is still to come.
   */
  predicate NoLostWakeup(s: System) {
    s.pump == Parked ==>
      s.stream.queue == [] && !s.stream.done && (s.cancelled ==> s.watcher != WatcherGone)
  }

  /** The same window one step earlier: the pump has seen the context live and not yet slept. */
  predicate NoMissedCancel(s: System) {
    s.pump == ContextLive && s.cancelled ==> s.watcher != WatcherGone
  }

  function Held(s: System): seq<Event> { if s.pump.Sending? then [s.pump.held] else [] }

  /** Every accepted event is delivered, dropped on a cancel, held by the pump, or queued, in order. */
  predicate Conserved(s: System) {
    && s.accepted == s.delivered + s.dropped + Held(s) + s.stream.queue
    && |s.dropped| <= 1
    && (s.dropped != [] ==> s.cancelled && HasStopped(s))
  }

  predicate HasStopped(s: System) { s.pump == Stopping || s.pump == StopClosed || s.pump == Closed }

  /** A pump that stops without a cancel has delivered the whole of a completed stream. */
  predicate StopsInOrder(s: System) {
    HasStopped(s) ==> s.cancelled || (s.stream.done && s.stream.queue == [])
  }

  predicate EndsWithTerminal(events: seq<Event>) { events != [] && IsTerminal(events[|events| - 1]) }

  /**
   * A terminal event comes last and at most once; the stream is done when one
   * was accepted or it was ended, and its result is that event's or that End's.
   */
  predicate CompletesOnce(s: System) {
    && (forall i | 0 <= i < |s.accepted| - 1 :: !IsTerminal(s.accepted[i]))
    && (s.ended.Some? ==> !EndsWithTerminal(s.accepted))
    && s.stream.done == (s.ended.Some? || EndsWithTerminal(s.accepted))
    && s.stream.result == if s.ended.Some? then s.ended.value
                          else if EndsWithTerminal(s.accepted) then EventResult(s.accepted[|s.accepted| - 1])
                          else None
  }

  predicate Invariant(s: System) {
    && LocksAgree(s) && NoLostWakeup(s) && NoMissedCancel(s)
    && Conserved(s) && StopsInOrder(s) && CompletesOnce(s)
  }

  lemma StepKeepsInvariant(s: System, step: Step)
    requires Invariant(s) && Enabled(s, step)
    ensures Invariant(After(s, step))
  {
    StepKeepsLocks(s, step);
    StepConserves(s, step);
    StepCompletesOnce(s, step);
  }

  lemma StepKeepsLocks(s: System, step: Step)
    requires LocksAgree(s) && NoLostWakeup(s) && NoMissedCancel(s) && StopsInOrder(s) && Enabled(s, step)
    ensures var t := After(s, step); LocksAgree(t) && NoLostWakeup(t) && NoMissedCancel(t) && StopsInOrder(t)
  {
  }

  lemma StepConserves(s: System, step: Step)
    requires Conserved(s) && Enabled(s, step)
    ensures Conserved(After(s, step))
  {
  }

  lemma StepCompletesOnce(s: System, step: Step)
    requires CompletesOnce(s) && Enabled(s, step)
    ensures CompletesOnce(After(s, step))
  {
  }

  /** The invariant holds in every reachable state. */
  lemma {:induction false} RunKeepsInvariant(s: System, steps: seq<Step>)
    requires Invariant(s) && Run(s, steps).Some?
    ensures Invariant(Run(s, steps).value)
    decreases |steps|
  {
    if steps != [] {
      StepKeepsInvariant(s, steps[0]);
      RunKeepsInvariant(After(s, steps[0]), steps[1..]);
    }
  }

  lemma ReachableInvariant(steps: seq<Step>)
    requires Run(INITIAL, steps).Some?
    ensures Invariant(Run(INITIAL, steps).value)
  {
    RunKeepsInvariant(INITIAL, steps);
  }

  // ----- What a consumer sees ------------------------------------------------------------

  ghost predicate CanFree(s: System) { exists step :: Enabled(s, step) && After(s, step).owner == Free }

  /**
   * Nobody keeps the lock: its holder frees it by its next step or the one after.
   * While it is free a producer can push or end, and a cancel can come at any time.
   */
  lemma LockComesFree(steps: seq<Step>)
    requires Run(INITIAL, steps).Some?
    ensures var t := Run(INITIAL, steps).value;
            && (t.owner == Free ==> (forall e :: Enabled(t, Push(e))) && forall r :: Enabled(t, End(r)))
            && Enabled(t, Cancel)
            && (t.owner != Free ==> CanFree(t) || (Enabled(t, PumpSeesLive) && CanFree(After(t, PumpSeesLive))))
  {
    ReachableInvariant(steps);
    var t := Run(INITIAL, steps).value;
    if t.owner == ByWatcher {
      assert After(t, WatcherBroadcasts).owner == Free;
    } else if t.owner == ByPump {
      if t.pump == AtLoopHead && t.cancelled {
        assert After(t, PumpSeesCancelled).owner == Free;
      } else {
        var u := if t.pump == AtLoopHead then After(t, PumpSeesLive) else t;
        var step := if u.stream.queue != [] then PumpPops else if u.stream.done then PumpSeesDone else PumpParks;
        assert After(u, step).owner == Free;
      }
    }
  }

  /** The consumer receives the accepted events in order, without loss or repetition. */
  lemma DeliveredInOrder(steps: seq<Step>)
    requires Run(INITIAL, steps).Some?
    ensures Run(INITIAL, steps).value.delivered <= Run(INITIAL, steps).value.accepted
  {
    ReachableInvariant(steps);
  }

  /** When the channel has closed and nothing was cancelled, it has delivered a completed stream whole. */
  lemma ClosedMeansDrained(steps: seq<Step>)
    requires Run(INITIAL, steps).Some?
    ensures var s := Run(INITIAL, steps).value;
            s.pump == Closed && !s.cancelled ==> s.stream.done && s.delivered == s.accepted
  {
    ReachableInvariant(steps);
  }

  /**
   * In every reachable state: the stream is done exactly if it was ended or its
   * last accepted event is a done or an error event, none before is, and the
   * result is that event's message, or what the End brought.
   */
  lemma ResultIsLastMessage(steps: seq<Step>)
    requires Run(INITIAL, steps).Some?
    ensures var s := Run(INITIAL, steps).value; var n := |s.accepted|;
            && (n > 0 && s.accepted[n - 1].Done? ==> s.stream.result == Some(s.accepted[n - 1].message))
            && (n > 0 && s.accepted[n - 1].Error? ==> s.stream.result == Some(s.accepted[n - 1].message))
            && (n > 0 && !s.accepted[n - 1].Update? ==> s.stream.done && s.ended.None?)
            && (s.ended.Some? ==> s.stream.done && s.stream.result == s.ended.value)
            && (s.ended.None? && (n == 0 || s.accepted[n - 1].Update?) ==> !s.stream.done && s.stream.result.None?)
            && forall i | 0 <= i < n - 1 :: s.accepted[i].Update?
  {
    hide LocksAgree, NoLostWakeup, NoMissedCancel, Conserved, StopsInOrder;
    ReachableInvariant(steps);
  }

  // ----- Told from the calls ---------------------------------------------------------------

  function CallOf(step: Step): seq<Call> {
    match step
    case Push(e) => [Pushes(e)]
    case End(r) => [Ends(r)]
    case _ => []
  }

  /** The calls of Push and End in a run. */
  function CallsIn(steps: seq<Step>): seq<Call> {
    if steps == [] then [] else CallOf(steps[0]) + CallsIn(steps[1..])
  }

  /** The events of the calls up to the completing one. */
  function Accepted(calls: seq<Call>): seq<Event> {
    if calls == [] || calls[0].Ends? then []
    else [calls[0].event] + if calls[0].event.Update? then Accepted(calls[1..]) else []
  }

  lemma StepAcceptsCall(s: System, step: Step)
    requires Enabled(s, step) && !s.stream.done
    ensures var t := After(s, step);
            && t.accepted == s.accepted + Accepted(CallOf(step)) && t.stream.done == Outcome(CallOf(step)).Some?
            && (t.stream.done ==> t.stream.result == Outcome(CallOf(step)).value)
            && (!t.stream.done ==> t.stream.result == s.stream.result)
  {
    hide Enabled;
    assert s.accepted + [] == s.accepted;
  }

  lemma AtMostOneCall(step: Step)
    ensures |CallOf(step)| <= 1
  {
  }

  lemma CallFirst(one: seq<Call>, rest: seq<Call>)
    requires |one| <= 1
    ensures if Outcome(one).Some? then Outcome(one + rest) == Outcome(one) && Accepted(one + rest) == Accepted(one)
            else Outcome(one + rest) == Outcome(rest) && Accepted(one + rest) == Accepted(one) + Accepted(rest)
  {
    if one == [] {
      assert [] + rest == rest;
    } else {
      OneCall(one[0], rest);
      OneCall(one[0], []);
      assert [one[0]] + rest == one + rest && [one[0]] + [] == one;
    }
  }

  lemma OneCall(c: Call, rest: seq<Call>)
    ensures Outcome([c] + rest) ==
              match c
              case Pushes(Update(_)) => Outcome(rest)
              case Pushes(e) => Some(EventResult(e))
              case Ends(r) => Some(r)
    ensures Accepted([c] + rest) ==
              match c
              case Pushes(Update(_)) => [c.event] + Accepted(rest)
              case Pushes(e) => [e]
              case Ends(_) => []
  {
    assert ([c] + rest)[1..] == rest;
  }

  /**
   * Whatever pump, watcher and consumer do in between, the stream accepts the
   * events up to the first completing call, and keeps what that leaves.
   */
  lemma {:induction false} RunAcceptsCalls(s: System, steps: seq<Step>)
    requires Run(s, steps).Some? && !s.stream.done && s.stream.result.None?
    ensures var t, calls := Run(s, steps).value, CallsIn(steps);
            && t.accepted == s.accepted + Accepted(calls)
            && t.stream.done == Outcome(calls).Some?
            && t.stream.result == if Outcome(calls).Some? then Outcome(calls).value else None
    decreases |steps|
  {
    if steps == [] {
      assert s.accepted + [] == s.accepted;
    } else {
      hide Enabled, After, Outcome, CallOf, Accepted;
      var t, rest := After(s, steps[0]), CallsIn(steps[1..]);
      StepAcceptsCall(s, steps[0]);
      AtMostOneCall(steps[0]);
      CallFirst(CallOf(steps[0]), rest);
      if t.stream.done {
        CompletionIsFinal(t, steps[1..]);
      } else {
        RunAcceptsCalls(t, steps[1..]);
        assert (s.accepted + Accepted(CallOf(steps[0]))) + Accepted(rest)
            == s.accepted + (Accepted(CallOf(steps[0])) + Accepted(rest));
      }
    }
  }

  /** From the start: result and accepted events are those of the first completing call of the run. */
  lemma ReachableResult(steps: seq<Step>, k: nat)
    requires Run(INITIAL, steps).Some? && CompletesAt(CallsIn(steps), k)
    ensures var s, calls := Run(INITIAL, steps).value, CallsIn(steps);
            && s.stream.done && s.accepted == Accepted(calls)
            && match calls[k]
               case Pushes(Done(m)) => s.stream.result == Some(m)
               case Pushes(Error(m)) => s.stream.result == Some(m)
               case Ends(r) => s.stream.result == r
               case _ => false
  {
    hide Run, Outcome, CompletesAt;
    RunAcceptsCalls(INITIAL, steps);
    OutcomeIsFirst(CallsIn(steps));
  }

  /** Once the stream is done, no run changes what it accepted or its result. */
  lemma {:induction false} CompletionIsFinal(s: System, steps: seq<Step>)
    requires s.stream.done && Run(s, steps).Some?
    ensures var t := Run(s, steps).value;
            t.stream.done && t.accepted == s.accepted && t.stream.result == s.stream.result
    decreases |steps|
  {
    if steps != [] {
      CompletionIsFinal(After(s, steps[0]), steps[1..]);
    }
  }

  // ----- The pump always gets to its end -------------------------------------------------

  /** Steps that the pump and the watcher take on their own. */
  predicate IsOwn(step: Step) {
    !step.Push? && !step.End? && !step.Cancel? && !step.ConsumerReceives?
  }

  function WatcherRank(w: WatcherPc): nat {
    match w
    case Watching => 3
    case WantsLock => 2
    case Broadcasting => 1
    case WatcherGone => 0
  }

  /** How many own steps a cancelled stream's pump and watcher can still take. */
  function CancelRank(s: System): nat {
    WatcherRank(s.watcher) +
    match s.pump
    case Closed => 0
    case StopClosed => 1
    case Stopping => 2
    case AtLoopHead => 3
    case Acquiring => 4
    case Woken => 4
    case Sending(_) => 5
    case Parked => 6
    case ContextLive => 7
  }

  /** How many steps, the consumer's among them, empty a completed stream. */
  function DrainRank(s: System): nat {
    8 * |s.stream.queue| + WatcherRank(s.watcher) +
    match s.pump
    case Closed => 0
    case StopClosed => 1
    case Stopping => 2
    case ContextLive => 3
    case AtLoopHead => 4
    case Acquiring => 5
    case Woken => 5
    case Sending(_) => 6
    case Parked => 7
  }

  function CountOwn(steps: seq<Step>): nat {
    if steps == [] then 0 else (if IsOwn(steps[0]) then 1 else 0) + CountOwn(steps[1..])
  }

  function CountProgress(steps: seq<Step>): nat {
    if steps == [] then 0
    else (if IsProgress(steps[0]) then 1 else 0) + CountProgress(steps[1..])
  }

  /** A step that the pump or the watcher can take now. */
  function OwnStep(s: System): Step {
    if s.owner == ByWatcher then WatcherBroadcasts
    else match s.pump
      case Acquiring => PumpLocks
      case AtLoopHead => if s.cancelled then PumpSeesCancelled else PumpSeesLive
      case ContextLive =>
        if s.stream.queue != [] then PumpPops else if s.stream.done then PumpSeesDone else PumpParks
      case Parked => if s.watcher == Watching then WatcherSeesCancel else WatcherLocks
      case Woken => PumpRelocks
      case Sending(_) => PumpGivesUp
      case Stopping => PumpClosesStop
      case StopClosed => PumpClosesChannel
      case Closed => WatcherSeesStop
  }

  /** After a cancel the pump is never stuck, whatever the consumer and the producers do. */
  lemma CancelledPumpCanMove(s: System)
    requires Invariant(s) && s.cancelled && s.pump != Closed
    ensures IsOwn(OwnStep(s)) && Enabled(s, OwnStep(s))
  {
  }

  lemma CancelledStep(s: System, step: Step)
    requires s.cancelled && Enabled(s, step)
    ensures After(s, step).cancelled
    ensures CancelRank(After(s, step)) + (if IsOwn(step) then 1 else 0) <= CancelRank(s)
  {
  }

  lemma ClosedWatcherCanMove(s: System)
    requires Invariant(s) && s.pump == Closed && s.watcher != WatcherGone
    ensures exists step | IsOwn(step) :: Enabled(s, step)
  {
    var step := match s.watcher case Watching => WatcherSeesStop case WantsLock => WatcherLocks case _ => WatcherBroadcasts;
    assert IsOwn(step) && Enabled(s, step);
  }

  /**
   * From a cancelled state the pump and the watcher take at most CancelRank own
   * steps, which is ten at most, and if they can take none then both are gone.
   */
  lemma {:induction false} CancelledPumpExits(s: System, steps: seq<Step>)
    requires Invariant(s) && s.cancelled && Run(s, steps).Some?
    ensures var t := Run(s, steps).value;
            && CountOwn(steps) + CancelRank(t) <= CancelRank(s) <= 10
            && ((forall step | IsOwn(step) :: !Enabled(t, step)) ==> t.pump == Closed && t.watcher == WatcherGone)
    decreases |steps|
  {
    hide Enabled, After, Invariant, IsOwn, OwnStep;
    if steps != [] {
      StepKeepsInvariant(s, steps[0]);
      CancelledStep(s, steps[0]);
      CancelledPumpExits(After(s, steps[0]), steps[1..]);
    } else if s.pump != Closed {
      CancelledPumpCanMove(s);
    } else if s.watcher != WatcherGone {
      ClosedWatcherCanMove(s);
    }
  }

  predicate IsProgress(step: Step) { IsOwn(step) || step.ConsumerReceives? }

  lemma CompletedStep(s: System, step: Step)
    requires Invariant(s) && s.stream.done && Enabled(s, step)
    ensures After(s, step).stream.done
    ensures DrainRank(After(s, step)) + (if IsProgress(step) then 1 else 0) <= DrainRank(s)
  {
    hide Conserved, CompletesOnce, StopsInOrder;
  }

  lemma CompletedPumpCanMove(s: System)
    requires Invariant(s) && s.stream.done && s.pump != Closed
    ensures exists step | IsProgress(step) :: Enabled(s, step)
  {
    var step := if s.pump.Sending? then ConsumerReceives else OwnStep(s);
    assert IsProgress(step) && Enabled(s, step);
  }

  /**
   * From a completed stream the pump drains: every own step and every receive
   * lowers the rank, nothing raises it, and when none is left the channel is closed.
   */
  lemma {:induction false} CompletedStreamDrains(s: System, steps: seq<Step>)
    requires Invariant(s) && s.stream.done && Run(s, steps).Some?
    ensures var t := Run(s, steps).value;
            && CountProgress(steps) + DrainRank(t) <= DrainRank(s)
            && ((forall step | IsProgress(step) :: !Enabled(t, step)) ==> t.pump == Closed)
    decreases |steps|
  {
    hide Enabled, After, Invariant, IsProgress, DrainRank;
    if steps != [] {
      StepKeepsInvariant(s, steps[0]);
      CompletedStep(s, steps[0]);
      CompletedStreamDrains(After(s, steps[0]), steps[1..]);
    } else if s.pump != Closed {
      CompletedPumpCanMove(s);
    }
  }

  // ----- One pass of next ----------------------------------------------------------------------

  /** The pump holds the mutex and has not yet decided what to do. */
  predicate InPass(s: System) { s.pump == AtLoopHead || s.pump == ContextLive }

  /** Steps of anyone, from here up to the one with which the pump leaves the pass. */
  predicate OnePass(s: System, steps: seq<Step>)
    decreases |steps|
  {
    && InPass(s) && steps != [] && Enabled(s, steps[0])
    && var t := After(s, steps[0]);
       if |steps| == 1 then !InPass(t) else OnePass(t, steps[1..])
  }

  /** The pump is where a pass over the stream puts it: about to send, on the way out, or asleep. */
  predicate PassEnds(stream: State, t: System, cancelled: bool) {
    match NextPass(stream, cancelled)
    case Event(e) => t.pump == Sending(e) && t.stream == Popped(stream)
    case Over => t.pump == Stopping && t.stream == stream
    case Wait => t.pump == Parked && t.stream == stream
  }

  lemma {:induction false} LivePassIsNext(s: System, steps: seq<Step>)
    requires LocksAgree(s) && OnePass(s, steps) && s.pump == ContextLive
    ensures Run(s, steps).Some? && PassEnds(s.stream, Run(s, steps).value, false)
    decreases |steps|
  {
    var t := After(s, steps[0]);
    if |steps| == 1 {
      assert Run(t, steps[1..]) == Some(t);
    } else {
      LivePassIsNext(t, steps[1..]);
    }
  }

  /**
   * However the other goroutines move in between, one pass of the pump does what
   * next does in one go: to the stream as it was when the pass began, with a
   * context that is cancelled if it was at the beginning, and only if it is by the end.
   */
  lemma {:induction false} PumpPassIsNext(s: System, steps: seq<Step>)
    requires LocksAgree(s) && OnePass(s, steps) && s.pump == AtLoopHead
    ensures Run(s, steps).Some?
    ensures var t := Run(s, steps).value;
            exists cancelled: bool ::
              (s.cancelled ==> cancelled) && (cancelled ==> t.cancelled) && PassEnds(s.stream, t, cancelled)
    decreases |steps|
  {
    hide PassEnds;
    var t := After(s, steps[0]);
    if steps[0].PumpSeesCancelled? {
      assert Run(t, steps[1..]) == Some(t);
      assert PassEnds(s.stream, t, true) by { CancelledPassEnds(s, t); }
    } else if steps[0].PumpSeesLive? {
      LivePassIsNext(t, steps[1..]);
    } else {
      PumpPassIsNext(t, steps[1..]);
    }
  }

  lemma CancelledPassEnds(s: System, t: System)
    requires t.pump == Stopping && t.stream == s.stream
    ensures PassEnds(s.stream, t, true)
  {
  }
}
