/**
 * The pump of a lazy stream's level, in its three moves, against the pump
 * goroutine step by step: an uncancelled run of the one is a run of the other.
 */
module PumpRefinement {
  import opened Wrappers
  import opened EventStream
  import opened StreamPump
  import L = LazyStream

  /** A stream with its pump and consumer, as a level that an adapter feeds. */
  function LevelOf(s: System): L.Level {
    L.Level(s.stream, s.accepted, s.ended, L.Finished(false), s.delivered,
            if s.pump.Sending? then Some(s.pump.held) else None, s.pump == Closed)
  }

  /** The move that a step is; most of them are none. */
  function MoveOf(step: Step): seq<L.Move> {
    match step
    case Push(e) => [L.Produce(e)]
    case End(r) => [L.EndAdapter(r)]
    case PumpPops => [L.PumpTakes(0)]
    case PumpClosesChannel => [L.PumpCloses(0)]
    case ConsumerReceives => [L.OuterReceives]
    case _ => []
  }

  function MovesOf(steps: seq<Step>): seq<L.Move> {
    if steps == [] then [] else MoveOf(steps[0]) + MovesOf(steps[1..])
  }

  /** One step is its move, or leaves the level as it is. */
  lemma StepIsMove(s: System, step: Step)
    requires Invariant(s) && !s.cancelled && Enabled(s, step) && !step.Cancel?
    ensures !After(s, step).cancelled
    ensures var ls, rs := [LevelOf(s)], [LevelOf(After(s, step))];
            if MoveOf(step) == [] then rs == ls
            else L.CanMove(ls, MoveOf(step)[0]) && L.AfterMove(ls, MoveOf(step)[0]) == rs
  {
  }

  lemma {:induction false} MovesAppend(ls: seq<L.Level>, a: seq<L.Move>, b: seq<L.Move>)
    requires ls != [] && |a| <= 1 && (a != [] ==> L.CanMove(ls, a[0]))
    ensures L.RunMoves(ls, a + b) == L.RunMoves(if a == [] then ls else L.AfterMove(ls, a[0]), b)
  {
    hide L.CanMove, L.AfterMove;
    if a == [] {
      assert a + b == b;
    } else {
      assert (a + b)[1..] == b;
    }
  }

  /** Every uncancelled run of the pump and the others around its stream is a run of the level's moves. */
  lemma {:induction false} RunIsMoves(s: System, steps: seq<Step>)
    requires Invariant(s) && !s.cancelled && Run(s, steps).Some? && forall step | step in steps :: !step.Cancel?
    ensures L.RunMoves([LevelOf(s)], MovesOf(steps)) == Some([LevelOf(Run(s, steps).value)])
    decreases |steps|
  {
    hide Enabled, After, Invariant, L.CanMove, L.AfterMove, MoveOf, LevelOf;
    if steps != [] {
      assert steps[0] in steps;
      StepIsMove(s, steps[0]);
      StepKeepsInvariant(s, steps[0]);
      RunIsMoves(After(s, steps[0]), steps[1..]);
      AtMostOneMove(steps[0]);
      MovesAppend([LevelOf(s)], MoveOf(steps[0]), MovesOf(steps[1..]));
    }
  }

  lemma AtMostOneMove(step: Step)
    ensures |MoveOf(step)| <= 1
  {
  }

  // ----- And the pump gets to every move that the level may make ----------------------------------

  /** The pump's next step by itself, when there is something for it to do. */
  function NextStep(s: System): Step {
    match s.pump
    case Acquiring => PumpLocks
    case Woken => PumpRelocks
    case AtLoopHead => PumpSeesLive
    case ContextLive => if s.stream.queue != [] then PumpPops else PumpSeesDone
    case Stopping => PumpClosesStop
    case _ => PumpClosesChannel
  }

  function StepsLeft(pump: PumpPc): nat {
    match pump
    case Acquiring => 5
    case Woken => 5
    case AtLoopHead => 4
    case ContextLive => 3
    case Stopping => 2
    case _ => 1
  }

  /** The next step can be taken; it is the move, or brings the pump nearer to it. */
  lemma NextStepLeadsOn(s: System, m: L.Move)
    requires Invariant(s) && !s.cancelled
    requires (m == L.PumpTakes(0) || m == L.PumpCloses(0)) && L.CanMove([LevelOf(s)], m)
    ensures Enabled(s, NextStep(s)) && !NextStep(s).Cancel?
    ensures MoveOf(NextStep(s)) == [m] || (MoveOf(NextStep(s)) == [] && StepsLeft(After(s, NextStep(s)).pump) < StepsLeft(s.pump))
  {
  }

  /**
   * Whenever the level's pump may take an event or close, the pump goroutine
   * gets to do so in at most five steps of its own, which are no other move.
   */
  lemma {:induction false} PumpGetsThere(s: System, m: L.Move) returns (steps: seq<Step>)
    requires Invariant(s) && !s.cancelled
    requires (m == L.PumpTakes(0) || m == L.PumpCloses(0)) && L.CanMove([LevelOf(s)], m)
    ensures |steps| <= StepsLeft(s.pump) && (forall step | step in steps :: IsOwn(step))
    ensures Run(s, steps).Some? && MovesOf(steps) == [m]
    decreases StepsLeft(s.pump)
  {
    hide Invariant, L.CanMove, LevelOf, MoveOf, Enabled, After, StepsLeft;
    var step := NextStep(s);
    NextStepLeadsOn(s, m);
    NextIsOwn(s);
    AlwaysOneLeft(s.pump);
    var t := After(s, step);
    var rest: seq<Step> := [];
    StepIsMove(s, step);
    if MoveOf(step) == [] {
      StepKeepsInvariant(s, step);
      SameLevelSameMoves(s, t, m);
      rest := PumpGetsThere(t, m);
    }
    steps := [step] + rest;
    RunOne(s, step, rest);
  }

  lemma NextIsOwn(s: System)
    ensures IsOwn(NextStep(s))
  {
  }

  lemma AlwaysOneLeft(pump: PumpPc)
    ensures StepsLeft(pump) >= 1
  {
  }

  lemma SameLevelSameMoves(s: System, t: System, m: L.Move)
    requires [LevelOf(s)] == [LevelOf(t)] && L.CanMove([LevelOf(s)], m)
    ensures L.CanMove([LevelOf(t)], m)
  {
  }

  lemma RunOne(s: System, step: Step, rest: seq<Step>)
    requires Enabled(s, step)
    ensures Run(s, [step] + rest) == Run(After(s, step), rest)
    ensures MovesOf([step] + rest) == MoveOf(step) + MovesOf(rest)
  {
    assert ([step] + rest)[1..] == rest;
  }

  // ----- At every level --------------------------------------------------------------------------------

  /** The pump of level i is there: the goroutine above it has finished its setup, or it is the outermost. */
  predicate HasPump(ls: seq<L.Level>, i: nat)
    requires i < |ls|
  {
    i + 1 < |ls| ==> ls[i + 1].forwarder.Forwarding?
  }

  /** Level i of a chain moves as a stream of its own does; its consumer is the goroutine above, if there is one. */
  lemma LevelsMoveAlike(ls: seq<L.Level>, i: nat)
    requires i < |ls| && HasPump(ls, i)
    ensures L.CanMove(ls, L.PumpTakes(i)) <==> L.CanMove([ls[i]], L.PumpTakes(0))
    ensures L.CanMove(ls, L.PumpCloses(i)) <==> L.CanMove([ls[i]], L.PumpCloses(0))
    ensures L.CanMove(ls, L.PumpTakes(i)) ==>
              L.AfterMove(ls, L.PumpTakes(i)) == ls[i := L.AfterMove([ls[i]], L.PumpTakes(0))[0]]
    ensures L.CanMove(ls, L.PumpCloses(i)) ==>
              L.AfterMove(ls, L.PumpCloses(i)) == ls[i := L.AfterMove([ls[i]], L.PumpCloses(0))[0]]
    ensures i + 1 < |ls| && L.CanMove(ls, L.Receives(i + 1)) ==>
              && L.CanMove([ls[i]], L.OuterReceives)
              && L.AfterMove(ls, L.Receives(i + 1))[i] == L.AfterMove([ls[i]], L.OuterReceives)[0]
              && L.AfterMove(ls, L.Receives(i + 1))[i + 1].forwarder == L.Forwarding(ls[i].pumped)
    ensures i + 1 == |ls| ==>
              && (L.CanMove(ls, L.OuterReceives) <==> L.CanMove([ls[i]], L.OuterReceives))
              && (L.CanMove(ls, L.OuterReceives) ==>
                    L.AfterMove(ls, L.OuterReceives) == ls[i := L.AfterMove([ls[i]], L.OuterReceives)[0]])
  {
  }
}
