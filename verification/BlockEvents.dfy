/**
 * The unified event protocol of content blocks, with the monitor that says
 * which event sequences keep it.
 */
module BlockEvents {
  import opened Wrappers
  import opened JsonText

  datatype Kind = IsText | IsThinking | IsTool

  /** A block of the assistant message that a decoder assembles. */
  datatype Content =
    | TextBlock(text: string, signature: string)
    | ThinkingBlock(text: string, signature: string, redacted: bool)
    | ToolBlock(id: string, name: string, arguments: Value, signature: string)

  function KindOf(c: Content): Kind {
    if c.TextBlock? then IsText else if c.ThinkingBlock? then IsThinking else IsTool
  }

  /** The same block, apart from the arguments of a call. */
  predicate SameButArguments(a: Content, b: Content) {
    if a.ToolBlock? then b.ToolBlock? && b.id == a.id && b.name == a.name && b.signature == a.signature else b == a
  }

  datatype BlockEvent =
    | Start(at: nat, kind: Kind)
    | Delta(at: nat, kind: Kind, delta: string)
    | End(at: nat, final: Content)

  // ----- The monitor ----------------------------------------------------------------------

  /** One block, as its events show it; text is the concatenation of its deltas. */
  datatype Phase = Running(kind: Kind, text: string) | Ended(kind: Kind, text: string, final: Content)

  function Advanced(ps: seq<Phase>, e: BlockEvent): Option<seq<Phase>> {
    match e
    case Start(at, kind) => if at == |ps| then Some(ps + [Running(kind, "")]) else None
    case Delta(at, kind, delta) =>
      if at < |ps| && ps[at].Running? && ps[at].kind == kind
      then Some(ps[at := Running(kind, ps[at].text + delta)])
      else None
    case End(at, final) =>
      if at < |ps| && ps[at].Running? && ps[at].kind == KindOf(final)
      then Some(ps[at := Ended(ps[at].kind, ps[at].text, final)])
      else None
  }

  /** The blocks that an event sequence describes; None when it breaks the protocol. */
  function Watched(es: seq<BlockEvent>): Option<seq<Phase>>
    decreases |es|
  {
    if es == [] then Some([])
    else match Watched(es[..|es| - 1])
      case None => None
      case Some(ps) => Advanced(ps, es[|es| - 1])
  }

  lemma WatchedNext(es: seq<BlockEvent>, e: BlockEvent)
    ensures Watched(es + [e]) == if Watched(es).None? then None else Advanced(Watched(es).value, e)
  {
    assert (es + [e])[..|es|] == es;
  }

  // ----- What the monitor means -----------------------------------------------------------

  function EventsAt(es: seq<BlockEvent>, at: nat): seq<BlockEvent>
    decreases |es|
  {
    if es == [] then []
    else EventsAt(es[..|es| - 1], at) + if es[|es| - 1].at == at then [es[|es| - 1]] else []
  }

  function StartsIn(es: seq<BlockEvent>): seq<nat>
    decreases |es|
  {
    if es == [] then []
    else StartsIn(es[..|es| - 1]) + if es[|es| - 1].Start? then [es[|es| - 1].at] else []
  }

  function DeltasIn(es: seq<BlockEvent>): string
    decreases |es|
  {
    if es == [] then ""
    else DeltasIn(es[..|es| - 1]) + if es[|es| - 1].Delta? then es[|es| - 1].delta else ""
  }

  /** A start, then deltas of its kind, then an end if the block has ended. */
  predicate OneBlock(es: seq<BlockEvent>, at: nat, p: Phase) {
    && |es| >= (if p.Ended? then 2 else 1)
    && es[0] == Start(at, p.kind)
    && (p.Ended? ==> es[|es| - 1] == End(at, p.final) && KindOf(p.final) == p.kind)
    && (forall k | 1 <= k < if p.Ended? then |es| - 1 else |es| :: es[k].Delta? && es[k].at == at && es[k].kind == p.kind)
    && DeltasIn(es) == p.text
  }

  lemma {:induction false} EventsAtNext(es: seq<BlockEvent>, e: BlockEvent, at: nat)
    ensures EventsAt(es + [e], at) == EventsAt(es, at) + if e.at == at then [e] else []
    ensures StartsIn(es + [e]) == StartsIn(es) + if e.Start? then [e.at] else []
    ensures DeltasIn(es + [e]) == DeltasIn(es) + if e.Delta? then e.delta else ""
  {
    assert (es + [e])[..|es|] == es;
  }

  lemma OneBlockNext(es: seq<BlockEvent>, at: nat, p: Phase, e: BlockEvent)
    requires OneBlock(es, at, p) && p.Running? && e.at == at
    requires e.Delta? ==> e.kind == p.kind
    requires e.End? ==> KindOf(e.final) == p.kind
    ensures e.Delta? ==> OneBlock(es + [e], at, Running(p.kind, p.text + e.delta))
    ensures e.End? ==> OneBlock(es + [e], at, Ended(p.kind, p.text, e.final))
  {
    EventsAtNext(es, e, at);
  }

  lemma NoEventsBeyond(es: seq<BlockEvent>, at: nat)
    requires Watched(es).Some? && |Watched(es).value| <= at
    ensures EventsAt(es, at) == []
    decreases |es|
  {
    if es != [] {
      NoEventsBeyond(es[..|es| - 1], at);
    }
  }

  /** The sequence 0, 1, .., n - 1. */
  predicate CountsUp(s: seq<nat>, n: nat) { |s| == n && forall k | 0 <= k < n :: s[k] == k }

  lemma {:induction false} StartsCountUp(es: seq<BlockEvent>)
    requires Watched(es).Some?
    ensures CountsUp(StartsIn(es), |Watched(es).value|)
    decreases |es|
  {
    if es != [] {
      hide Watched, StartsIn;
      var before, e := es[..|es| - 1], es[|es| - 1];
      assert before + [e] == es;
      WatchedNext(before, e);
      EventsAtNext(before, e, 0);
      StartsCountUp(before);
    }
  }

  lemma {:induction false} EventsOfOneBlock(es: seq<BlockEvent>, at: nat)
    requires Watched(es).Some? && at < |Watched(es).value|
    ensures OneBlock(EventsAt(es, at), at, Watched(es).value[at])
    decreases |es|
  {
    if es != [] {
      hide Watched, EventsAt, OneBlock;
      var before, e := es[..|es| - 1], es[|es| - 1];
      assert before + [e] == es;
      WatchedNext(before, e);
      EventsAtNext(before, e, at);
      var ps := Watched(before).value;
      if at < |ps| {
        EventsOfOneBlock(before, at);
        if e.at == at {
          OneBlockNext(EventsAt(before, at), at, ps[at], e);
        } else {
          assert EventsAt(before, at) + [] == EventsAt(before, at);
        }
      } else {
        NoEventsBeyond(before, at);
        FirstEvent(e);
      }
    }
  }

  /**
   * An accepted sequence starts its blocks in index order, and the events of
   * each index are one start, its deltas and at most one end, with nothing after.
   */
  lemma WatchedMeaning(es: seq<BlockEvent>, at: nat)
    requires Watched(es).Some?
    ensures CountsUp(StartsIn(es), |Watched(es).value|)
    ensures at < |Watched(es).value| ==> OneBlock(EventsAt(es, at), at, Watched(es).value[at])
  {
    StartsCountUp(es);
    if at < |Watched(es).value| {
      EventsOfOneBlock(es, at);
    }
  }

  lemma FirstEvent(e: BlockEvent)
    requires e.Start?
    ensures OneBlock([] + [e], e.at, Running(e.kind, ""))
  {
    assert [e][..0] == [];
  }

  // ----- Writing blocks ---------------------------------------------------------------------

  /** The message's content and the events pushed so far. */
  datatype Output = Output(content: seq<Content>, events: seq<BlockEvent>)

  const NO_OUTPUT := Output([], [])

  function Opened(o: Output, c: Content): Output {
    Output(o.content + [c], o.events + [Start(|o.content|, KindOf(c))])
  }

  function Extended(o: Output, at: nat, c: Content, delta: string): Output
    requires at < |o.content|
  {
    Output(o.content[at := c], o.events + [Delta(at, KindOf(c), delta)])
  }

  function Closed(o: Output, at: nat, c: Content): Output
    requires at < |o.content|
  {
    Output(o.content[at := c], o.events + [End(at, c)])
  }

  /** The events describe blocks that match the content kind by kind. */
  predicate Tracks(o: Output) {
    Watched(o.events).Some? && |Watched(o.events).value| == |o.content|
    && forall at | 0 <= at < |o.content| :: Watched(o.events).value[at].kind == KindOf(o.content[at])
  }

  function Phases(o: Output): (ps: seq<Phase>)
    requires Tracks(o)
    ensures |ps| == |o.content|
  {
    Watched(o.events).value
  }

  lemma OpenedTracks(o: Output, c: Content)
    requires Tracks(o)
    ensures Tracks(Opened(o, c)) && Phases(Opened(o, c)) == Phases(o) + [Running(KindOf(c), "")]
  {
    WatchedNext(o.events, Start(|o.content|, KindOf(c)));
  }

  lemma ExtendedTracks(o: Output, at: nat, c: Content, delta: string)
    requires Tracks(o) && at < |o.content| && Phases(o)[at].Running? && KindOf(c) == KindOf(o.content[at])
    ensures Tracks(Extended(o, at, c, delta))
    ensures Phases(Extended(o, at, c, delta)) == Phases(o)[at := Running(KindOf(c), Phases(o)[at].text + delta)]
  {
    WatchedNext(o.events, Delta(at, KindOf(c), delta));
  }

  lemma ClosedTracks(o: Output, at: nat, c: Content)
    requires Tracks(o) && at < |o.content| && Phases(o)[at].Running? && KindOf(c) == KindOf(o.content[at])
    ensures Tracks(Closed(o, at, c))
    ensures Phases(Closed(o, at, c)) == Phases(o)[at := Ended(KindOf(c), Phases(o)[at].text, c)]
  {
    WatchedNext(o.events, End(at, c));
  }
}
