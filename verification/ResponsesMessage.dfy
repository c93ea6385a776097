/** The whole message that a Responses stream leaves, told from the events alone. */
module ResponsesMessage {
  import opened Wrappers
  import opened JsonText
  import opened BlockEvents
  import opened ToolBlocks
  import opened ResponsesDecoder

  // ----- One item ------------------------------------------------------------------------------

  /** A block as its item is added. */
  function Started(item: Item): Content
    requires !item.OtherItem?
  {
    match item
    case Reasoning(_, _, _) => ThinkingBlock("", "", false)
    case MessageItem(_, _) => TextBlock("", "")
    case FunctionCall(callId, id, name, _) => ToolBlock(callId + "|" + id, name, Object(map[]), "")
  }

  /** An item is done, and its kind is that of the block. */
  predicate Fits(item: Item, c: Content) {
    match item
    case Reasoning(_, _, _) => c.ThinkingBlock?
    case MessageItem(_, _) => c.TextBlock?
    case FunctionCall(_, _, _, _) => c.ToolBlock?
    case OtherItem => false
  }

  /** The first text that is not empty. */
  function FirstOf(a: string, b: string, c: string): string { if a != "" then a else if b != "" then b else c }

  /** The block that a done item leaves; args is the argument text so far. */
  function Finished(c: Content, args: string, item: Item, parse: string -> Value): Content
    requires Fits(item, c)
  {
    match item
    case Reasoning(summary, content, raw) => ThinkingBlock(FirstOf(summary, content, c.text), raw, c.redacted)
    case MessageItem(text, signature) => TextBlock(text, signature)
    case FunctionCall(_, _, _, arguments) => ToolBlock(c.id, c.name, parse(FirstOf(arguments, args, "{}")), c.signature)
  }

  /** What an event that is for the block adds to it. */
  function Stepped(c: Content, args: string, e: RawEvent, i: int, parse: string -> Value): (Content, string) {
    match (e, c)
    case (ReasoningDelta(j, delta), ThinkingBlock(text, signature, redacted)) =>
      (if j == i then ThinkingBlock(text + delta, signature, redacted) else c, args)
    case (ReasoningPartDone(j), ThinkingBlock(text, signature, redacted)) =>
      (if j == i then ThinkingBlock(text + "\n\n", signature, redacted) else c, args)
    case (OutputTextDelta(j, delta), TextBlock(text, signature)) =>
      (if j == i then TextBlock(text + delta, signature) else c, args)
    case (ArgumentsDelta(j, delta), ToolBlock(id, name, _, signature)) =>
      if j == i then (ToolBlock(id, name, parse(args + delta), signature), args + delta) else (c, args)
    case (ArgumentsDone(j, arguments), ToolBlock(id, name, _, signature)) =>
      if j == i then (ToolBlock(id, name, parse(arguments), signature), arguments) else (c, args)
    case _ => (c, args)
  }

  predicate IsReplaced(e: RawEvent, i: int) { e.Added? && e.index == i && !e.item.OtherItem? }

  predicate IsDone(e: RawEvent, i: int, c: Content) { e.ItemDone? && e.index == i && Fits(e.item, c) }

  /** The block of an item added under index i, in the end: it grows until its item is done, or another takes its index. */
  function Grown(c: Content, args: string, es: seq<RawEvent>, i: int, parse: string -> Value): Content
    decreases |es|
  {
    if es == [] || es[0].Failed? || IsReplaced(es[0], i) then c
    else if IsDone(es[0], i, c) then Finished(c, args, es[0].item, parse)
    else
      var (c', args') := Stepped(c, args, es[0], i, parse);
      Grown(c', args', es[1..], i, parse)
  }

  function Opening(item: Item): string { if item.FunctionCall? then item.arguments else "" }

  /** The blocks to come, in order; live says of which kind the items are that are not done yet. */
  function Message(es: seq<RawEvent>, live: map<int, Kind>, parse: string -> Value): seq<Content>
    decreases |es|
  {
    if es == [] || es[0].Failed? then []
    else if es[0].Added? && !es[0].item.OtherItem? then
      [Grown(Started(es[0].item), Opening(es[0].item), es[1..], es[0].index, parse)]
      + Message(es[1..], live[es[0].index := KindOf(Started(es[0].item))], parse)
    else if es[0].ItemDone? && !es[0].item.OtherItem? then
      if es[0].index !in live then
        [Finished(Started(es[0].item), Opening(es[0].item), es[0].item, parse)] + Message(es[1..], live, parse)
      else
        Message(es[1..], if live[es[0].index] == KindOf(Started(es[0].item)) then live - {es[0].index} else live, parse)
    else Message(es[1..], live, parse)
  }

  // ----- The decoder makes this message ----------------------------------------------------------

  ghost predicate HasOwner(s: State, k: nat) { exists i :: i in s.slots && s.slots[i].at == k }

  ghost function Owner(s: State, k: nat): (i: int)
    requires HasOwner(s, k)
    ensures i in s.slots && s.slots[i].at == k
  {
    var i :| i in s.slots && s.slots[i].at == k;
    i
  }

  ghost function GrownAt(s: State, k: nat, es: seq<RawEvent>, parse: string -> Value): Content
    requires SlotsFit(s) && k < |s.out.content|
  {
    if HasOwner(s, k) then Grown(s.out.content[k], s.slots[Owner(s, k)].partialArgs, es, Owner(s, k), parse) else s.out.content[k]
  }

  ghost function AllGrown(s: State, es: seq<RawEvent>, parse: string -> Value): (r: seq<Content>)
    requires SlotsFit(s)
    ensures |r| == |s.out.content| && forall k | 0 <= k < |r| :: r[k] == GrownAt(s, k, es, parse)
  {
    seq(|s.out.content|, k requires 0 <= k < |s.out.content| => GrownAt(s, k, es, parse))
  }

  function Live(s: State): map<int, Kind> { map i | i in s.slots :: s.slots[i].kind }

  /** Block k belongs to index i, and has the argument text args. */
  predicate OwnedBy(s: State, k: nat, i: int, args: string) { i in s.slots && s.slots[i].at == k && s.slots[i].partialArgs == args }

  lemma OwnerIs(s: State, k: nat, i: int)
    requires SlotsFit(s) && i in s.slots && s.slots[i].at == k
    ensures HasOwner(s, k) && Owner(s, k) == i
  {
  }

  /** Block k and its slot, one event further. */
  predicate StepsOn(s: State, t: State, e: RawEvent, k: nat, i: int, parse: string -> Value)
    requires k < |s.out.content| && i in s.slots
  {
    var (c, args) := Stepped(s.out.content[k], s.slots[i].partialArgs, e, i, parse);
    k < |t.out.content| && OwnedBy(t, k, i, args) && t.out.content[k] == c
  }

  lemma TextSteps(s: State, e: RawEvent, k: nat, i: int, parse: string -> Value)
    requires SlotsFit(s) && k < |s.out.content| && i in s.slots && s.slots[i].at == k
    requires e.ReasoningDelta? || e.ReasoningPartDone? || e.OutputTextDelta?
    ensures StepsOn(s, EventRead(s, e, parse), e, k, i, parse)
  {
    hide ArgumentsAdded, ArgumentsSet, ItemFinished, SlotCreated;
  }

  lemma ArgumentSteps(s: State, e: RawEvent, k: nat, i: int, parse: string -> Value)
    requires SlotsFit(s) && k < |s.out.content| && i in s.slots && s.slots[i].at == k
    requires e.ArgumentsDelta? || e.ArgumentsDone?
    ensures StepsOn(s, EventRead(s, e, parse), e, k, i, parse)
  {
    hide TextAdded, ItemFinished, SlotCreated;
  }

  /** An event for another index, or none, leaves block k and its slot alone; one that is for it does as Stepped says. */
  lemma EventSteps(s: State, e: RawEvent, k: nat, i: int, parse: string -> Value)
    requires SlotsFit(s) && k < |s.out.content| && i in s.slots && s.slots[i].at == k
    ensures var t := EventRead(s, e, parse); var c, args := s.out.content[k], s.slots[i].partialArgs;
            && k < |t.out.content|
            && (if IsReplaced(e, i) then t.out.content[k] == c && !HasOwner(t, k)
                else if IsDone(e, i, c) then t.out.content[k] == Finished(c, args, e.item, parse) && !HasOwner(t, k)
                else StepsOn(s, t, e, k, i, parse))
  {
    if e.ReasoningDelta? || e.ReasoningPartDone? || e.OutputTextDelta? {
      TextSteps(s, e, k, i, parse);
    } else if e.ArgumentsDelta? || e.ArgumentsDone? {
      ArgumentSteps(s, e, k, i, parse);
    } else if e.ItemDone? {
      DoneSteps(s, e, k, i, parse);
    } else {
      OtherSteps(s, e, k, i, parse);
    }
  }

  lemma DoneSteps(s: State, e: RawEvent, k: nat, i: int, parse: string -> Value)
    requires SlotsFit(s) && k < |s.out.content| && i in s.slots && s.slots[i].at == k && e.ItemDone?
    ensures var t := EventRead(s, e, parse); var c, args := s.out.content[k], s.slots[i].partialArgs;
            && k < |t.out.content|
            && (if IsDone(e, i, c) then t.out.content[k] == Finished(c, args, e.item, parse) && !HasOwner(t, k)
                else StepsOn(s, t, e, k, i, parse))
  {
    hide TextAdded, ArgumentsAdded, ArgumentsSet;
  }

  lemma OtherSteps(s: State, e: RawEvent, k: nat, i: int, parse: string -> Value)
    requires SlotsFit(s) && k < |s.out.content| && i in s.slots && s.slots[i].at == k
    requires e.Added? || e.Ignored? || e.Completed? || e.Failed?
    ensures var t := EventRead(s, e, parse);
            && k < |t.out.content|
            && (if IsReplaced(e, i) then t.out.content[k] == s.out.content[k] && !HasOwner(t, k) else StepsOn(s, t, e, k, i, parse))
  {
    hide TextAdded, ArgumentsAdded, ArgumentsSet, ItemFinished;
  }

  lemma NoOwnerSteps(s: State, e: RawEvent, k: nat, parse: string -> Value)
    requires SlotsFit(s) && k < |s.out.content| && !HasOwner(s, k)
    ensures var t := EventRead(s, e, parse); k < |t.out.content| && t.out.content[k] == s.out.content[k] && !HasOwner(t, k)
  {
  }

  lemma EventGrows(s: State, es: seq<RawEvent>, k: nat, parse: string -> Value)
    requires SlotsFit(s) && k < |s.out.content| && es != [] && !es[0].Failed?
    ensures k < |EventRead(s, es[0], parse).out.content|
    ensures GrownAt(EventRead(s, es[0], parse), k, es[1..], parse) == GrownAt(s, k, es, parse)
  {
    hide EventRead, HasOwner, SlotsFit, Stepped, Finished, IsDone;
    var t := EventRead(s, es[0], parse);
    if HasOwner(s, k) {
      var i := Owner(s, k);
      EventSteps(s, es[0], k, i, parse);
      if !IsReplaced(es[0], i) && !IsDone(es[0], i, s.out.content[k]) {
        OwnerIs(t, k, i);
      }
    } else {
      NoOwnerSteps(s, es[0], k, parse);
    }
  }

  /** Whether the event brings a new block, and how that one is in the end. */
  predicate Opens(s: State, e: RawEvent) {
    (e.Added? && !e.item.OtherItem?) || (e.ItemDone? && !e.item.OtherItem? && e.index !in s.slots)
  }

  function NewBlock(e: RawEvent, es: seq<RawEvent>, parse: string -> Value): Content
    requires (e.Added? || e.ItemDone?) && !e.item.OtherItem?
  {
    if e.Added? then Grown(Started(e.item), Opening(e.item), es, e.index, parse)
    else Finished(Started(e.item), Opening(e.item), e.item, parse)
  }

  lemma OpenedGrows(s: State, es: seq<RawEvent>, parse: string -> Value)
    requires SlotsFit(s) && es != [] && Opens(s, es[0])
    ensures var t, k := EventRead(s, es[0], parse), |s.out.content|;
            |t.out.content| == k + 1 && GrownAt(t, k, es[1..], parse) == NewBlock(es[0], es[1..], parse)
  {
    hide Grown, Finished, Opening;
    var t, k, e := EventRead(s, es[0], parse), |s.out.content|, es[0];
    if e.Added? {
      AddedOwns(s, e.index, e.item, parse);
      OwnerIs(t, k, e.index);
    } else {
      DoneAtOnce(s, e.index, e.item, parse);
    }
  }

  lemma AddedOwns(s: State, i: int, item: Item, parse: string -> Value)
    requires SlotsFit(s) && !item.OtherItem?
    ensures var t, k := EventRead(s, Added(i, item), parse), |s.out.content|;
            t.out.content == s.out.content + [Started(item)] && OwnedBy(t, k, i, Opening(item))
  {
  }

  lemma DoneAtOnce(s: State, i: int, item: Item, parse: string -> Value)
    requires SlotsFit(s) && !item.OtherItem? && i !in s.slots
    ensures var t, k := EventRead(s, ItemDone(i, item), parse), |s.out.content|;
            t.out.content == s.out.content + [Finished(Started(item), Opening(item), item, parse)] && !HasOwner(t, k)
  {
    var t := SlotCreated(s, i, item);
    assert t.out.content == s.out.content + [Started(item)];
  }

  lemma SameBlocks(s: State, e: RawEvent, parse: string -> Value)
    requires SlotsFit(s) && !Opens(s, e)
    ensures |EventRead(s, e, parse).out.content| == |s.out.content|
  {
  }

  /** Which items are live after an event. */
  lemma LiveNext(s: State, e: RawEvent, parse: string -> Value)
    requires SlotsFit(s)
    ensures Live(EventRead(s, e, parse)) ==
              if e.Added? && !e.item.OtherItem? then
                var i: int := e.index; Live(s)[i := KindOf(Started(e.item))]
              else if e.ItemDone? && !e.item.OtherItem? && e.index in Live(s) && Live(s)[e.index] == KindOf(Started(e.item)) then
                Live(s) - {e.index}
              else Live(s)
  {
    var t := EventRead(s, e, parse);
    if e.ItemDone? && !e.item.OtherItem? && e.index !in s.slots {
      assert t.slots == s.slots;
    }
  }

  lemma BlocksGrowOn(s: State, es: seq<RawEvent>, parse: string -> Value)
    requires SlotsFit(s) && es != [] && !es[0].Failed?
    ensures var t := EventRead(s, es[0], parse); var before, after := AllGrown(s, es, parse), AllGrown(t, es[1..], parse);
            |before| <= |after| && after[..|before|] == before
  {
    hide EventRead, GrownAt, SlotsFit;
    forall k | 0 <= k < |s.out.content|
      ensures k < |EventRead(s, es[0], parse).out.content|
      ensures GrownAt(EventRead(s, es[0], parse), k, es[1..], parse) == GrownAt(s, k, es, parse)
    {
      EventGrows(s, es, k, parse);
    }
    if s.out.content != [] {
      EventGrows(s, es, |s.out.content| - 1, parse);
    }
  }

  lemma Regroup(a: seq<Content>, b: seq<Content>, c: seq<Content>)
    ensures (a + b) + c == a + (b + c)
  {
  }

  /** The blocks to come, one event further. */
  lemma MessageNext(s: State, es: seq<RawEvent>, parse: string -> Value)
    requires SlotsFit(s) && es != [] && !es[0].Failed?
    ensures Message(es, Live(s), parse) ==
              (if Opens(s, es[0]) then [NewBlock(es[0], es[1..], parse)] else [])
              + Message(es[1..], Live(EventRead(s, es[0], parse)), parse)
  {
    hide EventRead, Grown, Finished, Opening, Started;
    LiveNext(s, es[0], parse);
    assert es[0].ItemDone? ==> (es[0].index in Live(s) <==> es[0].index in s.slots);
  }

  lemma EventSays(s: State, es: seq<RawEvent>, parse: string -> Value)
    requires SlotsFit(s) && es != [] && !es[0].Failed?
    ensures var t := EventRead(s, es[0], parse);
            AllGrown(t, es[1..], parse) + Message(es[1..], Live(t), parse) == AllGrown(s, es, parse) + Message(es, Live(s), parse)
  {
    hide EventRead, GrownAt, Live, SlotsFit, Message, NewBlock;
    var t := EventRead(s, es[0], parse);
    var before, after, rest := AllGrown(s, es, parse), AllGrown(t, es[1..], parse), Message(es[1..], Live(t), parse);
    BlocksGrowOn(s, es, parse);
    MessageNext(s, es, parse);
    if Opens(s, es[0]) {
      OpenedGrows(s, es, parse);
      assert after == before + [NewBlock(es[0], es[1..], parse)];
      Regroup(before, [NewBlock(es[0], es[1..], parse)], rest);
    } else {
      SameBlocks(s, es[0], parse);
      assert after == before;
      assert [] + rest == rest;
    }
  }

  lemma NothingGrows(s: State, es: seq<RawEvent>, parse: string -> Value)
    requires SlotsFit(s) && (es == [] || es[0].Failed?)
    ensures AllGrown(s, es, parse) == s.out.content
  {
  }

  lemma {:induction false} DecodedIsGrown(s: State, es: seq<RawEvent>, sawTerminal: bool, parse: string -> Value)
    requires SlotsFit(s)
    ensures Decoded(s, es, sawTerminal, parse).0.out.content == AllGrown(s, es, parse) + Message(es, Live(s), parse)
    decreases |es|
  {
    hide EventRead, Live, SlotsFit, AllGrown;
    if es == [] || es[0].Failed? {
      NothingGrows(s, es, parse);
    } else {
      hide Message;
      EventSays(s, es, parse);
      DecodedIsGrown(EventRead(s, es[0], parse), es[1..], sawTerminal || es[0].Completed?, parse);
    }
  }

  /**
   * For every event sequence the message is exactly this: the items that were
   * added, or done without being added, in order; each grows with the events of
   * its index until it is done or replaced; a call has the id and name it came
   * with, and a done item what its last event says.
   */
  lemma ResponsesMessageExactly(es: seq<RawEvent>, parse: string -> Value)
    ensures Decoded(INITIAL, es, false, parse).0.out.content == Message(es, map[], parse)
  {
    hide Decoded, Message, AllGrown;
    DecodedIsGrown(INITIAL, es, false, parse);
    assert Live(INITIAL) == map[];
    assert [] + Message(es, map[], parse) == Message(es, map[], parse);
  }
}
