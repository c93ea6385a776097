/** Decoding an OpenAI Responses stream: live slots, by output index, lead to content positions. */
module ResponsesDecoder {
  import opened Wrappers
  import opened JsonText
  import opened BlockEvents
  import opened ToolBlocks

  /** An output item; raw is its JSON text, signature its encoded text signature. */
  datatype Item =
    | Reasoning(summary: string, content: string, raw: string)
    | MessageItem(text: string, signature: string)
    | FunctionCall(callId: string, id: string, name: string, arguments: string)
    | OtherItem

  datatype RawEvent =
    | Ignored
    | Added(index: int, item: Item)
    | ReasoningDelta(index: int, delta: string)
    | ReasoningPartDone(index: int)
    | OutputTextDelta(index: int, delta: string)
    | ArgumentsDelta(index: int, delta: string)
    | ArgumentsDone(index: int, arguments: string)
    | ItemDone(index: int, item: Item)
    | Completed
    | Failed

  datatype Slot = Slot(kind: Kind, at: nat, partialArgs: string)

  datatype State = State(out: Output, slots: map<int, Slot>)

  const INITIAL := State(NO_OUTPUT, map[])

  datatype Ending = Read | WithoutTerminal | WithError

  /** A live slot's position holds a block of its kind, and no other slot leads there. */
  predicate SlotsFit(s: State) {
    && (forall i | i in s.slots :: s.slots[i].at < |s.out.content| && KindOf(s.out.content[s.slots[i].at]) == s.slots[i].kind)
    && (forall i, j | i in s.slots && j in s.slots && s.slots[i].at == s.slots[j].at :: i == j)
  }

  function ItemKind(item: Item): Kind
    requires !item.OtherItem?
  {
    if item.Reasoning? then IsThinking else if item.MessageItem? then IsText else IsTool
  }

  /** The block and the argument text that an item starts with. */
  function FirstBlock(item: Item): Content
    requires !item.OtherItem?
  {
    match item
    case Reasoning(_, _, _) => ThinkingBlock("", "", false)
    case MessageItem(_, _) => TextBlock("", "")
    case FunctionCall(callId, id, name, _) => ToolBlock(callId + "|" + id, name, NO_ARGUMENTS, "")
  }

  /** A slot that was there is forgotten: its block stays without an end. */
  function SlotCreated(s: State, i: int, item: Item): (r: State)
    requires SlotsFit(s)
    ensures SlotsFit(r)
  {
    if item.OtherItem? then s
    else State(Opened(s.out, FirstBlock(item)),
               s.slots[i := Slot(ItemKind(item), |s.out.content|, if item.FunctionCall? then item.arguments else "")])
  }

  predicate HasSlot(s: State, i: int, kind: Kind) { i in s.slots && s.slots[i].kind == kind }

  function WithMore(c: Content, text: string): Content
    requires !c.ToolBlock?
  {
    if c.TextBlock? then TextBlock(c.text + text, c.signature) else ThinkingBlock(c.text + text, c.signature, c.redacted)
  }

  function TextAdded(s: State, i: int, kind: Kind, text: string): (r: State)
    requires SlotsFit(s) && kind != IsTool
    ensures SlotsFit(r)
  {
    if !HasSlot(s, i, kind) then s
    else s.(out := Extended(s.out, s.slots[i].at, WithMore(s.out.content[s.slots[i].at], text), text))
  }

  function ArgumentsAdded(s: State, i: int, delta: string, parse: string -> Value): (r: State)
    requires SlotsFit(s)
    ensures SlotsFit(r)
  {
    if !HasSlot(s, i, IsTool) then s
    else
      var slot := s.slots[i];
      var args := slot.partialArgs + delta;
      State(Extended(s.out, slot.at, WithArguments(s.out.content[slot.at], parse(args)), delta),
            s.slots[i := slot.(partialArgs := args)])
  }

  /** The whole argument text; what it adds to the text so far goes out as a delta. */
  function ArgumentsSet(s: State, i: int, arguments: string, parse: string -> Value): (r: State)
    requires SlotsFit(s)
    ensures SlotsFit(r)
  {
    if !HasSlot(s, i, IsTool) then s
    else
      var slot := s.slots[i];
      var c := WithArguments(s.out.content[slot.at], parse(arguments));
      State(if slot.partialArgs < arguments then Extended(s.out, slot.at, c, arguments[|slot.partialArgs|..])
            else s.out.(content := s.out.content[slot.at := c]),
            s.slots[i := slot.(partialArgs := arguments)])
  }

  /** The block that a finished item leaves. */
  function FinalBlock(item: Item, slot: Slot, c: Content, parse: string -> Value): (r: Content)
    requires !item.OtherItem? && ItemKind(item) == slot.kind == KindOf(c)
    ensures KindOf(r) == slot.kind
  {
    match item
    case Reasoning(summary, content, raw) =>
      ThinkingBlock(if summary != "" then summary else if content != "" then content else c.text, raw, c.redacted)
    case MessageItem(text, signature) => TextBlock(text, signature)
    case FunctionCall(_, _, _, arguments) =>
      WithArguments(c, parse(if arguments != "" then arguments else if slot.partialArgs != "" then slot.partialArgs else "{}"))
  }

  function ItemFinished(s: State, i: int, item: Item, parse: string -> Value): (r: State)
    requires SlotsFit(s)
    ensures SlotsFit(r)
  {
    var t := if i in s.slots then s else SlotCreated(s, i, item);
    if item.OtherItem? || !HasSlot(t, i, ItemKind(item)) then t
    else
      var slot := t.slots[i];
      State(Closed(t.out, slot.at, FinalBlock(item, slot, t.out.content[slot.at], parse)), t.slots - {i})
  }

  function EventRead(s: State, e: RawEvent, parse: string -> Value): (r: State)
    requires SlotsFit(s)
    ensures SlotsFit(r)
  {
    match e
    case Added(i, item) => SlotCreated(s, i, item)
    case ReasoningDelta(i, delta) => TextAdded(s, i, IsThinking, delta)
    case ReasoningPartDone(i) => TextAdded(s, i, IsThinking, "\n\n")
    case OutputTextDelta(i, delta) => TextAdded(s, i, IsText, delta)
    case ArgumentsDelta(i, delta) => ArgumentsAdded(s, i, delta, parse)
    case ArgumentsDone(i, arguments) => ArgumentsSet(s, i, arguments, parse)
    case ItemDone(i, item) => ItemFinished(s, i, item, parse)
    case _ => s
  }

  /** The state at the end, or at the event that reports a failure. */
  function Decoded(s: State, es: seq<RawEvent>, sawTerminal: bool, parse: string -> Value): (State, Ending)
    requires SlotsFit(s)
    decreases |es|
  {
    if es == [] then (s, if sawTerminal then Read else WithoutTerminal)
    else if es[0].Failed? then (s, WithError)
    else Decoded(EventRead(s, es[0], parse), es[1..], sawTerminal || es[0].Completed?, parse)
  }

  // ----- The decoder -------------------------------------------------------------------------

  class Decoder {
    const parse: string -> Value
    var content: seq<Content>
    var events: seq<BlockEvent>
    var slots: map<int, Slot>

    ghost function Abstract(): State reads this { State(Output(content, events), slots) }

    ghost predicate Valid() reads this { SlotsFit(Abstract()) }

    constructor (parse: string -> Value)
      ensures Valid() && Abstract() == INITIAL && this.parse == parse
    {
      this.parse, content, events, slots := parse, [], [], map[];
    }

    method CreateSlot(i: int, item: Item)
      requires Valid()
      modifies this
      ensures Valid() && Abstract() == SlotCreated(old(Abstract()), i, item)
    {
      if item.OtherItem? {
        return;
      }
      content := content + [FirstBlock(item)];
      slots := slots[i := Slot(ItemKind(item), |content| - 1, if item.FunctionCall? then item.arguments else "")];
      events := events + [Start(|content| - 1, KindOf(FirstBlock(item)))];
    }

    method AddText(i: int, kind: Kind, text: string)
      requires Valid() && kind != IsTool
      modifies this
      ensures Valid() && Abstract() == TextAdded(old(Abstract()), i, kind, text)
    {
      if i !in slots || slots[i].kind != kind {
        return;
      }
      var at := slots[i].at;
      content := content[at := WithMore(content[at], text)];
      events := events + [Delta(at, kind, text)];
    }

    method AddArguments(i: int, delta: string)
      requires Valid()
      modifies this
      ensures Valid() && Abstract() == ArgumentsAdded(old(Abstract()), i, delta, parse)
    {
      if i !in slots || slots[i].kind != IsTool {
        return;
      }
      var s := slots[i];
      s := s.(partialArgs := s.partialArgs + delta);
      slots := slots[i := s];
      content := content[s.at := WithArguments(content[s.at], parse(s.partialArgs))];
      events := events + [Delta(s.at, IsTool, delta)];
    }

    method SetArguments(i: int, arguments: string)
      requires Valid()
      modifies this
      ensures Valid() && Abstract() == ArgumentsSet(old(Abstract()), i, arguments, parse)
    {
      if i !in slots || slots[i].kind != IsTool {
        return;
      }
      var s := slots[i];
      var previous := s.partialArgs;
      slots := slots[i := s.(partialArgs := arguments)];
      content := content[s.at := WithArguments(content[s.at], parse(arguments))];
      if previous <= arguments {
        var delta := arguments[|previous|..];
        if delta != "" {
          events := events + [Delta(s.at, IsTool, delta)];
        }
      }
    }

    method FinishItem(i: int, item: Item)
      requires Valid()
      modifies this
      ensures Valid() && Abstract() == ItemFinished(old(Abstract()), i, item, parse)
    {
      if i !in slots {
        CreateSlot(i, item);
      }
      if i !in slots || item.OtherItem? || slots[i].kind != ItemKind(item) {
        return;
      }
      var slot := slots[i];
      content := content[slot.at := FinalBlock(item, slot, content[slot.at], parse)];
      events := events + [End(slot.at, content[slot.at])];
      slots := slots - {i};
    }

    method DecodeStream(es: seq<RawEvent>) returns (ending: Ending)
      requires Valid()
      modifies this
      ensures Valid() && (Abstract(), ending) == Decoded(old(Abstract()), es, false, parse)
    {
      hide SlotCreated, TextAdded, ArgumentsAdded, ArgumentsSet, ItemFinished, SlotsFit;
      var sawTerminal := false;
      for k := 0 to |es|
        invariant Valid()
        invariant Decoded(old(Abstract()), es, false, parse) == Decoded(Abstract(), es[k..], sawTerminal, parse)
      {
        assert es[k..][0] == es[k] && es[k..][1..] == es[k + 1..];
        match es[k]
        case Ignored =>
        case Added(i, item) => CreateSlot(i, item);
        case ReasoningDelta(i, delta) => AddText(i, IsThinking, delta);
        case ReasoningPartDone(i) => AddText(i, IsThinking, "\n\n");
        case OutputTextDelta(i, delta) => AddText(i, IsText, delta);
        case ArgumentsDelta(i, delta) => AddArguments(i, delta);
        case ArgumentsDone(i, arguments) => SetArguments(i, arguments);
        case ItemDone(i, item) => FinishItem(i, item);
        case Completed => sawTerminal := true;
        case Failed => return WithError;
      }
      ending := if sawTerminal then Read else WithoutTerminal;
    }
  }

  // ----- What holds ----------------------------------------------------------------------------

  /**
   * The events keep the protocol; a live slot's block runs, and as long as it
   * runs a text or thinking block holds the concatenation of its deltas; a block
   * that has ended holds what its end event said.
   */
  predicate Follows(s: State) {
    && SlotsFit(s) && Tracks(s.out)
    && (forall i | i in s.slots :: Phases(s.out)[s.slots[i].at].Running?)
    && (forall at | 0 <= at < |s.out.content| :: BlockFollows(s.out, at))
  }

  predicate BlockFollows(o: Output, at: nat)
    requires Tracks(o) && at < |o.content|
  {
    match Phases(o)[at]
    case Running(_, text) => !o.content[at].ToolBlock? ==> o.content[at].text == text
    case Ended(_, _, final) => o.content[at] == final
  }

  lemma SlotCreatedFollows(s: State, i: int, item: Item)
    requires Follows(s)
    ensures Follows(SlotCreated(s, i, item))
  {
    if !item.OtherItem? {
      OpenedTracks(s.out, FirstBlock(item));
      var r := SlotCreated(s, i, item).out;
      forall at | 0 <= at < |r.content| ensures BlockFollows(r, at) {
        if at < |s.out.content| {
          assert BlockFollows(s.out, at);
        }
      }
    }
  }

  lemma ExtendedFollows(s: State, i: int, c: Content, delta: string, args: string)
    requires Follows(s) && i in s.slots && KindOf(c) == s.slots[i].kind
    requires !c.ToolBlock? ==> c.text == s.out.content[s.slots[i].at].text + delta
    ensures var r := State(Extended(s.out, s.slots[i].at, c, delta), s.slots[i := s.slots[i].(partialArgs := args)]);
            Follows(r)
  {
    var at := s.slots[i].at;
    ExtendedTracks(s.out, at, c, delta);
    var r := Extended(s.out, at, c, delta);
    forall k | 0 <= k < |r.content| ensures BlockFollows(r, k) {
      assert BlockFollows(s.out, k);
    }
  }

  lemma PatchedFollows(s: State, i: int, c: Content, args: string)
    requires Follows(s) && i in s.slots && c.ToolBlock? && s.slots[i].kind == IsTool
    ensures var r := State(s.out.(content := s.out.content[s.slots[i].at := c]), s.slots[i := s.slots[i].(partialArgs := args)]);
            Follows(r)
  {
    var r := s.out.(content := s.out.content[s.slots[i].at := c]);
    forall k | 0 <= k < |r.content| ensures BlockFollows(r, k) {
      assert BlockFollows(s.out, k);
    }
  }

  lemma ClosedFollows(s: State, i: int, c: Content)
    requires Follows(s) && i in s.slots && KindOf(c) == s.slots[i].kind
    ensures Follows(State(Closed(s.out, s.slots[i].at, c), s.slots - {i}))
  {
    var at := s.slots[i].at;
    ClosedTracks(s.out, at, c);
    var r := Closed(s.out, at, c);
    forall k | 0 <= k < |r.content| ensures BlockFollows(r, k) {
      assert BlockFollows(s.out, k);
    }
  }

  lemma TextAddedFollows(s: State, i: int, kind: Kind, text: string)
    requires Follows(s) && kind != IsTool
    ensures Follows(TextAdded(s, i, kind, text))
  {
    if HasSlot(s, i, kind) {
      var slot := s.slots[i];
      assert BlockFollows(s.out, slot.at);
      ExtendedFollows(s, i, WithMore(s.out.content[slot.at], text), text, slot.partialArgs);
      assert s.slots[i := slot.(partialArgs := slot.partialArgs)] == s.slots;
    }
  }

  lemma ArgumentsFollow(s: State, i: int, text: string, parse: string -> Value)
    requires Follows(s)
    ensures Follows(ArgumentsAdded(s, i, text, parse))
    ensures Follows(ArgumentsSet(s, i, text, parse))
  {
    if HasSlot(s, i, IsTool) {
      var slot := s.slots[i];
      var c := s.out.content[slot.at];
      ExtendedFollows(s, i, WithArguments(c, parse(slot.partialArgs + text)), text, slot.partialArgs + text);
      if slot.partialArgs < text {
        ExtendedFollows(s, i, WithArguments(c, parse(text)), text[|slot.partialArgs|..], text);
      } else {
        PatchedFollows(s, i, WithArguments(c, parse(text)), text);
      }
    }
  }

  lemma ItemFinishedFollows(s: State, i: int, item: Item, parse: string -> Value)
    requires Follows(s)
    ensures Follows(ItemFinished(s, i, item, parse))
  {
    var t := if i in s.slots then s else SlotCreated(s, i, item);
    SlotCreatedFollows(s, i, item);
    if !item.OtherItem? && HasSlot(t, i, ItemKind(item)) {
      var slot := t.slots[i];
      ClosedFollows(t, i, FinalBlock(item, slot, t.out.content[slot.at], parse));
    }
  }

  lemma EventReadFollows(s: State, e: RawEvent, parse: string -> Value)
    requires Follows(s)
    ensures Follows(EventRead(s, e, parse))
  {
    hide SlotCreated, TextAdded, ArgumentsAdded, ArgumentsSet, ItemFinished, Follows;
    match e
    case Added(i, item) => SlotCreatedFollows(s, i, item);
    case ReasoningDelta(i, delta) => TextAddedFollows(s, i, IsThinking, delta);
    case ReasoningPartDone(i) => TextAddedFollows(s, i, IsThinking, "\n\n");
    case OutputTextDelta(i, delta) => TextAddedFollows(s, i, IsText, delta);
    case ArgumentsDelta(i, delta) => ArgumentsFollow(s, i, delta, parse);
    case ArgumentsDone(i, arguments) => ArgumentsFollow(s, i, arguments, parse);
    case ItemDone(i, item) => ItemFinishedFollows(s, i, item, parse);
    case _ =>
  }

  /** For every event sequence, however it ends. */
  lemma {:induction false} ResponsesFollow(s: State, es: seq<RawEvent>, sawTerminal: bool, parse: string -> Value)
    requires Follows(s)
    ensures Follows(Decoded(s, es, sawTerminal, parse).0)
    decreases |es|
  {
    hide EventRead, BlockFollows, Tracks, Phases;
    if es != [] && !es[0].Failed? {
      EventReadFollows(s, es[0], parse);
      ResponsesFollow(EventRead(s, es[0], parse), es[1..], sawTerminal || es[0].Completed?, parse);
    }
  }

  lemma InitialFollows()
    ensures Follows(INITIAL)
  {
  }

  /** A text or thinking delta reaches the block of its index's slot, if that is of its kind, and no other. */
  lemma DeltaReachesItsSlot(s: State, i: int, kind: Kind, text: string, at: nat)
    requires Follows(s) && kind != IsTool && at < |s.out.content|
    ensures var r := TextAdded(s, i, kind, text);
            && Tracks(r.out) && |r.out.content| == |s.out.content|
            && Phases(r.out)[at].text ==
                 Phases(s.out)[at].text + (if HasSlot(s, i, kind) && s.slots[i].at == at then text else "")
            && (!s.out.content[at].ToolBlock? && HasSlot(s, i, kind) && s.slots[i].at == at ==>
                  !r.out.content[at].ToolBlock? && r.out.content[at].text == s.out.content[at].text + text)
  {
    assert Phases(s.out)[at].text + "" == Phases(s.out)[at].text;
    if HasSlot(s, i, kind) {
      var slot := s.slots[i];
      ExtendedTracks(s.out, slot.at, WithMore(s.out.content[slot.at], text), text);
    }
  }
}
