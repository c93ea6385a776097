/**
 * The items of a Responses stream, each with the argument text that its own
 * events bring: which blocks can still end, and when a call's deltas spell its
 * arguments.
 */
module ResponsesItems {
  import opened Wrappers
  import opened JsonText
  import opened BlockEvents
  import opened ToolBlocks
  import opened ResponsesDecoder

  /** One more piece of argument text, or the whole text so far. */
  datatype Piece = Part(text: string) | Whole(text: string)

  /** The argument text that an item was added with, the pieces since, and the text that it finished with. */
  datatype Record = Record(kind: Kind, opening: string, pieces: seq<Piece>, finish: Option<string>)

  /** Every item in the order it came, and for each index the one that is not done. */
  datatype Ledger = Ledger(live: map<int, nat>, items: seq<Record>)

  const NO_ITEMS := Ledger(map[], [])

  function ArgumentsOf(item: Item): string { if item.FunctionCall? then item.arguments else "" }

  function ItemNoted(l: Ledger, i: int, item: Item): Ledger {
    if item.OtherItem? then l
    else Ledger(l.live[i := |l.items|], l.items + [Record(ItemKind(item), ArgumentsOf(item), [], None)])
  }

  predicate IsLiveItem(l: Ledger, i: int, kind: Kind) {
    i in l.live && l.live[i] < |l.items| && l.items[l.live[i]].kind == kind
  }

  function PieceNoted(l: Ledger, i: int, p: Piece): Ledger {
    if !IsLiveItem(l, i, IsTool) then l
    else var r := l.items[l.live[i]]; l.(items := l.items[l.live[i] := r.(pieces := r.pieces + [p])])
  }

  function FinishNoted(l: Ledger, i: int, item: Item): Ledger {
    var t := if i in l.live then l else ItemNoted(l, i, item);
    if item.OtherItem? || !IsLiveItem(t, i, ItemKind(item)) then t
    else Ledger(t.live - {i}, t.items[t.live[i] := t.items[t.live[i]].(finish := Some(ArgumentsOf(item)))])
  }

  function Noted(l: Ledger, e: RawEvent): Ledger {
    match e
    case Added(i, item) => ItemNoted(l, i, item)
    case ArgumentsDelta(i, delta) => PieceNoted(l, i, Part(delta))
    case ArgumentsDone(i, arguments) => PieceNoted(l, i, Whole(arguments))
    case ItemDone(i, item) => FinishNoted(l, i, item)
    case _ => l
  }

  /** The events up to the first failure. */
  function NotedAll(l: Ledger, es: seq<RawEvent>): Ledger
    decreases |es|
  {
    if es == [] || es[0].Failed? then l else NotedAll(Noted(l, es[0]), es[1..])
  }

  // ----- Argument texts ------------------------------------------------------------------------

  /** The argument text that the pieces leave. */
  function Buffered(opening: string, ps: seq<Piece>): string
    decreases |ps|
  {
    if ps == [] then opening
    else
      var before, p := Buffered(opening, ps[..|ps| - 1]), ps[|ps| - 1];
      if p.Part? then before + p.text else p.text
  }

  /** What is sent out for the pieces: of a whole text, what it adds to the text before it. */
  function Spelled(opening: string, ps: seq<Piece>): string
    decreases |ps|
  {
    if ps == [] then ""
    else
      var before, p := Buffered(opening, ps[..|ps| - 1]), ps[|ps| - 1];
      Spelled(opening, ps[..|ps| - 1]) +
        if p.Part? then p.text else if before <= p.text then p.text[|before|..] else ""
  }

  lemma {:induction false} NextPiece(opening: string, ps: seq<Piece>, p: Piece)
    ensures Buffered(opening, ps + [p]) == if p.Part? then Buffered(opening, ps) + p.text else p.text
    ensures Spelled(opening, ps + [p]) == Spelled(opening, ps) +
              if p.Part? then p.text
              else if Buffered(opening, ps) <= p.text then p.text[|Buffered(opening, ps)|..] else ""
  {
    assert (ps + [p])[..|ps|] == ps;
  }

  /** No arguments at all count as an empty object. */
  function Meant(text: string): string { if text == "" then "{}" else text }

  /** What the arguments of a finished call are parsed from. */
  function FinalText(r: Record): string
    requires r.finish.Some?
  {
    if r.finish.value != "" then r.finish.value else Meant(Buffered(r.opening, r.pieces))
  }

  // ----- The decoder keeps this ledger ------------------------------------------------------------

  /**
   * The block of an item: it has ended exactly if the item has finished; a
   * call's deltas are those that its own pieces make, it shows what the text so
   * far parses to, and it ends with what the final text parses to.
   */
  predicate ItemRecorded(o: Output, at: nat, r: Record, parse: string -> Value)
    requires Tracks(o) && at < |o.content|
  {
    && r.kind == KindOf(o.content[at])
    && (Phases(o)[at].Ended? <==> r.finish.Some?)
    && (r.kind == IsTool ==>
          && Phases(o)[at].text == Spelled(r.opening, r.pieces)
          && o.content[at].arguments ==
               if r.finish.Some? then parse(FinalText(r))
               else if r.pieces == [] then NO_ARGUMENTS
               else parse(Buffered(r.opening, r.pieces)))
  }

  predicate SlotRecorded(s: State, l: Ledger, i: int)
    requires i in s.slots && i in l.live
  {
    var at := l.live[i];
    && s.slots[i].at == at && at < |l.items|
    && s.slots[i].partialArgs == Buffered(l.items[at].opening, l.items[at].pieces)
  }

  predicate Recorded(s: State, l: Ledger, parse: string -> Value) {
    && Follows(s) && |l.items| == |s.out.content| && l.live.Keys == s.slots.Keys
    && (forall i | i in l.live :: SlotRecorded(s, l, i))
    && (forall at | 0 <= at < |l.items| :: ItemRecorded(s.out, at, l.items[at], parse))
  }

  lemma CreatedRecorded(s: State, l: Ledger, i: int, item: Item, parse: string -> Value)
    requires Recorded(s, l, parse)
    ensures Recorded(SlotCreated(s, i, item), ItemNoted(l, i, item), parse)
  {
    hide Follows, Tracks;
    SlotCreatedFollows(s, i, item);
    FollowsTracks(s);
    if !item.OtherItem? {
      var r, m := SlotCreated(s, i, item), ItemNoted(l, i, item);
      OpenedTracks(s.out, FirstBlock(item));
      forall j | j in m.live ensures SlotRecorded(r, m, j) {
        if j != i {
          assert SlotRecorded(s, l, j);
        }
      }
      forall at | 0 <= at < |m.items| ensures ItemRecorded(r.out, at, m.items[at], parse) {
        if at < |l.items| {
          assert ItemRecorded(s.out, at, l.items[at], parse);
        }
      }
    }
  }

  lemma FollowsTracks(s: State)
    requires Follows(s)
    ensures SlotsFit(s) && Tracks(s.out)
    ensures forall i | i in s.slots :: Phases(s.out)[s.slots[i].at].Running?
  {
  }

  /** A step that changes one block that is no call, and no kinds or ends, is of no interest to the ledger. */
  lemma TextRecorded(s: State, l: Ledger, i: int, kind: Kind, text: string, parse: string -> Value)
    requires Recorded(s, l, parse) && kind != IsTool
    ensures Recorded(TextAdded(s, i, kind, text), l, parse)
  {
    hide Follows, Tracks;
    TextAddedFollows(s, i, kind, text);
    FollowsTracks(s);
    if HasSlot(s, i, kind) {
      var r, slot := TextAdded(s, i, kind, text), s.slots[i];
      ExtendedTracks(s.out, slot.at, WithMore(s.out.content[slot.at], text), text);
      forall j | j in l.live ensures SlotRecorded(r, l, j) {
        assert SlotRecorded(s, l, j);
      }
      forall at | 0 <= at < |l.items| ensures ItemRecorded(r.out, at, l.items[at], parse) {
        assert ItemRecorded(s.out, at, l.items[at], parse);
      }
    }
  }

  lemma LiveItem(s: State, l: Ledger, i: int, kind: Kind, parse: string -> Value)
    requires Recorded(s, l, parse)
    ensures HasSlot(s, i, kind) <==> IsLiveItem(l, i, kind)
  {
    hide Follows, Tracks;
    FollowsTracks(s);
    if i in l.live {
      assert SlotRecorded(s, l, i);
      assert ItemRecorded(s.out, l.live[i], l.items[l.live[i]], parse);
    }
  }

  /** The next state of a call's slot, for a piece of its arguments that puts out a delta, or none. */
  lemma PieceRecorded(s: State, l: Ledger, i: int, p: Piece, r: State, parse: string -> Value)
    requires Recorded(s, l, parse) && HasSlot(s, i, IsTool) && Follows(r)
    requires var slot, rec := s.slots[i], l.items[l.live[i]]; var args := Buffered(rec.opening, rec.pieces + [p]);
             && r.slots == s.slots[i := slot.(partialArgs := args)]
             && r.out.content == s.out.content[slot.at := WithArguments(s.out.content[slot.at], parse(args))]
             && Phases(r.out) == Phases(s.out)[slot.at := Running(IsTool, Spelled(rec.opening, rec.pieces + [p]))]
    ensures Recorded(r, PieceNoted(l, i, p), parse)
  {
    hide Follows, Tracks, Buffered, Spelled;
    FollowsTracks(s);
    FollowsTracks(r);
    LiveItem(s, l, i, IsTool, parse);
    var m := PieceNoted(l, i, p);
    assert SlotRecorded(s, l, i);
    forall j | j in m.live ensures SlotRecorded(r, m, j) {
      assert SlotRecorded(s, l, j);
    }
    forall at | 0 <= at < |m.items| ensures ItemRecorded(r.out, at, m.items[at], parse) {
      assert ItemRecorded(s.out, at, l.items[at], parse);
    }
  }

  lemma ArgumentsRecorded(s: State, l: Ledger, i: int, text: string, parse: string -> Value)
    requires Recorded(s, l, parse)
    ensures Recorded(ArgumentsAdded(s, i, text, parse), PieceNoted(l, i, Part(text)), parse)
    ensures Recorded(ArgumentsSet(s, i, text, parse), PieceNoted(l, i, Whole(text)), parse)
  {
    hide Follows, Tracks, Recorded;
    assert Follows(s) by { RecordedFollows(s, l, parse); }
    FollowsTracks(s);
    ArgumentsFollow(s, i, text, parse);
    LiveItem(s, l, i, IsTool, parse);
    if HasSlot(s, i, IsTool) {
      CallRecorded(s, l, i, parse);
      PartRecorded(s, l, i, text, parse);
      WholeRecorded(s, l, i, text, parse);
    }
  }

  lemma RecordedFollows(s: State, l: Ledger, parse: string -> Value)
    requires Recorded(s, l, parse)
    ensures Follows(s)
  {
  }

  lemma CallRecorded(s: State, l: Ledger, i: int, parse: string -> Value)
    requires Recorded(s, l, parse) && HasSlot(s, i, IsTool)
    ensures i in l.live && l.live[i] < |l.items| && Follows(s)
    ensures var slot, rec := s.slots[i], l.items[l.live[i]];
            && slot.partialArgs == Buffered(rec.opening, rec.pieces)
            && Phases(s.out)[slot.at] == Running(IsTool, Spelled(rec.opening, rec.pieces))
  {
    hide Buffered, Spelled;
    FollowsTracks(s);
    assert SlotRecorded(s, l, i);
    assert ItemRecorded(s.out, l.live[i], l.items[l.live[i]], parse);
  }

  lemma PartRecorded(s: State, l: Ledger, i: int, text: string, parse: string -> Value)
    requires Recorded(s, l, parse) && HasSlot(s, i, IsTool) && Follows(ArgumentsAdded(s, i, text, parse))
    ensures Recorded(ArgumentsAdded(s, i, text, parse), PieceNoted(l, i, Part(text)), parse)
  {
    hide Follows, Tracks, Recorded, Buffered, Spelled;
    CallRecorded(s, l, i, parse);
    FollowsTracks(s);
    var slot, rec := s.slots[i], l.items[l.live[i]];
    NextPiece(rec.opening, rec.pieces, Part(text));
    var c := WithArguments(s.out.content[slot.at], parse(slot.partialArgs + text));
    ExtendedTracks(s.out, slot.at, c, text);
    PieceRecorded(s, l, i, Part(text), ArgumentsAdded(s, i, text, parse), parse);
  }

  lemma WholeRecorded(s: State, l: Ledger, i: int, text: string, parse: string -> Value)
    requires Recorded(s, l, parse) && HasSlot(s, i, IsTool) && Follows(ArgumentsSet(s, i, text, parse))
    ensures Recorded(ArgumentsSet(s, i, text, parse), PieceNoted(l, i, Whole(text)), parse)
  {
    hide Follows, Tracks, Recorded, Buffered, Spelled;
    CallRecorded(s, l, i, parse);
    FollowsTracks(s);
    var slot, rec := s.slots[i], l.items[l.live[i]];
    NextPiece(rec.opening, rec.pieces, Whole(text));
    var c := WithArguments(s.out.content[slot.at], parse(text));
    var r := ArgumentsSet(s, i, text, parse);
    var spelled := Spelled(rec.opening, rec.pieces);
    assert spelled + "" == spelled;
    if slot.partialArgs < text {
      ExtendedTracks(s.out, slot.at, c, text[|slot.partialArgs|..]);
    } else {
      FollowsTracks(r);
      SamePhases(s.out, r.out);
      assert slot.partialArgs <= text ==> text[|slot.partialArgs|..] == "";
    }
    PieceRecorded(s, l, i, Whole(text), r, parse);
  }

  lemma SamePhases(o: Output, r: Output)
    requires Tracks(o) && Tracks(r) && r.events == o.events
    ensures Phases(r) == Phases(o)
  {
  }

  lemma ClosedRecorded(s: State, l: Ledger, i: int, item: Item, parse: string -> Value)
    requires Recorded(s, l, parse) && !item.OtherItem? && HasSlot(s, i, ItemKind(item))
    ensures Recorded(ItemFinished(s, i, item, parse), FinishNoted(l, i, item), parse)
  {
    hide Follows, Tracks, Buffered, Spelled;
    FollowsTracks(s);
    ItemFinishedFollows(s, i, item, parse);
    LiveItem(s, l, i, ItemKind(item), parse);
    var slot := s.slots[i];
    var c := FinalBlock(item, slot, s.out.content[slot.at], parse);
    ClosedTracks(s.out, slot.at, c);
    var r, m := ItemFinished(s, i, item, parse), FinishNoted(l, i, item);
    assert SlotRecorded(s, l, i);
    forall j | j in m.live ensures SlotRecorded(r, m, j) {
      assert SlotRecorded(s, l, j);
    }
    forall at | 0 <= at < |m.items| ensures ItemRecorded(r.out, at, m.items[at], parse) {
      assert ItemRecorded(s.out, at, l.items[at], parse);
    }
  }

  lemma FinishedRecorded(s: State, l: Ledger, i: int, item: Item, parse: string -> Value)
    requires Recorded(s, l, parse)
    ensures Recorded(ItemFinished(s, i, item, parse), FinishNoted(l, i, item), parse)
  {
    hide Recorded, SlotCreated, ItemNoted, Tracks, Follows;
    RecordedFollows(s, l, parse);
    SameKeys(s, l, parse);
    var t := if i in s.slots then s else SlotCreated(s, i, item);
    var m := if i in s.slots then l else ItemNoted(l, i, item);
    if i !in s.slots {
      CreatedRecorded(s, l, i, item, parse);
      CreatedHas(s, l, i, item);
    }
    if !item.OtherItem? {
      LiveItem(t, m, i, ItemKind(item), parse);
      if HasSlot(t, i, ItemKind(item)) {
        ClosedRecorded(t, m, i, item, parse);
      }
    }
  }

  lemma SameKeys(s: State, l: Ledger, parse: string -> Value)
    requires Recorded(s, l, parse)
    ensures SlotsFit(s) && l.live.Keys == s.slots.Keys
  {
  }

  lemma CreatedHas(s: State, l: Ledger, i: int, item: Item)
    requires SlotsFit(s)
    ensures !item.OtherItem? ==> i in SlotCreated(s, i, item).slots && i in ItemNoted(l, i, item).live
  {
  }

  lemma EventRecorded(s: State, l: Ledger, e: RawEvent, parse: string -> Value)
    requires Recorded(s, l, parse)
    ensures Recorded(EventRead(s, e, parse), Noted(l, e), parse)
  {
    hide SlotCreated, TextAdded, ArgumentsAdded, ArgumentsSet, ItemFinished, Recorded, ItemNoted, PieceNoted, FinishNoted;
    SameKeys(s, l, parse);
    match e
    case Added(i, item) => CreatedRecorded(s, l, i, item, parse);
    case ReasoningDelta(i, delta) => TextRecorded(s, l, i, IsThinking, delta, parse);
    case ReasoningPartDone(i) => TextRecorded(s, l, i, IsThinking, "\n\n", parse);
    case OutputTextDelta(i, delta) => TextRecorded(s, l, i, IsText, delta, parse);
    case ArgumentsDelta(i, delta) => ArgumentsRecorded(s, l, i, delta, parse);
    case ArgumentsDone(i, arguments) => ArgumentsRecorded(s, l, i, arguments, parse);
    case ItemDone(i, item) => FinishedRecorded(s, l, i, item, parse);
    case _ =>
  }

  /** For every event sequence, however it ends. */
  lemma {:induction false} ItemsRecorded(s: State, l: Ledger, es: seq<RawEvent>, sawTerminal: bool, parse: string -> Value)
    requires Recorded(s, l, parse)
    ensures SlotsFit(s) && Recorded(Decoded(s, es, sawTerminal, parse).0, NotedAll(l, es), parse)
    decreases |es|
  {
    hide EventRead, Recorded, Noted;
    SameKeys(s, l, parse);
    if es != [] && !es[0].Failed? {
      EventRecorded(s, l, es[0], parse);
      ItemsRecorded(EventRead(s, es[0], parse), Noted(l, es[0]), es[1..], sawTerminal || es[0].Completed?, parse);
    }
  }

  lemma InitialRecorded(parse: string -> Value)
    ensures Recorded(INITIAL, NO_ITEMS, parse)
  {
  }

  // ----- Blocks that never end ---------------------------------------------------------------------

  ghost predicate IsLive(s: State, at: nat) { exists i :: i in s.slots && s.slots[i].at == at }

  /** Every block that runs can still be reached through a slot, and so can still end. */
  ghost predicate AllReachable(s: State)
    requires Tracks(s.out)
  {
    forall at: nat | at < |s.out.content| && Phases(s.out)[at].Running? :: IsLive(s, at)
  }

  /** The event adds an item under an index whose item is not done. */
  predicate Forgets(l: Ledger, e: RawEvent) { e.Added? && e.index in l.live && !e.item.OtherItem? }

  predicate NothingForgotten(l: Ledger, es: seq<RawEvent>)
    decreases |es|
  {
    es == [] || es[0].Failed? || (!Forgets(l, es[0]) && NothingForgotten(Noted(l, es[0]), es[1..]))
  }

  /** Each index leads to an item of its own that is not done. */
  predicate Sound(l: Ledger) {
    && (forall i | i in l.live :: l.live[i] < |l.items| && l.items[l.live[i]].finish.None?)
    && (forall i, j | i in l.live && j in l.live && l.live[i] == l.live[j] :: i == j)
  }

  ghost predicate Led(l: Ledger, at: nat) { exists i :: i in l.live && l.live[i] == at }

  ghost predicate AllLed(l: Ledger) { forall at: nat | at < |l.items| && l.items[at].finish.None? :: Led(l, at) }

  /** One event: nothing that is lost comes back, and only a forgotten item is lost. */
  lemma EventLeads(l: Ledger, e: RawEvent)
    requires Sound(l)
    ensures Sound(Noted(l, e)) && (AllLed(Noted(l, e)) <==> AllLed(l) && !Forgets(l, e))
  {
    match e
    case Added(i, item) => AddedLeads(l, i, item);
    case ItemDone(i, item) =>
      if i !in l.live {
        AddedLeads(l, i, item);
      }
      FinishLeads(if i in l.live then l else ItemNoted(l, i, item), i, item);
    case ArgumentsDelta(i, delta) => PieceLeads(l, i, Part(delta));
    case ArgumentsDone(i, arguments) => PieceLeads(l, i, Whole(arguments));
    case _ =>
  }

  lemma AddedLeads(l: Ledger, i: int, item: Item)
    requires Sound(l)
    ensures var m := ItemNoted(l, i, item); Sound(m) && (AllLed(m) <==> AllLed(l) && (i !in l.live || item.OtherItem?))
  {
    if !item.OtherItem? {
      var m := ItemNoted(l, i, item);
      assert forall j | j in l.live && j != i :: m.live[j] == l.live[j];
      if i in l.live {
        assert !Led(m, l.live[i]) && m.items[l.live[i]].finish.None?;
      } else {
        forall at: nat | at < |l.items| ensures Led(m, at) <==> Led(l, at) {
          if Led(l, at) {
            var j :| j in l.live && l.live[j] == at;
            assert m.live[j] == at;
          }
        }
        assert m.live[i] == |l.items|;
        forall at: nat | at < |l.items| ensures m.items[at] == l.items[at] {
        }
      }
    }
  }

  lemma FinishLeads(l: Ledger, i: int, item: Item)
    requires Sound(l) && (i in l.live || item.OtherItem?)
    ensures var m := FinishNoted(l, i, item); Sound(m) && (AllLed(m) <==> AllLed(l))
  {
    var m := FinishNoted(l, i, item);
    if !item.OtherItem? && IsLiveItem(l, i, ItemKind(item)) {
      forall at: nat | at < |l.items| && at != l.live[i] ensures m.items[at] == l.items[at] && (Led(m, at) <==> Led(l, at)) {
        if Led(l, at) {
          var j :| j in l.live && l.live[j] == at;
          assert m.live[j] == at;
        }
      }
      assert Led(l, l.live[i]);
    }
  }

  lemma PieceLeads(l: Ledger, i: int, p: Piece)
    requires Sound(l)
    ensures var m := PieceNoted(l, i, p); Sound(m) && (AllLed(m) <==> AllLed(l))
  {
    var m := PieceNoted(l, i, p);
    forall at: nat | at < |l.items| ensures m.items[at].finish == l.items[at].finish && (Led(m, at) <==> Led(l, at)) {
    }
  }

  lemma {:induction false} LedToTheEnd(l: Ledger, es: seq<RawEvent>)
    requires Sound(l)
    ensures Sound(NotedAll(l, es)) && (AllLed(NotedAll(l, es)) <==> AllLed(l) && NothingForgotten(l, es))
    decreases |es|
  {
    hide Sound, AllLed, Noted, Forgets;
    if es != [] && !es[0].Failed? {
      EventLeads(l, es[0]);
      LedToTheEnd(Noted(l, es[0]), es[1..]);
    }
  }

  lemma ReachableIsLed(s: State, l: Ledger, parse: string -> Value)
    requires Recorded(s, l, parse)
    ensures Tracks(s.out) && (AllReachable(s) <==> AllLed(l))
  {
    hide Tracks, Follows;
    FollowsTracks(s);
    forall at: nat | at < |l.items|
      ensures (Phases(s.out)[at].Running? <==> l.items[at].finish.None?) && (IsLive(s, at) <==> Led(l, at))
    {
      assert ItemRecorded(s.out, at, l.items[at], parse);
      if IsLive(s, at) {
        var i :| i in s.slots && s.slots[i].at == at;
        assert SlotRecorded(s, l, i);
      }
      if Led(l, at) {
        var i :| i in l.live && l.live[i] == at;
        assert SlotRecorded(s, l, i);
      }
    }
  }

  /**
   * For every event sequence: at its end every block that still runs can be
   * reached, and so could have been ended, exactly when no item was added under
   * an index whose item was not done. A block that is lost stays lost.
   */
  lemma OnlyReplacedSlotsAreLost(es: seq<RawEvent>, parse: string -> Value)
    ensures var s := Decoded(INITIAL, es, false, parse).0;
            Tracks(s.out) && (AllReachable(s) <==> NothingForgotten(NO_ITEMS, es))
  {
    hide Recorded, NotedAll, NothingForgotten;
    InitialRecorded(parse);
    ItemsRecorded(INITIAL, NO_ITEMS, es, false, parse);
    ReachableIsLed(Decoded(INITIAL, es, false, parse).0, NotedAll(NO_ITEMS, es), parse);
    LedToTheEnd(NO_ITEMS, es);
  }

  /** A second item under index 0 leaves the first one's block running for good. */
  lemma SecondItemLosesTheFirst(parse: string -> Value)
    ensures var es := [Added(0, MessageItem("", "")), Added(0, MessageItem("", "")), ItemDone(0, MessageItem("", ""))];
            var s := Decoded(INITIAL, es, false, parse).0; Tracks(s.out) && !AllReachable(s)
  {
    var es := [Added(0, MessageItem("", "")), Added(0, MessageItem("", "")), ItemDone(0, MessageItem("", ""))];
    OnlyReplacedSlotsAreLost(es, parse);
    assert Forgets(Noted(NO_ITEMS, es[0]), es[1..][0]);
  }

  // ----- When the deltas spell the arguments ---------------------------------------------------------

  /** After every piece, the deltas so far are the argument text so far. */
  predicate InStepThroughout(opening: string, ps: seq<Piece>) {
    forall k | 0 <= k <= |ps| :: Spelled(opening, ps[..k]) == Buffered(opening, ps[..k])
  }

  /** Every whole text extends the text before it. */
  predicate EveryWholeExtends(opening: string, ps: seq<Piece>) {
    forall k | 0 <= k < |ps| && ps[k].Whole? :: Buffered(opening, ps[..k]) <= ps[k].text
  }

  /** If the two agree before a piece, they agree after it unless it is a whole text that does not extend the text. */
  lemma PieceInStep(opening: string, ps: seq<Piece>, k: nat)
    requires k < |ps|
    ensures var before := Buffered(opening, ps[..k]); var fits := ps[k].Part? || before <= ps[k].text;
            && (fits ==>
                  (Spelled(opening, ps[..k + 1]) == Buffered(opening, ps[..k + 1]) <==> Spelled(opening, ps[..k]) == before))
            && (!fits ==> Buffered(opening, ps[..k + 1]) == ps[k].text
                             && Spelled(opening, ps[..k + 1]) == Spelled(opening, ps[..k]))
  {
    hide Buffered, Spelled;
    NextPiece(opening, ps[..k], ps[k]);
    assert ps[..k] + [ps[k]] == ps[..k + 1];
    var before, spelled := Buffered(opening, ps[..k]), Spelled(opening, ps[..k]);
    if ps[k].Part? {
      SameTail(spelled, before, ps[k].text);
    } else if before <= ps[k].text {
      SameTail(spelled, before, ps[k].text[|before|..]);
      assert before + ps[k].text[|before|..] == ps[k].text;
    } else {
      assert spelled + "" == spelled;
    }
  }

  lemma SameTail(a: string, b: string, c: string)
    ensures a + c == b + c <==> a == b
  {
    if a + c == b + c {
      assert (a + c)[..|a|] == a && (b + c)[..|b|] == b;
    }
  }

  lemma {:induction false} InStepExactly(opening: string, ps: seq<Piece>)
    ensures InStepThroughout(opening, ps) <==> opening == "" && EveryWholeExtends(opening, ps)
  {
    hide Buffered, Spelled;
    NothingYet(opening, ps);
    if InStepThroughout(opening, ps) {
      assert Spelled(opening, ps[..0]) == Buffered(opening, ps[..0]);
      forall k | 0 <= k < |ps| && ps[k].Whole? ensures Buffered(opening, ps[..k]) <= ps[k].text {
        PieceInStep(opening, ps, k);
        assert Spelled(opening, ps[..k]) == Buffered(opening, ps[..k]);
        assert Spelled(opening, ps[..k + 1]) == Buffered(opening, ps[..k + 1]);
      }
    }
    if opening == "" && EveryWholeExtends(opening, ps) {
      forall k | 0 <= k <= |ps| ensures Spelled(opening, ps[..k]) == Buffered(opening, ps[..k]) {
        InStepUpTo(opening, ps, k);
      }
    }
  }

  lemma NoPieces(opening: string)
    ensures Spelled(opening, []) == "" && Buffered(opening, []) == opening
  {
  }

  lemma NothingYet(opening: string, ps: seq<Piece>)
    ensures Spelled(opening, ps[..0]) == "" && Buffered(opening, ps[..0]) == opening
  {
  }

  lemma {:induction false} InStepUpTo(opening: string, ps: seq<Piece>, k: nat)
    requires opening == "" && EveryWholeExtends(opening, ps) && k <= |ps|
    ensures Spelled(opening, ps[..k]) == Buffered(opening, ps[..k])
  {
    hide Buffered, Spelled;
    if k == 0 {
      NothingYet(opening, ps);
    } else {
      InStepUpTo(opening, ps, k - 1);
      PieceInStep(opening, ps, k - 1);
    }
  }

  /** The last whole text that does not extend the text before it. */
  function LastMisfit(opening: string, ps: seq<Piece>, k: nat): (m: Option<nat>)
    requires k <= |ps|
    ensures m.Some? ==> m.value < k && ps[m.value].Whole? && !(Buffered(opening, ps[..m.value]) <= ps[m.value].text)
    ensures forall j | (if m.Some? then m.value + 1 else 0) <= j < k ::
              ps[j].Whole? ==> Buffered(opening, ps[..j]) <= ps[j].text
    decreases k
  {
    if k == 0 then None
    else if ps[k - 1].Whole? && !(Buffered(opening, ps[..k - 1]) <= ps[k - 1].text) then Some(k - 1)
    else LastMisfit(opening, ps, k - 1)
  }

  /**
   * At the end alone the two agree exactly if the last whole text that did not
   * extend the text before it is what had been spelled by then; without one,
   * exactly if the item was added without arguments.
   */
  lemma {:induction false} AgreeAtTheEnd(opening: string, ps: seq<Piece>, k: nat)
    requires k <= |ps|
    ensures var m := LastMisfit(opening, ps, k);
            Spelled(opening, ps[..k]) == Buffered(opening, ps[..k]) <==>
              if m.None? then opening == "" else Spelled(opening, ps[..m.value]) == ps[m.value].text
    decreases k
  {
    hide Buffered, Spelled;
    if k == 0 {
      NothingYet(opening, ps);
    } else {
      PieceInStep(opening, ps, k - 1);
      AgreeAtTheEnd(opening, ps, k - 1);
    }
  }

  /**
   * A whole call, in every event sequence: its deltas are those of its own
   * pieces, and its final arguments are what its final text parses to. The
   * deltas spell the argument text after every piece and in the end the final
   * text, where no arguments count as {}, exactly if the item was added without
   * arguments, every whole text extended the text before it, and the finished
   * item brought no arguments or the text so far.
   */
  lemma ArgumentsSpelledExactly(es: seq<RawEvent>, parse: string -> Value, at: nat)
    requires var s := Decoded(INITIAL, es, false, parse).0;
             && at < |s.out.content| && s.out.content[at].ToolBlock?
             && Tracks(s.out) && Phases(s.out)[at].Ended?
    ensures var s, l := Decoded(INITIAL, es, false, parse).0, NotedAll(NO_ITEMS, es);
            && at < |l.items| && var r := l.items[at];
            && r.finish.Some?
            && Phases(s.out)[at].text == Spelled(r.opening, r.pieces)
            && s.out.content[at].arguments == parse(FinalText(r))
            && (InStepThroughout(r.opening, r.pieces) && FinalText(r) == Meant(Phases(s.out)[at].text) <==>
                  && r.opening == "" && EveryWholeExtends(r.opening, r.pieces)
                  && (r.finish.value == "" || r.finish.value == Meant(Buffered(r.opening, r.pieces))))
            && (FinalText(r) == Meant(Phases(s.out)[at].text) && parse("") == parse("{}") ==>
                  s.out.content[at].arguments == parse(Phases(s.out)[at].text))
  {
    hide NotedAll, Spelled, Buffered, Tracks, Follows, InStepThroughout, EveryWholeExtends;
    InitialRecorded(parse);
    ItemsRecorded(INITIAL, NO_ITEMS, es, false, parse);
    var s, l := Decoded(INITIAL, es, false, parse).0, NotedAll(NO_ITEMS, es);
    assert ItemRecorded(s.out, at, l.items[at], parse);
    var r := l.items[at];
    InStepExactly(r.opening, r.pieces);
    if InStepThroughout(r.opening, r.pieces) {
      InStepInTheEnd(r.opening, r.pieces);
    }
  }

  lemma InStepInTheEnd(opening: string, ps: seq<Piece>)
    requires InStepThroughout(opening, ps)
    ensures Spelled(opening, ps) == Buffered(opening, ps)
  {
    assert ps[..|ps|] == ps;
  }

  /** The item was added with "{": its deltas spell "}", while its text is "{}". */
  lemma OpeningIsNotSpelled(callId: string, id: string, name: string, parse: string -> Value)
    ensures var es := [Added(0, FunctionCall(callId, id, name, "{")), ArgumentsDone(0, "{}"),
                       ItemDone(0, FunctionCall(callId, id, name, ""))];
            var s := Decoded(INITIAL, es, false, parse).0;
            && Tracks(s.out) && |s.out.content| == 1 && s.out.content[0].ToolBlock? && Phases(s.out)[0].Ended?
            && Phases(s.out)[0].text == "}" && s.out.content[0].arguments == parse("{}")
  {
    hide Recorded, Follows;
    hide NotedAll, Decoded, Spelled, Buffered;
    var es := [Added(0, FunctionCall(callId, id, name, "{")), ArgumentsDone(0, "{}"), ItemDone(0, FunctionCall(callId, id, name, ""))];
    OneWholeText(callId, id, name, "{", "{}", "");
    OneCallRecorded(es, parse, Record(IsTool, "{", [Whole("{}")], Some("")));
    NextPiece("{", [], Whole("{}"));
    NoPieces("{");
    assert [] + [Whole("{}")] == [Whole("{}")];
    assert "{}"[1..] == "}" && "" + "}" == "}";
  }

  lemma OneWholeText(callId: string, id: string, name: string, opening: string, text: string, finish: string)
    ensures var es := [Added(0, FunctionCall(callId, id, name, opening)), ArgumentsDone(0, text),
                       ItemDone(0, FunctionCall(callId, id, name, finish))];
            NotedAll(NO_ITEMS, es).items == [Record(IsTool, opening, [Whole(text)], Some(finish))]
  {
    var es := [Added(0, FunctionCall(callId, id, name, opening)), ArgumentsDone(0, text),
               ItemDone(0, FunctionCall(callId, id, name, finish))];
    assert es[1..] == [es[1], es[2]] && es[1..][1..] == [es[2]] && es[1..][1..][1..] == [];
    var l1 := Noted(NO_ITEMS, es[0]);
    var l2 := Noted(l1, es[1]);
    var l3 := Noted(l2, es[2]);
    assert NotedAll(NO_ITEMS, es) == NotedAll(l1, es[1..]) == NotedAll(l2, [es[2]]) == NotedAll(l3, []) == l3;
    assert [] + [Whole(text)] == [Whole(text)];
    assert l2.items == [Record(IsTool, opening, [Whole(text)], None)];
  }

  lemma OneCallRecorded(es: seq<RawEvent>, parse: string -> Value, r: Record)
    requires NotedAll(NO_ITEMS, es).items == [r] && r.kind == IsTool && r.finish.Some?
    ensures var s := Decoded(INITIAL, es, false, parse).0;
            && Tracks(s.out) && |s.out.content| == 1 && s.out.content[0].ToolBlock? && Phases(s.out)[0].Ended?
            && Phases(s.out)[0].text == Spelled(r.opening, r.pieces) && s.out.content[0].arguments == parse(FinalText(r))
  {
    hide NotedAll, Spelled, Buffered;
    InitialRecorded(parse);
    ItemsRecorded(INITIAL, NO_ITEMS, es, false, parse);
    var l := NotedAll(NO_ITEMS, es);
    assert ItemRecorded(Decoded(INITIAL, es, false, parse).0.out, 0, l.items[0], parse);
  }

  /** A finished item that brings its arguments for the first time: no delta tells of them. */
  lemma FinalArgumentsAreNotSpelled(callId: string, id: string, name: string, arguments: string, parse: string -> Value)
    requires arguments != ""
    ensures var es := [Added(0, FunctionCall(callId, id, name, "")), ItemDone(0, FunctionCall(callId, id, name, arguments))];
            var s := Decoded(INITIAL, es, false, parse).0;
            && Tracks(s.out) && |s.out.content| == 1 && s.out.content[0].ToolBlock? && Phases(s.out)[0].Ended?
            && Phases(s.out)[0].text == "" && s.out.content[0].arguments == parse(arguments)
  {
    hide Recorded, Follows;
    var es := [Added(0, FunctionCall(callId, id, name, "")), ItemDone(0, FunctionCall(callId, id, name, arguments))];
    assert es[1..] == [es[1]] && es[1..][1..] == [];
    var l1 := Noted(NO_ITEMS, es[0]);
    var l2 := Noted(l1, es[1]);
    assert NotedAll(NO_ITEMS, es) == NotedAll(l1, [es[1]]) == NotedAll(l2, []) == l2;
    assert l2.items == [Record(IsTool, "", [], Some(arguments))];
    OneCallRecorded(es, parse, l2.items[0]);
  }

  /** A whole text that takes back what had been spelled, and a later one that gives it again. */
  lemma AgreementMayReturn()
    ensures var ps := [Part("ab"), Whole("c"), Whole("ab")];
            && !EveryWholeExtends("", ps) && !InStepThroughout("", ps) && Spelled("", ps) == Buffered("", ps) == "ab"
  {
    hide Spelled, Buffered;
    var ps := [Part("ab"), Whole("c"), Whole("ab")];
    NoPieces("");
    NextPiece("", [], Part("ab"));
    NextPiece("", [Part("ab")], Whole("c"));
    NextPiece("", [Part("ab"), Whole("c")], Whole("ab"));
    assert ps[..1] == [] + [Part("ab")] && ps[..2] == [Part("ab")] + [Whole("c")] && ps == [Part("ab"), Whole("c")] + [Whole("ab")];
    assert [] + [Part("ab")] == [Part("ab")];
    assert [Part("ab")] + [Whole("c")] == [Part("ab"), Whole("c")];
    assert "" + "ab" == "ab" && "ab" + "" == "ab";
    assert Buffered("", ps[..1]) == "ab" && Spelled("", ps[..2]) == "ab" && Buffered("", ps[..2]) == "c";
  }
}
