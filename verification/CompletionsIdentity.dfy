/** Which name, id and signature a call of a completions stream ends with, told from its deltas and the details. */
module CompletionsIdentity {
  import opened Wrappers
  import opened JsonText
  import opened BlockEvents
  import opened ToolBlocks
  import opened CompletionsDecoder
  import opened CompletionsProtocol

  // ----- Names and ids -----------------------------------------------------------------------

  /** The first name that is not empty among the deltas that went to block j. */
  function FirstName(log: Log, j: nat): string {
    if log == [] then ""
    else if log[0].1 == j && log[0].0.name != "" then log[0].0.name
    else FirstName(log[1..], j)
  }

  function FirstId(log: Log, j: nat): string {
    if log == [] then ""
    else if log[0].1 == j && log[0].0.id != "" then log[0].0.id
    else FirstId(log[1..], j)
  }

  /** The name that block j has, and its id; none before it is there. */
  function NameIn(s: State, j: nat): string
    requires Usable(s)
  {
    if j < |s.order| then s.out.content[s.order[j].at].name else ""
  }

  function IdIn(s: State, j: nat): string
    requires Usable(s)
  {
    if j < |s.order| then s.out.content[s.order[j].at].id else ""
  }

  function SignatureIn(s: State, j: nat): string
    requires Usable(s)
  {
    if j < |s.order| then s.out.content[s.order[j].at].signature else ""
  }

  function Or(a: string, b: string): string { if a != "" then a else b }

  lemma {:induction false} FirstAppend(a: Log, b: Log, j: nat)
    ensures FirstName(a + b, j) == Or(FirstName(a, j), FirstName(b, j))
    ensures FirstId(a + b, j) == Or(FirstId(a, j), FirstId(b, j))
  {
    if a == [] {
      assert a + b == b;
    } else {
      assert (a + b)[1..] == a[1..] + b;
      FirstAppend(a[1..], b, j);
    }
  }

  /** Tool blocks look the same in both states. */
  predicate SameFaces(s: State, r: State)
    requires Usable(s) && Usable(r)
  {
    && |s.order| == |r.order|
    && forall j | 0 <= j < |s.order| ::
         NameIn(r, j) == NameIn(s, j) && IdIn(r, j) == IdIn(s, j) && SignatureIn(r, j) == SignatureIn(s, j)
  }

  lemma TextKeepsFaces(s: State, text: string)
    requires Usable(s)
    ensures SameFaces(s, TextRead(s, text))
  {
  }

  lemma ThinkingKeepsFaces(s: State, field: string, text: string)
    requires Usable(s)
    ensures SameFaces(s, ThinkingRead(s, field, text))
  {
  }

  lemma BeforeCallsFaces(s: State, chunk: Chunk)
    requires Usable(s)
    ensures SameFaces(s, BeforeCalls(s, chunk)) && BeforeCalls(s, chunk).pending == s.pending
    ensures BeforeCalls(s, chunk).byId == s.byId
  {
    hide TextRead, ThinkingRead, ReasoningField, Placed;
    BeforeCallsKeeps(s, chunk);
    if chunk.Choice? && chunk.delta.Some? {
      var s0 := s.(finished := s.finished || chunk.finished);
      var (field, text) := ReasoningField(chunk.delta.value);
      var s1 := TextRead(s0, chunk.delta.value.content);
      TextKeepsFaces(s0, chunk.delta.value.content);
      ThinkingKeepsFaces(s1, field, text);
      TextKeepsPending(s0, chunk.delta.value.content);
      ThinkingKeepsPending(s1, field, text);
    }
  }

  lemma TextKeepsPending(s: State, text: string)
    requires Usable(s)
    ensures TextRead(s, text).pending == s.pending
  {
    hide Placed, Extended, Opened;
  }

  lemma ThinkingKeepsPending(s: State, field: string, text: string)
    requires Usable(s)
    ensures ThinkingRead(s, field, text).pending == s.pending
  {
    hide Placed, Extended, Opened;
  }

  /** The id by which a delta finds its block called: the block's, or for a new one its own. */
  function CalledBy(s: State, d: CallDelta): string
    requires Usable(s)
  {
    if Route(s, d) < |s.order| then IdIn(s, Route(s, d)) else d.id
  }

  lemma PlacedFaces(s: State, d: CallDelta)
    requires Usable(s)
    ensures var t, k := CallPlaced(s, d), Route(s, d);
            && |t.order| == (if k < |s.order| then |s.order| else |s.order| + 1) && t.pending == s.pending
            && (forall j | 0 <= j < |t.order| ::
                  && NameIn(t, j) == (if j < |s.order| then NameIn(s, j) else d.name)
                  && IdIn(t, j) == (if j < |s.order| then IdIn(s, j) else d.id)
                  && SignatureIn(t, j) == SignatureIn(s, j))
  {
    hide Route;
  }

  lemma PendingFaces(s: State, k: nat)
    requires Usable(s) && k < |s.order|
    ensures var t, id := PendingApplied(s, k), IdIn(s, k);
            var waits := id != "" && id in s.pending;
            && |t.order| == |s.order| && t.pending == (if waits then s.pending - {id} else s.pending)
            && (forall j | 0 <= j < |t.order| ::
                  && NameIn(t, j) == NameIn(s, j) && IdIn(t, j) == IdIn(s, j)
                  && SignatureIn(t, j) == if j == k && waits then s.pending[id] else SignatureIn(s, j))
  {
  }

  lemma ExtendedFaces(s: State, d: CallDelta, k: nat, parse: string -> Value)
    requires Usable(s) && k < |s.order|
    ensures var t := CallExtended(s, d, k, parse);
            && |t.order| == |s.order| && t.pending == s.pending
            && (forall j | 0 <= j < |t.order| ::
                  && NameIn(t, j) == (if j == k then Or(NameIn(s, j), d.name) else NameIn(s, j))
                  && IdIn(t, j) == (if j == k then Or(IdIn(s, j), d.id) else IdIn(s, j))
                  && SignatureIn(t, j) == SignatureIn(s, j))
  {
  }

  /** One delta: its block gets what it lacks, and a detail that waits for its id. */
  lemma CallReadFaces(s: State, d: CallDelta, parse: string -> Value, j: nat)
    requires Usable(s)
    ensures var t, k, id := CallRead(s, d, parse), Route(s, d), CalledBy(s, d);
            var waits := id != "" && id in s.pending;
            && NameIn(t, j) == (if j == k then Or(NameIn(s, j), d.name) else NameIn(s, j))
            && IdIn(t, j) == (if j == k then Or(IdIn(s, j), d.id) else IdIn(s, j))
            && SignatureIn(t, j) == (if j == k && waits then s.pending[id] else SignatureIn(s, j))
            && t.pending == (if waits then s.pending - {id} else s.pending)
  {
    hide Route, CallPlaced, PendingApplied, CallExtended, Placed;
    var k := Route(s, d);
    var t := CallPlaced(s, d);
    PlacedFaces(s, d);
    PendingFaces(t, k);
    ExtendedFaces(PendingApplied(t, k), d, k, parse);
  }

  lemma {:induction false} CallsReadNames(s: State, calls: seq<CallDelta>, parse: string -> Value, j: nat)
    requires Usable(s)
    ensures var t, log := CallsRead(s, calls, parse), CallsLog(s, calls, parse);
            NameIn(t, j) == Or(NameIn(s, j), FirstName(log, j)) && IdIn(t, j) == Or(IdIn(s, j), FirstId(log, j))
    decreases |calls|
  {
    hide CallRead, Route, Usable, NameIn, IdIn;
    if calls != [] {
      var t := CallRead(s, calls[0], parse);
      CallReadFaces(s, calls[0], parse, j);
      CallsReadNames(t, calls[1..], parse, j);
      assert CallsLog(s, calls, parse)[1..] == CallsLog(t, calls[1..], parse);
    }
  }

  lemma DetailFaces(s: State, d: Detail)
    requires Usable(s)
    ensures var t := DetailRead(s, d);
            && |t.order| == |s.order| && t.byId == s.byId
            && t.pending == (if d.id in s.byId then s.pending else s.pending[d.id := d.serialized])
            && (forall j | 0 <= j < |t.order| ::
                  && NameIn(t, j) == NameIn(s, j) && IdIn(t, j) == IdIn(s, j)
                  && SignatureIn(t, j) == if d.id in s.byId && s.byId[d.id] == j then d.serialized else SignatureIn(s, j))
  {
  }

  lemma {:induction false} DetailsReadNames(s: State, details: seq<Detail>, j: nat)
    requires Usable(s)
    ensures var t := DetailsRead(s, details); NameIn(t, j) == NameIn(s, j) && IdIn(t, j) == IdIn(s, j)
    decreases |details|
  {
    hide DetailRead, Placed;
    if details != [] {
      DetailFaces(s, details[0]);
      DetailsReadNames(DetailRead(s, details[0]), details[1..], j);
    }
  }

  lemma {:induction false} ChunksReadNames(s: State, chunks: seq<Chunk>, parse: string -> Value, j: nat)
    requires Usable(s)
    ensures var t, log := ChunksRead(s, chunks, parse), ChunksLog(s, chunks, parse);
            NameIn(t, j) == Or(NameIn(s, j), FirstName(log, j)) && IdIn(t, j) == Or(IdIn(s, j), FirstId(log, j))
    decreases |chunks|
  {
    hide CallsRead, DetailsRead, CallsLog, BeforeCalls, FirstName, FirstId, Placed, TextRead, ThinkingRead, ReasoningField, NameIn, IdIn;
    if chunks == [] {
      NothingFirst(j);
    } else {
      var u, t := BeforeCalls(s, chunks[0]), ChunkRead(s, chunks[0], parse);
      BeforeCallsNames(s, chunks[0], j);
      CallsReadNames(u, CallsOf(chunks[0]), parse, j);
      ChunkIsItsParts(s, chunks[0], parse);
      DetailsReadNames(CallsRead(u, CallsOf(chunks[0]), parse), DetailsOf(chunks[0]), j);
      SameButFinished(DetailsRead(CallsRead(u, CallsOf(chunks[0]), parse), DetailsOf(chunks[0])), t, j);
      ChunksReadNames(t, chunks[1..], parse, j);
      FirstAppend(CallsLog(u, CallsOf(chunks[0]), parse), ChunksLog(t, chunks[1..], parse), j);
    }
  }

  lemma NothingFirst(j: nat)
    ensures FirstName([], j) == "" && FirstId([], j) == ""
  {
  }

  lemma BeforeCallsNames(s: State, chunk: Chunk, j: nat)
    requires Usable(s)
    ensures NameIn(BeforeCalls(s, chunk), j) == NameIn(s, j) && IdIn(BeforeCalls(s, chunk), j) == IdIn(s, j)
    ensures SignatureIn(BeforeCalls(s, chunk), j) == SignatureIn(s, j)
  {
    hide BeforeCalls, Placed;
    BeforeCallsFaces(s, chunk);
  }

  function DetailsOf(chunk: Chunk): seq<Detail> {
    if chunk.Skipped? || chunk.delta.None? then [] else chunk.delta.value.details
  }

  /** A chunk is its text and thinking, its calls, its details; an empty one may still bring the finish reason. */
  lemma ChunkIsItsParts(s: State, chunk: Chunk, parse: string -> Value)
    requires Usable(s)
    ensures var t := DetailsRead(CallsRead(BeforeCalls(s, chunk), CallsOf(chunk), parse), DetailsOf(chunk));
            ChunkRead(s, chunk, parse) == t.(finished := ChunkRead(s, chunk, parse).finished)
  {
    hide TextRead, ThinkingRead, ReasoningField, Placed, CallRead, DetailRead;
    var u := BeforeCalls(s, chunk);
    assert CallsOf(chunk) == [] ==> CallsRead(u, CallsOf(chunk), parse) == u;
  }

  lemma SameButFinished(s: State, t: State, j: nat)
    requires Usable(s) && Usable(t) && t == s.(finished := t.finished)
    ensures NameIn(t, j) == NameIn(s, j) && IdIn(t, j) == IdIn(s, j) && SignatureIn(t, j) == SignatureIn(s, j)
  {
  }

  // ----- The end of the stream ---------------------------------------------------------------

  lemma FinishedSame(s: State, parse: string -> Value)
    requires Usable(s)
    ensures var r := Finished(s, parse);
            && r.order == s.order && |r.out.content| == |s.out.content|
            && forall at | 0 <= at < |s.out.content| :: SameButArguments(s.out.content[at], r.out.content[at])
  {
    hide ToolsClosed, SameButArguments;
    var o := BlockClosed(BlockClosed(s.out, s.text), s.thinking);
    assert o.content == s.out.content;
    ToolsClosedSame(o, s.order, 0, parse);
  }

  /** The call in block j of the message at the end. */
  function CallAt(s: State, j: nat): Option<Content> {
    if j < |s.order| && s.order[j].at < |s.out.content| && s.out.content[s.order[j].at].ToolBlock?
    then Some(s.out.content[s.order[j].at]) else None
  }

  lemma FinishedFaces(s: State, parse: string -> Value, j: nat)
    requires Usable(s) && j < |s.order|
    ensures var c := CallAt(Finished(s, parse), j);
            c.Some? && c.value.name == NameIn(s, j) && c.value.id == IdIn(s, j) && c.value.signature == SignatureIn(s, j)
  {
    hide Finished;
    FinishedSame(s, parse);
    assert SameButArguments(s.out.content[s.order[j].at], Finished(s, parse).out.content[s.order[j].at]);
  }

  /**
   * For every chunk sequence: a call's name is the first non-empty name, and its
   * id the first non-empty id, among the deltas that were routed to its block.
   */
  lemma CompletionsNameCalls(chunks: seq<Chunk>, parse: string -> Value, j: nat)
    requires j < |Decoded(chunks, false, parse).0.order|
    ensures var c, log := CallAt(Decoded(chunks, false, parse).0, j), ChunksLog(INITIAL, chunks, parse);
            c.Some? && c.value.name == FirstName(log, j) && c.value.id == FirstId(log, j)
  {
    hide Finished, ChunksRead, ChunksLog, FirstName, FirstId, CallAt;
    InitialUsable();
    NothingNamed(j);
    ChunksReadNames(INITIAL, chunks, parse, j);
    var s := ChunksRead(INITIAL, chunks, parse);
    FinishedKeepsOrder(s, parse);
    FinishedFaces(s, parse, j);
  }

  lemma FinishedKeepsOrder(s: State, parse: string -> Value)
    requires Usable(s)
    ensures Finished(s, parse).order == s.order
  {
  }

  lemma NothingNamed(j: nat)
    ensures Usable(INITIAL) && NameIn(INITIAL, j) == "" && IdIn(INITIAL, j) == "" && SignatureIn(INITIAL, j) == ""
  {
  }

  // ----- Signatures --------------------------------------------------------------------------

  /** A delta and the block it went to, or a detail, in the order they were read. */
  datatype Item = CallItem(d: CallDelta, j: nat) | DetailItem(detail: Detail)

  type Items = seq<Item>

  /** The block of the last delta that carried the id. */
  function Carrier(items: Items, id: string): Option<nat>
    decreases |items|
  {
    if items == [] then None
    else
      var last := items[|items| - 1];
      if last.CallItem? && last.d.id == id && id != "" then Some(last.j) else Carrier(items[..|items| - 1], id)
  }

  predicate HasOpened(items: Items, j: nat) { exists k :: 0 <= k < |items| && items[k].CallItem? && items[k].j == j }

  function IdOf(items: Items, j: nat): string
    decreases |items|
  {
    if items == [] then ""
    else
      var last := items[|items| - 1];
      Or(IdOf(items[..|items| - 1], j), if last.CallItem? && last.j == j then last.d.id else "")
  }

  /** The id by which a delta finds its block called. */
  function Called(before: Items, d: CallDelta, j: nat): string { if HasOpened(before, j) then IdOf(before, j) else d.id }

  /** The detail that waits for a call with the id: the last that came before any delta carried it, until a delta finds a block called so. */
  function Waiting(items: Items, id: string): Option<string>
    decreases |items|
  {
    if items == [] then None
    else
      var before, last := items[..|items| - 1], items[|items| - 1];
      match last
      case DetailItem(detail) =>
        if detail.id == id && Carrier(before, id).None? then Some(detail.serialized) else Waiting(before, id)
      case CallItem(d, j) => if id != "" && Called(before, d, j) == id then None else Waiting(before, id)
  }

  /** The signature of block j. */
  function SignatureOf(items: Items, j: nat): string
    decreases |items|
  {
    if items == [] then ""
    else
      var before, last := items[..|items| - 1], items[|items| - 1];
      match last
      case DetailItem(detail) => if Carrier(before, detail.id) == Some(j) then detail.serialized else SignatureOf(before, j)
      case CallItem(d, k) =>
        var id := Called(before, d, k);
        if k == j && id != "" && Waiting(before, id).Some? then Waiting(before, id).value else SignatureOf(before, j)
  }

  function CallItems(s: State, calls: seq<CallDelta>, parse: string -> Value): Items
    requires Usable(s)
    decreases |calls|
  {
    if calls == [] then [] else [CallItem(calls[0], Route(s, calls[0]))] + CallItems(CallRead(s, calls[0], parse), calls[1..], parse)
  }

  function DetailItems(details: seq<Detail>): Items {
    if details == [] then [] else [DetailItem(details[0])] + DetailItems(details[1..])
  }

  /** The deltas and details of a stream, in order. */
  function AllItems(s: State, chunks: seq<Chunk>, parse: string -> Value): Items
    requires Usable(s)
    decreases |chunks|
  {
    if chunks == [] then []
    else CallItems(BeforeCalls(s, chunks[0]), CallsOf(chunks[0]), parse) + DetailItems(DetailsOf(chunks[0]))
         + AllItems(ChunkRead(s, chunks[0], parse), chunks[1..], parse)
  }

  /** The decoder's maps and blocks are as the items say. */
  ghost predicate ItemsSay(items: Items, s: State)
    requires Usable(s)
  {
    && (forall id: string :: Carrier(items, id) == if id in s.byId then Some(s.byId[id]) else None)
    && (forall id: string :: Waiting(items, id) == if id in s.pending then Some(s.pending[id]) else None)
    && (forall j: nat :: SignatureOf(items, j) == SignatureIn(s, j))
    && (forall j: nat :: IdOf(items, j) == IdIn(s, j))
    && (forall j: nat :: HasOpened(items, j) <==> j < |s.order|)
  }

  lemma NextItem(items: Items, item: Item)
    ensures (items + [item])[..|items|] == items && (items + [item])[|items|] == item && |items + [item]| == |items| + 1
  {
  }

  lemma OpenedNext(items: Items, item: Item, j: nat)
    ensures HasOpened(items + [item], j) <==> HasOpened(items, j) || (item.CallItem? && item.j == j)
  {
    var more := items + [item];
    if HasOpened(items, j) {
      var k :| 0 <= k < |items| && items[k].CallItem? && items[k].j == j;
      assert more[k].CallItem? && more[k].j == j;
    }
    if item.CallItem? && item.j == j {
      assert more[|items|].CallItem? && more[|items|].j == j;
    }
    if HasOpened(more, j) {
      var k :| 0 <= k < |more| && more[k].CallItem? && more[k].j == j;
      assert k < |items| ==> items[k].CallItem? && items[k].j == j;
    }
  }

  lemma CallSays(items: Items, s: State, d: CallDelta, parse: string -> Value)
    requires Usable(s) && ItemsSay(items, s)
    ensures ItemsSay(items + [CallItem(d, Route(s, d))], CallRead(s, d, parse))
  {
    hide Route, CallRead, Placed, HasOpened, NameIn, IdIn, SignatureIn;
    var k, t := Route(s, d), CallRead(s, d, parse);
    var more := items + [CallItem(d, k)];
    NextItem(items, CallItem(d, k));
    CallReadMaps(s, d, parse);
    assert Called(items, d, k) == CalledBy(s, d);
    forall j: nat
      ensures SignatureOf(more, j) == SignatureIn(t, j) && IdOf(more, j) == IdIn(t, j)
      ensures HasOpened(more, j) <==> j < |t.order|
    {
      CallReadFaces(s, d, parse, j);
      OpenedNext(items, CallItem(d, k), j);
    }
    CallReadFaces(s, d, parse, 0);
  }

  lemma DetailSays(items: Items, s: State, detail: Detail)
    requires Usable(s) && ItemsSay(items, s)
    ensures ItemsSay(items + [DetailItem(detail)], DetailRead(s, detail))
  {
    hide DetailRead, Placed, HasOpened, NameIn, IdIn, SignatureIn;
    var t, more := DetailRead(s, detail), items + [DetailItem(detail)];
    NextItem(items, DetailItem(detail));
    DetailFaces(s, detail);
    forall j: nat
      ensures SignatureOf(more, j) == SignatureIn(t, j) && IdOf(more, j) == IdIn(t, j)
      ensures HasOpened(more, j) <==> j < |t.order|
    {
      OpenedNext(items, DetailItem(detail), j);
      assert SignatureOf(items, j) == SignatureIn(s, j) && IdOf(items, j) == IdIn(s, j);
      BeyondOrder(s, t, j);
    }
  }

  /** There is nothing to see of a block that is not there. */
  lemma BeyondOrder(s: State, t: State, j: nat)
    requires Usable(s) && Usable(t) && |s.order| == |t.order|
    ensures j >= |s.order| ==> SignatureIn(t, j) == SignatureIn(s, j) == "" && IdIn(t, j) == IdIn(s, j) == ""
  {
  }

  lemma Regrouped(a: Items, b: Items, c: Items)
    ensures (a + b) + c == a + (b + c)
  {
  }

  lemma {:induction false} CallsSay(items: Items, s: State, calls: seq<CallDelta>, parse: string -> Value)
    requires Usable(s) && ItemsSay(items, s)
    ensures ItemsSay(items + CallItems(s, calls, parse), CallsRead(s, calls, parse))
    decreases |calls|
  {
    hide Route, CallRead, Placed, ItemsSay, Usable;
    if calls == [] {
      assert items + [] == items;
    } else {
      var t, first := CallRead(s, calls[0], parse), [CallItem(calls[0], Route(s, calls[0]))];
      CallSays(items, s, calls[0], parse);
      CallsSay(items + first, t, calls[1..], parse);
      Regrouped(items, first, CallItems(t, calls[1..], parse));
    }
  }

  lemma {:induction false} DetailsSay(items: Items, s: State, details: seq<Detail>)
    requires Usable(s) && ItemsSay(items, s)
    ensures ItemsSay(items + DetailItems(details), DetailsRead(s, details))
    decreases |details|
  {
    hide DetailRead, Placed, ItemsSay, Usable;
    if details == [] {
      assert items + [] == items;
    } else {
      DetailSays(items, s, details[0]);
      DetailsSay(items + [DetailItem(details[0])], DetailRead(s, details[0]), details[1..]);
      Regrouped(items, [DetailItem(details[0])], DetailItems(details[1..]));
    }
  }

  /** Text, thinking and the finish reason change none of what the items say. */
  lemma SaysStill(items: Items, s: State, t: State)
    requires Usable(s) && Usable(t) && ItemsSay(items, s)
    requires t.byId == s.byId && t.pending == s.pending && SameFaces(s, t)
    ensures ItemsSay(items, t)
  {
    hide NameIn;
    forall j: nat ensures SignatureOf(items, j) == SignatureIn(t, j) && IdOf(items, j) == IdIn(t, j) {
      BeyondOrder(s, t, j);
    }
  }

  lemma {:induction false} ChunksSay(items: Items, s: State, chunks: seq<Chunk>, parse: string -> Value)
    requires Usable(s) && ItemsSay(items, s)
    ensures ItemsSay(items + AllItems(s, chunks, parse), ChunksRead(s, chunks, parse))
    decreases |chunks|
  {
    hide CallItems, DetailItems, CallsRead, DetailsRead, ChunkRead, BeforeCalls, ItemsSay, Usable, SameFaces;
    if chunks == [] {
      assert items + [] == items;
    } else {
      var u, t := BeforeCalls(s, chunks[0]), ChunkRead(s, chunks[0], parse);
      BeforeCallsFaces(s, chunks[0]);
      SaysStill(items, s, u);
      var calls := CallItems(u, CallsOf(chunks[0]), parse);
      CallsSay(items, u, CallsOf(chunks[0]), parse);
      var v := CallsRead(u, CallsOf(chunks[0]), parse);
      var details := DetailItems(DetailsOf(chunks[0]));
      DetailsSay(items + calls, v, DetailsOf(chunks[0]));
      ChunkIsItsParts(s, chunks[0], parse);
      FinishSays((items + calls) + details, DetailsRead(v, DetailsOf(chunks[0])), t);
      ChunksSay((items + calls) + details, t, chunks[1..], parse);
      Regrouped(items, calls, details);
      Regrouped(items, calls + details, AllItems(t, chunks[1..], parse));
    }
  }

  lemma FinishSays(items: Items, s: State, t: State)
    requires Usable(s) && Usable(t) && ItemsSay(items, s) && t == s.(finished := t.finished)
    ensures ItemsSay(items, t)
  {
    hide ItemsSay;
    SaysStill(items, s, t);
  }

  lemma NothingSays()
    ensures Usable(INITIAL) && ItemsSay([], INITIAL)
  {
  }

  /** For every chunk sequence: the signatures at the end are those that deltas and details make. */
  lemma CompletionsSignCalls(chunks: seq<Chunk>, parse: string -> Value, j: nat)
    requires j < |Decoded(chunks, false, parse).0.order|
    ensures var c := CallAt(Decoded(chunks, false, parse).0, j);
            c.Some? && c.value.signature == SignatureOf(AllItems(INITIAL, chunks, parse), j)
  {
    hide Finished, ChunksRead, AllItems, SignatureOf, CallAt, Carrier, Waiting, IdOf;
    NothingSays();
    ChunksSay([], INITIAL, chunks, parse);
    var s, items := ChunksRead(INITIAL, chunks, parse), AllItems(INITIAL, chunks, parse);
    assert [] + items == items;
    FinishedKeepsOrder(s, parse);
    FinishedFaces(s, parse, j);
    assert SignatureOf(items, j) == SignatureIn(s, j);
  }

  /** The deltas among the items. */
  function CallsAmong(items: Items): Log
    decreases |items|
  {
    if items == [] then []
    else
      var last := items[|items| - 1];
      CallsAmong(items[..|items| - 1]) + if last.CallItem? then [(last.d, last.j)] else []
  }

  lemma {:induction false} CallsAmongAppend(a: Items, b: Items)
    ensures CallsAmong(a + b) == CallsAmong(a) + CallsAmong(b)
    decreases |b|
  {
    if b == [] {
      assert a + b == a;
    } else {
      assert (a + b)[..|a + b| - 1] == a + b[..|b| - 1];
      CallsAmongAppend(a, b[..|b| - 1]);
    }
  }

  lemma {:induction false} CallItemsAmong(s: State, calls: seq<CallDelta>, parse: string -> Value)
    requires Usable(s)
    ensures CallsAmong(CallItems(s, calls, parse)) == CallsLog(s, calls, parse)
    decreases |calls|
  {
    hide Route, CallRead, Usable;
    if calls != [] {
      var first := CallItem(calls[0], Route(s, calls[0]));
      CallItemsAmong(CallRead(s, calls[0], parse), calls[1..], parse);
      CallsAmongAppend([first], CallItems(CallRead(s, calls[0], parse), calls[1..], parse));
      assert [first][..0] == [];
    }
  }

  lemma {:induction false} DetailItemsAmong(details: seq<Detail>)
    ensures CallsAmong(DetailItems(details)) == []
    decreases |details|
  {
    if details != [] {
      DetailItemsAmong(details[1..]);
      CallsAmongAppend([DetailItem(details[0])], DetailItems(details[1..]));
      assert [DetailItem(details[0])][..0] == [];
    }
  }

  /** The deltas among all items are those of the log, each with its block. */
  lemma {:induction false} AllCallsAmong(s: State, chunks: seq<Chunk>, parse: string -> Value)
    requires Usable(s)
    ensures CallsAmong(AllItems(s, chunks, parse)) == ChunksLog(s, chunks, parse)
    decreases |chunks|
  {
    hide CallItems, DetailItems, CallsAmong, CallsLog, ChunkRead, BeforeCalls, Usable;
    if chunks == [] {
      assert CallsAmong([]) == [] by { NothingAmong(); }
    } else {
      var u, t := BeforeCalls(s, chunks[0]), ChunkRead(s, chunks[0], parse);
      var calls, details := CallItems(u, CallsOf(chunks[0]), parse), DetailItems(DetailsOf(chunks[0]));
      CallItemsAmong(u, CallsOf(chunks[0]), parse);
      DetailItemsAmong(DetailsOf(chunks[0]));
      AllCallsAmong(t, chunks[1..], parse);
      CallsAmongAppend(calls, details);
      CallsAmongAppend(calls + details, AllItems(t, chunks[1..], parse));
      assert CallsAmong(calls) + [] == CallsAmong(calls);
    }
  }

  lemma NothingAmong()
    ensures CallsAmong([]) == []
  {
  }

  // ----- When a signature is the last detail of the call's id ------------------------------------

  /** The last detail with the id. */
  function LastDetail(items: Items, id: string): Option<string>
    decreases |items|
  {
    if items == [] then None
    else
      var last := items[|items| - 1];
      if last.DetailItem? && last.detail.id == id then Some(last.detail.serialized) else LastDetail(items[..|items| - 1], id)
  }

  function TextOr(o: Option<string>): string { if o.Some? then o.value else "" }

  predicate IsFirstOf(log: Log, k: nat, j: nat) {
    k < |log| && log[k].1 == j && forall i | 0 <= i < k :: log[i].1 != j
  }

  /** The block is opened by a delta with the id, which no other block's delta carries, and its deltas carry no other. */
  predicate OwnsId(log: Log, j: nat, id: string) {
    && (forall k | 0 <= k < |log| && IsFirstOf(log, k, j) :: log[k].0.id == id)
    && (forall k | 0 <= k < |log| && log[k].0.id == id :: log[k].1 == j)
    && (forall k | 0 <= k < |log| && log[k].1 == j :: log[k].0.id == "" || log[k].0.id == id)
  }

  lemma OwnsIdBefore(log: Log, e: (CallDelta, nat), j: nat, id: string)
    requires OwnsId(log + [e], j, id)
    ensures OwnsId(log, j, id)
    ensures e.0.id == id ==> e.1 == j
    ensures e.1 == j ==> e.0.id == "" || e.0.id == id
    ensures e.1 == j && !GoesTo(log, j) ==> e.0.id == id
  {
    var more := log + [e];
    assert forall k | 0 <= k < |log| :: more[k] == log[k];
    assert more[|log|] == e;
    forall k | 0 <= k < |log| && IsFirstOf(log, k, j) ensures log[k].0.id == id {
      assert IsFirstOf(more, k, j);
    }
    if e.1 == j && !GoesTo(log, j) {
      assert IsFirstOf(more, |log|, j);
    }
  }

  predicate GoesTo(log: Log, j: nat) { exists k :: 0 <= k < |log| && log[k].1 == j }

  lemma GoesToNext(log: Log, e: (CallDelta, nat), j: nat)
    ensures GoesTo(log + [e], j) <==> GoesTo(log, j) || e.1 == j
  {
    var more := log + [e];
    if k :| 0 <= k < |log| && log[k].1 == j {
      assert more[k].1 == j;
    }
    if k :| 0 <= k < |more| && more[k].1 == j {
      assert k < |log| ==> log[k].1 == j;
    }
    assert more[|log|] == e;
  }

  /** A block is opened exactly if a delta went to it. */
  lemma {:induction false} OpenedInLog(items: Items, j: nat)
    ensures HasOpened(items, j) <==> GoesTo(CallsAmong(items), j)
    decreases |items|
  {
    if items != [] {
      hide HasOpened, GoesTo;
      var before, last := items[..|items| - 1], items[|items| - 1];
      assert items == before + [last];
      OpenedInLog(before, j);
      OpenedNext(before, last, j);
      if last.CallItem? {
        GoesToNext(CallsAmong(before), (last.d, last.j), j);
      } else {
        assert CallsAmong(before) + [] == CallsAmong(before);
      }
    }
  }

  /** What holds along the way for a block that owns its id. */
  predicate Owned(items: Items, j: nat, id: string) {
    if HasOpened(items, j) then
      && Carrier(items, id) == Some(j) && IdOf(items, j) == id
      && Waiting(items, id).None? && SignatureOf(items, j) == TextOr(LastDetail(items, id))
    else
      && Carrier(items, id).None? && IdOf(items, j) == ""
      && Waiting(items, id) == LastDetail(items, id) && SignatureOf(items, j) == ""
  }

  /** Other ids do not lead to the block, and other blocks do not have its id. */
  ghost predicate Apart(items: Items, j: nat, id: string) {
    && (forall other: string | other != id :: Carrier(items, other) != Some(j))
    && (forall k: nat | k != j :: IdOf(items, k) != id)
  }

  lemma ItemKeepsOwned(items: Items, item: Item, j: nat, id: string)
    requires id != "" && Owned(items, j, id) && Apart(items, j, id)
    requires item.CallItem? ==>
               && (item.d.id == id ==> item.j == j)
               && (item.j == j ==> item.d.id == "" || item.d.id == id)
               && (item.j == j && !HasOpened(items, j) ==> item.d.id == id)
    ensures Owned(items + [item], j, id) && Apart(items + [item], j, id)
  {
    hide HasOpened;
    var more := items + [item];
    NextItem(items, item);
    OpenedNext(items, item, j);
    forall other: string | other != id ensures Carrier(more, other) != Some(j) {
      assert Carrier(items, other) != Some(j);
    }
    forall k: nat | k != j ensures IdOf(more, k) != id {
      assert IdOf(items, k) != id;
    }
    ItemKeepsTurn(items, item, j, id);
  }

  lemma ItemKeepsTurn(items: Items, item: Item, j: nat, id: string)
    requires id != "" && Owned(items, j, id) && Apart(items, j, id)
    requires item.CallItem? ==>
               && (item.d.id == id ==> item.j == j)
               && (item.j == j ==> item.d.id == "" || item.d.id == id)
               && (item.j == j && !HasOpened(items, j) ==> item.d.id == id)
    ensures Owned(items + [item], j, id)
  {
    hide HasOpened;
    NextItem(items, item);
    OpenedNext(items, item, j);
    if item.CallItem? && item.j != j {
      assert Called(items, item.d, item.j) != id;
    } else if item.DetailItem? && item.detail.id != id {
      assert Carrier(items, item.detail.id) != Some(j);
    }
  }

  lemma {:induction false} OwnedAlways(items: Items, j: nat, id: string)
    requires id != "" && OwnsId(CallsAmong(items), j, id)
    ensures Owned(items, j, id) && Apart(items, j, id)
    decreases |items|
  {
    hide OwnsId, Owned, Apart, HasOpened;
    if items == [] {
      NothingOwned(j, id);
    } else {
      var before, last := items[..|items| - 1], items[|items| - 1];
      assert items == before + [last];
      if last.CallItem? {
        OwnsIdBefore(CallsAmong(before), (last.d, last.j), j, id);
        OpenedInLog(before, j);
      } else {
        assert CallsAmong(before) + [] == CallsAmong(before);
      }
      OwnedAlways(before, j, id);
      ItemKeepsOwned(before, last, j, id);
    }
  }

  lemma NothingOwned(j: nat, id: string)
    requires id != ""
    ensures Owned([], j, id) && Apart([], j, id)
  {
  }

  /** The deltas as items, and nothing between them. */
  function Calls(log: Log): Items {
    if log == [] then [] else [CallItem(log[0].0, log[0].1)] + Calls(log[1..])
  }

  lemma {:induction false} CallsAmongCalls(log: Log)
    ensures CallsAmong(Calls(log)) == log
  {
    if log != [] {
      CallsAmongCalls(log[1..]);
      var first := CallItem(log[0].0, log[0].1);
      CallsAmongAppend([first], Calls(log[1..]));
      assert [first][..0] == [];
    }
  }

  ghost predicate NothingWaits(items: Items) { forall id: string :: Waiting(items, id).None? }

  lemma OneMoreCall(items: Items, log: Log)
    requires log != []
    ensures items + Calls(log) == (items + [CallItem(log[0].0, log[0].1)]) + Calls(log[1..])
  {
  }

  /** When nothing waits, further deltas sign nothing and bring no details. */
  lemma {:induction false} QuietCalls(items: Items, log: Log, j: nat)
    requires NothingWaits(items)
    ensures NothingWaits(items + Calls(log)) && SignatureOf(items + Calls(log), j) == SignatureOf(items, j)
    decreases |log|
  {
    if log == [] {
      assert items + [] == items;
    } else {
      var first := CallItem(log[0].0, log[0].1);
      NextItem(items, first);
      forall id: string ensures Waiting(items + [first], id).None? {
        assert Waiting(items, id).None?;
      }
      QuietCalls(items + [first], log[1..], j);
      OneMoreCall(items, log);
    }
  }

  lemma {:induction false} CallsBringNoDetails(items: Items, log: Log, id: string)
    ensures LastDetail(items + Calls(log), id) == LastDetail(items, id)
    decreases |log|
  {
    if log == [] {
      assert items + [] == items;
    } else {
      NextItem(items, CallItem(log[0].0, log[0].1));
      CallsBringNoDetails(items + [CallItem(log[0].0, log[0].1)], log[1..], id);
      OneMoreCall(items, log);
    }
  }

  lemma NothingYet(j: nat, id: string)
    ensures NothingWaits([]) && SignatureOf([], j) == "" && LastDetail([], id).None? && CallsAmong([]) == []
  {
  }

  /** The deltas of log with one detail behind the first p + 1 of them. */
  function WithDetail(log: Log, p: nat, id: string): Items
    requires p < |log|
  {
    (Calls(log[..p + 1]) + [DetailItem(Detail(id, "t"))]) + Calls(log[p + 1..])
  }

  lemma {:induction false} LastCarries(log: Log)
    requires log != []
    ensures Calls(log) == Calls(log[..|log| - 1]) + [CallItem(log[|log| - 1].0, log[|log| - 1].1)]
    decreases |log|
  {
    if |log| > 1 {
      LastCarries(log[1..]);
      assert log[1..][..|log| - 2] == log[..|log| - 1][1..];
    } else {
      assert log[1..] == [] && log[..0] == [];
    }
  }

  /** A detail of the id that delta p carries signs the block of delta p, then and there, and no other. */
  lemma DetailSigns(log: Log, p: nat, j: nat, id: string)
    requires p < |log| && log[p].0.id != ""
    ensures var items := WithDetail(log, p, log[p].0.id);
            && CallsAmong(items) == log
            && SignatureOf(items, j) == (if log[p].1 == j then "t" else "")
            && LastDetail(items, id) == if id == log[p].0.id then Some("t") else None
  {
    hide SignatureOf, Waiting, LastDetail, Calls, CallsAmong, Carrier;
    var before, detail := log[..p + 1], DetailItem(Detail(log[p].0.id, "t"));
    var calls, rest := Calls(before), log[p + 1..];
    var signed := calls + [detail];
    NothingYet(j, id);
    assert [] + calls == calls;
    QuietCalls([], before, j);
    CallsBringNoDetails([], before, id);
    LastCarries(before);
    CarriedLast(Calls(before[..p]), log[p].0, log[p].1);
    DetailReaches(calls, detail.detail, log[p].1, j, id);
    QuietCalls(signed, rest, j);
    CallsBringNoDetails(signed, rest, id);
    CallsAmongCalls(before);
    CallsAmongCalls(rest);
    CallsAmongAppend(calls, [detail]);
    CallsAmongAppend(signed, Calls(rest));
    DetailIsNoCall(detail);
    assert (before + []) + rest == log;
  }

  lemma DetailIsNoCall(detail: Item)
    requires detail.DetailItem?
    ensures CallsAmong([detail]) == []
  {
    assert [detail][..0] == [];
  }

  lemma CarriedLast(items: Items, d: CallDelta, j: nat)
    requires d.id != ""
    ensures Carrier(items + [CallItem(d, j)], d.id) == Some(j)
  {
    NextItem(items, CallItem(d, j));
  }

  lemma DetailReaches(items: Items, detail: Detail, k: nat, j: nat, id: string)
    requires NothingWaits(items) && Carrier(items, detail.id) == Some(k)
    ensures var more := items + [DetailItem(detail)];
            && NothingWaits(more) && SignatureOf(more, j) == (if k == j then detail.serialized else SignatureOf(items, j))
            && LastDetail(more, id) == if detail.id == id then Some(detail.serialized) else LastDetail(items, id)
  {
    var more := items + [DetailItem(detail)];
    NextItem(items, DetailItem(detail));
    forall other: string ensures Waiting(more, other).None? {
      assert Waiting(items, other).None?;
    }
  }

  /** No delta to another block carries the id. */
  predicate KeepsTo(log: Log, j: nat, id: string) { forall k | 0 <= k < |log| && log[k].0.id == id :: log[k].1 == j }

  ghost predicate OnlyOwner(items: Items, j: nat, id: string) { forall k: nat | k != j :: IdOf(items, k) != id }

  /** Nothing waits any more for the id of block j: its signature stays. */
  lemma {:induction false} SignatureStays(items: Items, log: Log, j: nat, id: string)
    requires id != "" && HasOpened(items, j) && IdOf(items, j) == id && Waiting(items, id).None?
    ensures SignatureOf(items + Calls(log), j) == SignatureOf(items, j)
    decreases |log|
  {
    hide HasOpened;
    if log == [] {
      assert items + [] == items;
    } else {
      var first := CallItem(log[0].0, log[0].1);
      NextItem(items, first);
      OpenedNext(items, first, j);
      SignatureStays(items + [first], log[1..], j, id);
      OneMoreCall(items, log);
    }
  }

  /** A detail still waits for the id of block j: the next delta to it applies that one. */
  lemma {:induction false} NextDeltaSigns(items: Items, log: Log, j: nat, id: string)
    requires id != "" && HasOpened(items, j) && IdOf(items, j) == id && Waiting(items, id).Some?
    requires OnlyOwner(items, j, id) && KeepsTo(log, j, id)
    ensures SignatureOf(items + Calls(log), j) == if GoesTo(log, j) then Waiting(items, id).value else SignatureOf(items, j)
    decreases |log|
  {
    hide HasOpened, GoesTo;
    if log == [] {
      assert items + [] == items;
      assert !GoesTo(log, j) by { NoneGoes(j); }
    } else {
      var first := CallItem(log[0].0, log[0].1);
      var more := items + [first];
      NextItem(items, first);
      OpenedNext(items, first, j);
      OneMoreCall(items, log);
      GoesFirst(log, j);
      if log[0].1 == j {
        SignatureStays(more, log[1..], j, id);
      } else {
        assert IdOf(items, log[0].1) != id && log[0].0.id != id;
        forall k: nat | k != j ensures IdOf(more, k) != id {
          assert IdOf(items, k) != id;
        }
        KeepsLater(log, j, id);
        NextDeltaSigns(more, log[1..], j, id);
      }
    }
  }

  lemma NoneGoes(j: nat)
    ensures !GoesTo([], j)
  {
  }

  lemma GoesFirst(log: Log, j: nat)
    requires log != []
    ensures GoesTo(log, j) <==> log[0].1 == j || GoesTo(log[1..], j)
  {
    if k :| 0 <= k < |log| && log[k].1 == j {
      assert k > 0 ==> log[1..][k - 1].1 == j;
    }
    if k :| 0 <= k < |log[1..]| && log[1..][k].1 == j {
      assert log[k + 1].1 == j;
    }
  }

  lemma KeepsLater(log: Log, j: nat, id: string)
    requires log != [] && KeepsTo(log, j, id)
    ensures KeepsTo(log[1..], j, id)
  {
    assert forall k | 0 <= k < |log[1..]| :: log[1..][k] == log[k + 1];
  }

  /** As long as no delta carries the id, a detail that waits for it goes on waiting. */
  lemma {:induction false} WaitsOn(items: Items, log: Log, j: nat, id: string)
    requires id != "" && Waiting(items, id).Some? && forall k: nat :: IdOf(items, k) != id
    requires SignatureOf(items, j) == "" && IdOf(items, j) == ""
    requires forall k | 0 <= k < |log| :: log[k].0.id != id && (log[k].1 == j ==> log[k].0.id == "")
    ensures var more := items + Calls(log);
            && Waiting(more, id) == Waiting(items, id) && SignatureOf(more, j) == "" && IdOf(more, j) == ""
            && (forall k: nat :: IdOf(more, k) != id)
    decreases |log|
  {
    if log == [] {
      assert items + [] == items;
    } else {
      var first := CallItem(log[0].0, log[0].1);
      var more := items + [first];
      NextItem(items, first);
      OneMoreCall(items, log);
      forall k: nat ensures IdOf(more, k) != id {
        assert IdOf(items, k) != id;
      }
      assert IdOf(items, log[0].1) != id;
      assert forall k | 0 <= k < |log[1..]| :: log[1..][k] == log[k + 1];
      WaitsOn(more, log[1..], j, id);
    }
  }

  /** The first delta that brings block j its id. */
  lemma {:induction false} FirstIdAt(log: Log, j: nat) returns (q: nat)
    requires FirstId(log, j) != ""
    ensures q < |log| && log[q].1 == j && log[q].0.id == FirstId(log, j)
    ensures forall i | 0 <= i < q && log[i].1 == j :: log[i].0.id == ""
    decreases |log|
  {
    q := 0;
    if !(log[0].1 == j && log[0].0.id != "") {
      var later := FirstIdAt(log[1..], j);
      q := later + 1;
      forall i | 0 <= i < q && log[i].1 == j ensures log[i].0.id == "" {
        if i > 0 {
          assert log[1..][i - 1] == log[i];
        }
      }
    }
  }

  /** The detail before all deltas still waits when the block of a late id has got it. */
  predicate StillWaits(items: Items, j: nat, id: string) {
    && HasOpened(items, j) && IdOf(items, j) == id && Carrier(items, id) == Some(j)
    && Waiting(items, id) == Some("old") && SignatureOf(items, j) == "" && LastDetail(items, id) == Some("old")
  }

  lemma EarlyDeltas(log: Log, j: nat, k: nat, q: nat, id: string)
    requires id != "" && q < |log| && log[q].1 == j && log[q].0.id == id && KeepsTo(log, j, id)
    requires forall i | 0 <= i < q && log[i].1 == j :: log[i].0.id == ""
    requires IsFirstOf(log, k, j) && log[k].0.id != id
    ensures var early := log[..q];
            GoesTo(early, j) && forall i | 0 <= i < q :: early[i].0.id != id && (early[i].1 == j ==> early[i].0.id == "")
  {
    var early := log[..q];
    assert forall i | 0 <= i < |early| :: early[i] == log[i];
    assert k < q && early[k].1 == j;
  }

  lemma LateIdWaits(log: Log, j: nat, k: nat, q: nat, id: string)
    requires id != "" && q < |log| && log[q].1 == j && log[q].0.id == id && KeepsTo(log, j, id)
    requires forall i | 0 <= i < q && log[i].1 == j :: log[i].0.id == ""
    requires IsFirstOf(log, k, j) && log[k].0.id != id
    ensures var named := ([DetailItem(Detail(id, "old"))] + Calls(log[..q])) + [CallItem(log[q].0, log[q].1)];
            CallsAmong(named) == log[..q + 1] && StillWaits(named, j, id) && OnlyOwner(named, j, id)
  {
    hide SignatureOf, Waiting, LastDetail, CallsAmong, Carrier, HasOpened, GoesTo, Calls, IdOf;
    var early, start := log[..q], [DetailItem(Detail(id, "old"))];
    hide KeepsTo, IsFirstOf, OnlyOwner;
    StartWaits(id, j);
    EarlyDeltas(log, j, k, q, id);
    WaitsOn(start, early, j, id);
    CallsBringNoDetails(start, early, id);
    CallsAmongCalls(early);
    CallsAmongAppend(start, Calls(early));
    DetailIsNoCall(start[0]);
    var before := start + Calls(early);
    assert [] + early == early;
    OpenedInLog(before, j);
    IdArrives(before, log[q].0, j, id);
    assert early + [log[q]] == log[..q + 1];
  }

  /** A block that learns its id late: a detail that came first is applied late, or never. */
  lemma LateIdSigns(log: Log, j: nat, k: nat) returns (items: Items)
    requires var id := FirstId(log, j); id != "" && KeepsTo(log, j, id) && IsFirstOf(log, k, j) && log[k].0.id != id
    ensures CallsAmong(items) == log
    ensures SignatureOf(items, j) != TextOr(LastDetail(items, FirstId(log, j)))
  {
    hide SignatureOf, Waiting, LastDetail, CallsAmong, Carrier, HasOpened, GoesTo, Calls, IdOf, FirstId, KeepsTo, OnlyOwner;
    var id := FirstId(log, j);
    var q := FirstIdAt(log, j);
    var rest := log[q + 1..];
    var named := ([DetailItem(Detail(id, "old"))] + Calls(log[..q])) + [CallItem(log[q].0, log[q].1)];
    LateIdWaits(log, j, k, q, id);
    RestKeepsTo(log, q + 1, j, id);
    CallsAmongCalls(rest);
    if GoesTo(rest, j) {
      var again := DetailItem(Detail(id, "new"));
      DetailAgain(named, again.detail, j, id);
      items := (named + [again]) + Calls(rest);
      NextDeltaSigns(named + [again], rest, j, id);
      CallsBringNoDetails(named + [again], rest, id);
      DetailIsNoCall(again);
      CallsAmongAppend(named, [again]);
      CallsAmongAppend(named + [again], Calls(rest));
      assert (log[..q + 1] + []) + rest == log;
    } else {
      items := named + Calls(rest);
      NextDeltaSigns(named, rest, j, id);
      CallsBringNoDetails(named, rest, id);
      CallsAmongAppend(named, Calls(rest));
      assert log[..q + 1] + rest == log;
    }
  }

  lemma SomeGoes(log: Log, k: nat, j: nat)
    requires k < |log| && log[k].1 == j
    ensures GoesTo(log, j)
  {
  }

  lemma StartWaits(id: string, j: nat)
    requires id != ""
    ensures var start := [DetailItem(Detail(id, "old"))];
            && Waiting(start, id) == Some("old") && SignatureOf(start, j) == "" && LastDetail(start, id) == Some("old")
            && (forall k: nat :: IdOf(start, k) == "")
  {
    assert [DetailItem(Detail(id, "old"))][..0] == [];
  }

  /** The delta that brings the id finds the block without one, and so applies nothing. */
  lemma IdArrives(items: Items, d: CallDelta, j: nat, id: string)
    requires id != "" && d.id == id && HasOpened(items, j) && IdOf(items, j) == ""
    requires Waiting(items, id) == Some("old") && SignatureOf(items, j) == "" && LastDetail(items, id) == Some("old")
    requires forall k: nat :: IdOf(items, k) != id
    ensures var more := items + [CallItem(d, j)];
            && HasOpened(more, j) && IdOf(more, j) == id && Carrier(more, id) == Some(j) && OnlyOwner(more, j, id)
            && Waiting(more, id) == Some("old") && SignatureOf(more, j) == "" && LastDetail(more, id) == Some("old")
            && CallsAmong(more) == CallsAmong(items) + [(d, j)]
  {
    hide HasOpened;
    var more := items + [CallItem(d, j)];
    NextItem(items, CallItem(d, j));
    OpenedNext(items, CallItem(d, j), j);
    forall k: nat | k != j ensures IdOf(more, k) != id {
      assert IdOf(items, k) != id;
    }
  }

  lemma DetailAgain(items: Items, detail: Detail, j: nat, id: string)
    requires id != "" && detail.id == id && HasOpened(items, j) && IdOf(items, j) == id && Carrier(items, id) == Some(j)
    requires OnlyOwner(items, j, id) && Waiting(items, id) == Some("old")
    ensures var more := items + [DetailItem(detail)];
            && HasOpened(more, j) && IdOf(more, j) == id && OnlyOwner(more, j, id)
            && Waiting(more, id) == Some("old") && LastDetail(more, id) == Some(detail.serialized)
  {
    hide HasOpened;
    var more := items + [DetailItem(detail)];
    NextItem(items, DetailItem(detail));
    OpenedNext(items, DetailItem(detail), j);
    forall k: nat | k != j ensures IdOf(more, k) != id {
      assert IdOf(items, k) != id;
    }
  }

  lemma RestKeepsTo(log: Log, n: nat, j: nat, id: string)
    requires n <= |log| && KeepsTo(log, j, id)
    ensures KeepsTo(log[n..], j, id)
  {
    assert forall k | 0 <= k < |log[n..]| :: log[n..][k] == log[n + k];
  }

  ghost predicate SignedByLastDetail(log: Log, j: nat) {
    forall items: Items | CallsAmong(items) == log :: SignatureOf(items, j) == TextOr(LastDetail(items, FirstId(log, j)))
  }

  /**
   * A call's signature is the last detail with its id, wherever between the
   * deltas the details come, if and only if the call's first delta carries its
   * id, its deltas carry no other, and no other call's delta carries it.
   */
  lemma SignedByLastDetailExactly(log: Log, j: nat)
    requires FirstId(log, j) != ""
    ensures SignedByLastDetail(log, j) <==> OwnsId(log, j, FirstId(log, j))
  {
    hide SignatureOf, Waiting, LastDetail, CallsAmong, Carrier, FirstId, IdOf;
    var id := FirstId(log, j);
    if OwnsId(log, j, id) {
      forall items: Items | CallsAmong(items) == log ensures SignatureOf(items, j) == TextOr(LastDetail(items, id)) {
        OwnedAlways(items, j, id);
        OpenedInLog(items, j);
        var q := FirstIdAt(log, j);
        SomeGoes(log, q, j);
      }
    } else if k :| 0 <= k < |log| && log[k].0.id == id && log[k].1 != j {
      DetailSigns(log, k, j, id);
    } else if k :| 0 <= k < |log| && log[k].1 == j && log[k].0.id != "" && log[k].0.id != id {
      DetailSigns(log, k, j, id);
    } else {
      var k :| 0 <= k < |log| && IsFirstOf(log, k, j) && log[k].0.id != id;
      var items := LateIdSigns(log, j, k);
    }
  }

  /** So in a stream whose deltas are such: the signature is the last detail that came with the call's id. */
  lemma CompletionsSignByLastDetail(chunks: seq<Chunk>, parse: string -> Value, j: nat)
    requires j < |Decoded(chunks, false, parse).0.order|
    requires var log := ChunksLog(INITIAL, chunks, parse); FirstId(log, j) != "" && OwnsId(log, j, FirstId(log, j))
    ensures var c, log := CallAt(Decoded(chunks, false, parse).0, j), ChunksLog(INITIAL, chunks, parse);
            && c.Some? && c.value.id == FirstId(log, j)
            && c.value.signature == TextOr(LastDetail(AllItems(INITIAL, chunks, parse), FirstId(log, j)))
  {
    hide Decoded, ChunksLog, AllItems, SignatureOf, LastDetail, CallsAmong, FirstId, OwnsId, CallAt;
    InitialUsable();
    CompletionsNameCalls(chunks, parse, j);
    CompletionsSignCalls(chunks, parse, j);
    AllCallsAmong(INITIAL, chunks, parse);
    SignedByLastDetailExactly(ChunksLog(INITIAL, chunks, parse), j);
  }

  // ----- The text block and the thinking block -----------------------------------------------------

  /** Which reasoning field is read, and its text: the first of three that is not empty. */
  lemma ReasoningFieldExactly(f: Fields)
    ensures var (field, text) := ReasoningField(f);
            && (f.reasoningContent != "" ==> field == "reasoning_content" && text == f.reasoningContent)
            && (f.reasoningContent == "" && f.reasoning != "" ==> field == "reasoning" && text == f.reasoning)
            && (f.reasoningContent == "" && f.reasoning == "" && f.reasoningText != "" ==>
                  field == "reasoning_text" && text == f.reasoningText)
            && (f.reasoningContent == "" && f.reasoning == "" && f.reasoningText == "" ==> field == "")
  {
  }

  /** The field of the first reasoning that comes. */
  function FirstField(chunks: seq<Chunk>): string {
    if chunks == [] then ""
    else
      var chunk := chunks[0];
      var field := if chunk.Skipped? || chunk.delta.None? then "" else ReasoningField(chunk.delta.value).0;
      Or(field, FirstField(chunks[1..]))
  }

  /** The thinking block is there exactly when a field is known, and is signed by it. */
  predicate SignedByField(s: State)
    requires Usable(s)
  {
    && FieldKnown(s)
    && (s.thinking.Some? ==> s.out.content[s.thinking.value].signature == s.thinkField)
  }

  lemma TextOpens(s: State, text: string)
    requires Usable(s) && SignedByField(s)
    ensures var r := TextRead(s, text);
            && (r.text.Some? <==> s.text.Some? || text != "") && SignedByField(r) && r.thinkField == s.thinkField
  {
    hide Placed;
  }

  lemma ThinkingOpens(s: State, field: string, text: string)
    requires Usable(s) && SignedByField(s)
    ensures var r := ThinkingRead(s, field, text);
            && r.text == s.text && SignedByField(r) && r.thinkField == Or(s.thinkField, field)
  {
    hide Placed;
  }

  lemma ToolsOpenNoText(s: State, r: State)
    requires Usable(s) && Usable(r) && SignedByField(s)
    requires r.text == s.text && r.thinking == s.thinking && r.thinkField == s.thinkField
    requires s.thinking.Some? ==> r.out.content[s.thinking.value] == s.out.content[s.thinking.value]
    ensures SignedByField(r)
  {
  }

  lemma CallKeepsThinking(s: State, d: CallDelta, parse: string -> Value)
    requires Usable(s)
    ensures var r := CallRead(s, d, parse);
            && r.text == s.text && r.thinking == s.thinking && r.thinkField == s.thinkField
            && (s.thinking.Some? ==> r.out.content[s.thinking.value] == s.out.content[s.thinking.value])
  {
    hide Route, CallPlaced, PendingApplied, CallExtended, Placed;
    PlacedKeepsThinking(s, d);
    var t := CallPlaced(s, d);
    PendingKeepsThinking(t, Route(s, d));
    PendingKeepsMaps(t, Route(s, d));
    ExtendedKeepsThinking(PendingApplied(t, Route(s, d)), d, Route(s, d), parse);
  }

  lemma PlacedKeepsThinking(s: State, d: CallDelta)
    requires Usable(s)
    ensures var r := CallPlaced(s, d);
            && r.text == s.text && r.thinking == s.thinking && r.thinkField == s.thinkField
            && (s.thinking.Some? ==> r.out.content[s.thinking.value] == s.out.content[s.thinking.value])
  {
    hide Route;
  }

  lemma PendingKeepsThinking(s: State, j: nat)
    requires Usable(s) && j < |s.order|
    ensures var r := PendingApplied(s, j);
            && r.text == s.text && r.thinking == s.thinking && r.thinkField == s.thinkField
            && (s.thinking.Some? ==> r.out.content[s.thinking.value] == s.out.content[s.thinking.value])
  {
  }

  lemma ExtendedKeepsThinking(s: State, d: CallDelta, j: nat, parse: string -> Value)
    requires Usable(s) && j < |s.order|
    ensures var r := CallExtended(s, d, j, parse);
            && r.text == s.text && r.thinking == s.thinking && r.thinkField == s.thinkField
            && (s.thinking.Some? ==> r.out.content[s.thinking.value] == s.out.content[s.thinking.value])
  {
  }

  lemma {:induction false} CallsKeepThinking(s: State, calls: seq<CallDelta>, parse: string -> Value)
    requires Usable(s) && SignedByField(s)
    ensures var r := CallsRead(s, calls, parse); r.text == s.text && r.thinkField == s.thinkField && SignedByField(r)
    decreases |calls|
  {
    hide CallRead, Usable, SignedByField;
    if calls != [] {
      CallKeepsThinking(s, calls[0], parse);
      ToolsOpenNoText(s, CallRead(s, calls[0], parse));
      CallsKeepThinking(CallRead(s, calls[0], parse), calls[1..], parse);
    }
  }

  lemma DetailKeepsThinking(s: State, detail: Detail)
    requires Usable(s)
    ensures var r := DetailRead(s, detail);
            && r.text == s.text && r.thinking == s.thinking && r.thinkField == s.thinkField
            && (s.thinking.Some? ==> r.out.content[s.thinking.value] == s.out.content[s.thinking.value])
  {
  }

  lemma {:induction false} DetailsKeepThinking(s: State, details: seq<Detail>)
    requires Usable(s) && SignedByField(s)
    ensures var r := DetailsRead(s, details); r.text == s.text && r.thinkField == s.thinkField && SignedByField(r)
    decreases |details|
  {
    hide DetailRead, Usable, SignedByField;
    if details != [] {
      DetailKeepsThinking(s, details[0]);
      ToolsOpenNoText(s, DetailRead(s, details[0]));
      DetailsKeepThinking(DetailRead(s, details[0]), details[1..]);
    }
  }

  lemma ChunkOpens(s: State, chunk: Chunk, parse: string -> Value)
    requires Usable(s) && SignedByField(s)
    ensures var r := ChunkRead(s, chunk, parse);
            && (r.text.Some? <==> s.text.Some? || ContentOf(chunk) != "")
            && SignedByField(r) && r.thinkField == Or(s.thinkField, FirstField([chunk]))
  {
    hide TextRead, ThinkingRead, CallsRead, DetailsRead, ReasoningField, Placed;
    assert [chunk][1..] == [] && FirstField([]) == "";
    if chunk.Choice? && chunk.delta.Some? {
      var f := chunk.delta.value;
      var (field, text) := ReasoningField(f);
      var s0 := s.(finished := s.finished || chunk.finished);
      var s1 := TextRead(s0, f.content);
      var s2 := ThinkingRead(s1, field, text);
      TextOpens(s0, f.content);
      ThinkingOpens(s1, field, text);
      CallsKeepThinking(s2, f.calls, parse);
      DetailsKeepThinking(CallsRead(s2, f.calls, parse), f.details);
    }
  }

  lemma {:induction false} ChunksOpen(s: State, chunks: seq<Chunk>, parse: string -> Value)
    requires Usable(s) && SignedByField(s)
    ensures var r := ChunksRead(s, chunks, parse);
            && (r.text.Some? <==> s.text.Some? || ContentText(chunks) != "")
            && SignedByField(r) && r.thinkField == Or(s.thinkField, FirstField(chunks))
    decreases |chunks|
  {
    hide ChunkRead, Usable, SignedByField, ContentOf, ReasoningField;
    if chunks != [] {
      ChunkOpens(s, chunks[0], parse);
      ChunksOpen(ChunkRead(s, chunks[0], parse), chunks[1..], parse);
      assert [chunks[0]][1..] == [] && FirstField([]) == "";
    }
  }

  /**
   * For every chunk sequence: there is a text block exactly if some content is
   * not empty, and a thinking block exactly if some reasoning is, signed with the
   * name of the first field that came; every other block is a call.
   */
  lemma CompletionsBlocksExactly(chunks: seq<Chunk>, parse: string -> Value)
    ensures var s := Decoded(chunks, false, parse).0;
            && (s.text.Some? <==> ContentText(chunks) != "")
            && (s.thinking.Some? <==> FirstField(chunks) != "")
            && (s.thinking.Some? ==>
                  && s.thinking.value < |s.out.content|
                  && var c := s.out.content[s.thinking.value]; c.ThinkingBlock? && c.signature == FirstField(chunks))
            && (forall k: nat | k < |s.out.content| && !s.out.content[k].ToolBlock? :: s.text == Some(k) || s.thinking == Some(k))
  {
    hide ChunksRead, ContentText, FirstField, ToolsClosed, ToolsRun;
    InitialFollows(parse);
    ChunksReadFollows(INITIAL, chunks, parse);
    ChunksOpen(INITIAL, chunks, parse);
    var s := ChunksRead(INITIAL, chunks, parse);
    FinishedSame(s, parse);
    forall k: nat | k < |s.out.content| ensures SameButArguments(s.out.content[k], Finished(s, parse).out.content[k]) {
    }
  }

  // ----- How the stream ended ------------------------------------------------------------------

  ghost predicate BringsFinish(chunks: seq<Chunk>) { exists k :: 0 <= k < |chunks| && chunks[k].Choice? && chunks[k].finished }

  lemma FinishFirst(chunks: seq<Chunk>)
    requires chunks != []
    ensures BringsFinish(chunks) <==> (chunks[0].Choice? && chunks[0].finished) || BringsFinish(chunks[1..])
  {
    if k :| 0 <= k < |chunks| && chunks[k].Choice? && chunks[k].finished {
      assert k > 0 ==> chunks[1..][k - 1] == chunks[k];
    }
    if k :| 0 <= k < |chunks[1..]| && chunks[1..][k].Choice? && chunks[1..][k].finished {
      assert chunks[k + 1].Choice? && chunks[k + 1].finished;
    }
  }

  lemma ToolsKeepFinished(s: State, d: CallDelta, parse: string -> Value, detail: Detail)
    requires Usable(s)
    ensures CallRead(s, d, parse).finished == s.finished && DetailRead(s, detail).finished == s.finished
  {
    hide Route, Placed;
  }

  lemma {:induction false} AllKeepFinished(s: State, calls: seq<CallDelta>, details: seq<Detail>, parse: string -> Value)
    requires Usable(s)
    ensures DetailsRead(CallsRead(s, calls, parse), details).finished == s.finished
    decreases |calls| + |details|
  {
    hide CallRead, DetailRead, Usable;
    if calls != [] {
      ToolsKeepFinished(s, calls[0], parse, Detail("", ""));
      AllKeepFinished(CallRead(s, calls[0], parse), calls[1..], details, parse);
    } else if details != [] {
      ToolsKeepFinished(s, CallDelta(None, "", "", ""), parse, details[0]);
      assert CallsRead(s, [], parse) == s;
      assert CallsRead(DetailRead(s, details[0]), [], parse) == DetailRead(s, details[0]);
      AllKeepFinished(DetailRead(s, details[0]), [], details[1..], parse);
    }
  }

  lemma ChunkFinishes(s: State, chunk: Chunk, parse: string -> Value)
    requires Usable(s)
    ensures ChunkRead(s, chunk, parse).finished == (s.finished || (chunk.Choice? && chunk.finished))
  {
    hide CallsRead, DetailsRead, Placed, ReasoningField, Extended, Opened;
    if chunk.Choice? && chunk.delta.Some? {
      var f := chunk.delta.value;
      var s0 := s.(finished := s.finished || chunk.finished);
      var (field, text) := ReasoningField(f);
      AllKeepFinished(ThinkingRead(TextRead(s0, f.content), field, text), f.calls, f.details, parse);
    }
  }

  lemma {:induction false} ChunksFinish(s: State, chunks: seq<Chunk>, parse: string -> Value)
    requires Usable(s)
    ensures ChunksRead(s, chunks, parse).finished <==> s.finished || BringsFinish(chunks)
    decreases |chunks|
  {
    hide ChunkRead, Usable, BringsFinish;
    if chunks == [] {
      assert !BringsFinish([]) by { NoneFinish(); }
    } else {
      ChunkFinishes(s, chunks[0], parse);
      FinishFirst(chunks);
      ChunksFinish(ChunkRead(s, chunks[0], parse), chunks[1..], parse);
    }
  }

  lemma NoneFinish()
    ensures !BringsFinish([])
  {
  }

  /** A read that fails fails the stream; otherwise it is complete exactly if some chunk brought a finish reason. */
  lemma CompletionsEndExactly(chunks: seq<Chunk>, readFails: bool, parse: string -> Value)
    ensures var ending := Decoded(chunks, readFails, parse).1;
            && (ending == ReadFailed <==> readFails)
            && (ending == Complete <==> !readFails && BringsFinish(chunks))
  {
    hide ChunksRead, Finished, BringsFinish;
    InitialUsable();
    ChunksFinish(INITIAL, chunks, parse);
  }
}
