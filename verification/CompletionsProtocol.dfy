/** What the completions decoder guarantees for every chunk sequence. */
module CompletionsProtocol {
  import opened Wrappers
  import opened JsonText
  import opened BlockEvents
  import opened ToolBlocks
  import opened CompletionsDecoder

  /** The one block of its kind, which runs and holds the concatenation of its deltas. */
  predicate OwnBlock(o: Output, at: Option<nat>, kind: Kind)
    requires Tracks(o) && kind != IsTool
  {
    && (at.Some? ==>
          && at.value < |o.content| && KindOf(o.content[at.value]) == kind
          && Phases(o)[at.value] == Running(kind, o.content[at.value].text))
    && (forall k: nat | k < |o.content| && KindOf(o.content[k]) == kind :: at == Some(k))
  }

  ghost predicate Follows(s: State, parse: string -> Value) {
    && Usable(s) && Tracks(s.out) && ToolsRun(s.out, s.order, parse)
    && OwnBlock(s.out, s.text, IsText) && OwnBlock(s.out, s.thinking, IsThinking)
  }

  /** Block at changes, and no other. */
  predicate OnlyAt(o: Output, r: Output, at: nat)
    requires Tracks(o) && Tracks(r)
  {
    && |r.content| == (if at < |o.content| then |o.content| else |o.content| + 1) && at < |r.content|
    && (forall k | 0 <= k < |o.content| && k != at :: r.content[k] == o.content[k] && Phases(r)[k] == Phases(o)[k])
    && (at < |o.content| ==> KindOf(r.content[at]) == KindOf(o.content[at]))
  }

  lemma OwnBlockStill(o: Output, r: Output, at: nat, own: Option<nat>, kind: Kind)
    requires Tracks(o) && Tracks(r) && OnlyAt(o, r, at) && kind != IsTool && OwnBlock(o, own, kind)
    requires KindOf(r.content[at]) != kind
    ensures OwnBlock(r, own, kind)
  {
  }

  lemma ToolsStill(o: Output, r: Output, at: nat, order: seq<Scratch>, parse: string -> Value)
    requires Tracks(o) && Tracks(r) && OnlyAt(o, r, at) && ToolsRun(o, order, parse)
    requires KindOf(r.content[at]) != IsTool
    ensures ToolsRun(r, order, parse)
  {
    ToolsRunStill(o, r, order, parse);
  }

  lemma TextReadFollows(s: State, text: string, parse: string -> Value)
    requires Follows(s, parse)
    ensures Follows(TextRead(s, text), parse)
  {
    if text != "" {
      var t := s;
      if s.text.None? {
        var at := |s.out.content|;
        OpenedTracks(s.out, TextBlock("", ""));
        t := s.(out := Opened(s.out, TextBlock("", "")), text := Some(at));
        OwnBlockStill(s.out, t.out, at, s.thinking, IsThinking);
        ToolsStill(s.out, t.out, at, s.order, parse);
      }
      OwnTextGrows(t, t.text, IsText, text, parse);
      OwnBlockStill(t.out, TextRead(s, text).out, t.text.value, t.thinking, IsThinking);
    }
  }

  lemma ThinkingReadFollows(s: State, field: string, text: string, parse: string -> Value)
    requires Follows(s, parse)
    ensures Follows(ThinkingRead(s, field, text), parse)
  {
    if field != "" && (s.thinking.None? || s.thinkField == field) {
      var t := s;
      if s.thinking.None? {
        ThinkingOpened(s, field, parse);
        t := s.(out := Opened(s.out, ThinkingBlock("", field, false)), thinking := Some(|s.out.content|), thinkField := field);
      }
      hide ToolsRun, Opened;
      OwnTextGrows(t, t.thinking, IsThinking, text, parse);
      OwnBlockStill(t.out, ThinkingRead(s, field, text).out, t.thinking.value, t.text, IsText);
    }
  }

  lemma ThinkingOpened(s: State, field: string, parse: string -> Value)
    requires Follows(s, parse) && s.thinking.None?
    ensures var at := |s.out.content|;
            var r := Opened(s.out, ThinkingBlock("", field, false));
            && Tracks(r) && ToolsRun(r, s.order, parse)
            && OwnBlock(r, s.text, IsText) && OwnBlock(r, Some(at), IsThinking)
  {
    var at, c := |s.out.content|, ThinkingBlock("", field, false);
    OpenedTracks(s.out, c);
    OwnBlockStill(s.out, Opened(s.out, c), at, s.text, IsText);
    ToolsStill(s.out, Opened(s.out, c), at, s.order, parse);
  }

  lemma OwnTextGrows(t: State, own: Option<nat>, kind: Kind, text: string, parse: string -> Value)
    requires Tracks(t.out) && ToolsRun(t.out, t.order, parse) && kind != IsTool && own.Some? && OwnBlock(t.out, own, kind)
    ensures var at := own.value; var r := Extended(t.out, at, MoreText(t.out.content[at], text), text);
            && Tracks(r) && OwnBlock(r, own, kind) && OnlyAt(t.out, r, at) && ToolsRun(r, t.order, parse)
  {
    var at := own.value;
    ExtendedTracks(t.out, at, MoreText(t.out.content[at], text), text);
    ToolsStill(t.out, Extended(t.out, at, MoreText(t.out.content[at], text), text), at, t.order, parse);
  }

  lemma CallPlacedFollows(s: State, d: CallDelta, parse: string -> Value)
    requires Follows(s, parse)
    ensures Follows(CallPlaced(s, d), parse)
  {
    if Route(s, d) == |s.order| {
      var c := ToolBlock(d.id, d.name, NO_ARGUMENTS, "");
      OpenedToolRuns(s.out, s.order, parse, c);
      OpenedTracks(s.out, c);
      var at := |s.out.content|;
      OwnBlockStill(s.out, Opened(s.out, c), at, s.text, IsText);
      OwnBlockStill(s.out, Opened(s.out, c), at, s.thinking, IsThinking);
    }
  }

  lemma SignedFollows(s: State, j: nat, signature: string, parse: string -> Value)
    requires Follows(s, parse) && j < |s.order|
    ensures var at := s.order[j].at;
            Follows(s.(out := Patched(s.out, at, Signed(s.out.content[at], signature))), parse)
  {
    var at := s.order[j].at;
    var r := Patched(s.out, at, Signed(s.out.content[at], signature));
    assert Tracks(r);
    OwnBlockStill(s.out, r, at, s.text, IsText);
    OwnBlockStill(s.out, r, at, s.thinking, IsThinking);
    forall k | 0 <= k < |s.order| ensures ToolRuns(r, s.order[k], parse) {
      assert ToolRuns(s.out, s.order[k], parse);
    }
  }

  lemma CallExtendedFollows(s: State, d: CallDelta, j: nat, parse: string -> Value)
    requires Follows(s, parse) && j < |s.order|
    ensures Follows(CallExtended(s, d, j, parse), parse)
  {
    var at := s.order[j].at;
    var r := CallExtended(s, d, j, parse);
    var c := r.out.content[at];
    assert ToolRuns(s.out, s.order[j], parse);
    ExtendedToolRuns(s.out, s.order, parse, j, c, d.arguments);
    ExtendedTracks(s.out, at, c, d.arguments);
    OwnBlockStill(s.out, r.out, at, s.text, IsText);
    OwnBlockStill(s.out, r.out, at, s.thinking, IsThinking);
  }

  lemma CallReadFollows(s: State, d: CallDelta, parse: string -> Value)
    requires Follows(s, parse)
    ensures Follows(CallRead(s, d, parse), parse)
  {
    hide CallExtended, CallPlaced, ToolsRun, OwnBlock, Route;
    var j := Route(s, d);
    var t := CallPlaced(s, d);
    CallPlacedFollows(s, d, parse);
    var u := PendingApplied(t, j);
    var c := t.out.content[t.order[j].at];
    if c.id != "" && c.id in t.pending {
      SignedFollows(t, j, t.pending[c.id], parse);
    }
    CallExtendedFollows(u, d, j, parse);
  }

  lemma DetailReadFollows(s: State, d: Detail, parse: string -> Value)
    requires Follows(s, parse)
    ensures Follows(DetailRead(s, d), parse)
  {
    hide ToolsRun, OwnBlock, Placed;
    if d.id in s.byId {
      SignedFollows(s, s.byId[d.id], d.serialized, parse);
    }
  }

  lemma {:induction false} CallsReadFollows(s: State, calls: seq<CallDelta>, parse: string -> Value)
    requires Follows(s, parse)
    ensures Follows(CallsRead(s, calls, parse), parse)
    decreases |calls|
  {
    hide CallRead, ToolsRun, OwnBlock, Placed;
    if calls != [] {
      CallReadFollows(s, calls[0], parse);
      CallsReadFollows(CallRead(s, calls[0], parse), calls[1..], parse);
    }
  }

  lemma {:induction false} DetailsReadFollows(s: State, details: seq<Detail>, parse: string -> Value)
    requires Follows(s, parse)
    ensures Follows(DetailsRead(s, details), parse)
    decreases |details|
  {
    hide DetailRead, ToolsRun, OwnBlock, Placed;
    if details != [] {
      DetailReadFollows(s, details[0], parse);
      DetailsReadFollows(DetailRead(s, details[0]), details[1..], parse);
    }
  }

  lemma {:induction false} ChunksReadFollows(s: State, chunks: seq<Chunk>, parse: string -> Value)
    requires Follows(s, parse)
    ensures Follows(ChunksRead(s, chunks, parse), parse)
    decreases |chunks|
  {
    hide TextRead, ThinkingRead, CallsRead, DetailsRead, ReasoningField, ToolsRun, OwnBlock, Placed;
    if chunks != [] {
      if chunks[0].Choice? && chunks[0].delta.Some? {
        var f := chunks[0].delta.value;
        var (field, text) := ReasoningField(f);
        var s0 := s.(finished := s.finished || chunks[0].finished);
        TextReadFollows(s0, f.content, parse);
        ThinkingReadFollows(TextRead(s0, f.content), field, text, parse);
        CallsReadFollows(ThinkingRead(TextRead(s0, f.content), field, text), f.calls, parse);
        DetailsReadFollows(CallsRead(ThinkingRead(TextRead(s0, f.content), field, text), f.calls, parse), f.details, parse);
      }
      ChunksReadFollows(ChunkRead(s, chunks[0], parse), chunks[1..], parse);
    }
  }

  lemma InitialFollows(parse: string -> Value)
    ensures Follows(INITIAL, parse)
  {
  }

  // ----- The end of the stream -------------------------------------------------------------------

  /** What block at is worth once the stream has ended. */
  predicate BlockWhole(o: Output, at: nat, parse: string -> Value)
    requires Tracks(o) && at < |o.content|
  {
    if o.content[at].ToolBlock? then ToolWhole(o, at, parse)
    else Phases(o)[at] == Ended(KindOf(o.content[at]), o.content[at].text, o.content[at])
  }

  lemma BlockClosedOwn(o: Output, own: Option<nat>, kind: Kind)
    requires Tracks(o) && kind != IsTool && OwnBlock(o, own, kind)
    ensures var r := BlockClosed(o, own);
            && Tracks(r) && r.content == o.content
            && (forall k | 0 <= k < |o.content| && KindOf(o.content[k]) != kind :: Phases(r)[k] == Phases(o)[k])
            && (forall k | 0 <= k < |o.content| && KindOf(o.content[k]) == kind ::
                  Phases(r)[k] == Ended(kind, o.content[k].text, o.content[k]))
  {
    if own.Some? {
      ClosedTracks(o, own.value, o.content[own.value]);
    }
  }

  lemma SecondStillOwn(o: Output, o1: Output, own: Option<nat>)
    requires Tracks(o) && Tracks(o1) && o1.content == o.content && OwnBlock(o, own, IsThinking)
    requires forall k | 0 <= k < |o.content| && KindOf(o.content[k]) != IsText :: Phases(o1)[k] == Phases(o)[k]
    ensures OwnBlock(o1, own, IsThinking)
  {
  }

  lemma FinishedWhole(s: State, parse: string -> Value)
    requires Follows(s, parse)
    ensures var r := Finished(s, parse);
            && Tracks(r.out) && r.order == s.order && |r.out.content| == |s.out.content|
            && (forall at | 0 <= at < |r.out.content| :: BlockWhole(r.out, at, parse))
            && (forall j | 0 <= j < |s.order| ::
                  && r.out.content[s.order[j].at].ToolBlock?
                  && r.out.content[s.order[j].at].arguments == parse(s.order[j].partialArgs))
  {
    hide BlockClosed, ToolsClosed, OwnBlock;
    BlockClosedOwn(s.out, s.text, IsText);
    var o1 := BlockClosed(s.out, s.text);
    SecondStillOwn(s.out, o1, s.thinking);
    BlockClosedOwn(o1, s.thinking, IsThinking);
    var o2 := BlockClosed(o1, s.thinking);
    forall k | 0 <= k < |s.order| ensures Phases(o2)[s.order[k].at] == Running(IsTool, s.order[k].partialArgs) {
      assert ToolRuns(s.out, s.order[k], parse);
    }
    ToolsClosedWhole(o2, s.order, 0, parse);
    var r := ToolsClosed(o2, s.order, 0, parse);
    forall at | 0 <= at < |r.content| ensures BlockWhole(r, at, parse) {
      if o2.content[at].ToolBlock? {
        assert HasScratch(s.order, at);
      } else {
        assert Untouched(o2, r, at);
      }
    }
    forall j | 0 <= j < |s.order| ensures r.content[s.order[j].at].arguments == parse(s.order[j].partialArgs) {
      assert ToolWhole(r, s.order[j].at, parse);
    }
  }

  /**
   * Any chunk sequence: the events keep the protocol, and unless a read failed
   * every block ends with its final content, even without a finish reason.
   */
  lemma CompletionsKeepProtocol(chunks: seq<Chunk>, readFails: bool, parse: string -> Value)
    ensures var (s, ending) := Decoded(chunks, readFails, parse);
            && Tracks(s.out)
            && (!ending.ReadFailed? ==> forall at | 0 <= at < |s.out.content| :: BlockWhole(s.out, at, parse))
            && (ending.ReadFailed? ==> Follows(s, parse))
  {
    hide Finished;
    InitialFollows(parse);
    ChunksReadFollows(INITIAL, chunks, parse);
    FinishedWhole(ChunksRead(INITIAL, chunks, parse), parse);
  }

  // ----- Where the deltas go --------------------------------------------------------------------

  /** Each tool-call delta, with the block it went to. */
  type Log = seq<(CallDelta, nat)>

  function CallsLog(s: State, calls: seq<CallDelta>, parse: string -> Value): Log
    requires Usable(s)
    decreases |calls|
  {
    if calls == [] then []
    else [(calls[0], Route(s, calls[0]))] + CallsLog(CallRead(s, calls[0], parse), calls[1..], parse)
  }

  /** The state in which a chunk's tool-call deltas are read. */
  function BeforeCalls(s: State, chunk: Chunk): (r: State)
    requires Usable(s)
    ensures Usable(r)
  {
    if chunk.Skipped? || chunk.delta.None? then s
    else
      var (field, text) := ReasoningField(chunk.delta.value);
      ThinkingRead(TextRead(s.(finished := s.finished || chunk.finished), chunk.delta.value.content), field, text)
  }

  function CallsOf(chunk: Chunk): seq<CallDelta> {
    if chunk.Skipped? || chunk.delta.None? then [] else chunk.delta.value.calls
  }

  function ChunksLog(s: State, chunks: seq<Chunk>, parse: string -> Value): Log
    requires Usable(s)
    decreases |chunks|
  {
    if chunks == [] then []
    else CallsLog(BeforeCalls(s, chunks[0]), CallsOf(chunks[0]), parse) + ChunksLog(ChunkRead(s, chunks[0], parse), chunks[1..], parse)
  }

  /** No index is ever led elsewhere, and no block is dropped. */
  predicate Sticks(s: State, t: State) {
    && (forall i: int | i in s.byIndex :: i in t.byIndex && t.byIndex[i] == s.byIndex[i])
    && |s.order| <= |t.order|
  }

  lemma CallReadMaps(s: State, d: CallDelta, parse: string -> Value)
    requires Usable(s)
    ensures var t, j := CallRead(s, d, parse), Route(s, d);
            && t.byIndex == (if d.index.Some? then var i: int := d.index.value; s.byIndex[i := j] else s.byIndex)
            && t.byId == (if d.id != "" then s.byId[d.id := j] else s.byId)
            && |t.order| == if j < |s.order| then |s.order| else |s.order| + 1
  {
    hide Route, CallPlaced, PendingApplied, CallExtended, Usable;
    var j := Route(s, d);
    CallPlacedMaps(s, d);
    PendingKeepsMaps(CallPlaced(s, d), j);
    ExtendedKeepsMaps(PendingApplied(CallPlaced(s, d), j), d, j, parse);
  }

  lemma CallPlacedMaps(s: State, d: CallDelta)
    requires Usable(s)
    ensures var t, j := CallPlaced(s, d), Route(s, d);
            && t.byIndex == (if d.index.Some? then var i: int := d.index.value; s.byIndex[i := j] else s.byIndex)
            && t.byId == (if d.id != "" then s.byId[d.id := j] else s.byId)
            && t.order == if j < |s.order| then s.order else s.order + [Scratch(|s.out.content|, "")]
  {
    hide Route;
  }

  lemma PendingKeepsMaps(s: State, j: nat)
    requires Usable(s) && j < |s.order|
    ensures var t := PendingApplied(s, j); t.byIndex == s.byIndex && t.byId == s.byId && t.order == s.order
  {
  }

  lemma ExtendedKeepsMaps(s: State, d: CallDelta, j: nat, parse: string -> Value)
    requires Usable(s) && j < |s.order|
    ensures var t := CallExtended(s, d, j, parse);
            && t.byIndex == s.byIndex && t.byId == s.byId
            && t.order == s.order[j := Scratch(s.order[j].at, s.order[j].partialArgs + d.arguments)]
  {
  }

  lemma CallReadSticks(s: State, d: CallDelta, parse: string -> Value)
    requires Usable(s)
    ensures Sticks(s, CallRead(s, d, parse))
    ensures d.index.Some? ==> var i: int := d.index.value;
              var t := CallRead(s, d, parse); i in t.byIndex && t.byIndex[i] == Route(s, d)
  {
    hide CallRead, Placed;
    CallReadMaps(s, d, parse);
  }

  lemma {:induction false} CallsReadStick(s: State, calls: seq<CallDelta>, parse: string -> Value)
    requires Usable(s)
    ensures Sticks(s, CallsRead(s, calls, parse))
    ensures AllSettled(CallsLog(s, calls, parse), CallsRead(s, calls, parse))
    decreases |calls|
  {
    hide CallRead, Route, Usable;
    if calls != [] {
      var t := CallRead(s, calls[0], parse);
      CallReadSticks(s, calls[0], parse);
      CallsReadStick(t, calls[1..], parse);
    }
  }

  /** Every logged delta with an index went where that index still leads. */
  predicate AllSettled(log: Log, t: State) {
    forall k | 0 <= k < |log| && log[k].0.index.Some? :: Settled(log[k].0.index.value, log[k].1, t)
  }

  predicate Settled(i: int, j: nat, t: State) { i in t.byIndex && t.byIndex[i] == j }

  lemma SettledLater(log: Log, s: State, t: State)
    requires AllSettled(log, s) && Sticks(s, t)
    ensures AllSettled(log, t)
  {
    forall k | 0 <= k < |log| && log[k].0.index.Some? ensures Settled(log[k].0.index.value, log[k].1, t) {
      var i: int := log[k].0.index.value;
      assert Settled(i, log[k].1, s);
    }
  }

  lemma {:induction false} DetailsReadStick(s: State, details: seq<Detail>)
    requires Usable(s)
    ensures var t := DetailsRead(s, details); t.byIndex == s.byIndex && t.byId == s.byId && t.order == s.order
    decreases |details|
  {
    hide Placed;
    if details != [] {
      DetailsReadStick(DetailRead(s, details[0]), details[1..]);
    }
  }

  lemma TextReadKeeps(s: State, text: string)
    requires Usable(s)
    ensures var t := TextRead(s, text); t.byIndex == s.byIndex && t.byId == s.byId && t.order == s.order
  {
    hide Placed, Extended, Opened;
  }

  lemma ThinkingReadKeeps(s: State, field: string, text: string)
    requires Usable(s)
    ensures var t := ThinkingRead(s, field, text); t.byIndex == s.byIndex && t.byId == s.byId && t.order == s.order
  {
    hide Placed, Extended, Opened;
  }

  lemma BeforeCallsKeeps(s: State, chunk: Chunk)
    requires Usable(s)
    ensures var t := BeforeCalls(s, chunk); t.byIndex == s.byIndex && t.byId == s.byId && t.order == s.order
  {
    hide TextRead, ThinkingRead, ReasoningField, Placed;
    if chunk.Choice? && chunk.delta.Some? {
      var s0 := s.(finished := s.finished || chunk.finished);
      var (field, text) := ReasoningField(chunk.delta.value);
      TextReadKeeps(s0, chunk.delta.value.content);
      ThinkingReadKeeps(TextRead(s0, chunk.delta.value.content), field, text);
    }
  }

  lemma NoCalls(s: State, parse: string -> Value)
    requires Usable(s)
    ensures CallsRead(s, [], parse) == s
  {
  }

  lemma ChunkReadStick(s: State, chunk: Chunk, parse: string -> Value)
    requires Usable(s)
    ensures var t := ChunkRead(s, chunk, parse); var u := BeforeCalls(s, chunk);
            && u.byIndex == s.byIndex && u.byId == s.byId && u.order == s.order
            && t.byIndex == CallsRead(u, CallsOf(chunk), parse).byIndex
            && t.byId == CallsRead(u, CallsOf(chunk), parse).byId
            && t.order == CallsRead(u, CallsOf(chunk), parse).order
  {
    hide CallsRead, DetailsRead, ReasoningField, Usable, TextRead, ThinkingRead;
    var u := BeforeCalls(s, chunk);
    BeforeCallsKeeps(s, chunk);
    if chunk.Choice? && chunk.delta.Some? {
      DetailsReadStick(CallsRead(u, CallsOf(chunk), parse), chunk.delta.value.details);
    } else {
      NoCalls(u, parse);
    }
  }

  lemma {:induction false} ChunksReadStick(s: State, chunks: seq<Chunk>, parse: string -> Value)
    requires Usable(s)
    ensures Sticks(s, ChunksRead(s, chunks, parse))
    ensures AllSettled(ChunksLog(s, chunks, parse), ChunksRead(s, chunks, parse))
    decreases |chunks|
  {
    hide CallsRead, CallsLog, ChunkRead, BeforeCalls, Usable;
    if chunks != [] {
      var t := ChunkRead(s, chunks[0], parse);
      ChunkReadStick(s, chunks[0], parse);
      CallsReadStick(BeforeCalls(s, chunks[0]), CallsOf(chunks[0]), parse);
      ChunksReadStick(t, chunks[1..], parse);
      SettledLater(CallsLog(BeforeCalls(s, chunks[0]), CallsOf(chunks[0]), parse), t, ChunksRead(s, chunks, parse));
    }
  }

  /** Deltas with the same index reach the same block, whatever ids they carry. */
  lemma SameIndexSameBlock(chunks: seq<Chunk>, parse: string -> Value, a: nat, b: nat)
    requires var log := ChunksLog(INITIAL, chunks, parse);
             a < |log| && b < |log| && log[a].0.index.Some? && log[a].0.index == log[b].0.index
    ensures ChunksLog(INITIAL, chunks, parse)[a].1 == ChunksLog(INITIAL, chunks, parse)[b].1
  {
    hide ChunksLog, ChunksRead, Usable;
    InitialUsable();
    ChunksReadStick(INITIAL, chunks, parse);
    var log := ChunksLog(INITIAL, chunks, parse);
    var i: int := log[a].0.index.value;
    assert Settled(i, log[a].1, ChunksRead(INITIAL, chunks, parse)) && Settled(i, log[b].1, ChunksRead(INITIAL, chunks, parse));
  }

  lemma InitialUsable()
    ensures Usable(INITIAL)
  {
  }

  // ----- What the blocks collect ----------------------------------------------------------------

  /** The argument text that went to block j. */
  function TextTo(log: Log, j: nat): string {
    if log == [] then "" else (if log[0].1 == j then log[0].0.arguments else "") + TextTo(log[1..], j)
  }

  lemma {:induction false} TextToAppend(a: Log, b: Log, j: nat)
    ensures TextTo(a + b, j) == TextTo(a, j) + TextTo(b, j)
  {
    if a == [] {
      assert a + b == b;
    } else {
      assert (a + b)[1..] == a[1..] + b;
      TextToAppend(a[1..], b, j);
    }
  }

  function Buffer(order: seq<Scratch>, j: nat): string { if j < |order| then order[j].partialArgs else "" }

  lemma CallReadCollects(s: State, d: CallDelta, parse: string -> Value, j: nat)
    requires Usable(s)
    ensures Buffer(CallRead(s, d, parse).order, j) == Buffer(s.order, j) + if Route(s, d) == j then d.arguments else ""
  {
    hide Route, CallPlaced, PendingApplied, CallExtended, Usable;
    var k := Route(s, d);
    CallPlacedMaps(s, d);
    PendingKeepsMaps(CallPlaced(s, d), k);
    ExtendedKeepsMaps(PendingApplied(CallPlaced(s, d), k), d, k, parse);
  }

  lemma {:induction false} CallsReadCollect(s: State, calls: seq<CallDelta>, parse: string -> Value, j: nat)
    requires Usable(s)
    ensures Buffer(CallsRead(s, calls, parse).order, j) == Buffer(s.order, j) + TextTo(CallsLog(s, calls, parse), j)
    decreases |calls|
  {
    hide CallRead, Route, Usable, Buffer;
    if calls != [] {
      CallReadCollects(s, calls[0], parse, j);
      CallsReadCollect(CallRead(s, calls[0], parse), calls[1..], parse, j);
      assert CallsLog(s, calls, parse)[1..] == CallsLog(CallRead(s, calls[0], parse), calls[1..], parse);
    }
  }

  lemma {:induction false} ChunksReadCollect(s: State, chunks: seq<Chunk>, parse: string -> Value, j: nat)
    requires Usable(s)
    ensures Buffer(ChunksRead(s, chunks, parse).order, j) == Buffer(s.order, j) + TextTo(ChunksLog(s, chunks, parse), j)
    decreases |chunks|
  {
    hide CallsRead, CallsLog, ChunkRead, BeforeCalls, Usable, Buffer, TextTo;
    if chunks == [] {
      assert TextTo([], j) == "" by { TextToNothing(j); }
    } else {
      var t, u := ChunkRead(s, chunks[0], parse), BeforeCalls(s, chunks[0]);
      ChunkReadStick(s, chunks[0], parse);
      CallsReadCollect(u, CallsOf(chunks[0]), parse, j);
      ChunksReadCollect(t, chunks[1..], parse, j);
      TextToAppend(CallsLog(u, CallsOf(chunks[0]), parse), ChunksLog(t, chunks[1..], parse), j);
    }
  }

  lemma TextToNothing(j: nat)
    ensures TextTo([], j) == ""
  {
  }

  /** A call's final arguments are what the deltas that were routed to its block spell, taken together. */
  lemma CompletionsCollectArguments(chunks: seq<Chunk>, parse: string -> Value, j: nat)
    requires j < |Decoded(chunks, false, parse).0.order|
    ensures var s := Decoded(chunks, false, parse).0;
            && s.order[j].at < |s.out.content|
            && var c := s.out.content[s.order[j].at];
               c.ToolBlock? && c.arguments == parse(TextTo(ChunksLog(INITIAL, chunks, parse), j))
  {
    hide Finished, ChunksRead, ChunksLog, TextTo;
    InitialFollows(parse);
    ChunksReadFollows(INITIAL, chunks, parse);
    ChunksReadCollect(INITIAL, chunks, parse, j);
    var s := ChunksRead(INITIAL, chunks, parse);
    var text := TextTo(ChunksLog(INITIAL, chunks, parse), j);
    assert "" + text == text;
    FinishedWhole(s, parse);
  }

  // ----- No text is lost ----------------------------------------------------------------------------

  /** What the text block, or the thinking block, holds. */
  function Held(o: Output, at: Option<nat>): string {
    if at.Some? && at.value < |o.content| && !o.content[at.value].ToolBlock? then o.content[at.value].text else ""
  }

  function ContentOf(chunk: Chunk): string {
    if chunk.Choice? && chunk.delta.Some? then chunk.delta.value.content else ""
  }

  function ContentText(chunks: seq<Chunk>): string {
    if chunks == [] then "" else ContentOf(chunks[0]) + ContentText(chunks[1..])
  }

  /** The reasoning that a chunk adds, and the field known after it: the first that came with text. */
  function ReasoningOf(chunk: Chunk, known: string): (string, string) {
    if chunk.Skipped? || chunk.delta.None? then ("", known)
    else
      var (field, text) := ReasoningField(chunk.delta.value);
      if field == "" || (known != "" && known != field) then ("", known) else (text, field)
  }

  function ReasoningText(chunks: seq<Chunk>, known: string): string {
    if chunks == [] then ""
    else ReasoningOf(chunks[0], known).0 + ReasoningText(chunks[1..], ReasoningOf(chunks[0], known).1)
  }

  /** The thinking block is there exactly when its field is known. */
  predicate FieldKnown(s: State) { s.thinking.Some? <==> s.thinkField != "" }

  /** The tool deltas and details leave text and thinking alone. */
  predicate SameText(s: State, r: State) {
    && r.text == s.text && r.thinking == s.thinking && r.thinkField == s.thinkField
    && Held(r.out, r.text) == Held(s.out, s.text) && Held(r.out, r.thinking) == Held(s.out, s.thinking)
  }

  lemma CallReadSameText(s: State, d: CallDelta, parse: string -> Value)
    requires Usable(s)
    ensures SameText(s, CallRead(s, d, parse))
  {
    hide Route, CallPlaced, PendingApplied, CallExtended, Usable, Held;
    var j := Route(s, d);
    CallPlacedSameText(s, d);
    PendingSameText(CallPlaced(s, d), j);
    PendingKeepsMaps(CallPlaced(s, d), j);
    ExtendedSameText(PendingApplied(CallPlaced(s, d), j), d, j, parse);
  }

  lemma CallPlacedSameText(s: State, d: CallDelta)
    requires Usable(s)
    ensures SameText(s, CallPlaced(s, d))
  {
    hide Route, Placed;
  }

  lemma PendingSameText(s: State, j: nat)
    requires Usable(s) && j < |s.order|
    ensures SameText(s, PendingApplied(s, j))
  {
  }

  lemma ExtendedSameText(s: State, d: CallDelta, j: nat, parse: string -> Value)
    requires Usable(s) && j < |s.order|
    ensures SameText(s, CallExtended(s, d, j, parse))
  {
  }

  lemma {:induction false} CallsReadSameText(s: State, calls: seq<CallDelta>, parse: string -> Value)
    requires Usable(s)
    ensures SameText(s, CallsRead(s, calls, parse))
    decreases |calls|
  {
    hide CallRead, Usable, Held;
    if calls != [] {
      CallReadSameText(s, calls[0], parse);
      CallsReadSameText(CallRead(s, calls[0], parse), calls[1..], parse);
    }
  }

  lemma {:induction false} DetailsReadSameText(s: State, details: seq<Detail>)
    requires Usable(s)
    ensures SameText(s, DetailsRead(s, details))
    decreases |details|
  {
    if details != [] {
      assert SameText(s, DetailRead(s, details[0]));
      DetailsReadSameText(DetailRead(s, details[0]), details[1..]);
    }
  }

  /** More text in block at leaves a block of the other kind alone. */
  lemma MoreTextHolds(o: Output, at: nat, other: Option<nat>, text: string)
    requires at < |o.content| && !o.content[at].ToolBlock? && other != Some(at)
    ensures var r := Extended(o, at, MoreText(o.content[at], text), text);
            Held(r, Some(at)) == Held(o, Some(at)) + text && Held(r, other) == Held(o, other)
  {
  }

  lemma NewBlockHolds(o: Output, c: Content, other: Option<nat>)
    requires !c.ToolBlock? && c.text == "" && (other.Some? ==> other.value < |o.content|)
    ensures Held(Opened(o, c), Some(|o.content|)) == "" && Held(Opened(o, c), other) == Held(o, other)
  {
  }

  lemma TextReadHolds(s: State, text: string)
    requires Usable(s)
    ensures var r := TextRead(s, text);
            && Held(r.out, r.text) == Held(s.out, s.text) + text
            && r.thinking == s.thinking && r.thinkField == s.thinkField && Held(r.out, r.thinking) == Held(s.out, s.thinking)
  {
    if text == "" {
      assert Held(s.out, s.text) + "" == Held(s.out, s.text);
    } else {
      hide Placed, Extended, Opened;
      var t := s;
      if s.text.None? {
        NewBlockHolds(s.out, TextBlock("", ""), s.thinking);
        t := s.(out := Opened(s.out, TextBlock("", "")), text := Some(|s.out.content|));
        OpenedLast(s.out, TextBlock("", ""));
      }
      hide Held;
      MoreTextHolds(t.out, t.text.value, t.thinking, text);
    }
  }

  lemma OpenedLast(o: Output, c: Content)
    ensures Opened(o, c).content == o.content + [c]
  {
  }

  lemma ThinkingReadHolds(s: State, field: string, text: string)
    requires Usable(s) && FieldKnown(s)
    ensures var r := ThinkingRead(s, field, text); var taken := field != "" && (s.thinkField == "" || s.thinkField == field);
            && FieldKnown(r) && r.thinkField == (if taken then field else s.thinkField)
            && Held(r.out, r.thinking) == Held(s.out, s.thinking) + (if taken then text else "")
            && r.text == s.text && Held(r.out, r.text) == Held(s.out, s.text)
  {
    if field == "" || (s.thinking.Some? && s.thinkField != field) {
      assert Held(s.out, s.thinking) + "" == Held(s.out, s.thinking);
    } else {
      hide Placed, Extended, Opened;
      var t := s;
      if s.thinking.None? {
        var c := ThinkingBlock("", field, false);
        NewBlockHolds(s.out, c, s.text);
        t := s.(out := Opened(s.out, c), thinking := Some(|s.out.content|), thinkField := field);
        OpenedLast(s.out, c);
      }
      hide Held;
      MoreTextHolds(t.out, t.thinking.value, t.text, text);
    }
  }

  lemma FieldsReadHold(s: State, f: Fields, parse: string -> Value)
    requires Usable(s) && FieldKnown(s)
    ensures var r := FieldsRead(s, f, parse); var (field, text) := ReasoningField(f);
            var taken := field != "" && (s.thinkField == "" || s.thinkField == field);
            && FieldKnown(r) && r.thinkField == (if taken then field else s.thinkField)
            && Held(r.out, r.text) == Held(s.out, s.text) + f.content
            && Held(r.out, r.thinking) == Held(s.out, s.thinking) + (if taken then text else "")
  {
    hide TextRead, ThinkingRead, CallsRead, DetailsRead, ReasoningField, Usable, Held;
    var (field, text) := ReasoningField(f);
    TextReadHolds(s, f.content);
    ThinkingReadHolds(TextRead(s, f.content), field, text);
    var t := ThinkingRead(TextRead(s, f.content), field, text);
    CallsReadSameText(t, f.calls, parse);
    DetailsReadSameText(CallsRead(t, f.calls, parse), f.details);
  }

  /**
   * The text block spells the received content, and the thinking block the
   * received reasoning of the first field that came, in order.
   */
  lemma {:induction false} CompletionsKeepText(s: State, chunks: seq<Chunk>, parse: string -> Value)
    requires Usable(s) && FieldKnown(s)
    ensures var r := ChunksRead(s, chunks, parse);
            && Held(r.out, r.text) == Held(s.out, s.text) + ContentText(chunks)
            && Held(r.out, r.thinking) == Held(s.out, s.thinking) + ReasoningText(chunks, s.thinkField)
    decreases |chunks|
  {
    hide ChunkRead, Held, ContentOf, ReasoningOf, Usable, FieldKnown;
    if chunks == [] {
      assert Held(s.out, s.text) + "" == Held(s.out, s.text);
      assert Held(s.out, s.thinking) + "" == Held(s.out, s.thinking);
    } else {
      var t := ChunkRead(s, chunks[0], parse);
      ChunkReadHolds(s, chunks[0], parse);
      CompletionsKeepText(t, chunks[1..], parse);
      Regroup(Held(s.out, s.text), ContentOf(chunks[0]), ContentText(chunks[1..]));
      Regroup(Held(s.out, s.thinking), ReasoningOf(chunks[0], s.thinkField).0, ReasoningText(chunks[1..], t.thinkField));
    }
  }

  lemma Regroup(a: string, b: string, c: string)
    ensures (a + b) + c == a + (b + c)
  {
  }

  lemma ChunkReadHolds(s: State, chunk: Chunk, parse: string -> Value)
    requires Usable(s) && FieldKnown(s)
    ensures var r := ChunkRead(s, chunk, parse);
            && FieldKnown(r) && r.thinkField == ReasoningOf(chunk, s.thinkField).1
            && Held(r.out, r.text) == Held(s.out, s.text) + ContentOf(chunk)
            && Held(r.out, r.thinking) == Held(s.out, s.thinking) + ReasoningOf(chunk, s.thinkField).0
  {
    hide FieldsRead, Held, ReasoningField, Usable;
    assert Held(s.out, s.text) + "" == Held(s.out, s.text);
    assert Held(s.out, s.thinking) + "" == Held(s.out, s.thinking);
    if chunk.Choice? {
      FinishedIsUsable(s, chunk.finished);
      if chunk.delta.Some? {
        FieldsReadHold(s.(finished := s.finished || chunk.finished), chunk.delta.value, parse);
      }
    }
  }
}
