/**
 * Decoding an OpenAI completions stream: one text block, one thinking block, and
 * tool blocks that two maps, by stream index and by call id, lead to.
 */
module CompletionsDecoder {
  import opened Wrappers
  import opened JsonText
  import opened BlockEvents
  import opened ToolBlocks

  /** A function fragment; an absent function has empty name and arguments. */
  datatype CallDelta = CallDelta(index: Option<int>, id: string, name: string, arguments: string)

  /** An encrypted reasoning detail, and its serialized form. */
  datatype Detail = Detail(id: string, serialized: string)

  /** Empty strings stand for absent fields. */
  datatype Fields = Fields(content: string, reasoningContent: string, reasoning: string, reasoningText: string,
                           calls: seq<CallDelta>, details: seq<Detail>)

  /** Skipped: a marker, a malformed chunk, or one without choices. */
  datatype Chunk = Skipped | Choice(finished: bool, delta: Option<Fields>)

  /** byIndex and byId give positions in order. */
  datatype State = State(
    out: Output, text: Option<nat>, thinking: Option<nat>, thinkField: string,
    byIndex: map<int, nat>, byId: map<string, nat>, order: seq<Scratch>,
    pending: map<string, string>, finished: bool)

  const INITIAL := State(NO_OUTPUT, None, None, "", map[], map[], [], map[], false)

  predicate Usable(s: State) {
    && (s.text.Some? ==> s.text.value < |s.out.content| && s.out.content[s.text.value].TextBlock?)
    && (s.thinking.Some? ==> s.thinking.value < |s.out.content| && s.out.content[s.thinking.value].ThinkingBlock?)
    && Placed(s.out, s.order)
    && (forall i: int | i in s.byIndex :: s.byIndex[i] < |s.order|)
    && (forall i | i in s.byId :: s.byId[i] < |s.order|)
  }

  function MoreText(c: Content, text: string): Content
    requires !c.ToolBlock?
  {
    c.(text := c.text + text)
  }

  function TextRead(s: State, text: string): (r: State)
    requires Usable(s)
    ensures Usable(r)
  {
    if text == "" then s
    else
      var t := if s.text.Some? then s else s.(out := Opened(s.out, TextBlock("", "")), text := Some(|s.out.content|));
      t.(out := Extended(t.out, t.text.value, MoreText(t.out.content[t.text.value], text), text))
  }

  /** The first reasoning field that is not empty, and its text. */
  function ReasoningField(f: Fields): (string, string) {
    if f.reasoningContent != "" then ("reasoning_content", f.reasoningContent)
    else if f.reasoning != "" then ("reasoning", f.reasoning)
    else if f.reasoningText != "" then ("reasoning_text", f.reasoningText)
    else ("", "")
  }

  function ThinkingRead(s: State, field: string, text: string): (r: State)
    requires Usable(s)
    ensures Usable(r)
  {
    if field == "" || (s.thinking.Some? && s.thinkField != field) then s
    else
      var t := if s.thinking.Some? then s
               else s.(out := Opened(s.out, ThinkingBlock("", field, false)), thinking := Some(|s.out.content|), thinkField := field);
      t.(out := Extended(t.out, t.thinking.value, MoreText(t.out.content[t.thinking.value], text), text))
  }

  /** The position of the block that a delta goes to; |order| when it is a new one. */
  function Route(s: State, d: CallDelta): (j: nat)
    requires Usable(s)
    ensures j <= |s.order|
  {
    var i: int := if d.index.Some? then d.index.value else 0;
    if d.index.Some? && i in s.byIndex then s.byIndex[i]
    else if d.id != "" && d.id in s.byId then s.byId[d.id]
    else |s.order|
  }

  function CallPlaced(s: State, d: CallDelta): (r: State)
    requires Usable(s)
    ensures Usable(r) && Route(s, d) < |r.order|
  {
    var j := Route(s, d);
    var t := if j < |s.order| then s
             else s.(out := Opened(s.out, ToolBlock(d.id, d.name, NO_ARGUMENTS, "")), order := s.order + [Scratch(|s.out.content|, "")]);
    t.(byIndex := if d.index.Some? then var i: int := d.index.value; t.byIndex[i := j] else t.byIndex,
       byId := if d.id != "" then t.byId[d.id := j] else t.byId)
  }

  /** A change of a block that no event reports. */
  function Patched(o: Output, at: nat, c: Content): Output
    requires at < |o.content|
  {
    o.(content := o.content[at := c])
  }

  function Signed(c: Content, signature: string): Content
    requires c.ToolBlock?
  {
    ToolBlock(c.id, c.name, c.arguments, signature)
  }

  /** A reasoning detail that came before its call is applied once the call is there. */
  function PendingApplied(s: State, j: nat): (r: State)
    requires Usable(s) && j < |s.order|
    ensures Usable(r)
  {
    var at := s.order[j].at;
    var c := s.out.content[at];
    if c.id != "" && c.id in s.pending
    then s.(out := Patched(s.out, at, Signed(c, s.pending[c.id])), pending := s.pending - {c.id})
    else s
  }

  function CallExtended(s: State, d: CallDelta, j: nat, parse: string -> Value): (r: State)
    requires Usable(s) && j < |s.order|
    ensures Usable(r)
  {
    var at, args := s.order[j].at, s.order[j].partialArgs + d.arguments;
    var c := s.out.content[at];
    var named := ToolBlock(if c.id == "" then d.id else c.id, if c.name == "" then d.name else c.name,
                           if d.arguments == "" then c.arguments else parse(args), c.signature);
    s.(out := Extended(s.out, at, named, d.arguments),
       order := s.order[j := Scratch(at, args)])
  }

  function CallRead(s: State, d: CallDelta, parse: string -> Value): (r: State)
    requires Usable(s)
    ensures Usable(r)
  {
    var j := Route(s, d);
    CallExtended(PendingApplied(CallPlaced(s, d), j), d, j, parse)
  }

  function CallsRead(s: State, calls: seq<CallDelta>, parse: string -> Value): (r: State)
    requires Usable(s)
    ensures Usable(r)
    decreases |calls|
  {
    if calls == [] then s else CallsRead(CallRead(s, calls[0], parse), calls[1..], parse)
  }

  function DetailRead(s: State, d: Detail): (r: State)
    requires Usable(s)
    ensures Usable(r)
  {
    if d.id in s.byId then
      var at := s.order[s.byId[d.id]].at;
      s.(out := Patched(s.out, at, Signed(s.out.content[at], d.serialized)))
    else s.(pending := s.pending[d.id := d.serialized])
  }

  function DetailsRead(s: State, details: seq<Detail>): (r: State)
    requires Usable(s)
    ensures Usable(r)
    decreases |details|
  {
    if details == [] then s else DetailsRead(DetailRead(s, details[0]), details[1..])
  }

  function FieldsRead(s: State, f: Fields, parse: string -> Value): (r: State)
    requires Usable(s)
    ensures Usable(r)
  {
    var (field, text) := ReasoningField(f);
    DetailsRead(CallsRead(ThinkingRead(TextRead(s, f.content), field, text), f.calls, parse), f.details)
  }

  lemma FinishedIsUsable(s: State, finished: bool)
    requires Usable(s)
    ensures Usable(s.(finished := s.finished || finished))
  {
  }

  function ChunkRead(s: State, chunk: Chunk, parse: string -> Value): (r: State)
    requires Usable(s)
    ensures Usable(r)
  {
    match chunk
    case Skipped => s
    case Choice(finished, delta) =>
      var t := s.(finished := s.finished || finished);
      if delta.None? then t else FieldsRead(t, delta.value, parse)
  }

  function ChunksRead(s: State, chunks: seq<Chunk>, parse: string -> Value): (r: State)
    requires Usable(s)
    ensures Usable(r)
    decreases |chunks|
  {
    if chunks == [] then s else ChunksRead(ChunkRead(s, chunks[0], parse), chunks[1..], parse)
  }

  function BlockClosed(o: Output, at: Option<nat>): Output
    requires at.Some? ==> at.value < |o.content|
  {
    if at.None? then o else Closed(o, at.value, o.content[at.value])
  }

  function Finished(s: State, parse: string -> Value): State
    requires Usable(s)
  {
    var o := BlockClosed(BlockClosed(s.out, s.text), s.thinking);
    assert Placed(o, s.order);
    s.(out := ToolsClosed(o, s.order, 0, parse))
  }

  /** With its finish reason, without it, or after a read that failed, when no ends are pushed. */
  datatype Ending = Complete | Unfinished | ReadFailed

  function Decoded(chunks: seq<Chunk>, readFails: bool, parse: string -> Value): (State, Ending) {
    var s := ChunksRead(INITIAL, chunks, parse);
    if readFails then (s, ReadFailed) else (Finished(s, parse), if s.finished then Complete else Unfinished)
  }

  // ----- The decoder -------------------------------------------------------------------------

  class Decoder {
    const parse: string -> Value
    var content: seq<Content>
    var events: seq<BlockEvent>
    var textAt: Option<nat>
    var thinkingAt: Option<nat>
    var thinkField: string
    var toolByIndex: map<int, nat>
    var toolById: map<string, nat>
    var toolOrder: seq<Scratch>
    var pendingReasoningDetails: map<string, string>
    var hasFinishReason: bool

    ghost function Abstract(): State reads this {
      State(Output(content, events), textAt, thinkingAt, thinkField, toolByIndex, toolById, toolOrder,
            pendingReasoningDetails, hasFinishReason)
    }

    ghost predicate Valid() reads this { Usable(Abstract()) }

    constructor (parse: string -> Value)
      ensures Valid() && Abstract() == INITIAL && this.parse == parse
    {
      this.parse, content, events, textAt, thinkingAt, thinkField := parse, [], [], None, None, "";
      toolByIndex, toolById, toolOrder, pendingReasoningDetails, hasFinishReason := map[], map[], [], map[], false;
    }

    method ReadText(text: string)
      requires Valid()
      modifies this
      ensures Valid() && Abstract() == TextRead(old(Abstract()), text)
    {
      ghost var r := TextRead(Abstract(), text);
      if text == "" {
        return;
      }
      hide Usable, Placed;
      if textAt.None? {
        content := content + [TextBlock("", "")];
        textAt := Some(|content| - 1);
        events := events + [Start(|content| - 1, IsText)];
      }
      content := content[textAt.value := MoreText(content[textAt.value], text)];
      events := events + [Delta(textAt.value, IsText, text)];
      assert Abstract() == r;
    }

    method ReadThinking(field: string, text: string)
      requires Valid()
      modifies this
      ensures Valid() && Abstract() == ThinkingRead(old(Abstract()), field, text)
    {
      ghost var r := ThinkingRead(Abstract(), field, text);
      if field == "" || (thinkingAt.Some? && thinkField != field) {
        return;
      }
      hide Usable, Placed;
      if thinkingAt.None? {
        content := content + [ThinkingBlock("", field, false)];
        thinkingAt := Some(|content| - 1);
        thinkField := field;
        events := events + [Start(|content| - 1, IsThinking)];
      }
      content := content[thinkingAt.value := MoreText(content[thinkingAt.value], text)];
      events := events + [Delta(thinkingAt.value, IsThinking, text)];
      assert Abstract() == r;
    }

    /** The block for a delta: by its index, else by its id. */
    method FindCall(d: CallDelta) returns (block: Option<nat>)
      requires Valid()
      ensures var j := Route(Abstract(), d); block == if j < |toolOrder| then Some(j) else None
    {
      hide Placed;
      block := None;
      var index: int := if d.index.Some? then d.index.value else 0;
      if d.index.Some? && index in toolByIndex {
        block := Some(toolByIndex[index]);
      }
      if block.None? && d.id != "" && d.id in toolById {
        block := Some(toolById[d.id]);
      }
    }

    method OpenCall(d: CallDelta)
      modifies this`content, this`events, this`toolOrder
      ensures Abstract() == old(Abstract()).(
        out := Opened(old(Abstract().out), ToolBlock(d.id, d.name, NO_ARGUMENTS, "")),
        order := old(toolOrder) + [Scratch(old(|content|), "")])
    {
      content := content + [ToolBlock(d.id, d.name, NO_ARGUMENTS, "")];
      toolOrder := toolOrder + [Scratch(|content| - 1, "")];
      events := events + [Start(|content| - 1, IsTool)];
    }

    method PlaceCall(d: CallDelta) returns (j: nat)
      requires Valid()
      modifies this
      ensures Valid() && j == Route(old(Abstract()), d) < |toolOrder|
      ensures Abstract() == CallPlaced(old(Abstract()), d)
    {
      hide Route, Placed, Usable;
      ghost var r := CallPlaced(Abstract(), d);
      var block := FindCall(d);
      if block.None? {
        block := Some(|toolOrder|);
        OpenCall(d);
      }
      j := block.value;
      if d.index.Some? {
        var index: int := d.index.value;
        toolByIndex := toolByIndex[index := j];
      }
      if d.id != "" {
        toolById := toolById[d.id := j];
      }
      assert Abstract() == r;
    }

    method ReadCall(d: CallDelta)
      requires Valid()
      modifies this
      ensures Valid() && Abstract() == CallRead(old(Abstract()), d, parse)
    {
      hide CallPlaced, Route;
      var j := PlaceCall(d);
      var at := toolOrder[j].at;
      var id := content[at].id;
      if id != "" && id in pendingReasoningDetails {
        content := content[at := Signed(content[at], pendingReasoningDetails[id])];
        pendingReasoningDetails := pendingReasoningDetails - {id};
      }
      assert Abstract() == PendingApplied(CallPlaced(old(Abstract()), d), j);
      ExtendCall(d, j);
    }

    method ExtendCall(d: CallDelta, j: nat)
      requires Valid() && j < |toolOrder|
      modifies this
      ensures Valid() && Abstract() == CallExtended(old(Abstract()), d, j, parse)
    {
      var at := toolOrder[j].at;
      var cur := content[at];
      var id, name, arguments := cur.id, cur.name, cur.arguments;
      ghost var s := Abstract();
      ghost var r := CallExtended(s, d, j, parse);
      hide Usable, Placed;
      if id == "" && d.id != "" {
        id := d.id;
      }
      if name == "" && d.name != "" {
        name := d.name;
      }
      var args := toolOrder[j].partialArgs + d.arguments;
      if d.arguments != "" {
        arguments := parse(args);
      }
      toolOrder := toolOrder[j := Scratch(at, args)];
      content := content[at := ToolBlock(id, name, arguments, cur.signature)];
      events := events + [Delta(at, IsTool, d.arguments)];
      assert Abstract() == r;
    }

    method ReadDetail(d: Detail)
      requires Valid()
      modifies this
      ensures Valid() && Abstract() == DetailRead(old(Abstract()), d)
    {
      if d.id in toolById {
        var at := toolOrder[toolById[d.id]].at;
        content := content[at := Signed(content[at], d.serialized)];
      } else {
        pendingReasoningDetails := pendingReasoningDetails[d.id := d.serialized];
      }
    }

    method ReadFields(f: Fields)
      requires Valid()
      modifies this
      ensures Valid() && Abstract() == FieldsRead(old(Abstract()), f, parse)
    {
      hide TextRead, ThinkingRead, CallRead, DetailRead, ReasoningField, Placed;
      ReadText(f.content);
      var (field, text) := ReasoningField(f);
      ReadThinking(field, text);
      ghost var before := Abstract();
      for i := 0 to |f.calls|
        invariant Valid() && CallsRead(before, f.calls, parse) == CallsRead(Abstract(), f.calls[i..], parse)
      {
        assert f.calls[i..][0] == f.calls[i] && f.calls[i..][1..] == f.calls[i + 1..];
        ReadCall(f.calls[i]);
      }
      assert Abstract() == CallsRead(before, f.calls, parse);
      ReadDetails(f.details);
    }

    method ReadDetails(details: seq<Detail>)
      requires Valid()
      modifies this
      ensures Valid() && Abstract() == DetailsRead(old(Abstract()), details)
    {
      hide DetailRead, Placed;
      for i := 0 to |details|
        invariant Valid() && DetailsRead(old(Abstract()), details) == DetailsRead(Abstract(), details[i..])
      {
        assert details[i..][0] == details[i] && details[i..][1..] == details[i + 1..];
        ReadDetail(details[i]);
      }
    }

    method CloseBlock(at: Option<nat>)
      requires at.Some? ==> at.value < |content|
      modifies this`events
      ensures Output(content, events) == BlockClosed(old(Output(content, events)), at)
    {
      if at.Some? {
        assert content == content[at.value := content[at.value]];
        events := events + [End(at.value, content[at.value])];
      }
    }

    method CloseTools()
      requires Placed(Output(content, events), toolOrder)
      modifies this`content, this`events
      ensures Output(content, events) == ToolsClosed(old(Output(content, events)), toolOrder, 0, parse)
    {
      for j := 0 to |toolOrder|
        invariant Placed(Output(content, events), toolOrder)
        invariant ToolsClosed(old(Output(content, events)), toolOrder, 0, parse)
               == ToolsClosed(Output(content, events), toolOrder, j, parse)
      {
        var at := toolOrder[j].at;
        content := content[at := WithArguments(content[at], parse(toolOrder[j].partialArgs))];
        events := events + [End(at, content[at])];
      }
    }

    method ReadChunk(chunk: Chunk)
      requires Valid()
      modifies this
      ensures Valid() && Abstract() == ChunkRead(old(Abstract()), chunk, parse)
    {
      hide FieldsRead, Usable;
      ghost var r := ChunkRead(Abstract(), chunk, parse);
      if chunk.Choice? {
        if chunk.finished {
          hasFinishReason := true;
        }
        assert Usable(Abstract()) by { FinishedIsUsable(old(Abstract()), chunk.finished); }
        if chunk.delta.Some? {
          ReadFields(chunk.delta.value);
        }
      }
      assert Abstract() == r;
    }

    /** The chunks that arrive before the body ends, or before reading it fails. */
    method DecodeEvents(chunks: seq<Chunk>, readFails: bool) returns (ending: Ending)
      requires Valid() && Abstract() == INITIAL
      modifies this
      ensures (Abstract(), ending) == Decoded(chunks, readFails, parse)
    {
      hide ChunkRead, ToolsClosed;
      for i := 0 to |chunks|
        invariant Valid() && ChunksRead(INITIAL, chunks, parse) == ChunksRead(Abstract(), chunks[i..], parse)
      {
        assert chunks[i..][0] == chunks[i] && chunks[i..][1..] == chunks[i + 1..];
        ReadChunk(chunks[i]);
      }
      if readFails {
        return ReadFailed;
      }
      CloseBlocks();
      ending := if hasFinishReason then Complete else Unfinished;
    }

    method CloseBlocks()
      requires Valid()
      modifies this`content, this`events
      ensures Abstract() == Finished(old(Abstract()), parse)
    {
      hide ToolsClosed;
      CloseBlock(textAt);
      CloseBlock(thinkingAt);
      CloseTools();
    }
  }
}
