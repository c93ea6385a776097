/** The whole message that an Anthropic stream leaves, told from the events alone. */
module AnthropicMessage {
  import opened Wrappers
  import opened JsonText
  import opened BlockEvents
  import opened AnthropicDecoder

  /** What a delta may bring. */
  datatype Part = TextPart | ThinkingPart | SignaturePart | JsonPart

  function Brought(d: BlockDelta, part: Part): string {
    match (d, part)
    case (TextPiece(t), TextPart) => t
    case (ThinkingPiece(t), ThinkingPart) => t
    case (SignaturePiece(t), SignaturePart) => t
    case (JsonPiece(t), JsonPart) => t
    case _ => ""
  }

  /** All that deltas for an index bring of one part, up to a failure. */
  function Sent(es: seq<RawEvent>, index: int, part: Part): string
    decreases |es|
  {
    if es == [] || es[0].Failed? then ""
    else (if es[0].BlockDelta? && es[0].index == index then Brought(es[0].delta, part) else "") + Sent(es[1..], index, part)
  }

  /** The index is stopped, or gets JSON text, before a failure. */
  predicate Parses(es: seq<RawEvent>, index: int)
    decreases |es|
  {
    es != [] && !es[0].Failed? &&
    (es[0] == BlockStop(index) || (es[0].BlockDelta? && es[0].index == index && es[0].delta.JsonPiece?) || Parses(es[1..], index))
  }

  /** A block that the index's deltas reach, after them; args is the JSON text it has got before. */
  function Grown(c: Content, args: string, es: seq<RawEvent>, index: int, parse: string -> Value): Content {
    match c
    case TextBlock(text, signature) => TextBlock(text + Sent(es, index, TextPart), signature)
    case ThinkingBlock(text, signature, redacted) =>
      ThinkingBlock(text + Sent(es, index, ThinkingPart), signature + Sent(es, index, SignaturePart), redacted)
    case ToolBlock(id, name, arguments, signature) =>
      ToolBlock(id, name, if Parses(es, index) then parse(args + Sent(es, index, JsonPart)) else arguments, signature)
  }

  /** A block as it starts. */
  function Started(b: NewBlock): Content
    requires !b.NewOther?
  {
    match b
    case NewText => TextBlock("", "")
    case NewThinking => ThinkingBlock("", "", false)
    case NewRedacted(data) => ThinkingBlock("[Reasoning redacted]", data, true)
    case NewTool(id, name, input) => ToolBlock(id, name, Object(input), "")
  }

  /** A block in the end; nothing reaches one that is not the first of its index. */
  function FirstOrLater(b: NewBlock, first: bool, es: seq<RawEvent>, index: int, parse: string -> Value): Content
    requires !b.NewOther?
  {
    if first then Grown(Started(b), "", es, index, parse) else Started(b)
  }

  /** The blocks that the events open, each with what its index brings if it is the first one opened under it. */
  function Message(es: seq<RawEvent>, taken: set<int>, parse: string -> Value): seq<Content>
    decreases |es|
  {
    if es == [] || es[0].Failed? then []
    else if es[0].BlockStart? && !es[0].block.NewOther? then
      [FirstOrLater(es[0].block, es[0].index !in taken, es[1..], es[0].index, parse)]
      + Message(es[1..], taken + {es[0].index}, parse)
    else Message(es[1..], taken, parse)
  }

  // ----- The decoder makes this message ----------------------------------------------------------

  predicate Owns(s: State, k: nat) { k < |s.blocks| && Found(s.blocks, s.blocks[k].eventIndex, 0) == Some(k) }

  function GrownAt(s: State, k: nat, es: seq<RawEvent>, parse: string -> Value): Content
    requires Aligned(s) && k < |s.blocks|
  {
    if Owns(s, k) then Grown(s.out.content[k], s.blocks[k].partialJson, es, s.blocks[k].eventIndex, parse) else s.out.content[k]
  }

  function AllGrown(s: State, es: seq<RawEvent>, parse: string -> Value): (r: seq<Content>)
    requires Aligned(s)
    ensures |r| == |s.blocks| && forall k | 0 <= k < |r| :: r[k] == GrownAt(s, k, es, parse)
  {
    seq(|s.blocks|, k requires 0 <= k < |s.blocks| => GrownAt(s, k, es, parse))
  }

  function Indices(s: State): set<int> { set b | b in s.blocks :: b.eventIndex }

  lemma NothingSent(c: Content, args: string, index: int, parse: string -> Value)
    ensures Grown(c, args, [], index, parse) == c
  {
    match c
    case TextBlock(text, _) => assert text + "" == text;
    case ThinkingBlock(text, signature, _) => assert text + "" == text && signature + "" == signature;
    case ToolBlock(_, _, _, _) =>
  }

  lemma FailedSends(c: Content, args: string, es: seq<RawEvent>, index: int, parse: string -> Value)
    requires es != [] && es[0].Failed?
    ensures Grown(c, args, es, index, parse) == c
  {
    NothingSent(c, args, index, parse);
  }

  /** The content and the JSON text of the block that an event's index finds, after it. */
  function Stepped(c: Content, args: string, e: RawEvent, index: int, parse: string -> Value): (Content, string) {
    var mine := e.BlockDelta? && e.index == index;
    var more := if mine then Brought(e.delta, JsonPart) else "";
    match c
    case TextBlock(text, signature) => (TextBlock(text + if mine then Brought(e.delta, TextPart) else "", signature), args)
    case ThinkingBlock(text, signature, redacted) =>
      (ThinkingBlock(text + (if mine then Brought(e.delta, ThinkingPart) else ""),
                     signature + (if mine then Brought(e.delta, SignaturePart) else ""), redacted), args)
    case ToolBlock(id, name, arguments, signature) =>
      (ToolBlock(id, name, if e == BlockStop(index) || (mine && e.delta.JsonPiece?) then parse(args + more) else arguments, signature),
       args + more)
  }

  lemma GrownStep(c: Content, args: string, es: seq<RawEvent>, index: int, parse: string -> Value)
    requires es != [] && !es[0].Failed?
    ensures var (c', args') := Stepped(c, args, es[0], index, parse);
            Grown(c, args, es, index, parse) == Grown(c', args', es[1..], index, parse)
  {
    var mine := es[0].BlockDelta? && es[0].index == index;
    Grouped(c, args, if mine then es[0].delta else OtherPiece, es[1..], index);
    if c.ToolBlock? && Parses(es, index) && !Parses(es[1..], index) {
      NoMoreJson(es[1..], index);
      var more := if mine then Brought(es[0].delta, JsonPart) else "";
      assert more + "" == more;
    }
  }

  lemma Regroup<T>(a: seq<T>, b: seq<T>, c: seq<T>)
    ensures (a + b) + c == a + (b + c)
  {
  }

  lemma Grouped(c: Content, args: string, d: BlockDelta, es: seq<RawEvent>, index: int)
    ensures !c.ToolBlock? ==>
              && c.text + (Brought(d, TextPart) + Sent(es, index, TextPart)) == (c.text + Brought(d, TextPart)) + Sent(es, index, TextPart)
              && c.text + (Brought(d, ThinkingPart) + Sent(es, index, ThinkingPart))
              == (c.text + Brought(d, ThinkingPart)) + Sent(es, index, ThinkingPart)
              && c.signature + (Brought(d, SignaturePart) + Sent(es, index, SignaturePart))
              == (c.signature + Brought(d, SignaturePart)) + Sent(es, index, SignaturePart)
    ensures args + (Brought(d, JsonPart) + Sent(es, index, JsonPart)) == (args + Brought(d, JsonPart)) + Sent(es, index, JsonPart)
  {
    hide Brought, Sent;
    if !c.ToolBlock? {
      Regroup(c.text, Brought(d, TextPart), Sent(es, index, TextPart));
      Regroup(c.text, Brought(d, ThinkingPart), Sent(es, index, ThinkingPart));
      Regroup(c.signature, Brought(d, SignaturePart), Sent(es, index, SignaturePart));
    }
    Regroup(args, Brought(d, JsonPart), Sent(es, index, JsonPart));
  }

  lemma {:induction false} NoMoreJson(es: seq<RawEvent>, index: int)
    requires !Parses(es, index)
    ensures Sent(es, index, JsonPart) == ""
    decreases |es|
  {
    if es != [] && !es[0].Failed? {
      NoMoreJson(es[1..], index);
    }
  }

  /** An event that opens no block changes the block that its index finds, as Stepped says, and no other. */
  lemma EventSteps(s: State, e: RawEvent, k: nat, parse: string -> Value)
    requires Aligned(s) && k < |s.blocks| && !e.BlockStart?
    ensures var t := EventRead(s, e, parse);
            && |t.blocks| == |s.blocks| && t.blocks[k].eventIndex == s.blocks[k].eventIndex
            && (t.out.content[k], t.blocks[k].partialJson) ==
                 if Owns(s, k) then Stepped(s.out.content[k], s.blocks[k].partialJson, e, s.blocks[k].eventIndex, parse)
                 else (s.out.content[k], s.blocks[k].partialJson)
  {
    hide Found;
    var c, args := s.out.content[k], s.blocks[k].partialJson;
    assert args + "" == args;
    if !c.ToolBlock? {
      assert c.text + "" == c.text && c.signature + "" == c.signature;
    }
    if e.BlockDelta? && Found(s.blocks, e.index, 0) == Some(k) {
      assert Owns(s, k);
    }
    if e.BlockStop? && Found(s.blocks, e.index, 0) == Some(k) {
      assert Owns(s, k);
    }
  }

  lemma OwnsStill(s: State, t: State, k: nat)
    requires k < |s.blocks| <= |t.blocks| && forall j | 0 <= j < |s.blocks| :: t.blocks[j].eventIndex == s.blocks[j].eventIndex
    ensures Owns(t, k) <==> Owns(s, k)
  {
    hide Found;
    var index := s.blocks[k].eventIndex;
    if Owns(s, k) {
      FoundIs(t.blocks, index, k);
    }
  }

  /** One event: what the blocks grow to from before it is what they grow to from after it. */
  lemma EventGrows(s: State, es: seq<RawEvent>, k: nat, parse: string -> Value)
    requires Aligned(s) && k < |s.blocks| && es != [] && !es[0].Failed?
    ensures k < |EventRead(s, es[0], parse).blocks|
    ensures GrownAt(EventRead(s, es[0], parse), k, es[1..], parse) == GrownAt(s, k, es, parse)
  {
    hide Found, Grown, EventRead, Owns;
    var t, e := EventRead(s, es[0], parse), es[0];
    if Owns(s, k) {
      GrownStep(s.out.content[k], s.blocks[k].partialJson, es, s.blocks[k].eventIndex, parse);
    }
    if e.BlockStart? {
      StartKeeps(s, e.index, e.block, parse);
      OwnsStill(s, t, k);
      StartStepsNone(s.out.content[k], s.blocks[k].partialJson, e, s.blocks[k].eventIndex, parse);
    } else {
      forall j | 0 <= j < |s.blocks| ensures |t.blocks| == |s.blocks| && t.blocks[j].eventIndex == s.blocks[j].eventIndex {
        EventSteps(s, e, j, parse);
      }
      EventSteps(s, e, k, parse);
      OwnsStill(s, t, k);
    }
  }

  lemma StartKeeps(s: State, index: int, b: NewBlock, parse: string -> Value)
    requires Aligned(s)
    ensures var t := EventRead(s, BlockStart(index, b), parse);
            && s.blocks <= t.blocks && s.out.content <= t.out.content
            && |t.blocks| == |s.blocks| + (if b.NewOther? then 0 else 1)
            && (!b.NewOther? ==>
                  t.blocks == s.blocks + [BlockState(KindOf(Started(b)), index, "")] && t.out.content == s.out.content + [Started(b)])
  {
  }

  lemma StartStepsNone(c: Content, args: string, e: RawEvent, index: int, parse: string -> Value)
    requires e.BlockStart?
    ensures Stepped(c, args, e, index, parse) == (c, args)
  {
    assert args + "" == args;
    if !c.ToolBlock? {
      assert c.text + "" == c.text && c.signature + "" == c.signature;
    }
  }

  /** A new block grows as the first of its index, or not at all. */
  lemma StartGrows(s: State, es: seq<RawEvent>, parse: string -> Value)
    requires Aligned(s) && es != [] && es[0].BlockStart? && !es[0].block.NewOther?
    ensures var t, k := EventRead(s, es[0], parse), |s.blocks|;
            && |t.blocks| == k + 1
            && GrownAt(t, k, es[1..], parse) == FirstOrLater(es[0].block, es[0].index !in Indices(s), es[1..], es[0].index, parse)
            && Indices(t) == Indices(s) + {es[0].index}
  {
    hide Found, Grown, EventRead;
    var index, b := es[0].index, es[0].block;
    StartKeeps(s, index, b, parse);
    FoundAppended(s.blocks, BlockState(KindOf(Started(b)), index, ""), index);
    var pos := Found(s.blocks, index, 0);
    if pos.Some? {
      assert s.blocks[pos.value] in s.blocks;
    } else {
      assert forall o | o in s.blocks :: o.eventIndex != index;
    }
    var t := EventRead(s, es[0], parse);
    IndicesNext(s.blocks, t.blocks[|s.blocks|], index);
  }

  lemma IndicesNext(blocks: seq<BlockState>, b: BlockState, index: int)
    requires b.eventIndex == index
    ensures (set o | o in blocks + [b] :: o.eventIndex) == (set o | o in blocks :: o.eventIndex) + {index}
  {
    assert (blocks + [b])[|blocks|] == b;
  }

  lemma SameIndices(s: State, t: State)
    requires |s.blocks| == |t.blocks| && forall j | 0 <= j < |s.blocks| :: t.blocks[j].eventIndex == s.blocks[j].eventIndex
    ensures Indices(t) == Indices(s)
  {
    forall i | i in Indices(s) ensures i in Indices(t) {
      var j :| 0 <= j < |s.blocks| && s.blocks[j].eventIndex == i;
      assert t.blocks[j] in t.blocks;
    }
    forall i | i in Indices(t) ensures i in Indices(s) {
      var j :| 0 <= j < |t.blocks| && t.blocks[j].eventIndex == i;
      assert s.blocks[j] in s.blocks;
    }
  }

  lemma BlocksGrowOn(s: State, es: seq<RawEvent>, parse: string -> Value)
    requires Aligned(s) && es != [] && !es[0].Failed?
    ensures var t := EventRead(s, es[0], parse); var before, after := AllGrown(s, es, parse), AllGrown(t, es[1..], parse);
            && |before| <= |after| && after[..|before|] == before
  {
    hide Grown, EventRead, GrownAt, Aligned;
    forall k | 0 <= k < |s.blocks|
      ensures k < |EventRead(s, es[0], parse).blocks|
      ensures GrownAt(EventRead(s, es[0], parse), k, es[1..], parse) == GrownAt(s, k, es, parse)
    {
      EventGrows(s, es, k, parse);
    }
    if s.blocks != [] {
      EventGrows(s, es, |s.blocks| - 1, parse);
    }
  }

  /** What the blocks grow to, and the blocks to come, do not change with an event. */
  lemma EventSays(s: State, es: seq<RawEvent>, parse: string -> Value)
    requires Aligned(s) && es != [] && !es[0].Failed?
    ensures var t := EventRead(s, es[0], parse);
            AllGrown(t, es[1..], parse) + Message(es[1..], Indices(t), parse) == AllGrown(s, es, parse) + Message(es, Indices(s), parse)
  {
    hide Grown, EventRead, GrownAt, Indices, FirstOrLater, Aligned;
    var t, e := EventRead(s, es[0], parse), es[0];
    var before, after := AllGrown(s, es, parse), AllGrown(t, es[1..], parse);
    BlocksGrowOn(s, es, parse);
    if e.BlockStart? && !e.block.NewOther? {
      StartGrows(s, es, parse);
      var first := [GrownAt(t, |s.blocks|, es[1..], parse)];
      assert after == before + first;
      assert Message(es, Indices(s), parse) == first + Message(es[1..], Indices(t), parse);
      Regroup(before, first, Message(es[1..], Indices(t), parse));
    } else {
      NoStartKeeps(s, e, parse);
      SameIndices(s, t);
      assert after == before;
    }
  }

  lemma NoStartKeeps(s: State, e: RawEvent, parse: string -> Value)
    requires Aligned(s) && (e.BlockStart? ==> e.block.NewOther?)
    ensures var t := EventRead(s, e, parse);
            |t.blocks| == |s.blocks| && forall j | 0 <= j < |s.blocks| :: t.blocks[j].eventIndex == s.blocks[j].eventIndex
  {
    if e.BlockStart? {
      StartKeeps(s, e.index, e.block, parse);
    } else {
      forall j | 0 <= j < |s.blocks|
        ensures |EventRead(s, e, parse).blocks| == |s.blocks|
        ensures EventRead(s, e, parse).blocks[j].eventIndex == s.blocks[j].eventIndex
      {
        EventSteps(s, e, j, parse);
      }
      if s.blocks == [] {
        NoBlocksStay(s, e, parse);
      }
    }
  }

  lemma NoBlocksStay(s: State, e: RawEvent, parse: string -> Value)
    requires Aligned(s) && !e.BlockStart? && s.blocks == []
    ensures EventRead(s, e, parse).blocks == []
  {
  }

  lemma {:induction false} DecodedIsGrown(s: State, es: seq<RawEvent>, sawStart: bool, sawStop: bool, parse: string -> Value)
    requires Aligned(s)
    ensures Decoded(s, es, sawStart, sawStop, parse).0.out.content == AllGrown(s, es, parse) + Message(es, Indices(s), parse)
    decreases |es|
  {
    hide Grown, EventRead, Indices, Owns, Found;
    if es == [] || es[0].Failed? {
      forall k | 0 <= k < |s.blocks| ensures GrownAt(s, k, es, parse) == s.out.content[k] {
        if es == [] {
          NothingSent(s.out.content[k], s.blocks[k].partialJson, s.blocks[k].eventIndex, parse);
        } else {
          FailedSends(s.out.content[k], s.blocks[k].partialJson, es, s.blocks[k].eventIndex, parse);
        }
      }
      assert AllGrown(s, es, parse) == s.out.content;
    } else {
      hide AllGrown, Message;
      EventSays(s, es, parse);
      DecodedIsGrown(EventRead(s, es[0], parse), es[1..], sawStart || es[0].MessageStart?, sawStop || es[0].MessageStop?, parse);
    }
  }

  /**
   * For every event sequence the message is exactly this: the blocks that were
   * started, in order, a call with its id and name; the first of each index with
   * all text, thinking and signature sent to that index, and with what all its
   * JSON text parses to once there is some, or a stop.
   */
  lemma AnthropicMessageExactly(es: seq<RawEvent>, parse: string -> Value)
    ensures Decoded(INITIAL, es, false, false, parse).0.out.content == Message(es, {}, parse)
  {
    hide Decoded, Message;
    DecodedIsGrown(INITIAL, es, false, false, parse);
    assert Indices(INITIAL) == {};
    assert AllGrown(INITIAL, es, parse) == [];
    assert [] + Message(es, {}, parse) == Message(es, {}, parse);
  }

  // ----- How the stream ended ------------------------------------------------------------------

  ghost predicate Comes(es: seq<RawEvent>, e: RawEvent) { exists k :: 0 <= k < |es| && es[k] == e }

  lemma ComesFirst(es: seq<RawEvent>, e: RawEvent)
    requires es != []
    ensures Comes(es, e) <==> es[0] == e || Comes(es[1..], e)
  {
    if k :| 0 <= k < |es| && es[k] == e {
      assert k > 0 ==> es[1..][k - 1] == e;
    }
    if k :| 0 <= k < |es[1..]| && es[1..][k] == e {
      assert es[k + 1] == e;
    }
  }

  /** An error event fails the stream; without one it is truncated if the message started and did not stop. */
  lemma {:induction false} AnthropicEndsExactly(s: State, es: seq<RawEvent>, sawStart: bool, sawStop: bool, parse: string -> Value)
    requires Aligned(s)
    ensures Decoded(s, es, sawStart, sawStop, parse).1 ==
              if Comes(es, Failed) then WithError
              else if (sawStart || Comes(es, MessageStart)) && !sawStop && !Comes(es, MessageStop) then Truncated
              else Read
    decreases |es|
  {
    hide EventRead, Aligned, Comes;
    if es == [] {
      NothingComes(Failed);
      NothingComes(MessageStart);
      NothingComes(MessageStop);
    } else {
      ComesFirst(es, Failed);
      ComesFirst(es, MessageStart);
      ComesFirst(es, MessageStop);
      if !es[0].Failed? {
        AnthropicEndsExactly(EventRead(s, es[0], parse), es[1..], sawStart || es[0].MessageStart?, sawStop || es[0].MessageStop?, parse);
      }
    }
  }

  lemma NothingComes(e: RawEvent)
    ensures !Comes([], e)
  {
  }
}
