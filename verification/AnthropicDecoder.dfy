/** Decoding an Anthropic stream: a block list beside the content, searched by event index. */
module AnthropicDecoder {
  import opened Wrappers
  import opened JsonText
  import opened BlockEvents

  const REDACTED := "[Reasoning redacted]"

  datatype NewBlock =
    | NewText
    | NewThinking
    | NewRedacted(data: string)
    | NewTool(id: string, name: string, input: map<string, Value>)
    | NewOther

  datatype BlockDelta =
    | TextPiece(text: string)
    | JsonPiece(text: string)
    | ThinkingPiece(text: string)
    | SignaturePiece(text: string)
    | OtherPiece

  datatype RawEvent =
    | Ignored
    | MessageStart
    | BlockStart(index: int, block: NewBlock)
    | BlockDelta(index: int, delta: BlockDelta)
    | BlockStop(index: int)
    | MessageStop
    | Failed

  datatype BlockState = BlockState(kind: Kind, eventIndex: int, partialJson: string)

  datatype State = State(out: Output, blocks: seq<BlockState>)

  const INITIAL := State(NO_OUTPUT, [])

  datatype Ending = Read | Truncated | WithError

  /** The two lists have the same length, and the same kinds position by position. */
  predicate Aligned(s: State) {
    && |s.blocks| == |s.out.content|
    && forall k | 0 <= k < |s.blocks| :: s.blocks[k].kind == KindOf(s.out.content[k])
  }

  /** The first block that was opened with an event index, from position k on. */
  function Found(blocks: seq<BlockState>, index: int, k: nat): (r: Option<nat>)
    requires k <= |blocks|
    ensures r.Some? ==> k <= r.value < |blocks| && blocks[r.value].eventIndex == index
    ensures r.Some? ==> forall j | k <= j < r.value :: blocks[j].eventIndex != index
    ensures r.None? ==> forall j | k <= j < |blocks| :: blocks[j].eventIndex != index
    decreases |blocks| - k
  {
    if k == |blocks| then None else if blocks[k].eventIndex == index then Some(k) else Found(blocks, index, k + 1)
  }

  function FirstBlock(b: NewBlock): Content
    requires !b.NewOther?
  {
    match b
    case NewText => TextBlock("", "")
    case NewThinking => ThinkingBlock("", "", false)
    case NewRedacted(data) => ThinkingBlock(REDACTED, data, true)
    case NewTool(id, name, input) => ToolBlock(id, name, Object(input), "")
  }

  function BlockOpened(s: State, index: int, b: NewBlock): (r: State)
    requires Aligned(s)
    ensures Aligned(r)
  {
    if b.NewOther? then s
    else State(Opened(s.out, FirstBlock(b)), s.blocks + [BlockState(KindOf(FirstBlock(b)), index, "")])
  }

  /** The kind of block that a delta is for. */
  function PieceKind(d: BlockDelta): Option<Kind> {
    match d
    case TextPiece(_) => Some(IsText)
    case JsonPiece(_) => Some(IsTool)
    case ThinkingPiece(_) => Some(IsThinking)
    case SignaturePiece(_) => Some(IsThinking)
    case OtherPiece => None
  }

  function WithPiece(c: Content, text: string): Content
    requires !c.ToolBlock?
  {
    if c.TextBlock? then TextBlock(c.text + text, c.signature) else ThinkingBlock(c.text + text, c.signature, c.redacted)
  }

  function PieceAdded(s: State, index: int, d: BlockDelta, parse: string -> Value): (r: State)
    requires Aligned(s)
    ensures Aligned(r)
  {
    var pos := Found(s.blocks, index, 0);
    if pos.None? || PieceKind(d) != Some(s.blocks[pos.value].kind) then s
    else
      var at, c := pos.value, s.out.content[pos.value];
      if d.SignaturePiece? then
        s.(out := s.out.(content := s.out.content[at := ThinkingBlock(c.text, c.signature + d.text, c.redacted)]))
      else if d.JsonPiece? then
        var args := s.blocks[at].partialJson + d.text;
        State(Extended(s.out, at, ToolBlock(c.id, c.name, parse(args), c.signature), d.text),
              s.blocks[at := s.blocks[at].(partialJson := args)])
      else s.(out := Extended(s.out, at, WithPiece(c, d.text), d.text))
  }

  function BlockStopped(s: State, index: int, parse: string -> Value): (r: State)
    requires Aligned(s)
    ensures Aligned(r)
  {
    var pos := Found(s.blocks, index, 0);
    if pos.None? then s
    else
      var at, c := pos.value, s.out.content[pos.value];
      s.(out := Closed(s.out, at, if c.ToolBlock? then ToolBlock(c.id, c.name, parse(s.blocks[at].partialJson), c.signature) else c))
  }

  function EventRead(s: State, e: RawEvent, parse: string -> Value): (r: State)
    requires Aligned(s)
    ensures Aligned(r)
  {
    match e
    case BlockStart(index, b) => BlockOpened(s, index, b)
    case BlockDelta(index, d) => PieceAdded(s, index, d, parse)
    case BlockStop(index) => BlockStopped(s, index, parse)
    case _ => s
  }

  function Decoded(s: State, es: seq<RawEvent>, sawStart: bool, sawStop: bool, parse: string -> Value): (State, Ending)
    requires Aligned(s)
    decreases |es|
  {
    if es == [] then (s, if sawStart && !sawStop then Truncated else Read)
    else if es[0].Failed? then (s, WithError)
    else Decoded(EventRead(s, es[0], parse), es[1..], sawStart || es[0].MessageStart?, sawStop || es[0].MessageStop?, parse)
  }

  // ----- The decoder -------------------------------------------------------------------------

  class Decoder {
    const parse: string -> Value
    var content: seq<Content>
    var events: seq<BlockEvent>
    var blocks: seq<BlockState>

    ghost function Abstract(): State reads this { State(Output(content, events), blocks) }

    ghost predicate Valid() reads this { Aligned(Abstract()) }

    constructor (parse: string -> Value)
      ensures Valid() && Abstract() == INITIAL && this.parse == parse
    {
      this.parse, content, events, blocks := parse, [], [], [];
    }

    method FindBlock(index: int) returns (pos: Option<nat>)
      ensures pos == Found(blocks, index, 0)
    {
      for k := 0 to |blocks|
        invariant Found(blocks, index, 0) == Found(blocks, index, k)
      {
        if blocks[k].eventIndex == index {
          return Some(k);
        }
      }
      pos := None;
    }

    method OpenBlock(index: int, b: NewBlock)
      requires Valid()
      modifies this
      ensures Valid() && Abstract() == BlockOpened(old(Abstract()), index, b)
    {
      if b.NewOther? {
        return;
      }
      content := content + [FirstBlock(b)];
      blocks := blocks + [BlockState(KindOf(FirstBlock(b)), index, "")];
      events := events + [Start(|content| - 1, KindOf(FirstBlock(b)))];
    }

    method AddPiece(index: int, d: BlockDelta)
      requires Valid()
      modifies this
      ensures Valid() && Abstract() == PieceAdded(old(Abstract()), index, d, parse)
    {
      hide Found;
      var found := FindBlock(index);
      if found.None? {
        return;
      }
      var pos := found.value;
      var b, cur := blocks[pos], content[pos];
      match d
      case TextPiece(text) =>
        if b.kind == IsText {
          content := content[pos := WithPiece(cur, text)];
          events := events + [Delta(pos, IsText, text)];
        }
      case JsonPiece(text) =>
        if b.kind == IsTool {
          b := b.(partialJson := b.partialJson + text);
          blocks := blocks[pos := b];
          content := content[pos := ToolBlock(cur.id, cur.name, parse(b.partialJson), cur.signature)];
          events := events + [Delta(pos, IsTool, text)];
        }
      case ThinkingPiece(text) =>
        if b.kind == IsThinking {
          content := content[pos := WithPiece(cur, text)];
          events := events + [Delta(pos, IsThinking, text)];
        }
      case SignaturePiece(text) =>
        if b.kind == IsThinking {
          content := content[pos := ThinkingBlock(cur.text, cur.signature + text, cur.redacted)];
        }
      case OtherPiece =>
    }

    method StopBlock(index: int)
      requires Valid()
      modifies this
      ensures Valid() && Abstract() == BlockStopped(old(Abstract()), index, parse)
    {
      hide Found;
      var found := FindBlock(index);
      if found.None? {
        return;
      }
      var pos := found.value;
      var cur := content[pos];
      if blocks[pos].kind == IsTool {
        cur := ToolBlock(cur.id, cur.name, parse(blocks[pos].partialJson), cur.signature);
      }
      content := content[pos := cur];
      events := events + [End(pos, cur)];
    }

    method DecodeEvents(es: seq<RawEvent>) returns (ending: Ending)
      requires Valid()
      modifies this
      ensures Valid() && (Abstract(), ending) == Decoded(old(Abstract()), es, false, false, parse)
    {
      hide BlockOpened, PieceAdded, BlockStopped, Aligned;
      var sawStart, sawStop := false, false;
      for k := 0 to |es|
        invariant Valid()
        invariant Decoded(old(Abstract()), es, false, false, parse) == Decoded(Abstract(), es[k..], sawStart, sawStop, parse)
      {
        assert es[k..][0] == es[k] && es[k..][1..] == es[k + 1..];
        match es[k]
        case Ignored =>
        case MessageStart => sawStart := true;
        case BlockStart(index, b) => OpenBlock(index, b);
        case BlockDelta(index, d) => AddPiece(index, d);
        case BlockStop(index) => StopBlock(index);
        case MessageStop => sawStop := true;
        case Failed => return WithError;
      }
      ending := if sawStart && !sawStop then Truncated else Read;
    }
  }

  // ----- Text and its deltas -------------------------------------------------------------------

  function DeltaText(o: Output, at: nat): string { DeltasIn(EventsAt(o.events, at)) }

  /** A block holds exactly the deltas that were emitted for it. */
  predicate HoldsDeltas(s: State, at: nat)
    requires at < |s.out.content| == |s.blocks|
  {
    match s.out.content[at]
    case TextBlock(text, _) => text == DeltaText(s.out, at)
    case ThinkingBlock(text, _, redacted) => text == (if redacted then REDACTED else "") + DeltaText(s.out, at)
    case ToolBlock(_, _, _, _) => s.blocks[at].partialJson == DeltaText(s.out, at)
  }

  predicate Follows(s: State) {
    && Aligned(s)
    && (forall e | e in s.out.events :: e.at < |s.out.content|)
    && (forall at | 0 <= at < |s.out.content| :: HoldsDeltas(s, at))
  }

  lemma {:induction false} NoEventsAt(es: seq<BlockEvent>, at: nat)
    requires forall e | e in es :: e.at != at
    ensures EventsAt(es, at) == []
    decreases |es|
  {
    if es != [] {
      NoEventsAt(es[..|es| - 1], at);
    }
  }

  /** One more event changes the deltas of its own block only, and only if it is a delta. */
  lemma DeltaTextNext(o: Output, e: BlockEvent, content: seq<Content>, at: nat)
    ensures DeltaText(Output(content, o.events + [e]), at)
         == DeltaText(o, at) + if e.at == at && e.Delta? then e.delta else ""
  {
    EventsAtNext(o.events, e, at);
    if e.at == at {
      EventsAtNext(EventsAt(o.events, at), e, at);
    } else {
      assert EventsAt(o.events, at) + [] == EventsAt(o.events, at);
    }
  }

  lemma NoDeltaText(o: Output, at: nat)
    requires forall e | e in o.events :: e.at != at
    ensures DeltaText(o, at) == ""
  {
    NoEventsAt(o.events, at);
  }

  lemma BlockOpenedFollows(s: State, index: int, b: NewBlock)
    requires Follows(s)
    ensures Follows(BlockOpened(s, index, b))
  {
    hide DeltaText;
    if !b.NewOther? {
      var r := BlockOpened(s, index, b);
      var next := |s.out.content|;
      forall at | 0 <= at < |r.out.content| ensures HoldsDeltas(r, at) {
        DeltaTextNext(s.out, Start(next, KindOf(FirstBlock(b))), r.out.content, at);
        if at < next {
          assert HoldsDeltas(s, at);
        } else {
          NoDeltaText(s.out, at);
        }
      }
    }
  }

  /** A delta for block pos, whose block takes it up, leaves every block with its deltas. */
  lemma DeltaFollows(s: State, r: State, pos: nat, delta: string)
    requires Follows(s) && Aligned(r) && pos < |s.out.content| == |r.out.content|
    requires r.out.events == s.out.events + [Delta(pos, KindOf(s.out.content[pos]), delta)]
    requires forall at | 0 <= at < |s.out.content| && at != pos ::
               r.out.content[at] == s.out.content[at] && r.blocks[at] == s.blocks[at]
    requires HoldsDeltas(s, pos) && Took(s, r, pos, delta)
    ensures Follows(r)
  {
    hide DeltaText;
    forall at | 0 <= at < |r.out.content| ensures HoldsDeltas(r, at) {
      assert HoldsDeltas(s, at);
      DeltaTextNext(s.out, Delta(pos, KindOf(s.out.content[pos]), delta), r.out.content, at);
    }
  }

  /** The block at pos has the delta more. */
  predicate Took(s: State, r: State, pos: nat, delta: string)
    requires pos < |s.out.content| == |r.out.content| && pos < |s.blocks| == |r.blocks|
  {
    match (s.out.content[pos], r.out.content[pos])
    case (TextBlock(a, _), TextBlock(b, _)) => b == a + delta
    case (ThinkingBlock(a, _, ra), ThinkingBlock(b, _, rb)) => b == a + delta && ra == rb
    case (ToolBlock(_, _, _, _), ToolBlock(_, _, _, _)) => r.blocks[pos].partialJson == s.blocks[pos].partialJson + delta
    case _ => false
  }

  /** A change that pushes no event and leaves the texts alone. */
  lemma SignatureFollows(s: State, pos: nat, signature: string)
    requires Follows(s) && pos < |s.out.content| && s.out.content[pos].ThinkingBlock?
    ensures var c := s.out.content[pos];
            Follows(s.(out := s.out.(content := s.out.content[pos := ThinkingBlock(c.text, signature, c.redacted)])))
  {
    var c := s.out.content[pos];
    var r := s.(out := s.out.(content := s.out.content[pos := ThinkingBlock(c.text, signature, c.redacted)]));
    forall at | 0 <= at < |r.out.content| ensures HoldsDeltas(r, at) {
      assert HoldsDeltas(s, at);
    }
  }

  lemma PieceAddedFollows(s: State, index: int, d: BlockDelta, parse: string -> Value)
    requires Follows(s)
    ensures Follows(PieceAdded(s, index, d, parse))
  {
    hide Found, HoldsDeltas, DeltaText;
    var r := PieceAdded(s, index, d, parse);
    var pos := Found(s.blocks, index, 0);
    if pos.Some? && PieceKind(d) == Some(s.blocks[pos.value].kind) {
      var c := s.out.content[pos.value];
      if d.SignaturePiece? {
        SignatureFollows(s, pos.value, c.signature + d.text);
      } else {
        DeltaFollows(s, r, pos.value, d.text);
      }
    }
  }

  lemma BlockStoppedFollows(s: State, index: int, parse: string -> Value)
    requires Follows(s)
    ensures Follows(BlockStopped(s, index, parse))
  {
    hide Found;
    var r := BlockStopped(s, index, parse);
    var pos := Found(s.blocks, index, 0);
    if pos.Some? {
      forall at | 0 <= at < |r.out.content| ensures HoldsDeltas(r, at) {
        assert HoldsDeltas(s, at);
        DeltaTextNext(s.out, End(pos.value, r.out.content[pos.value]), r.out.content, at);
      }
    }
  }

  /** A delta reaches the first block that was opened with its index, if that is of its kind, and no other. */
  lemma DeltaReachesItsBlock(s: State, index: int, d: BlockDelta, parse: string -> Value, at: nat)
    requires Aligned(s)
    ensures DeltaText(PieceAdded(s, index, d, parse).out, at) == DeltaText(s.out, at) +
              if Found(s.blocks, index, 0) == Some(at) && PieceKind(d) == Some(s.blocks[at].kind) && !d.SignaturePiece?
              then d.text else ""
  {
    hide Found, DeltaText;
    var r := PieceAdded(s, index, d, parse);
    var pos := Found(s.blocks, index, 0);
    assert DeltaText(s.out, at) + "" == DeltaText(s.out, at);
    if pos.Some? && PieceKind(d) == Some(s.blocks[pos.value].kind) {
      if d.SignaturePiece? {
        SameEventsSameText(r.out, s.out, at);
      } else {
        DeltaTextNext(s.out, Delta(pos.value, s.blocks[pos.value].kind, d.text), r.out.content, at);
      }
    }
  }

  lemma SameEventsSameText(a: Output, b: Output, at: nat)
    requires a.events == b.events
    ensures DeltaText(a, at) == DeltaText(b, at)
  {
  }

  /**
   * For every event sequence the lists stay aligned, so each delta meets a block
   * of its kind, and each block holds the deltas emitted for it.
   */
  lemma {:induction false} AnthropicFollows(s: State, es: seq<RawEvent>, sawStart: bool, sawStop: bool, parse: string -> Value)
    requires Follows(s)
    ensures Follows(Decoded(s, es, sawStart, sawStop, parse).0)
    decreases |es|
  {
    hide BlockOpened, PieceAdded, BlockStopped, HoldsDeltas;
    if es != [] && !es[0].Failed? {
      match es[0] {
        case BlockStart(index, b) => BlockOpenedFollows(s, index, b);
        case BlockDelta(index, d) => PieceAddedFollows(s, index, d, parse);
        case BlockStop(index) => BlockStoppedFollows(s, index, parse);
        case _ =>
      }
      AnthropicFollows(EventRead(s, es[0], parse), es[1..], sawStart || es[0].MessageStart?, sawStop || es[0].MessageStop?, parse);
    }
  }

  // ----- Arguments ---------------------------------------------------------------------------------

  /** A delta or an end was pushed for block at. */
  predicate Touched(es: seq<BlockEvent>, at: nat) { exists k :: 0 <= k < |es| && es[k].at == at && !es[k].Start? }

  /** A call shows what its deltas parse to, from the first of them or its stop on; until then its start's input. */
  predicate ShowsArguments(s: State, at: nat, parse: string -> Value)
    requires at < |s.out.content| == |s.blocks|
  {
    s.out.content[at].ToolBlock? && Touched(s.out.events, at) ==> s.out.content[at].arguments == parse(s.blocks[at].partialJson)
  }

  predicate ShowsAll(s: State, parse: string -> Value) {
    Follows(s) && forall at | 0 <= at < |s.out.content| :: ShowsArguments(s, at, parse)
  }

  lemma TouchedNext(es: seq<BlockEvent>, e: BlockEvent, at: nat)
    ensures Touched(es + [e], at) <==> Touched(es, at) || (e.at == at && !e.Start?)
  {
    var more := es + [e];
    if k :| 0 <= k < |es| && es[k].at == at && !es[k].Start? {
      assert more[k] == es[k];
    }
    assert more[|es|] == e;
    if k :| 0 <= k < |more| && more[k].at == at && !more[k].Start? {
      assert k < |es| ==> es[k].at == at;
    }
  }

  /** A step that changes at most block pos, with one event or none. */
  lemma StillShows(s: State, r: State, e: BlockEvent, parse: string -> Value)
    requires ShowsAll(s, parse) && Follows(r) && r.out.events == s.out.events + [e]
    requires |r.out.content| == |s.out.content|
             || (e.Start? && e.at == |s.out.content| && |r.out.content| == |s.out.content| + 1)
    requires forall at | 0 <= at < |s.out.content| && (at != e.at || e.Start?) ::
               r.out.content[at] == s.out.content[at] && r.blocks[at].partialJson == s.blocks[at].partialJson
    requires !e.Start? && e.at < |r.out.content| && r.out.content[e.at].ToolBlock? ==>
               r.out.content[e.at].arguments == parse(r.blocks[e.at].partialJson)
    ensures ShowsAll(r, parse)
  {
    hide Touched, HoldsDeltas;
    forall at | 0 <= at < |r.out.content| ensures ShowsArguments(r, at, parse) {
      TouchedNext(s.out.events, e, at);
      if at < |s.out.content| {
        assert ShowsArguments(s, at, parse);
      } else {
        NotTouched(s, at);
      }
    }
  }

  lemma NotTouched(s: State, at: nat)
    requires Follows(s) && at >= |s.out.content|
    ensures !Touched(s.out.events, at)
  {
    hide HoldsDeltas;
  }

  lemma BlockOpenedShows(s: State, index: int, b: NewBlock, parse: string -> Value)
    requires ShowsAll(s, parse)
    ensures ShowsAll(BlockOpened(s, index, b), parse)
  {
    hide Touched, HoldsDeltas, ShowsArguments;
    BlockOpenedFollows(s, index, b);
    if !b.NewOther? {
      StillShows(s, BlockOpened(s, index, b), Start(|s.out.content|, KindOf(FirstBlock(b))), parse);
    }
  }

  lemma PieceAddedShows(s: State, index: int, d: BlockDelta, parse: string -> Value)
    requires ShowsAll(s, parse)
    ensures ShowsAll(PieceAdded(s, index, d, parse), parse)
  {
    hide Found, Touched, HoldsDeltas;
    PieceAddedFollows(s, index, d, parse);
    var r := PieceAdded(s, index, d, parse);
    var pos := Found(s.blocks, index, 0);
    if pos.Some? && PieceKind(d) == Some(s.blocks[pos.value].kind) {
      if d.SignaturePiece? {
        forall at | 0 <= at < |r.out.content| ensures ShowsArguments(r, at, parse) {
          assert ShowsArguments(s, at, parse);
        }
      } else {
        StillShows(s, r, Delta(pos.value, s.blocks[pos.value].kind, d.text), parse);
      }
    }
  }

  lemma BlockStoppedShows(s: State, index: int, parse: string -> Value)
    requires ShowsAll(s, parse)
    ensures ShowsAll(BlockStopped(s, index, parse), parse)
  {
    hide Found, Touched, HoldsDeltas;
    BlockStoppedFollows(s, index, parse);
    var pos := Found(s.blocks, index, 0);
    if pos.Some? {
      var r := BlockStopped(s, index, parse);
      StillShows(s, r, End(pos.value, r.out.content[pos.value]), parse);
    }
  }

  /**
   * For every event sequence: from its first delta or its stop on, a call's
   * arguments are what its deltas parse to; a stop replaces the start's input so
   * even if there were no deltas.
   */
  lemma {:induction false} ArgumentsAreDeltas(s: State, es: seq<RawEvent>, sawStart: bool, sawStop: bool, parse: string -> Value)
    requires ShowsAll(s, parse)
    ensures ShowsAll(Decoded(s, es, sawStart, sawStop, parse).0, parse)
    decreases |es|
  {
    hide BlockOpened, PieceAdded, BlockStopped, ShowsAll;
    assert Aligned(s) by { ShowsAligned(s, parse); }
    if es != [] && !es[0].Failed? {
      match es[0] {
        case BlockStart(index, b) => BlockOpenedShows(s, index, b, parse);
        case BlockDelta(index, d) => PieceAddedShows(s, index, d, parse);
        case BlockStop(index) => BlockStoppedShows(s, index, parse);
        case _ =>
      }
      ArgumentsAreDeltas(EventRead(s, es[0], parse), es[1..], sawStart || es[0].MessageStart?, sawStop || es[0].MessageStop?, parse);
    }
  }

  lemma ShowsAligned(s: State, parse: string -> Value)
    requires ShowsAll(s, parse)
    ensures Aligned(s)
  {
  }

  /** The start's input is lost at the stop when no delta repeats it. */
  lemma StopReplacesInput(id: string, name: string, input: map<string, Value>, parse: string -> Value)
    ensures var s := Decoded(INITIAL, [BlockStart(0, NewTool(id, name, input)), BlockStop(0)], false, false, parse).0;
            s.out.content == [ToolBlock(id, name, parse(""), "")]
  {
    var es := [BlockStart(0, NewTool(id, name, input)), BlockStop(0)];
    assert es[1..] == [BlockStop(0)] && es[1..][1..] == [];
    var s1 := BlockOpened(INITIAL, 0, NewTool(id, name, input));
    assert Found(s1.blocks, 0, 0) == Some(0);
    var s2 := BlockStopped(s1, 0, parse);
    assert Decoded(INITIAL, es, false, false, parse) == Decoded(s1, [BlockStop(0)], false, false, parse)
        == Decoded(s2, [], false, false, parse) == (s2, Read);
  }

  // ----- The pieces of a call, told from the events ----------------------------------------------------

  /** The first known block opened under each index, by kind. */
  function KindsNoted(kinds: map<int, Kind>, e: RawEvent): map<int, Kind> {
    if e.BlockStart? && !e.block.NewOther? && e.index !in kinds then kinds[e.index := KindOf(FirstBlock(e.block))] else kinds
  }

  /** The JSON text that the events send to the call under an index, up to a failure. */
  function JsonFor(kinds: map<int, Kind>, es: seq<RawEvent>, index: int): string
    decreases |es|
  {
    if es == [] || es[0].Failed? then ""
    else JsonSent(kinds, es[0], index) + JsonFor(KindsNoted(kinds, es[0]), es[1..], index)
  }

  function JsonSent(kinds: map<int, Kind>, e: RawEvent, index: int): string {
    if SendsJson(kinds, e, index) then e.delta.text else ""
  }

  predicate SendsJson(kinds: map<int, Kind>, e: RawEvent, index: int) {
    e.BlockDelta? && e.index == index && e.delta.JsonPiece? && index in kinds && kinds[index] == IsTool
  }

  ghost predicate KindsAgree(s: State, kinds: map<int, Kind>) {
    forall index: int :: KindAgrees(s, kinds, index)
  }

  predicate KindAgrees(s: State, kinds: map<int, Kind>, index: int) {
    var pos := Found(s.blocks, index, 0);
    (index in kinds <==> pos.Some?) && (pos.Some? ==> kinds[index] == s.blocks[pos.value].kind)
  }

  lemma KindsStayAgreed(s: State, kinds: map<int, Kind>, e: RawEvent, parse: string -> Value)
    requires Aligned(s) && KindsAgree(s, kinds)
    ensures KindsAgree(EventRead(s, e, parse), KindsNoted(kinds, e))
  {
    hide Found;
    var r, n := EventRead(s, e, parse), KindsNoted(kinds, e);
    forall i: int ensures KindAgrees(r, n, i) {
      assert KindAgrees(s, kinds, i);
      if e.BlockStart? {
        assert KindAgrees(s, kinds, e.index);
        if !e.block.NewOther? {
          FoundAppended(s.blocks, BlockState(KindOf(FirstBlock(e.block)), e.index, ""), i);
        }
      } else {
        FoundUpdated(s.blocks, r.blocks, i);
      }
    }
  }

  /** What the call under an index has received so far; nothing before it is opened. */
  function Received(s: State, index: int): string {
    var pos := Found(s.blocks, index, 0);
    if pos.None? then "" else DeltaText(s.out, pos.value)
  }

  lemma EventReceived(s: State, kinds: map<int, Kind>, e: RawEvent, parse: string -> Value, index: int)
    requires Follows(s) && KindsAgree(s, kinds)
    requires var n := KindsNoted(kinds, e); index in n && n[index] == IsTool
    ensures Received(EventRead(s, e, parse), index) == Received(s, index) + JsonSent(kinds, e, index)
  {
    hide Found, DeltaText, HoldsDeltas;
    var r := EventRead(s, e, parse);
    assert KindAgrees(s, kinds, index);
    assert Received(s, index) + "" == Received(s, index);
    match e
    case BlockStart(i, b) => StartReceived(s, i, b, index);
    case BlockDelta(i, d) =>
      FoundUpdated(s.blocks, r.blocks, index);
      var pos := Found(s.blocks, index, 0).value;
      DeltaReachesItsBlock(s, i, d, parse, pos);
      if Found(s.blocks, i, 0) == Some(pos) {
        assert i == index;
      }
    case BlockStop(i) =>
      FoundUpdated(s.blocks, r.blocks, index);
      var pos := Found(s.blocks, i, 0);
      if pos.Some? {
        DeltaTextNext(s.out, End(pos.value, r.out.content[pos.value]), r.out.content, Found(s.blocks, index, 0).value);
      }
    case _ =>
  }

  lemma StartReceived(s: State, i: int, b: NewBlock, index: int)
    requires Follows(s)
    ensures Received(BlockOpened(s, i, b), index) == Received(s, index)
  {
    hide Found, DeltaText, HoldsDeltas;
    if !b.NewOther? {
      var r := BlockOpened(s, i, b);
      var next := |s.out.content|;
      FoundAppended(s.blocks, BlockState(KindOf(FirstBlock(b)), i, ""), index);
      var at := if Found(s.blocks, index, 0).Some? then Found(s.blocks, index, 0).value else next;
      DeltaTextNext(s.out, Start(next, KindOf(FirstBlock(b))), r.out.content, at);
      NoDeltaText(s.out, next);
      assert DeltaText(s.out, at) + "" == DeltaText(s.out, at);
    }
  }

  lemma EventFollows(s: State, e: RawEvent, parse: string -> Value)
    requires Follows(s)
    ensures Follows(EventRead(s, e, parse))
  {
    hide BlockOpened, PieceAdded, BlockStopped, HoldsDeltas;
    match e
    case BlockStart(index, b) => BlockOpenedFollows(s, index, b);
    case BlockDelta(index, d) => PieceAddedFollows(s, index, d, parse);
    case BlockStop(index) => BlockStoppedFollows(s, index, parse);
    case _ =>
  }

  /** Not yet opened, an index has received nothing. */
  lemma NotYetSent(kinds: map<int, Kind>, e: RawEvent, index: int)
    ensures SendsJson(kinds, e, index) ==> index in KindsNoted(kinds, e)
    ensures index in kinds ==> index in KindsNoted(kinds, e) && KindsNoted(kinds, e)[index] == kinds[index]
  {
  }

  lemma {:induction false} PiecesReceived(s: State, kinds: map<int, Kind>, es: seq<RawEvent>, sawStart: bool, sawStop: bool,
                                          parse: string -> Value, index: int)
    requires Follows(s) && KindsAgree(s, kinds)
    ensures var r := Decoded(s, es, sawStart, sawStop, parse).0; var pos := Found(r.blocks, index, 0);
            pos.Some? && r.blocks[pos.value].kind == IsTool ==> Received(r, index) == Received(s, index) + JsonFor(kinds, es, index)
    decreases |es|
  {
    hide EventRead, Found, DeltaText, HoldsDeltas, KindsAgree, JsonSent, KindsNoted, Received;
    if es == [] || es[0].Failed? {
      assert Received(s, index) + "" == Received(s, index);
    } else {
      var t, n := EventRead(s, es[0], parse), KindsNoted(kinds, es[0]);
      EventFollows(s, es[0], parse);
      KindsStayAgreed(s, kinds, es[0], parse);
      PiecesReceived(t, n, es[1..], sawStart || es[0].MessageStart?, sawStop || es[0].MessageStop?, parse, index);
      FirstReceived(s, kinds, es[0], parse, index);
      FinalKind(t, n, es[1..], sawStart || es[0].MessageStart?, sawStop || es[0].MessageStop?, parse, index);
      Regroup(Received(s, index), JsonSent(kinds, es[0], index), JsonFor(n, es[1..], index));
    }
  }

  lemma Regroup(a: string, b: string, c: string)
    ensures (a + b) + c == a + (b + c)
  {
  }

  /** An index whose block is no call, or is not there yet, is not considered. */
  lemma FirstReceived(s: State, kinds: map<int, Kind>, e: RawEvent, parse: string -> Value, index: int)
    requires Follows(s) && KindsAgree(s, kinds)
    ensures var n := KindsNoted(kinds, e); index !in n || n[index] == IsTool ==>
              Received(EventRead(s, e, parse), index) == Received(s, index) + JsonSent(kinds, e, index)
  {
    hide Found, DeltaText, HoldsDeltas, EventRead;
    var n := KindsNoted(kinds, e);
    if index in n {
      if n[index] == IsTool {
        EventReceived(s, kinds, e, parse, index);
      }
    } else {
      KindsStayAgreed(s, kinds, e, parse);
      assert KindAgrees(EventRead(s, e, parse), n, index);
      assert KindAgrees(s, kinds, index);
      assert "" + "" == "";
    }
  }

  /** A kind that is known stays the kind of the block that is found. */
  lemma {:induction false} FinalKind(s: State, kinds: map<int, Kind>, es: seq<RawEvent>, sawStart: bool, sawStop: bool,
                                     parse: string -> Value, index: int)
    requires Follows(s) && KindsAgree(s, kinds)
    ensures var r := Decoded(s, es, sawStart, sawStop, parse).0; var pos := Found(r.blocks, index, 0);
            pos.Some? && index in kinds ==> r.blocks[pos.value].kind == kinds[index]
    decreases |es|
  {
    hide EventRead, Found, HoldsDeltas, KindsNoted;
    if es == [] || es[0].Failed? {
      assert KindAgrees(s, kinds, index);
    } else {
      EventFollows(s, es[0], parse);
      KindsStayAgreed(s, kinds, es[0], parse);
      NotYetSent(kinds, es[0], index);
      FinalKind(EventRead(s, es[0], parse), KindsNoted(kinds, es[0]), es[1..], sawStart || es[0].MessageStart?, sawStop || es[0].MessageStop?,
                parse, index);
    }
  }

  /** A block that has received text has been touched. */
  lemma {:induction false} TextMeansTouched(es: seq<BlockEvent>, at: nat)
    requires DeltasIn(EventsAt(es, at)) != ""
    ensures Touched(es, at)
    decreases |es|
  {
    if es != [] {
      var before, e := es[..|es| - 1], es[|es| - 1];
      assert before + [e] == es;
      EventsAtNext(before, e, at);
      EventsAtNext(EventsAt(before, at), e, at);
      TouchedNext(before, e, at);
      if !(e.at == at && e.Delta?) {
        assert EventsAt(before, at) + [] == EventsAt(before, at);
        assert DeltasIn(EventsAt(before, at)) + "" == DeltasIn(EventsAt(before, at));
        TextMeansTouched(before, at);
      }
    }
  }

  /**
   * For every event sequence: a call that received JSON text has as arguments
   * what all the text sent to its index parses to.
   */
  lemma AnthropicCollectsArguments(es: seq<RawEvent>, parse: string -> Value, index: int)
    requires var s := Decoded(INITIAL, es, false, false, parse).0; var pos := Found(s.blocks, index, 0);
             pos.Some? && s.blocks[pos.value].kind == IsTool && JsonFor(map[], es, index) != ""
    ensures var s := Decoded(INITIAL, es, false, false, parse).0; var pos := Found(s.blocks, index, 0).value;
            pos < |s.out.content| && s.out.content[pos].ToolBlock? && s.out.content[pos].arguments == parse(JsonFor(map[], es, index))
  {
    hide Found, JsonFor, Touched;
    assert KindsAgree(INITIAL, map[]) by { NothingAgreed(); }
    var s := Decoded(INITIAL, es, false, false, parse).0;
    ArgumentsAreDeltas(INITIAL, es, false, false, parse);
    PiecesReceived(INITIAL, map[], es, false, false, parse, index);
    NothingAgreed();
    assert "" + JsonFor(map[], es, index) == JsonFor(map[], es, index);
    var pos := Found(s.blocks, index, 0).value;
    assert ShowsArguments(s, pos, parse) && HoldsDeltas(s, pos);
    TextMeansTouched(s.out.events, pos);
  }

  lemma NothingAgreed()
    ensures KindsAgree(INITIAL, map[]) && forall index: int :: Received(INITIAL, index) == ""
  {
    forall index: int ensures KindAgrees(INITIAL, map[], index) && Received(INITIAL, index) == "" {
    }
  }

  // ----- When the protocol is kept ---------------------------------------------------------------

  /** The event is for a block that has stopped already. */
  predicate Reopens(s: State, e: RawEvent)
    requires Aligned(s) && Tracks(s.out)
  {
    match e
    case BlockDelta(index, d) =>
      var pos := Found(s.blocks, index, 0);
      pos.Some? && !d.SignaturePiece? && PieceKind(d) == Some(s.blocks[pos.value].kind) && Phases(s.out)[pos.value].Ended?
    case BlockStop(index) =>
      var pos := Found(s.blocks, index, 0);
      pos.Some? && Phases(s.out)[pos.value].Ended?
    case _ => false
  }

  /** What the events say so far: the kind of the first block opened under each index, and which indices stopped. */
  datatype Opening = Opening(kinds: map<int, Kind>, stopped: set<int>)

  const NONE_OPENED := Opening(map[], {})

  function Noted(o: Opening, e: RawEvent): Opening {
    match e
    case BlockStart(index, b) =>
      if b.NewOther? || index in o.kinds then o else o.(kinds := o.kinds[index := KindOf(FirstBlock(b))])
    case BlockStop(index) => if index in o.kinds then o.(stopped := o.stopped + {index}) else o
    case _ => o
  }

  /** The event is a second stop of an index, or a delta of its kind after its stop; signatures are not reported. */
  predicate ComesAfterStop(o: Opening, e: RawEvent) {
    match e
    case BlockDelta(index, d) =>
      index in o.stopped && index in o.kinds && PieceKind(d) == Some(o.kinds[index]) && !d.SignaturePiece?
    case BlockStop(index) => index in o.stopped
    case _ => false
  }

  /** No event comes after the stop of its block; what follows a failure is not read. */
  predicate NothingAfterStop(o: Opening, es: seq<RawEvent>)
    decreases |es|
  {
    es == [] || es[0].Failed? || (!ComesAfterStop(o, es[0]) && NothingAfterStop(Noted(o, es[0]), es[1..]))
  }

  /** The search finds exactly the opened indices, with their kinds, and exactly the stopped ones have ended. */
  ghost predicate Agrees(s: State, o: Opening)
    requires Aligned(s) && Tracks(s.out)
  {
    && o.stopped <= o.kinds.Keys
    && (forall index: int :: index in o.kinds <==> Found(s.blocks, index, 0).Some?)
    && (forall index: int :: index in o.kinds ==> IndexAgrees(s, o, index))
  }

  predicate IndexAgrees(s: State, o: Opening, index: int)
    requires Aligned(s) && Tracks(s.out) && index in o.kinds && Found(s.blocks, index, 0).Some?
  {
    var at := Found(s.blocks, index, 0).value;
    s.blocks[at].kind == o.kinds[index] && (Phases(s.out)[at].Ended? <==> index in o.stopped)
  }

  lemma FoundIs(blocks: seq<BlockState>, index: int, at: nat)
    requires at < |blocks| && blocks[at].eventIndex == index && forall j | 0 <= j < at :: blocks[j].eventIndex != index
    ensures Found(blocks, index, 0) == Some(at)
  {
    hide Found;
    var pos := Found(blocks, index, 0);
    assert pos.Some? && pos.value <= at;
  }

  lemma FoundAppended(blocks: seq<BlockState>, b: BlockState, index: int)
    ensures Found(blocks + [b], index, 0) ==
              if Found(blocks, index, 0).Some? then Found(blocks, index, 0)
              else if b.eventIndex == index then Some(|blocks|) else None
  {
    hide Found;
    var more, pos := blocks + [b], Found(blocks, index, 0);
    if pos.Some? {
      FoundIs(more, index, pos.value);
    } else if b.eventIndex == index {
      FoundIs(more, index, |blocks|);
    }
  }

  /** The search reads the event indices only. */
  lemma FoundUpdated(blocks: seq<BlockState>, more: seq<BlockState>, index: int)
    requires |more| == |blocks| && forall j | 0 <= j < |blocks| :: more[j].eventIndex == blocks[j].eventIndex
    ensures Found(more, index, 0) == Found(blocks, index, 0)
  {
    hide Found;
    var pos := Found(blocks, index, 0);
    if pos.Some? {
      FoundIs(more, index, pos.value);
    }
  }

  lemma PieceTracks(s: State, index: int, d: BlockDelta, parse: string -> Value)
    requires Aligned(s) && Tracks(s.out)
    ensures var r := PieceAdded(s, index, d, parse).out; var reopens := Reopens(s, BlockDelta(index, d));
            (Watched(r.events).Some? <==> !reopens) && (!reopens ==> Tracks(r))
  {
    hide Found, Watched;
    var pos := Found(s.blocks, index, 0);
    if pos.Some? && PieceKind(d) == Some(s.blocks[pos.value].kind) && !d.SignaturePiece? {
      WatchedNext(s.out.events, Delta(pos.value, s.blocks[pos.value].kind, d.text));
    }
  }

  lemma StopTracks(s: State, index: int, parse: string -> Value)
    requires Aligned(s) && Tracks(s.out)
    ensures var r := BlockStopped(s, index, parse).out; var reopens := Reopens(s, BlockStop(index));
            (Watched(r.events).Some? <==> !reopens) && (!reopens ==> Tracks(r))
  {
    hide Found, Watched;
    var pos := Found(s.blocks, index, 0);
    if pos.Some? {
      WatchedNext(s.out.events, End(pos.value, BlockStopped(s, index, parse).out.content[pos.value]));
    }
  }

  lemma EventTracks(s: State, e: RawEvent, parse: string -> Value)
    requires Aligned(s) && Tracks(s.out)
    ensures Watched(EventRead(s, e, parse).out.events).Some? <==> !Reopens(s, e)
    ensures !Reopens(s, e) ==> Tracks(EventRead(s, e, parse).out)
  {
    hide Found, Watched, PieceAdded, BlockStopped;
    match e
    case BlockStart(index, b) =>
      if !b.NewOther? {
        OpenedTracks(s.out, FirstBlock(b));
      }
    case BlockDelta(index, d) => PieceTracks(s, index, d, parse);
    case BlockStop(index) => StopTracks(s, index, parse);
    case _ =>
  }

  lemma OpenedAgrees(s: State, o: Opening, index: int, b: NewBlock)
    requires Aligned(s) && Tracks(s.out) && Agrees(s, o) && Tracks(BlockOpened(s, index, b).out)
    ensures Agrees(BlockOpened(s, index, b), Noted(o, BlockStart(index, b)))
  {
    hide Found, Tracks;
    if !b.NewOther? {
      var r, n := BlockOpened(s, index, b), Noted(o, BlockStart(index, b));
      var first := FirstBlock(b);
      OpenedTracks(s.out, first);
      forall i: int ensures i in n.kinds <==> Found(r.blocks, i, 0).Some? {
        FoundAppended(s.blocks, BlockState(KindOf(first), index, ""), i);
      }
      forall i: int | i in n.kinds ensures IndexAgrees(r, n, i) {
        FoundAppended(s.blocks, BlockState(KindOf(first), index, ""), i);
        if i in o.kinds {
          assert IndexAgrees(s, o, i);
        }
      }
    }
  }

  /** A step that leaves indices and kinds, and ends exactly the blocks of the index that it notes. */
  lemma StillAgrees(s: State, o: Opening, r: State, n: Opening)
    requires Aligned(s) && Tracks(s.out) && Agrees(s, o) && Aligned(r) && Tracks(r.out)
    requires |r.blocks| == |s.blocks| && n.kinds == o.kinds && n.stopped <= n.kinds.Keys
    requires forall j | 0 <= j < |s.blocks| ::
               && r.blocks[j].eventIndex == s.blocks[j].eventIndex && r.blocks[j].kind == s.blocks[j].kind
               && (Phases(r.out)[j].Ended? <==>
                     || Phases(s.out)[j].Ended?
                     || (Found(s.blocks, s.blocks[j].eventIndex, 0) == Some(j) && s.blocks[j].eventIndex in n.stopped))
    requires o.stopped <= n.stopped
    ensures Agrees(r, n)
  {
    hide Found, Tracks;
    forall i: int ensures i in n.kinds <==> Found(r.blocks, i, 0).Some? {
      FoundUpdated(s.blocks, r.blocks, i);
    }
    forall i: int | i in n.kinds ensures IndexAgrees(r, n, i) {
      FoundUpdated(s.blocks, r.blocks, i);
      assert IndexAgrees(s, o, i);
    }
  }

  lemma PieceAgrees(s: State, o: Opening, index: int, d: BlockDelta, parse: string -> Value)
    requires Aligned(s) && Tracks(s.out) && Agrees(s, o) && Tracks(PieceAdded(s, index, d, parse).out)
    ensures Agrees(PieceAdded(s, index, d, parse), o)
  {
    hide Found, Tracks, Watched;
    var r := PieceAdded(s, index, d, parse);
    var pos := Found(s.blocks, index, 0);
    if pos.Some? && PieceKind(d) == Some(s.blocks[pos.value].kind) && !d.SignaturePiece? {
      SameEnded(s.out, r.out, Delta(pos.value, s.blocks[pos.value].kind, d.text));
    } else {
      assert r.out.events == s.out.events && r.blocks == s.blocks;
    }
    forall j | 0 <= j < |s.blocks| && Found(s.blocks, s.blocks[j].eventIndex, 0) == Some(j) && s.blocks[j].eventIndex in o.stopped
      ensures Phases(s.out)[j].Ended?
    {
      assert IndexAgrees(s, o, s.blocks[j].eventIndex);
    }
    StillAgrees(s, o, r, o);
  }

  lemma SameEnded(o: Output, r: Output, e: BlockEvent)
    requires Tracks(o) && Tracks(r) && e.Delta? && r.events == o.events + [e]
    ensures |Phases(r)| == |Phases(o)| && forall j | 0 <= j < |Phases(o)| :: Phases(r)[j].Ended? <==> Phases(o)[j].Ended?
  {
    WatchedNext(o.events, e);
  }

  lemma StopAgrees(s: State, o: Opening, index: int, parse: string -> Value)
    requires Aligned(s) && Tracks(s.out) && Agrees(s, o) && Tracks(BlockStopped(s, index, parse).out)
    ensures Agrees(BlockStopped(s, index, parse), Noted(o, BlockStop(index)))
  {
    hide Found, Tracks, Watched;
    var r, n := BlockStopped(s, index, parse), Noted(o, BlockStop(index));
    var pos := Found(s.blocks, index, 0);
    if pos.Some? {
      var at := pos.value;
      OneMoreEnded(s.out, r.out, End(at, r.out.content[at]));
      forall j | 0 <= j < |s.blocks| && Found(s.blocks, s.blocks[j].eventIndex, 0) == Some(j) && s.blocks[j].eventIndex in o.stopped
        ensures Phases(s.out)[j].Ended?
      {
        assert IndexAgrees(s, o, s.blocks[j].eventIndex);
      }
      assert index in o.kinds && n.stopped == o.stopped + {index};
      StillAgrees(s, o, r, n);
    }
  }

  lemma OneMoreEnded(o: Output, r: Output, e: BlockEvent)
    requires Tracks(o) && Tracks(r) && e.End? && r.events == o.events + [e]
    ensures |Phases(r)| == |Phases(o)| && forall j | 0 <= j < |Phases(o)| :: Phases(r)[j].Ended? <==> Phases(o)[j].Ended? || j == e.at
  {
    WatchedNext(o.events, e);
  }

  lemma EventAgrees(s: State, o: Opening, e: RawEvent, parse: string -> Value)
    requires Aligned(s) && Tracks(s.out) && Agrees(s, o)
    ensures Reopens(s, e) <==> ComesAfterStop(o, e)
    ensures !Reopens(s, e) ==> Tracks(EventRead(s, e, parse).out) && Agrees(EventRead(s, e, parse), Noted(o, e))
  {
    EventTracks(s, e, parse);
    ReopensAgrees(s, o, e);
    hide Found, Tracks, Reopens, ComesAfterStop, Agrees, BlockOpened, PieceAdded, BlockStopped;
    if !Reopens(s, e) {
      match e
      case BlockStart(index, b) => OpenedAgrees(s, o, index, b);
      case BlockDelta(index, d) => PieceAgrees(s, o, index, d, parse);
      case BlockStop(index) => StopAgrees(s, o, index, parse);
      case _ =>
    }
  }

  lemma ReopensAgrees(s: State, o: Opening, e: RawEvent)
    requires Aligned(s) && Tracks(s.out) && Agrees(s, o)
    ensures Reopens(s, e) <==> ComesAfterStop(o, e)
  {
    hide Found, Tracks;
    if e.BlockDelta? || e.BlockStop? {
      assert e.index in o.kinds <==> Found(s.blocks, e.index, 0).Some?;
      if e.index in o.kinds {
        assert IndexAgrees(s, o, e.index);
      }
    }
  }

  lemma {:induction false} RejectedStays(s: State, es: seq<RawEvent>, sawStart: bool, sawStop: bool, parse: string -> Value)
    requires Aligned(s) && Watched(s.out.events).None?
    ensures Watched(Decoded(s, es, sawStart, sawStop, parse).0.out.events).None?
    decreases |es|
  {
    hide Found, Watched;
    if es != [] && !es[0].Failed? {
      RejectedOnce(s, es[0], parse);
      RejectedStays(EventRead(s, es[0], parse), es[1..], sawStart || es[0].MessageStart?, sawStop || es[0].MessageStop?, parse);
    }
  }

  lemma RejectedOnce(s: State, e: RawEvent, parse: string -> Value)
    requires Aligned(s) && Watched(s.out.events).None?
    ensures Watched(EventRead(s, e, parse).out.events).None?
  {
    hide Found;
    var r := EventRead(s, e, parse).out.events;
    if r != s.out.events {
      assert r == s.out.events + [r[|r| - 1]];
      WatchedNext(s.out.events, r[|r| - 1]);
    }
  }

  lemma {:induction false} KeptFromHere(s: State, o: Opening, es: seq<RawEvent>, sawStart: bool, sawStop: bool, parse: string -> Value)
    requires Aligned(s) && Tracks(s.out) && Agrees(s, o)
    ensures Watched(Decoded(s, es, sawStart, sawStop, parse).0.out.events).Some? <==> NothingAfterStop(o, es)
    decreases |es|
  {
    hide EventRead, Reopens, ComesAfterStop, Noted, Agrees, Watched;
    if es != [] && !es[0].Failed? {
      EventAgrees(s, o, es[0], parse);
      EventTracks(s, es[0], parse);
      var t := EventRead(s, es[0], parse);
      if Reopens(s, es[0]) {
        RejectedStays(t, es[1..], sawStart || es[0].MessageStart?, sawStop || es[0].MessageStop?, parse);
      } else {
        KeptFromHere(t, Noted(o, es[0]), es[1..], sawStart || es[0].MessageStart?, sawStop || es[0].MessageStop?, parse);
      }
    }
  }

  /**
   * For every event sequence: the block events keep the protocol of one start,
   * deltas and one end per block exactly when the server sends no second stop
   * for an index that it opened, and no delta of that block's kind after its stop.
   */
  lemma ProtocolKeptExactly(es: seq<RawEvent>, parse: string -> Value)
    ensures Watched(Decoded(INITIAL, es, false, false, parse).0.out.events).Some? <==> NothingAfterStop(NONE_OPENED, es)
  {
    KeptFromHere(INITIAL, NONE_OPENED, es, false, false, parse);
  }

  /** Two stops of one index push two ends of its block. */
  lemma SecondStopBreaksProtocol(parse: string -> Value)
    ensures var es := [BlockStart(0, NewText), BlockStop(0), BlockStop(0)];
            Watched(Decoded(INITIAL, es, false, false, parse).0.out.events).None?
  {
    var es := [BlockStart(0, NewText), BlockStop(0), BlockStop(0)];
    ProtocolKeptExactly(es, parse);
    assert es[1..] == [BlockStop(0), BlockStop(0)] && es[1..][1..] == [BlockStop(0)];
    var o := Noted(NONE_OPENED, es[0]);
    assert !NothingAfterStop(Noted(o, BlockStop(0)), [BlockStop(0)]);
    assert !NothingAfterStop(o, es[1..]);
  }
}
