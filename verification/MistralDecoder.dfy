/** Decoding a Mistral stream: one text or thinking block at a time, tool blocks keyed by id and index. */
module MistralDecoder {
  import opened Wrappers
  import opened JsonText
  import opened BlockEvents
  import opened TextBlocks
  import opened ToolBlocks
  import M = MistralIds

  datatype Item = Item(thinking: bool, text: string)

  /** A function fragment; an absent function has empty name and arguments. */
  datatype CallDelta = CallDelta(index: Option<int>, id: string, name: string, arguments: string)

  /** Skipped is the [DONE] marker or a chunk without choices; otherwise the first choice's delta. */
  datatype Chunk = Malformed | Skipped | Choice(items: seq<Item>, calls: seq<CallDelta>)

  type Key = (string, int)

  /** keys gives the position of a key's block in order. */
  datatype State = State(w: Writing, keys: map<Key, nat>, order: seq<Scratch>)

  const INITIAL := State(NOTHING_WRITTEN, map[], [])

  function IntText(i: int): string { if i < 0 then "-" + M.Decimal(-i) else M.Decimal(i) }

  function IndexOf(d: CallDelta): int { if d.index.None? then 0 else d.index.value }

  function CallId(d: CallDelta): string {
    if d.id == "" || d.id == "null" then M.Candidate("toolcall:" + IntText(IndexOf(d)), 0) else d.id
  }

  function KeyOf(d: CallDelta): Key { (CallId(d), IndexOf(d)) }

  predicate Usable(s: State) {
    && InPlace(s.w)
    && Placed(s.w.out, s.order)
    && (forall k | k in s.keys :: s.keys[k] < |s.order|)
  }

  function CallOpened(s: State, d: CallDelta): (r: State)
    requires Usable(s) && s.w.current == NoBlock
    ensures Usable(r) && r.w.current == NoBlock && KeyOf(d) in r.keys
  {
    if KeyOf(d) in s.keys then s
    else State(s.w.(out := Opened(s.w.out, ToolBlock(CallId(d), d.name, NO_ARGUMENTS, ""))),
               s.keys[KeyOf(d) := |s.order|], s.order + [Scratch(|s.w.out.content|, "")])
  }

  function CallRead(s: State, d: CallDelta, parse: string -> Value): (r: State)
    requires Usable(s) && s.w.current == NoBlock
    ensures Usable(r) && r.w.current == NoBlock
  {
    var t := CallOpened(s, d);
    var j := t.keys[KeyOf(d)];
    var at, args := t.order[j].at, t.order[j].partialArgs + d.arguments;
    var c := t.w.out.content[at];
    State(t.w.(out := Extended(t.w.out, at, if d.arguments == "" then c else WithArguments(c, parse(args)), d.arguments)),
          t.keys, t.order[j := Scratch(at, args)])
  }

  function CallsRead(s: State, calls: seq<CallDelta>, parse: string -> Value): (r: State)
    requires Usable(s) && s.w.current == NoBlock
    ensures Usable(r)
    decreases |calls|
  {
    if calls == [] then s else CallsRead(CallRead(s, calls[0], parse), calls[1..], parse)
  }

  function ItemsRead(w: Writing, items: seq<Item>): (r: Writing)
    requires InPlace(w)
    ensures InPlace(r)
    decreases |items|
  {
    if items == [] then w
    else ItemsRead(Appended(w, if items[0].thinking then IsThinking else IsText, items[0].text, ""), items[1..])
  }

  lemma {:induction false} ItemsReadGrows(w: Writing, items: seq<Item>)
    requires InPlace(w)
    ensures var r := ItemsRead(w, items).out.content;
            |w.out.content| <= |r| && forall at | 0 <= at < |w.out.content| :: KindOf(w.out.content[at]) == KindOf(r[at])
    decreases |items|
  {
    if items != [] {
      ItemsReadGrows(Appended(w, if items[0].thinking then IsThinking else IsText, items[0].text, ""), items[1..]);
    }
  }

  function ChoiceRead(s: State, items: seq<Item>, calls: seq<CallDelta>, parse: string -> Value): (r: State)
    requires Usable(s)
    ensures Usable(r)
  {
    ItemsReadGrows(s.w, items);
    var w := ItemsRead(s.w, items);
    if calls == [] then s.(w := w) else CallsRead(s.(w := CurrentClosed(w)), calls, parse)
  }

  /** The state at the end of the stream, or at a chunk that cannot be parsed. */
  function ChunksRead(s: State, chunks: seq<Chunk>, parse: string -> Value): (r: (State, bool))
    requires Usable(s)
    ensures Usable(r.0)
    decreases |chunks|
  {
    if chunks == [] then (s, true)
    else match chunks[0]
      case Malformed => (s, false)
      case Skipped => ChunksRead(s, chunks[1..], parse)
      case Choice(items, calls) => ChunksRead(ChoiceRead(s, items, calls, parse), chunks[1..], parse)
  }

  function Finished(s: State, parse: string -> Value): (r: State)
    requires Usable(s)
    ensures r.keys == s.keys && r.order == s.order
  {
    var w := CurrentClosed(s.w);
    s.(w := w.(out := ToolsClosed(w.out, s.order, 0, parse)))
  }

  function Decoded(chunks: seq<Chunk>, parse: string -> Value): (State, bool) {
    var (s, ok) := ChunksRead(INITIAL, chunks, parse);
    (if ok then Finished(s, parse) else s, ok)
  }

  // ----- The decoder -------------------------------------------------------------------------

  class Decoder {
    const out: BlockWriter
    const parse: string -> Value
    var toolBlocksByKey: map<Key, nat>
    var toolOrder: seq<Scratch>

    ghost function Abstract(): State reads this, out { State(out.Abstract(), toolBlocksByKey, toolOrder) }

    ghost predicate Valid() reads this, out { out.Valid() && Usable(Abstract()) }

    constructor (parse: string -> Value)
      ensures fresh(out) && Valid() && Abstract() == INITIAL && this.parse == parse
    {
      out := new BlockWriter();
      this.parse, toolBlocksByKey, toolOrder := parse, map[], [];
    }

    method EnsureCall(d: CallDelta) returns (j: nat)
      requires Valid() && out.kind.None?
      modifies this, out
      ensures Valid() && out.kind.None? && Abstract() == CallOpened(old(Abstract()), d)
      ensures j < |toolOrder| && j == Abstract().keys[KeyOf(d)]
    {
      hide M.Candidate;
      var index := if d.index.Some? then d.index.value else 0;
      var callId := d.id;
      if callId == "" || callId == "null" {
        callId := M.DeriveMistralToolCallId("toolcall:" + IntText(index), 0);
      }
      var key := (callId, index);
      if key in toolBlocksByKey {
        return toolBlocksByKey[key];
      }
      var at := out.OpenTool(ToolBlock(callId, d.name, NO_ARGUMENTS, ""));
      j := |toolOrder|;
      toolBlocksByKey := toolBlocksByKey[key := j];
      toolOrder := toolOrder + [Scratch(at, "")];
    }

    method ReadCall(d: CallDelta)
      requires Valid() && out.kind.None?
      modifies this, out
      ensures Valid() && out.kind.None? && Abstract() == CallRead(old(Abstract()), d, parse)
    {
      hide CallOpened, KeyOf;
      var j := EnsureCall(d);
      var block := toolOrder[j];
      var cur := out.content[block.at];
      block := block.(partialArgs := block.partialArgs + d.arguments);
      if d.arguments != "" {
        cur := WithArguments(cur, parse(block.partialArgs));
      }
      toolOrder := toolOrder[j := block];
      out.ExtendTool(block.at, cur, d.arguments);
    }

    method ReadChoice(items: seq<Item>, calls: seq<CallDelta>)
      requires Valid()
      modifies this, out
      ensures Valid() && Abstract() == ChoiceRead(old(Abstract()), items, calls, parse)
    {
      hide CallRead, CurrentClosed, Appended;
      for i := 0 to |items|
        invariant out.Valid() && toolBlocksByKey == old(toolBlocksByKey) && toolOrder == old(toolOrder)
        invariant ItemsRead(old(out.Abstract()), items) == ItemsRead(out.Abstract(), items[i..])
      {
        assert items[i..][0] == items[i] && items[i..][1..] == items[i + 1..];
        out.AppendDelta(if items[i].thinking then IsThinking else IsText, items[i].text, "");
      }
      ItemsReadGrows(old(out.Abstract()), items);
      if calls == [] {
        return;
      }
      out.CloseCurrent();
      ghost var before := Abstract();
      for i := 0 to |calls|
        invariant Valid() && out.kind.None?
        invariant CallsRead(before, calls, parse) == CallsRead(Abstract(), calls[i..], parse)
      {
        assert calls[i..][0] == calls[i] && calls[i..][1..] == calls[i + 1..];
        ReadCall(calls[i]);
      }
    }

    method CloseTools()
      requires Valid() && out.kind.None? && Placed(out.Abstract().out, toolOrder)
      modifies out
      ensures out.Valid() && out.kind.None?
      ensures out.Abstract().out == ToolsClosed(old(out.Abstract().out), toolOrder, 0, parse)
    {
      for j := 0 to |toolOrder|
        invariant out.Valid() && out.kind.None? && Placed(out.Abstract().out, toolOrder)
        invariant ToolsClosed(old(out.Abstract().out), toolOrder, 0, parse)
               == ToolsClosed(out.Abstract().out, toolOrder, j, parse)
      {
        var block := toolOrder[j];
        out.CloseTool(block.at, WithArguments(out.content[block.at], parse(block.partialArgs)));
      }
    }

    method DecodeStream(chunks: seq<Chunk>) returns (ok: bool)
      requires Valid() && Abstract() == INITIAL
      modifies this, out
      ensures (Abstract(), ok) == Decoded(chunks, parse)
    {
      hide ChoiceRead, CurrentClosed, ToolsClosed;
      for i := 0 to |chunks|
        invariant Valid()
        invariant ChunksRead(INITIAL, chunks, parse) == ChunksRead(Abstract(), chunks[i..], parse)
      {
        assert chunks[i..][0] == chunks[i] && chunks[i..][1..] == chunks[i + 1..];
        match chunks[i]
        case Malformed => return false;
        case Skipped =>
        case Choice(items, calls) => ReadChoice(items, calls);
      }
      out.CloseCurrent();
      CloseTools();
      ok := true;
    }
  }

  // ----- The protocol ------------------------------------------------------------------------

  /** Besides text and tools, the keys name distinct blocks. */
  ghost predicate Follows(s: State, parse: string -> Value) {
    && Usable(s) && TextFollows(s.w) && ToolsRun(s.w.out, s.order, parse)
    && forall a, b | a in s.keys && b in s.keys && s.keys[a] == s.keys[b] :: a == b
  }

  lemma CurrentClosedKeeps(s: State, parse: string -> Value)
    requires Follows(s, parse)
    ensures Follows(s.(w := CurrentClosed(s.w)), parse)
  {
    CurrentClosedFollows(s.w);
    ToolsRunStill(s.w.out, CurrentClosed(s.w).out, s.order, parse);
  }

  lemma {:induction false} ItemsReadFollows(s: State, items: seq<Item>, parse: string -> Value)
    requires Follows(s, parse)
    ensures Follows(s.(w := ItemsRead(s.w, items)), parse)
    decreases |items|
  {
    if items != [] {
      var want := if items[0].thinking then IsThinking else IsText;
      var w := Appended(s.w, want, items[0].text, "");
      AppendedKeeps(s, want, items[0].text, parse);
      ItemsReadFollows(s.(w := w), items[1..], parse);
    }
  }

  lemma AppendedKeeps(s: State, want: Kind, text: string, parse: string -> Value)
    requires Follows(s, parse) && want != IsTool
    ensures Follows(s.(w := Appended(s.w, want, text, "")), parse)
  {
    hide Appended;
    AppendedFollows(s.w, want, text, "");
    ToolsRunStill(s.w.out, Appended(s.w, want, text, "").out, s.order, parse);
  }

  lemma CallReadFollows(s: State, d: CallDelta, parse: string -> Value)
    requires Follows(s, parse) && s.w.current == NoBlock
    ensures Follows(CallRead(s, d, parse), parse)
  {
    CallOpenedFollows(s, d, parse);
    CallExtendedFollows(CallOpened(s, d), s, d, parse);
  }

  lemma CallOpenedFollows(s: State, d: CallDelta, parse: string -> Value)
    requires Follows(s, parse) && s.w.current == NoBlock
    ensures Follows(CallOpened(s, d), parse)
  {
    hide TextFollows, ToolsRun, Tracks, KeyOf;
    if KeyOf(d) !in s.keys {
      var c := ToolBlock(CallId(d), d.name, NO_ARGUMENTS, "");
      assert Tracks(s.w.out) by { FollowsTracks(s, parse); }
      OpenedToolFollows(s.w, c);
      OpenedToolRuns(s.w.out, s.order, parse, c);
    }
  }

  lemma FollowsTracks(s: State, parse: string -> Value)
    requires Follows(s, parse)
    ensures Tracks(s.w.out)
  {
  }

  lemma CallExtendedFollows(t: State, s: State, d: CallDelta, parse: string -> Value)
    requires Usable(s) && s.w.current == NoBlock && t == CallOpened(s, d) && Follows(t, parse)
    ensures Follows(CallRead(s, d, parse), parse)
  {
    hide CallOpened, TextFollows, Extended, KeyOf;
    var j := t.keys[KeyOf(d)];
    var block := t.order[j];
    FollowsTracks(t, parse);
    assert ToolRuns(t.w.out, block, parse);
    var c0 := t.w.out.content[block.at];
    var c := if d.arguments == "" then c0 else WithArguments(c0, parse(block.partialArgs + d.arguments));
    ExtendedToolFollows(t.w, block.at, c, d.arguments);
    ExtendedToolRuns(t.w.out, t.order, parse, j, c, d.arguments);
  }

  lemma {:induction false} CallsReadFollows(s: State, calls: seq<CallDelta>, parse: string -> Value)
    requires Follows(s, parse) && s.w.current == NoBlock
    ensures Follows(CallsRead(s, calls, parse), parse)
    decreases |calls|
  {
    hide CallRead, TextFollows, ToolsRun;
    if calls != [] {
      CallReadFollows(s, calls[0], parse);
      CallsReadFollows(CallRead(s, calls[0], parse), calls[1..], parse);
    }
  }

  lemma {:induction false} ChunksReadFollows(s: State, chunks: seq<Chunk>, parse: string -> Value)
    requires Follows(s, parse)
    ensures Follows(ChunksRead(s, chunks, parse).0, parse)
    decreases |chunks|
  {
    hide ItemsRead, CallsRead, CurrentClosed, TextFollows, ToolsRun;
    if chunks != [] && !chunks[0].Malformed? {
      var t := s;
      if chunks[0].Choice? {
        t := ChoiceRead(s, chunks[0].items, chunks[0].calls, parse);
        ItemsReadFollows(s, chunks[0].items, parse);
        var u := s.(w := ItemsRead(s.w, chunks[0].items));
        if chunks[0].calls != [] {
          CurrentClosedKeeps(u, parse);
          CallsReadFollows(u.(w := CurrentClosed(u.w)), chunks[0].calls, parse);
        }
      }
      ChunksReadFollows(t, chunks[1..], parse);
    }
  }

  /** Once the stream was read to its end, what block at is worth. */
  predicate BlockWhole(o: Output, at: nat, parse: string -> Value)
    requires Tracks(o) && at < |o.content|
  {
    if o.content[at].ToolBlock? then ToolWhole(o, at, parse)
    else Phases(o)[at] == Ended(KindOf(o.content[at]), o.content[at].text, o.content[at])
  }

  lemma FinishedWhole(s: State, parse: string -> Value)
    requires Follows(s, parse)
    ensures var o := Finished(s, parse).w.out;
            Tracks(o) && |o.content| == |s.w.out.content| && forall at | 0 <= at < |o.content| :: BlockWhole(o, at, parse)
  {
    hide CurrentClosed, ToolsClosed;
    CurrentClosedFollows(s.w);
    CurrentClosedKeeps(s, parse);
    var w := CurrentClosed(s.w);
    forall k | 0 <= k < |s.order| ensures Phases(w.out)[s.order[k].at] == Running(IsTool, s.order[k].partialArgs) {
      assert ToolRuns(w.out, s.order[k], parse);
    }
    ToolsClosedWhole(w.out, s.order, 0, parse);
    var o := ToolsClosed(w.out, s.order, 0, parse);
    forall at | 0 <= at < |o.content| ensures BlockWhole(o, at, parse) {
      if w.out.content[at].ToolBlock? {
        assert HasScratch(s.order, at);
      } else {
        assert Untouched(w.out, o, at);
      }
    }
  }

  /**
   * Any chunk sequence: the events keep the protocol, and when the stream was
   * read to its end every block has ended with its final content; a text block
   * is the concatenation of its deltas, and a call's arguments are what its
   * concatenated deltas parse to.
   */
  lemma MistralKeepsProtocol(chunks: seq<Chunk>, parse: string -> Value)
    ensures var (s, ok) := Decoded(chunks, parse);
            && Tracks(s.w.out)
            && (ok ==> forall at | 0 <= at < |s.w.out.content| :: BlockWhole(s.w.out, at, parse))
  {
    hide Finished;
    ChunksReadFollows(INITIAL, chunks, parse);
    FinishedWhole(ChunksRead(INITIAL, chunks, parse).0, parse);
  }

  // ----- Nothing is lost ------------------------------------------------------------------------

  function ItemsText(items: seq<Item>, kind: Kind): string {
    if items == [] then ""
    else (if kind == (if items[0].thinking then IsThinking else IsText) then items[0].text else "") + ItemsText(items[1..], kind)
  }

  function CallsText(calls: seq<CallDelta>, key: Key): string {
    if calls == [] then "" else (if KeyOf(calls[0]) == key then calls[0].arguments else "") + CallsText(calls[1..], key)
  }

  /** The text of a kind in the chunks before the first malformed one. */
  function ChunksText(chunks: seq<Chunk>, kind: Kind): string {
    if chunks == [] || chunks[0].Malformed? then ""
    else (if chunks[0].Choice? then ItemsText(chunks[0].items, kind) else "") + ChunksText(chunks[1..], kind)
  }

  /** The argument text sent for a key, likewise. */
  function ArgumentText(chunks: seq<Chunk>, key: Key): string {
    if chunks == [] || chunks[0].Malformed? then ""
    else (if chunks[0].Choice? then CallsText(chunks[0].calls, key) else "") + ArgumentText(chunks[1..], key)
  }

  function Buffer(s: State, key: Key): string
    requires Usable(s)
  {
    if key in s.keys then s.order[s.keys[key]].partialArgs else ""
  }

  lemma CallReadRoutes(s: State, d: CallDelta, parse: string -> Value, key: Key)
    requires Follows(s, parse) && s.w.current == NoBlock
    ensures Buffer(CallRead(s, d, parse), key) == Buffer(s, key) + if KeyOf(d) == key then d.arguments else ""
  {
    hide TextFollows, ToolsRun, Placed, KeyOf, Opened, Extended;
  }

  lemma {:induction false} CallsReadRoute(s: State, calls: seq<CallDelta>, parse: string -> Value, key: Key)
    requires Follows(s, parse) && s.w.current == NoBlock
    ensures Buffer(CallsRead(s, calls, parse), key) == Buffer(s, key) + CallsText(calls, key)
    decreases |calls|
  {
    hide CallRead, TextFollows, ToolsRun, Buffer, KeyOf;
    if calls != [] {
      CallReadFollows(s, calls[0], parse);
      CallReadRoutes(s, calls[0], parse, key);
      CallsReadRoute(CallRead(s, calls[0], parse), calls[1..], parse, key);
    }
  }

  lemma {:induction false} ChunksReadRoute(s: State, chunks: seq<Chunk>, parse: string -> Value, key: Key)
    requires Follows(s, parse)
    ensures Buffer(ChunksRead(s, chunks, parse).0, key) == Buffer(s, key) + ArgumentText(chunks, key)
    decreases |chunks|
  {
    hide ItemsRead, CallsRead, CurrentClosed, TextFollows, ToolsRun, CallsText;
    if chunks != [] && !chunks[0].Malformed? {
      var t := s;
      if chunks[0].Choice? {
        ChunksReadFollows(s, [chunks[0]], parse);
        t := ChoiceRead(s, chunks[0].items, chunks[0].calls, parse);
        assert [chunks[0]][1..] == [] && ChunksRead(s, [chunks[0]], parse).0 == t;
        ChoiceReadRoutes(s, chunks[0].items, chunks[0].calls, parse, key);
      }
      ChunksReadRoute(t, chunks[1..], parse, key);
    }
  }

  lemma ChoiceReadRoutes(s: State, items: seq<Item>, calls: seq<CallDelta>, parse: string -> Value, key: Key)
    requires Follows(s, parse)
    ensures Buffer(ChoiceRead(s, items, calls, parse), key) == Buffer(s, key) + CallsText(calls, key)
  {
    hide ItemsRead, CallsRead, CurrentClosed, TextFollows, ToolsRun, KeyOf;
    ItemsReadFollows(s, items, parse);
    var u := s.(w := ItemsRead(s.w, items));
    if calls != [] {
      CurrentClosedKeeps(u, parse);
      CallsReadRoute(u.(w := CurrentClosed(u.w)), calls, parse, key);
    }
  }

  /**
   * The deltas of one id and index reach one block, whatever comes between
   * them: its final arguments are what their concatenation parses to.
   */
  lemma MistralRoutesArguments(chunks: seq<Chunk>, parse: string -> Value, key: Key)
    requires Decoded(chunks, parse).1 && key in Decoded(chunks, parse).0.keys
    ensures var s := Decoded(chunks, parse).0;
            && s.keys[key] < |s.order| && s.order[s.keys[key]].at < |s.w.out.content|
            && var c := s.w.out.content[s.order[s.keys[key]].at];
               c.ToolBlock? && c.arguments == parse(ArgumentText(chunks, key))
  {
    hide ChunksRead, Finished, Follows, ArgumentText;
    InitialFollows(parse);
    ChunksReadFollows(INITIAL, chunks, parse);
    ChunksReadRoute(INITIAL, chunks, parse, key);
    assert "" + ArgumentText(chunks, key) == ArgumentText(chunks, key);
    FinishedTool(ChunksRead(INITIAL, chunks, parse).0, parse, key);
  }

  lemma InitialFollows(parse: string -> Value)
    ensures Follows(INITIAL, parse)
  {
  }

  lemma FinishedTool(s: State, parse: string -> Value, key: Key)
    requires Follows(s, parse) && key in s.keys
    ensures var r := Finished(s, parse);
            && r.order[s.keys[key]].at < |r.w.out.content|
            && var c := r.w.out.content[r.order[s.keys[key]].at];
               c.ToolBlock? && c.arguments == parse(Buffer(s, key))
  {
    hide CurrentClosed, ToolsClosed;
    CurrentClosedFollows(s.w);
    CurrentClosedKeeps(s, parse);
    var w := CurrentClosed(s.w);
    forall k | 0 <= k < |s.order| ensures Phases(w.out)[s.order[k].at] == Running(IsTool, s.order[k].partialArgs) {
      assert ToolRuns(w.out, s.order[k], parse);
    }
    ToolsClosedWhole(w.out, s.order, 0, parse);
    assert ToolWhole(ToolsClosed(w.out, s.order, 0, parse), s.order[s.keys[key]].at, parse);
  }

  lemma {:induction false} ItemsReadText(w: Writing, items: seq<Item>, kind: Kind)
    requires InPlace(w) && kind != IsTool
    ensures TextOf(ItemsRead(w, items).out.events, kind) == TextOf(w.out.events, kind) + ItemsText(items, kind)
    decreases |items|
  {
    hide TextOf, Appended, InPlace;
    if items != [] {
      var want := if items[0].thinking then IsThinking else IsText;
      AppendedText(w, want, items[0].text, "", kind);
      ItemsReadText(Appended(w, want, items[0].text, ""), items[1..], kind);
    }
  }

  lemma CallReadText(s: State, d: CallDelta, parse: string -> Value, kind: Kind)
    requires Usable(s) && s.w.current == NoBlock && kind != IsTool
    ensures TextOf(CallRead(s, d, parse).w.out.events, kind) == TextOf(s.w.out.events, kind)
  {
    hide TextOf, KeyOf;
    var t := CallOpened(s, d);
    TextOfNext(s.w.out.events, Start(|s.w.out.content|, IsTool), kind);
    TextOfNext(t.w.out.events, Delta(t.order[t.keys[KeyOf(d)]].at, IsTool, d.arguments), kind);
  }

  lemma {:induction false} CallsReadText(s: State, calls: seq<CallDelta>, parse: string -> Value, kind: Kind)
    requires Usable(s) && s.w.current == NoBlock && kind != IsTool
    ensures TextOf(CallsRead(s, calls, parse).w.out.events, kind) == TextOf(s.w.out.events, kind)
    decreases |calls|
  {
    hide TextOf, CallRead, Usable;
    if calls != [] {
      CallReadText(s, calls[0], parse, kind);
      CallsReadText(CallRead(s, calls[0], parse), calls[1..], parse, kind);
    }
  }

  /** The text deltas, and likewise the thinking deltas, spell the received text in order. */
  lemma {:induction false} MistralKeepsText(s: State, chunks: seq<Chunk>, parse: string -> Value, kind: Kind)
    requires Usable(s) && kind != IsTool
    ensures TextOf(ChunksRead(s, chunks, parse).0.w.out.events, kind) == TextOf(s.w.out.events, kind) + ChunksText(chunks, kind)
    decreases |chunks|
  {
    hide TextOf, ItemsRead, CallsRead, CurrentClosed, ItemsText, Placed;
    if chunks != [] && !chunks[0].Malformed? {
      var t := s;
      if chunks[0].Choice? {
        t := ChoiceRead(s, chunks[0].items, chunks[0].calls, parse);
        ChoiceReadText(s, chunks[0].items, chunks[0].calls, parse, kind);
      }
      MistralKeepsText(t, chunks[1..], parse, kind);
    }
  }

  lemma ChoiceReadText(s: State, items: seq<Item>, calls: seq<CallDelta>, parse: string -> Value, kind: Kind)
    requires Usable(s) && kind != IsTool
    ensures TextOf(ChoiceRead(s, items, calls, parse).w.out.events, kind)
         == TextOf(s.w.out.events, kind) + ItemsText(items, kind)
  {
    hide TextOf, ItemsRead, CallsRead, CurrentClosed, ItemsText;
    ItemsReadGrows(s.w, items);
    ItemsReadText(s.w, items, kind);
    var u := s.(w := ItemsRead(s.w, items));
    if calls != [] {
      CurrentClosedText(u.w, kind);
      CallsReadText(u.(w := CurrentClosed(u.w)), calls, parse, kind);
    }
  }

  // ----- The whole message ------------------------------------------------------------------------

  function ItemPieces(items: seq<Item>): seq<Piece> {
    if items == [] then []
    else [Text(if items[0].thinking then IsThinking else IsText, items[0].text, "")] + ItemPieces(items[1..])
  }

  /** The first delta of an id and index opens a call with its name; later ones open none. */
  function CallPieces(seen: set<Key>, calls: seq<CallDelta>): seq<Piece>
    decreases |calls|
  {
    if calls == [] then []
    else if KeyOf(calls[0]) in seen then CallPieces(seen, calls[1..])
    else [Call(ToolBlock(CallId(calls[0]), calls[0].name, NO_ARGUMENTS, ""))] + CallPieces(seen + {KeyOf(calls[0])}, calls[1..])
  }

  function KeysOf(calls: seq<CallDelta>): set<Key> { set d | d in calls :: KeyOf(d) }

  function ChoicePieces(seen: set<Key>, items: seq<Item>, calls: seq<CallDelta>): seq<Piece> {
    ItemPieces(items) + if calls == [] then [] else [Break] + CallPieces(seen, calls)
  }

  lemma Regroup(a: seq<Piece>, b: seq<Piece>, c: seq<Piece>)
    ensures (a + b) + c == a + (b + c)
  {
  }

  /** The pieces of the chunks before the first malformed one; calls break the text before them. */
  function ChunksPieces(seen: set<Key>, chunks: seq<Chunk>): seq<Piece>
    decreases |chunks|
  {
    if chunks == [] then []
    else match chunks[0]
      case Malformed => []
      case Skipped => ChunksPieces(seen, chunks[1..])
      case Choice(items, calls) => ChoicePieces(seen, items, calls) + ChunksPieces(seen + KeysOf(calls), chunks[1..])
  }

  lemma {:induction false} ItemsReadLaid(w: Writing, items: seq<Item>, ps: seq<Piece>)
    requires InPlace(w) && LaidOut(w, ps)
    ensures LaidOut(ItemsRead(w, items), ps + ItemPieces(items))
    decreases |items|
  {
    hide Appended, LaidOut, InPlace, Laid;
    if items == [] {
      assert ps + [] == ps;
    } else {
      var want := if items[0].thinking then IsThinking else IsText;
      var first := [Text(want, items[0].text, "")];
      AppendedLaid(w, ps, want, items[0].text, "");
      ItemsReadLaid(Appended(w, want, items[0].text, ""), items[1..], ps + first);
      Regroup(ps, first, ItemPieces(items[1..]));
    }
  }

  /** A call's delta changes nothing but arguments. */
  lemma ExtendedLaid(w: Writing, at: nat, c: Content, delta: string, ps: seq<Piece>)
    requires at < |w.out.content| && LaidOut(w, ps) && w.current == NoBlock && w.out.content[at].ToolBlock?
    requires SameButArguments(w.out.content[at], c)
    ensures LaidOut(w.(out := Extended(w.out, at, c, delta)), ps)
  {
    hide Laid;
  }

  lemma OneCallPiece(seen: set<Key>, d: CallDelta)
    ensures CallPieces(seen, [d]) == if KeyOf(d) in seen then [] else [Call(ToolBlock(CallId(d), d.name, NO_ARGUMENTS, ""))]
  {
    hide KeyOf, CallId;
    assert [d][1..] == [];
    NoCallPieces(seen);
    NoCallPieces(seen + {KeyOf(d)});
  }

  lemma CallReadLaid(s: State, d: CallDelta, parse: string -> Value, ps: seq<Piece>)
    requires Usable(s) && s.w.current == NoBlock && LaidOut(s.w, ps)
    ensures var t := CallRead(s, d, parse);
            LaidOut(t.w, ps + CallPieces(s.keys.Keys, [d])) && t.keys.Keys == s.keys.Keys + {KeyOf(d)}
  {
    hide KeyOf, CallId, Laid, LaidOut;
    var c := ToolBlock(CallId(d), d.name, NO_ARGUMENTS, "");
    var t := CallOpened(s, d);
    var more := ps + CallPieces(s.keys.Keys, [d]);
    OneCallPiece(s.keys.Keys, d);
    if KeyOf(d) in s.keys {
      assert more == ps;
    } else {
      ToolLaid(s.w, t.w, ps, c);
    }
    var at := t.order[t.keys[KeyOf(d)]].at;
    var args := t.order[t.keys[KeyOf(d)]].partialArgs + d.arguments;
    var c0 := t.w.out.content[at];
    ExtendedLaid(t.w, at, if d.arguments == "" then c0 else WithArguments(c0, parse(args)), d.arguments, more);
  }

  lemma CallPiecesFirst(seen: set<Key>, calls: seq<CallDelta>)
    requires calls != []
    ensures CallPieces(seen, calls) == CallPieces(seen, [calls[0]]) + CallPieces(seen + {KeyOf(calls[0])}, calls[1..])
    ensures KeysOf(calls) == {KeyOf(calls[0])} + KeysOf(calls[1..])
  {
    hide KeyOf;
    assert [calls[0]][1..] == [];
    assert KeyOf(calls[0]) in seen ==> seen + {KeyOf(calls[0])} == seen;
    assert calls == [calls[0]] + calls[1..];
  }

  lemma {:induction false} CallsReadLaid(s: State, calls: seq<CallDelta>, parse: string -> Value, ps: seq<Piece>)
    requires Usable(s) && s.w.current == NoBlock && LaidOut(s.w, ps)
    ensures var t := CallsRead(s, calls, parse);
            LaidOut(t.w, ps + CallPieces(s.keys.Keys, calls)) && t.keys.Keys == s.keys.Keys + KeysOf(calls)
    decreases |calls|
  {
    hide CallRead, LaidOut, Usable, KeyOf, CallPieces;
    if calls == [] {
      NoCallPieces(s.keys.Keys);
      assert ps + [] == ps;
    } else {
      var t, first := CallRead(s, calls[0], parse), CallPieces(s.keys.Keys, [calls[0]]);
      CallReadLaid(s, calls[0], parse, ps);
      CallsReadLaid(t, calls[1..], parse, ps + first);
      CallPiecesFirst(s.keys.Keys, calls);
      Regroup(ps, first, CallPieces(t.keys.Keys, calls[1..]));
    }
  }

  lemma NoCallPieces(seen: set<Key>)
    ensures CallPieces(seen, []) == []
  {
  }

  lemma ChoiceReadLaid(s: State, items: seq<Item>, calls: seq<CallDelta>, parse: string -> Value, ps: seq<Piece>)
    requires Usable(s) && LaidOut(s.w, ps)
    ensures var t, seen := ChoiceRead(s, items, calls, parse), s.keys.Keys;
            && LaidOut(t.w, ps + ChoicePieces(seen, items, calls))
            && t.keys.Keys == seen + KeysOf(calls)
  {
    hide ItemsRead, CallsRead, CurrentClosed, LaidOut, KeyOf, CallPieces;
    ItemsReadGrows(s.w, items);
    ItemsReadLaid(s.w, items, ps);
    var w, more := ItemsRead(s.w, items), ps + ItemPieces(items);
    if calls == [] {
      assert ItemPieces(items) + [] == ItemPieces(items);
    } else {
      ClosedLaid(w, more);
      CallsReadLaid(s.(w := CurrentClosed(w)), calls, parse, more + [Break]);
      Regroup(more, [Break], CallPieces(s.keys.Keys, calls));
      Regroup(ps, ItemPieces(items), [Break] + CallPieces(s.keys.Keys, calls));
    }
  }

  lemma {:induction false} ChunksReadLaid(s: State, chunks: seq<Chunk>, parse: string -> Value, ps: seq<Piece>)
    requires Usable(s) && LaidOut(s.w, ps)
    ensures LaidOut(ChunksRead(s, chunks, parse).0.w, ps + ChunksPieces(s.keys.Keys, chunks))
    decreases |chunks|
  {
    hide ChoiceRead, LaidOut, Placed, ChoicePieces, KeyOf;
    if chunks == [] || chunks[0].Malformed? {
      assert ps + [] == ps;
    } else if chunks[0].Skipped? {
      ChunksReadLaid(s, chunks[1..], parse, ps);
    } else {
      var (items, calls) := (chunks[0].items, chunks[0].calls);
      var t := ChoiceRead(s, items, calls, parse);
      var first := ChoicePieces(s.keys.Keys, items, calls);
      ChoiceReadLaid(s, items, calls, parse, ps);
      ChunksReadLaid(t, chunks[1..], parse, ps + first);
      Regroup(ps, first, ChunksPieces(t.keys.Keys, chunks[1..]));
    }
  }

  /**
   * For every chunk sequence the message is this, apart from the arguments: one
   * block for each run of text items of a kind, which a chunk with calls breaks,
   * and one call for each id and index, with the name of its first delta.
   */
  lemma MistralMessageExactly(chunks: seq<Chunk>, parse: string -> Value)
    ensures var content, blocks := Decoded(chunks, parse).0.w.out.content, Laid(ChunksPieces({}, chunks));
            |content| == |blocks| && forall at | 0 <= at < |blocks| :: SameButArguments(blocks[at], content[at])
  {
    assert Laid([]) == [];
    hide ChunksRead, ChunksPieces, Laid, ToolsClosed;
    assert INITIAL.keys.Keys == {};
    ChunksReadLaid(INITIAL, chunks, parse, []);
    assert [] + ChunksPieces({}, chunks) == ChunksPieces({}, chunks);
    var (s, ok) := ChunksRead(INITIAL, chunks, parse);
    if ok {
      ToolsClosedSame(CurrentClosed(s.w).out, s.order, 0, parse);
    }
  }

  // ----- Keys -----------------------------------------------------------------------------------

  /** The decimal digits of an index, behind a minus sign if it is negative. */
  lemma IntTextExactly(i: int, d: nat)
    ensures 0 <= i < 10 ==> IntText(i) == ["0123456789"[i]]
    ensures i > 0 && d < 10 ==> IntText(10 * i + d) == IntText(i) + ["0123456789"[d]]
    ensures i > 0 ==> IntText(-i) == "-" + IntText(i)
  {
    hide M.Decimal;
    if 0 <= i < 10 {
      M.DecimalOfDigit(i);
    }
    if i > 0 && d < 10 {
      M.DecimalNext(i, d);
    }
  }

  /**
   * A delta's key is its id and its index. An index that is missing is 0; an id
   * that is missing, or is the text null, is a nine-character id or less made
   * from the index, the same for equal indices.
   */
  lemma KeyExactly(d: CallDelta)
    ensures var (id, index) := KeyOf(d);
            && (d.index.Some? ==> index == d.index.value) && (d.index.None? ==> index == 0)
            && (d.id != "" && d.id != "null" ==> id == d.id)
            && (d.id == "" || d.id == "null" ==> M.IsMistralId(id) && id == M.Candidate("toolcall:" + IntText(index), 0))
  {
    hide M.Candidate, M.IsMistralId;
    M.CandidateIsMistralId("toolcall:" + IntText(IndexOf(d)), 0);
  }
}
