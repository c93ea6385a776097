/** Decoding a Gemini stream: one block is open at a time, and a call comes whole. */
module GoogleDecoder {
  import opened Wrappers
  import opened JsonText
  import opened BlockEvents
  import opened TextBlocks
  import M = MistralIds

  /** A function call part; absent or malformed arguments are the empty object. */
  datatype RawCall = RawCall(name: string, args: map<string, Value>, id: string)

  datatype RawPart = RawPart(text: Option<string>, thought: bool, signature: string, call: Option<RawCall>)

  /** The parts of a chunk's first candidate. */
  datatype Chunk = Malformed | Parts(parts: seq<RawPart>)

  /**
   * How arguments are written, and how many numbers the other streams of the
   * process take before this one takes its next, after it took number n.
   */
  datatype Env = Env(marshal: Value -> string, others: nat -> nat)

  function NextNumber(n: nat, env: Env): nat { n + env.others(n) + 1 }

  /** generated is the last number that this stream took. */
  datatype State = State(w: Writing, generated: nat)

  predicate HasId(content: seq<Content>, id: string) {
    exists k :: 0 <= k < |content| && content[k].ToolBlock? && content[k].id == id
  }

  /** The provided id unless it is empty or taken, else the name and a number. */
  function NextId(name: string, provided: string, content: seq<Content>, number: nat): string {
    if MakesId(provided, content) then Generated(name, number) else provided
  }

  function Generated(name: string, n: nat): string { name + "_" + M.Decimal(n) }

  predicate MakesId(provided: string, content: seq<Content>) { provided == "" || HasId(content, provided) }

  function CallBlock(call: RawCall, signature: string, s: State, env: Env): Content {
    ToolBlock(NextId(call.name, call.id, s.w.out.content, NextNumber(s.generated, env)), call.name, Object(call.args), signature)
  }

  function CallRead(s: State, call: RawCall, signature: string, env: Env): (r: State)
    requires InPlace(s.w)
    ensures InPlace(r.w)
  {
    var c := CallBlock(call, signature, s, env);
    var at := |s.w.out.content|;
    var o := Extended(Opened(CurrentClosed(s.w).out, c), at, c, env.marshal(c.arguments));
    State(Writing(Closed(o, at, c), NoBlock), if MakesId(call.id, s.w.out.content) then NextNumber(s.generated, env) else s.generated)
  }

  function PartRead(s: State, part: RawPart, env: Env): (r: State)
    requires InPlace(s.w)
    ensures InPlace(r.w)
  {
    var s1 :=
      if part.text.None? then s
      else s.(w := Appended(s.w, if part.thought then IsThinking else IsText, part.text.value, part.signature));
    if part.call.None? then s1 else CallRead(s1, part.call.value, part.signature, env)
  }

  function PartsRead(s: State, parts: seq<RawPart>, env: Env): (r: State)
    requires InPlace(s.w)
    ensures InPlace(r.w)
    decreases |parts|
  {
    if parts == [] then s else PartsRead(PartRead(s, parts[0], env), parts[1..], env)
  }

  /** The state at the end of the stream, or at a chunk that cannot be parsed. */
  function Decoded(s: State, chunks: seq<Chunk>, env: Env): (State, bool)
    requires InPlace(s.w)
    decreases |chunks|
  {
    if chunks == [] then (s.(w := CurrentClosed(s.w)), true)
    else match chunks[0]
      case Malformed => (s, false)
      case Parts(parts) => Decoded(PartsRead(s, parts, env), chunks[1..], env)
  }

  // ----- The decoder -------------------------------------------------------------------------

  class Decoder {
    const out: BlockWriter
    const env: Env
    var toolCallCounter: nat

    ghost function Abstract(): State reads this, out { State(out.Abstract(), toolCallCounter) }

    constructor (counter: nat, env: Env)
      ensures fresh(out) && out.Valid() && Abstract() == State(NOTHING_WRITTEN, counter) && this.env == env
    {
      out := new BlockWriter();
      this.env, toolCallCounter := env, counter;
    }

    method NextToolCallId(name: string, provided: string) returns (id: string)
      modifies this`toolCallCounter
      ensures id == NextId(name, provided, out.content, NextNumber(old(toolCallCounter), env))
      ensures toolCallCounter ==
                if MakesId(provided, out.content) then NextNumber(old(toolCallCounter), env) else old(toolCallCounter)
    {
      if provided != "" {
        var dup := false;
        for k := 0 to |out.content|
          invariant dup <==> exists j :: 0 <= j < k && out.content[j].ToolBlock? && out.content[j].id == provided
        {
          if out.content[k].ToolBlock? && out.content[k].id == provided {
            dup := true;
          }
        }
        if !dup {
          return provided;
        }
      }
      toolCallCounter := toolCallCounter + env.others(toolCallCounter) + 1;
      id := name + "_" + M.Decimal(toolCallCounter);
    }

    method ReadCall(call: RawCall, signature: string)
      requires out.Valid()
      modifies this, out
      ensures out.Valid() && Abstract() == CallRead(old(Abstract()), call, signature, env)
    {
      hide HasId, NextId, MakesId;
      out.CloseCurrent();
      var id := NextToolCallId(call.name, call.id);
      var tc := ToolBlock(id, call.name, Object(call.args), signature);
      var at := out.OpenTool(tc);
      out.ExtendTool(at, tc, env.marshal(tc.arguments));
      out.CloseTool(at, tc);
    }

    method ReadPart(part: RawPart)
      requires out.Valid()
      modifies this, out
      ensures out.Valid() && Abstract() == PartRead(old(Abstract()), part, env)
    {
      hide CallRead, InPlace;
      if part.text.Some? {
        out.AppendDelta(if part.thought then IsThinking else IsText, part.text.value, part.signature);
      }
      if part.call.Some? {
        ReadCall(part.call.value, part.signature);
      }
    }

    method DecodeStream(chunks: seq<Chunk>) returns (ok: bool)
      requires out.Valid()
      modifies this, out
      ensures out.Valid() && (Abstract(), ok) == Decoded(old(Abstract()), chunks, env)
    {
      hide PartRead;
      for i := 0 to |chunks|
        invariant out.Valid()
        invariant Decoded(old(Abstract()), chunks, env) == Decoded(Abstract(), chunks[i..], env)
      {
        assert chunks[i..][0] == chunks[i] && chunks[i..][1..] == chunks[i + 1..];
        if chunks[i].Malformed? {
          return false;
        }
        ghost var before := Abstract();
        var parts := chunks[i].parts;
        for k := 0 to |parts|
          invariant out.Valid()
          invariant PartsRead(before, parts, env) == PartsRead(Abstract(), parts[k..], env)
        {
          assert parts[k..][0] == parts[k] && parts[k..][1..] == parts[k + 1..];
          ReadPart(parts[k]);
        }
      }
      out.CloseCurrent();
      ok := true;
    }
  }

  // ----- The protocol ------------------------------------------------------------------------

  /** The calls came whole: each ended with its block, and its delta is the marshalled arguments. */
  predicate CallsWhole(w: Writing, env: Env)
    requires Tracks(w.out)
  {
    forall at | 0 <= at < |w.out.content| && w.out.content[at].ToolBlock? ::
      Phases(w.out)[at] == Ended(IsTool, env.marshal(w.out.content[at].arguments), w.out.content[at])
  }

  predicate Follows(s: State, env: Env) {
    TextFollows(s.w) && CallsWhole(s.w, env)
  }

  lemma CallReadFollows(s: State, call: RawCall, signature: string, env: Env)
    requires Follows(s, env)
    ensures Follows(CallRead(s, call, signature, env), env)
  {
    CurrentClosedFollows(s.w);
    var c := CallBlock(call, signature, s, env);
    var at := |s.w.out.content|;
    var w0 := CurrentClosed(s.w);
    OpenedToolFollows(w0, c);
    OpenedTracks(w0.out, c);
    var w1 := w0.(out := Opened(w0.out, c));
    ExtendedToolFollows(w1, at, c, env.marshal(c.arguments));
    ExtendedTracks(w1.out, at, c, env.marshal(c.arguments));
    var w2 := w1.(out := Extended(w1.out, at, c, env.marshal(c.arguments)));
    ExtendedToolFollows(w2, at, c, "");
    ClosedTracks(w2.out, at, c);
    hide TextFollows, InPlace, Tracks, Opened, Extended, Closed;
    assert CallRead(s, call, signature, env).w == w2.(out := Closed(w2.out, at, c));
  }

  lemma PartReadFollows(s: State, part: RawPart, env: Env)
    requires Follows(s, env)
    ensures Follows(PartRead(s, part, env), env)
  {
    hide CallRead;
    var want := if part.thought then IsThinking else IsText;
    var s1 := if part.text.None? then s else s.(w := Appended(s.w, want, part.text.value, part.signature));
    if part.text.Some? {
      AppendedFollows(s.w, want, part.text.value, part.signature);
    }
    if part.call.Some? {
      CallReadFollows(s1, part.call.value, part.signature, env);
    }
  }

  lemma {:induction false} PartsReadFollows(s: State, parts: seq<RawPart>, env: Env)
    requires Follows(s, env)
    ensures Follows(PartsRead(s, parts, env), env)
    decreases |parts|
  {
    hide PartRead, CallsWhole, Tracks;
    if parts != [] {
      PartReadFollows(s, parts[0], env);
      PartsReadFollows(PartRead(s, parts[0], env), parts[1..], env);
    }
  }

  lemma {:induction false} DecodedFollows(s: State, chunks: seq<Chunk>, env: Env)
    requires Follows(s, env)
    ensures Follows(Decoded(s, chunks, env).0, env)
    ensures Decoded(s, chunks, env).1 ==> Decoded(s, chunks, env).0.w.current == NoBlock
    decreases |chunks|
  {
    hide PartsRead;
    if chunks == [] {
      CurrentClosedFollows(s.w);
    } else if chunks[0].Parts? {
      PartsReadFollows(s, chunks[0].parts, env);
      DecodedFollows(PartsRead(s, chunks[0].parts, env), chunks[1..], env);
    }
  }

  /** What a reader of the events may rely on for block at, once the stream was read to its end. */
  predicate BlockWhole(o: Output, at: nat, env: Env)
    requires Tracks(o) && at < |o.content|
  {
    var c := o.content[at];
    Phases(o)[at] == Ended(KindOf(c), if c.ToolBlock? then env.marshal(c.arguments) else c.text, c)
  }

  /**
   * Any chunk sequence: the events keep the protocol, and when the stream was
   * read to its end every block has ended with its final content, whose text is
   * the concatenation of the block's deltas.
   */
  lemma GoogleKeepsProtocol(chunks: seq<Chunk>, counter: nat, env: Env)
    ensures var (s, ok) := Decoded(State(NOTHING_WRITTEN, counter), chunks, env);
            && Tracks(s.w.out)
            && (ok ==> forall at | 0 <= at < |s.w.out.content| :: BlockWhole(s.w.out, at, env))
  {
    DecodedFollows(State(NOTHING_WRITTEN, counter), chunks, env);
  }

  // ----- Nothing is lost ------------------------------------------------------------------------

  function PartText(part: RawPart, kind: Kind): string {
    if part.text.Some? && kind == (if part.thought then IsThinking else IsText) then part.text.value else ""
  }

  function PartsText(parts: seq<RawPart>, kind: Kind): string {
    if parts == [] then "" else PartText(parts[0], kind) + PartsText(parts[1..], kind)
  }

  /** The text of a kind in the chunks before the first malformed one. */
  function ChunksText(chunks: seq<Chunk>, kind: Kind): string {
    if chunks == [] || chunks[0].Malformed? then ""
    else PartsText(chunks[0].parts, kind) + ChunksText(chunks[1..], kind)
  }

  lemma CallReadText(s: State, call: RawCall, signature: string, env: Env, kind: Kind)
    requires InPlace(s.w) && kind != IsTool
    ensures TextOf(CallRead(s, call, signature, env).w.out.events, kind) == TextOf(s.w.out.events, kind)
  {
    hide TextOf;
    CurrentClosedText(s.w, kind);
    var c := CallBlock(call, signature, s, env);
    var at := |s.w.out.content|;
    var es := CurrentClosed(s.w).out.events;
    TextOfNext(es, Start(at, IsTool), kind);
    TextOfNext(es + [Start(at, IsTool)], Delta(at, IsTool, env.marshal(c.arguments)), kind);
    TextOfNext(es + [Start(at, IsTool)] + [Delta(at, IsTool, env.marshal(c.arguments))], End(at, c), kind);
  }

  lemma PartReadText(s: State, part: RawPart, env: Env, kind: Kind)
    requires InPlace(s.w) && kind != IsTool
    ensures TextOf(PartRead(s, part, env).w.out.events, kind) == TextOf(s.w.out.events, kind) + PartText(part, kind)
  {
    hide TextOf, CallRead;
    var want := if part.thought then IsThinking else IsText;
    var s1 := if part.text.None? then s else s.(w := Appended(s.w, want, part.text.value, part.signature));
    if part.text.Some? {
      AppendedText(s.w, want, part.text.value, part.signature, kind);
    }
    if part.call.Some? {
      CallReadText(s1, part.call.value, part.signature, env, kind);
    }
  }

  lemma {:induction false} PartsReadText(s: State, parts: seq<RawPart>, env: Env, kind: Kind)
    requires InPlace(s.w) && kind != IsTool
    ensures TextOf(PartsRead(s, parts, env).w.out.events, kind) == TextOf(s.w.out.events, kind) + PartsText(parts, kind)
    decreases |parts|
  {
    hide TextOf, PartRead, PartText, InPlace;
    if parts != [] {
      PartReadText(s, parts[0], env, kind);
      PartsReadText(PartRead(s, parts[0], env), parts[1..], env, kind);
    }
  }

  /** The text deltas, and likewise the thinking deltas, spell the received text in order. */
  lemma {:induction false} GoogleKeepsText(s: State, chunks: seq<Chunk>, env: Env, kind: Kind)
    requires InPlace(s.w) && kind != IsTool
    ensures TextOf(Decoded(s, chunks, env).0.w.out.events, kind) == TextOf(s.w.out.events, kind) + ChunksText(chunks, kind)
    decreases |chunks|
  {
    hide TextOf, PartsRead, PartsText, InPlace;
    if chunks == [] {
      CurrentClosedText(s.w, kind);
    } else if chunks[0].Parts? {
      PartsReadText(s, chunks[0].parts, env, kind);
      GoogleKeepsText(PartsRead(s, chunks[0].parts, env), chunks[1..], env, kind);
    }
  }

  // ----- Which call ids are distinct ------------------------------------------------------------

  lemma {:induction false} DecimalInjective(a: nat, b: nat)
    requires M.Decimal(a) == M.Decimal(b)
    ensures a == b
    decreases a
  {
    hide M.IsAlnum;
    var s, t := M.Decimal(a), M.Decimal(b);
    assert s[..|s| - 1] == if a < 10 then "" else M.Decimal(a / 10);
    assert t[..|t| - 1] == if b < 10 then "" else M.Decimal(b / 10);
    assert s[|s| - 1] == M.Digit(a % 10) && t[|t| - 1] == M.Digit(b % 10);
    if a >= 10 && b >= 10 {
      DecimalInjective(a / 10, b / 10);
    }
  }

  /** Ids generated under different numbers are different, whatever the names. */
  lemma GeneratedIdsDiffer(name: string, n: nat, other: string, m: nat)
    requires Generated(name, n) == Generated(other, m)
    ensures n == m && name == other
  {
    hide M.Decimal, M.IsAlnum;
    var id, a, b := Generated(name, n), M.Decimal(n), M.Decimal(m);
    NoUnderscoreAfter(name, n);
    NoUnderscoreAfter(other, m);
    assert id[|name|] == '_' && id[|other|] == '_';
    assert id[..|name|] == name && id[..|other|] == other;
    assert id[|name| + 1..] == a && id[|other| + 1..] == b;
    DecimalInjective(n, m);
  }

  /** The last underscore of a generated id stands behind the name. */
  lemma NoUnderscoreAfter(name: string, n: nat)
    ensures forall k | |name| < k < |Generated(name, n)| :: Generated(name, n)[k] != '_'
  {
    var digits := M.Decimal(n);
    forall k | |name| < k < |Generated(name, n)| ensures Generated(name, n)[k] != '_' {
      assert Generated(name, n)[k] == digits[k - |name| - 1];
      assert digits[k - |name| - 1] in digits;
    }
  }

  /** The ids of the calls that the chunks bring, up to a malformed one. */
  function CallOf(part: RawPart): seq<RawCall> { if part.call.Some? then [part.call.value] else [] }

  function CallsOf(parts: seq<RawPart>): seq<RawCall> {
    if parts == [] then [] else CallOf(parts[0]) + CallsOf(parts[1..])
  }

  function CallsIn(chunks: seq<Chunk>): seq<RawCall> {
    if chunks == [] || chunks[0].Malformed? then [] else CallsOf(chunks[0].parts) + CallsIn(chunks[1..])
  }

  /** The ids given so far, and the last number taken. */
  datatype Given = Given(ids: seq<string>, number: nat)

  predicate MustGenerate(g: Given, call: RawCall) { call.id == "" || call.id in g.ids }

  function IdGiven(g: Given, call: RawCall, env: Env): Given {
    if MustGenerate(g, call)
    then Given(g.ids + [Generated(call.name, NextNumber(g.number, env))], NextNumber(g.number, env))
    else Given(g.ids + [call.id], g.number)
  }

  function IdsGiven(g: Given, calls: seq<RawCall>, env: Env): Given
    decreases |calls|
  {
    if calls == [] then g else IdsGiven(IdGiven(g, calls[0], env), calls[1..], env)
  }

  /** No call has to get a generated id that the server has provided for an earlier call. */
  predicate NoneGuessed(g: Given, provided: set<string>, calls: seq<RawCall>, env: Env)
    decreases |calls|
  {
    calls == [] ||
    (!(MustGenerate(g, calls[0]) && Generated(calls[0].name, NextNumber(g.number, env)) in provided)
     && NoneGuessed(IdGiven(g, calls[0], env), provided + {calls[0].id}, calls[1..], env))
  }

  predicate Distinct(ids: seq<string>) { forall j, k | 0 <= j < k < |ids| :: ids[j] != ids[k] }

  ghost predicate IsGenerated(id: string, upTo: nat) { exists name, n: nat :: n <= upTo && id == Generated(name, n) }

  /** Every given id was provided, or generated under a number up to the last; every provided id is in use. */
  ghost predicate Accounted(g: Given, provided: set<string>) {
    && (forall id | id in g.ids :: id in provided || IsGenerated(id, g.number))
    && (forall id | id in provided :: id == "" || id in g.ids)
  }

  lemma IdIsAccounted(g: Given, provided: set<string>, call: RawCall, env: Env)
    requires Accounted(g, provided)
    ensures Accounted(IdGiven(g, call, env), provided + {call.id})
  {
    hide Generated;
    var r := IdGiven(g, call, env);
    forall id | id in r.ids ensures id in provided + {call.id} || IsGenerated(id, r.number) {
      if id in g.ids {
        if id !in provided {
          var name, n: nat :| n <= g.number && id == Generated(name, n);
          assert n <= r.number;
        }
      } else if MustGenerate(g, call) {
        assert id == Generated(call.name, r.number);
      }
    }
    forall id | id in g.ids ensures id in r.ids {
      var k :| 0 <= k < |g.ids| && g.ids[k] == id;
      assert r.ids[k] == id;
    }
    assert r.ids[|g.ids|] in r.ids;
  }

  /** The next id is new unless it is a guessed one. */
  lemma NextIsNew(g: Given, provided: set<string>, call: RawCall, env: Env)
    requires Accounted(g, provided)
    ensures var number := NextNumber(g.number, env); var id := Generated(call.name, number);
            MustGenerate(g, call) ==> (id in g.ids <==> id in provided)
  {
    hide M.Decimal;
    var number := NextNumber(g.number, env);
    var id := Generated(call.name, number);
    assert id[|call.name|] == '_';
    if id in g.ids && id !in provided {
      var name, n: nat :| n <= g.number && id == Generated(name, n);
      GeneratedIdsDiffer(call.name, number, name, n);
    }
  }

  lemma OneMoreDistinct(ids: seq<string>, id: string)
    ensures Distinct(ids + [id]) <==> Distinct(ids) && id !in ids
  {
    var more := ids + [id];
    if Distinct(more) {
      forall k | 0 <= k < |ids| ensures ids[k] != id {
        assert more[k] != more[|ids|];
      }
      forall j, k | 0 <= j < k < |ids| ensures ids[j] != ids[k] {
        assert more[j] != more[k];
      }
    }
  }

  lemma {:induction false} RepeatStays(g: Given, calls: seq<RawCall>, env: Env)
    requires !Distinct(g.ids)
    ensures !Distinct(IdsGiven(g, calls, env).ids)
    decreases |calls|
  {
    hide Generated, Distinct;
    if calls != [] {
      var r := IdGiven(g, calls[0], env);
      OneMoreDistinct(g.ids, r.ids[|g.ids|]);
      RepeatStays(r, calls[1..], env);
    }
  }

  lemma {:induction false} GivenDistinctExactly(g: Given, provided: set<string>, calls: seq<RawCall>, env: Env)
    requires Accounted(g, provided) && Distinct(g.ids)
    ensures Distinct(IdsGiven(g, calls, env).ids) <==> NoneGuessed(g, provided, calls, env)
    decreases |calls|
  {
    hide Generated, Distinct, Accounted;
    if calls != [] {
      var r := IdGiven(g, calls[0], env);
      NextIsNew(g, provided, calls[0], env);
      OneMoreDistinct(g.ids, r.ids[|g.ids|]);
      IdIsAccounted(g, provided, calls[0], env);
      if Distinct(r.ids) {
        GivenDistinctExactly(r, provided + {calls[0].id}, calls[1..], env);
      } else {
        RepeatStays(r, calls[1..], env);
      }
    }
  }

  // ----- The ids in the message ---------------------------------------------------------------

  /** The ids of the call blocks, in order. */
  function CallIds(content: seq<Content>): seq<string>
    decreases |content|
  {
    if content == [] then []
    else CallIds(content[..|content| - 1]) +
         if content[|content| - 1].ToolBlock? then [content[|content| - 1].id] else []
  }

  lemma CallIdsNext(content: seq<Content>, c: Content)
    ensures CallIds(content + [c]) == CallIds(content) + if c.ToolBlock? then [c.id] else []
  {
    assert (content + [c])[..|content|] == content;
  }

  lemma {:induction false} HasIdIsGiven(content: seq<Content>, id: string)
    ensures HasId(content, id) <==> id in CallIds(content)
    decreases |content|
  {
    if content != [] {
      var before, c := content[..|content| - 1], content[|content| - 1];
      assert before + [c] == content;
      CallIdsNext(before, c);
      HasIdIsGiven(before, id);
      if HasId(before, id) {
        var k :| 0 <= k < |before| && before[k].ToolBlock? && before[k].id == id;
        assert content[k].ToolBlock? && content[k].id == id;
      }
    }
  }

  /** Text changes no call's id: a block that is no call is replaced by another, or one is added. */
  lemma {:induction false} SameCallIds(content: seq<Content>, more: seq<Content>)
    requires |content| <= |more|
    requires forall k | 0 <= k < |content| :: if content[k].ToolBlock? then more[k] == content[k] else !more[k].ToolBlock?
    requires forall k | |content| <= k < |more| :: !more[k].ToolBlock?
    ensures CallIds(more) == CallIds(content)
    decreases |more|
  {
    if more != [] {
      var m := |more| - 1;
      if |more| == |content| {
        SameCallIds(content[..m], more[..m]);
      } else {
        SameCallIds(content, more[..m]);
      }
    }
  }

  function GivenIn(s: State): Given { Given(CallIds(s.w.out.content), s.generated) }

  lemma CallReadGives(s: State, call: RawCall, signature: string, env: Env)
    requires InPlace(s.w)
    ensures GivenIn(CallRead(s, call, signature, env)) == IdGiven(GivenIn(s), call, env)
  {
    hide Generated, HasId, CallIds;
    var content := s.w.out.content;
    HasIdIsGiven(content, call.id);
    CallAppends(s, call, signature, env);
    CallIdsNext(content, CallBlock(call, signature, s, env));
  }

  lemma CallAppends(s: State, call: RawCall, signature: string, env: Env)
    requires InPlace(s.w)
    ensures CallRead(s, call, signature, env).w.out.content == s.w.out.content + [CallBlock(call, signature, s, env)]
  {
    hide CallBlock;
  }

  lemma PartReadGives(s: State, part: RawPart, env: Env)
    requires InPlace(s.w)
    ensures GivenIn(PartRead(s, part, env)) == IdsGiven(GivenIn(s), CallOf(part), env)
  {
    hide CallRead, IdGiven, CallIds;
    var want := if part.thought then IsThinking else IsText;
    var s1 := if part.text.None? then s else s.(w := Appended(s.w, want, part.text.value, part.signature));
    SameCallIds(s.w.out.content, s1.w.out.content);
    if part.call.Some? {
      CallReadGives(s1, part.call.value, part.signature, env);
      assert CallOf(part)[1..] == [];
    }
  }

  lemma {:induction false} IdsGivenAppend(g: Given, a: seq<RawCall>, b: seq<RawCall>, env: Env)
    ensures IdsGiven(g, a + b, env) == IdsGiven(IdsGiven(g, a, env), b, env)
    decreases |a|
  {
    hide IdGiven;
    if a == [] {
      assert a + b == b;
    } else {
      assert (a + b)[1..] == a[1..] + b && (a + b)[0] == a[0];
      IdsGivenAppend(IdGiven(g, a[0], env), a[1..], b, env);
    }
  }

  lemma {:induction false} PartsReadGive(s: State, parts: seq<RawPart>, env: Env)
    requires InPlace(s.w)
    ensures GivenIn(PartsRead(s, parts, env)) == IdsGiven(GivenIn(s), CallsOf(parts), env)
    decreases |parts|
  {
    hide PartRead, InPlace, GivenIn, IdGiven, CallOf;
    if parts != [] {
      PartReadGives(s, parts[0], env);
      PartsReadGive(PartRead(s, parts[0], env), parts[1..], env);
      IdsGivenAppend(GivenIn(s), CallOf(parts[0]), CallsOf(parts[1..]), env);
    }
  }

  lemma {:induction false} DecodedGives(s: State, chunks: seq<Chunk>, env: Env)
    requires InPlace(s.w)
    ensures GivenIn(Decoded(s, chunks, env).0) == IdsGiven(GivenIn(s), CallsIn(chunks), env)
    decreases |chunks|
  {
    hide PartsRead, InPlace, IdGiven, CallsOf;
    if chunks != [] && chunks[0].Parts? {
      PartsReadGive(s, chunks[0].parts, env);
      DecodedGives(PartsRead(s, chunks[0].parts, env), chunks[1..], env);
      IdsGivenAppend(GivenIn(s), CallsOf(chunks[0].parts), CallsIn(chunks[1..]), env);
    }
  }

  /**
   * For every chunk sequence, and whatever numbers other streams take: the ids
   * of the message's calls are distinct exactly when no call had to get a
   * generated id that the server itself had provided before.
   */
  lemma IdsDistinctExactly(chunks: seq<Chunk>, counter: nat, env: Env)
    ensures var s := Decoded(State(NOTHING_WRITTEN, counter), chunks, env).0;
            Distinct(CallIds(s.w.out.content)) <==> NoneGuessed(Given([], counter), {}, CallsIn(chunks), env)
  {
    hide CallsIn;
    DecodedGives(State(NOTHING_WRITTEN, counter), chunks, env);
    assert GivenIn(State(NOTHING_WRITTEN, counter)) == Given([], counter);
    GivenDistinctExactly(Given([], counter), {}, CallsIn(chunks), env);
  }

  /** The server provides a_1, and then leaves out the id of a call to a, the first that is generated. */
  lemma GuessedIdRepeats(env: Env)
    requires env.others(0) == 0
    ensures var calls := [RawPart(None, false, "", Some(RawCall("a", map[], "a_1"))),
                          RawPart(None, false, "", Some(RawCall("a", map[], "")))];
            !Distinct(CallIds(Decoded(State(NOTHING_WRITTEN, 0), [Parts(calls)], env).0.w.out.content))
  {
    hide Decoded, Distinct, CallIds;
    var first, second := RawCall("a", map[], "a_1"), RawCall("a", map[], "");
    var parts := [RawPart(None, false, "", Some(first)), RawPart(None, false, "", Some(second))];
    var chunks := [Parts(parts)];
    IdsDistinctExactly(chunks, 0, env);
    assert parts[1..] == [parts[1]] && parts[1..][1..] == [] && chunks[1..] == [];
    assert CallsOf([]) == [] && CallsOf([parts[1]]) == [second] + [];
    assert CallsOf(parts) == [first] + CallsOf([parts[1]]);
    assert CallsIn(chunks) == [first, second];
    assert [first, second][1..] == [second];
    assert M.Decimal(1) == "1";
    assert Generated("a", 1) == "a_1";
    assert NextNumber(0, env) == 1;
    var g := IdGiven(Given([], 0), first, env);
    assert !NoneGuessed(g, {} + {"a_1"}, [second], env);
  }

  // ----- The whole message ------------------------------------------------------------------------

  function LastGiven(g: Given): string { if g.ids == [] then "" else g.ids[|g.ids| - 1] }

  /** A part is its text, then its call with the id that it is given. */
  function PiecesOf(g: Given, part: RawPart, env: Env): seq<Piece> {
    (if part.text.None? then [] else [Text(if part.thought then IsThinking else IsText, part.text.value, part.signature)]) +
    (if part.call.None? then []
     else var call := part.call.value;
       [Call(ToolBlock(LastGiven(IdGiven(g, call, env)), call.name, Object(call.args), part.signature))])
  }

  function PartsPieces(g: Given, parts: seq<RawPart>, env: Env): seq<Piece>
    decreases |parts|
  {
    if parts == [] then []
    else PiecesOf(g, parts[0], env) + PartsPieces(IdsGiven(g, CallOf(parts[0]), env), parts[1..], env)
  }

  /** The pieces of the chunks before the first malformed one. */
  function ChunksPieces(g: Given, chunks: seq<Chunk>, env: Env): seq<Piece>
    decreases |chunks|
  {
    if chunks == [] || chunks[0].Malformed? then []
    else PartsPieces(g, chunks[0].parts, env) + ChunksPieces(IdsGiven(g, CallsOf(chunks[0].parts), env), chunks[1..], env)
  }

  predicate LaidExactly(s: State, ps: seq<Piece>) { LaidOut(s.w, ps) && s.w.out.content == Laid(ps) }

  lemma CallReadLaid(s: State, call: RawCall, signature: string, env: Env, ps: seq<Piece>)
    requires InPlace(s.w) && LaidExactly(s, ps)
    ensures var c := ToolBlock(LastGiven(IdGiven(GivenIn(s), call, env)), call.name, Object(call.args), signature);
            LaidExactly(CallRead(s, call, signature, env), ps + [Call(c)])
  {
    hide CallIds, HasId, Laid, LaidOut, IdGiven;
    var t := CallRead(s, call, signature, env);
    CallReadGives(s, call, signature, env);
    CallAppends(s, call, signature, env);
    var c := CallBlock(call, signature, s, env);
    CallIdsNext(s.w.out.content, c);
    ToolLaid(s.w, t.w, ps, c);
  }

  lemma PartReadLaid(s: State, part: RawPart, env: Env, ps: seq<Piece>)
    requires InPlace(s.w) && LaidExactly(s, ps)
    ensures LaidExactly(PartRead(s, part, env), ps + PiecesOf(GivenIn(s), part, env))
  {
    hide CallRead, IdGiven, Laid, LaidOut, CallIds;
    var want := if part.thought then IsThinking else IsText;
    var s1, more := s, ps;
    if part.text.Some? {
      s1 := s.(w := Appended(s.w, want, part.text.value, part.signature));
      more := ps + [Text(want, part.text.value, part.signature)];
      AppendedLaid(s.w, ps, want, part.text.value, part.signature);
      SameCallIds(s.w.out.content, s1.w.out.content);
    }
    var pieces := PiecesOf(GivenIn(s), part, env);
    if part.call.Some? {
      CallReadLaid(s1, part.call.value, part.signature, env, more);
      assert GivenIn(s1) == GivenIn(s);
      assert more + [pieces[|pieces| - 1]] == ps + pieces;
    } else {
      assert more == ps + pieces;
    }
  }

  lemma {:induction false} PartsReadLaid(s: State, parts: seq<RawPart>, env: Env, ps: seq<Piece>)
    requires InPlace(s.w) && LaidExactly(s, ps)
    ensures LaidExactly(PartsRead(s, parts, env), ps + PartsPieces(GivenIn(s), parts, env))
    decreases |parts|
  {
    hide PartRead, IdGiven, LaidExactly, GivenIn, PiecesOf, InPlace, CallOf;
    if parts == [] {
      assert ps + [] == ps;
    } else {
      var first := PiecesOf(GivenIn(s), parts[0], env);
      PartReadLaid(s, parts[0], env, ps);
      PartReadGives(s, parts[0], env);
      PartsReadLaid(PartRead(s, parts[0], env), parts[1..], env, ps + first);
      assert (ps + first) + PartsPieces(IdsGiven(GivenIn(s), CallOf(parts[0]), env), parts[1..], env)
          == ps + PartsPieces(GivenIn(s), parts, env);
    }
  }

  lemma {:induction false} DecodedLaid(s: State, chunks: seq<Chunk>, env: Env, ps: seq<Piece>)
    requires InPlace(s.w) && LaidExactly(s, ps)
    ensures Decoded(s, chunks, env).0.w.out.content == Laid(ps + ChunksPieces(GivenIn(s), chunks, env))
    decreases |chunks|
  {
    hide PartsRead, IdGiven, LaidOut, Laid, GivenIn, PartsPieces, InPlace, CallsOf;
    if chunks == [] || chunks[0].Malformed? {
      assert ps + [] == ps;
    } else {
      var parts := chunks[0].parts;
      var first := PartsPieces(GivenIn(s), parts, env);
      PartsReadLaid(s, parts, env, ps);
      PartsReadGive(s, parts, env);
      DecodedLaid(PartsRead(s, parts, env), chunks[1..], env, ps + first);
      assert (ps + first) + ChunksPieces(IdsGiven(GivenIn(s), CallsOf(parts), env), chunks[1..], env)
          == ps + ChunksPieces(GivenIn(s), chunks, env);
    }
  }

  /**
   * For every chunk sequence the message is exactly this: one block for each run
   * of text parts of a kind, with the run's text and its last signature, and each
   * call with its name, its arguments, its signature and the id it is given.
   */
  lemma GoogleMessageExactly(chunks: seq<Chunk>, counter: nat, env: Env)
    ensures Decoded(State(NOTHING_WRITTEN, counter), chunks, env).0.w.out.content == Laid(ChunksPieces(Given([], counter), chunks, env))
  {
    hide Decoded, ChunksPieces;
    var s := State(NOTHING_WRITTEN, counter);
    assert GivenIn(s) == Given([], counter);
    DecodedLaid(s, chunks, env, []);
    assert [] + ChunksPieces(Given([], counter), chunks, env) == ChunksPieces(Given([], counter), chunks, env);
  }
}
