/**
 * Whole Codex requests, told from what the network answers: what a connection
 * comes to, how a request ends, and which sessions are remembered over any
 * interleaving of requests.
 */
module CodexRequests {
  import opened Wrappers
  import opened JsonText
  import opened BlockEvents
  import opened CodexTransport
  import R = ResponsesDecoder

  // ----- What a connection comes to ------------------------------------------------------------

  /** A frame after which the connection goes on. */
  predicate IsPlain(m: Message) { m.Frame? && !m.event.Completed? && !m.event.Failed? }

  predicate EndsAt(messages: seq<Message>, k: nat) {
    k < |messages| && !IsPlain(messages[k]) && forall j | 0 <= j < k :: IsPlain(messages[j])
  }

  /** The first message that is no plain frame completes the response. */
  predicate CompletesAt(messages: seq<Message>, k: nat) {
    EndsAt(messages, k) && messages[k].Frame? && messages[k].event.Completed?
  }

  /** It never comes about, or its read fails, or the first message that is no plain frame is a failure. */
  ghost predicate BreaksDown(c: Connection) {
    || !c.Exchange?
    || (forall j | 0 <= j < |c.messages| :: IsPlain(c.messages[j]))
    || exists k: nat :: EndsAt(c.messages, k) && c.messages[k].Frame? && c.messages[k].event.Failed?
  }

  /** The frames that are forwarded. */
  function Forwarded(messages: seq<Message>): (r: seq<R.RawEvent>)
    ensures messages != [] && messages[0].Frame? <==> r != []
  {
    if messages == [] || !messages[0].Frame? then []
    else [messages[0].event] + if IsPlain(messages[0]) then Forwarded(messages[1..]) else []
  }

  lemma EndsLater(messages: seq<Message>, k: nat)
    requires messages != [] && IsPlain(messages[0])
    ensures EndsAt(messages, k) <==> k > 0 && EndsAt(messages[1..], k - 1)
  {
  }

  lemma EndsNow(messages: seq<Message>, k: nat)
    requires messages != [] && !IsPlain(messages[0])
    ensures EndsAt(messages, k) <==> k == 0
  {
  }

  /** An exchange has forwarded the frames up to the one that ends it, and fails as its last message says. */
  lemma {:induction false} ExchangedExactly(messages: seq<Message>, n: nat, d: R.State, parse: string -> Value)
    requires R.SlotsFit(d)
    ensures var r := Exchanged(messages, n, d, parse);
            && r.forwarded == n + |Forwarded(messages)|
            && r.d == R.Decoded(d, Forwarded(messages), false, parse).0
            && (r.error.None? <==> exists k: nat :: CompletesAt(messages, k))
            && (r.error == Some(TransportError) <==> BreaksDown(Exchange(messages)))
    decreases |messages|
  {
    hide R.EventRead, R.SlotsFit;
    if messages == [] {
      assert BreaksDown(Exchange(messages));
    } else if IsPlain(messages[0]) {
      var e, rest := messages[0].event, messages[1..];
      ExchangedExactly(rest, n + 1, R.EventRead(d, e, parse), parse);
      assert Forwarded(messages)[0] == e && Forwarded(messages)[1..] == Forwarded(rest);
      DecodedAnyway(R.EventRead(d, e, parse), Forwarded(rest), e.Completed?, false, parse);
      LaterEndsAlike(messages);
    } else {
      forall k: nat ensures EndsAt(messages, k) <==> k == 0 {
        EndsNow(messages, k);
      }
      if messages[0].Frame? {
        var e := messages[0].event;
        assert Forwarded(messages) == [e] && [e][1..] == [];
        assert e.Failed? ==> R.EventRead(d, e, parse) == d by { FailedReadsNothing(d, parse); }
        assert EndsAt(messages, 0);
        assert e.Completed? ==> CompletesAt(messages, 0);
      }
      assert !IsPlain(messages[0]);
    }
  }

  lemma FailedReadsNothing(d: R.State, parse: string -> Value)
    requires R.SlotsFit(d)
    ensures R.EventRead(d, R.Failed, parse) == d
  {
  }

  /** Whether a terminal event was seen before does not matter for the state. */
  lemma {:induction false} DecodedAnyway(d: R.State, es: seq<R.RawEvent>, a: bool, b: bool, parse: string -> Value)
    requires R.SlotsFit(d)
    ensures R.Decoded(d, es, a, parse).0 == R.Decoded(d, es, b, parse).0
    decreases |es|
  {
    hide R.EventRead, R.SlotsFit;
    if es != [] && !es[0].Failed? {
      DecodedAnyway(R.EventRead(d, es[0], parse), es[1..], a || es[0].Completed?, b || es[0].Completed?, parse);
    }
  }

  lemma LaterEndsAlike(messages: seq<Message>)
    requires messages != [] && IsPlain(messages[0])
    ensures (exists k: nat :: CompletesAt(messages, k)) <==> exists k: nat :: CompletesAt(messages[1..], k)
    ensures BreaksDown(Exchange(messages)) <==> BreaksDown(Exchange(messages[1..]))
  {
    var rest := messages[1..];
    forall k: nat ensures EndsAt(messages, k + 1) <==> EndsAt(rest, k) {
      EndsLater(messages, k + 1);
    }
    forall k: nat | EndsAt(messages, k) ensures k > 0 && EndsAt(rest, k - 1) && rest[k - 1] == messages[k] {
      EndsLater(messages, k);
    }
    forall k: nat | EndsAt(rest, k) ensures EndsAt(messages, k + 1) && messages[k + 1] == rest[k] {
    }
    if k: nat :| CompletesAt(messages, k) {
      assert CompletesAt(rest, k - 1);
    }
    if k: nat :| CompletesAt(rest, k) {
      assert CompletesAt(messages, k + 1);
    }
    if forall j | 0 <= j < |rest| :: IsPlain(rest[j]) {
      forall j | 0 <= j < |messages| ensures IsPlain(messages[j]) {
        assert j > 0 ==> messages[j] == rest[j - 1];
      }
    }
    if forall j | 0 <= j < |messages| :: IsPlain(messages[j]) {
      forall j | 0 <= j < |rest| ensures IsPlain(rest[j]) {
        assert rest[j] == messages[j + 1];
      }
    }
  }

  // ----- How a request ends ----------------------------------------------------------------------

  predicate NeverDials(fallback: set<string>, q: Request) { q.sseOnly || (q.session != "" && q.session in fallback) }

  /** The response comes over SSE: from the start, or because the last connection was silent. */
  predicate ComesOverSse(fallback: set<string>, q: Request, w: World) {
    NeverDials(fallback, q) || (IsSilent(LastConnection(w)) && !w.cancelledAtDecision)
  }

  /** Read to its end, with a completion and without a failure. */
  ghost predicate WholeBody(sse: SseResponse) {
    && sse.Body? && !sse.readFails
    && (forall k | 0 <= k < |sse.events| :: !sse.events[k].Failed?)
    && exists k :: 0 <= k < |sse.events| && sse.events[k].Completed?
  }

  lemma {:induction false} DecodedEnds(d: R.State, es: seq<R.RawEvent>, seen: bool, parse: string -> Value)
    requires R.SlotsFit(d)
    ensures R.Decoded(d, es, seen, parse).1 == R.Read <==>
              && (forall k | 0 <= k < |es| :: !es[k].Failed?)
              && (seen || exists k :: 0 <= k < |es| && es[k].Completed?)
    decreases |es|
  {
    hide R.EventRead, R.SlotsFit;
    if es != [] && !es[0].Failed? {
      var rest := es[1..];
      DecodedEnds(R.EventRead(d, es[0], parse), rest, seen || es[0].Completed?, parse);
      if forall k | 0 <= k < |rest| :: !rest[k].Failed? {
        forall k | 0 <= k < |es| ensures !es[k].Failed? {
          assert k > 0 ==> es[k] == rest[k - 1];
        }
      }
      assert forall k | 0 <= k < |rest| :: rest[k] == es[k + 1];
      assert forall k | 1 <= k < |es| :: es[k] == rest[k - 1];
    }
  }

  /** How the last connection's attempt went. */
  lemma LastExactly(w: World, parse: string -> Value)
    ensures var a, c := LastAttempt(w, R.INITIAL, parse), LastConnection(w);
            && (a.error == Some(TransportError) <==> BreaksDown(c))
            && (a.error.None? <==> c.Exchange? && exists k: nat :: CompletesAt(c.messages, k))
            && a.forwarded == (if c.Exchange? then |Forwarded(c.messages)| else 0)
            && a.d == R.Decoded(R.INITIAL, if c.Exchange? then Forwarded(c.messages) else [], false, parse).0
  {
    hide R.EventRead, LastAttempt, Exchanged, BreaksDown;
    LastIsLast(w, R.INITIAL, parse);
    var c := LastConnection(w);
    if c.Exchange? {
      ExchangedExactly(c.messages, 0, R.INITIAL, parse);
    } else {
      assert BreaksDown(c) by { NotThereBreaksDown(c); }
    }
  }

  lemma NotThereBreaksDown(c: Connection)
    requires !c.Exchange?
    ensures BreaksDown(c)
  {
  }

  lemma SilentBreaksDown(c: Connection)
    requires IsSilent(c)
    ensures BreaksDown(c)
  {
  }

  /**
   * What every request comes to. Over SSE: the decoded body, after a start event
   * if there is a body. Over a WebSocket: the decoded frames that the last
   * connection forwarded, after a start event if there are any.
   */
  lemma RequestExactly(fallback: set<string>, q: Request, w: World, parse: string -> Value)
    ensures var o, c := Ran(fallback, q, w, parse), LastConnection(w);
            if ComesOverSse(fallback, q, w) then
              && o.started == w.sse.Body?
              && o.d == R.Decoded(R.INITIAL, if w.sse.Body? then w.sse.events else [], false, parse).0
              && (o.terminal == DoneEvent <==> WholeBody(w.sse) && !w.cancelledAtEnd && !w.stopsInError)
              && (o.terminal == ErrorEvent <==> o.terminal != DoneEvent)
            else
              && o.started == (c.Exchange? && Forwarded(c.messages) != [])
              && o.d == R.Decoded(R.INITIAL, if c.Exchange? then Forwarded(c.messages) else [], false, parse).0
              && (o.terminal == DoneEvent <==>
                    c.Exchange? && (exists k: nat :: CompletesAt(c.messages, k)) && !w.cancelledAtEnd && !w.stopsInError)
              && (o.terminal == ErrorEvent <==> o.terminal != DoneEvent)
  {
    hide LastAttempt, R.EventRead, BreaksDown, CompletesAt, Connected;
    LastExactly(w, parse);
    SseOnlyIfSilent(w, parse);
    if w.sse.Body? {
      DecodedEnds(R.INITIAL, w.sse.events, false, parse);
    }
  }

  lemma SseOnlyIfSilent(w: World, parse: string -> Value)
    ensures var a := LastAttempt(w, R.INITIAL, parse);
            && (IsSilent(LastConnection(w)) <==> a.error == Some(TransportError) && a.forwarded == 0)
            && (IsSilent(LastConnection(w)) ==> a.d == R.INITIAL)
  {
    hide LastAttempt, R.EventRead, Connected;
    LastIsLast(w, R.INITIAL, parse);
    ForwardedExactly(LastConnection(w), R.INITIAL, parse);
  }

  /** The block events among what a consumer sees. */
  function BlocksIn(log: seq<OutEvent>): seq<BlockEvent>
    decreases |log|
  {
    if log == [] then []
    else BlocksIn(log[..|log| - 1]) + if log[|log| - 1].BlockUpdate? then [log[|log| - 1].event] else []
  }

  lemma {:induction false} BlocksInBlocks(start: seq<OutEvent>, es: seq<BlockEvent>)
    requires BlocksIn(start) == []
    ensures BlocksIn(start + Blocks(es)) == es
    decreases |es|
  {
    var log := start + Blocks(es);
    if es == [] {
      assert log == start;
    } else {
      var before := es[..|es| - 1];
      BlocksInBlocks(start, before);
      assert log[..|log| - 1] == start + Blocks(before);
    }
  }

  /** The consumer sees all the block events of the message, and no others; a start event exactly if one was pushed. */
  lemma LogShowsAll(started: bool, d: R.State, terminal: OutEvent)
    requires terminal == DoneEvent || terminal == ErrorEvent
    ensures var log := Log(started, d, terminal);
            && log != [] && log[|log| - 1] == terminal && BlocksIn(log) == d.out.events
            && (StartEvent in log <==> started)
  {
    var start := if started then [StartEvent] else [];
    var log := Log(started, d, terminal);
    assert start[..0] == [] && (started ==> start[..|start| - 1] == []);
    BlocksInBlocks(start, d.out.events);
    assert log[..|log| - 1] == start + Blocks(d.out.events);
    assert started ==> log[0] == StartEvent;
  }

  // ----- The memory of sessions --------------------------------------------------------------------

  /** The request's session falls back, whatever happens later: the last connection that it would make breaks down. */
  ghost predicate FallsBack(q: Request, w: World) {
    !q.sseOnly && q.session != "" && !w.cancelledAtDecision && BreaksDown(LastConnection(w))
  }

  lemma RecordedExactly(q: Request, w: World, parse: string -> Value)
    requires !q.sseOnly
    ensures Recorded(q, w, LastAttempt(w, R.INITIAL, parse)) == if FallsBack(q, w) then {q.session} else {}
  {
    hide LastAttempt, BreaksDown;
    LastExactly(w, parse);
  }

  /** Requests in flight at once: each looks at the memory when it starts, and records when it gives up its WebSocket. */
  datatype Op = Starts(r: nat) | GivesUp(r: nat)

  /** The sessions remembered, and the requests that have started to dial. */
  datatype Memory = Memory(fallback: set<string>, dialling: set<nat>)

  predicate InRange(n: nat, ops: seq<Op>) { forall k | 0 <= k < |ops| :: ops[k].r < n }

  function Remembered(rs: seq<(Request, World)>, ops: seq<Op>, parse: string -> Value): Memory
    requires InRange(|rs|, ops)
    decreases |ops|
  {
    if ops == [] then Memory({}, {})
    else
      var m := Remembered(rs, ops[..|ops| - 1], parse);
      var r := ops[|ops| - 1].r;
      var (q, w) := rs[r];
      match ops[|ops| - 1]
      case Starts(_) => if DialsWebSocket(m.fallback, q) then m.(dialling := m.dialling + {r}) else m
      case GivesUp(_) =>
        if r in m.dialling then m.(fallback := m.fallback + Recorded(q, w, LastAttempt(w, R.INITIAL, parse))) else m
  }

  /** Request r of the session gives up in the first n operations, after it started, and falls back. */
  ghost predicate HasFallen(rs: seq<(Request, World)>, ops: seq<Op>, n: nat, session: string)
    requires InRange(|rs|, ops) && n <= |ops|
  {
    exists p: nat, i: nat :: i < p < n && FellAt(rs, ops, i, p, session)
  }

  ghost predicate FellAt(rs: seq<(Request, World)>, ops: seq<Op>, i: nat, p: nat, session: string)
    requires InRange(|rs|, ops) && i < p < |ops|
  {
    && ops[i] == Starts(ops[p].r) && ops[p].GivesUp?
    && rs[ops[p].r].0.session == session && FallsBack(rs[ops[p].r].0, rs[ops[p].r].1)
  }

  lemma RememberedNext(rs: seq<(Request, World)>, ops: seq<Op>, n: nat, parse: string -> Value)
    requires InRange(|rs|, ops) && n < |ops|
    ensures InRange(|rs|, ops[..n]) && InRange(|rs|, ops[..n + 1])
    ensures var m, t, r := Remembered(rs, ops[..n], parse), Remembered(rs, ops[..n + 1], parse), ops[n].r; var (q, w) := rs[r];
            match ops[n]
            case Starts(_) => t == if DialsWebSocket(m.fallback, q) then m.(dialling := m.dialling + {r}) else m
            case GivesUp(_) =>
              t == if r in m.dialling then m.(fallback := m.fallback + Recorded(q, w, LastAttempt(w, R.INITIAL, parse))) else m
  {
    assert ops[..n + 1][..n] == ops[..n];
  }

  /** What is remembered or dialling stays so. */
  lemma {:induction false} MemoryGrows(rs: seq<(Request, World)>, ops: seq<Op>, i: nat, n: nat, parse: string -> Value)
    requires InRange(|rs|, ops) && i <= n <= |ops|
    ensures InRange(|rs|, ops[..i]) && InRange(|rs|, ops[..n])
    ensures Remembered(rs, ops[..i], parse).fallback <= Remembered(rs, ops[..n], parse).fallback
    ensures Remembered(rs, ops[..i], parse).dialling <= Remembered(rs, ops[..n], parse).dialling
    decreases n
  {
    hide Remembered, LastAttempt;
    if i < n {
      RememberedNext(rs, ops, n - 1, parse);
      MemoryGrows(rs, ops, i, n - 1, parse);
    }
  }

  /** Whoever dials has started, over a WebSocket. */
  lemma {:induction false} DiallingStarted(rs: seq<(Request, World)>, ops: seq<Op>, n: nat, r: nat, parse: string -> Value)
      returns (i: nat)
    requires InRange(|rs|, ops) && n <= |ops| && InRange(|rs|, ops[..n]) && r in Remembered(rs, ops[..n], parse).dialling
    ensures i < n && ops[i] == Starts(r) && r < |rs| && !rs[r].0.sseOnly
    decreases n
  {
    hide Remembered, LastAttempt;
    if n == 0 {
      NothingRemembered(rs, ops, parse);
      assert false;
    } else {
      RememberedNext(rs, ops, n - 1, parse);
      if r in Remembered(rs, ops[..n - 1], parse).dialling {
        i := DiallingStarted(rs, ops, n - 1, r, parse);
      } else {
        i := n - 1;
      }
    }
  }

  lemma NothingRemembered(rs: seq<(Request, World)>, ops: seq<Op>, parse: string -> Value)
    requires InRange(|rs|, ops)
    ensures InRange(|rs|, ops[..0]) && Remembered(rs, ops[..0], parse) == Memory({}, {})
  {
  }

  /** However requests interleave, a session is remembered exactly if an earlier request of it has fallen back. */
  lemma {:induction false} RememberedExactly(rs: seq<(Request, World)>, ops: seq<Op>, n: nat, session: string, parse: string -> Value)
    requires InRange(|rs|, ops) && n <= |ops|
    ensures InRange(|rs|, ops[..n])
    ensures session in Remembered(rs, ops[..n], parse).fallback <==> HasFallen(rs, ops, n, session)
    decreases n
  {
    hide Remembered, LastAttempt, BreaksDown, FallsBack, Recorded;
    if n == 0 {
      NothingRemembered(rs, ops, parse);
    } else {
      var op, r := ops[n - 1], ops[n - 1].r;
      RememberedNext(rs, ops, n - 1, parse);
      RememberedExactly(rs, ops, n - 1, session, parse);
      var m := Remembered(rs, ops[..n - 1], parse);
      if op.GivesUp? && r in m.dialling {
        var i := DiallingStarted(rs, ops, n - 1, r, parse);
        RecordedExactly(rs[r].0, rs[r].1, parse);
        assert rs[r].0.session == session && FallsBack(rs[r].0, rs[r].1) ==> FellAt(rs, ops, i, n - 1, session);
      }
      if p: nat, i: nat :| i < p < n && FellAt(rs, ops, i, p, session) {
        if p == n - 1 && session !in m.fallback {
          StartedDials(rs, ops, i, p, session, parse);
        }
      }
    }
  }

  /** A request that started while its session was not remembered is dialling. */
  lemma StartedDials(rs: seq<(Request, World)>, ops: seq<Op>, i: nat, p: nat, session: string, parse: string -> Value)
    requires InRange(|rs|, ops) && i < p < |ops| && FellAt(rs, ops, i, p, session)
    requires InRange(|rs|, ops[..p]) && session !in Remembered(rs, ops[..p], parse).fallback
    ensures ops[p].r in Remembered(rs, ops[..p], parse).dialling
  {
    hide Remembered, LastAttempt, BreaksDown;
    MemoryGrows(rs, ops, i, p, parse);
    RememberedNext(rs, ops, i, parse);
    MemoryGrows(rs, ops, i + 1, p, parse);
  }

  /**
   * However requests interleave, a request makes no WebSocket connection exactly
   * if it asks for SSE, or an earlier request of its session started, and gave up
   * because its last connection broke down, uncancelled.
   */
  lemma FallbackIsForever(rs: seq<(Request, World)>, ops: seq<Op>, n: nat, parse: string -> Value)
    requires InRange(|rs|, ops) && n < |ops| && ops[n].Starts?
    ensures InRange(|rs|, ops[..n])
    ensures var (q, w) := rs[ops[n].r];
            DialCount(Remembered(rs, ops[..n], parse).fallback, q, w, parse) == 0 <==>
              q.sseOnly || (q.session != "" && HasFallen(rs, ops, n, q.session))
  {
    hide Remembered, LastAttempt, HasFallen, Connected;
    RememberedExactly(rs, ops, n, rs[ops[n].r].0.session, parse);
  }

  // ----- One request after the other ---------------------------------------------------------------

  /** The sessions that a client remembers after runs of requests. */
  function AfterRuns(rs: seq<(Request, World)>, parse: string -> Value): set<string>
    decreases |rs|
  {
    if rs == [] then {}
    else
      var before := AfterRuns(rs[..|rs| - 1], parse);
      var (q, w) := rs[|rs| - 1];
      FallbackAfter(before, q, w, LastAttempt(w, R.INITIAL, parse))
  }

  ghost predicate FellBefore(rs: seq<(Request, World)>, n: nat, session: string)
    requires n <= |rs|
  {
    exists p: nat :: p < n && rs[p].0.session == session && FallsBack(rs[p].0, rs[p].1)
  }

  lemma {:induction false} RunsRemember(rs: seq<(Request, World)>, session: string, parse: string -> Value)
    ensures session in AfterRuns(rs, parse) <==> FellBefore(rs, |rs|, session)
    decreases |rs|
  {
    hide LastAttempt, FallsBack, Recorded;
    if rs != [] {
      var before, n := rs[..|rs| - 1], |rs| - 1;
      var (q, w) := rs[n];
      RunsRemember(before, session, parse);
      RunsRemember(before, q.session, parse);
      assert FellBefore(before, n, session) <==> FellBefore(rs, n, session);
      assert FellBefore(before, n, q.session) <==> FellBefore(rs, n, q.session);
      if !q.sseOnly {
        RecordedExactly(q, w, parse);
      } else {
        SseFallsNot(q, w);
      }
      assert rs[n].0.session == session && FallsBack(q, w) ==> FellBefore(rs, |rs|, session);
    }
  }

  lemma SseFallsNot(q: Request, w: World)
    requires q.sseOnly
    ensures !FallsBack(q, w)
  {
  }

  /**
   * One run after the other: a request makes no WebSocket connection exactly if
   * it asks for SSE, or an earlier request of its session, one that did not ask
   * for SSE and was not cancelled, met a last connection that breaks down.
   */
  lemma DialsExactly(rs: seq<(Request, World)>, n: nat, parse: string -> Value)
    requires n < |rs|
    ensures var (q, w) := rs[n];
            DialCount(AfterRuns(rs[..n], parse), q, w, parse) == 0 <==>
              q.sseOnly || (q.session != "" && FellBefore(rs, n, q.session))
  {
    hide LastAttempt, FallsBack, AfterRuns, Connected;
    var session := rs[n].0.session;
    RunsRemember(rs[..n], session, parse);
    assert FellBefore(rs[..n], n, session) <==> FellBefore(rs, n, session);
  }
}
