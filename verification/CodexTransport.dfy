/**
 * One Codex request: the WebSocket transport with its one retry, the fallback to
 * SSE, and the memory of the sessions that have fallen back.
 */
module CodexTransport {
  import opened Wrappers
  import opened JsonText
  import opened BlockEvents
  import R = ResponsesDecoder

  /** A WebSocket message, as it is classified before it is forwarded. */
  datatype Message = BadJson | InBandError(code: string) | Frame(event: R.RawEvent)

  /** After the messages the read fails, unless a terminal frame came before. */
  datatype Connection = DialFails | SendFails | Exchange(messages: seq<Message>)

  datatype SseResponse = RequestFails | Body(events: seq<R.RawEvent>, readFails: bool)

  /** What the network answers, and whether the context is cancelled at each place that asks. */
  datatype World = World(
    first: Connection, second: Connection, sse: SseResponse,
    cancelledAtRetry: bool, cancelledAtDecision: bool, cancelledAtEnd: bool,
    stopsInError: bool)       // the final response carries an error or aborted status

  datatype Request = Request(session: string, sseOnly: bool)

  datatype WsError = ApiError(code: string) | ProtocolError | TransportError

  const LIMIT_REACHED := "websocket_connection_limit_reached"

  datatype OutEvent = StartEvent | BlockUpdate(event: BlockEvent) | DoneEvent | ErrorEvent

  // ----- One connection ---------------------------------------------------------------------

  datatype Attempt = Attempt(forwarded: nat, error: Option<WsError>, d: R.State)

  /** The frames up to the terminal one are decoded; the first bad message or the failing read ends it. */
  function Exchanged(messages: seq<Message>, n: nat, d: R.State, parse: string -> Value): (r: Attempt)
    requires R.SlotsFit(d)
    ensures R.SlotsFit(r.d) && n <= r.forwarded && (r.error.None? ==> n < r.forwarded)
    ensures r.forwarded == n ==> r.d == d
    decreases |messages|
  {
    if messages == [] then Attempt(n, Some(TransportError), d)
    else match messages[0]
      case BadJson => Attempt(n, Some(ProtocolError), d)
      case InBandError(code) => Attempt(n, Some(ApiError(code)), d)
      case Frame(e) =>
        var d' := R.EventRead(d, e, parse);
        if e.Completed? then Attempt(n + 1, None, d')
        else if e.Failed? then Attempt(n + 1, Some(TransportError), d')
        else Exchanged(messages[1..], n + 1, d', parse)
  }

  function Connected(c: Connection, d: R.State, parse: string -> Value): (r: Attempt)
    requires R.SlotsFit(d)
    ensures R.SlotsFit(r.d) && (r.error.None? ==> 0 < r.forwarded) && (r.forwarded == 0 ==> r.d == d)
  {
    if c.Exchange? then Exchanged(c.messages, 0, d, parse) else Attempt(0, Some(TransportError), d)
  }

  /** The connection limit, reported before anything was forwarded, is tried again once. */
  predicate Retries(w: World, r: Attempt) {
    r.error == Some(ApiError(LIMIT_REACHED)) && r.forwarded == 0 && !w.cancelledAtRetry
  }

  function LastAttempt(w: World, d: R.State, parse: string -> Value): (r: Attempt)
    requires R.SlotsFit(d)
    ensures R.SlotsFit(r.d) && (r.error.None? ==> 0 < r.forwarded) && (r.forwarded == 0 ==> r.d == d)
  {
    var r := Connected(w.first, d, parse);
    if Retries(w, r) then Connected(w.second, d, parse) else r
  }

  // ----- The whole request -----------------------------------------------------------------

  predicate DialsWebSocket(fallback: set<string>, q: Request) {
    !q.sseOnly && !(q.session != "" && q.session in fallback)
  }

  /** A failure of the transport itself, in a request that was not cancelled. */
  predicate TransportFailed(w: World, a: Attempt) { a.error == Some(TransportError) && !w.cancelledAtDecision }

  predicate UsesSse(fallback: set<string>, q: Request, w: World, a: Attempt) {
    !DialsWebSocket(fallback, q) || (TransportFailed(w, a) && a.forwarded == 0)
  }

  /** The session that an attempt records. */
  function Recorded(q: Request, w: World, a: Attempt): set<string> {
    if q.session != "" && TransportFailed(w, a) then {q.session} else {}
  }

  function FallbackAfter(fallback: set<string>, q: Request, w: World, a: Attempt): set<string> {
    if DialsWebSocket(fallback, q) then fallback + Recorded(q, w, a) else fallback
  }

  function DialCount(fallback: set<string>, q: Request, w: World, parse: string -> Value): (n: nat)
    ensures n <= 2
  {
    if !DialsWebSocket(fallback, q) then 0
    else if Retries(w, Connected(w.first, R.INITIAL, parse)) then 2 else 1
  }

  function Blocks(es: seq<BlockEvent>): (r: seq<OutEvent>)
    ensures |r| == |es| && forall k | 0 <= k < |es| :: r[k] == BlockUpdate(es[k])
  {
    seq(|es|, k requires 0 <= k < |es| => BlockUpdate(es[k]))
  }

  /** Everything a consumer sees: at most one start, first; the blocks; one terminal event, last. */
  function Log(started: bool, d: R.State, terminal: OutEvent): seq<OutEvent> {
    (if started then [StartEvent] else []) + Blocks(d.out.events) + [terminal]
  }

  function Ending(w: World): OutEvent { if w.cancelledAtEnd || w.stopsInError then ErrorEvent else DoneEvent }

  datatype Outcome = Outcome(started: bool, d: R.State, terminal: OutEvent)

  function SseRun(w: World, d: R.State, parse: string -> Value): Outcome
    requires R.SlotsFit(d)
  {
    match w.sse
    case RequestFails => Outcome(false, d, ErrorEvent)
    case Body(events, readFails) =>
      var (d', ending) := R.Decoded(d, events, false, parse);
      Outcome(true, d', if readFails || ending != R.Read then ErrorEvent else Ending(w))
  }

  function Ran(fallback: set<string>, q: Request, w: World, parse: string -> Value): Outcome {
    if !DialsWebSocket(fallback, q) then SseRun(w, R.INITIAL, parse)
    else
      var a := LastAttempt(w, R.INITIAL, parse);
      if a.error.None? then Outcome(true, a.d, Ending(w))
      else if TransportFailed(w, a) && a.forwarded == 0 then SseRun(w, a.d, parse)
      else Outcome(a.forwarded > 0, a.d, ErrorEvent)
  }

  // ----- The code ------------------------------------------------------------------------------

  /** New blocks are pushed behind the ones before. */
  lemma EventReadExtends(d: R.State, e: R.RawEvent, parse: string -> Value)
    requires R.SlotsFit(d)
    ensures d.out.events <= R.EventRead(d, e, parse).out.events
  {
  }

  lemma BlocksExtend(a: seq<BlockEvent>, b: seq<BlockEvent>)
    requires a <= b
    ensures Blocks(a) + Blocks(b[|a|..]) == Blocks(b)
  {
  }

  lemma Regroup(a: seq<OutEvent>, b: seq<OutEvent>, c: seq<OutEvent>)
    ensures (a + b) + c == a + (b + c)
  {
  }

  class Client {
    const parse: string -> Value
    var fallback: set<string>         // sessions, for the life of the process
    var events: seq<OutEvent>         // what the current request has pushed
    var d: R.State                    // its message so far
    var dials: nat

    constructor (parse: string -> Value)
      ensures fallback == {} && this.parse == parse
    {
      this.parse, fallback, events, d, dials := parse, {}, [], R.INITIAL, 0;
    }

    /** What has been pushed before the terminal event. */
    ghost predicate Pushed(started: bool)
      reads this
    {
      R.SlotsFit(d) && events == (if started then [StartEvent] else []) + Blocks(d.out.events)
    }

    method Forward(e: R.RawEvent)
      requires Pushed(true)
      modifies this`d, this`events
      ensures Pushed(true) && d == R.EventRead(old(d), e, parse)
    {
      hide R.EventRead, R.SlotsFit;
      EventReadExtends(d, e, parse);
      var next := R.EventRead(d, e, parse);
      BlocksExtend(d.out.events, next.out.events);
      var more := Blocks(next.out.events[|d.out.events|..]);
      Regroup([StartEvent], Blocks(d.out.events), more);
      hide Blocks;
      events := events + more;
      d := next;
    }

    method ProcessWebSocket(c: Connection) returns (forwarded: nat, error: Option<WsError>)
      requires Pushed(false) && d == R.INITIAL
      modifies this`d, this`events, this`dials
      ensures Attempt(forwarded, error, d) == Connected(c, R.INITIAL, parse)
      ensures Pushed(forwarded > 0) && dials == old(dials) + 1
    {
      hide R.EventRead;
      dials := dials + 1;
      forwarded := 0;
      if !c.Exchange? {
        return 0, Some(TransportError);
      }
      for k := 0 to |c.messages|
        invariant Pushed(forwarded > 0) && dials == old(dials) + 1 && (forwarded == 0 ==> d == R.INITIAL)
        invariant Exchanged(c.messages, 0, R.INITIAL, parse) == Exchanged(c.messages[k..], forwarded, d, parse)
      {
        assert c.messages[k..][0] == c.messages[k] && c.messages[k..][1..] == c.messages[k + 1..];
        match c.messages[k]
        case BadJson => return forwarded, Some(ProtocolError);
        case InBandError(code) => return forwarded, Some(ApiError(code));
        case Frame(e) =>
          if forwarded == 0 {
            events := events + [StartEvent];
          }
          Forward(e);
          forwarded := forwarded + 1;
          if e.Completed? {
            return forwarded, None;
          }
          if e.Failed? {
            return forwarded, Some(TransportError);
          }
      }
      error := Some(TransportError);
    }

    method AttemptWebSocket(w: World) returns (forwarded: nat, error: Option<WsError>)
      requires Pushed(false) && d == R.INITIAL
      modifies this`d, this`events, this`dials
      ensures Attempt(forwarded, error, d) == LastAttempt(w, R.INITIAL, parse)
      ensures Pushed(forwarded > 0)
      ensures dials == old(dials) + if Retries(w, Connected(w.first, R.INITIAL, parse)) then 2 else 1
    {
      hide Connected;
      forwarded, error := ProcessWebSocket(w.first);
      if error.None? {
        return;
      }
      if !w.cancelledAtRetry && forwarded == 0 && error.value == ApiError(LIMIT_REACHED) {
        forwarded, error := ProcessWebSocket(w.second);
      }
    }

    method RecordFallback(session: string)
      modifies this`fallback
      ensures fallback == if session == "" then old(fallback) else old(fallback) + {session}
    {
      if session == "" {
        return;
      }
      fallback := fallback + {session};
    }

    /** Returns whether the request is resolved, so that SSE is not to be tried. */
    method AttemptWebSocketOrFallback(q: Request, w: World) returns (handled: bool)
      requires Pushed(false) && d == R.INITIAL && DialsWebSocket(fallback, q)
      modifies this
      ensures var a := LastAttempt(w, R.INITIAL, parse);
              && fallback == FallbackAfter(old(fallback), q, w, a)
              && handled == !UsesSse(old(fallback), q, w, a)
              && d == a.d
              && (handled ==> events == Log(a.forwarded > 0, a.d, if a.error.None? then Ending(w) else ErrorEvent))
              && (!handled ==> Pushed(false))
      ensures dials == old(dials) + DialCount(old(fallback), q, w, parse)
    {
      hide LastAttempt, Connected;
      var forwarded, error := AttemptWebSocket(w);
      if error.None? {
        events := events + [Ending(w)];
        return true;
      }
      if w.cancelledAtDecision || !error.value.TransportError? {
        events := events + [ErrorEvent];
        return true;
      }
      RecordFallback(q.session);
      if forwarded > 0 {
        events := events + [ErrorEvent];
        return true;
      }
      RecordFallback(q.session);
      handled := false;
    }

    method RunSse(w: World)
      requires Pushed(false) && events == []
      modifies this`events, this`d
      ensures var o := SseRun(w, old(d), parse); d == o.d && events == Log(o.started, o.d, o.terminal)
    {
      hide R.EventRead, R.SlotsFit;
      if w.sse.RequestFails? {
        events := events + [ErrorEvent];
        return;
      }
      events := events + [StartEvent];
      var body := w.sse.events;
      var sawTerminal := false;
      ghost var start := d;
      for k := 0 to |body|
        invariant Pushed(true)
        invariant R.Decoded(start, body, false, parse) == R.Decoded(d, body[k..], sawTerminal, parse)
      {
        assert body[k..][0] == body[k] && body[k..][1..] == body[k + 1..];
        if body[k].Failed? {
          events := events + [ErrorEvent];
          return;
        }
        Forward(body[k]);
        sawTerminal := sawTerminal || body[k].Completed?;
      }
      events := events + [if w.sse.readFails || !sawTerminal then ErrorEvent else Ending(w)];
    }

    method Run(q: Request, w: World)
      modifies this
      ensures var a := LastAttempt(w, R.INITIAL, parse);
              && fallback == FallbackAfter(old(fallback), q, w, a)
              && dials == DialCount(old(fallback), q, w, parse)
      ensures var o := Ran(old(fallback), q, w, parse);
              d == o.d && events == Log(o.started, o.d, o.terminal)
    {
      hide LastAttempt, Connected, SseRun, R.EventRead;
      events, d, dials := [], R.INITIAL, 0;
      assert Blocks([]) == [];
      if !q.sseOnly {
        if q.session != "" && q.session in fallback {
          RecordFallback(q.session);
        } else {
          var handled := AttemptWebSocketOrFallback(q, w);
          if handled {
            return;
          }
        }
      }
      RunSse(w);
    }
  }

  // ----- What a consumer may rely on -----------------------------------------------------------

  predicate IsTerminal(e: OutEvent) { e.DoneEvent? || e.ErrorEvent? }

  /** At most one start event and nothing before it, one terminal event and nothing after it. */
  ghost predicate WellFormed(log: seq<OutEvent>) {
    && log != [] && IsTerminal(log[|log| - 1])
    && (forall k | 0 <= k < |log| - 1 :: !IsTerminal(log[k]))
    && (forall k | 1 <= k < |log| :: !log[k].StartEvent?)
    && (|log| > 1 ==> log[0].StartEvent?)
  }

  /** Every request pushes a well-formed log. */
  lemma EveryLogIsWellFormed(fallback: set<string>, q: Request, w: World, parse: string -> Value)
    ensures var o := Ran(fallback, q, w, parse); WellFormed(Log(o.started, o.d, o.terminal))
  {
    hide R.EventRead, R.Decoded, LastAttempt, R.SlotsFit;
    var o := Ran(fallback, q, w, parse);
    assert !o.started ==> o.d == R.INITIAL;
  }

  // ----- Told from the messages ------------------------------------------------------------------

  /** The first message of the first connection is the limit error, and the request is not cancelled. */
  predicate MeetsLimit(w: World) {
    w.first.Exchange? && w.first.messages != [] && w.first.messages[0] == InBandError(LIMIT_REACHED) && !w.cancelledAtRetry
  }

  function LastConnection(w: World): Connection { if MeetsLimit(w) then w.second else w.first }

  /** The connection does not come about, or brings no message. */
  predicate IsSilent(c: Connection) { !c.Exchange? || c.messages == [] }

  /** Nothing is forwarded exactly if the first message, if there is one, is no frame. */
  lemma ForwardedExactly(c: Connection, d: R.State, parse: string -> Value)
    requires R.SlotsFit(d)
    ensures var r := Connected(c, d, parse);
            && (r.forwarded == 0 <==> IsSilent(c) || !c.messages[0].Frame?)
            && (IsSilent(c) ==> r.error == Some(TransportError))
            && (!IsSilent(c) && c.messages[0].BadJson? ==> r.error == Some(ProtocolError))
            && (!IsSilent(c) && c.messages[0].InBandError? ==> r.error == Some(ApiError(c.messages[0].code)))
  {
    hide R.EventRead, R.SlotsFit;
    if !IsSilent(c) && c.messages[0].Frame? {
      var e := c.messages[0].event;
      if !e.Completed? && !e.Failed? {
        assert Exchanged(c.messages[1..], 1, R.EventRead(d, e, parse), parse).forwarded >= 1;
      }
    }
  }

  lemma LastIsLast(w: World, d: R.State, parse: string -> Value)
    requires R.SlotsFit(d)
    ensures Retries(w, Connected(w.first, d, parse)) <==> MeetsLimit(w)
    ensures LastAttempt(w, d, parse) == Connected(LastConnection(w), d, parse)
  {
    hide Connected, R.SlotsFit;
    ForwardedExactly(w.first, d, parse);
  }

  /**
   * Once a request dials, SSE is used exactly if the last connection, which is
   * the second one after a limit error at once, does not come about or brings no
   * message, and the request is not cancelled by then. Nothing has been
   * forwarded in that case, and the message is still empty.
   */
  lemma SseOnlyAfterSilence(fallback: set<string>, q: Request, w: World, parse: string -> Value)
    requires DialsWebSocket(fallback, q)
    ensures var a := LastAttempt(w, R.INITIAL, parse);
            && (UsesSse(fallback, q, w, a) <==> IsSilent(LastConnection(w)) && !w.cancelledAtDecision)
            && (IsSilent(LastConnection(w)) ==> a.forwarded == 0 && a.d == R.INITIAL)
  {
    hide Connected;
    LastIsLast(w, R.INITIAL, parse);
    ForwardedExactly(LastConnection(w), R.INITIAL, parse);
  }

  /** Message k is malformed or an in-band error, and before it come only frames that end nothing. */
  predicate BreaksAt(messages: seq<Message>, k: nat) {
    && k < |messages| && !messages[k].Frame?
    && forall j | 0 <= j < k :: messages[j].Frame? && !messages[j].event.Completed? && !messages[j].event.Failed?
  }

  function Frames(messages: seq<Message>): (r: seq<R.RawEvent>)
    requires forall m | m in messages :: m.Frame?
    ensures |r| == |messages| && forall k | 0 <= k < |messages| :: r[k] == messages[k].event
  {
    seq(|messages|, k requires 0 <= k < |messages| => messages[k].event)
  }

  function ErrorOf(m: Message): WsError
    requires !m.Frame?
  {
    if m.BadJson? then ProtocolError else ApiError(m.code)
  }

  lemma {:induction false} BrokenExchange(messages: seq<Message>, k: nat, n: nat, d: R.State, parse: string -> Value)
    requires R.SlotsFit(d) && BreaksAt(messages, k)
    ensures forall m | m in messages[..k] :: m.Frame?
    ensures Exchanged(messages, n, d, parse)
         == Attempt(n + k, Some(ErrorOf(messages[k])), R.Decoded(d, Frames(messages[..k]), false, parse).0)
    decreases k
  {
    hide R.EventRead, R.SlotsFit;
    if k > 0 {
      var e := messages[0].event;
      assert BreaksAt(messages[1..], k - 1);
      BrokenExchange(messages[1..], k - 1, n + 1, R.EventRead(d, e, parse), parse);
      assert messages[..k] == [messages[0]] + messages[1..][..k - 1];
      assert Frames(messages[..k])[1..] == Frames(messages[1..][..k - 1]);
    }
  }

  /** Conversely an attempt fails in another way than the transport's only at such a message. */
  lemma {:induction false} OnlyMessagesBreak(messages: seq<Message>, n: nat, d: R.State, parse: string -> Value) returns (k: nat)
    requires R.SlotsFit(d)
    requires var e := Exchanged(messages, n, d, parse).error; e.Some? && !e.value.TransportError?
    ensures BreaksAt(messages, k)
    decreases |messages|
  {
    hide R.EventRead, R.SlotsFit;
    k := 0;
    if messages[0].Frame? {
      var after := OnlyMessagesBreak(messages[1..], n + 1, R.EventRead(d, messages[0].event, parse), parse);
      k := after + 1;
      forall j | 0 <= j < k ensures messages[j].Frame? && !messages[j].event.Completed? && !messages[j].event.Failed? {
        if j > 0 {
          assert messages[1..][j - 1] == messages[j];
        }
      }
    }
  }

  /**
   * An in-band error or malformed JSON in the last connection, before any frame
   * that ends it, ends the request with an error event: the blocks are those of
   * the frames before it, SSE is not tried, and the session is not remembered.
   * Nothing else makes an attempt fail other than as a transport.
   */
  lemma InBandErrorsAreFinal(fallback: set<string>, q: Request, w: World, parse: string -> Value, k: nat)
    requires DialsWebSocket(fallback, q) && LastConnection(w).Exchange? && BreaksAt(LastConnection(w).messages, k)
    ensures forall m | m in LastConnection(w).messages[..k] :: m.Frame?
    ensures var a := LastAttempt(w, R.INITIAL, parse);
            !UsesSse(fallback, q, w, a) && FallbackAfter(fallback, q, w, a) == fallback
    ensures Ran(fallback, q, w, parse)
         == Outcome(k > 0, R.Decoded(R.INITIAL, Frames(LastConnection(w).messages[..k]), false, parse).0, ErrorEvent)
  {
    hide LastAttempt, Exchanged, SseRun, R.Decoded;
    LastIsLast(w, R.INITIAL, parse);
    BrokenExchange(LastConnection(w).messages, k, 0, R.INITIAL, parse);
  }

  /** A second dial happens exactly after a first message that reports the connection limit. */
  lemma SecondDialExactly(fallback: set<string>, q: Request, w: World, parse: string -> Value)
    ensures DialCount(fallback, q, w, parse) == 2 <==> DialsWebSocket(fallback, q) && MeetsLimit(w)
  {
    hide Connected;
    LastIsLast(w, R.INITIAL, parse);
  }

  lemma {:induction false} ExchangedFollows(messages: seq<Message>, n: nat, d: R.State, parse: string -> Value)
    requires R.Follows(d)
    ensures R.Follows(Exchanged(messages, n, d, parse).d)
    decreases |messages|
  {
    hide R.EventRead, R.BlockFollows, Tracks;
    if messages != [] && messages[0].Frame? {
      R.EventReadFollows(d, messages[0].event, parse);
      if !messages[0].event.Completed? && !messages[0].event.Failed? {
        ExchangedFollows(messages[1..], n + 1, R.EventRead(d, messages[0].event, parse), parse);
      }
    }
  }

  /** Whatever transports were used, the block events of the request keep the block protocol. */
  lemma BlocksKeepProtocol(fallback: set<string>, q: Request, w: World, parse: string -> Value)
    ensures R.Follows(Ran(fallback, q, w, parse).d)
  {
    hide R.EventRead, R.Decoded, R.BlockFollows, Exchanged;
    R.InitialFollows();
    if w.first.Exchange? {
      ExchangedFollows(w.first.messages, 0, R.INITIAL, parse);
    }
    if w.second.Exchange? {
      ExchangedFollows(w.second.messages, 0, R.INITIAL, parse);
    }
    if w.sse.Body? {
      R.ResponsesFollow(R.INITIAL, w.sse.events, false, parse);
    }
  }
}
