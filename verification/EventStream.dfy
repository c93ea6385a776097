/**
 * The unified stream: an unbounded queue that producers push to and that the
 * first terminal event, or an explicit End, completes.
 */
module EventStream {
  import opened Wrappers

  /** The final assistant message of a stream. */
  datatype Message = Message(stopReason: string, errorMessage: string)

  datatype Event =
    | Update(payload: string)
    | Done(message: Message)
    | Error(message: Message)

  predicate IsTerminal(e: Event) { !e.Update? }

  function EventResult(e: Event): Option<Message> {
    match e
    case Update(_) => None
    case Done(m) => Some(m)
    case Error(m) => Some(m)
  }

  /** The fields that the stream's mutex guards. */
  datatype State = State(queue: seq<Event>, done: bool, result: Option<Message>)

  const OPEN := State([], false, None)

  function Pushed(s: State, e: Event): State {
    if s.done then s
    else if IsTerminal(e) then State(s.queue + [e], true, EventResult(e))
    else s.(queue := s.queue + [e])
  }

  function Ended(s: State, result: Option<Message>): State {
    if s.done then s else s.(done := true, result := result)
  }

  /** One pass of next's loop: an event, the end of the stream, or nothing to return yet. */
  datatype Pass = Event(event: Event) | Over | Wait

  function NextPass(s: State, cancelled: bool): Pass {
    if cancelled then Over
    else if s.queue != [] then Pass.Event(s.queue[0])
    else if s.done then Over
    else Wait
  }

  function Popped(s: State): State
    requires s.queue != []
  {
    s.(queue := s.queue[1..])
  }

  // ----- The calls that completed it ------------------------------------------------------

  /** A call of Push or of End. */
  datatype Call = Pushes(event: Event) | Ends(result: Option<Message>)

  /** What the first completing call of a history leaves as the result; None while the stream is open. */
  function Outcome(calls: seq<Call>): Option<Option<Message>> {
    if calls == [] then None
    else match calls[0]
      case Pushes(e) => if IsTerminal(e) then Some(EventResult(e)) else Outcome(calls[1..])
      case Ends(r) => Some(r)
  }

  /** What comes after the completing call does not matter. */
  lemma {:induction false} OutcomeNext(calls: seq<Call>, c: Call)
    ensures Outcome(calls + [c]) == if Outcome(calls).Some? then Outcome(calls) else Outcome([c])
  {
    if calls == [] {
      assert calls + [c] == [c];
    } else {
      assert (calls + [c])[1..] == calls[1..] + [c];
      OutcomeNext(calls[1..], c);
    }
  }

  lemma {:induction false} OutcomeIsFinal(calls: seq<Call>, more: seq<Call>)
    requires Outcome(calls).Some?
    ensures Outcome(calls + more) == Outcome(calls)
    decreases |more|
  {
    if more == [] {
      assert calls + more == calls;
    } else {
      OutcomeNext(calls, more[0]);
      OutcomeIsFinal(calls + [more[0]], more[1..]);
      assert (calls + [more[0]]) + more[1..] == calls + more;
    }
  }

  /** Call k is the first End or terminal event among the calls. */
  predicate CompletesAt(calls: seq<Call>, k: nat) {
    && k < |calls| && (calls[k].Ends? || calls[k].event.Done? || calls[k].event.Error?)
    && forall j | 0 <= j < k :: calls[j].Pushes? && calls[j].event.Update?
  }

  /** The outcome is the completing call's message, and without such a call there is none. */
  lemma {:induction false} OutcomeIsFirst(calls: seq<Call>)
    ensures forall k: nat | CompletesAt(calls, k) ::
              match calls[k]
              case Pushes(Done(m)) => Outcome(calls) == Some(Some(m))
              case Pushes(Error(m)) => Outcome(calls) == Some(Some(m))
              case Ends(r) => Outcome(calls) == Some(r)
              case _ => false
    ensures Outcome(calls).Some? ==> exists k: nat :: CompletesAt(calls, k)
    decreases |calls|
  {
    if calls != [] {
      var rest := calls[1..];
      if calls[0].Pushes? && calls[0].event.Update? {
        OutcomeIsFirst(rest);
        forall k: nat | CompletesAt(calls, k) ensures k > 0 && CompletesAt(rest, k - 1) && rest[k - 1] == calls[k] {
        }
        if Outcome(rest).Some? {
          var k: nat :| CompletesAt(rest, k);
          assert forall j | 0 <= j < k + 1 :: j > 0 ==> calls[j] == rest[j - 1];
          assert CompletesAt(calls, k + 1);
        }
      } else {
        assert CompletesAt(calls, 0);
      }
    }
  }

  /** What Result returns. */
  datatype Answer = Final(message: Message) | WithoutResult | ContextCancelled

  class Stream {
    ghost var history: seq<Call>
    var queue: seq<Event>
    var done: bool
    var result: Option<Message>
    var resultClosed: bool

    /** The result channel closes exactly when the stream is done, and the first completing call set the result. */
    ghost predicate Valid() reads this {
      && resultClosed == done && (!done ==> result.None?)
      && Outcome(history) == if done then Some(result) else None
    }

    ghost function Abstract(): State reads this { State(queue, done, result) }

    constructor ()
      ensures Valid() && Abstract() == OPEN && history == []
    {
      history, queue, done, result, resultClosed := [], [], false, None, false;
    }

    method Push(e: Event)
      requires Valid()
      modifies this
      ensures Valid() && Abstract() == Pushed(old(Abstract()), e) && history == old(history) + [Pushes(e)]
    {
      OutcomeNext(history, Pushes(e));
      history := history + [Pushes(e)];
      if done {
        return;
      }
      if IsTerminal(e) {
        done := true;
        result := EventResult(e);
        resultClosed := true;
      }
      queue := queue + [e];
    }

    method End(finalResult: Option<Message>)
      requires Valid()
      modifies this
      ensures Valid() && Abstract() == Ended(old(Abstract()), finalResult) && history == old(history) + [Ends(finalResult)]
    {
      OutcomeNext(history, Ends(finalResult));
      history := history + [Ends(finalResult)];
      if done {
        return;
      }
      done := true;
      result := finalResult;
      resultClosed := true;
    }

    /** next, up to the point where it would sleep on the condition variable. */
    method TryNext(cancelled: bool) returns (r: Pass)
      requires Valid()
      modifies this`queue
      ensures Valid() && r == NextPass(old(Abstract()), cancelled)
      ensures Abstract() == if r.Event? then Popped(old(Abstract())) else old(Abstract())
    {
      if cancelled {
        return Over;
      }
      if |queue| > 0 {
        r := Pass.Event(queue[0]);
        queue := queue[1..];
        return;
      }
      if done {
        return Over;
      }
      r := Wait;
    }

    /**
     * Result, once the select over the result channel and the context can go on;
     * when both are ready either branch may be taken.
     */
    method Result(cancelled: bool, takesCancel: bool) returns (r: Answer)
      requires Valid() && (resultClosed || cancelled)
      ensures forall k: nat | CompletesAt(history, k) && !(cancelled && takesCancel) ::
                match history[k]
                case Pushes(Done(m)) => r == Final(m)
                case Pushes(Error(m)) => r == Final(m)
                case Ends(Some(m)) => r == Final(m)
                case Ends(None) => r == WithoutResult
                case _ => false
      ensures !r.ContextCancelled? ==> exists k: nat :: CompletesAt(history, k)
      ensures r.Final? ==> Outcome(history) == Some(Some(r.message))
      ensures r.WithoutResult? ==> Outcome(history) == Some(None)
      ensures r.ContextCancelled? ==> cancelled
      ensures cancelled && (takesCancel || Outcome(history).None?) ==> r.ContextCancelled?
    {
      OutcomeIsFirst(history);
      if cancelled && (takesCancel || !resultClosed) {
        return ContextCancelled;
      }
      if result.None? {
        return WithoutResult;
      }
      r := Final(result.value);
    }
  }
}
