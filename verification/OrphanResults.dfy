/**
 * The last pass of a replay: failed turns go, and every tool call that its turn
 * leaves without a result gets a synthetic one.
 */
module OrphanResults {
  import opened Wrappers
  import opened Conversation

  const NO_RESULT := Some([Text("No result provided", "")])

  /** Where an output message comes from: an input message, or a call of one. */
  datatype Entry = Kept(at: nat) | Synthetic(at: nat, call: nat)

  /** The turn that is open: its position, its calls and the ids answered so far. */
  datatype Turn = Turn(at: nat, pending: seq<ToolCall>, answered: set<string>)

  const NO_TURN := Turn(0, [], {})

  /** The results that the calls from k on lack. */
  function Missing(t: Turn, k: nat): seq<Entry>
    requires k <= |t.pending|
    decreases |t.pending| - k
  {
    if k == |t.pending| then []
    else (if t.pending[k].id in t.answered then [] else [Synthetic(t.at, k)]) + Missing(t, k + 1)
  }

  /** What the pass adds when it reaches message i. */
  function Added(all: seq<Message>, i: nat, t: Turn): seq<Entry>
    requires i < |all|
  {
    (if all[i].ToolResult? then [] else Missing(t, 0)) + (if IsFailedTurn(all[i]) then [] else [Kept(i)])
  }

  /** The open turn after message i. */
  function Next(all: seq<Message>, i: nat, t: Turn): Turn
    requires i < |all|
  {
    match all[i]
    case User(_, _, _) => NO_TURN
    case ToolResult(id, _, _, _, _) => t.(answered := t.answered + {id})
    case Assistant(_, _, _, _, _, _) => if IsFailedTurn(all[i]) then NO_TURN else Turn(i, Calls(all[i]), {})
  }

  /** What the pass adds for the messages from i on. */
  function Insert(all: seq<Message>, i: nat, t: Turn): seq<Entry>
    requires i <= |all|
    decreases |all| - i
  {
    if i == |all| then Missing(t, 0)
    else Added(all, i, t) + Insert(all, i + 1, Next(all, i, t))
  }

  predicate Refers(all: seq<Message>, e: Entry) {
    e.at < |all| && (e.Synthetic? ==> e.call < |Calls(all[e.at])|)
  }

  function SyntheticResult(c: ToolCall, now: int): Message {
    ToolResult(c.id, c.name, NO_RESULT, true, now)
  }

  function Realized(all: seq<Message>, e: Entry, now: int): Message
    requires Refers(all, e)
  {
    match e
    case Kept(i) => all[i]
    case Synthetic(i, k) => SyntheticResult(Calls(all[i])[k], now)
  }

  function RealizedAll(all: seq<Message>, es: seq<Entry>, now: int): (r: seq<Message>)
    requires forall e | e in es :: Refers(all, e)
    ensures |r| == |es|
    ensures forall k | 0 <= k < |es| :: r[k] == Realized(all, es[k], now)
  {
    if es == [] then [] else [Realized(all, es[0], now)] + RealizedAll(all, es[1..], now)
  }

  predicate TurnIn(all: seq<Message>, i: nat, t: Turn) {
    t.pending != [] ==> t.at < i <= |all| && t.pending == Calls(all[t.at])
  }

  lemma {:induction false} MissingRefers(all: seq<Message>, i: nat, t: Turn, k: nat)
    requires TurnIn(all, i, t) && k <= |t.pending|
    ensures forall e | e in Missing(t, k) :: Refers(all, e)
    decreases |t.pending| - k
  {
    if k < |t.pending| {
      MissingRefers(all, i, t, k + 1);
    }
  }

  lemma {:induction false} InsertRefers(all: seq<Message>, i: nat, t: Turn)
    requires i <= |all| && TurnIn(all, i, t)
    ensures forall e | e in Insert(all, i, t) :: Refers(all, e)
    decreases |all| - i
  {
    MissingRefers(all, i, t, 0);
    if i < |all| {
      InsertRefers(all, i + 1, Next(all, i, t));
    }
  }

  /** The messages that the pass returns. */
  function Closed(all: seq<Message>, now: int): seq<Message> {
    InsertRefers(all, 0, NO_TURN);
    RealizedAll(all, Insert(all, 0, NO_TURN), now)
  }

  // ----- The loop -------------------------------------------------------------------------

  class Inserter {
    const now: int
    ghost const all: seq<Message>
    var result: seq<Message>
    var pendingToolCalls: seq<ToolCall>
    var existingToolResultIds: set<string>
    ghost var entries: seq<Entry>
    ghost var at: nat

    constructor (ghost all: seq<Message>, now: int)
      ensures this.all == all && this.now == now && Valid(0) && Open() == NO_TURN && entries == []
    {
      this.now, this.all := now, all;
      result, pendingToolCalls, existingToolResultIds := [], [], {};
      entries, at := [], 0;
    }

    ghost function Open(): Turn reads this { Turn(at, pendingToolCalls, existingToolResultIds) }

    ghost predicate Valid(i: nat)
      reads this
    {
      && i <= |all| && TurnIn(all, i, Open())
      && (forall e | e in entries :: Refers(all, e))
      && result == RealizedAll(all, entries, now)
    }

    method Append(m: Message, ghost e: Entry, ghost i: nat)
      requires Valid(i) && Refers(all, e) && m == Realized(all, e, now)
      modifies this`result, this`entries
      ensures Valid(i) && entries == old(entries) + [e]
    {
      result := result + [m];
      entries := entries + [e];
    }

    method Flush(ghost i: nat)
      requires Valid(i)
      modifies this
      ensures Valid(i) && Open() == NO_TURN
      ensures entries == old(entries) + Missing(old(Open()), 0)
    {
      hide RealizedAll, CallsIn;
      ghost var t, before := Open(), entries;
      for k := 0 to |pendingToolCalls|
        invariant Valid(i) && Open() == t
        invariant before + Missing(t, 0) == entries + Missing(t, k)
      {
        if pendingToolCalls[k].id !in existingToolResultIds {
          MissingRefers(all, i, t, k);
          Append(SyntheticResult(pendingToolCalls[k], now), Synthetic(at, k), i);
        }
      }
      pendingToolCalls, existingToolResultIds, at := [], {}, 0;
    }

    method Visit(m: Message, i: nat)
      requires Valid(i) && i < |all| && all[i] == m
      modifies this
      ensures Valid(i + 1) && Open() == Next(all, i, old(Open()))
      ensures entries == old(entries) + Added(all, i, old(Open()))
    {
      hide Missing, RealizedAll, CallsIn;
      match m
      case Assistant(_, _, _, _, _, _) =>
        Flush(i);
        if IsFailedTurn(m) {
          return;
        }
        var toolCalls := Calls(m);
        if |toolCalls| > 0 {
          pendingToolCalls := toolCalls;
          existingToolResultIds := {};
        }
        at := i;
        Append(m, Kept(i), i + 1);
      case ToolResult(id, _, _, _, _) =>
        existingToolResultIds := existingToolResultIds + {id};
        Append(m, Kept(i), i + 1);
      case User(_, _, _) =>
        Flush(i);
        Append(m, Kept(i), i + 1);
    }
  }

  method InsertOrphanToolResults(messages: seq<Message>, now: int) returns (r: seq<Message>)
    ensures r == Closed(messages, now)
  {
    hide Missing, RealizedAll, Realized, Added, Next, Refers, CallsIn;
    var s := new Inserter(messages, now);
    for i := 0 to |messages|
      invariant fresh(s) && s.all == messages && s.now == now && s.Valid(i)
      invariant Insert(messages, 0, NO_TURN) == s.entries + Insert(messages, i, s.Open())
    {
      ghost var before, rest := s.entries, Insert(messages, i + 1, Next(messages, i, s.Open()));
      ghost var added := Added(messages, i, s.Open());
      assert before + (added + rest) == (before + added) + rest;
      s.Visit(messages[i], i);
    }
    s.Flush(|messages|);
    r := s.result;
  }
}
