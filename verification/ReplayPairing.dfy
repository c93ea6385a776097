/** Renaming call ids, and which result belongs to which call. */
module ReplayPairing {
  import opened Wrappers
  import opened Conversation
  import opened OrphanResults
  import opened HistoryClosure
  import opened Replay
  import M = MistralIds

  predicate HasId(calls: seq<ToolCall>, id: string) { exists k :: 0 <= k < |calls| && calls[k].id == id }

  predicate HasCall(m: Message, id: string) { HasId(Calls(m), id) }

  /** A call with the id of result j comes before it. */
  predicate FollowsCall(ms: seq<Message>, j: nat)
    requires j < |ms| && ms[j].ToolResult?
  {
    exists i :: 0 <= i < j && HasCall(ms[i], ms[j].callId)
  }

  /** What the pass makes of the id of a call: the target's own turns keep theirs. */
  function NewName(m: Message, k: nat, target: Target): string
    requires k < |Calls(m)|
  {
    if IsSameModel(m, target) then Calls(m)[k].id else NewId(Calls(m)[k].id, OriginOf(m), target)
  }

  /** Result j belongs to call k of message i. */
  predicate Paired(ms: seq<Message>, i: nat, k: nat, j: nat) {
    i < |ms| && k < |Calls(ms[i])| && j < |ms| && ms[j].ToolResult? && ms[j].callId == Calls(ms[i])[k].id
  }

  // ----- The calls after the pass ---------------------------------------------------------

  lemma {:induction false} PartsCalls(ps: seq<Part>, o: Origin, target: Target)
    ensures var before, after := CallsIn(ps), CallsIn(Parts(ps, o, target));
            && |after| == |before|
            && forall k | 0 <= k < |before| ::
                 after[k].id == if IsOwn(o, target) then before[k].id else NewId(before[k].id, o, target)
  {
    if ps != [] {
      PartsCalls(ps[1..], o, target);
      var head := PartOf(ps[0], o, target);
      CallsInAppend(head, Parts(ps[1..], o, target));
      assert CallsIn(head) == if ps[0].Call? then [head[0].call] else [];
    }
  }

  /** Each call of one message gets its new name, and the message stays of its kind. */
  predicate CallsRenamed(m: Message, r: Message, target: Target) {
    && (m.ToolResult? <==> r.ToolResult?) && IsFailedTurn(m) == IsFailedTurn(r)
    && |Calls(r)| == |Calls(m)|
    && forall k | 0 <= k < |Calls(m)| :: Calls(r)[k].id == NewName(m, k, target)
  }

  lemma MessageCalls(m: Message, target: Target, ids: map<string, string>)
    ensures CallsRenamed(m, Transformed(m, target, ids), target)
  {
    if m.Assistant? {
      PartsCalls(if m.parts.Some? then m.parts.value else [], OriginOf(m), target);
    }
  }

  lemma {:induction false} AllCallsRenamed(ms: seq<Message>, target: Target, ids: map<string, string>, i: nat)
    requires i < |ms|
    ensures CallsRenamed(ms[i], TransformedAll(ms, target, ids)[i], target)
    decreases |ms|
  {
    hide CallsRenamed, Transformed, RenamedBy;
    if i == 0 {
      MessageCalls(ms[0], target, ids);
    } else {
      AllCallsRenamed(ms[1..], target, RenamedBy(ms[0], target, ids), i - 1);
    }
  }

  // ----- The results after the pass ---------------------------------------------------------

  /** What the map says of an id: its new name n once a call with it was seen, and nothing before. */
  predicate MapSays(ids: map<string, string>, id: string, n: string, seen: bool) {
    if seen then (if id in ids then ids[id] == n else n == id) else id !in ids
  }

  lemma HasIdAppend(a: seq<ToolCall>, b: seq<ToolCall>, id: string)
    ensures HasId(a + b, id) <==> HasId(a, id) || HasId(b, id)
  {
    var both := a + b;
    forall k | 0 <= k < |a| ensures both[k] == a[k] {
    }
    forall k | 0 <= k < |b| ensures both[k + |a|] == b[k] {
    }
    if k :| 0 <= k < |both| && both[k].id == id {
      assert if k < |a| then a[k].id == id else b[k - |a|].id == id;
    }
  }

  lemma HasIdNext(ps: seq<Part>, id: string)
    requires ps != []
    ensures HasId(CallsIn(ps), id) <==> (ps[0].Call? && ps[0].call.id == id) || HasId(CallsIn(ps[1..]), id)
  {
    var head := if ps[0].Call? then [ps[0].call] else [];
    assert CallsIn(ps) == head + CallsIn(ps[1..]);
    assert HasId(head, id) <==> ps[0].Call? && ps[0].call.id == id by {
      assert ps[0].Call? ==> head[0] == ps[0].call;
    }
    hide HasId, CallsIn;
    HasIdAppend(head, CallsIn(ps[1..]), id);
  }

  lemma {:induction false} PartsSay(ps: seq<Part>, o: Origin, target: Target, ids: map<string, string>, id: string, n: string, seen: bool)
    requires MapSays(ids, id, n, seen) && !IsOwn(o, target)
    requires HasId(CallsIn(ps), id) ==> NewId(id, o, target) == n
    ensures MapSays(Renamed(ps, o, target, ids), id, n, seen || HasId(CallsIn(ps), id))
    decreases ps
  {
    hide HasId, CallsIn, NewId;
    if ps == [] {
      NothingCalled(id);
    } else {
      HasIdNext(ps, id);
      OneRenamed(ps, o, target, ids);
      var here := ps[0].Call? && ps[0].call.id == id;
      PartsSay(ps[1..], o, target, Renamed([ps[0]], o, target, ids), id, n, seen || here);
    }
  }

  lemma NothingCalled(id: string)
    ensures !HasId(CallsIn([]), id)
  {
  }

  lemma OneRenamed(ps: seq<Part>, o: Origin, target: Target, ids: map<string, string>)
    requires ps != []
    ensures Renamed(ps, o, target, ids) == Renamed(ps[1..], o, target, Renamed([ps[0]], o, target, ids))
    ensures Renamed([ps[0]], o, target, ids) ==
              if !IsOwn(o, target) && ps[0].Call? && NewId(ps[0].call.id, o, target) != ps[0].call.id
              then ids[ps[0].call.id := NewId(ps[0].call.id, o, target)] else ids
  {
    assert [ps[0]][1..] == [];
  }

  lemma {:induction false} OwnRenamesNothing(ps: seq<Part>, o: Origin, target: Target, ids: map<string, string>)
    requires IsOwn(o, target)
    ensures Renamed(ps, o, target, ids) == ids
  {
    if ps != [] {
      OwnRenamesNothing(ps[1..], o, target, ids);
    }
  }

  /** All calls of the message with this id get the new name n. */
  predicate NamedIn(m: Message, target: Target, id: string, n: string) {
    forall k | 0 <= k < |Calls(m)| && Calls(m)[k].id == id :: NewName(m, k, target) == n
  }

  lemma MessageSays(m: Message, target: Target, ids: map<string, string>, id: string, n: string, seen: bool)
    requires MapSays(ids, id, n, seen) && NamedIn(m, target, id, n)
    ensures MapSays(RenamedBy(m, target, ids), id, n, seen || HasCall(m, id))
  {
    hide CallsIn, Renamed, NewId;
    if HasCall(m, id) {
      var k :| 0 <= k < |Calls(m)| && Calls(m)[k].id == id;
      assert NewName(m, k, target) == n;
    }
    if m.Assistant? && m.parts.Some? {
      if IsSameModel(m, target) {
        OwnRenamesNothing(m.parts.value, OriginOf(m), target, ids);
      } else {
        PartsSay(m.parts.value, OriginOf(m), target, ids, id, n, seen);
      }
    }
  }

  /**
   * If all calls before result j that have its id get the new name n, the result
   * gets it too; without such a call it keeps its id.
   */
  lemma {:induction false} ResultRenamed(ms: seq<Message>, target: Target, ids: map<string, string>, j: nat, n: string, seen: bool)
    requires j < |ms| && ms[j].ToolResult? && MapSays(ids, ms[j].callId, n, seen)
    requires forall i | 0 <= i < j :: NamedIn(ms[i], target, ms[j].callId, n)
    ensures var r := TransformedAll(ms, target, ids)[j];
            r.ToolResult? && r.callId == if seen || FollowsCall(ms, j) then n else ms[j].callId
    decreases |ms|
  {
    hide Calls, RenamedBy, NamedIn, HasCall;
    if j > 0 {
      var id, rest := ms[j].callId, ms[1..];
      MessageSays(ms[0], target, ids, id, n, seen);
      forall i | 0 <= i < j - 1 ensures NamedIn(rest[i], target, id, n) {
        assert NamedIn(ms[i + 1], target, id, n);
      }
      ResultRenamed(rest, target, RenamedBy(ms[0], target, ids), j - 1, n, seen || HasCall(ms[0], id));
      if FollowsCall(rest, j - 1) {
        var i :| 0 <= i < j - 1 && HasCall(rest[i], id);
        assert HasCall(ms[i + 1], id);
      }
      if FollowsCall(ms, j) && !HasCall(ms[0], id) {
        var i :| 0 <= i < j && HasCall(ms[i], id);
        assert HasCall(rest[i - 1], id);
      }
    }
  }

  // ----- When the pairing stays -----------------------------------------------------------------

  /** The call has the id of some result. */
  predicate IsAnswered(ms: seq<Message>, i: nat, k: nat) { exists j :: 0 <= j < |ms| && Paired(ms, i, k, j) }

  /** Calls a.k and b.l have one new name exactly if they had one id. */
  predicate StayApart(ms: seq<Message>, target: Target, a: nat, k: nat, b: nat, l: nat)
    requires a < |ms| && k < |Calls(ms[a])| && b < |ms| && l < |Calls(ms[b])|
  {
    NewName(ms[a], k, target) == NewName(ms[b], l, target) <==> Calls(ms[a])[k].id == Calls(ms[b])[l].id
  }

  /** No call that has a result is mixed up with another call, or taken apart from one with its id. */
  predicate AnsweredStayApart(ms: seq<Message>, target: Target) {
    forall a, k, b, l | 0 <= a < |ms| && 0 <= k < |Calls(ms[a])| && 0 <= b < |ms| && 0 <= l < |Calls(ms[b])|
                        && IsAnswered(ms, a, k) ::
      StayApart(ms, target, a, k, b, l)
  }

  /** No call is renamed from this id, or to it. */
  predicate IdStays(ms: seq<Message>, target: Target, id: string) {
    forall i, k | 0 <= i < |ms| && 0 <= k < |Calls(ms[i])| :: NewName(ms[i], k, target) == id <==> Calls(ms[i])[k].id == id
  }

  /** A result that no call with its id comes before has an id that the pass leaves alone. */
  predicate LooseResultsStay(ms: seq<Message>, target: Target) {
    forall j | 0 <= j < |ms| && ms[j].ToolResult? && !FollowsCall(ms, j) :: IdStays(ms, target, ms[j].callId)
  }

  predicate PairingKept(ms: seq<Message>, target: Target, i: nat, k: nat, j: nat) {
    Paired(TransformedAll(ms, target, map[]), i, k, j) <==> Paired(ms, i, k, j)
  }

  /** What the pairing of call i.k with result j comes to after the pass. */
  lemma PairedAfter(ms: seq<Message>, target: Target, i: nat, k: nat, j: nat)
    ensures var out := TransformedAll(ms, target, map[]);
            Paired(out, i, k, j) <==>
              i < |ms| && k < |Calls(ms[i])| && j < |ms| && ms[j].ToolResult? && out[j].ToolResult?
              && out[j].callId == NewName(ms[i], k, target)
  {
    hide Calls, TransformedAll, NewName;
    if i < |ms| && j < |ms| {
      AllCallsRenamed(ms, target, map[], i);
      AllCallsRenamed(ms, target, map[], j);
    }
  }

  lemma ResultAfterItsCall(ms: seq<Message>, target: Target, j: nat)
    requires AnsweredStayApart(ms, target) && j < |ms| && ms[j].ToolResult? && FollowsCall(ms, j)
    ensures TransformedAll(ms, target, map[])[j].ToolResult?
    ensures forall a, k | 0 <= a < |ms| && 0 <= k < |Calls(ms[a])| ::
              NewName(ms[a], k, target) == TransformedAll(ms, target, map[])[j].callId <==> Calls(ms[a])[k].id == ms[j].callId
  {
    hide Calls, TransformedAll, NewName;
    var id := ms[j].callId;
    var b :| 0 <= b < j && HasCall(ms[b], id);
    var l :| 0 <= l < |Calls(ms[b])| && Calls(ms[b])[l].id == id;
    assert Paired(ms, b, l, j) && IsAnswered(ms, b, l);
    var n := NewName(ms[b], l, target);
    forall a, k | 0 <= a < |ms| && 0 <= k < |Calls(ms[a])| ensures NewName(ms[a], k, target) == n <==> Calls(ms[a])[k].id == id {
      assert StayApart(ms, target, b, l, a, k);
    }
    ResultRenamed(ms, target, map[], j, n, false);
  }

  lemma LooseResult(ms: seq<Message>, target: Target, j: nat)
    requires j < |ms| && ms[j].ToolResult? && !FollowsCall(ms, j)
    ensures var r := TransformedAll(ms, target, map[])[j]; r.ToolResult? && r.callId == ms[j].callId
  {
    hide Calls, TransformedAll, NewName;
    forall i | 0 <= i < j ensures NamedIn(ms[i], target, ms[j].callId, "") {
      assert !HasCall(ms[i], ms[j].callId);
    }
    ResultRenamed(ms, target, map[], j, "", false);
  }

  lemma PairingStays(ms: seq<Message>, target: Target, i: nat, k: nat, j: nat)
    requires AnsweredStayApart(ms, target) && LooseResultsStay(ms, target)
    ensures PairingKept(ms, target, i, k, j)
  {
    hide Calls, TransformedAll, NewName, AnsweredStayApart;
    PairedAfter(ms, target, i, k, j);
    if i < |ms| && k < |Calls(ms[i])| && j < |ms| && ms[j].ToolResult? {
      if FollowsCall(ms, j) {
        ResultAfterItsCall(ms, target, j);
      } else {
        LooseResult(ms, target, j);
        assert IdStays(ms, target, ms[j].callId);
      }
    }
  }

  /** If the pairing stays, an answered call's new name is that of its result. */
  lemma KeptMeansApart(ms: seq<Message>, target: Target, a: nat, k: nat, b: nat, l: nat, j: nat)
    requires forall i, c, r :: PairingKept(ms, target, i, c, r)
    requires Paired(ms, a, k, j) && b < |ms| && l < |Calls(ms[b])|
    ensures StayApart(ms, target, a, k, b, l)
  {
    hide Calls, TransformedAll, NewName;
    assert PairingKept(ms, target, a, k, j) && PairingKept(ms, target, b, l, j);
    PairedAfter(ms, target, a, k, j);
    PairedAfter(ms, target, b, l, j);
  }

  lemma KeptMeansLooseStay(ms: seq<Message>, target: Target, j: nat)
    requires forall i, c, r :: PairingKept(ms, target, i, c, r)
    requires j < |ms| && ms[j].ToolResult? && !FollowsCall(ms, j)
    ensures IdStays(ms, target, ms[j].callId)
  {
    hide Calls, TransformedAll, NewName;
    LooseResult(ms, target, j);
    forall i, k | 0 <= i < |ms| && 0 <= k < |Calls(ms[i])|
      ensures NewName(ms[i], k, target) == ms[j].callId <==> Calls(ms[i])[k].id == ms[j].callId
    {
      assert PairingKept(ms, target, i, k, j);
      PairedAfter(ms, target, i, k, j);
    }
  }

  /**
   * For every history, target and normalizer: the pass pairs results with calls
   * exactly as before if and only if no answered call is mixed up with another
   * or taken apart from one with its id, and no call is renamed from or to the
   * id of a result that comes before every call of its id.
   */
  lemma PairingPreserved(ms: seq<Message>, target: Target)
    ensures (forall i, k, j :: PairingKept(ms, target, i, k, j))
            <==> AnsweredStayApart(ms, target) && LooseResultsStay(ms, target)
  {
    hide Calls, NewName, PairingKept, StayApart, IdStays, FollowsCall;
    if AnsweredStayApart(ms, target) && LooseResultsStay(ms, target) {
      forall i, k, j ensures PairingKept(ms, target, i, k, j) {
        PairingStays(ms, target, i, k, j);
      }
    }
    if forall i, k, j :: PairingKept(ms, target, i, k, j) {
      forall a, k, b, l | 0 <= a < |ms| && 0 <= k < |Calls(ms[a])| && 0 <= b < |ms| && 0 <= l < |Calls(ms[b])|
                          && IsAnswered(ms, a, k)
        ensures StayApart(ms, target, a, k, b, l)
      {
        var j :| 0 <= j < |ms| && Paired(ms, a, k, j);
        KeptMeansApart(ms, target, a, k, b, l, j);
      }
      forall j | 0 <= j < |ms| && ms[j].ToolResult? && !FollowsCall(ms, j) ensures IdStays(ms, target, ms[j].callId) {
        KeptMeansLooseStay(ms, target, j);
      }
    }
  }

  lemma {:induction false} AnsweredPreserved(ms: seq<Message>, target: Target, i: nat, k: nat, p: nat)
    requires i < |ms| && k < |Calls(ms[i])| && forall j :: PairingKept(ms, target, i, k, j)
    ensures AnsweredFrom(TransformedAll(ms, target, map[]), p, NewName(ms[i], k, target)) <==> AnsweredFrom(ms, p, Calls(ms[i])[k].id)
    decreases |ms| - p
  {
    hide Calls, TransformedAll, NewName;
    if p < |ms| {
      AllCallsRenamed(ms, target, map[], p);
      assert PairingKept(ms, target, i, k, p);
      PairedAfter(ms, target, i, k, p);
      AnsweredPreserved(ms, target, i, k, p + 1);
    }
  }

  /** So the synthetic results go to the calls that had none before the renaming. */
  lemma OrphansPreserved(ms: seq<Message>, target: Target, i: nat, k: nat)
    requires AnsweredStayApart(ms, target) && LooseResultsStay(ms, target)
    ensures Orphan(TransformedAll(ms, target, map[]), i, k) <==> Orphan(ms, i, k)
  {
    hide Calls, TransformedAll, AnsweredFrom, AnsweredStayApart, LooseResultsStay, NewName, PairingKept;
    if i < |ms| {
      AllCallsRenamed(ms, target, map[], i);
      if k < |Calls(ms[i])| {
        PairingPreserved(ms, target);
        AnsweredPreserved(ms, target, i, k, i + 1);
      }
    }
  }

  // ----- With a normalizer that remembers -----------------------------------------------------

  /** The ids that the normalizer is asked for: those of the calls of other models' turns, in order. */
  function AskedIds(ms: seq<Message>, target: Target): seq<string> {
    if ms == [] then [] else AskedIn(ms[0], target) + AskedIds(ms[1..], target)
  }

  function AskedIn(m: Message, target: Target): seq<string> {
    if IsSameModel(m, target) then [] else IdsOf(Calls(m))
  }

  function IdsOf(calls: seq<ToolCall>): (r: seq<string>)
    ensures |r| == |calls|
    ensures forall k | 0 <= k < |calls| :: r[k] == calls[k].id
  {
    seq(|calls|, k requires 0 <= k < |calls| => calls[k].id)
  }

  /** A block of another model's turn, when the normalizer's next answers are these. */
  function PartAnswered(p: Part, o: Origin, target: Target, answer: string): seq<Part> {
    if p.Call? then [Call(p.call.(id := answer, thoughtSignature := ""))] else ForeignPart(p, o, target)
  }

  function PartsAnswered(ps: seq<Part>, o: Origin, target: Target, answers: seq<string>): seq<Part>
    requires |answers| == |CallsIn(ps)|
  {
    if ps == [] then []
    else if ps[0].Call? then PartAnswered(ps[0], o, target, answers[0]) + PartsAnswered(ps[1..], o, target, answers[1..])
    else ForeignPart(ps[0], o, target) + PartsAnswered(ps[1..], o, target, answers)
  }

  function RenamedAnswered(ps: seq<Part>, answers: seq<string>, ids: map<string, string>): map<string, string>
    requires |answers| == |CallsIn(ps)|
  {
    if ps == [] then ids
    else if ps[0].Call? then
      RenamedAnswered(ps[1..], answers[1..], if answers[0] != ps[0].call.id then ids[ps[0].call.id := answers[0]] else ids)
    else RenamedAnswered(ps[1..], answers, ids)
  }

  /** One message, and the map after it. */
  function MessageAnswered(m: Message, target: Target, answers: seq<string>, ids: map<string, string>): (Message, map<string, string>)
    requires |answers| == |AskedIn(m, target)|
  {
    if m.Assistant? && m.parts.Some? && !IsSameModel(m, target) then
      (m.(parts := Some(PartsAnswered(m.parts.value, OriginOf(m), target, answers))), RenamedAnswered(m.parts.value, answers, ids))
    else (Transformed(m, target, ids), RenamedBy(m, target, ids))
  }

  /** The pass, when the normalizer's answers are these, one for each call that it is asked for. */
  function AllAnswered(ms: seq<Message>, target: Target, answers: seq<string>, ids: map<string, string>): seq<Message>
    requires |answers| == |AskedIds(ms, target)|
  {
    if ms == [] then []
    else
      var n := |AskedIn(ms[0], target)|;
      var (m, more) := MessageAnswered(ms[0], target, answers[..n], ids);
      [m] + AllAnswered(ms[1..], target, answers[n..], more)
  }

  /** Those answers are what the target's function gives for the ids, wherever they come from. */
  predicate AreAnswersOf(answers: seq<string>, asked: seq<string>, o: Origin, target: Target) {
    |answers| == |asked| && forall n | 0 <= n < |asked| :: answers[n] == NewId(asked[n], o, target)
  }

  lemma {:induction false} PartsAnsweredSame(ps: seq<Part>, o: Origin, target: Target, answers: seq<string>, ids: map<string, string>)
    requires !IsOwn(o, target) && AreAnswersOf(answers, IdsOf(CallsIn(ps)), o, target)
    ensures PartsAnswered(ps, o, target, answers) == Parts(ps, o, target)
    ensures RenamedAnswered(ps, answers, ids) == Renamed(ps, o, target, ids)
    decreases ps
  {
    hide NewId;
    if ps != [] {
      var calls, rest := CallsIn(ps), CallsIn(ps[1..]);
      OneRenamed(ps, o, target, ids);
      if ps[0].Call? {
        assert calls == [ps[0].call] + rest && calls[1..] == rest;
        assert IdsOf(calls)[0] == ps[0].call.id && IdsOf(calls)[1..] == IdsOf(rest);
        forall n | 0 <= n < |rest| ensures answers[1..][n] == NewId(IdsOf(rest)[n], o, target) {
          assert answers[n + 1] == NewId(IdsOf(calls)[n + 1], o, target);
        }
        PartsAnsweredSame(ps[1..], o, target, answers[1..], Renamed([ps[0]], o, target, ids));
      } else {
        assert calls == [] + rest == rest;
        PartsAnsweredSame(ps[1..], o, target, answers, ids);
      }
    }
  }

  lemma MessageAnsweredSame(m: Message, target: Target, answers: seq<string>, ids: map<string, string>)
    requires |answers| == |AskedIn(m, target)|
    requires forall n, o: Origin | 0 <= n < |answers| :: answers[n] == NewId(AskedIn(m, target)[n], o, target)
    ensures MessageAnswered(m, target, answers, ids) == (Transformed(m, target, ids), RenamedBy(m, target, ids))
  {
    hide NewId, CallsIn;
    if m.Assistant? && m.parts.Some? && !IsSameModel(m, target) {
      PartsAnsweredSame(m.parts.value, OriginOf(m), target, answers, ids);
    }
  }

  /** If a function gives the same answers, the pass with that function is the pass with those answers. */
  lemma {:induction false} AnsweredIsTransformed(ms: seq<Message>, target: Target, answers: seq<string>, ids: map<string, string>)
    requires |answers| == |AskedIds(ms, target)|
    requires forall n, o: Origin | 0 <= n < |answers| :: answers[n] == NewId(AskedIds(ms, target)[n], o, target)
    ensures AllAnswered(ms, target, answers, ids) == TransformedAll(ms, target, ids)
    decreases |ms|
  {
    hide NewId, AskedIn, MessageAnswered, Transformed, RenamedBy;
    if ms != [] {
      var here, rest := AskedIn(ms[0], target), AskedIds(ms[1..], target);
      var n := |here|;
      assert AskedIds(ms, target) == here + rest;
      forall k, o: Origin | 0 <= k < n ensures answers[..n][k] == NewId(here[k], o, target) {
        assert answers[k] == NewId(AskedIds(ms, target)[k], o, target);
      }
      forall k, o: Origin | 0 <= k < |rest| ensures answers[n..][k] == NewId(rest[k], o, target) {
        assert answers[n + k] == NewId(AskedIds(ms, target)[n + k], o, target);
      }
      MessageAnsweredSame(ms[0], target, answers[..n], ids);
      AnsweredIsTransformed(ms[1..], target, answers[n..], RenamedBy(ms[0], target, ids));
    }
  }

  // ----- With Mistral's normalizer ------------------------------------------------------------

  /** The target with the normalizer's final map as its function. */
  function WithMap(target: Target, m: M.Maps): Target {
    target.(normalize := Some((id: string, o: Origin) => if id in m.answers then m.answers[id] else id))
  }

  lemma {:induction false} CallIdIsAsked(ms: seq<Message>, target: Target, i: nat, k: nat)
    requires i < |ms| && k < |Calls(ms[i])| && !IsSameModel(ms[i], target)
    ensures Calls(ms[i])[k].id in AskedIds(ms, target)
    decreases |ms|
  {
    hide Calls;
    if i == 0 {
      assert IdsOf(Calls(ms[0]))[k] == Calls(ms[i])[k].id;
    } else {
      CallIdIsAsked(ms[1..], target, i - 1, k);
    }
  }

  lemma {:induction false} SameAsked(ms: seq<Message>, target: Target, m: M.Maps)
    ensures AskedIds(ms, WithMap(target, m)) == AskedIds(ms, target)
  {
    if ms != [] {
      SameAsked(ms[1..], target, m);
    }
  }

  /** Every turn with calls comes from another model. */
  predicate CallsAreForeign(ms: seq<Message>, target: Target) {
    forall i | 0 <= i < |ms| && Calls(ms[i]) != [] :: !IsSameModel(ms[i], target)
  }

  predicate ResultsFollowCalls(ms: seq<Message>) {
    forall j | 0 <= j < |ms| && ms[j].ToolResult? :: FollowsCall(ms, j)
  }

  /** In a run the final map gives every id that was asked for its answer, and different ids different ones. */
  lemma FinalMapAnswers(ms: seq<Message>, target: Target, states: seq<M.Maps>, answers: seq<string>)
    requires M.IsRun(states, AskedIds(ms, target), answers)
    ensures var final := WithMap(target, states[|answers|]); var asked := AskedIds(ms, target);
            && (forall n, o: Origin | 0 <= n < |answers| :: NewId(asked[n], o, final) == answers[n])
            && (forall n | 0 <= n < |answers| :: M.IsMistralId(answers[n]))
            && forall a, b, o: Origin, p: Origin | a in asked && b in asked && NewId(a, o, final) == NewId(b, p, final) :: a == b
  {
    hide AskedIds, M.Candidate, M.IsMistralId;
    var ids := AskedIds(ms, target);
    M.RunKeepsInverse(states, ids, answers, |ids|);
    M.RunAnswersOneToOne(states, ids, answers);
  }

  /**
   * One request to Mistral: whatever collisions the normalizer meets on the way,
   * the pass with its successive answers is the pass with its final map; the
   * answers are ids for Mistral, and when every calling turn comes from another
   * model and every result follows its call, pairing and orphans stay.
   */
  lemma MistralKeepsPairing(ms: seq<Message>, target: Target, states: seq<M.Maps>, answers: seq<string>,
                            i: nat, k: nat, j: nat)
    requires CallsAreForeign(ms, target) && ResultsFollowCalls(ms)
    requires M.IsRun(states, AskedIds(ms, target), answers)
    ensures forall n | 0 <= n < |answers| :: M.IsMistralId(answers[n])
    ensures var out := AllAnswered(ms, target, answers, map[]);
            && out == TransformedAll(ms, WithMap(target, states[|answers|]), map[])
            && (Paired(out, i, k, j) <==> Paired(ms, i, k, j))
            && (Orphan(out, i, k) <==> Orphan(ms, i, k))
  {
    hide Calls, TransformedAll, CallsAreForeign, ResultsFollowCalls, AskedIds, M.IsMistralId, Paired, Orphan, NewId,
         AllAnswered, AnsweredStayApart, LooseResultsStay;
    var final := WithMap(target, states[|answers|]);
    FinalMapAnswers(ms, target, states, answers);
    SameAsked(ms, target, states[|answers|]);
    AnsweredIsTransformed(ms, final, answers, map[]);
    SamePass(ms, target, states[|answers|], answers, map[]);
    ForeignStayApart(ms, target, states, answers);
    NothingLoose(ms, final);
    PairingStays(ms, final, i, k, j);
    OrphansPreserved(ms, final, i, k);
  }

  lemma ForeignStayApart(ms: seq<Message>, target: Target, states: seq<M.Maps>, answers: seq<string>)
    requires CallsAreForeign(ms, target) && M.IsRun(states, AskedIds(ms, target), answers)
    ensures AnsweredStayApart(ms, WithMap(target, states[|answers|]))
  {
    hide Calls, AskedIds, NewId, IsAnswered, M.Answers;
    var final := WithMap(target, states[|answers|]);
    FinalMapAnswers(ms, target, states, answers);
    forall a, k, b, l | 0 <= a < |ms| && 0 <= k < |Calls(ms[a])| && 0 <= b < |ms| && 0 <= l < |Calls(ms[b])|
      ensures StayApart(ms, final, a, k, b, l)
    {
      assert !IsSameModel(ms[a], target) && !IsSameModel(ms[b], target);
      OnlyTurnsCall(ms[a]);
      OnlyTurnsCall(ms[b]);
      CallIdIsAsked(ms, target, a, k);
      CallIdIsAsked(ms, target, b, l);
      if Calls(ms[a])[k].id == Calls(ms[b])[l].id {
        SameForAll(Calls(ms[a])[k].id, OriginOf(ms[a]), OriginOf(ms[b]), target, states[|answers|]);
      }
    }
  }

  lemma OnlyTurnsCall(m: Message)
    ensures Calls(m) != [] ==> m.Assistant?
  {
  }

  lemma SameForAll(id: string, o: Origin, p: Origin, target: Target, m: M.Maps)
    ensures NewId(id, o, WithMap(target, m)) == NewId(id, p, WithMap(target, m))
  {
  }

  lemma NothingLoose(ms: seq<Message>, target: Target)
    requires ResultsFollowCalls(ms)
    ensures LooseResultsStay(ms, target)
  {
    hide FollowsCall, IdStays;
  }

  /** The answered pass does not look at the target's own normalizer. */
  lemma {:induction false} SamePass(ms: seq<Message>, target: Target, m: M.Maps, answers: seq<string>, ids: map<string, string>)
    requires |answers| == |AskedIds(ms, target)| == |AskedIds(ms, WithMap(target, m))|
    ensures AllAnswered(ms, WithMap(target, m), answers, ids) == AllAnswered(ms, target, answers, ids)
    decreases |ms|
  {
    hide CallsIn;
    if ms != [] {
      var final := WithMap(target, m);
      SameAsked(ms[1..], target, m);
      var n := |AskedIn(ms[0], target)|;
      SameMessage(ms[0], target, m, answers[..n], ids);
      SamePass(ms[1..], target, m, answers[n..], MessageAnswered(ms[0], target, answers[..n], ids).1);
    }
  }

  lemma SameMessage(m: Message, target: Target, maps: M.Maps, answers: seq<string>, ids: map<string, string>)
    requires |answers| == |AskedIn(m, target)|
    ensures |answers| == |AskedIn(m, WithMap(target, maps))|
    ensures MessageAnswered(m, WithMap(target, maps), answers, ids) == MessageAnswered(m, target, answers, ids)
  {
    if m.Assistant? && m.parts.Some? {
      if IsSameModel(m, target) {
        SameOwnParts(m.parts.value, OriginOf(m), target, maps);
        OwnRenamesNothing(m.parts.value, OriginOf(m), target, ids);
        OwnRenamesNothing(m.parts.value, OriginOf(m), WithMap(target, maps), ids);
      } else {
        SameParts(m.parts.value, OriginOf(m), target, maps, answers);
      }
    }
  }

  lemma {:induction false} SameOwnParts(ps: seq<Part>, o: Origin, target: Target, maps: M.Maps)
    requires IsOwn(o, target)
    ensures Parts(ps, o, WithMap(target, maps)) == Parts(ps, o, target)
  {
    if ps != [] {
      SameOwnParts(ps[1..], o, target, maps);
    }
  }

  lemma {:induction false} SameParts(ps: seq<Part>, o: Origin, target: Target, maps: M.Maps, answers: seq<string>)
    requires |answers| == |CallsIn(ps)|
    ensures PartsAnswered(ps, o, WithMap(target, maps), answers) == PartsAnswered(ps, o, target, answers)
    decreases ps
  {
    if ps != [] {
      SameParts(ps[1..], o, target, maps, if ps[0].Call? then answers[1..] else answers);
    }
  }

  // ----- Why the conditions are needed -----------------------------------------------------

  function Turn1(provider: string, id: string): Message {
    Assistant(Some([Call(ToolCall(id, "tool", "{}", ""))]), "api", provider, "model", ToolUse, "")
  }

  function Result1(id: string): Message { ToolResult(id, "tool", Some([]), false, 0) }

  function AToB(): Target {
    Target("model", "api", "own", true, Some((id: string, o: Origin) => if id == "a" then "b" else id))
  }

  lemma OneCall(provider: string, id: string)
    ensures Calls(Turn1(provider, id)) == [ToolCall(id, "tool", "{}", "")]
  {
    var ps := [Call(ToolCall(id, "tool", "{}", ""))];
    assert ps[1..] == [] && CallsIn(ps) == [ps[0].call] + CallsIn(ps[1..]);
  }

  /** A turn of the target model keeps its id, so another model's call may be renamed to it. */
  lemma OwnTurnMayCollide()
    ensures !(forall i, k, j :: PairingKept([Turn1("own", "b"), Turn1("other", "a"), Result1("b")], AToB(), i, k, j))
  {
    hide Calls, PairingKept;
    var ms := [Turn1("own", "b"), Turn1("other", "a"), Result1("b")];
    OneCall("own", "b");
    OneCall("other", "a");
    PairingPreserved(ms, AToB());
    assert Paired(ms, 0, 0, 2) && IsAnswered(ms, 0, 0);
    assert !StayApart(ms, AToB(), 0, 0, 1, 0);
  }

  /** A result before its call is passed on before the call is renamed. */
  lemma EarlyResultLosesItsCall()
    ensures !(forall i, k, j :: PairingKept([Result1("a"), Turn1("other", "a")], AToB(), i, k, j))
  {
    hide Calls, PairingKept;
    var ms := [Result1("a"), Turn1("other", "a")];
    OneCall("other", "a");
    PairingPreserved(ms, AToB());
    assert Calls(ms[1])[0].id == "a" && NewName(ms[1], 0, AToB()) == "b";
    assert !IdStays(ms, AToB(), "a");
    assert !FollowsCall(ms, 0) && ms[0].callId == "a";
  }
}
