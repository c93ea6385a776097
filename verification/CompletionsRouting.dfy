/** Which tool-call deltas of a completions stream reach the same block, told from the deltas alone. */
module CompletionsRouting {
  import opened Wrappers
  import opened ToolBlocks
  import opened CompletionsDecoder
  import opened CompletionsProtocol
  import opened JsonText

  /** The tool-call deltas of the chunks, in order. */
  function AllCalls(chunks: seq<Chunk>): seq<CallDelta> {
    if chunks == [] then [] else CallsOf(chunks[0]) + AllCalls(chunks[1..])
  }

  function LastWithIndex(calls: seq<CallDelta>, i: int): (r: Option<nat>)
    ensures r.Some? ==> r.value < |calls| && calls[r.value].index == Some(i)
    ensures forall k | (if r.Some? then r.value + 1 else 0) <= k < |calls| :: calls[k].index != Some(i)
    decreases |calls|
  {
    if calls == [] then None
    else if calls[|calls| - 1].index == Some(i) then Some(|calls| - 1)
    else LastWithIndex(calls[..|calls| - 1], i)
  }

  function LastWithId(calls: seq<CallDelta>, id: string): (r: Option<nat>)
    ensures r.Some? ==> r.value < |calls| && calls[r.value].id == id
    ensures forall k | (if r.Some? then r.value + 1 else 0) <= k < |calls| :: calls[k].id != id
    decreases |calls|
  {
    if calls == [] then None
    else if calls[|calls| - 1].id == id then Some(|calls| - 1)
    else LastWithId(calls[..|calls| - 1], id)
  }

  /** The earlier delta that delta d joins: the last with its index, else the last with its id; else none. */
  function Joined(before: seq<CallDelta>, d: CallDelta): (r: Option<nat>)
    ensures r.Some? ==> r.value < |before|
  {
    var i: int := if d.index.Some? then d.index.value else 0;
    if d.index.Some? && LastWithIndex(before, i).Some? then LastWithIndex(before, i)
    else if d.id != "" then LastWithId(before, d.id)
    else None
  }

  /** The delta that opened the block of delta k. */
  function Home(calls: seq<CallDelta>, k: nat): (h: nat)
    requires k < |calls|
    ensures h <= k
    decreases k
  {
    var j := Joined(calls[..k], calls[k]);
    if j.None? then k else Home(calls, j.value)
  }

  // ----- The decoder's maps say the same ------------------------------------------------------------

  function Deltas(log: Log): (r: seq<CallDelta>)
    ensures |r| == |log| && forall k | 0 <= k < |log| :: r[k] == log[k].0
  {
    seq(|log|, k requires 0 <= k < |log| => log[k].0)
  }

  /** The maps lead each index and each id to the block of the last delta that carried it. */
  ghost predicate MapsSay(log: Log, s: State) {
    && (forall k | 0 <= k < |log| :: log[k].1 < |s.order|)
    && (forall i: int :: IndexSays(log, s, i))
    && (forall id: string :: id != "" ==> IdSays(log, s, id))
  }

  predicate IndexSays(log: Log, s: State, i: int) {
    var last := LastWithIndex(Deltas(log), i);
    && (i in s.byIndex <==> last.Some?)
    && (i in s.byIndex ==> s.byIndex[i] == log[last.value].1)
  }

  predicate IdSays(log: Log, s: State, id: string) {
    var last := LastWithId(Deltas(log), id);
    && (id in s.byId <==> last.Some?)
    && (id in s.byId ==> s.byId[id] == log[last.value].1)
  }

  /** Each delta went where the one it joins went, or to a new block. */
  predicate JoinedIn(log: Log) { forall k | 0 <= k < |log| :: JoinedAt(log, k) }

  predicate JoinedAt(log: Log, k: nat)
    requires k < |log|
  {
    var j := Joined(Deltas(log)[..k], Deltas(log)[k]);
    if j.Some? then log[k].1 == log[j.value].1 else forall i | 0 <= i < k :: log[i].1 != log[k].1
  }

  lemma RouteJoins(log: Log, s: State, d: CallDelta)
    requires Usable(s) && MapsSay(log, s)
    ensures var j := Joined(Deltas(log), d); Route(s, d) == if j.Some? then log[j.value].1 else |s.order|
  {
    hide LastWithIndex, LastWithId, Usable;
    if d.index.Some? {
      var i: int := d.index.value;
      assert IndexSays(log, s, i);
    }
    if d.id != "" {
      assert IdSays(log, s, d.id);
    }
  }

  lemma LastIndexNext(calls: seq<CallDelta>, d: CallDelta, i: int)
    ensures LastWithIndex(calls + [d], i) == if d.index == Some(i) then Some(|calls|) else LastWithIndex(calls, i)
  {
    assert (calls + [d])[..|calls|] == calls;
  }

  lemma LastIdNext(calls: seq<CallDelta>, d: CallDelta, id: string)
    ensures LastWithId(calls + [d], id) == if d.id == id then Some(|calls|) else LastWithId(calls, id)
  {
    assert (calls + [d])[..|calls|] == calls;
  }

  lemma CallKeepsMaps(log: Log, s: State, d: CallDelta, parse: string -> Value)
    requires Usable(s) && MapsSay(log, s)
    ensures MapsSay(log + [(d, Route(s, d))], CallRead(s, d, parse))
  {
    hide Usable, Route, CallRead, LastWithIndex, LastWithId;
    var j, t := Route(s, d), CallRead(s, d, parse);
    var more := log + [(d, j)];
    assert Deltas(more) == Deltas(log) + [d];
    CallReadMaps(s, d, parse);
    forall i: int ensures IndexSays(more, t, i) {
      LastIndexNext(Deltas(log), d, i);
      assert IndexSays(log, s, i);
    }
    forall id: string | id != "" ensures IdSays(more, t, id) {
      LastIdNext(Deltas(log), d, id);
      assert IdSays(log, s, id);
    }
  }

  lemma CallJoins(log: Log, s: State, d: CallDelta)
    requires Usable(s) && MapsSay(log, s) && JoinedIn(log)
    ensures JoinedIn(log + [(d, Route(s, d))])
  {
    hide Usable, Route, Joined;
    RouteJoins(log, s, d);
    var more := log + [(d, Route(s, d))];
    forall k | 0 <= k < |more| ensures JoinedAt(more, k) {
      if k < |log| {
        assert JoinedAt(log, k);
        assert Deltas(more)[..k] == Deltas(log)[..k];
      } else {
        assert Deltas(more)[..k] == Deltas(log);
      }
    }
  }

  lemma {:induction false} CallsJoin(log: Log, s: State, calls: seq<CallDelta>, parse: string -> Value)
    requires Usable(s) && MapsSay(log, s) && JoinedIn(log)
    ensures MapsSay(log + CallsLog(s, calls, parse), CallsRead(s, calls, parse)) && JoinedIn(log + CallsLog(s, calls, parse))
    ensures Deltas(CallsLog(s, calls, parse)) == calls
    decreases |calls|
  {
    hide Usable, MapsSay, JoinedIn, Route, CallRead;
    if calls == [] {
      assert log + CallsLog(s, calls, parse) == log;
    } else {
      var t, j := CallRead(s, calls[0], parse), Route(s, calls[0]);
      CallKeepsMaps(log, s, calls[0], parse);
      CallJoins(log, s, calls[0]);
      CallsJoin(log + [(calls[0], j)], t, calls[1..], parse);
      assert log + CallsLog(s, calls, parse) == (log + [(calls[0], j)]) + CallsLog(t, calls[1..], parse);
      assert Deltas(CallsLog(s, calls, parse)) == [calls[0]] + Deltas(CallsLog(t, calls[1..], parse));
    }
  }

  lemma SameMapsSay(log: Log, s: State, t: State)
    requires MapsSay(log, s) && t.byIndex == s.byIndex && t.byId == s.byId && t.order == s.order
    ensures MapsSay(log, t)
  {
    forall i: int ensures IndexSays(log, t, i) {
      assert IndexSays(log, s, i);
    }
    forall id: string | id != "" ensures IdSays(log, t, id) {
      assert IdSays(log, s, id);
    }
  }

  lemma {:induction false} ChunksJoin(log: Log, s: State, chunks: seq<Chunk>, parse: string -> Value)
    requires Usable(s) && MapsSay(log, s) && JoinedIn(log)
    ensures JoinedIn(log + ChunksLog(s, chunks, parse)) && Deltas(ChunksLog(s, chunks, parse)) == AllCalls(chunks)
    decreases |chunks|
  {
    hide Usable, MapsSay, JoinedIn, CallsRead, CallsLog, ChunkRead, BeforeCalls, CallsOf;
    if chunks == [] {
      assert log + ChunksLog(s, chunks, parse) == log;
    } else {
      var u, t := BeforeCalls(s, chunks[0]), ChunkRead(s, chunks[0], parse);
      var more := CallsLog(u, CallsOf(chunks[0]), parse);
      ChunkReadStick(s, chunks[0], parse);
      SameMapsSay(log, s, u);
      CallsJoin(log, u, CallsOf(chunks[0]), parse);
      SameMapsSay(log + more, CallsRead(u, CallsOf(chunks[0]), parse), t);
      ChunksJoin(log + more, t, chunks[1..], parse);
      assert log + ChunksLog(s, chunks, parse) == (log + more) + ChunksLog(t, chunks[1..], parse);
      assert Deltas(ChunksLog(s, chunks, parse)) == Deltas(more) + Deltas(ChunksLog(t, chunks[1..], parse));
    }
  }

  lemma NothingSaid()
    ensures Usable(INITIAL) && MapsSay([], INITIAL) && JoinedIn([])
  {
    hide LastWithIndex, LastWithId;
    forall i: int ensures IndexSays([], INITIAL, i) {
    }
    forall id: string ensures IdSays([], INITIAL, id) {
    }
  }

  // ----- Which deltas meet ------------------------------------------------------------------------

  lemma {:induction false} GoesHome(log: Log, k: nat)
    requires JoinedIn(log) && k < |log|
    ensures var h := Home(Deltas(log), k);
            log[k].1 == log[h].1 && forall i | 0 <= i < h :: log[i].1 != log[h].1
    decreases k
  {
    hide Joined;
    assert JoinedAt(log, k);
    var j := Joined(Deltas(log)[..k], Deltas(log)[k]);
    if j.Some? {
      GoesHome(log, j.value);
    }
  }

  /**
   * For every chunk sequence: two deltas reach the same block exactly when one
   * delta opened the block of both, which is told from indices and ids alone.
   */
  lemma SameBlockSameHome(chunks: seq<Chunk>, parse: string -> Value, a: nat, b: nat)
    requires a < |AllCalls(chunks)| && b < |AllCalls(chunks)|
    ensures Usable(INITIAL) && |ChunksLog(INITIAL, chunks, parse)| == |AllCalls(chunks)|
    ensures var log := ChunksLog(INITIAL, chunks, parse);
            log[a].1 == log[b].1 <==> Home(AllCalls(chunks), a) == Home(AllCalls(chunks), b)
  {
    hide Home, ChunksLog, AllCalls, JoinedIn, MapsSay, Usable;
    NothingSaid();
    var log := ChunksLog(INITIAL, chunks, parse);
    ChunksJoin([], INITIAL, chunks, parse);
    NoLogBefore(log);
    SameHome(log, a, b);
  }

  lemma NoLogBefore(log: Log)
    ensures [] + log == log
  {
  }

  lemma SameHome(log: Log, a: nat, b: nat)
    requires JoinedIn(log) && a < |log| && b < |log|
    ensures log[a].1 == log[b].1 <==> Home(Deltas(log), a) == Home(Deltas(log), b)
  {
    hide Home, JoinedIn;
    GoesHome(log, a);
    GoesHome(log, b);
  }

  /** Delta f is the first with its id. */
  predicate IsFirstWithId(calls: seq<CallDelta>, f: nat) {
    f < |calls| && calls[f].id != "" && forall k | 0 <= k < f :: calls[k].id != calls[f].id
  }

  /** No later delta with the id of f carries an index that had led to another block than f's. */
  predicate NeverTakenOver(calls: seq<CallDelta>, f: nat)
    requires f < |calls|
  {
    forall j, k | 0 <= j < k < |calls| && f < k && calls[k].id == calls[f].id
                  && calls[j].index.Some? && calls[j].index == calls[k].index ::
      Home(calls, j) == Home(calls, f)
  }

  lemma JoinedHome(calls: seq<CallDelta>, k: nat, j: nat)
    requires k < |calls| && Joined(calls[..k], calls[k]) == Some(j)
    ensures Home(calls, k) == Home(calls, j)
  {
  }

  lemma {:induction false} SameIndexSameHome(calls: seq<CallDelta>, j: nat, k: nat)
    requires j < k < |calls| && calls[j].index.Some? && calls[j].index == calls[k].index
    ensures Home(calls, j) == Home(calls, k)
    decreases k
  {
    hide Home, LastWithIndex;
    var i: int := calls[k].index.value;
    var last := LastWithIndex(calls[..k], i);
    assert calls[..k][j].index == Some(i);
    JoinedHome(calls, k, last.value);
    if j < last.value {
      SameIndexSameHome(calls, j, last.value);
    }
  }

  lemma {:induction false} IdStaysHome(calls: seq<CallDelta>, f: nat, k: nat)
    requires IsFirstWithId(calls, f) && NeverTakenOver(calls, f) && f <= k < |calls| && calls[k].id == calls[f].id
    ensures Home(calls, k) == Home(calls, f)
    decreases k
  {
    hide Home, LastWithIndex, LastWithId;
    if f < k {
      var i: int := if calls[k].index.Some? then calls[k].index.value else 0;
      var last := LastWithIndex(calls[..k], i);
      if calls[k].index.Some? && last.Some? {
        SameIndexSameHome(calls, last.value, k);
      } else {
        var same := LastWithId(calls[..k], calls[k].id);
        assert calls[..k][f].id == calls[k].id;
        JoinedHome(calls, k, same.value);
        IdStaysHome(calls, f, same.value);
      }
    }
  }

  /**
   * For every chunk sequence: all deltas with one id reach the same block exactly
   * when none of them carries an index that an earlier delta had led elsewhere.
   */
  lemma SameIdSameBlockExactly(chunks: seq<Chunk>, parse: string -> Value, f: nat)
    requires IsFirstWithId(AllCalls(chunks), f)
    ensures Usable(INITIAL) && |ChunksLog(INITIAL, chunks, parse)| == |AllCalls(chunks)|
    ensures var log, calls := ChunksLog(INITIAL, chunks, parse), AllCalls(chunks);
            (forall k | 0 <= k < |calls| && calls[k].id == calls[f].id :: log[k].1 == log[f].1) <==> NeverTakenOver(calls, f)
  {
    hide Home, ChunksLog, AllCalls;
    var log, calls := ChunksLog(INITIAL, chunks, parse), AllCalls(chunks);
    SameBlockSameHome(chunks, parse, f, f);
    if NeverTakenOver(calls, f) {
      forall k | 0 <= k < |calls| && calls[k].id == calls[f].id ensures log[k].1 == log[f].1 {
        IdStaysHome(calls, f, k);
        SameBlockSameHome(chunks, parse, k, f);
      }
    }
    if forall k | 0 <= k < |calls| && calls[k].id == calls[f].id :: log[k].1 == log[f].1 {
      forall j, k | 0 <= j < k < |calls| && f < k && calls[k].id == calls[f].id
                    && calls[j].index.Some? && calls[j].index == calls[k].index
        ensures Home(calls, j) == Home(calls, f)
      {
        SameIndexSameHome(calls, j, k);
        SameBlockSameHome(chunks, parse, k, f);
      }
    }
  }

  /** Index 1, opened by call b, takes id a over from block 0. */
  lemma SameIdMayMove(parse: string -> Value)
    ensures var calls := [CallDelta(Some(0), "a", "", ""), CallDelta(Some(1), "b", "", ""), CallDelta(Some(1), "a", "", "")];
            var chunks := [Choice(false, Some(Fields("", "", "", "", calls, [])))];
            Usable(INITIAL) && |ChunksLog(INITIAL, chunks, parse)| == 3
            && ChunksLog(INITIAL, chunks, parse)[0].1 != ChunksLog(INITIAL, chunks, parse)[2].1
  {
    hide ChunksLog;
    var calls := [CallDelta(Some(0), "a", "", ""), CallDelta(Some(1), "b", "", ""), CallDelta(Some(1), "a", "", "")];
    var chunks := [Choice(false, Some(Fields("", "", "", "", calls, [])))];
    assert chunks[1..] == [];
    assert AllCalls(chunks) == calls + [];
    assert calls + [] == calls;
    SameIndexSameHome(calls, 1, 2);
    assert Home(calls, 0) == 0;
    assert Home(calls, 1) == 1;
    SameBlockSameHome(chunks, parse, 0, 2);
  }
}
