/**
 * Tool-call blocks whose arguments arrive in pieces: the scratch state that the
 * Mistral and the OpenAI completions decoders keep until the stream ends.
 */
module ToolBlocks {
  import opened Wrappers
  import opened JsonText
  import opened BlockEvents

  /** The block's content index and the argument text received so far. */
  datatype Scratch = Scratch(at: nat, partialArgs: string)

  const NO_ARGUMENTS := Object(map[])

  function WithArguments(c: Content, arguments: Value): Content
    requires c.ToolBlock?
  {
    c.(arguments := arguments)
  }

  /** Each scratch has a tool block of its own. */
  predicate Placed(o: Output, order: seq<Scratch>) {
    && (forall j | 0 <= j < |order| :: order[j].at < |o.content| && o.content[order[j].at].ToolBlock?)
    && (forall j, k | 0 <= j < k < |order| :: order[j].at != order[k].at)
  }

  ghost predicate HasScratch(order: seq<Scratch>, at: nat) { exists j :: 0 <= j < |order| && order[j].at == at }

  /** Each tool block runs, its deltas so far are its scratch text, and it shows what that text means. */
  ghost predicate ToolsRun(o: Output, order: seq<Scratch>, parse: string -> Value)
    requires Tracks(o)
  {
    && Placed(o, order)
    && (forall j | 0 <= j < |order| :: ToolRuns(o, order[j], parse))
    && (forall at | 0 <= at < |o.content| && o.content[at].ToolBlock? :: HasScratch(order, at))
  }

  predicate ToolRuns(o: Output, s: Scratch, parse: string -> Value)
    requires Tracks(o) && s.at < |o.content| && o.content[s.at].ToolBlock?
  {
    && Phases(o)[s.at] == Running(IsTool, s.partialArgs)
    && o.content[s.at].arguments == if s.partialArgs == "" then NO_ARGUMENTS else parse(s.partialArgs)
  }

  /** The ends of the blocks from j on, in the order they were opened. */
  function ToolsClosed(o: Output, order: seq<Scratch>, j: nat, parse: string -> Value): Output
    requires j <= |order| && Placed(o, order)
    decreases |order| - j
  {
    if j == |order| then o
    else
      var at := order[j].at;
      ToolsClosed(Closed(o, at, WithArguments(o.content[at], parse(order[j].partialArgs))), order, j + 1, parse)
  }

  /** A tool block that has ended: its arguments are what its deltas together parse to. */
  predicate ToolWhole(o: Output, at: nat, parse: string -> Value)
    requires Tracks(o) && at < |o.content| && o.content[at].ToolBlock?
  {
    && Phases(o)[at].Ended? && Phases(o)[at].final == o.content[at]
    && o.content[at].arguments == parse(Phases(o)[at].text)
  }

  predicate Untouched(o: Output, r: Output, at: nat)
    requires Tracks(o) && Tracks(r) && at < |o.content| == |r.content|
  {
    r.content[at] == o.content[at] && Phases(r)[at] == Phases(o)[at]
  }

  lemma {:induction false} ToolsClosedWhole(o: Output, order: seq<Scratch>, j: nat, parse: string -> Value)
    requires j <= |order| && Tracks(o) && Placed(o, order)
    requires forall k | j <= k < |order| :: Phases(o)[order[k].at] == Running(IsTool, order[k].partialArgs)
    ensures var r := ToolsClosed(o, order, j, parse);
            && Tracks(r) && |r.content| == |o.content|
            && (forall k | j <= k < |order| :: r.content[order[k].at].ToolBlock? && ToolWhole(r, order[k].at, parse)
                  && Phases(r)[order[k].at].text == order[k].partialArgs)
            && (forall at | 0 <= at < |o.content| && (forall k | j <= k < |order| :: order[k].at != at) :: Untouched(o, r, at))
    decreases |order| - j
  {
    if j < |order| {
      var at := order[j].at;
      var c := WithArguments(o.content[at], parse(order[j].partialArgs));
      ClosedTracks(o, at, c);
      var o1 := Closed(o, at, c);
      ToolsClosedWhole(o1, order, j + 1, parse);
      var r := ToolsClosed(o1, order, j + 1, parse);
      assert Untouched(o1, r, at);
      assert ToolWhole(r, at, parse);
      forall a | 0 <= a < |o.content| && (forall k | j <= k < |order| :: order[k].at != a) ensures Untouched(o, r, a) {
        assert order[j].at != a;
        assert Untouched(o1, r, a);
      }
    }
  }

  /** A new tool block with its scratch. */
  lemma OpenedToolRuns(o: Output, order: seq<Scratch>, parse: string -> Value, c: Content)
    requires Tracks(o) && ToolsRun(o, order, parse) && c.ToolBlock? && c.arguments == NO_ARGUMENTS
    ensures Tracks(Opened(o, c)) && ToolsRun(Opened(o, c), order + [Scratch(|o.content|, "")], parse)
  {
    OpenedTracks(o, c);
    var r, more := Opened(o, c), order + [Scratch(|o.content|, "")];
    forall k | 0 <= k < |more| ensures more[k].at < |r.content| && r.content[more[k].at].ToolBlock? && ToolRuns(r, more[k], parse) {
      if k < |order| {
        assert ToolRuns(o, order[k], parse);
      }
    }
    forall at | 0 <= at < |r.content| && r.content[at].ToolBlock? ensures HasScratch(more, at) {
      if at < |o.content| {
        var j :| 0 <= j < |order| && order[j].at == at;
        assert more[j].at == at;
      } else {
        assert more[|order|].at == at;
      }
    }
  }

  /** More argument text for block j, whose content becomes c. */
  lemma ExtendedToolRuns(o: Output, order: seq<Scratch>, parse: string -> Value, j: nat, c: Content, delta: string)
    requires Tracks(o) && ToolsRun(o, order, parse) && j < |order| && c.ToolBlock?
    requires c.arguments == if delta == "" then o.content[order[j].at].arguments else parse(order[j].partialArgs + delta)
    ensures var r := Extended(o, order[j].at, c, delta);
            Tracks(r) && ToolsRun(r, order[j := Scratch(order[j].at, order[j].partialArgs + delta)], parse)
  {
    var at := order[j].at;
    assert ToolRuns(o, order[j], parse);
    assert delta == "" ==> order[j].partialArgs + delta == order[j].partialArgs;
    ExtendedTracks(o, at, c, delta);
    var r, more := Extended(o, at, c, delta), order[j := Scratch(at, order[j].partialArgs + delta)];
    forall a | 0 <= a < |r.content| && r.content[a].ToolBlock? ensures HasScratch(more, a) {
      assert HasScratch(order, a);
      var k :| 0 <= k < |order| && order[k].at == a;
      assert more[k].at == a;
    }
    forall k | 0 <= k < |more| ensures ToolRuns(r, more[k], parse) {
      assert ToolRuns(o, order[k], parse);
    }
  }

  /** The tool blocks do not notice a change of the other blocks. */
  lemma ToolsRunStill(o: Output, r: Output, order: seq<Scratch>, parse: string -> Value)
    requires Tracks(o) && ToolsRun(o, order, parse) && Tracks(r) && |o.content| <= |r.content|
    requires forall at | 0 <= at < |o.content| && o.content[at].ToolBlock? ::
               r.content[at] == o.content[at] && Phases(r)[at] == Phases(o)[at]
    requires forall at | 0 <= at < |r.content| && r.content[at].ToolBlock? :: at < |o.content| && o.content[at].ToolBlock?
    ensures ToolsRun(r, order, parse)
  {
    forall k | 0 <= k < |order| ensures ToolRuns(r, order[k], parse) {
      assert ToolRuns(o, order[k], parse);
    }
  }

  /** Ending the calls changes their arguments, and nothing else. */
  lemma {:induction false} ToolsClosedSame(o: Output, order: seq<Scratch>, j: nat, parse: string -> Value)
    requires j <= |order| && Placed(o, order)
    ensures var r := ToolsClosed(o, order, j, parse).content;
            |r| == |o.content| && forall at | 0 <= at < |r| :: SameButArguments(o.content[at], r[at])
    decreases |order| - j
  {
    if j < |order| {
      var at := order[j].at;
      ToolsClosedSame(Closed(o, at, WithArguments(o.content[at], parse(order[j].partialArgs))), order, j + 1, parse);
    }
  }
}
