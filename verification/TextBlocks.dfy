/**
 * The text or thinking block that a decoder has open, as the Google and the
 * Mistral decoders keep it: a delta of the other kind closes it first.
 */
module TextBlocks {
  import opened Wrappers
  import opened JsonText
  import opened BlockEvents

  datatype Current = NoBlock | Current(kind: Kind, at: nat)

  datatype Writing = Writing(out: Output, current: Current)

  const NOTHING_WRITTEN := Writing(NO_OUTPUT, NoBlock)

  function EmptyBlock(kind: Kind): Content {
    if kind == IsThinking then ThinkingBlock("", "", false) else TextBlock("", "")
  }

  /** More text, and the last signature that was not empty. */
  function WithText(c: Content, text: string, signature: string): Content
    requires !c.ToolBlock?
  {
    c.(text := c.text + text, signature := if signature != "" then signature else c.signature)
  }

  /** The open block is a text or thinking block of its kind. */
  predicate InPlace(w: Writing) {
    w.current.Current? ==>
      w.current.kind != IsTool && w.current.at < |w.out.content| && KindOf(w.out.content[w.current.at]) == w.current.kind
  }

  function CurrentClosed(w: Writing): (r: Writing)
    requires InPlace(w)
    ensures r.current == NoBlock && r.out.content == w.out.content
  {
    if w.current.NoBlock? then w
    else Writing(Closed(w.out, w.current.at, w.out.content[w.current.at]), NoBlock)
  }

  function Switched(w: Writing, want: Kind): (r: Writing)
    requires InPlace(w) && want != IsTool
    ensures InPlace(r) && r.current.Current? && r.current.kind == want
  {
    if w.current.Current? && w.current.kind == want then w
    else Writing(Opened(CurrentClosed(w).out, EmptyBlock(want)), Current(want, |w.out.content|))
  }

  function Appended(w: Writing, want: Kind, text: string, signature: string): (r: Writing)
    requires InPlace(w) && want != IsTool
    ensures InPlace(r) && r.current.Current? && r.current.kind == want
  {
    var s := Switched(w, want);
    var at := s.current.at;
    Writing(Extended(s.out, at, WithText(s.out.content[at], text, signature), text), s.current)
  }

  // ----- The writer -------------------------------------------------------------------------

  class BlockWriter {
    var content: seq<Content>
    var events: seq<BlockEvent>
    var kind: Option<Kind>
    var contentIndex: int

    ghost predicate Valid() reads this { (kind.Some? ==> 0 <= contentIndex) && InPlace(Abstract()) }

    ghost function Abstract(): Writing reads this {
      Writing(Output(content, events), if kind.Some? && contentIndex >= 0 then Current(kind.value, contentIndex) else NoBlock)
    }

    constructor ()
      ensures Valid() && Abstract() == NOTHING_WRITTEN
    {
      content, events, kind, contentIndex := [], [], None, -1;
    }

    method CloseCurrent()
      requires Valid()
      modifies this
      ensures Valid() && Abstract() == CurrentClosed(old(Abstract()))
    {
      if kind.None? {
        return;
      }
      events := events + [End(contentIndex, content[contentIndex])];
      kind, contentIndex := None, -1;
      assert content == old(content)[old(contentIndex) := content[old(contentIndex)]];
    }

    method AppendDelta(want: Kind, text: string, signature: string)
      requires Valid() && want != IsTool
      modifies this
      ensures Valid() && Abstract() == Appended(old(Abstract()), want, text, signature)
    {
      if kind != Some(want) {
        CloseCurrent();
        content := content + [EmptyBlock(want)];
        contentIndex := |content| - 1;
        kind := Some(want);
        events := events + [Start(contentIndex, want)];
      }
      content := content[contentIndex := WithText(content[contentIndex], text, signature)];
      events := events + [Delta(contentIndex, want, text)];
    }

    /** A new tool block; returns its index. */
    method OpenTool(c: Content) returns (at: nat)
      requires Valid() && c.ToolBlock? && kind.None?
      modifies this`content, this`events
      ensures Valid() && at == old(|content|)
      ensures Abstract() == Writing(Opened(old(Abstract().out), c), NoBlock)
    {
      content := content + [c];
      at := |content| - 1;
      events := events + [Start(at, IsTool)];
    }

    method ExtendTool(at: nat, c: Content, delta: string)
      requires Valid() && at < |content| && c.ToolBlock? && kind.None?
      modifies this`content, this`events
      ensures Valid() && Abstract() == Writing(Extended(old(Abstract().out), at, c, delta), NoBlock)
    {
      content := content[at := c];
      events := events + [Delta(at, IsTool, delta)];
    }

    method CloseTool(at: nat, c: Content)
      requires Valid() && at < |content| && c.ToolBlock? && kind.None?
      modifies this`content, this`events
      ensures Valid() && Abstract() == Writing(Closed(old(Abstract().out), at, c), NoBlock)
    {
      content := content[at := c];
      events := events + [End(at, c)];
    }
  }

  // ----- What holds of it -------------------------------------------------------------------

  /**
   * The events keep the protocol; every text or thinking block holds the
   * concatenation of its deltas; it runs while it is the open block, and it
   * ended with what it holds.
   */
  predicate TextFollows(w: Writing) {
    && Tracks(w.out) && InPlace(w)
    && forall at | 0 <= at < |w.out.content| && !w.out.content[at].ToolBlock? ::
         && Phases(w.out)[at].text == w.out.content[at].text
         && (Phases(w.out)[at].Running? <==> w.current.Current? && w.current.at == at)
         && (Phases(w.out)[at].Ended? ==> Phases(w.out)[at].final == w.out.content[at])
  }

  /** A step that leaves the blocks before it as they are, apart from the open one. */
  predicate KeepsTools(w: Writing, r: Writing)
    requires Tracks(w.out) && Tracks(r.out)
  {
    && |w.out.content| <= |r.out.content|
    && (forall at | 0 <= at < |w.out.content| && w.out.content[at].ToolBlock? ::
          r.out.content[at] == w.out.content[at] && Phases(r.out)[at] == Phases(w.out)[at])
    && (forall at | |w.out.content| <= at < |r.out.content| :: !r.out.content[at].ToolBlock?)
    && (forall at | 0 <= at < |w.out.content| :: KindOf(w.out.content[at]) == KindOf(r.out.content[at]))
  }

  lemma CurrentClosedFollows(w: Writing)
    requires TextFollows(w)
    ensures TextFollows(CurrentClosed(w)) && KeepsTools(w, CurrentClosed(w))
  {
    if w.current.Current? {
      ClosedTracks(w.out, w.current.at, w.out.content[w.current.at]);
    }
  }

  lemma SwitchedFollows(w: Writing, want: Kind)
    requires TextFollows(w) && want != IsTool
    ensures TextFollows(Switched(w, want)) && KeepsTools(w, Switched(w, want))
  {
    if !(w.current.Current? && w.current.kind == want) {
      CurrentClosedFollows(w);
      OpenedTracks(CurrentClosed(w).out, EmptyBlock(want));
    }
  }

  lemma AppendedFollows(w: Writing, want: Kind, text: string, signature: string)
    requires TextFollows(w) && want != IsTool
    ensures TextFollows(Appended(w, want, text, signature)) && KeepsTools(w, Appended(w, want, text, signature))
  {
    SwitchedFollows(w, want);
    var s := Switched(w, want);
    var at := s.current.at;
    ExtendedTracks(s.out, at, WithText(s.out.content[at], text, signature), text);
  }

  lemma OpenedToolFollows(w: Writing, c: Content)
    requires TextFollows(w) && c.ToolBlock?
    ensures TextFollows(w.(out := Opened(w.out, c)))
  {
    OpenedTracks(w.out, c);
  }

  lemma ExtendedToolFollows(w: Writing, at: nat, c: Content, delta: string)
    requires TextFollows(w) && c.ToolBlock?
    requires at < |w.out.content| && w.out.content[at].ToolBlock? && Phases(w.out)[at].Running?
    ensures TextFollows(w.(out := Extended(w.out, at, c, delta))) && TextFollows(w.(out := Closed(w.out, at, c)))
  {
    ExtendedTracks(w.out, at, c, delta);
    ClosedTracks(w.out, at, c);
  }

  // ----- No text is lost, and none is moved -----------------------------------------------------

  /** The deltas of one kind, concatenated in the order they were pushed. */
  function TextOf(es: seq<BlockEvent>, kind: Kind): string
    decreases |es|
  {
    if es == [] then ""
    else TextOf(es[..|es| - 1], kind) +
         if es[|es| - 1].Delta? && es[|es| - 1].kind == kind then es[|es| - 1].delta else ""
  }

  lemma {:induction false} TextOfNext(es: seq<BlockEvent>, e: BlockEvent, kind: Kind)
    ensures TextOf(es + [e], kind) == TextOf(es, kind) + if e.Delta? && e.kind == kind then e.delta else ""
  {
    assert (es + [e])[..|es|] == es;
  }

  lemma CurrentClosedText(w: Writing, kind: Kind)
    requires InPlace(w)
    ensures TextOf(CurrentClosed(w).out.events, kind) == TextOf(w.out.events, kind)
  {
    if w.current.Current? {
      TextOfNext(w.out.events, End(w.current.at, w.out.content[w.current.at]), kind);
    }
  }

  lemma SwitchedText(w: Writing, want: Kind, kind: Kind)
    requires InPlace(w) && want != IsTool
    ensures TextOf(Switched(w, want).out.events, kind) == TextOf(w.out.events, kind)
  {
    hide TextOf;
    if !(w.current.Current? && w.current.kind == want) {
      CurrentClosedText(w, kind);
      TextOfNext(CurrentClosed(w).out.events, Start(|w.out.content|, want), kind);
    }
  }

  lemma AppendedText(w: Writing, want: Kind, text: string, signature: string, kind: Kind)
    requires InPlace(w) && want != IsTool
    ensures TextOf(Appended(w, want, text, signature).out.events, kind)
         == TextOf(w.out.events, kind) + if kind == want then text else ""
  {
    hide TextOf;
    var s := Switched(w, want);
    SwitchedText(w, want, kind);
    TextOfNext(s.out.events, Delta(s.current.at, want, text), kind);
  }

  // ----- Which blocks there are -------------------------------------------------------------------

  /** A piece of text of a kind, a call, or a break that ends a run of text. */
  datatype Piece = Text(kind: Kind, text: string, signature: string) | Call(c: Content) | Break

  /** Text pieces of one kind that follow each other share a block. */
  predicate Joins(ps: seq<Piece>, p: Piece) {
    p.Text? && ps != [] && ps[|ps| - 1].Text? && ps[|ps| - 1].kind == p.kind
  }

  /** The text of the block goes on; a signature that is not empty replaces the one before. */
  function Continued(c: Content, p: Piece): Content
    requires p.Text? && !c.ToolBlock?
  {
    match c
    case TextBlock(text, signature) => TextBlock(text + p.text, if p.signature == "" then signature else p.signature)
    case ThinkingBlock(text, signature, redacted) =>
      ThinkingBlock(text + p.text, if p.signature == "" then signature else p.signature, redacted)
  }

  function NewBlock(kind: Kind, text: string, signature: string): Content {
    if kind == IsThinking then ThinkingBlock(text, signature, false) else TextBlock(text, signature)
  }

  predicate EndsInText(blocks: seq<Content>) { blocks != [] && !blocks[|blocks| - 1].ToolBlock? }

  function LaidOnto(blocks: seq<Content>, joins: bool, p: Piece): seq<Content>
    requires joins ==> p.Text? && EndsInText(blocks)
  {
    match p
    case Call(c) => blocks + [c]
    case Break => blocks
    case Text(kind, text, signature) =>
      if joins then blocks[..|blocks| - 1] + [Continued(blocks[|blocks| - 1], p)] else blocks + [NewBlock(kind, text, signature)]
  }

  /** The blocks that pieces make: one for each run of text of a kind, and one for each call. */
  function Laid(ps: seq<Piece>): (r: seq<Content>)
    ensures ps != [] && ps[|ps| - 1].Text? ==> EndsInText(r)
    decreases |ps|
  {
    if ps == [] then [] else LaidOnto(Laid(ps[..|ps| - 1]), Joins(ps[..|ps| - 1], ps[|ps| - 1]), ps[|ps| - 1])
  }

  /** The message's blocks are those of the pieces, and the open one is that of the run that goes on. */
  predicate LaidOut(w: Writing, ps: seq<Piece>) {
    && |w.out.content| == |Laid(ps)|
    && (forall at | 0 <= at < |Laid(ps)| :: SameButArguments(Laid(ps)[at], w.out.content[at]))
    && (if ps != [] && ps[|ps| - 1].Text? then w.current == Current(ps[|ps| - 1].kind, |w.out.content| - 1)
        else w.current == NoBlock)
  }

  lemma LaidNext(ps: seq<Piece>, p: Piece)
    ensures Laid(ps + [p]) == LaidOnto(Laid(ps), Joins(ps, p), p)
  {
    assert (ps + [p])[..|ps|] == ps;
  }

  lemma AppendedLaid(w: Writing, ps: seq<Piece>, want: Kind, text: string, signature: string)
    requires InPlace(w) && LaidOut(w, ps) && want != IsTool
    ensures var r, more := Appended(w, want, text, signature), ps + [Text(want, text, signature)];
            LaidOut(r, more) && (w.out.content == Laid(ps) ==> r.out.content == Laid(more))
  {
    hide Laid;
    var p := Text(want, text, signature);
    LaidNext(ps, p);
    if Joins(ps, p) {
      var blocks := Laid(ps);
      assert SameButArguments(blocks[|blocks| - 1], w.out.content[|blocks| - 1]);
    } else {
      assert "" + text == text;
    }
  }

  lemma ClosedLaid(w: Writing, ps: seq<Piece>)
    requires InPlace(w) && LaidOut(w, ps)
    ensures LaidOut(CurrentClosed(w), ps + [Break]) && Laid(ps + [Break]) == Laid(ps)
  {
    hide Laid;
    LaidNext(ps, Break);
  }

  lemma ToolLaid(w: Writing, r: Writing, ps: seq<Piece>, c: Content)
    requires LaidOut(w, ps) && r.current == NoBlock && r.out.content == w.out.content + [c] && c.ToolBlock?
    ensures LaidOut(r, ps + [Call(c)]) && Laid(ps + [Call(c)]) == Laid(ps) + [c]
  {
    hide Laid;
    LaidNext(ps, Call(c));
  }
}
