/** Tool arguments from end to end: pieces of JSON text on the wire, an object in the message. */
module ArgumentDelivery {
  import opened Wrappers
  import opened JsonText
  import opened JsonDocument
  import opened BlockEvents
  import opened StringRepair
  import opened LenientGrowth
  import S = StreamingJson
  import C = CompletionsDecoder
  import P = CompletionsProtocol
  import M = MistralDecoder
  import R = ResponsesDecoder
  import I = ResponsesItems
  import A = AnthropicDecoder

  /** How the decoders turn argument text into arguments. */
  ghost function Parse(): string -> Value { (s: string) => Object(S.ParseStreamingObject(s)) }

  /**
   * The text is valid UTF-8, and an object between white space, where raw line
   * breaks in strings are let pass, or Repair makes it one.
   */
  ghost predicate IsObjectText(t: string, lead: string, d: Document, trail: string) {
    && WellFormed(d) && d.ObjectDoc? && AllSpace(lead) && AllSpace(trail) && IsUtf8(t)
    && (t == lead + (Text(d) + trail) || Repair(t) == lead + (Text(d) + trail))
  }

  /** The block at that place is a call with exactly the document's object as its arguments. */
  predicate Delivered(content: seq<Content>, at: nat, d: Document) {
    && WellFormed(d) && at < |content|
    && content[at].ToolBlock? && content[at].arguments == Meaning(d)
  }

  /** The whole text of an object parses to what the object means. */
  lemma WholeArguments(t: string, lead: string, d: Document, trail: string)
    requires IsObjectText(t, lead, d, trail)
    ensures WellFormed(d) && Parse()(t) == Meaning(d)
  {
    hide IsUtf8, WellFormed, Text, Shown, Meaning, S.ParseStreamingObject, Repair;
    if t == lead + (Text(d) + trail) {
      assert t[..|t|] == t;
      S.StreamedArguments(lead, d, trail, |t|);
      FullyShown(d, After(|t|, |lead|));
    } else {
      WholeLenientArguments(t, lead, d, trail);
    }
  }

  /**
   * However an object's text was cut into deltas, and whatever else came between
   * them, a completions call ends with exactly that object as its arguments.
   */
  lemma CompletionsDeliverArguments(chunks: seq<C.Chunk>, j: nat, lead: string, d: Document, trail: string)
    requires j < |C.Decoded(chunks, false, Parse()).0.order|
    requires IsObjectText(P.TextTo(P.ChunksLog(C.INITIAL, chunks, Parse()), j), lead, d, trail)
    ensures var s := C.Decoded(chunks, false, Parse()).0;
            Delivered(s.out.content, s.order[j].at, d)
  {
    hide C.Decoded, P.ChunksLog, P.TextTo, IsObjectText, Parse;
    P.CompletionsCollectArguments(chunks, Parse(), j);
    WholeArguments(P.TextTo(P.ChunksLog(C.INITIAL, chunks, Parse()), j), lead, d, trail);
  }

  /** The same for a Mistral call, whose deltas share an id and an index. */
  lemma MistralDeliversArguments(chunks: seq<M.Chunk>, key: M.Key, lead: string, d: Document, trail: string)
    requires M.Decoded(chunks, Parse()).1 && key in M.Decoded(chunks, Parse()).0.keys
    requires IsObjectText(M.ArgumentText(chunks, key), lead, d, trail)
    ensures var s := M.Decoded(chunks, Parse()).0;
            s.keys[key] < |s.order| && Delivered(s.w.out.content, s.order[s.keys[key]].at, d)
  {
    hide M.Decoded, M.ArgumentText, IsObjectText, Parse;
    M.MistralRoutesArguments(chunks, Parse(), key);
    WholeArguments(M.ArgumentText(chunks, key), lead, d, trail);
  }

  /**
   * A Responses call that has ended: if the text its own events leave, or its
   * finished item brings, is an object's, that object is its arguments, whatever
   * other items came in between.
   */
  lemma ResponsesDeliverArguments(es: seq<R.RawEvent>, at: nat, lead: string, d: Document, trail: string)
    requires var s := R.Decoded(R.INITIAL, es, false, Parse()).0;
             && at < |s.out.content| && s.out.content[at].ToolBlock?
             && Tracks(s.out) && Phases(s.out)[at].Ended?
    requires var items := I.NotedAll(I.NO_ITEMS, es).items;
             at < |items| && items[at].finish.Some? && IsObjectText(I.FinalText(items[at]), lead, d, trail)
    ensures Delivered(R.Decoded(R.INITIAL, es, false, Parse()).0.out.content, at, d)
  {
    hide R.Decoded, I.NotedAll, I.FinalText, IsObjectText, Parse, Tracks, I.Spelled, I.Buffered;
    I.ArgumentsSpelledExactly(es, Parse(), at);
    WholeArguments(I.FinalText(I.NotedAll(I.NO_ITEMS, es).items[at]), lead, d, trail);
  }

  /** An Anthropic call, when all the JSON text sent to its index is an object's. */
  lemma AnthropicDeliversArguments(es: seq<A.RawEvent>, index: int, lead: string, d: Document, trail: string)
    requires var s := A.Decoded(A.INITIAL, es, false, false, Parse()).0; var pos := A.Found(s.blocks, index, 0);
             pos.Some? && s.blocks[pos.value].kind == IsTool
    requires IsObjectText(A.JsonFor(map[], es, index), lead, d, trail)
    ensures var s := A.Decoded(A.INITIAL, es, false, false, Parse()).0; var pos := A.Found(s.blocks, index, 0).value;
            Delivered(s.out.content, pos, d)
  {
    hide A.Decoded, A.JsonFor, A.Found, IsObjectText, Parse;
    ObjectTextNotEmpty(A.JsonFor(map[], es, index), lead, d, trail);
    A.AnthropicCollectsArguments(es, Parse(), index);
    WholeArguments(A.JsonFor(map[], es, index), lead, d, trail);
  }

  lemma ObjectTextNotEmpty(t: string, lead: string, d: Document, trail: string)
    requires IsObjectText(t, lead, d, trail)
    ensures t != ""
  {
  }

  /** A stop without deltas leaves the empty object, whatever input the start brought. */
  lemma AnthropicInputIsReplaced(id: string, name: string, input: map<string, Value>)
    ensures var es := [A.BlockStart(0, A.NewTool(id, name, input)), A.BlockStop(0)];
            A.Decoded(A.INITIAL, es, false, false, Parse()).0.out.content == [ToolBlock(id, name, Object(map[]), "")]
  {
    A.StopReplacesInput(id, name, input, Parse());
    assert S.IsBlank("");
  }
}
