/**
 * Replaying a conversation against a model: contents are made explicit, images
 * a model cannot read become text, thinking and tool-call ids of other models
 * are adapted, and the history is closed.
 */
module Replay {
  import opened Wrappers
  import opened Conversation
  import opened OrphanResults

  /** The model that a turn comes from. */
  datatype Origin = Origin(provider: string, api: string, model: string)

  /** The replay target, and how it rewrites the call ids of other models' turns. */
  datatype Target = Target(id: string, api: string, provider: string, readsImages: bool,
                           normalize: Option<(string, Origin) -> string>)

  const USER_IMAGE_OMITTED := "(image omitted: model does not support images)"
  const TOOL_IMAGE_OMITTED := "(tool image omitted: model does not support images)"

  // ----- Contents -----------------------------------------------------------------------

  function OrEmpty<T>(content: Option<seq<T>>): Option<seq<T>> { if content.None? then Some([]) else content }

  function WithContent(m: Message): Message {
    match m
    case User(plain, blocks, _) => if plain.None? then m.(blocks := OrEmpty(blocks)) else m
    case Assistant(parts, _, _, _, _, _) => m.(parts := OrEmpty(parts))
    case ToolResult(_, _, content, _, _) => m.(content := OrEmpty(content))
  }

  /** Each run of images becomes one placeholder, or none after a text that already is one. */
  function ImagesReplaced(content: seq<UserPart>, placeholder: string, afterPlaceholder: bool): seq<UserPart> {
    if content == [] then []
    else match content[0]
      case Image(_, _) =>
        (if afterPlaceholder then [] else [Text(placeholder, "")]) + ImagesReplaced(content[1..], placeholder, true)
      case Text(text, _) => [content[0]] + ImagesReplaced(content[1..], placeholder, text == placeholder)
  }

  function WithoutImages(m: Message, target: Target): Message {
    if target.readsImages then m
    else match m
      case User(plain, blocks, _) =>
        if plain.None? && blocks.Some? then m.(blocks := Some(ImagesReplaced(blocks.value, USER_IMAGE_OMITTED, false)))
        else m
      case ToolResult(_, _, content, _, _) =>
        if content.Some? then m.(content := Some(ImagesReplaced(content.value, TOOL_IMAGE_OMITTED, false))) else m
      case Assistant(_, _, _, _, _, _) => m
  }

  lemma ImagesReplacedStep(content: seq<UserPart>, i: nat, placeholder: string, after: bool, result: seq<UserPart>)
    requires i < |content|
    ensures result + ImagesReplaced(content[i..], placeholder, after) ==
              match content[i]
              case Image(_, _) =>
                (if after then result else result + [Text(placeholder, "")])
                  + ImagesReplaced(content[i + 1..], placeholder, true)
              case Text(text, _) => (result + [content[i]]) + ImagesReplaced(content[i + 1..], placeholder, text == placeholder)
  {
    assert content[i..][0] == content[i] && content[i..][1..] == content[i + 1..];
  }

  method ReplaceImagesWithPlaceholder(content: seq<UserPart>, placeholder: string) returns (result: seq<UserPart>)
    ensures result == ImagesReplaced(content, placeholder, false)
  {
    assert content[0..] == content;
    result := [];
    var previousWasPlaceholder := false;
    for i := 0 to |content|
      invariant ImagesReplaced(content, placeholder, false)
             == result + ImagesReplaced(content[i..], placeholder, previousWasPlaceholder)
    {
      ImagesReplacedStep(content, i, placeholder, previousWasPlaceholder, result);
      match content[i]
      case Image(_, _) =>
        if !previousWasPlaceholder {
          result := result + [Text(placeholder, "")];
        }
        previousWasPlaceholder := true;
      case Text(text, _) =>
        result := result + [content[i]];
        previousWasPlaceholder := text == placeholder;
    }
    assert result + [] == result;
  }

  // ----- Assistant blocks ----------------------------------------------------------------

  /** Unicode's White_Space characters. */
  predicate IsSpace(c: char) {
    c in "\t\n\U{b}\U{c}\r \U{85}\U{a0}\U{1680}\U{2028}\U{2029}\U{202f}\U{205f}\U{3000}" || '\U{2000}' <= c <= '\U{200a}'
  }

  predicate IsBlank(s: string) { forall c | c in s :: IsSpace(c) }

  function OriginOf(m: Message): Origin
    requires m.Assistant?
  {
    Origin(m.provider, m.api, m.model)
  }

  predicate IsOwn(o: Origin, target: Target) {
    o.provider == target.provider && o.api == target.api && o.model == target.id
  }

  predicate IsSameModel(m: Message, target: Target) { m.Assistant? && IsOwn(OriginOf(m), target) }

  function NewId(id: string, o: Origin, target: Target): string {
    if target.normalize.Some? then target.normalize.value(id, o) else id
  }

  /** A block of another model's turn. */
  function ForeignPart(p: Part, o: Origin, target: Target): seq<Part> {
    match p
    case Thinking(thinking, _, redacted) =>
      if redacted || IsBlank(thinking) then [] else [TextPart(thinking, "")]
    case TextPart(text, _) => [TextPart(text, "")]
    case Call(call) => [Call(call.(id := NewId(call.id, o, target), thoughtSignature := ""))]
  }

  function OwnPart(p: Part): seq<Part> {
    if p.Thinking? && !p.redacted && p.signature == "" && IsBlank(p.thinking) then [] else [p]
  }

  function PartOf(p: Part, o: Origin, target: Target): seq<Part> {
    if IsOwn(o, target) then OwnPart(p) else ForeignPart(p, o, target)
  }

  function Parts(ps: seq<Part>, o: Origin, target: Target): seq<Part> {
    if ps == [] then [] else PartOf(ps[0], o, target) + Parts(ps[1..], o, target)
  }

  /** The renamed ids, among the calls of a turn. */
  function Renamed(ps: seq<Part>, o: Origin, target: Target, ids: map<string, string>): map<string, string> {
    if ps == [] then ids
    else Renamed(ps[1..], o, target,
                 if !IsOwn(o, target) && ps[0].Call? && NewId(ps[0].call.id, o, target) != ps[0].call.id
                 then ids[ps[0].call.id := NewId(ps[0].call.id, o, target)] else ids)
  }

  function RenamedBy(m: Message, target: Target, ids: map<string, string>): map<string, string> {
    if m.Assistant? && m.parts.Some? then Renamed(m.parts.value, OriginOf(m), target, ids) else ids
  }

  function Transformed(m: Message, target: Target, ids: map<string, string>): Message {
    match m
    case User(_, _, _) => m
    case ToolResult(id, _, _, _, _) => if id in ids then m.(callId := ids[id]) else m
    case Assistant(parts, _, _, _, _, _) =>
      m.(parts := Some(Parts(if parts.Some? then parts.value else [], OriginOf(m), target)))
  }

  /** The messages from the front, with the ids renamed so far. */
  function TransformedAll(ms: seq<Message>, target: Target, ids: map<string, string>): (r: seq<Message>)
    ensures |r| == |ms|
  {
    if ms == [] then []
    else [Transformed(ms[0], target, ids)] + TransformedAll(ms[1..], target, RenamedBy(ms[0], target, ids))
  }

  function Prepared(ms: seq<Message>, target: Target): (r: seq<Message>)
    ensures |r| == |ms|
    ensures forall i | 0 <= i < |ms| :: r[i] == WithoutImages(WithContent(ms[i]), target)
  {
    seq(|ms|, i requires 0 <= i < |ms| => WithoutImages(WithContent(ms[i]), target))
  }

  /** What TransformMessages returns. */
  function Replayed(ms: seq<Message>, target: Target, now: int): seq<Message> {
    Closed(TransformedAll(Prepared(ms, target), target, map[]), now)
  }

  // ----- The methods ---------------------------------------------------------------------

  lemma PartsStep(ps: seq<Part>, i: nat, o: Origin, target: Target, content: seq<Part>, ids: map<string, string>)
    requires i < |ps|
    ensures content + Parts(ps[i..], o, target) == (content + PartOf(ps[i], o, target)) + Parts(ps[i + 1..], o, target)
    ensures Renamed(ps[i..], o, target, ids) == Renamed(ps[i + 1..], o, target, Renamed([ps[i]], o, target, ids))
  {
    hide PartOf;
    assert ps[i..][0] == ps[i] && ps[i..][1..] == ps[i + 1..];
  }

  lemma PartsEnd(ps: seq<Part>, o: Origin, target: Target, content: seq<Part>, ids: map<string, string>)
    requires ps == []
    ensures content + Parts(ps, o, target) == content && Renamed(ps, o, target, ids) == ids
  {
  }

  class Transformer {
    const target: Target
    var toolCallIds: map<string, string>

    constructor (target: Target)
      ensures this.target == target && toolCallIds == map[]
    {
      this.target, toolCallIds := target, map[];
    }

    /** A block of a turn; source is where the turn comes from. */
    method Block(p: Part, source: Origin) returns (r: seq<Part>)
      modifies this
      ensures r == PartOf(p, source, target)
      ensures toolCallIds == Renamed([p], source, target, old(toolCallIds))
    {
      var same := IsOwn(source, target);
      match p
      case Thinking(thinking, signature, redacted) =>
        if redacted {
          return if same then [p] else [];
        }
        if same && signature != "" {
          return [p];
        }
        if IsBlank(thinking) {
          return [];
        }
        return if same then [p] else [TextPart(thinking, "")];
      case TextPart(text, _) =>
        return if same then [p] else [TextPart(text, "")];
      case Call(call) =>
        var toolCall := call;
        if !same && toolCall.thoughtSignature != "" {
          toolCall := toolCall.(thoughtSignature := "");
        }
        if !same && target.normalize.Some? {
          var normalizedId := target.normalize.value(toolCall.id, source);
          if normalizedId != toolCall.id {
            toolCallIds := toolCallIds[toolCall.id := normalizedId];
            toolCall := toolCall.(id := normalizedId);
          }
        }
        r := [Call(toolCall)];
    }

    method One(m: Message) returns (r: Message)
      modifies this
      ensures r == Transformed(m, target, old(toolCallIds))
      ensures toolCallIds == RenamedBy(m, target, old(toolCallIds))
    {
      hide Parts, Renamed, PartOf;
      match m
      case User(_, _, _) =>
        r := m;
      case ToolResult(id, _, _, _, _) =>
        if id in toolCallIds && toolCallIds[id] != id {
          return m.(callId := toolCallIds[id]);
        }
        r := m;
      case Assistant(parts, _, _, _, _, _) =>
        var source := OriginOf(m);
        var blocks := if parts.Some? then parts.value else [];
        var content := [];
        assert blocks[0..] == blocks;
        PartsEnd([], source, target, content, toolCallIds);
        for i := 0 to |blocks|
          invariant Parts(blocks, source, target) == content + Parts(blocks[i..], source, target)
          invariant Renamed(blocks, source, target, old(toolCallIds)) == Renamed(blocks[i..], source, target, toolCallIds)
        {
          PartsStep(blocks, i, source, target, content, toolCallIds);
          var part := Block(blocks[i], source);
          content := content + part;
        }
        PartsEnd(blocks[|blocks|..], source, target, content, toolCallIds);
        r := m.(parts := Some(content));
    }
  }

  method PrepareOne(m: Message, target: Target) returns (r: Message)
    ensures r == WithoutImages(WithContent(m), target)
  {
    var explicit := WithContent(m);
    if target.readsImages {
      return explicit;
    }
    match explicit
    case User(plain, blocks, _) =>
      if plain.None? {
        var replaced := ReplaceImagesWithPlaceholder(blocks.value, USER_IMAGE_OMITTED);
        return explicit.(blocks := Some(replaced));
      }
      r := explicit;
    case ToolResult(_, _, content, _, _) =>
      var replaced := ReplaceImagesWithPlaceholder(content.value, TOOL_IMAGE_OMITTED);
      r := explicit.(content := Some(replaced));
    case Assistant(_, _, _, _, _, _) =>
      r := explicit;
  }

  method TransformMessages(messages: seq<Message>, target: Target, now: int) returns (r: seq<Message>)
    ensures r == Replayed(messages, target, now)
  {
    var prepared := [];
    for i := 0 to |messages|
      invariant prepared == Prepared(messages, target)[..i]
    {
      var m := PrepareOne(messages[i], target);
      prepared := prepared + [m];
    }
    assert prepared == Prepared(messages, target);
    var t := new Transformer(target);
    var transformed := [];
    for i := 0 to |prepared|
      invariant fresh(t) && t.target == target
      invariant TransformedAll(prepared, target, map[])
             == transformed + TransformedAll(prepared[i..], target, t.toolCallIds)
    {
      assert prepared[i..][0] == prepared[i] && prepared[i..][1..] == prepared[i + 1..];
      var m := t.One(prepared[i]);
      transformed := transformed + [m];
    }
    assert transformed + [] == transformed;
    r := InsertOrphanToolResults(transformed, now);
  }
}
