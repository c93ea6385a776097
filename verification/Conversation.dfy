/** The messages of a conversation, as a provider replays them. */
module Conversation {
  import opened Wrappers

  /** A block of a user message or of a tool result. */
  datatype UserPart =
    | Text(text: string, signature: string)
    | Image(data: string, mimeType: string)

  datatype ToolCall = ToolCall(id: string, name: string, arguments: string, thoughtSignature: string)

  /** A block of an assistant message. */
  datatype Part =
    | TextPart(text: string, signature: string)
    | Thinking(thinking: string, signature: string, redacted: bool)
    | Call(call: ToolCall)

  datatype StopReason = Stop | Length | ToolUse | Failed | Aborted

  /** Contents are optional because an untyped caller may leave them unset. */
  datatype Message =
    | User(plain: Option<string>, blocks: Option<seq<UserPart>>, timestamp: int)
    | Assistant(parts: Option<seq<Part>>, api: string, provider: string, model: string,
                stopReason: StopReason, details: string)
    | ToolResult(callId: string, toolName: string, content: Option<seq<UserPart>>, isError: bool, timestamp: int)

  predicate IsFailedTurn(m: Message) { m.Assistant? && (m.stopReason.Failed? || m.stopReason.Aborted?) }

  function CallsIn(parts: seq<Part>): seq<ToolCall> {
    if parts == [] then []
    else (if parts[0].Call? then [parts[0].call] else []) + CallsIn(parts[1..])
  }

  /** The tool calls of an assistant message, in order. */
  function Calls(m: Message): seq<ToolCall> {
    if m.Assistant? && m.parts.Some? then CallsIn(m.parts.value) else []
  }

  lemma {:induction false} CallsInAppend(a: seq<Part>, b: seq<Part>)
    ensures CallsIn(a + b) == CallsIn(a) + CallsIn(b)
  {
    if a == [] {
      assert a + b == b;
    } else {
      assert (a + b)[1..] == a[1..] + b;
      CallsInAppend(a[1..], b);
      var head := if a[0].Call? then [a[0].call] else [];
      assert head + (CallsIn(a[1..]) + CallsIn(b)) == (head + CallsIn(a[1..])) + CallsIn(b);
    }
  }
}
