/** What replaying makes of texts, thinking, calls and images, told from the messages. */
module ReplayTexts {
  import opened Wrappers
  import opened Conversation
  import opened OrphanResults
  import opened Replay

  // ----- Assistant turns ---------------------------------------------------------------------

  /** The texts that a reader of a turn sees. */
  function TextsOf(ps: seq<Part>): seq<string> {
    if ps == [] then [] else (if ps[0].TextPart? then [ps[0].text] else []) + TextsOf(ps[1..])
  }

  /** A text, or thinking that says something and is not redacted. */
  function Spoken(p: Part): seq<string> {
    match p
    case TextPart(text, _) => [text]
    case Thinking(thinking, _, redacted) =>
      if !redacted && (exists k :: 0 <= k < |thinking| && !IsSpace(thinking[k])) then [thinking] else []
    case Call(_) => []
  }

  /** A turn's texts, and the thinking that says something and is not redacted, in order. */
  function SpokenIn(ps: seq<Part>): seq<string> { if ps == [] then [] else Spoken(ps[0]) + SpokenIn(ps[1..]) }

  /** Calls with the ids that they get, and without thought signatures. */
  function CallsRenamed(calls: seq<ToolCall>, o: Origin, target: Target): seq<ToolCall> {
    if calls == [] then []
    else [ToolCall(if target.normalize.Some? then target.normalize.value(calls[0].id, o) else calls[0].id,
                   calls[0].name, calls[0].arguments, "")] + CallsRenamed(calls[1..], o, target)
  }

  lemma {:induction false} TextsOfAppend(a: seq<Part>, b: seq<Part>)
    ensures TextsOf(a + b) == TextsOf(a) + TextsOf(b)
  {
    if a == [] {
      assert a + b == b;
    } else {
      assert (a + b)[1..] == a[1..] + b;
      TextsOfAppend(a[1..], b);
    }
  }

  lemma OnePartSpeaks(p: Part, o: Origin, target: Target)
    requires !IsOwn(o, target)
    ensures TextsOf(PartOf(p, o, target)) == SpokenIn([p])
    ensures CallsIn(PartOf(p, o, target)) == CallsRenamed(CallsIn([p]), o, target)
    ensures forall r | r in PartOf(p, o, target) :: !r.Thinking?
  {
    assert [p][1..] == [];
    if p.Thinking? && !IsBlank(p.thinking) {
      var c :| c in p.thinking && !IsSpace(c);
      var k :| 0 <= k < |p.thinking| && p.thinking[k] == c;
      assert !IsSpace(p.thinking[k]);
    }
  }

  lemma {:induction false} CallsRenamedAppend(a: seq<ToolCall>, b: seq<ToolCall>, o: Origin, target: Target)
    ensures CallsRenamed(a + b, o, target) == CallsRenamed(a, o, target) + CallsRenamed(b, o, target)
  {
    if a == [] {
      assert a + b == b;
    } else {
      assert (a + b)[1..] == a[1..] + b;
      CallsRenamedAppend(a[1..], b, o, target);
    }
  }

  lemma FirstSpeaks(ps: seq<Part>)
    requires ps != []
    ensures SpokenIn(ps) == SpokenIn([ps[0]]) + SpokenIn(ps[1..])
  {
    hide Spoken;
    assert SpokenIn([ps[0]]) == Spoken(ps[0]) by {
      assert [ps[0]][1..] == [];
      assert Spoken(ps[0]) + [] == Spoken(ps[0]);
    }
  }

  lemma {:induction false} PartsSpeak(ps: seq<Part>, o: Origin, target: Target)
    requires !IsOwn(o, target)
    ensures var r := Parts(ps, o, target);
            && TextsOf(r) == SpokenIn(ps) && CallsIn(r) == CallsRenamed(CallsIn(ps), o, target)
            && forall p | p in r :: !p.Thinking?
  {
    hide PartOf, IsOwn;
    if ps != [] {
      hide TextsOf, SpokenIn, CallsIn, CallsRenamed;
      var first, rest := PartOf(ps[0], o, target), Parts(ps[1..], o, target);
      OnePartSpeaks(ps[0], o, target);
      PartsSpeak(ps[1..], o, target);
      TextsOfAppend(first, rest);
      CallsInAppend(first, rest);
      CallsRenamedAppend(CallsIn([ps[0]]), CallsIn(ps[1..]), o, target);
      FirstSpeaks(ps);
      assert ps == [ps[0]] + ps[1..];
      CallsInAppend([ps[0]], ps[1..]);
    }
  }

  lemma {:induction false} TransformedAllAt(ms: seq<Message>, target: Target, ids: map<string, string>, i: nat) returns (at: map<string, string>)
    requires i < |ms|
    ensures TransformedAll(ms, target, ids)[i] == Transformed(ms[i], target, at)
    decreases |ms|
  {
    at := ids;
    if i > 0 {
      at := TransformedAllAt(ms[1..], target, RenamedBy(ms[0], target, ids), i - 1);
    }
  }

  function PartsIn(m: Message): seq<Part>
    requires m.Assistant?
  {
    if m.parts.Some? then m.parts.value else []
  }

  /**
   * Every turn of another model: its visible texts are its texts and the thinking
   * that says something and is not redacted, in order; its calls are the calls it
   * made, each with the id it gets; nothing else of it is left, and nothing else
   * about the turn changes.
   */
  lemma ForeignTurnSpeaks(ms: seq<Message>, target: Target, i: nat)
    requires i < |ms| && ms[i].Assistant? && !IsSameModel(ms[i], target)
    ensures var r := TransformedAll(Prepared(ms, target), target, map[])[i];
            && r.Assistant? && r.parts.Some? && r == ms[i].(parts := r.parts)
            && TextsOf(r.parts.value) == SpokenIn(PartsIn(ms[i]))
            && CallsIn(r.parts.value) == CallsRenamed(CallsIn(PartsIn(ms[i])), OriginOf(ms[i]), target)
            && forall p | p in r.parts.value :: !p.Thinking?
  {
    var at := TransformedAllAt(Prepared(ms, target), target, map[], i);
    PartsSpeak(PartsIn(ms[i]), OriginOf(ms[i]), target);
  }

  /** What a turn of the target model keeps: all but thinking that says nothing and is neither signed nor redacted. */
  predicate StaysOwn(p: Part) {
    p.Thinking? ==> p.redacted || p.signature != "" || exists k :: 0 <= k < |p.thinking| && !IsSpace(p.thinking[k])
  }

  function OnlyOwn(ps: seq<Part>): seq<Part> {
    if ps == [] then [] else (if StaysOwn(ps[0]) then [ps[0]] else []) + OnlyOwn(ps[1..])
  }

  lemma {:induction false} OwnPartsStay(ps: seq<Part>, o: Origin, target: Target)
    requires IsOwn(o, target)
    ensures Parts(ps, o, target) == OnlyOwn(ps)
  {
    if ps != [] {
      OwnPartsStay(ps[1..], o, target);
      if ps[0].Thinking? && !IsBlank(ps[0].thinking) {
        var thinking := ps[0].thinking;
        var c :| c in thinking && !IsSpace(c);
        var k :| 0 <= k < |thinking| && thinking[k] == c;
        assert !IsSpace(thinking[k]);
      }
    }
  }

  lemma OwnTurnStays(ms: seq<Message>, target: Target, i: nat)
    requires i < |ms| && IsSameModel(ms[i], target)
    ensures TransformedAll(Prepared(ms, target), target, map[])[i] == ms[i].(parts := Some(OnlyOwn(PartsIn(ms[i]))))
  {
    var at := TransformedAllAt(Prepared(ms, target), target, map[], i);
    OwnPartsStay(PartsIn(ms[i]), OriginOf(ms[i]), target);
  }

  // ----- Images ------------------------------------------------------------------------------

  /** What stands for block i: nothing for an image behind another, or behind a text that is a placeholder already. */
  function StandsFor(content: seq<UserPart>, placeholder: string, i: nat): seq<UserPart>
    requires i < |content|
  {
    if content[i].Text? then [content[i]]
    else if i > 0 && (content[i - 1].Image? || content[i - 1].text == placeholder) then []
    else [Text(placeholder, "")]
  }

  function StandFrom(content: seq<UserPart>, placeholder: string, i: nat): seq<UserPart>
    requires i <= |content|
    decreases |content| - i
  {
    if i == |content| then [] else StandsFor(content, placeholder, i) + StandFrom(content, placeholder, i + 1)
  }

  lemma {:induction false} ReplacedFrom(content: seq<UserPart>, placeholder: string, i: nat)
    requires i <= |content|
    ensures ImagesReplaced(content[i..], placeholder, i > 0 && (content[i - 1].Image? || content[i - 1].text == placeholder))
         == StandFrom(content, placeholder, i)
    decreases |content| - i
  {
    if i < |content| {
      assert content[i..][0] == content[i] && content[i..][1..] == content[i + 1..];
      ReplacedFrom(content, placeholder, i + 1);
    }
  }

  /** Each block keeps its place, and each run of images leaves one placeholder, told from neighbours alone. */
  lemma ImagesStand(content: seq<UserPart>, placeholder: string)
    ensures ImagesReplaced(content, placeholder, false) == StandFrom(content, placeholder, 0)
  {
    assert content[0..] == content;
    ReplacedFrom(content, placeholder, 0);
  }
}
