/**
 * The partial parser against a machine that reads one character after the
 * other, with a stack of the containers that are open: for every text, the
 * parser returns what the machine shows when the text ends.
 */
module PartialMachine {
  import opened Wrappers
  import opened JsonText
  import opened PartialParser

  // ----- The machine -------------------------------------------------------------------------

  /** An open container: what it holds so far, and the key whose value is being read. */
  datatype Frame = InArray(items: seq<Value>) | InObject(fields: map<string, Value>, key: string)

  type High = code: int | IsHighSurrogate(code) witness 0xD800

  /** A string so far, and a high surrogate that waits for its low one; it may be a key. */
  datatype Reading = Reading(bytes: string, high: Option<High>, isKey: bool)

  datatype Mode =
    | WantsValue
    | WantsItem                          // an item, or the end of the array
    | WantsKey                           // a key, or the end of the object
    | WantsColon
    | WantsNext                          // a comma, or the end of the container
    | InWord(left: string, word: Value)
    | InNumber(text: string)
    | InString(r: Reading)
    | InEscape(r: Reading)
    | InHex(r: Reading, digits: string)
    | Whole(value: Value)                // the rest of the text is not looked at

  datatype State = State(mode: Mode, frames: seq<Frame>)

  const START := State(WantsValue, [])

  function Bytes(r: Reading): string { r.bytes + if r.high.Some? then Utf8(r.high.value) else "" }

  /** The string as it stands; a surrogate that still waits is written as it is. */
  function Flushed(r: Reading): Reading { Reading(Bytes(r), None, r.isKey) }

  function Wrote(r: Reading, more: string): Reading { Reading(Bytes(r) + more, None, r.isKey) }

  function WroteCode(r: Reading, code: nat): Reading
    requires code < 0x1_0000
  {
    if r.high.Some? && IsLowSurrogate(code) then Reading(r.bytes + Utf8(PairRune(r.high.value, code)), None, r.isKey)
    else if IsHighSurrogate(code) then Reading(Bytes(r), Some(code), r.isKey)
    else Wrote(r, Utf8(code))
  }

  /** A container with one more value. */
  function Holding(f: Frame, v: Value): Frame {
    match f
    case InArray(items) => InArray(items + [v])
    case InObject(fields, key) => InObject(fields[key := v], "")
  }

  /** A value is whole: it goes to the innermost open container. */
  function Push(v: Value, frames: seq<Frame>): State {
    if frames == [] then State(Whole(v), [])
    else State(WantsNext, [Holding(frames[0], v)] + frames[1..])
  }

  function ValueOf(f: Frame): Value {
    match f
    case InArray(items) => Array(items)
    case InObject(fields, _) => Object(fields)
  }

  /** What is seen from outside of a value, or of nothing, inside the open containers. */
  function Seen(v: Option<Value>, frames: seq<Frame>): Option<Value>
    decreases |frames|
  {
    if frames == [] then v
    else Seen(Some(ValueOf(if v.Some? then Holding(frames[0], v.value) else frames[0])), frames[1..])
  }

  /** What the machine shows when the text ends: open values as far as they go, and no key without a value. */
  function Shows(s: State): Option<Value>
    requires Sound(s)
  {
    Seen(match s.mode
         case InWord(_, word) => Some(word)
         case InNumber(text) => (match LongestFloat(text) case Some(t) => Some(Number(t)) case None => None)
         case InString(r) => if r.isKey then None else Some(String(Bytes(r)))
         case InEscape(r) => if r.isKey then None else Some(String(Bytes(r)))
         case InHex(r, _) => if r.isKey then None else Some(String(Bytes(r)))
         case Whole(v) => Some(v)
         case _ => None, s.frames)
  }

  predicate SoundReading(r: Reading, frames: seq<Frame>) {
    r.isKey ==> frames != [] && frames[0].InObject?
  }

  predicate Sound(s: State) {
    match s.mode
    case WantsItem => s.frames != [] && s.frames[0].InArray?
    case WantsKey => s.frames != [] && s.frames[0].InObject?
    case WantsColon => s.frames != [] && s.frames[0].InObject?
    case WantsNext => s.frames != []
    case InWord(left, _) => left != ""
    case InString(r) => SoundReading(r, s.frames)
    case InEscape(r) => SoundReading(r, s.frames)
    case InHex(r, digits) => SoundReading(r, s.frames) && |digits| < 4
    case _ => true
  }

  function Closed(frames: seq<Frame>): (s: State)
    requires frames != []
    ensures Sound(s)
  {
    Push(ValueOf(frames[0]), frames[1..])
  }

  /** The first character of a value. */
  function Begin(c: char, frames: seq<Frame>): (s: Option<State>)
    ensures s.Some? ==> Sound(s.value)
  {
    match c
    case '{' => Some(State(WantsKey, [InObject(map[], "")] + frames))
    case '[' => Some(State(WantsItem, [InArray([])] + frames))
    case '"' => Some(State(InString(Reading("", None, false)), frames))
    case 't' => Some(State(InWord("rue", Bool(true)), frames))
    case 'f' => Some(State(InWord("alse", Bool(false)), frames))
    case 'n' => Some(State(InWord("ull", Null), frames))
    case _ => if c == '-' || IsDigit(c) then Some(State(InNumber([c]), frames)) else None
  }

  function AfterString(r: Reading, frames: seq<Frame>): (s: State)
    requires SoundReading(r, frames)
    ensures Sound(s)
  {
    if r.isKey then State(WantsColon, [InObject(frames[0].fields, Bytes(r))] + frames[1..])
    else Push(String(Bytes(r)), frames)
  }

  /** One character read outside of strings, words and numbers. */
  function Between(s: State, c: char): (t: Option<State>)
    requires Sound(s)
    ensures t.Some? ==> Sound(t.value)
  {
    if IsSpace(c) then Some(s)
    else match s.mode
      case WantsValue => Begin(c, s.frames)
      case WantsItem => if c == ']' then Some(Closed(s.frames)) else Begin(c, s.frames)
      case WantsKey =>
        if c == '}' then Some(Closed(s.frames))
        else if c == '"' then Some(State(InString(Reading("", None, true)), s.frames))
        else None
      case WantsColon => if c == ':' then Some(State(WantsValue, s.frames)) else None
      case WantsNext =>
        if c == ',' then Some(State(if s.frames[0].InArray? then WantsItem else WantsKey, s.frames))
        else if c == (if s.frames[0].InArray? then ']' else '}') then Some(Closed(s.frames))
        else None
      case _ => None
  }

  /** The letter after a backslash. */
  function Escaped(r: Reading, c: char, frames: seq<Frame>): (t: Option<State>)
    requires SoundReading(r, frames)
    ensures t.Some? ==> Sound(t.value)
  {
    match c
    case '"' => Some(State(InString(Wrote(r, "\"")), frames))
    case '\\' => Some(State(InString(Wrote(r, "\\")), frames))
    case '/' => Some(State(InString(Wrote(r, "/")), frames))
    case 'b' => Some(State(InString(Wrote(r, ['\U{0008}'])), frames))
    case 'f' => Some(State(InString(Wrote(r, ['\U{000C}'])), frames))
    case 'n' => Some(State(InString(Wrote(r, "\n")), frames))
    case 'r' => Some(State(InString(Wrote(r, "\r")), frames))
    case 't' => Some(State(InString(Wrote(r, "\t")), frames))
    case 'u' => Some(State(InHex(r, ""), frames))
    case _ => None
  }

  /** The state after one more character, if it may come. */
  function Step(s: State, c: char): (t: Option<State>)
    requires Sound(s)
    ensures t.Some? ==> Sound(t.value)
  {
    match s.mode
    case Whole(_) => Some(s)
    case InWord(left, word) =>
      if c != left[0] then None
      else if |left| == 1 then Some(Push(word, s.frames))
      else Some(State(InWord(left[1..], word), s.frames))
    case InNumber(text) =>
      if IsNumberChar(c) then Some(State(InNumber(text + [c]), s.frames))
      else if !IsFloat(text) then None
      else if s.frames == [] then Some(Push(Number(text), []))
      else Between(Push(Number(text), s.frames), c)
    case InString(r) =>
      if c == '"' then Some(AfterString(r, s.frames))
      else if c == '\\' then Some(State(InEscape(r), s.frames))
      else Some(State(InString(Wrote(r, [c])), s.frames))
    case InEscape(r) => Escaped(r, c, s.frames)
    case InHex(r, digits) =>
      var four := digits + [c];
      if |four| < 4 then Some(State(InHex(r, four), s.frames))
      else if !(IsHex(four[0]) && IsHex(four[1]) && IsHex(four[2]) && IsHex(four[3])) then None
      else Some(State(InString(WroteCode(r, HexCode(four[0], four[1], four[2], four[3]))), s.frames))
    case _ => Between(s, c)
  }

  /** What the machine shows of the rest of a text: nothing once a character may not come. */
  function Outcome(t: string, pos: nat, s: State): Option<Value>
    requires pos <= |t| && Sound(s)
    decreases |t| - pos
  {
    if pos == |t| then Shows(s)
    else match Step(s, t[pos])
      case None => None
      case Some(next) => Outcome(t, pos + 1, next)
  }

  // ----- Spaces, words and numbers -------------------------------------------------------------

  predicate SkipsSpace(m: Mode) {
    m == WantsValue || m == WantsItem || m == WantsKey || m == WantsColon || m == WantsNext
  }

  lemma {:induction false} SpaceOutcome(t: string, pos: nat, s: State)
    requires pos <= |t| && Sound(s) && SkipsSpace(s.mode)
    ensures Outcome(t, pos, s) == Outcome(t, SkipSpace(t, pos), s)
    decreases |t| - pos
  {
    hide Shows;
    if pos < |t| && IsSpace(t[pos]) {
      SpaceOutcome(t, pos + 1, s);
    }
  }

  lemma {:induction false} WordOutcome(t: string, pos: nat, left: string, word: Value, frames: seq<Frame>)
    requires pos <= |t| && left != ""
    ensures Outcome(t, pos, State(InWord(left, word), frames)) ==
              if left <= t[pos..] then Outcome(t, pos + |left|, Push(word, frames))
              else if t[pos..] <= left then Seen(Some(word), frames)
              else None
    decreases |left|
  {
    hide Push;
    if pos < |t| && t[pos] == left[0] && |left| > 1 {
      WordOutcome(t, pos + 1, left[1..], word, frames);
      assert t[pos..][1..] == t[pos + 1..];
      assert left <= t[pos..] <==> left[1..] <= t[pos + 1..];
      assert t[pos..] <= left <==> t[pos + 1..] <= left[1..];
    }
  }

  function LongestNumber(text: string): Option<Value> {
    match LongestFloat(text) case Some(t) => Some(Number(t)) case None => None
  }

  lemma {:induction false} NumberOutcome(t: string, pos: nat, text: string, frames: seq<Frame>)
    requires pos <= |t|
    ensures var end := NumberEnd(t, pos); var whole := text + t[pos..end];
            Outcome(t, pos, State(InNumber(text), frames)) ==
              if end == |t| then Seen(LongestNumber(whole), frames)
              else if IsFloat(whole) then Outcome(t, end, Push(Number(whole), frames))
              else None
    decreases |t| - pos
  {
    hide IsFloat, LongestFloat, Seen;
    if pos < |t| && IsNumberChar(t[pos]) {
      NumberOutcome(t, pos + 1, text + [t[pos]], frames);
      var end := NumberEnd(t, pos);
      assert text + t[pos..end] == text + [t[pos]] + t[pos + 1..end];
    } else {
      assert text + t[pos..pos] == text;
    }
  }

  // ----- Strings ---------------------------------------------------------------------------

  /** What is seen of a string that is not over. */
  function TextSeen(r: Reading, frames: seq<Frame>): Option<Value> {
    Seen(if r.isKey then None else Some(String(Bytes(r))), frames)
  }

  predicate AllHex(four: string)
    requires |four| == 4
  {
    IsHex(four[0]) && IsHex(four[1]) && IsHex(four[2]) && IsHex(four[3])
  }

  lemma {:induction false} HexOutcome(t: string, pos: nat, r: Reading, digits: string, frames: seq<Frame>)
    requires pos <= |t| && |digits| < 4 && SoundReading(r, frames)
    ensures var end := pos + 4 - |digits|;
            Outcome(t, pos, State(InHex(r, digits), frames)) ==
              if end > |t| then TextSeen(r, frames)
              else
                var four := digits + t[pos..end];
                if !AllHex(four) then None
                else Outcome(t, end, State(InString(WroteCode(r, HexCode(four[0], four[1], four[2], four[3]))), frames))
    decreases |t| - pos
  {
    hide IsHex, WroteCode, Seen, HexCode;
    if pos < |t| {
      var more, end := digits + [t[pos]], pos + 4 - |digits|;
      if end <= |t| {
        assert digits + t[pos..end] == more + t[pos + 1..end];
      }
      if |more| < 4 {
        HexOutcome(t, pos + 1, r, more, frames);
      } else {
        assert more + t[pos + 1..end] == more;
      }
    }
  }

  lemma EscapedAlike(r: Reading, c: char, frames: seq<Frame>)
    requires SoundReading(r, frames) && c != 'u'
    ensures Escaped(r, c, frames) == Escaped(Flushed(r), c, frames)
  {
    hide Utf8;
    assert Bytes(Flushed(r)) == Bytes(r);
  }

  lemma WroteCodeAlike(r: Reading, code: nat)
    requires code < 0x1_0000 && !IsLowSurrogate(code)
    ensures WroteCode(r, code) == WroteCode(Flushed(r), code)
  {
    hide Utf8;
    assert Bytes(Flushed(r)) == Bytes(r);
  }

  lemma HexAlike(t: string, pos: nat, r: Reading, frames: seq<Frame>)
    requires pos <= |t| && SoundReading(r, frames)
    requires IsHex4(t, pos) ==> !IsLowSurrogate(Hex4(t, pos))
    ensures Outcome(t, pos, State(InHex(r, ""), frames)) == Outcome(t, pos, State(InHex(Flushed(r), ""), frames))
  {
    hide IsHex, HexCode, Utf8, Seen, WroteCode, Outcome;
    HexOutcome(t, pos, r, "", frames);
    HexOutcome(t, pos, Flushed(r), "", frames);
    assert Bytes(Flushed(r)) == Bytes(r);
    if pos + 4 <= |t| {
      assert "" + t[pos..pos + 4] == t[pos..pos + 4];
      if IsHex4(t, pos) {
        WroteCodeAlike(r, Hex4(t, pos));
      }
    }
  }

  lemma EscapeAlike(t: string, pos: nat, r: Reading, frames: seq<Frame>)
    requires 0 < pos <= |t| && t[pos - 1] == '\\' && SoundReading(r, frames) && !IsLowEscape(t, pos - 1)
    ensures Outcome(t, pos, State(InEscape(r), frames)) == Outcome(t, pos, State(InEscape(Flushed(r)), frames))
  {
    hide IsHex, HexCode, Utf8, Seen;
    assert Bytes(Flushed(r)) == Bytes(r);
    if pos < |t| {
      if t[pos] == 'u' {
        HexAlike(t, pos + 1, r, frames);
        hide Shows;
      } else {
        EscapedAlike(r, t[pos], frames);
        hide Escaped, Shows;
      }
    }
  }

  /** A high surrogate that no low one follows is written as it is. */
  lemma WaitingOutcome(t: string, pos: nat, r: Reading, frames: seq<Frame>)
    requires pos <= |t| && SoundReading(r, frames) && !IsLowEscape(t, pos)
    ensures Outcome(t, pos, State(InString(r), frames)) == Outcome(t, pos, State(InString(Flushed(r)), frames))
  {
    hide IsHex, HexCode, Utf8, Seen, Push, IsLowEscape;
    assert Bytes(Flushed(r)) == Bytes(r);
    if pos < |t| && t[pos] == '\\' {
      EscapeAlike(t, pos + 1, r, frames);
    }
  }

  lemma PushShown(v: Value, frames: seq<Frame>)
    ensures Shows(Push(v, frames)) == Seen(Some(v), frames)
  {
    if frames != [] {
      var held := [Holding(frames[0], v)] + frames[1..];
      assert held[0] == Holding(frames[0], v) && held[1..] == frames[1..];
    }
  }

  lemma AfterStringShown(r: Reading, frames: seq<Frame>)
    requires SoundReading(r, frames)
    ensures Shows(AfterString(r, frames)) == TextSeen(r, frames)
  {
    if r.isKey {
      var held := [InObject(frames[0].fields, Bytes(r))] + frames[1..];
      assert held[1..] == frames[1..];
    } else {
      PushShown(String(Bytes(r)), frames);
    }
  }

  /** The four digits of an escape, and the pair that two escapes may make. */
  lemma CodeOutcome(t: string, pos: nat, r: Reading, frames: seq<Frame>)
    requires pos + 6 <= |t| && t[pos] == '\\' && t[pos + 1] == 'u' && SoundReading(r, frames)
    ensures Outcome(t, pos, State(InString(r), frames)) ==
              if !IsHex4(t, pos + 2) then None
              else Outcome(t, pos + 6, State(InString(WroteCode(r, Hex4(t, pos + 2))), frames))
  {
    hide IsHex, HexCode, WroteCode, Seen;
    assert Step(State(InString(r), frames), '\\') == Some(State(InEscape(r), frames));
    assert Step(State(InEscape(r), frames), 'u') == Some(State(InHex(r, ""), frames));
    HexOutcome(t, pos + 2, r, "", frames);
    assert "" + t[pos + 2..pos + 6] == t[pos + 2..pos + 6];
  }

  lemma EmittedCode(t: string, pos: nat, r: Reading, frames: seq<Frame>)
    requires pos + 6 <= |t| && t[pos] == '\\' && t[pos + 1] == 'u' && IsHex4(t, pos + 2)
    requires r.high.None? && SoundReading(r, frames)
    ensures var round := StringRound(t, pos);
            && round.Emit?
            && Outcome(t, pos, State(InString(r), frames)) == Outcome(t, round.next, State(InString(Wrote(r, round.bytes)), frames))
  {
    hide IsHex, HexCode, Seen, Outcome, PairRune, Utf8;
    var code := Hex4(t, pos + 2);
    CodeOutcome(t, pos, r, frames);
    assert Bytes(r) == r.bytes;
    if IsHighSurrogate(code) {
      var waiting := WroteCode(r, code);
      assert waiting == Reading(r.bytes, Some(code), r.isKey);
      if IsLowEscape(t, pos + 6) {
        CodeOutcome(t, pos + 6, waiting, frames);
      } else {
        WaitingOutcome(t, pos + 6, waiting, frames);
      }
    }
  }

  function AfterRound(t: string, round: Round, r: Reading, frames: seq<Frame>): Option<Value>
    requires (round.BadEscape? || round.next <= |t|) && SoundReading(r, frames)
  {
    match round
    case Stop(next) => Outcome(t, next, AfterString(r, frames))
    case BadEscape => None
    case Emit(bytes, next) => Outcome(t, next, State(InString(Wrote(r, bytes)), frames))
  }

  lemma PlainRound(t: string, pos: nat, r: Reading, frames: seq<Frame>)
    requires pos <= |t| && r.high.None? && SoundReading(r, frames) && (pos < |t| ==> t[pos] != '\\')
    ensures Outcome(t, pos, State(InString(r), frames)) == AfterRound(t, StringRound(t, pos), r, frames)
  {
    hide Seen, AfterString, Outcome, IsHex4, Hex4, IsLowEscape, Utf8, PairRune, IsEscapeLetter, Unescaped;
    AfterStringShown(r, frames);
    StringGoesOn(t, pos, r, frames);
  }

  lemma StringGoesOn(t: string, pos: nat, r: Reading, frames: seq<Frame>)
    requires pos <= |t| && SoundReading(r, frames) && (pos < |t| ==> t[pos] != '\\')
    ensures Outcome(t, pos, State(InString(r), frames)) ==
              if pos == |t| then TextSeen(r, frames)
              else if t[pos] == '"' then Outcome(t, pos + 1, AfterString(r, frames))
              else Outcome(t, pos + 1, State(InString(Wrote(r, [t[pos]])), frames))
    ensures Outcome(t, |t|, AfterString(r, frames)) == Shows(AfterString(r, frames))
  {
    hide Seen, AfterString, Utf8, Wrote;
  }

  lemma LetterRound(t: string, pos: nat, r: Reading, frames: seq<Frame>)
    requires pos + 1 < |t| && r.high.None? && SoundReading(r, frames) && t[pos] == '\\' && t[pos + 1] != 'u'
    ensures Outcome(t, pos, State(InString(r), frames)) == AfterRound(t, StringRound(t, pos), r, frames)
  {
    hide Seen, AfterString, Wrote;
    assert Step(State(InString(r), frames), '\\') == Some(State(InEscape(r), frames));
    var c := t[pos + 1];
    assert Step(State(InEscape(r), frames), c) == Escaped(r, c, frames);
    assert Escaped(r, c, frames) ==
      if IsEscapeLetter(c) then Some(State(InString(Wrote(r, [Unescaped(c)])), frames)) else None;
    hide Escaped, Unescaped, IsEscapeLetter;
  }

  /** An escape that the text cuts off. */
  lemma CutRound(t: string, pos: nat, r: Reading, frames: seq<Frame>)
    requires pos < |t| < pos + 6 && r.high.None? && SoundReading(r, frames) && t[pos] == '\\'
    requires pos + 1 < |t| ==> t[pos + 1] == 'u'
    ensures Outcome(t, pos, State(InString(r), frames)) == Outcome(t, |t|, AfterString(r, frames))
  {
    hide Seen, AfterString, IsHex, HexCode, WroteCode;
    AfterStringShown(r, frames);
    assert Step(State(InString(r), frames), '\\') == Some(State(InEscape(r), frames));
    if pos + 1 < |t| {
      assert Step(State(InEscape(r), frames), 'u') == Some(State(InHex(r, ""), frames));
      HexOutcome(t, pos + 2, r, "", frames);
    }
  }

  lemma RoundOutcome(t: string, pos: nat, r: Reading, frames: seq<Frame>)
    requires pos <= |t| && r.high.None? && SoundReading(r, frames)
    ensures Outcome(t, pos, State(InString(r), frames)) == AfterRound(t, StringRound(t, pos), r, frames)
  {
    hide IsHex4, Hex4, Utf8, PairRune, IsLowEscape, AfterString, Outcome;
    if pos == |t| || t[pos] != '\\' {
      PlainRound(t, pos, r, frames);
    } else if pos + 1 < |t| && t[pos + 1] != 'u' {
      LetterRound(t, pos, r, frames);
    } else if |t| < pos + 6 {
      CutRound(t, pos, r, frames);
    } else {
      CodeOutcome(t, pos, r, frames);
      if IsHex4(t, pos + 2) {
        EmittedCode(t, pos, r, frames);
      }
    }
  }

  function AfterText(t: string, text: Parsed<string>, r: Reading, frames: seq<Frame>): Option<Value>
    requires (text.Parsed? ==> text.pos <= |t|) && SoundReading(r, frames)
  {
    if text.Parsed? then Outcome(t, text.pos, AfterString(Wrote(r, text.value), frames)) else None
  }

  lemma {:induction false} StringOutcome(t: string, pos: nat, r: Reading, frames: seq<Frame>)
    requires pos <= |t| && r.high.None? && SoundReading(r, frames)
    ensures Outcome(t, pos, State(InString(r), frames)) == AfterText(t, ParseStringRest(t, pos), r, frames)
    decreases |t| - pos
  {
    hide Outcome, StringRound, AfterString;
    RoundOutcome(t, pos, r, frames);
    assert Wrote(r, "") == r;
    match StringRound(t, pos)
    case Emit(bytes, next) =>
      StringOutcome(t, next, Wrote(r, bytes), frames);
      var rest := ParseStringRest(t, next);
      if rest.Parsed? {
        assert r.bytes + bytes + rest.value == r.bytes + (bytes + rest.value);
        assert Wrote(Wrote(r, bytes), rest.value) == Wrote(r, bytes + rest.value);
      }
    case _ =>
  }

  // ----- Values ------------------------------------------------------------------------------

  /** What the machine makes of the text behind what the parser has read. */
  function AfterValue(t: string, r: Parsed<Value>, frames: seq<Frame>): Option<Value>
    requires r.Parsed? ==> r.pos <= |t|
  {
    match r
    case Parsed(v, next) => Outcome(t, next, Push(v, frames))
    case IncompleteScalar => Seen(None, frames)
    case Unparsable => None
  }

  lemma EndSeen(t: string, v: Value, frames: seq<Frame>)
    ensures Outcome(t, |t|, Push(v, frames)) == Seen(Some(v), frames)
  {
    PushShown(v, frames);
  }

  predicate IsWord(all: string, word: Value) {
    (all == "true" && word == Bool(true)) || (all == "false" && word == Bool(false)) || (all == "null" && word == Null)
  }

  lemma OtherWord(rest: string, word: string)
    requires rest != "" && word != "" && rest[0] != word[0]
    ensures !(word <= rest) && !(rest <= word)
  {
  }

  lemma LiteralIs(t: string, pos: nat, all: string, word: Value)
    requires pos < |t| && IsWord(all, word) && t[pos] == all[0]
    ensures ParseLiteral(t, pos) ==
              if all <= t[pos..] then Parsed(word, pos + |all|)
              else if t[pos..] <= all then Parsed(word, |t|)
              else Unparsable
  {
    var rest := t[pos..];
    if all != "true" {
      OtherWord(rest, "true");
    }
    if all != "false" {
      OtherWord(rest, "false");
    }
    if all != "null" {
      OtherWord(rest, "null");
    }
  }

  lemma FirstLetter(t: string, pos: nat, all: string)
    requires pos < |t| && all != "" && t[pos] == all[0]
    ensures all <= t[pos..] <==> all[1..] <= t[pos + 1..]
    ensures t[pos..] <= all <==> t[pos + 1..] <= all[1..]
  {
    assert t[pos..][1..] == t[pos + 1..];
  }

  lemma LiteralOutcome(t: string, pos: nat, all: string, word: Value, frames: seq<Frame>)
    requires pos < |t| && IsWord(all, word) && t[pos] == all[0]
    ensures Outcome(t, pos, State(WantsValue, frames)) == AfterValue(t, ParseLiteral(t, pos), frames)
  {
    hide Push, Seen, ParseLiteral, Step;
    LiteralIs(t, pos, all, word);
    FirstLetter(t, pos, all);
    WordOutcome(t, pos + 1, all[1..], word, frames);
    WordBegins(t[pos], all, word, frames);
    EndSeen(t, word, frames);
  }

  lemma WordBegins(c: char, all: string, word: Value, frames: seq<Frame>)
    requires IsWord(all, word) && c == all[0]
    ensures Step(State(WantsValue, frames), c) == Some(State(InWord(all[1..], word), frames))
  {
  }

  lemma DigitsOutcome(t: string, pos: nat, frames: seq<Frame>)
    requires pos < |t| && (t[pos] == '-' || IsDigit(t[pos]))
    ensures Outcome(t, pos, State(WantsValue, frames)) == AfterValue(t, ParseNumber(t, pos), frames)
  {
    hide Push, Seen, IsFloat, LongestFloat;
    assert Step(State(WantsValue, frames), t[pos]) == Some(State(InNumber([t[pos]]), frames));
    hide Step, Shows;
    NumberOutcome(t, pos + 1, [t[pos]], frames);
    var end := NumberEnd(t, pos);
    var text := t[pos..end];
    assert [t[pos]] + t[pos + 1..end] == text;
    if end == |t| {
      LongestOfFloat(text);
      match LongestFloat(text)
      case Some(f) => EndSeen(t, Number(f), frames);
      case None =>
    }
  }

  lemma LongestOfFloat(text: string)
    ensures IsFloat(text) ==> LongestFloat(text) == Some(text)
    ensures LongestFloat(text).None? ==> !IsFloat(text)
  {
    hide IsFloat;
  }

  lemma TextOutcome(t: string, pos: nat, frames: seq<Frame>)
    requires pos <= |t|
    ensures Outcome(t, pos, State(InString(Reading("", None, false)), frames)) ==
              match ParseStringRest(t, pos) {
                case Parsed(text, next) => Outcome(t, next, Push(String(text), frames))
                case _ => None
              }
  {
    hide Outcome, Push, ParseStringRest;
    var r := Reading("", None, false);
    StringOutcome(t, pos, r, frames);
    var text := ParseStringRest(t, pos);
    if text.Parsed? {
      assert Wrote(r, text.value) == Reading(text.value, None, false);
      assert Bytes(Wrote(r, text.value)) == text.value;
    }
  }

  lemma {:induction false} ValueOutcome(t: string, pos: nat, frames: seq<Frame>)
    requires pos <= |t|
    ensures Outcome(t, pos, State(WantsValue, frames)) == AfterValue(t, ParseValue(t, pos), frames)
    decreases |t| - pos, 2
  {
    hide Push, Seen, ParseLiteral, ParseNumber, ParseStringRest, ParseItems, ParseMembers;
    SpaceOutcome(t, pos, State(WantsValue, frames));
    var p := SkipSpace(t, pos);
    if p < |t| {
      match t[p]
      case '{' => MembersOutcome(t, p + 1, map[], frames);
      case '[' => ItemsOutcome(t, p + 1, [], frames);
      case '"' => TextOutcome(t, p + 1, frames);
      case 't' => LiteralOutcome(t, p, "true", Bool(true), frames);
      case 'f' => LiteralOutcome(t, p, "false", Bool(false), frames);
      case 'n' => LiteralOutcome(t, p, "null", Null, frames);
      case c =>
        if c == '-' || IsDigit(c) {
          DigitsOutcome(t, p, frames);
        }
    }
  }

  /** Behind the opening bracket, or a comma: an item is read as any value. */
  lemma ItemIsValue(t: string, pos: nat, frames: seq<Frame>)
    requires pos < |t| && !IsSpace(t[pos]) && t[pos] != ']' && frames != [] && frames[0].InArray?
    ensures Outcome(t, pos, State(WantsItem, frames)) == Outcome(t, pos, State(WantsValue, frames))
  {
    hide Begin;
  }

  lemma NoMoreSeen(m: Mode, f: Frame, frames: seq<Frame>)
    requires m == WantsItem || m == WantsKey || m == WantsNext || m == WantsColon || m == WantsValue
    requires Sound(State(m, [f] + frames))
    ensures Shows(State(m, [f] + frames)) == Seen(Some(ValueOf(f)), frames) == Seen(None, [f] + frames)
  {
    assert ([f] + frames)[1..] == frames;
  }

  lemma ContainerCloses(t: string, pos: nat, m: Mode, f: Frame, frames: seq<Frame>)
    requires pos < |t| && t[pos] == if f.InArray? then ']' else '}'
    requires m == WantsNext || m == if f.InArray? then WantsItem else WantsKey
    ensures Outcome(t, pos, State(m, [f] + frames)) == Outcome(t, pos + 1, Push(ValueOf(f), frames))
  {
    hide Begin, Push;
    assert ([f] + frames)[1..] == frames;
  }

  /** Behind an item or a member. */
  function AfterNext(t: string, pos: nat, f: Frame, frames: seq<Frame>): Option<Value>
    requires pos <= |t|
  {
    var p := SkipSpace(t, pos);
    if p == |t| then Seen(Some(ValueOf(f)), frames)
    else if t[p] == ',' then Outcome(t, p + 1, State(if f.InArray? then WantsItem else WantsKey, [f] + frames))
    else if t[p] == (if f.InArray? then ']' else '}') then Outcome(t, p + 1, Push(ValueOf(f), frames))
    else None
  }

  lemma NextOutcome(t: string, pos: nat, f: Frame, frames: seq<Frame>)
    requires pos <= |t|
    ensures Outcome(t, pos, State(WantsNext, [f] + frames)) == AfterNext(t, pos, f, frames)
  {
    hide Push, Seen, Begin;
    var s := State(WantsNext, [f] + frames);
    SpaceOutcome(t, pos, s);
    var p := SkipSpace(t, pos);
    if p == |t| {
      NoMoreSeen(WantsNext, f, frames);
    } else if t[p] == if f.InArray? then ']' else '}' {
      ContainerCloses(t, p, WantsNext, f, frames);
    }
  }

  lemma {:induction false} ItemsOutcome(t: string, pos: nat, done: seq<Value>, frames: seq<Frame>)
    requires pos <= |t|
    ensures Outcome(t, pos, State(WantsItem, [InArray(done)] + frames)) == AfterValue(t, ParseItems(t, pos, done), frames)
    decreases |t| - pos, 3
  {
    hide Outcome, Push, Seen, ParseValue;
    var f := InArray(done);
    SpaceOutcome(t, pos, State(WantsItem, [f] + frames));
    var p := SkipSpace(t, pos);
    EndSeen(t, Array(done), frames);
    NoMoreSeen(WantsItem, f, frames);
    if p == |t| {
      AtEnd(t, State(WantsItem, [f] + frames));
    } else if t[p] == ']' {
      ContainerCloses(t, p, WantsItem, f, frames);
    } else {
      ItemIsValue(t, p, [f] + frames);
      ValueOutcome(t, p, [f] + frames);
      match ParseValue(t, p)
      case Parsed(v, next) =>
        var held := InArray(done + [v]);
        PushIn(v, f, frames);
        NextOutcome(t, next, held, frames);
        EndSeen(t, Array(done + [v]), frames);
        var comma := SkipSpace(t, next);
        if comma < |t| && t[comma] == ',' {
          ItemsOutcome(t, comma + 1, done + [v], frames);
        }
      case _ =>
    }
  }

  lemma KeyOutcome(t: string, pos: nat, done: map<string, Value>, frames: seq<Frame>)
    requires pos <= |t|
    ensures Outcome(t, pos, State(InString(Reading("", None, true)), [InObject(done, "")] + frames)) ==
              match ParseStringRest(t, pos) {
                case Parsed(key, next) => Outcome(t, next, State(WantsColon, [InObject(done, key)] + frames))
                case _ => None
              }
  {
    hide Outcome, Push, ParseStringRest;
    var r, open := Reading("", None, true), [InObject(done, "")] + frames;
    StringOutcome(t, pos, r, open);
    var text := ParseStringRest(t, pos);
    if text.Parsed? {
      assert Wrote(r, text.value) == Reading(text.value, None, true);
      assert Bytes(Wrote(r, text.value)) == text.value && open[1..] == frames;
    }
  }

  function AfterMember(t: string, r: Parsed<(string, Value)>, done: map<string, Value>, frames: seq<Frame>): Option<Value>
    requires r.Parsed? ==> r.pos <= |t|
  {
    match r
    case Parsed((key, v), next) => Outcome(t, next, State(WantsNext, [InObject(done[key := v], "")] + frames))
    case IncompleteScalar => Seen(Some(Object(done)), frames)
    case Unparsable => None
  }

  lemma ColonOutcome(t: string, pos: nat, f: Frame, frames: seq<Frame>)
    requires pos <= |t| && f.InObject?
    ensures var p := SkipSpace(t, pos);
            Outcome(t, pos, State(WantsColon, [f] + frames)) ==
              if p == |t| then Seen(Some(ValueOf(f)), frames)
              else if t[p] == ':' then Outcome(t, p + 1, State(WantsValue, [f] + frames))
              else None
  {
    hide Seen, Begin, Push;
    SpaceOutcome(t, pos, State(WantsColon, [f] + frames));
    NoMoreSeen(WantsColon, f, frames);
  }

  lemma {:induction false} MemberOutcome(t: string, pos: nat, done: map<string, Value>, frames: seq<Frame>)
    requires pos < |t| && t[pos] == '"'
    ensures Outcome(t, pos, State(WantsKey, [InObject(done, "")] + frames)) == AfterMember(t, ParseMember(t, pos), done, frames)
    decreases |t| - pos, 2
  {
    hide Push, Seen, ParseValue, ParseStringRest, Begin;
    var open := State(WantsKey, [InObject(done, "")] + frames);
    assert Step(open, '"') == Some(State(InString(Reading("", None, true)), open.frames));
    hide Outcome;
    KeyOutcome(t, pos + 1, done, frames);
    match ParseStringRest(t, pos + 1)
    case Parsed(key, afterKey) =>
      var f := InObject(done, key);
      ColonOutcome(t, afterKey, f, frames);
      var colon := SkipSpace(t, afterKey);
      if colon < |t| && t[colon] == ':' {
        var within := State(WantsValue, [f] + frames);
        SpaceOutcome(t, colon + 1, within);
        NoMoreSeen(WantsValue, f, frames);
        AtEnd(t, within);
        var v := SkipSpace(t, colon + 1);
        if v < |t| {
          ValueOutcome(t, v, [f] + frames);
          if ParseValue(t, v).Parsed? {
            PushIn(ParseValue(t, v).value, f, frames);
          }
        }
      }
    case _ =>
  }

  lemma {:induction false} MembersOutcome(t: string, pos: nat, done: map<string, Value>, frames: seq<Frame>)
    requires pos <= |t|
    ensures Outcome(t, pos, State(WantsKey, [InObject(done, "")] + frames)) == AfterValue(t, ParseMembers(t, pos, done), frames)
    decreases |t| - pos, 3
  {
    hide Outcome, Push, Seen, ParseMember;
    var f := InObject(done, "");
    var open := State(WantsKey, [f] + frames);
    SpaceOutcome(t, pos, open);
    var p := SkipSpace(t, pos);
    EndSeen(t, Object(done), frames);
    NoMoreSeen(WantsKey, f, frames);
    if p == |t| {
      AtEnd(t, open);
    } else if t[p] == '}' {
      ContainerCloses(t, p, WantsKey, f, frames);
    } else if t[p] != '"' {
      NoKey(t, p, f, frames);
    } else {
      MemberOutcome(t, p, done, frames);
      match ParseMember(t, p)
      case Parsed((key, v), next) =>
        var held := InObject(done[key := v], "");
        NextOutcome(t, next, held, frames);
        EndSeen(t, Object(done[key := v]), frames);
        var comma := SkipSpace(t, next);
        if comma < |t| && t[comma] == ',' {
          MembersOutcome(t, comma + 1, done[key := v], frames);
        }
      case _ =>
    }
  }

  lemma NoKey(t: string, pos: nat, f: Frame, frames: seq<Frame>)
    requires pos < |t| && f.InObject? && !IsSpace(t[pos]) && t[pos] != '}' && t[pos] != '"'
    ensures Outcome(t, pos, State(WantsKey, [f] + frames)) == None
  {
  }

  lemma AtEnd(t: string, s: State)
    requires Sound(s)
    ensures Outcome(t, |t|, s) == Shows(s)
  {
  }

  lemma PushIn(v: Value, f: Frame, frames: seq<Frame>)
    ensures Push(v, [f] + frames) == State(WantsNext, [Holding(f, v)] + frames)
  {
    assert ([f] + frames)[1..] == frames;
  }

  /** For every text, well-formed or not, the parser returns what the machine shows. */
  lemma ParsePartialIsMachine(t: string)
    ensures ParsePartial(t) == Outcome(t, 0, START)
  {
    hide ParseValue;
    ValueOutcome(t, 0, []);
    match ParseValue(t, 0)
    case Parsed(v, next) => WholeStays(t, next, v);
    case _ =>
  }

  lemma {:induction false} WholeStays(t: string, pos: nat, v: Value)
    requires pos <= |t|
    ensures Outcome(t, pos, State(Whole(v), [])) == Some(v)
    decreases |t| - pos
  {
    if pos < |t| {
      WholeStays(t, pos + 1, v);
    }
  }

  /** Some character of the rest may not come. */
  predicate Blocked(t: string, pos: nat, s: State)
    requires pos <= |t| && Sound(s)
    decreases |t| - pos
  {
    pos < |t| && match Step(s, t[pos]) case None => true case Some(next) => Blocked(t, pos + 1, next)
  }

  lemma {:induction false} BlockedStays(t: string, more: string, pos: nat, s: State)
    requires pos <= |t| && Sound(s) && Blocked(t, pos, s)
    ensures Outcome(t, pos, s) == None == Outcome(t + more, pos, s)
    decreases |t| - pos
  {
    hide Shows;
    var next := Step(s, t[pos]);
    if next.Some? {
      BlockedStays(t, more, pos + 1, next.value);
    }
  }

  /** Once a character may not come, no more text makes the parser accept. */
  lemma RejectedForGood(t: string, more: string)
    requires Blocked(t, 0, START)
    ensures ParsePartial(t) == None == ParsePartial(t + more)
  {
    ParsePartialIsMachine(t);
    ParsePartialIsMachine(t + more);
    BlockedStays(t, more, 0, START);
  }
}
