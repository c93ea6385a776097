/** The server-sent events reader: bytes to lines, lines to events. A char is one byte. */
module SseReader {
  import opened Wrappers

  datatype Event = Event(event: string, data: string, id: string, retry: string)

  /** The event that the lines since the last blank one add up to. */
  datatype Pending = Pending(event: string, id: string, retry: string, hasData: bool, data: string)

  const NOTHING := Pending("", "", "", false, "")

  // ----- Lines ----------------------------------------------------------------------------

  /** Section 9.2.5 of the WHATWG HTML Standard: lines end with CRLF, CR or LF; line is what was read of the first. */
  function LinesFrom(s: string, line: string): seq<string>
    decreases |s|
  {
    if s == "" then []
    else if s[0] == '\n' then [line] + LinesFrom(s[1..], "")
    else if s[0] == '\r' then [line] + LinesFrom(if |s| > 1 && s[1] == '\n' then s[2..] else s[1..], "")
    else LinesFrom(s[1..], line + [s[0]])
  }

  /** The complete lines of a text; an unterminated last line is none. */
  function Lines(s: string): seq<string> { LinesFrom(s, "") }

  // ----- Fields ---------------------------------------------------------------------------

  /** The first colon of a line, or its end. */
  function Colon(line: string, i: nat): (r: nat)
    requires i <= |line|
    ensures i <= r <= |line| && (forall k | i <= k < r :: line[k] != ':') && (r < |line| ==> line[r] == ':')
    decreases |line| - i
  {
    if i < |line| && line[i] != ':' then Colon(line, i + 1) else i
  }

  function TrimSpace(s: string): string { if s != "" && s[0] == ' ' then s[1..] else s }

  function Consumed(p: Pending, line: string): Pending {
    if line != "" && line[0] == ':' then p
    else
      var c := Colon(line, 0);
      var field := line[..c];
      var value := TrimSpace(if c < |line| then line[c + 1..] else "");
      if field == "event" then p.(event := value)
      else if field == "data" then p.(hasData := true, data := if p.hasData then p.data + "\n" + value else value)
      else if field == "id" then p.(id := value)
      else if field == "retry" then p.(retry := value)
      else p
  }

  predicate Carries(p: Pending) { p.hasData || p.event != "" || p.id != "" || p.retry != "" }

  function EventOf(p: Pending): Event { Event(p.event, p.data, p.id, p.retry) }

  /** The events that blank lines dispatch. */
  function Dispatched(p: Pending, lines: seq<string>): seq<Event>
    decreases |lines|
  {
    if lines == [] then []
    else if lines[0] != "" then Dispatched(Consumed(p, lines[0]), lines[1..])
    else if Carries(p) then [EventOf(p)] + Dispatched(NOTHING, lines[1..])
    else Dispatched(p, lines[1..])
  }

  lemma NothingDispatched(p: Pending)
    ensures Dispatched(p, []) == []
  {
  }

  lemma DispatchedNext(p: Pending, line: string, rest: seq<string>)
    ensures Dispatched(p, [line] + rest) ==
              if line != "" then Dispatched(Consumed(p, line), rest)
              else if Carries(p) then [EventOf(p)] + Dispatched(NOTHING, rest)
              else Dispatched(p, rest)
  {
    assert ([line] + rest)[1..] == rest;
  }

  function Events(s: string): seq<Event> { Dispatched(NOTHING, Lines(s)) }

  /** What the byte at i does to the lines. */
  lemma LinesStep(input: string, i: nat, line: string)
    requires i < |input|
    ensures LinesFrom(input[i..], line) ==
              if input[i] == '\n' then [line] + LinesFrom(input[i + 1..], "")
              else if input[i] == '\r' then
                [line] + LinesFrom(if i + 1 < |input| && input[i + 1] == '\n' then input[i + 2..] else input[i + 1..], "")
              else LinesFrom(input[i + 1..], line + [input[i]])
  {
    var s := input[i..];
    assert s[1..] == input[i + 1..];
    assert |s| > 1 ==> s[2..] == input[i + 2..];
  }

  lemma NoMoreLines(s: string, line: string)
    requires s == ""
    ensures LinesFrom(s, line) == []
  {
  }

  // ----- The reader -----------------------------------------------------------------------

  class Reader {
    const input: string
    var pos: nat
    var pendingLF: bool
    var event: Event
    var hasData: bool
    var dataBuf: string

    ghost predicate Valid() reads this { pos <= |input| && event.data == "" && (!hasData ==> dataBuf == "") }

    /** What is left, without the LF of a CRLF whose CR was read. */
    ghost function Rest(): string
      requires pos <= |input|
      reads this`pos, this`pendingLF
    {
      if pendingLF && pos < |input| && input[pos] == '\n' then input[pos + 1..] else input[pos..]
    }

    ghost function Partial(): Pending reads this { Pending(event.event, event.id, event.retry, hasData, dataBuf) }

    constructor (input: string)
      ensures Valid() && Rest() == input && Partial() == NOTHING && this.input == input
    {
      this.input, pos, pendingLF := input, 0, false;
      event, hasData, dataBuf := Event("", "", "", ""), false, "";
    }

    method ReadLine() returns (r: Option<string>)
      requires Valid()
      modifies this`pos, this`pendingLF
      ensures Valid() && (r.Some? ==> old(pos) < pos)
      ensures Lines(old(Rest())) == if r.Some? then [r.value] + Lines(Rest()) else []
    {
      hide LinesFrom;
      var line := "";
      ghost var whole := Rest();
      while pos < |input|
        invariant pos <= |input| && old(pos) <= pos
        invariant pendingLF ==> line == ""
        invariant Lines(whole) == LinesFrom(Rest(), line)
        decreases |input| - pos
      {
        var b := input[pos];
        LinesStep(input, pos, line);
        hide Lines;
        pos := pos + 1;
        if pendingLF {
          pendingLF := false;
          if b == '\n' {
            continue;
          }
        }
        if b == '\n' {
          return Some(line);
        } else if b == '\r' {
          pendingLF := true;
          return Some(line);
        }
        line := line + [b];
      }
      NoMoreLines(input[pos..], line);
      return None;
    }

    method ConsumeFieldLine(line: string)
      requires Valid()
      modifies this`event, this`hasData, this`dataBuf
      ensures Valid() && Partial() == Consumed(old(Partial()), line)
    {
      if |line| > 0 && line[0] == ':' {
        return;
      }
      var c := 0;
      while c < |line| && line[c] != ':'
        invariant c <= |line| && Colon(line, 0) == Colon(line, c)
      {
        c := c + 1;
      }
      var field := line[..c];
      var value := TrimSpace(if c < |line| then line[c + 1..] else "");
      match field {
        case "event" => event := event.(event := value);
        case "data" =>
          if hasData {
            dataBuf := dataBuf + "\n";
          }
          dataBuf := dataBuf + value;
          hasData := true;
        case "id" => event := event.(id := value);
        case "retry" => event := event.(retry := value);
        case _ =>
      }
    }

    method Next() returns (r: Option<Event>)
      requires Valid()
      modifies this
      ensures Valid() && (r.Some? ==> Partial() == NOTHING && old(pos) < pos)
      ensures Dispatched(old(Partial()), Lines(old(Rest())))
           == if r.Some? then [r.value] + Dispatched(NOTHING, Lines(Rest())) else []
    {
      hide Lines, Consumed, Dispatched, Rest;
      while true
        invariant Valid() && old(pos) <= pos
        invariant Dispatched(old(Partial()), Lines(old(Rest()))) == Dispatched(Partial(), Lines(Rest()))
        decreases |input| - pos
      {
        ghost var p := Partial();
        var line := ReadLine();
        NothingDispatched(p);
        if line.None? {
          return None;
        }
        DispatchedNext(p, line.value, Lines(Rest()));
        if line.value == "" {
          if hasData || event.event != "" || event.id != "" || event.retry != "" {
            var ev := event.(data := dataBuf);
            event, hasData, dataBuf := Event("", "", "", ""), false, "";
            return Some(ev);
          }
        } else {
          ConsumeFieldLine(line.value);
        }
      }
    }
  }

  /** A consumer that reads to the end of the stream. */
  method ReadAll(input: string) returns (r: seq<Event>)
    ensures r == Events(input)
  {
    var reader := new Reader(input);
    r := [];
    while true
      invariant fresh(reader) && reader.Valid() && reader.input == input && reader.Partial() == NOTHING
      invariant Events(input) == r + Dispatched(NOTHING, Lines(reader.Rest()))
      decreases |input| - reader.pos
    {
      var next := reader.Next();
      if next.None? {
        return;
      }
      r := r + [next.value];
    }
  }

  // ----- Any terminator will do ---------------------------------------------------------------

  predicate IsLine(line: string) { '\n' !in line && '\r' !in line }

  predicate IsTerminator(t: string) { t == "\n" || t == "\r" || t == "\r\n" }

  function Joined(lines: seq<string>, terminator: string): string {
    if lines == [] then "" else lines[0] + (terminator + Joined(lines[1..], terminator))
  }

  lemma {:induction false} ReadsLine(line: string, before: string, rest: string)
    requires IsLine(line)
    ensures LinesFrom(line + rest, before) == LinesFrom(rest, before + line)
    decreases |line|
  {
    if line == "" {
      assert line + rest == rest && before + line == before;
    } else {
      assert (line + rest)[1..] == line[1..] + rest;
      assert line[0] in line && IsLine(line[1..]);
      ReadsLine(line[1..], before + [line[0]], rest);
      assert before + [line[0]] + line[1..] == before + line;
    }
  }

  /** Whichever terminator ends all the lines of a text, the reader sees the same lines. */
  lemma {:induction false} TerminatorDoesNotMatter(lines: seq<string>, terminator: string)
    requires IsTerminator(terminator) && forall line | line in lines :: IsLine(line)
    ensures Lines(Joined(lines, terminator)) == lines
    decreases |lines|
  {
    if lines != [] {
      var rest := Joined(lines[1..], terminator);
      TerminatorDoesNotMatter(lines[1..], terminator);
      assert lines[0] in lines;
      ReadsLine(lines[0], "", terminator + rest);
      assert "" + lines[0] == lines[0];
      assert rest == "" || rest[0] != '\n' || terminator != "\r" by { NoLoneLF(lines[1..], terminator); }
      EndsLine(lines[0], terminator, rest);
    }
  }

  lemma NoLoneLF(lines: seq<string>, terminator: string)
    requires IsTerminator(terminator) && forall line | line in lines :: IsLine(line)
    ensures terminator == "\r" ==> Joined(lines, terminator) == "" || Joined(lines, terminator)[0] != '\n'
  {
    if lines != [] && lines[0] != "" {
      assert lines[0] in lines && lines[0][0] in lines[0];
    }
  }

  lemma EndsLine(line: string, terminator: string, rest: string)
    requires IsTerminator(terminator) && (terminator == "\r" ==> rest == "" || rest[0] != '\n')
    ensures LinesFrom(terminator + rest, line) == [line] + LinesFrom(rest, "")
  {
    var s := terminator + rest;
    assert |terminator| == 1 ==> s[1..] == rest;
    assert |terminator| == 2 ==> s[2..] == rest;
  }

  // ----- A prefix of the bytes gives a prefix of the events -------------------------------------

  lemma {:induction false} PrefixLines(s: string, n: nat, line: string)
    requires n <= |s|
    ensures LinesFrom(s[..n], line) <= LinesFrom(s, line)
    decreases |s|
  {
    if n > 0 {
      assert s[..n][0] == s[0] && s[..n][1..] == s[1..][..n - 1];
      if s[0] == '\r' && |s| > 1 && s[1] == '\n' {
        if n > 1 {
          assert s[..n][2..] == s[2..][..n - 2];
          PrefixLines(s[2..], n - 2, "");
        } else {
          assert s[..n][1..] == "";
        }
      } else if s[0] == '\r' || s[0] == '\n' {
        PrefixLines(s[1..], n - 1, "");
      } else {
        PrefixLines(s[1..], n - 1, line + [s[0]]);
      }
    }
  }

  lemma {:induction false} PrefixDispatched(p: Pending, lines: seq<string>, more: seq<string>)
    requires lines <= more
    ensures Dispatched(p, lines) <= Dispatched(p, more)
    decreases |lines|
  {
    if lines != [] {
      assert lines[1..] <= more[1..];
      PrefixDispatched(if lines[0] != "" then Consumed(p, lines[0]) else if Carries(p) then NOTHING else p, lines[1..], more[1..]);
    }
  }

  /** A stream cut anywhere yields the first events of the whole, unchanged. */
  lemma PrefixEvents(s: string, n: nat)
    requires n <= |s|
    ensures Events(s[..n]) <= Events(s)
  {
    PrefixLines(s, n, "");
    PrefixDispatched(NOTHING, Lines(s[..n]), Lines(s));
  }

  // ----- Writing events and reading them back ----------------------------------------------------

  /** The parts of a data text between its line feeds. */
  function DataLines(data: string, line: string): (r: seq<string>)
    ensures r != []
    decreases |data|
  {
    if data == "" then [line]
    else if data[0] == '\n' then [line] + DataLines(data[1..], "")
    else DataLines(data[1..], line + [data[0]])
  }

  function FieldLine(name: string, value: string): seq<string> { if value == "" then [] else [name + ": " + value] }

  function DataFields(lines: seq<string>): seq<string> {
    if lines == [] then [] else ["data: " + lines[0]] + DataFields(lines[1..])
  }

  function EventLines(e: Event): seq<string> {
    FieldLine("event", e.event) + (DataFields(DataLines(e.data, "")) + (FieldLine("id", e.id) + (FieldLine("retry", e.retry) + [""])))
  }

  function AllEventLines(es: seq<Event>): seq<string> {
    if es == [] then [] else EventLines(es[0]) + AllEventLines(es[1..])
  }

  function Encoded(es: seq<Event>, terminator: string): string { Joined(AllEventLines(es), terminator) }

  predicate Encodable(e: Event) { IsLine(e.event) && IsLine(e.id) && IsLine(e.retry) && '\r' !in e.data }

  lemma ConsumedField(p: Pending, name: string, value: string)
    requires ':' !in name && name != ""
    ensures Consumed(p, name + ": " + value) ==
              if name == "event" then p.(event := value)
              else if name == "data" then p.(hasData := true, data := if p.hasData then p.data + "\n" + value else value)
              else if name == "id" then p.(id := value)
              else if name == "retry" then p.(retry := value)
              else p
  {
    var line := name + ": " + value;
    ColonAfter(name, ": " + value, 0);
    assert line == name + (": " + value);
    assert line[0] == name[0] && name[0] in name;
    assert line[..|name|] == name && line[|name| + 1..] == " " + value;
    assert (" " + value)[1..] == value;
  }

  lemma {:induction false} ColonAfter(name: string, rest: string, i: nat)
    requires ':' !in name && i <= |name| && rest != "" && rest[0] == ':'
    ensures Colon(name + rest, i) == |name|
    decreases |name| - i
  {
    if i < |name| {
      assert name[i] in name;
      ColonAfter(name, rest, i + 1);
    }
  }

  lemma DispatchedField(p: Pending, name: string, value: string, rest: seq<string>)
    requires ':' !in name && name != ""
    ensures Dispatched(p, FieldLine(name, value) + rest) ==
              if value == "" then Dispatched(p, rest) else Dispatched(Consumed(p, name + ": " + value), rest)
  {
    if value == "" {
      assert [] + rest == rest;
    } else {
      assert ([name + ": " + value] + rest)[1..] == rest;
    }
  }

  /** Data lines collected so far, as the reader holds them. */
  function Collected(p: Pending, lines: seq<string>): Pending
    decreases |lines|
  {
    if lines == [] then p
    else Collected(p.(hasData := true, data := if p.hasData then p.data + "\n" + lines[0] else lines[0]), lines[1..])
  }

  lemma {:induction false} DispatchedData(p: Pending, lines: seq<string>, rest: seq<string>)
    ensures Dispatched(p, DataFields(lines) + rest) == Dispatched(Collected(p, lines), rest)
    decreases |lines|
  {
    if lines == [] {
      assert [] + rest == rest;
    } else {
      var q := p.(hasData := true, data := if p.hasData then p.data + "\n" + lines[0] else lines[0]);
      ConsumedField(p, "data", lines[0]);
      assert (DataFields(lines) + rest)[1..] == DataFields(lines[1..]) + rest;
      assert (DataFields(lines) + rest)[0] == "data" + ": " + lines[0];
      DispatchedData(q, lines[1..], rest);
    }
  }

  lemma {:induction false} CollectedData(p: Pending, data: string, line: string)
    ensures Collected(p, DataLines(data, line))
         == p.(hasData := true, data := (if p.hasData then p.data + "\n" else "") + line + data)
    decreases |data|
  {
    if data == "" {
      assert [line][1..] == [];
      assert line + data == line;
    } else if data[0] == '\n' {
      var q := p.(hasData := true, data := if p.hasData then p.data + "\n" + line else line);
      CollectedData(q, data[1..], "");
      assert ([line] + DataLines(data[1..], ""))[1..] == DataLines(data[1..], "");
      assert q.data + "\n" + "" + data[1..] == (if p.hasData then p.data + "\n" else "") + line + data;
    } else {
      CollectedData(p, data[1..], line + [data[0]]);
      assert (line + [data[0]]) + data[1..] == line + data;
      assert (if p.hasData then p.data + "\n" else "") + (line + [data[0]]) + data[1..]
          == (if p.hasData then p.data + "\n" else "") + line + data;
    }
  }

  lemma {:induction false} EventDispatched(e: Event, rest: seq<string>)
    ensures Dispatched(NOTHING, EventLines(e) + rest) == [e] + Dispatched(NOTHING, rest)
  {
    hide Dispatched, Consumed, FieldLine, DataFields, DataLines, Collected;
    var r3 := [""] + rest;
    var r2 := FieldLine("retry", e.retry) + r3;
    var r1 := FieldLine("id", e.id) + r2;
    var r0 := DataFields(DataLines(e.data, "")) + r1;
    assert EventLines(e) + rest == FieldLine("event", e.event) + r0;
    DispatchedField(NOTHING, "event", e.event, r0);
    ConsumedField(NOTHING, "event", e.event);
    var p0 := NOTHING.(event := e.event);
    DispatchedData(p0, DataLines(e.data, ""), r1);
    CollectedData(p0, e.data, "");
    assert "" + "" + e.data == e.data;
    var p1 := p0.(hasData := true, data := e.data);
    DispatchedField(p1, "id", e.id, r2);
    ConsumedField(p1, "id", e.id);
    var p2 := p1.(id := e.id);
    DispatchedField(p2, "retry", e.retry, r3);
    ConsumedField(p2, "retry", e.retry);
    BlankDispatches(p2.(retry := e.retry), rest);
  }

  lemma BlankDispatches(p: Pending, rest: seq<string>)
    requires p.hasData
    ensures Dispatched(p, [""] + rest) == [EventOf(p)] + Dispatched(NOTHING, rest)
  {
    assert ([""] + rest)[1..] == rest;
  }

  lemma {:induction false} AllDispatched(es: seq<Event>)
    ensures Dispatched(NOTHING, AllEventLines(es)) == es
  {
    if es != [] {
      EventDispatched(es[0], AllEventLines(es[1..]));
      AllDispatched(es[1..]);
    }
  }

  lemma {:induction false} DataLinesAreLines(data: string, line: string)
    requires '\r' !in data && IsLine(line)
    ensures forall l | l in DataFields(DataLines(data, line)) :: IsLine(l)
    decreases |data|
  {
    if data != "" {
      assert data[0] in data;
      DataLinesAreLines(data[1..], if data[0] == '\n' then "" else line + [data[0]]);
      if data[0] == '\n' {
        assert DataLines(data, line)[1..] == DataLines(data[1..], "");
      }
    } else {
      assert [line][1..] == [];
    }
  }

  lemma {:induction false} AllEventLinesAreLines(es: seq<Event>)
    requires forall e | e in es :: Encodable(e)
    ensures forall l | l in AllEventLines(es) :: IsLine(l)
  {
    if es != [] {
      assert es[0] in es;
      DataLinesAreLines(es[0].data, "");
      AllEventLinesAreLines(es[1..]);
    }
  }

  /**
   * Reading back what was written returns the events, whichever terminator is
   * used, for fields without CR and LF and data without CR.
   */
  lemma EncodedReadsBack(es: seq<Event>, terminator: string)
    requires IsTerminator(terminator) && forall e | e in es :: Encodable(e)
    ensures Events(Encoded(es, terminator)) == es
  {
    AllEventLinesAreLines(es);
    TerminatorDoesNotMatter(AllEventLines(es), terminator);
    AllDispatched(es);
  }

  // ----- Any lines of fields -----------------------------------------------------------------------

  /** A line: a name and a value behind a colon, with a space or without; a name alone; or a comment. */
  datatype Field = Spaced(name: string, value: string) | Tight(name: string, value: string) | Bare(name: string) | Comment(text: string)

  predicate IsProper(f: Field) {
    match f
    case Spaced(name, value) => name != "" && ':' !in name && IsLine(name) && IsLine(value)
    case Tight(name, value) => name != "" && ':' !in name && IsLine(name) && IsLine(value) && (value == "" || value[0] != ' ')
    case Bare(name) => name != "" && ':' !in name && IsLine(name)
    case Comment(text) => IsLine(text)
  }

  function LineOf(f: Field): string {
    match f
    case Spaced(name, value) => name + ": " + value
    case Tight(name, value) => name + ":" + value
    case Bare(name) => name
    case Comment(text) => ":" + text
  }

  function NameIn(f: Field): string { if f.Comment? then "" else f.name }

  function ValueIn(f: Field): string { if f.Spaced? || f.Tight? then f.value else "" }

  /** The values of the fields with a name, in order. */
  function ValuesOf(fs: seq<Field>, name: string): seq<string> {
    if fs == [] then [] else (if NameIn(fs[0]) == name then [ValueIn(fs[0])] else []) + ValuesOf(fs[1..], name)
  }

  function LastOr(values: seq<string>, other: string): string { if values == [] then other else values[|values| - 1] }

  function JoinedBy(values: seq<string>, separator: string): string {
    if values == [] then "" else if |values| == 1 then values[0] else values[0] + (separator + JoinedBy(values[1..], separator))
  }

  /** The event of some fields: of each name the last value counts, of data all do, a line feed between them. */
  function MeantBy(fs: seq<Field>): Event {
    Event(LastOr(ValuesOf(fs, "event"), ""), JoinedBy(ValuesOf(fs, "data"), "\n"),
          LastOr(ValuesOf(fs, "id"), ""), LastOr(ValuesOf(fs, "retry"), ""))
  }

  /** Fields that say nothing make no event: no data, and no other value that is not empty. */
  predicate SaysSomething(fs: seq<Field>) {
    ValuesOf(fs, "data") != [] || MeantBy(fs).event != "" || MeantBy(fs).id != "" || MeantBy(fs).retry != ""
  }

  function FieldLines(fs: seq<Field>): seq<string> { if fs == [] then [] else [LineOf(fs[0])] + FieldLines(fs[1..]) }

  /** Each group of fields, and a blank line. */
  function GroupLines(groups: seq<seq<Field>>): seq<string> {
    if groups == [] then [] else FieldLines(groups[0]) + ([""] + GroupLines(groups[1..]))
  }

  function EventsOf(groups: seq<seq<Field>>): seq<Event> {
    if groups == [] then [] else (if SaysSomething(groups[0]) then [MeantBy(groups[0])] else []) + EventsOf(groups[1..])
  }

  /** What a field does to the pending event. */
  function Told(p: Pending, f: Field): Pending {
    if NameIn(f) == "event" then p.(event := ValueIn(f))
    else if NameIn(f) == "data" then p.(hasData := true, data := if p.hasData then p.data + "\n" + ValueIn(f) else ValueIn(f))
    else if NameIn(f) == "id" then p.(id := ValueIn(f))
    else if NameIn(f) == "retry" then p.(retry := ValueIn(f))
    else p
  }

  lemma FieldIsTold(p: Pending, f: Field)
    requires IsProper(f)
    ensures LineOf(f) != "" && Consumed(p, LineOf(f)) == Told(p, f)
  {
    match f
    case Spaced(name, value) => ConsumedField(p, name, value);
    case Tight(name, value) => ConsumedTight(p, name, value);
    case Bare(name) => ConsumedBare(p, name);
    case Comment(text) =>
  }

  lemma ConsumedTight(p: Pending, name: string, value: string)
    requires ':' !in name && name != "" && (value == "" || value[0] != ' ')
    ensures Consumed(p, name + ":" + value) == Told(p, Tight(name, value))
  {
    hide Colon;
    var line := name + ":" + value;
    ColonAfter(name, ":" + value, 0);
    Regroup(name, ":", value);
    TightParts(name, value);
    assert name[0] in name;
  }

  lemma TightParts(name: string, value: string)
    requires name != ""
    ensures var line := name + ":" + value;
            |line| == |name| + 1 + |value| && line[0] == name[0] && line[..|name|] == name && line[|name| + 1..] == value
  {
  }

  lemma ConsumedBare(p: Pending, name: string)
    requires ':' !in name && name != ""
    ensures Consumed(p, name) == Told(p, Bare(name))
  {
    assert name[0] in name;
    NoColon(name, 0);
    assert name[..|name|] == name;
  }

  lemma {:induction false} NoColon(name: string, i: nat)
    requires ':' !in name && i <= |name|
    ensures Colon(name, i) == |name|
    decreases |name| - i
  {
    if i < |name| {
      assert name[i] in name;
      NoColon(name, i + 1);
    }
  }

  /** Fields told one after the other. */
  function ToldAll(p: Pending, fs: seq<Field>): Pending
    decreases |fs|
  {
    if fs == [] then p else ToldAll(Told(p, fs[0]), fs[1..])
  }

  lemma {:induction false} FieldsDispatched(p: Pending, fs: seq<Field>, rest: seq<string>)
    requires forall f | f in fs :: IsProper(f)
    ensures Dispatched(p, FieldLines(fs) + rest) == Dispatched(ToldAll(p, fs), rest)
    decreases |fs|
  {
    hide Consumed, Told, LineOf, IsProper;
    if fs == [] {
      assert [] + rest == rest;
    } else {
      assert fs[0] in fs;
      FieldIsTold(p, fs[0]);
      FieldsDispatched(Told(p, fs[0]), fs[1..], rest);
      assert FieldLines(fs) + rest == [LineOf(fs[0])] + (FieldLines(fs[1..]) + rest);
      DispatchedNext(p, LineOf(fs[0]), FieldLines(fs[1..]) + rest);
    }
  }

  /** Text joined behind text that is there already. */
  function JoinedOn(p: Pending, values: seq<string>): string {
    if values == [] then p.data
    else if p.hasData then p.data + ("\n" + JoinedBy(values, "\n")) else JoinedBy(values, "\n")
  }

  lemma {:induction false} ToldMeans(p: Pending, fs: seq<Field>)
    ensures ToldAll(p, fs) ==
              Pending(LastOr(ValuesOf(fs, "event"), p.event), LastOr(ValuesOf(fs, "id"), p.id), LastOr(ValuesOf(fs, "retry"), p.retry),
                      p.hasData || ValuesOf(fs, "data") != [], JoinedOn(p, ValuesOf(fs, "data")))
    decreases |fs|
  {
    if fs != [] {
      var f, rest := fs[0], fs[1..];
      ToldMeans(Told(p, f), rest);
      LastOfMore(f, rest, "event", p.event);
      LastOfMore(f, rest, "id", p.id);
      LastOfMore(f, rest, "retry", p.retry);
      DataOfMore(p, f, rest);
      hide ValuesOf, JoinedOn, LastOr, ToldAll;
    }
  }

  lemma LastOfMore(f: Field, rest: seq<Field>, name: string, other: string)
    ensures LastOr(ValuesOf([f] + rest, name), other) ==
              LastOr(ValuesOf(rest, name), if NameIn(f) == name then ValueIn(f) else other)
    ensures |rest| >= 0 && ([f] + rest)[1..] == rest
  {
    assert ([f] + rest)[1..] == rest;
  }

  lemma ValuesNext(f: Field, rest: seq<Field>, name: string)
    ensures ValuesOf([f] + rest, name) == (if NameIn(f) == name then [ValueIn(f)] else []) + ValuesOf(rest, name)
  {
    assert ([f] + rest)[1..] == rest;
  }

  lemma JoinedNext(v: string, values: seq<string>)
    ensures JoinedBy([v] + values, "\n") == if values == [] then v else v + ("\n" + JoinedBy(values, "\n"))
  {
    assert ([v] + values)[1..] == values;
  }

  lemma Regroup(a: string, b: string, c: string)
    ensures (a + b) + c == a + (b + c)
  {
  }

  lemma JoinedOnNext(p: Pending, v: string, values: seq<string>)
    ensures JoinedOn(p, [v] + values) == JoinedOn(p.(hasData := true, data := if p.hasData then p.data + "\n" + v else v), values)
  {
    JoinedNext(v, values);
    hide JoinedBy;
    if p.hasData {
      Regroup(p.data, "\n", v);
      Regroup(p.data, "\n" + v, "\n" + JoinedBy(values, "\n"));
      Regroup("\n", v, "\n" + JoinedBy(values, "\n"));
    }
  }

  lemma DataOfMore(p: Pending, f: Field, rest: seq<Field>)
    ensures JoinedOn(p, ValuesOf([f] + rest, "data")) == JoinedOn(Told(p, f), ValuesOf(rest, "data"))
    ensures (p.hasData || ValuesOf([f] + rest, "data") != []) <==> (Told(p, f).hasData || ValuesOf(rest, "data") != [])
  {
    ValuesNext(f, rest, "data");
    hide ValuesOf;
    if NameIn(f) == "data" {
      JoinedOnNext(p, ValueIn(f), ValuesOf(rest, "data"));
    } else {
      assert [] + ValuesOf(rest, "data") == ValuesOf(rest, "data");
      Unmoved(p, Told(p, f), ValuesOf(rest, "data"));
    }
  }

  lemma Unmoved(p: Pending, q: Pending, values: seq<string>)
    requires q.hasData == p.hasData && q.data == p.data
    ensures JoinedOn(p, values) == JoinedOn(q, values)
  {
  }

  lemma GroupMeans(fs: seq<Field>)
    ensures var p := ToldAll(NOTHING, fs);
            && (Carries(p) <==> SaysSomething(fs)) && EventOf(p) == MeantBy(fs) && (!Carries(p) ==> p == NOTHING)
  {
    hide ValuesOf, JoinedBy, LastOr, ToldAll;
    ToldMeans(NOTHING, fs);
    NothingJoined(ValuesOf(fs, "data"));
  }

  lemma NothingJoined(values: seq<string>)
    ensures JoinedOn(NOTHING, values) == JoinedBy(values, "\n")
  {
  }

  lemma {:induction false} GroupsDispatched(groups: seq<seq<Field>>)
    requires forall fs, f | fs in groups && f in fs :: IsProper(f)
    ensures Dispatched(NOTHING, GroupLines(groups)) == EventsOf(groups)
    decreases |groups|
  {
    hide Consumed, IsProper, FieldLines, ToldAll, MeantBy, SaysSomething, EventOf, Carries;
    if groups != [] {
      assert groups[0] in groups;
      GroupsDispatched(groups[1..]);
      var rest := [""] + GroupLines(groups[1..]);
      FieldsDispatched(NOTHING, groups[0], rest);
      GroupMeans(groups[0]);
      DispatchedNext(ToldAll(NOTHING, groups[0]), "", GroupLines(groups[1..]));
    }
  }

  lemma {:induction false} FieldLinesAreLines(fs: seq<Field>)
    requires forall f | f in fs :: IsProper(f)
    ensures forall l | l in FieldLines(fs) :: IsLine(l)
  {
    if fs != [] {
      assert fs[0] in fs && IsProper(fs[0]);
      FieldLinesAreLines(fs[1..]);
    }
  }

  lemma {:induction false} GroupLinesAreLines(groups: seq<seq<Field>>)
    requires forall fs, f | fs in groups && f in fs :: IsProper(f)
    ensures forall l | l in GroupLines(groups) :: IsLine(l)
  {
    hide IsProper;
    if groups != [] {
      assert groups[0] in groups;
      FieldLinesAreLines(groups[0]);
      GroupLinesAreLines(groups[1..]);
    }
  }

  /**
   * Groups of fields, written with or without a space, with unknown names,
   * comments and repetitions, under any line terminator: a group that says
   * something is read as the event it means, data or not, and any other as none.
   */
  lemma FieldsRead(groups: seq<seq<Field>>, terminator: string)
    requires IsTerminator(terminator) && forall fs, f | fs in groups && f in fs :: IsProper(f)
    ensures Events(Joined(GroupLines(groups), terminator)) == EventsOf(groups)
  {
    hide IsProper;
    GroupLinesAreLines(groups);
    TerminatorDoesNotMatter(GroupLines(groups), terminator);
    GroupsDispatched(groups);
  }
}
