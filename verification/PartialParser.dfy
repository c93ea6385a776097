/**
 * The cursor parser for truncated JSON. The functions say what each parsing
 * routine returns from a given position; the class is the parser itself, a
 * cursor that every method advances, and each of its methods is proved to
 * return what the function of the same name says.
 */
module PartialParser {
  import opened Wrappers
  import opened JsonText

  /** A routine's result: a value and the next position, or one of the two errors. */
  datatype Parsed<+T> =
    | Parsed(value: T, pos: nat)
    | IncompleteScalar
    | Unparsable

  ghost predicate Advances<T>(s: string, start: nat, r: Parsed<T>) {
    r.Parsed? ==> start <= r.pos <= |s|
  }

  function SkipSpace(s: string, pos: nat): (p: nat)
    requires pos <= |s|
    ensures pos <= p <= |s|
    ensures p < |s| ==> !IsSpace(s[p])
    decreases |s| - pos
  {
    if pos < |s| && IsSpace(s[pos]) then SkipSpace(s, pos + 1) else pos
  }

  function NumberEnd(s: string, pos: nat): (p: nat)
    requires pos <= |s|
    ensures pos <= p <= |s|
    decreases |s| - pos
  {
    if pos < |s| && IsNumberChar(s[pos]) then NumberEnd(s, pos + 1) else pos
  }

  function ParseNumber(s: string, pos: nat): (r: Parsed<Value>)
    requires pos <= |s|
    ensures Advances(s, pos, r)
    ensures r.Parsed? && pos < |s| && IsNumberChar(s[pos]) ==> pos < r.pos
    ensures r.IncompleteScalar? ==> NumberEnd(s, pos) == |s|
  {
    var end := NumberEnd(s, pos);
    var text := s[pos..end];
    if IsFloat(text) then Parsed(Number(text), end)
    else if end < |s| then Unparsable
    else match LongestFloat(text)
      case Some(t) => Parsed(Number(t), end)
      case None => IncompleteScalar
  }

  /** A literal's value is decided by its first letter; a truncated one is completed. */
  function ParseLiteral(s: string, pos: nat): (r: Parsed<Value>)
    requires pos < |s|
    ensures Advances(s, pos + 1, r)
    ensures !r.IncompleteScalar?
  {
    var rest := s[pos..];
    if "true" <= rest then Parsed(Bool(true), pos + 4)
    else if rest <= "true" then Parsed(Bool(true), |s|)
    else if "false" <= rest then Parsed(Bool(false), pos + 5)
    else if rest <= "false" then Parsed(Bool(false), |s|)
    else if "null" <= rest then Parsed(Null, pos + 4)
    else if rest <= "null" then Parsed(Null, |s|)
    else Unparsable
  }

  predicate IsEscapeLetter(c: char) {
    c == '"' || c == '\\' || c == '/' || c == 'b' || c == 'f' || c == 'n' || c == 'r' || c == 't'
  }

  function Unescaped(c: char): char
    requires IsEscapeLetter(c)
  {
    match c
    case 'b' => '\U{0008}'
    case 'f' => '\U{000C}'
    case 'n' => '\n'
    case 'r' => '\r'
    case 't' => '\t'
    case _ => c
  }

  predicate IsHex4(s: string, pos: nat) {
    pos + 4 <= |s| && IsHex(s[pos]) && IsHex(s[pos + 1]) && IsHex(s[pos + 2]) && IsHex(s[pos + 3])
  }

  function Hex4(s: string, pos: nat): (code: nat)
    requires IsHex4(s, pos)
    ensures code < 0x1_0000
  {
    HexCode(s[pos], s[pos + 1], s[pos + 2], s[pos + 3])
  }

  /** A low-surrogate escape stands at pos, so that the high one before it pairs up. */
  predicate IsLowEscape(s: string, pos: nat) {
    && pos + 6 <= |s| && s[pos] == '\\' && s[pos + 1] == 'u'
    && IsHex4(s, pos + 2) && IsLowSurrogate(Hex4(s, pos + 2))
  }

  function Prepend(a: string, r: Parsed<string>): Parsed<string> {
    if r.Parsed? then Parsed(a + r.value, r.pos) else r
  }

  lemma PrependNothing(r: Parsed<string>)
    ensures Prepend("", r) == r
  {
    if r.Parsed? {
      assert "" + r.value == r.value;
    }
  }

  lemma PrependTwice(a: string, b: string, r: Parsed<string>)
    ensures Prepend(a, Prepend(b, r)) == Prepend(a + b, r)
  {
    if r.Parsed? {
      assert a + (b + r.value) == a + b + r.value;
    }
  }

  /** What one round of parseString's loop does at pos. */
  datatype Round = Stop(next: nat) | Emit(bytes: string, next: nat) | BadEscape

  function StringRound(s: string, pos: nat): (r: Round)
    requires pos <= |s|
    ensures r.Stop? ==> pos <= r.next <= |s|
    ensures r.Emit? ==> pos < r.next <= |s|
  {
    if pos == |s| then Stop(pos)
    else if s[pos] == '"' then Stop(pos + 1)
    else if s[pos] != '\\' then Emit([s[pos]], pos + 1)
    else if pos + 1 == |s| then Stop(|s|)
    else if IsEscapeLetter(s[pos + 1]) then Emit([Unescaped(s[pos + 1])], pos + 2)
    else if s[pos + 1] != 'u' then BadEscape
    else if pos + 6 > |s| then Stop(|s|)
    else if !IsHex4(s, pos + 2) then BadEscape
    else
      var code := Hex4(s, pos + 2);
      if IsHighSurrogate(code) && IsLowEscape(s, pos + 6) then
        Emit(Utf8(PairRune(code, Hex4(s, pos + 8))), pos + 12)
      else
        Emit(Utf8(code), pos + 6)
  }

  /** The rest of a string literal, from pos on. */
  function ParseStringRest(s: string, pos: nat): (r: Parsed<string>)
    requires pos <= |s|
    ensures Advances(s, pos, r)
    ensures !r.IncompleteScalar?
    decreases |s| - pos
  {
    match StringRound(s, pos)
    case Stop(next) => Parsed("", next)
    case BadEscape => Unparsable
    case Emit(bytes, next) => Prepend(bytes, ParseStringRest(s, next))
  }

  /** The same with text read before. */
  lemma PrependRound(s: string, pos: nat, b: string)
    requires pos <= |s|
    ensures Prepend(b, ParseStringRest(s, pos)) ==
              match StringRound(s, pos)
              case Stop(next) => Parsed(b, next)
              case BadEscape => Unparsable
              case Emit(bytes, next) => Prepend(b + bytes, ParseStringRest(s, next))
  {
    hide StringRound;
    assert b + "" == b;
    match StringRound(s, pos)
    case Emit(bytes, next) => PrependTwice(b, bytes, ParseStringRest(s, next));
    case _ =>
  }

  function ParseValue(s: string, pos: nat): (r: Parsed<Value>)
    requires pos <= |s|
    ensures Advances(s, pos, r)
    ensures r.Parsed? ==> pos < r.pos
    decreases |s| - pos, 2
  {
    var p := SkipSpace(s, pos);
    if p == |s| then IncompleteScalar
    else if s[p] == '{' then ParseMembers(s, p + 1, map[])
    else if s[p] == '[' then ParseItems(s, p + 1, [])
    else if s[p] == '"' then
      match ParseStringRest(s, p + 1)
      case Parsed(t, q) => Parsed(String(t), q)
      case IncompleteScalar => IncompleteScalar
      case Unparsable => Unparsable
    else if s[p] == 't' || s[p] == 'f' || s[p] == 'n' then ParseLiteral(s, p)
    else if s[p] == '-' || IsDigit(s[p]) then ParseNumber(s, p)
    else Unparsable
  }

  /** One round of parseArray's loop, and those after it. */
  function ParseItems(s: string, pos: nat, done: seq<Value>): (r: Parsed<Value>)
    requires pos <= |s|
    ensures Advances(s, pos, r)
    ensures !r.IncompleteScalar?
    decreases |s| - pos, 3
  {
    var p := SkipSpace(s, pos);
    if p == |s| then Parsed(Array(done), |s|)
    else if s[p] == ']' then Parsed(Array(done), p + 1)
    else match ParseValue(s, p)
      case IncompleteScalar => Parsed(Array(done), |s|)
      case Unparsable => Unparsable
      case Parsed(v, q) =>
        var items := done + [v];
        var next := SkipSpace(s, q);
        if next == |s| then Parsed(Array(items), |s|)
        else if s[next] == ',' then ParseItems(s, next + 1, items)
        else if s[next] == ']' then Parsed(Array(items), next + 1)
        else Unparsable
  }

  /** One round of parseObject's loop, and those after it. */
  function ParseMembers(s: string, pos: nat, done: map<string, Value>): (r: Parsed<Value>)
    requires pos <= |s|
    ensures Advances(s, pos, r)
    ensures !r.IncompleteScalar?
    decreases |s| - pos, 3
  {
    var p := SkipSpace(s, pos);
    if p == |s| then Parsed(Object(done), |s|)
    else if s[p] == '}' then Parsed(Object(done), p + 1)
    else if s[p] != '"' then Unparsable
    else match ParseMember(s, p)
      case IncompleteScalar => Parsed(Object(done), |s|)
      case Unparsable => Unparsable
      case Parsed((key, value), q) =>
        var fields := done[key := value];
        var next := SkipSpace(s, q);
        if next == |s| then Parsed(Object(fields), |s|)
        else if s[next] == ',' then ParseMembers(s, next + 1, fields)
        else if s[next] == '}' then Parsed(Object(fields), next + 1)
        else Unparsable
  }

  /** A key and its value; IncompleteScalar when the text ends before a value can be read. */
  function ParseMember(s: string, pos: nat): (r: Parsed<(string, Value)>)
    requires pos < |s| && s[pos] == '"'
    ensures Advances(s, pos, r)
    ensures r.Parsed? ==> pos < r.pos
    decreases |s| - pos, 2
  {
    match ParseStringRest(s, pos + 1)
    case IncompleteScalar => Unparsable
    case Unparsable => Unparsable
    case Parsed(key, afterKey) =>
      var colon := SkipSpace(s, afterKey);
      if colon == |s| then IncompleteScalar
      else if s[colon] != ':' then Unparsable
      else
        var v := SkipSpace(s, colon + 1);
        if v == |s| then IncompleteScalar
        else match ParseValue(s, v)
          case IncompleteScalar => IncompleteScalar
          case Unparsable => Unparsable
          case Parsed(value, q) => Parsed((key, value), q)
  }

  /** ParsePartial: None is the error return. */
  function ParsePartial(s: string): Option<Value> {
    match ParseValue(s, 0)
    case Parsed(v, _) => Some(v)
    case _ => None
  }

  class Parser {
    const s: string
    var pos: nat

    ghost predicate Valid() reads this { pos <= |s| }

    constructor (s: string)
      ensures Valid() && this.s == s && pos == 0
    {
      this.s := s;
      this.pos := 0;
    }

    method SkipWS()
      requires Valid()
      modifies this
      ensures Valid() && pos == SkipSpace(s, old(pos))
    {
      while pos < |s| && IsSpace(s[pos])
        invariant Valid() && SkipSpace(s, pos) == SkipSpace(s, old(pos))
      {
        pos := pos + 1;
      }
    }

    /** The cursor ends where the function says; after an incomplete scalar it is at the end. */
    ghost predicate Follows<T>(r: Parsed<T>) reads this {
      Valid() && (r.Parsed? ==> pos == r.pos) && (r.IncompleteScalar? ==> pos == |s|)
    }

    method Value() returns (r: Parsed<Value>)
      requires Valid()
      modifies this
      ensures r == ParseValue(s, old(pos)) && Follows(r)
      decreases |s| - pos, 2
    {
      SkipWS();
      if pos == |s| {
        r := IncompleteScalar;
        return;
      }
      var c := s[pos];
      if c == '{' {
        r := this.Object();
      } else if c == '[' {
        r := this.Array();
      } else if c == '"' {
        var t := this.String();
        match t
        case Parsed(text, q) => r := Parsed(JsonText.String(text), q);
        case IncompleteScalar => r := IncompleteScalar;
        case Unparsable => r := Unparsable;
      } else if c == 't' || c == 'f' || c == 'n' {
        r := Literal();
      } else if c == '-' || IsDigit(c) {
        r := this.Number();
      } else {
        r := Unparsable;
      }
    }

    method Literal() returns (r: Parsed<Value>)
      requires Valid() && pos < |s|
      modifies this
      ensures r == ParseLiteral(s, old(pos)) && Follows(r)
    {
      var literals := [("true", Bool(true)), ("false", Bool(false)), ("null", Null)];
      var rest := s[pos..];
      for i := 0 to 3
        invariant pos == old(pos)
        invariant i > 0 ==> !("true" <= rest) && !(rest <= "true")
        invariant i > 1 ==> !("false" <= rest) && !(rest <= "false")
        invariant i > 2 ==> !("null" <= rest) && !(rest <= "null")
      {
        var (text, value) := literals[i];
        assert i == 0 ==> text == "true" && value == Bool(true);
        assert i == 1 ==> text == "false" && value == Bool(false);
        assert i == 2 ==> text == "null" && value == Null;
        if text <= rest {
          pos := pos + |text|;
          return Parsed(value, pos);
        }
        if rest <= text {
          pos := |s|;
          return Parsed(value, pos);
        }
      }
      r := Unparsable;
    }

    method Number() returns (r: Parsed<Value>)
      requires Valid()
      modifies this
      ensures r == ParseNumber(s, old(pos)) && Follows(r)
    {
      var start := pos;
      while pos < |s| && IsNumberChar(s[pos])
        invariant Valid() && start <= pos && NumberEnd(s, pos) == NumberEnd(s, start)
      {
        pos := pos + 1;
      }
      var text := s[start..pos];
      if IsFloat(text) {
        return Parsed(JsonText.Number(text), pos);
      }
      if pos < |s| {
        return Unparsable;
      }
      while |text| > 0
        invariant LongestFloat(text) == LongestFloat(s[start..pos]) && !IsFloat(text)
        decreases |text|
      {
        text := text[..|text| - 1];
        if IsFloat(text) {
          return Parsed(JsonText.Number(text), pos);
        }
      }
      r := IncompleteScalar;
    }

    /** The escape at the cursor, which it does not move. */
    method Escape() returns (r: Round)
      requires Valid() && pos < |s| && s[pos] == '\\'
      ensures r == StringRound(s, pos)
    {
      hide Utf8, PairRune, HexCode;
      if pos + 1 >= |s| {
        return Stop(|s|);
      }
      var esc := s[pos + 1];
      if esc == 'u' {
        if pos + 6 > |s| {
          return Stop(|s|);
        }
        if !IsHex4(s, pos + 2) {
          return BadEscape;
        }
        var code := Hex4(s, pos + 2);
        if IsHighSurrogate(code) && IsLowEscape(s, pos + 6) {
          return Emit(Utf8(PairRune(code, Hex4(s, pos + 8))), pos + 12);
        }
        return Emit(Utf8(code), pos + 6);
      }
      if IsEscapeLetter(esc) {
        return Emit([Unescaped(esc)], pos + 2);
      }
      r := BadEscape;
    }

    method String() returns (r: Parsed<string>)
      requires Valid() && pos < |s| && s[pos] == '"'
      modifies this
      ensures r == ParseStringRest(s, old(pos) + 1) && Follows(r)
    {
      hide ParseStringRest, Prepend;
      pos := pos + 1;
      var b := "";
      PrependNothing(ParseStringRest(s, pos));
      while pos < |s|
        invariant Valid() && old(pos) < pos
        invariant Prepend(b, ParseStringRest(s, pos)) == ParseStringRest(s, old(pos) + 1)
        decreases |s| - pos
      {
        PrependRound(s, pos, b);
        var c := s[pos];
        if c == '"' {
          pos := pos + 1;
          return Parsed(b, pos);
        }
        if c != '\\' {
          b, pos := b + [c], pos + 1;
          continue;
        }
        var round := Escape();
        match round
        case Stop(next) =>
          pos := next;
          return Parsed(b, pos);
        case BadEscape =>
          return Unparsable;
        case Emit(bytes, next) =>
          b, pos := b + bytes, next;
      }
      PrependRound(s, pos, b);
      r := Parsed(b, pos);
    }

    method Array() returns (r: Parsed<Value>)
      requires Valid() && pos < |s| && s[pos] == '['
      modifies this
      ensures r == ParseItems(s, old(pos) + 1, []) && Follows(r)
      decreases |s| - pos, 1
    {
      hide ParseValue, SkipSpace;
      pos := pos + 1;
      var out := [];
      while true
        invariant Valid() && old(pos) < pos
        invariant ParseItems(s, pos, out) == ParseItems(s, old(pos) + 1, [])
        decreases |s| - pos
      {
        SkipWS();
        if pos >= |s| {
          return Parsed(JsonText.Array(out), pos);
        }
        if s[pos] == ']' {
          pos := pos + 1;
          return Parsed(JsonText.Array(out), pos);
        }
        var v := this.Value();
        match v
        case IncompleteScalar => return Parsed(JsonText.Array(out), pos);
        case Unparsable => return Unparsable;
        case Parsed(value, _) => out := out + [value];
        SkipWS();
        if pos >= |s| {
          return Parsed(JsonText.Array(out), pos);
        }
        if s[pos] == ',' {
          pos := pos + 1;
        } else if s[pos] == ']' {
          pos := pos + 1;
          return Parsed(JsonText.Array(out), pos);
        } else {
          return Unparsable;
        }
      }
    }

    method Member() returns (r: Parsed<(string, Value)>)
      requires Valid() && pos < |s| && s[pos] == '"'
      modifies this
      ensures r == ParseMember(s, old(pos)) && Follows(r)
      decreases |s| - pos, 1
    {
      hide ParseValue, ParseStringRest;
      var key := this.String();
      if !key.Parsed? {
        return Unparsable;
      }
      // A key whose closing quote was truncated has no value.
      if pos >= |s| && s[|s| - 1] != '"' {
        return IncompleteScalar;
      }
      SkipWS();
      if pos >= |s| {
        return IncompleteScalar;
      }
      if s[pos] != ':' {
        return Unparsable;
      }
      pos := pos + 1;
      SkipWS();
      if pos >= |s| {
        return IncompleteScalar;
      }
      var v := this.Value();
      match v
      case IncompleteScalar => r := IncompleteScalar;
      case Unparsable => r := Unparsable;
      case Parsed(value, q) => r := Parsed((key.value, value), q);
    }

    method Object() returns (r: Parsed<Value>)
      requires Valid() && pos < |s| && s[pos] == '{'
      modifies this
      ensures r == ParseMembers(s, old(pos) + 1, map[]) && Follows(r)
      decreases |s| - pos, 1
    {
      hide ParseMember, SkipSpace;
      pos := pos + 1;
      var out := map[];
      while true
        invariant Valid() && old(pos) < pos
        invariant ParseMembers(s, pos, out) == ParseMembers(s, old(pos) + 1, map[])
        decreases |s| - pos
      {
        SkipWS();
        if pos >= |s| {
          return Parsed(JsonText.Object(out), pos);
        }
        if s[pos] == '}' {
          pos := pos + 1;
          return Parsed(JsonText.Object(out), pos);
        }
        if s[pos] != '"' {
          return Unparsable;
        }
        var member := Member();
        match member
        case IncompleteScalar => return Parsed(JsonText.Object(out), pos);
        case Unparsable => return Unparsable;
        case Parsed(field, _) => out := out[field.0 := field.1];
        SkipWS();
        if pos >= |s| {
          return Parsed(JsonText.Object(out), pos);
        }
        if s[pos] == ',' {
          pos := pos + 1;
        } else if s[pos] == '}' {
          pos := pos + 1;
          return Parsed(JsonText.Object(out), pos);
        } else {
          return Unparsable;
        }
      }
    }
  }

  /** ParsePartial runs a fresh parser over the text. */
  method RunParsePartial(s: string) returns (r: Option<Value>)
    ensures r == ParsePartial(s)
  {
    var p := new Parser(s);
    p.SkipWS();
    if p.pos >= |s| {
      return None;
    }
    SkipSpaceTwice(s, 0);
    var v := p.Value();
    r := match v case Parsed(value, _) => Some(value) case _ => None;
  }

  lemma SkipSpaceTwice(s: string, pos: nat)
    requires pos <= |s|
    ensures SkipSpace(s, SkipSpace(s, pos)) == SkipSpace(s, pos)
    decreases |s| - pos
  {
  }
}
