/** The JSON reader of the configuration file, and printed documents.  A byte
    of the file is a char below 256. */
module Json {
  import opened Wrappers

  datatype Json =
    | Null
    | Bool(b: bool)
    | Number(n: nat)
    | String(s: string)
    | Array(items: seq<Json>)
    | Object(members: map<string, Json>)

  const U64_LIMIT: nat := 0x1_0000_0000_0000_0000

  // The reader as a function of the text that is left.

  /** `std::isspace` in the "C" locale. */
  predicate Space(c: char) {
    c == ' ' || '\t' <= c <= '\r'
  }

  predicate Digit(c: char) {
    '0' <= c <= '9'
  }

  function Skip(s: string): (r: string)
    ensures |r| <= |s| && (r != "" ==> !Space(r[0]))
  {
    if s != "" && Space(s[0]) then Skip(s[1..]) else s
  }

  function Eat(s: string, expected: char): (r: Option<string>)
    ensures r.Some? ==> |r.value| < |s|
  {
    var t := Skip(s);
    if t != "" && t[0] == expected then Some(t[1..]) else None
  }

  function Unescape(c: char): Option<char> {
    match c
    case '"' => Some('"')
    case '\\' => Some('\\')
    case '/' => Some('/')
    case 'b' => Some('\U{8}')
    case 'f' => Some('\U{C}')
    case 'n' => Some('\n')
    case 'r' => Some('\r')
    case 't' => Some('\t')
    case _ => None
  }

  function Before(c: char, r: Option<(string, string)>): Option<(string, string)> {
    if r.None? then None else Some(([c] + r.value.0, r.value.1))
  }

  /** The characters up to the closing quote, and what follows it. */
  function PChars(s: string): (r: Option<(string, string)>)
    ensures r.Some? ==> |r.value.1| < |s|
    decreases |s|
  {
    if s == "" then None
    else if s[0] == '"' then Some(("", s[1..]))
    else if s[0] < ' ' then None
    else if s[0] != '\\' then Before(s[0], PChars(s[1..]))
    else if |s| == 1 || Unescape(s[1]).None? then None
    else Before(Unescape(s[1]).value, PChars(s[2..]))
  }

  function PString(s: string): (r: Option<(string, string)>)
    ensures r.Some? ==> |r.value.1| < |s|
  {
    var t := Eat(s, '"');
    if t.None? then None else PChars(t.value)
  }

  function DigitRun(s: string): (n: nat)
    ensures n <= |s|
  {
    if s != "" && Digit(s[0]) then 1 + DigitRun(s[1..]) else 0
  }

  /** The value of a run of decimal digits. */
  function Decimal(s: string): nat {
    if s == "" then 0
    else 10 * Decimal(s[..|s| - 1]) + (if Digit(s[|s| - 1]) then s[|s| - 1] as nat - '0' as nat else 0)
  }

  function PNumber(s: string): (r: Option<(Json, string)>)
    ensures r.Some? ==> |r.value.1| < |s|
  {
    var n := DigitRun(s);
    if n == 0 || Decimal(s[..n]) >= U64_LIMIT then None else Some((Number(Decimal(s[..n])), s[n..]))
  }

  function PLiteral(s: string, literal: string, value: Json): (r: Option<(Json, string)>)
    requires literal != ""
    ensures r.Some? ==> |r.value.1| < |s|
  {
    if literal <= s then Some((value, s[|literal|..])) else None
  }

  function PValue(s: string): (r: Option<(Json, string)>)
    ensures r.Some? ==> |r.value.1| < |s|
    decreases |s|, 1
  {
    var t := Skip(s);
    if t == "" then None
    else
      match t[0]
      case '{' => PObject(t[1..])
      case '[' => PArray(t[1..])
      case '"' =>
        var text := PString(t);
        if text.None? then None else Some((String(text.value.0), text.value.1))
      case 't' => PLiteral(t, "true", Bool(true))
      case 'f' => PLiteral(t, "false", Bool(false))
      case 'n' => PLiteral(t, "null", Null)
      case _ => PNumber(t)
  }

  /** What follows an opening brace. */
  function PObject(s: string): (r: Option<(Json, string)>)
    ensures r.Some? ==> |r.value.1| < |s|
    decreases |s|, 1
  {
    var end := Eat(s, '}');
    if end.Some? then Some((Object(map[]), end.value)) else PMembers(s, map[])
  }

  function PMembers(s: string, seen: map<string, Json>): (r: Option<(Json, string)>)
    ensures r.Some? ==> |r.value.1| < |s|
    decreases |s|, 0
  {
    var key := PString(s);
    if key.None? then None
    else
      var colon := Eat(key.value.1, ':');
      if colon.None? then None
      else
        var member := PValue(colon.value);
        if member.None? || key.value.0 in seen then None
        else
          var now := seen[key.value.0 := member.value.0];
          var end, comma := Eat(member.value.1, '}'), Eat(member.value.1, ',');
          if end.Some? then Some((Object(now), end.value))
          else if comma.Some? then PMembers(comma.value, now)
          else None
  }

  /** What follows an opening bracket. */
  function PArray(s: string): (r: Option<(Json, string)>)
    ensures r.Some? ==> |r.value.1| < |s|
    decreases |s|, 3
  {
    var end := Eat(s, ']');
    if end.Some? then Some((Array([]), end.value)) else PItems(s, [])
  }

  function PItems(s: string, seen: seq<Json>): (r: Option<(Json, string)>)
    ensures r.Some? ==> |r.value.1| < |s|
    decreases |s|, 2
  {
    var item := PValue(s);
    if item.None? then None
    else
      var now := seen + [item.value.0];
      var end, comma := Eat(item.value.1, ']'), Eat(item.value.1, ',');
      if end.Some? then Some((Array(now), end.value))
      else if comma.Some? then PItems(comma.value, now)
      else None
  }

  /** The whole text as one value. */
  function PDocument(s: string): Option<Json> {
    var value := PValue(s);
    if value.Some? && Skip(value.value.1) == "" then Some(value.value.0) else None
  }

  lemma SkipTwice(s: string)
    ensures Skip(Skip(s)) == Skip(s)
  {
  }

  lemma EatAfterSpace(s: string, expected: char)
    ensures Eat(Skip(s), expected) == Eat(s, expected)
  {
    SkipTwice(s);
  }

  /** A string read after `prefix` has been. */
  function After(prefix: string, r: Option<(string, string)>): Option<(string, string)> {
    if r.None? then None else Some((prefix + r.value.0, r.value.1))
  }

  lemma AfterNothing(r: Option<(string, string)>)
    ensures After("", r) == r
  {
    if r.Some? {
      assert "" + r.value.0 == r.value.0;
    }
  }

  lemma AfterClosing(prefix: string, rest: string)
    ensures After(prefix, Some(("", rest))) == Some((prefix, rest))
  {
    assert prefix + "" == prefix;
  }

  lemma AfterBefore(prefix: string, c: char, r: Option<(string, string)>)
    ensures After(prefix, Before(c, r)) == After(prefix + [c], r)
  {
    if r.Some? {
      assert prefix + ([c] + r.value.0) == prefix + [c] + r.value.0;
    }
  }

  lemma MembersAfterSpace(s: string, seen: map<string, Json>)
    ensures PMembers(Skip(s), seen) == PMembers(s, seen)
  {
    hide PChars, PValue;
    SkipTwice(s);
  }

  lemma ValueAfterSpace(s: string)
    ensures PValue(Skip(s)) == PValue(s)
  {
    hide PObject, PArray, PChars;
    SkipTwice(s);
  }

  lemma ItemsAfterSpace(s: string, seen: seq<Json>)
    ensures PItems(Skip(s), seen) == PItems(s, seen)
  {
    hide PValue;
    ValueAfterSpace(s);
  }

  /** `JsonParser`: a cursor into the text.  Each method consumes what the
      function of the same purpose consumes, and fails when that fails. */
  class JsonParser {
    const input: string
    var current: nat

    ghost predicate Valid()
      reads this
    {
      current <= |input|
    }

    /** The text that is left. */
    ghost function Rest(): string
      requires Valid()
      reads this
    {
      input[current..]
    }

    constructor (input: string)
      ensures Valid() && this.input == input && Rest() == input
    {
      this.input := input;
      current := 0;
    }

    method SkipWhitespace()
      requires Valid()
      modifies this
      ensures Valid() && Rest() == Skip(old(Rest()))
    {
      while current < |input| && Space(input[current])
        invariant Valid()
        invariant Skip(Rest()) == Skip(old(Rest()))
      {
        assert Rest()[1..] == input[current + 1..];
        current := current + 1;
      }
    }

    method Consume(expected: char) returns (consumed: bool)
      requires Valid()
      modifies this
      ensures Valid() && consumed == Eat(old(Rest()), expected).Some?
      ensures Rest() == if consumed then Eat(old(Rest()), expected).value else Skip(old(Rest()))
    {
      SkipWhitespace();
      if current == |input| || input[current] != expected {
        return false;
      }
      current := current + 1;
      return true;
    }

    method ParseString() returns (result: Option<string>)
      requires Valid()
      modifies this
      ensures Valid() && result.Some? == PString(old(Rest())).Some?
      ensures result.Some? ==> (result.value, Rest()) == PString(old(Rest())).value
    {
      var quoted := Consume('"');
      if !quoted {
        return None;
      }
      ghost var text := Rest();
      var output := "";
      AfterNothing(PChars(text));
      while current < |input|
        invariant Valid() && |Rest()| <= |text|
        invariant PChars(text) == After(output, PChars(Rest()))
      {
        var c := input[current];
        ghost var here := Rest();
        current := current + 1;
        assert Rest() == here[1..];
        AfterClosing(output, Rest());
        if c == '"' {
          return Some(output);
        }
        if c < ' ' {
          return None;
        }
        if c != '\\' {
          AfterBefore(output, c, PChars(Rest()));
          output := output + [c];
          continue;
        }
        if current == |input| {
          return None;
        }
        var escaped := Unescape(input[current]);
        current := current + 1;
        assert Rest() == here[2..];
        if escaped.None? {
          return None;
        }
        AfterBefore(output, escaped.value, PChars(Rest()));
        output := output + [escaped.value];
      }
      return None;
    }

    method ParseNumber() returns (result: Option<Json>)
      requires Valid()
      modifies this
      ensures Valid() && result.Some? == PNumber(old(Rest())).Some?
      ensures result.Some? ==> (result.value, Rest()) == PNumber(old(Rest())).value
    {
      var start := current;
      if current < |input| && input[current] == '-' {
        return None;
      }
      while current < |input| && Digit(input[current])
        invariant start <= current <= |input|
        invariant DigitRun(old(Rest())) == current - start + DigitRun(Rest())
      {
        assert Rest()[1..] == input[current + 1..];
        current := current + 1;
      }
      if start == current {
        return None;
      }
      assert input[start..current] == old(Rest())[..current - start];
      var number := Decimal(input[start..current]);
      if number >= U64_LIMIT {
        return None;
      }
      return Some(Number(number));
    }

    method ParseLiteral(literal: string, value: Json) returns (result: Option<Json>)
      requires Valid() && literal != ""
      modifies this
      ensures Valid() && result.Some? == PLiteral(old(Rest()), literal, value).Some?
      ensures result.Some? ==> (result.value, Rest()) == PLiteral(old(Rest()), literal, value).value
    {
      if |input| - current < |literal| || input[current..current + |literal|] != literal {
        return None;
      }
      current := current + |literal|;
      return Some(value);
    }

    method ParseValue() returns (result: Option<Json>)
      requires Valid()
      modifies this
      ensures Valid() && result.Some? == PValue(old(Rest())).Some?
      ensures result.Some? ==> (result.value, Rest()) == PValue(old(Rest())).value
      decreases |input| - current, 1
    {
      hide PObject, PArray, PChars, PNumber, PLiteral;
      SkipWhitespace();
      if current == |input| {
        return None;
      }
      assert Rest()[0] == input[current];
      match input[current]
      case '{' => result := ParseObject();
      case '[' => result := ParseArray();
      case '"' =>
        var text := ParseString();
        return if text.Some? then Some(String(text.value)) else None;
      case 't' => result := ParseLiteral("true", Bool(true));
      case 'f' => result := ParseLiteral("false", Bool(false));
      case 'n' => result := ParseLiteral("null", Null);
      case _ => result := ParseNumber();
    }

    method ParseObject() returns (result: Option<Json>)
      requires Valid() && current < |input|
      modifies this
      ensures Valid() && result.Some? == PObject(old(Rest())[1..]).Some?
      ensures result.Some? ==> (result.value, Rest()) == PObject(old(Rest())[1..]).value
      decreases |input| - current, 0
    {
      hide PValue, PString, Eat, Skip;
      current := current + 1;
      ghost var text := Rest();
      SkipWhitespace();
      SkipTwice(text);
      EatAfterSpace(text, '}');
      var closed := Consume('}');
      if closed {
        return Some(Object(map[]));
      }
      MembersAfterSpace(text, map[]);
      var members: map<string, Json> := map[];
      while true
        invariant Valid() && current > old(current)
        invariant PObject(text) == PMembers(Rest(), members)
        decreases |input| - current
      {
        var key := ParseString();
        if key.None? {
          return None;
        }
        var colon := Consume(':');
        if !colon {
          return None;
        }
        var member := ParseValue();
        if member.None? || key.value in members {
          return None;
        }
        members := members[key.value := member.value];
        ghost var left := Rest();
        EatAfterSpace(left, '}');
        EatAfterSpace(left, ',');
        EatAfterSpace(Skip(left), ',');
        SkipWhitespace();
        closed := Consume('}');
        if closed {
          return Some(Object(members));
        }
        var more := Consume(',');
        if !more {
          return None;
        }
        MembersAfterSpace(Rest(), members);
        SkipWhitespace();
      }
    }

    method ParseArray() returns (result: Option<Json>)
      requires Valid() && current < |input|
      modifies this
      ensures Valid() && result.Some? == PArray(old(Rest())[1..]).Some?
      ensures result.Some? ==> (result.value, Rest()) == PArray(old(Rest())[1..]).value
      decreases |input| - current, 0
    {
      hide PValue, Eat, Skip;
      current := current + 1;
      ghost var text := Rest();
      SkipWhitespace();
      SkipTwice(text);
      EatAfterSpace(text, ']');
      var closed := Consume(']');
      if closed {
        return Some(Array([]));
      }
      ItemsAfterSpace(text, []);
      var items: seq<Json> := [];
      while true
        invariant Valid() && current > old(current)
        invariant PArray(text) == PItems(Rest(), items)
        decreases |input| - current
      {
        var item := ParseValue();
        if item.None? {
          return None;
        }
        items := items + [item.value];
        ghost var left := Rest();
        EatAfterSpace(left, ']');
        EatAfterSpace(left, ',');
        EatAfterSpace(Skip(left), ',');
        SkipWhitespace();
        closed := Consume(']');
        if closed {
          return Some(Array(items));
        }
        var more := Consume(',');
        if !more {
          return None;
        }
        ItemsAfterSpace(Rest(), items);
        SkipWhitespace();
      }
    }

    /** The parser accepts exactly the documents, and reads them as `PDocument`. */
    method Parse() returns (result: Option<Json>)
      requires Valid()
      modifies this
      ensures Valid() && result == PDocument(old(Rest()))
    {
      hide PValue;
      ghost var text := Rest();
      SkipWhitespace();
      ValueAfterSpace(text);
      result := ParseValue();
      if result.None? {
        return;
      }
      SkipWhitespace();
      if current != |input| {
        return None;
      }
    }
  }
}
