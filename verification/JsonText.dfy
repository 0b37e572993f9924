/** JSON values, the text they are written as, and the parser that reads it (src/json.cpp; sections 4 to 7 of
    RFC 8259). Characters stand for the bytes of the text. */
module JsonText {
  import opened Errors
  import opened Transactions
  import opened Texts
  import opened Serialize

  /** An object's members are listed in the order of their keys, as the map holds them. A double is known by its text. */
  datatype Json =
    | Null
    | Bool(value: bool)
    | Integer(number: i64)
    | Double(literal: string)
    | Text(text: string)
    | Array(values: seq<Json>)
    | Object(members: seq<(string, Json)>)

  // Floating point is left uninterpreted: which tokens denote a finite double, and how one is written.
  const Finite: string -> bool
  const DoubleText: string -> string

  const QUOTE := '"'
  const BACKSLASH := '\\'
  const BACKSPACE := 8 as char
  const FORM_FEED := 12 as char

  // ---------------------------------------------------------------- writing

  function EscapeChar(c: char): string {
    if c == QUOTE then "\\\""
    else if c == BACKSLASH then "\\\\"
    else if c == BACKSPACE then "\\b"
    else if c == FORM_FEED then "\\f"
    else if c == '\n' then "\\n"
    else if c == '\r' then "\\r"
    else if c == '\t' then "\\t"
    else if c < ' ' then "\\u" + Hex(c as nat, 4)
    else [c]
  }

  function Escape(text: string): string {
    if text == "" then "" else EscapeChar(text[0]) + Escape(text[1..])
  }

  /** What precedes an item or a closing bracket when the text is pretty. */
  function Lead(pretty: bool, indent: nat): string {
    if pretty then "\n" + seq(indent, _ => ' ') else ""
  }

  function Quoted(text: string): string {
    [QUOTE] + Escape(text) + [QUOTE]
  }

  function Dump(v: Json, pretty: bool, indent: nat): string
    decreases v, 1, 0
  {
    match v
    case Null => "null"
    case Bool(value) => if value then "true" else "false"
    case Integer(number) => SignedDecimal(number)
    case Double(literal) => DoubleText(literal)
    case Text(text) => Quoted(text)
    case Array(values) => if values == [] then "[]" else "[" + Lead(pretty, indent + 2) + Items(v, 0, pretty, indent)
    case Object(members) => if members == [] then "{}" else "{" + Lead(pretty, indent + 2) + Members(v, 0, pretty, indent)
  }

  /** The items of an array from the i-th on, with the closing bracket. */
  function Items(v: Json, i: nat, pretty: bool, indent: nat): string
    requires v.Array? && i < |v.values|
    decreases v, 0, |v.values| - i
  {
    Dump(v.values[i], pretty, indent + 2)
    + if i + 1 == |v.values| then Lead(pretty, indent) + "]" else "," + Lead(pretty, indent + 2) + Items(v, i + 1, pretty, indent)
  }

  function Members(v: Json, i: nat, pretty: bool, indent: nat): string
    requires v.Object? && i < |v.members|
    decreases v, 0, |v.members| - i
  {
    Quoted(v.members[i].0) + (if pretty then ": " else ":") + Dump(v.members[i].1, pretty, indent + 2)
    + if i + 1 == |v.members| then Lead(pretty, indent) + "}"
      else "," + Lead(pretty, indent + 2) + Members(v, i + 1, pretty, indent)
  }

  // ---------------------------------------------------------------- reading

  predicate IsSpace(c: char) {
    c == ' ' || c == '\n' || c == '\r' || c == '\t'
  }

  function SkipSpace(input: string, p: nat): (q: nat)
    requires p <= |input|
    ensures p <= q <= |input|
    decreases |input| - p
  {
    if p < |input| && IsSpace(input[p]) then SkipSpace(input, p + 1) else p
  }

  /** Whether a character stands at a place. */
  predicate Next(input: string, p: nat, c: char) {
    p < |input| && input[p] == c
  }

  predicate DigitAt(input: string, p: nat) {
    p < |input| && IsDigit(input[p])
  }

  function SkipDigits(input: string, p: nat): (q: nat)
    requires p <= |input|
    ensures p <= q <= |input|
    decreases |input| - p
  {
    if DigitAt(input, p) then SkipDigits(input, p + 1) else p
  }

  function HexDigitsValue(input: string, p: nat, n: nat): Result<nat>
    requires p + n <= |input|
  {
    if n == 0 then Ok(0) else
    var before :- HexDigitsValue(input, p, n - 1);
    var digit :- AnyHexValue(input[p + n - 1]);
    Ok(16 * before + digit)
  }

  function ParseHex4(input: string, p: nat): Result<(nat, nat)> {
    if p + 4 > |input| then Err(BadFormat) else
    var value :- HexDigitsValue(input, p, 4);
    Ok((value, p + 4))
  }

  function ByteChar(n: nat): char
    requires n < 256
  {
    n as char
  }

  /** The bytes of a code point. */
  function Utf8(codepoint: nat): Result<string> {
    if codepoint <= 0x7f then Ok([ByteChar(codepoint)])
    else if codepoint <= 0x7ff then Ok([ByteChar(0xc0 + codepoint / 0x40), ByteChar(0x80 + codepoint % 0x40)])
    else if codepoint <= 0xffff then
      Ok([ByteChar(0xe0 + codepoint / 0x1000), ByteChar(0x80 + codepoint / 0x40 % 0x40), ByteChar(0x80 + codepoint % 0x40)])
    else if codepoint <= 0x10_ffff then
      Ok([ByteChar(0xf0 + codepoint / 0x4_0000), ByteChar(0x80 + codepoint / 0x1000 % 0x40),
          ByteChar(0x80 + codepoint / 0x40 % 0x40), ByteChar(0x80 + codepoint % 0x40)])
    else Err(BadFormat)
  }

  /** What the escape letters stand for. */
  function Unescaped(c: char): Result<char> {
    if c == QUOTE || c == BACKSLASH || c == '/' then Ok(c)
    else if c == 'b' then Ok(BACKSPACE)
    else if c == 'f' then Ok(FORM_FEED)
    else if c == 'n' then Ok('\n')
    else if c == 'r' then Ok('\r')
    else if c == 't' then Ok('\t')
    else Err(BadFormat)
  }

  /** A unicode escape from its digits on: one unit, or a pair of surrogates. */
  function ParseUnicode(input: string, p: nat): Result<(string, nat)> {
    var (unit, q) :- ParseHex4(input, p);
    if 0xd800 <= unit <= 0xdbff then
      if q + 2 > |input| || input[q] != BACKSLASH || input[q + 1] != 'u' then Err(BadFormat) else
      var (low, after) :- ParseHex4(input, q + 2);
      if low < 0xdc00 || low > 0xdfff then Err(BadFormat) else
      var bytes :- Utf8(0x1_0000 + (unit - 0xd800) * 0x400 + (low - 0xdc00));
      Ok((bytes, after))
    else if 0xdc00 <= unit <= 0xdfff then Err(BadFormat)
    else
      var bytes :- Utf8(unit);
      Ok((bytes, q))
  }

  /** The rest of a string behind what has been read of it. */
  function ParseChars(input: string, p: nat, output: string): (r: Result<(string, nat)>)
    ensures r.Ok? ==> p < r.value.1 <= |input|
    decreases |input| - p
  {
    if p >= |input| then Err(BadFormat) else
    var c := input[p];
    if c == QUOTE then Ok((output, p + 1))
    else if c < ' ' then Err(BadFormat)
    else if c != BACKSLASH then ParseChars(input, p + 1, output + [c])
    else if p + 1 >= |input| then Err(BadFormat)
    else if input[p + 1] == 'u' then
      var (bytes, q) :- ParseUnicode(input, p + 2);
      ParseChars(input, q, output + bytes)
    else
      var unescaped :- Unescaped(input[p + 1]);
      ParseChars(input, p + 2, output + [unescaped])
  }

  function ParseString(input: string, p: nat): (r: Result<(string, nat)>)
    ensures r.Ok? ==> p < r.value.1 <= |input|
  {
    if !Next(input, p, QUOTE) then Err(BadFormat) else ParseChars(input, p + 1, "")
  }

  function ParseLiteral(input: string, p: nat, literal: string, value: Json): (r: Result<(Json, nat)>)
    requires |literal| > 0
    ensures r.Ok? ==> p < r.value.1 <= |input|
  {
    if p + |literal| <= |input| && input[p..p + |literal|] == literal then Ok((value, p + |literal|)) else Err(BadFormat)
  }

  /** The end of the whole-number part, of the fraction, and of the exponent of a number. */
  function WholePart(input: string, p: nat): (r: Result<nat>)
    requires p <= |input|
    ensures r.Ok? ==> p < r.value <= |input|
  {
    if Next(input, p, '0') then if DigitAt(input, p + 1) then Err(BadFormat) else Ok(p + 1)
    else if !DigitAt(input, p) then Err(BadFormat)
    else Ok(SkipDigits(input, p + 1))
  }

  function FractionPart(input: string, p: nat): (r: Result<nat>)
    requires p <= |input|
    ensures r.Ok? ==> p <= r.value <= |input|
  {
    if !Next(input, p, '.') then Ok(p)
    else if !DigitAt(input, p + 1) then Err(BadFormat)
    else Ok(SkipDigits(input, p + 1))
  }

  function ExponentPart(input: string, p: nat): (r: Result<nat>)
    requires p <= |input|
    ensures r.Ok? ==> p <= r.value <= |input|
  {
    if !Next(input, p, 'e') && !Next(input, p, 'E') then Ok(p) else
    var q := if Next(input, p + 1, '+') || Next(input, p + 1, '-') then p + 2 else p + 1;
    if !DigitAt(input, q) then Err(BadFormat) else Ok(SkipDigits(input, q))
  }

  /** A number is an integer if it has neither fraction nor exponent and fits 64 bits, and a double otherwise. */
  function ParseNumber(input: string, p: nat): (r: Result<(Json, nat)>)
    requires p <= |input|
    ensures r.Ok? ==> p < r.value.1 <= |input|
  {
    var whole :- WholePart(input, if Next(input, p, '-') then p + 1 else p);
    var fraction :- FractionPart(input, whole);
    var end :- ExponentPart(input, fraction);
    var token := input[p..end];
    if end == whole && ParseSigned(token).Ok? then Ok((Integer(ParseSigned(token).value), end))
    else if Finite(token) then Ok((Double(token), end)) else Err(BadFormat)
  }

  /** The members with one more, or with a new value for a key that is there. */
  function Assign(members: seq<(string, Json)>, key: string, value: Json): seq<(string, Json)> {
    if members == [] then [(key, value)]
    else if key == members[0].0 then [(key, value)] + members[1..]
    else if TextBelow(key, members[0].0) then [(key, value)] + members
    else [members[0]] + Assign(members[1..], key, value)
  }

  function ParseValue(input: string, p: nat): (r: Result<(Json, nat)>)
    requires p <= |input|
    ensures r.Ok? ==> p < r.value.1 <= |input|
    decreases |input| - p, 1
  {
    var q := SkipSpace(input, p);
    if q >= |input| then Err(BadFormat) else
    var c := input[q];
    if c == 'n' then ParseLiteral(input, q, "null", Null)
    else if c == 't' then ParseLiteral(input, q, "true", Bool(true))
    else if c == 'f' then ParseLiteral(input, q, "false", Bool(false))
    else if c == QUOTE then
      var (text, after) :- ParseString(input, q);
      Ok((Text(text), after))
    else if c == '[' then ParseArray(input, q)
    else if c == '{' then ParseObject(input, q)
    else if c == '-' || IsDigit(c) then ParseNumber(input, q)
    else Err(BadFormat)
  }

  function ParseArray(input: string, p: nat): (r: Result<(Json, nat)>)
    requires Next(input, p, '[')
    ensures r.Ok? ==> p < r.value.1 <= |input|
    decreases |input| - p, 0
  {
    var q := SkipSpace(input, p + 1);
    if Next(input, q, ']') then Ok((Array([]), q + 1)) else ParseItems(input, q, [])
  }

  /** The rest of an array behind the values read so far. */
  function ParseItems(input: string, p: nat, values: seq<Json>): (r: Result<(Json, nat)>)
    requires p <= |input|
    ensures r.Ok? ==> p < r.value.1 <= |input|
    decreases |input| - p, 2
  {
    var (value, after) :- ParseValue(input, p);
    var q := SkipSpace(input, after);
    if Next(input, q, ']') then Ok((Array(values + [value]), q + 1))
    else if Next(input, q, ',') then ParseItems(input, SkipSpace(input, q + 1), values + [value])
    else Err(BadFormat)
  }

  function ParseObject(input: string, p: nat): (r: Result<(Json, nat)>)
    requires Next(input, p, '{')
    ensures r.Ok? ==> p < r.value.1 <= |input|
    decreases |input| - p, 0
  {
    var q := SkipSpace(input, p + 1);
    if Next(input, q, '}') then Ok((Object([]), q + 1)) else ParseMembers(input, q, [])
  }

  function ParseMembers(input: string, p: nat, members: seq<(string, Json)>): (r: Result<(Json, nat)>)
    requires p <= |input|
    ensures r.Ok? ==> p < r.value.1 <= |input|
    decreases |input| - p, 2
  {
    var (key, colon) :- ParseString(input, SkipSpace(input, p));
    var q := SkipSpace(input, colon);
    if !Next(input, q, ':') then Err(BadFormat) else
    var (value, after) :- ParseValue(input, q + 1);
    var end := SkipSpace(input, after);
    if Next(input, end, '}') then Ok((Object(Assign(members, key, value)), end + 1))
    else if Next(input, end, ',') then ParseMembers(input, end + 1, Assign(members, key, value))
    else Err(BadFormat)
  }

  /** The whole text as one value. */
  function Parse(input: string): Result<Json> {
    var (value, after) :- ParseValue(input, SkipSpace(input, 0));
    if SkipSpace(input, after) != |input| then Err(TrailingBytes) else Ok(value)
  }

  // ---------------------------------------------------------------- the parser object

  class Parser {
    const input: string
    var position: nat

    constructor (input: string)
      ensures this.input == input && position == 0
    {
      this.input, position := input, 0;
    }

    method SkipSpaces()
      requires position <= |input|
      modifies this
      ensures position == SkipSpace(input, old(position))
    {
      while position < |input| && IsSpace(input[position])
        invariant old(position) <= position <= |input|
        invariant SkipSpace(input, position) == SkipSpace(input, old(position))
      {
        position := position + 1;
      }
    }

    method Consume(expected: char) returns (found: bool)
      modifies this
      ensures found == Next(input, old(position), expected)
      ensures position == if found then old(position) + 1 else old(position)
    {
      if position < |input| && input[position] == expected {
        position := position + 1;
        return true;
      }
      return false;
    }

    method TakeDigits()
      requires position <= |input|
      modifies this
      ensures position == SkipDigits(input, old(position))
    {
      while position < |input| && IsDigit(input[position])
        invariant old(position) <= position <= |input|
        invariant SkipDigits(input, position) == SkipDigits(input, old(position))
      {
        position := position + 1;
      }
    }

    method TakeHex4() returns (r: Result<nat>)
      modifies this
      ensures Agrees(r, ParseHex4(input, old(position)), position)
    {
      if position + 4 > |input| {
        return Err(BadFormat);
      }
      var value: nat := 0;
      for index := 0 to 4
        invariant position == old(position) + index
        invariant HexDigitsValue(input, old(position), index) == Ok(value)
      {
        HexStops(input, old(position), index + 1, 4);
        var digit :- AnyHexValue(input[position]);
        position := position + 1;
        value := 16 * value + digit;
      }
      return Ok(value);
    }

    method TakeUnicode() returns (r: Result<string>)
      modifies this
      ensures Agrees(r, ParseUnicode(input, old(position)), position)
    {
      hide HexDigitsValue, Utf8;
      var unit :- TakeHex4();
      if 0xd800 <= unit <= 0xdbff {
        if position + 2 > |input| || input[position] != BACKSLASH || input[position + 1] != 'u' {
          return Err(BadFormat);
        }
        position := position + 2;
        var low :- TakeHex4();
        if low < 0xdc00 || low > 0xdfff {
          return Err(BadFormat);
        }
        return Utf8(0x1_0000 + (unit - 0xd800) * 0x400 + (low - 0xdc00));
      } else if 0xdc00 <= unit <= 0xdfff {
        return Err(BadFormat);
      }
      return Utf8(unit);
    }

    method TakeString() returns (r: Result<string>)
      modifies this
      ensures Agrees(r, ParseString(input, old(position)), position)
    {
      hide ParseUnicode;
      var quote := Consume(QUOTE);
      if !quote {
        return Err(BadFormat);
      }
      ghost var start := position;
      var output := "";
      while position < |input|
        invariant ParseChars(input, position, output) == ParseChars(input, start, "")
        decreases |input| - position
      {
        UnicodeAdvances(input, position + 2);
        var c := input[position];
        position := position + 1;
        if c == QUOTE {
          return Ok(output);
        }
        if c < ' ' {
          return Err(BadFormat);
        }
        if c != BACKSLASH {
          output := output + [c];
        } else {
          if position >= |input| {
            return Err(BadFormat);
          }
          var escaped := input[position];
          position := position + 1;
          if escaped == 'u' {
            var bytes :- TakeUnicode();
            output := output + bytes;
          } else {
            var unescaped :- Unescaped(escaped);
            output := output + [unescaped];
          }
        }
      }
      return Err(BadFormat);
    }

    method TakeLiteral(literal: string, value: Json) returns (r: Result<Json>)
      requires |literal| > 0
      modifies this
      ensures Agrees(r, ParseLiteral(input, old(position), literal, value), position)
    {
      if position + |literal| > |input| || input[position..position + |literal|] != literal {
        return Err(BadFormat);
      }
      position := position + |literal|;
      return Ok(value);
    }

    method TakeWhole() returns (r: Result<nat>)
      requires position <= |input|
      modifies this
      ensures r == WholePart(input, old(position)) && (r.Ok? ==> position == r.value)
    {
      var zero := Consume('0');
      if zero {
        if position < |input| && IsDigit(input[position]) {
          return Err(BadFormat);
        }
        return Ok(position);
      }
      if position >= |input| || input[position] < '1' || input[position] > '9' {
        return Err(BadFormat);
      }
      TakeDigits();
      return Ok(position);
    }

    method TakeFraction() returns (r: Result<nat>)
      requires position <= |input|
      modifies this
      ensures r == FractionPart(input, old(position)) && (r.Ok? ==> position == r.value)
    {
      var point := Consume('.');
      if point {
        if position >= |input| || !IsDigit(input[position]) {
          return Err(BadFormat);
        }
        TakeDigits();
      }
      return Ok(position);
    }

    method TakeExponent() returns (r: Result<nat>)
      requires position <= |input|
      modifies this
      ensures r == ExponentPart(input, old(position)) && (r.Ok? ==> position == r.value)
    {
      if position < |input| && (input[position] == 'e' || input[position] == 'E') {
        position := position + 1;
        if position < |input| && (input[position] == '+' || input[position] == '-') {
          position := position + 1;
        }
        if position >= |input| || !IsDigit(input[position]) {
          return Err(BadFormat);
        }
        TakeDigits();
      }
      return Ok(position);
    }

    method TakeNumber() returns (r: Result<Json>)
      requires position <= |input|
      modifies this
      ensures Agrees(r, ParseNumber(input, old(position)), position)
    {
      hide WholePart, FractionPart, ExponentPart, ParseSigned;
      var begin := position;
      var negative := Consume('-');
      var whole :- TakeWhole();
      var fraction :- TakeFraction();
      var end :- TakeExponent();
      var token := input[begin..position];
      if end == whole {
        var value := ParseSigned(token);
        if value.Ok? {
          return Ok(Integer(value.value));
        }
      }
      return if Finite(token) then Ok(Double(token)) else Err(BadFormat);
    }

    method TakeValue() returns (r: Result<Json>)
      requires position <= |input|
      modifies this
      ensures Agrees(r, ParseValue(input, old(position)), position)
      decreases |input| - position, 1
    {
      hide ParseArray, ParseObject, ParseNumber, ParseString, ParseLiteral;
      SkipSpaces();
      if position >= |input| {
        return Err(BadFormat);
      }
      var c := input[position];
      if c == 'n' {
        r := TakeLiteral("null", Null);
      } else if c == 't' {
        r := TakeLiteral("true", Bool(true));
      } else if c == 'f' {
        r := TakeLiteral("false", Bool(false));
      } else if c == QUOTE {
        var text :- TakeString();
        return Ok(Text(text));
      } else if c == '[' {
        r := TakeArray();
      } else if c == '{' {
        r := TakeObject();
      } else if c == '-' || IsDigit(c) {
        r := TakeNumber();
      } else {
        return Err(BadFormat);
      }
    }

    method TakeArray() returns (r: Result<Json>)
      requires Next(input, position, '[')
      modifies this
      ensures Agrees(r, ParseArray(input, old(position)), position)
      decreases |input| - position, 0
    {
      hide ParseValue, SkipSpace;
      ghost var begin := position;
      position := position + 1;
      var values: seq<Json> := [];
      SkipSpaces();
      var closed := Consume(']');
      if closed {
        return Ok(Array(values));
      }
      ghost var start := position;
      while true
        invariant begin < position <= |input|
        invariant ParseItems(input, position, values) == ParseItems(input, start, [])
        decreases |input| - position
      {
        var value :- TakeValue();
        values := values + [value];
        SkipSpaces();
        closed := Consume(']');
        if closed {
          return Ok(Array(values));
        }
        var comma := Consume(',');
        if !comma {
          return Err(BadFormat);
        }
        SkipSpaces();
      }
    }

    method TakeObject() returns (r: Result<Json>)
      requires Next(input, position, '{')
      modifies this
      ensures Agrees(r, ParseObject(input, old(position)), position)
      decreases |input| - position, 0
    {
      hide ParseValue, ParseString, Assign, SkipSpace;
      ghost var begin := position;
      position := position + 1;
      var members: seq<(string, Json)> := [];
      SkipSpaces();
      var closed := Consume('}');
      if closed {
        return Ok(Object(members));
      }
      ghost var start := position;
      while true
        invariant begin < position <= |input|
        invariant ParseMembers(input, position, members) == ParseMembers(input, start, [])
        decreases |input| - position
      {
        SkipSpaces();
        var key :- TakeString();
        SkipSpaces();
        var colon := Consume(':');
        if !colon {
          return Err(BadFormat);
        }
        var value :- TakeValue();
        members := Assign(members, key, value);
        SkipSpaces();
        closed := Consume('}');
        if closed {
          return Ok(Object(members));
        }
        var comma := Consume(',');
        if !comma {
          return Err(BadFormat);
        }
      }
    }
  }

  method ParseDocument(input: string) returns (r: Result<Json>)
    ensures r == Parse(input)
  {
    hide ParseValue;
    var parser := new Parser(input);
    parser.SkipSpaces();
    var value :- parser.TakeValue();
    parser.SkipSpaces();
    if parser.position != |input| {
      return Err(TrailingBytes);
    }
    return Ok(value);
  }

  method JsonEscape(text: string) returns (output: string)
    ensures output == Escape(text)
  {
    hide EscapeChar;
    output := "";
    for i := 0 to |text|
      invariant output + Escape(text[i..]) == Escape(text)
    {
      assert text[i..][1..] == text[i + 1..];
      output := output + EscapeChar(text[i]);
    }
  }

  lemma {:induction false} HexStops(input: string, p: nat, m: nat, n: nat)
    requires m <= n && p + n <= |input|
    ensures HexDigitsValue(input, p, m).Err? ==> HexDigitsValue(input, p, n) == HexDigitsValue(input, p, m)
    decreases n
  {
    hide AnyHexValue;
    if m < n {
      HexStops(input, p, m, n - 1);
    }
  }

  lemma {:induction false} UnicodeAdvances(input: string, p: nat)
    ensures ParseUnicode(input, p).Ok? ==> p < ParseUnicode(input, p).value.1 <= |input|
  {
    hide HexDigitsValue, Utf8;
  }
}
