/** Reading what was written: every JSON value without doubles comes back from its text, compact or pretty
    (src/json.cpp; sections 4 to 7 of RFC 8259). */
module JsonRoundTrip {
  import opened Errors
  import opened Transactions
  import opened Texts
  import opened JsonText

  /** A value without doubles whose objects list their members by strictly increasing keys, as every map does. */
  ghost predicate Plain(v: Json) {
    match v
    case Double(_) => false
    case Array(values) => forall i :: 0 <= i < |values| ==> Plain(values[i])
    case Object(members) => KeysIncrease(members) && forall i :: 0 <= i < |members| ==> Plain(members[i].1)
    case _ => true
  }

  ghost predicate KeysIncrease(members: seq<(string, Json)>) {
    forall i, j :: 0 <= i < j < |members| ==> TextBelow(members[i].0, members[j].0)
  }

  /** The input holds the text at the place. */
  ghost predicate Holds(input: string, p: nat, text: string) {
    p + |text| <= |input| && input[p..p + |text|] == text
  }

  /** No number that ends here could go on. */
  ghost predicate NumberEnds(input: string, p: nat) {
    p < |input| ==> !IsDigit(input[p]) && input[p] != '.' && input[p] != 'e' && input[p] != 'E'
  }

  lemma {:induction false} HoldsJoin(input: string, p: nat, a: string, b: string)
    ensures Holds(input, p, a + b) <==> Holds(input, p, a) && Holds(input, p + |a|, b)
  {
    if Holds(input, p, a + b) {
      var whole := input[p..p + |a + b|];
      assert input[p..p + |a|] == whole[..|a|];
      assert input[p + |a|..p + |a| + |b|] == whole[|a|..];
    }
    if Holds(input, p, a) && Holds(input, p + |a|, b) {
      assert input[p..p + |a + b|] == input[p..p + |a|] + input[p + |a|..p + |a| + |b|];
    }
  }

  lemma {:induction false} HoldsFirst(input: string, p: nat, text: string)
    requires Holds(input, p, text) && |text| > 0
    ensures p < |input| && input[p] == text[0]
  {
    assert input[p..p + |text|][0] == input[p];
  }

  // ---------------------------------------------------------------- spaces

  /** Whatever leads an item is skipped, up to the next character that is no space. */
  lemma {:induction false} SkipsLead(input: string, p: nat, pretty: bool, indent: nat)
    requires Holds(input, p, Lead(pretty, indent))
    requires var q := p + |Lead(pretty, indent)|; q < |input| && !IsSpace(input[q])
    ensures SkipSpace(input, p) == p + |Lead(pretty, indent)|
  {
    var q := p + |Lead(pretty, indent)|;
    forall k | p <= k < q
      ensures IsSpace(input[k])
    {
      assert input[p..q][k - p] == input[k];
    }
    SkipsSpaces(input, p, q);
  }

  lemma {:induction false} SkipsSpaces(input: string, p: nat, q: nat)
    requires p <= q < |input| && !IsSpace(input[q])
    requires forall k :: p <= k < q ==> IsSpace(input[k])
    ensures SkipSpace(input, p) == q
    decreases q - p
  {
    if p < q {
      SkipsSpaces(input, p + 1, q);
    }
  }

  // ---------------------------------------------------------------- strings

  /** A short escape is read as its character. */
  lemma {:induction false} EscapeReads(input: string, p: nat, c: char, output: string)
    requires Holds(input, p, EscapeChar(c))
    ensures ParseChars(input, p, output) == ParseChars(input, p + |EscapeChar(c)|, output + [c])
  {
    hide ParseUnicode;
    var escaped := EscapeChar(c);
    HoldsFirst(input, p, escaped);
    if |escaped| >= 2 {
      assert input[p + 1] == input[p..p + |escaped|][1];
    }
    if |escaped| > 2 {
      ControlReads(input, p, c);
    }
  }

  lemma {:induction false} ControlReads(input: string, p: nat, c: char)
    requires c < ' ' && Holds(input, p, "\\u" + Hex(c as nat, 4))
    ensures ParseUnicode(input, p + 2) == Ok(([c], p + 6))
  {
    var (n, text) := (c as nat, "\\u" + Hex(c as nat, 4));
    FourDigits(n);
    HoldsJoin(input, p, "\\u", Hex(n, 4));
    var q := p + 2;
    assert input[q..q + 4] == Hex(n, 4);
    assert input[q] == Hex(n, 4)[0] && input[q + 1] == Hex(n, 4)[1];
    assert input[q + 2] == Hex(n, 4)[2] && input[q + 3] == Hex(n, 4)[3];
    assert HexDigitsValue(input, q, 1) == Ok(0);
    assert HexDigitsValue(input, q, 2) == Ok(0);
    assert HexDigitsValue(input, q, 3) == Ok(n / 16);
    assert HexDigitsValue(input, q, 4) == Ok(n);
  }

  lemma {:induction false} FourDigits(n: nat)
    requires n < 32
    ensures Hex(n, 4) == ['0', '0', DigitChar(n / 16), DigitChar(n % 16)]
  {
    assert Hex(n / 16 / 16 / 16, 1) == ['0'] && Hex(n / 16 / 16, 2) == ['0', '0'];
    assert Hex(n / 16, 3) == ['0', '0', DigitChar(n / 16)];
  }

  lemma {:induction false} CharsRead(input: string, p: nat, text: string, output: string)
    requires Holds(input, p, Escape(text) + [QUOTE])
    ensures ParseChars(input, p, output) == Ok((output + text, p + |Escape(text)| + 1))
    decreases |text|
  {
    hide EscapeChar;
    if text == "" {
      assert Escape(text) + [QUOTE] == [QUOTE] && output + text == output;
      HoldsFirst(input, p, [QUOTE]);
    } else {
      var (first, rest) := (EscapeChar(text[0]), Escape(text[1..]) + [QUOTE]);
      assert Escape(text) + [QUOTE] == first + rest;
      HoldsJoin(input, p, first, rest);
      hide ParseChars;
      EscapeReads(input, p, text[0], output);
      CharsRead(input, p + |first|, text[1..], output + [text[0]]);
      assert output + [text[0]] + text[1..] == output + text;
    }
  }

  /** A quoted string is read as the string. */
  lemma {:induction false} QuotedReads(input: string, p: nat, text: string)
    requires Holds(input, p, Quoted(text))
    ensures Next(input, p, QUOTE)
    ensures ParseString(input, p) == Ok((text, p + |Quoted(text)|))
  {
    hide ParseChars, Escape;
    HoldsFirst(input, p, Quoted(text));
    assert Quoted(text) == [QUOTE] + (Escape(text) + [QUOTE]);
    HoldsJoin(input, p, [QUOTE], Escape(text) + [QUOTE]);
    CharsRead(input, p + 1, text, "");
    assert "" + text == text;
  }

  // ---------------------------------------------------------------- numbers

  lemma {:induction false} DecimalStarts(n: nat)
    ensures n > 0 ==> Decimal(n)[0] != '0'
    ensures n == 0 ==> Decimal(n) == "0"
  {
    if n >= 10 {
      DecimalStarts(n / 10);
      assert Decimal(n)[0] == Decimal(n / 10)[0];
    }
  }

  lemma {:induction false} SkipsDigits(input: string, p: nat, q: nat)
    requires p <= q <= |input| && !DigitAt(input, q)
    requires forall k :: p <= k < q ==> IsDigit(input[k])
    ensures SkipDigits(input, p) == q
    decreases q - p
  {
    if p < q {
      assert IsDigit(input[p]);
      SkipsDigits(input, p + 1, q);
    }
  }

  lemma {:induction false} WholeReads(input: string, p: nat, n: nat)
    requires Holds(input, p, Decimal(n)) && NumberEnds(input, p + |Decimal(n)|)
    ensures WholePart(input, p) == Ok(p + |Decimal(n)|)
    ensures DigitAt(input, p)
  {
    var digits := Decimal(n);
    DecimalRoundTrip(n);
    DecimalStarts(n);
    HoldsFirst(input, p, digits);
    var q := p + |digits|;
    forall k | p <= k < q
      ensures IsDigit(input[k])
    {
      assert input[p..q][k - p] == input[k];
      assert IsDigit(digits[k - p]);
    }
    assert IsDigit(input[p]);
    if n > 0 {
      SkipsDigits(input, p + 1, q);
    }
  }

  /** An integer is read as itself where no number could go on. */
  lemma {:induction false} NumberReads(input: string, p: nat, n: i64)
    requires Holds(input, p, SignedDecimal(n)) && NumberEnds(input, p + |SignedDecimal(n)|)
    ensures p < |input| && (input[p] == '-' || IsDigit(input[p]))
    ensures ParseNumber(input, p) == Ok((Integer(n), p + |SignedDecimal(n)|))
  {
    hide WholePart, Decimal, ParseSigned, ParseUnsigned;
    var text := SignedDecimal(n);
    SignedDecimalRoundTrip(n);
    if n < 0 {
      var positive: nat := 0 - n;
      HoldsJoin(input, p, "-", Decimal(positive));
      HoldsFirst(input, p, "-");
      WholeReads(input, p + 1, positive);
    } else {
      WholeReads(input, p, n);
    }
    assert input[p..p + |text|] == text;
  }

  // ---------------------------------------------------------------- values

  /** How a value's text begins: never with a space, a comma, a colon or a closing bracket. */
  predicate Opens(c: char) {
    c == 'n' || c == 't' || c == 'f' || c == QUOTE || c == '[' || c == '{' || c == '-' || IsDigit(c)
  }

  lemma {:induction false} DumpOpens(v: Json, pretty: bool, indent: nat)
    requires Plain(v)
    ensures |Dump(v, pretty, indent)| > 0 && Opens(Dump(v, pretty, indent)[0])
  {
    hide Items, Members, Escape, Decimal;
    if v.Integer? {
      var n: int := v.number;
      DecimalRoundTrip(if n < 0 then 0 - n else n);
    }
  }

  lemma {:induction false} LiteralReads(input: string, p: nat, literal: string, value: Json)
    requires |literal| > 0 && Holds(input, p, literal)
    ensures ParseLiteral(input, p, literal, value) == Ok((value, p + |literal|))
  {
  }

  /** A value's text is read as the value wherever it stands, with spaces before it, if no number could go on behind it. */
  lemma {:induction false} ValueReads(input: string, start: nat, p: nat, v: Json, pretty: bool, indent: nat)
    requires Plain(v) && start <= |input| && SkipSpace(input, start) == p
    requires Holds(input, p, Dump(v, pretty, indent)) && NumberEnds(input, p + |Dump(v, pretty, indent)|)
    ensures ParseValue(input, start) == Ok((v, p + |Dump(v, pretty, indent)|))
    decreases v, 1, 0
  {
    hide Items, Members, ParseString, ParseNumber, ParseItems, ParseMembers, SkipSpace, Escape, SignedDecimal;
    var text := Dump(v, pretty, indent);
    DumpOpens(v, pretty, indent);
    HoldsFirst(input, p, text);
    match v
    case Null => LiteralReads(input, p, "null", v);
    case Bool(value) => LiteralReads(input, p, if value then "true" else "false", v);
    case Integer(number) => NumberReads(input, p, number);
    case Text(s) => QuotedReads(input, p, s);
    case Array(values) => ArrayReads(input, p, v, pretty, indent);
    case Object(members) => ObjectReads(input, p, v, pretty, indent);
  }

  /** An empty pair of brackets. */
  lemma {:induction false} EmptyReads(input: string, p: nat, open: char, close: char)
    requires Holds(input, p, [open, close]) && !IsSpace(close)
    ensures Next(input, p, open) && SkipSpace(input, p + 1) == p + 1 && Next(input, p + 1, close)
  {
    HoldsFirst(input, p, [open, close]);
    assert input[p + 1] == input[p..p + 2][1];
    SkipsSpaces(input, p + 1, p + 1);
  }

  /** An opening bracket, and the first thing behind what leads it. */
  lemma {:induction false} BracketReads(input: string, p: nat, open: char, text: string, pretty: bool, indent: nat)
    requires Holds(input, p, [open] + (Lead(pretty, indent) + text)) && |text| > 0 && Opens(text[0])
    ensures Next(input, p, open)
    ensures var q := p + 1 + |Lead(pretty, indent)|;
            && SkipSpace(input, p + 1) == q && q < |input| && SkipSpace(input, q) == q
            && input[q] == text[0] && Holds(input, q, text)
  {
    hide Lead;
    HoldsJoin(input, p, [open], Lead(pretty, indent) + text);
    HoldsFirst(input, p, [open]);
    HoldsJoin(input, p + 1, Lead(pretty, indent), text);
    var q := p + 1 + |Lead(pretty, indent)|;
    HoldsFirst(input, q, text);
    SkipsLead(input, p + 1, pretty, indent);
    SkipsSpaces(input, q, q);
  }

  lemma {:induction false} ArrayText(v: Json, pretty: bool, indent: nat)
    requires v.Array?
    ensures Dump(v, pretty, indent)
         == if v.values == [] then ['[', ']']
            else ['['] + (Lead(pretty, indent + 2) + Items(v, 0, pretty, indent))
  {
    hide Items, Lead;
  }

  lemma {:induction false} ArrayReads(input: string, p: nat, v: Json, pretty: bool, indent: nat)
    requires v.Array? && Plain(v) && Holds(input, p, Dump(v, pretty, indent))
    ensures Next(input, p, '[') && ParseArray(input, p) == Ok((v, p + |Dump(v, pretty, indent)|))
    decreases v, 0, |v.values| + 1
  {
    hide Items, ParseItems, Plain, Dump, Holds, Lead, SkipSpace;
    ArrayText(v, pretty, indent);
    if v.values == [] {
      EmptyReads(input, p, '[', ']');
    } else {
      var items := Items(v, 0, pretty, indent);
      ItemsOpen(v, 0, pretty, indent);
      BracketReads(input, p, '[', items, pretty, indent + 2);
      ItemsRead(input, p + 1 + |Lead(pretty, indent + 2)|, v, 0, pretty, indent);
      assert v.values[..0] == [];
    }
  }

  lemma {:induction false} ItemsOpen(v: Json, i: nat, pretty: bool, indent: nat)
    requires v.Array? && Plain(v) && i < |v.values|
    ensures |Items(v, i, pretty, indent)| > 0 && Opens(Items(v, i, pretty, indent)[0])
  {
    hide Dump, Lead;
    DumpOpens(v.values[i], pretty, indent + 2);
  }

  /** What stands behind an item: the closing bracket, or a comma and the next item, after what leads them. */
  ghost function AfterItem(v: Json, i: nat, pretty: bool, indent: nat): (rest: string)
    requires v.Array? && i < |v.values|
    ensures Items(v, i, pretty, indent) == Dump(v.values[i], pretty, indent + 2) + rest
  {
    if i + 1 == |v.values| then Lead(pretty, indent) + "]"
    else "," + (Lead(pretty, indent + 2) + Items(v, i + 1, pretty, indent))
  }

  lemma {:induction false} ItemsRead(input: string, p: nat, v: Json, i: nat, pretty: bool, indent: nat)
    requires v.Array? && Plain(v) && i < |v.values| && Holds(input, p, Items(v, i, pretty, indent))
    ensures p <= |input| && ParseItems(input, p, v.values[..i]) == Ok((v, p + |Items(v, i, pretty, indent)|))
    decreases v, 0, |v.values| - i
  {
    hide Items, Dump, ParseValue, SkipSpace, Plain, Opens, Holds, Lead;
    var (item, rest) := (Dump(v.values[i], pretty, indent + 2), AfterItem(v, i, pretty, indent));
    ItemPlain(v, i);
    HoldsJoin(input, p, item, rest);
    HoldsInside(input, p, item);
    StartsHere(input, p, v.values[i], pretty, indent + 2);
    RestEndsNumber(input, p + |item|, v, i, pretty, indent);
    ValueReads(input, p, p, v.values[i], pretty, indent + 2);
    assert v.values[..i] + [v.values[i]] == v.values[..i + 1];
    var after := p + |item|;
    if i + 1 == |v.values| {
      Closes(input, after, pretty, indent, ']');
      assert v.values[..i + 1] == v.values;
    } else {
      var (lead, more) := (Lead(pretty, indent + 2), Items(v, i + 1, pretty, indent));
      HoldsJoin(input, after, ",", lead + more);
      HoldsJoin(input, after + 1, lead, more);
      CommaHere(input, after);
      ItemsOpen(v, i + 1, pretty, indent);
      OpensAfterLead(input, after + 1, more, pretty, indent + 2);
      ItemsRead(input, after + 1 + |lead|, v, i + 1, pretty, indent);
    }
  }

  lemma {:induction false} ItemPlain(v: Json, i: nat)
    requires v.Array? && Plain(v) && i < |v.values|
    ensures Plain(v.values[i])
  {
  }

  lemma {:induction false} HoldsInside(input: string, p: nat, text: string)
    requires Holds(input, p, text)
    ensures p + |text| <= |input|
  {
  }

  /** A value's text starts where it stands, without a space. */
  lemma {:induction false} StartsHere(input: string, p: nat, v: Json, pretty: bool, indent: nat)
    requires Plain(v) && Holds(input, p, Dump(v, pretty, indent))
    ensures p <= |input| && SkipSpace(input, p) == p
  {
    hide Dump, Plain;
    DumpOpens(v, pretty, indent);
    HoldsFirst(input, p, Dump(v, pretty, indent));
    SkipsSpaces(input, p, p);
  }

  lemma {:induction false} RestEndsNumber(input: string, p: nat, v: Json, i: nat, pretty: bool, indent: nat)
    requires v.Array? && i < |v.values| && Holds(input, p, AfterItem(v, i, pretty, indent))
    ensures NumberEnds(input, p)
  {
    hide Items, Dump;
    HoldsFirst(input, p, AfterItem(v, i, pretty, indent));
  }

  lemma {:induction false} Closes(input: string, p: nat, pretty: bool, indent: nat, bracket: char)
    requires bracket == ']' || bracket == '}'
    requires Holds(input, p, Lead(pretty, indent) + [bracket])
    ensures p <= |input| && SkipSpace(input, p) == p + |Lead(pretty, indent)|
    ensures Next(input, p + |Lead(pretty, indent)|, bracket)
  {
    HoldsJoin(input, p, Lead(pretty, indent), [bracket]);
    HoldsFirst(input, p + |Lead(pretty, indent)|, [bracket]);
    SkipsLead(input, p, pretty, indent);
  }

  lemma {:induction false} CommaHere(input: string, p: nat)
    requires Holds(input, p, ",")
    ensures Next(input, p, ',') && SkipSpace(input, p) == p
  {
    HoldsFirst(input, p, ",");
    SkipsSpaces(input, p, p);
  }

  lemma {:induction false} OpensAfterLead(input: string, p: nat, text: string, pretty: bool, indent: nat)
    requires Holds(input, p, Lead(pretty, indent)) && Holds(input, p + |Lead(pretty, indent)|, text)
    requires |text| > 0 && Opens(text[0])
    ensures p <= |input| && SkipSpace(input, p) == p + |Lead(pretty, indent)|
  {
    HoldsFirst(input, p + |Lead(pretty, indent)|, text);
    SkipsLead(input, p, pretty, indent);
  }

  // ---------------------------------------------------------------- objects

  /** A key beyond all others goes to the end. */
  lemma {:induction false} AssignAtEnd(members: seq<(string, Json)>, key: string, value: Json)
    requires forall i :: 0 <= i < |members| ==> TextBelow(members[i].0, key)
    ensures Assign(members, key, value) == members + [(key, value)]
  {
    if members != [] {
      BelowIsStrict(members[0].0, key);
      AssignAtEnd(members[1..], key, value);
      assert members == [members[0]] + members[1..];
    }
  }

  lemma {:induction false} BelowIsStrict(a: string, b: string)
    requires TextBelow(a, b)
    ensures a != b && !TextBelow(b, a)
  {
    if |a| > 0 && a[0] == b[0] {
      BelowIsStrict(a[1..], b[1..]);
    }
  }

  lemma {:induction false} ObjectText(v: Json, pretty: bool, indent: nat)
    requires v.Object?
    ensures Dump(v, pretty, indent)
         == if v.members == [] then ['{', '}']
            else ['{'] + (Lead(pretty, indent + 2) + Members(v, 0, pretty, indent))
  {
    hide Members, Lead;
  }

  lemma {:induction false} ObjectReads(input: string, p: nat, v: Json, pretty: bool, indent: nat)
    requires v.Object? && Plain(v) && Holds(input, p, Dump(v, pretty, indent))
    ensures Next(input, p, '{') && ParseObject(input, p) == Ok((v, p + |Dump(v, pretty, indent)|))
    decreases v, 0, |v.members| + 1
  {
    hide Members, ParseMembers, Plain, Dump, Holds, Lead, SkipSpace;
    ObjectText(v, pretty, indent);
    if v.members == [] {
      EmptyReads(input, p, '{', '}');
    } else {
      var members := Members(v, 0, pretty, indent);
      MembersOpen(v, 0, pretty, indent);
      BracketReads(input, p, '{', members, pretty, indent + 2);
      var q := p + 1 + |Lead(pretty, indent + 2)|;
      MembersRead(input, q, q, v, 0, pretty, indent);
      assert v.members[..0] == [];
    }
  }

  lemma {:induction false} MembersOpen(v: Json, i: nat, pretty: bool, indent: nat)
    requires v.Object? && i < |v.members|
    ensures |Members(v, i, pretty, indent)| > 0 && Members(v, i, pretty, indent)[0] == QUOTE
    ensures Opens(QUOTE) && !IsSpace(QUOTE)
  {
    hide Dump, Lead, Escape;
  }

  function Colon(pretty: bool): string {
    if pretty then ": " else ":"
  }

  /** What stands behind a member's value. */
  ghost function AfterMember(v: Json, i: nat, pretty: bool, indent: nat): (rest: string)
    requires v.Object? && i < |v.members|
    ensures Members(v, i, pretty, indent)
         == Quoted(v.members[i].0) + (Colon(pretty) + (Dump(v.members[i].1, pretty, indent + 2) + rest))
  {
    hide Dump, Escape, Lead;
    if i + 1 == |v.members| then Lead(pretty, indent) + "}"
    else "," + (Lead(pretty, indent + 2) + Members(v, i + 1, pretty, indent))
  }

  lemma {:induction false} MembersRead(input: string, start: nat, p: nat, v: Json, i: nat, pretty: bool, indent: nat)
    requires v.Object? && Plain(v) && i < |v.members| && start <= |input| && SkipSpace(input, start) == p
    requires Holds(input, p, Members(v, i, pretty, indent))
    ensures ParseMembers(input, start, v.members[..i]) == Ok((v, p + |Members(v, i, pretty, indent)|))
    decreases v, 0, |v.members| - i
  {
    hide Members, Dump, ParseValue, ParseString, SkipSpace, Plain, Opens, Holds, Lead, Assign, Quoted, Colon, Next;
    var (key, value) := v.members[i];
    var (item, rest) := (Dump(value, pretty, indent + 2), AfterMember(v, i, pretty, indent));
    MemberPlain(v, i);
    HoldsJoin(input, p, Quoted(key), Colon(pretty) + (item + rest));
    QuotedReads(input, p, key);
    var colon := p + |Quoted(key)|;
    HoldsJoin(input, colon, Colon(pretty), item + rest);
    var q := colon + |Colon(pretty)|;
    HoldsJoin(input, q, item, rest);
    HoldsInside(input, q, item);
    ColonHere(input, colon, value, pretty, indent + 2);
    MemberEndsNumber(input, q + |item|, v, i, pretty, indent);
    ValueReads(input, colon + 1, q, value, pretty, indent + 2);
    AssignNext(v, i);
    var after := q + |item|;
    if i + 1 == |v.members| {
      Closes(input, after, pretty, indent, '}');
      assert v.members[..i + 1] == v.members;
    } else {
      var (lead, more) := (Lead(pretty, indent + 2), Members(v, i + 1, pretty, indent));
      HoldsJoin(input, after, ",", lead + more);
      HoldsJoin(input, after + 1, lead, more);
      CommaHere(input, after);
      CommaNotBrace(input, after);
      MembersOpen(v, i + 1, pretty, indent);
      OpensAfterLead(input, after + 1, more, pretty, indent + 2);
      MembersRead(input, after + 1, after + 1 + |lead|, v, i + 1, pretty, indent);
    }
  }

  lemma {:induction false} CommaNotBrace(input: string, p: nat)
    requires Next(input, p, ',')
    ensures !Next(input, p, '}')
  {
  }

  lemma {:induction false} MemberPlain(v: Json, i: nat)
    requires v.Object? && Plain(v) && i < |v.members|
    ensures Plain(v.members[i].1)
  {
  }

  /** The members so far with the next one are the members up to it: its key is beyond theirs. */
  lemma {:induction false} AssignNext(v: Json, i: nat)
    requires v.Object? && Plain(v) && i < |v.members|
    ensures Assign(v.members[..i], v.members[i].0, v.members[i].1) == v.members[..i + 1]
  {
    hide TextBelow;
    AssignAtEnd(v.members[..i], v.members[i].0, v.members[i].1);
    assert v.members[..i + 1] == v.members[..i] + [v.members[i]];
  }

  /** The colon is found, and the value starts behind it and its space. */
  lemma {:induction false} ColonHere(input: string, p: nat, value: Json, pretty: bool, indent: nat)
    requires Plain(value)
    requires Holds(input, p, Colon(pretty)) && Holds(input, p + |Colon(pretty)|, Dump(value, pretty, indent))
    ensures p < |input| && SkipSpace(input, p) == p && Next(input, p, ':')
    ensures SkipSpace(input, p + 1) == p + |Colon(pretty)|
  {
    hide Dump, Plain;
    var q := p + |Colon(pretty)|;
    HoldsFirst(input, p, Colon(pretty));
    SkipsSpaces(input, p, p);
    DumpOpens(value, pretty, indent);
    HoldsFirst(input, q, Dump(value, pretty, indent));
    if pretty {
      assert input[p + 1] == input[p..p + 2][1] == ' ';
      SkipsSpaces(input, p + 1, p + 2);
    } else {
      SkipsSpaces(input, p + 1, p + 1);
    }
  }

  lemma {:induction false} MemberEndsNumber(input: string, p: nat, v: Json, i: nat, pretty: bool, indent: nat)
    requires v.Object? && i < |v.members| && Holds(input, p, AfterMember(v, i, pretty, indent))
    ensures NumberEnds(input, p)
  {
    hide Members, Dump;
    HoldsFirst(input, p, AfterMember(v, i, pretty, indent));
  }

  // ---------------------------------------------------------------- the theorem

  /** Every value without doubles, whatever its strings and its nesting, is read back from its text, compact or pretty, at
      any indentation. */
  lemma {:induction false} RoundTrip(v: Json, pretty: bool, indent: nat)
    requires Plain(v)
    ensures Parse(Dump(v, pretty, indent)) == Ok(v)
  {
    hide Dump, ParseValue, Plain, SkipSpace;
    var text := Dump(v, pretty, indent);
    HoldsWhole(text);
    StartsHere(text, 0, v, pretty, indent);
    ValueReads(text, 0, 0, v, pretty, indent);
    NothingLeft(text);
  }

  lemma {:induction false} HoldsWhole(text: string)
    ensures Holds(text, 0, text) && NumberEnds(text, |text|)
  {
  }

  lemma {:induction false} NothingLeft(text: string)
    ensures SkipSpace(text, |text|) == |text|
  {
  }

  /** So different values never share a text. */
  lemma {:induction false} DumpInjective(v: Json, w: Json, pretty: bool, indent: nat)
    requires Plain(v) && Plain(w) && Dump(v, pretty, indent) == Dump(w, pretty, indent)
    ensures v == w
  {
    hide Dump, Parse, Plain;
    RoundTrip(v, pretty, indent);
    RoundTrip(w, pretty, indent);
  }
}
