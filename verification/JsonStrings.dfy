/** What a quoted string denotes: the grammar of section 7 of RFC 8259, with the surrogate pairs of section 2.1 of RFC 2781
    and the byte sequences of section 3 of RFC 3629 (src/json.cpp, append_utf8, parse_hex4 and parse_string). */
module JsonStrings {
  import opened Errors
  import opened Transactions
  import opened Texts
  import opened JsonText
  import opened JsonRoundTrip

  // ---------------------------------------------------------------- code points and their bytes

  /** A code point that is no surrogate. */
  predicate IsScalar(n: nat) {
    n < 0xd800 || 0xe000 <= n < 0x11_0000
  }

  /** A byte that continues a sequence, and its six bits. */
  predicate IsContinuation(c: char) {
    0x80 <= c as nat < 0xc0
  }

  function Bits(c: char): nat
    requires IsContinuation(c)
  {
    c as nat - 0x80
  }

  /** The one code point that the bytes encode in the shortest way. */
  function CodePoint(bytes: string): Option<nat> {
    if bytes == "" || exists k :: 0 < k < |bytes| && !IsContinuation(bytes[k]) then None else
    var lead := bytes[0] as nat;
    var n := if |bytes| == 1 && lead < 0x80 then lead
             else if |bytes| == 2 && 0xc2 <= lead < 0xe0 then (lead - 0xc0) * 0x40 + Bits(bytes[1])
             else if |bytes| == 3 && 0xe0 <= lead < 0xf0 then ((lead - 0xe0) * 0x40 + Bits(bytes[1])) * 0x40 + Bits(bytes[2])
             else if |bytes| == 4 && 0xf0 <= lead < 0xf8 then
               (((lead - 0xf0) * 0x40 + Bits(bytes[1])) * 0x40 + Bits(bytes[2])) * 0x40 + Bits(bytes[3])
             else 0x11_0000;
    if !IsScalar(n) || (|bytes| == 3 && n < 0x800) || (|bytes| == 4 && n < 0x1_0000) then None else Some(n)
  }

  /** The bytes written for a code point are the ones that decode to it, and no others do. */
  lemma {:induction false} Utf8Exact(n: nat, bytes: string)
    requires IsScalar(n)
    ensures Utf8(n) == Ok(bytes) <==> CodePoint(bytes) == Some(n)
  {
    Utf8Decodes(n);
    if CodePoint(bytes) == Some(n) {
      DecodedIsUtf8(bytes);
    }
  }

  lemma {:induction false} Utf8Decodes(n: nat)
    requires IsScalar(n)
    ensures Utf8(n).Ok? && CodePoint(Utf8(n).value) == Some(n)
  {
    hide CodePoint;
    if n <= 0x7ff {
      SixBits(n);
      DecodesShort(Utf8(n).value);
    } else if n <= 0xffff {
      ThreeDecode(n);
    } else {
      FourDecode(n);
    }
  }

  lemma {:induction false} ThreeDecode(n: nat)
    requires IsScalar(n) && 0x7ff < n <= 0xffff
    ensures CodePoint(Utf8(n).value) == Some(n)
  {
    hide CodePoint;
    SixBits(n);
    SixBits(n / 0x40);
    var bytes := Utf8(n).value;
    assert Bits(bytes[2]) == n % 0x40 && Bits(bytes[1]) == n / 0x40 % 0x40 && bytes[0] as nat - 0xe0 == n / 0x1000;
    DecodesLong(bytes);
  }

  lemma {:induction false} FourDecode(n: nat)
    requires 0xffff < n < 0x11_0000
    ensures CodePoint(Utf8(n).value) == Some(n)
  {
    hide CodePoint;
    SixBits(n);
    SixBits(n / 0x40);
    SixBits(n / 0x1000);
    var bytes := Utf8(n).value;
    assert Bits(bytes[3]) == n % 0x40 && Bits(bytes[2]) == n / 0x40 % 0x40 && Bits(bytes[1]) == n / 0x1000 % 0x40;
    assert bytes[0] as nat - 0xf0 == n / 0x4_0000;
    DecodesLong(bytes);
  }

  lemma {:induction false} SixBits(n: nat)
    ensures n == n / 0x40 * 0x40 + n % 0x40 && n / 0x40 / 0x40 == n / 0x1000 && n / 0x1000 / 0x40 == n / 0x4_0000
    ensures n % 0x40 < 0x40
  {
  }

  /** What sequences of each length decode to, in the range of that length. */
  lemma {:induction false} DecodesShort(bytes: string)
    ensures |bytes| == 1 && bytes[0] as nat < 0x80 ==> CodePoint(bytes) == Some(bytes[0] as nat)
    ensures |bytes| == 2 && IsContinuation(bytes[1]) && 0xc2 <= bytes[0] as nat < 0xe0 ==>
              CodePoint(bytes) == Some((bytes[0] as nat - 0xc0) * 0x40 + Bits(bytes[1]))
  {
  }

  lemma {:induction false} DecodesLong(bytes: string)
    ensures |bytes| == 3 && IsContinuation(bytes[1]) && IsContinuation(bytes[2]) && 0xe0 <= bytes[0] as nat < 0xf0 ==>
              var n := ((bytes[0] as nat - 0xe0) * 0x40 + Bits(bytes[1])) * 0x40 + Bits(bytes[2]);
              IsScalar(n) && n >= 0x800 ==> CodePoint(bytes) == Some(n)
    ensures |bytes| == 4 && IsContinuation(bytes[1]) && IsContinuation(bytes[2]) && IsContinuation(bytes[3])
            && 0xf0 <= bytes[0] as nat < 0xf8 ==>
              var n := (((bytes[0] as nat - 0xf0) * 0x40 + Bits(bytes[1])) * 0x40 + Bits(bytes[2])) * 0x40 + Bits(bytes[3]);
              IsScalar(n) && n >= 0x1_0000 ==> CodePoint(bytes) == Some(n)
  {
    hide Bits;
  }

  lemma {:induction false} DecodedIsUtf8(bytes: string)
    requires CodePoint(bytes).Some?
    ensures Utf8(CodePoint(bytes).value) == Ok(bytes)
  {
    var n := CodePoint(bytes).value;
    if |bytes| == 1 {
      assert bytes == [ByteChar(n)];
    } else if |bytes| == 2 {
      Split(bytes[0] as nat - 0xc0, Bits(bytes[1]));
      assert bytes == [ByteChar(0xc0 + n / 0x40), ByteChar(0x80 + n % 0x40)];
    } else {
      hide CodePoint, Utf8;
      DecodedLong(bytes);
      if |bytes| == 3 {
        ThreeBytes(bytes[0] as nat - 0xe0, Bits(bytes[1]), Bits(bytes[2]));
        assert bytes == [bytes[0], bytes[1], bytes[2]];
      } else {
        FourBytes(bytes[0] as nat - 0xf0, Bits(bytes[1]), Bits(bytes[2]), Bits(bytes[3]));
        assert bytes == [bytes[0], bytes[1], bytes[2], bytes[3]];
      }
    }
  }

  lemma {:induction false} DecodedLong(bytes: string)
    requires CodePoint(bytes).Some? && |bytes| > 2
    ensures |bytes| <= 4 && forall k :: 0 < k < |bytes| ==> IsContinuation(bytes[k])
    ensures |bytes| == 3 ==> && 0xe0 <= bytes[0] as nat < 0xf0 && 0x800 <= CodePoint(bytes).value
                             && CodePoint(bytes).value == ((bytes[0] as nat - 0xe0) * 0x40 + Bits(bytes[1])) * 0x40 + Bits(bytes[2])
    ensures |bytes| == 4 ==> && 0xf0 <= bytes[0] as nat < 0xf8 && 0x1_0000 <= CodePoint(bytes).value < 0x11_0000
                             && CodePoint(bytes).value == (((bytes[0] as nat - 0xf0) * 0x40 + Bits(bytes[1])) * 0x40
                                                           + Bits(bytes[2])) * 0x40 + Bits(bytes[3])
  {
  }

  lemma {:induction false} ThreeBytes(a: nat, b: nat, c: nat)
    requires a < 0x10 && b < 0x40 && c < 0x40 && 0x800 <= (a * 0x40 + b) * 0x40 + c
    ensures Utf8((a * 0x40 + b) * 0x40 + c) == Ok([ByteChar(0xe0 + a), ByteChar(0x80 + b), ByteChar(0x80 + c)])
  {
    Split(a * 0x40 + b, c);
    Split(a, b);
    SixBits((a * 0x40 + b) * 0x40 + c);
  }

  lemma {:induction false} FourBytes(a: nat, b: nat, c: nat, d: nat)
    requires a < 8 && b < 0x40 && c < 0x40 && d < 0x40 && 0x1_0000 <= ((a * 0x40 + b) * 0x40 + c) * 0x40 + d < 0x11_0000
    ensures Utf8(((a * 0x40 + b) * 0x40 + c) * 0x40 + d)
         == Ok([ByteChar(0xf0 + a), ByteChar(0x80 + b), ByteChar(0x80 + c), ByteChar(0x80 + d)])
  {
    Split((a * 0x40 + b) * 0x40 + c, d);
    Split(a * 0x40 + b, c);
    Split(a, b);
    SixBits(((a * 0x40 + b) * 0x40 + c) * 0x40 + d);
  }

  lemma {:induction false} Split(high: nat, low: nat)
    requires low < 0x40
    ensures (high * 0x40 + low) / 0x40 == high && (high * 0x40 + low) % 0x40 == low
  {
  }

  // ---------------------------------------------------------------- escapes

  /** A digit in either case. */
  predicate DigitIs(c: char, value: nat) {
    value < 16 && (c == "0123456789abcdef"[value] || c == "0123456789ABCDEF"[value])
  }

  /** Four digits, the highest first. */
  predicate Spells(digits: string, n: nat) {
    && n < 0x1_0000 && |digits| == 4
    && DigitIs(digits[0], n / 0x1000) && DigitIs(digits[1], n / 0x100 % 0x10)
    && DigitIs(digits[2], n / 0x10 % 0x10) && DigitIs(digits[3], n % 0x10)
  }

  lemma {:induction false} DigitExact(c: char, value: nat)
    ensures AnyHexValue(c) == Ok(value) <==> DigitIs(c, value)
  {
    var (low, high) := ("0123456789abcdef", "0123456789ABCDEF");
    assert forall k :: 0 <= k < 10 ==> low[k] == high[k] == '0' + k as char;
    assert forall k :: 10 <= k < 16 ==> low[k] == 'a' + (k - 10) as char && high[k] == 'A' + (k - 10) as char;
  }

  /** Four characters are read as a number exactly when they spell it. */
  lemma {:induction false} Hex4Exact(input: string, p: nat, n: nat)
    ensures ParseHex4(input, p) == Ok((n, p + 4)) <==> p + 4 <= |input| && Spells(input[p..p + 4], n)
  {
    hide HexDigitsValue, Spells;
    if p + 4 <= |input| {
      if HexDigitsValue(input, p, 4).Ok? {
        ReadSpells(input, p);
      }
      if Spells(input[p..p + 4], n) {
        SpelledReads(input, p, n);
      }
    }
  }

  lemma {:induction false} ReadSpells(input: string, p: nat)
    requires p + 4 <= |input| && HexDigitsValue(input, p, 4).Ok?
    ensures Spells(input[p..p + 4], HexDigitsValue(input, p, 4).value)
  {
    hide AnyHexValue, DigitIs, HexDigitsValue;
    FourNeeded(input, p);
    FourRead(input, p);
    var (a, b, c, d) := (AnyHexValue(input[p]).value, AnyHexValue(input[p + 1]).value,
                         AnyHexValue(input[p + 2]).value, AnyHexValue(input[p + 3]).value);
    DigitExact(input[p], a);
    DigitExact(input[p + 1], b);
    DigitExact(input[p + 2], c);
    DigitExact(input[p + 3], d);
    DigitSmall(input[p], a);
    DigitSmall(input[p + 1], b);
    DigitSmall(input[p + 2], c);
    DigitSmall(input[p + 3], d);
    FourParts(a, b, c, d);
  }

  lemma {:induction false} DigitSmall(c: char, value: nat)
    requires DigitIs(c, value)
    ensures value < 16
  {
  }

  lemma {:induction false} SpelledReads(input: string, p: nat, n: nat)
    requires p + 4 <= |input| && Spells(input[p..p + 4], n)
    ensures HexDigitsValue(input, p, 4) == Ok(n)
  {
    hide AnyHexValue, DigitIs, HexDigitsValue;
    var digits := input[p..p + 4];
    assert digits[0] == input[p] && digits[1] == input[p + 1] && digits[2] == input[p + 2] && digits[3] == input[p + 3];
    DigitExact(digits[0], n / 0x1000);
    DigitExact(digits[1], n / 0x100 % 0x10);
    DigitExact(digits[2], n / 0x10 % 0x10);
    DigitExact(digits[3], n % 0x10);
    FourRead(input, p);
    PartsOf(n);
  }

  lemma {:induction false} FourNeeded(input: string, p: nat)
    requires p + 4 <= |input| && HexDigitsValue(input, p, 4).Ok?
    ensures AnyHexValue(input[p]).Ok? && AnyHexValue(input[p + 1]).Ok?
    ensures AnyHexValue(input[p + 2]).Ok? && AnyHexValue(input[p + 3]).Ok?
  {
    hide AnyHexValue;
    assert HexDigitsValue(input, p, 3).Ok? && HexDigitsValue(input, p, 2).Ok? && HexDigitsValue(input, p, 1).Ok?;
  }

  lemma {:induction false} FourRead(input: string, p: nat)
    requires p + 4 <= |input|
    requires AnyHexValue(input[p]).Ok? && AnyHexValue(input[p + 1]).Ok?
    requires AnyHexValue(input[p + 2]).Ok? && AnyHexValue(input[p + 3]).Ok?
    ensures HexDigitsValue(input, p, 4)
         == Ok(AnyHexValue(input[p]).value * 0x1000 + AnyHexValue(input[p + 1]).value * 0x100
               + AnyHexValue(input[p + 2]).value * 0x10 + AnyHexValue(input[p + 3]).value)
  {
    hide AnyHexValue;
    assert HexDigitsValue(input, p, 0) == Ok(0);
    assert HexDigitsValue(input, p, 1) == Ok(AnyHexValue(input[p]).value);
    assert HexDigitsValue(input, p, 2) == Ok(AnyHexValue(input[p]).value * 0x10 + AnyHexValue(input[p + 1]).value);
    assert HexDigitsValue(input, p, 3)
        == Ok(AnyHexValue(input[p]).value * 0x100 + AnyHexValue(input[p + 1]).value * 0x10 + AnyHexValue(input[p + 2]).value);
  }

  lemma {:induction false} FourParts(a: nat, b: nat, c: nat, d: nat)
    requires a < 16 && b < 16 && c < 16 && d < 16
    ensures var n := a * 0x1000 + b * 0x100 + c * 0x10 + d;
            n < 0x1_0000 && n / 0x1000 == a && n / 0x100 % 0x10 == b && n / 0x10 % 0x10 == c && n % 0x10 == d
  {
    var n := a * 0x1000 + b * 0x100 + c * 0x10 + d;
    assert n / 0x100 == a * 0x10 + b && n / 0x10 == a * 0x100 + b * 0x10 + c;
  }

  lemma {:induction false} PartsOf(n: nat)
    ensures n == n / 0x1000 * 0x1000 + n / 0x100 % 0x10 * 0x100 + n / 0x10 % 0x10 * 0x10 + n % 0x10
  {
    assert n / 0x1000 == n / 0x100 / 0x10 && n / 0x100 == n / 0x10 / 0x10;
  }

  /** The 16-bit units of a code point: itself, or a high and a low surrogate. */
  function Units(n: nat): (units: seq<nat>)
    requires IsScalar(n)
    ensures 1 <= |units| <= 2
  {
    if n < 0x1_0000 then [n] else [0xd800 + (n - 0x1_0000) / 0x400, 0xdc00 + (n - 0x1_0000) % 0x400]
  }

  // ---------------------------------------------------------------- the grammar

  const LETTERS := "\"\\/bfnrt"
  const MEANINGS := [QUOTE, BACKSLASH, '/', BACKSPACE, FORM_FEED, '\n', '\r', '\t']

  /** A character that stands for itself, an escape by the k-th letter, or a code point in the digits of its units. */
  datatype Piece = Itself(c: char) | Short(k: nat) | Point(n: nat, digits: seq<string>)

  predicate Proper(piece: Piece) {
    match piece
    case Itself(c) => c >= ' ' && c != QUOTE && c != BACKSLASH
    case Short(k) => k < |LETTERS|
    case Point(n, digits) =>
      IsScalar(n) && |digits| == |Units(n)| && forall i :: 0 <= i < |digits| ==> Spells(digits[i], Units(n)[i])
  }

  function Spelling(piece: Piece): (text: string)
    requires Proper(piece)
    ensures |text| > 0
  {
    match piece
    case Itself(c) => [c]
    case Short(k) => [BACKSLASH, LETTERS[k]]
    case Point(_, digits) => "\\u" + digits[0] + if |digits| == 1 then "" else "\\u" + digits[1]
  }

  function Meaning(piece: Piece): string
    requires Proper(piece)
  {
    match piece
    case Itself(c) => [c]
    case Short(k) => [MEANINGS[k]]
    case Point(n, _) => Utf8Decodes(n); Utf8(n).value
  }

  predicate AllProper(pieces: seq<Piece>) {
    forall i :: 0 <= i < |pieces| ==> Proper(pieces[i])
  }

  function Spelled(pieces: seq<Piece>): string
    requires AllProper(pieces)
  {
    if pieces == [] then "" else Spelling(pieces[0]) + Spelled(pieces[1..])
  }

  function Denoted(pieces: seq<Piece>): string
    requires AllProper(pieces)
  {
    if pieces == [] then "" else Meaning(pieces[0]) + Denoted(pieces[1..])
  }

  // ---------------------------------------------------------------- code points

  /** An escaped code point is read as its bytes. */
  lemma {:induction false} PointReads(input: string, p: nat, piece: Piece)
    requires piece.Point? && Proper(piece) && Holds(input, p, Spelling(piece))
    ensures Next(input, p, BACKSLASH) && Next(input, p + 1, 'u')
    ensures ParseUnicode(input, p + 2) == Ok((Meaning(piece), p + |Spelling(piece)|))
  {
    hide ParseHex4, Spells, Utf8, Holds;
    var (n, digits) := (piece.n, piece.digits);
    var rest := if |digits| == 1 then "" else "\\u" + digits[1];
    Utf8Decodes(n);
    SpelledLength(digits[0], Units(n)[0]);
    assert Spelling(piece) == "\\u" + (digits[0] + rest);
    HoldsJoin(input, p, "\\u", digits[0] + rest);
    HoldsEscape(input, p);
    HoldsJoin(input, p + 2, digits[0], rest);
    HoldsDigits(input, p + 2, digits[0], Units(n)[0]);
    if |digits| == 2 {
      SpelledLength(digits[1], Units(n)[1]);
      HoldsJoin(input, p + 6, "\\u", digits[1]);
      HoldsEscape(input, p + 6);
      HoldsDigits(input, p + 8, digits[1], Units(n)[1]);
    }
  }

  lemma {:induction false} SpelledLength(digits: string, n: nat)
    requires Spells(digits, n)
    ensures |digits| == 4
  {
  }

  lemma {:induction false} HoldsEscape(input: string, p: nat)
    requires Holds(input, p, "\\u")
    ensures p + 2 <= |input| && Next(input, p, BACKSLASH) && Next(input, p + 1, 'u')
  {
    assert input[p..p + 2][0] == input[p] && input[p..p + 2][1] == input[p + 1];
  }

  lemma {:induction false} HoldsDigits(input: string, p: nat, digits: string, n: nat)
    requires Holds(input, p, digits) && Spells(digits, n)
    ensures ParseHex4(input, p) == Ok((n, p + 4))
  {
    hide ParseHex4, DigitIs;
    Hex4Exact(input, p, n);
  }

  lemma {:induction false} Hex4End(input: string, p: nat)
    requires ParseHex4(input, p).Ok?
    ensures var (n, q) := ParseHex4(input, p).value;
            q == p + 4 <= |input| && Spells(input[p..p + 4], n) && Holds(input, p, input[p..p + 4])
  {
    hide HexDigitsValue, Spells;
    Hex4Exact(input, p, ParseHex4(input, p).value.0);
  }

  /** Whatever is read as a unicode escape spells a code point. */
  lemma {:induction false} PointFound(input: string, p: nat) returns (piece: Piece)
    requires Next(input, p, BACKSLASH) && Next(input, p + 1, 'u') && ParseUnicode(input, p + 2).Ok?
    ensures piece.Point? && Proper(piece) && Holds(input, p, Spelling(piece))
  {
    hide ParseHex4, Spells, Utf8, Holds;
    Hex4End(input, p + 2);
    var unit := ParseHex4(input, p + 2).value.0;
    var first := input[p + 2..p + 6];
    EscapeHolds(input, p);
    HoldsJoin(input, p, "\\u", first);
    if 0xd800 <= unit <= 0xdbff {
      Hex4End(input, p + 8);
      var low := ParseHex4(input, p + 8).value.0;
      var second := input[p + 8..p + 12];
      Surrogates(unit, low);
      piece := Point(0x1_0000 + (unit - 0xd800) * 0x400 + (low - 0xdc00), [first, second]);
      EscapeHolds(input, p + 6);
      HoldsJoin(input, p + 6, "\\u", second);
      HoldsJoin(input, p, "\\u" + first, "\\u" + second);
    } else {
      SpelledSmall(first, unit);
      piece := Point(unit, [first]);
      assert "\\u" + first + "" == "\\u" + first;
    }
  }

  lemma {:induction false} SpelledSmall(digits: string, n: nat)
    requires Spells(digits, n)
    ensures n < 0x1_0000
  {
  }

  lemma {:induction false} EscapeHolds(input: string, p: nat)
    requires Next(input, p, BACKSLASH) && Next(input, p + 1, 'u')
    ensures Holds(input, p, "\\u")
  {
  }

  lemma {:induction false} Surrogates(high: nat, low: nat)
    requires 0xd800 <= high <= 0xdbff && 0xdc00 <= low <= 0xdfff
    ensures var n := 0x1_0000 + (high - 0xd800) * 0x400 + (low - 0xdc00);
            IsScalar(n) && Units(n) == [high, low]
  {
  }

  // ---------------------------------------------------------------- strings

  lemma {:induction false} LettersMean(k: nat)
    requires k < |LETTERS|
    ensures Unescaped(LETTERS[k]) == Ok(MEANINGS[k]) && LETTERS[k] != 'u'
  {
  }

  lemma {:induction false} LetterFound(c: char) returns (k: nat)
    requires Unescaped(c).Ok?
    ensures k < |LETTERS| && LETTERS[k] == c
  {
    k := if c == QUOTE then 0 else if c == BACKSLASH then 1 else if c == '/' then 2 else if c == 'b' then 3
         else if c == 'f' then 4 else if c == 'n' then 5 else if c == 'r' then 6 else 7;
  }

  lemma {:induction false} PieceReads(input: string, p: nat, piece: Piece, output: string)
    requires Proper(piece) && Holds(input, p, Spelling(piece))
    ensures p < |input| && input[p] != QUOTE
    ensures ParseChars(input, p, output) == ParseChars(input, p + |Spelling(piece)|, output + Meaning(piece))
  {
    hide ParseUnicode, Utf8, Spells, Unescaped;
    HoldsFirst(input, p, Spelling(piece));
    match piece
    case Itself(_) =>
    case Short(k) =>
      assert input[p..p + 2][1] == input[p + 1];
      LettersMean(k);
    case Point(_, _) =>
      PointReads(input, p, piece);
  }

  /** What is read of a string that does not end yet begins with a piece. */
  lemma {:induction false} PieceFound(input: string, p: nat, output: string) returns (piece: Piece)
    requires p < |input| && input[p] != QUOTE && ParseChars(input, p, output).Ok?
    ensures Proper(piece) && Holds(input, p, Spelling(piece))
  {
    hide ParseUnicode, Utf8, Spells, Unescaped;
    if input[p] != BACKSLASH {
      piece := Itself(input[p]);
    } else if input[p + 1] == 'u' {
      piece := PointFound(input, p);
    } else {
      var k := LetterFound(input[p + 1]);
      piece := Short(k);
    }
  }

  /** The pieces stand between quotes at the place. */
  ghost predicate StringAt(input: string, p: nat, pieces: seq<Piece>) {
    AllProper(pieces) && Holds(input, p, [QUOTE] + (Spelled(pieces) + [QUOTE]))
  }

  lemma {:induction false} PiecesRead(input: string, p: nat, pieces: seq<Piece>, output: string)
    requires AllProper(pieces) && Holds(input, p, Spelled(pieces) + [QUOTE])
    ensures ParseChars(input, p, output) == Ok((output + Denoted(pieces), p + |Spelled(pieces)| + 1))
    decreases |pieces|
  {
    hide Meaning, Spelling, Proper, Holds;
    if pieces == [] {
      assert Spelled(pieces) + [QUOTE] == [QUOTE] && output + Denoted(pieces) == output;
      HoldsFirst(input, p, [QUOTE]);
    } else {
      var (piece, rest) := (pieces[0], pieces[1..]);
      assert Spelled(pieces) + [QUOTE] == Spelling(piece) + (Spelled(rest) + [QUOTE]);
      HoldsJoin(input, p, Spelling(piece), Spelled(rest) + [QUOTE]);
      PieceReads(input, p, piece, output);
      hide ParseChars;
      PiecesRead(input, p + |Spelling(piece)|, rest, output + Meaning(piece));
      assert output + Meaning(piece) + Denoted(rest) == output + Denoted(pieces);
    }
  }

  lemma {:induction false} PiecesFound(input: string, p: nat, output: string) returns (pieces: seq<Piece>)
    requires ParseChars(input, p, output).Ok?
    ensures AllProper(pieces) && Holds(input, p, Spelled(pieces) + [QUOTE])
    decreases |input| - p
  {
    hide Meaning, Spelling, Proper;
    if input[p] == QUOTE {
      pieces := [];
      assert Spelled(pieces) + [QUOTE] == [QUOTE];
    } else {
      hide Holds;
      var piece := PieceFound(input, p, output);
      PieceReads(input, p, piece, output);
      var rest := PiecesFound(input, p + |Spelling(piece)|, output + Meaning(piece));
      pieces := [piece] + rest;
      assert pieces[1..] == rest;
      HoldsJoin(input, p, Spelling(piece), Spelled(rest) + [QUOTE]);
      assert Spelled(pieces) + [QUOTE] == Spelling(piece) + (Spelled(rest) + [QUOTE]);
    }
  }

  /** A string is read exactly where pieces of the grammar stand between quotes, and as what those pieces denote. */
  lemma {:induction false} StringExact(input: string, p: nat, text: string, q: nat)
    ensures ParseString(input, p) == Ok((text, q))
       <==> exists pieces :: StringAt(input, p, pieces) && Denoted(pieces) == text && q == p + |Spelled(pieces)| + 2
  {
    hide ParseChars, Spelled, Denoted, AllProper, Holds;
    if ParseString(input, p).Ok? {
      var pieces := PiecesFound(input, p + 1, "");
      QuoteHolds(input, p);
      HoldsJoin(input, p, [QUOTE], Spelled(pieces) + [QUOTE]);
      StringReads(input, p, pieces);
    }
    forall pieces | StringAt(input, p, pieces)
      ensures ParseString(input, p) == Ok((Denoted(pieces), p + |Spelled(pieces)| + 2))
    {
      StringReads(input, p, pieces);
    }
  }

  lemma {:induction false} QuoteHolds(input: string, p: nat)
    requires Next(input, p, QUOTE)
    ensures Holds(input, p, [QUOTE])
  {
  }

  lemma {:induction false} StringReads(input: string, p: nat, pieces: seq<Piece>)
    requires StringAt(input, p, pieces)
    ensures ParseString(input, p) == Ok((Denoted(pieces), p + |Spelled(pieces)| + 2))
  {
    hide ParseChars, Spelled, Denoted, AllProper, Holds;
    HoldsJoin(input, p, [QUOTE], Spelled(pieces) + [QUOTE]);
    HoldsFirst(input, p, [QUOTE]);
    PiecesRead(input, p + 1, pieces, "");
    assert "" + Denoted(pieces) == Denoted(pieces);
  }

  // ---------------------------------------------------------------- around a document

  ghost predicate AllSpaces(text: string) {
    forall i :: 0 <= i < |text| ==> IsSpace(text[i])
  }

  lemma {:induction false} SkipsToEnd(input: string, p: nat)
    requires p <= |input|
    ensures SkipSpace(input, p) == |input| <==> AllSpaces(input[p..])
    decreases |input| - p
  {
    if p < |input| {
      var rest := input[p..];
      SkipsToEnd(input, p + 1);
      assert rest[1..] == input[p + 1..] && rest[0] == input[p];
      assert AllSpaces(rest) <==> IsSpace(rest[0]) && AllSpaces(rest[1..]) by {
        if IsSpace(rest[0]) && AllSpaces(rest[1..]) {
          forall i | 0 <= i < |rest|
            ensures IsSpace(rest[i])
          {
            assert i > 0 ==> rest[i] == rest[1..][i - 1];
          }
        }
      }
    }
  }

  /** Spaces around a document are ignored, and anything else behind it is refused. */
  lemma {:induction false} Surrounded(before: string, v: Json, pretty: bool, indent: nat, rest: string)
    requires Plain(v) && AllSpaces(before) && NumberEnds(rest, 0)
    ensures Parse(before + Dump(v, pretty, indent) + rest) == if AllSpaces(rest) then Ok(v) else Err(TrailingBytes)
  {
    hide Dump, ParseValue, Plain, SkipSpace, Opens, IsSpace;
    var text := Dump(v, pretty, indent);
    var (input, p) := (before + text + rest, |before|);
    var q := p + |text|;
    assert input[p..q] == text && input[q..] == rest;
    assert q < |input| ==> input[q] == rest[0];
    DumpOpens(v, pretty, indent);
    assert input[p] == text[0];
    OpensNoSpace(text[0]);
    assert forall k :: 0 <= k < p ==> input[k] == before[k];
    SkipsSpaces(input, 0, p);
    SkipsSpaces(input, p, p);
    ValueReads(input, p, p, v, pretty, indent);
    SkipsToEnd(input, q);
  }

  lemma {:induction false} OpensNoSpace(c: char)
    requires Opens(c)
    ensures !IsSpace(c)
  {
  }
}
