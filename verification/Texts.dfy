/** Numbers, hashes, lines and fields as text: what the line-based files of the store are made of (src/storage.cpp,
    src/hash.cpp, src/pow.cpp). */
module Texts {
  import opened Arithmetic
  import opened Amounts
  import opened Errors
  import opened Transactions
  import opened Serialize

  // ---------------------------------------------------------------- digits

  predicate IsDigit(c: char) {
    '0' <= c <= '9'
  }

  predicate IsHexDigit(c: char) {
    '0' <= c <= '9' || 'a' <= c <= 'f'
  }

  function DigitChar(d: nat): (c: char)
    requires d < 16
    ensures IsHexDigit(c) && (d < 10 ==> IsDigit(c))
  {
    if d < 10 then '0' + d as char else 'a' + (d - 10) as char
  }

  function DigitValue(c: char): (d: nat)
    requires IsHexDigit(c)
    ensures d < 16 && DigitChar(d) == c
  {
    if c <= '9' then (c - '0') as nat else (c - 'a') as nat + 10
  }

  // ---------------------------------------------------------------- decimal numbers

  function Decimal(n: nat): (s: string)
    ensures |s| > 0
  {
    if n < 10 then [DigitChar(n)] else Decimal(n / 10) + [DigitChar(n % 10)]
  }

  function DecimalValue(s: string): nat
    requires forall i :: 0 <= i < |s| ==> IsDigit(s[i])
  {
    if s == "" then 0 else
    var last := s[|s| - 1];
    assert IsDigit(last);
    10 * DecimalValue(s[..|s| - 1]) + DigitValue(last)
  }

  /** The whole text as an unsigned number below a limit: digits only, no sign. */
  function ParseUnsigned(s: string, limit: nat): Result<nat> {
    if s == "" || exists i :: 0 <= i < |s| && !IsDigit(s[i]) then Err(BadFormat)
    else if DecimalValue(s) >= limit then Err(BadFormat) else Ok(DecimalValue(s))
  }

  function SignedDecimal(n: int): string {
    if n < 0 then "-" + Decimal(-n) else Decimal(n)
  }

  /** A signed 64-bit number, with an optional minus sign. */
  function ParseSigned(s: string): Result<i64> {
    if |s| > 0 && s[0] == '-' then
      var n :- ParseUnsigned(s[1..], 0x8000_0000_0000_0001);
      var value: i64 := 0 - n;
      Ok(value)
    else
      var n :- ParseUnsigned(s, 0x8000_0000_0000_0000);
      Ok(n)
  }

  /** Decimal text padded with zeros to twenty places. */
  function Padded(s: string): (r: string) {
    if |s| >= 20 then s else seq(20 - |s|, _ => '0') + s
  }

  lemma {:induction false} DecimalRoundTrip(n: nat)
    ensures forall i :: 0 <= i < |Decimal(n)| ==> IsDigit(Decimal(n)[i])
    ensures DecimalValue(Decimal(n)) == n
  {
    if n >= 10 {
      DecimalRoundTrip(n / 10);
      assert Decimal(n)[..|Decimal(n)| - 1] == Decimal(n / 10);
    } else {
      assert Decimal(n)[..0] == "";
    }
  }

  lemma {:induction false} UnsignedRoundTrip(n: nat, limit: nat)
    requires n < limit
    ensures ParseUnsigned(Decimal(n), limit) == Ok(n)
  {
    DecimalRoundTrip(n);
  }

  lemma {:induction false} SignedDecimalRoundTrip(n: i64)
    ensures ParseSigned(SignedDecimal(n)) == Ok(n)
  {
    hide Decimal, DecimalValue, ParseUnsigned;
    if n < 0 {
      var positive: nat := 0 - n;
      UnsignedRoundTrip(positive, 0x8000_0000_0000_0001);
      assert SignedDecimal(n)[1..] == Decimal(positive);
    } else {
      DecimalRoundTrip(n);
      UnsignedRoundTrip(n, 0x8000_0000_0000_0000);
      assert IsDigit(SignedDecimal(n)[0]);
    }
  }

  lemma {:induction false} PaddedValue(zeros: nat, s: string)
    requires forall i :: 0 <= i < |s| ==> IsDigit(s[i])
    ensures var padded := seq(zeros, _ => '0') + s;
            (forall i :: 0 <= i < |padded| ==> IsDigit(padded[i])) && DecimalValue(padded) == DecimalValue(s)
    decreases |s|, zeros
  {
    var padded := seq(zeros, _ => '0') + s;
    if s != "" {
      PaddedValue(zeros, s[..|s| - 1]);
      assert padded[..|padded| - 1] == seq(zeros, _ => '0') + s[..|s| - 1];
    } else if zeros > 0 {
      PaddedValue(zeros - 1, "");
      assert padded[..|padded| - 1] == seq(zeros - 1, _ => '0') + "";
    }
  }

  /** Padding does not hide which number it is. */
  lemma {:induction false} PaddedRoundTrip(n: nat, limit: nat)
    requires n < limit
    ensures ParseUnsigned(Padded(Decimal(n)), limit) == Ok(n)
  {
    DecimalRoundTrip(n);
    var s := Decimal(n);
    PaddedValue(if |s| >= 20 then 0 else 20 - |s|, s);
    if |s| >= 20 {
      assert seq(0, _ => '0') + s == s;
    }
  }

  // ---------------------------------------------------------------- hexadecimal numbers and bytes

  /** A number in a fixed count of lower-case hexadecimal digits. */
  function Hex(n: nat, width: nat): (s: string)
    ensures |s| == width
    ensures forall i :: 0 <= i < |s| ==> IsHexDigit(s[i])
  {
    if width == 0 then "" else Hex(n / 16, width - 1) + [DigitChar(n % 16)]
  }

  function HexValue(s: string): nat
    requires forall i :: 0 <= i < |s| ==> IsHexDigit(s[i])
  {
    if s == "" then 0 else 16 * HexValue(s[..|s| - 1]) + DigitValue(s[|s| - 1])
  }

  function Pow16(n: nat): (r: nat)
    ensures r > 0
  {
    if n == 0 then 1 else 16 * Pow16(n - 1)
  }

  function HashText(h: Hash256): string {
    Hex(h, 64)
  }

  /** The hash that a text of exactly 64 lower-case digits denotes. */
  function ParseHash(s: string): Result<Hash256> {
    if |s| != 64 || exists i :: 0 <= i < |s| && !IsHexDigit(s[i]) then Err(BadFormat)
    else
      HexValueBound(s);
      Pow16Is256();
      Ok(HexValue(s))
  }

  lemma {:induction false} Pow16Is256()
    ensures Pow16(64) == TWO_256
  {
    PowersOf256();
    Pow16Squares(32);
  }

  lemma {:induction false} Pow16Squares(n: nat)
    ensures Pow16(2 * n) == Pow256(n)
  {
    if n > 0 {
      Pow16Squares(n - 1);
    }
  }

  lemma {:induction false} HexValueBound(s: string)
    requires forall i :: 0 <= i < |s| ==> IsHexDigit(s[i])
    ensures HexValue(s) < Pow16(|s|)
  {
    if s != "" {
      HexValueBound(s[..|s| - 1]);
    }
  }

  lemma {:induction false} HexRoundTrip(n: nat, width: nat)
    requires n < Pow16(width)
    ensures HexValue(Hex(n, width)) == n
  {
    if width > 0 {
      HexRoundTrip(n / 16, width - 1);
      assert Hex(n, width)[..width - 1] == Hex(n / 16, width - 1);
    }
  }

  lemma {:induction false} HashTextRoundTrip(h: Hash256)
    ensures ParseHash(HashText(h)) == Ok(h)
  {
    Pow16Is256();
    HexRoundTrip(h, 64);
  }

  /** Texts in the order of their characters. */
  predicate TextBelow(a: string, b: string) {
    |b| > 0 && (|a| == 0 || a[0] < b[0] || (a[0] == b[0] && TextBelow(a[1..], b[1..])))
  }

  /** Comparing two hashes or amounts of work as fixed-width text is comparing them as numbers. */
  lemma {:induction false} TextOrderIsNumberOrder(a: nat, b: nat, width: nat)
    requires a < Pow16(width) && b < Pow16(width)
    ensures TextBelow(Hex(a, width), Hex(b, width)) <==> a < b
  {
    if width > 0 {
      var (p, q) := (a / 16, b / 16);
      assert p < Pow16(width - 1) && q < Pow16(width - 1);
      var (x, y) := (Hex(p, width - 1), Hex(q, width - 1));
      assert Hex(a, width) == x + [DigitChar(a % 16)] && Hex(b, width) == y + [DigitChar(b % 16)];
      hide Hex, TextBelow, Pow16, HexValue, DigitChar;
      TextOrderIsNumberOrder(p, q, width - 1);
      HexRoundTrip(p, width - 1);
      HexRoundTrip(q, width - 1);
      LastDigitDecides(x, y, DigitChar(a % 16), DigitChar(b % 16));
      DigitOrder(a % 16, b % 16);
    }
  }

  lemma {:induction false} DigitOrder(c: nat, d: nat)
    requires c < 16 && d < 16
    ensures DigitChar(c) < DigitChar(d) <==> c < d
  {
  }

  lemma {:induction false} LastDigitDecides(a: string, b: string, c: char, d: char)
    requires |a| == |b|
    ensures TextBelow(a + [c], b + [d]) <==> TextBelow(a, b) || (a == b && c < d)
  {
    if a == "" {
      assert (a + [c])[1..] == "" && (b + [d])[1..] == "";
    } else {
      LastDigitDecides(a[1..], b[1..], c, d);
      assert (a + [c])[1..] == a[1..] + [c] && (b + [d])[1..] == b[1..] + [d];
      assert a == b <==> a[0] == b[0] && a[1..] == b[1..] by {
        assert a == [a[0]] + a[1..] && b == [b[0]] + b[1..];
      }
    }
  }

  function BytesHex(bytes: Bytes): (s: string)
    ensures forall i :: 0 <= i < |s| ==> IsHexDigit(s[i])
  {
    if bytes == [] then "" else [DigitChar(bytes[0] / 16), DigitChar(bytes[0] % 16)] + BytesHex(bytes[1..])
  }

  /** Upper-case digits are accepted when bytes are read. */
  function AnyHexValue(c: char): Result<nat> {
    if IsHexDigit(c) then Ok(DigitValue(c))
    else if 'A' <= c <= 'F' then Ok((c - 'A') as nat + 10)
    else Err(BadFormat)
  }

  function ParseBytes(s: string): Result<Bytes> {
    if s == "" then Ok([])
    else if |s| == 1 then Err(BadFormat)
    else
      var high :- AnyHexValue(s[0]);
      var low :- AnyHexValue(s[1]);
      var rest :- ParseBytes(s[2..]);
      if high < 16 && low < 16 then Ok([16 * high + low] + rest) else Err(BadFormat)
  }

  lemma {:induction false} BytesHexRoundTrip(bytes: Bytes)
    ensures ParseBytes(BytesHex(bytes)) == Ok(bytes)
  {
    if bytes != [] {
      BytesHexRoundTrip(bytes[1..]);
      assert BytesHex(bytes)[2..] == BytesHex(bytes[1..]);
      assert bytes == [bytes[0]] + bytes[1..];
    }
  }

  // ---------------------------------------------------------------- lines and fields

  /** Where a character first occurs, or the length if it does not. */
  function Find(text: string, c: char): (i: nat)
    ensures i <= |text|
    ensures c !in text[..i]
    ensures i < |text| ==> text[i] == c
  {
    if text == "" || text[0] == c then 0
    else
      var i := Find(text[1..], c) + 1;
      assert text[..i] == [text[0]] + text[1..][..i - 1];
      i
  }

  /** Lines as a line reader hands them out: an unfinished last line counts, an empty one does not. */
  function Lines(text: string): seq<string>
    decreases |text|
  {
    if text == "" then [] else
    var i := Find(text, '\n');
    if i == |text| then [text] else [text[..i]] + Lines(text[i + 1..])
  }

  function FromLines(lines: seq<string>): string {
    if lines == [] then "" else lines[0] + "\n" + FromLines(lines[1..])
  }

  function Split(text: string, separator: char): (fields: seq<string>)
    ensures |fields| > 0
    decreases |text|
  {
    var i := Find(text, separator);
    if i == |text| then [text] else [text[..i]] + Split(text[i + 1..], separator)
  }

  function Join(fields: seq<string>, separator: char): string
    requires |fields| > 0
  {
    if |fields| == 1 then fields[0] else fields[0] + [separator] + Join(fields[1..], separator)
  }

  ghost predicate Free(texts: seq<string>, c: char) {
    forall i :: 0 <= i < |texts| ==> c !in texts[i]
  }

  lemma {:induction false} FoundAt(text: string, c: char, k: nat)
    requires k < |text| && text[k] == c && c !in text[..k]
    ensures Find(text, c) == k
  {
    if k > 0 {
      assert text[0] == text[..k][0];
      assert text[1..][..k - 1] == text[..k][1..];
      FoundAt(text[1..], c, k - 1);
    }
  }

  lemma {:induction false} FoundNowhere(text: string, c: char)
    requires c !in text
    ensures Find(text, c) == |text|
  {
    if text != "" {
      assert text[0] in text;
      FoundNowhere(text[1..], c);
    }
  }

  lemma {:induction false} FindAfter(front: string, c: char, rest: string)
    requires c !in front
    ensures Find(front + [c] + rest, c) == |front|
  {
    assert (front + [c] + rest)[..|front|] == front;
    FoundAt(front + [c] + rest, c, |front|);
  }

  lemma {:induction false} LinesRoundTrip(lines: seq<string>)
    requires Free(lines, '\n')
    ensures Lines(FromLines(lines)) == lines
  {
    if lines != [] {
      var (first, rest) := (lines[0], FromLines(lines[1..]));
      var text := FromLines(lines);
      assert text == first + ['\n'] + rest;
      FindAfter(first, '\n', rest);
      LinesRoundTrip(lines[1..]);
      assert text[..|first|] == first && text[|first| + 1..] == rest;
    }
  }

  lemma {:induction false} SplitRoundTrip(fields: seq<string>, separator: char)
    requires |fields| > 0 && Free(fields, separator)
    ensures Split(Join(fields, separator), separator) == fields
  {
    var text := Join(fields, separator);
    if |fields| == 1 {
      FoundNowhere(text, separator);
    } else {
      var (first, rest) := (fields[0], Join(fields[1..], separator));
      FindAfter(first, separator, rest);
      SplitRoundTrip(fields[1..], separator);
      assert text[..|first|] == first && text[|first| + 1..] == rest;
    }
  }

  /** A character in a joined text is a separator or lies in a field. */
  lemma {:induction false} JoinFree(fields: seq<string>, separator: char, c: char)
    requires |fields| > 0 && Free(fields, c) && c != separator
    ensures c !in Join(fields, separator)
  {
    if |fields| > 1 {
      JoinFree(fields[1..], separator, c);
    }
  }
}
