/** Testnet addresses: a compressed public key as Bech32 text, and back (src/bech32.cpp). */
module Addresses {
  import opened Arithmetic
  import opened Errors
  import opened Transactions
  import opened Scripts
  import opened Texts
  import C = Checksums
  import G = BitGroups

  // The 32 characters, in rows of eight.
  const ROW0 := "qpzry9x8"
  const ROW1 := "gf2tvdw0"
  const ROW2 := "s3jn54kh"
  const ROW3 := "ce6mua7l"
  const CHARSET := (ROW0 + ROW1) + (ROW2 + ROW3)
  const HRP := "tbin"

  type Quintets = seq<nat>

  // ---------------------------------------------------------------- specification

  ghost predicate Fives(values: Quintets) {
    forall i :: 0 <= i < |values| ==> values[i] < 32
  }

  function ToWord(value: nat): C.Word
    requires value < 32
  {
    (value as bv5) as bv32
  }

  ghost function Words(values: Quintets): (words: seq<C.Word>)
    requires Fives(values)
    ensures |words| == |values|
    ensures forall i :: 0 <= i < |values| ==> words[i] == ToWord(values[i])
  {
    seq(|values|, i requires 0 <= i < |values| => ToWord(values[i]))
  }

  function FromWord(word: C.Word): (value: nat)
    requires word < 32
    ensures value < 32 && ToWord(value) == word
  {
    (word as bv5) as nat
  }

  /** The prefix in expanded form: high parts, a zero, low parts. */
  function Expanded(): (values: Quintets)
    ensures |values| == 9
  {
    [3, 3, 3, 3, 0, 20, 2, 9, 14]
  }

  /** The prefix's characters are split at bit five. */
  function HrpExpand(hrp: string): Quintets {
    seq(|hrp|, i requires 0 <= i < |hrp| => hrp[i] as nat / 32) + [0]
      + seq(|hrp|, i requires 0 <= i < |hrp| => hrp[i] as nat % 32)
  }

  ghost function ChecksumValues(data: Quintets): (check: Quintets)
    requires Fives(data)
    ensures |check| == 6 && Fives(check)
    ensures Words(check) == C.ChecksumOf(Words(Expanded() + data))
  {
    var words := C.ChecksumOf(Words(Expanded() + data));
    C.ChecksumCompletes(Words(Expanded() + data));
    var check := seq(6, i requires 0 <= i < 6 => FromWord(words[i]));
    assert Words(check) == words;
    check
  }

  function CharOf(value: nat): char
    requires value < 32
  {
    CHARSET[value]
  }

  ghost function Chars(values: Quintets): (text: string)
    requires Fives(values)
    ensures |text| == |values|
    ensures forall i :: 0 <= i < |values| ==> text[i] == CharOf(values[i])
  {
    seq(|values|, i requires 0 <= i < |values| => CharOf(values[i]))
  }

  /** The text of any quintets: prefix, separator, characters. */
  ghost function TextOf(values: Quintets): string
    requires Fives(values)
  {
    HRP + "1" + Chars(values)
  }

  ghost function EncodedKey(key: Script): (values: Quintets)
    ensures Fives(values)
  {
    ByteValues(key);
    G.ConversionRoundTrip(key);
    FitsFive(G.Converted(key, 8, 5, true).value);
    [0] + G.Converted(key, 8, 5, true).value
  }

  ghost function EncodeAddress(key: Script): Result<string> {
    if !ValidCompressedPublicKey(key) then Err(BadArgument)
    else Ok(TextOf(EncodedKey(key) + ChecksumValues(EncodedKey(key))))
  }

  predicate IsLower(c: char) {
    'a' <= c <= 'z'
  }

  predicate IsUpper(c: char) {
    'A' <= c <= 'Z'
  }

  function ToLower(c: char): char {
    if IsUpper(c) then c - 'A' + 'a' else c
  }

  function Lower(text: string): (lower: string)
    ensures |lower| == |text|
    ensures forall i :: 0 <= i < |text| ==> lower[i] == ToLower(text[i])
  {
    seq(|text|, i requires 0 <= i < |text| => ToLower(text[i]))
  }

  ghost predicate MixedCase(text: string) {
    (exists i :: 0 <= i < |text| && IsLower(text[i])) && exists i :: 0 <= i < |text| && IsUpper(text[i])
  }

  /** The last place of a character. */
  function FindLast(text: string, c: char): (place: Option<nat>)
    ensures place.Some? ==> place.value < |text| && text[place.value] == c && c !in text[place.value + 1..]
    ensures place.None? ==> c !in text
  {
    if text == "" then None
    else if text[|text| - 1] == c then Some(|text| - 1)
    else
      var front := text[..|text| - 1];
      var place := FindLast(front, c);
      assert text == front + [text[|text| - 1]];
      assert place.Some? ==> text[place.value + 1..] == front[place.value + 1..] + [text[|text| - 1]];
      place
  }

  /** The value of each character of the set. */
  ghost function ValuesOf(text: string): (r: Result<Quintets>)
    ensures r.Ok? ==> |r.value| == |text|
  {
    if text == "" then Ok([]) else
    var before :- ValuesOf(text[..|text| - 1]);
    var value := Find(CHARSET, text[|text| - 1]);
    if value == |CHARSET| then Err(BadFormat) else Ok(before + [value])
  }

  ghost function DecodePayload(values: Quintets): Result<Script>
    requires |values| >= 6 && Fives(values)
  {
    if C.Fold(1, Words(Expanded() + values)) != 1 then Err(ChecksumMismatch) else
    var data := values[..|values| - 6];
    if data == [] || data[0] != 0 then Err(BadFormat) else
    var key :- G.Converted(data[1..], 5, 8, false);
    if !AllBytes(key) || !ValidCompressedPublicKey(key) then Err(BadFormat) else Ok(key)
  }

  predicate AllBytes(values: seq<nat>) {
    forall i :: 0 <= i < |values| ==> values[i] < 256
  }

  ghost function DecodeAddress(address: string): Result<Script> {
    if |address| < 8 || |address| > 90 || MixedCase(address) then Err(BadFormat) else
    var normalized := Lower(address);
    var separator := FindLast(normalized, '1');
    if separator.None? || normalized[..separator.value] != HRP || separator.value + 7 > |normalized| then Err(BadFormat)
    else
      var values :- ValuesOf(normalized[separator.value + 1..]);
      ValuesFit(normalized[separator.value + 1..]);
      DecodePayload(values)
  }

  // ---------------------------------------------------------------- implementation

  method ToWords(values: Quintets) returns (words: seq<C.Word>)
    requires Fives(values)
    ensures words == Words(values)
  {
    words := [];
    for i := 0 to |values|
      invariant |words| == i && forall k :: 0 <= k < i ==> words[k] == ToWord(values[k])
    {
      words := words + [ToWord(values[i])];
    }
  }

  method Checksum(data: Quintets) returns (check: Quintets)
    requires Fives(data)
    ensures check == ChecksumValues(data)
  {
    hide C.Fold, C.Group, ToWord;
    ExpandedPrefix();
    ExpandedFives(data);
    var values := HrpExpand(HRP) + data + [0, 0, 0, 0, 0, 0];
    var words := ToWords(values);
    SixZeros(Expanded() + data);
    var polymod := C.Polymod(words);
    var value := C.X(polymod, 1);
    check := [];
    ghost var expected := C.ChecksumOf(Words(Expanded() + data));
    for index: nat := 0 to 6
      invariant |check| == index
      invariant forall k :: 0 <= k < index ==> check[k] < 32 && ToWord(check[k]) == expected[k]
    {
      C.GroupSmall(value, index);
      GroupAt(value, index);
      check := check + [FromWord(C.Group(value, index))];
    }
    WordsInjective(check, ChecksumValues(data));
  }

  lemma {:induction false} GroupAt(value: C.Word, index: nat)
    requires index < 6
    ensures C.GroupsOf(value)[index] == C.Group(value, index)
  {
    hide C.Group;
  }

  lemma {:induction false} ExpandedPrefix()
    ensures HrpExpand(HRP) == Expanded()
  {
  }

  lemma {:induction false} ExpandedFives(data: Quintets)
    requires Fives(data)
    ensures Fives(Expanded() + data) && Fives(Expanded() + data + [0, 0, 0, 0, 0, 0])
  {
  }

  lemma {:induction false} SixZeros(values: Quintets)
    requires Fives(values)
    ensures Fives(values + [0, 0, 0, 0, 0, 0])
    ensures Words(values + [0, 0, 0, 0, 0, 0]) == Words(values) + C.Zeros(6)
  {
    assert ToWord(0) == 0;
    hide ToWord;
  }

  lemma {:induction false} WordsInjective(a: Quintets, b: Quintets)
    requires Fives(a) && Fives(b) && Words(a) == Words(b)
    ensures a == b
  {
    forall i | 0 <= i < |a|
      ensures a[i] == b[i]
    {
      assert Words(a)[i] == Words(b)[i];
      SameWord(a[i], b[i]);
    }
  }

  lemma {:induction false} SameWord(a: nat, b: nat)
    requires a < 32 && b < 32 && ToWord(a) == ToWord(b)
    ensures a == b
  {
    FiveBitsBack(a);
    FiveBitsBack(b);
    Widened(a as bv5, b as bv5);
  }

  lemma {:induction false} FiveBitsBack(a: nat)
    requires a < 32
    ensures (a as bv5) as nat == a
  {
  }

  lemma {:induction false} Widened(a: bv5, b: bv5)
    ensures a as bv32 < 32
    ensures a as bv32 == b as bv32 ==> a == b
  {
  }

  lemma {:induction false} WordSmall(a: nat)
    requires a < 32
    ensures ToWord(a) < 32
  {
    Widened(a as bv5, 0);
  }

  method EncodeTestnetAddress(key: Script) returns (r: Result<string>)
    ensures r == EncodeAddress(key)
  {
    hide G.Converted, ChecksumValues;
    if !ValidCompressedPublicKey(key) {
      return Err(BadArgument);
    }
    ByteValues(key);
    G.ConversionRoundTrip(key);
    var converted := G.ConvertBits(key, 8, 5, true);
    FitsFive(converted.value);
    var data := [0] + converted.value;
    var check := Checksum(data);
    var result := AppendChars(HRP + "1", data);
    result := AppendChars(result, check);
    CharsJoin(data, check);
    return Ok(result);
  }

  method AppendChars(text: string, values: Quintets) returns (result: string)
    requires Fives(values)
    ensures result == text + Chars(values)
  {
    hide CharOf;
    result := text;
    for i := 0 to |values|
      invariant result == text + Chars(values)[..i]
    {
      result := result + [CharOf(values[i])];
    }
  }

  lemma {:induction false} CharsJoin(a: Quintets, b: Quintets)
    requires Fives(a) && Fives(b)
    ensures Fives(a + b)
    ensures (HRP + "1" + Chars(a)) + Chars(b) == TextOf(a + b)
  {
    hide CharOf;
    assert Chars(a) + Chars(b) == Chars(a + b);
  }

  method DecodeTestnetAddress(address: string) returns (r: Result<Script>)
    ensures r == DecodeAddress(address)
  {
    hide G.Converted, C.Fold, Find, FindLast, ValidCompressedPublicKey;
    if |address| < 8 || |address| > 90 {
      return Err(BadFormat);
    }
    var lower, upper := false, false;
    for i := 0 to |address|
      invariant lower <==> exists k :: 0 <= k < i && IsLower(address[k])
      invariant upper <==> exists k :: 0 <= k < i && IsUpper(address[k])
    {
      lower := lower || IsLower(address[i]);
      upper := upper || IsUpper(address[i]);
    }
    if lower && upper {
      return Err(BadFormat);
    }
    var normalized := Lower(address);
    var separator := FindLast(normalized, '1');
    if separator.None? || normalized[..separator.value] != HRP || separator.value + 7 > |normalized| {
      return Err(BadFormat);
    }
    var values :- CharacterValues(normalized[separator.value + 1..]);
    r := Payload(values);
  }

  method CharacterValues(text: string) returns (r: Result<Quintets>)
    ensures r == ValuesOf(text)
    ensures r.Ok? ==> Fives(r.value) && |r.value| == |text|
  {
    hide Find;
    var values: Quintets := [];
    for i := 0 to |text|
      invariant ValuesOf(text[..i]) == Ok(values) && Fives(values)
    {
      assert text[..i + 1][..i] == text[..i];
      ValuesStop(text, i + 1);
      var found := Find(CHARSET, text[i]);
      if found == |CHARSET| {
        return Err(BadFormat);
      }
      values := values + [found];
    }
    assert text[..|text|] == text;
    return Ok(values);
  }

  method Payload(values: Quintets) returns (r: Result<Script>)
    requires |values| >= 6 && Fives(values)
    ensures r == DecodePayload(values)
  {
    hide G.Converted, C.Fold;
    ExpandedPrefix();
    ExpandedFives(values);
    var words := ToWords(HrpExpand(HRP) + values);
    var polymod := C.Polymod(words);
    if polymod != 1 {
      return Err(ChecksumMismatch);
    }
    var data := values[..|values| - 6];
    if |data| == 0 || data[0] != 0 {
      return Err(BadFormat);
    }
    var key :- G.ConvertBits(data[1..], 5, 8, false);
    if !AllBytes(key) || !ValidCompressedPublicKey(key) {
      return Err(BadFormat);
    }
    return Ok(key);
  }

  lemma {:induction false} ValuesStop(text: string, n: nat)
    requires n <= |text|
    ensures ValuesOf(text[..n]).Err? ==> ValuesOf(text) == ValuesOf(text[..n])
    decreases |text|
  {
    hide Find;
    if n < |text| {
      var front := text[..|text| - 1];
      assert front[..n] == text[..n];
      ValuesStop(front, n);
    } else {
      assert text[..n] == text;
    }
  }

  // ---------------------------------------------------------------- characters and values

  lemma {:induction false} ByteValues(key: Script)
    ensures G.Fit(key, 8)
  {
    assert Pow2(8) == 256;
  }

  lemma {:induction false} FitsFive(values: seq<nat>)
    ensures G.Fit(values, 5) <==> Fives(values)
  {
    assert Pow2(5) == 32;
  }

  /** The place of each character of the set, written out. */
  function Rank(c: char): nat {
    match c
    case 'q' => 0 case 'p' => 1 case 'z' => 2 case 'r' => 3 case 'y' => 4 case '9' => 5 case 'x' => 6 case '8' => 7
    case 'g' => 8 case 'f' => 9 case '2' => 10 case 't' => 11 case 'v' => 12 case 'd' => 13 case 'w' => 14 case '0' => 15
    case 's' => 16 case '3' => 17 case 'j' => 18 case 'n' => 19 case '5' => 20 case '4' => 21 case 'k' => 22
    case 'h' => 23 case 'c' => 24 case 'e' => 25 case '6' => 26 case 'm' => 27 case 'u' => 28 case 'a' => 29
    case '7' => 30 case 'l' => 31
    case _ => 32
  }

  lemma {:induction false} Ranked(value: nat)
    requires value < 32
    ensures Rank(CharOf(value)) == value
    ensures CharOf(value) != '1' && !IsUpper(CharOf(value))
  {
    if value < 8 {
      assert CHARSET[value] == ROW0[value];
      Row0(value);
    } else if value < 16 {
      assert CHARSET[value] == ROW1[value - 8];
      Row1(value - 8);
    } else if value < 24 {
      assert CHARSET[value] == ROW2[value - 16];
      Row2(value - 16);
    } else {
      assert CHARSET[value] == ROW3[value - 24];
      Row3(value - 24);
    }
    hide Rank;
  }

  lemma {:induction false} Row0(i: nat)
    requires i < 8
    ensures Rank(ROW0[i]) == i && ROW0[i] != '1' && !IsUpper(ROW0[i])
  {
  }

  lemma {:induction false} Row1(i: nat)
    requires i < 8
    ensures Rank(ROW1[i]) == 8 + i && ROW1[i] != '1' && !IsUpper(ROW1[i])
  {
  }

  lemma {:induction false} Row2(i: nat)
    requires i < 8
    ensures Rank(ROW2[i]) == 16 + i && ROW2[i] != '1' && !IsUpper(ROW2[i])
  {
  }

  lemma {:induction false} Row3(i: nat)
    requires i < 8
    ensures Rank(ROW3[i]) == 24 + i && ROW3[i] != '1' && !IsUpper(ROW3[i])
  {
  }

  lemma {:induction false} CharFound(value: nat)
    requires value < 32
    ensures Find(CHARSET, CharOf(value)) == value
  {
    hide Rank, CharOf;
    forall i | 0 <= i < value
      ensures CHARSET[..value][i] != CHARSET[value]
    {
      CharsDiffer(i, value);
    }
    CharsDiffer(value, value);
    FoundAt(CHARSET, CHARSET[value], value);
  }

  lemma {:induction false} CharsDiffer(i: nat, j: nat)
    requires i < 32 && j < 32
    ensures CHARSET[i] == CHARSET[j] <==> i == j
    ensures CHARSET[j] == CharOf(j)
  {
    Ranked(i);
    Ranked(j);
    hide Rank;
  }

  lemma {:induction false} ValuesFit(text: string)
    ensures ValuesOf(text).Ok? ==> Fives(ValuesOf(text).value)
  {
    hide Find;
    if text != "" {
      ValuesFit(text[..|text| - 1]);
    }
  }

  /** Reading the characters of values gives the values, */
  lemma {:induction false} ValuesOfChars(values: Quintets)
    requires Fives(values)
    ensures ValuesOf(Chars(values)) == Ok(values)
  {
    hide Find, CharOf;
    if values != [] {
      var front := values[..|values| - 1];
      ValuesOfChars(front);
      CharFound(values[|values| - 1]);
      assert Chars(values)[..|values| - 1] == Chars(front);
      assert values == front + [values[|values| - 1]];
    }
  }

  /** and only their characters do. */
  lemma {:induction false} CharsOfValues(text: string)
    requires ValuesOf(text).Ok?
    ensures Fives(ValuesOf(text).value) && Chars(ValuesOf(text).value) == text
  {
    ValuesFit(text);
    if text != "" {
      var front := text[..|text| - 1];
      CharsOfValues(front);
      assert text == front + [text[|text| - 1]];
      hide Find;
      assert CHARSET[Find(CHARSET, text[|text| - 1])] == text[|text| - 1];
    }
  }

  // ---------------------------------------------------------------- exactness

  lemma {:induction false} WordsJoin(a: Quintets, b: Quintets)
    requires Fives(a) && Fives(b)
    ensures Fives(a + b) && Words(a + b) == Words(a) + Words(b)
  {
    hide ToWord;
  }

  lemma {:induction false} WordsAreQuintets(values: Quintets)
    requires Fives(values)
    ensures C.Quintets(Words(values))
  {
    forall i | 0 <= i < |values|
      ensures Words(values)[i] < 32
    {
      WordSmall(values[i]);
    }
  }

  /** The checksum fits exactly when it is the one that encoding appends. */
  lemma {:induction false} ChecksumExact(data: Quintets, check: Quintets)
    requires Fives(data) && Fives(check) && |check| == 6
    ensures Fives(Expanded() + (data + check))
    ensures C.Fold(1, Words(Expanded() + (data + check))) == 1 <==> check == ChecksumValues(data)
  {
    hide C.Fold, ToWord;
    ExpandedFives(data);
    ExpandedFives(data + check);
    var all := Expanded() + data;
    WordsJoin(all, check);
    WordsAreQuintets(all);
    WordsAreQuintets(check);
    assert Expanded() + (data + check) == all + check;
    C.ChecksumCompletes(Words(all));
    if C.Fold(1, Words(all) + Words(check)) == 1 {
      C.ChecksumUnique(Words(all), Words(check));
      WordsInjective(check, ChecksumValues(data));
    }
  }

  /** A payload decodes to a key exactly when it is the key's data with its checksum. */
  lemma {:induction false} PayloadExact(values: Quintets, key: Script)
    requires |values| >= 6 && Fives(values)
    ensures DecodePayload(values) == Ok(key) <==>
              ValidCompressedPublicKey(key) && values == EncodedKey(key) + ChecksumValues(EncodedKey(key))
  {
    hide C.Fold, ValidCompressedPublicKey, ChecksumValues, ToWord, G.Converted, G.Fit;
    var (data, check) := (values[..|values| - 6], values[|values| - 6..]);
    assert values == data + check;
    ChecksumExact(data, check);
    ByteValues(key);
    G.ConversionRoundTrip(key);
    var encoded := EncodedKey(key);
    if DecodePayload(values) == Ok(key) {
      G.ConversionCanonical(data[1..]);
      assert data == [0] + data[1..];
      assert data == encoded;
    }
    if ValidCompressedPublicKey(key) && values == encoded + ChecksumValues(encoded) {
      assert data == encoded && check == ChecksumValues(encoded);
      assert encoded[1..] == G.Converted(key, 8, 5, true).value;
    }
  }

  lemma {:induction false} SeparatorPlace(values: Quintets)
    requires Fives(values)
    ensures FindLast(TextOf(values), '1') == Some(4)
    ensures TextOf(values)[..4] == HRP && TextOf(values)[5..] == Chars(values)
  {
    hide CharOf;
    var text := TextOf(values);
    forall k | 5 <= k < |text|
      ensures text[k] != '1'
    {
      assert text[k] == Chars(values)[k - 5];
      Ranked(values[k - 5]);
    }
    assert '1' !in text[5..];
    LastAt(text, '1', 4);
  }

  lemma {:induction false} LastAt(text: string, c: char, k: nat)
    requires k < |text| && text[k] == c && c !in text[k + 1..]
    ensures FindLast(text, c) == Some(k)
    decreases |text|
  {
    if k < |text| - 1 {
      var front := text[..|text| - 1];
      assert text[|text| - 1] in text[k + 1..];
      assert text[k + 1..] == front[k + 1..] + [text[|text| - 1]];
      LastAt(front, c, k);
    }
  }

  /** Decoding accepts exactly the encodings of valid keys, in lower or in upper case throughout: the key of an encoding
      is recovered, and no other text leads to it. */
  lemma {:induction false} AddressExact(address: string, key: Script)
    ensures DecodeAddress(address) == Ok(key) <==>
              !MixedCase(address) && EncodeAddress(key) == Ok(Lower(address))
  {
    hide ValuesOf, DecodePayload, FindLast, MixedCase, ChecksumValues, CharOf, EncodedKey, ValidCompressedPublicKey;
    var normalized := Lower(address);
    if DecodeAddress(address) == Ok(key) {
      var tail := normalized[FindLast(normalized, '1').value + 1..];
      CharsOfValues(tail);
      PayloadExact(ValuesOf(tail).value, key);
      SplitAtSeparator(normalized, FindLast(normalized, '1').value);
    }
    if ValidCompressedPublicKey(key) {
      EncodedLength(key);
      var values := EncodedKey(key) + ChecksumValues(EncodedKey(key));
      if !MixedCase(address) && normalized == TextOf(values) {
        SeparatorPlace(values);
        ValuesOfChars(values);
        PayloadExact(values, key);
      }
    }
  }

  lemma {:induction false} SplitAtSeparator(text: string, place: nat)
    requires place < |text| && text[place] == '1' && text[..place] == HRP
    ensures text == HRP + "1" + text[place + 1..]
  {
  }

  lemma {:induction false} EncodedLength(key: Script)
    requires ValidCompressedPublicKey(key)
    ensures |EncodedKey(key)| == 54
  {
    ByteValues(key);
    hide G.Converted, G.Fit;
    G.ConversionRoundTrip(key);
  }

  /** Every key comes back from its address. */
  lemma {:induction false} AddressRoundTrip(key: Script)
    requires ValidCompressedPublicKey(key)
    ensures EncodeAddress(key).Ok? && DecodeAddress(EncodeAddress(key).value) == Ok(key)
  {
    hide ValidCompressedPublicKey, DecodeAddress, ChecksumValues, CharOf, EncodedKey;
    var values := EncodedKey(key) + ChecksumValues(EncodedKey(key));
    var text := TextOf(values);
    forall i | 0 <= i < |text|
      ensures !IsUpper(text[i])
    {
      if i >= 5 {
        assert text[i] == Chars(values)[i - 5];
        Ranked(values[i - 5]);
      }
    }
    assert Lower(text) == text;
    AddressExact(text, key);
  }

  /** Replacing one character behind the separator by a character of another value is always noticed. */
  lemma {:induction false} SubstitutionRejected(address: string, i: nat, c: char)
    requires DecodeAddress(address).Ok? && 4 < i < |address|
    requires Find(CHARSET, ToLower(c)) < 32 && ToLower(c) != ToLower(address[i])
    ensures DecodeAddress(address[i := c]).Err?
  {
    hide ChecksumValues, EncodedKey, ValidCompressedPublicKey, C.Fold, ToWord, Find, CharOf, MixedCase;
    var key := DecodeAddress(address).value;
    AddressExact(address, key);
    var values := EncodedKey(key) + ChecksumValues(EncodedKey(key));
    var changed := address[i := c];
    if DecodeAddress(changed).Ok? {
      var other := DecodeAddress(changed).value;
      AddressExact(changed, other);
      var otherValues := EncodedKey(other) + ChecksumValues(EncodedKey(other));
      OneValueDiffers(values, otherValues, i - 5, Lower(address), Lower(changed));
      ChecksumExact(EncodedKey(key), ChecksumValues(EncodedKey(key)));
      ChecksumExact(EncodedKey(other), ChecksumValues(EncodedKey(other)));
      SubstitutedFold(values, i - 5, otherValues);
    }
  }

  lemma {:induction false} OneValueDiffers(values: Quintets, others: Quintets, i: nat, text: string, changed: string)
    requires Fives(values) && Fives(others) && text == TextOf(values) && changed == TextOf(others)
    requires |text| == |changed| && i < |values| && text[5 + i] != changed[5 + i]
    requires forall k :: 0 <= k < |text| && k != 5 + i ==> text[k] == changed[k]
    ensures |others| == |values| && others == values[i := others[i]] && others[i] != values[i]
  {
    hide CharOf;
    forall k | 0 <= k < |values|
      ensures values[k] == others[k] <==> k != i
    {
      assert text[5 + k] == CharOf(values[k]) && changed[5 + k] == CharOf(others[k]);
      CharsDiffer(values[k], others[k]);
      CharsDiffer(others[k], values[k]);
    }
  }

  lemma {:induction false} SubstitutedFold(values: Quintets, i: nat, others: Quintets)
    requires Fives(values) && Fives(others) && |others| == |values| && i < |values|
    requires others == values[i := others[i]] && others[i] != values[i]
    ensures Fives(Expanded() + values) && Fives(Expanded() + others)
    ensures C.Fold(1, Words(Expanded() + others)) != C.Fold(1, Words(Expanded() + values))
  {
    hide C.Fold, ToWord;
    ExpandedFives(values);
    ExpandedFives(others);
    var (a, b) := (Words(Expanded() + values), Words(Expanded() + others));
    WordsAreQuintets(Expanded() + values);
    WordsAreQuintets(Expanded() + others);
    WordSmall(others[i]);
    if ToWord(values[i]) == ToWord(others[i]) {
      SameWord(values[i], others[i]);
    }
    assert b == a[9 + i := ToWord(others[i])];
    C.SubstitutionChanges(a, 9 + i, ToWord(others[i]));
  }
}
