/** Little-endian integers and canonical CompactSize, written to a growing buffer and read back from an advancing
    offset (src/serialize.cpp). */
module Serialize {
  import opened Arithmetic
  import opened Amounts
  import opened Errors
  import opened Transactions

  type Bytes = seq<byte>

  // ---------------------------------------------------------------- specification

  /** The n low bytes of a number, least significant first. */
  function LittleEndian(value: nat, n: nat): (r: Bytes)
    ensures |r| == n
  {
    if n == 0 then [] else [value % 256] + LittleEndian(value / 256, n - 1)
  }

  function FromLittleEndian(bytes: Bytes): nat {
    if bytes == [] then 0 else bytes[0] + 256 * FromLittleEndian(bytes[1..])
  }

  /** The unsigned number with the same bits, and back. */
  function Unsigned32(value: i32): u32 {
    if value < 0 then value + TWO_32 else value
  }

  function Signed32(value: u32): i32 {
    if value >= 0x8000_0000 then value - TWO_32 else value
  }

  function Unsigned64(value: i64): u64 {
    if value < 0 then value + TWO_64 else value
  }

  function Signed64(value: u64): i64 {
    if value >= 0x8000_0000_0000_0000 then value - TWO_64 else value
  }

  function CompactSize(value: u64): (r: Bytes)
    ensures 1 <= |r| <= 9
  {
    if value < 253 then [value]
    else if value < TWO_16 then [253] + LittleEndian(value, 2)
    else if value < TWO_32 then [254] + LittleEndian(value, 4)
    else [255] + LittleEndian(value, 8)
  }

  /** A read gives a value and the offset behind it. */
  function ReadInteger(input: Bytes, offset: nat, n: nat): Result<(nat, nat)> {
    if offset + n > |input| then Err(Truncated) else Ok((FromLittleEndian(input[offset..offset + n]), offset + n))
  }

  function ReadCompactSize(input: Bytes, offset: nat): (r: Result<(u64, nat)>) {
    if offset >= |input| then Err(Truncated) else
    var marker := input[offset];
    if marker < 253 then Ok((marker, offset + 1)) else
    var n := if marker == 253 then 2 else if marker == 254 then 4 else 8;
    var (value, after) :- ReadInteger(input, offset + 1, n);
    IntegerInRange(input[offset + 1..offset + 1 + n]);
    if value < (if marker == 253 then 253 else if marker == 254 then TWO_16 else TWO_32) then Err(NonCanonical)
    else Ok((value, after))
  }

  function ReadBytes(input: Bytes, offset: nat, count: nat): Result<(Bytes, nat)> {
    if offset + count > |input| then Err(Truncated) else Ok((input[offset..offset + count], offset + count))
  }

  // ---------------------------------------------------------------- writing

  /** The output vector that the writers are handed by reference. */
  class Output {
    var bytes: Bytes

    constructor ()
      ensures bytes == []
    {
      bytes := [];
    }

    method Push(value: byte)
      modifies this
      ensures bytes == old(bytes) + [value]
    {
      bytes := bytes + [value];
    }

    method Insert(more: Bytes)
      modifies this
      ensures bytes == old(bytes) + more
    {
      bytes := bytes + more;
    }

    /** One byte per shift of eight. */
    method AppendLittleEndian(value: nat, n: nat)
      modifies this
      ensures bytes == old(bytes) + LittleEndian(value, n)
    {
      ghost var target := bytes + LittleEndian(value, n);
      for index := 0 to n
        invariant bytes + LittleEndian(value / Pow256(index), n - index) == target
      {
        ShiftOnce(value, index);
        var shifted := value / Pow256(index);
        assert bytes + LittleEndian(shifted, n - index) == bytes + [shifted % 256] + LittleEndian(shifted / 256, n - index - 1);
        Push(shifted % 256);
      }
    }

    method AppendCompactSize(value: u64)
      modifies this
      ensures bytes == old(bytes) + CompactSize(value)
    {
      hide LittleEndian;
      if value < 253 {
        Push(value);
      } else if value < TWO_16 {
        Push(253);
        Push(value % 256);
        Push(value / 256 % 256);
        TwoBytes(value);
      } else if value < TWO_32 {
        Push(254);
        AppendLittleEndian(value, 4);
      } else {
        Push(255);
        AppendLittleEndian(value, 8);
      }
    }
  }

  // ---------------------------------------------------------------- reading

  /** A read by the object agrees with the specified one. */
  ghost predicate Agrees<T>(r: Result<T>, spec: Result<(T, nat)>, offset: nat) {
    match spec
    case Err(error) => r == Err(error)
    case Ok((value, after)) => r == Ok(value) && offset == after
  }

  /** The input and the offset that the readers advance. */
  class Reader {
    const input: Bytes
    var offset: nat

    constructor (input: Bytes)
      ensures this.input == input && offset == 0
    {
      this.input, offset := input, 0;
    }

    method ReadLittleEndian(n: nat) returns (r: Result<nat>)
      modifies this
      ensures Agrees(r, ReadInteger(input, old(offset), n), offset)
      ensures r.Ok? ==> r.value < Pow256(n)
    {
      if offset > |input| || n > |input| - offset {
        return Err(Truncated);
      }
      var value: nat := 0;
      for index := 0 to n
        invariant offset == old(offset) + index
        invariant value == FromLittleEndian(input[old(offset)..offset])
      {
        PushHigh(input[old(offset)..offset], input[offset]);
        assert input[old(offset)..offset + 1] == input[old(offset)..offset] + [input[offset]];
        value := value + input[offset] * Pow256(index);
        offset := offset + 1;
      }
      FromLittleEndianBound(input[old(offset)..offset]);
      return Ok(value);
    }

    method ReadCompact() returns (r: Result<u64>)
      modifies this
      ensures Agrees(r, ReadCompactSize(input, old(offset)), offset)
    {
      if offset >= |input| {
        return Err(Truncated);
      }
      var marker := input[offset];
      offset := offset + 1;
      if marker < 253 {
        return Ok(marker);
      }
      var n := if marker == 253 then 2 else if marker == 254 then 4 else 8;
      PowersOf256();
      var value :- ReadLittleEndian(n);
      if value < (if marker == 253 then 253 else if marker == 254 then TWO_16 else TWO_32) {
        return Err(NonCanonical);
      }
      return Ok(value);
    }

    method ReadSome(count: nat) returns (r: Result<Bytes>)
      modifies this
      ensures Agrees(r, ReadBytes(input, old(offset), count), offset)
    {
      if offset > |input| || count > |input| - offset {
        return Err(Truncated);
      }
      offset := offset + count;
      return Ok(input[offset - count..offset]);
    }
  }

  // ---------------------------------------------------------------- integers

  lemma {:induction false} TwoBytes(value: nat)
    ensures LittleEndian(value, 2) == [value % 256, value / 256 % 256]
  {
    assert LittleEndian(value, 2) == [value % 256] + LittleEndian(value / 256, 1);
  }

  lemma {:induction false} PowersOf256()
    ensures Pow256(1) == 256 && Pow256(2) == TWO_16 && Pow256(4) == TWO_32 && Pow256(8) == TWO_64
    ensures Pow256(32) == TWO_256
  {
    assert Pow256(4) == TWO_32;
    Pow256Adds(4, 4);
    Pow256Adds(8, 8);
    Pow256Adds(16, 16);
  }

  /** The byte at each place is the digit of that weight in base 256. */
  lemma {:induction false} LittleEndianPlaces(value: nat, n: nat, i: nat)
    requires i < n
    ensures LittleEndian(value, n)[i] == value / Pow256(i) % 256
  {
    ShiftOnce(value, 0);
    PlacesFrom(value, value, 0, n, i);
  }

  lemma {:induction false} PlacesFrom(value: nat, rest: nat, start: nat, n: nat, i: nat)
    requires i < n && rest == value / Pow256(start)
    ensures LittleEndian(rest, n)[i] == value / Pow256(start + i) % 256
    decreases i
  {
    hide Pow256;
    if i > 0 {
      ShiftOnce(value, start);
      PlacesFrom(value, rest / 256, start + 1, n - 1, i - 1);
    }
  }

  lemma {:induction false} ShiftOnce(value: nat, n: nat)
    ensures value / Pow256(0) == value
    ensures value / Pow256(n) / 256 == value / Pow256(n + 1)
  {
    DivideTwice(value, Pow256(n));
  }

  lemma {:induction false} DivideTwice(value: nat, p: nat)
    requires p > 0
    ensures value / p / 256 == value / (256 * p)
  {
    var (q, r) := (value / p, value % p);
    var (s, t) := (q / 256, q % 256);
    Regroup(s, t, p);
    assert value == q * p + r;
    ProductMonotone(t, 255, p);
    QuotientIs(value, 256 * p, s, t * p + r);
  }

  lemma {:induction false} Regroup(s: nat, t: nat, p: nat)
    ensures (256 * s + t) * p == s * (256 * p) + t * p
  {
    assert (256 * s) * p == s * (256 * p);
  }

  lemma {:induction false} PushHigh(bytes: Bytes, high: byte)
    ensures FromLittleEndian(bytes + [high]) == FromLittleEndian(bytes) + high * Pow256(|bytes|)
  {
    if bytes == [] {
      assert ([] + [high])[1..] == [];
    } else {
      PushHigh(bytes[1..], high);
      assert (bytes + [high])[1..] == bytes[1..] + [high];
      var p := Pow256(|bytes| - 1);
      assert 256 * (high * p) == high * (256 * p);
    }
  }

  lemma {:induction false} FromLittleEndianBound(bytes: Bytes)
    ensures FromLittleEndian(bytes) < Pow256(|bytes|)
  {
    if bytes != [] {
      FromLittleEndianBound(bytes[1..]);
    }
  }

  lemma {:induction false} IntegerInRange(bytes: Bytes)
    ensures |bytes| <= 8 ==> FromLittleEndian(bytes) < TWO_64
    ensures |bytes| <= 4 ==> FromLittleEndian(bytes) < TWO_32
    ensures |bytes| <= 32 ==> FromLittleEndian(bytes) < TWO_256
  {
    FromLittleEndianBound(bytes);
    PowersOf256();
    if |bytes| <= 32 {
      Pow256Adds(|bytes|, 32 - |bytes|);
      ProductMonotone(1, Pow256(32 - |bytes|), Pow256(|bytes|));
    }
    if |bytes| <= 8 {
      Pow256Adds(|bytes|, 8 - |bytes|);
      ProductMonotone(1, Pow256(8 - |bytes|), Pow256(|bytes|));
    }
    if |bytes| <= 4 {
      Pow256Adds(|bytes|, 4 - |bytes|);
      ProductMonotone(1, Pow256(4 - |bytes|), Pow256(|bytes|));
    }
  }

  /** A number that fits n bytes is what its bytes denote, */
  lemma {:induction false} IntegerRoundTrip(value: nat, n: nat)
    requires value < Pow256(n)
    ensures FromLittleEndian(LittleEndian(value, n)) == value
  {
    if n > 0 {
      IntegerRoundTrip(value / 256, n - 1);
      assert LittleEndian(value, n)[1..] == LittleEndian(value / 256, n - 1);
    }
  }

  /** and bytes are the bytes of the number they denote. */
  lemma {:induction false} BytesRoundTrip(bytes: Bytes)
    ensures LittleEndian(FromLittleEndian(bytes), |bytes|) == bytes
  {
    if bytes != [] {
      var rest := FromLittleEndian(bytes[1..]);
      BytesRoundTrip(bytes[1..]);
      assert (bytes[0] + 256 * rest) / 256 == rest && (bytes[0] + 256 * rest) % 256 == bytes[0];
      assert bytes == [bytes[0]] + bytes[1..];
    }
  }

  // ---------------------------------------------------------------- reading what was written

  /** The input holds the given bytes at the offset. */
  ghost predicate At(input: Bytes, offset: nat, bytes: Bytes) {
    offset + |bytes| <= |input| && input[offset..offset + |bytes|] == bytes
  }

  lemma {:induction false} AtJoin(input: Bytes, offset: nat, a: Bytes, b: Bytes)
    ensures At(input, offset, a + b) <==> At(input, offset, a) && At(input, offset + |a|, b)
  {
    if At(input, offset, a + b) {
      var whole := input[offset..offset + |a + b|];
      assert input[offset..offset + |a|] == whole[..|a|];
      assert input[offset + |a|..offset + |a| + |b|] == whole[|a|..];
    }
    if At(input, offset, a) && At(input, offset + |a|, b) {
      assert input[offset..offset + |a + b|]
          == input[offset..offset + |a|] + input[offset + |a|..offset + |a| + |b|];
    }
  }

  lemma {:induction false} AtJoinFour(input: Bytes, offset: nat, a: Bytes, b: Bytes, c: Bytes, d: Bytes)
    ensures At(input, offset, a + (b + (c + d))) <==>
              && At(input, offset, a) && At(input, offset + |a|, b) && At(input, offset + |a| + |b|, c)
              && At(input, offset + |a| + |b| + |c|, d)
  {
    hide At;
    AtJoin(input, offset, a, b + (c + d));
    AtJoin(input, offset + |a|, b, c + d);
    AtJoin(input, offset + |a| + |b|, c, d);
  }

  /** A read of n bytes succeeds with a value exactly where that value was written. */
  lemma {:induction false} IntegerReads(input: Bytes, offset: nat, n: nat, value: nat)
    requires value < Pow256(n)
    ensures At(input, offset, LittleEndian(value, n)) <==> ReadInteger(input, offset, n) == Ok((value, offset + n))
  {
    IntegerRoundTrip(value, n);
    if offset + n <= |input| {
      BytesRoundTrip(input[offset..offset + n]);
    }
  }

  lemma {:induction false} BytesRead(input: Bytes, offset: nat, bytes: Bytes)
    ensures At(input, offset, bytes) <==> ReadBytes(input, offset, |bytes|) == Ok((bytes, offset + |bytes|))
  {
  }

  /** CompactSize is canonical: the one way to write a value is the one way to read it. */
  lemma {:induction false} CompactSizeReads(input: Bytes, offset: nat, value: u64)
    ensures At(input, offset, CompactSize(value)) <==>
              ReadCompactSize(input, offset) == Ok((value, offset + |CompactSize(value)|))
  {
    PowersOf256();
    hide Pow256, LittleEndian, FromLittleEndian;
    var n := if value < TWO_16 then 2 else if value < TWO_32 then 4 else 8;
    var marker: byte := if value < TWO_16 then 253 else if value < TWO_32 then 254 else 255;
    AtJoin(input, offset, [marker], LittleEndian(value, n));
    IntegerReads(input, offset + 1, n, value);
    if offset < |input| {
      assert input[offset..offset + 1] == [input[offset]];
      var m := if input[offset] == 253 then 2 else if input[offset] == 254 then 4 else 8;
      if offset + 1 + m <= |input| {
        FromLittleEndianBound(input[offset + 1..offset + 1 + m]);
      }
    }
  }

  /** Whatever is read was written: the bytes behind the offset are the canonical ones. */
  lemma {:induction false} CompactSizeCanonical(input: Bytes, offset: nat)
    requires ReadCompactSize(input, offset).Ok?
    ensures var (value, after) := ReadCompactSize(input, offset).value;
            after == offset + |CompactSize(value)| && At(input, offset, CompactSize(value))
  {
    var (value, after) := ReadCompactSize(input, offset).value;
    PowersOf256();
    if input[offset] >= 253 {
      var m := if input[offset] == 253 then 2 else if input[offset] == 254 then 4 else 8;
      FromLittleEndianBound(input[offset + 1..offset + 1 + m]);
    }
    CompactSizeReads(input, offset, value);
  }
}
