/** Regrouping the bits of a sequence of values from one width to another (src/bech32.cpp, convert_bits). */
module BitGroups {
  import opened Arithmetic
  import opened Errors

  type Bits = seq<bool>

  // ---------------------------------------------------------------- specification

  /** The bits of a number in a given width, most significant first, and the number that bits denote. */
  function BitsOf(value: nat, width: nat): (bits: Bits)
    ensures |bits| == width
  {
    if width == 0 then [] else BitsOf(value / 2, width - 1) + [value % 2 == 1]
  }

  function Number(bits: Bits): nat {
    if bits == [] then 0 else 2 * Number(bits[..|bits| - 1]) + (if bits[|bits| - 1] then 1 else 0)
  }

  ghost predicate Fit(values: seq<nat>, width: nat) {
    forall i :: 0 <= i < |values| ==> values[i] < Pow2(width)
  }

  /** All bits of the values, one after the other. */
  function Stream(values: seq<nat>, width: nat): (bits: Bits)
    ensures |bits| == |values| * width
  {
    if values == [] then [] else Stream(values[..|values| - 1], width) + BitsOf(values[|values| - 1], width)
  }

  ghost predicate NoneSet(bits: Bits) {
    forall i :: 0 <= i < |bits| ==> !bits[i]
  }

  function Zeros(n: nat): (bits: Bits)
    ensures |bits| == n
    ensures NoneSet(bits)
  {
    seq(n, _ => false)
  }

  /** The values behind a stream of bits, when a whole number of them fits. */
  ghost function Values(bits: Bits, width: nat): (values: seq<nat>)
    requires width > 0
    decreases |bits|
  {
    if |bits| < width then [] else Values(bits[..|bits| - width], width) + [Number(bits[|bits| - width..])]
  }

  /** What a conversion yields. Padding fills the last group with zeros; without it, what is left over must be shorter
      than a source value and hold no set bit. */
  ghost function Converted(input: seq<nat>, from: nat, to: nat, pad: bool): Result<seq<nat>>
    requires to > 0
  {
    if !Fit(input, from) then Err(BadArgument) else
    var bits := Stream(input, from);
    var left := |bits| % to;
    if pad then Ok(Values(bits + Zeros(if left == 0 then 0 else to - left), to))
    else if left >= from || !NoneSet(bits[|bits| - left..]) then Err(BadArgument)
    else Ok(Values(bits[..|bits| - left], to))
  }

  // ---------------------------------------------------------------- numbers and bits

  lemma {:induction false} NumberBelow(bits: Bits)
    ensures Number(bits) < Pow2(|bits|)
  {
    if bits != [] {
      NumberBelow(bits[..|bits| - 1]);
    }
  }

  lemma {:induction false} NumberOfBits(value: nat, width: nat)
    requires value < Pow2(width)
    ensures Number(BitsOf(value, width)) == value
  {
    if width > 0 {
      NumberOfBits(value / 2, width - 1);
      assert BitsOf(value, width)[..width - 1] == BitsOf(value / 2, width - 1);
    }
  }

  lemma {:induction false} BitsOfNumber(bits: Bits)
    ensures BitsOf(Number(bits), |bits|) == bits
  {
    if bits != [] {
      var front := bits[..|bits| - 1];
      BitsOfNumber(front);
      assert Number(bits) / 2 == Number(front);
      assert bits == front + [bits[|bits| - 1]];
    }
  }

  /** Appending bits shifts the number and adds theirs. */
  lemma {:induction false} NumberJoins(a: Bits, b: Bits)
    ensures Number(a + b) == Number(a) * Pow2(|b|) + Number(b)
  {
    if b == [] {
      assert a + b == a;
    } else {
      var front := b[..|b| - 1];
      NumberJoins(a, front);
      assert (a + b)[..|a + b| - 1] == a + front;
      assert 2 * (Number(a) * Pow2(|front|)) == Number(a) * (2 * Pow2(|front|));
    }
  }

  // ---------------------------------------------------------------- streams and values

  lemma {:induction false} StreamOfValues(bits: Bits, width: nat)
    requires width > 0 && |bits| % width == 0
    ensures Stream(Values(bits, width), width) == bits && Fit(Values(bits, width), width)
    decreases |bits|
  {
    hide Number, BitsOf, Pow2;
    OneLess(|bits|, width);
    if |bits| >= width {
      var (front, last) := (bits[..|bits| - width], bits[|bits| - width..]);
      StreamOfValues(front, width);
      BitsOfNumber(last);
      NumberBelow(last);
      var values := Values(bits, width);
      assert values[..|values| - 1] == Values(front, width);
      assert bits == front + last;
    } else {
      assert |bits| == 0;
    }
  }

  lemma {:induction false} OneLess(n: nat, width: nat)
    requires width > 0 && n % width == 0
    ensures if n >= width then (n - width) % width == 0 else n == 0
  {
    var q := n / width;
    assert n == q * width;
    if n >= width {
      assert (q - 1) * width == n - width;
      QuotientIs(n - width, width, q - 1, 0);
    } else {
      QuotientIs(n, width, 0, n);
    }
  }

  lemma {:induction false} ValuesNext(front: Bits, last: Bits, width: nat)
    requires width > 0 && |last| == width
    ensures Values(front + last, width) == Values(front, width) + [Number(last)]
  {
    hide Number;
    var bits := front + last;
    assert bits[..|bits| - width] == front && bits[|bits| - width..] == last;
  }

  lemma {:induction false} ValuesOfStream(values: seq<nat>, width: nat)
    requires width > 0 && Fit(values, width)
    ensures Values(Stream(values, width), width) == values
  {
    hide Number, BitsOf, Pow2, Values;
    if values != [] {
      var (front, last) := (values[..|values| - 1], values[|values| - 1]);
      ValuesOfStream(front, width);
      NumberOfBits(last, width);
      ValuesNext(Stream(front, width), BitsOf(last, width), width);
      assert values == front + [last];
    } else {
      NoValues(width);
    }
  }

  lemma {:induction false} NoValues(width: nat)
    requires width > 0
    ensures Values([], width) == []
  {
  }

  lemma {:induction false} StreamNext(values: seq<nat>, next: nat, width: nat)
    ensures Stream(values + [next], width) == Stream(values, width) + BitsOf(next, width)
  {
    assert (values + [next])[..|values|] == values;
  }

  // ---------------------------------------------------------------- the accumulator

  /** The low bits of the accumulator are the bits that have not been put out yet; nothing above them is ever looked at. */
  ghost predicate Holds(accumulator: nat, pending: Bits) {
    accumulator % Pow2(|pending|) == Number(pending)
  }

  lemma {:induction false} Distribute(a: nat, b: nat, c: nat, d: nat)
    ensures (a * b + c) * d == a * (b * d) + c * d
  {
    assert (a * b) * d == a * (b * d);
  }

  /** Shifting a number up and adding below the shift. */
  lemma {:induction false} ShiftIn(number: nat, modulus: nat, factor: nat, value: nat)
    requires modulus > 0 && value < factor
    ensures modulus * factor > 0
    ensures (number * factor + value) % (modulus * factor) == (number % modulus) * factor + value
  {
    var (q, r) := (number / modulus, number % modulus);
    assert number == q * modulus + r;
    Distribute(q, modulus, r, factor);
    ProductMonotone(r + 1, modulus, factor);
    assert (r + 1) * factor == r * factor + factor;
    ProductMonotone(1, modulus, factor);
    QuotientIs(number * factor + value, modulus * factor, q, r * factor + value);
  }

  lemma {:induction false} ModOfMod(value: nat, small: nat, factor: nat)
    requires small > 0 && factor > 0
    ensures small * factor > 0 && value % (small * factor) % small == value % small
  {
    ProductMonotone(1, factor, small);
    var large := small * factor;
    var (q, r) := (value / large, value % large);
    var (s, t) := (r / small, r % small);
    assert value == q * large + r && r == s * small + t;
    Distribute(q, factor, s, small);
    assert factor * small == large;
    QuotientIs(value, small, q * factor + s, t);
  }

  /** Taking out the middle of a number. */
  lemma {:induction false} TakeOut(number: nat, group: nat, below: nat, high: nat, low: nat)
    requires group > 0 && low < below && high < group
    requires group * below > 0 && number % (group * below) == high * below + low
    ensures number / below % group == high && number % below == low
  {
    var q := number / (group * below);
    assert number == q * (group * below) + (high * below + low);
    Distribute(q, group, high, below);
    QuotientIs(number, below, q * group + high, low);
    QuotientIs(q * group + high, group, q, high);
  }

  /** Taking a value in: shifting and masking lose none of the pending bits while fewer than a target group are pending. */
  lemma {:induction false} TakesIn(accumulator: nat, pending: Bits, value: nat, from: nat, to: nat)
    requires Holds(accumulator, pending) && value < Pow2(from) && |pending| < to
    ensures Holds((accumulator * Pow2(from) + value) % Pow2(from + to - 1), pending + BitsOf(value, from))
  {
    hide Pow2, Number, BitsOf;
    var n := |pending|;
    NumberOfBits(value, from);
    NumberJoins(pending, BitsOf(value, from));
    ShiftIn(accumulator, Pow2(n), Pow2(from), value);
    Pow2Adds(n, from);
    Pow2Adds(n + from, to - 1 - n);
    assert (n + from) + (to - 1 - n) == from + to - 1;
    ModOfMod(accumulator * Pow2(from) + value, Pow2(n + from), Pow2(to - 1 - n));
  }

  /** Putting a group out: it is the oldest pending bits. */
  lemma {:induction false} PutsOut(accumulator: nat, pending: Bits, to: nat)
    requires Holds(accumulator, pending) && |pending| >= to
    ensures accumulator / Pow2(|pending| - to) % Pow2(to) == Number(pending[..to])
    ensures Holds(accumulator, pending[to..])
  {
    hide Pow2, Number;
    var (group, rest) := (pending[..to], pending[to..]);
    assert pending == group + rest;
    NumberJoins(group, rest);
    NumberBelow(rest);
    NumberBelow(group);
    Pow2Adds(to, |rest|);
    TakeOut(accumulator, Pow2(to), Pow2(|rest|), Number(group), Number(rest));
  }

  /** The last, padded group: the pending bits followed by zeros. */
  lemma {:induction false} LastGroup(accumulator: nat, pending: Bits, to: nat)
    requires Holds(accumulator, pending) && |pending| <= to
    ensures accumulator * Pow2(to - |pending|) % Pow2(to) == Number(pending + Zeros(to - |pending|))
    ensures Number(pending + Zeros(to - |pending|)) == 0 <==> NoneSet(pending)
  {
    hide Pow2, Number;
    var n := |pending|;
    NumberJoins(pending, Zeros(to - n));
    NumberZero(Zeros(to - n));
    NumberZero(pending);
    Pow2Adds(n, to - n);
    ShiftIn(accumulator, Pow2(n), Pow2(to - n), 0);
    if Number(pending) > 0 {
      ProductMonotone(1, Number(pending), Pow2(to - n));
    }
  }

  lemma {:induction false} NumberZero(bits: Bits)
    ensures Number(bits) == 0 <==> NoneSet(bits)
  {
    if bits != [] {
      var front := bits[..|bits| - 1];
      NumberZero(front);
      if NoneSet(front) && !bits[|bits| - 1] {
        forall i | 0 <= i < |bits|
          ensures !bits[i]
        {
          assert i < |front| ==> bits[i] == front[i];
        }
      }
      if NoneSet(bits) {
        forall i | 0 <= i < |front|
          ensures !front[i]
        {
          assert front[i] == bits[i];
        }
      }
    }
  }

  // ---------------------------------------------------------------- implementation

  /** What has been put out and what is pending make up the bits taken in. */
  ghost predicate Split(taken: Bits, output: seq<nat>, pending: Bits, to: nat) {
    Fit(output, to) && Stream(output, to) + pending == taken
  }

  method ConvertBits(input: seq<nat>, from: nat, to: nat, pad: bool) returns (r: Result<seq<nat>>)
    requires from > 0 && to > 0
    ensures r == Converted(input, from, to, pad)
  {
    hide Stream, Values, Number, Pow2, Holds, Split, Converted;
    var accumulator: nat := 0;
    var bits: nat := 0;
    var output: seq<nat> := [];
    ghost var pending: Bits := [];
    NothingYet(to);
    for i := 0 to |input|
      invariant Fit(input[..i], from)
      invariant bits == |pending| < to && Holds(accumulator, pending)
      invariant Split(Stream(input[..i], from), output, pending, to)
    {
      var value := input[i];
      if value >= Pow2(from) {
        NotFit(input, i, from, to, pad);
        return Err(BadArgument);
      }
      assert input[..i + 1] == input[..i] + [value];
      StreamNext(input[..i], value, from);
      TakesIn(accumulator, pending, value, from, to);
      SplitTakesIn(Stream(input[..i], from), output, pending, BitsOf(value, from), to);
      accumulator := (accumulator * Pow2(from) + value) % Pow2(from + to - 1);
      pending := pending + BitsOf(value, from);
      bits := bits + from;
      while bits >= to
        invariant bits == |pending| && Holds(accumulator, pending)
        invariant Split(Stream(input[..i + 1], from), output, pending, to)
        decreases bits
      {
        PutsOut(accumulator, pending, to);
        SplitPutsOut(Stream(input[..i + 1], from), output, pending, to);
        bits := bits - to;
        output := output + [accumulator / Pow2(bits) % Pow2(to)];
        pending := pending[to..];
      }
    }
    assert input[..|input|] == input;
    SplitLength(Stream(input, from), output, pending, to);
    LastGroup(accumulator, pending, to);
    if pad {
      PaddedResult(input, from, output, pending, to);
      if bits != 0 {
        output := output + [accumulator * Pow2(to - bits) % Pow2(to)];
      }
    } else {
      PlainResult(input, from, output, pending, to);
      if bits >= from || accumulator * Pow2(to - bits) % Pow2(to) != 0 {
        return Err(BadArgument);
      }
    }
    return Ok(output);
  }

  lemma {:induction false} NothingYet(to: nat)
    ensures Split(Stream([], to), [], [], to) && Holds(0, []) && Stream([], to) == []
    ensures forall width :: Stream([], width) == []
  {
  }

  lemma {:induction false} NotFit(input: seq<nat>, i: nat, from: nat, to: nat, pad: bool)
    requires i < |input| && input[i] >= Pow2(from) && to > 0
    ensures Converted(input, from, to, pad) == Err(BadArgument)
  {
  }

  lemma {:induction false} SplitTakesIn(taken: Bits, output: seq<nat>, pending: Bits, more: Bits, to: nat)
    requires Split(taken, output, pending, to)
    ensures Split(taken + more, output, pending + more, to)
  {
    assert Stream(output, to) + (pending + more) == (Stream(output, to) + pending) + more;
  }

  lemma {:induction false} SplitPutsOut(taken: Bits, output: seq<nat>, pending: Bits, to: nat)
    requires Split(taken, output, pending, to) && |pending| >= to
    ensures Split(taken, output + [Number(pending[..to])], pending[to..], to)
  {
    var group := pending[..to];
    NumberBelow(group);
    BitsOfNumber(group);
    StreamNext(output, Number(group), to);
    assert Stream(output, to) + group + pending[to..] == Stream(output, to) + pending by {
      assert pending == group + pending[to..];
    }
  }

  lemma {:induction false} SplitLength(taken: Bits, output: seq<nat>, pending: Bits, to: nat)
    requires Split(taken, output, pending, to) && |pending| < to
    ensures |taken| % to == |pending|
  {
    assert |taken| == |output| * to + |pending|;
    QuotientIs(|taken|, to, |output|, |pending|);
  }

  lemma {:induction false} PaddedResult(input: seq<nat>, from: nat, output: seq<nat>, pending: Bits, to: nat)
    requires Fit(input, from) && Split(Stream(input, from), output, pending, to) && |pending| < to
    requires |Stream(input, from)| % to == |pending|
    ensures Converted(input, from, to, true)
         == Ok(if |pending| == 0 then output else output + [Number(pending + Zeros(to - |pending|))])
  {
    hide Stream, Values, Number, Pow2;
    var bits := Stream(input, from);
    if |pending| == 0 {
      assert bits + Zeros(0) == Stream(output, to);
      ValuesOfStream(output, to);
    } else {
      var last := pending + Zeros(to - |pending|);
      var more := output + [Number(last)];
      NumberBelow(last);
      BitsOfNumber(last);
      StreamNext(output, Number(last), to);
      assert bits + Zeros(to - |pending|) == Stream(more, to);
      ValuesOfStream(more, to);
    }
  }

  lemma {:induction false} PlainResult(input: seq<nat>, from: nat, output: seq<nat>, pending: Bits, to: nat)
    requires Fit(input, from) && Split(Stream(input, from), output, pending, to) && |pending| < to
    requires |Stream(input, from)| % to == |pending|
    ensures if |pending| >= from || !NoneSet(pending) then Converted(input, from, to, false) == Err(BadArgument)
            else Converted(input, from, to, false) == Ok(output)
  {
    hide Stream, Values, Number, Pow2;
    var bits := Stream(input, from);
    assert bits[|bits| - |pending|..] == pending && bits[..|bits| - |pending|] == Stream(output, to);
    ValuesOfStream(output, to);
  }

  // ---------------------------------------------------------------- there and back

  /** Bytes, regrouped with padding into quintets and back without, are the same bytes, for every number of bytes. */
  lemma {:induction false} ConversionRoundTrip(bytes: seq<nat>)
    requires Fit(bytes, 8)
    ensures var quintets := Converted(bytes, 8, 5, true);
            && quintets.Ok? && Fit(quintets.value, 5)
            && |quintets.value| == (|bytes| * 8 + 4) / 5
            && Converted(quintets.value, 5, 8, false) == Ok(bytes)
  {
    hide Values, Number, Pow2, Stream;
    var bits := Stream(bytes, 8);
    var left := |bits| % 5;
    var zeros := Zeros(if left == 0 then 0 else 5 - left);
    var quintets := Values(bits + zeros, 5);
    StreamOfValues(bits + zeros, 5);
    CountsAgree(|bytes|, |zeros|, |quintets|);
    assert (bits + zeros)[|bits|..] == zeros && (bits + zeros)[..|bits|] == bits;
    ValuesOfStream(bytes, 8);
  }

  lemma {:induction false} CountsAgree(bytes: nat, zeros: nat, quintets: nat)
    requires zeros < 5 && bytes * 8 + zeros == quintets * 5
    ensures (bytes * 8 + zeros) % 8 == zeros && quintets == (bytes * 8 + 4) / 5
  {
  }

  lemma {:induction false} PaddingIsRest(n: nat, left: nat)
    requires left < 5 && left <= n * 5
    ensures var short := (n * 5 - left) % 5;
            (if short == 0 then 0 else 5 - short) == left
  {
  }

  /** Bits with an unset rest of fewer than five, out of quintets: what is kept is whole bytes, padded back to all. */
  lemma {:induction false} RestIsPadding(bits: Bits, quintets: nat)
    requires |bits| == quintets * 5 && |bits| % 8 < 5 && NoneSet(bits[|bits| - |bits| % 8..])
    ensures var kept := bits[..|bits| - |bits| % 8];
            var short := |kept| % 5;
            |kept| % 8 == 0 && kept + Zeros(if short == 0 then 0 else 5 - short) == bits
  {
    var left := |bits| % 8;
    var kept := bits[..|bits| - left];
    PaddingIsRest(quintets, left);
    assert bits[|bits| - left..] == Zeros(left);
    assert kept + bits[|bits| - left..] == bits;
  }

  /** Quintets that are accepted are the ones that their bytes are regrouped into: the left-over bits are the padding. */
  lemma {:induction false} ConversionCanonical(quintets: seq<nat>)
    requires Converted(quintets, 5, 8, false).Ok?
    ensures var bytes := Converted(quintets, 5, 8, false).value;
            Fit(bytes, 8) && Converted(bytes, 8, 5, true) == Ok(quintets)
  {
    hide Values, Number, Pow2, Stream, Fit, NoneSet, Zeros;
    var bits := Stream(quintets, 5);
    RestIsPadding(bits, |quintets|);
    StreamOfValues(bits[..|bits| - |bits| % 8], 8);
    ValuesOfStream(quintets, 5);
  }
}
