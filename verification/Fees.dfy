/** Fee rates: rounding up, and the guards against overflow (src/fees.cpp). */
module Fees {
  import opened Arithmetic
  import opened Amounts
  import opened Errors
  import opened Transactions

  /** The fee for a size at a rate in bits per thousand bytes. The quotient of the guard keeps the 64-bit product from
      wrapping. */
  function FeeFor(rate: i64, size: u64): Result<nat> {
    if rate < 0 then Err(BadArgument)
    else if size == 0 || rate == 0 then Ok(0)
    else if size > (TWO_64 - 1 - 999) / rate then Err(FeeOverflow)
    else
      var rounded := (rate * size + 999) / 1000;
      if rounded > MAX_MONEY then Err(FeeOverflow) else Ok(rounded)
  }

  /** The product that the code computes in 64 bits does not wrap once the guard has passed. */
  lemma {:induction false} FeeNeverWraps(rate: i64, size: u64)
    requires rate > 0 && size <= (TWO_64 - 1 - 999) / rate
    ensures rate * size + 999 < TWO_64
  {
    var q := (TWO_64 - 1 - 999) / rate;
    ProductMonotone(size, q, rate);
  }

  /** A fee is the exact price rounded up to a whole unit. */
  lemma {:induction false} FeeIsCeiling(rate: i64, size: u64)
    requires FeeFor(rate, size).Ok?
    ensures rate * size <= 1000 * FeeFor(rate, size).value < rate * size + 1000
    ensures 0 <= FeeFor(rate, size).value <= MAX_MONEY
  {
    if size == 0 || rate == 0 {
      assert rate * size == 0;
    }
  }

  /** A size is priced exactly if the rate is not negative and the exact price, rounded up, is within the money range: the
      guard against overflow turns away nothing else. */
  lemma {:induction false} FeeExactly(rate: i64, size: u64)
    ensures FeeFor(rate, size).Ok? <==> rate >= 0 && (rate * size + 999) / 1000 <= MAX_MONEY
    ensures FeeFor(rate, size).Ok? ==> FeeFor(rate, size).value == (rate * size + 999) / 1000
  {
    if size == 0 || rate == 0 {
      assert rate * size == 0;
    } else if rate > 0 && size > (TWO_64 - 1 - 999) / rate {
      var q := (TWO_64 - 1 - 999) / rate;
      assert (TWO_64 - 1 - 999) < (q + 1) * rate by {
        assert TWO_64 - 1 - 999 == q * rate + (TWO_64 - 1 - 999) % rate;
        assert (q + 1) * rate == q * rate + rate;
      }
      ProductMonotone(q + 1, size, rate);
      assert rate * size == size * rate > TWO_64 - 1 - 999;
    }
  }

  /** A smaller transaction can always be priced if a larger one can, and costs no more. */
  lemma {:induction false} FeeMonotone(rate: i64, small: u64, large: u64)
    requires small <= large && FeeFor(rate, large).Ok?
    ensures FeeFor(rate, small).Ok? && FeeFor(rate, small).value <= FeeFor(rate, large).value
  {
    if small > 0 && rate > 0 {
      ProductMonotone(small, large, rate);
      assert rate * small <= rate * large;
      RoundsUp(rate * small, rate * large);
    }
  }

  lemma {:induction false} RoundsUp(a: nat, b: nat)
    requires a <= b
    ensures (a + 999) / 1000 <= (b + 999) / 1000
  {
  }
}
