/** Money constants, the subsidy schedule and the bound on the total ever issued (src/amount.hpp). */
module Amounts {
  import opened Arithmetic

  const BITS_PER_BIN := 100_000_000
  const INITIAL_SUBSIDY := 50 * BITS_PER_BIN
  const MAX_MONEY := 21_000_000 * BITS_PER_BIN
  const HALVING_INTERVAL := 210_000
  const COINBASE_MATURITY := 100

  predicate MoneyRange(value: int) {
    0 <= value <= MAX_MONEY
  }

  /** A right shift of a non-negative amount: one truncating halving per place. */
  function ShiftRight(value: nat, places: nat): nat {
    if places == 0 then value else ShiftRight(value, places - 1) / 2
  }

  /** The new money a block at this height may create. */
  function BlockSubsidy(height: nat): nat {
    var halvings := height / HALVING_INTERVAL;
    if halvings >= 63 then 0 else ShiftRight(INITIAL_SUBSIDY, halvings)
  }

  /** The subsidies of heights 1 to n: genesis pays nothing into the UTXO set. */
  function IssuedBy(n: nat): nat {
    if n == 0 then 0 else IssuedBy(n - 1) + BlockSubsidy(n)
  }

  /** Shifting further never enlarges the amount. */
  lemma {:induction false} ShiftRightBound(value: nat, places: nat)
    ensures ShiftRight(value, places) <= value
  {
    if places > 0 {
      ShiftRightBound(value, places - 1);
    }
  }

  lemma {:induction false} HalvedTwice(value: nat, p: nat)
    requires p > 0
    ensures value / p / 2 == value / (2 * p)
  {
    var (q, r) := (value / p, value % p);
    assert value == q * p + r;
    assert 2 * p * (q / 2) == q / 2 * 2 * p;
    assert q * p == (q / 2 * 2 + q % 2) * p == q / 2 * 2 * p + q % 2 * p;
    assert q % 2 * p + r < 2 * p;
    QuotientIs(value, 2 * p, q / 2, q % 2 * p + r);
  }

  lemma {:induction false} ShiftRightMeaning(value: nat, places: nat)
    ensures ShiftRight(value, places) == value / Pow2(places)
  {
    if places > 0 {
      ShiftRightMeaning(value, places - 1);
      HalvedTwice(value, Pow2(places - 1));
    }
  }

  lemma {:induction false} Pow2Of33()
    ensures Pow2(32) == 0x1_0000_0000 && Pow2(33) == 0x2_0000_0000
  {
    assert Pow2(8) == 256;
    Pow2Adds(8, 8);
    Pow2Adds(16, 16);
  }

  /** At every height the subsidy is the initial one divided by two to the number of completed intervals, rounded down.
      It is nothing exactly from the 33rd halving on. */
  lemma {:induction false} SubsidyMeaning(height: nat)
    ensures BlockSubsidy(height) == INITIAL_SUBSIDY / Pow2(height / HALVING_INTERVAL)
    ensures BlockSubsidy(height) == 0 <==> height >= 33 * HALVING_INTERVAL
  {
    var k := height / HALVING_INTERVAL;
    ShiftRightMeaning(INITIAL_SUBSIDY, k);
    Pow2Of33();
    hide Pow2, ShiftRight;
    if k >= 33 {
      Pow2Grows(33, k);
      QuotientIs(INITIAL_SUBSIDY, Pow2(k), 0, INITIAL_SUBSIDY);
    } else {
      Pow2Grows(k, 32);
    }
  }

  /** Epoch k contributes at most as much as is left over after it, so the partial sums stay under
      2 * HALVING_INTERVAL * INITIAL_SUBSIDY whatever the truncation does. */
  lemma {:induction false} IssuedByWithinEpoch(n: nat)
    ensures var k := n / HALVING_INTERVAL;
            var s := ShiftRight(INITIAL_SUBSIDY, k);
            IssuedBy(n) + INITIAL_SUBSIDY
            <= 2 * HALVING_INTERVAL * (INITIAL_SUBSIDY - s) + (n % HALVING_INTERVAL + 1) * s
  {
    var k := n / HALVING_INTERVAL;
    var s := ShiftRight(INITIAL_SUBSIDY, k);
    if n > 0 {
      IssuedByWithinEpoch(n - 1);
      assert BlockSubsidy(n) <= s;
      if n % HALVING_INTERVAL == 0 {
        assert (n - 1) / HALVING_INTERVAL == k - 1 && (n - 1) % HALVING_INTERVAL == HALVING_INTERVAL - 1;
        var before := ShiftRight(INITIAL_SUBSIDY, k - 1);
        assert s == before / 2;
      } else {
        assert (n - 1) / HALVING_INTERVAL == k && (n - 1) % HALVING_INTERVAL == n % HALVING_INTERVAL - 1;
        var r := n % HALVING_INTERVAL;
        assert (r + 1) * s == r * s + s;
      }
    }
  }

  /** However long the chain grows, everything ever issued stays strictly below MAX_MONEY. */
  lemma {:induction false} IssuedByBound(n: nat)
    ensures IssuedBy(n) < MAX_MONEY
  {
    var s := ShiftRight(INITIAL_SUBSIDY, n / HALVING_INTERVAL);
    var p := (n % HALVING_INTERVAL + 1) * s;
    assert IssuedBy(n) + INITIAL_SUBSIDY <= 2 * HALVING_INTERVAL * (INITIAL_SUBSIDY - s) + p by {
      IssuedByWithinEpoch(n);
    }
    assert s <= INITIAL_SUBSIDY by {
      ShiftRightBound(INITIAL_SUBSIDY, n / HALVING_INTERVAL);
    }
    assert p <= HALVING_INTERVAL * s by {
      ProductMonotone(n % HALVING_INTERVAL + 1, HALVING_INTERVAL, s);
    }
  }
}
