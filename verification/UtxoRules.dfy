/** What applying a transaction means, and what it keeps: an independent reading of Utxo.Apply. */
module UtxoRules {
  import opened Amounts
  import opened Errors
  import opened Transactions
  import opened Scripts
  import opened Utxo

  // ---------------------------------------------------------------- value of a UTXO map

  /** The money in a UTXO map. */
  ghost function Total(coins: Utxos): int {
    if coins == map[] then 0 else
    var o :| o in coins;
    coins[o].output.value + Total(coins - {o})
  }

  /** Any coin may be taken out first. */
  lemma {:induction false} TotalRemove(coins: Utxos, o: OutPoint)
    requires o in coins
    ensures Total(coins) == coins[o].output.value + Total(coins - {o})
    decreases |coins|
  {
    var p :| p in coins && Total(coins) == coins[p].output.value + Total(coins - {p});
    if p != o {
      TotalRemove(coins - {p}, o);
      TotalRemove(coins - {o}, p);
      assert coins - {p} - {o} == coins - {o} - {p};
    }
  }

  lemma {:induction false} TotalAdd(coins: Utxos, o: OutPoint, coin: Coin)
    requires o !in coins
    ensures Total(coins[o := coin]) == Total(coins) + coin.output.value
  {
    TotalRemove(coins[o := coin], o);
    assert coins[o := coin] - {o} == coins;
  }

  /** Every coin holds an amount in the money range, as every stored output does. */
  ghost predicate CoinsInRange(coins: Utxos) {
    forall o :: o in coins ==> MoneyRange(coins[o].output.value)
  }

  lemma {:induction false} TotalNonNegative(coins: Utxos)
    requires CoinsInRange(coins)
    ensures Total(coins) >= 0
    decreases |coins|
  {
    if coins != map[] {
      var o :| o in coins && Total(coins) == coins[o].output.value + Total(coins - {o});
      TotalNonNegative(coins - {o});
    }
  }

  // ---------------------------------------------------------------- the rules, stated outright

  /** The money on the first n inputs. */
  ghost function InputSum(inputs: seq<TxInput>, coins: Utxos, n: nat): int
    requires n <= |inputs|
    requires forall i :: 0 <= i < n ==> inputs[i].previousOutput in coins
  {
    if n == 0 then 0 else InputSum(inputs, coins, n - 1) + coins[inputs[n - 1].previousOutput].output.value
  }

  ghost predicate DistinctInputs(inputs: seq<TxInput>) {
    forall i, j :: 0 <= i < j < |inputs| ==> inputs[i].previousOutput != inputs[j].previousOutput
  }

  /** Each input names a different unspent, mature coin and carries a signature its script accepts. */
  ghost predicate InputsSpendable(tx: Transaction, height: nat, coins: Utxos, n: nat)
    requires n <= |tx.inputs|
  {
    && DistinctInputs(tx.inputs[..n])
    && forall i :: 0 <= i < n ==>
         && tx.inputs[i].previousOutput in coins
         && Mature(coins[tx.inputs[i].previousOutput], height)
         && VerifyP2pkInput(tx, i, coins[tx.inputs[i].previousOutput].output.scriptPubKey)
  }

  /** The coins that the first n outputs of a transaction become. */
  ghost function NewCoins(outputs: seq<TxOutput>, txid: Hash256, height: nat, coinbase: bool, n: nat): Utxos
    requires n <= |outputs| <= MAX_TRANSACTION_ITEMS
  {
    map i | 0 <= i < n :: OutPoint(txid, i) := Coin(outputs[i], height, coinbase)
  }

  /** None of the first n outpoints of a transaction is taken. */
  ghost predicate Fresh(txid: Hash256, coins: Utxos, n: nat)
    requires n <= MAX_TRANSACTION_ITEMS
  {
    forall i :: 0 <= i < n ==> OutPoint(txid, i) !in coins
  }

  /** When a transaction may be applied. */
  ghost predicate Acceptable(tx: Transaction, height: nat, coins: Utxos) {
    && StructureValid(tx)
    && !IsCoinbase(tx)
    && InputsSpendable(tx, height, coins, |tx.inputs|)
    && ValueSum(tx.outputs) <= InputSum(tx.inputs, coins, |tx.inputs|) <= MAX_MONEY
    && Fresh(TxId(tx), coins - SpentBy(tx.inputs), |tx.outputs|)
  }

  lemma {:induction false} InputSumMonotone(inputs: seq<TxInput>, coins: Utxos, m: nat, n: nat)
    requires m <= n <= |inputs| && CoinsInRange(coins)
    requires forall i :: 0 <= i < n ==> inputs[i].previousOutput in coins
    ensures 0 <= InputSum(inputs, coins, m) <= InputSum(inputs, coins, n)
    decreases n
  {
    if n > 0 {
      InputSumMonotone(inputs, coins, if m < n then m else n - 1, n - 1);
    }
  }

  /** The loop over the inputs succeeds exactly when they are spendable and worth at most MAX_MONEY. */
  lemma {:induction false} CheckInputsMeaning(tx: Transaction, height: nat, coins: Utxos, n: nat)
    requires n <= |tx.inputs| && CoinsInRange(coins)
    ensures CheckInputs(tx, height, coins, n).Ok? <==>
              InputsSpendable(tx, height, coins, n) && InputSum(tx.inputs, coins, n) <= MAX_MONEY
    ensures CheckInputs(tx, height, coins, n).Ok? ==>
              CheckInputs(tx, height, coins, n).value == InputSum(tx.inputs, coins, n)
  {
    hide VerifyP2pkInput;
    if n > 0 {
      CheckInputsMeaning(tx, height, coins, n - 1);
      var last := tx.inputs[n - 1].previousOutput;
      DistinctInputsStep(tx.inputs, n - 1);
      if InputsSpendable(tx, height, coins, n) && InputSum(tx.inputs, coins, n) <= MAX_MONEY {
        InputSumMonotone(tx.inputs, coins, n - 1, n);
      }
    }
  }

  lemma {:induction false} DistinctInputsStep(inputs: seq<TxInput>, n: nat)
    requires n < |inputs|
    ensures DistinctInputs(inputs[..n + 1]) <==>
              DistinctInputs(inputs[..n]) && inputs[n].previousOutput !in SpentBy(inputs[..n])
  {
    var longer := inputs[..n + 1];
    if DistinctInputs(longer) {
      forall i, j | 0 <= i < j < n
        ensures inputs[..n][i].previousOutput != inputs[..n][j].previousOutput
      {
        assert longer[i].previousOutput != longer[j].previousOutput;
      }
      forall i | 0 <= i < n
        ensures inputs[..n][i].previousOutput != inputs[n].previousOutput
      {
        assert longer[i].previousOutput != longer[n].previousOutput;
      }
    }
    if DistinctInputs(inputs[..n]) && inputs[n].previousOutput !in SpentBy(inputs[..n]) {
      forall i, j | 0 <= i < j < n + 1
        ensures longer[i].previousOutput != longer[j].previousOutput
      {
        assert inputs[..n][i].previousOutput in SpentBy(inputs[..n]);
        if j < n {
          assert inputs[..n][i].previousOutput != inputs[..n][j].previousOutput;
        }
      }
    }
  }

  lemma {:induction false} NewCoinsStep(outputs: seq<TxOutput>, txid: Hash256, height: nat, coinbase: bool, coins: Utxos, n: nat)
    requires n < |outputs| <= MAX_TRANSACTION_ITEMS
    ensures (coins + NewCoins(outputs, txid, height, coinbase, n))[OutPoint(txid, n) := Coin(outputs[n], height, coinbase)]
         == coins + NewCoins(outputs, txid, height, coinbase, n + 1)
  {
    var shorter := NewCoins(outputs, txid, height, coinbase, n);
    var longer := NewCoins(outputs, txid, height, coinbase, n + 1);
    assert longer.Keys == shorter.Keys + {OutPoint(txid, n)} by {
      assert OutPoint(txid, n) in longer;
    }
  }

  /** Inserting outputs succeeds exactly when no outpoint is taken, and then adds exactly the new coins. */
  lemma {:induction false} AddOutputsMeaning(outputs: seq<TxOutput>, txid: Hash256, height: nat, coinbase: bool,
                                             coins: Utxos, n: nat)
    requires n <= |outputs| <= MAX_TRANSACTION_ITEMS
    ensures var (r, added) := AddOutputs(outputs, txid, height, coinbase, coins, n);
            && (r.Ok? <==> Fresh(txid, coins, n))
            && (r.Ok? ==> added == coins + NewCoins(outputs, txid, height, coinbase, n))
            && (r.Err? ==> r.error == DuplicateOutput)
  {
    if n == 0 {
      assert NewCoins(outputs, txid, height, coinbase, 0) == map[];
    } else {
      AddOutputsMeaning(outputs, txid, height, coinbase, coins, n - 1);
      NewCoinsStep(outputs, txid, height, coinbase, coins, n - 1);
    }
  }

  /** A transaction is applied exactly when it is acceptable; the fee is what the inputs hold beyond the
      outputs, and the new map is the old one without the spent coins and with the created ones. */
  lemma {:induction false} ApplyMeaning(tx: Transaction, height: nat, coins: Utxos)
    requires CoinsInRange(coins)
    ensures Apply(tx, height, coins).0.Ok? <==> Acceptable(tx, height, coins)
    ensures Acceptable(tx, height, coins) ==>
              Apply(tx, height, coins) ==
              (Ok(InputSum(tx.inputs, coins, |tx.inputs|) - ValueSum(tx.outputs)),
               (coins - SpentBy(tx.inputs)) + NewCoins(tx.outputs, TxId(tx), height, false, |tx.outputs|))
  {
    hide CheckInputs, NewCoins, SpentBy, ValueSum, InputSum, InputsSpendable, IsCoinbase;
    CheckInputsMeaning(tx, height, coins, |tx.inputs|);
    if StructureValid(tx) {
      AddOutputsMeaning(tx.outputs, TxId(tx), height, false, coins - SpentBy(tx.inputs), |tx.outputs|);
    }
  }

  /** A failed application leaves the map alone, except for a colliding output: then the inputs are already
      erased and the outputs before the collision already inserted. */
  lemma {:induction false} FailedApply(tx: Transaction, height: nat, coins: Utxos)
    requires Apply(tx, height, coins).0.Err?
    ensures var (r, left) := Apply(tx, height, coins);
            if r.error != DuplicateOutput then left == coins
            else exists k: nat :: k < |tx.outputs| <= MAX_TRANSACTION_ITEMS
                   && OutPoint(TxId(tx), k) in coins - SpentBy(tx.inputs)
                   && Fresh(TxId(tx), coins - SpentBy(tx.inputs), k)
                   && left == (coins - SpentBy(tx.inputs)) + NewCoins(tx.outputs, TxId(tx), height, false, k)
  {
    CheckInputsErrors(tx, height, coins, |tx.inputs|);
    if StructureValid(tx) {
      var kept := coins - SpentBy(tx.inputs);
      AddOutputsMeaning(tx.outputs, TxId(tx), height, false, kept, |tx.outputs|);
      if AddOutputs(tx.outputs, TxId(tx), height, false, kept, |tx.outputs|).0.Err? {
        AddOutputsFailure(tx.outputs, TxId(tx), height, false, kept, |tx.outputs|);
      }
    }
  }

  lemma {:induction false} CheckInputsErrors(tx: Transaction, height: nat, coins: Utxos, n: nat)
    requires n <= |tx.inputs|
    ensures var r := CheckInputs(tx, height, coins, n);
            r.Err? ==> r.error in {DuplicateInput, MissingInput, ImmatureCoinbase, BadSignature, InputTotalOverflow}
  {
    if n > 0 {
      CheckInputsErrors(tx, height, coins, n - 1);
    }
  }

  lemma {:induction false} AddOutputsFailure(outputs: seq<TxOutput>, txid: Hash256, height: nat, coinbase: bool,
                                             coins: Utxos, n: nat)
    requires n <= |outputs| <= MAX_TRANSACTION_ITEMS
    requires AddOutputs(outputs, txid, height, coinbase, coins, n).0.Err?
    ensures exists k: nat :: k < n && OutPoint(txid, k) in coins && Fresh(txid, coins, k)
              && AddOutputs(outputs, txid, height, coinbase, coins, n).1
                 == coins + NewCoins(outputs, txid, height, coinbase, k)
  {
    if AddOutputs(outputs, txid, height, coinbase, coins, n - 1).0.Err? {
      AddOutputsFailure(outputs, txid, height, coinbase, coins, n - 1);
    } else {
      AddOutputsMeaning(outputs, txid, height, coinbase, coins, n - 1);
    }
  }

  // ---------------------------------------------------------------- conservation

  lemma {:induction false} TotalSpend(inputs: seq<TxInput>, coins: Utxos, n: nat)
    requires n <= |inputs| && DistinctInputs(inputs[..n])
    requires forall i :: 0 <= i < n ==> inputs[i].previousOutput in coins
    ensures Total(coins - SpentBy(inputs[..n])) == Total(coins) - InputSum(inputs, coins, n)
  {
    if n > 0 {
      DistinctInputsStep(inputs, n - 1);
      TotalSpend(inputs, coins, n - 1);
      SpentByStep(inputs, n - 1);
      var left := coins - SpentBy(inputs[..n - 1]);
      var o := inputs[n - 1].previousOutput;
      TotalRemove(left, o);
      assert left - {o} == coins - SpentBy(inputs[..n]);
    } else {
      assert coins - SpentBy(inputs[..0]) == coins;
    }
  }

  lemma {:induction false} TotalCreate(outputs: seq<TxOutput>, txid: Hash256, height: nat, coinbase: bool,
                                       coins: Utxos, n: nat)
    requires n <= |outputs| <= MAX_TRANSACTION_ITEMS
    requires AddOutputs(outputs, txid, height, coinbase, coins, n).0.Ok?
    ensures Total(AddOutputs(outputs, txid, height, coinbase, coins, n).1) == Total(coins) + ValueSum(outputs[..n])
  {
    if n > 0 {
      TotalCreate(outputs, txid, height, coinbase, coins, n - 1);
      ValueSumStep(outputs, n - 1);
      TotalAdd(AddOutputs(outputs, txid, height, coinbase, coins, n - 1).1, OutPoint(txid, n - 1),
               Coin(outputs[n - 1], height, coinbase));
    }
  }

  /** The money an applied transaction takes out of the set, its inputs, equals what it puts back plus its fee. */
  lemma {:induction false} SpendAndCreate(tx: Transaction, height: nat, coins: Utxos)
    requires CoinsInRange(coins) && StructureValid(tx)
    requires CheckInputs(tx, height, coins, |tx.inputs|).Ok?
    requires AddOutputs(tx.outputs, TxId(tx), height, false, coins - SpentBy(tx.inputs), |tx.outputs|).0.Ok?
    ensures Total(AddOutputs(tx.outputs, TxId(tx), height, false, coins - SpentBy(tx.inputs), |tx.outputs|).1)
         == Total(coins) - CheckInputs(tx, height, coins, |tx.inputs|).value + ValueSum(tx.outputs)
  {
    var n := |tx.inputs|;
    assert tx.inputs[..n] == tx.inputs && tx.outputs[..|tx.outputs|] == tx.outputs;
    CheckInputsMeaning(tx, height, coins, n);
    TotalSpend(tx.inputs, coins, n);
    TotalCreate(tx.outputs, TxId(tx), height, false, coins - SpentBy(tx.inputs), |tx.outputs|);
  }

  /** An applied transaction moves money but neither creates nor loses any: what leaves the set is its fee. */
  lemma {:induction false} ApplyConserves(tx: Transaction, height: nat, coins: Utxos)
    requires CoinsInRange(coins) && Apply(tx, height, coins).0.Ok?
    ensures var (fee, after) := Apply(tx, height, coins);
            && Total(after) + fee.value == Total(coins)
            && 0 <= fee.value <= MAX_MONEY
            && CoinsInRange(after)
  {
    SpendAndCreate(tx, height, coins);
    assert CheckInputs(tx, height, coins, |tx.inputs|).value <= MAX_MONEY by {
      CheckInputsMeaning(tx, height, coins, |tx.inputs|);
    }
    assert 0 <= ValueSum(tx.outputs) by {
      ValueSumPrefix(tx.outputs, 0);
    }
    AddedInRange(tx.outputs, TxId(tx), height, false, coins - SpentBy(tx.inputs), |tx.outputs|);
  }

  lemma {:induction false} AddedInRange(outputs: seq<TxOutput>, txid: Hash256, height: nat, coinbase: bool,
                                        coins: Utxos, n: nat)
    requires n <= |outputs| <= MAX_TRANSACTION_ITEMS && CoinsInRange(coins)
    requires forall i :: 0 <= i < |outputs| ==> MoneyRange(outputs[i].value)
    ensures CoinsInRange(AddOutputs(outputs, txid, height, coinbase, coins, n).1)
  {
    if n > 0 {
      AddedInRange(outputs, txid, height, coinbase, coins, n - 1);
    }
  }

  lemma {:induction false} AddCoinbaseCreates(coinbase: Transaction, height: nat, coins: Utxos)
    requires CoinsInRange(coins) && AddCoinbase(coinbase, height, coins).0.Ok?
    ensures var after := AddCoinbase(coinbase, height, coins).1;
            && Total(after) == Total(coins) + ValueSum(coinbase.outputs)
            && CoinsInRange(after)
            && after == coins + NewCoins(coinbase.outputs, TxId(coinbase), height, true, |coinbase.outputs|)
            && Fresh(TxId(coinbase), coins, |coinbase.outputs|)
  {
    assert coinbase.outputs[..|coinbase.outputs|] == coinbase.outputs;
    TotalCreate(coinbase.outputs, TxId(coinbase), height, true, coins, |coinbase.outputs|);
    AddedInRange(coinbase.outputs, TxId(coinbase), height, true, coins, |coinbase.outputs|);
    AddOutputsMeaning(coinbase.outputs, TxId(coinbase), height, true, coins, |coinbase.outputs|);
  }

  /** Different inputs cannot add up to more than the whole set, so on a set worth at most MAX_MONEY the
      input-total guard never fires. */
  lemma {:induction false} InputTotalNeverOverflows(tx: Transaction, height: nat, coins: Utxos)
    requires CoinsInRange(coins) && Total(coins) <= MAX_MONEY
    ensures Apply(tx, height, coins).0 != Err(InputTotalOverflow)
  {
    if Apply(tx, height, coins).0 == Err(InputTotalOverflow) {
      if CheckInputs(tx, height, coins, |tx.inputs|).Ok? {
        AddOutputsMeaning(tx.outputs, TxId(tx), height, false, coins - SpentBy(tx.inputs), |tx.outputs|);
      } else {
        CheckInputsNeverOverflows(tx, height, coins, |tx.inputs|);
      }
    }
  }

  lemma {:induction false} CheckInputsNeverOverflows(tx: Transaction, height: nat, coins: Utxos, n: nat)
    requires n <= |tx.inputs| && CoinsInRange(coins) && Total(coins) <= MAX_MONEY
    ensures CheckInputs(tx, height, coins, n) != Err(InputTotalOverflow)
  {
    hide VerifyP2pkInput, Total;
    if n > 0 && CheckInputs(tx, height, coins, n - 1).Ok? {
      var o := tx.inputs[n - 1].previousOutput;
      CheckInputsMeaning(tx, height, coins, n - 1);
      DistinctInputsStep(tx.inputs, n - 1);
      if o in coins && o !in SpentBy(tx.inputs[..n - 1]) {
        assert InputSum(tx.inputs, coins, n - 1) + coins[o].output.value <= MAX_MONEY by {
          TotalSpend(tx.inputs, coins, n);
          TotalNonNegative(coins - SpentBy(tx.inputs[..n]));
        }
      }
    } else if n > 0 {
      CheckInputsNeverOverflows(tx, height, coins, n - 1);
    }
  }
}
