/** The UTXO set and the application of one transaction to it (src/utxo.cpp). */
module Utxo {
  import opened Amounts
  import opened Errors
  import opened Transactions
  import opened Scripts

  datatype Coin = Coin(output: TxOutput, height: nat, coinbase: bool)
  type Utxos = map<OutPoint, Coin>

  /** The mutable map the source passes by reference. */
  class UtxoSet {
    var coins: Utxos

    constructor (coins: Utxos)
      ensures this.coins == coins
    {
      this.coins := coins;
    }
  }

  predicate Mature(coin: Coin, height: nat) {
    coin.coinbase ==> height >= coin.height + COINBASE_MATURITY
  }

  ghost function SpentBy(inputs: seq<TxInput>): set<OutPoint> {
    set i | 0 <= i < |inputs| :: inputs[i].previousOutput
  }

  // ---------------------------------------------------------------- specification

  /** The running input total after the first n inputs have passed their checks, or the first failure. */
  ghost function CheckInputs(tx: Transaction, height: nat, coins: Utxos, n: nat): Result<int>
    requires n <= |tx.inputs|
  {
    if n == 0 then Ok(0) else
    var total :- CheckInputs(tx, height, coins, n - 1);
    var outpoint := tx.inputs[n - 1].previousOutput;
    if outpoint in SpentBy(tx.inputs[..n - 1]) then Err(DuplicateInput)
    else if outpoint !in coins then Err(MissingInput)
    else if !Mature(coins[outpoint], height) then Err(ImmatureCoinbase)
    else if !VerifyP2pkInput(tx, n - 1, coins[outpoint].output.scriptPubKey) then Err(BadSignature)
    else if total > MAX_MONEY - coins[outpoint].output.value then Err(InputTotalOverflow)
    else Ok(total + coins[outpoint].output.value)
  }

  /** Outputs are inserted one by one, so a collision leaves the earlier ones behind. */
  ghost function AddOutputs(outputs: seq<TxOutput>, txid: Hash256, height: nat, coinbase: bool, coins: Utxos, n: nat)
    : (Result<()>, Utxos)
    requires n <= |outputs| <= MAX_TRANSACTION_ITEMS
  {
    if n == 0 then (Ok(()), coins) else
    var (r, added) := AddOutputs(outputs, txid, height, coinbase, coins, n - 1);
    if r.Err? then (r, added)
    else if OutPoint(txid, n - 1) in added then (Err(DuplicateOutput), added)
    else (r, added[OutPoint(txid, n - 1) := Coin(outputs[n - 1], height, coinbase)])
  }

  /** The fee, or the failure, and the UTXO map that is left behind in either case. */
  ghost function Apply(tx: Transaction, height: nat, coins: Utxos): (Result<int>, Utxos) {
    if !StructureValid(tx) then (Err(BadStructure), coins)
    else if IsCoinbase(tx) then (Err(CoinbaseNotRegular), coins)
    else
      var checked := CheckInputs(tx, height, coins, |tx.inputs|);
      if checked.Err? then (checked, coins)
      else if checked.value < ValueSum(tx.outputs) then (Err(SpendsTooMuch), coins)
      else
        var (r, added) := AddOutputs(tx.outputs, TxId(tx), height, false, coins - SpentBy(tx.inputs), |tx.outputs|);
        (if r.Err? then Err(r.error) else Ok(checked.value - ValueSum(tx.outputs)), added)
  }

  /** Coinbase outputs enter the set after the transaction's identifier has been computed. */
  ghost function AddCoinbase(coinbase: Transaction, height: nat, coins: Utxos): (Result<()>, Utxos) {
    if !StructureValid(coinbase) then (Err(BadStructure), coins)
    else AddOutputs(coinbase.outputs, TxId(coinbase), height, true, coins, |coinbase.outputs|)
  }

  // ---------------------------------------------------------------- implementation

  method AddOutputsTo(outputs: seq<TxOutput>, txid: Hash256, height: nat, coinbase: bool, utxos: UtxoSet)
    returns (r: Result<()>)
    requires |outputs| <= MAX_TRANSACTION_ITEMS
    modifies utxos
    ensures (r, utxos.coins) == AddOutputs(outputs, txid, height, coinbase, old(utxos.coins), |outputs|)
  {
    for i := 0 to |outputs|
      invariant (Ok(()), utxos.coins) == AddOutputs(outputs, txid, height, coinbase, old(utxos.coins), i)
    {
      var outpoint := OutPoint(txid, i);
      if outpoint in utxos.coins {
        AddOutputsStops(outputs, txid, height, coinbase, old(utxos.coins), i + 1, |outputs|);
        return Err(DuplicateOutput);
      }
      utxos.coins := utxos.coins[outpoint := Coin(outputs[i], height, coinbase)];
    }
    return Ok(());
  }

  method SumCheckedInputs(tx: Transaction, height: nat, utxos: UtxoSet) returns (r: Result<int>)
    ensures r == CheckInputs(tx, height, utxos.coins, |tx.inputs|)
  {
    hide VerifyP2pkInput, SpentBy;
    NothingSpent(tx.inputs);
    var seen: set<OutPoint> := {};
    var inputTotal := 0;
    for i := 0 to |tx.inputs|
      invariant seen == SpentBy(tx.inputs[..i])
      invariant CheckInputs(tx, height, utxos.coins, i) == Ok(inputTotal)
    {
      var outpoint := tx.inputs[i].previousOutput;
      CheckInputsStops(tx, height, utxos.coins, i + 1, |tx.inputs|);
      if outpoint in seen {
        return Err(DuplicateInput);
      }
      SpentByStep(tx.inputs, i);
      seen := seen + {outpoint};
      if outpoint !in utxos.coins {
        return Err(MissingInput);
      }
      var coin := utxos.coins[outpoint];
      if coin.coinbase && height < coin.height + COINBASE_MATURITY {
        return Err(ImmatureCoinbase);
      }
      if !VerifyP2pkInput(tx, i, coin.output.scriptPubKey) {
        return Err(BadSignature);
      }
      if inputTotal > MAX_MONEY - coin.output.value {
        return Err(InputTotalOverflow);
      }
      inputTotal := inputTotal + coin.output.value;
    }
    return Ok(inputTotal);
  }

  method EraseInputs(inputs: seq<TxInput>, utxos: UtxoSet)
    modifies utxos
    ensures utxos.coins == old(utxos.coins) - SpentBy(inputs)
  {
    for i := 0 to |inputs|
      invariant utxos.coins == old(utxos.coins) - SpentBy(inputs[..i])
    {
      SpentByStep(inputs, i);
      utxos.coins := utxos.coins - {inputs[i].previousOutput};
    }
    assert inputs[..|inputs|] == inputs;
  }

  method ApplyTransaction(tx: Transaction, height: nat, utxos: UtxoSet) returns (r: Result<int>)
    modifies utxos
    ensures (r, utxos.coins) == Apply(tx, height, old(utxos.coins))
  {
    var valid := ValidateStructure(tx);
    if valid.Err? {
      return Err(valid.error);
    }
    if IsCoinbase(tx) {
      return Err(CoinbaseNotRegular);
    }
    var inputTotal :- SumCheckedInputs(tx, height, utxos);
    var sum := SumOutputs(tx);
    var outputTotal := sum.value;
    if inputTotal < outputTotal {
      return Err(SpendsTooMuch);
    }
    EraseInputs(tx.inputs, utxos);
    var added := AddOutputsTo(tx.outputs, TxId(tx), height, false, utxos);
    if added.Err? {
      return Err(added.error);
    }
    return Ok(inputTotal - outputTotal);
  }

  method AddCoinbaseOutputs(coinbase: Transaction, height: nat, utxos: UtxoSet) returns (r: Result<()>)
    modifies utxos
    ensures (r, utxos.coins) == AddCoinbase(coinbase, height, old(utxos.coins))
  {
    var valid := ValidateStructure(coinbase);
    if valid.Err? {
      return valid;
    }
    r := AddOutputsTo(coinbase.outputs, TxId(coinbase), height, true, utxos);
  }

  // ---------------------------------------------------------------- loop lemmas

  lemma {:induction false} SpentByStep(inputs: seq<TxInput>, n: nat)
    requires n < |inputs|
    ensures SpentBy(inputs[..n + 1]) == SpentBy(inputs[..n]) + {inputs[n].previousOutput}
  {
    var longer := inputs[..n + 1];
    forall o | o in SpentBy(inputs[..n]) + {inputs[n].previousOutput}
      ensures o in SpentBy(longer)
    {
      if o == inputs[n].previousOutput {
        assert longer[n].previousOutput == o;
      } else {
        var i :| 0 <= i < n && inputs[..n][i].previousOutput == o;
        assert longer[i].previousOutput == o;
      }
    }
    forall o | o in SpentBy(longer)
      ensures o in SpentBy(inputs[..n]) + {inputs[n].previousOutput}
    {
      var i :| 0 <= i < n + 1 && longer[i].previousOutput == o;
      if i < n {
        assert inputs[..n][i].previousOutput == o;
      }
    }
  }

  lemma {:induction false} NothingSpent(inputs: seq<TxInput>)
    ensures SpentBy(inputs[..0]) == {}
  {
  }

  /** The first failing input decides the result. */
  lemma {:induction false} CheckInputsStops(tx: Transaction, height: nat, coins: Utxos, m: nat, n: nat)
    requires m <= n <= |tx.inputs|
    ensures CheckInputs(tx, height, coins, m).Err? ==>
              CheckInputs(tx, height, coins, n) == CheckInputs(tx, height, coins, m)
    decreases n
  {
    if m < n {
      CheckInputsStops(tx, height, coins, m, n - 1);
    }
  }

  lemma {:induction false} AddOutputsStops(outputs: seq<TxOutput>, txid: Hash256, height: nat, coinbase: bool,
                                           coins: Utxos, m: nat, n: nat)
    requires m <= n <= |outputs| <= MAX_TRANSACTION_ITEMS
    ensures AddOutputs(outputs, txid, height, coinbase, coins, m).0.Err? ==>
              AddOutputs(outputs, txid, height, coinbase, coins, n) ==
              AddOutputs(outputs, txid, height, coinbase, coins, m)
    decreases n
  {
    if m < n {
      AddOutputsStops(outputs, txid, height, coinbase, coins, m, n - 1);
    }
  }
}
