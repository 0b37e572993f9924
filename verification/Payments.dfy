/** Building, pricing and signing a payment from a list of available coins (src/hd_wallet_backend.cpp, src/script.cpp). */
module Payments {
  import opened Amounts
  import opened Errors
  import opened Transactions
  import opened Scripts
  import opened Utxo
  import opened UtxoRules
  import opened Serialize
  import opened TransactionCodec
  import opened BlockCodec
  import opened Fees

  const RESERVED_SCRIPT_SIG: nat := 75

  datatype Available = Available(outpoint: OutPoint, coin: Coin, key: SecretKey)

  // ---------------------------------------------------------------- specification

  /** The items are different mature coins of the map, each with the key of its script. */
  ghost predicate Backed(items: seq<Available>, coins: Utxos, height: nat) {
    && (forall i :: 0 <= i < |items| ==>
          && items[i].outpoint in coins && coins[items[i].outpoint] == items[i].coin
          && Mature(items[i].coin, height)
          && MakeP2pkScript(PublicKeyOf(items[i].key)) == Ok(items[i].coin.output.scriptPubKey))
    && forall i, j :: 0 <= i < j < |items| ==> items[i].outpoint != items[j].outpoint
  }

  /** The foreign signer does its work for these keys. */
  ghost predicate AllSign(items: seq<Available>) {
    forall i, digest :: 0 <= i < |items| ==> SignerWorks(items[i].key, digest)
  }

  /** Unsigned inputs for the items. */
  function InputsFor(items: seq<Available>): (inputs: seq<TxInput>)
    ensures |inputs| == |items|
    ensures forall i :: 0 <= i < |items| ==> inputs[i] == TxInput(items[i].outpoint, [], NO_INDEX)
  {
    seq(|items|, i requires 0 <= i < |items| => TxInput(items[i].outpoint, [], NO_INDEX))
  }

  /** Every signature script at the size that is reserved for it. */
  function Reserved(inputs: seq<TxInput>): (padded: seq<TxInput>)
    ensures |padded| == |inputs|
    ensures forall i :: 0 <= i < |inputs| ==> |padded[i].scriptSig| == RESERVED_SCRIPT_SIG
  {
    seq(|inputs|, i requires 0 <= i < |inputs| => inputs[i].(scriptSig := [74] + seq(74, _ => 0)))
  }

  /** The fee for a transaction of this size. */
  ghost function FeeOf(tx: Transaction, rate: i64): Result<nat> {
    var bytes :- Serialized(tx);
    LayoutSize(tx);
    FeeFor(rate, |bytes|)
  }

  /** The fee for the transaction with every signature at its reserved size. */
  ghost function EstimatedFee(tx: Transaction, rate: i64): Result<nat> {
    FeeOf(tx.(inputs := Reserved(tx.inputs)), rate)
  }

  /** The unsigned transaction over the first n items, before any change is known. */
  ghost function Draft(items: seq<Available>, n: nat, amount: i64, destination: Script, change: Script): Transaction
    requires n <= |items|
  {
    Transaction(1, InputsFor(items[..n]), [TxOutput(amount, destination), TxOutput(0, change)], 0)
  }

  ghost function Worth(items: seq<Available>, n: nat): int
    requires n <= |items|
  {
    if n == 0 then 0 else Worth(items, n - 1) + items[n - 1].coin.output.value
  }

  /** The first n items pay for the amount and the estimated fee of spending them. */
  ghost predicate Suffices(items: seq<Available>, n: nat, amount: i64, destination: Script, change: Script, rate: i64)
    requires n <= |items|
  {
    var fee := EstimatedFee(Draft(items, n, amount, destination, change), rate);
    fee.Ok? && Worth(items, n) >= amount + fee.value
  }

  ghost predicate NoneSuffices(items: seq<Available>, amount: i64, destination: Script, change: Script, rate: i64) {
    forall m :: 0 < m <= |items| ==> !Suffices(items, m, amount, destination, change, rate)
  }

  /** The first n items suffice and fewer do not, so that the fee of spending them is the estimated one. */
  ghost predicate Cheapest(tx: Transaction, items: seq<Available>, amount: i64, destination: Script, change: Script, rate: i64) {
    var n := |tx.inputs|;
    && 0 < n <= |items| && SpendsFirst(tx, items)
    && Suffices(items, n, amount, destination, change, rate)
    && (forall m :: 0 < m < n ==> !Suffices(items, m, amount, destination, change, rate))
    && Worth(items, n) - ValueSum(tx.outputs) == EstimatedFee(Draft(items, n, amount, destination, change), rate).value
  }

  /** The same transaction up to its signature scripts. */
  ghost predicate SameButScripts(a: Transaction, b: Transaction) {
    && a.version == b.version && a.outputs == b.outputs && a.lockTime == b.lockTime && |a.inputs| == |b.inputs|
    && forall i :: 0 <= i < |a.inputs| ==> a.inputs[i] == b.inputs[i].(scriptSig := a.inputs[i].scriptSig)
  }

  /** What a payment hands over: the amount, and what is left beyond a fee that its own size warrants. */
  ghost predicate Pays(tx: Transaction, coins: Utxos, amount: i64, destination: Script, change: Script, rate: i64) {
    && StructureValid(tx)
    && (forall i :: 0 <= i < |tx.inputs| ==> tx.inputs[i].previousOutput in coins)
    && tx.outputs[0] == TxOutput(amount, destination)
    && (|tx.outputs| == 1 || (|tx.outputs| == 2 && tx.outputs[1].scriptPubKey == change && tx.outputs[1].value > 0))
    && FeeOf(tx, rate).Ok?
    && InputSum(tx.inputs, coins, |tx.inputs|) - ValueSum(tx.outputs) >= FeeOf(tx, rate).value
  }

  /** The inputs are the first of the items, in their order. */
  ghost predicate SpendsFirst(tx: Transaction, items: seq<Available>) {
    && |tx.inputs| <= |items|
    && forall i :: 0 <= i < |tx.inputs| ==> tx.inputs[i].previousOutput == items[i].outpoint
  }

  // ---------------------------------------------------------------- implementation

  method PriceOf(tx: Transaction, rate: i64) returns (r: Result<nat>)
    ensures r == FeeOf(tx, rate)
    ensures r != Err(FeeTooSmall) && r != Err(InsufficientFunds)
  {
    hide Layout, StructureValid;
    var bytes :- SerializeTransaction(tx);
    LayoutSize(tx);
    return FeeFor(rate, |bytes|);
  }

  /** Signs the inputs in turn. Signing one leaves the others' signatures valid, so in the end all are. */
  method SignAll(draft: Transaction, items: seq<Available>, ghost coins: Utxos, ghost height: nat)
    returns (r: Result<Transaction>)
    requires draft.inputs == InputsFor(items) && Backed(items, coins, height)
    ensures r.Ok? ==> SameButScripts(r.value, draft)
    ensures r.Err? ==> r.error == BadArgument
    ensures AllSign(items) ==>
              && r.Ok?
              && forall i :: 0 <= i < |items| ==>
                   |r.value.inputs[i].scriptSig| <= 74 && VerifyP2pkInput(r.value, i, items[i].coin.output.scriptPubKey)
  {
    hide VerifyP2pkInput, P2pkScriptSig, MakeP2pkScript;
    var tx := draft;
    for i := 0 to |items|
      invariant SameButScripts(tx, draft)
      invariant AllSign(items) ==> forall k :: 0 <= k < i ==>
        |tx.inputs[k].scriptSig| <= 74 && VerifyP2pkInput(tx, k, items[k].coin.output.scriptPubKey)
    {
      var script := items[i].coin.output.scriptPubKey;
      if AllSign(items) {
        SignedInputVerifies(tx, i, script, items[i].key);
      }
      ScriptSigRefused(tx, i, script, items[i].key);
      var scriptSig :- P2pkScriptSig(tx, i, script, items[i].key);
      forall k | 0 <= k < i
        ensures VerifyP2pkInput(WithScriptSig(tx, i, scriptSig), k, items[k].coin.output.scriptPubKey)
             == VerifyP2pkInput(tx, k, items[k].coin.output.scriptPubKey)
      {
        SigningKeepsOtherInputs(tx, i, scriptSig, k, items[k].coin.output.scriptPubKey);
      }
      tx := WithScriptSig(tx, i, scriptSig);
    }
    return Ok(tx);
  }

  /** Takes items in their order until they cover the amount and the fee of what has been built so far. */
  method Select(available: seq<Available>, amount: i64, destination: Script, change: Script, rate: i64,
                ghost coins: Utxos, ghost height: nat)
    returns (r: Result<(nat, seq<TxInput>, int)>)
    requires Backed(available, coins, height) && CoinsInRange(coins)
    ensures r != Err(FeeTooSmall)
    ensures r.Ok? ==> var (n, inputs, total) := r.value;
              && n <= |available| && inputs == InputsFor(available[..n])
              && (forall i :: 0 <= i < n ==> inputs[i].previousOutput in coins)
              && total == InputSum(inputs, coins, n) == Worth(available, n) && 0 <= total <= MAX_MONEY
              && (n == |available| || (0 < n && Suffices(available, n, amount, destination, change, rate)))
              && (forall m :: 0 < m < n ==> !Suffices(available, m, amount, destination, change, rate))
    ensures r.Err? ==> r.error != InsufficientFunds
  {
    hide FeeOf, MakeP2pkScript, InputSum;
    var inputs: seq<TxInput> := [];
    var total := 0;
    var n: nat := 0;
    NothingSelected(coins);
    while n < |available|
      invariant n <= |available| && inputs == InputsFor(available[..n])
      invariant forall i :: 0 <= i < n ==> inputs[i].previousOutput in coins
      invariant total == InputSum(inputs, coins, n) == Worth(available, n) && 0 <= total <= MAX_MONEY
      invariant forall m :: 0 < m <= n ==> !Suffices(available, m, amount, destination, change, rate)
    {
      var item := available[n];
      assert available[..n + 1] == available[..n] + [item];
      OneMoreInput(inputs, TxInput(item.outpoint, [], NO_INDEX), coins);
      inputs := inputs + [TxInput(item.outpoint, [], NO_INDEX)];
      n := n + 1;
      if total > MAX_MONEY - item.coin.output.value {
        return Err(InputTotalOverflow);
      }
      total := total + item.coin.output.value;
      var draft := Transaction(1, inputs, [TxOutput(amount, destination), TxOutput(0, change)], 0);
      var estimated :- PriceOf(draft.(inputs := Reserved(inputs)), rate);
      if total >= amount && total - amount >= estimated {
        break;
      }
    }
    return Ok((n, inputs, total));
  }

  /** The amount, and what is left for the change script if it is not nothing. */
  function Outputs(amount: i64, destination: Script, left: i64, change: Script): seq<TxOutput> {
    if left == 0 then [TxOutput(amount, destination)] else [TxOutput(amount, destination), TxOutput(left, change)]
  }

  /** How many items to spend, the fee to reserve for that, and what is left. */
  method Plan(available: seq<Available>, amount: i64, destination: Script, change: Script, rate: i64,
              ghost coins: Utxos, ghost height: nat)
    returns (r: Result<(nat, nat, i64)>)
    requires 0 < amount <= MAX_MONEY
    requires Backed(available, coins, height) && CoinsInRange(coins)
    ensures r != Err(FeeTooSmall)
    ensures r.Ok? ==> var (n, reserved, left) := r.value;
              && 0 < n <= |available| && 0 <= left
              && Suffices(available, n, amount, destination, change, rate)
              && (forall m :: 0 < m < n ==> !Suffices(available, m, amount, destination, change, rate))
              && EstimatedFee(Draft(available, n, amount, destination, change), rate) == Ok(reserved)
              && Worth(available, n) == amount + reserved + left <= MAX_MONEY
              && (forall i :: 0 <= i < n ==> available[i].outpoint in coins)
              && InputSum(InputsFor(available[..n]), coins, n) == Worth(available, n)
    ensures r == Err(InsufficientFunds) ==> NoneSuffices(available, amount, destination, change, rate)
  {
    hide FeeOf, InputSum, MakeP2pkScript, Mature;
    var selected :- Select(available, amount, destination, change, rate, coins, height);
    var (n, inputs, total) := selected;
    if total < amount {
      return Err(InsufficientFunds);
    }
    var unsigned := Transaction(1, inputs, [TxOutput(amount, destination), TxOutput(0, change)], 0);
    assert unsigned == Draft(available, n, amount, destination, change);
    var reserved :- PriceOf(unsigned.(inputs := Reserved(inputs)), rate);
    if total < amount + reserved {
      return Err(InsufficientFunds);
    }
    return Ok((n, reserved, total - amount - reserved));
  }

  /** A payment of the amount to the destination, with change above zero going to the change script. What is returned
      pays its own fee; if the signer works it is acceptable to the ledger on the same coins at the same height, and the
      final check of the fee cannot fail. It is refused for lack of funds only if no number of the items suffices. */
  method BuildPayment(available: seq<Available>, amount: i64, destination: Script, change: Script, rate: i64,
                      ghost coins: Utxos, ghost height: nat)
    returns (r: Result<Transaction>)
    requires 0 < amount <= MAX_MONEY
    requires Backed(available, coins, height) && CoinsInRange(coins)
    ensures r.Ok? ==> Pays(r.value, coins, amount, destination, change, rate)
                      && Cheapest(r.value, available, amount, destination, change, rate)
    ensures r == Err(InsufficientFunds) ==> NoneSuffices(available, amount, destination, change, rate)
    ensures r.Ok? && AllSign(available) && NULL_OUTPOINT !in coins
            && Fresh(TxId(r.value), coins - SpentBy(r.value.inputs), |r.value.outputs|) ==>
              Acceptable(r.value, height, coins)
    ensures AllSign(available) ==> r != Err(FeeTooSmall)
  {
    hide FeeOf, EstimatedFee, InputSum, ValueSum, Acceptable, InputsSpendable, Fresh, MakeP2pkScript, VerifyP2pkInput,
         Suffices, Worth, Backed, AllSign, StructureValid;
    var plan :- Plan(available, amount, destination, change, rate, coins, height);
    var (n, reserved, left) := plan;
    var items := available[..n];
    var draft := Transaction(1, InputsFor(items), Outputs(amount, destination, left, change), 0);
    PrefixBacked(available, n, coins, height);
    var tx :- SignAll(draft, items, coins, height);
    var fee :- PriceOf(tx, rate);
    PricedIsValid(tx, rate);
    OutputsSum(amount, destination, left, change);
    SameInputs(draft.inputs, tx.inputs, coins, n);
    if AllSign(available) {
      SignedFeeFits(available, n, amount, destination, change, rate, left, tx);
    }
    if reserved < fee {
      return Err(FeeTooSmall);
    }
    if AllSign(available) && NULL_OUTPOINT !in coins && Fresh(TxId(tx), coins - SpentBy(tx.inputs), |tx.outputs|) {
      SignedIsAcceptable(tx, items, coins, height, Worth(available, n));
    }
    return Ok(tx);
  }

  lemma {:induction false} ScriptSigRefused(tx: Transaction, index: nat, script: Script, key: SecretKey)
    requires index < |tx.inputs|
    ensures var r := P2pkScriptSig(tx, index, script, key);
            r.Err? ==> r.error == BadArgument
  {
    hide SignatureHashAll, IsP2pkScript;
  }

  // ---------------------------------------------------------------- selection lemmas

  lemma {:induction false} NothingSelected(coins: Utxos)
    ensures InputSum([], coins, 0) == 0
  {
  }

  lemma {:induction false} OneMoreInput(inputs: seq<TxInput>, next: TxInput, coins: Utxos)
    requires next.previousOutput in coins && forall i :: 0 <= i < |inputs| ==> inputs[i].previousOutput in coins
    ensures InputSum(inputs + [next], coins, |inputs| + 1)
         == InputSum(inputs, coins, |inputs|) + coins[next.previousOutput].output.value
  {
    SameInputs(inputs, inputs + [next], coins, |inputs|);
  }

  lemma {:induction false} SameInputs(a: seq<TxInput>, b: seq<TxInput>, coins: Utxos, n: nat)
    requires n <= |a| && n <= |b|
    requires forall i :: 0 <= i < n ==> a[i].previousOutput == b[i].previousOutput && a[i].previousOutput in coins
    ensures InputSum(a, coins, n) == InputSum(b, coins, n)
  {
    if n > 0 {
      SameInputs(a, b, coins, n - 1);
    }
  }

  lemma {:induction false} PrefixBacked(items: seq<Available>, n: nat, coins: Utxos, height: nat)
    requires Backed(items, coins, height) && n <= |items|
    ensures Backed(items[..n], coins, height) && (AllSign(items) ==> AllSign(items[..n]))
  {
    hide MakeP2pkScript, SignerWorks, Mature;
    forall i, digest | 0 <= i < n && AllSign(items)
      ensures SignerWorks(items[..n][i].key, digest)
    {
      assert items[..n][i] == items[i];
    }
  }

  lemma {:induction false} OutputsSum(amount: i64, destination: Script, left: i64, change: Script)
    requires 0 <= left
    ensures ValueSum(Outputs(amount, destination, left, change)) == amount + left
  {
    var outputs := Outputs(amount, destination, left, change);
    var first := [TxOutput(amount, destination)];
    assert outputs[..1] == first && first[..0] == [];
    assert ValueSum(first) == amount;
  }

  lemma {:induction false} PricedIsValid(tx: Transaction, rate: i64)
    requires FeeOf(tx, rate).Ok?
    ensures StructureValid(tx)
  {
    hide FeeFor, StructureValid;
  }

  // ---------------------------------------------------------------- sizes

  lemma {:induction false} InputSize(input: TxInput)
    requires |input.scriptSig| < 253
    ensures |InputBytes(input)| == 41 + |input.scriptSig|
  {
    hide LittleEndian;
  }

  lemma {:induction false} InputsNotLarger(a: seq<TxInput>, b: seq<TxInput>)
    requires |a| == |b| && InputsFit(a) && InputsFit(b)
    requires forall i :: 0 <= i < |a| ==> |a[i].scriptSig| <= |b[i].scriptSig| < 253
    ensures |InputListBytes(a)| <= |InputListBytes(b)|
  {
    hide InputBytes;
    if |a| > 0 {
      var n := |a| - 1;
      InputsNotLarger(a[..n], b[..n]);
      InputSize(a[n]);
      InputSize(b[n]);
    }
  }

  lemma {:induction false} OutputsNotLarger(a: seq<TxOutput>, b: seq<TxOutput>)
    requires 1 <= |a| <= |b| == 2 && OutputsFit(a) && OutputsFit(b)
    requires forall i :: 0 <= i < |a| ==> a[i].scriptPubKey == b[i].scriptPubKey
    ensures |OutputListBytes(a)| <= |OutputListBytes(b)|
  {
    hide OutputBytes;
    TwoOutputs(b);
    if |a| == 2 {
      TwoOutputs(a);
    } else {
      assert a[..0] == [];
    }
    OutputSize(a[0], b[0]);
    OutputSize(a[|a| - 1], b[|a| - 1]);
  }

  lemma {:induction false} TwoOutputs(outputs: seq<TxOutput>)
    requires |outputs| == 2 && OutputsFit(outputs)
    ensures OutputListBytes(outputs) == OutputBytes(outputs[0]) + OutputBytes(outputs[1])
  {
    hide OutputBytes;
    assert outputs[..1][..0] == [];
    assert OutputListBytes(outputs[..1]) == OutputBytes(outputs[0]);
  }

  lemma {:induction false} OutputSize(a: TxOutput, b: TxOutput)
    requires a.scriptPubKey == b.scriptPubKey && |a.scriptPubKey| <= MAX_SCRIPT_SIZE
    ensures |OutputBytes(a)| == |OutputBytes(b)|
  {
    hide LittleEndian;
  }

  lemma {:induction false} ReservedSize(inputs: seq<TxInput>)
    requires InputsFit(inputs) && forall i :: 0 <= i < |inputs| ==> |inputs[i].scriptSig| == RESERVED_SCRIPT_SIG
    ensures |InputListBytes(inputs)| == 116 * |inputs|
  {
    hide InputBytes;
    if |inputs| > 0 {
      ReservedSize(inputs[..|inputs| - 1]);
      InputSize(inputs[|inputs| - 1]);
    }
  }

  /** The size that is priced: 116 bytes for each input, with scripts of 35 bytes 44 for each of the two outputs, and ten
      for the rest as long as the inputs are counted in one byte. */
  lemma {:induction false} EstimateExactly(tx: Transaction, rate: i64)
    requires EstimatedFee(tx, rate).Ok? && |tx.outputs| == 2 && |tx.inputs| < 253
    requires |tx.outputs[0].scriptPubKey| == 35 && |tx.outputs[1].scriptPubKey| == 35
    ensures EstimatedFee(tx, rate) == FeeFor(rate, 98 + 116 * |tx.inputs|)
  {
    hide FeeFor, InputListBytes, OutputListBytes, LittleEndian, ValuesInRange;
    var padded := tx.(inputs := Reserved(tx.inputs));
    ReservedSize(padded.inputs);
    TwoOutputs(tx.outputs);
    ShortOutput(tx.outputs[0]);
    ShortOutput(tx.outputs[1]);
    LayoutSize(padded);
  }

  lemma {:induction false} ShortOutput(output: TxOutput)
    requires |output.scriptPubKey| == 35
    ensures |OutputBytes(output)| == 44
  {
    hide LittleEndian;
  }

  /** The estimate is made with scripts of 75 bytes and both outputs, so the signed transaction is never larger, and its
      fee never exceeds the reserved one. */
  lemma {:induction false} NeverUnderestimated(estimate: Transaction, tx: Transaction, rate: i64)
    requires FeeOf(estimate, rate).Ok? && FeeOf(tx, rate).Ok?
    requires |tx.inputs| == |estimate.inputs| && 1 <= |tx.outputs| <= |estimate.outputs| == 2
    requires forall i :: 0 <= i < |tx.inputs| ==> |tx.inputs[i].scriptSig| <= 74 && |estimate.inputs[i].scriptSig| == 75
    requires forall i :: 0 <= i < |tx.outputs| ==> tx.outputs[i].scriptPubKey == estimate.outputs[i].scriptPubKey
    ensures FeeOf(tx, rate).value <= FeeOf(estimate, rate).value
  {
    hide FeeFor, InputListBytes, OutputListBytes, LittleEndian, ValuesInRange;
    InputsNotLarger(tx.inputs, estimate.inputs);
    OutputsNotLarger(tx.outputs, estimate.outputs);
    LayoutSize(tx);
    LayoutSize(estimate);
    FeeMonotone(rate, |Layout(tx)|, |Layout(estimate)|);
  }

  lemma {:induction false} SignedFeeFits(items: seq<Available>, n: nat, amount: i64, destination: Script, change: Script,
                                         rate: i64, left: i64, tx: Transaction)
    requires 0 < n <= |items| && EstimatedFee(Draft(items, n, amount, destination, change), rate).Ok?
    requires |tx.inputs| == n && tx.outputs == Outputs(amount, destination, left, change)
    requires forall i :: 0 <= i < n ==> |tx.inputs[i].scriptSig| <= 74
    requires FeeOf(tx, rate).Ok?
    ensures FeeOf(tx, rate).value <= EstimatedFee(Draft(items, n, amount, destination, change), rate).value
  {
    hide FeeOf;
    var draft := Draft(items, n, amount, destination, change);
    NeverUnderestimated(draft.(inputs := Reserved(draft.inputs)), tx, rate);
  }

  // ---------------------------------------------------------------- acceptance

  lemma {:induction false} SignedIsAcceptable(tx: Transaction, items: seq<Available>, coins: Utxos, height: nat, total: int)
    requires Backed(items, coins, height) && |tx.inputs| == |items| && StructureValid(tx)
    requires forall i :: 0 <= i < |items| ==>
               tx.inputs[i].previousOutput == items[i].outpoint
               && VerifyP2pkInput(tx, i, items[i].coin.output.scriptPubKey)
    requires total == InputSum(tx.inputs, coins, |tx.inputs|) && ValueSum(tx.outputs) <= total <= MAX_MONEY
    requires NULL_OUTPOINT !in coins && Fresh(TxId(tx), coins - SpentBy(tx.inputs), |tx.outputs|)
    ensures Acceptable(tx, height, coins)
  {
    hide VerifyP2pkInput, MakeP2pkScript, Mature, StructureValid, InputSum, ValueSum, Fresh;
    assert tx.inputs[..|tx.inputs|] == tx.inputs;
    assert !IsCoinbase(tx) by {
      if |items| == 1 {
        assert tx.inputs[0].previousOutput in coins;
      }
    }
  }
}
