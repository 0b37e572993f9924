/** Transactions and the checks made on their shape (src/transaction.hpp, src/transaction.cpp). */
module Transactions {
  import opened Amounts
  import opened Errors

  const TWO_16 := 0x1_0000
  const TWO_32 := 0x1_0000_0000
  const TWO_64 := 0x1_0000_0000_0000_0000
  const TWO_256 := 0x1_0000000000000000_0000000000000000_0000000000000000_0000000000000000

  type byte = n: int | 0 <= n < 256
  type u32 = n: int | 0 <= n < TWO_32
  type u64 = n: int | 0 <= n < TWO_64
  type i32 = n: int | -0x8000_0000 <= n < 0x8000_0000
  type i64 = n: int | -0x8000_0000_0000_0000 <= n < 0x8000_0000_0000_0000

  /** A 256-bit hash, as the number its 64 display digits denote. The all-zero text is 0. */
  type Hash256 = n: int | 0 <= n < TWO_256

  type Script = seq<byte>

  datatype OutPoint = OutPoint(txid: Hash256, index: u32)
  datatype TxInput = TxInput(previousOutput: OutPoint, scriptSig: Script, sequence: u32)
  datatype TxOutput = TxOutput(value: i64, scriptPubKey: Script)
  datatype Transaction = Transaction(version: i32, inputs: seq<TxInput>, outputs: seq<TxOutput>, lockTime: u32)

  const MAX_TRANSACTION_ITEMS := 100_000
  const MAX_SCRIPT_SIZE := 10_000
  const NO_INDEX: u32 := 0xffff_ffff
  const NULL_OUTPOINT := OutPoint(0, NO_INDEX)

  /** The transaction identifier: double SHA-256 of the serialisation, left uninterpreted. */
  const TxId: Transaction -> Hash256

  predicate IsCoinbase(tx: Transaction) {
    |tx.inputs| == 1 && tx.inputs[0].previousOutput == NULL_OUTPOINT
  }

  function ValueSum(outputs: seq<TxOutput>): int {
    if |outputs| == 0 then 0 else ValueSum(outputs[..|outputs| - 1]) + outputs[|outputs| - 1].value
  }

  /** Every value lies in the money range, and so does their total. */
  ghost predicate ValuesInRange(outputs: seq<TxOutput>) {
    (forall i :: 0 <= i < |outputs| ==> MoneyRange(outputs[i].value)) && ValueSum(outputs) <= MAX_MONEY
  }

  ghost predicate StructureValid(tx: Transaction) {
    && 0 < |tx.inputs| <= MAX_TRANSACTION_ITEMS
    && 0 < |tx.outputs| <= MAX_TRANSACTION_ITEMS
    && (forall i :: 0 <= i < |tx.inputs| ==> |tx.inputs[i].scriptSig| <= MAX_SCRIPT_SIZE)
    && (forall i :: 0 <= i < |tx.outputs| ==> |tx.outputs[i].scriptPubKey| <= MAX_SCRIPT_SIZE)
    && ValuesInRange(tx.outputs)
  }

  /** Partial totals of non-negative values never exceed the whole. */
  lemma {:induction false} ValueSumPrefix(outputs: seq<TxOutput>, n: nat)
    requires n <= |outputs|
    requires forall i :: 0 <= i < |outputs| ==> outputs[i].value >= 0
    ensures 0 <= ValueSum(outputs[..n]) <= ValueSum(outputs)
    decreases |outputs|
  {
    if n == |outputs| {
      assert outputs[..n] == outputs;
      if n > 0 {
        ValueSumPrefix(outputs[..n - 1], n - 1);
        assert outputs[..n - 1][..n - 1] == outputs[..n - 1];
      }
    } else {
      var shorter := outputs[..|outputs| - 1];
      ValueSumPrefix(shorter, n);
      assert shorter[..n] == outputs[..n];
    }
  }

  lemma {:induction false} ValueSumStep(outputs: seq<TxOutput>, n: nat)
    requires n < |outputs|
    ensures ValueSum(outputs[..n + 1]) == ValueSum(outputs[..n]) + outputs[n].value
  {
    assert outputs[..n + 1][..n] == outputs[..n];
  }

  /** The checks of validate_transaction_structure, in their order. */
  method ValidateStructure(tx: Transaction) returns (r: Result<()>)
    ensures r == if StructureValid(tx) then Ok(()) else Err(BadStructure)
  {
    if |tx.inputs| == 0 || |tx.outputs| == 0 {
      return Err(BadStructure);
    }
    if |tx.inputs| > MAX_TRANSACTION_ITEMS || |tx.outputs| > MAX_TRANSACTION_ITEMS {
      return Err(BadStructure);
    }
    for i := 0 to |tx.inputs|
      invariant forall k :: 0 <= k < i ==> |tx.inputs[k].scriptSig| <= MAX_SCRIPT_SIZE
    {
      if |tx.inputs[i].scriptSig| > MAX_SCRIPT_SIZE {
        return Err(BadStructure);
      }
    }
    var total := 0;
    for i := 0 to |tx.outputs|
      invariant forall k :: 0 <= k < i ==>
        MoneyRange(tx.outputs[k].value) && |tx.outputs[k].scriptPubKey| <= MAX_SCRIPT_SIZE
      invariant total == ValueSum(tx.outputs[..i]) <= MAX_MONEY
    {
      var output := tx.outputs[i];
      if !MoneyRange(output.value) || |output.scriptPubKey| > MAX_SCRIPT_SIZE {
        return Err(BadStructure);
      }
      ValueSumStep(tx.outputs, i);
      if total > MAX_MONEY - output.value {
        TotalTooLarge(tx.outputs, i + 1);
        return Err(BadStructure);
      }
      total := total + output.value;
    }
    assert tx.outputs[..|tx.outputs|] == tx.outputs;
    return Ok(());
  }

  lemma {:induction false} TotalTooLarge(outputs: seq<TxOutput>, n: nat)
    requires n <= |outputs| && ValueSum(outputs[..n]) > MAX_MONEY
    ensures !ValuesInRange(outputs)
  {
    if ValuesInRange(outputs) {
      ValueSumPrefix(outputs, n);
    }
  }

  /** The total paid by a transaction, refused as soon as a value or a partial total leaves the money range. */
  method SumOutputs(tx: Transaction) returns (r: Result<int>)
    ensures r == if ValuesInRange(tx.outputs) then Ok(ValueSum(tx.outputs)) else Err(OutputTotalOutsideRange)
  {
    var total := 0;
    for i := 0 to |tx.outputs|
      invariant forall k :: 0 <= k < i ==> MoneyRange(tx.outputs[k].value)
      invariant total == ValueSum(tx.outputs[..i]) <= MAX_MONEY
    {
      ValueSumStep(tx.outputs, i);
      if !MoneyRange(tx.outputs[i].value) {
        return Err(OutputTotalOutsideRange);
      }
      if total > MAX_MONEY - tx.outputs[i].value {
        TotalTooLarge(tx.outputs, i + 1);
        return Err(OutputTotalOutsideRange);
      }
      total := total + tx.outputs[i].value;
    }
    assert tx.outputs[..|tx.outputs|] == tx.outputs;
    return Ok(total);
  }
}
