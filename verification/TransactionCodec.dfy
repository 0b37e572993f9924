/** The byte form of transactions and its reading (src/transaction.cpp). */
module TransactionCodec {
  import opened Amounts
  import opened Errors
  import opened Transactions
  import opened Serialize

  // ---------------------------------------------------------------- specification

  function ScriptBytes(script: Script): Bytes
    requires |script| <= MAX_SCRIPT_SIZE
  {
    CompactSize(|script|) + script
  }

  function InputBytes(input: TxInput): Bytes
    requires |input.scriptSig| <= MAX_SCRIPT_SIZE
  {
    LittleEndian(input.previousOutput.txid, 32) + (LittleEndian(input.previousOutput.index, 4)
      + (ScriptBytes(input.scriptSig) + LittleEndian(input.sequence, 4)))
  }

  function OutputBytes(output: TxOutput): Bytes
    requires |output.scriptPubKey| <= MAX_SCRIPT_SIZE
  {
    LittleEndian(Unsigned64(output.value), 8) + ScriptBytes(output.scriptPubKey)
  }

  ghost predicate InputsFit(inputs: seq<TxInput>) {
    forall i :: 0 <= i < |inputs| ==> |inputs[i].scriptSig| <= MAX_SCRIPT_SIZE
  }

  ghost predicate OutputsFit(outputs: seq<TxOutput>) {
    forall i :: 0 <= i < |outputs| ==> |outputs[i].scriptPubKey| <= MAX_SCRIPT_SIZE
  }

  ghost function InputListBytes(inputs: seq<TxInput>): Bytes
    requires InputsFit(inputs)
  {
    if inputs == [] then []
    else InputListBytes(inputs[..|inputs| - 1]) + InputBytes(inputs[|inputs| - 1])
  }

  ghost function OutputListBytes(outputs: seq<TxOutput>): Bytes
    requires OutputsFit(outputs)
  {
    if outputs == [] then []
    else OutputListBytes(outputs[..|outputs| - 1]) + OutputBytes(outputs[|outputs| - 1])
  }

  /** The layout, for anything within the item and script limits. */
  ghost function Layout(tx: Transaction): Bytes
    requires Fits(tx)
  {
    LittleEndian(Unsigned32(tx.version), 4) + (CompactSize(|tx.inputs|) + (InputListBytes(tx.inputs)
      + (CompactSize(|tx.outputs|) + (OutputListBytes(tx.outputs) + LittleEndian(tx.lockTime, 4)))))
  }

  ghost predicate Fits(tx: Transaction) {
    && |tx.inputs| <= MAX_TRANSACTION_ITEMS && |tx.outputs| <= MAX_TRANSACTION_ITEMS
    && InputsFit(tx.inputs) && OutputsFit(tx.outputs)
  }

  /** Only transactions of valid structure are serialised. */
  ghost function Serialized(tx: Transaction): Result<Bytes> {
    if StructureValid(tx) then Ok(Layout(tx)) else Err(BadStructure)
  }

  function ReadScript(input: Bytes, offset: nat): Result<(Script, nat)> {
    var (size, o) :- ReadCompactSize(input, offset);
    if size > MAX_SCRIPT_SIZE then Err(LimitExceeded) else ReadBytes(input, o, size)
  }

  function ReadInput(input: Bytes, offset: nat): Result<(TxInput, nat)> {
    var (txid, o1) :- ReadInteger(input, offset, 32);
    var (index, o2) :- ReadInteger(input, o1, 4);
    var (script, o3) :- ReadScript(input, o2);
    var (sequence, o4) :- ReadInteger(input, o3, 4);
    IntegerInRange(input[offset..o1]);
    IntegerInRange(input[o1..o2]);
    IntegerInRange(input[o3..o4]);
    Ok((TxInput(OutPoint(txid, index), script, sequence), o4))
  }

  function ReadOutput(input: Bytes, offset: nat): Result<(TxOutput, nat)> {
    var (value, o1) :- ReadInteger(input, offset, 8);
    var (script, o2) :- ReadScript(input, o1);
    IntegerInRange(input[offset..o1]);
    Ok((TxOutput(Signed64(value), script), o2))
  }

  /** The first n list items. */
  ghost function ReadInputs(input: Bytes, offset: nat, n: nat): Result<(seq<TxInput>, nat)> {
    if n == 0 then Ok(([], offset)) else
    var (before, o) :- ReadInputs(input, offset, n - 1);
    var (next, after) :- ReadInput(input, o);
    Ok((before + [next], after))
  }

  ghost function ReadOutputs(input: Bytes, offset: nat, n: nat): Result<(seq<TxOutput>, nat)> {
    if n == 0 then Ok(([], offset)) else
    var (before, o) :- ReadOutputs(input, offset, n - 1);
    var (next, after) :- ReadOutput(input, o);
    Ok((before + [next], after))
  }

  ghost function ReadInputList(input: Bytes, offset: nat): Result<(seq<TxInput>, nat)> {
    var (count, o) :- ReadCompactSize(input, offset);
    if count > MAX_TRANSACTION_ITEMS then Err(LimitExceeded) else ReadInputs(input, o, count)
  }

  ghost function ReadOutputList(input: Bytes, offset: nat): Result<(seq<TxOutput>, nat)> {
    var (count, o) :- ReadCompactSize(input, offset);
    if count > MAX_TRANSACTION_ITEMS then Err(LimitExceeded) else ReadOutputs(input, o, count)
  }

  /** Reading the whole of some bytes as one transaction. */
  ghost function Deserialized(bytes: Bytes): Result<Transaction> {
    var (version, o1) :- ReadInteger(bytes, 0, 4);
    IntegerInRange(bytes[0..o1]);
    var (inputs, o2) :- ReadInputList(bytes, o1);
    var (outputs, o3) :- ReadOutputList(bytes, o2);
    var (lockTime, o4) :- ReadInteger(bytes, o3, 4);
    IntegerInRange(bytes[o3..o4]);
    if o4 != |bytes| then Err(TrailingBytes) else
    var tx := Transaction(Signed32(version), inputs, outputs, lockTime);
    if StructureValid(tx) then Ok(tx) else Err(BadStructure)
  }

  // ---------------------------------------------------------------- writing

  method WriteInput(output: Output, input: TxInput)
    requires |input.scriptSig| <= MAX_SCRIPT_SIZE
    modifies output
    ensures output.bytes == old(output.bytes) + InputBytes(input)
  {
    hide LittleEndian, CompactSize;
    output.AppendLittleEndian(input.previousOutput.txid, 32);
    output.AppendLittleEndian(input.previousOutput.index, 4);
    output.AppendCompactSize(|input.scriptSig|);
    output.Insert(input.scriptSig);
    output.AppendLittleEndian(input.sequence, 4);
  }

  method WriteOutput(output: Output, txOutput: TxOutput)
    requires |txOutput.scriptPubKey| <= MAX_SCRIPT_SIZE
    modifies output
    ensures output.bytes == old(output.bytes) + OutputBytes(txOutput)
  {
    hide LittleEndian, CompactSize;
    output.AppendLittleEndian(Unsigned64(txOutput.value), 8);
    output.AppendCompactSize(|txOutput.scriptPubKey|);
    output.Insert(txOutput.scriptPubKey);
  }

  method WriteInputs(output: Output, inputs: seq<TxInput>)
    requires InputsFit(inputs)
    modifies output
    ensures output.bytes == old(output.bytes) + InputListBytes(inputs)
  {
    hide InputBytes;
    for i := 0 to |inputs|
      invariant output.bytes == old(output.bytes) + InputListBytes(inputs[..i])
    {
      WriteInput(output, inputs[i]);
      assert inputs[..i + 1][..i] == inputs[..i];
    }
    assert inputs[..|inputs|] == inputs;
  }

  method WriteOutputs(output: Output, outputs: seq<TxOutput>)
    requires OutputsFit(outputs)
    modifies output
    ensures output.bytes == old(output.bytes) + OutputListBytes(outputs)
  {
    hide OutputBytes;
    for i := 0 to |outputs|
      invariant output.bytes == old(output.bytes) + OutputListBytes(outputs[..i])
    {
      WriteOutput(output, outputs[i]);
      assert outputs[..i + 1][..i] == outputs[..i];
    }
    assert outputs[..|outputs|] == outputs;
  }

  method SerializeTransaction(tx: Transaction) returns (r: Result<Bytes>)
    ensures r == Serialized(tx)
  {
    hide LittleEndian, CompactSize, InputListBytes, OutputListBytes, ValuesInRange;
    var valid := ValidateStructure(tx);
    if valid.Err? {
      return Err(valid.error);
    }
    var output := new Output();
    output.AppendLittleEndian(Unsigned32(tx.version), 4);
    output.AppendCompactSize(|tx.inputs|);
    WriteInputs(output, tx.inputs);
    output.AppendCompactSize(|tx.outputs|);
    WriteOutputs(output, tx.outputs);
    output.AppendLittleEndian(tx.lockTime, 4);
    assert output.bytes == Layout(tx);
    return Ok(output.bytes);
  }

  // ---------------------------------------------------------------- reading

  method TakeScript(reader: Reader) returns (r: Result<Script>)
    modifies reader
    ensures Agrees(r, ReadScript(reader.input, old(reader.offset)), reader.offset)
  {
    hide ReadCompactSize;
    var size :- reader.ReadCompact();
    if size > MAX_SCRIPT_SIZE {
      return Err(LimitExceeded);
    }
    r := reader.ReadSome(size);
  }

  method TakeInput(reader: Reader) returns (r: Result<TxInput>)
    modifies reader
    ensures Agrees(r, ReadInput(reader.input, old(reader.offset)), reader.offset)
  {
    hide ReadScript, FromLittleEndian;
    PowersOf256();
    var txid :- reader.ReadLittleEndian(32);
    var index :- reader.ReadLittleEndian(4);
    var script :- TakeScript(reader);
    var sequence :- reader.ReadLittleEndian(4);
    return Ok(TxInput(OutPoint(txid, index), script, sequence));
  }

  method TakeOutput(reader: Reader) returns (r: Result<TxOutput>)
    modifies reader
    ensures Agrees(r, ReadOutput(reader.input, old(reader.offset)), reader.offset)
  {
    hide ReadScript, FromLittleEndian;
    PowersOf256();
    var value :- reader.ReadLittleEndian(8);
    var script :- TakeScript(reader);
    return Ok(TxOutput(Signed64(value), script));
  }

  method TakeInputs(reader: Reader) returns (r: Result<seq<TxInput>>)
    modifies reader
    ensures Agrees(r, ReadInputList(reader.input, old(reader.offset)), reader.offset)
  {
    hide ReadCompactSize, ReadInput;
    var count :- reader.ReadCompact();
    if count > MAX_TRANSACTION_ITEMS {
      return Err(LimitExceeded);
    }
    ghost var start := reader.offset;
    var inputs: seq<TxInput> := [];
    for i := 0 to count
      invariant ReadInputs(reader.input, start, i) == Ok((inputs, reader.offset))
    {
      ReadInputsStop(reader.input, start, i + 1, count);
      var next :- TakeInput(reader);
      inputs := inputs + [next];
    }
    return Ok(inputs);
  }

  method TakeOutputs(reader: Reader) returns (r: Result<seq<TxOutput>>)
    modifies reader
    ensures Agrees(r, ReadOutputList(reader.input, old(reader.offset)), reader.offset)
  {
    hide ReadCompactSize, ReadOutput;
    var count :- reader.ReadCompact();
    if count > MAX_TRANSACTION_ITEMS {
      return Err(LimitExceeded);
    }
    ghost var start := reader.offset;
    var outputs: seq<TxOutput> := [];
    for i := 0 to count
      invariant ReadOutputs(reader.input, start, i) == Ok((outputs, reader.offset))
    {
      ReadOutputsStop(reader.input, start, i + 1, count);
      var next :- TakeOutput(reader);
      outputs := outputs + [next];
    }
    return Ok(outputs);
  }

  lemma {:induction false} ReadInputsStop(input: Bytes, offset: nat, m: nat, n: nat)
    requires m <= n
    ensures ReadInputs(input, offset, m).Err? ==> ReadInputs(input, offset, n) == ReadInputs(input, offset, m)
    decreases n
  {
    hide ReadInput;
    if m < n {
      ReadInputsStop(input, offset, m, n - 1);
    }
  }

  lemma {:induction false} ReadOutputsStop(input: Bytes, offset: nat, m: nat, n: nat)
    requires m <= n
    ensures ReadOutputs(input, offset, m).Err? ==> ReadOutputs(input, offset, n) == ReadOutputs(input, offset, m)
    decreases n
  {
    hide ReadOutput;
    if m < n {
      ReadOutputsStop(input, offset, m, n - 1);
    }
  }

  method DeserializeTransaction(bytes: Bytes) returns (r: Result<Transaction>)
    ensures r == Deserialized(bytes)
  {
    hide ReadInputList, ReadOutputList, FromLittleEndian, StructureValid;
    PowersOf256();
    var reader := new Reader(bytes);
    var version :- reader.ReadLittleEndian(4);
    var inputs :- TakeInputs(reader);
    var outputs :- TakeOutputs(reader);
    var lockTime :- reader.ReadLittleEndian(4);
    if reader.offset != |bytes| {
      return Err(TrailingBytes);
    }
    var tx := Transaction(Signed32(version), inputs, outputs, lockTime);
    var _ :- ValidateStructure(tx);
    return Ok(tx);
  }

  // ---------------------------------------------------------------- each item reads back, and nothing else does

  /** For each kind of item: it is read where it was written, and what is read was written. */
  lemma {:induction false} ScriptReads(input: Bytes, offset: nat, script: Script)
    requires |script| <= MAX_SCRIPT_SIZE
    ensures At(input, offset, ScriptBytes(script)) ==>
              ReadScript(input, offset) == Ok((script, offset + |ScriptBytes(script)|))
  {
    hide CompactSize, ReadCompactSize;
    var size := CompactSize(|script|);
    AtJoin(input, offset, size, script);
    CompactSizeReads(input, offset, |script|);
    BytesRead(input, offset + |size|, script);
  }

  lemma {:induction false} ScriptCanonical(input: Bytes, offset: nat)
    requires ReadScript(input, offset).Ok?
    ensures var (script, after) := ReadScript(input, offset).value;
            |script| <= MAX_SCRIPT_SIZE && after == offset + |ScriptBytes(script)| && At(input, offset, ScriptBytes(script))
  {
    hide CompactSize, ReadCompactSize;
    var (size, o) := ReadCompactSize(input, offset).value;
    var script := ReadScript(input, offset).value.0;
    CompactSizeCanonical(input, offset);
    assert |script| == size;
    BytesRead(input, o, script);
    AtJoin(input, offset, CompactSize(size), script);
  }

  lemma {:induction false} InputReads(input: Bytes, offset: nat, item: TxInput)
    requires |item.scriptSig| <= MAX_SCRIPT_SIZE
    ensures At(input, offset, InputBytes(item)) ==> ReadInput(input, offset) == Ok((item, offset + |InputBytes(item)|))
  {
    hide CompactSize, ReadScript, LittleEndian, FromLittleEndian, ScriptBytes, ReadInteger, At;
    PowersOf256();
    var (a, b, c, d) := (LittleEndian(item.previousOutput.txid, 32), LittleEndian(item.previousOutput.index, 4),
                         ScriptBytes(item.scriptSig), LittleEndian(item.sequence, 4));
    AtJoin(input, offset, a, b + (c + d));
    AtJoin(input, offset + 32, b, c + d);
    AtJoin(input, offset + 36, c, d);
    IntegerReads(input, offset, 32, item.previousOutput.txid);
    IntegerReads(input, offset + 32, 4, item.previousOutput.index);
    ScriptReads(input, offset + 36, item.scriptSig);
    IntegerReads(input, offset + 36 + |c|, 4, item.sequence);
  }

  lemma {:induction false} InputCanonical(input: Bytes, offset: nat)
    requires ReadInput(input, offset).Ok?
    ensures var (item, after) := ReadInput(input, offset).value;
            |item.scriptSig| <= MAX_SCRIPT_SIZE && after == offset + |InputBytes(item)| && At(input, offset, InputBytes(item))
  {
    hide CompactSize, ReadScript, LittleEndian, FromLittleEndian, ScriptBytes, At;
    PowersOf256();
    var (item, after) := ReadInput(input, offset).value;
    ScriptCanonical(input, offset + 36);
    var c := ScriptBytes(item.scriptSig);
    IntegerReads(input, offset, 32, item.previousOutput.txid);
    IntegerReads(input, offset + 32, 4, item.previousOutput.index);
    IntegerReads(input, offset + 36 + |c|, 4, item.sequence);
    var (a, b, d) := (LittleEndian(item.previousOutput.txid, 32), LittleEndian(item.previousOutput.index, 4),
                      LittleEndian(item.sequence, 4));
    AtJoin(input, offset + 36, c, d);
    AtJoin(input, offset + 32, b, c + d);
    AtJoin(input, offset, a, b + (c + d));
  }

  lemma {:induction false} OutputReads(input: Bytes, offset: nat, item: TxOutput)
    requires |item.scriptPubKey| <= MAX_SCRIPT_SIZE
    ensures At(input, offset, OutputBytes(item)) ==> ReadOutput(input, offset) == Ok((item, offset + |OutputBytes(item)|))
  {
    hide CompactSize, ReadScript, LittleEndian, FromLittleEndian, ScriptBytes, At;
    PowersOf256();
    var value := Unsigned64(item.value);
    AtJoin(input, offset, LittleEndian(value, 8), ScriptBytes(item.scriptPubKey));
    IntegerReads(input, offset, 8, value);
    ScriptReads(input, offset + 8, item.scriptPubKey);
  }

  lemma {:induction false} OutputCanonical(input: Bytes, offset: nat)
    requires ReadOutput(input, offset).Ok?
    ensures var (item, after) := ReadOutput(input, offset).value;
            |item.scriptPubKey| <= MAX_SCRIPT_SIZE && after == offset + |OutputBytes(item)|
            && At(input, offset, OutputBytes(item))
  {
    hide CompactSize, ReadScript, LittleEndian, FromLittleEndian, ScriptBytes, At;
    PowersOf256();
    var (item, after) := ReadOutput(input, offset).value;
    IntegerInRange(input[offset..offset + 8]);
    var value := Unsigned64(item.value);
    IntegerReads(input, offset, 8, value);
    ScriptCanonical(input, offset + 8);
    AtJoin(input, offset, LittleEndian(value, 8), ScriptBytes(item.scriptPubKey));
  }

  lemma {:induction false} InputListReads(input: Bytes, offset: nat, items: seq<TxInput>)
    requires InputsFit(items)
    ensures At(input, offset, InputListBytes(items)) ==>
              ReadInputs(input, offset, |items|) == Ok((items, offset + |InputListBytes(items)|))
  {
    hide InputBytes, ReadInput, At;
    if items != [] {
      var (front, last) := (items[..|items| - 1], items[|items| - 1]);
      assert items == front + [last];
      AtJoin(input, offset, InputListBytes(front), InputBytes(last));
      InputListReads(input, offset, front);
      InputReads(input, offset + |InputListBytes(front)|, last);
    }
  }

  lemma {:induction false} InputListCanonical(input: Bytes, offset: nat, n: nat)
    requires ReadInputs(input, offset, n).Ok?
    ensures var (items, after) := ReadInputs(input, offset, n).value;
            && |items| == n && InputsFit(items) && after == offset + |InputListBytes(items)|
            && (offset <= |input| ==> At(input, offset, InputListBytes(items)))
  {
    hide InputBytes, ReadInput;
    if n > 0 {
      var (items, after) := ReadInputs(input, offset, n).value;
      InputListCanonical(input, offset, n - 1);
      var (front, o) := ReadInputs(input, offset, n - 1).value;
      InputCanonical(input, o);
      assert items[..n - 1] == front;
      AtJoin(input, offset, InputListBytes(front), InputBytes(items[n - 1]));
    }
  }

  lemma {:induction false} OutputListReads(input: Bytes, offset: nat, items: seq<TxOutput>)
    requires OutputsFit(items)
    ensures At(input, offset, OutputListBytes(items)) ==>
              ReadOutputs(input, offset, |items|) == Ok((items, offset + |OutputListBytes(items)|))
  {
    hide OutputBytes, ReadOutput, At;
    if items != [] {
      var (front, last) := (items[..|items| - 1], items[|items| - 1]);
      assert items == front + [last];
      AtJoin(input, offset, OutputListBytes(front), OutputBytes(last));
      OutputListReads(input, offset, front);
      OutputReads(input, offset + |OutputListBytes(front)|, last);
    }
  }

  lemma {:induction false} OutputListCanonical(input: Bytes, offset: nat, n: nat)
    requires ReadOutputs(input, offset, n).Ok?
    ensures var (items, after) := ReadOutputs(input, offset, n).value;
            && |items| == n && OutputsFit(items) && after == offset + |OutputListBytes(items)|
            && (offset <= |input| ==> At(input, offset, OutputListBytes(items)))
  {
    hide OutputBytes, ReadOutput;
    if n > 0 {
      var (items, after) := ReadOutputs(input, offset, n).value;
      OutputListCanonical(input, offset, n - 1);
      var (front, o) := ReadOutputs(input, offset, n - 1).value;
      OutputCanonical(input, o);
      assert items[..n - 1] == front;
      AtJoin(input, offset, OutputListBytes(front), OutputBytes(items[n - 1]));
    }
  }

  // ---------------------------------------------------------------- the whole transaction

  /** Decoding inverts encoding, for every transaction of valid structure. */
  lemma {:induction false} TransactionRoundTrip(tx: Transaction)
    requires StructureValid(tx)
    ensures Deserialized(Layout(tx)) == Ok(tx)
  {
    hide CompactSize, ReadCompactSize, LittleEndian, FromLittleEndian, InputListBytes, OutputListBytes, ReadInputs,
         ReadOutputs, At, ValuesInRange;
    PowersOf256();
    var bytes := Layout(tx);
    var (a, b, c, d, e, f) := (LittleEndian(Unsigned32(tx.version), 4), CompactSize(|tx.inputs|),
                               InputListBytes(tx.inputs), CompactSize(|tx.outputs|), OutputListBytes(tx.outputs),
                               LittleEndian(tx.lockTime, 4));
    AtAll(bytes);
    AtJoinSix(bytes, a, b, c, d, e, f);
    IntegerReads(bytes, 0, 4, Unsigned32(tx.version));
    CompactSizeReads(bytes, 4, |tx.inputs|);
    InputListReads(bytes, 4 + |b|, tx.inputs);
    CompactSizeReads(bytes, 4 + |b| + |c|, |tx.outputs|);
    OutputListReads(bytes, 4 + |b| + |c| + |d|, tx.outputs);
    IntegerReads(bytes, 4 + |b| + |c| + |d| + |e|, 4, tx.lockTime);
  }

  lemma {:induction false} AtJoinSix(input: Bytes, a: Bytes, b: Bytes, c: Bytes, d: Bytes, e: Bytes, f: Bytes)
    requires |a| == 4
    ensures At(input, 0, a + (b + (c + (d + (e + f))))) <==>
              && At(input, 0, a) && At(input, 4, b) && At(input, 4 + |b|, c) && At(input, 4 + |b| + |c|, d)
              && At(input, 4 + |b| + |c| + |d|, e) && At(input, 4 + |b| + |c| + |d| + |e|, f)
  {
    hide At;
    AtJoinFour(input, 0, a, b, c, d + (e + f));
    AtJoin(input, 4 + |b| + |c|, d, e + f);
    AtJoin(input, 4 + |b| + |c| + |d|, e, f);
  }

  lemma {:induction false} AtAll(bytes: Bytes)
    ensures At(bytes, 0, bytes)
    ensures forall other: Bytes :: At(bytes, 0, other) && |other| == |bytes| ==> other == bytes
  {
  }

  lemma {:induction false} InputSectionCanonical(input: Bytes, offset: nat)
    requires ReadInputList(input, offset).Ok?
    ensures var (items, after) := ReadInputList(input, offset).value;
            && |items| <= MAX_TRANSACTION_ITEMS && InputsFit(items)
            && after == offset + |CompactSize(|items|)| + |InputListBytes(items)|
            && At(input, offset, CompactSize(|items|)) && At(input, offset + |CompactSize(|items|)|, InputListBytes(items))
  {
    hide CompactSize, ReadCompactSize, InputListBytes, ReadInputs, InputsFit;
    CompactSizeCanonical(input, offset);
    var (count, o) := ReadCompactSize(input, offset).value;
    InputListCanonical(input, o, count);
  }

  lemma {:induction false} OutputSectionCanonical(input: Bytes, offset: nat)
    requires ReadOutputList(input, offset).Ok?
    ensures var (items, after) := ReadOutputList(input, offset).value;
            && |items| <= MAX_TRANSACTION_ITEMS && OutputsFit(items)
            && after == offset + |CompactSize(|items|)| + |OutputListBytes(items)|
            && At(input, offset, CompactSize(|items|)) && At(input, offset + |CompactSize(|items|)|, OutputListBytes(items))
  {
    hide CompactSize, ReadCompactSize, OutputListBytes, ReadOutputs, OutputsFit;
    CompactSizeCanonical(input, offset);
    var (count, o) := ReadCompactSize(input, offset).value;
    OutputListCanonical(input, o, count);
  }

  /** Every accepted byte string is the one serialisation of a transaction of valid structure. */
  lemma {:induction false} TransactionCanonical(bytes: Bytes)
    requires Deserialized(bytes).Ok?
    ensures StructureValid(Deserialized(bytes).value) && Layout(Deserialized(bytes).value) == bytes
  {
    hide CompactSize, ReadCompactSize, LittleEndian, FromLittleEndian, InputListBytes, OutputListBytes, ReadInputList,
         ReadOutputList, At, ValuesInRange;
    PowersOf256();
    var tx := Deserialized(bytes).value;
    IntegerInRange(bytes[0..4]);
    var (a, b, c, d, e, f) := (LittleEndian(Unsigned32(tx.version), 4), CompactSize(|tx.inputs|),
                               InputListBytes(tx.inputs), CompactSize(|tx.outputs|), OutputListBytes(tx.outputs),
                               LittleEndian(tx.lockTime, 4));
    IntegerReads(bytes, 0, 4, Unsigned32(tx.version));
    InputSectionCanonical(bytes, 4);
    OutputSectionCanonical(bytes, 4 + |b| + |c|);
    IntegerReads(bytes, 4 + |b| + |c| + |d| + |e|, 4, tx.lockTime);
    AtJoinSix(bytes, a, b, c, d, e, f);
    AtAll(bytes);
  }

  /** Decoding and encoding are each other's inverse, in both directions. */
  lemma {:induction false} TransactionCodecExact(tx: Transaction, bytes: Bytes)
    ensures Deserialized(bytes) == Ok(tx) <==> Serialized(tx) == Ok(bytes)
  {
    hide StructureValid;
    if Deserialized(bytes).Ok? {
      TransactionCanonical(bytes);
    }
    if StructureValid(tx) {
      TransactionRoundTrip(tx);
    }
  }

  /** Different transactions have different bytes, so equal identifiers mean a collision of the hash itself. */
  lemma {:induction false} SerializationInjective(a: Transaction, b: Transaction)
    requires StructureValid(a) && StructureValid(b) && Serialized(a) == Serialized(b)
    ensures a == b
  {
    TransactionRoundTrip(a);
    TransactionRoundTrip(b);
  }
}
