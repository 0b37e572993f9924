/** The byte form of block headers and of stored blocks, and their reading (src/block.cpp, src/storage.cpp). */
module BlockCodec {
  import opened Amounts
  import opened Errors
  import opened Transactions
  import opened Blocks
  import opened Serialize
  import opened TransactionCodec

  const HEADER_SIZE := 80
  const MAX_STORED_TRANSACTIONS := 100_000
  const MAX_STORED_TRANSACTION_SIZE := 4_000_000

  // ---------------------------------------------------------------- headers

  function HeaderBytes(header: BlockHeader): (r: Bytes)
    ensures |r| == HEADER_SIZE
  {
    LittleEndian(Unsigned32(header.version), 4) + (LittleEndian(header.previousHash, 32)
      + (LittleEndian(header.merkleRoot, 32) + (LittleEndian(header.time, 4)
      + (LittleEndian(header.bits, 4) + LittleEndian(header.nonce, 4)))))
  }

  function ReadHeader(bytes: Bytes): Result<BlockHeader> {
    if |bytes| != HEADER_SIZE then Err(BadFormat) else
    IntegerInRange(bytes[0..4]);
    IntegerInRange(bytes[4..36]);
    IntegerInRange(bytes[36..68]);
    IntegerInRange(bytes[68..72]);
    IntegerInRange(bytes[72..76]);
    IntegerInRange(bytes[76..80]);
    Ok(BlockHeader(Signed32(FromLittleEndian(bytes[0..4])), FromLittleEndian(bytes[4..36]),
                   FromLittleEndian(bytes[36..68]), FromLittleEndian(bytes[68..72]),
                   FromLittleEndian(bytes[72..76]), FromLittleEndian(bytes[76..80])))
  }

  method SerializeHeader(header: BlockHeader) returns (bytes: Bytes)
    ensures bytes == HeaderBytes(header)
  {
    hide LittleEndian;
    var output := new Output();
    output.AppendLittleEndian(Unsigned32(header.version), 4);
    output.AppendLittleEndian(header.previousHash, 32);
    output.AppendLittleEndian(header.merkleRoot, 32);
    output.AppendLittleEndian(header.time, 4);
    output.AppendLittleEndian(header.bits, 4);
    output.AppendLittleEndian(header.nonce, 4);
    return output.bytes;
  }

  method DeserializeHeader(bytes: Bytes) returns (r: Result<BlockHeader>)
    ensures r == ReadHeader(bytes)
  {
    hide FromLittleEndian;
    if |bytes| != HEADER_SIZE {
      return Err(BadFormat);
    }
    PowersOf256();
    var reader := new Reader(bytes);
    var version := reader.ReadLittleEndian(4);
    var previousHash := reader.ReadLittleEndian(32);
    var merkleRoot := reader.ReadLittleEndian(32);
    var time := reader.ReadLittleEndian(4);
    var bits := reader.ReadLittleEndian(4);
    var nonce := reader.ReadLittleEndian(4);
    return Ok(BlockHeader(Signed32(version.value), previousHash.value, merkleRoot.value, time.value, bits.value,
                          nonce.value));
  }

  /** Eighty bytes and headers correspond one to one. */
  lemma {:induction false} HeaderCodecExact(header: BlockHeader, bytes: Bytes)
    ensures ReadHeader(bytes) == Ok(header) <==> HeaderBytes(header) == bytes
  {
    if ReadHeader(bytes) == Ok(header) {
      HeaderCanonical(header, bytes);
    }
    HeaderRoundTrip(header);
  }

  /** Where each field lies. */
  lemma {:induction false} HeaderFields(header: BlockHeader)
    ensures var bytes := HeaderBytes(header);
            && bytes[0..4] == LittleEndian(Unsigned32(header.version), 4)
            && bytes[4..36] == LittleEndian(header.previousHash, 32)
            && bytes[36..68] == LittleEndian(header.merkleRoot, 32)
            && bytes[68..72] == LittleEndian(header.time, 4)
            && bytes[72..76] == LittleEndian(header.bits, 4)
            && bytes[76..80] == LittleEndian(header.nonce, 4)
  {
    hide LittleEndian;
  }

  lemma {:induction false} HeaderRoundTrip(header: BlockHeader)
    ensures ReadHeader(HeaderBytes(header)) == Ok(header)
  {
    hide LittleEndian, FromLittleEndian;
    PowersOf256();
    HeaderFields(header);
    IntegerRoundTrip(Unsigned32(header.version), 4);
    IntegerRoundTrip(header.previousHash, 32);
    IntegerRoundTrip(header.merkleRoot, 32);
    IntegerRoundTrip(header.time, 4);
    IntegerRoundTrip(header.bits, 4);
    IntegerRoundTrip(header.nonce, 4);
  }

  lemma {:induction false} HeaderCanonical(header: BlockHeader, bytes: Bytes)
    requires ReadHeader(bytes) == Ok(header)
    ensures HeaderBytes(header) == bytes
  {
    hide LittleEndian, FromLittleEndian;
    BytesRoundTrip(bytes[0..4]);
    BytesRoundTrip(bytes[4..36]);
    BytesRoundTrip(bytes[36..68]);
    BytesRoundTrip(bytes[68..72]);
    BytesRoundTrip(bytes[72..76]);
    BytesRoundTrip(bytes[76..80]);
    IntegerInRange(bytes[0..4]);
    assert bytes == bytes[0..4] + (bytes[4..36] + (bytes[36..68] + (bytes[68..72] + (bytes[72..76] + bytes[76..80]))));
  }

  // ---------------------------------------------------------------- stored blocks

  ghost predicate AllValid(transactions: seq<Transaction>) {
    forall i :: 0 <= i < |transactions| ==> StructureValid(transactions[i])
  }

  /** A transaction behind its size. */
  ghost function SizedBytes(tx: Transaction): Bytes
    requires StructureValid(tx)
  {
    LayoutSize(tx);
    CompactSize(|Layout(tx)|) + Layout(tx)
  }

  ghost function ListBytes(transactions: seq<Transaction>): Bytes
    requires AllValid(transactions)
  {
    if transactions == [] then []
    else ListBytes(transactions[..|transactions| - 1]) + SizedBytes(transactions[|transactions| - 1])
  }

  ghost function StoredBytes(stored: StoredBlock): Bytes
    requires AllValid(stored.block.transactions) && |stored.block.transactions| < TWO_64
  {
    LittleEndian(stored.height, 8) + (HeaderBytes(stored.block.header)
      + (CompactSize(|stored.block.transactions|) + ListBytes(stored.block.transactions)))
  }

  /** What fits a record that can be read again. */
  ghost predicate Storable(stored: StoredBlock) {
    && |stored.block.transactions| <= MAX_STORED_TRANSACTIONS
    && AllValid(stored.block.transactions)
    && forall i :: 0 <= i < |stored.block.transactions| ==>
         |Layout(stored.block.transactions[i])| <= MAX_STORED_TRANSACTION_SIZE
  }

  ghost function ReadSized(input: Bytes, offset: nat): Result<(Transaction, nat)> {
    var (size, o) :- ReadCompactSize(input, offset);
    if size > MAX_STORED_TRANSACTION_SIZE || o + size > |input| then Err(LimitExceeded) else
    var tx :- Deserialized(input[o..o + size]);
    Ok((tx, o + size))
  }

  ghost function ReadList(input: Bytes, offset: nat, n: nat): Result<(seq<Transaction>, nat)> {
    if n == 0 then Ok(([], offset)) else
    var (before, o) :- ReadList(input, offset, n - 1);
    var (next, after) :- ReadSized(input, o);
    Ok((before + [next], after))
  }

  ghost function ReadStored(bytes: Bytes): Result<StoredBlock> {
    var (height, o1) :- ReadInteger(bytes, 0, 8);
    IntegerInRange(bytes[0..8]);
    var (headerBytes, o2) :- ReadBytes(bytes, o1, HEADER_SIZE);
    var header :- ReadHeader(headerBytes);
    var (count, o3) :- ReadCompactSize(bytes, o2);
    if count > MAX_STORED_TRANSACTIONS then Err(LimitExceeded) else
    var (transactions, o4) :- ReadList(bytes, o3, count);
    if o4 != |bytes| then Err(TrailingBytes) else Ok(StoredBlock(height, Block(header, transactions)))
  }

  /** Nothing of valid structure is too long for its size to be written. */
  lemma {:induction false} LayoutSize(tx: Transaction)
    requires StructureValid(tx)
    ensures |Layout(tx)| < TWO_64
  {
    InputListSize(tx.inputs);
    OutputListSize(tx.outputs);
  }

  lemma {:induction false} InputListSize(inputs: seq<TxInput>)
    requires InputsFit(inputs)
    ensures |InputListBytes(inputs)| <= |inputs| * 10_100
  {
    hide LittleEndian, CompactSize;
    if inputs != [] {
      InputListSize(inputs[..|inputs| - 1]);
    }
  }

  lemma {:induction false} OutputListSize(outputs: seq<TxOutput>)
    requires OutputsFit(outputs)
    ensures |OutputListBytes(outputs)| <= |outputs| * 10_100
  {
    hide LittleEndian, CompactSize;
    if outputs != [] {
      OutputListSize(outputs[..|outputs| - 1]);
    }
  }

  // ---------------------------------------------------------------- implementation

  method WriteList(output: Output, transactions: seq<Transaction>) returns (r: Result<()>)
    modifies output
    ensures r == if AllValid(transactions) then Ok(()) else Err(BadStructure)
    ensures r.Ok? ==> output.bytes == old(output.bytes) + ListBytes(transactions)
  {
    hide LittleEndian, CompactSize, Layout, ValuesInRange;
    for i := 0 to |transactions|
      invariant AllValid(transactions[..i]) && output.bytes == old(output.bytes) + ListBytes(transactions[..i])
    {
      var bytes :- SerializeTransaction(transactions[i]);
      LayoutSize(transactions[i]);
      output.AppendCompactSize(|bytes|);
      output.Insert(bytes);
      assert transactions[..i + 1][..i] == transactions[..i];
    }
    assert transactions[..|transactions|] == transactions;
    return Ok(());
  }

  method SerializeStoredBlock(stored: StoredBlock) returns (r: Result<Bytes>)
    requires |stored.block.transactions| < TWO_64
    ensures r == if AllValid(stored.block.transactions) then Ok(StoredBytes(stored)) else Err(BadStructure)
  {
    hide LittleEndian, CompactSize, HeaderBytes, ListBytes, AllValid;
    var output := new Output();
    output.AppendLittleEndian(stored.height, 8);
    var header := SerializeHeader(stored.block.header);
    output.Insert(header);
    var transactions := stored.block.transactions;
    output.AppendCompactSize(|transactions|);
    var _ :- WriteList(output, transactions);
    assert output.bytes == StoredBytes(stored);
    return Ok(output.bytes);
  }

  method TakeList(reader: Reader, count: nat) returns (r: Result<seq<Transaction>>)
    modifies reader
    ensures Agrees(r, ReadList(reader.input, old(reader.offset), count), reader.offset)
  {
    hide ReadCompactSize, Deserialized;
    ghost var start := reader.offset;
    var transactions: seq<Transaction> := [];
    for i := 0 to count
      invariant ReadList(reader.input, start, i) == Ok((transactions, reader.offset))
    {
      ReadListStops(reader.input, start, i + 1, count);
      var size :- reader.ReadCompact();
      if size > MAX_STORED_TRANSACTION_SIZE || reader.offset > |reader.input| || size > |reader.input| - reader.offset {
        return Err(LimitExceeded);
      }
      var bytes := reader.ReadSome(size);
      var next :- DeserializeTransaction(bytes.value);
      transactions := transactions + [next];
    }
    return Ok(transactions);
  }

  lemma {:induction false} ReadListStops(input: Bytes, offset: nat, m: nat, n: nat)
    requires m <= n
    ensures ReadList(input, offset, m).Err? ==> ReadList(input, offset, n) == ReadList(input, offset, m)
    decreases n
  {
    hide ReadSized;
    if m < n {
      ReadListStops(input, offset, m, n - 1);
    }
  }

  method DeserializeStoredBlock(bytes: Bytes) returns (r: Result<StoredBlock>)
    ensures r == ReadStored(bytes)
  {
    hide ReadCompactSize, ReadList, ReadHeader, FromLittleEndian;
    PowersOf256();
    var reader := new Reader(bytes);
    var height :- reader.ReadLittleEndian(8);
    var headerBytes :- reader.ReadSome(HEADER_SIZE);
    var header :- DeserializeHeader(headerBytes);
    var count :- reader.ReadCompact();
    if count > MAX_STORED_TRANSACTIONS {
      return Err(LimitExceeded);
    }
    var transactions :- TakeList(reader, count);
    if reader.offset != |bytes| {
      return Err(TrailingBytes);
    }
    return Ok(StoredBlock(height, Block(header, transactions)));
  }

  // ---------------------------------------------------------------- exactness

  lemma {:induction false} SizedReads(input: Bytes, offset: nat, tx: Transaction)
    requires StructureValid(tx) && |Layout(tx)| <= MAX_STORED_TRANSACTION_SIZE
    ensures At(input, offset, SizedBytes(tx)) ==> ReadSized(input, offset) == Ok((tx, offset + |SizedBytes(tx)|))
  {
    hide CompactSize, ReadCompactSize, ValuesInRange, Layout, Deserialized;
    var bytes := Layout(tx);
    AtJoin(input, offset, CompactSize(|bytes|), bytes);
    CompactSizeReads(input, offset, |bytes|);
    TransactionRoundTrip(tx);
  }

  lemma {:induction false} SizedCanonical(input: Bytes, offset: nat)
    requires ReadSized(input, offset).Ok?
    ensures var (tx, after) := ReadSized(input, offset).value;
            && StructureValid(tx) && |Layout(tx)| <= MAX_STORED_TRANSACTION_SIZE
            && after == offset + |SizedBytes(tx)| && At(input, offset, SizedBytes(tx))
  {
    hide CompactSize, ReadCompactSize, ValuesInRange, Layout, Deserialized;
    var (size, o) := ReadCompactSize(input, offset).value;
    var tx := ReadSized(input, offset).value.0;
    CompactSizeCanonical(input, offset);
    TransactionCanonical(input[o..o + size]);
    AtJoin(input, offset, CompactSize(size), Layout(tx));
  }

  lemma {:induction false} ListReads(input: Bytes, offset: nat, transactions: seq<Transaction>)
    requires AllValid(transactions)
    requires forall i :: 0 <= i < |transactions| ==> |Layout(transactions[i])| <= MAX_STORED_TRANSACTION_SIZE
    ensures At(input, offset, ListBytes(transactions)) ==>
              ReadList(input, offset, |transactions|) == Ok((transactions, offset + |ListBytes(transactions)|))
  {
    hide SizedBytes, ReadSized, At, StructureValid, Layout;
    if transactions != [] {
      var (front, last) := (transactions[..|transactions| - 1], transactions[|transactions| - 1]);
      assert transactions == front + [last];
      AtJoin(input, offset, ListBytes(front), SizedBytes(last));
      ListReads(input, offset, front);
      SizedReads(input, offset + |ListBytes(front)|, last);
    }
  }

  lemma {:induction false} ListCanonical(input: Bytes, offset: nat, n: nat)
    requires offset <= |input| && ReadList(input, offset, n).Ok?
    ensures var (transactions, after) := ReadList(input, offset, n).value;
            && |transactions| == n && AllValid(transactions)
            && (forall i :: 0 <= i < n ==> |Layout(transactions[i])| <= MAX_STORED_TRANSACTION_SIZE)
            && after == offset + |ListBytes(transactions)| && At(input, offset, ListBytes(transactions))
  {
    hide SizedBytes, ReadSized, StructureValid, Layout;
    if n > 0 {
      var (transactions, after) := ReadList(input, offset, n).value;
      ListCanonical(input, offset, n - 1);
      var (front, o) := ReadList(input, offset, n - 1).value;
      SizedCanonical(input, o);
      assert transactions[..n - 1] == front;
      AtJoin(input, offset, ListBytes(front), SizedBytes(transactions[n - 1]));
    }
  }

  /** A stored block within the limits decodes back to itself. */
  lemma {:induction false} StoredBlockRoundTrip(stored: StoredBlock)
    requires Storable(stored)
    ensures ReadStored(StoredBytes(stored)) == Ok(stored)
  {
    hide CompactSize, ReadCompactSize, LittleEndian, FromLittleEndian, HeaderBytes, ReadHeader, ListBytes, ReadList, At,
         StructureValid, Layout;
    PowersOf256();
    var (bytes, block) := (StoredBytes(stored), stored.block);
    var (a, b, c, d) := (LittleEndian(stored.height, 8), HeaderBytes(block.header), CompactSize(|block.transactions|),
                         ListBytes(block.transactions));
    AtAll(bytes);
    AtJoinFour(bytes, 0, a, b, c, d);
    IntegerReads(bytes, 0, 8, stored.height);
    BytesRead(bytes, 8, b);
    HeaderCodecExact(block.header, b);
    CompactSizeReads(bytes, 88, |block.transactions|);
    ListReads(bytes, 88 + |c|, block.transactions);
  }

  /** Every accepted record re-serialises to exactly its own bytes, and lies within the limits. */
  lemma {:induction false} StoredBlockCanonical(bytes: Bytes)
    requires ReadStored(bytes).Ok?
    ensures Storable(ReadStored(bytes).value) && StoredBytes(ReadStored(bytes).value) == bytes
  {
    hide CompactSize, ReadCompactSize, LittleEndian, FromLittleEndian, HeaderBytes, ReadHeader, ListBytes, ReadList, At,
         StructureValid, Layout;
    PowersOf256();
    var stored := ReadStored(bytes).value;
    IntegerInRange(bytes[0..8]);
    IntegerReads(bytes, 0, 8, stored.height);
    var b := ReadBytes(bytes, 8, HEADER_SIZE).value.0;
    BytesRead(bytes, 8, b);
    HeaderCodecExact(stored.block.header, b);
    CompactSizeCanonical(bytes, 88);
    var (count, o) := ReadCompactSize(bytes, 88).value;
    CompactSizeInside(bytes, 88);
    ListCanonical(bytes, o, count);
    var (a, c, d) := (LittleEndian(stored.height, 8), CompactSize(count), ListBytes(stored.block.transactions));
    AtJoinFour(bytes, 0, a, b, c, d);
    AtAll(bytes);
  }

  lemma {:induction false} CompactSizeInside(input: Bytes, offset: nat)
    requires ReadCompactSize(input, offset).Ok?
    ensures ReadCompactSize(input, offset).value.1 <= |input|
  {
    hide FromLittleEndian;
  }

  /** The record codec is exact: bytes decode to a block exactly when the block is within the limits and these are its
      bytes. */
  lemma {:induction false} StoredBlockCodecExact(stored: StoredBlock, bytes: Bytes)
    ensures ReadStored(bytes) == Ok(stored) <==> Storable(stored) && StoredBytes(stored) == bytes
  {
    hide Storable, StoredBytes, ReadStored;
    if ReadStored(bytes) == Ok(stored) {
      StoredBlockCanonical(bytes);
    }
    if Storable(stored) {
      StorableFits(stored);
      StoredBlockRoundTrip(stored);
    }
  }

  lemma {:induction false} StorableFits(stored: StoredBlock)
    requires Storable(stored)
    ensures AllValid(stored.block.transactions) && |stored.block.transactions| < TWO_64
  {
  }
}
