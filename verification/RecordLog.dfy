/** The append-only log of block records: what a record is, reading one, and the scan that catalogues them
    (src/storage.cpp). */
module RecordLog {
  import opened Arithmetic
  import opened Amounts
  import opened Errors
  import opened Transactions
  import opened Blocks
  import opened Serialize
  import opened Texts
  import opened TransactionCodec
  import opened BlockCodec

  const RECORD_MAGIC: Bytes := [0x42, 0x43, 0x52, 0x39]
  const RECORD_VERSION: u32 := 1
  const RECORD_HEADER_SIZE := 48
  const MAX_RECORD_SIZE := 0x100_0000

  /** Double SHA-256 of a payload, left uninterpreted. */
  const Checksum: Bytes -> Hash256

  datatype IndexEntry = IndexEntry(height: u64, offset: nat, payloadSize: u64, hash: string)
  type Catalog = map<Hash256, IndexEntry>

  // ---------------------------------------------------------------- specification

  function RecordOfPayload(payload: Bytes): (r: Bytes)
    requires |payload| <= MAX_RECORD_SIZE
    ensures |r| == RECORD_HEADER_SIZE + |payload|
  {
    RECORD_MAGIC + (LittleEndian(RECORD_VERSION, 4) + (LittleEndian(|payload|, 8)
      + (LittleEndian(Checksum(payload), 32) + payload)))
  }

  /** A block has a record when it can be serialised and its payload is not too long. */
  ghost predicate Recordable(block: StoredBlock) {
    && |block.block.transactions| < TWO_64
    && AllValid(block.block.transactions)
    && |StoredBytes(block)| <= MAX_RECORD_SIZE
  }

  ghost function RecordBytes(block: StoredBlock): (r: Bytes)
    requires Recordable(block)
    ensures |r| == RECORD_HEADER_SIZE + |StoredBytes(block)|
  {
    RecordOfPayload(StoredBytes(block))
  }

  /** The payload size announced by a plausible record header at the offset, if the payload fits the log. */
  function PayloadSize(log: Bytes, offset: nat): Option<nat> {
    if offset + RECORD_HEADER_SIZE > |log| then None
    else if log[offset..offset + 4] != RECORD_MAGIC then None
    else if FromLittleEndian(log[offset + 4..offset + 8]) != RECORD_VERSION then None
    else
      var size := FromLittleEndian(log[offset + 8..offset + 16]);
      if size > MAX_RECORD_SIZE || offset + RECORD_HEADER_SIZE + size > |log| then None else Some(size)
  }

  /** The block recorded at the offset; any flaw is a failure. */
  ghost function ReadRecord(log: Bytes, offset: nat, expected: nat): Result<StoredBlock> {
    var size := PayloadSize(log, offset);
    if size.None? then Err(BadFormat)
    else if size.value != expected then Err(BadFormat)
    else
      var start := offset + RECORD_HEADER_SIZE;
      var payload := log[start..start + expected];
      if Checksum(payload) != FromLittleEndian(log[offset + 16..start]) then Err(ChecksumMismatch)
      else ReadStored(payload)
  }

  /** The catalogue once a record has been looked at: a readable one is entered unless its hash is known. */
  ghost function Entered(catalog: Catalog, log: Bytes, offset: u64, size: nat): Catalog
    requires size <= MAX_RECORD_SIZE
  {
    var block := ReadRecord(log, offset, size);
    if block.Err? || HashOf(block.value) in catalog then catalog
    else catalog[HashOf(block.value) := IndexEntry(block.value.height, offset, size, HashText(HashOf(block.value)))]
  }

  /** What the scan adds to a catalogue from an offset on: it stops at the first implausible header. */
  ghost function ScanFrom(log: Bytes, offset: nat, catalog: Catalog): Catalog
    requires |log| < TWO_64
    decreases |log| - offset
  {
    if offset >= |log| then catalog else
    var size := PayloadSize(log, offset);
    if size.None? then catalog
    else ScanFrom(log, offset + RECORD_HEADER_SIZE + size.value, Entered(catalog, log, offset, size.value))
  }

  ghost function Scan(log: Bytes): Catalog
    requires |log| < TWO_64
  {
    ScanFrom(log, 0, map[])
  }

  // ---------------------------------------------------------------- implementation

  method MakeRecord(block: StoredBlock) returns (r: Result<Bytes>)
    requires |block.block.transactions| < TWO_64
    ensures r.Ok? <==> Recordable(block)
    ensures r.Ok? ==> r.value == RecordBytes(block)
    ensures r.Ok? ==> RECORD_HEADER_SIZE <= |r.value| <= RECORD_HEADER_SIZE + MAX_RECORD_SIZE
    ensures r.Err? ==> r.error == BadStructure || r.error == LimitExceeded
  {
    hide LittleEndian, StoredBytes;
    var payload :- SerializeStoredBlock(block);
    if |payload| > MAX_RECORD_SIZE {
      return Err(LimitExceeded);
    }
    var record := new Output();
    record.Insert(RECORD_MAGIC);
    record.AppendLittleEndian(RECORD_VERSION, 4);
    record.AppendLittleEndian(|payload|, 8);
    record.AppendLittleEndian(Checksum(payload), 32);
    record.Insert(payload);
    assert record.bytes == RecordOfPayload(payload);
    return Ok(record.bytes);
  }

  method ReadRecordAt(log: Bytes, offset: nat, expected: nat) returns (r: Result<StoredBlock>)
    ensures r == ReadRecord(log, offset, expected)
  {
    hide FromLittleEndian, ReadStored;
    var size := PayloadSize(log, offset);
    if size.None? || size.value != expected {
      return Err(BadFormat);
    }
    var start := offset + RECORD_HEADER_SIZE;
    var payload := log[start..start + expected];
    if Checksum(payload) != FromLittleEndian(log[offset + 16..start]) {
      return Err(ChecksumMismatch);
    }
    r := DeserializeStoredBlock(payload);
  }

  method ScanCatalog(log: Bytes) returns (catalog: Catalog)
    requires |log| < TWO_64
    ensures catalog == Scan(log)
  {
    hide PayloadSize, ReadRecord;
    catalog := map[];
    var offset: nat := 0;
    while offset < |log|
      invariant ScanFrom(log, offset, catalog) == Scan(log)
      decreases |log| - offset
    {
      PayloadInside(log, offset);
      var size := PayloadSize(log, offset);
      if size.None? {
        return;
      }
      var block := ReadRecordAt(log, offset, size.value);
      if block.Ok? && HashOf(block.value) !in catalog {
        catalog := catalog[HashOf(block.value) := IndexEntry(block.value.height, offset, size.value, HashText(HashOf(block.value)))];
      }
      offset := offset + RECORD_HEADER_SIZE + size.value;
    }
  }

  lemma {:induction false} PayloadInside(log: Bytes, offset: nat)
    ensures PayloadSize(log, offset).Some? ==>
              PayloadSize(log, offset).value <= MAX_RECORD_SIZE
              && offset + RECORD_HEADER_SIZE + PayloadSize(log, offset).value <= |log|
  {
  }

  // ---------------------------------------------------------------- single records

  /** A record that lies in the log is plausible there and reads as its block, if that block is within the codec's limits. */
  lemma {:induction false} RecordReads(log: Bytes, offset: nat, block: StoredBlock)
    requires Recordable(block) && At(log, offset, RecordBytes(block))
    ensures PayloadSize(log, offset) == Some(|StoredBytes(block)|)
    ensures Storable(block) ==> ReadRecord(log, offset, |StoredBytes(block)|) == Ok(block)
  {
    hide StoredBytes, Storable, ReadStored, FromLittleEndian, LittleEndian, AllValid;
    var payload := StoredBytes(block);
    RecordParts(log, offset, payload);
    if Storable(block) {
      StoredBlockRoundTrip(block);
    }
  }

  lemma {:induction false} RecordParts(log: Bytes, offset: nat, payload: Bytes)
    requires |payload| <= MAX_RECORD_SIZE && At(log, offset, RecordOfPayload(payload))
    ensures PayloadSize(log, offset) == Some(|payload|)
    ensures FromLittleEndian(log[offset + 16..offset + 48]) == Checksum(payload)
    ensures log[offset + 48..offset + 48 + |payload|] == payload
  {
    hide LittleEndian, FromLittleEndian;
    PowersOf256();
    var (a, b, c, d) := (RECORD_MAGIC, LittleEndian(RECORD_VERSION, 4), LittleEndian(|payload|, 8),
                         LittleEndian(Checksum(payload), 32));
    AtJoin(log, offset, a, b + (c + (d + payload)));
    AtJoin(log, offset + 4, b, c + (d + payload));
    AtJoin(log, offset + 8, c, d + payload);
    AtJoin(log, offset + 16, d, payload);
    IntegerRoundTrip(RECORD_VERSION, 4);
    IntegerRoundTrip(|payload|, 8);
    IntegerRoundTrip(Checksum(payload), 32);
  }

  /** Appending to the log changes nothing about a record that could be read. */
  lemma {:induction false} RecordStays(log: Bytes, longer: Bytes, offset: nat, expected: nat)
    requires log <= longer && ReadRecord(log, offset, expected).Ok?
    ensures ReadRecord(longer, offset, expected) == ReadRecord(log, offset, expected)
  {
    hide ReadStored, FromLittleEndian;
    var start := offset + RECORD_HEADER_SIZE;
    assert longer[offset..offset + 4] == log[offset..offset + 4];
    assert longer[offset + 4..offset + 8] == log[offset + 4..offset + 8];
    assert longer[offset + 8..offset + 16] == log[offset + 8..offset + 16];
    assert longer[offset + 16..start] == log[offset + 16..start];
    assert longer[start..start + expected] == log[start..start + expected];
  }

  // ---------------------------------------------------------------- logs of records

  ghost predicate Recorded(blocks: seq<StoredBlock>) {
    forall i :: 0 <= i < |blocks| ==> Recordable(blocks[i]) && Storable(blocks[i])
  }

  /** The records of the blocks, one after the other. */
  ghost function Records(blocks: seq<StoredBlock>): Bytes
    requires Recorded(blocks)
  {
    if blocks == [] then [] else Records(blocks[..|blocks| - 1]) + RecordBytes(blocks[|blocks| - 1])
  }

  /** Where each header hash first occurs, with the offsets that appending one record after the other computes. */
  ghost function FirstOffsets(blocks: seq<StoredBlock>): Catalog
    requires Recorded(blocks)
  {
    if blocks == [] then map[] else
    var (front, last) := (blocks[..|blocks| - 1], blocks[|blocks| - 1]);
    var before := FirstOffsets(front);
    if HashOf(last) in before then before
    else before[HashOf(last) := IndexEntry(last.height, |Records(front)|, |StoredBytes(last)|, HashText(HashOf(last)))]
  }

  lemma {:induction false} RecordsPrefix(blocks: seq<StoredBlock>, k: nat)
    requires Recorded(blocks) && k <= |blocks|
    ensures Records(blocks[..k]) <= Records(blocks)
    decreases |blocks|
  {
    hide RecordBytes, Recordable, Storable;
    if k == |blocks| {
      assert blocks[..k] == blocks;
    } else {
      var front := blocks[..|blocks| - 1];
      RecordsPrefix(front, k);
      assert front[..k] == blocks[..k];
    }
  }

  lemma {:induction false} RecordsSplit(blocks: seq<StoredBlock>, k: nat)
    requires Recorded(blocks) && k < |blocks|
    ensures |Records(blocks[..k])| + |RecordBytes(blocks[k])| == |Records(blocks[..k + 1])|
    ensures At(Records(blocks), |Records(blocks[..k])|, RecordBytes(blocks[k]))
    ensures |Records(blocks[..k + 1])| <= |Records(blocks)|
  {
    hide RecordBytes, Recordable, Storable, Records, At;
    RecordsPrefix(blocks, k + 1);
    RecordsStep(blocks, k);
    AtMiddle(Records(blocks[..k]), RecordBytes(blocks[k]), Records(blocks));
  }

  lemma {:induction false} RecordsStep(blocks: seq<StoredBlock>, k: nat)
    requires Recorded(blocks) && k < |blocks|
    ensures Records(blocks[..k + 1]) == Records(blocks[..k]) + RecordBytes(blocks[k])
  {
    hide RecordBytes, Recordable, Storable;
    assert blocks[..k + 1][..k] == blocks[..k];
  }

  lemma {:induction false} AtMiddle(front: Bytes, bytes: Bytes, whole: Bytes)
    requires front + bytes <= whole
    ensures At(whole, |front|, bytes)
  {
    assert whole[|front|..|front| + |bytes|] == (front + bytes)[|front|..];
  }

  /** A strict prefix of a further record, as an interrupted append leaves. */
  ghost predicate Torn(tail: Bytes, next: StoredBlock)
    requires Recordable(next)
  {
    tail < RecordBytes(next)
  }

  lemma {:induction false} TornStopsScan(log: Bytes, tail: Bytes, next: StoredBlock)
    requires Recordable(next) && Torn(tail, next)
    ensures PayloadSize(log + tail, |log|) == None
  {
    hide LittleEndian, FromLittleEndian;
    var (whole, payload) := (log + tail, StoredBytes(next));
    var o := |log|;
    if |tail| >= RECORD_HEADER_SIZE {
      var record := RecordBytes(next);
      assert At(record, 0, record);
      RecordParts(record, 0, payload);
      assert whole[o + 8..o + 16] == tail[8..16] == record[8..16];
      assert FromLittleEndian(whole[o + 8..o + 16]) == |payload|;
    }
  }

  /** One scanned record takes the scan from the start of the k-th record to the next. */
  lemma {:induction false} ScanOneRecord(blocks: seq<StoredBlock>, tail: Bytes, k: nat)
    requires Recorded(blocks) && k < |blocks| && |Records(blocks) + tail| < TWO_64
    ensures |Records(blocks[..k])| < |Records(blocks[..k + 1])| < TWO_64
    ensures ScanFrom(Records(blocks) + tail, |Records(blocks[..k])|, FirstOffsets(blocks[..k]))
         == ScanFrom(Records(blocks) + tail, |Records(blocks[..k + 1])|, FirstOffsets(blocks[..k + 1]))
  {
    hide PayloadSize, ReadRecord, StoredBytes, Records, Storable;
    var (log, offset) := (Records(blocks) + tail, |Records(blocks[..k])|);
    RecordsSplit(blocks, k);
    AtLonger(Records(blocks), tail, offset, RecordBytes(blocks[k]));
    RecordReads(log, offset, blocks[k]);
    assert blocks[..k + 1][..k] == blocks[..k];
  }

  lemma {:induction false} AtLonger(log: Bytes, tail: Bytes, offset: nat, bytes: Bytes)
    requires At(log, offset, bytes)
    ensures At(log + tail, offset, bytes)
  {
    assert (log + tail)[offset..offset + |bytes|] == log[offset..offset + |bytes|];
  }

  /** Scanning any run of records, with or without an interrupted append behind it, yields exactly the first
      occurrence of each header hash, at the offsets that the appends computed. */
  lemma {:induction false} ScanFindsFirsts(blocks: seq<StoredBlock>, tail: Bytes)
    requires Recorded(blocks) && |Records(blocks) + tail| < TWO_64
    requires tail == [] || exists next: StoredBlock :: Recordable(next) && Torn(tail, next)
    ensures Scan(Records(blocks) + tail) == FirstOffsets(blocks)
  {
    hide PayloadSize, RecordBytes, Torn, Recordable, Storable, Scan, FirstOffsets, Records;
    if tail != [] {
      var next: StoredBlock :| Recordable(next) && Torn(tail, next);
      TornStopsScan(Records(blocks), tail, next);
    }
    ScanStopsBehind(blocks, tail);
  }

  /** Where an implausible header follows a run of records the scan stops, whatever comes after. */
  lemma {:induction false} ScanStopsBehind(blocks: seq<StoredBlock>, tail: Bytes)
    requires Recorded(blocks) && |Records(blocks) + tail| < TWO_64
    requires tail == [] || PayloadSize(Records(blocks) + tail, |Records(blocks)|).None?
    ensures Scan(Records(blocks) + tail) == FirstOffsets(blocks)
  {
    hide PayloadSize, RecordBytes, Recordable, Storable;
    var (log, n) := (Records(blocks) + tail, |blocks|);
    for k := 0 to n
      invariant |Records(blocks[..k])| < TWO_64
      invariant Scan(log) == ScanFrom(log, |Records(blocks[..k])|, FirstOffsets(blocks[..k]))
    {
      ScanOneRecord(blocks, tail, k);
    }
    assert blocks[..n] == blocks;
  }

  /** What a run of appends leaves, whole or torn: nothing, or something that begins as a record does, up to bytes of
      another record's beginning within the first four. */
  ghost predicate Begun(more: Bytes) {
    more != [] ==> more[0] == RECORD_MAGIC[0] && forall k :: 0 <= k < 4 && k < |more| ==> more[k] >= 0x39
  }

  lemma {:induction false} BegunJoins(a: Bytes, b: Bytes)
    requires Begun(a) && Begun(b)
    ensures Begun(a + b)
  {
    if a != [] && b != [] {
      forall k | 0 <= k < 4 && k < |a + b|
        ensures (a + b)[k] >= 0x39
      {
        if k >= |a| {
          assert (a + b)[k] == b[k - |a|];
        }
      }
    }
  }

  lemma {:induction false} PartBegun(part: Bytes, next: StoredBlock)
    requires Recordable(next) && part <= RecordBytes(next)
    ensures Begun(part)
  {
    hide StoredBytes, RecordOfPayload;
    RecordStart(StoredBytes(next));
    assert forall k :: 0 <= k < 4 && k < |part| ==> part[k] == RecordBytes(next)[..4][k];
  }

  /** A tail of less than sixteen bytes, as an append leaves that stopped so early, hides whatever is appended behind it, whole or torn: a
      header is pieced together from both that is never plausible. */
  lemma {:induction false} ShortTailStopsScan(log: Bytes, tail: Bytes, more: Bytes)
    requires 0 < |tail| < 16 && Begun(more)
    ensures PayloadSize(log + (tail + more), |log|).None?
  {
    hide FromLittleEndian;
    var t := |tail|;
    if |more| >= RECORD_HEADER_SIZE - t {
      if t < 4 {
        PiecedByte(log, tail, more, 0, 4, t);
      } else if t < 8 {
        PiecedByte(log, tail, more, 4, 8, 3);
        HighByteCounts((log + (tail + more))[|log| + 4..|log| + 8], 3);
      } else {
        var k := if t < 12 then t - 5 else 7;
        PiecedByte(log, tail, more, 8, 16, k);
        HighByteCounts((log + (tail + more))[|log| + 8..|log| + 16], k);
      }
    }
  }

  lemma {:induction false} PiecedByte(log: Bytes, tail: Bytes, more: Bytes, from: nat, to: nat, k: nat)
    requires |tail| <= from + k < to <= 16 && from + k - |tail| < |more| && to <= |tail| + |more|
    ensures (log + (tail + more))[|log| + from..|log| + to][k] == more[from + k - |tail|]
  {
  }

  lemma {:induction false} RecordStart(payload: Bytes)
    requires |payload| <= MAX_RECORD_SIZE
    ensures RecordOfPayload(payload)[..4] == RECORD_MAGIC
  {
    var rest := LittleEndian(|payload|, 8) + (LittleEndian(Checksum(payload), 32) + payload);
    var version := LittleEndian(RECORD_VERSION, 4);
    hide LittleEndian;
    assert RecordOfPayload(payload) == RECORD_MAGIC + (version + rest);
  }

  /** A byte at the k-th place counts 256 to the k. */
  lemma {:induction false} HighByteCounts(bytes: Bytes, k: nat)
    requires k < |bytes|
    ensures FromLittleEndian(bytes) >= bytes[k] * Pow256(k)
    ensures k >= 3 && bytes[k] >= 0x39 ==> FromLittleEndian(bytes) > MAX_RECORD_SIZE
  {
    if k > 0 {
      HighByteCounts(bytes[1..], k - 1);
      assert 256 * (bytes[k] * Pow256(k - 1)) == bytes[k] * (256 * Pow256(k - 1));
    }
    if k >= 3 && bytes[k] >= 0x39 {
      Pow256Three(k);
      ProductMonotone(0x39, bytes[k], Pow256(k));
    }
  }

  lemma {:induction false} Pow256Three(k: nat)
    requires k >= 3
    ensures Pow256(k) >= 0x100_0000 && (k >= 4 ==> Pow256(k) > 0x100_0000)
  {
    if k > 3 {
      Pow256Three(k - 1);
    } else {
      assert Pow256(3) == 256 * Pow256(2);
    }
  }

  /** The i-th block is the first with its hash, and this is its entry. */
  ghost predicate FirstAt(blocks: seq<StoredBlock>, hash: Hash256, i: nat, entry: IndexEntry)
    requires Recorded(blocks)
  {
    && i < |blocks| && HashOf(blocks[i]) == hash
    && (forall j :: 0 <= j < i ==> HashOf(blocks[j]) != hash)
    && entry.height == blocks[i].height && entry.hash == HashText(hash)
    && entry.offset == |Records(blocks[..i])| && entry.payloadSize == |StoredBytes(blocks[i])|
  }

  /** What the catalogue of first occurrences says: a hash is in it exactly if a block bears it, and its entry leads to
      the first such block. */
  lemma {:induction false} FirstOffsetsMeaning(blocks: seq<StoredBlock>, hash: Hash256)
    requires Recorded(blocks) && |Records(blocks)| < TWO_64
    ensures hash in FirstOffsets(blocks) <==> exists i :: 0 <= i < |blocks| && HashOf(blocks[i]) == hash
    ensures hash in FirstOffsets(blocks) ==> exists i :: FirstAt(blocks, hash, i, FirstOffsets(blocks)[hash])
  {
    hide RecordBytes, StoredBytes, Storable, AllValid;
    if blocks != [] {
      var (front, last) := (blocks[..|blocks| - 1], blocks[|blocks| - 1]);
      FirstOffsetsMeaning(front, hash);
      if hash in FirstOffsets(front) {
        var i :| FirstAt(front, hash, i, FirstOffsets(front)[hash]);
        FirstStays(blocks, hash, i, FirstOffsets(front)[hash]);
      } else if HashOf(last) == hash {
        assert FirstAt(blocks, hash, |blocks| - 1, FirstOffsets(blocks)[hash]);
      }
    }
  }

  lemma {:induction false} FirstStays(blocks: seq<StoredBlock>, hash: Hash256, i: nat, entry: IndexEntry)
    requires Recorded(blocks) && |blocks| > 0 && FirstAt(blocks[..|blocks| - 1], hash, i, entry)
    ensures FirstAt(blocks, hash, i, entry) && HashOf(blocks[i]) == hash
  {
    hide Recordable, Storable, Records, StoredBytes;
    var front := blocks[..|blocks| - 1];
    assert blocks[i] == front[i] && blocks[..i] == front[..i];
    assert forall j :: 0 <= j < i ==> blocks[j] == front[j];
  }

  /** Catalogued entries bear their hash as text, a proper payload size and an offset that fits. */
  ghost predicate Sane(catalog: Catalog) {
    forall h :: h in catalog ==> catalog[h].payloadSize <= MAX_RECORD_SIZE && catalog[h].hash == HashText(h) && catalog[h].offset < TWO_64
  }

  lemma {:induction false} ScanKeepsSane(log: Bytes, offset: nat, catalog: Catalog)
    requires |log| < TWO_64 && Sane(catalog)
    ensures Sane(ScanFrom(log, offset, catalog))
    decreases |log| - offset
  {
    hide PayloadSize, ReadRecord, HashText;
    PayloadInside(log, offset);
    var size := PayloadSize(log, offset);
    if offset < |log| && size.Some? {
      ScanKeepsSane(log, offset + RECORD_HEADER_SIZE + size.value, Entered(catalog, log, offset, size.value));
    }
  }

  /** Every entry leads to a readable record of its hash. */
  ghost predicate Leads(catalog: Catalog, log: Bytes) {
    forall h :: h in catalog ==>
      var block := ReadRecord(log, catalog[h].offset, catalog[h].payloadSize);
      block.Ok? && HashOf(block.value) == h
  }

  lemma {:induction false} ScanKeepsLeading(log: Bytes, offset: nat, catalog: Catalog)
    requires |log| < TWO_64 && Leads(catalog, log)
    ensures Leads(ScanFrom(log, offset, catalog), log)
    decreases |log| - offset
  {
    hide PayloadSize, ReadRecord, HashText;
    PayloadInside(log, offset);
    var size := PayloadSize(log, offset);
    if offset < |log| && size.Some? {
      ScanKeepsLeading(log, offset + RECORD_HEADER_SIZE + size.value, Entered(catalog, log, offset, size.value));
    }
  }

  /** Whatever the log, a scan only catalogues records that can be read, under their own hashes. */
  lemma {:induction false} ScanLeads(log: Bytes)
    requires |log| < TWO_64
    ensures Leads(Scan(log), log)
  {
    hide ScanFrom, ReadRecord;
    ScanKeepsLeading(log, 0, map[]);
  }

  lemma {:induction false} ScanSane(log: Bytes, hash: Hash256)
    requires |log| < TWO_64 && hash in Scan(log)
    ensures Scan(log)[hash].payloadSize <= MAX_RECORD_SIZE && Scan(log)[hash].hash == HashText(hash)
    ensures Scan(log)[hash].offset < TWO_64
  {
    hide ScanFrom, HashText;
    ScanKeepsSane(log, 0, map[]);
  }
}
