/** Header records and the server's side of headers-first synchronisation (src/net.cpp). */
module Headers {
  import opened Errors
  import opened Transactions
  import opened Blocks
  import opened Locator

  const MAX_HEADERS_PER_RESPONSE := 2000
  const MAX_INVENTORY_ITEMS := 500
  const MAX_SYNC_HEIGHT := 1_000_000

  datatype HeaderRecord = HeaderRecord(height: u64, header: BlockHeader)

  function HashOfRecord(record: HeaderRecord): Hash256 {
    HeaderHash(record.header)
  }

  function RecordOf(stored: StoredBlock): HeaderRecord {
    HeaderRecord(stored.height, stored.block.header)
  }

  /** The records of the blocks from one index up to another. */
  function RecordsOf(blocks: seq<StoredBlock>, from: nat, to: nat): (r: seq<HeaderRecord>)
    requires from <= to <= |blocks|
    ensures |r| == to - from
    ensures forall k :: 0 <= k < |r| ==> r[k] == RecordOf(blocks[from + k])
  {
    seq(to - from, k requires 0 <= k < to - from => RecordOf(blocks[from + k]))
  }

  /** The answer to a header request: the blocks after the fork, at most 2000, up to the stop hash if one is given. */
  ghost function Answer(blocks: seq<StoredBlock>, index: nat, stop: Hash256, count: nat): seq<HeaderRecord>
    decreases |blocks| - index
  {
    if index >= |blocks| || count >= MAX_HEADERS_PER_RESPONSE then []
    else if stop != 0 && HashOf(blocks[index]) == stop then [RecordOf(blocks[index])]
    else [RecordOf(blocks[index])] + Answer(blocks, index + 1, stop, count + 1)
  }

  ghost function HeadersAfter(blocks: seq<StoredBlock>, locator: seq<Hash256>, stop: Hash256): seq<HeaderRecord> {
    Answer(blocks, LocateFork(blocks, locator) + 1, stop, 0)
  }

  method HeadersAfterLocator(blocks: seq<StoredBlock>, locator: seq<Hash256>, stop: Hash256)
    returns (result: seq<HeaderRecord>)
    ensures result == HeadersAfter(blocks, locator, stop)
  {
    hide Answer, HashOf, LocateFork;
    var fork := LocateForkIndex(blocks, locator);
    ghost var all := Answer(blocks, fork + 1, stop, 0);
    result := [];
    var index := fork + 1;
    while index < |blocks| && |result| < MAX_HEADERS_PER_RESPONSE
      invariant all == result + Answer(blocks, index, stop, |result|)
      decreases |blocks| - index
    {
      var stored := blocks[index];
      AnswerNext(result, blocks, index, stop);
      result := result + [RecordOf(stored)];
      if stop != 0 && HashOf(stored) == stop {
        return;
      }
      index := index + 1;
    }
    AnswerEnds(blocks, index, stop, |result|);
  }

  lemma {:induction false} AnswerNext(front: seq<HeaderRecord>, blocks: seq<StoredBlock>, index: nat, stop: Hash256)
    requires index < |blocks| && |front| < MAX_HEADERS_PER_RESPONSE
    ensures var (whole, listed) := (front + Answer(blocks, index, stop, |front|), front + [RecordOf(blocks[index])]);
            whole == if stop != 0 && HashOf(blocks[index]) == stop then listed
                     else listed + Answer(blocks, index + 1, stop, |listed|)
  {
  }

  lemma {:induction false} AnswerEnds(blocks: seq<StoredBlock>, index: nat, stop: Hash256, count: nat)
    requires index >= |blocks| || count >= MAX_HEADERS_PER_RESPONSE
    ensures Answer(blocks, index, stop, count) == []
  {
  }

  /** Without a stop hash the answer is simply the next 2000 blocks, or all that are left. */
  lemma {:induction false} AnswerIsNextBlocks(blocks: seq<StoredBlock>, index: nat, count: nat)
    requires index <= |blocks| && count <= MAX_HEADERS_PER_RESPONSE
    ensures var left := MAX_HEADERS_PER_RESPONSE - count;
            var to := if index + left < |blocks| then index + left else |blocks|;
            Answer(blocks, index, 0, count) == RecordsOf(blocks, index, to)
    decreases |blocks| - index
  {
    if index < |blocks| && count < MAX_HEADERS_PER_RESPONSE {
      AnswerIsNextBlocks(blocks, index + 1, count + 1);
    }
  }

  /** The answer is a run of blocks up to one place, which is the first with the stop hash, unless 2000 or the end of the
      chain come before it. */
  ghost predicate StopsAt(blocks: seq<StoredBlock>, index: nat, stop: Hash256, count: nat, to: nat)
    requires index <= |blocks| && count <= MAX_HEADERS_PER_RESPONSE
  {
    && index <= to <= |blocks| && Answer(blocks, index, stop, count) == RecordsOf(blocks, index, to)
    && count + (to - index) <= MAX_HEADERS_PER_RESPONSE
    && (forall k :: index <= k < to - 1 ==> HashOf(blocks[k]) != stop)
    && (to == |blocks| || count + (to - index) == MAX_HEADERS_PER_RESPONSE
        || (index < to && HashOf(blocks[to - 1]) == stop))
  }

  lemma {:induction false} AnswerStops(blocks: seq<StoredBlock>, index: nat, stop: Hash256, count: nat)
    requires index <= |blocks| && count <= MAX_HEADERS_PER_RESPONSE && stop != 0
    ensures exists to :: StopsAt(blocks, index, stop, count, to)
    decreases |blocks| - index
  {
    if index == |blocks| || count == MAX_HEADERS_PER_RESPONSE {
      assert StopsAt(blocks, index, stop, count, index);
    } else if HashOf(blocks[index]) == stop {
      assert StopsAt(blocks, index, stop, count, index + 1);
    } else {
      AnswerStops(blocks, index + 1, stop, count + 1);
      var to :| StopsAt(blocks, index + 1, stop, count + 1, to);
      assert RecordsOf(blocks, index, to) == [RecordOf(blocks[index])] + RecordsOf(blocks, index + 1, to);
      assert StopsAt(blocks, index, stop, count, to);
    }
  }

  /** What the receiver requires of each record before anything else. */
  predicate WorkShown(record: HeaderRecord) {
    record.header.bits == TESTNET_BITS && CheckProofOfWork(HashOfRecord(record), record.header.bits) == Ok(true)
  }

  method AcceptBatch(batch: seq<HeaderRecord>) returns (r: Result<()>)
    ensures r.Ok? <==> |batch| <= MAX_HEADERS_PER_RESPONSE && forall k :: 0 <= k < |batch| ==> WorkShown(batch[k])
  {
    if |batch| > MAX_HEADERS_PER_RESPONSE {
      return Err(LimitExceeded);
    }
    for i := 0 to |batch|
      invariant forall k :: 0 <= k < i ==> WorkShown(batch[k])
    {
      if !WorkShown(batch[i]) {
        return Err(BadProofOfWork);
      }
    }
    return Ok(());
  }

  // ---------------------------------------------------------------- runs of headers

  /** One header on top of another: work shown, linked, one higher and later. */
  ghost predicate Follows(below: HeaderRecord, next: HeaderRecord) {
    && WorkShown(next)
    && next.height == below.height + 1
    && next.header.previousHash == HashOfRecord(below)
    && next.header.time > below.header.time
  }

  ghost function Below(base: HeaderRecord, headers: seq<HeaderRecord>, k: nat): HeaderRecord
    requires k <= |headers|
  {
    if k == 0 then base else headers[k - 1]
  }

  /** The headers lead upwards from the base, each following the one before. */
  ghost predicate Continues(base: HeaderRecord, headers: seq<HeaderRecord>) {
    forall k :: 0 <= k < |headers| ==> Follows(Below(base, headers, k), headers[k])
  }

  lemma {:induction false} ContinuesNext(base: HeaderRecord, headers: seq<HeaderRecord>, next: HeaderRecord)
    ensures Continues(base, headers + [next]) <==>
              Continues(base, headers) && Follows(Below(base, headers, |headers|), next)
  {
    hide Follows;
    var longer := headers + [next];
    assert forall k :: 0 <= k < |headers| ==> longer[k] == headers[k];
    assert longer[|headers|] == next;
    if Continues(base, longer) {
      forall k | 0 <= k < |headers|
        ensures Follows(Below(base, headers, k), headers[k])
      {
        assert Follows(Below(base, longer, k), longer[k]);
      }
    }
  }

  lemma {:induction false} ContinuesPrefix(base: HeaderRecord, headers: seq<HeaderRecord>, n: nat)
    requires Continues(base, headers) && n <= |headers|
    ensures Continues(base, headers[..n])
  {
    hide Follows;
    forall k | 0 <= k < n
      ensures Follows(Below(base, headers[..n], k), headers[..n][k])
    {
      assert Follows(Below(base, headers, k), headers[k]);
    }
  }

  lemma {:induction false} FollowsAt(base: HeaderRecord, headers: seq<HeaderRecord>, k: nat)
    requires Continues(base, headers) && k < |headers|
    ensures headers[k].height == Below(base, headers, k).height + 1
    ensures Follows(Below(base, headers, k), headers[k])
  {
    hide WorkShown;
  }

  lemma {:induction false} HeightOfHeader(base: HeaderRecord, headers: seq<HeaderRecord>, k: nat)
    requires Continues(base, headers) && k < |headers|
    ensures headers[k].height == base.height + 1 + k
  {
    hide Continues;
    FollowsAt(base, headers, k);
    if k > 0 {
      HeightOfHeader(base, headers, k - 1);
    }
  }
}
