/** Rebuilding the best chain from every block record on disk (src/chain.cpp, reindex). */
module Reindexing {
  import opened Errors
  import opened Transactions
  import opened Blocks
  import opened Validation
  import opened Ledger

  type Records = map<Hash256, StoredBlock>

  /** Each record is filed under its own header hash. */
  ghost predicate WellKeyed(records: Records) {
    forall h :: h in records ==> HashOf(records[h]) == h
  }

  /** The first record of each header hash. */
  ghost function FirstRecords(blocks: seq<StoredBlock>, n: nat): (r: Records)
    requires n <= |blocks|
    ensures WellKeyed(r)
    ensures forall h :: h in r <==> exists k :: 0 <= k < n && HashOf(blocks[k]) == h
    ensures forall h :: h in r ==> r[h] in blocks[..n]
  {
    if n == 0 then map[] else
    var before := FirstRecords(blocks, n - 1);
    if HashOf(blocks[n - 1]) in before then before else before[HashOf(blocks[n - 1]) := blocks[n - 1]]
  }

  /** Of several records with one header hash the first counts. */
  lemma {:induction false} FirstRecordCounts(blocks: seq<StoredBlock>, n: nat, k: nat)
    requires k < n <= |blocks| && forall j :: 0 <= j < k ==> HashOf(blocks[j]) != HashOf(blocks[k])
    ensures FirstRecords(blocks, n)[HashOf(blocks[k])] == blocks[k]
  {
    if k < n - 1 {
      FirstRecordCounts(blocks, n - 1, k);
    }
  }

  method CollectRecords(blocks: seq<StoredBlock>) returns (byHash: Records)
    ensures byHash == FirstRecords(blocks, |blocks|)
  {
    byHash := map[];
    for i := 0 to |blocks|
      invariant byHash == FirstRecords(blocks, i)
    {
      if HashOf(blocks[i]) !in byHash {
        byHash := byHash[HashOf(blocks[i]) := blocks[i]];
      }
    }
  }

  /** The chain from genesis to a block, following parents; none if the walk leaves the records or repeats a block. */
  ghost function Walk(byHash: Records, current: StoredBlock, visited: set<Hash256>): Option<seq<StoredBlock>>
    requires WellKeyed(byHash) && HashOf(current) in byHash
    decreases byHash.Keys - visited
  {
    var h := HashOf(current);
    if h in visited then None
    else if h == TESTNET_GENESIS_HASH then Some([current])
    else if current.block.header.previousHash !in byHash then None
    else
      var rest := Walk(byHash, byHash[current.block.header.previousHash], visited + {h});
      if rest.None? then None else Some(rest.value + [current])
  }

  function Reverse(blocks: seq<StoredBlock>): (r: seq<StoredBlock>)
    ensures |r| == |blocks|
  {
    if blocks == [] then [] else Reverse(blocks[1..]) + [blocks[0]]
  }

  lemma {:induction false} ReverseAppend(blocks: seq<StoredBlock>, last: StoredBlock)
    ensures Reverse(blocks + [last]) == [last] + Reverse(blocks)
  {
    if blocks == [] {
      assert [last][1..] == [];
    } else {
      ReverseAppend(blocks[1..], last);
      assert (blocks + [last])[1..] == blocks[1..] + [last];
    }
  }

  ghost function Followed(path: Option<seq<StoredBlock>>, tail: seq<StoredBlock>): Option<seq<StoredBlock>> {
    if path.None? then None else Some(path.value + tail)
  }

  lemma {:induction false} FollowedByBlock(tail: seq<StoredBlock>, block: StoredBlock)
    ensures forall path: seq<StoredBlock> :: path + [block] + tail == path + ([block] + tail)
    ensures [block] + tail == [] + ([block] + tail)
  {
  }

  lemma {:induction false} FollowedByNothing(path: Option<seq<StoredBlock>>)
    ensures Followed(path, []) == path
  {
    if path.Some? {
      assert path.value + [] == path.value;
    }
  }

  /** The parent walk, for any graph of parents, cycles included: the visited set grows inside a finite map. */
  method WalkToGenesis(byHash: Records, tip: StoredBlock) returns (path: Option<seq<StoredBlock>>)
    requires WellKeyed(byHash) && HashOf(tip) in byHash
    ensures path == Walk(byHash, tip, {})
  {
    var reverse: seq<StoredBlock> := [];
    var visited: set<Hash256> := {};
    var current := tip;
    FollowedByNothing(Walk(byHash, tip, {}));
    while true
      invariant HashOf(current) in byHash && visited <= byHash.Keys
      invariant Walk(byHash, tip, {}) == Followed(Walk(byHash, current, visited), Reverse(reverse))
      decreases byHash.Keys - visited
    {
      var h := HashOf(current);
      if h in visited {
        return None;
      }
      visited := visited + {h};
      ReverseAppend(reverse, current);
      FollowedByBlock(Reverse(reverse), current);
      reverse := reverse + [current];
      if h == TESTNET_GENESIS_HASH {
        return Some(Reverse(reverse));
      }
      if current.block.header.previousHash !in byHash {
        return None;
      }
      current := byHash[current.block.header.previousHash];
    }
  }

  /** Every block of the chain is the record filed under its hash. */
  ghost predicate Assembled(chain: seq<StoredBlock>, byHash: Records) {
    forall i :: 0 <= i < |chain| ==> HashOf(chain[i]) in byHash && byHash[HashOf(chain[i])] == chain[i]
  }

  /** Walking down from any block of a verified, assembled chain retraces the chain: heights keep its blocks apart,
      so neither the visited check nor the genesis check can stop the walk early. */
  lemma {:induction false} WalkRetraces(chain: seq<StoredBlock>, byHash: Records, n: nat, visited: set<Hash256>)
    requires Verified(chain) && WellKeyed(byHash) && Assembled(chain, byHash) && n < |chain|
    requires forall k :: 0 <= k <= n ==> HashOf(chain[k]) !in visited
    ensures Walk(byHash, chain[n], visited) == Some(chain[..n + 1])
    decreases n
  {
    hide Verified, GenesisLocked;
    VerifiedLink(chain, n);
    GenesisHash(chain);
    if n == 0 {
      assert chain[..1] == [chain[0]];
    } else {
      forall k | 0 <= k < n
        ensures HashOf(chain[k]) != HashOf(chain[n])
      {
        VerifiedLink(chain, k);
      }
      WalkRetraces(chain, byHash, n - 1, visited + {HashOf(chain[n])});
      assert chain[..n + 1] == chain[..n] + [chain[n]];
    }
  }

  lemma {:induction false} GenesisHash(chain: seq<StoredBlock>)
    requires Verified(chain)
    ensures |chain| > 0 && HashOf(chain[0]) == TESTNET_GENESIS_HASH
  {
    hide VerifyPrefix;
  }

  /** A walk only ever visits records, and ends at the block it began with. */
  lemma {:induction false} WalkAssembled(byHash: Records, current: StoredBlock, visited: set<Hash256>)
    requires WellKeyed(byHash) && HashOf(current) in byHash && byHash[HashOf(current)] == current
    ensures var path := Walk(byHash, current, visited);
            path.Some? ==> Assembled(path.value, byHash) && |path.value| > 0
    decreases byHash.Keys - visited
  {
    if HashOf(current) !in visited && HashOf(current) != TESTNET_GENESIS_HASH
       && current.block.header.previousHash in byHash {
      WalkAssembled(byHash, byHash[current.block.header.previousHash], visited + {HashOf(current)});
    }
  }

  /** No verified chain assembled from the records that ends in one of the tips has more work than the bound. */
  ghost predicate NoneBetter(byHash: Records, tips: set<Hash256>, work: int) {
    forall chain :: |chain| > 0 && Verified(chain) && Assembled(chain, byHash) && HashOf(chain[|chain| - 1]) in tips ==>
      ChainWork(chain).Ok? && ChainWork(chain).value <= work
  }

  lemma {:induction false} NoneBetterNext(byHash: Records, tips: set<Hash256>, tip: Hash256, before: int, work: int)
    requires WellKeyed(byHash) && tip in byHash && NoneBetter(byHash, tips, before) && before <= work
    requires var path := Walk(byHash, byHash[tip], {});
             path.Some? && Verified(path.value) ==>
               ChainWork(path.value).Ok? && ChainWork(path.value).value <= work
    ensures NoneBetter(byHash, tips + {tip}, work)
  {
    hide Verified, ChainWork, Walk;
    forall chain | |chain| > 0 && Verified(chain) && Assembled(chain, byHash) && HashOf(chain[|chain| - 1]) in tips + {tip}
      ensures ChainWork(chain).Ok? && ChainWork(chain).value <= work
    {
      if HashOf(chain[|chain| - 1]) == tip {
        WalkRetraces(chain, byHash, |chain| - 1, {});
        assert chain[..|chain|] == chain;
      }
    }
  }

  lemma {:induction false} NothingTried(byHash: Records)
    requires WellKeyed(byHash)
    ensures NoneBetter(byHash, {}, -1)
  {
    hide Walk;
  }

  /** The chain that reindex installs: verified, made of scanned records, and with at least the work of every verified
      chain that can be made of them. It fails exactly when there is none. Tips may be tried in any order. */
  method BestChain(byHash: Records) returns (r: Result<seq<StoredBlock>>)
    requires WellKeyed(byHash)
    ensures r.Ok? ==> && Verified(r.value) && Assembled(r.value, byHash) && ChainWork(r.value).Ok?
                      && NoneBetter(byHash, byHash.Keys, ChainWork(r.value).value)
    ensures r.Err? ==> r.error == NoValidChain && NoneBetter(byHash, byHash.Keys, -1)
  {
    hide Verified, ChainWork, Walk, Assembled, NoneBetter;
    NothingTried(byHash);
    var best: seq<StoredBlock> := [];
    var bestWork: int := -1;
    ghost var tried: set<Hash256> := {};
    var todo := byHash.Keys;
    while todo != {}
      invariant todo <= byHash.Keys && tried == byHash.Keys - todo
      invariant bestWork >= -1 && (best == [] <==> bestWork == -1)
      invariant best != [] ==> Verified(best) && Assembled(best, byHash) && ChainWork(best) == Ok(bestWork)
      invariant NoneBetter(byHash, tried, bestWork)
      decreases todo
    {
      var tip :| tip in todo;
      ghost var before := bestWork;
      var path := WalkToGenesis(byHash, byHash[tip]);
      WalkAssembled(byHash, byHash[tip], {});
      if path.Some? {
        var verdict := VerifyBlocks(path.value);
        if verdict.Ok? {
          VerifiedWork(path.value);
          var work := CalculateChainwork(path.value);
          if work.value > bestWork {
            best := path.value;
            bestWork := work.value;
          }
        }
      }
      NoneBetterNext(byHash, tried, tip, before, bestWork);
      tried := tried + {tip};
      todo := todo - {tip};
    }
    assert tried == byHash.Keys;
    if best == [] {
      return Err(NoValidChain);
    }
    return Ok(best);
  }
}
