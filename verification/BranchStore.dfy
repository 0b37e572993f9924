/** The store of blocks that are known but not on the active chain (src/branch_store.cpp). */
module BranchStore {
  import opened Errors
  import opened Transactions
  import opened Blocks
  import opened Orders

  /** The first block with a given header hash among the first n. */
  ghost function FindBlock(blocks: seq<StoredBlock>, hash: Hash256, n: nat): Option<StoredBlock>
    requires n <= |blocks|
  {
    if n == 0 then None
    else if FindBlock(blocks, hash, n - 1).Some? then FindBlock(blocks, hash, n - 1)
    else if HashOf(blocks[n - 1]) == hash then Some(blocks[n - 1]) else None
  }

  method Find(blocks: seq<StoredBlock>, hash: Hash256) returns (found: Option<StoredBlock>)
    ensures found == FindBlock(blocks, hash, |blocks|)
  {
    for i := 0 to |blocks|
      invariant FindBlock(blocks, hash, i) == None
    {
      if HashOf(blocks[i]) == hash {
        FoundStays(blocks, hash, i + 1, |blocks|);
        return Some(blocks[i]);
      }
    }
    return None;
  }

  lemma {:induction false} FoundStays(blocks: seq<StoredBlock>, hash: Hash256, m: nat, n: nat)
    requires m <= n <= |blocks| && FindBlock(blocks, hash, m).Some?
    ensures FindBlock(blocks, hash, n) == FindBlock(blocks, hash, m)
    decreases n
  {
    if m < n {
      FoundStays(blocks, hash, m, n - 1);
    }
  }

  lemma {:induction false} FindBlockMeaning(blocks: seq<StoredBlock>, hash: Hash256, n: nat)
    requires n <= |blocks|
    ensures match FindBlock(blocks, hash, n)
            case None => forall k :: 0 <= k < n ==> HashOf(blocks[k]) != hash
            case Some(found) => HashOf(found) == hash && exists k :: 0 <= k < n && blocks[k] == found
  {
    if n > 0 {
      FindBlockMeaning(blocks, hash, n - 1);
    }
  }

  /** What putting a block leaves: the first block under a header hash stays. */
  ghost function Put(blocks: seq<StoredBlock>, block: StoredBlock): seq<StoredBlock> {
    if FindBlock(blocks, HashOf(block), |blocks|).Some? then blocks else blocks + [block]
  }

  ghost function PutAll(blocks: seq<StoredBlock>, more: seq<StoredBlock>, n: nat): seq<StoredBlock>
    requires n <= |more|
  {
    if n == 0 then blocks else Put(PutAll(blocks, more, n - 1), more[n - 1])
  }

  /** The first n blocks without those whose header hash is active. */
  ghost function Without(blocks: seq<StoredBlock>, active: set<Hash256>, n: nat): seq<StoredBlock>
    requires n <= |blocks|
  {
    if n == 0 then []
    else if HashOf(blocks[n - 1]) in active then Without(blocks, active, n - 1)
    else Without(blocks, active, n - 1) + [blocks[n - 1]]
  }

  /** No header hash is stored twice. */
  ghost predicate Distinct(blocks: seq<StoredBlock>) {
    forall i, j :: 0 <= i < j < |blocks| ==> HashOf(blocks[i]) != HashOf(blocks[j])
  }

  class SideBranchStore {
    var blocks: seq<StoredBlock>

    constructor ()
      ensures blocks == []
    {
      blocks := [];
    }

    method PutBlock(block: StoredBlock)
      modifies this
      ensures blocks == Put(old(blocks), block)
    {
      var found := Find(blocks, HashOf(block));
      if found.None? {
        blocks := blocks + [block];
      }
    }

    method PutMany(more: seq<StoredBlock>)
      modifies this
      ensures blocks == PutAll(old(blocks), more, |more|)
    {
      for i := 0 to |more|
        invariant blocks == PutAll(old(blocks), more, i)
      {
        PutBlock(more[i]);
      }
    }

    method RemoveActive(active: seq<StoredBlock>)
      modifies this
      ensures blocks == Without(old(blocks), Hashes(active), |old(blocks)|)
    {
      var activeHashes: set<Hash256> := {};
      for i := 0 to |active|
        invariant activeHashes == set k | 0 <= k < i :: HashOf(active[k])
      {
        activeHashes := activeHashes + {HashOf(active[i])};
      }
      var kept: seq<StoredBlock> := [];
      for i := 0 to |blocks|
        invariant blocks == old(blocks)
        invariant kept == Without(blocks, Hashes(active), i)
      {
        if HashOf(blocks[i]) !in activeHashes {
          kept := kept + [blocks[i]];
        }
      }
      blocks := kept;
    }
  }

  // ---------------------------------------------------------------- properties

  /** Putting keeps the store free of repeats, keeps what was there, and adds the block unless its hash is taken. */
  lemma {:induction false} PutKeeps(blocks: seq<StoredBlock>, block: StoredBlock)
    requires Distinct(blocks)
    ensures Distinct(Put(blocks, block)) && blocks <= Put(blocks, block)
    ensures FindBlock(Put(blocks, block), HashOf(block), |Put(blocks, block)|)
         == if FindBlock(blocks, HashOf(block), |blocks|).Some? then FindBlock(blocks, HashOf(block), |blocks|)
            else Some(block)
  {
    FindBlockMeaning(blocks, HashOf(block), |blocks|);
    FindPrefix(blocks, [block], HashOf(block), |blocks|);
  }

  lemma {:induction false} FindPrefix(blocks: seq<StoredBlock>, more: seq<StoredBlock>, hash: Hash256, n: nat)
    requires n <= |blocks|
    ensures FindBlock(blocks + more, hash, n) == FindBlock(blocks, hash, n)
  {
    if n > 0 {
      FindPrefix(blocks, more, hash, n - 1);
    }
  }

  /** Removal leaves exactly the inactive blocks, and no active one can be found afterwards. */
  lemma {:induction false} WithoutMembers(blocks: seq<StoredBlock>, active: set<Hash256>, n: nat, block: StoredBlock)
    requires n <= |blocks|
    ensures block in Without(blocks, active, n) <==> HashOf(block) !in active && block in blocks[..n]
  {
    if n > 0 {
      WithoutMembers(blocks, active, n - 1, block);
      assert blocks[..n] == blocks[..n - 1] + [blocks[n - 1]];
    }
  }

  lemma {:induction false} WithoutInOrder(blocks: seq<StoredBlock>, active: set<Hash256>, n: nat)
    requires n <= |blocks|
    ensures InOrder(Without(blocks, active, n), blocks[..n])
  {
    if n == 0 {
      NothingInOrder(blocks[..0]);
    } else {
      WithoutInOrder(blocks, active, n - 1);
      NextInOrder(Without(blocks, active, n - 1), blocks[..n - 1], blocks[n - 1]);
      assert blocks[..n] == blocks[..n - 1] + [blocks[n - 1]];
    }
  }

  /** Putting many blocks keeps the store free of repeats and what was there, adds in their order blocks that were given,
      and makes every one findable under its hash. */
  lemma {:induction false} PutAllMeaning(blocks: seq<StoredBlock>, more: seq<StoredBlock>, n: nat)
    requires n <= |more|
    ensures var all := PutAll(blocks, more, n);
            && blocks <= all && InOrder(all[|blocks|..], more[..n]) && (Distinct(blocks) ==> Distinct(all))
            && forall k :: 0 <= k < n ==> FindBlock(all, HashOf(more[k]), |all|).Some?
  {
    if n == 0 {
      NothingInOrder(more[..0]);
      assert blocks[|blocks|..] == [];
    } else {
      PutAllMeaning(blocks, more, n - 1);
      var (before, block) := (PutAll(blocks, more, n - 1), more[n - 1]);
      var all := PutAll(blocks, more, n);
      if Distinct(blocks) {
        PutKeeps(before, block);
      }
      NextInOrder(before[|blocks|..], more[..n - 1], block);
      assert more[..n] == more[..n - 1] + [block];
      if all != before {
        assert all[|blocks|..] == before[|blocks|..] + [block];
      }
      forall k | 0 <= k < n
        ensures FindBlock(all, HashOf(more[k]), |all|).Some?
      {
        FoundAfterPut(before, block, HashOf(more[k]));
      }
    }
  }

  // ---------------------------------------------------------------- which hashes are stored

  lemma {:induction false} FoundIsStored(blocks: seq<StoredBlock>, hash: Hash256)
    ensures FindBlock(blocks, hash, |blocks|).Some? <==> hash in Hashes(blocks)
  {
    FindBlockMeaning(blocks, hash, |blocks|);
  }

  lemma {:induction false} JoinedHashes(a: seq<StoredBlock>, b: seq<StoredBlock>)
    ensures Hashes(a + b) == Hashes(a) + Hashes(b)
  {
    forall hash | hash in Hashes(a) + Hashes(b)
      ensures hash in Hashes(a + b)
    {
      if hash in Hashes(a) {
        var k :| 0 <= k < |a| && HashOf(a[k]) == hash;
        assert (a + b)[k] == a[k];
      } else {
        var k :| 0 <= k < |b| && HashOf(b[k]) == hash;
        assert (a + b)[|a| + k] == b[k];
      }
    }
  }

  /** Putting adds the hashes of the blocks put and loses none. */
  lemma {:induction false} PutAllStores(blocks: seq<StoredBlock>, more: seq<StoredBlock>, n: nat)
    requires n <= |more|
    ensures Hashes(PutAll(blocks, more, n)) == Hashes(blocks) + Hashes(more[..n])
  {
    hide Hashes;
    if n == 0 {
      NoHashes();
    } else {
      PutAllStores(blocks, more, n - 1);
      PutStores(PutAll(blocks, more, n - 1), more[n - 1]);
      JoinedHashes(more[..n - 1], [more[n - 1]]);
      assert more[..n] == more[..n - 1] + [more[n - 1]];
    }
  }

  lemma {:induction false} NoHashes()
    ensures Hashes([]) == {}
  {
  }

  lemma {:induction false} PutStores(blocks: seq<StoredBlock>, block: StoredBlock)
    ensures Hashes(Put(blocks, block)) == Hashes(blocks) + Hashes([block])
  {
    hide Hashes;
    FoundIsStored(blocks, HashOf(block));
    JoinedHashes(blocks, [block]);
    OneHash(block);
  }

  lemma {:induction false} OneHash(block: StoredBlock)
    ensures Hashes([block]) == {HashOf(block)}
  {
    assert [block][0] == block;
  }

  /** Removal takes the active hashes and no others. */
  lemma {:induction false} WithoutStores(blocks: seq<StoredBlock>, active: set<Hash256>, n: nat)
    requires n <= |blocks|
    ensures Hashes(Without(blocks, active, n)) == Hashes(blocks[..n]) - active
  {
    hide Hashes;
    if n == 0 {
      NoHashes();
    } else {
      WithoutStores(blocks, active, n - 1);
      OneHash(blocks[n - 1]);
      JoinedHashes(blocks[..n - 1], [blocks[n - 1]]);
      JoinedHashes(Without(blocks, active, n - 1), [blocks[n - 1]]);
      assert blocks[..n] == blocks[..n - 1] + [blocks[n - 1]];
    }
  }

  lemma {:induction false} FoundAfterPut(blocks: seq<StoredBlock>, block: StoredBlock, hash: Hash256)
    ensures FindBlock(blocks, hash, |blocks|).Some? || HashOf(block) == hash ==>
              FindBlock(Put(blocks, block), hash, |Put(blocks, block)|).Some?
  {
    FindPrefix(blocks, [block], hash, |blocks|);
  }
}
