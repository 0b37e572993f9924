/** Header hashes as names of blocks: on verified chains they fix a block's place, its ancestry and its body
    (src/chain.cpp, src/block.cpp, src/merkle.cpp). */
module Identity {
  import opened Errors
  import opened Transactions
  import opened Blocks
  import opened Merkle
  import opened Validation
  import opened Ledger
  import H = History

  /** Header hashes do not collide on the headers of the two chains. */
  ghost predicate HeadersApart(a: seq<StoredBlock>, b: seq<StoredBlock>) {
    forall i, j :: 0 <= i < |a| && 0 <= j < |b| && HashOf(a[i]) == HashOf(b[j]) ==>
      a[i].block.header == b[j].block.header
  }

  ghost predicate SharesHash(a: seq<StoredBlock>, b: seq<StoredBlock>, n: nat) {
    && n <= |a| && n <= |b|
    && forall k :: 0 <= k < n ==> HashOf(a[k]) == HashOf(b[k])
  }

  lemma {:induction false} GenesisOnlyAtBottom(a: seq<StoredBlock>, b: seq<StoredBlock>, j: nat)
    requires Verified(a) && Verified(b) && HeadersApart(a, b)
    requires |a| > 0 && j < |b| && HashOf(a[0]) == HashOf(b[j])
    ensures j == 0
  {
    hide Verified;
    SharedGenesis(a, b);
    assert a[0].block.header == b[j].block.header;
    assert a[0].block.header == b[0].block.header;
    if j > 0 {
      TimesIncrease(b, 0, j);
    }
  }

  /** A block can only be shared at one height, and then so is everything below it: the headers' links lead both
      chains down together, and the strictly increasing times rule out a detour above genesis. */
  lemma {:induction false} SamePlace(a: seq<StoredBlock>, b: seq<StoredBlock>, i: nat, j: nat)
    requires Verified(a) && Verified(b) && HeadersApart(a, b)
    requires i < |a| && j < |b| && HashOf(a[i]) == HashOf(b[j])
    ensures i == j && SharesHash(a, b, i + 1)
    decreases i
  {
    hide Verified;
    if i == 0 {
      GenesisOnlyAtBottom(a, b, j);
    } else if j == 0 {
      assert HeadersApart(b, a);
      GenesisOnlyAtBottom(b, a, i);
    } else {
      VerifiedLink(a, i);
      VerifiedLink(b, j);
      assert a[i].block.header == b[j].block.header;
      SamePlace(a, b, i - 1, j - 1);
    }
  }

  lemma {:induction false} SharedGenesis(a: seq<StoredBlock>, b: seq<StoredBlock>)
    requires Verified(a) && Verified(b)
    ensures |a| > 0 && |b| > 0 && HashOf(a[0]) == HashOf(b[0]) == TESTNET_GENESIS_HASH
  {
    hide VerifyPrefix;
  }

  /** Where two verified chains part: everything up to it is shared and nothing beyond. */
  ghost function ForkPoint(a: seq<StoredBlock>, b: seq<StoredBlock>, n: nat): (c: nat)
    requires SharesHash(a, b, n) && n > 0
    ensures n - 1 <= c < |a| && c < |b| && SharesHash(a, b, c + 1)
    ensures c + 1 < |a| && c + 1 < |b| ==> HashOf(a[c + 1]) != HashOf(b[c + 1])
    decreases |a| - n
  {
    if n < |a| && n < |b| && HashOf(a[n]) == HashOf(b[n]) then ForkPoint(a, b, n + 1) else n - 1
  }

  /** Beyond the fork no block of one chain occurs anywhere in the other. */
  lemma {:induction false} NothingSharedBeyondFork(a: seq<StoredBlock>, b: seq<StoredBlock>, i: nat, j: nat)
    requires Verified(a) && Verified(b) && HeadersApart(a, b) && SharesHash(a, b, 1)
    requires i < |a| && j < |b| && HashOf(a[i]) == HashOf(b[j])
    ensures i == j <= ForkPoint(a, b, 1)
  {
    hide Verify, ForkPoint;
    SamePlace(a, b, i, j);
  }

  // ---------------------------------------------------------------- bodies

  /** Identifiers and pair hashes behave ideally on the transactions of a chain. */
  ghost predicate BodiesIdeal(blocks: seq<StoredBlock>, pairs: Pairs, leaves: set<Hash256>) {
    && Ideal(pairs, leaves)
    && forall i :: 0 <= i < |blocks| && |blocks[i].block.transactions| > 0 ==>
         && Merkle.Hashes(TxIds(blocks[i].block.transactions), pairs)
         && forall k :: 0 <= k < |blocks[i].block.transactions| ==> TxId(blocks[i].block.transactions[k]) in leaves
  }

  ghost predicate TxsApart(a: seq<Transaction>, b: seq<Transaction>) {
    forall i, j :: 0 <= i < |a| && 0 <= j < |b| && TxId(a[i]) == TxId(b[j]) ==> a[i] == b[j]
  }

  lemma {:induction false} RegularsAt(transactions: seq<Transaction>, height: nat, n: nat, k: nat)
    requires 0 < k < n <= |transactions|
    ensures |H.Regulars(transactions, height, n)| == n - 1
    ensures H.Regulars(transactions, height, n)[k - 1] == H.Entry(transactions[k], height, false)
    decreases n
  {
    if k < n - 1 {
      RegularsAt(transactions, height, n - 1, k);
    } else if n > 2 {
      RegularsAt(transactions, height, n - 1, 1);
    }
  }

  lemma {:induction false} BlockEntryAt(transactions: seq<Transaction>, height: nat, k: nat)
    requires k < |transactions|
    ensures var place := if k == 0 then |transactions| - 1 else k - 1;
            var entries := H.BlockEntries(transactions, height);
            |entries| == |transactions| && entries[place].tx == transactions[k]
  {
    if |transactions| > 1 {
      RegularsAt(transactions, height, |transactions|, if k == 0 then 1 else k);
    }
  }

  lemma {:induction false} BlockEntriesInside(blocks: seq<StoredBlock>, i: nat, n: nat)
    requires 0 < i < n <= |blocks|
    ensures var before := H.Entries(blocks, i);
            before + H.BlockEntries(blocks[i].block.transactions, i) <= H.Entries(blocks, n)
    decreases n
  {
    hide H.BlockEntries;
    if i < n - 1 {
      BlockEntriesInside(blocks, i, n - 1);
    }
  }

  /** In a chain without double spends no block lists a transaction twice. */
  lemma {:induction false} BlockIdsDistinct(blocks: seq<StoredBlock>, i: nat)
    requires 0 < i < |blocks| && H.DistinctIds(H.Entries(blocks, |blocks|))
    ensures NoRepeats(TxIds(blocks[i].block.transactions))
  {
    hide H.Entries, H.BlockEntries;
    var transactions := blocks[i].block.transactions;
    var ids := TxIds(transactions);
    var start := |H.Entries(blocks, i)|;
    var entries := H.Entries(blocks, |blocks|);
    BlockEntriesInside(blocks, i, |blocks|);
    forall j, k | 0 <= j < k < |ids|
      ensures ids[j] != ids[k]
    {
      BlockEntryAt(transactions, i, j);
      BlockEntryAt(transactions, i, k);
      var placeJ := if j == 0 then |transactions| - 1 else j - 1;
      var inside := H.BlockEntries(transactions, i);
      assert entries[start + placeJ] == inside[placeJ];
      assert entries[start + k - 1] == inside[k - 1];
    }
  }

  /** A header names its body: two blocks of verified chains without double spends that share a header hash are the same
      block. Above genesis their roots show it, at genesis the locked identifier of the coinbase does. */
  lemma {:induction false} HeaderIdentifiesBlock(a: seq<StoredBlock>, b: seq<StoredBlock>, i: nat, j: nat,
                                                 pairs: Pairs, leaves: set<Hash256>)
    requires Verified(a) && Verified(b) && HeadersApart(a, b)
    requires H.DistinctIds(H.Entries(a, |a|)) && H.DistinctIds(H.Entries(b, |b|))
    requires BodiesIdeal(a, pairs, leaves) && BodiesIdeal(b, pairs, leaves)
    requires i < |a| && j < |b| && TxsApart(a[i].block.transactions, b[j].block.transactions)
    requires HashOf(a[i]) == HashOf(b[j])
    ensures a[i] == b[j]
  {
    hide VerifyPrefix, Root, Merkle.Hashes, Ideal, H.DistinctIds, NoRepeats;
    SamePlace(a, b, i, j);
    if i == 0 {
      SameGenesis(a, b);
      return;
    }
    VerifiedRoot(a, i);
    VerifiedRoot(b, j);
    var (x, y) := (TxIds(a[i].block.transactions), TxIds(b[j].block.transactions));
    BlockIdsDistinct(a, i);
    BlockIdsDistinct(b, j);
    RootIdentifiesList(x, y, pairs, leaves);
    forall k | 0 <= k < |x|
      ensures a[i].block.transactions[k] == b[j].block.transactions[k]
    {
      assert x[k] == y[k];
    }
    assert a[i].block.transactions == b[j].block.transactions;
    VerifiedHeaders(a, i);
    VerifiedHeaders(b, j);
  }

  lemma {:induction false} SameGenesis(a: seq<StoredBlock>, b: seq<StoredBlock>)
    requires Verified(a) && Verified(b) && HeadersApart(a, b)
    requires |a| > 0 && |b| > 0 && TxsApart(a[0].block.transactions, b[0].block.transactions)
    ensures a[0] == b[0]
  {
    hide VerifyPrefix, StructureValid, IsCoinbase;
    assert TxId(a[0].block.transactions[0]) == TxId(b[0].block.transactions[0]);
    assert a[0].block.transactions == b[0].block.transactions;
  }

  lemma {:induction false} VerifiedRoot(blocks: seq<StoredBlock>, i: nat)
    requires Verified(blocks) && 0 < i < |blocks|
    ensures |blocks[i].block.transactions| > 0
    ensures Root(TxIds(blocks[i].block.transactions)) == blocks[i].block.header.merkleRoot
  {
    hide VerifyPrefix, Root, CheckProofOfWork;
    VerifiedHeaders(blocks, i);
  }
}
