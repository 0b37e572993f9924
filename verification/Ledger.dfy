/** What every verified chain keeps: money is conserved, nothing overflows, the rebuilt UTXO map agrees, and work
    is length (src/chain.cpp, src/utxo.cpp, src/amount.hpp). */
module Ledger {
  import opened Arithmetic
  import opened Amounts
  import opened Errors
  import opened Transactions
  import opened Blocks
  import opened Utxo
  import opened UtxoRules
  import opened Validation

  // ---------------------------------------------------------------- conservation

  /** Fees are exactly what the block's transactions take out of the set. */
  lemma {:induction false} TransactionsConserve(transactions: seq<Transaction>, height: nat, coins: Utxos, n: nat)
    requires n <= |transactions| && CoinsInRange(coins)
    requires ConnectTransactions(transactions, height, coins, n).Ok?
    ensures var (fees, after) := ConnectTransactions(transactions, height, coins, n).value;
            Total(after) + fees == Total(coins) && 0 <= fees && CoinsInRange(after)
  {
    hide Apply;
    if n > 1 {
      TransactionsConserve(transactions, height, coins, n - 1);
      ApplyConserves(transactions[n - 1], height,
                     ConnectTransactions(transactions, height, coins, n - 1).value.1);
    }
  }

  /** A connected block adds its subsidy to the money in the set, whatever it spends and whatever fees it claims. */
  lemma {:induction false} BlockAddsSubsidy(transactions: seq<Transaction>, height: nat, coins: Utxos)
    requires |transactions| > 0 && CoinsInRange(coins) && ConnectBlock(transactions, height, coins).Ok?
    ensures var after := ConnectBlock(transactions, height, coins).value;
            Total(after) == Total(coins) + BlockSubsidy(height) && CoinsInRange(after)
  {
    hide Apply, AddCoinbase, ConnectTransactions;
    TransactionsConserve(transactions, height, coins, |transactions|);
    AddCoinbaseCreates(transactions[0], height,
                       ConnectTransactions(transactions, height, coins, |transactions|).value.1);
  }

  lemma {:induction false} PrefixConserves(blocks: seq<StoredBlock>, n: nat)
    requires 0 < n <= |blocks| && VerifyPrefix(blocks, n).Ok?
    ensures var coins := VerifyPrefix(blocks, n).value;
            Total(coins) == IssuedBy(n - 1) && CoinsInRange(coins)
  {
    hide ConnectBlock, CheckTransactionShape, BlockSubsidy;
    if n > 1 {
      PrefixConserves(blocks, n - 1);
      ConnectedBlockShape(blocks, n);
      BlockAddsSubsidy(blocks[n - 1].block.transactions, n - 1, VerifyPrefix(blocks, n - 1).value);
    }
  }

  lemma {:induction false} CheckedBlockShape(blocks: seq<StoredBlock>, i: nat)
    requires 0 < i < |blocks| && CheckBlock(blocks, i).Ok?
    ensures CoinbaseFirstOnly(blocks[i].block.transactions) && blocks[i].height == i
    ensures var transactions := blocks[i].block.transactions;
            forall k :: 0 <= k < |transactions| ==> StructureValid(transactions[k])
  {
    hide CheckProofOfWork, StructureValid;
  }

  lemma {:induction false} ConnectedBlockShape(blocks: seq<StoredBlock>, n: nat)
    requires 1 < n <= |blocks| && VerifyPrefix(blocks, n).Ok?
    ensures CoinbaseFirstOnly(blocks[n - 1].block.transactions) && blocks[n - 1].height == n - 1
    ensures var transactions := blocks[n - 1].block.transactions;
            forall i :: 0 <= i < |transactions| ==> StructureValid(transactions[i])
    ensures VerifyPrefix(blocks, n - 1).Ok?
    ensures VerifyPrefix(blocks, n)
         == ConnectBlock(blocks[n - 1].block.transactions, n - 1, VerifyPrefix(blocks, n - 1).value)
  {
    hide ConnectBlock, CheckBlock, StructureValid;
    VerifyPrefixLast(blocks, n);
    CheckedBlockShape(blocks, n - 1);
  }

  /** The UTXO values of a verified chain sum exactly to the subsidies of its heights from 1, below MAX_MONEY. */
  lemma {:induction false} Conservation(blocks: seq<StoredBlock>)
    requires Verified(blocks)
    ensures var coins := Verify(blocks).value;
            Total(coins) == IssuedBy(|blocks| - 1) < MAX_MONEY && CoinsInRange(coins)
  {
    hide VerifyPrefix, GenesisLocked, IssuedBy, Total;
    PrefixConserves(blocks, |blocks|);
    IssuedByBound(|blocks| - 1);
  }

  // ---------------------------------------------------------------- guards that never fire

  lemma {:induction false} NoTransactionOverflow(transactions: seq<Transaction>, height: nat, coins: Utxos, n: nat)
    requires n <= |transactions| && CoinsInRange(coins) && Total(coins) <= MAX_MONEY
    ensures var r := ConnectTransactions(transactions, height, coins, n);
            r != Err(InputTotalOverflow) && r != Err(BlockFeeOverflow)
  {
    hide Apply;
    if n > 1 {
      NoTransactionOverflow(transactions, height, coins, n - 1);
      var before := ConnectTransactions(transactions, height, coins, n - 1);
      if before.Ok? {
        TransactionsConserve(transactions, height, coins, n - 1);
        var tx := transactions[n - 1];
        InputTotalNeverOverflows(tx, height, before.value.1);
        ApplyNeverFeeError(tx, height, before.value.1);
        if Apply(tx, height, before.value.1).0.Ok? {
          ApplyConserves(tx, height, before.value.1);
          TotalNonNegative(Apply(tx, height, before.value.1).1);
        }
      }
    }
  }

  lemma {:induction false} ApplyNeverFeeError(tx: Transaction, height: nat, coins: Utxos)
    ensures Apply(tx, height, coins).0 != Err(BlockFeeOverflow)
  {
    CheckInputsErrors(tx, height, coins, |tx.inputs|);
    if StructureValid(tx) {
      AddOutputsMeaning(tx.outputs, TxId(tx), height, false, coins - SpentBy(tx.inputs), |tx.outputs|);
    }
  }

  /** On top of a verified chain of any height, whatever block comes next, neither the input-total guard nor the
      block-fee guard nor the coinbase-reward guard can fire. */
  lemma {:induction false} OverflowGuardsNeverFire(blocks: seq<StoredBlock>, transactions: seq<Transaction>)
    requires Verified(blocks) && |transactions| > 0
    ensures var (height, coins) := (|blocks|, Verify(blocks).value);
            && ConnectBlock(transactions, height, coins) != Err(InputTotalOverflow)
            && ConnectBlock(transactions, height, coins) != Err(BlockFeeOverflow)
            && (var connected := ConnectTransactions(transactions, height, coins, |transactions|);
                connected.Ok? ==> BlockSubsidy(height) <= MAX_MONEY - connected.value.0)
  {
    hide ConnectTransactions, BlockSubsidy, Apply, AddCoinbase;
    var (height, coins) := (|blocks|, Verify(blocks).value);
    Conservation(blocks);
    NoTransactionOverflow(transactions, height, coins, |transactions|);
    var connected := ConnectTransactions(transactions, height, coins, |transactions|);
    if connected.Ok? {
      TransactionsConserve(transactions, height, coins, |transactions|);
      TotalNonNegative(connected.value.1);
      IssuedByBound(height);
      AddCoinbaseErrors(transactions[0], height, connected.value.1);
    }
  }

  lemma {:induction false} AddCoinbaseErrors(coinbase: Transaction, height: nat, coins: Utxos)
    ensures var r := AddCoinbase(coinbase, height, coins).0;
            r.Ok? || r.error == BadStructure || r.error == DuplicateOutput
  {
    if StructureValid(coinbase) {
      AddOutputsMeaning(coinbase.outputs, TxId(coinbase), height, true, coins, |coinbase.outputs|);
    }
  }

  // ---------------------------------------------------------------- the cache

  lemma {:induction false} RebuildTransactionsAgrees(transactions: seq<Transaction>, height: nat, coins: Utxos, n: nat)
    requires n <= |transactions| && ConnectTransactions(transactions, height, coins, n).Ok?
    ensures RebuildTransactions(transactions, height, coins, n)
         == Ok(ConnectTransactions(transactions, height, coins, n).value.1)
  {
    hide Apply;
    if n > 1 {
      RebuildTransactionsAgrees(transactions, height, coins, n - 1);
    }
  }

  lemma {:induction false} RebuildAgreesPrefix(blocks: seq<StoredBlock>, n: nat)
    requires n <= |blocks| && VerifyPrefix(blocks, n).Ok?
    ensures Rebuild(blocks, n) == VerifyPrefix(blocks, n)
  {
    hide Apply, AddCoinbase, ConnectTransactions, CheckTransactionShape, RebuildTransactions;
    if n > 1 {
      RebuildAgreesPrefix(blocks, n - 1);
      ConnectedBlockShape(blocks, n);
      var transactions := blocks[n - 1].block.transactions;
      RebuildTransactionsAgrees(transactions, n - 1, VerifyPrefix(blocks, n - 1).value, |transactions|);
    }
  }

  /** Rebuilding the UTXO map of a verified chain from its blocks gives the map that validation folded. */
  lemma {:induction false} RebuildAgrees(blocks: seq<StoredBlock>)
    requires Verified(blocks)
    ensures Rebuild(blocks, |blocks|) == Verify(blocks)
  {
    RebuildAgreesPrefix(blocks, |blocks|);
  }

  // ---------------------------------------------------------------- where coins come from

  /** The coins were created below a height, by outputs that transactions can have. */
  ghost predicate CreatedBelow(coins: Utxos, height: nat) {
    forall o :: o in coins ==> coins[o].height < height && o.index < MAX_TRANSACTION_ITEMS
  }

  lemma {:induction false} AddedBelow(outputs: seq<TxOutput>, txid: Hash256, height: nat, coinbase: bool, coins: Utxos, n: nat)
    requires n <= |outputs| <= MAX_TRANSACTION_ITEMS && CreatedBelow(coins, height + 1)
    ensures CreatedBelow(AddOutputs(outputs, txid, height, coinbase, coins, n).1, height + 1)
  {
    if n > 0 {
      AddedBelow(outputs, txid, height, coinbase, coins, n - 1);
    }
  }

  lemma {:induction false} ConnectedBelow(transactions: seq<Transaction>, height: nat, coins: Utxos, n: nat)
    requires n <= |transactions| && CreatedBelow(coins, height + 1)
    requires ConnectTransactions(transactions, height, coins, n).Ok?
    ensures CreatedBelow(ConnectTransactions(transactions, height, coins, n).value.1, height + 1)
  {
    hide CheckInputs, AddOutputs, StructureValid;
    if n > 1 {
      ConnectedBelow(transactions, height, coins, n - 1);
      var before := ConnectTransactions(transactions, height, coins, n - 1).value.1;
      var tx := transactions[n - 1];
      AppliedBelow(tx, height, before);
    }
  }

  lemma {:induction false} AppliedBelow(tx: Transaction, height: nat, coins: Utxos)
    requires CreatedBelow(coins, height + 1)
    ensures CreatedBelow(Apply(tx, height, coins).1, height + 1)
  {
    hide CheckInputs, AddOutputs;
    if StructureValid(tx) {
      AddedBelow(tx.outputs, TxId(tx), height, false, coins - SpentBy(tx.inputs), |tx.outputs|);
    }
  }

  lemma {:induction false} PrefixBelow(blocks: seq<StoredBlock>, n: nat)
    requires 0 < n <= |blocks| && VerifyPrefix(blocks, n).Ok?
    ensures CreatedBelow(VerifyPrefix(blocks, n).value, n)
  {
    hide ConnectTransactions, CheckBlock, AddOutputs;
    if n > 1 {
      PrefixBelow(blocks, n - 1);
      ConnectedBlockShape(blocks, n);
      var (transactions, coins) := (blocks[n - 1].block.transactions, VerifyPrefix(blocks, n - 1).value);
      ConnectedBelow(transactions, n - 1, coins, |transactions|);
      var connected := ConnectTransactions(transactions, n - 1, coins, |transactions|).value.1;
      AddedBelow(transactions[0].outputs, TxId(transactions[0]), n - 1, true, connected, |transactions[0].outputs|);
    }
  }

  /** The newest coinbase of a verified chain is unspent. */
  lemma {:induction false} NewestCoinbaseUnspent(blocks: seq<StoredBlock>)
    requires Verified(blocks) && |blocks| > 1
    ensures exists o :: o in Verify(blocks).value && Verify(blocks).value[o].height == |blocks| - 1
  {
    hide VerifyPrefix, GenesisLocked, AddCoinbase, ConnectTransactions, CheckBlock;
    var n := |blocks|;
    assert VerifyPrefix(blocks, n).Ok?;
    ConnectedBlockShape(blocks, n);
    PrefixConserves(blocks, n - 1);
    var (transactions, coins) := (blocks[n - 1].block.transactions, VerifyPrefix(blocks, n - 1).value);
    TransactionsConserve(transactions, n - 1, coins, |transactions|);
    var connected := ConnectTransactions(transactions, n - 1, coins, |transactions|).value.1;
    AddCoinbaseCreates(transactions[0], n - 1, connected);
    assert OutPoint(TxId(transactions[0]), 0) in Verify(blocks).value;
  }

  // ---------------------------------------------------------------- links, prefixes and work

  lemma {:induction false} PrefixVerified(blocks: seq<StoredBlock>, m: nat, n: nat)
    requires m <= n <= |blocks| && VerifyPrefix(blocks, n).Ok?
    ensures VerifyPrefix(blocks, m).Ok?
  {
    VerifyPrefixStops(blocks, m, n);
  }

  /** The pass over a prefix does not look beyond it. */
  lemma {:induction false} VerifyPrefixLocal(a: seq<StoredBlock>, b: seq<StoredBlock>, n: nat)
    requires n <= |a| && n <= |b| && a[..n] == b[..n]
    ensures VerifyPrefix(a, n) == VerifyPrefix(b, n)
  {
    hide ConnectBlock, CheckTransactionShape;
    if n > 0 {
      assert a[n - 1] == a[..n][n - 1] == b[n - 1];
      assert n > 1 ==> a[n - 2] == a[..n][n - 2] == b[n - 2];
      assert a[..n - 1] == a[..n][..n - 1] == b[..n - 1];
      VerifyPrefixLocal(a, b, n - 1);
    }
  }

  /** The header rules every block of a verified chain obeys. */
  lemma {:induction false} VerifiedHeaders(blocks: seq<StoredBlock>, i: nat)
    requires Verified(blocks) && i < |blocks|
    ensures CheckBlock(blocks, i).Ok? && blocks[i].height == i
    ensures CheckProofOfWork(HashOf(blocks[i]), blocks[i].block.header.bits) == Ok(true)
    ensures blocks[i].block.header.bits == TESTNET_BITS
    ensures i > 0 ==> blocks[i].block.header.previousHash == HashOf(blocks[i - 1])
    ensures i > 0 ==> blocks[i].block.header.time > blocks[i - 1].block.header.time
  {
    hide ConnectBlock, CheckTransactionShape, CheckProofOfWork;
    PrefixVerified(blocks, i + 1, |blocks|);
    VerifyPrefixLast(blocks, i + 1);
  }

  /** No block of a verified chain has a hash above the target. */
  lemma {:induction false} VerifiedShowsWork(blocks: seq<StoredBlock>, i: nat)
    requires Verified(blocks) && i < |blocks|
    ensures HashOf(blocks[i]) <= TESTNET_TARGET
  {
    hide Verified, CheckBlock, CheckProofOfWork;
    VerifiedHeaders(blocks, i);
    WorkMeaning(HashOf(blocks[i]));
  }

  lemma {:induction false} VerifyPrefixLast(blocks: seq<StoredBlock>, n: nat)
    requires 0 < n <= |blocks| && VerifyPrefix(blocks, n).Ok?
    ensures VerifyPrefix(blocks, n - 1).Ok? && CheckBlock(blocks, n - 1).Ok?
  {
    hide ConnectBlock, CheckBlock;
  }

  lemma {:induction false} VerifyPrefixStep(blocks: seq<StoredBlock>, n: nat)
    requires 0 < n < |blocks| && VerifyPrefix(blocks, n).Ok? && CheckBlock(blocks, n).Ok?
    ensures |blocks[n].block.transactions| > 0
    ensures VerifyPrefix(blocks, n + 1)
         == ConnectBlock(blocks[n].block.transactions, blocks[n].height, VerifyPrefix(blocks, n).value)
  {
    hide ConnectBlock, CheckProofOfWork, CoinbaseFirstOnly;
  }

  /** Just the links: height, parent and time. */
  lemma {:induction false} VerifiedLink(blocks: seq<StoredBlock>, i: nat)
    requires Verified(blocks) && i < |blocks|
    ensures blocks[i].height == i
    ensures i > 0 ==> blocks[i].block.header.previousHash == HashOf(blocks[i - 1])
    ensures i > 0 ==> blocks[i].block.header.time > blocks[i - 1].block.header.time
  {
    hide Verified, CheckBlock, CheckProofOfWork;
    VerifiedHeaders(blocks, i);
  }

  /** Every non-empty prefix of a verified chain is verified. */
  lemma {:induction false} PrefixOfVerified(blocks: seq<StoredBlock>, n: nat)
    requires Verified(blocks) && 0 < n <= |blocks|
    ensures Verified(blocks[..n]) && Verify(blocks[..n]) == VerifyPrefix(blocks, n)
  {
    hide GenesisLocked, VerifyPrefix;
    PrefixVerified(blocks, n, |blocks|);
    VerifyPrefixLocal(blocks, blocks[..n], n);
  }

  lemma {:induction false} TimesIncrease(blocks: seq<StoredBlock>, i: nat, j: nat)
    requires Verified(blocks) && i < j < |blocks|
    ensures blocks[i].block.header.time < blocks[j].block.header.time
  {
    hide Verified;
    VerifiedLink(blocks, j);
    if i < j - 1 {
      TimesIncrease(blocks, i, j - 1);
    }
  }

  /** Strictly increasing 32-bit times bound the length of any verified chain. */
  lemma {:induction false} VerifiedLength(blocks: seq<StoredBlock>)
    requires Verified(blocks)
    ensures |blocks| <= TWO_32
  {
    hide Verified;
    if |blocks| > 0 {
      TimeAtLeast(blocks, |blocks| - 1);
    }
  }

  lemma {:induction false} TimeAtLeast(blocks: seq<StoredBlock>, i: nat)
    requires Verified(blocks) && i < |blocks|
    ensures blocks[i].block.header.time >= i
  {
    hide Verified;
    if i > 0 {
      VerifiedLink(blocks, i);
      TimeAtLeast(blocks, i - 1);
    }
  }

  lemma {:induction false} VerifiedWork(blocks: seq<StoredBlock>)
    requires Verified(blocks)
    ensures BlockProof(TESTNET_BITS).Ok? && BlockProof(TESTNET_BITS).value >= 1
    ensures ChainWork(blocks) == Ok(|blocks| * BlockProof(TESTNET_BITS).value)
  {
    hide VerifyPrefix, GenesisLocked, CompactToTarget;
    VerifiedHeaders(blocks, 0);
    forall i | 0 < i < |blocks|
      ensures blocks[i].block.header.bits == TESTNET_BITS
    {
      VerifiedHeaders(blocks, i);
    }
    UniformChainWork(blocks, TESTNET_BITS, TESTNET_BITS);
    var (n, p) := (|blocks|, BlockProof(TESTNET_BITS).value);
    assert p + (n - 1) * p == n * p;
  }

  /** The work of a verified chain always fits the 256-bit text in which it is announced. */
  lemma {:induction false} WorkFits(blocks: seq<StoredBlock>)
    requires Verified(blocks)
    ensures ChainWork(blocks).Ok? && ChainWork(blocks).value < TWO_256
  {
    hide Verified, ChainWork, BlockProof;
    VerifiedWork(blocks);
    VerifiedLength(blocks);
    TestnetProofSmall();
    ProductMonotone(|blocks|, TWO_32, BlockProof(TESTNET_BITS).value);
  }

  /** Verified chains compare by accumulated work exactly as they compare by length. */
  lemma {:induction false} WorkComparesAsLength(a: seq<StoredBlock>, b: seq<StoredBlock>)
    requires Verified(a) && Verified(b)
    ensures ChainWork(a).Ok? && ChainWork(b).Ok?
    ensures ChainWork(a).value < ChainWork(b).value <==> |a| < |b|
    ensures ChainWork(a).value == ChainWork(b).value <==> |a| == |b|
  {
    hide Verified, ChainWork, BlockProof;
    VerifiedWork(a);
    VerifiedWork(b);
    MultiplesCompare(|a|, |b|, BlockProof(TESTNET_BITS).value);
  }

  lemma {:induction false} MultiplesCompare(m: nat, n: nat, p: nat)
    requires p > 0
    ensures m * p < n * p <==> m < n
    ensures m * p == n * p <==> m == n
  {
    if m < n {
      MultiplesIncrease(m, n, p);
    } else if n < m {
      MultiplesIncrease(n, m, p);
    }
  }

  lemma {:induction false} MultiplesIncrease(m: nat, n: nat, p: nat)
    requires p > 0 && m < n
    ensures m * p < n * p
  {
    assert n * p == m * p + (n - m) * p;
    assert (n - m) * p > 0;
  }
}
