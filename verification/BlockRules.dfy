/** The rules for a block on top of a verified chain, stated outright: an independent reading of the validation pass
    (src/chain.cpp, src/utxo.cpp). */
module BlockRules {
  import opened Amounts
  import opened Errors
  import opened Transactions
  import opened Blocks
  import opened Merkle
  import opened Utxo
  import opened UtxoRules
  import opened Validation
  import opened Ledger

  /** The map after an acceptable transaction: without the coins it spends and with those it creates. */
  ghost function Applied(tx: Transaction, height: nat, coins: Utxos): Utxos
    requires StructureValid(tx)
  {
    (coins - SpentBy(tx.inputs)) + NewCoins(tx.outputs, TxId(tx), height, false, |tx.outputs|)
  }

  /** One map for each of the first n transactions, the coinbase changing nothing yet: each other transaction is
      acceptable on the map before it and leads to the next. */
  ghost predicate Stepwise(transactions: seq<Transaction>, height: nat, maps: seq<Utxos>) {
    && 0 < |maps| <= |transactions|
    && forall k :: 0 < k < |maps| ==>
         Acceptable(transactions[k], height, maps[k - 1]) && maps[k] == Applied(transactions[k], height, maps[k - 1])
  }

  lemma {:induction false} StepwiseConnects(transactions: seq<Transaction>, height: nat, maps: seq<Utxos>, n: nat)
    requires Stepwise(transactions, height, maps) && 0 < n <= |maps|
    requires CoinsInRange(maps[0]) && Total(maps[0]) <= MAX_MONEY
    ensures ConnectTransactions(transactions, height, maps[0], n) == Ok((Total(maps[0]) - Total(maps[n - 1]), maps[n - 1]))
    ensures CoinsInRange(maps[n - 1])
  {
    hide Apply, Acceptable, Total;
    if n > 1 {
      StepwiseConnects(transactions, height, maps, n - 1);
      var tx := transactions[n - 1];
      ApplyMeaning(tx, height, maps[n - 2]);
      NoTransactionOverflow(transactions, height, maps[0], n);
      assert ConnectTransactions(transactions, height, maps[0], n).Ok?;
      TransactionsConserve(transactions, height, maps[0], n);
    }
  }

  lemma {:induction false} ConnectsStepwise(transactions: seq<Transaction>, height: nat, coins: Utxos, n: nat)
    returns (maps: seq<Utxos>)
    requires 0 < n <= |transactions| && CoinsInRange(coins)
    requires ConnectTransactions(transactions, height, coins, n).Ok?
    ensures Stepwise(transactions, height, maps) && |maps| == n && maps[0] == coins
    ensures maps[n - 1] == ConnectTransactions(transactions, height, coins, n).value.1
  {
    hide Apply, Acceptable, Total, Applied;
    if n == 1 {
      maps := [coins];
    } else {
      var shorter := ConnectsStepwise(transactions, height, coins, n - 1);
      TransactionsConserve(transactions, height, coins, n - 1);
      var (tx, before) := (transactions[n - 1], shorter[n - 2]);
      ApplyMeaning(tx, height, before);
      AppliedIs(tx, height, before);
      maps := shorter + [Applied(tx, height, before)];
    }
  }

  lemma {:induction false} AppliedIs(tx: Transaction, height: nat, coins: Utxos)
    requires Acceptable(tx, height, coins) && CoinsInRange(coins)
    ensures StructureValid(tx)
    ensures Apply(tx, height, coins).0.Ok? && Apply(tx, height, coins).1 == Applied(tx, height, coins)
  {
    hide Apply;
    ApplyMeaning(tx, height, coins);
  }

  /** The coinbase claims exactly the subsidy and the fees, which are what the maps have lost, and its outputs are new. */
  ghost predicate Rewarded(coinbase: Transaction, height: nat, before: Utxos, spent: Utxos) {
    && StructureValid(coinbase)
    && ValueSum(coinbase.outputs) == BlockSubsidy(height) + Total(before) - Total(spent)
    && Fresh(TxId(coinbase), spent, |coinbase.outputs|)
  }

  /** The transactions of a block lead from one map to another. */
  ghost predicate Connects(transactions: seq<Transaction>, height: nat, before: Utxos, maps: seq<Utxos>, after: Utxos) {
    && Stepwise(transactions, height, maps) && |maps| == |transactions| && maps[0] == before
    && Rewarded(transactions[0], height, before, maps[|maps| - 1])
    && after == maps[|maps| - 1] + NewCoins(transactions[0].outputs, TxId(transactions[0]), height, true,
                                            |transactions[0].outputs|)
  }

  lemma {:induction false} RewardMeaning(coinbase: Transaction, height: nat, spent: Utxos)
    requires StructureValid(coinbase) && CoinsInRange(spent)
    ensures var (r, after) := AddCoinbase(coinbase, height, spent);
            && (r.Ok? <==> Fresh(TxId(coinbase), spent, |coinbase.outputs|))
            && (r.Ok? ==> after == spent + NewCoins(coinbase.outputs, TxId(coinbase), height, true, |coinbase.outputs|))
  {
    hide CoinsInRange, AddOutputs, NewCoins, ValuesInRange;
    AddOutputsMeaning(coinbase.outputs, TxId(coinbase), height, true, spent, |coinbase.outputs|);
  }

  /** On top of a verified chain, a block's transactions are connected exactly if they lead to some map by the rules. */
  lemma {:induction false} ConnectMeaning(blocks: seq<StoredBlock>, transactions: seq<Transaction>, after: Utxos)
    requires Verified(blocks) && |transactions| > 0
    requires forall i :: 0 <= i < |transactions| ==> StructureValid(transactions[i])
    ensures ConnectBlock(transactions, |blocks|, Verify(blocks).value) == Ok(after) <==>
              exists maps :: Connects(transactions, |blocks|, Verify(blocks).value, maps, after)
  {
    hide Verify, Stepwise, ConnectTransactions, AddCoinbase, BlockSubsidy, NewCoins, StructureValid, Fresh, Total;
    var (height, coins, n) := (|blocks|, Verify(blocks).value, |transactions|);
    Conservation(blocks);
    var before := ConnectTransactions(transactions, height, coins, n);
    if ConnectBlock(transactions, height, coins) == Ok(after) {
      var maps := ConnectsStepwise(transactions, height, coins, n);
      TransactionsConserve(transactions, height, coins, n);
      RewardMeaning(transactions[0], height, before.value.1);
      assert ValuesInRange(transactions[0].outputs);
      assert AddCoinbase(transactions[0], height, maps[n - 1]).0.Ok? && AddCoinbase(transactions[0], height, maps[n - 1]).1 == after;
      assert ValueSum(transactions[0].outputs) == BlockSubsidy(height) + before.value.0;
      assert Rewarded(transactions[0], height, coins, maps[n - 1]);
      assert Connects(transactions, height, coins, maps, after);
    }
    if maps :| Connects(transactions, height, coins, maps, after) {
      StepwiseConnects(transactions, height, maps, n);
      RewardMeaning(transactions[0], height, maps[n - 1]);
      ValidOutputs(transactions[0]);
      OverflowGuardsNeverFire(blocks, transactions);
    }
  }

  lemma {:induction false} ValidOutputs(tx: Transaction)
    requires StructureValid(tx)
    ensures ValuesInRange(tx.outputs)
  {
  }

  /** The header of the next block: its height, its work, the one difficulty, the link and a later time. */
  ghost predicate HeaderFollows(previous: StoredBlock, next: StoredBlock, height: nat) {
    && next.height == height
    && HashOf(next) <= TESTNET_TARGET && next.block.header.bits == TESTNET_BITS
    && next.block.header.previousHash == HashOf(previous)
    && next.block.header.time > previous.block.header.time
  }

  /** Its transactions: well formed, a coinbase first and nowhere else, and committed to by the header. */
  ghost predicate ShapeRight(block: Block) {
    && CoinbaseFirstOnly(block.transactions)
    && (forall i :: 0 <= i < |block.transactions| ==> StructureValid(block.transactions[i]))
    && Root(TxIds(block.transactions)) == block.header.merkleRoot
  }

  lemma {:induction false} CheckMeaning(blocks: seq<StoredBlock>, n: nat)
    requires 0 < n < |blocks|
    ensures CheckBlock(blocks, n).Ok? <==> HeaderFollows(blocks[n - 1], blocks[n], n) && ShapeRight(blocks[n].block)
  {
    hide StructureValid, Root, CompactToTarget, IsCoinbase;
    WorkMeaning(HashOf(blocks[n]));
    if blocks[n].block.header.bits == TESTNET_BITS {
      assert CheckProofOfWork(HashOf(blocks[n]), blocks[n].block.header.bits) == Ok(HashOf(blocks[n]) <= TESTNET_TARGET);
    }
    hide CheckProofOfWork;
  }

  /** A block extends a verified chain to a verified chain exactly if its header follows, its transactions are in shape,
      and they connect; the folded map is then the one they lead to. */
  lemma {:induction false} NextBlock(blocks: seq<StoredBlock>, next: StoredBlock, after: Utxos)
    requires Verified(blocks)
    ensures |blocks| > 0
    ensures Verify(blocks + [next]) == Ok(after) <==>
              && HeaderFollows(blocks[|blocks| - 1], next, |blocks|) && ShapeRight(next.block)
              && exists maps :: Connects(next.block.transactions, |blocks|, Verify(blocks).value, maps, after)
  {
    hide VerifyPrefix, GenesisLocked, CheckBlock, ConnectBlock, Connects, Root, HeaderFollows;
    var longer := blocks + [next];
    var n := |blocks|;
    assert longer[..n] == blocks;
    VerifyPrefixLocal(blocks, longer, n);
    CheckMeaning(longer, n);
    if CheckBlock(longer, n).Ok? {
      VerifyPrefixStep(longer, n);
      HeightFollows(blocks[n - 1], next, n);
      ConnectMeaning(blocks, next.block.transactions, after);
    } else {
      UncheckedFails(longer, n);
    }
  }

  lemma {:induction false} HeightFollows(previous: StoredBlock, next: StoredBlock, height: nat)
    requires HeaderFollows(previous, next, height)
    ensures next.height == height
  {
  }

  lemma {:induction false} UncheckedFails(blocks: seq<StoredBlock>, n: nat)
    requires n < |blocks| && CheckBlock(blocks, n).Err?
    ensures VerifyPrefix(blocks, n + 1).Err?
  {
    hide CheckBlock, ConnectBlock;
  }
}
