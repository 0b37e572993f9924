/** The rules of a whole chain: verify_blocks and build_utxo_set (src/chain.cpp, src/utxo.cpp). */
module Validation {
  import opened Amounts
  import opened Errors
  import opened Transactions
  import opened Blocks
  import opened Utxo
  import opened Merkle

  // ---------------------------------------------------------------- specification

  ghost predicate GenesisLocked(genesis: StoredBlock) {
    && genesis.height == 0
    && HashOf(genesis) == TESTNET_GENESIS_HASH
    && genesis.block.header.merkleRoot == TESTNET_GENESIS_MERKLE
    && genesis.block.header.previousHash == 0
    && genesis.block.header.bits == TESTNET_GENESIS_BITS
    && |genesis.block.transactions| == 1
    && var coinbase := genesis.block.transactions[0];
    && StructureValid(coinbase)
    && TxId(coinbase) == TESTNET_GENESIS_TXID
    && IsCoinbase(coinbase)
    && ValueSum(coinbase.outputs) == INITIAL_SUBSIDY
  }

  ghost predicate CoinbaseFirstOnly(transactions: seq<Transaction>) {
    && |transactions| > 0
    && IsCoinbase(transactions[0])
    && forall i :: 0 < i < |transactions| ==> !IsCoinbase(transactions[i])
  }

  /** Fees and UTXO map after applying the transactions from index 1 up to, not including, n. */
  ghost function ConnectTransactions(transactions: seq<Transaction>, height: nat, coins: Utxos, n: nat)
    : Result<(int, Utxos)>
    requires n <= |transactions|
  {
    if n <= 1 then Ok((0, coins)) else
    var before :- ConnectTransactions(transactions, height, coins, n - 1);
    var (r, after) := Apply(transactions[n - 1], height, before.1);
    if r.Err? then Err(r.error)
    else if before.0 > MAX_MONEY - r.value then Err(BlockFeeOverflow)
    else Ok((before.0 + r.value, after))
  }

  ghost function ConnectBlock(transactions: seq<Transaction>, height: nat, coins: Utxos): Result<Utxos>
    requires |transactions| > 0
  {
    var connected :- ConnectTransactions(transactions, height, coins, |transactions|);
    var (fees, after) := connected;
    if !ValuesInRange(transactions[0].outputs) then Err(OutputTotalOutsideRange)
    else if BlockSubsidy(height) > MAX_MONEY - fees ||
            ValueSum(transactions[0].outputs) != BlockSubsidy(height) + fees then Err(WrongReward)
    else
      var (r, result) := AddCoinbase(transactions[0], height, after);
      if r.Err? then Err(r.error) else Ok(result)
  }

  ghost function CheckTransactionShape(block: Block): Result<()> {
    if |block.transactions| == 0 || !IsCoinbase(block.transactions[0]) then Err(MissingCoinbase)
    else if !CoinbaseFirstOnly(block.transactions) then Err(ExtraCoinbase)
    else
      var root :- MerkleRoot(block.transactions);
      if root != block.header.merkleRoot then Err(MerkleMismatch) else Ok(())
  }

  /** The checks of one block that do not look at the UTXO map. */
  ghost function CheckBlock(blocks: seq<StoredBlock>, index: nat): Result<()>
    requires index < |blocks|
  {
    var stored := blocks[index];
    if stored.height != index then Err(NonContiguousHeight) else
    var work :- CheckProofOfWork(HashOf(stored), stored.block.header.bits);
    if !work then Err(BadProofOfWork)
    else if index == 0 then Ok(())
    else if stored.block.header.bits != TESTNET_BITS then Err(UnexpectedBits)
    else if stored.block.header.previousHash != HashOf(blocks[index - 1]) then Err(BrokenLink)
    else if stored.block.header.time <= blocks[index - 1].block.header.time then Err(TimeNotIncreasing)
    else CheckTransactionShape(stored.block)
  }

  ghost function VerifyPrefix(blocks: seq<StoredBlock>, n: nat): Result<Utxos>
    requires n <= |blocks|
  {
    if n == 0 then Ok(map[]) else
    var coins :- VerifyPrefix(blocks, n - 1);
    var checked :- CheckBlock(blocks, n - 1);
    if n == 1 then Ok(coins) else ConnectBlock(blocks[n - 1].block.transactions, blocks[n - 1].height, coins)
  }

  /** The verdict on a whole chain, with the UTXO map that the pass builds. */
  ghost function Verify(blocks: seq<StoredBlock>): Result<Utxos> {
    if blocks == [] then Err(NoGenesis)
    else if !GenesisLocked(blocks[0]) then Err(BadGenesis)
    else VerifyPrefix(blocks, |blocks|)
  }

  ghost predicate Verified(blocks: seq<StoredBlock>) {
    Verify(blocks).Ok?
  }

  /** build_utxo_set over the first n blocks, genesis skipped. */
  ghost function Rebuild(blocks: seq<StoredBlock>, n: nat): Result<Utxos>
    requires n <= |blocks|
  {
    if n <= 1 then Ok(map[]) else
    var coins :- Rebuild(blocks, n - 1);
    var transactions := blocks[n - 1].block.transactions;
    if |transactions| == 0 || !IsCoinbase(transactions[0]) then Err(MissingCoinbase) else
    var after :- RebuildTransactions(transactions, blocks[n - 1].height, coins, |transactions|);
    var (r, result) := AddCoinbase(transactions[0], blocks[n - 1].height, after);
    if r.Err? then Err(r.error) else Ok(result)
  }

  ghost function RebuildTransactions(transactions: seq<Transaction>, height: nat, coins: Utxos, n: nat): Result<Utxos>
    requires n <= |transactions|
  {
    if n <= 1 then Ok(coins) else
    var before :- RebuildTransactions(transactions, height, coins, n - 1);
    var (r, after) := Apply(transactions[n - 1], height, before);
    if r.Err? then Err(r.error) else Ok(after)
  }

  // ---------------------------------------------------------------- implementation

  method CheckGenesis(genesis: StoredBlock) returns (r: Result<()>)
    ensures r == if GenesisLocked(genesis) then Ok(()) else Err(BadGenesis)
  {
    if genesis.height != 0 || HashOf(genesis) != TESTNET_GENESIS_HASH
       || genesis.block.header.merkleRoot != TESTNET_GENESIS_MERKLE
       || genesis.block.header.previousHash != 0
       || genesis.block.header.bits != TESTNET_GENESIS_BITS
       || |genesis.block.transactions| != 1 {
      return Err(BadGenesis);
    }
    var coinbase := genesis.block.transactions[0];
    var valid := ValidateStructure(coinbase);
    if valid.Err? || TxId(coinbase) != TESTNET_GENESIS_TXID || !IsCoinbase(coinbase) {
      return Err(BadGenesis);
    }
    var total := SumOutputs(coinbase);
    if total.value != INITIAL_SUBSIDY {
      return Err(BadGenesis);
    }
    return Ok(());
  }

  method VerifyShape(block: Block) returns (r: Result<()>)
    ensures r == CheckTransactionShape(block)
  {
    if |block.transactions| == 0 || !IsCoinbase(block.transactions[0]) {
      return Err(MissingCoinbase);
    }
    for i := 1 to |block.transactions|
      invariant forall k :: 0 < k < i ==> !IsCoinbase(block.transactions[k])
    {
      if IsCoinbase(block.transactions[i]) {
        return Err(ExtraCoinbase);
      }
    }
    var root :- MerkleRootRaw(block.transactions);
    if root != block.header.merkleRoot {
      return Err(MerkleMismatch);
    }
    return Ok(());
  }

  method VerifyBlock(blocks: seq<StoredBlock>, index: nat) returns (r: Result<()>)
    requires index < |blocks|
    ensures r == CheckBlock(blocks, index)
    ensures r.Ok? && index > 0 ==> |blocks[index].block.transactions| > 0
  {
    var stored := blocks[index];
    if stored.height != index {
      return Err(NonContiguousHeight);
    }
    var work :- CheckProofOfWork(HashOf(stored), stored.block.header.bits);
    if !work {
      return Err(BadProofOfWork);
    }
    if index == 0 {
      return Ok(());
    }
    if stored.block.header.bits != TESTNET_BITS {
      return Err(UnexpectedBits);
    }
    var previous := blocks[index - 1];
    if stored.block.header.previousHash != HashOf(previous) {
      return Err(BrokenLink);
    }
    if stored.block.header.time <= previous.block.header.time {
      return Err(TimeNotIncreasing);
    }
    r := VerifyShape(stored.block);
  }

  method ConnectTo(transactions: seq<Transaction>, height: nat, utxos: UtxoSet) returns (r: Result<()>)
    requires |transactions| > 0
    modifies utxos
    ensures r.Ok? ==> ConnectBlock(transactions, height, old(utxos.coins)) == Ok(utxos.coins)
    ensures r.Err? ==> ConnectBlock(transactions, height, old(utxos.coins)) == Err(r.error)
  {
    hide Apply, AddCoinbase;
    var fees := 0;
    for i := 1 to |transactions|
      invariant ConnectTransactions(transactions, height, old(utxos.coins), i) == Ok((fees, utxos.coins))
    {
      ConnectTransactionsStops(transactions, height, old(utxos.coins), i + 1, |transactions|);
      var fee :- ApplyTransaction(transactions[i], height, utxos);
      if fees > MAX_MONEY - fee {
        return Err(BlockFeeOverflow);
      }
      fees := fees + fee;
    }
    var total :- SumOutputs(transactions[0]);
    var subsidy := BlockSubsidy(height);
    if subsidy > MAX_MONEY - fees || total != subsidy + fees {
      return Err(WrongReward);
    }
    r := AddCoinbaseOutputs(transactions[0], height, utxos);
  }

  method VerifyBlocks(blocks: seq<StoredBlock>) returns (r: Result<()>)
    ensures r == if Verified(blocks) then Ok(()) else Err(Verify(blocks).error)
  {
    hide CheckBlock, ConnectBlock, GenesisLocked;
    if |blocks| == 0 {
      return Err(NoGenesis);
    }
    var _ :- CheckGenesis(blocks[0]);
    var utxos := new UtxoSet(map[]);
    for index := 0 to |blocks|
      invariant fresh(utxos)
      invariant VerifyPrefix(blocks, index) == Ok(utxos.coins)
    {
      VerifyPrefixStops(blocks, index + 1, |blocks|);
      var _ :- VerifyBlock(blocks, index);
      if index > 0 {
        var _ :- ConnectTo(blocks[index].block.transactions, blocks[index].height, utxos);
      }
    }
    return Ok(());
  }

  method RebuildBlock(transactions: seq<Transaction>, height: nat, utxos: UtxoSet) returns (r: Result<()>)
    requires |transactions| > 0
    modifies utxos
    ensures var after := RebuildTransactions(transactions, height, old(utxos.coins), |transactions|);
            if after.Err? then r == Err(after.error)
            else var (added, result) := AddCoinbase(transactions[0], height, after.value);
                 r == added && (r.Ok? ==> utxos.coins == result)
  {
    hide Apply, AddCoinbase;
    for i := 1 to |transactions|
      invariant RebuildTransactions(transactions, height, old(utxos.coins), i) == Ok(utxos.coins)
    {
      RebuildTransactionsStops(transactions, height, old(utxos.coins), i + 1, |transactions|);
      var _ :- ApplyTransaction(transactions[i], height, utxos);
    }
    r := AddCoinbaseOutputs(transactions[0], height, utxos);
  }

  method BuildUtxoSet(blocks: seq<StoredBlock>) returns (r: Result<Utxos>)
    ensures r == Rebuild(blocks, |blocks|)
  {
    hide RebuildTransactions, AddCoinbase;
    var utxos := new UtxoSet(map[]);
    if |blocks| == 0 {
      return Ok(map[]);
    }
    for index := 1 to |blocks|
      invariant fresh(utxos)
      invariant Rebuild(blocks, index) == Ok(utxos.coins)
    {
      RebuildStops(blocks, index + 1, |blocks|);
      var transactions := blocks[index].block.transactions;
      if |transactions| == 0 || !IsCoinbase(transactions[0]) {
        return Err(MissingCoinbase);
      }
      var _ :- RebuildBlock(transactions, blocks[index].height, utxos);
    }
    return Ok(utxos.coins);
  }

  // ---------------------------------------------------------------- loop lemmas

  lemma {:induction false} ConnectTransactionsStops(transactions: seq<Transaction>, height: nat, coins: Utxos,
                                                    m: nat, n: nat)
    requires m <= n <= |transactions|
    ensures ConnectTransactions(transactions, height, coins, m).Err? ==>
              ConnectTransactions(transactions, height, coins, n) == ConnectTransactions(transactions, height, coins, m)
    decreases n
  {
    hide Apply;
    if m < n {
      ConnectTransactionsStops(transactions, height, coins, m, n - 1);
    }
  }

  lemma {:induction false} RebuildTransactionsStops(transactions: seq<Transaction>, height: nat, coins: Utxos,
                                                    m: nat, n: nat)
    requires m <= n <= |transactions|
    ensures RebuildTransactions(transactions, height, coins, m).Err? ==>
              RebuildTransactions(transactions, height, coins, n) == RebuildTransactions(transactions, height, coins, m)
    decreases n
  {
    hide Apply;
    if m < n {
      RebuildTransactionsStops(transactions, height, coins, m, n - 1);
    }
  }

  lemma {:induction false} VerifyPrefixStops(blocks: seq<StoredBlock>, m: nat, n: nat)
    requires m <= n <= |blocks|
    ensures VerifyPrefix(blocks, m).Err? ==> VerifyPrefix(blocks, n) == VerifyPrefix(blocks, m)
    decreases n
  {
    hide CheckBlock, ConnectBlock;
    if m < n {
      VerifyPrefixStops(blocks, m, n - 1);
    }
  }

  lemma {:induction false} RebuildStops(blocks: seq<StoredBlock>, m: nat, n: nat)
    requires m <= n <= |blocks|
    ensures Rebuild(blocks, m).Err? ==> Rebuild(blocks, n) == Rebuild(blocks, m)
    decreases n
  {
    if m < n {
      RebuildStops(blocks, m, n - 1);
    }
  }
}
