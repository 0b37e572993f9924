/** The chain object: its fields, and every operation that updates them (src/chain.cpp). */
module TestnetChains {
  import opened Amounts
  import opened Errors
  import opened Transactions
  import opened Scripts
  import opened Blocks
  import opened Utxo
  import opened UtxoRules
  import opened Validation
  import opened Ledger
  import opened Mining
  import opened ChainState
  import opened Reindexing

  class TestnetChain {
    var blocks: seq<StoredBlock>
    var utxos: Utxos
    /** What the durable store last committed. */
    var committed: Option<State>

    constructor ()
      ensures blocks == [] && utxos == map[] && committed == None
    {
      blocks, utxos, committed := [], map[], None;
    }

    ghost function Current(): State
      reads this
    {
      State(blocks, utxos)
    }

    /** The chain is one of the best that the records can form, with its folded map. */
    ghost predicate Installed(byHash: Records)
      reads this
    {
      && Settled(Current()) && Assembled(blocks, byHash) && ChainWork(blocks).Ok?
      && NoneBetter(byHash, byHash.Keys, ChainWork(blocks).value)
    }

    method Save(save: SaveOutcome) returns (r: Result<()>)
      modifies this`committed
      ensures r == Saved(save)
      ensures committed == if save == FailsBefore then old(committed) else Some(Current())
    {
      if save == FailsBefore {
        return Err(SaveFailed);
      }
      committed := Some(State(blocks, utxos));
      return if save == Saves then Ok(()) else Err(SaveFailed);
    }

    /** Whatever the store hands back, a load that succeeds leaves a verified chain with its folded map. */
    method Load(stored: StorageLoad, save: SaveOutcome) returns (r: Result<()>)
      modifies this
      ensures (r, Current()) == LoadFrom(old(Current()), stored, save)
      ensures r.Ok? ==> stored.Loaded? && blocks == stored.blocks && Settled(Current())
      ensures r.Ok? && committed != old(committed) ==> committed == Some(Current())
    {
      hide Verify;
      if stored.Refused? {
        utxos := stored.left;
        return Err(LoadFailed);
      }
      blocks, utxos := stored.blocks, stored.utxos;
      var _ :- VerifyBlocks(blocks);
      RebuildAgrees(blocks);
      var built := BuildUtxoSet(blocks);
      var rebuilt := built.value;
      if utxos == map[] && rebuilt != map[] {
        utxos := rebuilt;
        r := Save(save);
      } else if utxos != rebuilt {
        return Err(SnapshotMismatch);
      } else {
        return Ok(());
      }
    }

    /** A first start without a store writes genesis; with a store it loads. */
    method Initialize(stored: Option<StorageLoad>, save: SaveOutcome) returns (r: Result<()>)
      modifies this
      ensures (r, Current()) == StartFrom(old(Current()), stored, save)
      ensures r.Ok? ==> Settled(Current()) && |blocks| > 0
    {
      hide Verify, TestnetGenesisBlock, Settled;
      StartSettles(Current(), stored, save);
      if stored.Some? {
        r := Load(stored.value, save);
        return;
      }
      var genesis :- MakeGenesis();
      blocks, utxos := [StoredBlock(0, genesis)], map[];
      var _ :- VerifyBlocks(blocks);
      r := Save(save);
    }

    /** Blocks are taken all or none: a failure of any kind restores both fields exactly. */
    method AppendBlocks(incoming: seq<StoredBlock>, save: SaveOutcome, start: Start) returns (r: Result<()>)
      modifies this
      ensures incoming == [] ==> r == Ok(()) && Current() == old(Current())
      ensures incoming != [] ==>
                var (ready, s) := Ready(old(Current()), start);
                if ready.Ok? then (r, Current()) == Append(s, incoming, save) else (r, Current()) == (ready, s)
      ensures r.Ok? && incoming != [] ==> Settled(Current())
      ensures incoming != [] && |old(blocks)| > 0 && save == Saves ==>
                && (r.Ok? <==> Verified(old(blocks) + incoming))
                && Current() == if Verified(old(blocks) + incoming)
                                then State(old(blocks) + incoming, Verify(old(blocks) + incoming).value) else old(Current())
    {
      hide Verify, ConnectBlock, CheckBlock, StartFrom;
      if |incoming| == 0 {
        return Ok(());
      }
      if |blocks| == 0 {
        var _ :- Initialize(start.stored, start.save);
      }
      AppendExactly(Current(), incoming);
      var originalBlocks, originalUtxos := blocks, utxos;
      r := ExtendAndSave(incoming, save);
      if r.Err? {
        blocks, utxos := originalBlocks, originalUtxos;
      }
    }

    method ExtendAndSave(incoming: seq<StoredBlock>, save: SaveOutcome) returns (r: Result<()>)
      requires |blocks| > 0 && |incoming| > 0
      modifies this
      ensures r == Append(old(Current()), incoming, save).0
      ensures r.Ok? ==> Current() == Append(old(Current()), incoming, save).1
    {
      hide Verify;
      for i := 0 to |incoming|
        invariant |blocks| > 0 && utxos == old(utxos) && committed == old(committed)
        invariant Accumulate(old(blocks), incoming, i) == Ok(blocks)
      {
        AccumulateStops(old(blocks), incoming, i + 1, |incoming|);
        var stored := incoming[i];
        var tip := blocks[|blocks| - 1];
        if stored.height != tip.height + 1 {
          return Err(NonContiguousHeight);
        }
        if stored.block.header.previousHash != HashOf(tip) {
          return Err(BrokenLink);
        }
        blocks := blocks + [stored];
      }
      var _ :- VerifyBlocks(blocks);
      RebuildAgrees(blocks);
      var rebuilt := BuildUtxoSet(blocks);
      utxos := rebuilt.value;
      r := Save(save);
    }

    method ActivateIfMoreWork(candidate: seq<StoredBlock>, save: SaveOutcome) returns (r: Result<Activation>)
      modifies this
      ensures r == Activate(old(Current()), candidate, save).0
      ensures Current() == Activate(old(Current()), candidate, save).1
    {
      hide VerifyPrefix, GenesisLocked, ChainWork, Common, Lost, TxIdSet, Rebuild;
      var _ :- VerifyBlocks(candidate);
      if |blocks| == 0 {
        return Err(NotInitialized);
      }
      var oldWork :- CalculateChainwork(blocks);
      var candidateWork :- CalculateChainwork(candidate);
      var common := CommonCount(blocks, candidate);
      if common == 0 {
        return Err(ForeignGenesis);
      }
      var report := Activation(false, blocks[|blocks| - 1].height, candidate[|candidate| - 1].height, common - 1,
                               |blocks| - common, |candidate| - common, oldWork, candidateWork, []);
      if candidateWork <= oldWork {
        return Ok(report);
      }
      var kept := TransactionIds(candidate);
      var disconnected := Disconnected(blocks, kept, common);
      var originalBlocks, originalUtxos := blocks, utxos;
      blocks := candidate;
      RebuildAgrees(candidate);
      var rebuilt := BuildUtxoSet(blocks);
      utxos := rebuilt.value;
      var saved := Save(save);
      if saved.Err? {
        blocks, utxos := originalBlocks, originalUtxos;
        return Err(saved.error);
      }
      return Ok(report.(activated := true, disconnected := disconnected));
    }

    /** Mines count blocks, the first with the pending transactions. A failure leaves the blocks mined so far in
        place, and the cached map as it was. */
    method Generate(count: nat, script: Script, pending: seq<Transaction>, clock: nat -> u32, save: SaveOutcome,
                    start: Start)
      returns (r: Result<()>)
      modifies this
      ensures var (ready, s) := Ready(old(Current()), start);
              if ready.Ok? then (r, Current()) == Generated(s, count, script, pending, clock, save)
              else (r, Current()) == (ready, s)
      ensures r.Ok? && (|old(blocks)| == 0 || old(Settled(Current()))) ==> Settled(Current())
    {
      hide Verify, MineRound, MineRounds, Settled, StartFrom;
      SettledNonEmpty(Current());
      if |blocks| == 0 {
        var _ :- Initialize(start.stored, start.save);
      }
      ghost var before := Current();
      var current := new UtxoSet(utxos);
      NoRounds(before, script, pending, clock);
      for generated := 0 to count
        invariant fresh(current) && utxos == before.utxos
        invariant |blocks| > 0
        invariant MineRounds(before, script, pending, clock, generated) == (Ok(()), State(blocks, current.coins))
      {
        NextRound(before, script, pending, clock, generated, count);
        var transactions := if generated == 0 then pending else [];
        var candidate := new UtxoSet(current.coins);
        var stored :- MineOn(transactions, script, clock(generated), candidate);
        blocks := blocks + [stored];
        current := candidate;
      }
      var _ :- VerifyBlocks(blocks);
      utxos := current.coins;
      r := Save(save);
      if Settled(before) {
        GeneratedSettles(before, count, script, pending, clock, save);
      }
    }

    /** One round of mining: apply the transactions to the candidate map, find the nonce, add the coinbase. */
    method MineOn(transactions: seq<Transaction>, script: Script, now: u32, candidate: UtxoSet)
      returns (r: Result<StoredBlock>)
      requires |blocks| > 0
      modifies candidate
      ensures var round := MineRound(State(blocks, old(candidate.coins)), transactions, script, now);
              && (r.Ok? ==> round == Ok(State(blocks + [r.value], candidate.coins)))
              && (r.Err? ==> round == Err(r.error))
    {
      hide Apply, AddCoinbase, MinedBlock, PendingFees;
      var previous := blocks[|blocks| - 1];
      var height := (previous.height + 1) % TWO_64;
      var fees :- ApplyPending(transactions, height, candidate);
      var block :- MineTestnetBlock(height, HashOf(previous), previous.block.header.time, TESTNET_BITS, script,
                                    transactions, fees, now);
      var added := AddCoinbaseOutputs(block.transactions[0], height, candidate);
      if added.Err? {
        return Err(added.error);
      }
      return Ok(StoredBlock(height, block));
    }

    /** Installs the best chain that the scanned records can form. */
    method Reindex(records: seq<StoredBlock>, save: SaveOutcome) returns (r: Result<()>)
      modifies this
      ensures r == Err(NoGenesis) <==> TESTNET_GENESIS_HASH !in FirstRecords(records, |records|)
      ensures r == Err(NoValidChain) ==>
                NoneBetter(FirstRecords(records, |records|), FirstRecords(records, |records|).Keys, -1)
      ensures r == Err(NoValidChain) || r == Err(NoGenesis) ==> Current() == old(Current())
      ensures r == Err(NoValidChain) || r == Err(NoGenesis) ||
              (r == Saved(save) && Installed(FirstRecords(records, |records|)))
    {
      hide Verify, ChainWork, NoneBetter, FirstRecords;
      if |records| == 0 {
        return Err(NoGenesis);
      }
      var byHash := CollectRecords(records);
      if TESTNET_GENESIS_HASH !in byHash {
        return Err(NoGenesis);
      }
      var best :- BestChain(byHash);
      blocks := best;
      RebuildAgrees(blocks);
      var rebuilt := BuildUtxoSet(blocks);
      utxos := rebuilt.value;
      r := Save(save);
    }

    /** The subsidies of the heights above genesis; on a settled chain the guard never fires and the sum is the money
        in the map. */
    method IssuedSupply() returns (r: Result<int>)
      requires Settled(Current())
      ensures r == Ok(Total(utxos)) && r.value == IssuedBy(|blocks| - 1)
    {
      hide VerifyPrefix, GenesisLocked, BlockSubsidy;
      Conservation(blocks);
      var total := 0;
      for index := 1 to |blocks|
        invariant total == IssuedBy(index - 1)
      {
        hide Verify;
        VerifiedLink(blocks, index);
        IssuedByBound(index);
        var subsidy := BlockSubsidy(blocks[index].height);
        if total > MAX_MONEY - subsidy {
          return Err(SupplyOverflow);
        }
        total := total + subsidy;
      }
      return Ok(total);
    }
  }

  // ---------------------------------------------------------------- loops of activation and mining

  method CommonCount(a: seq<StoredBlock>, b: seq<StoredBlock>) returns (count: nat)
    ensures count == Common(a, b, 0)
  {
    var limit := if |a| < |b| then |a| else |b|;
    count := 0;
    while count < limit && HashOf(a[count]) == HashOf(b[count])
      invariant count <= limit && Common(a, b, count) == Common(a, b, 0)
    {
      count := count + 1;
    }
  }

  method TransactionIds(blocks: seq<StoredBlock>) returns (ids: set<Hash256>)
    ensures ids == TxIdSet(blocks)
  {
    ids := {};
    for i := 0 to |blocks|
      invariant ids == TxIdSet(blocks[..i])
    {
      var transactions := blocks[i].block.transactions;
      for k := 0 to |transactions|
        invariant ids == TxIdSet(blocks[..i]) + set j | 0 <= j < k :: TxId(transactions[j])
      {
        ids := ids + {TxId(transactions[k])};
      }
      TxIdSetStep(blocks, i);
    }
    assert blocks[..|blocks|] == blocks;
  }

  lemma {:induction false} TxIdSetStep(blocks: seq<StoredBlock>, n: nat)
    requires n < |blocks|
    ensures var transactions := blocks[n].block.transactions;
            TxIdSet(blocks[..n + 1]) == TxIdSet(blocks[..n]) + set j | 0 <= j < |transactions| :: TxId(transactions[j])
  {
    var transactions := blocks[n].block.transactions;
    var here := set j | 0 <= j < |transactions| :: TxId(transactions[j]);
    var longer := blocks[..n + 1];
    forall id | id in TxIdSet(longer)
      ensures id in TxIdSet(blocks[..n]) + here
    {
      var i, k :| 0 <= i < |longer| && 0 <= k < |longer[i].block.transactions|
                  && TxId(longer[i].block.transactions[k]) == id;
      if i < n {
        assert blocks[..n][i] == longer[i];
      }
    }
    forall id | id in TxIdSet(blocks[..n]) + here
      ensures id in TxIdSet(longer)
    {
      if id in TxIdSet(blocks[..n]) {
        var i, k :| 0 <= i < n && 0 <= k < |blocks[..n][i].block.transactions|
                    && TxId(blocks[..n][i].block.transactions[k]) == id;
        assert longer[i] == blocks[..n][i];
      } else {
        var j :| 0 <= j < |transactions| && TxId(transactions[j]) == id;
        assert longer[n] == blocks[n];
      }
    }
  }

  method Disconnected(blocks: seq<StoredBlock>, kept: set<Hash256>, from: nat) returns (lost: seq<Transaction>)
    requires from <= |blocks|
    ensures lost == Lost(blocks, kept, from, |blocks|)
  {
    lost := [];
    for i := from to |blocks|
      invariant lost == Lost(blocks, kept, from, i)
    {
      var transactions := blocks[i].block.transactions;
      if |transactions| > 0 {
        for k := 1 to |transactions|
          invariant lost == Lost(blocks, kept, from, i) + LostFrom(transactions, kept, k)
        {
          if TxId(transactions[k]) !in kept {
            lost := lost + [transactions[k]];
          }
        }
      }
    }
  }

  method ApplyPending(pending: seq<Transaction>, height: nat, utxos: UtxoSet) returns (r: Result<int>)
    modifies utxos
    ensures r.Ok? ==> PendingFees(pending, height, old(utxos.coins), |pending|) == Ok((r.value, utxos.coins))
    ensures r.Err? ==> PendingFees(pending, height, old(utxos.coins), |pending|) == Err(r.error)
  {
    hide Apply;
    var fees := 0;
    for i := 0 to |pending|
      invariant PendingFees(pending, height, old(utxos.coins), i) == Ok((fees, utxos.coins))
    {
      PendingStops(pending, height, old(utxos.coins), i + 1, |pending|);
      var fee :- ApplyTransaction(pending[i], height, utxos);
      if fees > MAX_MONEY - fee {
        return Err(BlockFeeOverflow);
      }
      fees := fees + fee;
    }
    return Ok(fees);
  }

  // ---------------------------------------------------------------- supporting lemmas

  lemma {:induction false} SettledNonEmpty(s: State)
    ensures Settled(s) ==> |s.blocks| > 0
  {
  }

  lemma {:induction false} AccumulateStops(blocks: seq<StoredBlock>, incoming: seq<StoredBlock>, m: nat, n: nat)
    requires |blocks| > 0 && m <= n <= |incoming|
    ensures Accumulate(blocks, incoming, m).Err? ==> Accumulate(blocks, incoming, n) == Accumulate(blocks, incoming, m)
    decreases n
  {
    if m < n {
      AccumulateStops(blocks, incoming, m, n - 1);
    }
  }
}
