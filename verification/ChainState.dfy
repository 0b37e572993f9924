/** The chain held in memory, what its operations do to it, and what every run of them keeps (src/chain.cpp). */
module ChainState {
  import opened Amounts
  import opened Errors
  import opened Transactions
  import opened Scripts
  import opened Blocks
  import opened Merkle
  import opened Utxo
  import opened UtxoRules
  import opened Validation
  import opened Ledger
  import opened Mining

  datatype State = State(blocks: seq<StoredBlock>, utxos: Utxos)

  /** How a save ends: written, refused before the commit point, or failed after it. */
  datatype SaveOutcome = Saves | FailsBefore | FailsAfter

  /** What the durable store hands back on load: a chain with its snapshot, or a failure that may have emptied the
      caller's map. */
  datatype StorageLoad = Loaded(blocks: seq<StoredBlock>, utxos: Utxos) | Refused(left: Utxos)

  /** What an object with no blocks yet finds when an operation first has to initialise it. */
  datatype Start = Start(stored: Option<StorageLoad>, save: SaveOutcome)

  datatype Activation = Activation(
    activated: bool, oldHeight: nat, newHeight: nat, forkHeight: nat,
    disconnectedBlocks: nat, connectedBlocks: nat, oldWork: nat, candidateWork: nat,
    disconnected: seq<Transaction>)

  /** The chain is verified and the cached map is the one that its verification folds. */
  ghost predicate Settled(s: State) {
    Verify(s.blocks) == Ok(s.utxos)
  }

  // ---------------------------------------------------------------- first start and loading

  ghost function Saved(save: SaveOutcome): Result<()> {
    if save == Saves then Ok(()) else Err(SaveFailed)
  }

  /** Loading: the stored chain must verify, and its snapshot must be the folded map or empty. */
  ghost function LoadFrom(s: State, stored: StorageLoad, save: SaveOutcome): (r: (Result<()>, State))
    ensures r.0.Ok? ==> Settled(r.1) && |r.1.blocks| > 0
  {
    if stored.Refused? then (Err(LoadFailed), State(s.blocks, stored.left)) else
    var verdict := Verify(stored.blocks);
    if verdict.Err? then (Err(verdict.error), State(stored.blocks, stored.utxos))
    else if stored.utxos == verdict.value then (Ok(()), State(stored.blocks, stored.utxos))
    else if stored.utxos == map[] then (Saved(save), State(stored.blocks, verdict.value))
    else (Err(SnapshotMismatch), State(stored.blocks, stored.utxos))
  }

  /** A first start: from what is stored, or from genesis. */
  ghost function StartFrom(s: State, stored: Option<StorageLoad>, save: SaveOutcome): (r: (Result<()>, State)) {
    if stored.Some? then LoadFrom(s, stored.value, save) else
    var genesis := TestnetGenesisBlock();
    if genesis.Err? then (Err(genesis.error), s) else
    var verdict := Verify([StoredBlock(0, genesis.value)]);
    (if verdict.Err? then Err(verdict.error) else Saved(save), State([StoredBlock(0, genesis.value)], map[]))
  }

  /** What an operation begins with: a chain without blocks is started first. */
  ghost function Ready(s: State, start: Start): (r: (Result<()>, State))
    ensures r.0.Ok? ==> |r.1.blocks| > 0
  {
    hide Verify, TestnetGenesisBlock, Settled;
    if |s.blocks| == 0 then StartFrom(s, start.stored, start.save) else (Ok(()), s)
  }

  lemma {:induction false} GenesisFoldsNothing(blocks: seq<StoredBlock>)
    requires |blocks| == 1 && Verified(blocks)
    ensures Verify(blocks) == Ok(map[])
  {
    hide GenesisLocked, CheckBlock;
    assert VerifyPrefix(blocks, 0) == Ok(map[]);
    assert Verify(blocks) == VerifyPrefix(blocks, 1);
  }

  /** Any start that succeeds ends with a settled chain. Without a store only the making of genesis or the save can
      fail: genesis passes validation whenever it can be made. */
  lemma {:induction false} StartSettles(s: State, stored: Option<StorageLoad>, save: SaveOutcome)
    ensures var (r, after) := StartFrom(s, stored, save);
            && (r.Ok? ==> Settled(after) && |after.blocks| > 0)
            && (stored.None? ==>
                  var genesis := TestnetGenesisBlock();
                  if genesis.Err? then r == Err(genesis.error) && after == s
                  else r == Saved(save) && Settled(after) && after.blocks == [StoredBlock(0, genesis.value)])
  {
    hide Verify, TestnetGenesisBlock;
    var genesis := TestnetGenesisBlock();
    if stored.None? && genesis.Ok? {
      GenesisMeaning();
      GenesisFoldsNothing([StoredBlock(0, genesis.value)]);
    }
  }

  /** A load succeeds exactly with a verified chain whose snapshot is the folded map, or is empty and can be replaced by
      it; either way the map ends as the folded one. */
  lemma {:induction false} LoadExactly(s: State, blocks: seq<StoredBlock>, utxos: Utxos, save: SaveOutcome)
    ensures var (r, after) := LoadFrom(s, Loaded(blocks, utxos), save);
            && (r.Ok? <==> Verified(blocks) && (utxos == Verify(blocks).value || (utxos == map[] && save == Saves)))
            && (r.Ok? ==> after == State(blocks, Verify(blocks).value))
            && (Verified(blocks) && utxos == map[] ==> after == State(blocks, Verify(blocks).value))
  {
    hide Verify;
  }

  // ---------------------------------------------------------------- append

  /** The chain after accepting the first n incoming blocks by height and parent alone. */
  ghost function Accumulate(blocks: seq<StoredBlock>, incoming: seq<StoredBlock>, n: nat): Result<seq<StoredBlock>>
    requires |blocks| > 0 && n <= |incoming|
    ensures Accumulate(blocks, incoming, n).Ok? ==> Accumulate(blocks, incoming, n).value == blocks + incoming[..n]
  {
    if n == 0 then Ok(blocks) else
    var before :- Accumulate(blocks, incoming, n - 1);
    var tip := before[|before| - 1];
    if incoming[n - 1].height != tip.height + 1 then Err(NonContiguousHeight)
    else if incoming[n - 1].block.header.previousHash != HashOf(tip) then Err(BrokenLink)
    else Ok(before + [incoming[n - 1]])
  }

  ghost function Append(s: State, incoming: seq<StoredBlock>, save: SaveOutcome): (Result<()>, State)
    requires incoming == [] || |s.blocks| > 0
  {
    if incoming == [] then (Ok(()), s) else
    var joined := Accumulate(s.blocks, incoming, |incoming|);
    if joined.Err? then (Err(joined.error), s) else
    var verdict := Verify(joined.value);
    if verdict.Err? then (Err(verdict.error), s)
    else if save != Saves then (Err(SaveFailed), s)
    else (Ok(()), State(joined.value, verdict.value))
  }

  lemma {:induction false} LinkedAccumulates(blocks: seq<StoredBlock>, incoming: seq<StoredBlock>, n: nat)
    requires |blocks| > 0 && n <= |incoming| && Verified(blocks + incoming)
    ensures Accumulate(blocks, incoming, n).Ok?
  {
    hide Verified;
    if n > 0 {
      LinkedAccumulates(blocks, incoming, n - 1);
      var full := blocks + incoming;
      var i := |blocks| + n - 1;
      VerifiedLink(full, i);
      VerifiedLink(full, i - 1);
      assert full[i] == incoming[n - 1];
      assert (blocks + incoming[..n - 1])[|blocks| + (n - 1) - 1] == full[i - 1];
    }
  }

  /** Given a store that saves, blocks are appended exactly if the longer chain is verified; the state is then that chain
      with its folded map, and otherwise what it was. */
  lemma {:induction false} AppendExactly(s: State, incoming: seq<StoredBlock>)
    requires |s.blocks| > 0 && incoming != []
    ensures var (r, after) := Append(s, incoming, Saves);
            var longer := s.blocks + incoming;
            && (r.Ok? <==> Verified(longer))
            && after == if Verified(longer) then State(longer, Verify(longer).value) else s
  {
    hide Verify, Accumulate;
    assert incoming[..|incoming|] == incoming;
    if Verified(s.blocks + incoming) {
      LinkedAccumulates(s.blocks, incoming, |incoming|);
    }
    AccumulatedIs(s.blocks, incoming);
  }

  lemma {:induction false} AccumulatedIs(blocks: seq<StoredBlock>, incoming: seq<StoredBlock>)
    requires |blocks| > 0
    ensures var joined := Accumulate(blocks, incoming, |incoming|);
            joined.Ok? ==> joined.value == blocks + incoming
  {
    assert incoming[..|incoming|] == incoming;
  }

  // ---------------------------------------------------------------- reorganisation

  /** The length of the longest common prefix, by header hash. */
  ghost function Common(a: seq<StoredBlock>, b: seq<StoredBlock>, from: nat): (n: nat)
    requires from <= |a| && from <= |b|
    ensures from <= n <= |a| && n <= |b|
    ensures forall k :: from <= k < n ==> HashOf(a[k]) == HashOf(b[k])
    ensures n < |a| && n < |b| ==> HashOf(a[n]) != HashOf(b[n])
    decreases |a| - from
  {
    if from < |a| && from < |b| && HashOf(a[from]) == HashOf(b[from]) then Common(a, b, from + 1) else from
  }

  ghost function TxIdSet(blocks: seq<StoredBlock>): set<Hash256> {
    set i, k | 0 <= i < |blocks| && 0 <= k < |blocks[i].block.transactions| :: TxId(blocks[i].block.transactions[k])
  }

  /** The non-coinbase transactions among the first n that are not in the kept set, in order. */
  ghost function LostFrom(transactions: seq<Transaction>, kept: set<Hash256>, n: nat): seq<Transaction>
    requires n <= |transactions|
  {
    if n <= 1 then []
    else if TxId(transactions[n - 1]) in kept then LostFrom(transactions, kept, n - 1)
    else LostFrom(transactions, kept, n - 1) + [transactions[n - 1]]
  }

  ghost function Lost(blocks: seq<StoredBlock>, kept: set<Hash256>, from: nat, n: nat): seq<Transaction>
    requires from <= n <= |blocks|
  {
    if n == from then [] else
    var transactions := blocks[n - 1].block.transactions;
    Lost(blocks, kept, from, n - 1) + LostFrom(transactions, kept, |transactions|)
  }

  /** The report that activation makes of two chains, before anything is changed. */
  ghost function Compare(s: State, candidate: seq<StoredBlock>): Result<Activation>
    requires |s.blocks| > 0 && |candidate| > 0
  {
    var oldWork :- ChainWork(s.blocks);
    var candidateWork :- ChainWork(candidate);
    var common := Common(s.blocks, candidate, 0);
    if common == 0 then Err(ForeignGenesis)
    else Ok(Activation(false, s.blocks[|s.blocks| - 1].height, candidate[|candidate| - 1].height, common - 1,
                       |s.blocks| - common, |candidate| - common, oldWork, candidateWork, []))
  }

  ghost function Activate(s: State, candidate: seq<StoredBlock>, save: SaveOutcome): (Result<Activation>, State) {
    var verdict := Verify(candidate);
    if verdict.Err? then (Err(verdict.error), s)
    else if |s.blocks| == 0 then (Err(NotInitialized), s)
    else
      assert |candidate| > 0;
      var report := Compare(s, candidate);
      if report.Err? || report.value.candidateWork <= report.value.oldWork then (report, s)
      else if save != Saves then (Err(SaveFailed), s)
      else (Ok(report.value.(activated := true,
                             disconnected := Lost(s.blocks, TxIdSet(candidate), report.value.forkHeight + 1, |s.blocks|))),
            State(candidate, verdict.value))
  }

  // ---------------------------------------------------------------- mining

  /** Total fees and map after applying the first n pending transactions. */
  ghost function PendingFees(pending: seq<Transaction>, height: nat, coins: Utxos, n: nat): Result<(int, Utxos)>
    requires n <= |pending|
  {
    if n == 0 then Ok((0, coins)) else
    var before :- PendingFees(pending, height, coins, n - 1);
    var (r, after) := Apply(pending[n - 1], height, before.1);
    if r.Err? then Err(r.error)
    else if before.0 > MAX_MONEY - r.value then Err(BlockFeeOverflow)
    else Ok((before.0 + r.value, after))
  }

  lemma {:induction false} PendingStops(pending: seq<Transaction>, height: nat, coins: Utxos, m: nat, n: nat)
    requires m <= n <= |pending|
    ensures PendingFees(pending, height, coins, m).Err? ==>
              PendingFees(pending, height, coins, n) == PendingFees(pending, height, coins, m)
    decreases n
  {
    hide Apply;
    if m < n {
      PendingStops(pending, height, coins, m, n - 1);
    }
  }

  lemma {:induction false} PendingConnects(coinbase: Transaction, pending: seq<Transaction>, height: nat, coins: Utxos,
                                           n: nat)
    requires n <= |pending|
    ensures ConnectTransactions([coinbase] + pending, height, coins, n + 1) == PendingFees(pending, height, coins, n)
  {
    hide Apply;
    if n > 0 {
      PendingConnects(coinbase, pending, height, coins, n - 1);
      assert ([coinbase] + pending)[n] == pending[n - 1];
    }
  }

  lemma {:induction false} PendingRegular(pending: seq<Transaction>, height: nat, coins: Utxos, n: nat)
    requires n <= |pending| && PendingFees(pending, height, coins, n).Ok?
    ensures forall i :: 0 <= i < n ==> !IsCoinbase(pending[i])
  {
    hide CheckInputs, AddOutputs, StructureValid;
    if n > 0 {
      PendingRegular(pending, height, coins, n - 1);
    }
  }

  /** A block mined on the tip of a verified chain, while unsigned time has room, extends it to a verified chain. */
  lemma {:induction false} MinedBlockVerifies(blocks: seq<StoredBlock>, coins: Utxos, block: Block, script: Script,
                                              pending: seq<Transaction>, fees: int, spent: Utxos, after: Utxos)
    requires 0 < |blocks| < TWO_64 && Verify(blocks) == Ok(coins)
    requires var tip := blocks[|blocks| - 1];
             && tip.block.header.time < TWO_32 - 1
             && MinedOn(block, |blocks|, HashOf(tip), (tip.block.header.time + 1) % TWO_32, TESTNET_BITS, script,
                        pending, fees)
    requires PendingFees(pending, |blocks|, coins, |pending|) == Ok((fees, spent))
    requires BlockSubsidy(|blocks|) <= MAX_MONEY - fees
    requires AddCoinbase(block.transactions[0], |blocks|, spent).0.Ok?
    requires AddCoinbase(block.transactions[0], |blocks|, spent).1 == after
    ensures Verify(blocks + [StoredBlock(|blocks|, block)]) == Ok(after)
  {
    hide VerifyPrefix, GenesisLocked, Apply, AddCoinbase, CheckProofOfWork, MerkleRoot, BlockSubsidy;
    var n := |blocks|;
    var longer := blocks + [StoredBlock(n, block)];
    var coinbase := block.transactions[0];
    assert longer[..n] == blocks;
    VerifyPrefixLocal(blocks, longer, n);
    MinedBlockConnects(blocks, coins, block, script, pending, fees, spent, after);
    MinedBlockChecks(blocks, block, script, pending, fees, coins, spent);
    VerifyPrefixStep(longer, n);
  }

  lemma {:induction false} MinedBlockConnects(blocks: seq<StoredBlock>, coins: Utxos, block: Block, script: Script,
                                              pending: seq<Transaction>, fees: int, spent: Utxos, after: Utxos)
    requires |blocks| < TWO_64
    requires MinedOn(block, |blocks|, block.header.previousHash, block.header.time, TESTNET_BITS, script, pending, fees)
    requires PendingFees(pending, |blocks|, coins, |pending|) == Ok((fees, spent))
    requires BlockSubsidy(|blocks|) <= MAX_MONEY - fees
    requires AddCoinbase(block.transactions[0], |blocks|, spent).0.Ok?
    requires AddCoinbase(block.transactions[0], |blocks|, spent).1 == after
    ensures ConnectBlock(block.transactions, |blocks|, coins) == Ok(after)
  {
    hide Apply, AddCoinbase, CheckProofOfWork, MerkleRoot, BlockSubsidy, PendingFees, ConnectTransactions, MakeTestnetCoinbase;
    var coinbase := block.transactions[0];
    CoinbaseWellFormed(|blocks|, BlockSubsidy(|blocks|) + fees, script);
    PendingConnects(coinbase, pending, |blocks|, coins, |pending|);
    assert block.transactions == [coinbase] + pending;
  }

  lemma {:induction false} MinedBlockChecks(blocks: seq<StoredBlock>, block: Block, script: Script,
                                            pending: seq<Transaction>, fees: int, coins: Utxos, spent: Utxos)
    requires 0 < |blocks| < TWO_64
    requires var tip := blocks[|blocks| - 1];
             && tip.block.header.time < TWO_32 - 1
             && MinedOn(block, |blocks|, HashOf(tip), (tip.block.header.time + 1) % TWO_32, TESTNET_BITS, script,
                        pending, fees)
    requires PendingFees(pending, |blocks|, coins, |pending|) == Ok((fees, spent))
    ensures CheckBlock(blocks + [StoredBlock(|blocks|, block)], |blocks|) == Ok(())
  {
    hide CheckProofOfWork, MerkleRoot, BlockSubsidy, PendingFees, MakeTestnetCoinbase;
    CoinbaseWellFormed(|blocks|, BlockSubsidy(|blocks|) + fees, script);
    PendingRegular(pending, |blocks|, coins, |pending|);
    var transactions := block.transactions;
    forall i | 0 < i < |transactions|
      ensures !IsCoinbase(transactions[i])
    {
      assert transactions[i] == pending[i - 1];
    }
  }

  /** One round of mining on a chain and its folded map. */
  ghost function MineRound(s: State, pending: seq<Transaction>, script: Script, now: u32): (r: Result<State>)
    requires |s.blocks| > 0
    ensures r.Ok? ==> s.blocks <= r.value.blocks && |r.value.blocks| == |s.blocks| + 1
  {
    var previous := s.blocks[|s.blocks| - 1];
    var height := (previous.height + 1) % TWO_64;
    var applied :- PendingFees(pending, height, s.utxos, |pending|);
    var (fees, spent) := applied;
    var block :- MinedBlock(height, HashOf(previous), previous.block.header.time, TESTNET_BITS, script, pending, fees, now);
    var (added, after) := AddCoinbase(block.transactions[0], height, spent);
    if added.Err? then Err(added.error) else Ok(State(s.blocks + [StoredBlock(height, block)], after))
  }

  /** The first n rounds: how they end, and the chain and folded map they have come to. Only the first round takes the
      pending transactions. */
  ghost function MineRounds(s: State, script: Script, pending: seq<Transaction>, clock: nat -> u32, n: nat)
    : (r: (Result<()>, State))
    requires |s.blocks| > 0
    ensures s.blocks <= r.1.blocks && |r.1.blocks| <= |s.blocks| + n
    ensures r.0.Ok? ==> |r.1.blocks| == |s.blocks| + n
  {
    if n == 0 then (Ok(()), s) else
    var (r, before) := MineRounds(s, script, pending, clock, n - 1);
    if r.Err? then (r, before) else
    var round := MineRound(before, if n == 1 then pending else [], script, clock(n - 1));
    if round.Err? then (Err(round.error), before) else (Ok(()), round.value)
  }

  /** The whole of generate: the chain keeps whatever was mined, the map is only replaced by a validated one. */
  ghost function Generated(s: State, count: nat, script: Script, pending: seq<Transaction>, clock: nat -> u32,
                           save: SaveOutcome): (Result<()>, State)
    requires |s.blocks| > 0
  {
    var (r, mined) := MineRounds(s, script, pending, clock, count);
    if r.Err? then (r, State(mined.blocks, s.utxos)) else
    var verdict := Verify(mined.blocks);
    if verdict.Err? then (Err(verdict.error), State(mined.blocks, s.utxos))
    else (if save == Saves then Ok(()) else Err(SaveFailed), mined)
  }

  lemma {:induction false} NoRounds(s: State, script: Script, pending: seq<Transaction>, clock: nat -> u32)
    requires |s.blocks| > 0
    ensures MineRounds(s, script, pending, clock, 0) == (Ok(()), s)
  {
  }

  lemma {:induction false} RoundsStop(s: State, script: Script, pending: seq<Transaction>, clock: nat -> u32, m: nat, n: nat)
    requires |s.blocks| > 0 && m <= n && MineRounds(s, script, pending, clock, m).0.Err?
    ensures MineRounds(s, script, pending, clock, n) == MineRounds(s, script, pending, clock, m)
    decreases n
  {
    hide MineRound;
    if m < n {
      RoundsStop(s, script, pending, clock, m, n - 1);
    }
  }

  lemma {:induction false} NextRound(s: State, script: Script, pending: seq<Transaction>, clock: nat -> u32, n: nat, count: nat)
    requires |s.blocks| > 0 && n < count && MineRounds(s, script, pending, clock, n).0.Ok?
    ensures var before := MineRounds(s, script, pending, clock, n).1;
            var round := MineRound(before, if n == 0 then pending else [], script, clock(n));
            && (round.Ok? ==> MineRounds(s, script, pending, clock, n + 1) == (Ok(()), round.value))
            && (round.Err? ==> MineRounds(s, script, pending, clock, count) == (Err(round.error), before))
  {
    hide MineRound;
    var before := MineRounds(s, script, pending, clock, n).1;
    if MineRound(before, if n == 0 then pending else [], script, clock(n)).Err? {
      RoundsStop(s, script, pending, clock, n + 1, count);
    }
  }

  /** No block but the last has used up unsigned time. */
  ghost predicate RoomForTime(blocks: seq<StoredBlock>) {
    forall i :: 0 <= i < |blocks| - 1 ==> blocks[i].block.header.time < TWO_32 - 1
  }

  lemma {:induction false} RoomBelow(blocks: seq<StoredBlock>, last: StoredBlock)
    requires |blocks| > 0 && RoomForTime(blocks + [last])
    ensures RoomForTime(blocks) && blocks[|blocks| - 1].block.header.time < TWO_32 - 1
  {
    assert forall i :: 0 <= i < |blocks| ==> (blocks + [last])[i] == blocks[i];
  }

  /** Times increase strictly in a verified chain, so only its tip can carry the last one. */
  lemma {:induction false} VerifiedHasRoom(blocks: seq<StoredBlock>)
    requires Verified(blocks)
    ensures RoomForTime(blocks)
  {
    hide Verified;
    forall i | 0 <= i < |blocks| - 1
      ensures blocks[i].block.header.time < TWO_32 - 1
    {
      TimesIncrease(blocks, i, |blocks| - 1);
    }
  }

  /** A round on a settled chain whose tip leaves time leads to a settled chain. */
  lemma {:induction false} RoundSettles(s: State, pending: seq<Transaction>, script: Script, now: u32)
    requires Settled(s) && |s.blocks| > 0 && s.blocks[|s.blocks| - 1].block.header.time < TWO_32 - 1
    ensures var round := MineRound(s, pending, script, now);
            round.Ok? ==> Settled(round.value)
  {
    hide Verify, MinedBlock, MinedOn, PendingFees, AddCoinbase, BlockSubsidy;
    var round := MineRound(s, pending, script, now);
    if round.Ok? {
      var previous := s.blocks[|s.blocks| - 1];
      var height := |s.blocks|;
      assert (previous.height + 1) % TWO_64 == height by {
        VerifiedLength(s.blocks);
        VerifiedLink(s.blocks, height - 1);
      }
      var (fees, spent) := PendingFees(pending, height, s.utxos, |pending|).value;
      var block := MinedBlock(height, HashOf(previous), previous.block.header.time, TESTNET_BITS, script, pending, fees, now).value;
      MinedBlockMeaning(height, HashOf(previous), previous.block.header.time, TESTNET_BITS, script, pending, fees, now);
      MinedBlockVerifies(s.blocks, s.utxos, block, script, pending, fees, spent, round.value.utxos);
    }
  }

  lemma {:induction false} RoundsSettle(s: State, script: Script, pending: seq<Transaction>, clock: nat -> u32, n: nat)
    requires Settled(s) && |s.blocks| > 0
    requires RoomForTime(MineRounds(s, script, pending, clock, n).1.blocks)
    ensures Settled(MineRounds(s, script, pending, clock, n).1)
  {
    hide MineRound, Settled, RoomForTime;
    if n > 0 {
      var (r, before) := MineRounds(s, script, pending, clock, n - 1);
      var (last, after) := MineRounds(s, script, pending, clock, n);
      if last.Ok? {
        assert after.blocks == before.blocks + [after.blocks[|before.blocks|]];
        RoomBelow(before.blocks, after.blocks[|before.blocks|]);
        RoundsSettle(s, script, pending, clock, n - 1);
        RoundSettles(before, if n == 1 then pending else [], script, clock(n - 1));
      } else {
        RoundsSettle(s, script, pending, clock, n - 1);
      }
    }
  }

  /** From a settled chain, success leaves a settled chain that extends the old one by count blocks. A failure keeps
      the map, unless it is only the store's. While unsigned time has room, validation never refuses what was mined. */
  lemma {:induction false} GeneratedSettles(s: State, count: nat, script: Script, pending: seq<Transaction>,
                                            clock: nat -> u32, save: SaveOutcome)
    requires Settled(s) && |s.blocks| > 0
    ensures var (r, after) := Generated(s, count, script, pending, clock, save);
            && s.blocks <= after.blocks
            && (r.Ok? ==> Settled(after) && |after.blocks| == |s.blocks| + count)
            && (r.Err? ==> after.utxos == s.utxos || (r.error == SaveFailed && Settled(after)))
            && (RoomForTime(after.blocks) ==> Verified(after.blocks))
  {
    hide Verify, MineRounds, RoomForTime;
    var mined := MineRounds(s, script, pending, clock, count).1;
    if Verify(mined.blocks).Ok? {
      VerifiedHasRoom(mined.blocks);
    }
    if RoomForTime(mined.blocks) {
      RoundsSettle(s, script, pending, clock, count);
    }
  }

  lemma {:induction false} PendingMeaning(pending: seq<Transaction>, height: nat, coins: Utxos, n: nat)
    requires n <= |pending| && CoinsInRange(coins) && PendingFees(pending, height, coins, n).Ok?
    ensures var (fees, spent) := PendingFees(pending, height, coins, n).value;
            0 <= fees && Total(spent) + fees == Total(coins) && CoinsInRange(spent)
    ensures forall i :: 0 <= i < n ==> StructureValid(pending[i])
  {
    hide Apply, Total, StructureValid;
    if n > 0 {
      PendingMeaning(pending, height, coins, n - 1);
      var before := PendingFees(pending, height, coins, n - 1).value.1;
      ApplyConserves(pending[n - 1], height, before);
      AppliedIsValid(pending[n - 1], height, before);
    }
  }

  lemma {:induction false} AppliedIsValid(tx: Transaction, height: nat, coins: Utxos)
    requires Apply(tx, height, coins).0.Ok?
    ensures StructureValid(tx)
  {
    hide StructureValid, CheckInputs, AddOutputs;
  }

  /** The header that a round starts from. */
  ghost function RoundStart(s: State, pending: seq<Transaction>, coinbase: Transaction, now: u32): BlockHeader
    requires |s.blocks| > 0
  {
    var tip := s.blocks[|s.blocks| - 1];
    FirstTry(HashOf(tip), Root(TxIds([coinbase] + pending)), tip.block.header.time, now, TESTNET_BITS)
  }

  /** On a settled chain a round succeeds exactly if the pending transactions apply, the script is one that a coinbase may
      pay, some remaining time and nonce carry the work, and the new coinbase's output is not yet in the map: no guard on
      fees or reward ever fires. */
  lemma {:induction false} RoundExactly(s: State, pending: seq<Transaction>, script: Script, now: u32)
    requires |s.blocks| > 0 && Settled(s)
    ensures |s.blocks| < TWO_64
    ensures MineRound(s, pending, script, now).Ok? <==>
              && PendingFees(pending, |s.blocks|, s.utxos, |pending|).Ok?
              && (var (fees, spent) := PendingFees(pending, |s.blocks|, s.utxos, |pending|).value;
                  var made := MakeTestnetCoinbase(|s.blocks|, BlockSubsidy(|s.blocks|) + fees, script);
                  && 0 < |script| <= MAX_SCRIPT_SIZE && made.Ok?
                  && Minable(RoundStart(s, pending, made.value, now))
                  && Fresh(TxId(made.value), spent, 1))
  {
    hide Verify, MinedBlock, PendingFees, AddCoinbase, BlockSubsidy, MakeTestnetCoinbase, Minable, Root, StructureValid, Fresh,
         IssuedBy, Total;
    var n := |s.blocks|;
    VerifiedLength(s.blocks);
    VerifiedLink(s.blocks, n - 1);
    var tip := s.blocks[n - 1];
    var applied := PendingFees(pending, n, s.utxos, |pending|);
    if applied.Ok? {
      var (fees, spent) := applied.value;
      Conservation(s.blocks);
      PendingMeaning(pending, n, s.utxos, |pending|);
      TotalNonNegative(spent);
      NextIssue(n);
      IssuedByBound(n);
      CoinbaseWellFormed(n, BlockSubsidy(n) + fees, script);
      TestnetTarget();
      MinesExactly(n, HashOf(tip), tip.block.header.time, TESTNET_BITS, script, pending, fees, now);
      MinedBlockMeaning(n, HashOf(tip), tip.block.header.time, TESTNET_BITS, script, pending, fees, now);
      var made := MakeTestnetCoinbase(n, BlockSubsidy(n) + fees, script);
      if made.Ok? {
        CoinbaseFits(made.value, n, spent);
        CoinbaseOutput(n, BlockSubsidy(n) + fees, script);
        if MinedBlock(n, HashOf(tip), tip.block.header.time, TESTNET_BITS, script, pending, fees, now).Ok? {
          var block := MinedBlock(n, HashOf(tip), tip.block.header.time, TESTNET_BITS, script, pending, fees, now).value;
          assert block.transactions[0] == made.value;
        }
      }
    }
  }

  lemma {:induction false} NextIssue(n: nat)
    requires n > 0
    ensures IssuedBy(n) == IssuedBy(n - 1) + BlockSubsidy(n)
  {
  }

  lemma {:induction false} CoinbaseOutput(height: u64, reward: int, script: Script)
    requires MakeTestnetCoinbase(height, reward, script).Ok?
    ensures |MakeTestnetCoinbase(height, reward, script).value.outputs| == 1
  {
    hide ScriptNumber;
  }

  lemma {:induction false} CoinbaseFits(coinbase: Transaction, height: nat, spent: Utxos)
    requires StructureValid(coinbase) && CoinsInRange(spent)
    ensures AddCoinbase(coinbase, height, spent).0.Ok? <==> Fresh(TxId(coinbase), spent, |coinbase.outputs|)
  {
    hide CoinsInRange, AddOutputs, NewCoins, ValuesInRange;
    AddOutputsMeaning(coinbase.outputs, TxId(coinbase), height, true, spent, |coinbase.outputs|);
  }

  /** A longer chain beside the map of the shorter one is not settled: the map lacks the newest coinbase. */
  lemma {:induction false} OldMapDoesNotFit(s: State, after: State)
    requires Settled(s) && Settled(after) && s.blocks <= after.blocks && |after.blocks| > |s.blocks| > 0
    ensures after.utxos != s.utxos
  {
    hide VerifyPrefix, GenesisLocked;
    PrefixBelow(s.blocks, |s.blocks|);
    NewestCoinbaseUnspent(after.blocks);
  }

  lemma {:induction false} FirstRoundDecides(s: State, script: Script, pending: seq<Transaction>, clock: nat -> u32, n: nat)
    requires |s.blocks| > 0 && n > 0
    ensures MineRound(s, pending, script, clock(0)).Err? ==>
              MineRounds(s, script, pending, clock, n).0.Err? && MineRounds(s, script, pending, clock, n).1 == s
    ensures MineRound(s, pending, script, clock(0)).Ok? ==> |MineRounds(s, script, pending, clock, n).1.blocks| > |s.blocks|
  {
    hide MineRound;
    if n > 1 {
      FirstRoundDecides(s, script, pending, clock, n - 1);
    }
  }

  /** A failed generate leaves a settled chain settled exactly if its first round fails, so that nothing was mined, or if
      everything but the save succeeds. In all other cases the blocks mined so far stand beside the old map. */
  lemma {:induction false} GeneratedFailure(s: State, count: nat, script: Script, pending: seq<Transaction>,
                                            clock: nat -> u32, save: SaveOutcome)
    requires |s.blocks| > 0 && Settled(s) && Generated(s, count, script, pending, clock, save).0.Err?
    ensures var (r, after) := Generated(s, count, script, pending, clock, save);
            var (rounds, mined) := MineRounds(s, script, pending, clock, count);
            && (Settled(after) <==> (count > 0 && MineRound(s, pending, script, clock(0)).Err?)
                                    || (rounds.Ok? && Verified(mined.blocks)))
            && (Settled(after) <==> after.blocks == s.blocks || (r.error == SaveFailed && after.utxos != s.utxos))
  {
    hide Verify, MineRound, MineRounds, RoomForTime;
    var (r, after) := Generated(s, count, script, pending, clock, save);
    var (rounds, mined) := MineRounds(s, script, pending, clock, count);
    if count == 0 {
      NoRounds(s, script, pending, clock);
    } else {
      FirstRoundDecides(s, script, pending, clock, count);
    }
    if Verified(mined.blocks) {
      VerifiedHasRoom(mined.blocks);
      RoundsSettle(s, script, pending, clock, count);
    }
    if Settled(after) && |after.blocks| > |s.blocks| {
      OldMapDoesNotFit(s, after);
    }
  }

  /** A block of this height whose coinbase pays the subsidy and the fees of what it carries to the script. */
  ghost predicate Carries(stored: StoredBlock, height: nat, coins: Utxos, carried: seq<Transaction>, script: Script) {
    var transactions := stored.block.transactions;
    var fees := PendingFees(carried, height, coins, |carried|);
    && stored.height == height && fees.Ok?
    && |transactions| > 0 && transactions[1..] == carried
    && Pays(transactions[0], BlockSubsidy(height) + fees.value.0, script)
  }

  ghost predicate Pays(tx: Transaction, amount: int, script: Script) {
    && |tx.outputs| == 1
    && tx.outputs[0].value == amount && tx.outputs[0].scriptPubKey == script
  }

  lemma {:induction false} MinedPays(block: Block, height: u64, previousHash: Hash256, earliest: u32, bits: u32,
                                     script: Script, transactions: seq<Transaction>, fees: int)
    requires MinedOn(block, height, previousHash, earliest, bits, script, transactions, fees)
    ensures |block.transactions| > 0 && block.transactions[1..] == transactions
    ensures Pays(block.transactions[0], BlockSubsidy(height) + fees, script)
  {
    hide BlockSubsidy, MerkleRoot, CheckProofOfWork, ScriptNumber;
  }

  lemma {:induction false} RoundContents(s: State, pending: seq<Transaction>, script: Script, now: u32)
    requires |s.blocks| > 0 && MineRound(s, pending, script, now).Ok?
    requires s.blocks[|s.blocks| - 1].height + 1 < TWO_64
    ensures Carries(MineRound(s, pending, script, now).value.blocks[|s.blocks|], s.blocks[|s.blocks| - 1].height + 1,
                    s.utxos, pending, script)
  {
    hide MinedBlock, MinedOn, PendingFees, AddCoinbase, BlockSubsidy, Pays;
    var previous := s.blocks[|s.blocks| - 1];
    var height := previous.height + 1;
    var (fees, spent) := PendingFees(pending, height, s.utxos, |pending|).value;
    var block := MinedBlock(height, HashOf(previous), previous.block.header.time, TESTNET_BITS, script, pending, fees, now).value;
    MinedBlockMeaning(height, HashOf(previous), previous.block.header.time, TESTNET_BITS, script, pending, fees, now);
    MinedPays(block, height, HashOf(previous), (previous.block.header.time + 1) % TWO_32, TESTNET_BITS, script, pending, fees);
  }

  /** What a successful generate adds to a settled chain: the first new block carries exactly the pending transactions,
      the others none, and every coinbase pays the subsidy of its height and the block's fees to the script. */
  lemma {:induction false} GeneratedContents(s: State, count: nat, script: Script, pending: seq<Transaction>,
                                             clock: nat -> u32, k: nat)
    requires |s.blocks| > 0 && k < count && Settled(s)
    requires MineRounds(s, script, pending, clock, count).0.Ok?
    requires RoomForTime(MineRounds(s, script, pending, clock, count).1.blocks)
    ensures Settled(MineRounds(s, script, pending, clock, k).1)
    ensures Carries(MineRounds(s, script, pending, clock, count).1.blocks[|s.blocks| + k], |s.blocks| + k,
                    MineRounds(s, script, pending, clock, k).1.utxos, if k == 0 then pending else [], script)
    decreases count
  {
    hide MineRound, Carries, RoomForTime, Verify;
    var (r, before) := MineRounds(s, script, pending, clock, count - 1);
    var after := MineRounds(s, script, pending, clock, count).1;
    assert after.blocks == before.blocks + [after.blocks[|before.blocks|]];
    RoomBelow(before.blocks, after.blocks[|before.blocks|]);
    if k < count - 1 {
      GeneratedContents(s, count - 1, script, pending, clock, k);
    } else {
      RoundsSettle(s, script, pending, clock, k);
      VerifiedLength(before.blocks);
      VerifiedLink(before.blocks, |before.blocks| - 1);
      RoundContents(before, if k == 0 then pending else [], script, clock(k));
    }
  }
}
