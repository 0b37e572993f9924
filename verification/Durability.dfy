/** What the store's commits rest on: logs that consist of records, and settled chains (src/storage.cpp, src/chain.cpp). */
module Durability {
  import opened Amounts
  import opened Errors
  import opened Transactions
  import opened Blocks
  import opened Serialize
  import opened Utxo
  import opened UtxoRules
  import opened Validation
  import opened Ledger
  import opened ChainState
  import opened TestnetChains
  import opened Texts
  import opened BlockCodec
  import opened RecordLog
  import opened StoreFormats
  import opened Storage

  // ---------------------------------------------------------------- logs that consist of records

  /** The blocks among the first n whose hashes are new at their turn. */
  ghost function Fresh(logged: seq<StoredBlock>, blocks: seq<StoredBlock>, n: nat): seq<StoredBlock>
    requires n <= |blocks|
  {
    if n == 0 then [] else
    var before := Fresh(logged, blocks, n - 1);
    if HashOf(blocks[n - 1]) in Hashes(logged + before) then before else before + [blocks[n - 1]]
  }

  lemma {:induction false} FreshRecorded(logged: seq<StoredBlock>, blocks: seq<StoredBlock>, n: nat)
    requires Recorded(logged) && Recorded(blocks) && n <= |blocks|
    ensures Recorded(logged + Fresh(logged, blocks, n))
    ensures forall x :: x in logged + Fresh(logged, blocks, n) ==> x in logged || x in blocks
  {
    hide Recordable, Storable;
    if n > 0 {
      FreshRecorded(logged, blocks, n - 1);
      assert blocks[n - 1] in blocks;
      var (before, all) := (logged + Fresh(logged, blocks, n - 1), logged + Fresh(logged, blocks, n));
      forall i | 0 <= i < |all|
        ensures Recordable(all[i]) && Storable(all[i])
      {
        assert i < |before| ==> all[i] == before[i];
      }
    }
  }

  /** The logged blocks followed by the fresh ones among the first n. */
  ghost function Grown(logged: seq<StoredBlock>, blocks: seq<StoredBlock>, n: nat): (all: seq<StoredBlock>)
    requires Recorded(logged) && Recorded(blocks) && n <= |blocks|
    ensures Recorded(all)
  {
    FreshRecorded(logged, blocks, n);
    logged + Fresh(logged, blocks, n)
  }

  lemma {:induction false} Knows(blocks: seq<StoredBlock>, hash: Hash256)
    requires Recorded(blocks) && |Records(blocks)| < TWO_64
    ensures hash in FirstOffsets(blocks) <==> hash in Hashes(blocks)
  {
    hide Recorded, FirstOffsets, Records, FirstAt;
    FirstOffsetsMeaning(blocks, hash);
  }

  lemma {:induction false} RecordsGrow(blocks: seq<StoredBlock>, next: StoredBlock)
    requires Recorded(blocks) && Recordable(next) && Storable(next)
    ensures Recorded(blocks + [next]) && Records(blocks + [next]) == Records(blocks) + RecordBytes(next)
    ensures FirstOffsets(blocks + [next])
         == if HashOf(next) in FirstOffsets(blocks) then FirstOffsets(blocks)
            else FirstOffsets(blocks)[HashOf(next) :=
                   IndexEntry(next.height, |Records(blocks)|, |StoredBytes(next)|, HashText(HashOf(next)))]
  {
    hide RecordBytes, HashText, Storable, AllValid, StoredBytes;
    assert (blocks + [next])[..|blocks|] == blocks;
  }

  /** Appending to a log of records gives a log of records, and the offsets that the appends compute are those of the
      first occurrences. */
  lemma {:induction false} AppendsAreRecords(logged: seq<StoredBlock>, blocks: seq<StoredBlock>, n: nat)
    requires Recorded(logged) && Recorded(blocks) && n <= |blocks|
    requires |Records(Grown(logged, blocks, n))| < TWO_64
    ensures AfterAppends(Records(logged), FirstOffsets(logged), blocks, n)
         == (Records(Grown(logged, blocks, n)), FirstOffsets(Grown(logged, blocks, n)))
  {
    hide RecordBytes, HashText, Storable, Recordable, Records, FirstOffsets, StoredBytes, Hashes;
    if n == 0 {
      assert logged + [] == logged;
    } else {
      FreshRecorded(logged, blocks, n - 1);
      var all := Grown(logged, blocks, n - 1);
      var next := blocks[n - 1];
      RecordsGrow(all, next);
      assert HashOf(next) !in Hashes(all) ==> Grown(logged, blocks, n) == all + [next];
      Knows(all, HashOf(next));
      AppendsAreRecords(logged, blocks, n - 1);
    }
  }

  /** On a log of records, scanning the grown log finds exactly the catalogue that the commit computed on the way. */
  lemma {:induction false} IncrementalIsScan(logged: seq<StoredBlock>, blocks: seq<StoredBlock>)
    requires Recorded(logged) && Recorded(blocks)
    requires |Records(Grown(logged, blocks, |blocks|))| < TWO_64 && |Records(logged)| < TWO_64
    ensures var (log, catalog) := AfterAppends(Records(logged), Scan(Records(logged)), blocks, |blocks|);
            log == Records(Grown(logged, blocks, |blocks|))
            && Scan(log) == catalog == FirstOffsets(Grown(logged, blocks, |blocks|))
  {
    hide Scan, Records, FirstOffsets, AfterAppends, Fresh, Recorded, Torn;
    var all := Grown(logged, blocks, |blocks|);
    ScanFindsFirsts(logged, []);
    ScanFindsFirsts(all, []);
    assert Records(logged) + [] == Records(logged) && Records(all) + [] == Records(all);
    AppendsAreRecords(logged, blocks, |blocks|);
  }

  /** Blocks of one header hash are one block. */
  ghost predicate OneBlockPerHash(blocks: seq<StoredBlock>) {
    forall a, b :: a in blocks && b in blocks && HashOf(a) == HashOf(b) ==> a == b
  }

  lemma {:induction false} FirstIsTheBlock(all: seq<StoredBlock>, log: Bytes, block: StoredBlock)
    requires Recorded(all) && |Records(all)| < TWO_64 && log == Records(all)
    requires HashOf(block) in FirstOffsets(all)
    requires forall x :: x in all && HashOf(x) == HashOf(block) ==> x == block
    ensures var entry := FirstOffsets(all)[HashOf(block)];
            ReadRecord(log, entry.offset, entry.payloadSize) == Ok(block)
  {
    hide Records, FirstOffsets, ReadRecord, RecordBytes, StoredBytes, Storable, Recordable;
    FirstOffsetsMeaning(all, HashOf(block));
    var entry := FirstOffsets(all)[HashOf(block)];
    var i: nat :| FirstAt(all, HashOf(block), i, entry);
    RecordsSplit(all, i);
    RecordReads(log, entry.offset, all[i]);
  }

  /** Whatever can be read anywhere in the log under the header hash of one of the blocks is that block. */
  ghost predicate NamesBlocks(log: Bytes, blocks: seq<StoredBlock>) {
    forall i, offset: nat, size: nat :: 0 <= i < |blocks| && ReadRecord(log, offset, size).Ok? ==>
      var read := ReadRecord(log, offset, size).value;
      HashOf(read) == HashOf(blocks[i]) ==> read == blocks[i]
  }

  /** On any log, with torn records in it or without, readable records that hashes name leave no room for an impostor. */
  lemma {:induction false} ReadableHasNoImpostor(log: Bytes, blocks: seq<StoredBlock>)
    requires |log| < TWO_64 && NamesBlocks(log, blocks)
    ensures NoImpostor(log, blocks)
  {
    hide Scan, ReadRecord;
    ScanLeads(log);
  }

  /** On a log of records in which every hash names one block there is no impostor, so a commit's precondition holds. */
  lemma {:induction false} CleanLogHasNoImpostor(logged: seq<StoredBlock>, blocks: seq<StoredBlock>)
    requires Recorded(logged) && Recorded(blocks) && OneBlockPerHash(logged + blocks)
    requires |Records(Grown(logged, blocks, |blocks|))| < TWO_64 && |Records(logged)| < TWO_64
    ensures NoImpostor(Appended(Records(logged), blocks), blocks)
  {
    var all := Grown(logged, blocks, |blocks|);
    IncrementalIsScan(logged, blocks);
    FreshRecorded(logged, blocks, |blocks|);
    hide Scan, Records, FirstOffsets, AfterAppends, Fresh, Recorded, ReadRecord;
    var log := Appended(Records(logged), blocks);
    forall i | 0 <= i < |blocks| && HashOf(blocks[i]) in Scan(log)
      ensures var entry := Scan(log)[HashOf(blocks[i])];
              ReadRecord(log, entry.offset, entry.payloadSize) == Ok(blocks[i])
    {
      assert blocks[i] in logged + blocks;
      forall x | x in all && HashOf(x) == HashOf(blocks[i])
        ensures x == blocks[i]
      {
        assert x in logged + blocks;
      }
      FirstIsTheBlock(all, log, blocks[i]);
    }
  }

  /** On a log of records, appending the missing blocks of a chain catalogues all of it, so that only an interruption can
      make a commit fail. */
  lemma {:induction false} CleanAppendCatalogues(logged: seq<StoredBlock>, blocks: seq<StoredBlock>)
    requires Recorded(logged) && Recorded(blocks)
    requires |Records(Grown(logged, blocks, |blocks|))| < TWO_64 && |Records(logged)| < TWO_64
    ensures Appended(Records(logged), blocks) == Records(Grown(logged, blocks, |blocks|))
    ensures AllCatalogued(Appended(Records(logged), blocks), blocks)
    ensures forall i :: 0 <= i < |blocks| ==> Recordable(blocks[i])
  {
    IncrementalIsScan(logged, blocks);
    hide Scan, Records, FirstOffsets, AfterAppends, Fresh, Recordable, Storable;
    var all := Grown(logged, blocks, |blocks|);
    forall i | 0 <= i < |blocks|
      ensures HashOf(blocks[i]) in FirstOffsets(all)
    {
      FreshKnown(logged, blocks, |blocks|, i);
      Knows(all, HashOf(blocks[i]));
    }
  }

  lemma {:induction false} FreshKnown(logged: seq<StoredBlock>, blocks: seq<StoredBlock>, n: nat, i: nat)
    requires i < n <= |blocks|
    ensures HashOf(blocks[i]) in Hashes(logged + Fresh(logged, blocks, n))
  {
    var before := logged + Fresh(logged, blocks, n - 1);
    var all := logged + Fresh(logged, blocks, n);
    assert before <= all;
    if i < n - 1 {
      FreshKnown(logged, blocks, n - 1, i);
      var k :| 0 <= k < |before| && HashOf(before[k]) == HashOf(blocks[i]);
      assert all[k] == before[k];
    } else if HashOf(blocks[i]) in Hashes(before) {
      assert all == before;
    } else {
      assert all == before + [blocks[i]] && all[|before|] == blocks[i];
    }
  }

  /** An append that was cut short leaves a log of records with a torn tail, which a scan reads as if the torn append had
      not begun. */
  lemma {:induction false} TornLogScans(logged: seq<StoredBlock>, blocks: seq<StoredBlock>, k: nat, left: Bytes)
    requires Recorded(logged) && Recorded(blocks) && |left| < TWO_64
    requires TornAt(Records(logged), FirstOffsets(logged), blocks, k, left)
    requires |Records(Grown(logged, blocks, k))| < TWO_64
    ensures Scan(left) == FirstOffsets(Grown(logged, blocks, k))
  {
    hide Scan, FirstOffsets, AfterAppends, Fresh, Records, Torn, Recorded;
    AppendsAreRecords(logged, blocks, k);
    var all := Grown(logged, blocks, k);
    var tail := left[|Records(all)|..];
    assert left == Records(all) + tail;
    ScanFindsFirsts(all, tail);
  }

  // ---------------------------------------------------------------- settled chains

  /** What a settled chain hands to the store can be committed. */
  lemma {:induction false} SettledIsCommittable(s: State)
    requires Settled(s)
    requires forall i :: 0 <= i < |s.blocks| ==> |s.blocks[i].block.transactions| < TWO_64
    ensures Committable(s.blocks, s.utxos)
  {
    hide VerifyPrefix, GenesisLocked;
    PrefixBelow(s.blocks, |s.blocks|);
    Conservation(s.blocks);
    VerifiedLength(s.blocks);
    forall i | 0 <= i < |s.blocks|
      ensures s.blocks[i].height == i
    {
      VerifiedLink(s.blocks, i);
    }
  }

  // ---------------------------------------------------------------- a node that stops while it saves

  /** The store holds this state. */
  ghost predicate Stores(files: Files, log: Bytes, s: State) {
    Sound(files, log) && LoadManifest(files, log) == Ok((s.blocks, s.utxos))
  }

  /** A node whose store holds one settled state stops anywhere while it saves another; started again, it has exactly one
      of the two, verified and with its own UTXO map, and the store holds it. */
  method SaveStopRestart(store: DurableChainStore, chain: TestnetChain, power: Power, ghost before: State)
    returns (r: Result<()>, restarted: TestnetChain)
    requires Settled(before) && Stores(store.files, store.log, before) && Settled(chain.Current())
    requires forall i :: 0 <= i < |chain.blocks| ==> |chain.blocks[i].block.transactions| < TWO_64
    requires |store.log| < TWO_64 && NoImpostor(Appended(store.log, chain.blocks), chain.blocks)
    modifies store, power
    ensures Grew(old(store.log), chain.blocks, store.log)
    ensures r == Ok(()) && fresh(restarted) && Settled(restarted.Current())
    ensures restarted.Current() == if Switched(old(store.files), store.files) then chain.Current() else before
    ensures Stores(store.files, store.log, restarted.Current())
  {
    hide Settled, LoadManifest, NoImpostor, Sound, Appended, Grew;
    SettledIsCommittable(chain.Current());
    var loaded := store.CommitAndRestart(chain.blocks, chain.utxos, power);
    restarted := new TestnetChain();
    SettledMeans(before);
    SettledMeans(chain.Current());
    var (blocks, utxos) := loaded.value;
    r := restarted.Load(Loaded(blocks, utxos), Saves);
  }

  /** Logs that a run of saves may leave, one after the other, each save stopped anywhere. */
  ghost predicate LogRun(logs: seq<Bytes>, saves: seq<State>) {
    && 0 < |logs| <= |saves| + 1
    && forall i :: 0 <= i < |logs| - 1 ==> |logs[i]| < TWO_64 && Grew(logs[i], saves[i].blocks, logs[i + 1])
  }

  /** Whatever log such a run comes to, with whatever torn records in it, the next append stays addressable and its
      readable records are the blocks that their hashes name. */
  ghost predicate LogsName(log: Bytes, saves: seq<State>) {
    forall logs :: LogRun(logs, saves) && |logs| <= |saves| && logs[0] == log ==> NextNames(logs, saves)
  }

  ghost predicate NextNames(logs: seq<Bytes>, saves: seq<State>)
    requires 0 < |logs| <= |saves|
  {
    var (log, blocks) := (logs[|logs| - 1], saves[|logs| - 1].blocks);
    |log| < TWO_64 && |Appended(log, blocks)| < TWO_64 && NamesBlocks(Appended(log, blocks), blocks)
  }

  lemma {:induction false} RunBegins(log: Bytes, saves: seq<State>)
    ensures LogRun([log], saves)
  {
  }

  lemma {:induction false} RunGoesOn(logs: seq<Bytes>, saves: seq<State>, next: Bytes)
    requires LogRun(logs, saves) && |logs| <= |saves|
    requires |logs[|logs| - 1]| < TWO_64 && Grew(logs[|logs| - 1], saves[|logs| - 1].blocks, next)
    ensures LogRun(logs + [next], saves)
  {
    hide Grew;
    var longer := logs + [next];
    assert forall i :: 0 <= i < |logs| ==> longer[i] == logs[i];
  }

  lemma {:induction false} NextHasNoImpostor(logs: seq<Bytes>, saves: seq<State>)
    requires 0 < |logs| <= |saves| && LogRun(logs, saves) && LogsName(logs[0], saves)
    ensures var (log, blocks) := (logs[|logs| - 1], saves[|logs| - 1].blocks);
            |log| < TWO_64 && NoImpostor(Appended(log, blocks), blocks)
  {
    hide Grew, NamesBlocks, NoImpostor, Appended, LogRun;
    assert NextNames(logs, saves);
    var (log, blocks) := (logs[|logs| - 1], saves[|logs| - 1].blocks);
    ReadableHasNoImpostor(Appended(log, blocks), blocks);
  }

  lemma {:induction false} AppendsBegun(log: Bytes, catalog: Catalog, blocks: seq<StoredBlock>, k: nat)
    requires k <= |blocks|
    ensures var grown := AfterAppends(log, catalog, blocks, k).0;
            log <= grown && Begun(grown[|log|..])
  {
    hide Recordable, RecordBytes, StoredBytes, HashText, Begun;
    if k == 0 {
      NothingBegun();
      assert log[|log|..] == [];
    } else {
      AppendsBegun(log, catalog, blocks, k - 1);
      var before := AfterAppends(log, catalog, blocks, k - 1).0;
      if Recordable(blocks[k - 1]) {
        PartBegun(RecordBytes(blocks[k - 1]), blocks[k - 1]);
        BegunGrows(log, before, RecordBytes(blocks[k - 1]));
      }
    }
  }

  lemma {:induction false} BegunGrows(log: Bytes, before: Bytes, part: Bytes)
    requires log <= before && Begun(before[|log|..]) && Begun(part)
    ensures log <= before + part && Begun((before + part)[|log|..])
  {
    hide Begun;
    BegunJoins(before[|log|..], part);
    assert (before + part)[|log|..] == before[|log|..] + part;
  }

  lemma {:induction false} NothingBegun()
    ensures Begun([])
  {
  }

  lemma {:induction false} GrewBegun(log: Bytes, blocks: seq<StoredBlock>, left: Bytes)
    requires |log| < TWO_64 && Grew(log, blocks, left)
    ensures log <= left && Begun(left[|log|..])
  {
    hide Scan, AfterAppends, RecordBytes, Begun, Recordable;
    var k: nat :| k <= |blocks| && GrewTo(log, Scan(log), blocks, k, left);
    AppendsBegun(log, Scan(log), blocks, k);
    var whole := AfterAppends(log, Scan(log), blocks, k).0;
    if left != whole {
      PartBegun(left[|whole|..], blocks[k]);
      BegunGrows(log, whole, left[|whole|..]);
      assert left == whole + left[|whole|..];
    }
  }

  lemma {:induction false} RunBegun(logs: seq<Bytes>, saves: seq<State>, i: nat)
    requires LogRun(logs, saves) && i < |logs|
    ensures logs[0] <= logs[i] && Begun(logs[i][|logs[0]|..])
  {
    hide Grew, Begun;
    if i == 0 {
      assert logs[0][|logs[0]|..] == [];
      NothingBegun();
    } else {
      RunBegun(logs, saves, i - 1);
      GrewBegun(logs[i - 1], saves[i - 1].blocks, logs[i]);
      BegunGrows(logs[0], logs[i - 1], logs[i][|logs[i - 1]|..]);
      assert logs[i] == logs[i - 1] + logs[i][|logs[i - 1]|..];
    }
  }

  /** A commit that stopped within the first sixteen bytes of a record leaves a log whose scan never gets past them. Over
      any run of further commits, finished or stopped anywhere, exactly the blocks recorded before are ever catalogued, so
      no commit of a chain with another block can succeed. */
  lemma {:induction false} ShortTailBlocksCommits(logged: seq<StoredBlock>, tail: Bytes, logs: seq<Bytes>, saves: seq<State>,
                                                  i: nat, blocks: seq<StoredBlock>)
    requires Recorded(logged) && 0 < |tail| < 16 && LogRun(logs, saves) && logs[0] == Records(logged) + tail
    requires i < |logs| && |logs[i]| < TWO_64
    ensures Scan(logs[i]) == FirstOffsets(logged)
    ensures AllCatalogued(logs[i], blocks) <==> forall k :: 0 <= k < |blocks| ==> HashOf(blocks[k]) in Hashes(logged)
  {
    hide Records, FirstOffsets, Recorded, Scan, Hashes, LogRun, Begun;
    RunBegun(logs, saves, i);
    var more := logs[i][|logs[0]|..];
    assert logs[i] == Records(logged) + (tail + more);
    ShortTailStopsScan(Records(logged), tail, more);
    ScanStopsBehind(logged, tail + more);
    forall k | 0 <= k < |blocks|
      ensures HashOf(blocks[k]) in FirstOffsets(logged) <==> HashOf(blocks[k]) in Hashes(logged)
    {
      Knows(logged, HashOf(blocks[k]));
    }
  }

  /** Any number of saves of settled states, each stopped anywhere and followed by a restart: after every one of them the
      store holds exactly the state just saved or exactly the one it held before. */
  method SavesAndRestarts(store: DurableChainStore, saves: seq<State>, powers: seq<nat>, ghost before: State)
    returns (ghost held: seq<State>)
    requires Settled(before) && Stores(store.files, store.log, before) && |powers| == |saves|
    requires forall i :: 0 <= i < |saves| ==> Settled(saves[i])
    requires forall i, k :: 0 <= i < |saves| && 0 <= k < |saves[i].blocks| ==>
               |saves[i].blocks[k].block.transactions| < TWO_64
    requires LogsName(store.log, saves)
    modifies store
    ensures |held| == |saves| + 1 && held[0] == before
    ensures forall i :: 0 <= i < |saves| ==> held[i + 1] == held[i] || held[i + 1] == saves[i]
    ensures Settled(held[|saves|]) && Stores(store.files, store.log, held[|saves|])
  {
    hide Settled, Stores, NoImpostor, LogRun, LogsName, Grew, Appended;
    held := [before];
    ghost var logs := [store.log];
    RunBegins(store.log, saves);
    for i := 0 to |saves|
      invariant |held| == i + 1 && held[0] == before
      invariant forall k :: 0 <= k < i ==> held[k + 1] == held[k] || held[k + 1] == saves[k]
      invariant Settled(held[i]) && Stores(store.files, store.log, held[i])
      invariant |logs| == i + 1 && logs[0] == old(store.log) && logs[i] == store.log && LogRun(logs, saves)
    {
      var chain := new TestnetChain();
      chain.blocks, chain.utxos := saves[i].blocks, saves[i].utxos;
      var power := new Power(powers[i]);
      NextHasNoImpostor(logs, saves);
      var _, restarted := SaveStopRestart(store, chain, power, held[i]);
      RunGoesOn(logs, saves, store.log);
      held := held + [restarted.Current()];
      logs := logs + [store.log];
    }
  }

  lemma {:induction false} SettledMeans(s: State)
    ensures Settled(s) <==> Verify(s.blocks) == Ok(s.utxos)
  {
  }
}
