/** The durable store: an append-only record log, one index and one snapshot file per generation, and a manifest that is
    written last. A commit may be interrupted after any step (src/storage.cpp). */
module Storage {
  import opened Errors
  import opened Transactions
  import opened Blocks
  import opened Serialize
  import opened Utxo
  import opened UtxoRules
  import opened Texts
  import opened BlockCodec
  import opened RecordLog
  import opened StoreFormats

  type Files = map<string, string>

  /** How many more elementary steps happen before the machine stops: one for each byte appended to the log, each file
      replaced and each file removed. */
  class Power {
    var steps: nat

    constructor (steps: nat)
      ensures this.steps == steps
    {
      this.steps := steps;
    }
  }

  // ---------------------------------------------------------------- what is on the disk

  function IndexName(generation: u64): string {
    GenerationName(INDEX_PREFIX, generation)
  }

  function UtxoName(generation: u64): string {
    GenerationName(UTXO_PREFIX, generation)
  }

  function DigestText(text: string): string {
    HashText(TextDigest(text))
  }

  /** The blocks behind the first n index entries. */
  ghost function LoadEntries(log: Bytes, entries: seq<IndexEntry>, n: nat): (r: Result<seq<StoredBlock>>)
    requires n <= |entries|
    ensures r.Ok? ==> |r.value| == n
  {
    if n == 0 then Ok([]) else
    var before :- LoadEntries(log, entries, n - 1);
    var entry := entries[n - 1];
    var block :- ReadRecord(log, entry.offset, entry.payloadSize);
    if block.height != entry.height || HashText(HashOf(block)) != entry.hash then Err(BadFormat)
    else Ok(before + [block])
  }

  ghost function LoadIndex(files: Files, log: Bytes, name: string): (r: Result<seq<StoredBlock>>)
    ensures r.Ok? ==> |r.value| > 0
  {
    if name !in files then Err(LoadFailed) else
    var entries :- ParseIndex(files[name]);
    LoadEntries(log, entries, |entries|)
  }

  ghost function LoadGeneration(files: Files, log: Bytes, m: Manifest): Result<(seq<StoredBlock>, Utxos)> {
    if m.indexFile !in files || m.utxoFile !in files then Err(LoadFailed)
    else if DigestText(files[m.indexFile]) != m.indexDigest then Err(ChecksumMismatch)
    else if DigestText(files[m.utxoFile]) != m.utxoDigest then Err(ChecksumMismatch)
    else
      var blocks :- LoadIndex(files, log, m.indexFile);
      var last := blocks[|blocks| - 1];
      if last.height != m.height || HashText(HashOf(last)) != m.bestBlock then Err(SnapshotMismatch) else
      var utxos :- ParseUtxos(files[m.utxoFile], m.height, m.bestBlock);
      Ok((blocks, utxos))
  }

  /** What the manifest leads to. */
  ghost function LoadManifest(files: Files, log: Bytes): Result<(seq<StoredBlock>, Utxos)> {
    if MANIFEST_NAME !in files then Err(LoadFailed) else
    var m :- ParseManifest(files[MANIFEST_NAME]);
    LoadGeneration(files, log, m)
  }

  /** The manifest names the files of its own generation, as every commit leaves it. */
  ghost predicate WellNamed(files: Files) {
    && MANIFEST_NAME in files && ParseManifest(files[MANIFEST_NAME]).Ok?
    && var m := ParseManifest(files[MANIFEST_NAME]).value;
    m.indexFile == IndexName(m.generation) && m.utxoFile == UtxoName(m.generation)
  }

  ghost predicate Sound(files: Files, log: Bytes) {
    WellNamed(files) && LoadManifest(files, log).Ok?
  }

  /** Generations for which both files are present. */
  function Available(files: Files): set<u64> {
    set name | name in files && GenerationOf(name).Some? && UtxoName(GenerationOf(name).value) in files
      :: GenerationOf(name).value
  }

  /** Log and catalogue once the first n blocks have been looked at: each is appended at the end of the log, and
      catalogued there, unless its hash is known by then. */
  ghost function AfterAppends(log: Bytes, catalog: Catalog, blocks: seq<StoredBlock>, n: nat): (Bytes, Catalog)
    requires n <= |blocks|
  {
    if n == 0 then (log, catalog) else
    var (l, c) := AfterAppends(log, catalog, blocks, n - 1);
    var block := blocks[n - 1];
    if HashOf(block) in c || !Recordable(block) then (l, c)
    else (l + RecordBytes(block),
          c[HashOf(block) := IndexEntry(block.height, |l|, |StoredBytes(block)|, HashText(HashOf(block)))])
  }

  /** The append of the k-th block's record was cut short. */
  ghost predicate TornAt(log: Bytes, catalog: Catalog, blocks: seq<StoredBlock>, k: nat, left: Bytes) {
    && k < |blocks| && HashOf(blocks[k]) !in AfterAppends(log, catalog, blocks, k).1 && Recordable(blocks[k])
    && var whole := AfterAppends(log, catalog, blocks, k).0;
    whole <= left && Torn(left[|whole|..], blocks[k])
  }

  /** A commit's appends have come some way: past the first k blocks, and maybe into the next record. */
  ghost predicate Grew(log: Bytes, blocks: seq<StoredBlock>, left: Bytes)
    requires |log| < TWO_64
  {
    exists k: nat :: k <= |blocks| && GrewTo(log, Scan(log), blocks, k, left)
  }

  ghost predicate GrewTo(log: Bytes, catalog: Catalog, blocks: seq<StoredBlock>, k: nat, left: Bytes)
    requires k <= |blocks|
  {
    left == AfterAppends(log, catalog, blocks, k).0 || TornAt(log, catalog, blocks, k, left)
  }

  ghost function Appended(log: Bytes, blocks: seq<StoredBlock>): Bytes
    requires |log| < TWO_64
  {
    AfterAppends(log, Scan(log), blocks, |blocks|).0
  }

  /** What a caller must bring: a chain numbered from 0 and coins that fit a snapshot. */
  ghost predicate Committable(blocks: seq<StoredBlock>, utxos: Utxos) {
    && 0 < |blocks| < TWO_64
    && (forall i :: 0 <= i < |blocks| ==> blocks[i].height == i && |blocks[i].block.transactions| < TWO_64)
    && CoinsFit(utxos)
  }

  /** The record catalogued under the hash of a committed block is that block. */
  ghost predicate NoImpostor(log: Bytes, blocks: seq<StoredBlock>) {
    && |log| < TWO_64
    && forall i :: 0 <= i < |blocks| && HashOf(blocks[i]) in Scan(log) ==>
         var entry := Scan(log)[HashOf(blocks[i])];
         ReadRecord(log, entry.offset, entry.payloadSize) == Ok(blocks[i])
  }

  /** The index of the chain, as the catalogue has it. */
  ghost function EntriesOf(catalog: Catalog, blocks: seq<StoredBlock>): (entries: seq<IndexEntry>)
    requires forall i :: 0 <= i < |blocks| ==> HashOf(blocks[i]) in catalog
    ensures |entries| == |blocks|
    ensures forall i :: 0 <= i < |blocks| ==> entries[i] == catalog[HashOf(blocks[i])].(height := blocks[i].height)
  {
    seq(|blocks|, i requires 0 <= i < |blocks| => catalog[HashOf(blocks[i])].(height := blocks[i].height))
  }

  /** The chain of the newest generation that loads. */
  ghost predicate NewestLoading(files: Files, log: Bytes, g: u64, blocks: seq<StoredBlock>) {
    && g in Available(files) && LoadIndex(files, log, IndexName(g)) == Ok(blocks)
    && forall h :: h in Available(files) && h > g ==> LoadIndex(files, log, IndexName(h)).Err?
  }

  ghost predicate Keeps(before: Files, after: Files, name: string) {
    (name in before <==> name in after) && (name in before ==> before[name] == after[name])
  }

  /** Nothing but the two files of one generation differs. */
  ghost predicate OnlyGeneration(before: Files, after: Files, generation: u64) {
    forall name :: name != IndexName(generation) && name != UtxoName(generation) ==> Keeps(before, after, name)
  }

  /** Files have only gone, and none of this generation. */
  ghost predicate Cleaned(before: Files, after: Files, current: u64) {
    && (forall name :: name in after ==> Keeps(before, after, name))
    && Keeps(before, after, MANIFEST_NAME)
    && Keeps(before, after, IndexName(current)) && Keeps(before, after, UtxoName(current))
    && (current > 0 ==> Keeps(before, after, IndexName(current - 1)) && Keeps(before, after, UtxoName(current - 1)))
  }

  /** The manifest has been written. */
  ghost predicate Switched(before: Files, after: Files) {
    MANIFEST_NAME in after && !Keeps(before, after, MANIFEST_NAME)
  }

  ghost predicate AllCatalogued(log: Bytes, blocks: seq<StoredBlock>)
    requires |log| < TWO_64
  {
    forall i :: 0 <= i < |blocks| ==> HashOf(blocks[i]) in Scan(log)
  }

  /** The index file of the generation is that of the chain. */
  ghost predicate Indexed(files: Files, log: Bytes, generation: u64, blocks: seq<StoredBlock>)
    requires |log| < TWO_64
  {
    && AllCatalogued(log, blocks) && IndexName(generation) in files
    && files[IndexName(generation)] == IndexText(EntriesOf(Scan(log), blocks))
  }

  /** Both files of the generation are those of the chain and its coins, and the manifest describes them. */
  ghost predicate Written(files: Files, log: Bytes, generation: u64, blocks: seq<StoredBlock>, utxos: Utxos, m: Manifest)
    requires |log| < TWO_64 && |blocks| > 0
  {
    var last := blocks[|blocks| - 1];
    && Indexed(files, log, generation, blocks)
    && UtxoName(generation) in files
    && files[UtxoName(generation)] == UtxoText(utxos, last.height, HashText(HashOf(last)))
    && m.generation == generation && m.height == last.height && m.bestBlock == HashText(HashOf(last))
    && m.indexFile == IndexName(generation) && m.indexDigest == DigestText(files[IndexName(generation)])
    && m.utxoFile == UtxoName(generation) && m.utxoDigest == DigestText(files[UtxoName(generation)])
  }

  /** On a store that was empty, whatever index there is belongs to the chain being committed. */
  ghost predicate OnlyLoads(files: Files, log: Bytes, blocks: seq<StoredBlock>) {
    forall g: u64 :: LoadIndex(files, log, IndexName(g)).Ok? ==> LoadIndex(files, log, IndexName(g)).value == blocks
  }

  // ---------------------------------------------------------------- the store

  class DurableChainStore {
    var log: Bytes
    var files: Files

    constructor ()
      ensures log == [] && files == map[]
    {
      log, files := [], map[];
    }

    /** Appending may stop in the middle of a record. */
    method WriteLog(record: Bytes, power: Power) returns (done: bool)
      modifies this`log, power
      ensures old(log) <= log <= old(log) + record
      ensures done <==> old(power.steps) >= |record|
      ensures done ==> log == old(log) + record
      ensures !done ==> log[|old(log)|..] < record && power.steps == 0
    {
      var n := if power.steps < |record| then power.steps else |record|;
      log := log + record[..n];
      done := n == |record|;
      power.steps := power.steps - n;
    }

    /** A file appears or is replaced as a whole. */
    method AtomicWrite(name: string, text: string, power: Power) returns (done: bool)
      modifies this`files, power
      ensures done <==> old(power.steps) > 0
      ensures !done ==> power.steps == 0
      ensures files == if done then old(files)[name := text] else old(files)
    {
      if power.steps == 0 {
        return false;
      }
      files := files[name := text];
      power.steps := power.steps - 1;
      return true;
    }

    method Remove(name: string, power: Power) returns (done: bool)
      modifies this`files, power
      ensures files == if done then old(files) - {name} else old(files)
      ensures !done ==> power.steps == 0
    {
      if power.steps == 0 {
        return false;
      }
      files := files - {name};
      power.steps := power.steps - 1;
      return true;
    }

    // -------------------------------------------------------------- loading

    method LoadIndexedChain(entries: seq<IndexEntry>) returns (r: Result<seq<StoredBlock>>)
      ensures r == LoadEntries(log, entries, |entries|)
    {
      hide ReadRecord;
      var blocks: seq<StoredBlock> := [];
      for i := 0 to |entries|
        invariant LoadEntries(log, entries, i) == Ok(blocks)
      {
        LoadEntriesStop(log, entries, i + 1, |entries|);
        var block :- ReadRecordAt(log, entries[i].offset, entries[i].payloadSize);
        if block.height != entries[i].height || HashText(HashOf(block)) != entries[i].hash {
          return Err(BadFormat);
        }
        blocks := blocks + [block];
      }
      return Ok(blocks);
    }

    method LoadIndexFile(name: string) returns (r: Result<seq<StoredBlock>>)
      ensures r == LoadIndex(files, log, name)
    {
      hide ParseIndex, LoadEntries;
      if name !in files {
        return Err(LoadFailed);
      }
      var entries :- ParseIndexText(files[name]);
      r := LoadIndexedChain(entries);
    }

    method LoadManifestGeneration(m: Manifest) returns (r: Result<(seq<StoredBlock>, Utxos)>)
      ensures r == LoadGeneration(files, log, m)
    {
      hide LoadIndex, ParseUtxos, DigestText;
      if m.indexFile !in files || m.utxoFile !in files {
        return Err(LoadFailed);
      }
      if DigestText(files[m.indexFile]) != m.indexDigest || DigestText(files[m.utxoFile]) != m.utxoDigest {
        return Err(ChecksumMismatch);
      }
      var blocks :- LoadIndexFile(m.indexFile);
      var last := blocks[|blocks| - 1];
      if last.height != m.height || HashText(HashOf(last)) != m.bestBlock {
        return Err(SnapshotMismatch);
      }
      var utxos :- ParseUtxoText(files[m.utxoFile], m.height, m.bestBlock);
      return Ok((blocks, utxos));
    }

    /** The manifest's generation if it loads as a whole; otherwise the newest generation whose chain loads, with the
        snapshot left to be rebuilt. */
    method Load() returns (r: Result<(seq<StoredBlock>, Utxos)>)
      ensures LoadManifest(files, log).Ok? ==> r == LoadManifest(files, log)
      ensures LoadManifest(files, log).Err? ==>
                match r
                case Ok((blocks, utxos)) =>
                  utxos == map[] && exists g :: NewestLoading(files, log, g, blocks)
                case Err(error) =>
                  error == LoadFailed && forall g :: g in Available(files) ==> LoadIndex(files, log, IndexName(g)).Err?
    {
      hide LoadGeneration, LoadIndex, ParseManifest, Available, IndexName;
      if MANIFEST_NAME in files {
        var m := ParseManifestText(files[MANIFEST_NAME]);
        if m.Ok? {
          var loaded := LoadManifestGeneration(m.value);
          if loaded.Ok? {
            return loaded;
          }
        }
      }
      var left := Available(files);
      while left != {}
        invariant left <= Available(files)
        invariant forall g :: g in Available(files) && g !in left ==> LoadIndex(files, log, IndexName(g)).Err?
        decreases |left|
      {
        var generation := Newest(left);
        var blocks := LoadIndexFile(IndexName(generation));
        if blocks.Ok? {
          assert NewestLoading(files, log, generation, blocks.value);
          return Ok((blocks.value, map[]));
        }
        left := left - {generation};
      }
      return Err(LoadFailed);
    }

    // -------------------------------------------------------------- committing

    /** Records for the blocks whose hashes the catalogue does not know yet; it learns them on the way. */
    method AppendMissing(blocks: seq<StoredBlock>, known: Catalog, power: Power) returns (r: Result<Catalog>)
      requires forall i :: 0 <= i < |blocks| ==> |blocks[i].block.transactions| < TWO_64
      modifies this`log, power
      ensures old(log) <= log
      ensures r.Ok? ==> (log, r.value) == AfterAppends(old(log), known, blocks, |blocks|)
      ensures r == Err(Interrupted) ==> power.steps == 0 && exists k :: TornAt(old(log), known, blocks, k, log)
      ensures r.Err? ==> r.error == Interrupted || exists i :: 0 <= i < |blocks| && !Recordable(blocks[i])
      ensures exists k: nat :: k <= |blocks| && GrewTo(old(log), known, blocks, k, log)
    {
      hide Recordable, RecordBytes, HashText, TornAt, AfterAppends;
      var catalog := known;
      assert (log, catalog) == AfterAppends(log, known, blocks, 0) by {
        AppendsNone(log, known, blocks);
      }
      for i := 0 to |blocks|
        invariant old(log) <= log
        invariant (log, catalog) == AfterAppends(old(log), known, blocks, i)
      {
        assert GrewTo(old(log), known, blocks, i, log);
        var hash := HashOf(blocks[i]);
        AppendsNext(old(log), known, blocks, i);
        if hash !in catalog {
          var record :- MakeRecord(blocks[i]);
          var offset := |log|;
          ghost var whole := log;
          var done := WriteLog(record, power);
          if !done {
            TornHere(old(log), known, blocks, i, whole, log);
            assert GrewTo(old(log), known, blocks, i, log);
            return Err(Interrupted);
          }
          catalog := catalog[hash := IndexEntry(blocks[i].height, offset, |record| - RECORD_HEADER_SIZE, HashText(hash))];
        }
      }
      assert GrewTo(old(log), known, blocks, |blocks|, log);
      return Ok(catalog);
    }

    method NextGeneration() returns (generation: u64)
      ensures WellNamed(files) ==> generation == (ParseManifest(files[MANIFEST_NAME]).value.generation + 1) % TWO_64
      ensures MANIFEST_NAME in files && ParseManifest(files[MANIFEST_NAME]).Ok? ==>
                generation != ParseManifest(files[MANIFEST_NAME]).value.generation
    {
      hide ParseManifest, Available;
      if MANIFEST_NAME in files {
        var m := ParseManifestText(files[MANIFEST_NAME]);
        if m.Ok? {
          return (m.value.generation + 1) % TWO_64;
        }
      }
      var generations := Available(files);
      if generations == {} {
        return 1;
      }
      var newest := Newest(generations);
      return (newest + 1) % TWO_64;
    }

    /** The index and the snapshot of a new generation, and the manifest that will name them. */
    method WriteGeneration(generation: u64, blocks: seq<StoredBlock>, utxos: Utxos, power: Power)
      returns (r: Result<Manifest>)
      requires |log| < TWO_64 && |blocks| > 0
      modifies this`files, power
      ensures OnlyGeneration(old(files), files, generation)
      ensures r.Ok? ==> Written(files, log, generation, blocks, utxos, r.value) && AllCatalogued(log, blocks)
      ensures r.Err? ==> (r.error == Interrupted && power.steps == 0) ||
                         (r.error == BodyMissing && !AllCatalogued(log, blocks))
      ensures IndexName(generation) in files && IndexName(generation) !in old(files) ==>
                Indexed(files, log, generation, blocks)
    {
      hide Scan, IndexText, UtxoText, HashText;
      var catalog := ScanCatalog(log);
      var entries: seq<IndexEntry> := [];
      for i := 0 to |blocks|
        invariant |entries| == i
        invariant forall k :: 0 <= k < i ==>
          HashOf(blocks[k]) in catalog && entries[k] == catalog[HashOf(blocks[k])].(height := blocks[k].height)
      {
        if HashOf(blocks[i]) !in catalog {
          return Err(BodyMissing);
        }
        entries := entries + [catalog[HashOf(blocks[i])].(height := blocks[i].height)];
      }
      assert entries == EntriesOf(catalog, blocks);
      var last := blocks[|blocks| - 1];
      var bestBlock := HashText(HashOf(last));
      var indexText := MakeIndexText(entries);
      var utxoText := MakeUtxoText(utxos, last.height, bestBlock);
      NamesApart(generation, generation);
      var done := AtomicWrite(IndexName(generation), indexText, power);
      if done {
        done := AtomicWrite(UtxoName(generation), utxoText, power);
      }
      if !done {
        return Err(Interrupted);
      }
      return Ok(Manifest(generation, last.height, bestBlock, IndexName(generation), DigestText(indexText),
                         UtxoName(generation), DigestText(utxoText), |log|));
    }

    /** Files of generations other than the current one and the one before it go. */
    method CleanUp(current: u64, power: Power) returns (done: bool)
      modifies this`files, power
      ensures Cleaned(old(files), files, current)
      ensures !done ==> power.steps == 0
      ensures done ==> forall g :: g in Available(old(files)) && g != current && g != current - 1 ==>
                         IndexName(g) !in files && UtxoName(g) !in files
    {
      hide Available, IndexName, UtxoName, Cleaned;
      NothingCleaned(files, current);
      var left := Available(files);
      while left != {}
        invariant Cleaned(old(files), files, current)
        invariant forall g :: g in Available(old(files)) && g !in left && g != current && g != current - 1 ==>
                    IndexName(g) !in files && UtxoName(g) !in files
        decreases |left|
      {
        var generation := Newest(left);
        left := left - {generation};
        if generation != current && !(current > 0 && generation == current - 1) {
          CleanedNext(old(files), files, generation, current);
          done := Remove(IndexName(generation), power);
          if done {
            done := Remove(UtxoName(generation), power);
          }
          if !done {
            return false;
          }
        }
      }
      return true;
    }

    /** A commit that may be interrupted anywhere. The manifest write is the commit point: before it the disk loads as
        exactly what it loaded as, and from it on as exactly the new blocks and UTXO map. */
    method Commit(blocks: seq<StoredBlock>, utxos: Utxos, power: Power) returns (r: Result<()>)
      requires Committable(blocks, utxos)
      requires |log| < TWO_64 && NoImpostor(Appended(log, blocks), blocks)
      modifies this, power
      ensures old(log) <= log
      ensures Switched(old(files), files) ==> log == Appended(old(log), blocks) && AllCatalogued(log, blocks)
      ensures Grew(old(log), blocks, log)
      ensures log == Appended(old(log), blocks) || (exists k :: TornAt(old(log), Scan(old(log)), blocks, k, log))
              || (exists i :: 0 <= i < |blocks| && !Recordable(blocks[i]))
      ensures var switched := Switched(old(files), files);
              && (r.Ok? ==> switched)
              && (switched ==> Sound(files, log) && LoadManifest(files, log) == Ok((blocks, utxos)))
              && (!switched && Sound(old(files), old(log)) ==>
                    Sound(files, log) && LoadManifest(files, log) == LoadManifest(old(files), old(log)))
      ensures r.Err? ==> || (r.error == Interrupted && power.steps == 0)
                         || (exists i :: 0 <= i < |blocks| && !Recordable(blocks[i]))
                         || (r.error == BodyMissing && log == Appended(old(log), blocks) && !AllCatalogued(log, blocks))
      ensures old(files) == map[] ==> OnlyLoads(files, log, blocks)
    {
      hide LoadManifest, Scan, NoImpostor, AfterAppends, LoadIndex, ParseManifest, WellNamed, Available, Written, Committable,
           Sound, GenerationName;
      var catalog := ScanCatalog(log);
      CommittableParts(blocks, utxos);
      var appended := AppendMissing(blocks, catalog, power);
      if Sound(files, old(log)) {
        LogGrew(files, old(log), log);
      }
      NothingLoads(log, blocks);
      if appended.Err? {
        return Err(appended.error);
      }
      r := Publish(blocks, utxos, power);
    }

    /** Stop a commit anywhere and start again: what loads is exactly the old state or exactly the new one, and the new
        one exactly if the manifest has been written. */
    method CommitAndRestart(blocks: seq<StoredBlock>, utxos: Utxos, power: Power)
      returns (loaded: Result<(seq<StoredBlock>, Utxos)>)
      requires Sound(files, log) && Committable(blocks, utxos)
      requires |log| < TWO_64 && NoImpostor(Appended(log, blocks), blocks)
      modifies this, power
      ensures Grew(old(log), blocks, log)
      ensures Sound(files, log) && loaded == LoadManifest(files, log)
      ensures loaded == if Switched(old(files), files) then Ok((blocks, utxos)) else LoadManifest(old(files), old(log))
    {
      hide LoadManifest, NoImpostor, Committable, WellNamed, Appended, OnlyLoads;
      var _ := Commit(blocks, utxos, power);
      loaded := Load();
    }

    /** The part of a commit after the log has been brought up to date. */
    method Publish(blocks: seq<StoredBlock>, utxos: Utxos, power: Power) returns (r: Result<()>)
      requires Committable(blocks, utxos) && NoImpostor(log, blocks)
      modifies this`files, power
      ensures var switched := Switched(old(files), files);
              && (r.Ok? ==> switched)
              && (switched ==> Sound(files, log) && LoadManifest(files, log) == Ok((blocks, utxos)))
              && (!switched && Sound(old(files), log) ==>
                    Sound(files, log) && LoadManifest(files, log) == LoadManifest(old(files), log))
      ensures Switched(old(files), files) ==> AllCatalogued(log, blocks)
      ensures r.Err? ==> (r.error == Interrupted && power.steps == 0) ||
                         (r.error == BodyMissing && !AllCatalogued(log, blocks))
      ensures old(files) == map[] ==> OnlyLoads(files, log, blocks)
    {
      hide LoadManifest, Scan, NoImpostor, LoadIndex, ParseManifest, WellNamed, Available, Written, Committable, Sound,
           GenerationName;
      CommittableParts(blocks, utxos);
      LogFits(log, blocks);
      var generation := NextGeneration();
      var written := WriteGeneration(generation, blocks, utxos, power);
      OldGenerationStays(old(files), files, log, generation);
      if old(files) == map[] {
        OnlyNewIndex(files, log, generation, blocks, utxos);
      }
      if written.Err? {
        return Err(written.error);
      }
      AddingManifest(files, log, generation, blocks, utxos, written.value);
      var done := AtomicWrite(MANIFEST_NAME, ManifestText(written.value), power);
      if !done {
        return Err(Interrupted);
      }
      ManifestSwitches(old(files), files, log, generation, blocks, utxos, written.value);
      ghost var published := files;
      done := CleanUp(generation, power);
      CleanedStays(published, files, log, generation);
      if old(files) == map[] {
        FewerLoad(published, files, log, blocks);
      }
      return if done then Ok(()) else Err(Interrupted);
    }
  }

  method Newest(generations: set<u64>) returns (newest: u64)
    requires generations != {}
    ensures newest in generations && forall g :: g in generations ==> g <= newest
  {
    newest :| newest in generations;
    var left := generations - {newest};
    while left != {}
      invariant newest in generations && left <= generations
      invariant forall g :: g in generations ==> g <= newest || g in left
      decreases |left|
    {
      var g: u64 :| g in left;
      if g > newest {
        newest := g;
      }
      left := left - {g};
    }
  }

  // ---------------------------------------------------------------- lemmas of the loops

  lemma {:induction false} LoadEntriesStop(log: Bytes, entries: seq<IndexEntry>, m: nat, n: nat)
    requires m <= n <= |entries|
    ensures LoadEntries(log, entries, m).Err? ==> LoadEntries(log, entries, n) == LoadEntries(log, entries, m)
    decreases n
  {
    hide ReadRecord;
    if m < n {
      LoadEntriesStop(log, entries, m, n - 1);
    }
  }

  lemma {:induction false} NothingCleaned(files: Files, current: u64)
    ensures Cleaned(files, files, current)
  {
  }

  /** The files of a generation that is neither the current one nor the one before it may go. */
  lemma {:induction false} CleanedNext(before: Files, files: Files, generation: u64, current: u64)
    requires Cleaned(before, files, current) && generation != current && generation != current - 1
    ensures Cleaned(before, files - {IndexName(generation)}, current)
    ensures Cleaned(before, files - {IndexName(generation)} - {UtxoName(generation)}, current)
  {
    hide GenerationName;
    NamesApart(generation, current);
    NamesApart(current, generation);
    if current > 0 {
      NamesApart(generation, current - 1);
      NamesApart(current - 1, generation);
    }
  }

  lemma {:induction false} AppendsNone(log: Bytes, catalog: Catalog, blocks: seq<StoredBlock>)
    ensures AfterAppends(log, catalog, blocks, 0) == (log, catalog)
  {
  }

  lemma {:induction false} AppendsNext(log: Bytes, catalog: Catalog, blocks: seq<StoredBlock>, i: nat)
    requires i < |blocks|
    ensures var ((l, c), block) := (AfterAppends(log, catalog, blocks, i), blocks[i]);
            AfterAppends(log, catalog, blocks, i + 1) ==
            if HashOf(block) in c || !Recordable(block) then (l, c)
            else (l + RecordBytes(block),
                  c[HashOf(block) := IndexEntry(block.height, |l|, |StoredBytes(block)|, HashText(HashOf(block)))])
  {
    hide Recordable, RecordBytes, HashText;
  }

  lemma {:induction false} TornHere(log: Bytes, catalog: Catalog, blocks: seq<StoredBlock>, k: nat, whole: Bytes, left: Bytes)
    requires k < |blocks| && AfterAppends(log, catalog, blocks, k).0 == whole
    requires HashOf(blocks[k]) !in AfterAppends(log, catalog, blocks, k).1 && Recordable(blocks[k])
    requires whole <= left && left[|whole|..] < RecordBytes(blocks[k])
    ensures TornAt(log, catalog, blocks, k, left)
  {
  }

  lemma {:induction false} CommittableParts(blocks: seq<StoredBlock>, utxos: Utxos)
    requires Committable(blocks, utxos)
    ensures 0 < |blocks| < TWO_64 && CoinsFit(utxos)
    ensures forall i :: 0 <= i < |blocks| ==> blocks[i].height == i && |blocks[i].block.transactions| < TWO_64
  {
  }

  lemma {:induction false} LogFits(log: Bytes, blocks: seq<StoredBlock>)
    requires NoImpostor(log, blocks)
    ensures |log| < TWO_64
  {
  }

  // ---------------------------------------------------------------- what an interrupted commit leaves

  lemma {:induction false} EntriesStay(log: Bytes, longer: Bytes, entries: seq<IndexEntry>, n: nat)
    requires log <= longer && n <= |entries| && LoadEntries(log, entries, n).Ok?
    ensures LoadEntries(longer, entries, n) == LoadEntries(log, entries, n)
  {
    hide ReadRecord;
    if n > 0 {
      EntriesStay(log, longer, entries, n - 1);
      RecordStays(log, longer, entries[n - 1].offset, entries[n - 1].payloadSize);
    }
  }

  /** A longer log does not change what the manifest leads to. */
  lemma {:induction false} LogGrew(files: Files, log: Bytes, longer: Bytes)
    requires log <= longer && Sound(files, log)
    ensures Sound(files, longer) && LoadManifest(files, longer) == LoadManifest(files, log)
  {
    hide ParseManifest, ParseIndex, LoadEntries, ParseUtxos, DigestText;
    var m := ParseManifest(files[MANIFEST_NAME]).value;
    var entries := ParseIndex(files[m.indexFile]).value;
    EntriesStay(log, longer, entries, |entries|);
  }

  /** Neither do changes to files that it does not name. */
  lemma {:induction false} Undisturbed(before: Files, after: Files, log: Bytes)
    requires WellNamed(before) && Keeps(before, after, MANIFEST_NAME)
    requires var g := ParseManifest(before[MANIFEST_NAME]).value.generation;
             Keeps(before, after, IndexName(g)) && Keeps(before, after, UtxoName(g))
    ensures WellNamed(after) && LoadManifest(after, log) == LoadManifest(before, log)
  {
    hide ParseManifest, ParseIndex, LoadEntries, ParseUtxos, DigestText, IndexName, UtxoName;
  }

  lemma {:induction false} OldGenerationStays(before: Files, after: Files, log: Bytes, generation: u64)
    requires OnlyGeneration(before, after, generation)
    requires WellNamed(before) ==> generation == (ParseManifest(before[MANIFEST_NAME]).value.generation + 1) % TWO_64
    ensures !Switched(before, after)
    ensures Sound(before, log) ==> Sound(after, log) && LoadManifest(after, log) == LoadManifest(before, log)
  {
    hide ParseManifest, LoadManifest, GenerationName;
    NamesApart(generation, generation);
    assert Keeps(before, after, MANIFEST_NAME);
    if Sound(before, log) {
      var g := ParseManifest(before[MANIFEST_NAME]).value.generation;
      NamesApart(g, generation);
      NamesApart(generation, g);
      Undisturbed(before, after, log);
    }
  }

  lemma {:induction false} CatalogueLoads(log: Bytes, blocks: seq<StoredBlock>, n: nat)
    requires NoImpostor(log, blocks) && AllCatalogued(log, blocks) && n <= |blocks|
    ensures LoadEntries(log, EntriesOf(Scan(log), blocks), n) == Ok(blocks[..n])
  {
    hide Scan, ReadRecord, HashText;
    if n > 0 {
      CatalogueLoads(log, blocks, n - 1);
      ScanSane(log, HashOf(blocks[n - 1]));
      assert blocks[..n] == blocks[..n - 1] + [blocks[n - 1]];
    }
  }

  /** An index that was written from the catalogue leads back to the chain. */
  lemma {:induction false} IndexedLoads(files: Files, log: Bytes, generation: u64, blocks: seq<StoredBlock>, utxos: Utxos)
    requires NoImpostor(log, blocks) && Indexed(files, log, generation, blocks) && Committable(blocks, utxos)
    ensures LoadIndex(files, log, IndexName(generation)) == Ok(blocks)
  {
    hide Scan, IndexText, ParseIndex, LoadEntries, IndexName, CoinsFit, Hex;
    var entries := EntriesOf(Scan(log), blocks);
    forall i | 0 <= i < |entries|
      ensures entries[i].offset < TWO_64 && entries[i].payloadSize <= MAX_RECORD_SIZE && IsHash(entries[i].hash)
    {
      ScanSane(log, HashOf(blocks[i]));
    }
    IndexRoundTrip(entries);
    CatalogueLoads(log, blocks, |blocks|);
    assert blocks[..|blocks|] == blocks;
  }

  /** With its manifest in place the new generation loads as exactly the new blocks and coins. */
  lemma {:induction false} ManifestSwitches(before: Files, after: Files, log: Bytes, generation: u64,
                                            blocks: seq<StoredBlock>, utxos: Utxos, m: Manifest)
    requires Committable(blocks, utxos) && NoImpostor(log, blocks)
    requires MANIFEST_NAME in after && after[MANIFEST_NAME] == ManifestText(m)
    requires Written(after, log, generation, blocks, utxos, m)
    requires MANIFEST_NAME in before && ParseManifest(before[MANIFEST_NAME]).Ok? ==>
               generation != ParseManifest(before[MANIFEST_NAME]).value.generation
    ensures Switched(before, after) && Sound(after, log) && LoadManifest(after, log) == Ok((blocks, utxos))
    ensures ParseManifest(after[MANIFEST_NAME]).Ok? && ParseManifest(after[MANIFEST_NAME]).value.generation == generation
  {
    hide ParseManifest, ManifestText, LoadIndex, ParseUtxos, UtxoText, GenerationName, NoImpostor, EntriesOf, IndexText,
         AllCatalogued, CoinsFit, HashText;
    var last := blocks[|blocks| - 1];
    assert m.indexDigest == HashText(TextDigest(after[m.indexFile]));
    assert m.utxoDigest == HashText(TextDigest(after[m.utxoFile]));
    ManifestIsPlain(m, generation);
    ManifestRoundTrip(m);
    IndexedLoads(after, log, generation, blocks, utxos);
    UtxoRoundTrip(utxos, last.height, HashOf(last));
  }

  /** Writing the manifest touches neither the generation's files nor any index. */
  lemma {:induction false} AddingManifest(files: Files, log: Bytes, generation: u64, blocks: seq<StoredBlock>,
                                          utxos: Utxos, m: Manifest)
    requires |log| < TWO_64 && |blocks| > 0 && Written(files, log, generation, blocks, utxos, m)
    ensures Written(files[MANIFEST_NAME := ManifestText(m)], log, generation, blocks, utxos, m)
    ensures OnlyLoads(files, log, blocks) ==> OnlyLoads(files[MANIFEST_NAME := ManifestText(m)], log, blocks)
  {
    hide ManifestText, GenerationName, IndexText, UtxoText, EntriesOf, AllCatalogued, ParseIndex, LoadEntries, HashText;
    NamesApart(generation, generation);
    var after := files[MANIFEST_NAME := ManifestText(m)];
    if OnlyLoads(files, log, blocks) {
      forall g: u64 | LoadIndex(after, log, IndexName(g)).Ok?
        ensures LoadIndex(after, log, IndexName(g)).value == blocks
      {
        NamesApart(g, g);
        assert LoadIndex(files, log, IndexName(g)) == LoadIndex(after, log, IndexName(g));
      }
    }
  }

  lemma {:induction false} ManifestIsPlain(m: Manifest, generation: u64)
    requires m.indexFile == IndexName(generation) && m.utxoFile == UtxoName(generation)
    requires exists h :: m.bestBlock == HashText(h)
    requires exists h :: m.indexDigest == HashText(h)
    requires exists h :: m.utxoDigest == HashText(h)
    ensures ManifestPlain(m)
  {
    hide Padded, Decimal, Hex;
    DecimalPlain(generation, '\n');
    NotAmong(m.bestBlock, '\n');
    NotAmong(m.indexDigest, '\n');
    NotAmong(m.utxoDigest, '\n');
  }

  lemma {:induction false} CleanedStays(before: Files, after: Files, log: Bytes, current: u64)
    requires Cleaned(before, after, current) && Sound(before, log)
    requires ParseManifest(before[MANIFEST_NAME]).value.generation == current
    ensures Sound(after, log) && LoadManifest(after, log) == LoadManifest(before, log)
  {
    hide LoadManifest, ParseManifest, GenerationName;
    Undisturbed(before, after, log);
  }

  // ---------------------------------------------------------------- the first commit

  lemma {:induction false} NothingLoads(log: Bytes, blocks: seq<StoredBlock>)
    ensures OnlyLoads(map[], log, blocks)
  {
  }

  lemma {:induction false} OnlyNewIndex(files: Files, log: Bytes, generation: u64, blocks: seq<StoredBlock>, utxos: Utxos)
    requires OnlyGeneration(map[], files, generation) && NoImpostor(log, blocks) && Committable(blocks, utxos)
    requires IndexName(generation) in files ==> Indexed(files, log, generation, blocks)
    ensures OnlyLoads(files, log, blocks)
  {
    hide Indexed, NoImpostor, Committable, GenerationName;
    forall g: u64 | LoadIndex(files, log, IndexName(g)).Ok?
      ensures LoadIndex(files, log, IndexName(g)).value == blocks
    {
      hide LoadIndex;
      NamesApart(g, generation);
      assert g != generation ==> Keeps(map[], files, IndexName(g));
      LoadedIsThere(files, log, IndexName(g));
      assert g == generation;
      IndexedLoads(files, log, generation, blocks, utxos);
    }
  }

  lemma {:induction false} LoadedIsThere(files: Files, log: Bytes, name: string)
    requires LoadIndex(files, log, name).Ok?
    ensures name in files
  {
  }

  /** With fewer files nothing else loads. */
  lemma {:induction false} FewerLoad(before: Files, after: Files, log: Bytes, blocks: seq<StoredBlock>)
    requires OnlyLoads(before, log, blocks) && forall name :: name in after ==> Keeps(before, after, name)
    ensures OnlyLoads(after, log, blocks)
  {
    hide IndexName, ParseIndex, LoadEntries;
    forall g: u64 | LoadIndex(after, log, IndexName(g)).Ok?
      ensures LoadIndex(after, log, IndexName(g)).value == blocks
    {
      assert Keeps(before, after, IndexName(g));
      assert LoadIndex(before, log, IndexName(g)) == LoadIndex(after, log, IndexName(g));
    }
  }
}
