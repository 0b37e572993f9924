/** What a candidate aims at, and what each message does to it, to the chain and to the side store (src/net.cpp,
    session_loop). */
module CandidateSteps {
  import opened Errors
  import opened Transactions
  import opened Blocks
  import opened Utxo
  import opened Validation
  import opened Ledger
  import opened Locator
  import opened Headers
  import opened ChainState
  import opened TestnetChains
  import opened BranchStore
  import opened Reorganisation
  import opened Sync

  /** A message that concerns the candidate or the chain. */
  datatype Message =
    | Status(height: u64, tip: Hash256, work: Hash256)
    | HeaderBatch(batch: seq<HeaderRecord>)
    | BlockBody(stored: StoredBlock)

  /** What a handler does in return: nothing, ask for headers from a locator, ask for bodies, or report. */
  datatype Reply =
    | Ignored
    | AskHeaders(locator: seq<Hash256>)
    | AskBodies(hashes: set<Hash256>)
    | Activated(report: Activation)
    | Appended
    | Kept

  /** What lies outside the session: how a save ends, whether the mempool can be refreshed after a switch, and whether
      chain and side store can be loaded when bodies are gathered or a candidate is activated. */
  datatype Outside = Outside(save: SaveOutcome, refreshed: bool, loads: bool)

  ghost predicate Announced(hashes: set<Hash256>, headers: seq<HeaderRecord>) {
    forall h :: h in hashes ==> exists k :: 0 <= k < |headers| && HashOfRecord(headers[k]) == h
  }

  /** The headers reach the announced tip, and every hash up to it is among those accounted for. */
  ghost predicate Covers(headers: seq<HeaderRecord>, height: nat, tip: Hash256, known: set<Hash256>) {
    && |headers| > 0 && headers[|headers| - 1].height >= height
    && forall k :: 0 <= k < |headers| && headers[k].height <= height ==>
         HashOfRecord(headers[k]) in known && (headers[k].height == height ==> HashOfRecord(headers[k]) == tip)
  }

  /** The block known under a hash: the active chain is asked first, then the side store. */
  ghost function Known(active: seq<StoredBlock>, side: seq<StoredBlock>, hash: Hash256): Option<StoredBlock> {
    var found := FindBlock(active, hash, |active|);
    if found.Some? then found else FindBlock(side, hash, |side|)
  }

  /** Another tip with strictly more work. */
  ghost predicate Promising(blocks: seq<StoredBlock>, tip: Hash256, work: nat) {
    && |blocks| > 0 && ChainWork(blocks).Ok?
    && tip != HashOf(blocks[|blocks| - 1]) && work > ChainWork(blocks).value
  }

  /** What a candidate aims at: a prefix, the headers above it, and the tip that was announced. */
  datatype Target = Target(prefix: seq<StoredBlock>, headers: seq<HeaderRecord>, height: u64, tip: Hash256, work: Hash256)

  datatype View = View(active: bool, aim: Target, bodies: Bodies, pending: set<Hash256>)

  /** Every header has a body of its height and header. */
  ghost predicate HasBodies(headers: seq<HeaderRecord>, bodies: Bodies) {
    forall k :: 0 <= k < |headers| ==>
      HashOfRecord(headers[k]) in bodies && RecordOf(bodies[HashOfRecord(headers[k])]) == headers[k]
  }

  ghost function Joined(prefix: seq<StoredBlock>, headers: seq<HeaderRecord>, bodies: Bodies): (full: seq<StoredBlock>)
    requires HasBodies(headers, bodies)
    ensures |full| == |prefix| + |headers| && prefix <= full
    ensures forall k :: 0 <= k < |headers| ==> RecordOf(full[|prefix| + k]) == headers[k]
  {
    prefix + seq(|headers|, k requires 0 <= k < |headers| => bodies[HashOfRecord(headers[k])])
  }

  /** The assembled chain is the one that was announced. */
  ghost predicate Fulfils(t: Target, bodies: Bodies) {
    && HasBodies(t.headers, bodies)
    && var full := Joined(t.prefix, t.headers, bodies);
    && |full| > 0 && full[|full| - 1].height == t.height && HashOf(full[|full| - 1]) == t.tip
    && ChainWork(full) == Ok(t.work)
  }

  /** The side store after a switch: the blocks above the fork are kept, those of the new chain are not. */
  ghost function SideAfter(t: Target, side: seq<StoredBlock>, s: State, after: State, activated: bool): seq<StoredBlock> {
    var n := |t.prefix|;
    var kept := if n < |s.blocks| then PutAll(side, s.blocks[n..], |s.blocks| - n) else side;
    if activated then Without(kept, Hashes(after.blocks), |kept|) else kept
  }

  /** An attempt would succeed. */
  ghost predicate Succeeds(t: Target, bodies: Bodies, s: State, outside: Outside) {
    && Fulfils(t, bodies) && outside.loads && outside.refreshed
    && Activate(s, Joined(t.prefix, t.headers, bodies), outside.save).0.Ok?
  }

  /** An attempt to activate: only an assembled chain as announced reaches the chain object, and its verdict and the
      refresh of the mempool decide. */
  ghost predicate Attempt(t: Target, bodies: Bodies, s: State, after: State, side: seq<StoredBlock>, left: seq<StoredBlock>,
                          outside: Outside, r: Result<Reply>) {
    if Fulfils(t, bodies) && outside.loads then
      var (outcome, next) := Activate(s, Joined(t.prefix, t.headers, bodies), outside.save);
      && after == next && left == SideAfter(t, side, s, next, outcome.Ok? && outcome.value.activated)
      && (if outcome.Ok? && outside.refreshed then r == Ok(Activated(outcome.value)) else r.Err?)
    else r.Err? && after == s && left == side
  }

  /** Which blocks an attempt makes the node forget: only a switch does, and only those at the heights of the candidate's
      prefix that neither the new chain nor the side store has. As long as the prefix is still a part of the chain, none. */
  lemma {:induction false} AttemptForgets(t: Target, bodies: Bodies, s: State, after: State, side: seq<StoredBlock>,
                                          left: seq<StoredBlock>, outside: Outside, r: Result<Reply>)
    requires |s.blocks| > 0 && Attempt(t, bodies, s, after, side, left, outside, r)
    ensures var n := if |t.prefix| < |s.blocks| then |t.prefix| else |s.blocks|;
            (Hashes(s.blocks) + Hashes(side) - (Hashes(after.blocks) + Hashes(left))
             == if after == s then {}
                else Hashes(s.blocks[..n]) - Hashes(s.blocks[n..]) - Hashes(side) - Hashes(after.blocks))
    ensures t.prefix <= s.blocks ==> Hashes(s.blocks) + Hashes(side) <= Hashes(after.blocks) + Hashes(left)
  {
    hide Hashes, Activate, Put, PutAll, Without, ChainWork;
    var n := if |t.prefix| < |s.blocks| then |t.prefix| else |s.blocks|;
    if Fulfils(t, bodies) && outside.loads {
      var full := Joined(t.prefix, t.headers, bodies);
      ActivationInstalls(s, full, outside.save);
      var (outcome, next) := Activate(s, full, outside.save);
      SwitchStores(t, side, s, next, outcome.Ok? && outcome.value.activated);
      JoinedHashes(s.blocks[..n], s.blocks[n..]);
      assert s.blocks == s.blocks[..n] + s.blocks[n..];
      JoinedHashes(t.prefix, full[|t.prefix|..]);
      assert full == t.prefix + full[|t.prefix|..];
      assert t.prefix <= s.blocks ==> s.blocks[..n] == t.prefix;
    }
  }

  lemma {:induction false} SwitchStores(t: Target, side: seq<StoredBlock>, s: State, after: State, activated: bool)
    ensures var n := if |t.prefix| < |s.blocks| then |t.prefix| else |s.blocks|;
            (Hashes(SideAfter(t, side, s, after, activated))
             == Hashes(side) + Hashes(s.blocks[n..]) - (if activated then Hashes(after.blocks) else {}))
  {
    hide Hashes, Put, PutAll, Without;
    var n := if |t.prefix| < |s.blocks| then |t.prefix| else |s.blocks|;
    var above := s.blocks[n..];
    PutAllStores(side, above, |above|);
    assert above[..|above|] == above;
    NoHashes();
    assert n == |s.blocks| ==> above == [];
    var kept := if n < |s.blocks| then PutAll(side, above, |above|) else side;
    WithoutStores(kept, Hashes(after.blocks), |kept|);
    assert kept[..|kept|] == kept;
  }

  ghost function HashesOf(headers: seq<HeaderRecord>): set<Hash256> {
    set k | 0 <= k < |headers| :: HashOfRecord(headers[k])
  }

  /** The bodies that need not be asked for, and the hashes of those that must. */
  ghost function KnownBodies(headers: seq<HeaderRecord>, active: seq<StoredBlock>, side: seq<StoredBlock>): Bodies {
    map h | h in HashesOf(headers) && Known(active, side, h).Some? :: Known(active, side, h).value
  }

  ghost function Missing(headers: seq<HeaderRecord>, active: seq<StoredBlock>, side: seq<StoredBlock>): set<Hash256> {
    set h | h in HashesOf(headers) && Known(active, side, h).None?
  }

  /** The headers end at the announced tip. */
  ghost predicate AtTip(t: Target) {
    && |t.headers| > 0
    && var last := t.headers[|t.headers| - 1];
    last.height == t.height && HashOfRecord(last) == t.tip
  }

  /** The announced work is not that of a chain of the announced height. */
  ghost predicate FalseWork(height: u64, work: Hash256) {
    var proof := BlockProof(TESTNET_BITS);
    proof.Ok? && work != (height + 1) * proof.value
  }

  /** What comes of headers that have reached the announced tip: requests for the missing bodies, or an attempt. */
  ghost predicate Gathers(v: View, w: View, s: State, after: State, side: seq<StoredBlock>, left: seq<StoredBlock>,
                          outside: Outside, r: Result<Reply>) {
    var bodies := KnownBodies(v.aim.headers, s.blocks, side);
    var missing := Missing(v.aim.headers, s.blocks, side);
    if !outside.loads then r.Err? && w == v && after == s && left == side
    else if missing != {} then r == Ok(AskBodies(missing)) && w == v.(bodies := bodies, pending := missing) && after == s && left == side
    else Attempt(v.aim, bodies, s, after, side, left, outside, r)
         && (if r.Ok? then !w.active else w == v.(bodies := bodies, pending := {}))
  }

  /** The answer to a batch that has been taken in as a whole. */
  ghost predicate Reacts(v: View, w: View, s: State, after: State, side: seq<StoredBlock>, left: seq<StoredBlock>,
                         outside: Outside, r: Result<Reply>)
    requires |v.aim.headers| > 0
  {
    var last := v.aim.headers[|v.aim.headers| - 1];
    if last.height > v.aim.height || (HashOfRecord(last) == v.aim.tip && last.height != v.aim.height)
    then r == Err(PeerInconsistent) && w == v && after == s && left == side
    else if HashOfRecord(last) == v.aim.tip then Gathers(v, w, s, after, side, left, outside, r)
    else r == Ok(AskHeaders([HashOfRecord(last), TESTNET_GENESIS_HASH])) && w == v && after == s && left == side
  }

  /** The number of headers of the batch that continue what is there. */
  ghost function Following(base: HeaderRecord, headers: seq<HeaderRecord>, batch: seq<HeaderRecord>): (n: nat)
    ensures n <= |batch|
  {
    if |batch| == 0 || Continues(base, headers + batch) then |batch| else Following(base, headers, batch[..|batch| - 1])
  }

  /** A batch that is read and begins where the candidate can go on: on its last header, or, for the first one, on a
      block of the prefix. */
  ghost predicate Connects(t: Target, batch: seq<HeaderRecord>) {
    && 0 < |batch| <= MAX_HEADERS_PER_RESPONSE && (forall k :: 0 <= k < |batch| ==> WorkShown(batch[k]))
    && if t.headers == [] then
         var place := LastPlace(t.prefix, batch[0].header.previousHash, |t.prefix|);
         place.Some? && batch[0].height == t.prefix[place.value].height + 1
       else
         var last := t.headers[|t.headers| - 1];
         batch[0].height == last.height + 1 && batch[0].header.previousHash == HashOfRecord(last)
  }

  /** The prefix cut to where the batch begins. */
  ghost function Cut(t: Target, batch: seq<HeaderRecord>): (prefix: seq<StoredBlock>)
    requires Connects(t, batch) && |t.prefix| > 0
    ensures |prefix| > 0
  {
    if t.headers == [] then t.prefix[..LastPlace(t.prefix, batch[0].header.previousHash, |t.prefix|).value + 1] else t.prefix
  }

  /** The aim with the headers of the batch that follow, all of them or those before the first that does not. */
  ghost function Extended(t: Target, batch: seq<HeaderRecord>): (longer: Target)
    requires Connects(t, batch) && |t.prefix| > 0
    ensures |t.headers| <= |longer.headers| <= |t.headers| + |batch|
    ensures |longer.headers| == |t.headers| + |batch| ==> longer.headers == t.headers + batch
    ensures |longer.headers| == |t.headers| ==> longer.headers == t.headers
    ensures longer.height == t.height && longer.tip == t.tip && longer.work == t.work
  {
    var prefix := Cut(t, batch);
    var n := Following(RecordOf(prefix[|prefix| - 1]), t.headers, batch);
    t.(prefix := prefix, headers := t.headers + batch[..n])
  }

  /** The batch has a header above the announced tip that gets taken in. */
  ghost predicate Oversteps(t: Target, batch: seq<HeaderRecord>) {
    && |t.prefix| > 0 && Connects(t, batch)
    && var headers := Extended(t, batch).headers;
    |headers| > |t.headers| && headers[|headers| - 1].height > t.height
  }

  /** The batch leads to the announced height without the announced tip, or above it. */
  ghost predicate Misses(t: Target, batch: seq<HeaderRecord>) {
    && |t.prefix| > 0 && Connects(t, batch)
    && var headers := Extended(t, batch).headers;
    && |headers| > |t.headers|
    && var last := headers[|headers| - 1];
    last.height > t.height || (last.height == t.height && HashOfRecord(last) != t.tip)
  }

  /** The batch leads to the announced tip, but breaks behind it, or the load that follows fails: the bodies are never
      asked for. */
  ghost predicate Strands(v: View, batch: seq<HeaderRecord>, outside: Outside) {
    && v.pending == {} && v.bodies == map[] && |v.aim.prefix| > 0 && Connects(v.aim, batch)
    && var longer := Extended(v.aim, batch);
    && |longer.headers| > |v.aim.headers| && AtTip(longer)
    && (|longer.headers| < |v.aim.headers| + |batch| || !outside.loads)
  }

  /** The headers are at the announced tip, all bodies are at hand, and the attempt fails. */
  ghost predicate FailsAtOnce(t: Target, s: State, side: seq<StoredBlock>, outside: Outside) {
    && AtTip(t) && outside.loads
    && Missing(t.headers, s.blocks, side) == {}
    && !Succeeds(t, KnownBodies(t.headers, s.blocks, side), s, outside)
  }

  /** The batch completes the headers, and the attempt that follows at once fails. */
  ghost predicate CompletesInVain(t: Target, batch: seq<HeaderRecord>, s: State, side: seq<StoredBlock>, outside: Outside) {
    && |t.prefix| > 0 && Connects(t, batch)
    && |Extended(t, batch).headers| == |t.headers| + |batch|
    && FailsAtOnce(Extended(t, batch), s, side, outside)
  }

  /** The last body arrives as announced, and the attempt that follows fails. */
  ghost predicate ArrivesInVain(v: View, stored: StoredBlock, s: State, outside: Outside) {
    && v.pending == {HashOf(stored)}
    && HeaderNamed(v.aim.headers, HashOf(stored), 0) == Some(RecordOf(stored))
    && !Succeeds(v.aim, v.bodies[HashOf(stored) := stored], s, outside)
  }

  /** What a batch of headers does: nothing if it does not connect; otherwise what follows of it is taken in, and a
      batch that follows as a whole is answered. */
  ghost predicate TakesHeaders(batch: seq<HeaderRecord>, v: View, w: View, s: State, after: State, side: seq<StoredBlock>,
                               left: seq<StoredBlock>, outside: Outside, r: Result<Reply>)
    requires |v.aim.prefix| > 0
  {
    if !Connects(v.aim, batch) then r.Err? && w == v && after == s && left == side
    else
      var longer := v.(aim := Extended(v.aim, batch));
      if |longer.aim.headers| < |v.aim.headers| + |batch| then r.Err? && w == longer && after == s && left == side
      else Reacts(longer, w, s, after, side, left, outside, r)
  }

  /** What a requested body does: refused unless it has the header and height that its hash was announced with,
      otherwise filed; the last one leads to an attempt. */
  ghost predicate TakesBody(stored: StoredBlock, v: View, w: View, s: State, after: State, side: seq<StoredBlock>,
                            left: seq<StoredBlock>, outside: Outside, r: Result<Reply>) {
    var hash := HashOf(stored);
    var bodies := v.bodies[hash := stored];
    if HeaderNamed(v.aim.headers, hash, 0) != Some(RecordOf(stored)) then r == Err(BodyMismatch) && w == v && after == s && left == side
    else if v.pending != {hash} then
      r == Ok(Kept) && w == v.(bodies := bodies, pending := v.pending - {hash}) && after == s && left == Put(side, stored)
    else Attempt(v.aim, bodies, s, after, Put(side, stored), left, outside, r)
         && (if r.Ok? then !w.active else w == v.(bodies := bodies, pending := {}))
  }

  /** What any other block does: a known one nothing; one on the tip is offered to the chain; the rest is kept aside. */
  ghost predicate TakesLoose(stored: StoredBlock, s: State, after: State, side: seq<StoredBlock>, left: seq<StoredBlock>,
                             save: SaveOutcome, r: Result<Reply>)
    requires |s.blocks| > 0
  {
    var tip := s.blocks[|s.blocks| - 1];
    if FindBlock(s.blocks, HashOf(stored), |s.blocks|).Some? then r == Ok(Ignored) && after == s && left == side
    else if stored.height == tip.height + 1 && stored.block.header.previousHash == HashOf(tip) then
      var (outcome, next) := Append(s, [stored], save);
      && after == next
      && (if outcome.Ok? then r == Ok(Appended) && left == Without(side, Hashes(next.blocks), |side|)
          else r == Err(outcome.error) && left == side)
    else r == Ok(Kept) && after == s && left == Put(side, stored)
  }

  /** What a status does: it starts a candidate when none is active and the peer claims another tip with more work. */
  ghost predicate TakesStatus(height: u64, tip: Hash256, work: Hash256, v: View, w: View, s: State, r: Result<Reply>)
    requires 0 < |s.blocks| <= TWO_32
  {
    if v.active || !Promising(s.blocks, tip, work) then r == Ok(Ignored) && w == v
    else if height > MAX_SYNC_HEIGHT then r.Err? && w == v
    else r == Ok(AskHeaders(LocatorOf(s.blocks))) && w == View(true, Target(s.blocks, [], height, tip, work), map[], {})
  }

  /** What any message does. */
  ghost predicate Handles(message: Message, v: View, w: View, s: State, after: State, side: seq<StoredBlock>,
                          left: seq<StoredBlock>, outside: Outside, r: Result<Reply>) {
    && 0 < |s.blocks| <= TWO_32 && (v.active ==> |v.aim.prefix| > 0)
    && match message
       case Status(height, tip, work) => TakesStatus(height, tip, work, v, w, s, r) && after == s && left == side
       case HeaderBatch(batch) =>
         if v.active then TakesHeaders(batch, v, w, s, after, side, left, outside, r)
         else r == Ok(Ignored) && w == v && after == s && left == side
       case BlockBody(stored) =>
         if v.active && HashOf(stored) in v.pending then TakesBody(stored, v, w, s, after, side, left, outside, r)
         else w == v && TakesLoose(stored, s, after, side, left, outside.save, r)
  }

  // ---------------------------------------------------------------- lemmas

  lemma {:induction false} SettledShape(s: State)
    requires Settled(s)
    ensures 0 < |s.blocks| <= TWO_32 && Verified(s.blocks)
    ensures s.blocks[|s.blocks| - 1].height == |s.blocks| - 1
    ensures ChainWork(s.blocks).Ok? && ChainWork(s.blocks).value < TWO_256
  {
    hide VerifyPrefix, ChainWork, GenesisLocked;
    ChainNotEmpty(s.blocks);
    VerifiedLength(s.blocks);
    VerifiedLink(s.blocks, |s.blocks| - 1);
    WorkFits(s.blocks);
  }

  lemma {:induction false} AppendKeeps(s: State, incoming: seq<StoredBlock>, save: SaveOutcome)
    requires Settled(s)
    ensures Settled(Append(s, incoming, save).1) && |Append(s, incoming, save).1.blocks| >= |s.blocks|
  {
    hide Verify;
  }

  /** Heights rise along the headers. */
  lemma {:induction false} LastRises(base: HeaderRecord, before: seq<HeaderRecord>, more: seq<HeaderRecord>)
    requires Continues(base, before + more)
    ensures |before| > 0 && |more| > 0 ==> (before + more)[|before + more| - 1].height > before[|before| - 1].height
  {
    hide Continues;
    if |more| > 0 {
      HeightsRise(base, before, more);
    }
  }

  lemma {:induction false} TakeOne(base: HeaderRecord, headers: seq<HeaderRecord>, header: HeaderRecord, height: nat,
                                   tip: Hash256, pending: set<Hash256>, known: set<Hash256>)
    requires Continues(base, headers + [header])
    ensures Covers(headers, height, tip, pending + known) ==> Covers(headers + [header], height, tip, pending + known)
    ensures Announced(pending, headers) ==> Announced(pending, headers + [header])
  {
    LastRises(base, headers, [header]);
    if Announced(pending, headers) {
      forall h | h in pending
        ensures exists k :: 0 <= k < |headers + [header]| && HashOfRecord((headers + [header])[k]) == h
      {
        var k :| 0 <= k < |headers| && HashOfRecord(headers[k]) == h;
        assert (headers + [header])[k] == headers[k];
      }
    }
  }

  /** When the last header is the announced tip, the headers cover the announcement. */
  lemma {:induction false} TipIsLast(base: HeaderRecord, headers: seq<HeaderRecord>, height: nat, tip: Hash256, known: set<Hash256>)
    requires Continues(base, headers) && |headers| > 0
    requires headers[|headers| - 1].height == height && HashOfRecord(headers[|headers| - 1]) == tip
    requires forall k :: 0 <= k < |headers| ==> HashOfRecord(headers[k]) in known
    ensures Covers(headers, height, tip, known)
  {
    hide Continues;
    forall k | 0 <= k < |headers|
      ensures headers[k].height == height ==> k == |headers| - 1
    {
      HeightOfHeader(base, headers, k);
      HeightOfHeader(base, headers, |headers| - 1);
    }
  }

  lemma {:induction false} AttemptOutcome(t: Target, bodies: Bodies, s: State, after: State, side: seq<StoredBlock>,
                                          left: seq<StoredBlock>, outside: Outside, r: Result<Reply>)
    requires Attempt(t, bodies, s, after, side, left, outside, r)
    ensures r.Ok? <==> Succeeds(t, bodies, s, outside)
  {
    hide Fulfils, Activate, SideAfter;
  }

  /** Whatever headers and bodies come, no chain above the prefix has the announced height and false work. */
  lemma {:induction false} FalseWorkFails(t: Target, bodies: Bodies)
    requires |t.prefix| > 0 && Verified(t.prefix) && Continues(RecordOf(t.prefix[|t.prefix| - 1]), t.headers)
    requires FalseWork(t.height, t.work)
    ensures !Fulfils(t, bodies)
  {
    hide Verified, ChainWork, Continues, CheckProofOfWork, BlockProof;
    var n := |t.prefix|;
    var base := RecordOf(t.prefix[n - 1]);
    VerifiedLink(t.prefix, n - 1);
    if HasBodies(t.headers, bodies) {
      var full := Joined(t.prefix, t.headers, bodies);
      forall i | 0 <= i < |full|
        ensures full[i].block.header.bits == TESTNET_BITS && full[i].height == i
      {
        if i < n {
          VerifiedHeaders(t.prefix, i);
        } else {
          FollowsAt(base, t.headers, i - n);
          HeightOfHeader(base, t.headers, i - n);
          assert RecordOf(full[n + (i - n)]) == t.headers[i - n];
        }
      }
      UniformChainWork(full, TESTNET_BITS, TESTNET_BITS);
      var p := BlockProof(TESTNET_BITS).value;
      assert p + (|full| - 1) * p == |full| * p;
    }
  }

  /** The headers taken in one by one are those that follow. */
  lemma {:induction false} FollowingIs(base: HeaderRecord, headers: seq<HeaderRecord>, batch: seq<HeaderRecord>, n: nat)
    requires n <= |batch| && Continues(base, headers + batch[..n])
    requires n < |batch| ==> !Continues(base, headers + batch[..n] + [batch[n]])
    ensures Following(base, headers, batch) == n
  {
    hide Continues;
    if n == |batch| {
      assert batch[..n] == batch;
    } else {
      var shorter := batch[..|batch| - 1];
      assert shorter[..n] == batch[..n];
      assert (headers + batch)[..|headers| + n + 1] == headers + batch[..n] + [batch[n]];
      NotContinued(base, headers + batch, |headers| + n + 1);
      FollowingIs(base, headers, shorter, n);
    }
  }

  lemma {:induction false} FollowingStops(base: HeaderRecord, headers: seq<HeaderRecord>, batch: seq<HeaderRecord>)
    requires Continues(base, headers)
    ensures var n := Following(base, headers, batch);
            && Continues(base, headers + batch[..n])
            && (n < |batch| ==> !Continues(base, headers + batch[..n] + [batch[n]]))
  {
    hide Continues;
    if |batch| == 0 {
      assert headers + batch[..0] == headers;
    } else if Continues(base, headers + batch) {
      assert batch[..|batch|] == batch;
    } else {
      var shorter := batch[..|batch| - 1];
      FollowingStops(base, headers, shorter);
      var n := Following(base, headers, shorter);
      assert shorter[..n] == batch[..n];
      if n == |shorter| {
        assert headers + batch[..n] + [batch[n]] == headers + batch;
      }
    }
  }

  lemma {:induction false} ConnectingIsRead(t: Target, batch: seq<HeaderRecord>)
    ensures Connects(t, batch) ==>
              0 < |batch| <= MAX_HEADERS_PER_RESPONSE && forall k :: 0 <= k < |batch| ==> WorkShown(batch[k])
    ensures Oversteps(t, batch) || Misses(t, batch) ==> Connects(t, batch)
  {
    hide WorkShown, LastPlace, Extended;
  }

  /** On top of a last header, the first of a connecting batch is taken in exactly when it is later. */
  lemma {:induction false} FirstFollows(base: HeaderRecord, before: seq<HeaderRecord>, batch: seq<HeaderRecord>, taken: nat)
    requires |before| > 0 && taken <= |batch| && |batch| > 0
    requires Continues(base, before + batch[..taken])
    requires taken < |batch| ==> !Continues(base, before + batch[..taken] + [batch[taken]])
    requires WorkShown(batch[0]) && batch[0].height == before[|before| - 1].height + 1
             && batch[0].header.previousHash == HashOfRecord(before[|before| - 1])
    ensures taken > 0 <==> batch[0].header.time > before[|before| - 1].header.time
  {
    hide Continues, WorkShown;
    if taken > 0 {
      FollowsAt(base, before + batch[..taken], |before|);
    } else {
      assert before + batch[..0] + [batch[0]] == before + [batch[0]];
      assert before + batch[..0] == before;
      ContinuesNext(base, before, batch[0]);
    }
  }
}
