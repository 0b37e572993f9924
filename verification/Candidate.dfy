/** The candidate chain that a long-running peer session builds up from whatever messages arrive: its state machine,
    whose handlers may stop midway and leave what they have done so far (src/net.cpp, session_loop). */
module Candidate {
  import opened Errors
  import opened Transactions
  import opened Blocks
  import opened Utxo
  import opened Validation
  import opened Ledger
  import opened Locator
  import opened Headers
  import opened ChainState
  import opened TestnetChains
  import opened BranchStore
  import opened Reorganisation
  import opened Sync
  import opened CandidateSteps
  import opened CandidateHopes
  import opened Retention

  class CandidateSync {
    var active: bool
    var expectedHeight: u64
    var expectedTip: Hash256
    var expectedWork: Hash256
    var forkHeight: nat
    var prefix: seq<StoredBlock>
    var headers: seq<HeaderRecord>
    var blocks: Bodies
    var pending: set<Hash256>

    constructor ()
      ensures !active && Valid()
    {
      active, expectedHeight, expectedTip, expectedWork, forkHeight := false, 0, 0, 0, 0;
      prefix, headers, blocks, pending := [], [], map[], {};
    }

    /** The last block of the prefix, which the headers build on. */
    ghost function Base(): HeaderRecord
      requires |prefix| > 0
      reads this
    {
      RecordOf(prefix[|prefix| - 1])
    }

    ghost predicate Requested()
      reads this
    {
      pending != {} || blocks != map[]
    }

    /** An active candidate is a verified prefix with headers that continue it, bodies under their own hashes, and
        requests for announced blocks only; once bodies are being gathered, none up to the tip is forgotten. */
    ghost predicate Valid()
      reads this
    {
      active ==>
        && |prefix| > 0 && Verified(prefix) && forkHeight == |prefix| - 1
        && Continues(Base(), headers)
        && Filed(blocks)
        && pending !! blocks.Keys && Announced(pending, headers)
        && (Requested() ==> Covers(headers, expectedHeight, expectedTip, pending + blocks.Keys))
    }

    /** A header above the announced tip has been taken in. */
    ghost predicate Overshot()
      reads this
    {
      active && |headers| > 0 && headers[|headers| - 1].height > expectedHeight
    }

    /** The headers have come to the announced height without the announced tip, or above it. */
    ghost predicate Missed()
      reads this
    {
      && active && |headers| > 0
      && var last := headers[|headers| - 1];
      last.height > expectedHeight || (last.height == expectedHeight && HashOfRecord(last) != expectedTip)
    }

    /** Bodies were requested and none is outstanding, but the candidate is still there: its activation has failed. */
    ghost predicate Stalled()
      reads this
    {
      active && Requested() && pending == {}
    }

    /** The headers are at the announced tip, but the bodies were never asked for. */
    ghost predicate Stranded()
      reads this
    {
      active && !Requested() && AtTip(Aim())
    }

    /** The candidate cannot be activated any more, whatever comes. */
    ghost predicate Lost()
      reads this
    {
      active && (Missed() || Stalled() || Stranded() || FalseWork(expectedHeight, expectedWork))
    }

    /** There is no chain that the candidate may still become. */
    ghost predicate Hopeless()
      reads this
    {
      active && !Hopeful(Current())
    }

    lemma {:induction false} ValidIsSound()
      requires Valid()
      ensures active ==> Sound(Current())
    {
      hide Verified, Continues, Covers;
      if active {
        RequestedReachTip();
      }
    }

    ghost function Aim(): Target
      reads this
    {
      Target(prefix, headers, expectedHeight, expectedTip, expectedWork)
    }

    ghost function Current(): View
      reads this
    {
      View(active, Aim(), blocks, pending)
    }

    // -------------------------------------------------------------- starting

    method StartSync(chain: TestnetChain, height: u64, tip: Hash256, work: Hash256) returns (r: Result<Reply>)
      requires Valid() && Settled(chain.Current())
      modifies this
      ensures Valid()
      ensures r.Ok? <==> height <= MAX_SYNC_HEIGHT
      ensures r.Ok? ==> r.value == AskHeaders(LocatorOf(chain.blocks))
                        && active && !Requested() && headers == [] && prefix == chain.blocks
                        && (expectedHeight, expectedTip, expectedWork) == (height, tip, work)
      ensures r.Err? ==> unchanged(this)
    {
      hide Settled, LocatorOf, Verified, Continues, ChainWork;
      if height > MAX_SYNC_HEIGHT {
        return Err(LimitExceeded);
      }
      SettledShape(chain.Current());
      active, expectedHeight, expectedTip, expectedWork := true, height, tip, work;
      forkHeight, prefix := chain.blocks[|chain.blocks| - 1].height, chain.blocks;
      headers, blocks, pending := [], map[], {};
      NothingContinues(Base());
      var locator := MakeBlockLocator(chain.blocks);
      return Ok(AskHeaders(locator));
    }

    /** A status message starts a candidate only when none is active and the peer claims strictly more work. */
    method OnStatus(chain: TestnetChain, height: u64, tip: Hash256, work: Hash256) returns (r: Result<Reply>)
      requires Valid() && Settled(chain.Current())
      modifies this
      ensures Valid()
      ensures if old(active) || !Promising(chain.blocks, tip, work) then r == Ok(Ignored) && unchanged(this)
              else if height > MAX_SYNC_HEIGHT then r.Err? && unchanged(this)
              else r == Ok(AskHeaders(LocatorOf(chain.blocks)))
                   && Current() == View(true, Target(chain.blocks, [], height, tip, work), map[], {})
      ensures Lost() <==>
                old(Lost()) || (!old(active) && Promising(chain.blocks, tip, work) && height <= MAX_SYNC_HEIGHT
                                && FalseWork(height, work))
    {
      hide Verify, LocatorOf, ChainWork, Valid, Settled, FalseWork;
      SettledShape(chain.Current());
      var ownWork := CalculateChainwork(chain.blocks);
      if !active && tip != HashOf(chain.blocks[|chain.blocks| - 1]) && work > ownWork.value {
        r := StartSync(chain, height, tip, work);
      } else {
        return Ok(Ignored);
      }
    }

    // -------------------------------------------------------------- headers

    /** The first batch chooses where the candidate leaves the prefix, which is cut there. */
    method Attach(first: HeaderRecord) returns (r: Result<()>)
      requires Valid() && active && headers == []
      modifies this`prefix, this`forkHeight
      ensures Valid()
      ensures r.Ok? <==> var place := LastPlace(old(prefix), first.header.previousHash, |old(prefix)|);
                         place.Some? && first.height == old(prefix)[place.value].height + 1
      ensures r.Ok? ==> && |prefix| > 0
                        && prefix == old(prefix)[..LastPlace(old(prefix), first.header.previousHash, |old(prefix)|).value + 1]
                        && first.header.previousHash == HashOfRecord(Base()) && first.height == Base().height + 1
      ensures r.Err? ==> unchanged(this)
    {
      hide Verified, Verify, LastPlace, Continues, Covers, Filed, Announced, Missed, Stalled, FalseWork, Hashes;
      var fork :- ConnectFirst(prefix, first);
      VerifiedLink(prefix, fork);
      PrefixOfVerified(prefix, fork + 1);
      forkHeight := prefix[fork].height;
      prefix := prefix[..fork + 1];
      NothingContinues(Base());
      return Ok(());
    }

    /** While bodies are being gathered, the headers reach the announced height. */
    lemma {:induction false} RequestedReachTip()
      requires Valid() && active
      ensures Requested() ==> |headers| > 0 && headers[|headers| - 1].height >= expectedHeight
    {
      hide Verified, Continues;
    }

    /** Headers are pushed one at a time; the first that does not follow stops the batch, those before it stay. */
    method Push(batch: seq<HeaderRecord>) returns (r: Result<()>, ghost taken: nat)
      requires Valid() && active && |batch| > 0
      requires forall k :: 0 <= k < |batch| ==> WorkShown(batch[k])
      requires headers == [] ==> batch[0].header.previousHash == HashOfRecord(Base()) && batch[0].height == Base().height + 1
      modifies this`headers
      ensures Valid()
      ensures taken <= |batch| && headers == old(headers) + batch[..taken]
      ensures if r.Ok? then taken == |batch| else taken < |batch| && !Continues(Base(), headers + [batch[taken]])
    {
      hide Verified, WorkShown, Continues, Covers;
      ghost var before := headers;
      for i := 0 to |batch|
        invariant headers == before + batch[..i] && Continues(Base(), headers) && Valid()
      {
        taken := i;
        var header := batch[i];
        ContinuesNext(Base(), headers, header);
        if |headers| > 0 {
          var previous := headers[|headers| - 1];
          if header.height != previous.height + 1 || header.header.previousHash != HashOfRecord(previous)
             || header.header.time <= previous.header.time {
            return Err(BrokenLink), taken;
          }
        } else if header.header.time <= prefix[|prefix| - 1].block.header.time {
          return Err(TimeNotIncreasing), taken;
        }
        TakeOne(Base(), headers, header, expectedHeight, expectedTip, pending, blocks.Keys);
        headers := headers + [header];
        assert batch[..i + 1] == batch[..i] + [header];
      }
      taken := |batch|;
      return Ok(()), taken;
    }

    /** Whatever batch arrives, the candidate stays well formed and the chain settled. It overshoots exactly when a
        header above the announced tip gets taken in, and never leaves that state; once bodies have been requested, any
        batch that begins by following the last header does it. */
    method OnHeaders(batch: seq<HeaderRecord>, chain: TestnetChain, side: SideBranchStore, outside: Outside)
      returns (r: Result<Reply>)
      requires Valid() && Settled(chain.Current())
      modifies this, chain, side
      ensures Valid() && Settled(chain.Current()) && |chain.blocks| >= |old(chain.blocks)|
      ensures !old(active) ==> r == Ok(Ignored) && unchanged(this) && unchanged(chain) && unchanged(side)
      ensures old(active) ==> TakesHeaders(batch, old(Current()), Current(), old(chain.Current()), chain.Current(),
                                           old(side.blocks), side.blocks, outside, r)
      ensures Overshot() <==> old(Overshot()) || (old(active) && Oversteps(old(Aim()), batch))
      ensures old(active) && old(Requested()) ==>
                (Overshot() <==> old(Overshot()) || (Connects(old(Aim()), batch) && |old(headers)| > 0
                                  && batch[0].header.time > old(headers)[|old(headers)| - 1].header.time))
      ensures Missed() <==> old(Missed()) || (old(active) && Misses(old(Aim()), batch))
      ensures Stalled() <==>
                old(Stalled()) || (old(active) && CompletesInVain(old(Aim()), batch, old(chain.Current()), old(side.blocks), outside))
      ensures Lost() <==>
                old(Lost()) || (old(active) && (Misses(old(Aim()), batch) || Strands(old(Current()), batch, outside) ||
                  CompletesInVain(old(Aim()), batch, old(chain.Current()), old(side.blocks), outside)))
      ensures r.Ok? && r.value.Activated? ==> !active
      ensures old(Lost()) ==> unchanged(chain) && unchanged(side)
    {
      hide Verified, WorkShown, Continues, Covers, Filed, Verify, LastPlace, Reacts, Oversteps, Misses, FailsAtOnce,
           Extended, Connects, FalseWork, Succeeds, Missing, KnownBodies;
      if !active {
        return Ok(Ignored);
      }
      RequestedReachTip();
      ConnectingIsRead(Aim(), batch);
      if Requested() {
        RequestedOversteps(batch);
      }
      var accepted := AcceptBatch(batch);
      if accepted.Err? || |batch| == 0 {
        return Err(if accepted.Err? then accepted.error else PeerStopped);
      }
      var _ :- TakeIn(batch);
      r := React(chain, side, outside);
    }

    /** The headers of the batch that follow are added, if the batch connects; it fails if not all of them do. */
    method TakeIn(batch: seq<HeaderRecord>) returns (r: Result<()>)
      requires Valid() && active
      requires 0 < |batch| <= MAX_HEADERS_PER_RESPONSE && forall k :: 0 <= k < |batch| ==> WorkShown(batch[k])
      modifies this`prefix, this`forkHeight, this`headers
      ensures Valid()
      ensures if !Connects(old(Aim()), batch) then r.Err? && unchanged(this)
              else Aim() == Extended(old(Aim()), batch) && |headers| <= |old(headers)| + |batch|
                   && (r.Ok? <==> |headers| == |old(headers)| + |batch|)
      ensures r.Ok? ==> |headers| > 0 && (Requested() ==> Overshot())
      ensures Overshot() <==> old(Overshot()) || Oversteps(old(Aim()), batch)
      ensures Missed() <==> old(Missed()) || Misses(old(Aim()), batch)
      ensures AtTip(old(Aim())) && |headers| > |old(headers)| ==> Missed()
    {
      hide Verified, WorkShown, Continues, Covers, Filed, LastPlace, Following, FalseWork;
      ghost var was := Aim();
      RequestedReachTip();
      if |headers| == 0 {
        var _ :- Attach(batch[0]);
      } else {
        var previous := headers[|headers| - 1];
        if batch[0].height != previous.height + 1 || batch[0].header.previousHash != HashOfRecord(previous) {
          return Err(BrokenLink);
        }
      }
      ghost var before := headers;
      var pushed, taken := Push(batch);
      FollowingIs(Base(), before, batch, taken);
      LastRises(Base(), before, batch[..taken]);
      return pushed;
    }

    /** Once bodies have been requested, a connecting batch oversteps exactly when its first header is later than the
        last one there. */
    lemma {:induction false} RequestedOversteps(batch: seq<HeaderRecord>)
      requires Valid() && active && Requested()
      ensures |headers| > 0
      ensures Oversteps(Aim(), batch) <==>
                Connects(Aim(), batch) && batch[0].header.time > headers[|headers| - 1].header.time
    {
      hide Verified, WorkShown, Continues, Covers, Filed, LastPlace, Following;
      RequestedReachTip();
      if Connects(Aim(), batch) {
        var n := Following(Base(), headers, batch);
        FollowingStops(Base(), headers, batch);
        FirstFollows(Base(), headers, batch, n);
        LastRises(Base(), headers, batch[..n]);
      }
    }

    /** With the batch taken in: stop beyond the announced height, gather bodies at the tip, or ask for more. */
    method React(chain: TestnetChain, side: SideBranchStore, outside: Outside) returns (r: Result<Reply>)
      requires Valid() && active && |headers| > 0 && Settled(chain.Current())
      requires Requested() ==> Overshot()
      modifies this, chain, side
      ensures Valid() && Settled(chain.Current()) && |chain.blocks| >= |old(chain.blocks)|
      ensures Reacts(old(Current()), Current(), old(chain.Current()), chain.Current(), old(side.blocks), side.blocks, outside, r)
      ensures old(Missed()) ==> unchanged(this) && unchanged(chain) && unchanged(side)
      ensures old(Overshot()) ==> r.Err?
      ensures !old(Overshot()) ==> !Overshot()
      ensures !old(Missed()) ==> !Missed()
      ensures Stalled() <==> old(Stalled()) || FailsAtOnce(old(Aim()), old(chain.Current()), old(side.blocks), outside)
      ensures Stranded() <==> old(AtTip(Aim())) && !outside.loads
      ensures old(FalseWork(expectedHeight, expectedWork)) ==> active && unchanged(chain) && unchanged(side)
      ensures active ==> Aim() == old(Aim())
      ensures r.Ok? && r.value.Activated? ==> !active
    {
      hide Verified, Continues, Covers, Filed, Verify, Gathers, Missing, KnownBodies, Succeeds, FalseWork;
      var last := headers[|headers| - 1];
      if last.height > expectedHeight {
        return Err(PeerInconsistent);
      }
      if HashOfRecord(last) == expectedTip {
        if last.height != expectedHeight {
          return Err(PeerInconsistent);
        }
        r := RequestBlocks(chain, side, outside);
      } else {
        return Ok(AskHeaders([HashOfRecord(last), TESTNET_GENESIS_HASH]));
      }
    }

    // -------------------------------------------------------------- bodies

    /** Every header's body is taken from the chain or the side store, or noted as pending. */
    method FileKnown(chain: TestnetChain, side: SideBranchStore)
      requires Valid() && active && !Requested()
      modifies this`blocks, this`pending
      ensures Filed(blocks) && pending !! blocks.Keys && Announced(pending, headers)
      ensures blocks == KnownBodies(headers, chain.blocks, side.blocks)
      ensures pending == Missing(headers, chain.blocks, side.blocks)
      ensures pending + blocks.Keys == HashesOf(headers)
    {
      hide Verified, Continues, Covers, FindBlock;
      for i := 0 to |headers|
        invariant headers == old(headers)
        invariant forall h :: h in pending ==> Known(chain.blocks, side.blocks, h).None?
        invariant forall h :: h in blocks ==> Known(chain.blocks, side.blocks, h) == Some(blocks[h])
        invariant forall k :: 0 <= k < i ==> HashOfRecord(headers[k]) in pending + blocks.Keys
        invariant forall h :: h in pending + blocks.Keys ==> h in HashesOf(headers)
        invariant Announced(pending, headers)
        invariant Filed(blocks)
      {
        var hash := HashOfRecord(headers[i]);
        var found := Find(chain.blocks, hash);
        FindBlockMeaning(chain.blocks, hash, |chain.blocks|);
        if found.None? {
          found := Find(side.blocks, hash);
          FindBlockMeaning(side.blocks, hash, |side.blocks|);
        }
        if found.None? {
          pending := pending + {hash};
        } else if hash !in blocks {
          blocks := blocks[hash := found.value];
        }
      }
    }

    method RequestBlocks(chain: TestnetChain, side: SideBranchStore, outside: Outside) returns (r: Result<Reply>)
      requires Valid() && active && !Requested() && Settled(chain.Current())
      requires |headers| > 0 && headers[|headers| - 1].height == expectedHeight
               && HashOfRecord(headers[|headers| - 1]) == expectedTip
      modifies this, chain, side
      ensures Valid() && Settled(chain.Current()) && |chain.blocks| >= |old(chain.blocks)|
      ensures Gathers(old(Current()), Current(), old(chain.Current()), chain.Current(), old(side.blocks), side.blocks, outside, r)
      ensures active ==> Aim() == old(Aim())
      ensures Stalled() <==> FailsAtOnce(old(Aim()), old(chain.Current()), old(side.blocks), outside)
      ensures active && !Requested() <==> !outside.loads
      ensures r.Ok? && r.value.Activated? ==> !active
      ensures old(FalseWork(expectedHeight, expectedWork)) ==> active && unchanged(chain) && unchanged(side)
    {
      hide Verified, Continues, FindBlock, Verify, Filed, Attempt, KnownBodies, Missing, Succeeds, FalseWork;
      if !outside.loads {
        return Err(LoadFailed);
      }
      FileKnown(chain, side);
      assert HashOfRecord(headers[|headers| - 1]) in HashesOf(headers);
      TipIsLast(Base(), headers, expectedHeight, expectedTip, pending + blocks.Keys);
      if pending == {} {
        ghost var (aim, bodies, s, left) := (Aim(), blocks, chain.Current(), side.blocks);
        r := ActivateCandidate(chain, side, outside);
        AttemptOutcome(aim, bodies, s, chain.Current(), left, side.blocks, outside, r);
        return;
      }
      return Ok(AskBodies(pending));
    }

    /** A requested body must be of the height and header that its hash was announced with; the last one triggers
        activation. Any other block extends the active chain or is kept to the side. */
    method OnBlock(stored: StoredBlock, chain: TestnetChain, side: SideBranchStore, outside: Outside)
      returns (r: Result<Reply>)
      requires Valid() && Settled(chain.Current())
      modifies this, chain, side
      ensures Valid() && Settled(chain.Current()) && |chain.blocks| >= |old(chain.blocks)|
      ensures if old(active) && HashOf(stored) in old(pending)
              then TakesBody(stored, old(Current()), Current(), old(chain.Current()), chain.Current(),
                             old(side.blocks), side.blocks, outside, r)
              else unchanged(this) && |old(chain.blocks)| > 0
                   && TakesLoose(stored, old(chain.Current()), chain.Current(), old(side.blocks), side.blocks, outside.save, r)
      ensures old(active) && HashOf(stored) in old(pending) && RecordOf(stored) !in old(headers) ==>
                r == Err(BodyMismatch) && unchanged(this) && unchanged(chain) && unchanged(side)
      ensures Overshot() <==> old(Overshot())
      ensures Missed() <==> old(Missed())
      ensures Stalled() <==>
                old(Stalled()) || (old(active) && ArrivesInVain(old(Current()), stored, old(chain.Current()), outside))
      ensures Lost() <==> old(Lost()) || (old(active) && ArrivesInVain(old(Current()), stored, old(chain.Current()), outside))
      ensures r.Ok? && r.value.Activated? ==> !active
      ensures old(Lost()) && HashOf(stored) in old(pending) ==> unchanged(chain)
    {
      hide Valid, Settled, TakesBody, TakesLoose;
      if active && HashOf(stored) in pending {
        r := OnRequestedBlock(stored, chain, side, outside);
      } else {
        r := OnLooseBlock(stored, chain, side, outside.save);
      }
    }

    method OnRequestedBlock(stored: StoredBlock, chain: TestnetChain, side: SideBranchStore, outside: Outside)
      returns (r: Result<Reply>)
      requires Valid() && Settled(chain.Current()) && active && HashOf(stored) in pending
      modifies this, chain, side
      ensures Valid() && Settled(chain.Current()) && |chain.blocks| >= |old(chain.blocks)|
      ensures TakesBody(stored, old(Current()), Current(), old(chain.Current()), chain.Current(),
                        old(side.blocks), side.blocks, outside, r)
      ensures RecordOf(stored) !in old(headers) ==>
                r == Err(BodyMismatch) && unchanged(this) && unchanged(chain) && unchanged(side)
      ensures Overshot() <==> old(Overshot())
      ensures Missed() <==> old(Missed())
      ensures Stalled() <==> ArrivesInVain(old(Current()), stored, old(chain.Current()), outside)
      ensures Lost() <==> old(Lost()) || ArrivesInVain(old(Current()), stored, old(chain.Current()), outside)
      ensures r.Ok? && r.value.Activated? ==> !active
      ensures old(Lost()) ==> unchanged(chain)
    {
      hide Valid, Settled, FindBlock, Attempt, Put, Succeeds, FalseWork;
      var header := FindHeader(headers, HashOf(stored));
      if header.None? || header.value.height != stored.height || header.value.header != stored.block.header {
        return Err(BodyMismatch);
      }
      assert header.value == RecordOf(stored);
      side.PutBlock(stored);
      FileBody(stored);
      assert pending == {} <==> old(pending) == {HashOf(stored)};
      assert blocks[HashOf(stored)] == stored;
      if pending == {} {
        ghost var (aim, bodies, s, left) := (Aim(), blocks, chain.Current(), side.blocks);
        r := ActivateCandidate(chain, side, outside);
        AttemptOutcome(aim, bodies, s, chain.Current(), left, side.blocks, outside, r);
      } else {
        return Ok(Kept);
      }
    }

    /** A pending hash gets its body. */
    method FileBody(stored: StoredBlock)
      requires Valid() && active && HashOf(stored) in pending
      modifies this`blocks, this`pending
      ensures Valid()
      ensures pending == old(pending) - {HashOf(stored)} && blocks == old(blocks)[HashOf(stored) := stored]
    {
      hide Verified, Continues, Covers;
      var hash := HashOf(stored);
      ghost var known := pending + blocks.Keys;
      blocks := blocks[hash := stored];
      pending := pending - {hash};
      assert pending + blocks.Keys == known;
    }

    /** A block nobody asked for. */
    method OnLooseBlock(stored: StoredBlock, chain: TestnetChain, side: SideBranchStore, save: SaveOutcome)
      returns (r: Result<Reply>)
      requires Settled(chain.Current())
      modifies chain, side
      ensures Settled(chain.Current()) && |old(chain.blocks)| > 0
      ensures TakesLoose(stored, old(chain.Current()), chain.Current(), old(side.blocks), side.blocks, save, r)
      ensures |chain.blocks| >= |old(chain.blocks)|
      ensures r.Ok? ==> !r.value.Activated?
    {
      hide Verify, FindBlock, ChainWork, Put, Without;
      SettledShape(chain.Current());
      var known := Find(chain.blocks, HashOf(stored));
      if known.Some? {
        return Ok(Ignored);
      }
      var tip := chain.blocks[|chain.blocks| - 1];
      if stored.height == tip.height + 1 && stored.block.header.previousHash == HashOf(tip) {
        AppendKeeps(chain.Current(), [stored], save);
        var _ :- chain.AppendBlocks([stored], save, Start(None, save));
        side.RemoveActive(chain.blocks);
        return Ok(Appended);
      }
      side.PutBlock(stored);
      return Ok(Kept);
    }

    /** The last step: assemble, compare with the announcement, and let the chain decide. It succeeds exactly when
        the assembled chain is as announced and the chain accepts it; a failure leaves the candidate as it was. */
    method ActivateCandidate(chain: TestnetChain, side: SideBranchStore, outside: Outside) returns (r: Result<Reply>)
      requires Valid() && active && Settled(chain.Current())
      modifies this, chain, side
      ensures Valid() && Settled(chain.Current()) && |chain.blocks| >= |old(chain.blocks)|
      ensures Attempt(old(Aim()), old(blocks), old(chain.Current()), chain.Current(), old(side.blocks), side.blocks, outside, r)
      ensures r.Err? ==> unchanged(this)
      ensures r.Ok? ==> !active
      ensures old(Missed()) || old(FalseWork(expectedHeight, expectedWork)) ==> r.Err? && unchanged(chain) && unchanged(side)
    {
      hide Verified, Settled, ChainWork, Continues, Covers, Activate, Filed, SideAfter, FalseWork;
      MissedFails();
      if FalseWork(expectedHeight, expectedWork) {
        FalseWorkFails(Aim(), blocks);
      }
      var full :- Gather();
      var tip := full[|full| - 1];
      if tip.height != expectedHeight || HashOf(tip) != expectedTip {
        return Err(PeerInconsistent);
      }
      var work := CalculateChainwork(full);
      if work.Err? || work.value >= TWO_256 {
        return Err(if work.Err? then work.error else BadArgument);
      }
      if work.value != expectedWork {
        return Err(PeerInconsistent);
      }
      assert Fulfils(Aim(), blocks);
      if !outside.loads {
        return Err(LoadFailed);
      }
      var activation :- Switch(full, chain, side, outside.save);
      if !outside.refreshed {
        return Err(SaveFailed);
      }
      active, expectedHeight, expectedTip, expectedWork, forkHeight := false, 0, 0, 0, 0;
      prefix, headers, blocks, pending := [], [], map[], {};
      return Ok(Activated(activation));
    }

    /** The blocks above the fork are kept to the side, then the chain decides. */
    method Switch(full: seq<StoredBlock>, chain: TestnetChain, side: SideBranchStore, save: SaveOutcome)
      returns (r: Result<Activation>)
      requires Valid() && active && Settled(chain.Current())
      modifies chain, side
      ensures r == Activate(old(chain.Current()), full, save).0
      ensures chain.Current() == Activate(old(chain.Current()), full, save).1
      ensures side.blocks == SideAfter(Aim(), old(side.blocks), old(chain.Current()), chain.Current(), r.Ok? && r.value.activated)
      ensures Settled(chain.Current()) && |chain.blocks| >= |old(chain.blocks)|
    {
      hide Settled, Activate, ChainWork, Verified, Continues, Covers, PutAll, Without;
      if forkHeight + 1 < |chain.blocks| {
        side.PutMany(chain.blocks[forkHeight + 1..]);
      }
      ActivationKeeps(chain.Current(), full, save);
      r := chain.ActivateIfMoreWork(full, save);
      if r.Ok? && r.value.activated {
        side.RemoveActive(chain.blocks);
      }
    }

    /** The prefix with a body for each header. */
    method Gather() returns (r: Result<seq<StoredBlock>>)
      requires Valid() && active
      ensures r.Ok? <==> HasBodies(headers, blocks)
      ensures r.Ok? ==> r.value == Joined(prefix, headers, blocks) && |r.value| > 0
    {
      hide Verified, Continues, Covers, Filed;
      var full := prefix;
      for i := 0 to |headers|
        invariant |full| == |prefix| + i && full[..|prefix|] == prefix
        invariant forall k :: 0 <= k < i ==>
          && HashOfRecord(headers[k]) in blocks && RecordOf(blocks[HashOfRecord(headers[k])]) == headers[k]
          && full[|prefix| + k] == blocks[HashOfRecord(headers[k])]
      {
        var hash := HashOfRecord(headers[i]);
        if hash !in blocks {
          return Err(BodyMissing);
        }
        if blocks[hash].height != headers[i].height || blocks[hash].block.header != headers[i].header {
          return Err(BodyMismatch);
        }
        full := full + [blocks[hash]];
      }
      assert full == Joined(prefix, headers, blocks);
      return Ok(full);
    }

    /** The assembled chain of a candidate that missed the announced tip does not end there. */
    lemma {:induction false} MissedFails()
      requires Valid()
      ensures Missed() ==> !Fulfils(Aim(), blocks)
    {
      hide Verified, Continues, Covers, ChainWork;
      if HasBodies(headers, blocks) && |headers| > 0 {
        var full := Joined(prefix, headers, blocks);
        assert RecordOf(full[|prefix| + (|headers| - 1)]) == headers[|headers| - 1];
      }
    }

    // -------------------------------------------------------------- the session

    method Handle(message: Message, chain: TestnetChain, side: SideBranchStore, outside: Outside)
      returns (r: Result<Reply>)
      requires Valid() && Settled(chain.Current())
      modifies this, chain, side
      ensures Valid() && Settled(chain.Current()) && |chain.blocks| >= |old(chain.blocks)|
      ensures old(Overshot()) ==> Overshot()
      ensures old(Missed()) ==> Missed()
      ensures old(Stalled()) ==> Stalled()
      ensures old(Lost()) ==> Lost()
      ensures old(Hopeless()) ==> Hopeless()
      ensures r.Ok? && r.value.Activated? ==> !active
      ensures Handles(message, old(Current()), Current(), old(chain.Current()), chain.Current(), old(side.blocks), side.blocks,
                      outside, r)
    {
      hide Verified, Continues, Covers, Verify, FindBlock, ChainWork, LocatorOf, TakesHeaders, TakesBody, TakesLoose,
           Oversteps, Connects, FalseWork, Promising, Hopeful;
      SettledShape(chain.Current());
      ValidIsSound();
      ghost var (v, s, left) := (Current(), chain.Current(), side.blocks);
      match message {
        case Status(height, tip, work) => r := OnStatus(chain, height, tip, work);
        case HeaderBatch(batch) => r := OnHeaders(batch, chain, side, outside);
        case BlockBody(stored) => r := OnBlock(stored, chain, side, outside);
      }
      if v.active && !Hopeful(v) {
        HopelessStays(message, v, Current(), s, chain.Current(), left, side.blocks, outside, r);
      }
    }

    /** A whole session: failures are counted and the loop goes on. Whatever the peer sends, the candidate stays well
        formed and the chain settled, and the chain never gets shorter. A candidate that is lost, or has no chain to
        become, stays so to the end and is never activated. No block is forgotten, if the candidate that the session
        begins with, if any, leaves the chain as it then is. */
    method Session(messages: seq<Message>, chain: TestnetChain, side: SideBranchStore, outside: nat -> Outside)
      returns (failures: nat, activations: nat)
      requires Valid() && Settled(chain.Current())
      modifies this, chain, side
      ensures Valid() && Settled(chain.Current()) && |chain.blocks| >= |old(chain.blocks)|
      ensures old(Overshot()) ==> Overshot()
      ensures old(Missed()) ==> Missed()
      ensures old(Stalled()) ==> Stalled()
      ensures old(Lost()) ==> Lost() && activations == 0
      ensures old(Hopeless()) ==> Hopeless() && activations == 0
      ensures old(Grounded(Current(), chain.Current())) ==>
                && Grounded(Current(), chain.Current())
                && old(Remembered(chain.Current(), side.blocks)) <= Remembered(chain.Current(), side.blocks)
    {
      hide Valid, Settled, Overshot, Missed, Stalled, Handles, Hopeful, Grounded, Remembered;
      failures, activations := 0, 0;
      for i := 0 to |messages|
        invariant Valid() && Settled(chain.Current()) && |chain.blocks| >= |old(chain.blocks)|
        invariant old(Overshot()) ==> Overshot()
        invariant old(Missed()) ==> Missed()
        invariant old(Stalled()) ==> Stalled()
        invariant old(Lost()) ==> Lost() && activations == 0
        invariant old(Hopeless()) ==> Hopeless() && activations == 0
        invariant old(Grounded(Current(), chain.Current())) ==>
                    && Grounded(Current(), chain.Current())
                    && old(Remembered(chain.Current(), side.blocks)) <= Remembered(chain.Current(), side.blocks)
      {
        ghost var (v, s, left) := (Current(), chain.Current(), side.blocks);
        var r := Handle(messages[i], chain, side, outside(i));
        if Grounded(v, s) {
          MessageRetains(messages[i], v, Current(), s, chain.Current(), left, side.blocks, outside(i), r);
        }
        if r.Err? {
          failures := failures + 1;
        } else if r.value.Activated? {
          activations := activations + 1;
        }
      }
    }
  }

  // ---------------------------------------------------------------- what a well-formed candidate is

  /** A run of header records from genesis: hash-linked, one height after the other, strictly later each time. */
  ghost predicate RunFromGenesis(run: seq<HeaderRecord>) {
    && |run| > 0 && HashOfRecord(run[0]) == TESTNET_GENESIS_HASH
    && (forall i :: 0 <= i < |run| ==> run[i].height == i)
    && (forall i :: 0 < i < |run| ==> run[i].header.previousHash == HashOfRecord(run[i - 1]))
    && (forall i, j :: 0 <= i < j < |run| ==> run[i].header.time < run[j].header.time)
  }

  /** The prefix followed by the headers is one run from genesis. */
  lemma {:induction false} CandidateIsRun(prefix: seq<StoredBlock>, headers: seq<HeaderRecord>)
    requires Verified(prefix) && |prefix| > 0 && Continues(RecordOf(prefix[|prefix| - 1]), headers)
    ensures RunFromGenesis(RecordsOf(prefix, 0, |prefix|) + headers)
  {
    hide Verified, WorkShown, Continues;
    var n := |prefix|;
    var run := RecordsOf(prefix, 0, n) + headers;
    StartsAtGenesis(prefix);
    forall i | 0 <= i < |run|
      ensures run[i].height == i
      ensures i > 0 ==> run[i].header.previousHash == HashOfRecord(run[i - 1]) && run[i - 1].header.time < run[i].header.time
    {
      VerifiedLink(prefix, if i < n then i else n - 1);
      if i >= n {
        HeightOfHeader(RecordOf(prefix[n - 1]), headers, i - n);
        FollowsAt(RecordOf(prefix[n - 1]), headers, i - n);
      }
    }
    TimesRise(run);
  }

  lemma {:induction false} StartsAtGenesis(blocks: seq<StoredBlock>)
    requires Verified(blocks)
    ensures |blocks| > 0 && HashOf(blocks[0]) == TESTNET_GENESIS_HASH
  {
    hide VerifyPrefix;
  }

  lemma {:induction false} TimesRise(run: seq<HeaderRecord>)
    requires forall i :: 0 < i < |run| ==> run[i - 1].header.time < run[i].header.time
    ensures forall i, j :: 0 <= i < j < |run| ==> run[i].header.time < run[j].header.time
  {
    forall i, j | 0 <= i < j < |run|
      ensures run[i].header.time < run[j].header.time
    {
      for k := i + 1 to j
        invariant run[i].header.time < run[k].header.time
      {
      }
    }
  }
}
