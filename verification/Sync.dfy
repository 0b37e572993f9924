/** Headers-first synchronisation from one peer: the client's loops against any peer, and what an honest peer with an
    unchanged verified chain makes of them (src/net.cpp, sync_from_peer). */
module Sync {
  import opened Amounts
  import opened Errors
  import opened Transactions
  import opened Blocks
  import opened Utxo
  import opened Validation
  import opened Ledger
  import opened Identity
  import opened Locator
  import opened Headers
  import opened ChainState
  import opened TestnetChains
  import opened BranchStore
  import opened Reorganisation

  /** A peer: what it announced, and its replies. The reply to a header request may depend on the round; the reply to
      the i-th item of a body request on how many bodies were asked for before. None stands for "notfound". */
  datatype Peer = Peer(
    bestHeight: u64, tipHash: Hash256, chainwork: nat,
    headers: (nat, seq<Hash256>) -> seq<HeaderRecord>,
    bodies: (nat, seq<Hash256>, nat) -> Option<StoredBlock>)

  /** The peer serves the chain b: it announces its tip and work, and answers every request from it. */
  ghost predicate Honest(peer: Peer, b: seq<StoredBlock>) {
    && |b| > 0 && ChainWork(b).Ok?
    && peer.bestHeight == |b| - 1 && peer.tipHash == HashOf(b[|b| - 1]) && peer.chainwork == ChainWork(b).value
    && (forall round, locator :: peer.headers(round, locator) == HeadersAfter(b, locator, 0))
    && (forall begin, wanted, i :: 0 <= i < |wanted| ==> peer.bodies(begin, wanted, i) == FindBlock(b, wanted[i], |b|))
  }

  // ---------------------------------------------------------------- headers

  /** The highest block of the client's chain that the first header builds on. */
  method ConnectFirst(a: seq<StoredBlock>, first: HeaderRecord) returns (r: Result<nat>)
    ensures r.Ok? ==> r.value < |a| && first.header.previousHash == HashOf(a[r.value]) && first.height == a[r.value].height + 1
                      && Some(r.value) == LastPlace(a, first.header.previousHash, |a|)
    ensures r.Err? ==> r.error == NotConnected
                       && (LastPlace(a, first.header.previousHash, |a|).None?
                           || first.height != a[LastPlace(a, first.header.previousHash, |a|).value].height + 1)
  {
    LastPlaceMeaning(a, first.header.previousHash, |a|);
    var index: nat := |a|;
    while index > 0
      invariant index <= |a|
      invariant LastPlace(a, first.header.previousHash, |a|) == LastPlace(a, first.header.previousHash, index)
    {
      index := index - 1;
      if HashOf(a[index]) == first.header.previousHash {
        if first.height != a[index].height + 1 {
          return Err(NotConnected);
        }
        return Ok(index);
      }
    }
    return Err(NotConnected);
  }

  /** One batch is appended header by header; the first header that does not follow what is there stops it. */
  method AppendBatch(base: HeaderRecord, headers: seq<HeaderRecord>, batch: seq<HeaderRecord>)
    returns (r: Result<seq<HeaderRecord>>)
    requires Continues(base, headers)
    requires forall k :: 0 <= k < |batch| ==> WorkShown(batch[k])
    requires headers == [] && |batch| > 0 ==>
               batch[0].header.previousHash == HashOfRecord(base) && batch[0].height == base.height + 1
    ensures r.Ok? <==> Continues(base, headers + batch)
    ensures r.Ok? ==> r.value == headers + batch
    ensures r.Err? ==> r.error == TimeNotIncreasing || r.error == BrokenLink
  {
    hide Continues, WorkShown;
    var all := headers;
    for i := 0 to |batch|
      invariant all == headers + batch[..i] && Continues(base, all)
    {
      var header := batch[i];
      ContinuesNext(base, all, header);
      assert headers + batch[..i + 1] == all + [header];
      NotContinued(base, headers + batch, |all| + 1);
      assert (headers + batch)[..|all| + 1] == all + [header];
      if |all| > 0 {
        var previous := all[|all| - 1];
        if header.height != previous.height + 1 || header.header.previousHash != HashOfRecord(previous)
           || header.header.time <= previous.header.time {
          return Err(BrokenLink);
        }
      } else if header.header.time <= base.header.time {
        return Err(TimeNotIncreasing);
      }
      all := all + [header];
    }
    assert batch[..|batch|] == batch;
    return Ok(all);
  }

  lemma {:induction false} NotContinued(base: HeaderRecord, headers: seq<HeaderRecord>, n: nat)
    requires n <= |headers|
    ensures !Continues(base, headers[..n]) ==> !Continues(base, headers)
  {
    hide Continues;
    if Continues(base, headers) {
      ContinuesPrefix(base, headers, n);
    }
  }

  /** The header loop. It ends for any peer, because the distance from the last header to the announced height falls
      with every batch; if it succeeds the headers lead from the fork to the announced tip. */
  method CollectHeaders(a: seq<StoredBlock>, peer: Peer, ghost b: seq<StoredBlock>)
    returns (r: Result<(nat, seq<HeaderRecord>)>)
    requires Verified(a)
    ensures r.Ok? ==> var (fork, headers) := r.value;
              && fork < |a| && Continues(RecordOf(a[fork]), headers) && |headers| > 0
              && HashOfRecord(headers[|headers| - 1]) == peer.tipHash
              && headers[|headers| - 1].height == peer.bestHeight
    ensures Serves(a, peer, b) ==> r.Ok? && Complete(a, b, r.value.0, r.value.1)
  {
    hide Verified, Honest, Continues, HeadersAfter, LocatorOf, WorkShown, Serves, LastPlace, FollowsServer;
    VerifiedLength(a);
    SharesNothingYet(a, b);
    var headers: seq<HeaderRecord> := [];
    var fork: nat := |a|;
    var locator := MakeBlockLocator(a);
    var round := 0;
    while true
      invariant headers != [] ==> fork < |a| && Continues(RecordOf(a[fork]), headers)
                                  && headers[|headers| - 1].height <= peer.bestHeight
      invariant Serves(a, peer, b) ==> FollowsServer(a, b, fork, headers, locator)
      decreases if headers == [] then TWO_64 + 1 else peer.bestHeight - headers[|headers| - 1].height
    {
      var batch := peer.headers(round, locator);
      if Serves(a, peer, b) {
        ServerAnswers(a, peer, b, fork, headers, locator, round);
      }
      var accepted := AcceptBatch(batch);
      if accepted.Err? {
        return Err(accepted.error);
      }
      if |batch| == 0 {
        return Err(PeerStopped);
      }
      if headers == [] {
        fork :- ConnectFirst(a, batch[0]);
        NothingContinues(RecordOf(a[fork]));
      } else if batch[0].height != headers[|headers| - 1].height + 1
                || batch[0].header.previousHash != HashOfRecord(headers[|headers| - 1]) {
        return Err(BrokenLink);
      }
      ghost var before := headers;
      headers :- AppendBatch(RecordOf(a[fork]), headers, batch);
      HeightsRise(RecordOf(a[fork]), before, batch);
      var last := headers[|headers| - 1];
      if last.height > peer.bestHeight {
        return Err(PeerInconsistent);
      }
      if HashOfRecord(last) == peer.tipHash {
        if last.height != peer.bestHeight {
          return Err(PeerInconsistent);
        }
        return Ok((fork, headers));
      }
      locator := [HashOfRecord(last), TESTNET_GENESIS_HASH];
      round := round + 1;
    }
  }

  lemma {:induction false} NothingContinues(base: HeaderRecord)
    ensures Continues(base, [])
  {
  }

  /** Each header stands one above the one before, so a batch lifts the last height. */
  lemma {:induction false} HeightsRise(base: HeaderRecord, before: seq<HeaderRecord>, batch: seq<HeaderRecord>)
    requires Continues(base, before + batch) && |batch| > 0
    ensures |before| > 0 ==> (before + batch)[|before + batch| - 1].height > before[|before| - 1].height
  {
    hide Continues;
    if |before| > 0 {
      HeightOfHeader(base, before + batch, |before| - 1);
      HeightOfHeader(base, before + batch, |before + batch| - 1);
    }
  }

  // ---------------------------------------------------------------- an honest peer

  /** The situation of the convergence theorem: two verified chains, no header collisions among them, the server at
      least as far ahead and on a different tip. */
  ghost predicate Serves(a: seq<StoredBlock>, peer: Peer, b: seq<StoredBlock>) {
    && Verified(a) && Verified(b) && HeadersApart(a, b) && HeadersApart(b, b)
    && Honest(peer, b)
    && 0 < |a| <= |b| <= TWO_32 && HashOf(a[|a| - 1]) != HashOf(b[|b| - 1])
  }

  /** The place where the server starts: a block both chains share. */
  ghost function StartOf(a: seq<StoredBlock>, b: seq<StoredBlock>): nat
    requires |a| <= TWO_64
  {
    LocateFork(b, LocatorOf(a))
  }

  /** All of the server's headers above the starting place have been received. */
  ghost predicate Complete(a: seq<StoredBlock>, b: seq<StoredBlock>, fork: nat, headers: seq<HeaderRecord>) {
    && |a| <= TWO_64 && fork == StartOf(a, b) && fork < |a| && fork < |b|
    && HashOf(a[fork]) == HashOf(b[fork])
    && headers == RecordsOf(b, fork + 1, |b|)
  }

  /** The headers so far are the server's from the starting place on, and the locator asks for the next ones. */
  ghost predicate FollowsServer(a: seq<StoredBlock>, b: seq<StoredBlock>, fork: nat, headers: seq<HeaderRecord>,
                                locator: seq<Hash256>) {
    && |a| <= TWO_64
    && if headers == [] then locator == LocatorOf(a)
       else && fork == StartOf(a, b)
            && fork + 1 + |headers| < |b|
            && headers == RecordsOf(b, fork + 1, fork + 1 + |headers|)
            && locator == [HashOf(b[fork + |headers|]), TESTNET_GENESIS_HASH]
  }

  lemma {:induction false} SharesNothingYet(a: seq<StoredBlock>, b: seq<StoredBlock>)
    requires |a| <= TWO_64
    ensures FollowsServer(a, b, |a|, [], LocatorOf(a))
  {
  }

  lemma {:induction false} StartIsShared(a: seq<StoredBlock>, peer: Peer, b: seq<StoredBlock>)
    requires Serves(a, peer, b)
    ensures var f := StartOf(a, b);
            f < |a| && f + 1 < |b| && HashOf(a[f]) == HashOf(b[f]) && a[f].height == f && b[f].height == f
            && LastPlace(a, HashOf(b[f]), |a|) == Some(f)
  {
    hide Verified, LocateFork, LocatorOf, LastPlace, ForkPoint, Honest;
    SharedGenesis(a, b);
    LocatorQuality(a, b);
    var f := StartOf(a, b);
    VerifiedLink(a, f);
    VerifiedLink(b, f);
    LastPlaceMeaning(a, HashOf(b[f]), |a|);
    var place := LastPlace(a, HashOf(b[f]), |a|);
    if place.Some? {
      SamePlace(a, b, place.value, f);
    }
  }

  lemma {:induction false} VerifiedRecord(b: seq<StoredBlock>, i: nat)
    requires Verified(b) && 0 < i < |b|
    ensures WorkShown(RecordOf(b[i])) && HashOfRecord(RecordOf(b[i])) == HashOf(b[i])
  {
    hide Verified, CheckBlock, CheckProofOfWork;
    VerifiedHeaders(b, i);
  }

  /** The server's headers above a shared block continue the client's chain from it. */
  lemma {:induction false} ServerHeadersContinue(a: seq<StoredBlock>, b: seq<StoredBlock>, f: nat, to: nat)
    requires Verified(a) && Verified(b) && HeadersApart(a, b)
    requires f < |a| && f < to <= |b| && HashOf(a[f]) == HashOf(b[f])
    ensures Continues(RecordOf(a[f]), RecordsOf(b, f + 1, to))
  {
    hide Verified, WorkShown;
    VerifiedLink(a, f);
    VerifiedLink(b, f);
    assert a[f].block.header == b[f].block.header;
    var headers := RecordsOf(b, f + 1, to);
    forall k | 0 <= k < |headers|
      ensures Follows(Below(RecordOf(a[f]), headers, k), headers[k])
    {
      VerifiedRecord(b, f + 1 + k);
      VerifiedLink(b, f + 1 + k);
      VerifiedLink(b, f + k);
    }
  }

  /** The answer continues what the client holds from the shared block on, with work shown by every header. */
  lemma {:induction false} AnswerContinues(a: seq<StoredBlock>, peer: Peer, b: seq<StoredBlock>, fork: nat,
                                           headers: seq<HeaderRecord>, locator: seq<Hash256>, round: nat)
    requires Serves(a, peer, b) && FollowsServer(a, b, fork, headers, locator)
    ensures var batch := peer.headers(round, locator);
            var f := StartOf(a, b);
            && f < |a| && Continues(RecordOf(a[f]), headers + batch)
            && (forall k :: 0 <= k < |batch| ==> WorkShown(batch[k]))
            && f + 1 + |headers + batch| <= |b| && headers + batch == RecordsOf(b, f + 1, f + 1 + |headers + batch|)
  {
    hide Verified, LocateFork, LocatorOf, LastPlace, WorkShown, Continues, HeadersAfter, FindBlock, HeadersApart, Honest;
    var f := StartOf(a, b);
    StartIsShared(a, peer, b);
    AnswerFrom(a, peer, b, fork, headers, locator, round);
    var batch := peer.headers(round, locator);
    var from := f + 1 + |headers|;
    var to := from + |batch|;
    assert headers + batch == RecordsOf(b, f + 1, to);
    ServerHeadersContinue(a, b, f, to);
    forall k | 0 <= k < |batch|
      ensures WorkShown(batch[k])
    {
      VerifiedRecord(b, from + k);
    }
  }

  /** The answer ends at the announced tip exactly when nothing is left to ask for. */
  lemma {:induction false} AnswerEnds(a: seq<StoredBlock>, peer: Peer, b: seq<StoredBlock>, all: seq<HeaderRecord>)
    requires Serves(a, peer, b) && |a| <= TWO_64
    requires var f := StartOf(a, b);
             && |all| > 0 && f < |a| && f < |b| && HashOf(a[f]) == HashOf(b[f])
             && f + 1 + |all| <= |b| && all == RecordsOf(b, f + 1, f + 1 + |all|)
    ensures var last := all[|all| - 1];
            && last.height <= peer.bestHeight
            && if HashOfRecord(last) == peer.tipHash
               then last.height == peer.bestHeight && Complete(a, b, StartOf(a, b), all)
               else FollowsServer(a, b, StartOf(a, b), all, [HashOfRecord(last), TESTNET_GENESIS_HASH])
  {
    hide Verified, LocateFork, LocatorOf, HeadersAfter, FindBlock, HeadersApart, ChainWork;
    var to := StartOf(a, b) + 1 + |all|;
    VerifiedLink(b, to - 1);
    if HashOf(b[to - 1]) == HashOf(b[|b| - 1]) {
      SamePlace(b, b, to - 1, |b| - 1);
    }
  }

  /** The next answer of an honest peer: never empty, the server's next blocks, and at its tip exactly when it is the
      last. */
  lemma {:induction false} ServerAnswers(a: seq<StoredBlock>, peer: Peer, b: seq<StoredBlock>, fork: nat,
                                         headers: seq<HeaderRecord>, locator: seq<Hash256>, round: nat)
    requires Serves(a, peer, b) && FollowsServer(a, b, fork, headers, locator)
    ensures var batch := peer.headers(round, locator);
            var f := StartOf(a, b);
            && f < |a|
            && 0 < |batch| <= MAX_HEADERS_PER_RESPONSE
            && (forall k :: 0 <= k < |batch| ==> WorkShown(batch[k]))
            && (headers == [] ==> LastPlace(a, batch[0].header.previousHash, |a|) == Some(f)
                                  && batch[0].height == a[f].height + 1)
            && (headers != [] ==> fork == f && batch[0].height == headers[|headers| - 1].height + 1
                                  && batch[0].header.previousHash == HashOfRecord(headers[|headers| - 1]))
            && Continues(RecordOf(a[f]), headers + batch)
            && (var last := batch[|batch| - 1];
                && last.height <= peer.bestHeight
                && if HashOfRecord(last) == peer.tipHash
                   then last.height == peer.bestHeight && Complete(a, b, f, headers + batch)
                   else FollowsServer(a, b, f, headers + batch, [HashOfRecord(last), TESTNET_GENESIS_HASH]))
  {
    hide Serves, LocateFork, LastPlace, WorkShown, Continues, Honest, Complete, FollowsServer;
    AnswerFrom(a, peer, b, fork, headers, locator, round);
    AnswerBegins(a, peer, b, fork, headers, locator, round);
    AnswerContinues(a, peer, b, fork, headers, locator, round);
    var batch := peer.headers(round, locator);
    assert (headers + batch)[|headers + batch| - 1] == batch[|batch| - 1];
    AnswerEnds(a, peer, b, headers + batch);
  }

  lemma {:induction false} AnswerBegins(a: seq<StoredBlock>, peer: Peer, b: seq<StoredBlock>, fork: nat,
                                        headers: seq<HeaderRecord>, locator: seq<Hash256>, round: nat)
    requires Serves(a, peer, b) && FollowsServer(a, b, fork, headers, locator)
    ensures var batch := peer.headers(round, locator);
            var f := StartOf(a, b);
            && f < |a| <= TWO_64 && f < |b| && HashOf(a[f]) == HashOf(b[f]) && |batch| > 0
            && (headers == [] ==> LastPlace(a, batch[0].header.previousHash, |a|) == Some(f)
                                  && batch[0].height == a[f].height + 1)
            && (headers != [] ==> fork == f && batch[0].height == headers[|headers| - 1].height + 1
                                  && batch[0].header.previousHash == HashOfRecord(headers[|headers| - 1]))
  {
    hide Verified, LocateFork, LocatorOf, LastPlace, WorkShown, Continues, HeadersAfter, FindBlock, HeadersApart, Honest;
    var f := StartOf(a, b);
    StartIsShared(a, peer, b);
    AnswerFrom(a, peer, b, fork, headers, locator, round);
    var from := f + 1 + |headers|;
    assert peer.headers(round, locator)[0] == RecordOf(b[from]);
    VerifiedLink(b, from);
    VerifiedLink(b, from - 1);
  }

  lemma {:induction false} AnswerFrom(a: seq<StoredBlock>, peer: Peer, b: seq<StoredBlock>, fork: nat,
                                      headers: seq<HeaderRecord>, locator: seq<Hash256>, round: nat)
    requires Serves(a, peer, b) && FollowsServer(a, b, fork, headers, locator)
    ensures var batch := peer.headers(round, locator);
            var from := StartOf(a, b) + 1 + |headers|;
            0 < |batch| <= MAX_HEADERS_PER_RESPONSE && from + |batch| <= |b|
            && batch == RecordsOf(b, from, from + |batch|)
  {
    hide Verified, LocatorOf, LastPlace, WorkShown, Continues, Answer, ForkPoint;
    StartIsShared(a, peer, b);
    var from := StartOf(a, b) + 1 + |headers|;
    if headers != [] {
      LocatesOwnBlock(b, from - 1, TESTNET_GENESIS_HASH);
    }
    assert LocateFork(b, locator) + 1 == from;
    AnswerIsNextBlocks(b, from, 0);
  }

  lemma {:induction false} LocatesOwnBlock(b: seq<StoredBlock>, i: nat, other: Hash256)
    requires Verified(b) && HeadersApart(b, b) && i < |b|
    ensures LocateFork(b, [HashOf(b[i]), other]) == i
  {
    hide Verified, LastPlace;
    LastPlaceMeaning(b, HashOf(b[i]), |b|);
    var place := LastPlace(b, HashOf(b[i]), |b|);
    if place.Some? {
      SamePlace(b, b, i, place.value);
    }
  }

  // ---------------------------------------------------------------- bodies

  type Bodies = map<Hash256, StoredBlock>

  /** Each body is filed under its own header hash. */
  ghost predicate Filed(bodies: Bodies) {
    forall h :: h in bodies ==> HashOf(bodies[h]) == h
  }

  /** No body in the list clashes with the server's block of the same header and height. */
  ghost predicate NoClash(blocks: seq<StoredBlock>, b: seq<StoredBlock>) {
    forall k, i :: 0 <= k < |blocks| && 0 <= i < |b| && RecordOf(blocks[k]) == RecordOf(b[i]) ==> blocks[k] == b[i]
  }

  ghost predicate OnlyServers(bodies: Bodies, b: seq<StoredBlock>) {
    forall i :: 0 <= i < |b| && HashOf(b[i]) in bodies ==> bodies[HashOf(b[i])] == b[i]
  }

  ghost predicate Has(bodies: Bodies, missing: seq<Hash256>, headers: seq<HeaderRecord>, n: nat)
    requires n <= |headers|
  {
    forall k :: 0 <= k < n ==> HashOfRecord(headers[k]) in bodies || HashOfRecord(headers[k]) in missing
  }

  /** Headers whose bodies the side store already has are matched; the others are listed as missing. */
  method ReuseBodies(headers: seq<HeaderRecord>, side: SideBranchStore, ghost b: seq<StoredBlock>, ghost fork: nat)
    returns (bodies: Bodies, missing: seq<Hash256>)
    ensures Filed(bodies) && Has(bodies, missing, headers, |headers|) && bodies.Keys <= Hashes(side.blocks)
    ensures forall m :: m in missing ==> exists k :: 0 <= k < |headers| && HashOfRecord(headers[k]) == m
    ensures Asked(headers, b, fork) && NoClash(side.blocks, b) ==> OnlyServers(bodies, b)
  {
    bodies, missing := map[], [];
    for i := 0 to |headers|
      invariant Filed(bodies) && Has(bodies, missing, headers, i) && bodies.Keys <= Hashes(side.blocks)
      invariant forall m :: m in missing ==> exists k :: 0 <= k < |headers| && HashOfRecord(headers[k]) == m
      invariant Asked(headers, b, fork) && NoClash(side.blocks, b) ==> OnlyServers(bodies, b)
    {
      hide FindBlock, WorkShown, Hashes;
      var hash := HashOfRecord(headers[i]);
      var found := Find(side.blocks, hash);
      FoundIsStored(side.blocks, hash);
      FindBlockMeaning(side.blocks, hash, |side.blocks|);
      if found.Some? && found.value.height == headers[i].height && found.value.block.header == headers[i].header {
        if Asked(headers, b, fork) && NoClash(side.blocks, b) {
          ReusedIsServers(headers, side.blocks, b, fork, i, found.value);
        }
        if hash !in bodies {
          bodies := bodies[hash := found.value];
        }
      } else {
        missing := missing + [hash];
      }
    }
  }

  /** The headers are those of the server's blocks above the fork. */
  ghost predicate Asked(headers: seq<HeaderRecord>, b: seq<StoredBlock>, fork: nat) {
    && Verified(b) && HeadersApart(b, b)
    && fork < |b| && headers == RecordsOf(b, fork + 1, |b|)
  }

  lemma {:induction false} ReusedIsServers(headers: seq<HeaderRecord>, side: seq<StoredBlock>, b: seq<StoredBlock>,
                                           fork: nat, k: nat, found: StoredBlock)
    requires Asked(headers, b, fork) && NoClash(side, b) && k < |headers|
    requires found in side && HashOf(found) == HashOfRecord(headers[k])
    requires found.height == headers[k].height && found.block.header == headers[k].header
    ensures found == b[fork + 1 + k]
    ensures forall i :: 0 <= i < |b| && HashOf(b[i]) == HashOf(found) ==> b[i] == found
  {
    hide Verified;
    assert headers[k] == RecordOf(b[fork + 1 + k]);
    forall i | 0 <= i < |b| && HashOf(b[i]) == HashOf(found)
      ensures b[i] == found
    {
      SamePlace(b, b, i, fork + 1 + k);
    }
  }

  /** The first header with a given hash from a place on. */
  ghost function HeaderNamed(headers: seq<HeaderRecord>, hash: Hash256, from: nat): (found: Option<HeaderRecord>)
    requires from <= |headers|
    ensures found.Some? ==> found.value in headers && HashOfRecord(found.value) == hash
    decreases |headers| - from
  {
    if from == |headers| then None
    else if HashOfRecord(headers[from]) == hash then Some(headers[from])
    else HeaderNamed(headers, hash, from + 1)
  }

  method FindHeader(headers: seq<HeaderRecord>, hash: Hash256) returns (found: Option<HeaderRecord>)
    ensures found == HeaderNamed(headers, hash, 0)
    ensures found.Some? ==> found.value in headers && HashOfRecord(found.value) == hash
    ensures found.None? ==> forall k :: 0 <= k < |headers| ==> HashOfRecord(headers[k]) != hash
  {
    for i := 0 to |headers|
      invariant forall k :: 0 <= k < i ==> HashOfRecord(headers[k]) != hash
      invariant HeaderNamed(headers, hash, 0) == HeaderNamed(headers, hash, i)
    {
      if HashOfRecord(headers[i]) == hash {
        return Some(headers[i]);
      }
    }
    return None;
  }

  /** The first n missing bodies have been fetched. */
  ghost predicate Fetched(bodies: Bodies, known: Bodies, headers: seq<HeaderRecord>, missing: seq<Hash256>, n: nat,
                          peer: Peer, b: seq<StoredBlock>, fork: nat)
    requires n <= |missing|
  {
    && Filed(bodies) && known.Keys <= bodies.Keys
    && (Asked(headers, b, fork) && Honest(peer, b) && OnlyServers(known, b) ==>
          OnlyServers(bodies, b) && forall m :: m in missing[..n] ==> m in bodies)
  }

  lemma {:induction false} NothingFetched(known: Bodies, headers: seq<HeaderRecord>, missing: seq<Hash256>, peer: Peer,
                                          b: seq<StoredBlock>, fork: nat)
    requires Filed(known)
    ensures Fetched(known, known, headers, missing, 0, peer, b, fork)
  {
    hide Asked, Honest, OnlyServers;
  }

  /** One more body, the first under its hash. */
  lemma {:induction false} OneMoreBody(bodies: Bodies, known: Bodies, headers: seq<HeaderRecord>, missing: seq<Hash256>,
                                       n: nat, peer: Peer, b: seq<StoredBlock>, fork: nat, stored: StoredBlock)
    requires n < |missing| && Fetched(bodies, known, headers, missing, n, peer, b, fork)
    requires Asked(headers, b, fork) && Honest(peer, b) ==>
               HashOf(stored) == missing[n]
               && forall k :: 0 <= k < |b| && HashOf(b[k]) == missing[n] ==> b[k] == stored
    ensures var more := if HashOf(stored) in bodies then bodies else bodies[HashOf(stored) := stored];
            Fetched(more, known, headers, missing, n + 1, peer, b, fork)
  {
    hide Asked, Honest;
    assert missing[..n + 1] == missing[..n] + [missing[n]];
  }

  /** One batch of requests; each reply must match an announced header. */
  method FetchBatch(headers: seq<HeaderRecord>, missing: seq<Hash256>, begin: nat, end: nat, start: Bodies,
                    side: SideBranchStore, peer: Peer, ghost known: Bodies, ghost b: seq<StoredBlock>, ghost fork: nat)
    returns (r: Result<Bodies>)
    requires begin <= end <= |missing| && Fetched(start, known, headers, missing, begin, peer, b, fork)
    requires forall m :: m in missing ==> exists k :: 0 <= k < |headers| && HashOfRecord(headers[k]) == m
    requires start.Keys <= Hashes(side.blocks)
    modifies side
    ensures Hashes(old(side.blocks)) <= Hashes(side.blocks)
    ensures r.Ok? ==> r.value.Keys <= Hashes(side.blocks)
    ensures r.Ok? ==> Fetched(r.value, known, headers, missing, end, peer, b, fork)
    ensures Asked(headers, b, fork) && Honest(peer, b) ==> r.Ok?
  {
    hide Fetched, Asked, Honest, Hashes, Put;
    var bodies: Bodies := start;
    var batch := missing[begin..end];
    for index := begin to end
      invariant Fetched(bodies, known, headers, missing, index, peer, b, fork)
      invariant Hashes(old(side.blocks)) <= Hashes(side.blocks) && bodies.Keys <= Hashes(side.blocks)
    {
      var response := peer.bodies(begin, batch, index - begin);
      assert batch[index - begin] == missing[index];
      assert missing[index] in missing;
      if Asked(headers, b, fork) && Honest(peer, b) {
        HonestBody(headers, peer, b, fork, begin, batch, index - begin);
      }
      if response.None? {
        return Err(BodyMissing);
      }
      var stored := response.value;
      var hash := HashOf(stored);
      var header := FindHeader(headers, hash);
      if header.None? || stored.height != header.value.height || stored.block.header != header.value.header {
        return Err(BodyMismatch);
      }
      OneMoreBody(bodies, known, headers, missing, index, peer, b, fork, stored);
      if hash !in bodies {
        bodies := bodies[hash := stored];
      }
      PutStores(side.blocks, stored);
      OneHash(stored);
      side.PutBlock(stored);
    }
    return Ok(bodies);
  }

  /** Missing bodies are requested in batches of at most 500. */
  method FetchBodies(headers: seq<HeaderRecord>, missing: seq<Hash256>, known: Bodies, side: SideBranchStore, peer: Peer,
                     ghost b: seq<StoredBlock>, ghost fork: nat)
    returns (r: Result<Bodies>)
    requires Filed(known) && known.Keys <= Hashes(side.blocks)
    requires forall m :: m in missing ==> exists k :: 0 <= k < |headers| && HashOfRecord(headers[k]) == m
    modifies side
    ensures Hashes(old(side.blocks)) <= Hashes(side.blocks)
    ensures r.Ok? ==> r.value.Keys <= Hashes(side.blocks)
    ensures r.Ok? ==> Filed(r.value) && known.Keys <= r.value.Keys
    ensures Asked(headers, b, fork) && Honest(peer, b) && OnlyServers(known, b) ==>
              r.Ok? && OnlyServers(r.value, b) && forall m :: m in missing ==> m in r.value
  {
    hide Honest, Asked, OnlyServers, Hashes;
    var bodies: Bodies := known;
    var begin: nat := 0;
    NothingFetched(known, headers, missing, peer, b, fork);
    while begin < |missing|
      invariant begin <= |missing|
      invariant Fetched(bodies, known, headers, missing, begin, peer, b, fork)
      invariant Hashes(old(side.blocks)) <= Hashes(side.blocks) && bodies.Keys <= Hashes(side.blocks)
      decreases |missing| - begin
    {
      var end := if begin + MAX_INVENTORY_ITEMS < |missing| then begin + MAX_INVENTORY_ITEMS else |missing|;
      bodies :- FetchBatch(headers, missing, begin, end, bodies, side, peer, known, b, fork);
      begin := end;
    }
    assert missing[..|missing|] == missing;
    return Ok(bodies);
  }

  /** An honest peer answers the request for a body with its own block, which matches the first header of its hash. */
  lemma {:induction false} HonestBody(headers: seq<HeaderRecord>, peer: Peer, b: seq<StoredBlock>, fork: nat,
                                      begin: nat, batch: seq<Hash256>, i: nat)
    requires Asked(headers, b, fork) && Honest(peer, b) && i < |batch|
    requires exists k :: 0 <= k < |headers| && HashOfRecord(headers[k]) == batch[i]
    ensures var response := peer.bodies(begin, batch, i);
            && response.Some? && HashOf(response.value) == batch[i]
            && (forall k :: 0 <= k < |headers| && HashOfRecord(headers[k]) == batch[i] ==>
                  headers[k] == RecordOf(response.value))
            && (forall k :: 0 <= k < |b| && HashOf(b[k]) == batch[i] ==> b[k] == response.value)
  {
    hide Verified, FindBlock, HeadersAfter, ChainWork;
    var k :| 0 <= k < |headers| && HashOfRecord(headers[k]) == batch[i];
    assert headers[k] == RecordOf(b[fork + 1 + k]);
    FindBlockMeaning(b, batch[i], |b|);
    var response := peer.bodies(begin, batch, i);
    assert response == FindBlock(b, batch[i], |b|);
    var place :| 0 <= place < |b| && b[place] == response.value;
    forall j | 0 <= j < |b| && HashOf(b[j]) == batch[i]
      ensures b[j] == response.value
    {
      SamePlace(b, b, j, place);
    }
    forall j | 0 <= j < |headers| && HashOfRecord(headers[j]) == batch[i]
      ensures headers[j] == RecordOf(response.value)
    {
      assert headers[j] == RecordOf(b[fork + 1 + j]);
    }
  }

  /** The bodies in header order; each was among those filed. */
  method Assemble(headers: seq<HeaderRecord>, bodies: Bodies, ghost b: seq<StoredBlock>, ghost fork: nat)
    returns (r: Result<seq<StoredBlock>>)
    requires Filed(bodies)
    ensures r.Ok? ==> |r.value| == |headers|
    ensures r.Ok? ==> forall k :: 0 <= k < |headers| ==> HashOf(r.value[k]) == HashOfRecord(headers[k])
    ensures r.Ok? ==> Hashes(r.value) <= bodies.Keys
    ensures Asked(headers, b, fork) && OnlyServers(bodies, b) && Has(bodies, [], headers, |headers|) ==>
              r == Ok(b[fork + 1..])
  {
    hide Verified;
    var candidate: seq<StoredBlock> := [];
    for i := 0 to |headers|
      invariant |candidate| == i && forall k :: 0 <= k < i ==> HashOf(candidate[k]) == HashOfRecord(headers[k])
      invariant Hashes(candidate) <= bodies.Keys
      invariant Asked(headers, b, fork) && OnlyServers(bodies, b) && Has(bodies, [], headers, |headers|) ==>
                  candidate == b[fork + 1..][..i]
    {
      var hash := HashOfRecord(headers[i]);
      if Asked(headers, b, fork) {
        assert headers[i] == RecordOf(b[fork + 1 + i]) && b[fork + 1..][i] == b[fork + 1 + i];
      }
      if hash !in bodies {
        return Err(BodyMissing);
      }
      candidate := candidate + [bodies[hash]];
    }
    assert Asked(headers, b, fork) ==> b[fork + 1..][..|headers|] == b[fork + 1..];
    return Ok(candidate);
  }

  // ---------------------------------------------------------------- the whole exchange

  /** Blocks of the two chains with one header hash are one block. Identity.HeaderIdentifiesBlock derives this from
      ideal hashing for verified chains without double spends. */
  ghost predicate SameBodies(a: seq<StoredBlock>, b: seq<StoredBlock>) {
    forall i, j :: 0 <= i < |a| && 0 <= j < |b| && HashOf(a[i]) == HashOf(b[j]) ==> a[i] == b[j]
  }

  /** The client has the chain a and some side blocks; the peer serves the verified chain b, within the height limit. */
  ghost predicate FairMeeting(a: seq<StoredBlock>, side: seq<StoredBlock>, peer: Peer, b: seq<StoredBlock>) {
    && Verified(a) && Verified(b) && HeadersApart(a, b) && HeadersApart(b, b) && SameBodies(a, b)
    && NoClash(side, b) && Honest(peer, b) && |b| - 1 <= MAX_SYNC_HEIGHT
  }

  /** Downloads the peer's chain if it announces at least as much work under another tip; none means nothing to do. */
  method DownloadCandidate(a: seq<StoredBlock>, side: SideBranchStore, peer: Peer, ghost b: seq<StoredBlock>)
    returns (r: Result<Option<(nat, seq<StoredBlock>)>>)
    requires Verified(a)
    modifies side
    ensures r.Ok? && r.value.Some? ==> r.value.value.0 < |a| && a[..r.value.value.0 + 1] <= r.value.value.1
    ensures Hashes(old(side.blocks)) <= Hashes(side.blocks)
    ensures r.Ok? && r.value.Some? ==> Hashes(r.value.value.1) <= Hashes(a) + Hashes(side.blocks)
    ensures FairMeeting(a, old(side.blocks), peer, b) ==>
              r.Ok? && match r.value
                       case None => |b| < |a| || a == b
                       case Some((fork, candidate)) => |a| <= |b| && candidate == b
  {
    hide Verified, HeadersApart, Honest, Serves, FindBlock, HeadersAfter, OnlyServers, Has, NoClash, ChainWork, Complete, Hashes;
    ChainNotEmpty(a);
    WorkFits(a);
    var work := CalculateChainwork(a);
    var tip := a[|a| - 1];
    if FairMeeting(a, side.blocks, peer, b) {
      FairNumbers(a, side.blocks, peer, b);
    }
    if peer.tipHash == HashOf(tip) {
      if peer.bestHeight != tip.height || peer.chainwork != work.value {
        return Err(PeerInconsistent);
      }
      return Ok(None);
    }
    if peer.chainwork < work.value {
      return Ok(None);
    }
    if peer.bestHeight > MAX_SYNC_HEIGHT {
      return Err(LimitExceeded);
    }
    var received :- CollectHeaders(a, peer, b);
    var (fork, headers) := received;
    if FairMeeting(a, side.blocks, peer, b) {
      CompleteIsAsked(a, side.blocks, peer, b, fork, headers);
    }
    var known, missing := ReuseBodies(headers, side, b, fork);
    var bodies :- FetchBodies(headers, missing, known, side, peer, b, fork);
    NothingMissing(headers, known, bodies, missing);
    var above :- Assemble(headers, bodies, b, fork);
    var candidate := a[..fork + 1] + above;
    StoredAbove(a, fork + 1, above, Hashes(side.blocks));
    if FairMeeting(a, old(side.blocks), peer, b) {
      assert candidate == b;
      WorkFits(b);
    }
    var candidateWork :- CalculateChainwork(candidate);
    if candidateWork >= TWO_256 {
      return Err(BadArgument);
    }
    if candidateWork != peer.chainwork {
      return Err(PeerInconsistent);
    }
    return Ok(Some((fork, candidate)));
  }

  lemma {:induction false} StoredAbove(a: seq<StoredBlock>, n: nat, above: seq<StoredBlock>, stored: set<Hash256>)
    requires n <= |a| && Hashes(above) <= stored
    ensures a[..n] <= a[..n] + above && Hashes(a[..n] + above) <= Hashes(a) + stored
  {
    hide Hashes;
    JoinedHashes(a[..n], above);
    JoinedHashes(a[..n], a[n..]);
    assert a == a[..n] + a[n..];
  }

  lemma {:induction false} ChainNotEmpty(a: seq<StoredBlock>)
    requires Verified(a)
    ensures |a| > 0
  {
  }

  /** What an honest announcement means for the client's first decisions. */
  lemma {:induction false} FairNumbers(a: seq<StoredBlock>, side: seq<StoredBlock>, peer: Peer, b: seq<StoredBlock>)
    requires FairMeeting(a, side, peer, b)
    ensures |a| > 0 && |b| > 0 && ChainWork(a).Ok? && peer.bestHeight <= MAX_SYNC_HEIGHT
    ensures peer.tipHash == HashOf(b[|b| - 1]) && a[|a| - 1].height == |a| - 1
    ensures ChainWork(b) == Ok(peer.chainwork) && peer.bestHeight == |b| - 1
    ensures peer.chainwork < ChainWork(a).value <==> |b| < |a|
    ensures peer.chainwork == ChainWork(a).value <==> |b| == |a|
    ensures HashOf(a[|a| - 1]) == HashOf(b[|b| - 1]) ==> a == b
    ensures HashOf(a[|a| - 1]) != HashOf(b[|b| - 1]) && |a| <= |b| ==> Serves(a, peer, b)
  {
    hide Verified, HeadersApart, HeadersAfter, FindBlock, NoClash, ChainWork;
    ChainNotEmpty(a);
    ChainNotEmpty(b);
    VerifiedLength(b);
    VerifiedLink(a, |a| - 1);
    WorkComparesAsLength(a, b);
    if HashOf(a[|a| - 1]) == HashOf(b[|b| - 1]) {
      SamePlace(a, b, |a| - 1, |b| - 1);
      forall i | 0 <= i < |a|
        ensures a[i] == b[i]
      {
        assert HashOf(a[i]) == HashOf(b[i]);
      }
    }
  }

  lemma {:induction false} CompleteIsAsked(a: seq<StoredBlock>, side: seq<StoredBlock>, peer: Peer,
                                           b: seq<StoredBlock>, fork: nat, headers: seq<HeaderRecord>)
    requires FairMeeting(a, side, peer, b) && Complete(a, b, fork, headers)
    ensures Asked(headers, b, fork) && fork < |a| && fork < |b|
    ensures a[..fork + 1] + b[fork + 1..] == b
  {
    hide Verified, Honest, NoClash, HeadersApart;
    assert HeadersApart(a, b);
    SamePlace(a, b, fork, fork);
    forall i | 0 <= i <= fork
      ensures a[i] == b[i]
    {
      assert HashOf(a[i]) == HashOf(b[i]);
    }
    assert b == b[..fork + 1] + b[fork + 1..];
    assert a[..fork + 1] == b[..fork + 1];
  }

  lemma {:induction false} NothingMissing(headers: seq<HeaderRecord>, known: Bodies, bodies: Bodies, missing: seq<Hash256>)
    requires Has(known, missing, headers, |headers|) && known.Keys <= bodies.Keys
    ensures (forall m :: m in missing ==> m in bodies) ==> Has(bodies, [], headers, |headers|)
  {
    if forall m :: m in missing ==> m in bodies {
      forall k | 0 <= k < |headers|
        ensures HashOfRecord(headers[k]) in bodies
      {
        assert HashOfRecord(headers[k]) in known || HashOfRecord(headers[k]) in missing;
      }
    }
  }

  /** One synchronisation. Whatever the peer does, a settled chain stays settled and never loses work, no block that
      was known is forgotten, and after a switch no active block is left to the side. A fair meeting completes without
      error and leaves the client holding the server's chain if that has strictly more work, and its own chain
      otherwise; either way it knows every block of a server's chain with at least its own work. */
  method SyncFromPeer(chain: TestnetChain, side: SideBranchStore, peer: Peer, save: SaveOutcome,
                      ghost b: seq<StoredBlock>)
    returns (r: Result<bool>)
    requires Settled(chain.Current())
    modifies chain, side
    ensures Settled(chain.Current()) && |chain.blocks| >= |old(chain.blocks)|
    ensures |chain.blocks| == |old(chain.blocks)| ==> chain.Current() == old(chain.Current())
    ensures Hashes(old(chain.blocks)) + Hashes(old(side.blocks)) <= Hashes(chain.blocks) + Hashes(side.blocks)
    ensures r == Ok(true) ==> Hashes(chain.blocks) !! Hashes(side.blocks)
    ensures FairMeeting(old(chain.blocks), old(side.blocks), peer, b) && |old(chain.blocks)| <= |b| ==>
              Hashes(b) <= Hashes(chain.blocks) + Hashes(side.blocks)
    ensures FairMeeting(old(chain.blocks), old(side.blocks), peer, b) && save == Saves ==>
              && r == Ok(|b| > |old(chain.blocks)|)
              && chain.Current() == if |b| > |old(chain.blocks)| then State(b, Verify(b).value) else old(chain.Current())
  {
    hide FairMeeting, Verify, ChainWork, Activate, Hashes, PutAll, Without;
    var before := chain.blocks;
    ghost var start := chain.Current();
    var downloaded :- DownloadCandidate(before, side, peer, b);
    if FairMeeting(before, old(side.blocks), peer, b) {
      FairIsVerified(before, old(side.blocks), peer, b);
    }
    if downloaded.None? {
      return Ok(false);
    }
    var (fork, candidate) := downloaded.value;
    JoinedHashes(before[..fork + 1], before[fork + 1..]);
    assert before == before[..fork + 1] + before[fork + 1..];
    JoinedHashes(before[..fork + 1], candidate[fork + 1..]);
    assert candidate == before[..fork + 1] + candidate[fork + 1..];
    PutAllStores(side.blocks, before[fork + 1..], |before| - (fork + 1));
    assert before[fork + 1..][..|before| - (fork + 1)] == before[fork + 1..];
    if fork + 1 < |before| {
      side.PutMany(before[fork + 1..]);
    } else {
      assert before[fork + 1..] == [];
      NoHashes();
    }
    ActivatesExactlyLonger(start, candidate);
    ActivationKeeps(start, candidate, save);
    ActivationInstalls(start, candidate, save);
    var activation :- chain.ActivateIfMoreWork(candidate, save);
    WithoutStores(side.blocks, Hashes(chain.blocks), |side.blocks|);
    assert side.blocks[..|side.blocks|] == side.blocks;
    if activation.activated {
      side.RemoveActive(chain.blocks);
    }
    return Ok(activation.activated);
  }

  lemma {:induction false} FairIsVerified(a: seq<StoredBlock>, side: seq<StoredBlock>, peer: Peer, b: seq<StoredBlock>)
    requires FairMeeting(a, side, peer, b)
    ensures Verified(b)
  {
    hide Verified;
  }

  /** The chain afterwards is the candidate or the chain before. */
  lemma {:induction false} ActivationInstalls(s: State, candidate: seq<StoredBlock>, save: SaveOutcome)
    requires |s.blocks| > 0
    ensures var (r, after) := Activate(s, candidate, save);
            if r.Ok? && r.value.activated then after.blocks == candidate else after == s
  {
    hide Verify, ChainWork, Lost;
  }

  lemma {:induction false} ActivationKeeps(s: State, candidate: seq<StoredBlock>, save: SaveOutcome)
    requires Settled(s)
    ensures var (r, after) := Activate(s, candidate, save);
            && Settled(after) && |after.blocks| >= |s.blocks|
            && (|after.blocks| == |s.blocks| ==> after == s)
  {
    hide VerifyPrefix, ChainWork, GenesisLocked;
    if Verified(candidate) {
      WorkComparesAsLength(s.blocks, candidate);
    }
  }
}
