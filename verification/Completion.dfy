/** A candidate that is not lost is completed by the rest of the chain it was announced with (src/net.cpp,
    session_loop). */
module Completion {
  import opened Errors
  import opened Transactions
  import opened Blocks
  import opened Validation
  import opened Ledger
  import opened Locator
  import opened Headers
  import opened ChainState
  import opened TestnetChains
  import opened BranchStore
  import opened Reorganisation
  import opened Sync
  import opened CandidateSteps
  import opened CandidateHopes
  import opened Candidate

  /** Saving, refreshing and loading work. */
  const FAVOURABLE: Outside := Outside(Saves, true, true)

  /** What chain and side store hold under the hashes of the blocks above the first n are these blocks. */
  ghost predicate AtHand(active: seq<StoredBlock>, side: seq<StoredBlock>, b: seq<StoredBlock>, n: nat) {
    forall k :: n <= k < |b| && Known(active, side, HashOf(b[k])).Some? ==>
      Known(active, side, HashOf(b[k])).value == b[k]
  }

  /** The prefix is left at its n-th block by headers that build on it. */
  ghost predicate LeavesAt(t: Target, b: seq<StoredBlock>, n: nat)
    requires 0 < n <= |b|
  {
    t.headers == [] ==> LastPlace(t.prefix, HashOf(b[n - 1]), |t.prefix|) == Some(n - 1)
  }

  /** The message brings headers or a body of the chain. */
  ghost predicate OfChain(message: Message, b: seq<StoredBlock>) {
    match message
    case Status(_, _, _) => false
    case HeaderBatch(batch) => exists i, j :: 0 <= i <= j <= |b| && batch == RecordsOf(b, i, j)
    case BlockBody(stored) => stored in b
  }

  /** All headers of the chain are there and some bodies are still asked for. */
  ghost predicate Gathering(v: View, b: seq<StoredBlock>, n: nat) {
    && v.active && v.pending != {} && Leads(v.aim, b, n) && n + |v.aim.headers| == |b|
    && Fits(v.bodies, b, n)
  }

  /** From an active candidate that is not lost and begins a verified chain as announced, the remaining headers and
      bodies of that chain lead to activation. Bodies that are already there, or will be taken from chain and side
      store, must be that chain's. */
  method Finish(c: CandidateSync, b: seq<StoredBlock>, n: nat, chain: TestnetChain, side: SideBranchStore)
    returns (r: Result<Reply>, sent: seq<Message>)
    requires c.Valid() && c.active && !c.Lost() && Settled(chain.Current())
    requires Leads(c.Aim(), b, n) && LeavesAt(c.Aim(), b, n)
    requires if c.Requested() then Fits(c.blocks, b, n) else AtHand(chain.blocks, side.blocks, b, n)
    modifies c, chain, side
    ensures r.Ok? && r.value.Activated? && !c.active
    ensures chain.Current() == Activate(old(chain.Current()), b, Saves).1
    ensures |b| > |old(chain.blocks)| ==> chain.blocks == b
    ensures forall m :: m in sent ==> OfChain(m, b)
  {
    hide Leads, Settled, Activate, FalseWork, AtHand, OfChain, LeavesAt, Verify;
    sent := [];
    LeadsParts(c.Aim(), b, n);
    ActivatesExactlyLonger(chain.Current(), b);
    if c.pending == {} && |c.blocks| == 0 {
      r, sent := FinishHeaders(c, b, n, chain, side);
      if !c.active {
        return;
      }
    } else {
      RequestedIsWhole(c, b, n);
    }
    var more: seq<Message>;
    r, more := FinishBodies(c, b, n, chain, side);
    sent := sent + more;
  }

  /** Once bodies have been requested, a candidate that is neither lost nor hopeless has a chain that completes it. */
  lemma {:induction false} RequestedCanFinish(c: CandidateSync)
    requires c.Valid() && c.active && c.Requested() && !c.Hopeless()
    ensures exists b, n: nat :: Leads(c.Aim(), b, n) && 0 < n <= |b| && LeavesAt(c.Aim(), b, n) && Fits(c.blocks, b, n)
  {
    hide Leads, Fits, ChainWork, Verified, Continues, Covers;
    c.RequestedReachTip();
    var b, n :| Promised(c.Current(), b, n);
    LeadsParts(c.Aim(), b, n);
    assert LeavesAt(c.Aim(), b, n);
  }

  /** Once bodies have been requested, the headers are complete. */
  lemma {:induction false} RequestedIsWhole(c: CandidateSync, b: seq<StoredBlock>, n: nat)
    requires c.Valid() && c.active && c.Requested() && Leads(c.Aim(), b, n)
    ensures n + |c.headers| == |b|
  {
    hide Verified, Continues, Apart;
    c.RequestedReachTip();
    var m := |c.headers|;
    assert c.headers[m - 1] == RecordOf(b[n + (m - 1)]);
    VerifiedLink(b, n + m - 1);
  }

  /** Before that they are not, unless the candidate is stranded. */
  lemma {:induction false} UnrequestedIsShort(c: CandidateSync, b: seq<StoredBlock>, n: nat)
    requires c.Valid() && c.active && !c.Requested() && !c.Stranded() && Leads(c.Aim(), b, n)
    ensures n + |c.headers| < |b|
  {
    hide Verified, Continues, Apart;
    var m := |c.headers|;
    if m > 0 && n + m == |b| {
      assert c.headers[m - 1] == RecordOf(b[n + (m - 1)]);
      VerifiedLink(b, n + m - 1);
    }
  }

  method FinishHeaders(c: CandidateSync, b: seq<StoredBlock>, n: nat, chain: TestnetChain, side: SideBranchStore)
    returns (r: Result<Reply>, sent: seq<Message>)
    requires c.Valid() && c.active && !c.Lost() && !c.Requested() && Settled(chain.Current())
    requires Leads(c.Aim(), b, n) && LeavesAt(c.Aim(), b, n) && AtHand(chain.blocks, side.blocks, b, n)
    modifies c, chain, side
    ensures c.Valid() && Settled(chain.Current())
    ensures if c.active
            then Gathering(c.Current(), b, n) && !FalseWork(c.expectedHeight, c.expectedWork)
                 && chain.Current() == old(chain.Current())
            else r.Ok? && r.value.Activated? && chain.Current() == Activate(old(chain.Current()), b, Saves).1
    ensures forall m :: m in sent ==> OfChain(m, b)
  {
    hide Settled, Activate, FalseWork, AtHand, Leads, LeavesAt, Connects, Extended, Reacts, Verified, Continues;
    sent := [];
    UnrequestedIsShort(c, b, n);
    LeadsParts(c.Aim(), b, n);
    ghost var (s, left) := (chain.Current(), side.blocks);
    while true
      invariant c.Valid() && c.active && !c.Requested() && Settled(chain.Current())
      invariant Leads(c.Aim(), b, n) && 0 < n && n + |c.headers| < |b| && LeavesAt(c.Aim(), b, n)
      invariant !FalseWork(c.expectedHeight, c.expectedWork)
      invariant chain.Current() == s && side.blocks == left
      invariant forall m :: m in sent ==> OfChain(m, b)
      decreases |b| - |c.headers|
    {
      var from := n + |c.headers|;
      var to := if from + MAX_HEADERS_PER_RESPONSE < |b| then from + MAX_HEADERS_PER_RESPONSE else |b|;
      var batch := RecordsOf(b, from, to);
      ghost var v := c.Current();
      BatchExtends(c.Aim(), b, n, to);
      r := c.OnHeaders(batch, chain, side, FAVOURABLE);
      BatchIsOfChain(b, from, to);
      sent := sent + [HeaderBatch(batch)];
      ghost var longer := v.(aim := Extended(v.aim, batch));
      if to == |b| {
        LastBatch(longer, c.Current(), b, n, s, chain.Current(), left, side.blocks, r);
        return;
      }
      NotLastBatch(longer, c.Current(), b, n, s, chain.Current(), left, side.blocks, r);
    }
  }

  lemma {:induction false} BatchIsOfChain(b: seq<StoredBlock>, from: nat, to: nat)
    requires from <= to <= |b|
    ensures OfChain(HeaderBatch(RecordsOf(b, from, to)), b)
  {
  }

  lemma {:induction false} LeadsParts(t: Target, b: seq<StoredBlock>, n: nat)
    requires Leads(t, b, n)
    ensures Verified(b) && |b| == t.height + 1 && HashOf(b[t.height]) == t.tip && 0 < n <= |t.prefix| && n < |b|
    ensures Apart(b, n)
    ensures t.headers != [] ==>
              n == |t.prefix| && t.prefix == b[..n] && n + |t.headers| <= |b| && t.headers == RecordsOf(b, n, n + |t.headers|)
  {
    hide Verified, Apart;
    assert t.prefix[..|t.prefix|] == t.prefix;
  }

  lemma {:induction false} ChainContinues(b: seq<StoredBlock>, n: nat, to: nat)
    requires Verified(b) && 0 < n <= to <= |b|
    ensures Continues(RecordOf(b[n - 1]), RecordsOf(b, n, to))
    ensures forall k :: 0 <= k < to - n ==> WorkShown(RecordsOf(b, n, to)[k])
  {
    hide Verified, WorkShown;
    var headers := RecordsOf(b, n, to);
    forall k | 0 <= k < |headers|
      ensures Follows(Below(RecordOf(b[n - 1]), headers, k), headers[k])
    {
      VerifiedRecord(b, n + k);
      VerifiedLink(b, n + k);
      VerifiedLink(b, n + k - 1);
    }
  }

  lemma {:induction false} BatchConnects(t: Target, b: seq<StoredBlock>, n: nat, to: nat)
    requires Leads(t, b, n) && 0 < n <= |b| && LeavesAt(t, b, n)
    requires n + |t.headers| < to <= |b| && to - (n + |t.headers|) <= MAX_HEADERS_PER_RESPONSE && |t.prefix| > 0
    ensures Connects(t, RecordsOf(b, n + |t.headers|, to))
    ensures Cut(t, RecordsOf(b, n + |t.headers|, to)) == b[..n]
  {
    hide Verified, WorkShown, LastPlace, Continues, Apart;
    var from := n + |t.headers|;
    var batch := RecordsOf(b, from, to);
    LeadsParts(t, b, n);
    ChainContinues(b, from, to);
    VerifiedLink(b, from);
    VerifiedLink(b, from - 1);
    if t.headers == [] {
      assert b[n - 1] == b[..n][n - 1] == t.prefix[..n][n - 1] == t.prefix[n - 1];
    } else {
      assert t.headers[|t.headers| - 1] == RecordOf(b[n + (|t.headers| - 1)]);
    }
  }

  /** The next headers of the chain connect and follow as a whole. */
  lemma {:induction false} BatchExtends(t: Target, b: seq<StoredBlock>, n: nat, to: nat)
    requires Leads(t, b, n) && 0 < n <= |b| && LeavesAt(t, b, n)
    requires n + |t.headers| < to <= |b| && to - (n + |t.headers|) <= MAX_HEADERS_PER_RESPONSE && |t.prefix| > 0
    ensures var batch := RecordsOf(b, n + |t.headers|, to);
            && Connects(t, batch)
            && Extended(t, batch) == t.(prefix := b[..n], headers := RecordsOf(b, n, to))
            && Leads(Extended(t, batch), b, n)
  {
    hide Verified, WorkShown, LastPlace, Continues, Apart, Connects, LeavesAt, Cut;
    var batch := RecordsOf(b, n + |t.headers|, to);
    LeadsParts(t, b, n);
    BatchConnects(t, b, n, to);
    ChainContinues(b, n, to);
    assert t.headers + batch == RecordsOf(b, n, to);
    assert b[..n][n - 1] == b[n - 1];
    assert batch[..|batch|] == batch;
    assert b[..n][..n] == b[..n];
  }

  /** Below the announced height the candidate just grows. */
  lemma {:induction false} NotLastBatch(v: View, w: View, b: seq<StoredBlock>, n: nat, s: State, after: State,
                                        side: seq<StoredBlock>, left: seq<StoredBlock>, r: Result<Reply>)
    requires Leads(v.aim, b, n) && |v.aim.headers| > 0 && n + |v.aim.headers| < |b|
    requires Reacts(v, w, s, after, side, left, FAVOURABLE, r)
    ensures w == v && after == s && left == side && 0 < n <= |b| && LeavesAt(v.aim, b, n)
  {
    hide Verified, Gathers, Apart;
    LeadsParts(v.aim, b, n);
    var m := |v.aim.headers|;
    assert v.aim.headers[m - 1] == RecordOf(b[n + (m - 1)]);
    VerifiedLink(b, n + m - 1);
  }

  /** At the tip it asks for the missing bodies, or is activated at once. */
  lemma {:induction false} LastBatch(v: View, w: View, b: seq<StoredBlock>, n: nat, s: State, after: State,
                                     side: seq<StoredBlock>, left: seq<StoredBlock>, r: Result<Reply>)
    requires v.active && Leads(v.aim, b, n) && |v.aim.headers| > 0 && n + |v.aim.headers| == |b|
    requires Reacts(v, w, s, after, side, left, FAVOURABLE, r) && Settled(s)
    requires AtHand(s.blocks, side, b, n) && !FalseWork(v.aim.height, v.aim.work)
    ensures if w.active then Gathering(w, b, n) && w.aim == v.aim && after == s
            else r.Ok? && r.value.Activated? && after == Activate(s, b, Saves).1
  {
    hide Verified, Settled, FalseWork, Leads, Fits, Activate, Attempt, KnownBodies, Missing, AtHand;
    LeadsParts(v.aim, b, n);
    var m := |v.aim.headers|;
    assert v.aim.headers[m - 1] == RecordOf(b[n + (m - 1)]);
    VerifiedLink(b, n + m - 1);
    var bodies := KnownBodies(v.aim.headers, s.blocks, side);
    AtHandFits(v.aim.headers, s.blocks, side, b, n);
    if Missing(v.aim.headers, s.blocks, side) == {} {
      NothingMissing(v.aim.headers, s.blocks, side);
      AttemptCompletes(v.aim, bodies, b, n, s, after, side, left, r);
    }
  }

  lemma {:induction false} AtHandFits(headers: seq<HeaderRecord>, active: seq<StoredBlock>, side: seq<StoredBlock>,
                                      b: seq<StoredBlock>, n: nat)
    requires AtHand(active, side, b, n)
    ensures Fits(KnownBodies(headers, active, side), b, n)
  {
    hide Known, HashesOf;
  }

  lemma {:induction false} NothingMissing(headers: seq<HeaderRecord>, active: seq<StoredBlock>, side: seq<StoredBlock>)
    requires Missing(headers, active, side) == {}
    ensures forall k :: 0 <= k < |headers| ==> HashOfRecord(headers[k]) in KnownBodies(headers, active, side)
  {
    hide Known;
    forall k | 0 <= k < |headers|
      ensures HashOfRecord(headers[k]) in KnownBodies(headers, active, side)
    {
      assert HashOfRecord(headers[k]) in HashesOf(headers);
      assert HashOfRecord(headers[k]) !in Missing(headers, active, side);
    }
  }

  lemma {:induction false} FilledIsChain(t: Target, bodies: Bodies, b: seq<StoredBlock>, n: nat)
    requires Leads(t, b, n) && t.headers != [] && n + |t.headers| == |b| && Fits(bodies, b, n)
    requires forall k :: 0 <= k < |t.headers| ==> HashOfRecord(t.headers[k]) in bodies
    ensures HasBodies(t.headers, bodies) && Joined(t.prefix, t.headers, bodies) == b
  {
    hide Verified, Apart, Leads;
    LeadsParts(t, b, n);
    forall k | 0 <= k < |t.headers|
      ensures RecordOf(bodies[HashOfRecord(t.headers[k])]) == t.headers[k] && bodies[HashOfRecord(t.headers[k])] == b[n + k]
    {
      assert t.headers[k] == RecordOf(b[n + k]);
      assert HashOf(b[n + k]) in bodies;
    }
    JoinedIs(t.prefix, t.headers, bodies, b);
  }

  lemma {:induction false} JoinedIs(prefix: seq<StoredBlock>, headers: seq<HeaderRecord>, bodies: Bodies, b: seq<StoredBlock>)
    requires HasBodies(headers, bodies) && |b| == |prefix| + |headers| && prefix <= b
    requires forall k :: 0 <= k < |headers| ==> bodies[HashOfRecord(headers[k])] == b[|prefix| + k]
    ensures Joined(prefix, headers, bodies) == b
  {
    var full := Joined(prefix, headers, bodies);
    forall i | 0 <= i < |b|
      ensures full[i] == b[i]
    {
      if i >= |prefix| {
        assert full[i] == bodies[HashOfRecord(headers[i - |prefix|])];
        assert b[i] == b[|prefix| + (i - |prefix|)];
      }
    }
  }

  /** With all bodies of the chain filed, the attempt assembles exactly the chain and succeeds. */
  lemma {:induction false} AttemptCompletes(t: Target, bodies: Bodies, b: seq<StoredBlock>, n: nat, s: State, after: State,
                                            side: seq<StoredBlock>, left: seq<StoredBlock>, r: Result<Reply>)
    requires Attempt(t, bodies, s, after, side, left, FAVOURABLE, r) && Settled(s)
    requires Leads(t, b, n) && t.headers != [] && n + |t.headers| == |b| && Fits(bodies, b, n)
    requires forall k :: 0 <= k < |t.headers| ==> HashOfRecord(t.headers[k]) in bodies
    requires !FalseWork(t.height, t.work)
    ensures r.Ok? && r.value.Activated? && after == Activate(s, b, Saves).1
  {
    hide Verified, Settled, Activate, SideAfter, ChainWork, BlockProof, Leads, Fits, HasBodies, Joined, Apart;
    LeadsParts(t, b, n);
    FilledIsChain(t, bodies, b, n);
    VerifiedLink(b, |b| - 1);
    VerifiedWork(b);
    ActivatesExactlyLonger(s, b);
  }

  method FinishBodies(c: CandidateSync, b: seq<StoredBlock>, n: nat, chain: TestnetChain, side: SideBranchStore)
    returns (r: Result<Reply>, sent: seq<Message>)
    requires c.Valid() && Gathering(c.Current(), b, n) && Settled(chain.Current())
    requires !FalseWork(c.expectedHeight, c.expectedWork)
    modifies c, chain, side
    ensures r.Ok? && r.value.Activated? && !c.active
    ensures chain.Current() == Activate(old(chain.Current()), b, Saves).1
    ensures forall m :: m in sent ==> OfChain(m, b)
  {
    hide Settled, Activate, FalseWork, Leads, Fits, OfChain, Attempt;
    sent := [];
    ghost var s := chain.Current();
    while true
      invariant c.Valid() && Gathering(c.Current(), b, n) && Settled(chain.Current())
      invariant !FalseWork(c.expectedHeight, c.expectedWork) && chain.Current() == s
      invariant forall m :: m in sent ==> OfChain(m, b)
      decreases |c.pending|
    {
      var hash :| hash in c.pending;
      PendingIsOfChain(c, b, n, hash);
      var k := IndexOf(b, n, hash);
      ghost var (v, left) := (c.Current(), side.blocks);
      AllAccounted(c, b, n);
      r := c.OnBlock(b[k], chain, side, FAVOURABLE);
      BodyIsOfChain(b, k);
      sent := sent + [BlockBody(b[k])];
      BodyOutcome(v, c.Current(), b, n, k, s, chain.Current(), left, side.blocks, r);
      if !c.active {
        return;
      }
    }
  }

  method IndexOf(b: seq<StoredBlock>, n: nat, hash: Hash256) returns (k: nat)
    requires exists i :: n <= i < |b| && HashOf(b[i]) == hash
    ensures n <= k < |b| && HashOf(b[k]) == hash
  {
    k := n;
    while HashOf(b[k]) != hash
      invariant n <= k < |b| && forall i :: n <= i < k ==> HashOf(b[i]) != hash
      decreases |b| - k
    {
      k := k + 1;
    }
  }

  lemma {:induction false} BodyIsOfChain(b: seq<StoredBlock>, k: nat)
    requires k < |b|
    ensures OfChain(BlockBody(b[k]), b)
  {
  }

  lemma {:induction false} PendingIsOfChain(c: CandidateSync, b: seq<StoredBlock>, n: nat, hash: Hash256)
    requires c.Valid() && Gathering(c.Current(), b, n) && hash in c.pending
    ensures exists i :: n <= i < |b| && HashOf(b[i]) == hash
  {
    hide Verified, Continues, Covers, Apart, Fits;
    LeadsParts(c.Aim(), b, n);
    var k :| 0 <= k < |c.headers| && HashOfRecord(c.headers[k]) == hash;
    assert c.headers[k] == RecordOf(b[n + k]);
  }

  /** Every header's body is filed or asked for. */
  lemma {:induction false} AllAccounted(c: CandidateSync, b: seq<StoredBlock>, n: nat)
    requires c.Valid() && Gathering(c.Current(), b, n)
    ensures forall k :: 0 <= k < |c.headers| ==> HashOfRecord(c.headers[k]) in c.pending + c.blocks.Keys
  {
    hide Verified, Continues, Apart, Fits;
    LeadsParts(c.Aim(), b, n);
    forall k | 0 <= k < |c.headers|
      ensures HashOfRecord(c.headers[k]) in c.pending + c.blocks.Keys
    {
      assert c.headers[k] == RecordOf(b[n + k]);
      VerifiedLink(b, n + k);
    }
  }

  lemma {:induction false} NamedFirst(headers: seq<HeaderRecord>, hash: Hash256, from: nat, k: nat)
    requires from <= k < |headers| && HashOfRecord(headers[k]) == hash
    ensures HeaderNamed(headers, hash, from).Some?
    decreases k - from
  {
    if from < k {
      NamedFirst(headers, hash, from + 1, k);
    }
  }

  /** The chain's block is the one that its hash was announced with. */
  lemma {:induction false} BodyIsAnnounced(t: Target, b: seq<StoredBlock>, n: nat, k: nat)
    requires Leads(t, b, n) && t.headers != [] && n + |t.headers| == |b| && n <= k < |b|
    ensures HeaderNamed(t.headers, HashOf(b[k]), 0) == Some(RecordOf(b[k]))
  {
    hide Verified, HeaderNamed;
    LeadsParts(t, b, n);
    assert t.headers[k - n] == RecordOf(b[n + (k - n)]);
    NamedFirst(t.headers, HashOf(b[k]), 0, k - n);
    var found := HeaderNamed(t.headers, HashOf(b[k]), 0).value;
    var j :| 0 <= j < |t.headers| && t.headers[j] == found;
    assert found == RecordOf(b[n + j]);
  }

  lemma {:induction false} FiledFits(bodies: Bodies, b: seq<StoredBlock>, n: nat, k: nat)
    requires Fits(bodies, b, n) && Apart(b, n) && n <= k < |b|
    ensures Fits(bodies[HashOf(b[k]) := b[k]], b, n)
  {
    forall i | n <= i < |b| && HashOf(b[i]) == HashOf(b[k])
      ensures i == k
    {
      assert !(i < k) && !(k < i);
    }
  }

  /** A body of the chain brings the candidate on; the last one activates it. */
  lemma {:induction false} BodyOutcome(v: View, w: View, b: seq<StoredBlock>, n: nat, k: nat, s: State, after: State,
                                       side: seq<StoredBlock>, left: seq<StoredBlock>, r: Result<Reply>)
    requires Gathering(v, b, n) && v.aim.headers != [] && n <= k < |b| && HashOf(b[k]) in v.pending
    requires TakesBody(b[k], v, w, s, after, side, left, FAVOURABLE, r) && Settled(s)
    requires forall i :: 0 <= i < |v.aim.headers| ==> HashOfRecord(v.aim.headers[i]) in v.pending + v.bodies.Keys
    requires !FalseWork(v.aim.height, v.aim.work)
    ensures if w.active then Gathering(w, b, n) && w.aim == v.aim && |w.pending| < |v.pending| && after == s
            else r.Ok? && r.value.Activated? && after == Activate(s, b, Saves).1
  {
    hide Settled, FalseWork, Leads, Fits, Activate, Attempt, HeaderNamed, Put;
    LeadsParts(v.aim, b, n);
    BodyIsAnnounced(v.aim, b, n, k);
    FiledFits(v.bodies, b, n, k);
    var bodies := v.bodies[HashOf(b[k]) := b[k]];
    if v.pending == {HashOf(b[k])} {
      AttemptCompletes(v.aim, bodies, b, n, s, after, Put(side, b[k]), left, r);
    } else {
      var fewer := v.pending - {HashOf(b[k])};
      assert v.pending == fewer + {HashOf(b[k])} && |v.pending| == |fewer| + 1;
    }
  }
}
