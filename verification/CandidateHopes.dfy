/** Which chain a candidate may still become: a candidate without such a chain never succeeds, whatever comes
    (src/net.cpp, session_loop). */
module CandidateHopes {
  import opened Errors
  import opened Transactions
  import opened Blocks
  import opened Validation
  import opened Ledger
  import opened Locator
  import opened Headers
  import opened ChainState
  import opened BranchStore
  import opened Sync
  import opened CandidateSteps

  /** A verified chain of the announced height and tip, whose first n blocks are those of the prefix and whose next
      records are the headers. Above the prefix no two of its blocks share a header hash. */
  ghost predicate Leads(t: Target, b: seq<StoredBlock>, n: nat) {
    && Verified(b) && |b| == t.height + 1 && HashOf(b[t.height]) == t.tip
    && 0 < n <= |t.prefix| && n < |b| && b[..n] == t.prefix[..n]
    && (t.headers != [] ==>
          n == |t.prefix| && n + |t.headers| <= |b| && t.headers == RecordsOf(b, n, n + |t.headers|))
    && Apart(b, n)
  }

  ghost predicate Apart(b: seq<StoredBlock>, n: nat) {
    forall i, j :: n <= i < j < |b| ==> HashOf(b[i]) != HashOf(b[j])
  }

  /** The bodies that are filed under the hashes of its blocks are its blocks. */
  ghost predicate Fits(bodies: Bodies, b: seq<StoredBlock>, n: nat) {
    forall k :: n <= k < |b| && HashOf(b[k]) in bodies ==> bodies[HashOf(b[k])] == b[k]
  }

  ghost predicate Promised(v: View, b: seq<StoredBlock>, n: nat) {
    Leads(v.aim, b, n) && Fits(v.bodies, b, n) && ChainWork(b) == Ok(v.aim.work)
  }

  /** There is a chain that the candidate may become. */
  ghost predicate Hopeful(v: View) {
    exists b, n :: Promised(v, b, n)
  }

  /** What every candidate keeps, as far as it is needed here. */
  ghost predicate Sound(v: View) {
    && |v.aim.prefix| > 0 && Verified(v.aim.prefix)
    && Continues(RecordOf(v.aim.prefix[|v.aim.prefix| - 1]), v.aim.headers)
    && v.pending !! v.bodies.Keys
    && (v.pending != {} || v.bodies != map[] ==>
          |v.aim.headers| > 0 && v.aim.headers[|v.aim.headers| - 1].height >= v.aim.height)
  }

  ghost predicate Within(fewer: Bodies, more: Bodies) {
    forall h :: h in fewer ==> h in more && more[h] == fewer[h]
  }

  lemma {:induction false} FewerBodies(v: View, bodies: Bodies, b: seq<StoredBlock>, n: nat)
    requires Within(v.bodies, bodies) && Promised(v.(bodies := bodies), b, n)
    ensures Promised(v, b, n)
  {
    hide Leads, ChainWork;
  }

  /** A chain that the longer candidate may become is one that the shorter candidate may become. */
  lemma {:induction false} LeadsBack(t: Target, batch: seq<HeaderRecord>, b: seq<StoredBlock>, n: nat)
    requires |t.prefix| > 0 && Connects(t, batch) && Leads(Extended(t, batch), b, n)
    ensures Leads(t, b, n)
  {
    hide Verified, Continues, LastPlace, Following, WorkShown, Apart;
    var longer := Extended(t, batch);
    assert longer.prefix == t.prefix[..|longer.prefix|];
    assert b[..n] == longer.prefix[..n] == t.prefix[..n];
    if t.headers != [] {
      var m := |t.headers|;
      assert longer.headers[..m] == t.headers;
      assert RecordsOf(b, n, n + |longer.headers|)[..m] == RecordsOf(b, n, n + m);
    }
  }

  lemma {:induction false} ActivatedIsVerified(s: State, candidate: seq<StoredBlock>, save: SaveOutcome)
    requires Activate(s, candidate, save).0.Ok?
    ensures Verified(candidate)
  {
    hide VerifyPrefix, GenesisLocked, ChainWork, Common, Lost;
  }

  lemma {:induction false} JoinedIsApart(prefix: seq<StoredBlock>, headers: seq<HeaderRecord>, bodies: Bodies)
    requires HasBodies(headers, bodies) && Verified(Joined(prefix, headers, bodies))
    ensures var b := Joined(prefix, headers, bodies);
            Apart(b, |prefix|) && headers == RecordsOf(b, |prefix|, |b|) && b[..|prefix|] == prefix
  {
    hide Verified;
    var (b, n) := (Joined(prefix, headers, bodies), |prefix|);
    forall i, j | n <= i < j < |b|
      ensures HashOf(b[i]) != HashOf(b[j])
    {
      VerifiedLink(b, i);
      VerifiedLink(b, j);
      assert RecordOf(b[n + (i - n)]) == headers[i - n] && RecordOf(b[n + (j - n)]) == headers[j - n];
    }
  }

  lemma {:induction false} JoinedFits(prefix: seq<StoredBlock>, headers: seq<HeaderRecord>, fewer: Bodies, bodies: Bodies)
    requires HasBodies(headers, bodies) && Within(fewer, bodies)
    ensures Fits(fewer, Joined(prefix, headers, bodies), |prefix|)
  {
    var (b, n) := (Joined(prefix, headers, bodies), |prefix|);
    forall k | n <= k < |b| && HashOf(b[k]) in fewer
      ensures fewer[HashOf(b[k])] == b[k]
    {
      assert RecordOf(b[n + (k - n)]) == headers[k - n];
      assert b[k] == bodies[HashOfRecord(headers[k - n])];
    }
  }

  /** An attempt that succeeds has found such a chain. */
  lemma {:induction false} SuccessWasPromised(v: View, bodies: Bodies, s: State, outside: Outside)
    requires |v.aim.prefix| > 0 && |v.aim.headers| > 0 && Within(v.bodies, bodies) && Succeeds(v.aim, bodies, s, outside)
    ensures Hopeful(v)
  {
    hide Verified, Activate, ChainWork, HasBodies, Joined, Apart, Fits, Within;
    var (prefix, headers) := (v.aim.prefix, v.aim.headers);
    var (b, n) := (Joined(prefix, headers, bodies), |prefix|);
    ActivatedIsVerified(s, b, outside.save);
    JoinedIsApart(prefix, headers, bodies);
    JoinedFits(prefix, headers, v.bodies, bodies);
    VerifiedLink(b, |b| - 1);
    assert Promised(v, b, n);
  }

  /** A batch that follows as a whole leads above the height at which bodies are requested. */
  lemma {:induction false} WholeBatchRises(v: View, batch: seq<HeaderRecord>)
    requires Sound(v) && Connects(v.aim, batch)
    requires |Extended(v.aim, batch).headers| == |v.aim.headers| + |batch| && AtTip(Extended(v.aim, batch))
    ensures v.pending == {} && v.bodies == map[]
  {
    hide Verified, Continues, LastPlace, WorkShown;
    var t := v.aim;
    if t.headers != [] {
      FollowingStops(RecordOf(t.prefix[|t.prefix| - 1]), t.headers, batch);
      assert batch[..|batch|] == batch;
      LastRises(RecordOf(t.prefix[|t.prefix| - 1]), t.headers, batch);
    }
  }

  /** A candidate without a chain to become stays without one, and is never activated. */
  lemma {:induction false} HopelessStays(message: Message, v: View, w: View, s: State, after: State, side: seq<StoredBlock>,
                                         left: seq<StoredBlock>, outside: Outside, r: Result<Reply>)
    requires Handles(message, v, w, s, after, side, left, outside, r)
    requires v.active && Sound(v) && !Hopeful(v)
    ensures w.active && !Hopeful(w)
  {
    hide Sound, Hopeful, TakesHeaders, TakesBody, TakesLoose, TakesStatus;
    match message
    case Status(height, tip, work) => StatusLeaves(height, tip, work, v, w, s, r);
    case HeaderBatch(batch) => HeadersKeepHopeless(batch, v, w, s, after, side, left, outside, r);
    case BlockBody(stored) =>
      if HashOf(stored) in v.pending {
        BodyKeepsHopeless(stored, v, w, s, after, side, left, outside, r);
      }
  }

  lemma {:induction false} StatusLeaves(height: u64, tip: Hash256, work: Hash256, v: View, w: View, s: State, r: Result<Reply>)
    requires 0 < |s.blocks| <= TWO_32 && v.active && TakesStatus(height, tip, work, v, w, s, r)
    ensures w == v
  {
    hide Promising, LocatorOf;
  }

  lemma {:induction false} HeadersKeepHopeless(batch: seq<HeaderRecord>, v: View, w: View, s: State, after: State,
                                               side: seq<StoredBlock>, left: seq<StoredBlock>, outside: Outside,
                                               r: Result<Reply>)
    requires |v.aim.prefix| > 0 && TakesHeaders(batch, v, w, s, after, side, left, outside, r)
    requires v.active && Sound(v) && !Hopeful(v)
    ensures w.active && !Hopeful(w)
  {
    hide Connects, Extended, Reacts, Sound, Promised;
    if Connects(v.aim, batch) {
      var longer := v.(aim := Extended(v.aim, batch));
      if Hopeful(longer) {
        var b, n :| Promised(longer, b, n);
        PromisedBack(v, batch, b, n);
      }
      if |longer.aim.headers| == |v.aim.headers| + |batch| {
        ConnectingIsRead(v.aim, batch);
        if AtTip(longer.aim) {
          WholeBatchRises(v, batch);
          LongerIsSound(v, batch);
        }
        ReactingKeepsHopeless(longer, w, s, after, side, left, outside, r);
      }
    }
  }

  lemma {:induction false} PromisedBack(v: View, batch: seq<HeaderRecord>, b: seq<StoredBlock>, n: nat)
    requires |v.aim.prefix| > 0 && Connects(v.aim, batch) && Promised(v.(aim := Extended(v.aim, batch)), b, n)
    ensures Promised(v, b, n)
  {
    hide Connects, Extended, Leads, Fits, ChainWork;
    LeadsBack(v.aim, batch, b, n);
  }

  lemma {:induction false} ReactingKeepsHopeless(v: View, w: View, s: State, after: State, side: seq<StoredBlock>,
                                                 left: seq<StoredBlock>, outside: Outside, r: Result<Reply>)
    requires |v.aim.headers| > 0 && Reacts(v, w, s, after, side, left, outside, r) && v.active && !Hopeful(v)
    requires AtTip(v.aim) ==> Sound(v) && v.bodies == map[]
    ensures w.active && !Hopeful(w)
  {
    hide Sound, Gathers, Promised;
    if AtTip(v.aim) {
      GatheringKeepsHopeless(v, w, s, after, side, left, outside, r);
    }
  }

  lemma {:induction false} LongerIsSound(v: View, batch: seq<HeaderRecord>)
    requires Sound(v) && Connects(v.aim, batch) && v.pending == {} && v.bodies == map[]
    ensures Sound(v.(aim := Extended(v.aim, batch)))
  {
    hide Verified, VerifyPrefix, Verify, Continues, LastPlace, WorkShown, AtTip;
    var t := v.aim;
    var prefix := Cut(t, batch);
    PrefixOfVerified(t.prefix, |prefix|);
    assert t.prefix[..|t.prefix|] == t.prefix;
    if t.headers == [] {
      NothingContinues(RecordOf(prefix[|prefix| - 1]));
    }
    FollowingStops(RecordOf(prefix[|prefix| - 1]), t.headers, batch);
  }

  lemma {:induction false} GatheringKeepsHopeless(v: View, w: View, s: State, after: State, side: seq<StoredBlock>,
                                                  left: seq<StoredBlock>, outside: Outside, r: Result<Reply>)
    requires Gathers(v, w, s, after, side, left, outside, r) && v.active && v.bodies == map[]
    requires Sound(v) && |v.aim.headers| > 0 && !Hopeful(v)
    ensures w.active && !Hopeful(w)
  {
    hide Verified, Continues, Leads, Fits, ChainWork, Attempt, KnownBodies, Missing, Promised, Succeeds;
    var bodies := KnownBodies(v.aim.headers, s.blocks, side);
    if outside.loads && Missing(v.aim.headers, s.blocks, side) == {} {
      AttemptOutcome(v.aim, bodies, s, after, side, left, outside, r);
      if r.Ok? {
        SuccessWasPromised(v, bodies, s, outside);
      }
    }
    if Hopeful(w) {
      var b, n :| Promised(w, b, n);
      SameAim(w, v.(bodies := w.bodies), b, n);
      FewerBodies(v, w.bodies, b, n);
    }
  }

  lemma {:induction false} SameAim(v: View, w: View, b: seq<StoredBlock>, n: nat)
    requires v.aim == w.aim && v.bodies == w.bodies && Promised(v, b, n)
    ensures Promised(w, b, n)
  {
    hide Leads, Fits, ChainWork;
  }

  lemma {:induction false} BodyKeepsHopeless(stored: StoredBlock, v: View, w: View, s: State, after: State,
                                             side: seq<StoredBlock>, left: seq<StoredBlock>, outside: Outside,
                                             r: Result<Reply>)
    requires TakesBody(stored, v, w, s, after, side, left, outside, r) && HashOf(stored) in v.pending
    requires v.active && Sound(v) && !Hopeful(v)
    ensures w.active && !Hopeful(w)
  {
    hide Leads, Fits, ChainWork, Attempt, Promised, Succeeds, Verified, Continues, Put;
    var bodies := v.bodies[HashOf(stored) := stored];
    if HeaderNamed(v.aim.headers, HashOf(stored), 0) == Some(RecordOf(stored)) && v.pending == {HashOf(stored)} {
      AttemptOutcome(v.aim, bodies, s, after, Put(side, stored), left, outside, r);
      if r.Ok? {
        SuccessWasPromised(v, bodies, s, outside);
      }
    }
    if Hopeful(w) {
      var b, n :| Promised(w, b, n);
      SameAim(w, v.(bodies := w.bodies), b, n);
      FewerBodies(v, w.bodies, b, n);
    }
  }

  /** Headers that miss the announced tip, and work that is false, leave no hope. */
  lemma {:induction false} NoHope(v: View)
    requires FalseWork(v.aim.height, v.aim.work) ||
             (|v.aim.headers| > 0 && v.aim.headers[|v.aim.headers| - 1].height >= v.aim.height && !AtTip(v.aim))
    ensures !Hopeful(v)
  {
    hide Promised, FalseWork, AtTip;
    forall b: seq<StoredBlock>, n: nat | Promised(v, b, n)
      ensures false
    {
      PromisedIsTrue(v, b, n);
    }
  }

  lemma {:induction false} PromisedIsTrue(v: View, b: seq<StoredBlock>, n: nat)
    requires Promised(v, b, n)
    ensures !FalseWork(v.aim.height, v.aim.work)
    ensures |v.aim.headers| > 0 && v.aim.headers[|v.aim.headers| - 1].height >= v.aim.height ==> AtTip(v.aim)
  {
    hide Verified, ChainWork, BlockProof, Apart, Fits;
    VerifiedWork(b);
    if |v.aim.headers| > 0 {
      var m := |v.aim.headers|;
      assert v.aim.headers[m - 1] == RecordOf(b[n + (m - 1)]);
      VerifiedLink(b, n + m - 1);
    }
  }
}
