/** What a session may forget: while its candidate's prefix is a part of the chain, no message makes the node forget a
    block (src/net.cpp, the session loop). */
module Retention {
  import opened Errors
  import opened Transactions
  import opened Blocks
  import opened Validation
  import opened Ledger
  import opened Locator
  import opened Headers
  import opened ChainState
  import opened TestnetChains
  import opened BranchStore
  import opened Sync
  import opened CandidateSteps

  /** The blocks of the chain and those of the side store, by their header hashes. */
  ghost function Remembered(s: State, side: seq<StoredBlock>): set<Hash256> {
    Hashes(s.blocks) + Hashes(side)
  }

  /** The candidate, if there is one, leaves the chain as it is now. */
  ghost predicate Grounded(v: View, s: State) {
    v.active ==> v.aim.prefix <= s.blocks
  }

  lemma {:induction false} AttemptRetains(v: View, bodies: Bodies, s: State, after: State, side: seq<StoredBlock>,
                                          left: seq<StoredBlock>, outside: Outside, r: Result<Reply>)
    requires |s.blocks| > 0 && v.active && Grounded(v, s) && Attempt(v.aim, bodies, s, after, side, left, outside, r)
    ensures v.aim.prefix <= after.blocks && Remembered(s, side) <= Remembered(after, left)
  {
    hide Hashes, Activate, SideAfter, ChainWork;
    AttemptForgets(v.aim, bodies, s, after, side, left, outside, r);
    if Fulfils(v.aim, bodies) && outside.loads {
      ActivationInstalls(s, Joined(v.aim.prefix, v.aim.headers, bodies), outside.save);
    }
  }

  lemma {:induction false} HeadersRetain(batch: seq<HeaderRecord>, v: View, w: View, s: State, after: State,
                                         side: seq<StoredBlock>, left: seq<StoredBlock>, outside: Outside, r: Result<Reply>)
    requires |s.blocks| > 0 && v.active && |v.aim.prefix| > 0 && Grounded(v, s)
    requires TakesHeaders(batch, v, w, s, after, side, left, outside, r)
    ensures Grounded(w, after) && Remembered(s, side) <= Remembered(after, left)
  {
    hide Remembered, Connects, Attempt, Following, Missing, KnownBodies;
    if Connects(v.aim, batch) {
      var longer := v.(aim := Extended(v.aim, batch));
      CutIsPrefix(v.aim, batch);
      var bodies := KnownBodies(longer.aim.headers, s.blocks, side);
      if Attempt(longer.aim, bodies, s, after, side, left, outside, r) {
        AttemptRetains(longer, bodies, s, after, side, left, outside, r);
      }
    }
  }

  lemma {:induction false} CutIsPrefix(t: Target, batch: seq<HeaderRecord>)
    requires Connects(t, batch) && |t.prefix| > 0
    ensures Extended(t, batch).prefix <= t.prefix
  {
    hide Following;
    if t.headers == [] {
      LastPlaceMeaning(t.prefix, batch[0].header.previousHash, |t.prefix|);
      var n := LastPlace(t.prefix, batch[0].header.previousHash, |t.prefix|).value + 1;
      assert Extended(t, batch).prefix == t.prefix[..n];
    }
  }

  lemma {:induction false} BodyRetains(stored: StoredBlock, v: View, w: View, s: State, after: State, side: seq<StoredBlock>,
                                       left: seq<StoredBlock>, outside: Outside, r: Result<Reply>)
    requires |s.blocks| > 0 && v.active && Grounded(v, s)
    requires TakesBody(stored, v, w, s, after, side, left, outside, r)
    ensures Grounded(w, after) && Remembered(s, side) <= Remembered(after, left)
    ensures r.Ok? ==> HashOf(stored) in Remembered(after, left)
  {
    hide Hashes, Put, Attempt;
    PutStores(side, stored);
    OneHash(stored);
    var bodies := v.bodies[HashOf(stored) := stored];
    if Attempt(v.aim, bodies, s, after, Put(side, stored), left, outside, r) {
      AttemptRetains(v, bodies, s, after, Put(side, stored), left, outside, r);
    }
  }

  lemma {:induction false} LooseRetains(stored: StoredBlock, v: View, s: State, after: State, side: seq<StoredBlock>,
                                        left: seq<StoredBlock>, save: SaveOutcome, r: Result<Reply>)
    requires |s.blocks| > 0 && Grounded(v, s) && TakesLoose(stored, s, after, side, left, save, r)
    ensures Grounded(v, after) && Remembered(s, side) <= Remembered(after, left)
    ensures r.Ok? ==> HashOf(stored) in Remembered(after, left)
  {
    hide Hashes, Put, Without, FindBlock, Append;
    PutStores(side, stored);
    OneHash(stored);
    FoundIsStored(s.blocks, HashOf(stored));
    JoinedHashes(s.blocks, [stored]);
    AppendsOrNot(s, stored, save);
    WithoutStores(side, Hashes(after.blocks), |side|);
    assert side[..|side|] == side;
  }

  lemma {:induction false} AppendsOrNot(s: State, stored: StoredBlock, save: SaveOutcome)
    requires |s.blocks| > 0
    ensures var (r, after) := Append(s, [stored], save);
            if r.Ok? then after.blocks == s.blocks + [stored] else after == s
  {
    hide Verify;
  }

  /** No message makes the node forget a block, and a block that is taken in without failure is remembered. */
  lemma {:induction false} MessageRetains(message: Message, v: View, w: View, s: State, after: State, side: seq<StoredBlock>,
                                          left: seq<StoredBlock>, outside: Outside, r: Result<Reply>)
    requires Handles(message, v, w, s, after, side, left, outside, r) && Grounded(v, s)
    ensures Grounded(w, after) && Remembered(s, side) <= Remembered(after, left)
    ensures message.BlockBody? && r.Ok? ==> HashOf(message.stored) in Remembered(after, left)
  {
    hide Remembered, TakesHeaders, TakesBody, TakesLoose, Promising;
    match message
    case Status(_, _, _) =>
    case HeaderBatch(batch) =>
      if v.active {
        HeadersRetain(batch, v, w, s, after, side, left, outside, r);
      }
    case BlockBody(stored) =>
      if v.active && HashOf(stored) in v.pending {
        BodyRetains(stored, v, w, s, after, side, left, outside, r);
      } else {
        LooseRetains(stored, v, s, after, side, left, outside.save, r);
      }
  }
}
