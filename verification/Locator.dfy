/** Block locators: the exponentially thinning list of hashes by which a node shows where its chain is, and how the
    other side finds the fork (src/net.cpp). */
module Locator {
  import opened Arithmetic
  import opened Errors
  import opened Transactions
  import opened Blocks
  import opened Validation
  import opened Ledger
  import opened Identity

  const MAX_LOCATOR := 101

  function Double(step: nat, count: nat): nat {
    if count > 10 then step * 2 else step
  }

  /** The indices still to be listed, when count have been listed before this one. */
  ghost function Indices(index: nat, step: nat, count: nat): (r: seq<nat>)
    requires step > 0
    ensures |r| > 0 && r[0] == index
    decreases index
  {
    if index == 0 || count + 1 >= MAX_LOCATOR then [index] else
    var next := Double(step, count + 1);
    [index] + Indices(if index > next then index - next else 0, next, count + 1)
  }

  ghost function HashesAt(blocks: seq<StoredBlock>, indices: seq<nat>): (r: seq<Hash256>)
    requires AllBelow(indices, |blocks|)
    ensures |r| == |indices|
  {
    if indices == [] then [] else [HashOf(blocks[indices[0]])] + HashesAt(blocks, indices[1..])
  }

  lemma {:induction false} HashAt(blocks: seq<StoredBlock>, indices: seq<nat>, k: nat)
    requires AllBelow(indices, |blocks|) && k < |indices|
    ensures HashesAt(blocks, indices)[k] == HashOf(blocks[indices[k]])
  {
    if k > 0 {
      HashAt(blocks, indices[1..], k - 1);
    }
  }

  // ---------------------------------------------------------------- shape

  ghost predicate Descends(indices: seq<nat>) {
    forall j, k :: 0 <= j < k < |indices| ==> indices[j] > indices[k]
  }

  lemma {:induction false} IndicesDescend(index: nat, step: nat, count: nat)
    requires step > 0
    ensures Descends(Indices(index, step, count))
    ensures forall k :: 0 <= k < |Indices(index, step, count)| ==> Indices(index, step, count)[k] <= index
    decreases index
  {
    if index > 0 && count + 1 < MAX_LOCATOR {
      var next := Double(step, count + 1);
      IndicesDescend(if index > next then index - next else 0, next, count + 1);
    }
  }

  lemma {:induction false} Pow2Of64()
    ensures Pow2(64) == TWO_64
  {
    assert Pow2(4) == 16;
    Pow2Adds(4, 4);
    Pow2Adds(8, 8);
    Pow2Adds(16, 16);
    Pow2Adds(32, 32);
  }

  /** Once the step doubles, what is left of the index and the next step together never exceed 2^64, so genesis is
      reached before the step can wrap and within 74 entries. */
  lemma {:induction false} DoublingReachesGenesis(index: nat, step: nat, count: nat)
    requires 10 <= count <= 73 && step == Pow2(count - 10)
    requires index + Pow2(count - 9) <= TWO_64
    ensures var r := Indices(index, step, count);
            |r| <= 74 - count && r[|r| - 1] == 0
    decreases index
  {
    Pow2Of64();
    if index > 0 && count < 73 {
      var next := Double(step, count + 1);
      assert next == Pow2(count - 9) && Pow2(count - 8) == 2 * next;
      Pow2Grows(count - 8, 64);
      DoublingReachesGenesis(if index > next then index - next else 0, next, count + 1);
    }
  }

  lemma {:induction false} UnitStepsReachGenesis(index: nat, count: nat)
    requires count <= 10 && index < TWO_64
    requires count == 10 ==> index + 2 <= TWO_64
    ensures var r := Indices(index, 1, count);
            |r| <= 74 - count && r[|r| - 1] == 0
    decreases 10 - count
  {
    if count == 10 {
      assert Pow2(0) == 1 && Pow2(1) == 2;
      DoublingReachesGenesis(index, 1, 10);
    } else if index > 0 {
      UnitStepsReachGenesis(index - 1, count + 1);
    }
  }

  /** For any chain that 64-bit indices can address the locator starts at the tip, strictly descends, ends at genesis
      and has at most 101 entries, in fact at most 74. */
  lemma {:induction false} LocatorShape(n: nat)
    requires 0 < n <= TWO_64
    ensures var r := Indices(n - 1, 1, 0);
            && r[0] == n - 1
            && Descends(r)
            && r[|r| - 1] == 0
            && |r| <= 74
            && AllBelow(r, n)
  {
    IndicesDescend(n - 1, 1, 0);
    UnitStepsReachGenesis(n - 1, 0);
  }

  /** The indices a chain of n blocks lists. */
  ghost function LocatorIndices(n: nat): (r: seq<nat>)
    requires 0 < n <= TWO_64
    ensures AllBelow(r, n)
  {
    LocatorShape(n);
    Indices(n - 1, 1, 0)
  }

  ghost function LocatorOf(blocks: seq<StoredBlock>): seq<Hash256>
    requires |blocks| <= TWO_64
  {
    if blocks == [] then [] else HashesAt(blocks, LocatorIndices(|blocks|))
  }

  /** The hashes still to be listed. */
  ghost function Listing(blocks: seq<StoredBlock>, index: nat, step: nat, count: nat): seq<Hash256>
    requires index < |blocks| && step > 0
    decreases index
  {
    if index == 0 || count + 1 >= MAX_LOCATOR then [HashOf(blocks[index])] else
    var next := Double(step, count + 1);
    [HashOf(blocks[index])] + Listing(blocks, if index > next then index - next else 0, next, count + 1)
  }

  lemma {:induction false} ListingIsHashes(blocks: seq<StoredBlock>, index: nat, step: nat, count: nat)
    requires index < |blocks| && step > 0 && AllBelow(Indices(index, step, count), |blocks|)
    ensures Listing(blocks, index, step, count) == HashesAt(blocks, Indices(index, step, count))
    decreases index
  {
    hide HashOf;
    var indices := Indices(index, step, count);
    if index > 0 && count + 1 < MAX_LOCATOR {
      var next := Double(step, count + 1);
      var below := if index > next then index - next else 0;
      assert indices[1..] == Indices(below, next, count + 1);
      ListingIsHashes(blocks, below, next, count + 1);
    }
  }

  method ThinOut(blocks: seq<StoredBlock>) returns (locator: seq<Hash256>)
    requires |blocks| > 0
    ensures locator == Listing(blocks, |blocks| - 1, 1, 0)
  {
    hide Listing, HashOf;
    ghost var all := Listing(blocks, |blocks| - 1, 1, 0);
    locator := [];
    var index: nat := |blocks| - 1;
    var step: nat := 1;
    while true
      invariant index < |blocks| && step > 0
      invariant all == locator + Listing(blocks, index, step, |locator|)
      decreases index
    {
      ListingNext(locator, blocks, index, step);
      locator := locator + [HashOf(blocks[index])];
      if index == 0 || |locator| >= MAX_LOCATOR {
        break;
      }
      step := Double(step, |locator|);
      index := if index > step then index - step else 0;
    }
  }

  method MakeBlockLocator(blocks: seq<StoredBlock>) returns (locator: seq<Hash256>)
    requires |blocks| <= TWO_64
    ensures locator == LocatorOf(blocks)
  {
    if |blocks| == 0 {
      return [];
    }
    hide Listing, HashesAt, LocatorIndices;
    ListingEndsAtGenesis(blocks);
    locator := ThinOut(blocks);
    var genesis := HashOf(blocks[0]);
    if locator[|locator| - 1] != genesis {
      locator := locator + [genesis];
    }
  }

  lemma {:induction false} ListingNext(front: seq<Hash256>, blocks: seq<StoredBlock>, index: nat, step: nat)
    requires index < |blocks| && step > 0
    ensures var (whole, listed) := (front + Listing(blocks, index, step, |front|), front + [HashOf(blocks[index])]);
            var next := Double(step, |listed|);
            whole == if index == 0 || |listed| >= MAX_LOCATOR then listed
                     else listed + Listing(blocks, if index > next then index - next else 0, next, |listed|)
  {
  }

  lemma {:induction false} ListingEndsAtGenesis(blocks: seq<StoredBlock>)
    requires 0 < |blocks| <= TWO_64
    ensures var all := Listing(blocks, |blocks| - 1, 1, 0);
            all == LocatorOf(blocks) && |all| > 0 && all[|all| - 1] == HashOf(blocks[0])
  {
    LocatorShape(|blocks|);
    ListingIsHashes(blocks, |blocks| - 1, 1, 0);
    HashAt(blocks, LocatorIndices(|blocks|), |LocatorIndices(|blocks|)| - 1);
  }

  ghost predicate AllBelow(indices: seq<nat>, n: nat) {
    forall k :: 0 <= k < |indices| ==> indices[k] < n
  }

  // ---------------------------------------------------------------- how it thins out

  /** How far below the tip the k-th entry lies, unless genesis comes first: one step at a time to the tenth, then in
      steps that double. */
  function Distance(k: nat): nat {
    if k <= 10 then k else 8 + Pow2(k - 9)
  }

  function Clipped(tip: nat, distance: nat): nat {
    if tip > distance then tip - distance else 0
  }

  lemma {:induction false} IndicesAt(tip: nat, count: nat, k: nat)
    requires var step := if count <= 10 then 1 else Pow2(count - 10);
             k < |Indices(Clipped(tip, Distance(count)), step, count)|
    ensures var step := if count <= 10 then 1 else Pow2(count - 10);
            Indices(Clipped(tip, Distance(count)), step, count)[k] == Clipped(tip, Distance(count + k))
    decreases k
  {
    if k > 0 {
      assert Pow2(1) == 2 && Pow2(2) == 4;
      IndicesAt(tip, count + 1, k - 1);
    }
  }

  /** Every entry of the locator in closed form. */
  lemma {:induction false} LocatorEntries(blocks: seq<StoredBlock>, k: nat)
    requires 0 < |blocks| <= TWO_64 && k < |Indices(|blocks| - 1, 1, 0)|
    ensures k < |LocatorOf(blocks)| && Clipped(|blocks| - 1, Distance(k)) < |blocks|
    ensures LocatorOf(blocks)[k] == HashOf(blocks[Clipped(|blocks| - 1, Distance(k))])
  {
    hide Indices, Pow2;
    IndicesAt(|blocks| - 1, 0, k);
    LocatorShape(|blocks|);
    HashAt(blocks, Indices(|blocks| - 1, 1, 0), k);
  }

  // ---------------------------------------------------------------- finding the fork

  /** The highest place below n where the hash stands. */
  ghost function LastPlace(blocks: seq<StoredBlock>, hash: Hash256, n: nat): (place: Option<nat>)
    requires n <= |blocks|
    ensures place.Some? ==> place.value < n && HashOf(blocks[place.value]) == hash
  {
    if n == 0 then None
    else if HashOf(blocks[n - 1]) == hash then Some(n - 1)
    else LastPlace(blocks, hash, n - 1)
  }

  /** The first listed hash that the chain knows decides; without any, genesis does. */
  ghost function LocateFork(blocks: seq<StoredBlock>, locator: seq<Hash256>): nat {
    if locator == [] then 0
    else if LastPlace(blocks, locator[0], |blocks|).Some? then LastPlace(blocks, locator[0], |blocks|).value
    else LocateFork(blocks, locator[1..])
  }

  method LocateForkIndex(blocks: seq<StoredBlock>, locator: seq<Hash256>) returns (fork: nat)
    ensures fork == LocateFork(blocks, locator)
  {
    for i := 0 to |locator|
      invariant LocateFork(blocks, locator) == LocateFork(blocks, locator[i..])
    {
      assert locator[i..][1..] == locator[i + 1..];
      var index: nat := |blocks|;
      while index > 0
        invariant index <= |blocks|
        invariant LastPlace(blocks, locator[i], |blocks|) == LastPlace(blocks, locator[i], index)
      {
        index := index - 1;
        if HashOf(blocks[index]) == locator[i] {
          return index;
        }
      }
    }
    return 0;
  }

  lemma {:induction false} LastPlaceMeaning(blocks: seq<StoredBlock>, hash: Hash256, n: nat)
    requires n <= |blocks|
    ensures match LastPlace(blocks, hash, n)
            case None => forall k :: 0 <= k < n ==> HashOf(blocks[k]) != hash
            case Some(p) => p < n && HashOf(blocks[p]) == hash && forall k :: p < k < n ==> HashOf(blocks[k]) != hash
  {
    if n > 0 {
      LastPlaceMeaning(blocks, hash, n - 1);
    }
  }

  // ---------------------------------------------------------------- quality

  /** Every index is reached in a step that at most doubles its distance from the tip, plus two. */
  lemma {:induction false} FirstBelow(index: nat, step: nat, count: nat, tip: nat, c: nat, place: nat)
    requires step > 0 && index <= tip && c < index
    requires if count >= 10 then 2 * step <= tip - index + 2 else step == 1
    requires var r := Indices(index, step, count);
             && place < |r| && r[place] <= c
             && forall k :: 0 <= k < place ==> r[k] > c
    ensures tip - Indices(index, step, count)[place] <= 2 * (tip - c)
    decreases index
  {
    if count + 1 < MAX_LOCATOR {
      var next := Double(step, count + 1);
      var below := if index > next then index - next else 0;
      assert tip - below <= 2 * (tip - index + 1);
      var rest := Indices(below, next, count + 1);
      assert Indices(index, step, count)[1..] == rest;
      if below > c {
        FirstBelow(below, next, count + 1, tip, c, place - 1);
      } else {
        assert rest[0] == below;
      }
    }
  }

  /** Whether a hash of chain a stands in chain b depends only on being at or below the fork. */
  lemma {:induction false} KnownUpToFork(a: seq<StoredBlock>, b: seq<StoredBlock>, i: nat)
    requires Verified(a) && Verified(b) && HeadersApart(a, b) && SharesHash(a, b, 1) && i < |a|
    ensures LastPlace(b, HashOf(a[i]), |b|) == if i <= ForkPoint(a, b, 1) then Some(i) else None
  {
    hide Verified, LastPlace, ForkPoint;
    LastPlaceMeaning(b, HashOf(a[i]), |b|);
    var (place, fork) := (LastPlace(b, HashOf(a[i]), |b|), ForkPoint(a, b, 1));
    assert i <= fork ==> HashOf(b[i]) == HashOf(a[i]);
    if place.Some? {
      NothingSharedBeyondFork(a, b, i, place.value);
    }
  }

  /** On a descending list of a's hashes that ends at genesis, the search finds the first index at or below the fork. */
  lemma {:induction false} LocatesFirstShared(a: seq<StoredBlock>, b: seq<StoredBlock>, indices: seq<nat>)
    returns (place: nat)
    requires Verified(a) && Verified(b) && HeadersApart(a, b) && SharesHash(a, b, 1)
    requires |indices| > 0 && indices[|indices| - 1] == 0
    requires AllBelow(indices, |a|)
    ensures place < |indices| && indices[place] <= ForkPoint(a, b, 1)
    ensures forall k :: 0 <= k < place ==> indices[k] > ForkPoint(a, b, 1)
    ensures LocateFork(b, HashesAt(a, indices)) == indices[place]
  {
    hide Verified, LastPlace, ForkPoint;
    KnownUpToFork(a, b, indices[0]);
    var locator := HashesAt(a, indices);
    if indices[0] <= ForkPoint(a, b, 1) {
      place := 0;
    } else {
      var rest := LocatesFirstShared(a, b, indices[1..]);
      place := rest + 1;
    }
  }

  /** The server's guess is a block both chains share, never above the true fork, and at most twice as far below the
      client's tip as the fork is. */
  lemma {:induction false} LocatorQuality(a: seq<StoredBlock>, b: seq<StoredBlock>)
    requires Verified(a) && Verified(b) && HeadersApart(a, b) && SharesHash(a, b, 1)
    ensures |a| <= TWO_64
    ensures var (tip, c) := (|a| - 1, ForkPoint(a, b, 1));
            var f := LocateFork(b, LocatorOf(a));
            && f <= c && f < |b| && HashOf(a[f]) == HashOf(b[f])
            && tip - f <= 2 * (tip - c)
  {
    hide Verified, ForkPoint, LocateFork;
    var (tip, c) := (|a| - 1, ForkPoint(a, b, 1));
    VerifiedLength(a);
    LocatorShape(|a|);
    var place := LocatesFirstShared(a, b, LocatorIndices(|a|));
    if c < tip {
      FirstBelow(tip, 1, 0, tip, c, place);
    }
  }
}
