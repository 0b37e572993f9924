/** Merkle roots with odd-level duplication (src/merkle.cpp) and what they identify. */
module Merkle {
  import opened Arithmetic
  import opened Errors
  import opened Transactions

  /** Double SHA-256 of two concatenated digests, left uninterpreted. */
  const PairHash: (Hash256, Hash256) -> Hash256

  /** An odd level repeats its last hash. */
  function Pad(level: seq<Hash256>): (padded: seq<Hash256>)
    requires |level| > 0
    ensures |padded| % 2 == 0 && |level| <= |padded| <= |level| + 1
    ensures level <= padded
  {
    if |level| % 2 != 0 then level + [level[|level| - 1]] else level
  }

  function NextLevel(level: seq<Hash256>): (next: seq<Hash256>)
    requires |level| > 0
    ensures |next| == |Pad(level)| / 2
    ensures forall i :: 0 <= i < |next| ==> next[i] == PairHash(Pad(level)[2 * i], Pad(level)[2 * i + 1])
  {
    var padded := Pad(level);
    seq(|padded| / 2, i requires 0 <= i < |padded| / 2 => PairHash(padded[2 * i], padded[2 * i + 1]))
  }

  function Root(level: seq<Hash256>): Hash256
    requires |level| > 0
    decreases |level|
  {
    if |level| == 1 then level[0] else Root(NextLevel(level))
  }

  function TxIds(transactions: seq<Transaction>): (ids: seq<Hash256>)
    ensures |ids| == |transactions|
    ensures forall i :: 0 <= i < |ids| ==> ids[i] == TxId(transactions[i])
  {
    seq(|transactions|, i requires 0 <= i < |transactions| => TxId(transactions[i]))
  }

  ghost function MerkleRoot(transactions: seq<Transaction>): Result<Hash256> {
    if transactions == [] then Err(BadArgument)
    else if exists i :: 0 <= i < |transactions| && !StructureValid(transactions[i]) then Err(BadStructure)
    else Ok(Root(TxIds(transactions)))
  }

  method PairLevel(level: seq<Hash256>) returns (next: seq<Hash256>)
    requires |level| > 0
    ensures next == NextLevel(level)
  {
    var padded := level;
    if |level| % 2 != 0 {
      padded := padded + [level[|level| - 1]];
    }
    next := [];
    for index := 0 to |padded| / 2
      invariant next == NextLevel(level)[..index]
    {
      next := next + [PairHash(padded[2 * index], padded[2 * index + 1])];
    }
    assert next == NextLevel(level);
  }

  method LeafHashes(transactions: seq<Transaction>) returns (r: Result<seq<Hash256>>)
    ensures r == if exists i :: 0 <= i < |transactions| && !StructureValid(transactions[i]) then Err(BadStructure)
                 else Ok(TxIds(transactions))
  {
    var level: seq<Hash256> := [];
    for i := 0 to |transactions|
      invariant forall k :: 0 <= k < i ==> StructureValid(transactions[k])
      invariant level == TxIds(transactions)[..i]
    {
      var valid := ValidateStructure(transactions[i]);
      if valid.Err? {
        return Err(BadStructure);
      }
      level := level + [TxId(transactions[i])];
    }
    assert level == TxIds(transactions);
    return Ok(level);
  }

  method MerkleRootRaw(transactions: seq<Transaction>) returns (r: Result<Hash256>)
    ensures r == MerkleRoot(transactions)
  {
    if |transactions| == 0 {
      return Err(BadArgument);
    }
    var leaves :- LeafHashes(transactions);
    var level := leaves;
    while |level| > 1
      invariant |level| > 0 && Root(level) == Root(leaves)
      decreases |level|
    {
      level := PairLevel(level);
    }
    return Ok(level[0]);
  }

  // ---------------------------------------------------------------- the shape of the tree

  /** The first hash after so many levels; a single hash goes on being paired with itself. */
  function Top(level: seq<Hash256>, levels: nat): Hash256
    requires |level| > 0
    decreases levels
  {
    if levels == 0 then level[0] else Top(NextLevel(level), levels - 1)
  }

  lemma {:induction false} NextOfJoined(x: seq<Hash256>, y: seq<Hash256>)
    requires |x| > 0 && |x| % 2 == 0 && |y| > 0
    ensures NextLevel(x + y) == NextLevel(x) + NextLevel(y)
  {
    PadOfJoined(x, y);
    hide Pad;
    assert |NextLevel(x + y)| == |NextLevel(x)| + |NextLevel(y)| && |x| == 2 * |NextLevel(x)|;
    forall i | 0 <= i < |NextLevel(x)| + |NextLevel(y)|
      ensures NextLevel(x + y)[i] == (NextLevel(x) + NextLevel(y))[i]
    {
      PairInJoined(x, y, i);
    }
  }

  lemma {:induction false} PadOfJoined(x: seq<Hash256>, y: seq<Hash256>)
    requires |x| > 0 && |x| % 2 == 0 && |y| > 0
    ensures Pad(x + y) == x + Pad(y) && Pad(x) == x
    ensures |NextLevel(x + y)| == |NextLevel(x)| + |NextLevel(y)| && |x| == 2 * |NextLevel(x)|
  {
    hide NextLevel;
    assert |NextLevel(x + y)| == |Pad(x + y)| / 2;
  }

  lemma {:induction false} PairInJoined(x: seq<Hash256>, y: seq<Hash256>, i: nat)
    requires |x| > 0 && |y| > 0 && i < |NextLevel(x + y)|
    requires |NextLevel(x + y)| == |NextLevel(x)| + |NextLevel(y)| && |x| == 2 * |NextLevel(x)|
    requires Pad(x + y) == x + Pad(y) && Pad(x) == x
    ensures NextLevel(x + y)[i] == (NextLevel(x) + NextLevel(y))[i]
  {
    var n := |NextLevel(x)|;
    PlaceInJoined(x, Pad(y), 2 * i);
    PlaceInJoined(x, Pad(y), 2 * i + 1);
    hide Pad;
    if i >= n {
      assert NextLevel(y)[i - n] == PairHash(Pad(y)[2 * (i - n)], Pad(y)[2 * (i - n) + 1]);
    }
  }

  lemma {:induction false} PlaceInJoined(x: seq<Hash256>, y: seq<Hash256>, k: nat)
    requires k < |x| + |y|
    ensures (x + y)[k] == if k < |x| then x[k] else y[k - |x|]
  {
  }

  lemma {:induction false} FullTop(x: seq<Hash256>, k: nat)
    requires |x| == Pow2(k)
    ensures Top(x, k) == Root(x)
    decreases k
  {
    if k > 0 {
      FullTop(NextLevel(x), k - 1);
    }
  }

  /** The tree of a list that does not fit the full tree of its first half: the root of the first half, paired with the top
      of what is left, raised to the same height by pairing its last hash with itself. */
  lemma {:induction false} RootSplits(x: seq<Hash256>, y: seq<Hash256>, k: nat)
    requires |x| == Pow2(k) && 0 < |y| <= Pow2(k)
    ensures Root(x + y) == PairHash(Root(x), Top(y, k))
    ensures |y| == Pow2(k) ==> Root(x + y) == PairHash(Root(x), Root(y))
    decreases k
  {
    hide Root, Top, NextLevel, Pad;
    if |y| == Pow2(k) {
      FullTop(y, k);
    }
    if k == 0 {
      RootOfTwo(x[0], y[0]);
      TopOfNone(y);
      assert x == [x[0]] && y == [y[0]] && x + y == [x[0], y[0]];
    } else {
      HalfLevel(x, k);
      HalfLevel(y, k);
      NextOfJoined(x, y);
      RootNext(x + y);
      RootNext(x);
      TopNext(y, k);
      RootSplits(NextLevel(x), NextLevel(y), k - 1);
    }
  }

  lemma {:induction false} TopOfNone(level: seq<Hash256>)
    requires |level| > 0
    ensures Top(level, 0) == level[0]
  {
  }

  lemma {:induction false} TopNext(level: seq<Hash256>, levels: nat)
    requires |level| > 0 && levels > 0
    ensures |NextLevel(level)| > 0 && Top(level, levels) == Top(NextLevel(level), levels - 1)
  {
    hide NextLevel;
  }

  lemma {:induction false} RootNext(level: seq<Hash256>)
    requires |level| > 1
    ensures |NextLevel(level)| > 0 && Root(level) == Root(NextLevel(level))
  {
    hide NextLevel;
  }

  lemma {:induction false} RootOfTwo(a: Hash256, b: Hash256)
    ensures Root([a]) == a && Root([a, b]) == PairHash(a, b)
  {
    assert NextLevel([a, b]) == [PairHash(a, b)];
  }

  lemma {:induction false} HalfLevel(level: seq<Hash256>, k: nat)
    requires k > 0 && 0 < |level| <= Pow2(k)
    ensures 0 < |NextLevel(level)| <= Pow2(k - 1)
    ensures |level| == Pow2(k) ==> |NextLevel(level)| == Pow2(k - 1) && |level| % 2 == 0
  {
  }

  // ---------------------------------------------------------------- what a root identifies

  type Pairs = set<(Hash256, Hash256)>

  ghost predicate LevelHashes(level: seq<Hash256>, pairs: Pairs)
    requires |level| > 0
  {
    forall i :: 0 <= i < |NextLevel(level)| ==> (Pad(level)[2 * i], Pad(level)[2 * i + 1]) in pairs
  }

  /** Every pair that is hashed while the root of a level is computed belongs to the set. */
  ghost predicate Hashes(level: seq<Hash256>, pairs: Pairs)
    requires |level| > 0
    decreases |level|
  {
    |level| == 1 || (LevelHashes(level, pairs) && Hashes(NextLevel(level), pairs))
  }

  /** No collision among the given pairs, and no pair hash that is also a leaf. */
  ghost predicate Ideal(pairs: Pairs, leaves: set<Hash256>) {
    && (forall p, q :: p in pairs && q in pairs && PairHash(p.0, p.1) == PairHash(q.0, q.1) ==> p == q)
    && (forall p :: p in pairs ==> PairHash(p.0, p.1) !in leaves)
  }

  ghost function Depth(level: seq<Hash256>): nat
    requires |level| > 0
    decreases |level|
  {
    if |level| == 1 then 0 else 1 + Depth(NextLevel(level))
  }

  /** The hash stands k pairings above the leaves, by its left spine. */
  ghost predicate NodeAt(hash: Hash256, k: nat, pairs: Pairs, leaves: set<Hash256>)
    decreases k
  {
    if k == 0 then hash in leaves
    else exists p :: p in pairs && hash == PairHash(p.0, p.1) && NodeAt(p.0, k - 1, pairs, leaves)
  }

  lemma {:induction false} HeightIsUnique(hash: Hash256, j: nat, k: nat, pairs: Pairs, leaves: set<Hash256>)
    requires Ideal(pairs, leaves) && NodeAt(hash, j, pairs, leaves) && NodeAt(hash, k, pairs, leaves)
    ensures j == k
    decreases j
  {
    if j > 0 && k > 0 {
      var p :| p in pairs && hash == PairHash(p.0, p.1) && NodeAt(p.0, j - 1, pairs, leaves);
      var q :| q in pairs && hash == PairHash(q.0, q.1) && NodeAt(q.0, k - 1, pairs, leaves);
      HeightIsUnique(p.0, j - 1, k - 1, pairs, leaves);
    }
  }

  ghost predicate LevelAt(level: seq<Hash256>, k: nat, pairs: Pairs, leaves: set<Hash256>) {
    forall i :: 0 <= i < |level| ==> NodeAt(level[i], k, pairs, leaves)
  }

  lemma {:induction false} NextLevelAt(level: seq<Hash256>, k: nat, pairs: Pairs, leaves: set<Hash256>)
    requires |level| > 1 && LevelHashes(level, pairs) && LevelAt(level, k, pairs, leaves)
    ensures LevelAt(NextLevel(level), k + 1, pairs, leaves)
  {
    var padded := Pad(level);
    forall i | 0 <= i < |NextLevel(level)|
      ensures NodeAt(NextLevel(level)[i], k + 1, pairs, leaves)
    {
      var p := (padded[2 * i], padded[2 * i + 1]);
      assert p in pairs;
      assert NodeAt(p.0, k, pairs, leaves);
    }
  }

  lemma {:induction false} RootHeight(level: seq<Hash256>, k: nat, pairs: Pairs, leaves: set<Hash256>)
    requires |level| > 0 && Hashes(level, pairs) && LevelAt(level, k, pairs, leaves)
    ensures NodeAt(Root(level), k + Depth(level), pairs, leaves)
    decreases |level|
  {
    hide NodeAt;
    if |level| == 1 {
      assert NodeAt(level[0], k, pairs, leaves);
    } else {
      hide LevelAt, LevelHashes, NextLevel, Pad;
      var next := NextLevel(level);
      NextLevelAt(level, k, pairs, leaves);
      RootHeight(next, k + 1, pairs, leaves);
      assert k + Depth(level) == k + 1 + Depth(next);
    }
  }

  /** The longer list repeats, past the end of the shorter one, an element of the shorter one. */
  ghost predicate RepeatsPrefix(a: seq<Hash256>, b: seq<Hash256>) {
    a <= b && (|a| < |b| ==> exists i, j :: 0 <= i < |a| <= j < |b| && b[j] == b[i])
  }

  lemma {:induction false} NextLevelInjective(a: seq<Hash256>, b: seq<Hash256>, pairs: Pairs, i: nat)
    requires |a| > 1 && |b| > 1 && LevelHashes(a, pairs) && LevelHashes(b, pairs) && Ideal(pairs, {})
    requires i < |NextLevel(a)| && i < |NextLevel(b)| && NextLevel(a)[i] == NextLevel(b)[i]
    ensures Pad(a)[2 * i] == Pad(b)[2 * i] && Pad(a)[2 * i + 1] == Pad(b)[2 * i + 1]
  {
    assert (Pad(a)[2 * i], Pad(a)[2 * i + 1]) in pairs;
    assert (Pad(b)[2 * i], Pad(b)[2 * i + 1]) in pairs;
  }

  lemma {:induction false} PaddedPrefix(a: seq<Hash256>, b: seq<Hash256>, pairs: Pairs)
    requires 1 < |a| <= |b|
    requires LevelHashes(a, pairs) && LevelHashes(b, pairs) && Ideal(pairs, {})
    requires NextLevel(a) <= NextLevel(b)
    ensures Pad(a) <= Pad(b)
  {
    forall k | 0 <= k < |Pad(a)|
      ensures Pad(a)[k] == Pad(b)[k]
    {
      assert NextLevel(a)[k / 2] == NextLevel(b)[k / 2];
      NextLevelInjective(a, b, pairs, k / 2);
      assert k == 2 * (k / 2) || k == 2 * (k / 2) + 1;
    }
  }

  lemma {:induction false} RepeatsPrefixDown(a: seq<Hash256>, b: seq<Hash256>, pairs: Pairs)
    requires |a| > 1 && |b| > 1 && |a| <= |b|
    requires LevelHashes(a, pairs) && LevelHashes(b, pairs) && Ideal(pairs, {})
    requires RepeatsPrefix(NextLevel(a), NextLevel(b))
    ensures RepeatsPrefix(a, b)
  {
    PaddedPrefix(a, b, pairs);
    if |a| < |b| {
      if |a| % 2 != 0 {
        assert Pad(a)[|a|] == a[|a| - 1] && Pad(b)[|a|] == b[|a|] && Pad(b)[|a| - 1] == b[|a| - 1];
        assert b[|a|] == b[|a| - 1];
      } else {
        var i, j :| 0 <= i < |NextLevel(a)| <= j < |NextLevel(b)| && NextLevel(b)[j] == NextLevel(b)[i];
        NextLevelSame(b, pairs, i, j);
        assert b[2 * j] == b[2 * i];
      }
    }
  }

  lemma {:induction false} NextLevelSame(b: seq<Hash256>, pairs: Pairs, i: nat, j: nat)
    requires |b| > 1 && LevelHashes(b, pairs) && Ideal(pairs, {})
    requires i <= j < |NextLevel(b)| && NextLevel(b)[j] == NextLevel(b)[i]
    ensures 2 * i <= 2 * j < |b| && b[2 * j] == b[2 * i]
  {
    assert (Pad(b)[2 * i], Pad(b)[2 * i + 1]) in pairs;
    assert (Pad(b)[2 * j], Pad(b)[2 * j + 1]) in pairs;
  }

  lemma {:induction false} EqualRootsAtLevel(a: seq<Hash256>, b: seq<Hash256>, pairs: Pairs)
    requires 0 < |a| <= |b| && Depth(a) == Depth(b) && Root(a) == Root(b)
    requires Hashes(a, pairs) && Hashes(b, pairs) && Ideal(pairs, {})
    ensures RepeatsPrefix(a, b)
    decreases |a|
  {
    if |a| > 1 {
      EqualRootsAtLevel(NextLevel(a), NextLevel(b), pairs);
      RepeatsPrefixDown(a, b, pairs);
    }
  }

  /** Both roots are computed from the given leaves and pairs, among which no two hashes collide. */
  ghost predicate Separated(a: seq<Hash256>, b: seq<Hash256>, pairs: Pairs, leaves: set<Hash256>) {
    && |a| > 0 && |b| > 0
    && Hashes(a, pairs) && Hashes(b, pairs)
    && (forall i :: 0 <= i < |a| ==> a[i] in leaves)
    && (forall i :: 0 <= i < |b| ==> b[i] in leaves)
    && Ideal(pairs, leaves)
  }

  lemma {:induction false} RootAboveLeaves(a: seq<Hash256>, pairs: Pairs, leaves: set<Hash256>)
    requires |a| > 0 && Hashes(a, pairs) && forall i :: 0 <= i < |a| ==> a[i] in leaves
    ensures NodeAt(Root(a), Depth(a), pairs, leaves)
  {
    hide Depth, Root, NextLevel, Ideal;
    forall i | 0 <= i < |a|
      ensures NodeAt(a[i], 0, pairs, leaves)
    {
    }
    RootHeight(a, 0, pairs, leaves);
  }

  lemma {:induction false} EqualRootsEqualDepths(a: seq<Hash256>, b: seq<Hash256>, pairs: Pairs, leaves: set<Hash256>)
    requires Separated(a, b, pairs, leaves) && Root(a) == Root(b)
    ensures Depth(a) == Depth(b)
  {
    RootAboveLeaves(a, pairs, leaves);
    RootAboveLeaves(b, pairs, leaves);
    HeightIsUnique(Root(a), Depth(a), Depth(b), pairs, leaves);
  }

  /** Of two lists with one root, the longer extends the shorter, and repeats an element of it. */
  lemma {:induction false} EqualRoots(a: seq<Hash256>, b: seq<Hash256>, pairs: Pairs, leaves: set<Hash256>)
    requires Separated(a, b, pairs, leaves) && |a| <= |b| && Root(a) == Root(b)
    ensures RepeatsPrefix(a, b)
  {
    EqualRootsEqualDepths(a, b, pairs, leaves);
    EqualRootsAtLevel(a, b, pairs);
  }

  ghost predicate NoRepeats(list: seq<Hash256>) {
    forall i, j :: 0 <= i < j < |list| ==> list[i] != list[j]
  }

  /** Lists without repeated hashes are identified by their roots. */
  lemma {:induction false} RootIdentifiesList(a: seq<Hash256>, b: seq<Hash256>, pairs: Pairs, leaves: set<Hash256>)
    requires Separated(a, b, pairs, leaves) && NoRepeats(a) && NoRepeats(b)
    ensures Root(a) == Root(b) <==> a == b
  {
    if Root(a) == Root(b) {
      if |a| <= |b| {
        EqualRoots(a, b, pairs, leaves);
      } else {
        EqualRoots(b, a, pairs, leaves);
      }
    }
  }

  /** The repetition is a real possibility, whatever the hash: doubling the end of an odd list keeps its root. */
  lemma {:induction false} OddListDoubled(a: seq<Hash256>)
    requires |a| > 1 && |a| % 2 == 1
    ensures Root(a + [a[|a| - 1]]) == Root(a) && RepeatsPrefix(a, a + [a[|a| - 1]])
  {
    var b := a + [a[|a| - 1]];
    assert Pad(b) == Pad(a);
    assert NextLevel(b) == NextLevel(a);
    assert b[|a|] == b[|a| - 1];
  }
}
