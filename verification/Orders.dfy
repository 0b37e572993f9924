/** Lists whose members come from another list, in its order. */
module Orders {

  /** The places in the whole list from which the members come. */
  ghost predicate TakenAt<T>(some: seq<T>, places: seq<nat>, all: seq<T>) {
    && |places| == |some|
    && (forall k :: 0 <= k < |some| ==> places[k] < |all| && some[k] == all[places[k]])
    && (forall j, k :: 0 <= j < k < |places| ==> places[j] < places[k])
  }

  ghost predicate InOrder<T>(some: seq<T>, all: seq<T>) {
    exists places :: TakenAt(some, places, all)
  }

  lemma {:induction false} NothingInOrder<T>(all: seq<T>)
    ensures InOrder([], all)
  {
    assert TakenAt([], [], all);
  }

  lemma {:induction false} WholeInOrder<T>(all: seq<T>)
    ensures InOrder(all, all)
  {
    assert TakenAt(all, seq(|all|, k => k), all);
  }

  ghost function Moved(places: seq<nat>, offset: nat): (moved: seq<nat>)
    ensures |moved| == |places| && forall k :: 0 <= k < |places| ==> moved[k] == places[k] + offset
  {
    seq(|places|, k requires 0 <= k < |places| => places[k] + offset)
  }

  /** Lists that follow each other, out of lists that follow each other. */
  lemma {:induction false} JoinInOrder<T>(a: seq<T>, x: seq<T>, b: seq<T>, y: seq<T>)
    requires InOrder(a, x) && InOrder(b, y)
    ensures InOrder(a + b, x + y)
  {
    var p: seq<nat> :| TakenAt(a, p, x);
    var q: seq<nat> :| TakenAt(b, q, y);
    var places := p + Moved(q, |x|);
    forall k | |a| <= k < |places|
      ensures places[k] == q[k - |a|] + |x|
    {
      assert places[k] == Moved(q, |x|)[k - |a|];
    }
    forall j, k | 0 <= j < k < |places|
      ensures places[j] < places[k]
    {
      assert k >= |a| ==> places[k] >= |x|;
    }
    assert TakenAt(a + b, places, x + y);
  }

  /** One more member of the whole list may be taken or not. */
  lemma {:induction false} NextInOrder<T>(some: seq<T>, all: seq<T>, next: T)
    requires InOrder(some, all)
    ensures InOrder(some, all + [next]) && InOrder(some + [next], all + [next])
  {
    NothingInOrder([next]);
    JoinInOrder(some, all, [], [next]);
    assert some + [] == some;
    WholeInOrder([next]);
    JoinInOrder(some, all, [next], [next]);
  }
}
