/** What every run of chain operations keeps, and what a reorganisation reports (src/chain.cpp). */
module Reorganisation {
  import opened Errors
  import opened Transactions
  import opened Scripts
  import opened Blocks
  import opened Utxo
  import opened Validation
  import opened Ledger
  import opened Identity
  import opened ChainState
  import opened Orders

  /** An operation of a run. Generation is only followed when it succeeds: it does not roll back. */
  datatype Operation =
    | AppendBlocks(incoming: seq<StoredBlock>, save: SaveOutcome)
    | ActivateIfMoreWork(candidate: seq<StoredBlock>, save: SaveOutcome)
    | Generate(count: nat, script: Script, pending: seq<Transaction>, clock: nat -> u32, save: SaveOutcome)

  /** What the operation may do to the state. */
  ghost predicate Performs(op: Operation, before: State, after: State) {
    match op
    case AppendBlocks(incoming, save) => (incoming == [] || |before.blocks| > 0) && after == Append(before, incoming, save).1
    case ActivateIfMoreWork(candidate, save) => after == Activate(before, candidate, save).1
    case Generate(count, script, pending, clock, save) =>
      && |before.blocks| > 0
      && var (r, left) := Generated(before, count, script, pending, clock, save);
      && r.Ok? && after == left
  }

  ghost predicate NoLessWork(a: State, b: State) {
    ChainWork(a.blocks).Ok? && ChainWork(b.blocks).Ok? && ChainWork(a.blocks).value <= ChainWork(b.blocks).value
  }

  lemma {:induction false} OperationKeeps(op: Operation, before: State, after: State)
    requires Settled(before) && Performs(op, before, after)
    ensures Settled(after) && NoLessWork(before, after)
  {
    hide Verify, ChainWork, Generated;
    if op.Generate? {
      GeneratedSettles(before, op.count, op.script, op.pending, op.clock, op.save);
    }
    WorkComparesAsLength(before.blocks, after.blocks);
  }

  /** Over any run the chain stays verified, its cached map stays the folded one and work never decreases. */
  lemma {:induction false} RunKeeps(ops: seq<Operation>, states: seq<State>)
    requires |states| == |ops| + 1 && Settled(states[0])
    requires forall i :: 0 <= i < |ops| ==> Performs(ops[i], states[i], states[i + 1])
    ensures forall i :: 0 <= i < |states| ==> Settled(states[i])
    ensures forall i, j :: 0 <= i <= j < |states| ==> NoLessWork(states[i], states[j])
  {
    hide Settled, Performs, ChainWork;
    var n := 0;
    SettledWork(states[0]);
    while n < |ops|
      invariant n <= |ops|
      invariant forall i :: 0 <= i <= n ==> Settled(states[i])
      invariant forall i, j :: 0 <= i <= j <= n ==> NoLessWork(states[i], states[j])
    {
      OperationKeeps(ops[n], states[n], states[n + 1]);
      SettledWork(states[n + 1]);
      forall i | 0 <= i <= n
        ensures NoLessWork(states[i], states[n + 1])
      {
        assert NoLessWork(states[i], states[n]);
      }
      n := n + 1;
    }
  }

  lemma {:induction false} SettledWork(s: State)
    requires Settled(s)
    ensures NoLessWork(s, s)
  {
    hide Verify, ChainWork;
    VerifiedWork(s.blocks);
  }

  /** Given a store that saves, a candidate replaces a settled chain exactly when it is verified and longer; then the
      whole state is the candidate's, and otherwise nothing changes. */
  lemma {:induction false} ActivatesExactlyLonger(s: State, candidate: seq<StoredBlock>)
    requires Settled(s)
    ensures var (r, after) := Activate(s, candidate, Saves);
            && ((r.Ok? && r.value.activated) <==> (Verified(candidate) && |candidate| > |s.blocks|))
            && (r.Ok? <==> Verified(candidate))
            && after == if Verified(candidate) && |candidate| > |s.blocks|
                        then State(candidate, Verify(candidate).value) else s
  {
    hide VerifyPrefix, ChainWork, GenesisLocked;
    if Verified(candidate) {
      WorkComparesAsLength(s.blocks, candidate);
      SharedGenesis(s.blocks, candidate);
    }
  }

  /** The reported fork is the true one: everything up to it is shared by both chains, and when header hashes do not
      collide no block above it occurs anywhere in the other chain. */
  lemma {:induction false} ForkHeightIsTrue(s: State, candidate: seq<StoredBlock>, save: SaveOutcome)
    requires Settled(s) && Activate(s, candidate, save).0.Ok?
    ensures var report := Activate(s, candidate, save).0.value;
            && SharesHash(s.blocks, candidate, report.forkHeight + 1)
            && report.disconnectedBlocks == |s.blocks| - 1 - report.forkHeight
            && report.connectedBlocks == |candidate| - 1 - report.forkHeight
            && report.oldHeight == |s.blocks| - 1 && report.newHeight == |candidate| - 1
            && (HeadersApart(s.blocks, candidate) ==>
                  forall i, j :: report.forkHeight < i < |s.blocks| && 0 <= j < |candidate| ==>
                    HashOf(s.blocks[i]) != HashOf(candidate[j]))
  {
    hide VerifyPrefix, ChainWork, GenesisLocked, Common, CheckBlock, Lost, TxIdSet;
    var report := Activate(s, candidate, save).0.value;
    VerifiedLink(s.blocks, |s.blocks| - 1);
    VerifiedLink(candidate, |candidate| - 1);
    if HeadersApart(s.blocks, candidate) {
      forall i, j | report.forkHeight < i < |s.blocks| && 0 <= j < |candidate|
        ensures HashOf(s.blocks[i]) != HashOf(candidate[j])
      {
        AboveForkUnshared(s.blocks, candidate, report.forkHeight, i, j);
      }
    }
  }

  lemma {:induction false} AboveForkUnshared(a: seq<StoredBlock>, b: seq<StoredBlock>, fork: nat, i: nat, j: nat)
    requires Verified(a) && Verified(b) && HeadersApart(a, b)
    requires fork < i < |a| && j < |b|
    requires fork + 1 < |a| && fork + 1 < |b| ==> HashOf(a[fork + 1]) != HashOf(b[fork + 1])
    ensures HashOf(a[i]) != HashOf(b[j])
  {
    hide Verified, HeadersApart;
    if HashOf(a[i]) == HashOf(b[j]) {
      SamePlace(a, b, i, j);
    }
  }

  // ---------------------------------------------------------------- disconnected transactions

  lemma {:induction false} LostFromMembers(transactions: seq<Transaction>, kept: set<Hash256>, n: nat, tx: Transaction)
    requires n <= |transactions|
    ensures tx in LostFrom(transactions, kept, n) <==>
              TxId(tx) !in kept && exists k :: 1 <= k < n && transactions[k] == tx
  {
    if n > 1 {
      LostFromMembers(transactions, kept, n - 1, tx);
    }
  }

  ghost predicate Listed(tx: Transaction, blocks: seq<StoredBlock>, from: nat, n: nat)
    requires n <= |blocks|
  {
    exists i, k :: from <= i < n && 1 <= k < |blocks[i].block.transactions| && blocks[i].block.transactions[k] == tx
  }

  /** Exactly the non-coinbase transactions of the disconnected blocks whose identifiers the new chain lacks. */
  lemma {:induction false} LostMembers(blocks: seq<StoredBlock>, kept: set<Hash256>, from: nat, n: nat, tx: Transaction)
    requires from <= n <= |blocks|
    ensures tx in Lost(blocks, kept, from, n) <==> TxId(tx) !in kept && Listed(tx, blocks, from, n)
  {
    hide LostFrom;
    if from < n {
      var transactions := blocks[n - 1].block.transactions;
      LostMembers(blocks, kept, from, n - 1, tx);
      LostFromMembers(transactions, kept, |transactions|, tx);
      ListedStep(tx, blocks, from, n - 1);
    }
  }

  lemma {:induction false} ListedStep(tx: Transaction, blocks: seq<StoredBlock>, from: nat, n: nat)
    requires from <= n < |blocks|
    ensures Listed(tx, blocks, from, n + 1) <==>
              Listed(tx, blocks, from, n)
              || exists k :: 1 <= k < |blocks[n].block.transactions| && blocks[n].block.transactions[k] == tx
  {
    if Listed(tx, blocks, from, n) {
      var i, k :| from <= i < n && 1 <= k < |blocks[i].block.transactions| && blocks[i].block.transactions[k] == tx;
    }
  }

  /** The transactions of the blocks but their coinbases, in the order of the chain. */
  ghost function Regulars(blocks: seq<StoredBlock>, from: nat, n: nat): seq<Transaction>
    requires from <= n <= |blocks|
  {
    if n == from then [] else
    var transactions := blocks[n - 1].block.transactions;
    Regulars(blocks, from, n - 1) + (if |transactions| == 0 then [] else transactions[1..])
  }

  lemma {:induction false} LostFromInOrder(transactions: seq<Transaction>, kept: set<Hash256>, n: nat)
    requires 0 < n <= |transactions|
    ensures InOrder(LostFrom(transactions, kept, n), transactions[1..n])
  {
    if n == 1 {
      NothingInOrder(transactions[1..1]);
    } else {
      LostFromInOrder(transactions, kept, n - 1);
      NextInOrder(LostFrom(transactions, kept, n - 1), transactions[1..n - 1], transactions[n - 1]);
      assert transactions[1..n] == transactions[1..n - 1] + [transactions[n - 1]];
    }
  }

  /** They are handed back in the order in which they were confirmed. */
  lemma {:induction false} LostInOrder(blocks: seq<StoredBlock>, kept: set<Hash256>, from: nat, n: nat)
    requires from <= n <= |blocks|
    ensures InOrder(Lost(blocks, kept, from, n), Regulars(blocks, from, n))
  {
    hide LostFrom, InOrder;
    if n == from {
      NothingInOrder(Regulars(blocks, from, n));
    } else {
      LostInOrder(blocks, kept, from, n - 1);
      var transactions := blocks[n - 1].block.transactions;
      if |transactions| == 0 {
        NothingLost(transactions, kept);
        assert Lost(blocks, kept, from, n) == Lost(blocks, kept, from, n - 1);
        assert Regulars(blocks, from, n) == Regulars(blocks, from, n - 1);
      } else {
        LostFromInOrder(transactions, kept, |transactions|);
        assert transactions[1..|transactions|] == transactions[1..];
        JoinInOrder(Lost(blocks, kept, from, n - 1), Regulars(blocks, from, n - 1),
                    LostFrom(transactions, kept, |transactions|), transactions[1..]);
      }
    }
  }

  lemma {:induction false} NothingLost(transactions: seq<Transaction>, kept: set<Hash256>)
    requires |transactions| == 0
    ensures LostFrom(transactions, kept, |transactions|) == []
  {
  }

  /** The report names the work of both chains, and a chain that is not replaced loses nothing. */
  lemma {:induction false} ReportedWork(s: State, candidate: seq<StoredBlock>, save: SaveOutcome)
    requires Settled(s) && Activate(s, candidate, save).0.Ok?
    ensures var report := Activate(s, candidate, save).0.value;
            && ChainWork(s.blocks) == Ok(report.oldWork) && ChainWork(candidate) == Ok(report.candidateWork)
            && (!report.activated ==> report.disconnected == [])
  {
    hide Verify, ChainWork, Common, Lost, TxIdSet;
  }

  /** A reorganisation hands back a transaction exactly when it was confirmed above the fork, is not a coinbase and is
      nowhere in the new chain; all of them come in the order in which they were confirmed. */
  lemma {:induction false} DisconnectedExactly(s: State, candidate: seq<StoredBlock>, tx: Transaction)
    requires Settled(s) && Activate(s, candidate, Saves).0.Ok? && Activate(s, candidate, Saves).0.value.activated
    ensures var report := Activate(s, candidate, Saves).0.value;
            tx in report.disconnected <==>
              TxId(tx) !in TxIdSet(candidate) && Listed(tx, s.blocks, report.forkHeight + 1, |s.blocks|)
    ensures var report := Activate(s, candidate, Saves).0.value;
            report.forkHeight < |s.blocks| && InOrder(report.disconnected, Regulars(s.blocks, report.forkHeight + 1, |s.blocks|))
  {
    hide Verify, ChainWork, Common, Lost, Listed, TxIdSet, Regulars, InOrder;
    var report := Activate(s, candidate, Saves).0.value;
    LostMembers(s.blocks, TxIdSet(candidate), report.forkHeight + 1, |s.blocks|, tx);
    LostInOrder(s.blocks, TxIdSet(candidate), report.forkHeight + 1, |s.blocks|);
  }
}
