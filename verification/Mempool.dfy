/** The pool of unconfirmed transactions and its agreement with the chain it stands on (src/mempool.cpp). */
module Mempool {
  import opened Amounts
  import opened Errors
  import opened Transactions
  import opened Scripts
  import opened Blocks
  import opened Utxo
  import opened UtxoRules
  import opened Validation
  import opened Ledger
  import opened ChainState
  import opened TestnetChains
  import opened Orders

  // ---------------------------------------------------------------- specification

  /** Total fees and map after applying the first n transactions, or the first failure. */
  ghost function Replay(list: seq<Transaction>, height: nat, coins: Utxos, n: nat): Result<(int, Utxos)>
    requires n <= |list|
  {
    if n == 0 then Ok((0, coins)) else
    var before :- Replay(list, height, coins, n - 1);
    var (r, after) := Apply(list[n - 1], height, before.1);
    if r.Err? then Err(r.error) else Ok((before.0 + r.value, after))
  }

  /** The list applies in order from these coins. */
  ghost predicate Replayable(list: seq<Transaction>, height: nat, coins: Utxos) {
    Replay(list, height, coins, |list|).Ok?
  }

  ghost predicate DistinctIds(list: seq<Transaction>) {
    forall i, j :: 0 <= i < j < |list| ==> TxId(list[i]) != TxId(list[j])
  }

  ghost function Ids(list: seq<Transaction>): set<Hash256> {
    set i | 0 <= i < |list| :: TxId(list[i])
  }

  /** Why a transaction is turned away, if it is. */
  ghost function Admission(list: seq<Transaction>, tx: Transaction, height: nat, coins: Utxos): Result<()> {
    if IsCoinbase(tx) then Err(CoinbaseNotRegular)
    else if |list| > 0 && !StructureValid(tx) then Err(BadStructure)
    else if TxId(tx) in Ids(list) then Err(AlreadyInMempool)
    else
      var replayed :- Replay(list, height, coins, |list|);
      var (r, after) := Apply(tx, height, replayed.1);
      if r.Err? then Err(r.error) else Ok(())
  }

  /** What a revalidation keeps of the first n, and the working map: a transaction that fails is dropped, but whatever
      it had changed by then stays changed. */
  ghost function Revalidated(list: seq<Transaction>, height: nat, coins: Utxos, confirmed: set<Hash256>, n: nat)
    : (seq<Transaction>, Utxos)
    requires n <= |list|
  {
    if n == 0 then ([], coins) else
    var (kept, effective) := Revalidated(list, height, coins, confirmed, n - 1);
    var tx := list[n - 1];
    if TxId(tx) in confirmed then (kept, effective) else
    var (r, after) := Apply(tx, height, effective);
    (if r.Ok? then kept + [tx] else kept, after)
  }

  /** No coin comes from a transaction that has still to be applied. */
  ghost predicate FreshIds(list: seq<Transaction>, coins: Utxos, confirmed: set<Hash256>) {
    forall o, i :: o in coins && 0 <= i < |list| && TxId(list[i]) !in confirmed ==> o.txid != TxId(list[i])
  }

  /** Every coin belongs to a transaction that is confirmed. */
  ghost predicate CoinsConfirmed(coins: Utxos, confirmed: set<Hash256>) {
    forall o :: o in coins ==> o.txid in confirmed
  }

  // ---------------------------------------------------------------- the pool

  class TestnetMempool {
    var transactions: seq<Transaction>

    constructor ()
      ensures transactions == []
    {
      transactions := [];
    }

    method EffectiveUtxos(coins: Utxos, height: nat) returns (r: Result<Utxos>)
      ensures var replayed := Replay(transactions, height, coins, |transactions|);
              r == if replayed.Ok? then Ok(replayed.value.1) else Err(replayed.error)
    {
      hide Apply;
      var result := new UtxoSet(coins);
      ghost var fees := 0;
      for i := 0 to |transactions|
        invariant fresh(result)
        invariant Replay(transactions, height, coins, i) == Ok((fees, result.coins))
      {
        ReplayStops(transactions, height, coins, i + 1, |transactions|);
        var fee :- ApplyTransaction(transactions[i], height, result);
        fees := fees + fee;
      }
      return Ok(result.coins);
    }

    /** On coins worth at most MAX_MONEY the fee guard never fires. */
    method TotalFees(coins: Utxos, height: nat) returns (r: Result<int>)
      ensures r.Ok? ==> Replayable(transactions, height, coins)
                        && r.value == Replay(transactions, height, coins, |transactions|).value.0
      ensures CoinsInRange(coins) && Total(coins) <= MAX_MONEY ==>
                var replayed := Replay(transactions, height, coins, |transactions|);
                r == if replayed.Ok? then Ok(replayed.value.0) else Err(replayed.error)
    {
      hide Apply, Total;
      var result := new UtxoSet(coins);
      var total := 0;
      for i := 0 to |transactions|
        invariant fresh(result)
        invariant Replay(transactions, height, coins, i) == Ok((total, result.coins))
      {
        ReplayStops(transactions, height, coins, i + 1, |transactions|);
        var fee :- ApplyTransaction(transactions[i], height, result);
        if CoinsInRange(coins) && Total(coins) <= MAX_MONEY {
          FeesBounded(transactions, height, coins, i + 1);
        }
        if total > MAX_MONEY - fee {
          return Err(FeeOverflow);
        }
        total := total + fee;
      }
      return Ok(total);
    }

    /** An admitted transaction is appended, and the list then applies from the same coins; the list has grown even if
        saving it fails. Nothing else changes it. */
    method Add(tx: Transaction, coins: Utxos, height: nat, save: SaveOutcome) returns (r: Result<()>)
      modifies this
      ensures var admitted := Admission(old(transactions), tx, height, coins);
              && r == (if admitted.Err? then admitted else if save != Saves then Err(SaveFailed) else Ok(()))
              && transactions == if admitted.Ok? then old(transactions) + [tx] else old(transactions)
      ensures transactions != old(transactions) ==> Replayable(transactions, height, coins)
      ensures old(DistinctIds(transactions)) ==> DistinctIds(transactions)
    {
      hide Apply;
      if IsCoinbase(tx) {
        return Err(CoinbaseNotRegular);
      }
      if |transactions| > 0 {
        var _ :- ValidateStructure(tx);
      }
      for i := 0 to |transactions|
        invariant forall k :: 0 <= k < i ==> TxId(transactions[k]) != TxId(tx)
      {
        if TxId(transactions[i]) == TxId(tx) {
          return Err(AlreadyInMempool);
        }
      }
      var effective :- EffectiveUtxos(coins, height);
      var result := new UtxoSet(effective);
      var _ :- ApplyTransaction(tx, height, result);
      ReplayOneMore(transactions, tx, height, coins);
      transactions := transactions + [tx];
      return if save == Saves then Ok(()) else Err(SaveFailed);
    }

    /** When the pool's identifiers are distinct and those that are not confirmed are borne by no coin of the chain, what
        is left applies in order from the chain's coins. */
    method Revalidate(coins: Utxos, height: nat, confirmed: set<Hash256>, save: SaveOutcome) returns (r: Result<()>)
      modifies this
      ensures r == if save == Saves then Ok(()) else Err(SaveFailed)
      ensures transactions == Revalidated(old(transactions), height, coins, confirmed, |old(transactions)|).0
      ensures old(DistinctIds(transactions) && FreshIds(transactions, coins, confirmed)) && CoinsInRange(coins) ==>
                Replayable(transactions, height, coins) && DistinctIds(transactions)
    {
      hide Apply;
      ghost var list := transactions;
      var effective := new UtxoSet(coins);
      var retained: seq<Transaction> := [];
      for i := 0 to |transactions|
        invariant fresh(effective) && transactions == list
        invariant (retained, effective.coins) == Revalidated(list, height, coins, confirmed, i)
      {
        var tx := transactions[i];
        if TxId(tx) !in confirmed {
          var applied := ApplyTransaction(tx, height, effective);
          if applied.Ok? {
            retained := retained + [tx];
          }
        }
      }
      transactions := retained;
      if DistinctIds(list) && FreshIds(list, coins, confirmed) && CoinsInRange(coins) {
        RevalidatedReplays(list, height, coins, confirmed, |list|);
      }
      return if save == Saves then Ok(()) else Err(SaveFailed);
    }
  }

  // ---------------------------------------------------------------- loops

  lemma {:induction false} ReplayStops(list: seq<Transaction>, height: nat, coins: Utxos, m: nat, n: nat)
    requires m <= n <= |list|
    ensures Replay(list, height, coins, m).Err? ==> Replay(list, height, coins, n) == Replay(list, height, coins, m)
    decreases n
  {
    hide Apply;
    if m < n {
      ReplayStops(list, height, coins, m, n - 1);
    }
  }

  lemma {:induction false} ReplayLocal(a: seq<Transaction>, b: seq<Transaction>, height: nat, coins: Utxos, n: nat)
    requires n <= |a| && n <= |b| && a[..n] == b[..n]
    ensures Replay(a, height, coins, n) == Replay(b, height, coins, n)
  {
    hide Apply;
    if n > 0 {
      assert a[n - 1] == a[..n][n - 1] == b[n - 1];
      assert a[..n - 1] == a[..n][..n - 1] == b[..n - 1];
      ReplayLocal(a, b, height, coins, n - 1);
    }
  }

  lemma {:induction false} ReplayOneMore(list: seq<Transaction>, tx: Transaction, height: nat, coins: Utxos)
    requires Replayable(list, height, coins)
    ensures var before := Replay(list, height, coins, |list|).value;
            var (r, after) := Apply(tx, height, before.1);
            && (r.Ok? ==> Replay(list + [tx], height, coins, |list| + 1) == Ok((before.0 + r.value, after)))
            && (r.Err? ==> Replay(list + [tx], height, coins, |list| + 1) == Err(r.error))
  {
    hide Apply;
    var more := list + [tx];
    assert more[..|list|] == list == list[..|list|] && more[|list|] == tx;
    ReplayLocal(more, list, height, coins, |list|);
    ReplayLast(more, height, coins, |list| + 1);
  }

  lemma {:induction false} ReplayLast(list: seq<Transaction>, height: nat, coins: Utxos, n: nat)
    requires 0 < n <= |list| && Replay(list, height, coins, n - 1).Ok?
    ensures var before := Replay(list, height, coins, n - 1).value;
            var (r, after) := Apply(list[n - 1], height, before.1);
            && (r.Ok? ==> Replay(list, height, coins, n) == Ok((before.0 + r.value, after)))
            && (r.Err? ==> Replay(list, height, coins, n) == Err(r.error))
  {
    hide Apply;
  }

  // ---------------------------------------------------------------- conservation

  /** The value of the effective coins and the fees together are the value of the chain's coins. */
  lemma {:induction false} ReplayConserves(list: seq<Transaction>, height: nat, coins: Utxos, n: nat)
    requires n <= |list| && CoinsInRange(coins) && Replay(list, height, coins, n).Ok?
    ensures var (fees, effective) := Replay(list, height, coins, n).value;
            Total(effective) + fees == Total(coins) && 0 <= fees && CoinsInRange(effective)
  {
    hide Apply, Total;
    if n > 0 {
      ReplayConserves(list, height, coins, n - 1);
      ApplyConserves(list[n - 1], height, Replay(list, height, coins, n - 1).value.1);
    }
  }

  lemma {:induction false} FeesBounded(list: seq<Transaction>, height: nat, coins: Utxos, n: nat)
    requires n <= |list| && CoinsInRange(coins) && Total(coins) <= MAX_MONEY && Replay(list, height, coins, n).Ok?
    ensures Replay(list, height, coins, n).value.0 <= MAX_MONEY
  {
    hide Total;
    ReplayConserves(list, height, coins, n);
    TotalNonNegative(Replay(list, height, coins, n).value.1);
  }

  // ---------------------------------------------------------------- revalidation

  /** Every outpoint in the working map is of the chain or belongs to one of the first n transactions. */
  ghost predicate Accounted(effective: Utxos, coins: Utxos, list: seq<Transaction>, n: nat)
    requires n <= |list|
  {
    forall o :: o in effective ==> o in coins || o.txid in Ids(list[..n])
  }

  /** Confirmed identifiers that account for all coins leave none to the others. */
  lemma {:induction false} ConfirmedAreFresh(list: seq<Transaction>, coins: Utxos, confirmed: set<Hash256>)
    requires CoinsConfirmed(coins, confirmed)
    ensures FreshIds(list, coins, confirmed)
  {
  }

  lemma {:induction false} IdsStep(list: seq<Transaction>, n: nat)
    requires n < |list|
    ensures TxId(list[n]) in Ids(list[..n + 1]) && Ids(list[..n]) <= Ids(list[..n + 1])
    ensures DistinctIds(list) ==> TxId(list[n]) !in Ids(list[..n])
  {
    var longer := list[..n + 1];
    assert TxId(longer[n]) in Ids(longer);
    forall h | h in Ids(list[..n])
      ensures h in Ids(longer)
    {
      var i :| 0 <= i < n && TxId(list[..n][i]) == h;
      assert TxId(longer[i]) == h;
    }
  }

  lemma {:induction false} AppliedOutpoints(tx: Transaction, height: nat, coins: Utxos)
    requires CoinsInRange(coins) && Apply(tx, height, coins).0.Ok?
    ensures forall o :: o in Apply(tx, height, coins).1 ==> o in coins || o.txid == TxId(tx)
  {
    hide Acceptable, Apply;
    ApplyMeaning(tx, height, coins);
    AppliedStructure(tx, height, coins);
  }

  lemma {:induction false} AppliedStructure(tx: Transaction, height: nat, coins: Utxos)
    requires Apply(tx, height, coins).0.Ok?
    ensures StructureValid(tx)
  {
    hide CheckInputs, AddOutputs, StructureValid;
  }

  /** A transaction whose identifier is new to the map leaves the map alone when it fails. */
  lemma {:induction false} FailureLeavesAlone(tx: Transaction, height: nat, coins: Utxos)
    requires Apply(tx, height, coins).0.Err?
    requires forall o :: o in coins ==> o.txid != TxId(tx)
    ensures Apply(tx, height, coins).1 == coins
  {
    hide Apply;
    FailedApply(tx, height, coins);
  }

  lemma {:induction false} RevalidatedStep(list: seq<Transaction>, height: nat, coins: Utxos, confirmed: set<Hash256>, n: nat)
    requires n < |list| && DistinctIds(list) && FreshIds(list, coins, confirmed)
    requires var (kept, effective) := Revalidated(list, height, coins, confirmed, n);
             CoinsInRange(effective) && Accounted(effective, coins, list, n)
    ensures var (kept, effective) := Revalidated(list, height, coins, confirmed, n);
            var (more, after) := Revalidated(list, height, coins, confirmed, n + 1);
            && CoinsInRange(after) && Accounted(after, coins, list, n + 1)
            && if TxId(list[n]) !in confirmed && Apply(list[n], height, effective).0.Ok?
               then more == kept + [list[n]] && after == Apply(list[n], height, effective).1
               else more == kept && after == effective
  {
    hide Apply, MoneyRange, DistinctIds;
    IdsStep(list, n);
    var (kept, effective) := Revalidated(list, height, coins, confirmed, n);
    var tx := list[n];
    if TxId(tx) !in confirmed {
      if Apply(tx, height, effective).0.Ok? {
        AppliedOutpoints(tx, height, effective);
        ApplyConserves(tx, height, effective);
      } else {
        FailureLeavesAlone(tx, height, effective);
      }
    }
  }

  /** What a revalidation keeps replays to exactly the working map it ended with, and keeps its identifiers distinct. */
  lemma {:induction false} RevalidatedReplays(list: seq<Transaction>, height: nat, coins: Utxos, confirmed: set<Hash256>, n: nat)
    requires n <= |list| && DistinctIds(list) && FreshIds(list, coins, confirmed) && CoinsInRange(coins)
    ensures var (kept, effective) := Revalidated(list, height, coins, confirmed, n);
            && CoinsInRange(effective) && Accounted(effective, coins, list, n)
            && Replayable(kept, height, coins) && Replay(kept, height, coins, |kept|).value.1 == effective
            && DistinctIds(kept) && Ids(kept) <= Ids(list[..n])
  {
    hide Apply, MoneyRange;
    if n > 0 {
      RevalidatedReplays(list, height, coins, confirmed, n - 1);
      RevalidatedStep(list, height, coins, confirmed, n - 1);
      IdsStep(list, n - 1);
      var (kept, effective) := Revalidated(list, height, coins, confirmed, n - 1);
      ReplayOneMore(kept, list[n - 1], height, coins);
      OneMoreId(kept, list, n - 1);
    }
  }

  lemma {:induction false} OneMoreId(kept: seq<Transaction>, list: seq<Transaction>, n: nat)
    requires n < |list| && DistinctIds(list) && DistinctIds(kept) && Ids(kept) <= Ids(list[..n])
    ensures DistinctIds(kept + [list[n]]) && Ids(kept + [list[n]]) <= Ids(list[..n + 1])
  {
    IdsStep(list, n);
    var more := kept + [list[n]];
    forall i, j | 0 <= i < j < |more|
      ensures TxId(more[i]) != TxId(more[j])
    {
      assert TxId(kept[i]) in Ids(kept);
      assert j < |kept| ==> TxId(kept[i]) != TxId(kept[j]);
    }
    forall h | h in Ids(more)
      ensures h in Ids(list[..n + 1])
    {
      var i :| 0 <= i < |more| && TxId(more[i]) == h;
      assert i < |kept| ==> h == TxId(kept[i]) && h in Ids(kept);
    }
  }

  /** Confirmed, kept, or refused on the coins that some of what is kept before it makes. */
  ghost predicate AccountedFor(tx: Transaction, kept: seq<Transaction>, height: nat, coins: Utxos, confirmed: set<Hash256>) {
    || TxId(tx) in confirmed || tx in kept
    || exists m :: 0 <= m <= |kept| && RefusedAfter(tx, kept, m, height, coins)
  }

  ghost predicate RefusedAfter(tx: Transaction, kept: seq<Transaction>, m: nat, height: nat, coins: Utxos)
    requires m <= |kept|
  {
    && Replayable(kept[..m], height, coins)
    && !Acceptable(tx, height, Replay(kept[..m], height, coins, m).value.1)
  }

  lemma {:induction false} RefusedStays(tx: Transaction, kept: seq<Transaction>, next: Transaction, height: nat, coins: Utxos,
                                        confirmed: set<Hash256>)
    requires AccountedFor(tx, kept, height, coins, confirmed)
    ensures AccountedFor(tx, kept + [next], height, coins, confirmed)
  {
    hide Replayable, Acceptable, Replay;
    var more := kept + [next];
    if tx in kept {
      var k :| 0 <= k < |kept| && kept[k] == tx;
      assert more[k] == tx;
    } else if TxId(tx) !in confirmed {
      var m :| 0 <= m <= |kept| && RefusedAfter(tx, kept, m, height, coins);
      assert more[..m] == kept[..m];
      assert RefusedAfter(tx, more, m, height, coins);
    }
  }

  /** Revalidation keeps, in their order, transactions that are not confirmed, and leaves out an unconfirmed one only if the
      ledger does not accept it on the coins that what is kept before it makes. */
  lemma {:induction false} RevalidatedMeaning(list: seq<Transaction>, height: nat, coins: Utxos, confirmed: set<Hash256>, n: nat)
    requires n <= |list| && DistinctIds(list) && FreshIds(list, coins, confirmed) && CoinsInRange(coins)
    ensures var kept := Revalidated(list, height, coins, confirmed, n).0;
            && InOrder(kept, list[..n])
            && (forall k :: 0 <= k < |kept| ==> TxId(kept[k]) !in confirmed)
            && forall k :: 0 <= k < n ==> AccountedFor(list[k], kept, height, coins, confirmed)
  {
    hide Apply, MoneyRange, DistinctIds, FreshIds, Accounted, Replay, AccountedFor, InOrder, Acceptable;
    if n == 0 {
      NothingInOrder(list[..0]);
    } else {
      RevalidatedMeaning(list, height, coins, confirmed, n - 1);
      RevalidatedReplays(list, height, coins, confirmed, n - 1);
      RevalidatedStep(list, height, coins, confirmed, n - 1);
      var (kept, effective) := Revalidated(list, height, coins, confirmed, n - 1);
      var (more, tx) := (Revalidated(list, height, coins, confirmed, n).0, list[n - 1]);
      NextInOrder(kept, list[..n - 1], tx);
      assert list[..n] == list[..n - 1] + [tx];
      ApplyMeaning(tx, height, effective);
      forall k | 0 <= k < n
        ensures AccountedFor(list[k], more, height, coins, confirmed)
      {
        if k == n - 1 {
          LastAccounted(tx, kept, more, height, coins, confirmed, effective);
        } else if more != kept {
          RefusedStays(list[k], kept, tx, height, coins, confirmed);
        }
      }
    }
  }

  lemma {:induction false} LastAccounted(tx: Transaction, kept: seq<Transaction>, more: seq<Transaction>, height: nat,
                                         coins: Utxos, confirmed: set<Hash256>, effective: Utxos)
    requires Replayable(kept, height, coins) && Replay(kept, height, coins, |kept|).value.1 == effective
    requires if TxId(tx) !in confirmed && Acceptable(tx, height, effective) then more == kept + [tx] else more == kept
    ensures AccountedFor(tx, more, height, coins, confirmed)
  {
    hide Acceptable, Replay;
    assert kept[..|kept|] == kept;
    if TxId(tx) !in confirmed {
      if Acceptable(tx, height, effective) {
        assert more[|kept|] == tx;
      } else {
        assert RefusedAfter(tx, kept, |kept|, height, coins);
      }
    }
  }

  /** The confirmed identifiers account for every coin of a verified chain, so revalidation against a settled chain always
      ends with a replayable pool. */
  lemma {:induction false} SettledCoinsConfirmed(s: State)
    requires Settled(s)
    ensures CoinsConfirmed(s.utxos, TxIdSet(s.blocks)) && CoinsInRange(s.utxos) && Total(s.utxos) <= MAX_MONEY
  {
    hide VerifyPrefix, GenesisLocked, TxIdSet, Total;
    Conservation(s.blocks);
    PrefixConfirmed(s.blocks, |s.blocks|);
  }

  lemma {:induction false} TransactionsConfirmed(transactions: seq<Transaction>, height: nat, coins: Utxos, n: nat,
                                                 confirmed: set<Hash256>)
    requires n <= |transactions| && CoinsInRange(coins) && CoinsConfirmed(coins, confirmed)
    requires forall i :: 0 <= i < |transactions| ==> TxId(transactions[i]) in confirmed
    requires ConnectTransactions(transactions, height, coins, n).Ok?
    ensures CoinsConfirmed(ConnectTransactions(transactions, height, coins, n).value.1, confirmed)
  {
    hide Apply;
    if n > 1 {
      TransactionsConfirmed(transactions, height, coins, n - 1, confirmed);
      TransactionsConserve(transactions, height, coins, n - 1);
      AppliedOutpoints(transactions[n - 1], height, ConnectTransactions(transactions, height, coins, n - 1).value.1);
    }
  }

  lemma {:induction false} ConnectedConfirmed(transactions: seq<Transaction>, height: nat, coins: Utxos, confirmed: set<Hash256>)
    requires |transactions| > 0 && CoinsInRange(coins) && CoinsConfirmed(coins, confirmed)
    requires forall i :: 0 <= i < |transactions| ==> TxId(transactions[i]) in confirmed
    requires ConnectBlock(transactions, height, coins).Ok?
    ensures CoinsConfirmed(ConnectBlock(transactions, height, coins).value, confirmed)
  {
    hide ConnectTransactions, AddCoinbase, BlockSubsidy;
    TransactionsConfirmed(transactions, height, coins, |transactions|, confirmed);
    TransactionsConserve(transactions, height, coins, |transactions|);
    var connected := ConnectTransactions(transactions, height, coins, |transactions|).value.1;
    AddCoinbaseCreates(transactions[0], height, connected);
    CoinbaseStructure(transactions[0], height, connected);
  }

  lemma {:induction false} CoinbaseStructure(coinbase: Transaction, height: nat, coins: Utxos)
    requires AddCoinbase(coinbase, height, coins).0.Ok?
    ensures StructureValid(coinbase)
  {
    hide AddOutputs;
  }

  lemma {:induction false} PrefixConfirmed(blocks: seq<StoredBlock>, n: nat)
    requires 0 < n <= |blocks| && VerifyPrefix(blocks, n).Ok?
    ensures CoinsConfirmed(VerifyPrefix(blocks, n).value, TxIdSet(blocks))
  {
    hide ConnectBlock, CheckBlock;
    if n > 1 {
      PrefixConfirmed(blocks, n - 1);
      PrefixConserves(blocks, n - 1);
      ConnectedBlockShape(blocks, n);
      var transactions := blocks[n - 1].block.transactions;
      forall i | 0 <= i < |transactions|
        ensures TxId(transactions[i]) in TxIdSet(blocks)
      {
        assert TxId(blocks[n - 1].block.transactions[i]) == TxId(transactions[i]);
      }
      ConnectedConfirmed(transactions, n - 1, VerifyPrefix(blocks, n - 1).value, TxIdSet(blocks));
    }
  }

  // ---------------------------------------------------------------- after a reorganisation

  /** The pool after the first n transactions have been offered to it in turn. */
  ghost function Offered(list: seq<Transaction>, offers: seq<Transaction>, height: nat, coins: Utxos, n: nat): seq<Transaction>
    requires n <= |offers|
  {
    if n == 0 then list else
    var before := Offered(list, offers, height, coins, n - 1);
    if Admission(before, offers[n - 1], height, coins).Ok? then before + [offers[n - 1]] else before
  }

  /** On the pool as it was after its first m transactions, the ledger does not accept the transaction or its identifier
      is taken. */
  ghost predicate TurnedAway(tx: Transaction, pool: seq<Transaction>, m: nat, height: nat, coins: Utxos)
    requires m <= |pool|
  {
    Replayable(pool[..m], height, coins) ==>
      TxId(tx) in Ids(pool[..m]) || !Acceptable(tx, height, Replay(pool[..m], height, coins, m).value.1)
  }

  ghost predicate Returned(tx: Transaction, pool: seq<Transaction>, from: nat, height: nat, coins: Utxos) {
    tx in pool || exists m :: from <= m <= |pool| && TurnedAway(tx, pool, m, height, coins)
  }

  lemma {:induction false} ReturnedStays(tx: Transaction, pool: seq<Transaction>, next: Transaction, from: nat, height: nat,
                                         coins: Utxos)
    requires Returned(tx, pool, from, height, coins)
    ensures Returned(tx, pool + [next], from, height, coins)
  {
    hide Replayable, Acceptable, Replay, Ids;
    var more := pool + [next];
    if tx in pool {
      var k :| 0 <= k < |pool| && pool[k] == tx;
      assert more[k] == tx;
    } else {
      var m :| from <= m <= |pool| && TurnedAway(tx, pool, m, height, coins);
      assert more[..m] == pool[..m];
      assert TurnedAway(tx, more, m, height, coins);
    }
  }

  /** Offering adds to the pool, in their order, transactions that were offered. Every one of them ends up in the pool,
      unless the ledger does not accept it on the pool at its turn, or its identifier is taken there. */
  lemma {:induction false} OfferedMeaning(list: seq<Transaction>, offers: seq<Transaction>, height: nat, coins: Utxos, n: nat)
    requires n <= |offers| && CoinsInRange(coins)
    ensures var pool := Offered(list, offers, height, coins, n);
            && list <= pool && InOrder(pool[|list|..], offers[..n])
            && forall k :: 0 <= k < n ==> Returned(offers[k], pool, |list|, height, coins)
  {
    hide Admission, Returned, InOrder;
    if n == 0 {
      NothingInOrder(offers[..0]);
      assert list[|list|..] == [];
    } else {
      OfferedMeaning(list, offers, height, coins, n - 1);
      var (before, tx) := (Offered(list, offers, height, coins, n - 1), offers[n - 1]);
      var pool := Offered(list, offers, height, coins, n);
      NextInOrder(before[|list|..], offers[..n - 1], tx);
      assert offers[..n] == offers[..n - 1] + [tx];
      if pool != before {
        assert pool[|list|..] == before[|list|..] + [tx];
      }
      forall k | 0 <= k < n
        ensures Returned(offers[k], pool, |list|, height, coins)
      {
        if k == n - 1 {
          OfferOutcome(before, tx, |list|, height, coins);
        } else if pool != before {
          ReturnedStays(offers[k], before, tx, |list|, height, coins);
        }
      }
    }
  }

  lemma {:induction false} OfferOutcome(before: seq<Transaction>, tx: Transaction, from: nat, height: nat, coins: Utxos)
    requires from <= |before| && CoinsInRange(coins)
    ensures var pool := if Admission(before, tx, height, coins).Ok? then before + [tx] else before;
            Returned(tx, pool, from, height, coins)
  {
    hide Admission, Replay, Acceptable, Ids;
    AdmissionExactly(before, tx, height, coins);
    if Admission(before, tx, height, coins).Ok? {
      assert (before + [tx])[|before|] == tx;
    } else {
      assert before[..|before|] == before;
      assert TurnedAway(tx, before, |before|, height, coins);
    }
  }

  /** A transaction is admitted exactly if the pool replays, its identifier is new there, and the ledger accepts it on the
      pool's effective coins. */
  lemma {:induction false} AdmissionExactly(list: seq<Transaction>, tx: Transaction, height: nat, coins: Utxos)
    requires CoinsInRange(coins)
    ensures Admission(list, tx, height, coins).Ok? <==>
              && Replayable(list, height, coins) && TxId(tx) !in Ids(list)
              && Acceptable(tx, height, Replay(list, height, coins, |list|).value.1)
  {
    if Replayable(list, height, coins) {
      ReplayConserves(list, height, coins, |list|);
      var effective := Replay(list, height, coins, |list|).value.1;
      ApplyMeaning(tx, height, effective);
      hide Apply, Acceptable, Total, Replay, InputsSpendable;
      if Acceptable(tx, height, effective) {
        AcceptableShape(tx, height, effective);
      } else {
        AppliedShape(tx, height, effective);
      }
    }
  }

  lemma {:induction false} AppliedShape(tx: Transaction, height: nat, coins: Utxos)
    ensures Apply(tx, height, coins).0.Ok? ==> StructureValid(tx) && !IsCoinbase(tx)
  {
    hide StructureValid, CheckInputs, AddOutputs;
  }

  /** What a refresh makes of a pool: of its transactions those in kept stay, of the disconnected ones others are added
      behind them, both in their order; and none is missing without a reason. */
  ghost predicate Refreshed(before: seq<Transaction>, kept: seq<Transaction>, disconnected: seq<Transaction>,
                            after: seq<Transaction>, s: State) {
    var (height, confirmed) := (|s.blocks|, TxIdSet(s.blocks));
    && kept <= after && InOrder(kept, before) && InOrder(after[|kept|..], disconnected)
    && (forall k :: 0 <= k < |kept| ==> TxId(kept[k]) !in confirmed)
    && (forall k :: 0 <= k < |before| ==> AccountedFor(before[k], kept, height, s.utxos, confirmed))
    && (forall k :: 0 <= k < |disconnected| ==> Returned(disconnected[k], after, |kept|, height, s.utxos))
  }

  lemma {:induction false} RefreshMeaning(before: seq<Transaction>, disconnected: seq<Transaction>, s: State)
    requires Settled(s) && DistinctIds(before)
    ensures var kept := Revalidated(before, |s.blocks|, s.utxos, TxIdSet(s.blocks), |before|).0;
            Refreshed(before, kept, disconnected, Offered(kept, disconnected, |s.blocks|, s.utxos, |disconnected|), s)
  {
    hide Settled, Revalidated, Offered, AccountedFor, Returned, InOrder, DistinctIds, TxIdSet;
    SettledCoinsConfirmed(s);
    ConfirmedAreFresh(before, s.utxos, TxIdSet(s.blocks));
    var kept := Revalidated(before, |s.blocks|, s.utxos, TxIdSet(s.blocks), |before|).0;
    RevalidatedMeaning(before, |s.blocks|, s.utxos, TxIdSet(s.blocks), |before|);
    OfferedMeaning(kept, disconnected, |s.blocks|, s.utxos, |disconnected|);
    assert before[..|before|] == before && disconnected[..|disconnected|] == disconnected;
  }

  /** After a switch of chains the pool is revalidated and the disconnected transactions are offered to it again, some of
      which the new chain may have made invalid. Whatever becomes of them, the pool ends replayable on the new chain. */
  method Refresh(pool: TestnetMempool, chain: State, disconnected: seq<Transaction>, save: nat -> SaveOutcome)
    returns (r: Result<nat>)
    requires Settled(chain) && DistinctIds(pool.transactions)
    modifies pool
    ensures Replayable(pool.transactions, |chain.blocks|, chain.utxos) && DistinctIds(pool.transactions)
    ensures var height := |chain.blocks|;
            var kept := Revalidated(old(pool.transactions), height, chain.utxos, TxIdSet(chain.blocks), |old(pool.transactions)|).0;
            pool.transactions == if save(0) == Saves then Offered(kept, disconnected, height, chain.utxos, |disconnected|) else kept
    ensures var kept := Revalidated(old(pool.transactions), |chain.blocks|, chain.utxos, TxIdSet(chain.blocks),
                                    |old(pool.transactions)|).0;
            Refreshed(old(pool.transactions), kept, if save(0) == Saves then disconnected else [], pool.transactions, chain)
    ensures r.Ok? <==> save(0) == Saves
    ensures r.Ok? ==> |pool.transactions| >= r.value
  {
    hide Settled, Replay, DistinctIds, TxIdSet, Admission, Revalidated, Refreshed;
    SettledCoinsConfirmed(chain);
    RefreshMeaning(pool.transactions, if save(0) == Saves then disconnected else [], chain);
    var confirmed := TransactionIds(chain.blocks);
    ConfirmedAreFresh(pool.transactions, chain.utxos, confirmed);
    var _ :- pool.Revalidate(chain.utxos, |chain.blocks|, confirmed, save(0));
    var resurrected: nat := 0;
    ghost var kept := pool.transactions;
    for i := 0 to |disconnected|
      invariant pool.transactions == Offered(kept, disconnected, |chain.blocks|, chain.utxos, i)
      invariant Replayable(pool.transactions, |chain.blocks|, chain.utxos) && DistinctIds(pool.transactions)
      invariant |pool.transactions| >= resurrected
    {
      var added := pool.Add(disconnected[i], chain.utxos, |chain.blocks|, save(i + 1));
      if added.Ok? {
        resurrected := resurrected + 1;
      }
    }
    return Ok(resurrected);
  }

  // ---------------------------------------------------------------- mining from the pool

  /** A pool that replays on a settled chain can be mined from: applying it for the next block succeeds, with the same
      fees. */
  lemma {:induction false} PoolIsMineable(list: seq<Transaction>, s: State, n: nat)
    requires Settled(s) && n <= |list| && Replayable(list, |s.blocks|, s.utxos)
    ensures Replay(list, |s.blocks|, s.utxos, n).Ok?
    ensures PendingFees(list, |s.blocks|, s.utxos, n) == Replay(list, |s.blocks|, s.utxos, n)
  {
    hide Apply, VerifyPrefix, GenesisLocked, Total;
    SettledCoinsConfirmed(s);
    ReplayStops(list, |s.blocks|, s.utxos, n, |list|);
    FeesBounded(list, |s.blocks|, s.utxos, n);
    if n > 0 {
      PoolIsMineable(list, s, n - 1);
    }
  }

  /** A transaction that the ledger would accept on the pool's effective coins is admitted if its identifier is new. */
  lemma {:induction false} AcceptableIsAdmitted(list: seq<Transaction>, tx: Transaction, height: nat, coins: Utxos)
    requires CoinsInRange(coins) && Replayable(list, height, coins) && TxId(tx) !in Ids(list)
    requires Acceptable(tx, height, Replay(list, height, coins, |list|).value.1)
    ensures Admission(list, tx, height, coins) == Ok(())
  {
    ReplayConserves(list, height, coins, |list|);
    AcceptableShape(tx, height, Replay(list, height, coins, |list|).value.1);
    hide Apply, Acceptable, Total;
    ApplyMeaning(tx, height, Replay(list, height, coins, |list|).value.1);
  }

  lemma {:induction false} AcceptableShape(tx: Transaction, height: nat, coins: Utxos)
    requires Acceptable(tx, height, coins)
    ensures StructureValid(tx) && !IsCoinbase(tx)
  {
    hide StructureValid, InputsSpendable, InputSum, ValueSum, Fresh;
  }

  // ---------------------------------------------------------------- why freshness is needed

  /** No call in the program meets these hypotheses: every caller passes the coins and the confirmed identifiers of one
      settled chain, which are fresh. Without freshness a dropped transaction can leave an output behind that a later one then spends: the first has its second
      outpoint taken, its first one is inserted before that is noticed, and the second transaction, which spends it, is
      kept although it cannot be applied to the chain's coins. */
  lemma {:induction false} StaleOutputKeepsOrphan(dropped: Transaction, orphan: Transaction, height: nat, coins: Utxos)
    requires CoinsInRange(coins) && |dropped.outputs| == 2 && StructureValid(dropped) && !IsCoinbase(dropped)
    requires CheckInputs(dropped, height, coins, |dropped.inputs|).Ok?
    requires CheckInputs(dropped, height, coins, |dropped.inputs|).value >= ValueSum(dropped.outputs)
    requires OutPoint(TxId(dropped), 0) !in coins && OutPoint(TxId(dropped), 1) in coins - SpentBy(dropped.inputs)
    requires |orphan.inputs| > 0 && orphan.inputs[0].previousOutput == OutPoint(TxId(dropped), 0)
    requires Apply(orphan, height, Apply(dropped, height, coins).1).0.Ok?
    ensures Revalidated([dropped, orphan], height, coins, {}, 2).0 == [orphan]
    ensures !Replayable([orphan], height, coins)
  {
    hide CheckInputs, StructureValid, ValueSum;
    var list := [dropped, orphan];
    AddOutputsMeaning(dropped.outputs, TxId(dropped), height, false, coins - SpentBy(dropped.inputs), 2);
    hide AddOutputs, Apply;
    assert Apply(dropped, height, coins).0.Err?;
    assert Revalidated(list, height, coins, {}, 1) == ([], Apply(dropped, height, coins).1);
    assert Replay([orphan], height, coins, 0) == Ok((0, coins));
    ApplyMeaning(orphan, height, coins);
  }
}
