/** Whole-chain histories: no outpoint is ever created twice or spent twice, and the UTXO map is exactly what has
    been created and not spent (src/utxo.cpp, src/chain.cpp). */
module History {
  import opened Amounts
  import opened Errors
  import opened Transactions
  import opened Scripts
  import opened Blocks
  import opened Utxo
  import opened UtxoRules
  import opened Validation
  import opened Ledger

  /** A transaction in the order in which its outputs reach the UTXO map: a block's coinbase comes last. */
  datatype Entry = Entry(tx: Transaction, height: nat, coinbase: bool)

  ghost function Regulars(transactions: seq<Transaction>, height: nat, n: nat): seq<Entry>
    requires n <= |transactions|
  {
    if n <= 1 then [] else Regulars(transactions, height, n - 1) + [Entry(transactions[n - 1], height, false)]
  }

  ghost function BlockEntries(transactions: seq<Transaction>, height: nat): seq<Entry> {
    if |transactions| == 0 then []
    else Regulars(transactions, height, |transactions|) + [Entry(transactions[0], height, true)]
  }

  /** The entries of the blocks at heights 1 to n - 1. */
  ghost function Entries(blocks: seq<StoredBlock>, n: nat): seq<Entry>
    requires n <= |blocks|
  {
    if n <= 1 then [] else Entries(blocks, n - 1) + BlockEntries(blocks[n - 1].block.transactions, n - 1)
  }

  ghost predicate Extends(e: Entry, before: Utxos, after: Utxos) {
    && StructureValid(e.tx)
    && (e.coinbase <==> IsCoinbase(e.tx))
    && if e.coinbase then AddCoinbase(e.tx, e.height, before).0.Ok? && AddCoinbase(e.tx, e.height, before).1 == after
       else Apply(e.tx, e.height, before).0.Ok? && Apply(e.tx, e.height, before).1 == after
  }

  /** The history, applied entry by entry to an empty map, yields the coins. */
  ghost predicate Replays(h: seq<Entry>, coins: Utxos) {
    if h == [] then coins == map[]
    else exists before ::
      && Replays(h[..|h| - 1], before) && CoinsInRange(before)
      && Extends(h[|h| - 1], before, coins)
  }

  // ---------------------------------------------------------------- a verified chain is a replayed history

  lemma {:induction false} ReplaysNext(h: seq<Entry>, before: Utxos, e: Entry, after: Utxos)
    requires Replays(h, before) && CoinsInRange(before) && Extends(e, before, after)
    ensures Replays(h + [e], after)
  {
    hide Extends;
    assert (h + [e])[..|h|] == h;
  }

  lemma {:induction false} RegularsReplay(h: seq<Entry>, transactions: seq<Transaction>, height: nat,
                                          coins: Utxos, n: nat)
    requires n <= |transactions| && CoinbaseFirstOnly(transactions)
    requires forall i :: 0 <= i < |transactions| ==> StructureValid(transactions[i])
    requires Replays(h, coins) && CoinsInRange(coins)
    requires ConnectTransactions(transactions, height, coins, n).Ok?
    ensures var after := ConnectTransactions(transactions, height, coins, n).value.1;
            Replays(h + Regulars(transactions, height, n), after) && CoinsInRange(after)
  {
    hide Replays, Apply, StructureValid;
    if n <= 1 {
      assert h + [] == h;
    } else {
      RegularsReplay(h, transactions, height, coins, n - 1);
      var before := ConnectTransactions(transactions, height, coins, n - 1).value.1;
      var e := Entry(transactions[n - 1], height, false);
      var after := ConnectTransactions(transactions, height, coins, n).value.1;
      ApplyConserves(transactions[n - 1], height, before);
      ReplaysNext(h + Regulars(transactions, height, n - 1), before, e, after);
      assert h + Regulars(transactions, height, n) == h + Regulars(transactions, height, n - 1) + [e];
    }
  }

  lemma {:induction false} ChainReplays(blocks: seq<StoredBlock>, n: nat)
    requires 0 < n <= |blocks| && VerifyPrefix(blocks, n).Ok?
    ensures Replays(Entries(blocks, n), VerifyPrefix(blocks, n).value)
    ensures CoinsInRange(VerifyPrefix(blocks, n).value)
  {
    hide Replays, Apply, AddCoinbase, ConnectTransactions, VerifyPrefix, StructureValid;
    if n == 1 {
      ReplaysNothing(blocks);
    } else {
      ConnectedBlockShape(blocks, n);
      ChainReplays(blocks, n - 1);
      var transactions := blocks[n - 1].block.transactions;
      var before := VerifyPrefix(blocks, n - 1).value;
      var after := VerifyPrefix(blocks, n).value;
      var h := Entries(blocks, n - 1);
      RegularsReplay(h, transactions, n - 1, before, |transactions|);
      var connected := ConnectTransactions(transactions, n - 1, before, |transactions|).value.1;
      AddCoinbaseCreates(transactions[0], n - 1, connected);
      var e := Entry(transactions[0], n - 1, true);
      var regulars := Regulars(transactions, n - 1, |transactions|);
      ReplaysNext(h + regulars, connected, e, after);
      assert Entries(blocks, n) == h + regulars + [e];
    }
  }

  lemma {:induction false} ReplaysNothing(blocks: seq<StoredBlock>)
    requires |blocks| > 0 && VerifyPrefix(blocks, 1).Ok?
    ensures VerifyPrefix(blocks, 1).value == map[] && Replays([], map[])
  {
  }

  // ---------------------------------------------------------------- what a sound history looks like

  ghost predicate Creates(e: Entry, o: OutPoint) {
    TxId(e.tx) == o.txid && o.index < |e.tx.outputs|
  }

  ghost predicate Spends(e: Entry, o: OutPoint) {
    !e.coinbase && o in SpentBy(e.tx.inputs)
  }

  ghost predicate Created(h: seq<Entry>, o: OutPoint) {
    exists k :: 0 <= k < |h| && Creates(h[k], o)
  }

  ghost predicate Spent(h: seq<Entry>, o: OutPoint) {
    exists k :: 0 <= k < |h| && Spends(h[k], o)
  }

  ghost predicate DistinctIds(h: seq<Entry>) {
    forall i, j :: 0 <= i < j < |h| ==> TxId(h[i].tx) != TxId(h[j].tx)
  }

  /** No input repeats an outpoint, whether inside one transaction or across the history. */
  ghost predicate SpentOnce(h: seq<Entry>) {
    && (forall i :: 0 <= i < |h| && !h[i].coinbase ==> DistinctInputs(h[i].tx.inputs))
    && (forall i, j, o :: 0 <= i < j < |h| && Spends(h[i], o) ==> !Spends(h[j], o))
  }

  /** Every spent outpoint was created earlier, and at least 100 blocks earlier if by a coinbase. */
  ghost predicate SpentAfterCreation(h: seq<Entry>) {
    forall j, o :: 0 <= j < |h| && Spends(h[j], o) ==>
      exists i :: 0 <= i < j && Creates(h[i], o)
                  && (h[i].coinbase ==> h[j].height >= h[i].height + COINBASE_MATURITY)
  }

  /** The coins are exactly the created outputs that are not spent, each recorded as it was created. */
  ghost predicate ExactlyUnspent(h: seq<Entry>, coins: Utxos) {
    && (forall o :: o in coins <==> Created(h, o) && !Spent(h, o))
    && (forall o, k :: o in coins && 0 <= k < |h| && Creates(h[k], o) ==>
          coins[o] == Coin(h[k].tx.outputs[o.index], h[k].height, h[k].coinbase))
  }

  ghost predicate Sound(h: seq<Entry>, coins: Utxos) {
    DistinctIds(h) && SpentOnce(h) && SpentAfterCreation(h) && ExactlyUnspent(h, coins)
  }

  /** Identifiers do not collide on the transactions of the history. */
  ghost predicate CollisionFree(h: seq<Entry>) {
    forall i, j :: 0 <= i < |h| && 0 <= j < |h| && TxId(h[i].tx) == TxId(h[j].tx) ==> h[i].tx == h[j].tx
  }

  ghost predicate DistinctCoinbases(h: seq<Entry>) {
    forall i, j :: 0 <= i < j < |h| && h[i].coinbase && h[j].coinbase ==> TxId(h[i].tx) != TxId(h[j].tx)
  }

  ghost predicate WellTagged(h: seq<Entry>) {
    forall i :: 0 <= i < |h| ==> StructureValid(h[i].tx) && (h[i].coinbase <==> IsCoinbase(h[i].tx))
  }

  // ---------------------------------------------------------------- one step

  /** The effect of one entry on the map, without the order of the loops. */
  ghost predicate Step(e: Entry, before: Utxos, after: Utxos) {
    && (forall o :: o in after <==> (o in before && !Spends(e, o)) || Creates(e, o))
    && (forall o :: o in after && Creates(e, o) ==>
          after[o] == Coin(e.tx.outputs[o.index], e.height, e.coinbase))
    && (forall o :: o in after && !Creates(e, o) ==> after[o] == before[o])
    && (forall o :: Spends(e, o) ==> o in before && Mature(before[o], e.height))
    && (forall o :: Creates(e, o) && !Spends(e, o) ==> o !in before)
    && (!e.coinbase ==> DistinctInputs(e.tx.inputs))
  }

  lemma {:induction false} NewCoinsMembers(outputs: seq<TxOutput>, txid: Hash256, height: nat, coinbase: bool, o: OutPoint)
    requires |outputs| <= MAX_TRANSACTION_ITEMS
    ensures var created := NewCoins(outputs, txid, height, coinbase, |outputs|);
            && (o in created <==> o.txid == txid && o.index < |outputs|)
            && (o in created ==> created[o] == Coin(outputs[o.index], height, coinbase))
  {
    if o.txid == txid && o.index < |outputs| {
      assert o == OutPoint(txid, o.index);
    }
  }

  lemma {:induction false} CoinbaseIsStep(e: Entry, before: Utxos, after: Utxos)
    requires e.coinbase && Extends(e, before, after) && CoinsInRange(before)
    ensures Step(e, before, after)
  {
    hide AddCoinbase, Total, NewCoins, ValueSum, CoinsInRange;
    forall o: OutPoint {
      NewCoinsMembers(e.tx.outputs, TxId(e.tx), e.height, true, o);
    }
    AddCoinbaseCreates(e.tx, e.height, before);
  }

  lemma {:induction false} RegularIsStep(e: Entry, before: Utxos, after: Utxos)
    requires !e.coinbase && Extends(e, before, after) && CoinsInRange(before)
    ensures Step(e, before, after)
  {
    hide Apply, NewCoins, ValueSum, CoinsInRange, SpentBy, DistinctInputs, Mature;
    forall o: OutPoint {
      NewCoinsMembers(e.tx.outputs, TxId(e.tx), e.height, false, o);
    }
    ApplyMeaning(e.tx, e.height, before);
    assert e.tx.inputs[..|e.tx.inputs|] == e.tx.inputs;
    SpentAreMature(e, before);
  }

  lemma {:induction false} ExtendsIsStep(e: Entry, before: Utxos, after: Utxos)
    requires Extends(e, before, after) && CoinsInRange(before)
    ensures Step(e, before, after)
  {
    hide Extends, Step, CoinsInRange;
    if e.coinbase {
      CoinbaseIsStep(e, before, after);
    } else {
      RegularIsStep(e, before, after);
    }
  }

  lemma {:induction false} SpentAreMature(e: Entry, before: Utxos)
    requires !e.coinbase && InputsSpendable(e.tx, e.height, before, |e.tx.inputs|)
    ensures forall o :: Spends(e, o) ==> o in before && Mature(before[o], e.height)
  {
    forall o | Spends(e, o)
      ensures o in before && Mature(before[o], e.height)
    {
      var i :| 0 <= i < |e.tx.inputs| && e.tx.inputs[i].previousOutput == o;
    }
  }

  /** A repeated identifier would make the new transaction an old one, whose inputs are already spent. */
  lemma {:induction false} IdIsNew(h: seq<Entry>, before: Utxos, e: Entry, after: Utxos)
    requires Sound(h, before) && Step(e, before, after)
    requires WellTagged(h + [e]) && CollisionFree(h + [e]) && DistinctCoinbases(h + [e])
    ensures forall i :: 0 <= i < |h| ==> TxId(h[i].tx) != TxId(e.tx)
  {
    var longer := h + [e];
    forall i | 0 <= i < |h|
      ensures TxId(h[i].tx) != TxId(e.tx)
    {
      assert longer[i] == h[i] && longer[|h|] == e;
      if !e.coinbase {
        var o := e.tx.inputs[0].previousOutput;
        assert Spends(e, o);
        assert o in before;
        assert !Spends(h[i], o);
      }
    }
  }

  lemma {:induction false} UnspentNext(h: seq<Entry>, before: Utxos, e: Entry, after: Utxos)
    requires Sound(h, before) && Step(e, before, after)
    requires forall i :: 0 <= i < |h| ==> TxId(h[i].tx) != TxId(e.tx)
    ensures ExactlyUnspent(h + [e], after)
  {
    hide Mature, DistinctInputs, SpentBy;
    var longer := h + [e];
    forall o: OutPoint
      ensures Created(longer, o) <==> Created(h, o) || Creates(e, o)
      ensures Spent(longer, o) <==> Spent(h, o) || Spends(e, o)
    {
      MembersNext(h, e, o);
    }
    forall o: OutPoint | Creates(e, o)
      ensures !Created(h, o) && !Spent(h, o) && !Spends(e, o)
    {
      NewOutpointsUnused(h, before, e, after, o);
    }
    forall o, k | o in after && 0 <= k < |longer| && Creates(longer[k], o)
      ensures after[o] == Coin(longer[k].tx.outputs[o.index], longer[k].height, longer[k].coinbase)
    {
      if k < |h| {
        assert longer[k] == h[k];
        assert !Creates(e, o);
        assert o in before;
      }
    }
  }

  lemma {:induction false} MembersNext(h: seq<Entry>, e: Entry, o: OutPoint)
    ensures Created(h + [e], o) <==> Created(h, o) || Creates(e, o)
    ensures Spent(h + [e], o) <==> Spent(h, o) || Spends(e, o)
  {
    hide Creates, Spends;
    var longer := h + [e];
    assert longer[|h|] == e;
    assert forall k :: 0 <= k < |h| ==> longer[k] == h[k];
    if Created(h, o) {
      var k :| 0 <= k < |h| && Creates(h[k], o);
      assert Creates(longer[k], o);
    }
    if Spent(h, o) {
      var k :| 0 <= k < |h| && Spends(h[k], o);
      assert Spends(longer[k], o);
    }
    if Creates(e, o) {
      assert Creates(longer[|h|], o);
    }
    if Spends(e, o) {
      assert Spends(longer[|h|], o);
    }
  }

  lemma {:induction false} NewOutpointsUnused(h: seq<Entry>, before: Utxos, e: Entry, after: Utxos, o: OutPoint)
    requires Sound(h, before) && Step(e, before, after) && Creates(e, o)
    requires forall i :: 0 <= i < |h| ==> TxId(h[i].tx) != TxId(e.tx)
    ensures !Created(h, o) && !Spent(h, o) && !Spends(e, o)
  {
    hide Mature, DistinctInputs, SpentBy;
    SpentWasCreated(h, o);
  }

  lemma {:induction false} SpentWasCreated(h: seq<Entry>, o: OutPoint)
    requires SpentAfterCreation(h)
    ensures Spent(h, o) ==> Created(h, o)
  {
    hide Creates, Spends;
    if Spent(h, o) {
      var k :| 0 <= k < |h| && Spends(h[k], o);
      var i :| 0 <= i < k && Creates(h[i], o);
    }
  }

  lemma {:induction false} SpendingNext(h: seq<Entry>, before: Utxos, e: Entry, after: Utxos)
    requires Sound(h, before) && Step(e, before, after)
    ensures SpentOnce(h + [e]) && SpentAfterCreation(h + [e])
  {
    hide DistinctInputs, SpentBy, Creates;
    var longer := h + [e];
    assert forall k :: 0 <= k < |h| ==> longer[k] == h[k];
    forall i, j, o | 0 <= i < j < |longer| && Spends(longer[i], o)
      ensures !Spends(longer[j], o)
    {
      assert Spent(h, o);
    }
    forall j, o | 0 <= j < |longer| && Spends(longer[j], o)
      ensures exists i :: 0 <= i < j && Creates(longer[i], o)
                && (longer[i].coinbase ==> longer[j].height >= longer[i].height + COINBASE_MATURITY)
    {
      if j < |h| {
        var i :| 0 <= i < j && Creates(h[i], o) && (h[i].coinbase ==> h[j].height >= h[i].height + COINBASE_MATURITY);
        assert Creates(longer[i], o);
      } else {
        assert o in before && Mature(before[o], e.height);
        var i :| 0 <= i < |h| && Creates(h[i], o);
        assert before[o].height == h[i].height && before[o].coinbase == h[i].coinbase;
        assert Creates(longer[i], o);
      }
    }
  }

  lemma {:induction false} SoundNext(h: seq<Entry>, before: Utxos, e: Entry, after: Utxos)
    requires Sound(h, before) && Step(e, before, after)
    requires WellTagged(h + [e]) && CollisionFree(h + [e]) && DistinctCoinbases(h + [e])
    ensures Sound(h + [e], after)
  {
    hide Step, WellTagged, CollisionFree, DistinctCoinbases, SpentOnce, SpentAfterCreation, ExactlyUnspent;
    IdIsNew(h, before, e, after);
    UnspentNext(h, before, e, after);
    SpendingNext(h, before, e, after);
    assert DistinctIds(h + [e]);
  }

  // ---------------------------------------------------------------- the theorem

  lemma {:induction false} ReplayedIsSound(h: seq<Entry>, coins: Utxos)
    requires Replays(h, coins) && CollisionFree(h) && DistinctCoinbases(h)
    ensures Sound(h, coins) && WellTagged(h)
    decreases |h|
  {
    hide Step, Sound, Extends, CoinsInRange, CollisionFree, DistinctCoinbases, WellTagged;
    if h == [] {
      EmptyIsSound();
    } else {
      var (shorter, e) := (h[..|h| - 1], h[|h| - 1]);
      var before :| Replays(shorter, before) && CoinsInRange(before) && Extends(e, before, coins);
      assert shorter + [e] == h;
      PrefixIdeal(shorter, e);
      ReplayedIsSound(shorter, before);
      ExtendsIsStep(e, before, coins);
      TaggedNext(shorter, before, e, coins);
      SoundNext(shorter, before, e, coins);
    }
  }

  lemma {:induction false} PrefixIdeal(h: seq<Entry>, e: Entry)
    requires CollisionFree(h + [e]) && DistinctCoinbases(h + [e])
    ensures CollisionFree(h) && DistinctCoinbases(h)
  {
    assert forall k :: 0 <= k < |h| ==> (h + [e])[k] == h[k];
  }

  lemma {:induction false} TaggedNext(h: seq<Entry>, before: Utxos, e: Entry, after: Utxos)
    requires WellTagged(h) && Extends(e, before, after)
    ensures WellTagged(h + [e])
  {
    hide Apply, AddCoinbase;
  }

  lemma {:induction false} EmptyIsSound()
    ensures Sound([], map[]) && WellTagged([])
  {
  }

  // ---------------------------------------------------------------- every spend is signed

  /** Every coin is an output of the history. */
  ghost predicate CoinsAreOutputs(h: seq<Entry>, coins: Utxos) {
    forall o :: o in coins ==> exists k :: 0 <= k < |h| && Pays(h[k], o, coins[o].output)
  }

  ghost predicate Pays(e: Entry, o: OutPoint, output: TxOutput) {
    Creates(e, o) && e.tx.outputs[o.index] == output
  }

  /** The input spends an output of an earlier transaction, with a signature by the key of that output's script. */
  ghost predicate SpendsSigned(h: seq<Entry>, j: nat, k: nat)
    requires j < |h| && k < |h[j].tx.inputs|
  {
    exists i, output, key, der :: 0 <= i < j && Pays(h[i], h[j].tx.inputs[k].previousOutput, output)
                                  && SignedBy(h[j].tx, k, output.scriptPubKey, key, der)
  }

  ghost predicate AllSigned(h: seq<Entry>) {
    forall j, k :: 0 <= j < |h| && !h[j].coinbase && 0 <= k < |h[j].tx.inputs| ==> SpendsSigned(h, j, k)
  }

  lemma {:induction false} OutputsNext(h: seq<Entry>, before: Utxos, e: Entry, after: Utxos)
    requires CoinsAreOutputs(h, before) && Step(e, before, after)
    ensures CoinsAreOutputs(h + [e], after)
  {
    hide Spends, Mature, DistinctInputs;
    var longer := h + [e];
    assert forall k :: 0 <= k < |h| ==> longer[k] == h[k];
    forall o | o in after
      ensures exists k :: 0 <= k < |longer| && Pays(longer[k], o, after[o].output)
    {
      if Creates(e, o) {
        assert Pays(longer[|h|], o, after[o].output);
      } else {
        var k :| 0 <= k < |h| && Pays(h[k], o, before[o].output);
        assert Pays(longer[k], o, after[o].output);
      }
    }
  }

  lemma {:induction false} InputIsSigned(h: seq<Entry>, before: Utxos, e: Entry, after: Utxos, k: nat)
    requires CoinsAreOutputs(h, before) && CoinsInRange(before) && Extends(e, before, after)
    requires !e.coinbase && k < |e.tx.inputs|
    ensures SpendsSigned(h + [e], |h|, k)
  {
    hide Apply, StructureValid, SignedBy, Pays;
    var longer := h + [e];
    ApplyMeaning(e.tx, e.height, before);
    var o := e.tx.inputs[k].previousOutput;
    assert o in before && VerifyP2pkInput(e.tx, k, before[o].output.scriptPubKey);
    VerifyMeaning(e.tx, k, before[o].output.scriptPubKey);
    var key, der :| SignedBy(e.tx, k, before[o].output.scriptPubKey, key, der);
    var i :| 0 <= i < |h| && Pays(h[i], o, before[o].output);
    assert longer[i] == h[i] && longer[|h|] == e;
  }

  lemma {:induction false} SignedStays(h: seq<Entry>, e: Entry, j: nat, k: nat)
    requires j < |h| && k < |h[j].tx.inputs| && SpendsSigned(h, j, k)
    ensures SpendsSigned(h + [e], j, k)
  {
    hide SignedBy, Pays;
    var longer := h + [e];
    assert longer[j] == h[j];
    var i, output, key, der :| 0 <= i < j && Pays(h[i], h[j].tx.inputs[k].previousOutput, output)
                               && SignedBy(h[j].tx, k, output.scriptPubKey, key, der);
    assert longer[i] == h[i];
  }

  lemma {:induction false} ReplayedIsSigned(h: seq<Entry>, coins: Utxos)
    requires Replays(h, coins)
    ensures CoinsAreOutputs(h, coins) && AllSigned(h)
    decreases |h|
  {
    hide Step, Extends, CoinsInRange, CoinsAreOutputs, SpendsSigned;
    if h == [] {
      NoCoins();
    } else {
      var (shorter, e) := (h[..|h| - 1], h[|h| - 1]);
      var before :| Replays(shorter, before) && CoinsInRange(before) && Extends(e, before, coins);
      assert shorter + [e] == h;
      ReplayedIsSigned(shorter, before);
      ExtendsIsStep(e, before, coins);
      OutputsNext(shorter, before, e, coins);
      forall j, k | 0 <= j < |h| && !h[j].coinbase && 0 <= k < |h[j].tx.inputs|
        ensures SpendsSigned(h, j, k)
      {
        if j < |shorter| {
          assert shorter[j] == h[j];
          SignedStays(shorter, e, j, k);
        } else {
          InputIsSigned(shorter, before, e, coins, k);
        }
      }
    }
  }

  lemma {:induction false} NoCoins()
    ensures CoinsAreOutputs([], map[])
  {
  }

  /** In every verified chain, whatever its identifiers, each input of each transaction but the coinbases spends an output
      of an earlier transaction and carries a signature of the whole transaction by the key of that output's script. */
  lemma {:induction false} EverySpendSigned(blocks: seq<StoredBlock>)
    requires Verified(blocks)
    ensures AllSigned(Entries(blocks, |blocks|))
  {
    hide VerifyPrefix, GenesisLocked, AllSigned, Replays;
    ChainReplays(blocks, |blocks|);
    ReplayedIsSigned(Entries(blocks, |blocks|), Verify(blocks).value);
  }

  // ---------------------------------------------------------------- no double spends

  /** In a verified chain whose coinbases from height 1 on have distinct identifiers, on which identifiers do not
      collide: all identifiers are distinct, every outpoint is created at most once and spent at most once and
      only later, coinbase outputs only after 100 more blocks, and the UTXO map is exactly what is unspent. */
  lemma {:induction false} NoDoubleSpend(blocks: seq<StoredBlock>)
    requires Verified(blocks)
    requires CollisionFree(Entries(blocks, |blocks|)) && DistinctCoinbases(Entries(blocks, |blocks|))
    ensures Sound(Entries(blocks, |blocks|), Verify(blocks).value)
  {
    hide VerifyPrefix, GenesisLocked, Sound, CollisionFree, DistinctCoinbases;
    ChainReplays(blocks, |blocks|);
    ReplayedIsSound(Entries(blocks, |blocks|), Verify(blocks).value);
  }
}
