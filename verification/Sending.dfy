/** Paying to an address from the wallet's coins, unconfirmed ones included (src/rpc_commands.cpp). */
module Sending {
  import opened Amounts
  import opened Errors
  import opened Transactions
  import opened Scripts
  import opened Blocks
  import opened Utxo
  import opened UtxoRules
  import opened Validation
  import opened Ledger
  import opened ChainState
  import opened Mempool
  import opened Addresses
  import opened Payments
  import opened Wallet

  /** Neither the pool nor a coin bears the transaction's identifier. */
  ghost predicate NewId(tx: Transaction, list: seq<Transaction>, coins: Utxos) {
    TxId(tx) !in Ids(list) && forall o :: o in coins ==> o.txid != TxId(tx)
  }

  /** What the pool makes spendable was created by outputs that transactions can have. */
  lemma {:induction false} ReplayBelow(list: seq<Transaction>, height: nat, coins: Utxos, n: nat)
    requires n <= |list| && CreatedBelow(coins, height + 1) && Replay(list, height, coins, n).Ok?
    ensures CreatedBelow(Replay(list, height, coins, n).value.1, height + 1)
  {
    hide Apply;
    if n > 0 {
      ReplayBelow(list, height, coins, n - 1);
      AppliedBelow(list[n - 1], height, Replay(list, height, coins, n - 1).value.1);
    }
  }

  /** The coins of a settled chain, and those that a replayable pool makes of them, are in range, and none sits at the
      null outpoint, so spending one coin is never mistaken for a coinbase. */
  lemma {:induction false} EffectiveCoinsSpendable(list: seq<Transaction>, s: State)
    requires Settled(s) && Replayable(list, |s.blocks|, s.utxos)
    ensures var coins := Replay(list, |s.blocks|, s.utxos, |list|).value.1;
            NULL_OUTPOINT !in coins && CoinsInRange(coins)
  {
    hide VerifyPrefix, GenesisLocked, Apply;
    PrefixBelow(s.blocks, |s.blocks|);
    Conservation(s.blocks);
    ReplayBelow(list, |s.blocks|, s.utxos, |list|);
    ReplayConserves(list, |s.blocks|, s.utxos, |list|);
  }

  lemma {:induction false} NewIdIsFresh(tx: Transaction, list: seq<Transaction>, coins: Utxos)
    requires NewId(tx, list, coins) && |tx.outputs| <= MAX_TRANSACTION_ITEMS
    ensures Fresh(TxId(tx), coins - SpentBy(tx.inputs), |tx.outputs|)
  {
  }

  lemma {:induction false} PaidOutputs(tx: Transaction, coins: Utxos, amount: i64, to: Script, back: Script, rate: i64)
    requires Payments.Pays(tx, coins, amount, to, back, rate)
    ensures |tx.outputs| <= MAX_TRANSACTION_ITEMS
  {
    hide FeeOf, InputSum, ValueSum;
  }

  /** On a settled chain the pool admits whatever payment the wallet makes, if the signer works and
      the payment's identifier is new; only saving the pool can fail then. A pool that does not replay pays nothing. */
  method SendToAddress(wallet: HdWalletBackend, pool: TestnetMempool, chain: State, address: string, amount: i64, rate: i64,
                       save: SaveOutcome)
    returns (r: Result<Hash256>, ghost payment: Option<Transaction>)
    requires wallet.Valid() && Settled(chain)
    modifies wallet`ownedCache, wallet`cacheValid, pool
    ensures wallet.Valid()
    ensures payment.None? ==> r.Err? && pool.transactions == old(pool.transactions)
    ensures payment.Some? ==> old(Replayable(pool.transactions, |chain.blocks|, chain.utxos))
                              && Replayable(pool.transactions, |chain.blocks|, chain.utxos)
    ensures r.Ok? ==> payment.Some? && r.value == TxId(payment.value)
                      && pool.transactions == old(pool.transactions) + [payment.value]
    ensures payment.Some? && SignerWorksFor(wallet.Keys()) &&
            NewId(payment.value, old(pool.transactions),
                  Replay(old(pool.transactions), |chain.blocks|, chain.utxos, |old(pool.transactions)|).value.1) ==>
              && pool.transactions == old(pool.transactions) + [payment.value]
              && r == if save == Saves then Ok(TxId(payment.value)) else Err(SaveFailed)
  {
    hide Settled, Replay, Acceptable, Fresh, Payments.Pays, Admission, ListsSpendable, Cheapest, NoneSuffices, DecodeAddress, Verify;
    payment := None;
    ghost var list := pool.transactions;
    var height := |chain.blocks|;
    var effective :- pool.EffectiveUtxos(chain.utxos, height);
    EffectiveCoinsSpendable(list, chain);
    var destination :- DecodeTestnetAddress(address);
    var tx :- wallet.CreatePayment(effective, height, destination, amount, rate);
    payment := Some(tx);
    if SignerWorksFor(wallet.Keys()) && NewId(tx, list, effective) {
      var (to, back) := (MakeP2pkScript(destination).value, MakeP2pkScript(PublicKeyOf(wallet.ChangeKey())).value);
      PaidOutputs(tx, effective, amount, to, back, rate);
      NewIdIsFresh(tx, list, effective);
      SettledCoinsConfirmed(chain);
      AcceptableIsAdmitted(list, tx, height, chain.utxos);
    }
    var _ :- pool.Add(tx, chain.utxos, height, save);
    return Ok(TxId(tx)), payment;
  }
}
