/** The wallet's view of the coins it owns and the payments it builds from them (src/hd_wallet_backend.cpp). */
module Wallet {
  import opened Amounts
  import opened Errors
  import opened Transactions
  import opened Scripts
  import opened Blocks
  import opened Utxo
  import opened UtxoRules
  import opened StoreFormats
  import opened Addresses
  import opened Payments

  const LOOKAHEAD := 20

  /** The key derived at a branch and index, left uninterpreted. */
  const HdKey: (nat, nat) -> SecretKey

  datatype Owned = Owned(script: Script, key: SecretKey)
  datatype Balance = Balance(total: int, spendable: int, immature: int)

  // ---------------------------------------------------------------- specification

  /** Scripts for the keys, in their order. */
  ghost function ScriptsFor(keys: seq<SecretKey>): Result<seq<Owned>> {
    if keys == [] then Ok([]) else
    var before :- ScriptsFor(keys[..|keys| - 1]);
    var key := keys[|keys| - 1];
    var script :- MakeP2pkScript(PublicKeyOf(key));
    Ok(before + [Owned(script, key)])
  }

  function Branch(branch: nat, count: nat): (keys: seq<SecretKey>)
    ensures |keys| == count
  {
    seq(count, i requires 0 <= i < count => HdKey(branch, i))
  }

  /** The key of the first entry with this script. */
  ghost function KeyFor(owned: seq<Owned>, script: Script, n: nat): Option<SecretKey>
    requires n <= |owned|
  {
    if n == 0 then None
    else if KeyFor(owned, script, n - 1).Some? then KeyFor(owned, script, n - 1)
    else if owned[n - 1].script == script then Some(owned[n - 1].key) else None
  }

  ghost predicate Owns(owned: seq<Owned>, coin: Coin) {
    KeyFor(owned, coin.output.scriptPubKey, |owned|).Some?
  }

  ghost function OwnedCoins(owned: seq<Owned>, coins: Utxos): Utxos {
    map o | o in coins && Owns(owned, coins[o]) :: coins[o]
  }

  ghost function SpendableCoins(owned: seq<Owned>, coins: Utxos, height: nat): Utxos {
    map o | o in coins && Owns(owned, coins[o]) && Mature(coins[o], height) :: coins[o]
  }

  /** What is assumed of the foreign signer for the wallet's keys. */
  ghost predicate SignerWorksFor(keys: seq<SecretKey>) {
    forall i, digest :: 0 <= i < |keys| ==> SignerWorks(keys[i], digest)
  }

  /** The order in which coins are chosen: by value, then by outpoint. */
  predicate Precedes(a: Available, b: Available) {
    var (x, y) := (a.coin.output.value, b.coin.output.value);
    x < y || (x == y && Before(a.outpoint, b.outpoint))
  }

  ghost predicate Ordered(items: seq<Available>) {
    forall i, j :: 0 <= i < j < |items| ==> Precedes(items[i], items[j])
  }

  ghost predicate Lists(items: seq<Available>, o: OutPoint) {
    exists i :: 0 <= i < |items| && items[i].outpoint == o
  }

  /** The items are exactly the owned mature coins among these, cheapest first. */
  ghost predicate ListsSpendable(items: seq<Available>, owned: seq<Owned>, coins: Utxos, height: nat) {
    && Ordered(items)
    && forall o :: o in coins ==> (Lists(items, o) <==> Owns(owned, coins[o]) && Mature(coins[o], height))
  }

  // ---------------------------------------------------------------- the wallet

  class HdWalletBackend {
    var hd: bool
    var legacyKey: Option<SecretKey>
    var nextReceive: u32
    var nextChange: u32
    var ownedCache: seq<Owned>
    var cacheValid: bool

    constructor (legacyKey: Option<SecretKey>)
      ensures hd && this.legacyKey == legacyKey && nextReceive == 1 && nextChange == 1 && !cacheValid && Valid()
    {
      hd, this.legacyKey, nextReceive, nextChange := true, legacyKey, 1, 1;
      ownedCache, cacheValid := [], false;
    }

    /** Every key the wallet looks for: the used ones of both branches, twenty ahead, and the legacy key. */
    ghost function Keys(): seq<SecretKey>
      reads this
    {
      (if hd then Branch(0, (nextReceive + LOOKAHEAD) % TWO_32) + Branch(1, (nextChange + LOOKAHEAD) % TWO_32) else [])
      + (if legacyKey.Some? then [legacyKey.value] else [])
    }

    /** A valid cache lists the scripts of exactly these keys; a wallet without HD keys has its legacy key. */
    ghost predicate Valid()
      reads this
    {
      && (cacheValid ==> ScriptsFor(Keys()) == Ok(ownedCache))
      && (!hd ==> legacyKey.Some?)
    }

    method CacheKeys(keys: seq<SecretKey>, ghost before: seq<SecretKey>) returns (r: Result<()>)
      requires ScriptsFor(before) == Ok(ownedCache)
      modifies this`ownedCache
      ensures r.Ok? <==> ScriptsFor(before + keys).Ok?
      ensures r.Ok? ==> ScriptsFor(before + keys) == Ok(ownedCache)
    {
      hide MakeP2pkScript, ScriptsFor;
      assert before + keys[..0] == before;
      for i := 0 to |keys|
        invariant ScriptsFor(before + keys[..i]) == Ok(ownedCache)
      {
        ScriptsNext(before + keys[..i], keys[i]);
        assert before + keys[..i + 1] == before + keys[..i] + [keys[i]];
        ScriptsStop(before + keys, |before| + i + 1);
        assert (before + keys)[..|before| + i + 1] == before + keys[..i + 1];
        var script := MakeP2pkScript(PublicKeyOf(keys[i]));
        if script.Err? {
          return Err(script.error);
        }
        ownedCache := ownedCache + [Owned(script.value, keys[i])];
      }
      assert before + keys[..|keys|] == before + keys;
      return Ok(());
    }

    method RebuildOwnedCache() returns (r: Result<()>)
      requires Valid()
      modifies this`ownedCache, this`cacheValid
      ensures Valid() && (r.Ok? <==> cacheValid) && (r.Ok? <==> ScriptsFor(Keys()).Ok?)
      ensures old(cacheValid) ==> unchanged(this)
    {
      hide ScriptsFor, Branch;
      if cacheValid {
        return Ok(());
      }
      NoScripts();
      ownedCache := [];
      ghost var keys: seq<SecretKey> := [];
      if hd {
        var receive, change := Branch(0, (nextReceive + LOOKAHEAD) % TWO_32), Branch(1, (nextChange + LOOKAHEAD) % TWO_32);
        PartRefused(Keys(), keys + receive);
        var _ :- CacheKeys(receive, keys);
        keys := keys + receive;
        PartRefused(Keys(), keys + change);
        var _ :- CacheKeys(change, keys);
        keys := keys + change;
      }
      if legacyKey.Some? {
        PartRefused(Keys(), keys + [legacyKey.value]);
        var _ :- CacheKeys([legacyKey.value], keys);
        keys := keys + [legacyKey.value];
      }
      assert keys == Keys();
      cacheValid := true;
      return Ok(());
    }

    /** A new address is the text of the next receive key. The receive counter moves on and the cache is dropped; what is
        paid to the address is looked for from then on. All this has happened before the wallet is saved, and a save that
        fails takes nothing back. */
    method GetNewAddress(saved: bool) returns (r: Result<string>)
      requires Valid()
      modifies this
      ensures Valid()
      ensures hd == old(hd) && legacyKey == old(legacyKey) && nextChange == old(nextChange)
      ensures if hd && ValidCompressedPublicKey(PublicKeyOf(HdKey(0, old(nextReceive))))
              then && nextReceive == (old(nextReceive) + 1) % TWO_32 && !cacheValid
                   && (nextReceive + LOOKAHEAD < TWO_32 && nextReceive > 0 ==> HdKey(0, old(nextReceive)) in Keys())
                   && (if saved then r.Ok? && DecodeAddress(r.value) == Ok(PublicKeyOf(HdKey(0, old(nextReceive))))
                       else r == Err(SaveFailed))
              else r.Err? && unchanged(this)
    {
      hide DecodeAddress, EncodeAddress, ValidCompressedPublicKey;
      if !hd {
        return Err(BadArgument);
      }
      var key := PublicKeyOf(HdKey(0, nextReceive));
      ghost var index := nextReceive;
      EncodesValid(key);
      r := EncodeTestnetAddress(key);
      if r.Err? {
        return;
      }
      nextReceive := (nextReceive + 1) % TWO_32;
      cacheValid := false;
      ownedCache := [];
      if nextReceive + LOOKAHEAD < TWO_32 && nextReceive > 0 {
        assert Branch(0, nextReceive + LOOKAHEAD)[index] == HdKey(0, index);
      }
      if !saved {
        return Err(SaveFailed);
      }
    }

    method KeyForScript(script: Script) returns (r: Result<Option<SecretKey>>)
      requires Valid()
      modifies this`ownedCache, this`cacheValid
      ensures Valid() && (r.Ok? <==> cacheValid)
      ensures r.Ok? ==> r.value == KeyFor(ownedCache, script, |ownedCache|)
      ensures old(cacheValid) ==> unchanged(this)
    {
      hide ScriptsFor, Keys;
      var _ :- RebuildOwnedCache();
      for i := 0 to |ownedCache|
        invariant KeyFor(ownedCache, script, i) == None
      {
        if ownedCache[i].script == script {
          KeyStays(ownedCache, script, i + 1, |ownedCache|);
          return Ok(Some(ownedCache[i].key));
        }
      }
      return Ok(None);
    }

    /** The wallet's total is the value of the coins it owns, split into what it may spend at this height and what is
        still immature. On coins worth at most MAX_MONEY the overflow guard never fires. */
    method GetBalance(coins: Utxos, height: nat) returns (r: Result<Balance>)
      requires Valid()
      modifies this`ownedCache, this`cacheValid
      ensures Valid()
      ensures r.Ok? ==> && r.value.total == Total(OwnedCoins(ownedCache, coins))
                        && r.value.spendable == Total(SpendableCoins(ownedCache, coins, height))
                        && r.value.total == r.value.spendable + r.value.immature
      ensures r == Err(BalanceOverflow) && CoinsInRange(coins) ==> Total(coins) > MAX_MONEY
      ensures old(cacheValid) ==> r.Ok? || r.error == BalanceOverflow
    {
      hide Valid, Tallied, Total, KeyFor, Mature, OwnedCoins, SpendableCoins;
      var result := Balance(0, 0, 0);
      NothingTallied(ownedCache, coins, height);
      if coins == map[] {
        return Ok(result);
      }
      var rebuilt := RebuildOwnedCache();
      if rebuilt.Err? {
        return Err(BadArgument);
      }
      NothingTallied(ownedCache, coins, height);
      var left := coins;
      while left != map[]
        invariant Valid() && cacheValid && (old(cacheValid) ==> unchanged(this))
        invariant left.Keys <= coins.Keys && forall o :: o in left ==> left[o] == coins[o]
        invariant Tallied(result, ownedCache, coins, left, height)
        decreases |left|
      {
        var o :| o in left;
        var coin := left[o];
        var found := KeyForScript(coin.output.scriptPubKey);
        TallyNext(result, ownedCache, coins, left, o, height);
        if found.value.Some? {
          if result.total > MAX_MONEY - coin.output.value {
            return Err(BalanceOverflow);
          }
          var total := result.total + coin.output.value;
          result := if Mature(coin, height) then Balance(total, result.spendable + coin.output.value, result.immature)
                    else Balance(total, result.spendable, result.immature + coin.output.value);
        }
        left := left - {o};
      }
      TallyEnds(result, ownedCache, coins, height);
      return Ok(result);
    }

    /** The owned mature coins, cheapest first. */
    method ListAvailable(coins: Utxos, height: nat) returns (r: Result<seq<Available>>)
      requires Valid()
      modifies this`ownedCache, this`cacheValid
      ensures Valid()
      ensures r.Ok? ==> Backed(r.value, coins, height) && ListsSpendable(r.value, ownedCache, coins, height)
      ensures r.Ok? && SignerWorksFor(Keys()) ==> AllSign(r.value)
      ensures r.Err? ==> r.error == BadArgument
      ensures r.Ok? && coins != map[] ==> cacheValid
    {
      hide Keys, ScriptsFor, KeyFor, Mature, Listed, AllSign, SignerWorksFor, Backed, ListsSpendable;
      var items: seq<Available> := [];
      NothingListed(ownedCache, coins, height);
      if coins == map[] {
        return Ok(items);
      }
      var rebuilt := RebuildOwnedCache();
      if rebuilt.Err? {
        return Err(BadArgument);
      }
      NothingListed(ownedCache, coins, height);
      var left := coins;
      while left != map[]
        invariant Valid() && cacheValid
        invariant left.Keys <= coins.Keys && forall o :: o in left ==> left[o] == coins[o]
        invariant Listed(items, ownedCache, coins, left, height)
        invariant SignerWorksFor(Keys()) ==> AllSign(items)
        decreases |left|
      {
        var o :| o in left;
        var coin := left[o];
        var found := KeyForScript(coin.output.scriptPubKey);
        if found.value.Some? && Mature(coin, height) {
          var item := Available(o, coin, found.value.value);
          KeyFits(Keys(), ownedCache, coin.output.scriptPubKey);
          items := InsertOrdered(items, item, ownedCache, coins, left, height, Keys());
        } else {
          NotListed(items, ownedCache, coins, left, o, height);
        }
        left := left - {o};
      }
      AllListed(items, ownedCache, coins, height);
      return Ok(items);
    }

    ghost function ChangeKey(): SecretKey
      reads this
      requires Valid()
    {
      if hd then HdKey(1, 0) else legacyKey.value
    }

    /** The wallet looks for its change, unless the counter of change keys is about to wrap round. */
    lemma {:induction false} ChangeIsOwn()
      requires Valid()
      ensures !(hd && (nextChange + LOOKAHEAD) % TWO_32 == 0) ==> ChangeKey() in Keys()
    {
      if hd && (nextChange + LOOKAHEAD) % TWO_32 > 0 {
        assert Branch(1, (nextChange + LOOKAHEAD) % TWO_32)[0] == HdKey(1, 0);
      }
    }

    /** A payment takes the cheapest coins first. What it hands back pays its own fee and, if the signer works, is accepted
        by the ledger on the same coins at the same height; the final check of the fee then never fails. */
    method CreatePayment(coins: Utxos, height: nat, destination: Script, amount: i64, rate: i64) returns (r: Result<Transaction>)
      requires Valid() && CoinsInRange(coins)
      modifies this`ownedCache, this`cacheValid
      ensures Valid()
      ensures r.Ok? ==> && 0 < amount <= MAX_MONEY && MakeP2pkScript(destination).Ok?
                        && MakeP2pkScript(PublicKeyOf(ChangeKey())).Ok?
                        && var (to, back) := (MakeP2pkScript(destination).value, MakeP2pkScript(PublicKeyOf(ChangeKey())).value);
                        && Pays(r.value, coins, amount, to, back, rate)
                        && exists items :: ListsSpendable(items, ownedCache, coins, height)
                                           && Cheapest(r.value, items, amount, to, back, rate)
      ensures r == Err(InsufficientFunds) ==>
                && MakeP2pkScript(destination).Ok? && MakeP2pkScript(PublicKeyOf(ChangeKey())).Ok?
                && var (to, back) := (MakeP2pkScript(destination).value, MakeP2pkScript(PublicKeyOf(ChangeKey())).value);
                exists items :: ListsSpendable(items, ownedCache, coins, height)
                                && NoneSuffices(items, amount, to, back, rate)
      ensures r.Ok? && SignerWorksFor(Keys()) && NULL_OUTPOINT !in coins
              && Fresh(TxId(r.value), coins - SpentBy(r.value.inputs), |r.value.outputs|) ==>
                Acceptable(r.value, height, coins)
      ensures SignerWorksFor(Keys()) ==> r != Err(FeeTooSmall)
      ensures r.Ok? && |r.value.outputs| == 2 && !(hd && (nextChange + LOOKAHEAD) % TWO_32 == 0) ==>
                cacheValid && Owns(ownedCache, Coin(r.value.outputs[1], height, false))
    {
      hide Keys, ScriptsFor, Pays, Acceptable, Fresh, ListsSpendable, Backed, Cheapest, NoneSuffices, Owns;
      if amount <= 0 || amount > MAX_MONEY {
        return Err(BadArgument);
      }
      var destinationScript :- MakeP2pkScript(destination);
      var changeKey := if hd then HdKey(1, 0) else legacyKey.value;
      var changeScript :- MakeP2pkScript(PublicKeyOf(changeKey));
      hide MakeP2pkScript;
      var available :- ListAvailable(coins, height);
      r := BuildPayment(available, amount, destinationScript, changeScript, rate, coins, height);
      if r.Ok? {
        PaidFrom(r.value, coins, amount, destinationScript, changeScript, rate);
        if |r.value.outputs| == 2 {
          ChangeIsOwn();
          OwnsExactly(Keys(), ownedCache, Coin(r.value.outputs[1], height, false));
        }
      }
    }
  }

  /** The items are exactly the owned mature coins among those that are not left. */
  ghost predicate Listed(items: seq<Available>, owned: seq<Owned>, coins: Utxos, left: Utxos, height: nat) {
    && Backed(items, coins, height) && Ordered(items)
    && (forall o :: o in coins && o !in left ==> (Lists(items, o) <==> Owns(owned, coins[o]) && Mature(coins[o], height)))
    && (forall o :: Lists(items, o) ==> o in coins && o !in left)
  }

  lemma {:induction false} NothingListed(owned: seq<Owned>, coins: Utxos, height: nat)
    ensures Listed([], owned, coins, coins, height) && AllSign([])
    ensures coins == map[] ==> Backed([], coins, height) && ListsSpendable([], owned, coins, height)
  {
  }

  lemma {:induction false} NotListed(items: seq<Available>, owned: seq<Owned>, coins: Utxos, left: Utxos, o: OutPoint,
                                     height: nat)
    requires Listed(items, owned, coins, left, height) && o in left && o in coins
    requires KeyFor(owned, coins[o].output.scriptPubKey, |owned|).None? || !Mature(coins[o], height)
    ensures Listed(items, owned, coins, left - {o}, height)
  {
    hide KeyFor, Mature, Backed, Ordered, Lists;
  }

  lemma {:induction false} AllListed(items: seq<Available>, owned: seq<Owned>, coins: Utxos, height: nat)
    requires Listed(items, owned, coins, map[], height)
    ensures Backed(items, coins, height) && ListsSpendable(items, owned, coins, height)
  {
    hide Owns, Mature, Backed, Ordered, Lists;
  }

  /** Puts an item behind all that precede it. */
  method InsertOrdered(items: seq<Available>, item: Available, ghost owned: seq<Owned>, ghost coins: Utxos,
                       ghost left: Utxos, ghost height: nat, ghost keys: seq<SecretKey>)
    returns (more: seq<Available>)
    requires Listed(items, owned, coins, left, height) && item.outpoint in left && item.outpoint in coins
    requires coins[item.outpoint] == item.coin && Mature(item.coin, height) && item.key in keys
    requires KeyFor(owned, item.coin.output.scriptPubKey, |owned|).Some?
    requires MakeP2pkScript(PublicKeyOf(item.key)) == Ok(item.coin.output.scriptPubKey)
    ensures Listed(more, owned, coins, left - {item.outpoint}, height)
    ensures SignerWorksFor(keys) && AllSign(items) ==> AllSign(more)
  {
    hide MakeP2pkScript, Mature, SignerWorks, Listed, KeyFor;
    var k: nat := 0;
    while k < |items| && Precedes(items[k], item)
      invariant k <= |items|
      invariant forall i :: 0 <= i < k ==> Precedes(items[i], item)
    {
      k := k + 1;
    }
    more := items[..k] + [item] + items[k..];
    ListedParts(items, owned, coins, left, height, item);
    Inserted(items, item, k, more, coins, height, keys);
    ListedNext(items, item, more, owned, coins, left, height);
  }

  lemma {:induction false} ListedParts(items: seq<Available>, owned: seq<Owned>, coins: Utxos, left: Utxos, height: nat,
                                       item: Available)
    requires Listed(items, owned, coins, left, height) && item.outpoint in left && item.outpoint in coins
    requires coins[item.outpoint] == item.coin && Mature(item.coin, height)
    requires MakeP2pkScript(PublicKeyOf(item.key)) == Ok(item.coin.output.scriptPubKey)
    ensures Backed(items, coins, height) && Ordered(items) && Backed([item], coins, height)
    ensures !Lists(items, item.outpoint)
  {
    hide Owns, MakeP2pkScript, Mature, Ordered, Lists;
  }

  lemma {:induction false} ListedNext(items: seq<Available>, item: Available, more: seq<Available>, owned: seq<Owned>,
                                      coins: Utxos, left: Utxos, height: nat)
    requires Listed(items, owned, coins, left, height) && item.outpoint in left && item.outpoint in coins
    requires coins[item.outpoint] == item.coin && Mature(item.coin, height)
    requires KeyFor(owned, item.coin.output.scriptPubKey, |owned|).Some?
    requires Backed(more, coins, height) && Ordered(more)
    requires forall o :: Lists(more, o) <==> Lists(items, o) || o == item.outpoint
    ensures Listed(more, owned, coins, left - {item.outpoint}, height)
  {
    hide KeyFor, Mature, Backed, Ordered, Lists;
  }

  // ---------------------------------------------------------------- lemmas about keys

  lemma {:induction false} EncodesValid(key: Script)
    ensures EncodeAddress(key).Ok? <==> ValidCompressedPublicKey(key)
    ensures EncodeAddress(key).Ok? ==> DecodeAddress(EncodeAddress(key).value) == Ok(key)
  {
    hide ValidCompressedPublicKey, DecodeAddress, TextOf;
    if ValidCompressedPublicKey(key) {
      AddressRoundTrip(key);
    }
  }

  lemma {:induction false} NoScripts()
    ensures ScriptsFor([]) == Ok([])
  {
  }

  lemma {:induction false} ScriptsNext(keys: seq<SecretKey>, key: SecretKey)
    requires ScriptsFor(keys).Ok?
    ensures var script := MakeP2pkScript(PublicKeyOf(key));
            && (script.Ok? ==> ScriptsFor(keys + [key]) == Ok(ScriptsFor(keys).value + [Owned(script.value, key)]))
            && (script.Err? ==> ScriptsFor(keys + [key]) == Err(script.error))
  {
    hide MakeP2pkScript;
    assert (keys + [key])[..|keys|] == keys;
  }

  lemma {:induction false} PartRefused(keys: seq<SecretKey>, part: seq<SecretKey>)
    requires part <= keys
    ensures ScriptsFor(part).Err? ==> ScriptsFor(keys).Err?
  {
    ScriptsStop(keys, |part|);
    assert keys[..|part|] == part;
  }

  lemma {:induction false} ScriptsStop(keys: seq<SecretKey>, n: nat)
    requires n <= |keys|
    ensures ScriptsFor(keys[..n]).Err? ==> ScriptsFor(keys).Err?
    decreases |keys|
  {
    hide MakeP2pkScript;
    if n < |keys| {
      var front := keys[..|keys| - 1];
      assert front[..n] == keys[..n];
      ScriptsStop(front, n);
    } else {
      assert keys[..n] == keys;
    }
  }

  lemma {:induction false} KeyStays(owned: seq<Owned>, script: Script, m: nat, n: nat)
    requires m <= n <= |owned| && KeyFor(owned, script, m).Some?
    ensures KeyFor(owned, script, n) == KeyFor(owned, script, m)
    decreases n
  {
    if m < n {
      KeyStays(owned, script, m, n - 1);
    }
  }

  /** The key found for a script is one of the wallet's, and the script is its own. */
  lemma {:induction false} KeyFits(keys: seq<SecretKey>, owned: seq<Owned>, script: Script)
    requires ScriptsFor(keys) == Ok(owned) && KeyFor(owned, script, |owned|).Some?
    ensures var key := KeyFor(owned, script, |owned|).value;
            key in keys && MakeP2pkScript(PublicKeyOf(key)) == Ok(script)
  {
    KeyFound(owned, script, |owned|);
    var i: nat :| i < |owned| && owned[i].script == script && owned[i].key == KeyFor(owned, script, |owned|).value;
    ScriptsMatch(keys, owned, i);
  }

  /** The wallet owns a coin exactly if the coin's script is made for one of its keys. */
  lemma {:induction false} OwnsExactly(keys: seq<SecretKey>, owned: seq<Owned>, coin: Coin)
    requires ScriptsFor(keys) == Ok(owned)
    ensures Owns(owned, coin) <==>
              exists i :: 0 <= i < |keys| && MakeP2pkScript(PublicKeyOf(keys[i])) == Ok(coin.output.scriptPubKey)
  {
    hide ScriptsFor, MakeP2pkScript;
    var script := coin.output.scriptPubKey;
    if Owns(owned, coin) {
      KeyFits(keys, owned, script);
    }
    if i :| 0 <= i < |keys| && MakeP2pkScript(PublicKeyOf(keys[i])) == Ok(script) {
      ScriptsLength(keys);
      ScriptsMatch(keys, owned, i);
      ScriptFound(owned, script, i);
      KeyStays(owned, script, i + 1, |owned|);
    }
  }

  lemma {:induction false} ScriptFound(owned: seq<Owned>, script: Script, i: nat)
    requires i < |owned| && owned[i].script == script
    ensures KeyFor(owned, script, i + 1).Some?
  {
  }

  /** A payment spends a coin, and its second output is the change. */
  lemma {:induction false} PaidFrom(tx: Transaction, coins: Utxos, amount: i64, to: Script, back: Script, rate: i64)
    requires Pays(tx, coins, amount, to, back, rate)
    ensures coins != map[] && (|tx.outputs| == 2 ==> tx.outputs[1].scriptPubKey == back)
  {
    hide FeeOf, InputSum, ValueSum;
    assert tx.inputs[0].previousOutput in coins;
  }

  lemma {:induction false} KeyFound(owned: seq<Owned>, script: Script, n: nat)
    requires n <= |owned| && KeyFor(owned, script, n).Some?
    ensures exists i: nat :: i < n && owned[i].script == script && owned[i].key == KeyFor(owned, script, n).value
  {
    if KeyFor(owned, script, n - 1).Some? {
      KeyFound(owned, script, n - 1);
    }
  }

  lemma {:induction false} ScriptsMatch(keys: seq<SecretKey>, owned: seq<Owned>, i: nat)
    requires ScriptsFor(keys) == Ok(owned) && i < |owned|
    ensures |owned| == |keys| && owned[i].key == keys[i]
    ensures MakeP2pkScript(PublicKeyOf(owned[i].key)) == Ok(owned[i].script)
    decreases |keys|
  {
    hide MakeP2pkScript;
    if |keys| > 0 {
      var front := keys[..|keys| - 1];
      var before := ScriptsFor(front).value;
      if i < |before| {
        ScriptsMatch(front, before, i);
      } else if |before| > 0 {
        ScriptsMatch(front, before, 0);
      } else {
        ScriptsLength(front);
      }
    }
  }

  lemma {:induction false} ScriptsLength(keys: seq<SecretKey>)
    ensures ScriptsFor(keys).Ok? ==> |ScriptsFor(keys).value| == |keys|
  {
    hide MakeP2pkScript;
    if |keys| > 0 {
      ScriptsLength(keys[..|keys| - 1]);
    }
  }

  /** Where the items of the longer list come from. */
  ghost predicate InsertedAt(items: seq<Available>, item: Available, k: nat, more: seq<Available>) {
    && k <= |items| && |more| == |items| + 1 && more[k] == item
    && (forall i :: 0 <= i < k ==> more[i] == items[i])
    && (forall i :: k < i < |more| ==> more[i] == items[i - 1])
  }

  lemma {:induction false} Inserted(items: seq<Available>, item: Available, k: nat, more: seq<Available>, coins: Utxos,
                                    height: nat, keys: seq<SecretKey>)
    requires Backed(items, coins, height) && Ordered(items) && Backed([item], coins, height)
    requires !Lists(items, item.outpoint) && item.key in keys
    requires k <= |items| && more == items[..k] + [item] + items[k..]
    requires forall i :: 0 <= i < k ==> Precedes(items[i], item)
    requires k < |items| ==> !Precedes(items[k], item)
    ensures Backed(more, coins, height) && Ordered(more)
    ensures forall o :: Lists(more, o) <==> Lists(items, o) || o == item.outpoint
    ensures SignerWorksFor(keys) && AllSign(items) ==> AllSign(more)
  {
    assert InsertedAt(items, item, k, more);
    hide MakeP2pkScript, Mature, SignerWorks, Ordered, Backed, Lists, Precedes, InsertedAt;
    InsertedOrdered(items, item, k, more);
    InsertedListed(items, item, k, more);
    InsertedBacked(items, item, k, more, coins, height);
    InsertedSigns(items, item, k, more, keys);
  }

  lemma {:induction false} InsertedOrdered(items: seq<Available>, item: Available, k: nat, more: seq<Available>)
    requires Ordered(items) && !Lists(items, item.outpoint) && InsertedAt(items, item, k, more)
    requires forall i :: 0 <= i < k ==> Precedes(items[i], item)
    requires k < |items| ==> !Precedes(items[k], item)
    ensures Ordered(more)
  {
    forall i, j | 0 <= i < j < |more|
      ensures Precedes(more[i], more[j])
    {
      if i == k {
        assert items[k].outpoint != item.outpoint;
        assert Precedes(item, items[k]);
        assert j - 1 > k ==> Precedes(items[k], items[j - 1]);
      } else if j != k {
        var (a, b) := (if i < k then i else i - 1, if j < k then j else j - 1);
        assert Precedes(items[a], items[b]);
      }
    }
  }

  lemma {:induction false} InsertedListed(items: seq<Available>, item: Available, k: nat, more: seq<Available>)
    requires InsertedAt(items, item, k, more)
    ensures forall o :: Lists(more, o) <==> Lists(items, o) || o == item.outpoint
  {
    forall o
      ensures Lists(more, o) <==> Lists(items, o) || o == item.outpoint
    {
      if Lists(items, o) {
        var i :| 0 <= i < |items| && items[i].outpoint == o;
        assert more[if i < k then i else i + 1].outpoint == o;
      }
      if o == item.outpoint {
        assert more[k].outpoint == o;
      }
    }
  }

  lemma {:induction false} InsertedBacked(items: seq<Available>, item: Available, k: nat, more: seq<Available>,
                                          coins: Utxos, height: nat)
    requires Backed(items, coins, height) && Backed([item], coins, height)
    requires !Lists(items, item.outpoint) && InsertedAt(items, item, k, more)
    ensures Backed(more, coins, height)
  {
    hide MakeP2pkScript, Mature;
    assert [item][0] == item;
    forall i, j | 0 <= i < j < |more|
      ensures more[i].outpoint != more[j].outpoint
    {
      var (a, b) := (if i < k then i else i - 1, if j < k then j else j - 1);
      if i != k && j != k {
        assert items[a].outpoint != items[b].outpoint;
      }
    }
  }

  lemma {:induction false} InsertedSigns(items: seq<Available>, item: Available, k: nat, more: seq<Available>,
                                         keys: seq<SecretKey>)
    requires InsertedAt(items, item, k, more) && item.key in keys
    ensures SignerWorksFor(keys) && AllSign(items) ==> AllSign(more)
  {
    hide SignerWorks;
    if SignerWorksFor(keys) && AllSign(items) {
      forall i, digest | 0 <= i < |more|
        ensures SignerWorks(more[i].key, digest)
      {
        if i != k {
          var a := if i < k then i else i - 1;
          assert SignerWorks(items[a].key, digest);
        }
      }
    }
  }

  // ---------------------------------------------------------------- lemmas about balances

  /** The balance so far counts exactly the coins that are not left. */
  ghost predicate Tallied(result: Balance, owned: seq<Owned>, coins: Utxos, left: Utxos, height: nat) {
    && result.total == Total(OwnedCoins(owned, coins - left.Keys))
    && result.spendable == Total(SpendableCoins(owned, coins - left.Keys, height))
    && result.total == result.spendable + result.immature
  }

  lemma {:induction false} NothingTallied(owned: seq<Owned>, coins: Utxos, height: nat)
    ensures Tallied(Balance(0, 0, 0), owned, coins, coins, height)
    ensures coins == map[] ==> Total(OwnedCoins(owned, coins)) == 0 && Total(SpendableCoins(owned, coins, height)) == 0
  {
    hide Total, Owns;
    assert coins - coins.Keys == map[];
    NothingOwned(owned, height);
  }

  lemma {:induction false} TallyNext(result: Balance, owned: seq<Owned>, coins: Utxos, left: Utxos, o: OutPoint, height: nat)
    requires Tallied(result, owned, coins, left, height)
    requires left.Keys <= coins.Keys && o in left && left[o] == coins[o]
    ensures var (coin, value) := (coins[o], coins[o].output.value);
            if KeyFor(owned, coin.output.scriptPubKey, |owned|).None? then Tallied(result, owned, coins, left - {o}, height)
            else
              && Tallied(if Mature(coin, height)
                         then Balance(result.total + value, result.spendable + value, result.immature)
                         else Balance(result.total + value, result.spendable, result.immature + value),
                         owned, coins, left - {o}, height)
              && (CoinsInRange(coins) ==> result.total + value <= Total(coins))
  {
    OneMoreCoin(owned, coins, left, o, height);
    assert Owns(owned, coins[o]) == KeyFor(owned, coins[o].output.scriptPubKey, |owned|).Some?;
    hide Total, Owns, KeyFor, Mature, OwnedCoins, SpendableCoins, CoinsInRange;
    OwnedBelowWhole(owned, coins, (left - {o}).Keys);
  }

  lemma {:induction false} TallyEnds(result: Balance, owned: seq<Owned>, coins: Utxos, height: nat)
    requires Tallied(result, owned, coins, map[], height)
    ensures result.total == Total(OwnedCoins(owned, coins)) && result.total == result.spendable + result.immature
    ensures result.spendable == Total(SpendableCoins(owned, coins, height))
  {
    var none: Utxos := map[];
    assert coins - none.Keys == coins;
  }

  lemma {:induction false} NothingOwned(owned: seq<Owned>, height: nat)
    ensures Total(OwnedCoins(owned, map[])) == 0 && Total(SpendableCoins(owned, map[], height)) == 0
  {
    hide Owns;
    assert OwnedCoins(owned, map[]) == map[] && SpendableCoins(owned, map[], height) == map[];
  }

  lemma {:induction false} OneMoreCoin(owned: seq<Owned>, coins: Utxos, left: Utxos, o: OutPoint, height: nat)
    requires left.Keys <= coins.Keys && o in left && left[o] == coins[o]
    ensures var (before, after) := (coins - left.Keys, coins - (left - {o}).Keys);
            && Total(OwnedCoins(owned, after)) == Total(OwnedCoins(owned, before))
                 + (if Owns(owned, coins[o]) then coins[o].output.value else 0)
            && Total(SpendableCoins(owned, after, height)) == Total(SpendableCoins(owned, before, height))
                 + (if Owns(owned, coins[o]) && Mature(coins[o], height) then coins[o].output.value else 0)
  {
    hide Owns, Total, Mature;
    var (before, after) := (coins - left.Keys, coins - (left - {o}).Keys);
    OneMoreKey(coins, left, o);
    if Owns(owned, coins[o]) {
      assert OwnedCoins(owned, after) == OwnedCoins(owned, before)[o := coins[o]];
      TotalAdd(OwnedCoins(owned, before), o, coins[o]);
    } else {
      assert OwnedCoins(owned, after) == OwnedCoins(owned, before);
    }
    if Owns(owned, coins[o]) && Mature(coins[o], height) {
      assert SpendableCoins(owned, after, height) == SpendableCoins(owned, before, height)[o := coins[o]];
      TotalAdd(SpendableCoins(owned, before, height), o, coins[o]);
    } else {
      assert SpendableCoins(owned, after, height) == SpendableCoins(owned, before, height);
    }
  }

  lemma {:induction false} OneMoreKey(coins: Utxos, left: Utxos, o: OutPoint)
    requires left.Keys <= coins.Keys && o in left && left[o] == coins[o]
    ensures coins - (left - {o}).Keys == (coins - left.Keys)[o := coins[o]]
  {
  }

  lemma {:induction false} OwnedBelowWhole(owned: seq<Owned>, coins: Utxos, left: set<OutPoint>)
    ensures CoinsInRange(coins) ==> Total(OwnedCoins(owned, coins - left)) <= Total(coins)
  {
    hide Owns, Total, CoinsInRange;
    if CoinsInRange(coins) {
      PartBelowWhole(OwnedCoins(owned, coins - left), coins);
    }
  }

  lemma {:induction false} PartBelowWhole(part: Utxos, coins: Utxos)
    requires CoinsInRange(coins) && forall o :: o in part ==> o in coins && part[o] == coins[o]
    ensures Total(part) <= Total(coins)
    decreases |coins|
  {
    if part == map[] {
      TotalNonNegative(coins);
    } else {
      var o :| o in part;
      TotalRemove(part, o);
      TotalRemove(coins, o);
      RestSmaller(coins, o);
      PartBelowWhole(part - {o}, coins - {o});
    }
  }
}
