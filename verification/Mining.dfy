/** Coinbase construction and the nonce and time search (src/transaction.cpp, src/block.cpp). */
module Mining {
  import opened Arithmetic
  import opened Amounts
  import opened Errors
  import opened Transactions
  import opened Scripts
  import opened Blocks
  import opened Merkle
  import opened Utxo
  import opened Validation

  // ---------------------------------------------------------------- script numbers

  /** Little-endian base 256 without leading zeros. */
  function Magnitude(n: nat): (bytes: seq<byte>)
    ensures n > 0 ==> |bytes| > 0 && bytes[|bytes| - 1] > 0
  {
    if n == 0 then [] else [n % 256] + Magnitude(n / 256)
  }

  function Abs(value: int): nat {
    if value < 0 then -value else value
  }

  function ScriptNumber(value: i64): seq<byte> {
    var bytes := Magnitude(Abs(value));
    if bytes == [] then []
    else
      var (front, last) := (bytes[..|bytes| - 1], bytes[|bytes| - 1]);
      if last >= 0x80 then bytes + [if value < 0 then 0x80 else 0]
      else if value < 0 then front + [last + 0x80]
      else bytes
  }

  method MagnitudeBytes(n: nat) returns (result: seq<byte>)
    ensures result == Magnitude(n)
  {
    hide Magnitude;
    NoMagnitude();
    var absolute := n;
    result := [];
    while absolute != 0
      invariant result + Magnitude(absolute) == Magnitude(n)
    {
      var (low, rest) := (absolute % 256, absolute / 256);
      MagnitudeStep(result, absolute);
      result := result + [low];
      absolute := rest;
    }
  }

  lemma {:induction false} MagnitudeStep(prefix: seq<byte>, n: nat)
    requires n > 0
    ensures prefix + Magnitude(n) == prefix + [n % 256] + Magnitude(n / 256)
  {
  }

  method EncodeScriptNumber(value: i64) returns (result: seq<byte>)
    ensures result == ScriptNumber(value)
  {
    hide Magnitude;
    if value == 0 {
      NoMagnitude();
      return [];
    }
    var negative := value < 0;
    result := MagnitudeBytes(if negative then -(value + 1) + 1 else value);
    if result[|result| - 1] >= 0x80 {
      result := result + [if negative then 0x80 else 0];
    } else if negative {
      result := result[..|result| - 1] + [result[|result| - 1] + 0x80];
    }
  }

  lemma {:induction false} NoMagnitude()
    ensures Magnitude(0) == []
  {
  }

  ghost function FromMagnitude(bytes: seq<byte>): nat {
    if bytes == [] then 0 else bytes[0] + 256 * FromMagnitude(bytes[1..])
  }

  /** How a script number is read: the top bit of the last byte is the sign. */
  ghost function ReadScriptNumber(bytes: seq<byte>): int {
    if bytes == [] then 0 else
    var last := bytes[|bytes| - 1];
    if last >= 0x80 then 0 - FromMagnitude(bytes[..|bytes| - 1] + [last - 0x80]) else FromMagnitude(bytes)
  }

  lemma {:induction false} MagnitudeRoundTrip(n: nat)
    ensures FromMagnitude(Magnitude(n)) == n
  {
    if n > 0 {
      MagnitudeRoundTrip(n / 256);
    }
  }

  lemma {:induction false} TrailingZero(bytes: seq<byte>)
    ensures FromMagnitude(bytes + [0]) == FromMagnitude(bytes)
  {
    if bytes == [] {
      assert [0][1..] == [];
    } else {
      TrailingZero(bytes[1..]);
      assert (bytes + [0])[1..] == bytes[1..] + [0];
    }
  }

  /** Every 64-bit number is read back from its script encoding, so different numbers have different encodings. */
  lemma {:induction false} ScriptNumberRoundTrip(value: i64)
    ensures ReadScriptNumber(ScriptNumber(value)) == value
  {
    var total := Abs(value);
    var bytes := Magnitude(total);
    MagnitudeRoundTrip(total);
    NoMagnitude();
    hide Magnitude, FromMagnitude;
    if bytes != [] {
      var (front, last) := (bytes[..|bytes| - 1], bytes[|bytes| - 1]);
      assert bytes == front + [last];
      TrailingZero(bytes);
      if last >= 0x80 {
        assert (bytes + [0x80])[..|bytes|] + [0] == bytes + [0];
      } else if value < 0 {
        assert (front + [last + 0x80])[..|bytes| - 1] + [last] == bytes;
      }
    } else {
      assert total == 0;
    }
  }

  lemma {:induction false} MagnitudeSize(n: nat, k: nat)
    requires n < Pow256(k)
    ensures |Magnitude(n)| <= k
  {
    if n > 0 {
      MagnitudeSize(n / 256, k - 1);
    }
  }

  lemma {:induction false} ScriptNumberSize(value: i64)
    ensures |ScriptNumber(value)| <= 9
  {
    assert Pow256(8) == TWO_64 by {
      assert Pow256(4) == TWO_32;
    }
    MagnitudeSize(Abs(value), 8);
  }

  // ---------------------------------------------------------------- coinbases

  /** The text "July 22 2026, BinaryCoin testnet alpha begins." */
  const MARKER: seq<byte> := [
    74, 117, 108, 121, 32, 50, 50, 32, 50, 48, 50, 54, 44, 32, 66, 105, 110, 97, 114, 121, 67, 111, 105,
    110, 32, 116, 101, 115, 116, 110, 101, 116, 32, 97, 108, 112, 104, 97, 32, 98, 101, 103, 105, 110,
    115, 46]

  /** The reinterpretation of an unsigned 64-bit height as signed. */
  function AsSigned(height: u64): i64 {
    if height < 0x8000_0000_0000_0000 then height else height - TWO_64
  }

  function MakeTestnetCoinbase(height: u64, reward: int, script: Script): Result<Transaction> {
    if !MoneyRange(reward) then Err(BadArgument)
    else if |script| == 0 || |script| > MAX_SCRIPT_SIZE then Err(BadArgument)
    else
      var pushedHeight :- PushScriptData(ScriptNumber(AsSigned(height)));
      var pushedMarker :- PushScriptData(MARKER);
      Ok(Transaction(1, [TxInput(NULL_OUTPOINT, pushedHeight + pushedMarker, NO_INDEX)],
                     [TxOutput(reward, script)], 0))
  }

  /** A coinbase is made for every reward in range and every script of a legal size, and is well formed. */
  lemma {:induction false} CoinbaseWellFormed(height: u64, reward: int, script: Script)
    ensures MakeTestnetCoinbase(height, reward, script).Ok? <==>
              MoneyRange(reward) && 0 < |script| <= MAX_SCRIPT_SIZE
    ensures var r := MakeTestnetCoinbase(height, reward, script);
            r.Ok? ==> StructureValid(r.value) && IsCoinbase(r.value) && ValueSum(r.value.outputs) == reward
  {
    ScriptNumberSize(AsSigned(height));
    assert |MARKER| == 46;
    var r := MakeTestnetCoinbase(height, reward, script);
    if r.Ok? {
      assert r.value.outputs == [TxOutput(reward, script)];
      assert r.value.outputs[..0] == [];
    }
  }

  /** What a coinbase says: a push of its height and one of the marker in its input, and one output of the reward. */
  lemma {:induction false} CoinbaseContents(height: u64, reward: int, script: Script)
    requires MakeTestnetCoinbase(height, reward, script).Ok?
    ensures var tx := MakeTestnetCoinbase(height, reward, script).value;
            var sig := tx.inputs[0].scriptSig;
            && tx.version == 1 && tx.lockTime == 0 && tx.outputs == [TxOutput(reward, script)]
            && |tx.inputs| == 1 && tx.inputs[0].sequence == NO_INDEX
            && |sig| > 0 && sig[0] < |sig| && ReadScriptNumber(sig[1..sig[0] + 1]) == AsSigned(height)
            && sig[sig[0] + 1..] == [46] + MARKER
  {
    var n := ScriptNumber(AsSigned(height));
    ScriptNumberRoundTrip(AsSigned(height));
    assert |MARKER| == 46;
    hide ScriptNumber, ReadScriptNumber;
    var sig := MakeTestnetCoinbase(height, reward, script).value.inputs[0].scriptSig;
    assert sig == [|n| as byte] + n + ([46] + MARKER);
    assert sig[1..|n| + 1] == n;
  }

  /** Coinbases made for different heights are different transactions, whatever their rewards and scripts. */
  lemma {:induction false} CoinbasesDiffer(h1: u64, h2: u64, r1: int, r2: int, s1: Script, s2: Script)
    requires h1 != h2
    requires MakeTestnetCoinbase(h1, r1, s1).Ok? && MakeTestnetCoinbase(h2, r2, s2).Ok?
    ensures MakeTestnetCoinbase(h1, r1, s1).value != MakeTestnetCoinbase(h2, r2, s2).value
  {
    var (n1, n2) := (ScriptNumber(AsSigned(h1)), ScriptNumber(AsSigned(h2)));
    ScriptNumberRoundTrip(AsSigned(h1));
    ScriptNumberRoundTrip(AsSigned(h2));
    var (p1, p2) := (PushScriptData(n1).value, PushScriptData(n2).value);
    var pushedMarker := PushScriptData(MARKER).value;
    assert (p1 + pushedMarker)[0] == |n1| && (p1 + pushedMarker)[1..|n1| + 1] == n1;
    assert (p2 + pushedMarker)[0] == |n2| && (p2 + pushedMarker)[1..|n2| + 1] == n2;
  }

  // ---------------------------------------------------------------- genesis

  const GENESIS_PUBLIC_KEY: seq<byte> := [
    0x02, 0x79, 0xbe, 0x66, 0x7e, 0xf9, 0xdc, 0xbb, 0xac, 0x55, 0xa0,
    0x62, 0x95, 0xce, 0x87, 0x0b, 0x07, 0x02, 0x9b, 0xfc, 0xdb, 0x2d,
    0xce, 0x28, 0xd9, 0x59, 0xf2, 0x81, 0x5b, 0x16, 0xf8, 0x17, 0x98]

  const GENESIS_HEADER: BlockHeader :=
    BlockHeader(1, 0, TESTNET_GENESIS_MERKLE, 1784699218, TESTNET_GENESIS_BITS, 180004)

  /** The locked genesis block, refused when the constants disagree with the hash function. */
  ghost function TestnetGenesisBlock(): Result<Block> {
    var script :- MakeP2pkScript(GENESIS_PUBLIC_KEY);
    var coinbase :- MakeTestnetCoinbase(0, INITIAL_SUBSIDY, script);
    var root :- MerkleRoot([coinbase]);
    if TxId(coinbase) != TESTNET_GENESIS_TXID || root != TESTNET_GENESIS_MERKLE ||
       HeaderHash(GENESIS_HEADER) != TESTNET_GENESIS_HASH
    then Err(BadGenesis)
    else Ok(Block(GENESIS_HEADER, [coinbase]))
  }

  /** Making genesis fails only if the hash functions disagree with the two locked hashes, and the block that it makes
      passes validation: its root, its work and its coinbase are right for every hash function. */
  lemma {:induction false} GenesisMeaning()
    ensures var script := MakeP2pkScript(GENESIS_PUBLIC_KEY);
            TestnetGenesisBlock().Ok? <==>
              && script.Ok? && HeaderHash(GENESIS_HEADER) == TESTNET_GENESIS_HASH
              && (var coinbase := MakeTestnetCoinbase(0, INITIAL_SUBSIDY, script.value);
                  coinbase.Ok? && TxId(coinbase.value) == TESTNET_GENESIS_TXID)
    ensures TestnetGenesisBlock().Ok? ==>
              && TestnetGenesisBlock().value.header == GENESIS_HEADER
              && Verified([StoredBlock(0, TestnetGenesisBlock().value)])
  {
    hide MakeTestnetCoinbase, StructureValid, IsCoinbase;
    var script := MakeP2pkScript(GENESIS_PUBLIC_KEY);
    if script.Ok? {
      CoinbaseWellFormed(0, INITIAL_SUBSIDY, script.value);
      var coinbase := MakeTestnetCoinbase(0, INITIAL_SUBSIDY, script.value);
      assert TxIds([coinbase.value]) == [TxId(coinbase.value)];
      if TestnetGenesisBlock().Ok? {
        GenesisVerifies([StoredBlock(0, TestnetGenesisBlock().value)]);
      }
    }
  }

  lemma {:induction false} GenesisVerifies(blocks: seq<StoredBlock>)
    requires |blocks| == 1 && GenesisLocked(blocks[0])
    ensures Verified(blocks)
  {
    hide StructureValid, IsCoinbase;
    TestnetTarget();
    hide CompactToTarget;
    assert CheckBlock(blocks, 0) == Ok(());
    assert VerifyPrefix(blocks, 0) == Ok(map[]);
  }

  method MakeGenesis() returns (r: Result<Block>)
    ensures r == TestnetGenesisBlock()
  {
    var script :- MakeP2pkScript(GENESIS_PUBLIC_KEY);
    var coinbase :- MakeTestnetCoinbase(0, INITIAL_SUBSIDY, script);
    var root :- MerkleRootRaw([coinbase]);
    if TxId(coinbase) != TESTNET_GENESIS_TXID || root != TESTNET_GENESIS_MERKLE
       || HeaderHash(GENESIS_HEADER) != TESTNET_GENESIS_HASH {
      return Err(BadGenesis);
    }
    return Ok(Block(GENESIS_HEADER, [coinbase]));
  }

  // ---------------------------------------------------------------- the search

  /** Whether the header meets its target at this time and nonce. */
  ghost predicate Solves(header: BlockHeader, time: u32, nonce: u32) {
    CheckProofOfWork(HeaderHash(header.(time := time, nonce := nonce)), header.bits) == Ok(true)
  }

  /** Times count before nonces. */
  ghost predicate TriedBefore(t: u32, n: u32, time: u32, nonce: u32) {
    t < time || (t == time && n < nonce)
  }

  /** What the search ends with when it has come to this header. */
  ghost function SearchFrom(header: BlockHeader): Result<BlockHeader>
    decreases TWO_32 - header.time, TWO_32 - header.nonce
  {
    if CheckProofOfWork(HeaderHash(header), header.bits) == Ok(true) then Ok(header)
    else if header.nonce < 0xffff_ffff then SearchFrom(header.(nonce := header.nonce + 1))
    else if header.time < 0xffff_ffff then SearchFrom(header.(time := header.time + 1, nonce := 0))
    else Err(MiningExhausted)
  }

  /** The first solution from the header's own time and nonce 0 onwards, if the 64-bit space holds one. */
  method Search(start: BlockHeader) returns (r: Result<BlockHeader>)
    requires start.nonce == 0 && CompactToTarget(start.bits).Ok?
    ensures r == SearchFrom(start)
    ensures r.Ok? ==> && r.value == start.(time := r.value.time, nonce := r.value.nonce)
                      && r.value.time >= start.time
                      && Solves(start, r.value.time, r.value.nonce)
                      && forall t: u32, n: u32 :: start.time <= t && TriedBefore(t, n, r.value.time, r.value.nonce)
                           ==> !Solves(start, t, n)
    ensures r.Err? ==> r.error == MiningExhausted && forall t: u32, n: u32 :: start.time <= t ==> !Solves(start, t, n)
  {
    var header := start;
    while true
      invariant header == start.(time := header.time, nonce := header.nonce) && header.time >= start.time
      invariant SearchFrom(header) == SearchFrom(start)
      invariant forall t: u32, n: u32 :: start.time <= t && TriedBefore(t, n, header.time, header.nonce)
                  ==> !Solves(start, t, n)
      decreases TWO_32 - header.time, TWO_32 - header.nonce
    {
      if CheckProofOfWork(HeaderHash(header), header.bits) == Ok(true) {
        return Ok(header);
      }
      assert !Solves(start, header.time, header.nonce);
      if header.nonce == 0xffff_ffff {
        if header.time == 0xffff_ffff {
          return Err(MiningExhausted);
        }
        header := header.(time := header.time + 1, nonce := 0);
      } else {
        header := header.(nonce := header.nonce + 1);
      }
    }
  }

  /** A mined block: the coinbase claims subsidy and fees, the header links back, commits to the transactions and
      carries the work. */
  ghost predicate MinedOn(block: Block, height: u64, previousHash: Hash256, earliest: u32, bits: u32,
                          script: Script, transactions: seq<Transaction>, fees: int) {
    && var coinbase := MakeTestnetCoinbase(height, BlockSubsidy(height) + fees, script);
    && coinbase.Ok?
    && block.transactions == [coinbase.value] + transactions
    && MerkleRoot(block.transactions) == Ok(block.header.merkleRoot)
    && block.header.previousHash == previousHash
    && block.header.bits == bits
    && block.header.time >= earliest
    && CheckProofOfWork(HeaderHash(block.header), bits) == Ok(true)
  }

  /** What mining ends with, for any arguments and clock reading. */
  ghost function MinedBlock(height: u64, previousHash: Hash256, previousTime: u32, bits: u32, script: Script,
                            transactions: seq<Transaction>, fees: int, now: u32): (r: Result<Block>)
    ensures r.Ok? ==> |r.value.transactions| == 1 + |transactions|
  {
    if !MoneyRange(fees) then Err(BadArgument)
    else if BlockSubsidy(height) > MAX_MONEY - fees then Err(WrongReward)
    else
      var coinbase :- MakeTestnetCoinbase(height, BlockSubsidy(height) + fees, script);
      var root :- MerkleRoot([coinbase] + transactions);
      if CompactToTarget(bits).Err? then Err(BadArgument) else
      var header :- SearchFrom(FirstTry(previousHash, root, previousTime, now, bits));
      Ok(Block(header, [coinbase] + transactions))
  }

  /** The successor of the previous time wraps round, as unsigned addition does. */
  function FirstTry(previousHash: Hash256, root: Hash256, previousTime: u32, now: u32, bits: u32): BlockHeader {
    var next := (previousTime + 1) % TWO_32;
    BlockHeader(1, previousHash, root, if next < now then now else next, bits, 0)
  }

  /** The clock reading is a parameter. */
  method MineTestnetBlock(height: u64, previousHash: Hash256, previousTime: u32, bits: u32, script: Script,
                          transactions: seq<Transaction>, fees: int, now: u32) returns (r: Result<Block>)
    ensures r == MinedBlock(height, previousHash, previousTime, bits, script, transactions, fees, now)
  {
    hide SearchFrom, MerkleRoot, CompactToTarget, BlockSubsidy, MakeTestnetCoinbase;
    if !MoneyRange(fees) {
      return Err(BadArgument);
    }
    var subsidy := BlockSubsidy(height);
    if subsidy > MAX_MONEY - fees {
      return Err(WrongReward);
    }
    var coinbase :- MakeTestnetCoinbase(height, subsidy + fees, script);
    var all := [coinbase] + transactions;
    var root :- MerkleRootRaw(all);
    if CompactToTarget(bits).Err? {
      return Err(BadArgument);
    }
    var header :- Search(FirstTry(previousHash, root, previousTime, now, bits));
    return Ok(Block(header, all));
  }

  lemma {:induction false} SearchKeeps(header: BlockHeader)
    ensures var r := SearchFrom(header);
            r.Ok? ==> && r.value == header.(time := r.value.time, nonce := r.value.nonce)
                      && r.value.time >= header.time
                      && CheckProofOfWork(HeaderHash(r.value), header.bits) == Ok(true)
    decreases TWO_32 - header.time, TWO_32 - header.nonce
  {
    hide CheckProofOfWork;
    if header.nonce < 0xffff_ffff {
      SearchKeeps(header.(nonce := header.nonce + 1));
    } else if header.time < 0xffff_ffff {
      SearchKeeps(header.(time := header.time + 1, nonce := 0));
    }
  }

  /** What is mined links back, commits to the transactions, claims exactly subsidy and fees, and carries the work. */
  lemma {:induction false} MinedBlockMeaning(height: u64, previousHash: Hash256, previousTime: u32, bits: u32,
                                             script: Script, transactions: seq<Transaction>, fees: int, now: u32)
    ensures var r := MinedBlock(height, previousHash, previousTime, bits, script, transactions, fees, now);
            r.Ok? ==> && MinedOn(r.value, height, previousHash, (previousTime + 1) % TWO_32, bits, script, transactions, fees)
                      && MoneyRange(fees) && BlockSubsidy(height) <= MAX_MONEY - fees
                      && r.value.header.version == 1 && r.value.header.time >= now
  {
    hide SearchFrom, MerkleRoot, CheckProofOfWork, CompactToTarget, BlockSubsidy, MakeTestnetCoinbase;
    var r := MinedBlock(height, previousHash, previousTime, bits, script, transactions, fees, now);
    if r.Ok? {
      var coinbase := MakeTestnetCoinbase(height, BlockSubsidy(height) + fees, script).value;
      var root := MerkleRoot([coinbase] + transactions).value;
      SearchKeeps(FirstTry(previousHash, root, previousTime, now, bits));
    }
  }

  /** The search starts at the later of the clock reading and the successor of the previous time. */
  lemma {:induction false} FirstTryTime(previousHash: Hash256, root: Hash256, previousTime: u32, now: u32, bits: u32)
    ensures var start := FirstTry(previousHash, root, previousTime, now, bits);
            && start.nonce == 0 && start.time >= now && (start.time == now || start.time == (previousTime + 1) % TWO_32)
            && (previousTime < TWO_32 - 1 ==> start.time > previousTime)
  {
  }

  /** What the search finds is the first solution: nonces are exhausted before the time moves on. */
  lemma {:induction false} SearchIsFirst(header: BlockHeader, time: u32, nonce: u32)
    requires SearchFrom(header).Ok?
    requires header.time < time || (header.time == time && header.nonce <= nonce)
    requires TriedBefore(time, nonce, SearchFrom(header).value.time, SearchFrom(header).value.nonce)
    ensures !Solves(header, time, nonce)
    decreases TWO_32 - header.time, TWO_32 - header.nonce
  {
    hide CheckProofOfWork;
    SearchKeeps(header);
    if header.time == time && header.nonce == nonce {
      assert header.(time := time, nonce := nonce) == header;
    } else if header.nonce < 0xffff_ffff {
      SearchIsFirst(header.(nonce := header.nonce + 1), time, nonce);
    } else if header.time < 0xffff_ffff {
      SearchIsFirst(header.(time := header.time + 1, nonce := 0), time, nonce);
    }
  }

  lemma {:induction false} SearchFinds(header: BlockHeader, time: u32, nonce: u32)
    requires header.time <= time && (header.time == time ==> header.nonce <= nonce)
    requires Solves(header, time, nonce)
    ensures SearchFrom(header).Ok?
    decreases TWO_32 - header.time, TWO_32 - header.nonce
  {
    hide CheckProofOfWork;
    if header.time == time && header.nonce == nonce {
      assert header.(time := time, nonce := nonce) == header;
    } else if header.nonce < 0xffff_ffff {
      SearchFinds(header.(nonce := header.nonce + 1), time, nonce);
    } else {
      SearchFinds(header.(time := header.time + 1, nonce := 0), time, nonce);
    }
  }

  /** Some time from the header's own on and some nonce carry the work. */
  ghost predicate Minable(start: BlockHeader) {
    exists time: u32, nonce: u32 :: start.time <= time && Solves(start, time, nonce)
  }

  lemma {:induction false} SearchExact(start: BlockHeader)
    requires start.nonce == 0
    ensures SearchFrom(start).Ok? <==> Minable(start)
  {
    hide CheckProofOfWork, SearchFrom;
    SearchKeeps(start);
    if Minable(start) {
      var time: u32, nonce: u32 :| start.time <= time && Solves(start, time, nonce);
      SearchFinds(start, time, nonce);
    }
    if SearchFrom(start).Ok? {
      var found := SearchFrom(start).value;
      assert Solves(start, found.time, found.nonce);
    }
  }

  /** Mining succeeds exactly for fees and reward in range, a script that a coinbase may pay, well-formed
      transactions, a valid difficulty, and a header that some remaining time and nonce solve. */
  lemma {:induction false} MinesExactly(height: u64, previousHash: Hash256, previousTime: u32, bits: u32, script: Script,
                                        transactions: seq<Transaction>, fees: int, now: u32)
    ensures MinedBlock(height, previousHash, previousTime, bits, script, transactions, fees, now).Ok? <==>
              && MoneyRange(fees) && BlockSubsidy(height) <= MAX_MONEY - fees && CompactToTarget(bits).Ok?
              && (var made := MakeTestnetCoinbase(height, BlockSubsidy(height) + fees, script);
                  && made.Ok? && (forall i :: 0 <= i < |transactions| ==> StructureValid(transactions[i]))
                  && Minable(FirstTry(previousHash, Root(TxIds([made.value] + transactions)), previousTime, now, bits)))
  {
    hide CheckProofOfWork, CompactToTarget, BlockSubsidy, MakeTestnetCoinbase, Root, SearchFrom, StructureValid, Minable;
    var made := MakeTestnetCoinbase(height, BlockSubsidy(height) + fees, script);
    if made.Ok? {
      CoinbaseWellFormed(height, BlockSubsidy(height) + fees, script);
      var all := [made.value] + transactions;
      assert all[1..] == transactions;
      if forall i :: 0 <= i < |transactions| ==> StructureValid(transactions[i]) {
        assert forall i :: 0 <= i < |all| ==> StructureValid(all[i]);
      } else {
        var i :| 0 <= i < |transactions| && !StructureValid(transactions[i]);
        assert !StructureValid(all[i + 1]);
      }
      SearchExact(FirstTry(previousHash, Root(TxIds(all)), previousTime, now, bits));
    }
  }
}
