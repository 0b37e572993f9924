/** Block headers, stored blocks and proof of work (src/block.hpp, src/pow.cpp). */
module Blocks {
  import opened Arithmetic
  import opened Amounts
  import opened Errors
  import opened Transactions

  datatype BlockHeader = BlockHeader(
    version: i32, previousHash: Hash256, merkleRoot: Hash256, time: u32, bits: u32, nonce: u32)
  datatype Block = Block(header: BlockHeader, transactions: seq<Transaction>)
  datatype StoredBlock = StoredBlock(height: u64, block: Block)

  const TESTNET_BITS: u32 := 0x1f00_ffff
  const TESTNET_GENESIS_BITS: u32 := 0x1f00_ffff
  const TESTNET_GENESIS_HASH: Hash256 := 0x00007e7bc2b6d593d9bacb54cd32bacaf9a99ff86adc9ac6fbe36134fff1c372
  const TESTNET_GENESIS_MERKLE: Hash256 := 0x2cf10845810fce4b828950111a45d66e33d8649db1265f088cf4607789ae1442
  const TESTNET_GENESIS_TXID: Hash256 := 0x2cf10845810fce4b828950111a45d66e33d8649db1265f088cf4607789ae1442

  /** Double SHA-256 of the 80 header bytes, left uninterpreted. */
  const HeaderHash: BlockHeader -> Hash256

  function HashOf(stored: StoredBlock): Hash256 {
    HeaderHash(stored.block.header)
  }

  function Hashes(blocks: seq<StoredBlock>): set<Hash256> {
    set i | 0 <= i < |blocks| :: HashOf(blocks[i])
  }

  // ---------------------------------------------------------------- proof of work

  /** Shifts by whole bytes: left multiplies, right drops what does not fit. */
  function ShiftedLeft(value: nat, bytes: nat): nat {
    if bytes == 0 then value else ShiftedLeft(value, bytes - 1) * 256
  }

  function ShiftedRight(value: nat, bytes: nat): nat {
    if bytes == 0 then value else ShiftedRight(value, bytes - 1) / 256
  }

  function CompactToTarget(bits: u32): Result<nat> {
    var exponent := bits / 0x100_0000;
    var coefficient := bits % 0x80_0000;
    if bits / 0x80_0000 % 2 != 0 then Err(BadArgument)
    else if coefficient == 0 then Err(BadArgument)
    else
      var target := if exponent <= 3 then ShiftedRight(coefficient, 3 - exponent)
                    else ShiftedLeft(coefficient, exponent - 3);
      if target <= 0 || target > TWO_256 - 1 then Err(BadArgument) else Ok(target)
  }

  /** The expected number of hashes behind a block of this difficulty. */
  function BlockProof(bits: u32): Result<nat> {
    var target :- CompactToTarget(bits);
    Ok((TWO_256 - 1) / (target + 1) + 1)
  }

  /** A digest, read as a little-endian number, meets the target. */
  function CheckProofOfWork(hash: Hash256, bits: u32): Result<bool> {
    var target :- CompactToTarget(bits);
    Ok(hash <= target)
  }

  function ChainWork(blocks: seq<StoredBlock>): Result<nat> {
    if blocks == [] then Ok(0) else
    var before :- ChainWork(blocks[..|blocks| - 1]);
    var proof :- BlockProof(blocks[|blocks| - 1].block.header.bits);
    Ok(before + proof)
  }

  method CalculateChainwork(blocks: seq<StoredBlock>) returns (r: Result<nat>)
    ensures r == ChainWork(blocks)
  {
    var total := 0;
    for i := 0 to |blocks|
      invariant ChainWork(blocks[..i]) == Ok(total)
    {
      assert blocks[..i + 1][..i] == blocks[..i];
      var proof := BlockProof(blocks[i].block.header.bits);
      if proof.Err? {
        ChainWorkFails(blocks, i + 1);
        return proof;
      }
      total := total + proof.value;
    }
    assert blocks[..|blocks|] == blocks;
    return Ok(total);
  }

  lemma {:induction false} ChainWorkFails(blocks: seq<StoredBlock>, n: nat)
    requires n <= |blocks| && ChainWork(blocks[..n]).Err?
    ensures ChainWork(blocks) == ChainWork(blocks[..n])
    decreases |blocks|
  {
    if n < |blocks| {
      var shorter := blocks[..|blocks| - 1];
      assert shorter[..n] == blocks[..n];
      ChainWorkFails(shorter, n);
    } else {
      assert blocks[..n] == blocks;
    }
  }

  /** Less target is more work, and no valid difficulty is worth nothing. */
  lemma {:induction false} HarderIsMoreWork(a: u32, b: u32)
    requires CompactToTarget(a).Ok? && CompactToTarget(b).Ok?
    requires CompactToTarget(a).value <= CompactToTarget(b).value
    ensures 1 <= BlockProof(b).value <= BlockProof(a).value
  {
    var (x, y) := (CompactToTarget(a).value + 1, CompactToTarget(b).value + 1);
    DivisionAntitone(TWO_256 - 1, x, y);
  }

  lemma {:induction false} ShiftedIsProduct(value: nat, bytes: nat)
    ensures ShiftedLeft(value, bytes) == value * Pow256(bytes)
  {
    if bytes > 0 {
      ShiftedIsProduct(value, bytes - 1);
      assert value * Pow256(bytes - 1) * 256 == value * (256 * Pow256(bytes - 1));
    }
  }

  lemma {:induction false} ShiftedIsQuotient(value: nat, bytes: nat)
    ensures ShiftedRight(value, bytes) == value / Pow256(bytes)
  {
    if bytes > 0 {
      ShiftedIsQuotient(value, bytes - 1);
      QuotientTwice(value, Pow256(bytes - 1));
    }
  }

  lemma {:induction false} QuotientTwice(value: nat, p: nat)
    requires p > 0
    ensures value / p / 256 == value / (256 * p)
  {
    var (q, r) := (value / p, value % p);
    assert value == q * p + r;
    assert q * p == (q / 256 * 256 + q % 256) * p == q / 256 * 256 * p + q % 256 * p;
    ProductMonotone(q % 256 + 1, 256, p);
    assert (q % 256 + 1) * p == q % 256 * p + p;
    assert q / 256 * 256 * p == q / 256 * (256 * p);
    QuotientIs(value, 256 * p, q / 256, q % 256 * p + r);
  }

  /** The target of any difficulty is its low 23 bits times 256 to the power of its high byte less three, rounded down. It
      is refused exactly if the sign bit is set or the result is nothing or does not fit 256 bits. */
  lemma {:induction false} TargetMeaning(bits: u32)
    ensures var (exponent, coefficient) := (bits / 0x100_0000, bits % 0x80_0000);
            var target := if exponent < 3 then coefficient / Pow256(3 - exponent) else coefficient * Pow256(exponent - 3);
            CompactToTarget(bits)
            == if bits / 0x80_0000 % 2 == 0 && 0 < target < TWO_256 then Ok(target) else Err(BadArgument)
  {
    hide Pow256, ShiftedLeft, ShiftedRight;
    var (exponent, coefficient) := (bits / 0x100_0000, bits % 0x80_0000);
    if exponent <= 3 {
      ShiftedIsQuotient(coefficient, 3 - exponent);
      NoPlaces();
    } else {
      ShiftedIsProduct(coefficient, exponent - 3);
    }
    if coefficient == 0 {
      NothingScales(exponent);
    }
  }

  lemma {:induction false} NoPlaces()
    ensures Pow256(0) == 1
  {
  }

  lemma {:induction false} NothingScales(exponent: nat)
    ensures exponent < 3 ==> 0 / Pow256(3 - exponent) == 0
    ensures exponent >= 3 ==> 0 * Pow256(exponent - 3) == 0
  {
  }

  /** A hash shows the testnet difficulty's work exactly if it does not exceed the target. */
  lemma {:induction false} WorkMeaning(hash: Hash256)
    ensures CheckProofOfWork(hash, TESTNET_BITS) == Ok(hash <= TESTNET_TARGET)
  {
    TestnetTarget();
    hide CompactToTarget;
  }

  /** The work of a block is the number of hashes that meet its target once on average, rounded up: 2^256 out of as many
      as there are digests up to the target. */
  lemma {:induction false} ProofMeaning(bits: u32)
    requires CompactToTarget(bits).Ok?
    ensures var (target, proof) := (CompactToTarget(bits).value, BlockProof(bits).value);
            (proof - 1) * (target + 1) < TWO_256 <= proof * (target + 1)
  {
    hide CompactToTarget;
    var d := CompactToTarget(bits).value + 1;
    var q := (TWO_256 - 1) / d;
    assert TWO_256 - 1 == q * d + (TWO_256 - 1) % d;
    assert (q + 1) * d == q * d + d;
  }

  lemma {:induction false} Pow256Of28()
    ensures Pow256(28) == 0x1_00000000_0000000000000000_0000000000000000_0000000000000000
  {
    assert Pow256(4) == TWO_32;
    hide Pow256;
    Pow256Adds(4, 4);
    Pow256Adds(8, 4);
    Pow256Adds(12, 4);
    Pow256Adds(16, 8);
    Pow256Adds(24, 4);
  }

  const TESTNET_TARGET: nat := 0xffff_00000000_0000000000000000_0000000000000000_0000000000000000

  lemma {:induction false} TestnetTarget()
    ensures CompactToTarget(TESTNET_BITS) == Ok(TESTNET_TARGET)
  {
    hide Pow256, ShiftedLeft, ShiftedRight;
    ShiftedIsProduct(0xffff, 28);
    Pow256Of28();
  }

  /** A block of the testnet difficulty stands for at most 2^32 hashes. */
  lemma {:induction false} TestnetProofSmall()
    ensures BlockProof(TESTNET_BITS).Ok? && BlockProof(TESTNET_BITS).value <= TWO_32
  {
    TestnetTarget();
    hide CompactToTarget;
    DivisionAntitone(TWO_256 - 1, 0x1_00000000_0000000000000000_0000000000000000_0000000000000000, TESTNET_TARGET + 1);
  }

  /** A chain of n blocks of one difficulty, after a genesis of another, is worth what its length says. */
  lemma {:induction false} UniformChainWork(blocks: seq<StoredBlock>, genesisBits: u32, bits: u32)
    requires |blocks| > 0 && blocks[0].block.header.bits == genesisBits
    requires forall i :: 0 < i < |blocks| ==> blocks[i].block.header.bits == bits
    requires BlockProof(genesisBits).Ok? && BlockProof(bits).Ok?
    ensures ChainWork(blocks) == Ok(BlockProof(genesisBits).value + (|blocks| - 1) * BlockProof(bits).value)
  {
    hide BlockProof;
    var shorter := blocks[..|blocks| - 1];
    if |blocks| == 1 {
      assert ChainWork(shorter) == Ok(0);
    } else {
      UniformChainWork(shorter, genesisBits, bits);
      var (n, p) := (|blocks|, BlockProof(bits).value);
      assert (n - 2) * p + p == (n - 1) * p;
    }
  }
}
