/** Pay-to-public-key scripts, signature hashes, signing and checking (src/script.cpp). */
module Scripts {
  import opened Errors
  import opened Transactions

  type SecretKey = Hash256

  const OP_CHECKSIG: byte := 0xac
  const SIGHASH_ALL: byte := 1

  // The elliptic curve is left uninterpreted.

  /** The digest of a transaction serialised with the SIGHASH_ALL suffix. */
  const SighashDigest: Transaction -> Hash256
  const OnCurve: Script -> bool
  const PublicKeyOf: SecretKey -> Script
  const SignDer: (SecretKey, Hash256) -> Script
  const VerifyEcdsaDer: (Hash256, Script, Script) -> bool

  predicate ValidCompressedPublicKey(key: Script) {
    |key| == 33 && (key[0] == 2 || key[0] == 3) && OnCurve(key)
  }

  function MakeP2pkScript(key: Script): Result<Script> {
    if ValidCompressedPublicKey(key) then Ok([33] + key + [OP_CHECKSIG]) else Err(BadArgument)
  }

  predicate IsP2pkScript(script: Script) {
    |script| == 35 && script[0] == 33 && script[34] == OP_CHECKSIG && ValidCompressedPublicKey(script[1..34])
  }

  function ExtractP2pkPublicKey(script: Script): Result<Script> {
    if IsP2pkScript(script) then Ok(script[1..34]) else Err(BadArgument)
  }

  /** A direct push, limited to 75 bytes. */
  function PushScriptData(data: Script): Result<Script> {
    if |data| > 75 then Err(BadArgument) else Ok([|data| as byte] + data)
  }

  function ClearScriptSigs(inputs: seq<TxInput>): (cleared: seq<TxInput>)
    ensures |cleared| == |inputs|
    ensures forall i :: 0 <= i < |inputs| ==> cleared[i] == inputs[i].(scriptSig := [])
  {
    seq(|inputs|, i requires 0 <= i < |inputs| => inputs[i].(scriptSig := []))
  }

  /** What an input's signature commits to: every script blanked except its own, which holds the spent script. */
  function SighashPreimage(tx: Transaction, index: nat, previousScript: Script): Transaction
    requires index < |tx.inputs|
  {
    var cleared := ClearScriptSigs(tx.inputs);
    tx.(inputs := cleared[index := cleared[index].(scriptSig := previousScript)])
  }

  function SignatureHashAll(tx: Transaction, index: nat, previousScript: Script): Hash256
    requires index < |tx.inputs|
  {
    SighashDigest(SighashPreimage(tx, index, previousScript))
  }

  predicate VerifyP2pkInput(tx: Transaction, index: nat, previousScript: Script) {
    && index < |tx.inputs|
    && IsP2pkScript(previousScript)
    && var scriptSig := tx.inputs[index].scriptSig;
    && |scriptSig| >= 2
    && scriptSig[0] == |scriptSig| - 1
    && scriptSig[|scriptSig| - 1] == SIGHASH_ALL
    && VerifyEcdsaDer(SignatureHashAll(tx, index, previousScript), scriptSig[1..|scriptSig| - 1],
                      previousScript[1..34])
  }

  /** The script signature that sign_p2pk_input puts in place. */
  function P2pkScriptSig(tx: Transaction, index: nat, previousScript: Script, key: SecretKey): Result<Script>
    requires index < |tx.inputs|
  {
    var expected :- ExtractP2pkPublicKey(previousScript);
    if expected != PublicKeyOf(key) then Err(BadArgument)
    else PushScriptData(SignDer(key, SignatureHashAll(tx, index, previousScript)) + [SIGHASH_ALL])
  }

  /** Replaces the script signature of one input and nothing else. */
  function WithScriptSig(tx: Transaction, index: nat, scriptSig: Script): Transaction
    requires index < |tx.inputs|
  {
    tx.(inputs := tx.inputs[index := tx.inputs[index].(scriptSig := scriptSig)])
  }

  /** What is assumed of the foreign signer for a given key and digest: its signatures verify, and their DER
      form is neither empty nor longer than 72 bytes. */
  ghost predicate SignerWorks(key: SecretKey, digest: Hash256) {
    && 0 < |SignDer(key, digest)| <= 72
    && VerifyEcdsaDer(digest, SignDer(key, digest), PublicKeyOf(key))
  }

  // ---------------------------------------------------------------- properties

  /** A script built for a key is recognised and yields that key back; nothing else does. */
  lemma {:induction false} P2pkRoundTrip(key: Script, script: Script)
    ensures MakeP2pkScript(key) == Ok(script) <==> ExtractP2pkPublicKey(script) == Ok(key)
  {
    if MakeP2pkScript(key) == Ok(script) {
      assert script[1..34] == key;
    }
    if ExtractP2pkPublicKey(script) == Ok(key) {
      assert script == [33] + script[1..34] + [OP_CHECKSIG];
    }
  }

  /** The key of the script has signed the transaction's digest for this input. */
  ghost predicate SignedBy(tx: Transaction, index: nat, script: Script, key: Script, der: Script)
    requires index < |tx.inputs|
  {
    && MakeP2pkScript(key) == Ok(script) && |der| < 255
    && tx.inputs[index].scriptSig == [(|der| + 1) as byte] + der + [SIGHASH_ALL]
    && VerifyEcdsaDer(SignatureHashAll(tx, index, script), der, key)
  }

  /** An input is accepted exactly if its script signature is the push of a DER signature with the SIGHASH_ALL suffix that
      the curve accepts for the transaction's digest and the key of the script it spends. */
  lemma {:induction false} VerifyMeaning(tx: Transaction, index: nat, script: Script)
    ensures VerifyP2pkInput(tx, index, script) <==>
              index < |tx.inputs| && exists key, der :: SignedBy(tx, index, script, key, der)
  {
    hide SignatureHashAll;
    if VerifyP2pkInput(tx, index, script) {
      var sig := tx.inputs[index].scriptSig;
      var (key, der) := (script[1..34], sig[1..|sig| - 1]);
      P2pkRoundTrip(key, script);
      assert sig == [sig[0]] + der + [SIGHASH_ALL];
      assert SignedBy(tx, index, script, key, der);
    }
    if index < |tx.inputs| && exists key, der :: SignedBy(tx, index, script, key, der) {
      var key, der :| SignedBy(tx, index, script, key, der);
      P2pkRoundTrip(key, script);
      var sig := tx.inputs[index].scriptSig;
      assert sig[1..|sig| - 1] == der && script[1..34] == key;
    }
  }

  /** What is signed determines everything but the script signatures: version, outputs, lock time, the spent outpoints and
      sequences of all inputs, which input it is and what script it spends. */
  lemma {:induction false} PreimageCommits(a: Transaction, i: nat, s: Script, b: Transaction, j: nat, t: Script)
    requires i < |a.inputs| && j < |b.inputs| && s != [] && t != []
    ensures SighashPreimage(a, i, s) == SighashPreimage(b, j, t) <==>
              && i == j && s == t
              && a.version == b.version && a.outputs == b.outputs && a.lockTime == b.lockTime && |a.inputs| == |b.inputs|
              && forall k :: 0 <= k < |a.inputs| ==>
                   a.inputs[k].previousOutput == b.inputs[k].previousOutput && a.inputs[k].sequence == b.inputs[k].sequence
  {
    var (x, y) := (SighashPreimage(a, i, s).inputs, SighashPreimage(b, j, t).inputs);
    if SighashPreimage(a, i, s) == SighashPreimage(b, j, t) {
      assert x[i].scriptSig == s && y[i].scriptSig == s;
      forall k | 0 <= k < |a.inputs|
        ensures a.inputs[k].previousOutput == b.inputs[k].previousOutput && a.inputs[k].sequence == b.inputs[k].sequence
      {
        assert x[k] == y[k];
      }
    } else if |x| == |y| && i == j && s == t &&
              forall k :: 0 <= k < |a.inputs| ==>
                a.inputs[k].previousOutput == b.inputs[k].previousOutput && a.inputs[k].sequence == b.inputs[k].sequence {
      assert forall k :: 0 <= k < |x| ==> x[k] == y[k];
      assert x == y;
    }
  }

  /** Rewriting the script signature of any input leaves every signature hash as it was. */
  lemma {:induction false} SignatureHashIgnoresScriptSigs(tx: Transaction, changed: nat, scriptSig: Script, index: nat, script: Script)
    requires changed < |tx.inputs| && index < |tx.inputs|
    ensures SignatureHashAll(WithScriptSig(tx, changed, scriptSig), index, script) == SignatureHashAll(tx, index, script)
  {
    assert ClearScriptSigs(WithScriptSig(tx, changed, scriptSig).inputs) == ClearScriptSigs(tx.inputs);
    var cleared := ClearScriptSigs(tx.inputs);
    assert WithScriptSig(tx, changed, scriptSig).(inputs := cleared[index := cleared[index].(scriptSig := script)])
        == tx.(inputs := cleared[index := cleared[index].(scriptSig := script)]);
  }

  /** Signing one input never changes whether another input's signature is accepted. */
  lemma {:induction false} SigningKeepsOtherInputs(tx: Transaction, signed: nat, scriptSig: Script, other: nat, script: Script)
    requires signed < |tx.inputs| && other != signed
    ensures VerifyP2pkInput(WithScriptSig(tx, signed, scriptSig), other, script) == VerifyP2pkInput(tx, other, script)
  {
    if other < |tx.inputs| {
      SignatureHashIgnoresScriptSigs(tx, signed, scriptSig, other, script);
    }
  }

  /** An input signed with the key of the script it spends is accepted, provided the signer works. */
  lemma {:induction false} SignedInputVerifies(tx: Transaction, index: nat, script: Script, key: SecretKey)
    requires index < |tx.inputs| && MakeP2pkScript(PublicKeyOf(key)) == Ok(script)
    requires SignerWorks(key, SignatureHashAll(tx, index, script))
    ensures P2pkScriptSig(tx, index, script, key).Ok?
    ensures var sig := P2pkScriptSig(tx, index, script, key).value;
            |sig| <= 74 && VerifyP2pkInput(WithScriptSig(tx, index, sig), index, script)
  {
    P2pkRoundTrip(PublicKeyOf(key), script);
    var der := SignDer(key, SignatureHashAll(tx, index, script));
    var sig := P2pkScriptSig(tx, index, script, key).value;
    SignatureHashIgnoresScriptSigs(tx, index, sig, index, script);
    assert sig == [(|der| + 1) as byte] + (der + [SIGHASH_ALL]);
    assert sig[1..|sig| - 1] == der;
  }
}
