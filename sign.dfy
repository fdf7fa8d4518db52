/** Signing of a built transaction: one batch of signature hashes and key paths for the signer,
    the signatures written into the inputs, and the final validity check. */
module Sign {
  import opened Errors
  import opened Wire
  import TxSort

  /** An address of the wallet, reduced to what signing needs: SigHashData's segwit flag and
      subscript, and the key path that derives its key. */
  datatype Address = Address(isSegwit: bool, subScript: Script, keyPath: string)

  /** A previous output being spent (transactions.TxOut): its value, its locking script and the
      wallet address it pays. */
  datatype PrevOut = PrevOut(value: Amount, pkScript: Script, address: Address)

  /** A signature handed back by the signer; its encoding is the signer's business. */
  type Signature = seq<Byte>

  /** The midstate hashes txscript.NewTxSigHashes precomputes for segwit signature hashes. */
  datatype TxSigHashes = TxSigHashes(hashPrevOuts: Hash, hashSequence: Hash, hashOutputs: Hash)

  /** The script library the core calls into, always with SigHashAll and the standard verify
      flags: the segwit and the legacy signature hash, the sighash midstate, and the two steps of
      running an input's script (building the engine, executing it). */
  datatype ScriptLib = ScriptLib(
    newTxSigHashes: Tx -> TxSigHashes,
    calcWitnessSigHash: (Script, TxSigHashes, Tx, nat, Amount) -> Result<Hash>,
    calcSignatureHash: (Script, Tx, nat) -> Result<Hash>,
    newEngine: (Script, Tx, nat, TxSigHashes, Amount) -> Outcome,
    execute: (Script, Tx, nat, TxSigHashes, Amount) -> Outcome)

  /** address.InputData: the signature script and the witness that spend from `address` with
      `signature`. */
  type InputData = (Address, Signature) -> (Script, TxWitness)

  /** What the signer was asked to sign: one hash and one key path per input, aligned. */
  datatype SigBatch = SigBatch(hashes: seq<Hash>, keyPaths: seq<string>)

  /** The key store (HDKeyStoreInterface): answers every request with `respond` and keeps the
      requests it was given. */
  class Signer {
    const respond: (seq<Hash>, seq<string>) -> Result<seq<Signature>>
    var requests: seq<SigBatch>

    constructor (respond: (seq<Hash>, seq<string>) -> Result<seq<Signature>>)
      ensures this.respond == respond && requests == []
    {
      this.respond := respond;
      requests := [];
    }

    method Sign(hashes: seq<Hash>, keyPaths: seq<string>) returns (r: Result<seq<Signature>>)
      modifies this`requests
      ensures r == respond(hashes, keyPaths)
      ensures requests == old(requests) + [SigBatch(hashes, keyPaths)]
    {
      r := respond(hashes, keyPaths);
      requests := requests + [SigBatch(hashes, keyPaths)];
    }
  }

  /** The signature hash of input `index` spending `prev`: the segwit (BIP 143) hash over the
      spent value for a segwit address, the legacy hash otherwise, both over the address's
      subscript. */
  function SigHash(lib: ScriptLib, tx: Tx, sigHashes: TxSigHashes, prev: PrevOut, index: nat): (hash: Result<Hash>)
  {
    if prev.address.isSegwit then
      lib.calcWitnessSigHash(prev.address.subScript, sigHashes, tx, index, prev.value)
    else
      lib.calcSignatureHash(prev.address.subScript, tx, index)
  }

  /** The batch for the first `n` inputs, or the error of the first of them whose hash fails. */
  function SignatureBatch(lib: ScriptLib, tx: Tx, sigHashes: TxSigHashes, prevs: seq<PrevOut>, n: nat)
    : (batch: Result<SigBatch>)
    requires n <= |prevs|
  {
    if n == 0 then Success(SigBatch([], []))
    else
      match SignatureBatch(lib, tx, sigHashes, prevs, n - 1)
      case Failure(e) => Failure(e)
      case Success(b) =>
        match SigHash(lib, tx, sigHashes, prevs[n - 1], n - 1)
        case Failure(e) => Failure(e)
        case Success(h) => Success(SigBatch(b.hashes + [h], b.keyPaths + [prevs[n - 1].address.keyPath]))
  }

  /** The batch exists exactly when every one of the first `n` signature hashes does. */
  lemma {:induction false} SignatureBatchSucceeds(
    lib: ScriptLib, tx: Tx, sigHashes: TxSigHashes, prevs: seq<PrevOut>, n: nat)
    requires n <= |prevs|
    ensures SignatureBatch(lib, tx, sigHashes, prevs, n).Success? <==>
      forall i :: 0 <= i < n ==> SigHash(lib, tx, sigHashes, prevs[i], i).Success?
  {
    if n > 0 {
      SignatureBatchSucceeds(lib, tx, sigHashes, prevs, n - 1);
    }
  }

  /** A batch holds one entry per input, aligned: at each index, that input's signature hash
      and the key path of the address it spends from. */
  lemma {:induction false} SignatureBatchAligned(
    lib: ScriptLib, tx: Tx, sigHashes: TxSigHashes, prevs: seq<PrevOut>, n: nat)
    requires n <= |prevs|
    requires SignatureBatch(lib, tx, sigHashes, prevs, n).Success?
    ensures var b := SignatureBatch(lib, tx, sigHashes, prevs, n).value;
      && |b.hashes| == n && |b.keyPaths| == n
      && forall i :: 0 <= i < n ==>
           && Success(b.hashes[i]) == SigHash(lib, tx, sigHashes, prevs[i], i)
           && b.keyPaths[i] == prevs[i].address.keyPath
  {
    if n > 0 {
      SignatureBatchAligned(lib, tx, sigHashes, prevs, n - 1);
    }
  }

  /** A failed batch carries the error of the first input whose signature hash fails. */
  lemma {:induction false} SignatureBatchFirstFailure(
    lib: ScriptLib, tx: Tx, sigHashes: TxSigHashes, prevs: seq<PrevOut>, n: nat)
    requires n <= |prevs|
    requires SignatureBatch(lib, tx, sigHashes, prevs, n).Failure?
    ensures exists i ::
      && 0 <= i < n
      && (forall k :: 0 <= k < i ==> SigHash(lib, tx, sigHashes, prevs[k], k).Success?)
      && SigHash(lib, tx, sigHashes, prevs[i], i) == Failure(SignatureBatch(lib, tx, sigHashes, prevs, n).error)
  {
    if SignatureBatch(lib, tx, sigHashes, prevs, n - 1).Failure? {
      SignatureBatchFirstFailure(lib, tx, sigHashes, prevs, n - 1);
    } else {
      SignatureBatchSucceeds(lib, tx, sigHashes, prevs, n - 1);
      assert forall k :: 0 <= k < n - 1 ==> SigHash(lib, tx, sigHashes, prevs[k], k).Success?;
    }
  }

  /** Once a hash fails, the batch of any longer prefix fails with the same error. */
  lemma {:induction false} SignatureBatchFailureStays(
    lib: ScriptLib, tx: Tx, sigHashes: TxSigHashes, prevs: seq<PrevOut>, m: nat, n: nat)
    requires m <= n <= |prevs|
    requires SignatureBatch(lib, tx, sigHashes, prevs, m).Failure?
    ensures SignatureBatch(lib, tx, sigHashes, prevs, n) == SignatureBatch(lib, tx, sigHashes, prevs, m)
    decreases n
  {
    if m < n {
      SignatureBatchFailureStays(lib, tx, sigHashes, prevs, m, n - 1);
    }
  }

  /** The loop of SignTransaction that collects one signature hash and one key path per input,
      in input order, returning the first hash error. */
  method BuildSignatureBatch(lib: ScriptLib, tx: Tx, sigHashes: TxSigHashes, previousOutputs: seq<PrevOut>)
    returns (r: Result<SigBatch>)
    requires |previousOutputs| == |tx.txIn|
    ensures r == SignatureBatch(lib, tx, sigHashes, previousOutputs, |tx.txIn|)
  {
    var signatureHashes: seq<Hash> := [];
    var keyPaths: seq<string> := [];
    for index := 0 to |tx.txIn|
      invariant SignatureBatch(lib, tx, sigHashes, previousOutputs, index) == Success(SigBatch(signatureHashes, keyPaths))
    {
      var spentOutput := previousOutputs[index];
      var address := spentOutput.address;
      var signatureHash: Result<Hash>;
      if address.isSegwit {
        signatureHash := lib.calcWitnessSigHash(address.subScript, sigHashes, tx, index, spentOutput.value);
      } else {
        signatureHash := lib.calcSignatureHash(address.subScript, tx, index);
      }
      if signatureHash.Failure? {
        SignatureBatchFailureStays(lib, tx, sigHashes, previousOutputs, index + 1, |tx.txIn|);
        return Failure(signatureHash.error);
      }
      signatureHashes := signatureHashes + [signatureHash.value];
      keyPaths := keyPaths + [address.keyPath];
    }
    return Success(SigBatch(signatureHashes, keyPaths));
  }

  /** `after` is `before` with input i's signature script and witness taken from InputData for
      the address input i spends and signature i; outpoints and sequence numbers are kept. */
  ghost predicate SignedInputs(
    before: seq<TxIn>, after: seq<TxIn>, prevs: seq<PrevOut>, signatures: seq<Signature>, inputData: InputData)
    requires |prevs| == |before| == |signatures|
  {
    && |after| == |before|
    && forall i :: 0 <= i < |before| ==>
         && after[i].previousOutPoint == before[i].previousOutPoint
         && after[i].sequence == before[i].sequence
         && (after[i].signatureScript, after[i].txWitness) == inputData(prevs[i].address, signatures[i])
  }

  /** Writing signatures changes no outpoint, so the BIP 69 input order holds after signing
      exactly when it held before. */
  lemma SigningKeepsInputOrder(
    before: seq<TxIn>, after: seq<TxIn>, prevs: seq<PrevOut>, signatures: seq<Signature>, inputData: InputData)
    requires |prevs| == |before| == |signatures|
    requires SignedInputs(before, after, prevs, signatures, inputData)
    ensures TxSort.Sorted(after, TxSort.InputLess) <==> TxSort.Sorted(before, TxSort.InputLess)
  {
  }

  /** The assembly loop of SignTransaction: writes each input's signature script and witness
      from its own signature, in place. */
  method WriteInputData(transaction: MsgTx, previousOutputs: seq<PrevOut>, signatures: seq<Signature>, inputData: InputData)
    requires |previousOutputs| == |transaction.txIn| == |signatures|
    modifies transaction`txIn
    ensures SignedInputs(old(transaction.txIn), transaction.txIn, previousOutputs, signatures, inputData)
  {
    for index := 0 to |transaction.txIn|
      invariant |transaction.txIn| == |old(transaction.txIn)|
      invariant forall i :: index <= i < |transaction.txIn| ==> transaction.txIn[i] == old(transaction.txIn[i])
      invariant forall i :: 0 <= i < index ==>
        && transaction.txIn[i].previousOutPoint == old(transaction.txIn[i]).previousOutPoint
        && transaction.txIn[i].sequence == old(transaction.txIn[i]).sequence
        && (transaction.txIn[i].signatureScript, transaction.txIn[i].txWitness)
           == inputData(previousOutputs[i].address, signatures[i])
    {
      var input := transaction.txIn[index];
      var (signatureScript, txWitness) := inputData(previousOutputs[index].address, signatures[index]);
      transaction.txIn := transaction.txIn[index := input.(signatureScript := signatureScript, txWitness := txWitness)];
    }
  }

  /** The script check of input `index` against the output it spends: building the engine can
      fail, and otherwise executing the script decides. */
  function InputCheck(lib: ScriptLib, tx: Tx, sigHashes: TxSigHashes, prev: PrevOut, index: nat): (o: Outcome)
  {
    match lib.newEngine(prev.pkScript, tx, index, sigHashes, prev.value)
    case Fail(e) => Fail(e)
    case Pass => lib.execute(prev.pkScript, tx, index, sigHashes, prev.value)
  }

  /** The script checks of the first `n` inputs: the first failure, or Pass. */
  function CheckInputs(lib: ScriptLib, tx: Tx, sigHashes: TxSigHashes, prevs: seq<PrevOut>, n: nat): (o: Outcome)
    requires n <= |prevs|
  {
    if n == 0 then Pass
    else
      match CheckInputs(lib, tx, sigHashes, prevs, n - 1)
      case Fail(e) => Fail(e)
      case Pass => InputCheck(lib, tx, sigHashes, prevs[n - 1], n - 1)
  }

  /** The checks pass exactly when every input's check passes; a failure is the first failing
      input's. */
  lemma {:induction false} CheckInputsFirstFailure(
    lib: ScriptLib, tx: Tx, sigHashes: TxSigHashes, prevs: seq<PrevOut>, n: nat)
    requires n <= |prevs|
    ensures CheckInputs(lib, tx, sigHashes, prevs, n) == Pass <==>
      forall i :: 0 <= i < n ==> InputCheck(lib, tx, sigHashes, prevs[i], i) == Pass
    ensures CheckInputs(lib, tx, sigHashes, prevs, n).Fail? ==>
      exists i :: 0 <= i < n
        && (forall k :: 0 <= k < i ==> InputCheck(lib, tx, sigHashes, prevs[k], k) == Pass)
        && InputCheck(lib, tx, sigHashes, prevs[i], i) == CheckInputs(lib, tx, sigHashes, prevs, n)
  {
    if n > 0 {
      CheckInputsFirstFailure(lib, tx, sigHashes, prevs, n - 1);
      if CheckInputs(lib, tx, sigHashes, prevs, n - 1).Fail? {
        var i :| 0 <= i < n - 1
          && (forall k :: 0 <= k < i ==> InputCheck(lib, tx, sigHashes, prevs[k], k) == Pass)
          && InputCheck(lib, tx, sigHashes, prevs[i], i) == CheckInputs(lib, tx, sigHashes, prevs, n - 1);
        assert InputCheck(lib, tx, sigHashes, prevs[i], i) != Pass;
      }
    }
  }

  /** Once an input fails, the checks of any longer prefix fail the same way. */
  lemma {:induction false} CheckInputsFailureStays(
    lib: ScriptLib, tx: Tx, sigHashes: TxSigHashes, prevs: seq<PrevOut>, m: nat, n: nat)
    requires m <= n <= |prevs|
    requires CheckInputs(lib, tx, sigHashes, prevs, m).Fail?
    ensures CheckInputs(lib, tx, sigHashes, prevs, n) == CheckInputs(lib, tx, sigHashes, prevs, m)
    decreases n
  {
    if m < n {
      CheckInputsFailureStays(lib, tx, sigHashes, prevs, m, n - 1);
    }
  }

  /** txValidityCheck: a transaction out of BIP 69 order is rejected; otherwise every input's
      script is run against the output it spends, and the first failure is returned. */
  method TxValidityCheck(lib: ScriptLib, transaction: MsgTx, previousOutputs: seq<PrevOut>, sigHashes: TxSigHashes)
    returns (o: Outcome)
    requires |previousOutputs| == |transaction.txIn|
    ensures !TxSort.IsSorted(transaction.Value()) ==> o == Fail(NotBip69Conformant)
    ensures TxSort.IsSorted(transaction.Value()) ==>
      o == CheckInputs(lib, transaction.Value(), sigHashes, previousOutputs, |previousOutputs|)
  {
    if !TxSort.IsSorted(transaction.Value()) {
      return Fail(NotBip69Conformant);
    }
    for index := 0 to |transaction.txIn|
      invariant CheckInputs(lib, transaction.Value(), sigHashes, previousOutputs, index) == Pass
    {
      var prev := previousOutputs[index];
      var engine := lib.newEngine(prev.pkScript, transaction.Value(), index, sigHashes, prev.value);
      if engine.Fail? {
        CheckInputsFailureStays(lib, transaction.Value(), sigHashes, previousOutputs, index + 1, |previousOutputs|);
        return Fail(engine.error);
      }
      var executed := lib.execute(prev.pkScript, transaction.Value(), index, sigHashes, prev.value);
      if executed.Fail? {
        CheckInputsFailureStays(lib, transaction.Value(), sigHashes, previousOutputs, index + 1, |previousOutputs|);
        return Fail(executed.error);
      }
    }
    return Pass;
  }

  /** Why SignTransaction aborts instead of returning an error. */
  datatype PanicReason = InputCountMismatch | SignatureCountMismatch | InvalidTransaction(error: Error)

  /** The end of a SignTransaction call: success, a returned error, or an abort. */
  datatype SignOutcome = Signed | SignError(error: Error) | Panic(reason: PanicReason)

  /** SignTransaction: aborts unless there is one previous output per input; asks the signer
      once for the whole aligned batch; aborts unless it gets one signature per input; writes
      the signatures into the inputs; and aborts if the signed transaction fails the validity
      check, run with the sighash midstate of the unsigned transaction. A hash or signer error
      is returned with the inputs untouched. */
  method SignTransaction(
    signer: Signer,
    lib: ScriptLib,
    inputData: InputData,
    transaction: MsgTx,
    previousOutputs: seq<PrevOut>)
    returns (o: SignOutcome)
    modifies transaction`txIn, signer`requests
    ensures |previousOutputs| != |old(transaction.txIn)| ==>
      && o == Panic(InputCountMismatch)
      && transaction.txIn == old(transaction.txIn) && signer.requests == old(signer.requests)
    ensures |previousOutputs| == |old(transaction.txIn)| ==>
      var unsigned := old(transaction.Value());
      var sigHashes := lib.newTxSigHashes(unsigned);
      var batch := SignatureBatch(lib, unsigned, sigHashes, previousOutputs, |previousOutputs|);
      if batch.Failure? then
        && o == SignError(batch.error)
        && transaction.txIn == unsigned.txIn && signer.requests == old(signer.requests)
      else
        var response := signer.respond(batch.value.hashes, batch.value.keyPaths);
        && signer.requests == old(signer.requests) + [batch.value]
        && (if response.Failure? then
              o == SignError(response.error) && transaction.txIn == unsigned.txIn
            else if |response.value| != |previousOutputs| then
              o == Panic(SignatureCountMismatch) && transaction.txIn == unsigned.txIn
            else
              && SignedInputs(unsigned.txIn, transaction.txIn, previousOutputs, response.value, inputData)
              && (o == Signed <==>
                    && TxSort.IsSorted(unsigned)
                    && CheckInputs(lib, transaction.Value(), sigHashes, previousOutputs, |previousOutputs|) == Pass)
              && (o != Signed ==> o.Panic? && o.reason.InvalidTransaction?)
              && (if !TxSort.IsSorted(unsigned) then o == Panic(InvalidTransaction(NotBip69Conformant))
                  else
                    var c := CheckInputs(lib, transaction.Value(), sigHashes, previousOutputs, |previousOutputs|);
                    o == (if c.Pass? then Signed else Panic(InvalidTransaction(c.error)))))
  {
    if |previousOutputs| != |transaction.txIn| {
      return Panic(InputCountMismatch);
    }
    var sigHashes := lib.newTxSigHashes(transaction.Value());
    var batch := BuildSignatureBatch(lib, transaction.Value(), sigHashes, previousOutputs);
    if batch.Failure? {
      return SignError(batch.error);
    }
    var signatures := signer.Sign(batch.value.hashes, batch.value.keyPaths);
    if signatures.Failure? {
      return SignError(signatures.error);
    }
    if |signatures.value| != |transaction.txIn| {
      return Panic(SignatureCountMismatch);
    }
    ghost var unsigned := transaction.Value();
    WriteInputData(transaction, previousOutputs, signatures.value, inputData);
    SigningKeepsInputOrder(unsigned.txIn, transaction.txIn, previousOutputs, signatures.value, inputData);
    var check := TxValidityCheck(lib, transaction, previousOutputs, sigHashes);
    if check.Fail? {
      return Panic(InvalidTransaction(check.error));
    }
    return Signed;
  }
}
