/** The Bitcoin wire types the core builds and signs: outpoints, inputs, outputs and transactions. */
module Wire {

  type Byte = bv8
  type Script = seq<Byte>
  /** A 32-byte transaction hash in its internal (little-endian) byte order. */
  type Hash = seq<Byte>
  /** A witness stack: one byte string per item. */
  type TxWitness = seq<seq<Byte>>
  type Amount = int

  /** Version written into every freshly built transaction (wire.TxVersion). */
  const TxVersion: int := 1
  /** Sequence number given to every freshly built input (wire.MaxTxInSequenceNum). */
  const MaxTxInSequenceNum: int := 0xffff_ffff

  /** Identifies an output of an earlier transaction; used as a map key. */
  datatype OutPoint = OutPoint(hash: Hash, index: nat)

  datatype TxIn = TxIn(previousOutPoint: OutPoint, signatureScript: Script, txWitness: TxWitness, sequence: int)

  datatype TxOut = TxOut(value: Amount, pkScript: Script)

  /** The value of a transaction at one moment: what hashing and script checks look at. */
  datatype Tx = Tx(version: int, txIn: seq<TxIn>, txOut: seq<TxOut>, lockTime: int)

  /** wire.NewTxIn(&outPoint, nil, nil): an unsigned input spending `op`. */
  function NewTxIn(op: OutPoint): (input: TxIn)
  {
    TxIn(op, [], [], MaxTxInSequenceNum)
  }

  /** The unsigned inputs spending `ops`, one per outpoint, in the same order. */
  function InputsFor(ops: seq<OutPoint>): (inputs: seq<TxIn>)
  {
    seq(|ops|, i requires 0 <= i < |ops| => NewTxIn(ops[i]))
  }

  /** A transaction shared by reference (*wire.MsgTx): sorting and signing update it in place. */
  class MsgTx {
    var version: int
    var txIn: seq<TxIn>
    var txOut: seq<TxOut>
    var lockTime: int

    constructor (version: int, txIn: seq<TxIn>, txOut: seq<TxOut>, lockTime: int)
      ensures this.version == version && this.txIn == txIn
      ensures this.txOut == txOut && this.lockTime == lockTime
    {
      this.version := version;
      this.txIn := txIn;
      this.txOut := txOut;
      this.lockTime := lockTime;
    }

    /** The current value of the transaction. */
    function Value(): (tx: Tx)
      reads this
    {
      Tx(version, txIn, txOut, lockTime)
    }
  }
}
