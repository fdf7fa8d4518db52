/** Error values of the transaction builder and signer, and the result types that carry them. */
module Errors {

  /** The conditions the builder and the signing orchestrator report to their callers. */
  datatype Error =
    | InsufficientFunds          // coin selection cannot reach its target
    | InsufficientFundsForFee    // a sweep cannot pay its own fee
    | ChangeScriptTooLarge       // the change script is larger than the fee estimate assumed
    | NotBip69Conformant         // the signed transaction is not in BIP 69 order
    | External(cause: string)    // an error handed back by a collaborator, propagated verbatim

  datatype Result<+T> = Success(value: T) | Failure(error: Error)

  /** The outcome of a check that produces no value. */
  datatype Outcome = Pass | Fail(error: Error)
}
