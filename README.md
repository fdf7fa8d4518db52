# Transaction building and signing in the BitBox wallet's deterministic wallet

This project models how the wallet's `deterministicwallet` package builds and signs Bitcoin
transactions, and proves properties of that model in Dafny.

- **Coin selection** (`coinSelection`). The spendable outputs are sorted largest value first.
  The shortest prefix whose sum reaches the target is taken; if there is none, the result is
  "insufficient funds".
- **Sweep** (`NewTxSpendAll`). Every spendable output is spent into one output. That output is
  worth the total minus the fee for that shape. If the total does not cover the fee, the result
  is "insufficient funds for fee".
- **Payment** (`NewTx`):
  - A fee loop selects coins for the payment plus a target fee. While the selection cannot pay
    the fee for its own input count, that fee becomes the new target and selection runs again.
  - A change output goes to the caller's change script when the change is non-zero and not
    dust.
  - A change script longer than a P2PKH script (25 bytes) is rejected.
- **Ordering.** Both builders finish with the BIP 69 in-place sort of inputs and outputs.
- **Signing** (`SignTransaction`):
  - One previous output is required per input.
  - One aligned batch of (signature hash, key path) goes to the signer, with a segwit or legacy
    hash per address.
  - One signature is required per input.
  - Each input's signature script and witness are written from its own signature.
  - The result is re-checked (`txValidityCheck`: BIP 69 order, then every input's script).
    Mismatches and a failed check abort.

Files:

- `errors.dfy`: error kinds, `Result` and `Outcome`.
- `wire.dfy`: outpoints, inputs, outputs, the transaction value `Tx`, and the mutable `MsgTx`
  that sorting and signing update in place.
- `txsort.dfy`: the BIP 69 comparisons. It also has a generic in-place sort on arrays, which
  stands in for Go's `sort.Sort`, plus `InPlaceSort` and `IsSorted`.
- `sums.dfy`: sums of output values over sequences of outpoints. It proves that a sum over a
  map's keys does not depend on the order in which the map is iterated.
- `maketx.dfy`: coin selection, the sweep, the fee loop, the change rule and `NewTx`.
- `sign.dfy`: the signature batch, signature assembly, the validity check and `SignTransaction`.

Library behaviour is passed in as function-valued parameters:

- size and fee estimation, and the dust test (`FeeEstimator`);
- signature hashing and the script engine (`ScriptLib`);
- the change-script callback (`ChangeProvider`, which counts its calls);
- the key store (`Signer`, which records every request);
- `InputData`.

Go's map iteration order becomes an arbitrary choice (`:|`). Every contract holds for every
choice.

The model follows the code, including where it is less defensive than one might expect:

- The fee loop of `NewTx` is unbounded: there is no retry cap and no non-convergence error. The model
  proves that it terminates: each retry raises the target fee above what the last selection
  could pay, and no selection is worth more than the sum of the positive values.
- A change output is added when the change is non-zero (`!= 0`), not when it is positive. The
  two agree, because `FeeFixedPoint` proves that the change is never negative.
- When the validity check fails after signing, `SignTransaction` aborts with the signatures
  already written into the inputs. The transaction is not rolled back.

`NewTx` and `FeeFixedPoint` also return a ghost trace of the fee loop: the successive target
fees `targetFees` and the selections `retried` that were made and discarded. The source does
not return them. They exist to state the retry rule (`MakeTx.FeeTrace`): the first target is
the single-input estimate with change, each discarded selection is the greedy one for payment
plus its target and falls short of its own required fee, that fee is the next target, and the
final selection is the greedy one for the last target. `NewTx` also returns that final
selection as a ghost `covered`, so that its contract can say that a change-callback failure
happens only when the change rule asks for change for that selection.

## Model

| member | source | states |
|---|---|---|
| Wire.MsgTx.constructor | deterministicwallet/maketx/maketx.go:71-76 | a transaction literal holds exactly the given version, inputs, outputs and lock time |
| TxSort.LexLessAsymmetric | deterministicwallet/sign.go:71 | `bytes.Compare(a, b) == -1` never holds both ways |
| TxSort.LexLessTotal | deterministicwallet/sign.go:71 | of two different byte strings, one compares below the other |
| TxSort.ReverseInjective | deterministicwallet/sign.go:71 | reversing hashes to big-endian loses no information |
| TxSort.InputLessAsymmetric | deterministicwallet/maketx/maketx.go:133 | the BIP 69 input order is a strict order |
| TxSort.OutputLessAsymmetric | deterministicwallet/maketx/maketx.go:133 | the BIP 69 output order is a strict order |
| TxSort.InputLessTotal | deterministicwallet/maketx/maketx.go:133 | inputs spending different outpoints never tie, so their sorted order is determined |
| TxSort.OutputLessTotal | deterministicwallet/maketx/maketx.go:133 | different outputs never tie |
| TxSort.LexLessTransitive | deterministicwallet/sign.go:71 | `bytes.Compare(a, b) == -1` is transitive |
| TxSort.InputLessTransitive | deterministicwallet/maketx/maketx.go:133 | the BIP 69 input order is transitive |
| TxSort.OutputLessTransitive | deterministicwallet/maketx/maketx.go:133 | the BIP 69 output order is transitive |
| TxSort.SortedPairwise | deterministicwallet/sign.go:71 | for a strict order that ranks any two distinct elements, adjacent sortedness implies every later element is not below any earlier one |
| TxSort.SortedUnique | deterministicwallet/maketx/maketx.go:133 | two sorted arrangements of the same multiset are identical |
| TxSort.InputOrderDeterministic | deterministicwallet/maketx/maketx.go:133 | inputs spending distinct outpoints have exactly one BIP 69 order, so the sorted unsigned transaction depends only on the selected set, not on the Go map iteration order |
| TxSort.OutputOrderDeterministic | deterministicwallet/maketx/maketx.go:77 | any multiset of outputs has exactly one BIP 69 order |
| TxSort.SortInPlace | deterministicwallet/maketx/maketx.go:32 | after the in-place sort the array is sorted (sort.IsSorted sense), holds the same multiset, and an already sorted array is unchanged |
| TxSort.InsertLast | deterministicwallet/maketx/maketx.go:32 | one insertion step extends the sorted prefix by one element: the prefix up to i is sorted and holds the same elements as before, the elements after i stay where they were, and an element already in place does not move |
| TxSort.InPlaceSort | deterministicwallet/maketx/maketx.go:77 | inputs and outputs end in BIP 69 order as permutations of what they were; version and lock time are kept; a sorted transaction is left as it is |
| Sums.SumOfConcat | deterministicwallet/maketx/maketx.go:41 | a sum over a concatenation is the sum of the two sums |
| Sums.SumOfRemove | deterministicwallet/maketx/maketx.go:41 | taking one term out of a sum subtracts its value |
| Sums.SumOfPermutation | deterministicwallet/maketx/maketx.go:58-61 | a sum of output values does not depend on the order of the outpoints |
| Sums.ListingsArePermutations | deterministicwallet/maketx/maketx.go:29-31 | any two iteration orders of a map's keys are permutations of each other |
| Sums.PermutationOfListing | deterministicwallet/maketx/maketx.go:32 | sorting an iteration order of the keys gives another one |
| Sums.SumOfListing | deterministicwallet/maketx/maketx.go:58-61 | summing over the keys in any iteration order gives the map's total |
| Sums.PrefixOfListingBound | deterministicwallet/maketx/maketx.go:36-42 | a prefix of the keys is worth no more than the positive total, and no more than the total when no value is negative |
| Sums.ListingLength | deterministicwallet/maketx/maketx.go:58-65 | an iteration order has exactly one entry per key, so the sweep's input count is the map's size |
| Sums.SingletonPermutation | deterministicwallet/maketx/maketx.go:74-77 | sorting a single output leaves it where it is |
| MakeTx.ValueDescendingPairwise | deterministicwallet/maketx/maketx.go:13-22 | in a largest-first order, no later outpoint is worth more than an earlier one |
| MakeTx.OutPointsOf | deterministicwallet/maketx/maketx.go:28-31 | the collected outpoints list every key of the map exactly once |
| MakeTx.OutPointsLargestFirst | deterministicwallet/maketx/maketx.go:28-32 | after `sort.Sort(sort.Reverse(byValue))` the outpoints list every key once, largest value first |
| MakeTx.CoinSelection | deterministicwallet/maketx/maketx.go:24-47 | on success: distinct map keys, largest first, no unselected output worth more than a selected one, sum equal to the selected values and at least `minAmount`, every shorter prefix below `minAmount`; on failure: "insufficient funds" and the total is below `minAmount`; with no negative values, failure exactly when the total is below `minAmount` |
| MakeTx.SelectionOutcome | deterministicwallet/maketx/maketx.go:36-46 | the loop ends either with everything taken and still short, so the total is short, or with a greedy selection |
| MakeTx.GreedyPrefix | deterministicwallet/maketx/maketx.go:36-42 | the first prefix of the largest-first order that reaches the target is the greedy selection |
| MakeTx.SpendEverything | deterministicwallet/maketx/maketx.go:55-63 | the sweep loop lists every outpoint once, builds one unsigned input per outpoint in the same order, and sums to the map's total |
| MakeTx.NewTxSpendAll | deterministicwallet/maketx/maketx.go:50-79 | fails with "insufficient funds for fee" exactly when the total is below the fee for (all inputs, one output, no change); otherwise every key is selected once, the single output pays total − fee to the script, that amount is returned, and the inputs are one per outpoint in BIP 69 order |
| MakeTx.ChangeProvider.constructor | deterministicwallet/maketx/maketx.go:87 | a change callback with a fixed answer that has not been called yet |
| MakeTx.ChangeProvider.GetChangePKScript | deterministicwallet/maketx/maketx.go:122 | calling the change callback returns its answer and counts the call |
| MakeTx.FeeFixedPoint | deterministicwallet/maketx/maketx.go:89-108 | the loop follows the retry rule (`FeeTrace`: each discarded selection is greedy for payment + its target, falls short of its own required fee, and that fee is the next target), so every retry raises the target fee; on success, the selection is the greedy one for payment + last target fee, its sum is its values' sum, and sum − payment covers the fee for its own input count; the only failure is "insufficient funds", and only when the total is below payment + last target fee |
| MakeTx.FeeStep | deterministicwallet/maketx/maketx.go:95-107 | one round of the fee loop: "insufficient funds" only when the total is below payment + target fee; a retry carries the greedy selection for payment + target fee whose leftover is below its own required fee, which becomes the next, strictly higher target; otherwise the greedy selection covers payment plus the fee for its own input count |
| MakeTx.FeeTraceIncreasing | deterministicwallet/maketx/maketx.go:103-107 | each retry sets a target fee strictly above the previous one |
| MakeTx.FeeTraceExtend | deterministicwallet/maketx/maketx.go:103-107 | a retry with the selection's own required fee extends the trace |
| MakeTx.NewInputs | deterministicwallet/maketx/maketx.go:110-113 | the inputs array holds one unsigned input per selected outpoint, in order |
| MakeTx.NewSortedTx | deterministicwallet/maketx/maketx.go:114-119 | a new version-1, lock-time-0 transaction whose inputs and outputs are BIP 69 sorted permutations of the drafted ones; a single output stays as it is |
| MakeTx.AddChange | deterministicwallet/maketx/maketx.go:120-132 | the callback is called exactly when the change is non-zero and not dust; then its error, or a script over 25 bytes, is the error, else the outputs are the payment and the change; otherwise the outputs are just the payment |
| MakeTx.BuildPayment | deterministicwallet/maketx/maketx.go:110-134 | the transaction built after the fee loop: inputs for the selection, payment plus change exactly under the change rule, BIP 69 order; its only failures are the change callback's |
| MakeTx.NewTx | deterministicwallet/maketx/maketx.go:83-136 | on success: a new transaction whose selection is greedy for payment + final target fee and covers the fee for its input count; inputs are one per selected outpoint; with change, the outputs are payment and change (sum − payment − fee to the callback's script of at most 25 bytes, callback called once); without change, just the payment and no callback call; everything in BIP 69 order; the retry trace follows the same rule as in `FeeFixedPoint`; failures are "insufficient funds" without a callback call, only when the total is below payment + final target fee, or, after one callback call and only when the change rule asks for change for the final covering selection, the callback's error or the too-large script |
| Sign.Signer.constructor | deterministicwallet/sign.go:15 | a key store with a fixed answer and no requests yet |
| Sign.Signer.Sign | deterministicwallet/sign.go:49 | a signing request returns the key store's answer and is recorded |
| Sign.SignatureBatchSucceeds | deterministicwallet/sign.go:25-45 | the batch exists exactly when every input's signature hash (segwit or legacy by address) succeeds |
| Sign.SignatureBatchAligned | deterministicwallet/sign.go:22-48 | a batch has one hash and one key path per input; entry i is input i's hash and its address's key path |
| Sign.SignatureBatchFirstFailure | deterministicwallet/sign.go:30-44 | a failed batch reports the error of the first input whose hash fails |
| Sign.SignatureBatchFailureStays | deterministicwallet/sign.go:34-43 | once a hash fails, the result is that failure whatever follows |
| Sign.BuildSignatureBatch | deterministicwallet/sign.go:22-48 | the batch loop returns exactly the aligned batch, or the first hash error |
| Sign.SigningKeepsInputOrder | deterministicwallet/sign.go:56-61 | writing scripts and witnesses keeps every outpoint, so the BIP 69 input order holds after signing exactly when it held before |
| Sign.WriteInputData | deterministicwallet/sign.go:56-61 | input i's signature script and witness become InputData(address i, signature i); outpoints, sequence numbers and the input count are kept |
| Sign.CheckInputsFirstFailure | deterministicwallet/sign.go:74-86 | the per-input script checks pass exactly when every input's engine setup and execution pass; otherwise the first failing input's error is reported |
| Sign.CheckInputsFailureStays | deterministicwallet/sign.go:74-86 | once an input fails, the check's result is that failure |
| Sign.TxValidityCheck | deterministicwallet/sign.go:69-88 | a transaction out of BIP 69 order gets "tx not bip69 conformant"; otherwise the result is the per-input script checks, first failure first |
| Sign.SignTransaction | deterministicwallet/sign.go:14-67 | aborts with nothing changed when previous outputs and inputs differ in number; a hash error returns before the signer is asked, and a signer error returns, both with the inputs unchanged; the signer is asked exactly once, with the aligned batch; aborts with the inputs unchanged when the signature count differs; otherwise writes every input's data from its own signature and returns success exactly when the unsigned transaction was in BIP 69 order and every signed input's script check passes, and otherwise aborts with the validity check's own error (NotBip69Conformant for an unsorted transaction, else the first failing input's error) |

## Left out

- Integer widths: amounts are unbounded integers. The int64 arithmetic of `btcutil.Amount` and the `int64` conversions, with their wrap-around, are not modelled.
- `EstimateSerializeSize`, `FeeForSerializeSize` and `IsDustAmount` are defined elsewhere in the maketx package. They are function-valued parameters. Only `P2PKHPkScriptSize` is fixed, at the 25 bytes of a P2PKH script.
- The txscript library is a set of function-valued parameters: `NewTxSigHashes`, `CalcWitnessSigHash`, `CalcSignatureHash`, `NewEngine` and `Execute`. The fixed arguments (`SigHashAll`, `StandardVerifyFlags`, no signature cache) are not represented. Hash contents and lengths are unconstrained.
- The btcutil txsort package is modelled from BIP 69 as those comparisons plus an insertion sort.
- `sort.Sort` is replaced by that insertion sort. Its first two clauses (sorted, same multiset) hold for any sort. Its third clause (an already sorted array is left unchanged) is the insertion sort's own: `sort.Sort` is not stable and may permute distinct elements that rank equally even in sorted input, so it keeps that clause only when no two distinct elements tie. BIP 69 over inputs with distinct outpoints, and outputs (where only identical outputs tie), are such cases; outpoints of equal value in coin selection are not, and their order among themselves may differ from Go's.
- `addresses.Address` is reduced to a segwit flag, a subscript and a key path. The type assertion `.(*addresses.Address)` that would panic on another address type is not modelled.
- `address.InputData` and the key store's `Sign` are function-valued parameters.
- Signatures are opaque byte strings.
- Hardware interaction and cancellation stay inside the signer.
- Pointer sharing is not modelled. The Go code shares `*wire.TxIn` and `*wire.TxOut` values between slices (the `output` pointer, the inputs written in place). The model holds inputs and outputs as values in sequences, and the signing loop replaces the sequence.
- `getChangePKScript` is a callback with one fixed answer that counts its calls. It is called at most once per `NewTx`, so a fixed answer loses nothing.
- Errors are reduced to kinds. The stack traces and messages of `errp` become the error kinds of `errors.dfy`. Library errors are carried as `External`.
- Panics become the `Panic` outcome of `SignTransaction`, with the reason. The caller does not unwind.
- MakeTx.CoinSelection: "fails exactly when the total is below `minAmount`" is stated only for maps without negative values. With a negative value, a largest-first prefix can reach the target while the total of all values does not. Failure still always implies the total is short.
