/** Building unsigned transactions from the wallet's spendable outputs: greedy coin selection,
    the sweep of all outputs, and the targeted payment with its fee fixed point and change rule. */
module MakeTx {
  import opened Errors
  import opened Wire
  import opened Sums
  import TxSort

  /** Length of a pay-to-pubkey-hash locking script; the fee estimate sizes change outputs for it. */
  const P2PKHPkScriptSize: nat := 25

  /** The package's size and fee estimation, defined elsewhere in the maketx package and taken as given:
      the serialized size for an input count, the outputs and whether a change output is added;
      the fee for a size at a fee rate per kilobyte; and whether an amount is dust. */
  datatype FeeEstimator = FeeEstimator(
    estimateSerializeSize: (nat, seq<TxOut>, bool) -> nat,
    feeForSerializeSize: (Amount, nat) -> Amount,
    isDustAmount: (Amount, nat, Amount) -> bool)

  /** The fee for a transaction of the given shape. */
  function RequiredFee(fees: FeeEstimator, feePerKb: Amount, inputCount: nat, outputs: seq<TxOut>, addChange: bool): (fee: Amount)
  {
    fees.feeForSerializeSize(feePerKb, fees.estimateSerializeSize(inputCount, outputs, addChange))
  }

  /** The change rule: change is paid out only when it is non-zero and not dust. */
  predicate ChangeNeeded(fees: FeeEstimator, feePerKb: Amount, changeAmount: Amount)
  {
    changeAmount != 0 && !fees.isDustAmount(changeAmount, P2PKHPkScriptSize, feePerKb)
  }

  /** byValue.Less: the output `x` refers to is worth less than the one `y` refers to. */
  predicate ByValueLess(outputs: map<OutPoint, TxOut>, x: OutPoint, y: OutPoint)
  {
    Val(outputs, x) < Val(outputs, y)
  }

  /** sort.Reverse(byValue).Less: larger values sort first. */
  function LargestFirst(outputs: map<OutPoint, TxOut>): (less: (OutPoint, OutPoint) -> bool)
  {
    (x, y) => ByValueLess(outputs, y, x)
  }

  /** No outpoint in `s` is worth more than the one before it. */
  ghost predicate ValueDescending(outputs: map<OutPoint, TxOut>, s: seq<OutPoint>)
  {
    TxSort.Sorted(s, LargestFirst(outputs))
  }

  lemma {:induction false} ValueDescendingPairwise(outputs: map<OutPoint, TxOut>, s: seq<OutPoint>)
    requires ValueDescending(outputs, s)
    ensures forall i, j :: 0 <= i <= j < |s| ==> Val(outputs, s[j]) <= Val(outputs, s[i])
    decreases |s|
  {
    if s != [] {
      var s' := s[..|s| - 1];
      assert ValueDescending(outputs, s') by {
        forall i | 0 < i < |s'| ensures !LargestFirst(outputs)(s'[i], s'[i - 1]) {
          assert s'[i] == s[i] && s'[i - 1] == s[i - 1];
        }
      }
      ValueDescendingPairwise(outputs, s');
      forall i, j | 0 <= i <= j < |s| ensures Val(outputs, s[j]) <= Val(outputs, s[i]) {
        if j == |s| - 1 && i < j {
          assert !LargestFirst(outputs)(s[j], s[j - 1]);
          assert s[j - 1] == s'[j - 1] && s[i] == s'[i];
        } else if j < |s| - 1 {
          assert s[j] == s'[j] && s[i] == s'[i];
        }
      }
    }
  }

  /** What coinSelection promises: `sel` takes distinct outpoints of the map, largest values first,
      none of those left out is worth more than one taken (so `sel` is a prefix of the outpoints
      sorted largest first), it reaches `minAmount`, and no shorter prefix of it does. */
  ghost predicate IsGreedySelection(outputs: map<OutPoint, TxOut>, minAmount: Amount, sel: seq<OutPoint>)
  {
    && Distinct(sel)
    && (forall i :: 0 <= i < |sel| ==> sel[i] in outputs)
    && ValueDescending(outputs, sel)
    && (forall op, j :: op in outputs && op !in sel && 0 <= j < |sel| ==> Val(outputs, op) <= Val(outputs, sel[j]))
    && SumValues(sel, outputs) >= minAmount
    && (forall k :: 0 <= k < |sel| ==> SumValues(sel[..k], outputs) < minAmount)
  }

  /** The keys of `outputs` as a slice, in whatever order the map iteration yields them. */
  method OutPointsOf(outputs: map<OutPoint, TxOut>) returns (outPoints: seq<OutPoint>)
    ensures IsListing(outPoints, outputs.Keys)
  {
    outPoints := [];
    var rest := outputs.Keys;
    while rest != {}
      invariant rest <= outputs.Keys
      invariant IsListing(outPoints, outputs.Keys - rest)
      decreases rest
    {
      var op :| op in rest;
      outPoints := outPoints + [op];
      rest := rest - {op};
    }
    assert outputs.Keys - rest == outputs.Keys;
  }

  /** The first half of coinSelection: the outpoints of the map, sorted in place with
      sort.Reverse(byValue). */
  method OutPointsLargestFirst(outputs: map<OutPoint, TxOut>) returns (sorted: seq<OutPoint>)
    ensures IsListing(sorted, outputs.Keys) && ValueDescending(outputs, sorted)
  {
    var outPoints := OutPointsOf(outputs);
    var a := new OutPoint[|outPoints|](i requires 0 <= i < |outPoints| => outPoints[i]);
    assert a[..] == outPoints;
    TxSort.SortInPlace(a, LargestFirst(outputs));
    PermutationOfListing(a[..], outPoints, outputs.Keys);
    sorted := a[..];
  }

  datatype Selection = Selection(sum: Amount, outPoints: seq<OutPoint>)

  /** coinSelection: the shortest prefix, largest values first, of the outputs whose sum reaches
      `minAmount`; "insufficient funds" when even all of them together do not. */
  method CoinSelection(minAmount: Amount, outputs: map<OutPoint, TxOut>) returns (r: Result<Selection>)
    ensures r.Success? ==> IsGreedySelection(outputs, minAmount, r.value.outPoints)
    ensures r.Success? ==> r.value.sum == SumValues(r.value.outPoints, outputs)
    ensures r.Success? ==> r.value.sum <= PositiveTotal(outputs)
    ensures r.Failure? ==> r.error == InsufficientFunds && Total(outputs) < minAmount
    ensures NonNegativeValues(outputs) ==> (r.Failure? <==> Total(outputs) < minAmount)
  {
    var sorted := OutPointsLargestFirst(outputs);

    // Take outpoints until the target is reached.
    var selectedOutPoints: seq<OutPoint> := [];
    var outputsSum: Amount := 0;
    var i := 0;
    while i < |sorted|
      invariant 0 <= i <= |sorted|
      invariant selectedOutPoints == sorted[..i]
      invariant outputsSum == SumValues(selectedOutPoints, outputs)
      invariant forall k :: 0 <= k < i ==> SumValues(sorted[..k], outputs) < minAmount
    {
      if outputsSum >= minAmount {
        break;
      }
      assert sorted[i] in sorted;
      assert sorted[..i + 1][..i] == sorted[..i];
      selectedOutPoints := selectedOutPoints + [sorted[i]];
      outputsSum := outputsSum + outputs[sorted[i]].value;
      i := i + 1;
    }
    SelectionOutcome(outputs, minAmount, sorted, i);
    if outputsSum < minAmount {
      return Failure(InsufficientFunds);
    }
    return Success(Selection(outputsSum, selectedOutPoints));
  }

  /** How the selection loop ends: either all outputs were taken and still fall short, or the
      first prefix that reaches the target is a greedy selection. */
  lemma SelectionOutcome(outputs: map<OutPoint, TxOut>, minAmount: Amount, s: seq<OutPoint>, i: nat)
    requires IsListing(s, outputs.Keys) && ValueDescending(outputs, s) && i <= |s|
    requires forall k :: 0 <= k < i ==> SumValues(s[..k], outputs) < minAmount
    requires SumValues(s[..i], outputs) < minAmount ==> i == |s|
    ensures SumValues(s[..i], outputs) < minAmount ==> Total(outputs) < minAmount
    ensures SumValues(s[..i], outputs) >= minAmount ==> IsGreedySelection(outputs, minAmount, s[..i])
    ensures SumValues(s[..i], outputs) <= PositiveTotal(outputs)
    ensures NonNegativeValues(outputs) ==> SumValues(s[..i], outputs) <= Total(outputs)
  {
    PrefixOfListingBound(s, i, outputs);
    if SumValues(s[..i], outputs) < minAmount {
      assert s[..i] == s;
      SumOfListing(s, outputs);
    } else {
      GreedyPrefix(outputs, minAmount, s, i);
    }
  }

  /** The first prefix of a largest-first listing of the outputs that reaches the target is a
      greedy selection. */
  lemma GreedyPrefix(outputs: map<OutPoint, TxOut>, minAmount: Amount, s: seq<OutPoint>, i: nat)
    requires IsListing(s, outputs.Keys) && ValueDescending(outputs, s) && i <= |s|
    requires forall k :: 0 <= k < i ==> SumValues(s[..k], outputs) < minAmount
    requires SumValues(s[..i], outputs) >= minAmount
    ensures IsGreedySelection(outputs, minAmount, s[..i])
  {
    var sel := s[..i];
    forall j | 0 <= j < i ensures sel[j] in outputs {
      assert sel[j] == s[j];
    }
    assert ValueDescending(outputs, sel) by {
      forall k | 0 < k < i ensures !LargestFirst(outputs)(sel[k], sel[k - 1]) {
        assert sel[k] == s[k] && sel[k - 1] == s[k - 1];
      }
    }
    ValueDescendingPairwise(outputs, s);
    forall op, j | op in outputs && op !in sel && 0 <= j < i
      ensures Val(outputs, op) <= Val(outputs, sel[j])
    {
      assert op in s;
      var m :| 0 <= m < |s| && s[m] == op;
      assert sel[j] == s[j];
    }
    forall k | 0 <= k < i ensures SumValues(sel[..k], outputs) < minAmount {
      assert sel[..k] == s[..k];
    }
    assert Distinct(sel) by {
      forall p, q | 0 <= p < q < i ensures sel[p] != sel[q] {
        assert sel[p] == s[p] && sel[q] == s[q];
      }
    }
  }

  datatype SpendAll = SpendAll(amount: Amount, tx: MsgTx, selectedOutPoints: seq<OutPoint>)

  /** The loop of NewTxSpendAll: every spendable output, in map order, as outpoint, unsigned
      input and running sum. */
  method SpendEverything(spendableOutputs: map<OutPoint, TxOut>)
    returns (selectedOutPoints: seq<OutPoint>, inputs: seq<TxIn>, outputsSum: Amount)
    ensures IsListing(selectedOutPoints, spendableOutputs.Keys)
    ensures |selectedOutPoints| == |spendableOutputs|
    ensures inputs == InputsFor(selectedOutPoints)
    ensures outputsSum == SumValues(selectedOutPoints, spendableOutputs) == Total(spendableOutputs)
  {
    selectedOutPoints := [];
    inputs := [];
    outputsSum := 0;
    var rest := spendableOutputs.Keys;
    while rest != {}
      invariant rest <= spendableOutputs.Keys
      invariant IsListing(selectedOutPoints, spendableOutputs.Keys - rest)
      invariant outputsSum == SumValues(selectedOutPoints, spendableOutputs)
      invariant inputs == InputsFor(selectedOutPoints)
      decreases rest
    {
      var outPoint :| outPoint in rest;
      assert (selectedOutPoints + [outPoint])[..|selectedOutPoints|] == selectedOutPoints;
      selectedOutPoints := selectedOutPoints + [outPoint];
      outputsSum := outputsSum + spendableOutputs[outPoint].value;
      inputs := inputs + [NewTxIn(outPoint)];
      rest := rest - {outPoint};
    }
    assert spendableOutputs.Keys - rest == spendableOutputs.Keys;
    SumOfListing(selectedOutPoints, spendableOutputs);
    ListingLength(selectedOutPoints, spendableOutputs.Keys);
  }

  /** NewTxSpendAll: spends every spendable output into one output paying `outputPkScript` the
      total minus the fee for that shape, or fails with "insufficient funds for fee". */
  method NewTxSpendAll(
    spendableOutputs: map<OutPoint, TxOut>,
    outputPkScript: Script,
    feePerKb: Amount,
    fees: FeeEstimator)
    returns (r: Result<SpendAll>)
    ensures var fee := RequiredFee(fees, feePerKb, |spendableOutputs|, [TxOut(0, outputPkScript)], false);
      && (r.Failure? <==> Total(spendableOutputs) < fee)
      && (r.Failure? ==> r.error == InsufficientFundsForFee)
      && (r.Success? ==>
            && fresh(r.value.tx)
            && IsListing(r.value.selectedOutPoints, spendableOutputs.Keys)
            && r.value.amount == Total(spendableOutputs) - fee
            && r.value.tx.txOut == [TxOut(r.value.amount, outputPkScript)]
            && multiset(r.value.tx.txIn) == multiset(InputsFor(r.value.selectedOutPoints))
            && TxSort.IsSorted(r.value.tx.Value())
            && r.value.tx.version == TxVersion && r.value.tx.lockTime == 0)
  {
    var selectedOutPoints, inputs, outputsSum := SpendEverything(spendableOutputs);
    var output := TxOut(0, outputPkScript);
    var txSize := fees.estimateSerializeSize(|selectedOutPoints|, [output], false);
    var maxRequiredFee := fees.feeForSerializeSize(feePerKb, txSize);
    if outputsSum < maxRequiredFee {
      return Failure(InsufficientFundsForFee);
    }
    output := TxOut(outputsSum - maxRequiredFee, outputPkScript);
    var unsignedTransaction := NewSortedTx(inputs, [output]);
    return Success(SpendAll(output.value, unsignedTransaction, selectedOutPoints));
  }

  /** The caller's getChangePKScript callback: each call hands out `script` and is counted. */
  class ChangeProvider {
    var script: Result<Script>
    var calls: nat

    constructor (script: Result<Script>)
      ensures this.script == script && calls == 0
    {
      this.script := script;
      calls := 0;
    }

    method GetChangePKScript() returns (r: Result<Script>)
      modifies this`calls
      ensures r == script && calls == old(calls) + 1
    {
      r := script;
      calls := calls + 1;
    }
  }

  /** One retry of the fee loop: `sel` is the greedy selection for the payment plus the target fee
      `targetFee`, it leaves less than its own required fee over the payment, and that required
      fee is the next target `nextFee`. */
  ghost predicate IsRetry(
    spendableOutputs: map<OutPoint, TxOut>, outputs: seq<TxOut>, targetAmount: Amount, feePerKb: Amount,
    fees: FeeEstimator, targetFee: Amount, sel: seq<OutPoint>, nextFee: Amount)
  {
    && IsGreedySelection(spendableOutputs, targetAmount + targetFee, sel)
    && nextFee == RequiredFee(fees, feePerKb, |sel|, outputs, true)
    && SumValues(sel, spendableOutputs) - targetAmount < nextFee
  }

  /** The trace of the fee loop: the first target fee is the fee for one input with change, and
      each later one is what the retry before it set (`retried[k]` is the selection made for
      `targetFees[k]`). */
  ghost predicate FeeTrace(
    spendableOutputs: map<OutPoint, TxOut>, outputs: seq<TxOut>, targetAmount: Amount, feePerKb: Amount,
    fees: FeeEstimator, targetFees: seq<Amount>, retried: seq<seq<OutPoint>>)
  {
    && |targetFees| >= 1 && targetFees[0] == RequiredFee(fees, feePerKb, 1, outputs, true)
    && |retried| == |targetFees| - 1
    && forall k :: 0 <= k < |retried| ==>
         IsRetry(spendableOutputs, outputs, targetAmount, feePerKb, fees, targetFees[k], retried[k], targetFees[k + 1])
  }

  /** Each retry raises the target fee: the selection reached payment plus the old target but fell
      short of payment plus its own fee. */
  lemma FeeTraceIncreasing(
    spendableOutputs: map<OutPoint, TxOut>, outputs: seq<TxOut>, targetAmount: Amount, feePerKb: Amount,
    fees: FeeEstimator, targetFees: seq<Amount>, retried: seq<seq<OutPoint>>)
    requires FeeTrace(spendableOutputs, outputs, targetAmount, feePerKb, fees, targetFees, retried)
    ensures forall k :: 0 < k < |targetFees| ==> targetFees[k - 1] < targetFees[k]
  {
  }

  /** A retry extends the trace. */
  lemma FeeTraceExtend(
    spendableOutputs: map<OutPoint, TxOut>, outputs: seq<TxOut>, targetAmount: Amount, feePerKb: Amount,
    fees: FeeEstimator, targetFees: seq<Amount>, retried: seq<seq<OutPoint>>, sel: seq<OutPoint>, nextFee: Amount)
    requires FeeTrace(spendableOutputs, outputs, targetAmount, feePerKb, fees, targetFees, retried)
    requires IsRetry(spendableOutputs, outputs, targetAmount, feePerKb, fees, targetFees[|targetFees| - 1], sel, nextFee)
    ensures FeeTrace(spendableOutputs, outputs, targetAmount, feePerKb, fees, targetFees + [nextFee], retried + [sel])
  {
  }

  /** A selection that covers the payment and the fee for its own input count: its sum, its
      outpoints and that fee. */
  datatype Covering = Covering(sum: Amount, outPoints: seq<OutPoint>, fee: Amount)

  /** The fee fixed point of NewTx: starting from the fee for one input with change, select coins
      for payment plus target fee; while the fee for the selection's own input count is more than
      the selection leaves over the payment, take that fee as the new target and select again. */
  method FeeFixedPoint(
    spendableOutputs: map<OutPoint, TxOut>,
    outputs: seq<TxOut>,
    targetAmount: Amount,
    feePerKb: Amount,
    fees: FeeEstimator)
    returns (r: Result<Covering>, ghost targetFees: seq<Amount>, ghost retried: seq<seq<OutPoint>>)
    ensures FeeTrace(spendableOutputs, outputs, targetAmount, feePerKb, fees, targetFees, retried)
    ensures forall k :: 0 < k < |targetFees| ==> targetFees[k - 1] < targetFees[k]
    ensures r.Failure? ==> r.error == InsufficientFunds
    ensures r.Failure? ==> Total(spendableOutputs) < targetAmount + targetFees[|targetFees| - 1]
    ensures r.Success? ==>
      && r.value.sum == SumValues(r.value.outPoints, spendableOutputs)
      && r.value.fee == RequiredFee(fees, feePerKb, |r.value.outPoints|, outputs, true)
      && r.value.sum - targetAmount >= r.value.fee
    ensures r.Success? ==>
      IsGreedySelection(spendableOutputs, targetAmount + targetFees[|targetFees| - 1], r.value.outPoints)
  {
    var estimatedSize := fees.estimateSerializeSize(1, outputs, true);
    var targetFee := fees.feeForSerializeSize(feePerKb, estimatedSize);
    targetFees := [targetFee];
    retried := [];
    // No selection is worth more than this, and each retry raises the target fee above the
    // previous selection's sum, so the loop ends.
    ghost var bound := PositiveTotal(spendableOutputs);

    while true
      invariant FeeTrace(spendableOutputs, outputs, targetAmount, feePerKb, fees, targetFees, retried)
      invariant targetFees[|targetFees| - 1] == targetFee
      decreases bound - targetAmount - targetFee
    {
      var step := FeeStep(spendableOutputs, outputs, targetAmount, feePerKb, fees, targetFee);
      match step
      case Short =>
        FeeTraceIncreasing(spendableOutputs, outputs, targetAmount, feePerKb, fees, targetFees, retried);
        return Failure(InsufficientFunds), targetFees, retried;
      case Retry(selectedOutPoints, maxRequiredFee) =>
        // The selection needs more fee than it was made for: retry with that fee as the target.
        FeeTraceExtend(spendableOutputs, outputs, targetAmount, feePerKb, fees, targetFees, retried, selectedOutPoints, maxRequiredFee);
        retried := retried + [selectedOutPoints];
        targetFee := maxRequiredFee;
        targetFees := targetFees + [targetFee];
      case Covered(covering) =>
        FeeTraceIncreasing(spendableOutputs, outputs, targetAmount, feePerKb, fees, targetFees, retried);
        return Success(covering), targetFees, retried;
    }
  }

  /** How one round of the fee loop ends: the funds fall short, the selection must be retried
      with a higher target fee, or it covers the payment and its own fee. */
  datatype Step = Short | Retry(sel: seq<OutPoint>, nextFee: Amount) | Covered(covering: Covering)

  /** One round of the fee loop of NewTx: select for payment plus `targetFee` and compare what
      the selection leaves over the payment with the fee for its own input count. */
  method FeeStep(
    spendableOutputs: map<OutPoint, TxOut>,
    outputs: seq<TxOut>,
    targetAmount: Amount,
    feePerKb: Amount,
    fees: FeeEstimator,
    targetFee: Amount)
    returns (step: Step)
    ensures step.Short? ==> Total(spendableOutputs) < targetAmount + targetFee
    ensures step.Retry? ==>
      && IsRetry(spendableOutputs, outputs, targetAmount, feePerKb, fees, targetFee, step.sel, step.nextFee)
      && targetFee < step.nextFee
      && targetAmount + targetFee <= PositiveTotal(spendableOutputs)
    ensures step.Covered? ==>
      var c := step.covering;
      && c.sum == SumValues(c.outPoints, spendableOutputs)
      && c.fee == RequiredFee(fees, feePerKb, |c.outPoints|, outputs, true)
      && c.sum - targetAmount >= c.fee
      && IsGreedySelection(spendableOutputs, targetAmount + targetFee, c.outPoints)
  {
    var selection := CoinSelection(targetAmount + targetFee, spendableOutputs);
    if selection.Failure? {
      return Short;
    }
    var selectedOutputsSum, selectedOutPoints := selection.value.sum, selection.value.outPoints;
    var txSize := fees.estimateSerializeSize(|selectedOutPoints|, outputs, true);
    var maxRequiredFee := fees.feeForSerializeSize(feePerKb, txSize);
    if selectedOutputsSum - targetAmount < maxRequiredFee {
      return Retry(selectedOutPoints, maxRequiredFee);
    }
    return Covered(Covering(selectedOutputsSum, selectedOutPoints, maxRequiredFee));
  }

  /** The unsigned inputs of the new transaction, one per selected outpoint, in selection order. */
  method NewInputs(selectedOutPoints: seq<OutPoint>) returns (r: seq<TxIn>)
    ensures r == InputsFor(selectedOutPoints)
  {
    var inputs := new TxIn[|selectedOutPoints|];
    for i := 0 to |selectedOutPoints|
      invariant forall k :: 0 <= k < i ==> inputs[k] == NewTxIn(selectedOutPoints[k])
    {
      inputs[i] := NewTxIn(selectedOutPoints[i]);
    }
    r := inputs[..];
  }

  /** A fresh version-1 transaction with lock time 0 holding `inputs` and `outputs`, put into
      BIP 69 order; a single output stays where it is. */
  method NewSortedTx(inputs: seq<TxIn>, outputs: seq<TxOut>) returns (tx: MsgTx)
    ensures fresh(tx)
    ensures multiset(tx.txIn) == multiset(inputs) && multiset(tx.txOut) == multiset(outputs)
    ensures TxSort.IsSorted(tx.Value())
    ensures tx.version == TxVersion && tx.lockTime == 0
    ensures |outputs| == 1 ==> tx.txOut == outputs
  {
    tx := new MsgTx(TxVersion, inputs, outputs, 0);
    TxSort.InPlaceSort(tx);
    if |outputs| == 1 {
      SingletonPermutation(tx.txOut, outputs[0]);
    }
  }

  /** The outputs of NewTx: the payment, followed by a change output of `changeAmount` to the
      provider's script when the change rule asks for one. The provider is asked only then, and
      its error, or a change script longer than a P2PKH script, ends NewTx. */
  method AddChange(output: TxOut, changeAmount: Amount, feePerKb: Amount, fees: FeeEstimator, change: ChangeProvider)
    returns (r: Result<seq<TxOut>>)
    modifies change`calls
    ensures ChangeNeeded(fees, feePerKb, changeAmount) ==>
      && change.calls == old(change.calls) + 1
      && r == (if change.script.Failure? then Failure(change.script.error)
               else if |change.script.value| > P2PKHPkScriptSize then Failure(ChangeScriptTooLarge)
               else Success([output, TxOut(changeAmount, change.script.value)]))
    ensures !ChangeNeeded(fees, feePerKb, changeAmount) ==>
      r == Success([output]) && change.calls == old(change.calls)
  {
    if ChangeNeeded(fees, feePerKb, changeAmount) {
      var changePKScript := change.GetChangePKScript();
      if changePKScript.Failure? {
        return Failure(changePKScript.error);
      }
      if |changePKScript.value| > P2PKHPkScriptSize {
        return Failure(ChangeScriptTooLarge);
      }
      return Success([output, TxOut(changeAmount, changePKScript.value)]);
    }
    return Success([output]);
  }

  datatype Built = Built(tx: MsgTx, selectedOutPoints: seq<OutPoint>)

  /** NewTx: pays `output` from a greedy selection of the spendable outputs that covers the fee
      for the selection's own input count, adds a change output when the change rule asks for
      one, and returns the transaction in BIP 69 order with the selected outpoints. */
  method NewTx(
    spendableOutputs: map<OutPoint, TxOut>,
    output: TxOut,
    feePerKb: Amount,
    fees: FeeEstimator,
    change: ChangeProvider)
    returns (r: Result<Built>, ghost targetFees: seq<Amount>, ghost retried: seq<seq<OutPoint>>,
             ghost covered: seq<OutPoint>)
    modifies change`calls
    ensures FeeTrace(spendableOutputs, [output], output.value, feePerKb, fees, targetFees, retried)
    ensures forall k :: 0 < k < |targetFees| ==> targetFees[k - 1] < targetFees[k]
    ensures r.Success? || change.calls != old(change.calls) ==>
      && IsGreedySelection(spendableOutputs, output.value + targetFees[|targetFees| - 1], covered)
      && SumValues(covered, spendableOutputs) - output.value >= RequiredFee(fees, feePerKb, |covered|, [output], true)
    ensures r.Success? ==> r.value.selectedOutPoints == covered
    ensures r.Success? ==>
      var sel := r.value.selectedOutPoints;
      var tx := r.value.tx;
      var fee := RequiredFee(fees, feePerKb, |sel|, [output], true);
      var changeAmount := SumValues(sel, spendableOutputs) - output.value - fee;
      && fresh(tx)
      && IsGreedySelection(spendableOutputs, output.value + targetFees[|targetFees| - 1], sel)
      && SumValues(sel, spendableOutputs) - output.value >= fee
      && multiset(tx.txIn) == multiset(InputsFor(sel))
      && TxSort.IsSorted(tx.Value())
      && tx.version == TxVersion && tx.lockTime == 0
      && (if ChangeNeeded(fees, feePerKb, changeAmount) then
            && change.script.Success?
            && |change.script.value| <= P2PKHPkScriptSize
            && multiset(tx.txOut) == multiset([output, TxOut(changeAmount, change.script.value)])
            && change.calls == old(change.calls) + 1
          else
            tx.txOut == [output] && change.calls == old(change.calls))
    ensures r.Failure? && change.calls == old(change.calls) ==>
      r.error == InsufficientFunds && Total(spendableOutputs) < output.value + targetFees[|targetFees| - 1]
    ensures r.Failure? && change.calls != old(change.calls) ==>
      && ChangeNeeded(fees, feePerKb,
           SumValues(covered, spendableOutputs) - output.value - RequiredFee(fees, feePerKb, |covered|, [output], true))
      && change.calls == old(change.calls) + 1
      && (if change.script.Failure? then r.error == change.script.error
          else r.error == ChangeScriptTooLarge && |change.script.value| > P2PKHPkScriptSize)
  {
    var covering;
    covering, targetFees, retried := FeeFixedPoint(spendableOutputs, [output], output.value, feePerKb, fees);
    if covering.Failure? {
      return Failure(covering.error), targetFees, retried, [];
    }
    covered := covering.value.outPoints;
    r := BuildPayment(output, feePerKb, fees, change, covering.value);
  }

  /** The part of NewTx after the fee loop: the unsigned inputs for the covering selection, the
      payment and possibly a change output, in BIP 69 order. */
  method BuildPayment(output: TxOut, feePerKb: Amount, fees: FeeEstimator, change: ChangeProvider, covering: Covering)
    returns (r: Result<Built>)
    modifies change`calls
    ensures r.Success? ==>
      var tx := r.value.tx;
      var changeAmount := covering.sum - output.value - covering.fee;
      && fresh(tx)
      && r.value.selectedOutPoints == covering.outPoints
      && multiset(tx.txIn) == multiset(InputsFor(covering.outPoints))
      && TxSort.IsSorted(tx.Value())
      && tx.version == TxVersion && tx.lockTime == 0
      && (if ChangeNeeded(fees, feePerKb, changeAmount) then
            && change.script.Success?
            && |change.script.value| <= P2PKHPkScriptSize
            && multiset(tx.txOut) == multiset([output, TxOut(changeAmount, change.script.value)])
            && change.calls == old(change.calls) + 1
          else
            tx.txOut == [output] && change.calls == old(change.calls))
    ensures r.Failure? ==>
      && ChangeNeeded(fees, feePerKb, covering.sum - output.value - covering.fee)
      && change.calls == old(change.calls) + 1
      && (if change.script.Failure? then r.error == change.script.error
          else r.error == ChangeScriptTooLarge && |change.script.value| > P2PKHPkScriptSize)
  {
    var targetAmount := output.value;
    var selectedOutputsSum, selectedOutPoints, maxRequiredFee := covering.sum, covering.outPoints, covering.fee;
    var inputs := NewInputs(selectedOutPoints);
    var changeAmount := selectedOutputsSum - targetAmount - maxRequiredFee;
    var outputs := AddChange(output, changeAmount, feePerKb, fees, change);
    if outputs.Failure? {
      return Failure(outputs.error);
    }
    var unsignedTransaction := NewSortedTx(inputs, outputs.value);
    return Success(Built(unsignedTransaction, selectedOutPoints));
  }
}
