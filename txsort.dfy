/** BIP 69 ("lexicographical indexing of transaction inputs and outputs"): the order, the in-place
    sort that establishes it and the check that tests it. */
module TxSort {
  import opened Wire

  /** bytes.Compare(a, b) == -1: `a` sorts strictly before `b`, a proper prefix first. */
  predicate LexLess(a: seq<Byte>, b: seq<Byte>)
  {
    if |a| == 0 then |b| > 0
    else if |b| == 0 then false
    else if a[0] != b[0] then a[0] < b[0]
    else LexLess(a[1..], b[1..])
  }

  lemma {:induction false} LexLessAsymmetric(a: seq<Byte>, b: seq<Byte>)
    ensures LexLess(a, b) ==> !LexLess(b, a)
  {
    if |a| > 0 && |b| > 0 && a[0] == b[0] {
      LexLessAsymmetric(a[1..], b[1..]);
    }
  }

  /** Two different byte strings are always ordered one way or the other. */
  lemma {:induction false} LexLessTotal(a: seq<Byte>, b: seq<Byte>)
    ensures a == b || LexLess(a, b) || LexLess(b, a)
  {
    if |a| > 0 && |b| > 0 && a[0] == b[0] {
      LexLessTotal(a[1..], b[1..]);
      if a[1..] == b[1..] {
        assert a == [a[0]] + a[1..] && b == [b[0]] + b[1..];
      }
    }
  }

  /** The hash bytes reversed, that is, in the big-endian order in which BIP 69 compares them. */
  function Reverse(s: seq<Byte>): (r: seq<Byte>)
  {
    seq(|s|, i requires 0 <= i < |s| => s[|s| - 1 - i])
  }

  lemma ReverseInjective(a: seq<Byte>, b: seq<Byte>)
    requires Reverse(a) == Reverse(b)
    ensures a == b
  {
    assert |a| == |Reverse(a)| == |Reverse(b)| == |b|;
    forall i | 0 <= i < |a| ensures a[i] == b[i] {
      assert a[i] == Reverse(a)[|a| - 1 - i];
    }
  }

  /** Input order: by previous transaction hash (big-endian), then by output index. */
  predicate InputLess(x: TxIn, y: TxIn)
  {
    var xh, yh := x.previousOutPoint.hash, y.previousOutPoint.hash;
    if xh == yh then x.previousOutPoint.index < y.previousOutPoint.index
    else LexLess(Reverse(xh), Reverse(yh))
  }

  /** Output order: by value, then by locking script. */
  predicate OutputLess(x: TxOut, y: TxOut)
  {
    if x.value != y.value then x.value < y.value
    else LexLess(x.pkScript, y.pkScript)
  }

  /** sort.IsSorted for a strict order: no element is less than the one before it. */
  predicate Sorted<T>(s: seq<T>, less: (T, T) -> bool)
  {
    forall i :: 0 < i < |s| ==> !less(s[i], s[i - 1])
  }

  ghost predicate Asymmetric<T(!new)>(less: (T, T) -> bool)
  {
    forall x, y :: less(x, y) ==> !less(y, x)
  }

  lemma InputLessAsymmetric()
    ensures Asymmetric(InputLess)
  {
    forall x, y | InputLess(x, y) ensures !InputLess(y, x) {
      LexLessAsymmetric(Reverse(x.previousOutPoint.hash), Reverse(y.previousOutPoint.hash));
    }
  }

  lemma OutputLessAsymmetric()
    ensures Asymmetric(OutputLess)
  {
    forall x, y | OutputLess(x, y) ensures !OutputLess(y, x) {
      LexLessAsymmetric(x.pkScript, y.pkScript);
    }
  }

  /** Inputs spending different outpoints never tie, so their BIP 69 order is total. */
  lemma InputLessTotal(x: TxIn, y: TxIn)
    requires x.previousOutPoint != y.previousOutPoint
    ensures InputLess(x, y) || InputLess(y, x)
  {
    var xh, yh := x.previousOutPoint.hash, y.previousOutPoint.hash;
    if xh != yh {
      LexLessTotal(Reverse(xh), Reverse(yh));
      if Reverse(xh) == Reverse(yh) { ReverseInjective(xh, yh); }
    }
  }

  /** Outputs that differ in value or script never tie either. */
  lemma OutputLessTotal(x: TxOut, y: TxOut)
    requires x != y
    ensures OutputLess(x, y) || OutputLess(y, x)
  {
    LexLessTotal(x.pkScript, y.pkScript);
  }

  ghost predicate Transitive<T(!new)>(less: (T, T) -> bool)
  {
    forall x, y, z :: less(x, y) && less(y, z) ==> less(x, z)
  }

  /** Any two different elements of `s` are ordered one way or the other. */
  ghost predicate TotalOn<T(!new)>(s: seq<T>, less: (T, T) -> bool)
  {
    forall x, y :: x in s && y in s && x != y ==> less(x, y) || less(y, x)
  }

  lemma {:induction false} LexLessTransitive(a: seq<Byte>, b: seq<Byte>, c: seq<Byte>)
    requires LexLess(a, b) && LexLess(b, c)
    ensures LexLess(a, c)
  {
    if |a| > 0 && a[0] == b[0] && b[0] == c[0] {
      LexLessTransitive(a[1..], b[1..], c[1..]);
    }
  }

  lemma InputLessTransitive()
    ensures Transitive(InputLess)
  {
    forall x, y, z | InputLess(x, y) && InputLess(y, z) ensures InputLess(x, z) {
      var xh, yh, zh := x.previousOutPoint.hash, y.previousOutPoint.hash, z.previousOutPoint.hash;
      if xh != yh && yh != zh {
        LexLessTransitive(Reverse(xh), Reverse(yh), Reverse(zh));
        if xh == zh {
          LexLessAsymmetric(Reverse(xh), Reverse(yh));
        }
      }
    }
  }

  lemma OutputLessTransitive()
    ensures Transitive(OutputLess)
  {
    forall x, y, z | OutputLess(x, y) && OutputLess(y, z) ensures OutputLess(x, z) {
      if x.value == y.value == z.value {
        LexLessTransitive(x.pkScript, y.pkScript, z.pkScript);
      }
    }
  }

  /** In a sorted sequence no element is less than any element before it. */
  lemma {:induction false} SortedPairwise<T(!new)>(s: seq<T>, less: (T, T) -> bool)
    requires Asymmetric(less) && Transitive(less) && TotalOn(s, less) && Sorted(s, less)
    ensures forall i, j :: 0 <= i < j < |s| ==> !less(s[j], s[i])
    decreases |s|
  {
    if |s| > 1 {
      var s' := s[..|s| - 1];
      assert forall k :: 0 <= k < |s'| ==> s'[k] == s[k];
      assert forall x :: x in s' ==> x in s;
      SortedPairwise(s', less);
      var j := |s| - 1;
      forall i | 0 <= i < j - 1 ensures !less(s[j], s[i]) {
        assert !less(s[j - 1], s[i]) by { assert s'[j - 1] == s[j - 1] && s'[i] == s[i]; }
        if s[j - 1] != s[i] {
          assert less(s[i], s[j - 1]);
        }
      }
    }
  }

  /** Two sorted arrangements of the same elements start with the same one: the first element
      of each is not less than any element of the other. */
  lemma SortedHeadsEqual<T(!new)>(s: seq<T>, t: seq<T>, less: (T, T) -> bool)
    requires Asymmetric(less) && Transitive(less) && TotalOn(s, less) && TotalOn(t, less)
    requires Sorted(s, less) && Sorted(t, less) && multiset(s) == multiset(t) && s != []
    ensures t != [] && s[0] == t[0]
  {
    assert s[0] in multiset(s) && |t| == |multiset(t)| == |s|;
    assert t[0] in multiset(t);
    SortedPairwise(s, less);
    SortedPairwise(t, less);
    var k :| 0 <= k < |t| && t[k] == s[0];
    var m :| 0 <= m < |s| && s[m] == t[0];
    assert !less(s[m], s[0]) && !less(t[k], t[0]);
  }

  /** Dropping the first element of a sorted sequence whose elements are pairwise ordered keeps
      both properties and removes exactly that element. */
  lemma DropHead<T(!new)>(s: seq<T>, less: (T, T) -> bool)
    requires TotalOn(s, less) && Sorted(s, less) && s != []
    ensures TotalOn(s[1..], less) && Sorted(s[1..], less)
    ensures multiset(s[1..]) == multiset(s) - multiset{s[0]}
  {
    assert s == [s[0]] + s[1..];
    assert forall x :: x in s[1..] ==> x in s;
    assert forall k :: 0 <= k < |s| - 1 ==> s[1..][k] == s[k + 1];
  }

  /** A sorted arrangement is unique: two sorted sequences holding the same elements, any two of
      which are ordered, are equal. */
  lemma {:induction false} SortedUnique<T(!new)>(s: seq<T>, t: seq<T>, less: (T, T) -> bool)
    requires Asymmetric(less) && Transitive(less) && TotalOn(s, less)
    requires Sorted(s, less) && Sorted(t, less) && multiset(s) == multiset(t)
    ensures s == t
    decreases |s|
  {
    assert forall x :: x in s <==> x in multiset(s);
    assert forall x :: x in t <==> x in multiset(t);
    if s == [] {
      assert |t| == |multiset(t)| == 0;
    } else {
      assert TotalOn(t, less);
      SortedHeadsEqual(s, t, less);
      DropHead(s, less);
      DropHead(t, less);
      SortedUnique(s[1..], t[1..], less);
    }
  }

  /** BIP 69 input order is deterministic: inputs spending distinct outpoints have exactly one
      sorted arrangement. */
  lemma InputOrderDeterministic(a: seq<TxIn>, b: seq<TxIn>)
    requires forall i, j :: 0 <= i < j < |a| ==> a[i].previousOutPoint != a[j].previousOutPoint
    requires multiset(a) == multiset(b) && Sorted(a, InputLess) && Sorted(b, InputLess)
    ensures a == b
  {
    InputLessAsymmetric();
    InputLessTransitive();
    forall x, y | x in a && y in a && x != y ensures InputLess(x, y) || InputLess(y, x) {
      var i :| 0 <= i < |a| && a[i] == x;
      var j :| 0 <= j < |a| && a[j] == y;
      InputLessTotal(x, y);
    }
    SortedUnique(a, b, InputLess);
  }

  /** BIP 69 output order is deterministic: outputs have exactly one sorted arrangement. */
  lemma OutputOrderDeterministic(a: seq<TxOut>, b: seq<TxOut>)
    requires multiset(a) == multiset(b) && Sorted(a, OutputLess) && Sorted(b, OutputLess)
    ensures a == b
  {
    OutputLessAsymmetric();
    OutputLessTransitive();
    forall x, y | x in a && y in a && x != y ensures OutputLess(x, y) || OutputLess(y, x) {
      OutputLessTotal(x, y);
    }
    SortedUnique(a, b, OutputLess);
  }

  /** sort.Sort on a slice (here by insertion): afterwards the slice is sorted and a permutation of
      what it held, and a slice that was already sorted is left exactly as it was. */
  method SortInPlace<T(!new)>(a: array<T>, less: (T, T) -> bool)
    requires Asymmetric(less)
    modifies a
    ensures Sorted(a[..], less)
    ensures multiset(a[..]) == multiset(old(a[..]))
    ensures Sorted(old(a[..]), less) ==> a[..] == old(a[..])
  {
    var i := 0;
    while i < a.Length
      invariant 0 <= i <= a.Length
      invariant Sorted(a[..i], less)
      invariant multiset(a[..]) == multiset(old(a[..]))
      invariant Sorted(old(a[..]), less) ==> a[..] == old(a[..])
    {
      InsertLast(a, i, less);
      i := i + 1;
    }
    assert a[..a.Length] == a[..];
  }

  /** One insertion step: moves `a[i]` down into the sorted prefix `a[..i]`, so that `a[..i+1]`
      is sorted; an `a[i]` already in place stays where it is. */
  method InsertLast<T(!new)>(a: array<T>, i: nat, less: (T, T) -> bool)
    requires i < a.Length
    requires Asymmetric(less)
    requires Sorted(a[..i], less)
    modifies a
    ensures Sorted(a[..i + 1], less)
    ensures multiset(a[..]) == multiset(old(a[..]))
    ensures a[i + 1..] == old(a[i + 1..])
    ensures multiset(a[..i + 1]) == multiset(old(a[..i + 1]))
    ensures old(i == 0 || !less(a[i], a[i - 1])) ==> a[..] == old(a[..])
  {
    ghost var a0 := a[..];
    InsertingStart(a[..], i, less);
    var j: nat := i;
    while j > 0 && less(a[j], a[j - 1])
      invariant Inserting(a[..], i, j, less)
      invariant multiset(a[..]) == multiset(old(a[..]))
      invariant a[i + 1..] == old(a[i + 1..])
      invariant j == i ==> a[..] == old(a[..])
      invariant j < i ==> old(less(a[i], a[i - 1]))
    {
      ghost var s := a[..];
      InsertingStep(s, i, j, less);
      a[j], a[j - 1] := a[j - 1], a[j];
      assert a[..] == Swap(s, j);
      SwapKeepsSuffix(s, j, i);
      j := j - 1;
    }
    InsertingDone(a[..], i, j, less);
    SamePrefixMultiset(a[..], a0, i + 1);
  }

  /** `s` with the neighbours at `j - 1` and `j` exchanged. */
  function Swap<T>(s: seq<T>, j: nat): (r: seq<T>)
    requires 0 < j < |s|
    ensures |r| == |s| && r[j] == s[j - 1] && r[j - 1] == s[j]
    ensures forall k :: 0 <= k < |s| && k != j && k != j - 1 ==> r[k] == s[k]
    ensures multiset(r) == multiset(s)
  {
    s[j := s[j - 1]][j - 1 := s[j]]
  }

  /** Two arrangements of one multiset that agree from `n` on hold the same elements before `n`. */
  lemma SamePrefixMultiset<T>(s: seq<T>, t: seq<T>, n: nat)
    requires n <= |s| == |t| && multiset(s) == multiset(t) && s[n..] == t[n..]
    ensures multiset(s[..n]) == multiset(t[..n])
  {
    assert s == s[..n] + s[n..] && t == t[..n] + t[n..];
    assert multiset(s) == multiset(s[..n]) + multiset(s[n..]);
    assert multiset(t) == multiset(t[..n]) + multiset(t[n..]);
    assert multiset(s[..n]) == multiset(s) - multiset(s[n..]);
    assert multiset(t[..n]) == multiset(t) - multiset(t[n..]);
  }

  lemma SwapKeepsSuffix<T>(s: seq<T>, j: nat, i: nat)
    requires 0 < j <= i < |s|
    ensures Swap(s, j)[i + 1..] == s[i + 1..]
  {
  }

  /** The state of an insertion step: every neighbouring pair of `s[..i+1]` is in order except
      possibly the one ending at `j`, and `s[j - 1]`, `s[j + 1]` are in order, so that moving
      `s[j]` out from between them leaves them in order. */
  ghost predicate Inserting<T>(s: seq<T>, i: nat, j: nat, less: (T, T) -> bool)
  {
    && j <= i < |s|
    && (forall k :: 0 < k <= i && k != j ==> !less(s[k], s[k - 1]))
    && (0 < j < i ==> !less(s[j + 1], s[j - 1]))
  }

  lemma InsertingStart<T>(s: seq<T>, i: nat, less: (T, T) -> bool)
    requires i < |s| && Sorted(s[..i], less)
    ensures Inserting(s, i, i, less)
  {
  }

  lemma InsertingStep<T(!new)>(s: seq<T>, i: nat, j: nat, less: (T, T) -> bool)
    requires Asymmetric(less) && Inserting(s, i, j, less)
    requires 0 < j && less(s[j], s[j - 1])
    ensures Inserting(Swap(s, j), i, j - 1, less)
  {
  }

  lemma InsertingDone<T>(s: seq<T>, i: nat, j: nat, less: (T, T) -> bool)
    requires Inserting(s, i, j, less)
    requires j == 0 || !less(s[j], s[j - 1])
    ensures Sorted(s[..i + 1], less)
  {
  }

  /** txsort.IsSorted: inputs and outputs are both in BIP 69 order. */
  predicate IsSorted(tx: Tx)
  {
    Sorted(tx.txIn, InputLess) && Sorted(tx.txOut, OutputLess)
  }

  /** txsort.InPlaceSort: reorders the inputs and the outputs of `tx` into BIP 69 order and
      changes nothing else; a transaction already in that order is left as it is. */
  method InPlaceSort(tx: MsgTx)
    modifies tx
    ensures IsSorted(tx.Value())
    ensures multiset(tx.txIn) == multiset(old(tx.txIn))
    ensures multiset(tx.txOut) == multiset(old(tx.txOut))
    ensures tx.version == old(tx.version) && tx.lockTime == old(tx.lockTime)
    ensures old(IsSorted(tx.Value())) ==> tx.txIn == old(tx.txIn) && tx.txOut == old(tx.txOut)
  {
    InputLessAsymmetric();
    OutputLessAsymmetric();
    var ins := tx.txIn;
    var inArray := new TxIn[|ins|](i requires 0 <= i < |ins| => ins[i]);
    assert inArray[..] == ins;
    SortInPlace(inArray, InputLess);
    var outs := tx.txOut;
    var outArray := new TxOut[|outs|](i requires 0 <= i < |outs| => outs[i]);
    assert outArray[..] == outs;
    SortInPlace(outArray, OutputLess);
    tx.txIn := inArray[..];
    tx.txOut := outArray[..];
  }
}
