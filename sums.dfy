/** Sums of output values over sequences of outpoints, and the facts that make such a sum a
    property of the set of outpoints rather than of the order in which they are listed. */
module Sums {
  import opened Wire

  predicate Distinct<T(==)>(s: seq<T>)
  {
    forall i, j :: 0 <= i < j < |s| ==> s[i] != s[j]
  }

  /** `s` lists every element of `keys` exactly once (one possible map iteration order). */
  ghost predicate IsListing(s: seq<OutPoint>, keys: set<OutPoint>)
  {
    Distinct(s) && (forall x :: x in s <==> x in keys)
  }

  /** Some listing of a finite set. */
  ghost function Listing(keys: set<OutPoint>): (s: seq<OutPoint>)
    ensures IsListing(s, keys)
    decreases |keys|
  {
    if keys == {} then []
    else
      var k :| k in keys;
      Listing(keys - {k}) + [k]
  }

  /** Sum of `w` over `ops`, accumulated from the front as the source's loops do. */
  function SumOf(ops: seq<OutPoint>, w: OutPoint -> int): (sum: int)
  {
    if ops == [] then 0 else SumOf(ops[..|ops| - 1], w) + w(ops[|ops| - 1])
  }

  /** The value of the output `op` refers to (nothing for an unknown outpoint). */
  function Val(outputs: map<OutPoint, TxOut>, op: OutPoint): (v: Amount)
  {
    if op in outputs then outputs[op].value else 0
  }

  function ValueWeight(outputs: map<OutPoint, TxOut>): (w: OutPoint -> int)
  {
    op => Val(outputs, op)
  }

  function PositiveWeight(outputs: map<OutPoint, TxOut>): (w: OutPoint -> int)
  {
    op => if Val(outputs, op) > 0 then Val(outputs, op) else 0
  }

  /** Sum of the values of the outputs `ops` refers to. */
  function SumValues(ops: seq<OutPoint>, outputs: map<OutPoint, TxOut>): (sum: Amount)
  {
    SumOf(ops, ValueWeight(outputs))
  }

  /** Total value of all outputs in the map. */
  ghost function Total(outputs: map<OutPoint, TxOut>): (total: Amount)
  {
    SumValues(Listing(outputs.Keys), outputs)
  }

  /** Total of the positive values in the map: no selection of its outputs can be worth more. */
  ghost function PositiveTotal(outputs: map<OutPoint, TxOut>): (total: Amount)
  {
    SumOf(Listing(outputs.Keys), PositiveWeight(outputs))
  }

  ghost predicate NonNegativeValues(outputs: map<OutPoint, TxOut>)
  {
    forall op :: op in outputs ==> outputs[op].value >= 0
  }

  lemma {:induction false} SumOfConcat(a: seq<OutPoint>, b: seq<OutPoint>, w: OutPoint -> int)
    ensures SumOf(a + b, w) == SumOf(a, w) + SumOf(b, w)
    decreases |b|
  {
    if b != [] {
      var b' := b[..|b| - 1];
      assert (a + b)[..|a + b| - 1] == a + b';
      SumOfConcat(a, b', w);
    } else {
      assert a + b == a;
    }
  }

  /** Taking one element out of the sum. */
  lemma {:induction false} SumOfRemove(s: seq<OutPoint>, i: nat, w: OutPoint -> int)
    requires i < |s|
    ensures SumOf(s, w) == SumOf(s[..i] + s[i + 1..], w) + w(s[i])
  {
    var front := s[..i] + [s[i]];
    assert s == front + s[i + 1..];
    assert front[..|front| - 1] == s[..i];
    SumOfConcat(front, s[i + 1..], w);
    SumOfConcat(s[..i], s[i + 1..], w);
  }

  /** A sum does not depend on the order of its terms. */
  lemma {:induction false} SumOfPermutation(s: seq<OutPoint>, t: seq<OutPoint>, w: OutPoint -> int)
    requires multiset(s) == multiset(t)
    ensures SumOf(s, w) == SumOf(t, w)
    decreases |s|
  {
    if s != [] {
      var x := s[|s| - 1];
      var s' := s[..|s| - 1];
      assert x in multiset(t) by { assert x in multiset(s); }
      var i :| 0 <= i < |t| && t[i] == x;
      MultisetRemove(s, |s| - 1);
      MultisetRemove(t, i);
      assert s[..|s| - 1] + s[|s|..] == s';
      SumOfPermutation(s', t[..i] + t[i + 1..], w);
      SumOfRemove(t, i, w);
    } else {
      assert |t| == |multiset(t)| == 0;
    }
  }

  lemma MultisetRemove<T>(s: seq<T>, i: nat)
    requires i < |s|
    ensures multiset(s[..i] + s[i + 1..]) == multiset(s) - multiset{s[i]}
  {
    assert s == s[..i] + [s[i]] + s[i + 1..];
  }

  /** In a sequence without repetitions every element occurs exactly once. */
  lemma {:induction false} DistinctCounts<T>(s: seq<T>)
    requires Distinct(s)
    ensures forall x :: multiset(s)[x] == if x in s then 1 else 0
    decreases |s|
  {
    if s != [] {
      var s' := s[..|s| - 1];
      assert s == s' + [s[|s| - 1]];
      DistinctCounts(s');
    }
  }

  /** A sequence in which nothing occurs twice has no repetitions. */
  lemma {:induction false} CountsDistinct<T>(s: seq<T>)
    requires forall x :: multiset(s)[x] <= 1
    ensures Distinct(s)
    decreases |s|
  {
    if s != [] {
      var y := s[|s| - 1];
      var s' := s[..|s| - 1];
      assert s == s' + [y];
      assert multiset(s) == multiset(s') + multiset{y};
      forall x ensures multiset(s')[x] <= 1 {
        assert multiset(s)[x] == multiset(s')[x] + (if x == y then 1 else 0);
      }
      CountsDistinct(s');
      assert multiset(s')[y] == 0;
      assert y !in s';
      forall i, j | 0 <= i < j < |s| ensures s[i] != s[j] {
        if j == |s| - 1 {
          assert s[i] == s'[i];
        } else {
          assert s[i] == s'[i] && s[j] == s'[j];
        }
      }
    }
  }

  /** Any two listings of the same set are permutations of each other. */
  lemma ListingsArePermutations(s: seq<OutPoint>, t: seq<OutPoint>, keys: set<OutPoint>)
    requires IsListing(s, keys) && IsListing(t, keys)
    ensures multiset(s) == multiset(t)
  {
    DistinctCounts(s);
    DistinctCounts(t);
    assert forall x :: multiset(s)[x] == multiset(t)[x];
  }

  /** A permutation of a listing is a listing. */
  lemma PermutationOfListing(s: seq<OutPoint>, t: seq<OutPoint>, keys: set<OutPoint>)
    requires IsListing(t, keys) && multiset(s) == multiset(t)
    ensures IsListing(s, keys)
  {
    DistinctCounts(t);
    CountsDistinct(s);
    forall x ensures x in s <==> x in keys {
      assert x in s <==> x in multiset(s);
      assert x in t <==> x in multiset(t);
    }
  }

  /** Summing over the map's keys in whatever order they are listed gives the map's total. */
  lemma SumOfListing(s: seq<OutPoint>, outputs: map<OutPoint, TxOut>)
    requires IsListing(s, outputs.Keys)
    ensures SumValues(s, outputs) == Total(outputs)
    ensures SumOf(s, PositiveWeight(outputs)) == PositiveTotal(outputs)
  {
    ListingsArePermutations(s, Listing(outputs.Keys), outputs.Keys);
    SumOfPermutation(s, Listing(outputs.Keys), ValueWeight(outputs));
    SumOfPermutation(s, Listing(outputs.Keys), PositiveWeight(outputs));
  }

  /** With non-negative terms, a prefix never sums to more than the whole sequence. */
  lemma {:induction false} SumOfPrefixBound(s: seq<OutPoint>, k: nat, w: OutPoint -> int)
    requires k <= |s|
    requires forall i :: 0 <= i < |s| ==> w(s[i]) >= 0
    ensures SumOf(s[..k], w) <= SumOf(s, w)
    decreases |s|
  {
    if k < |s| {
      var s' := s[..|s| - 1];
      SumOfPrefixBound(s', k, w);
      assert s'[..k] == s[..k];
    } else {
      assert s[..k] == s;
    }
  }

  /** No term counts more towards the value sum than towards the positive-part sum. */
  lemma {:induction false} SumValuesBelowPositive(s: seq<OutPoint>, outputs: map<OutPoint, TxOut>)
    ensures SumValues(s, outputs) <= SumOf(s, PositiveWeight(outputs))
    ensures NonNegativeValues(outputs) ==> SumValues(s, outputs) == SumOf(s, PositiveWeight(outputs))
    decreases |s|
  {
    if s != [] {
      SumValuesBelowPositive(s[..|s| - 1], outputs);
    }
  }

  /** A selection of the map's outputs taken as a prefix of one of its listings is worth no more
      than the positive total, and no more than the total when no value is negative. */
  lemma PrefixOfListingBound(s: seq<OutPoint>, k: nat, outputs: map<OutPoint, TxOut>)
    requires IsListing(s, outputs.Keys) && k <= |s|
    ensures SumValues(s[..k], outputs) <= PositiveTotal(outputs)
    ensures NonNegativeValues(outputs) ==> SumValues(s[..k], outputs) <= Total(outputs)
  {
    SumOfListing(s, outputs);
    SumValuesBelowPositive(s[..k], outputs);
    SumOfPrefixBound(s, k, PositiveWeight(outputs));
    SumValuesBelowPositive(s, outputs);
    if NonNegativeValues(outputs) {
      assert forall i :: 0 <= i < |s| ==> s[i] in outputs;
      SumOfPrefixBound(s, k, ValueWeight(outputs));
    }
  }

  /** A listing has one entry per element of the set. */
  lemma {:induction false} ListingLength(s: seq<OutPoint>, keys: set<OutPoint>)
    requires IsListing(s, keys)
    ensures |s| == |keys|
    decreases |s|
  {
    if s != [] {
      var x := s[|s| - 1];
      var s' := s[..|s| - 1];
      assert s == s' + [x];
      assert x !in s';
      assert IsListing(s', keys - {x});
      ListingLength(s', keys - {x});
    } else {
      assert forall x :: x !in keys by {
        assert forall x :: x in keys ==> x in s;
      }
      assert keys == {};
    }
  }

  /** The only arrangement of a single element. */
  lemma SingletonPermutation<T>(s: seq<T>, x: T)
    requires multiset(s) == multiset([x])
    ensures s == [x]
  {
  }
}
