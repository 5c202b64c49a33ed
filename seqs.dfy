/** Sequence facts shared by the model: order-preserving selection and lists without repeats. */
module Seqs {

  /** `a` can be obtained from `b` by deleting elements, keeping the order of the rest. */
  predicate SubsequenceOf<T(==)>(a: seq<T>, b: seq<T>)
    decreases |b|
  {
    a == [] || (b != [] &&
      ((a[|a| - 1] == b[|b| - 1] && SubsequenceOf(a[..|a| - 1], b[..|b| - 1]))
       || SubsequenceOf(a, b[..|b| - 1])))
  }

  /** Keeping or dropping the last element of `b` preserves the relation. */
  lemma SubsequenceSnoc<T>(a: seq<T>, b: seq<T>, x: T)
    requires SubsequenceOf(a, b)
    ensures SubsequenceOf(a + [x], b + [x]) && SubsequenceOf(a, b + [x])
  {
    assert (a + [x])[..|a|] == a;
    assert (b + [x])[..|b|] == b;
  }

  /** Every sequence is a subsequence of itself. */
  lemma {:induction false} SubsequenceRefl<T>(a: seq<T>)
    ensures SubsequenceOf(a, a)
  {
    if a != [] {
      SubsequenceRefl(a[..|a| - 1]);
    }
  }

  /** No element occurs twice. */
  predicate Distinct<T(==)>(xs: seq<T>) {
    forall i, j :: 0 <= i < j < |xs| ==> xs[i] != xs[j]
  }

  predicate Disjoint<T(==)>(a: seq<T>, b: seq<T>) {
    forall x :: x in a ==> x !in b
  }

  /** A concatenation has no repeats exactly when neither part has and they share nothing. */
  lemma DistinctConcat<T>(a: seq<T>, b: seq<T>)
    ensures Distinct(a + b) <==> Distinct(a) && Distinct(b) && Disjoint(a, b)
  {
    var ab := a + b;
    if Distinct(ab) {
      assert forall i :: 0 <= i < |a| ==> ab[i] == a[i];
      assert forall i :: 0 <= i < |b| ==> ab[|a| + i] == b[i];
    }
    if Distinct(a) && Distinct(b) && Disjoint(a, b) {
      forall i, j | 0 <= i < j < |ab|
        ensures ab[i] != ab[j]
      {
        if j < |a| {
          assert ab[i] == a[i] && ab[j] == a[j];
        } else if i >= |a| {
          assert ab[i] == b[i - |a|] && ab[j] == b[j - |a|];
        } else {
          assert ab[i] == a[i] && ab[j] == b[j - |a|];
          assert a[i] in a && b[j - |a|] in b;
        }
      }
    }
  }
}
