/**
 * Folds over a list of records whose per-record part is a function argument. Proving the
 * membership facts once, for any argument, keeps the per-record definitions out of the induction.
 */
module Folds {
  /** Every element satisfies the predicate. */
  predicate All<T>(list: seq<T>, holds: T -> bool)
    decreases |list|
  {
    list == [] || (All(list[..|list| - 1], holds) && holds(list[|list| - 1]))
  }

  lemma {:induction false} AllEach<T>(list: seq<T>, holds: T -> bool)
    ensures All(list, holds) <==> forall i :: 0 <= i < |list| ==> holds(list[i])
    decreases |list|
  {
    if list != [] {
      var n := |list| - 1;
      AllEach(list[..n], holds);
      assert forall i :: 0 <= i < n ==> list[..n][i] == list[i];
    }
  }

  /** Every element satisfies the predicate with the given second argument. */
  predicate AllWith<T, A>(list: seq<T>, holds: (T, A) -> bool, a: A)
    decreases |list|
  {
    list == [] || (AllWith(list[..|list| - 1], holds, a) && holds(list[|list| - 1], a))
  }

  lemma {:induction false} AllWithEach<T, A>(list: seq<T>, holds: (T, A) -> bool, a: A)
    ensures AllWith(list, holds, a) <==> forall i :: 0 <= i < |list| ==> holds(list[i], a)
    decreases |list|
  {
    if list != [] {
      var n := |list| - 1;
      AllWithEach(list[..n], holds, a);
      assert forall i :: 0 <= i < n ==> list[..n][i] == list[i];
    }
  }

  /** The union of what each element contributes. */
  function UnionOf<T, A, K>(list: seq<T>, contribution: (T, A) -> set<K>, a: A): set<K>
    decreases |list|
  {
    if list == [] then {} else UnionOf(list[..|list| - 1], contribution, a) + contribution(list[|list| - 1], a)
  }

  lemma {:induction false} UnionOfMember<T, A, K>(list: seq<T>, contribution: (T, A) -> set<K>, a: A, k: K)
    ensures k in UnionOf(list, contribution, a) <==> exists i :: 0 <= i < |list| && k in contribution(list[i], a)
    decreases |list|
  {
    if list != [] {
      var n := |list| - 1;
      UnionOfMember(list[..n], contribution, a, k);
      if k in UnionOf(list[..n], contribution, a) {
        var i :| 0 <= i < n && k in contribution(list[..n][i], a);
        assert list[..n][i] == list[i];
      }
      if exists i :: 0 <= i < |list| && k in contribution(list[i], a) {
        var i :| 0 <= i < |list| && k in contribution(list[i], a);
        if i < n {
          assert list[..n][i] == list[i];
        }
      }
    }
  }
}
