/**
  The one pandas table operation two of the scripts rely on for their
  checks: `df.duplicated(subset=...)`, which marks every row whose key
  already occurred on an earlier row (missing values compare equal to
  each other there), and its count `.sum()`.
 */
module Frames {
  /** Whether key `i` repeats an earlier one: `df.duplicated(subset=...)`. */
  predicate RepeatsEarlier<K(==)>(keys: seq<K>, i: int)
    requires 0 <= i < |keys|
  {
    exists j :: 0 <= j < i && keys[j] == keys[i]
  }

  function DuplicateCount<K(==)>(keys: seq<K>): nat {
    if |keys| == 0 then 0
    else DuplicateCount(keys[..|keys| - 1]) + (if RepeatsEarlier(keys, |keys| - 1) then 1 else 0)
  }

  /** No key occurs twice. */
  predicate Distinct<K(==)>(keys: seq<K>) {
    forall i, j :: 0 <= i < j < |keys| ==> keys[i] != keys[j]
  }

  /** `dup == 0` exactly when no key repeats. */
  lemma {:induction false} DuplicateCountZero<K>(keys: seq<K>)
    ensures DuplicateCount(keys) == 0 <==> Distinct(keys)
    decreases |keys|
  {
    if |keys| > 0 {
      var n := |keys| - 1;
      var front := keys[..n];
      DuplicateCountZero(front);
      assert forall i :: 0 <= i < n ==> front[i] == keys[i];
      if Distinct(keys) {
        assert !RepeatsEarlier(keys, n);
      }
      if Distinct(front) && !RepeatsEarlier(keys, n) {
        forall i, j | 0 <= i < j < |keys| ensures keys[i] != keys[j] {
          if j < n { assert front[i] != front[j]; }
        }
      }
    }
  }
}
