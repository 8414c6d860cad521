/** What the other modules need of sequences. */
module Sequences {

  function Last<T>(s: seq<T>): T
    requires s != []
  {
    s[|s| - 1]
  }

  /** s with `more` appended to its last element. */
  function AppendLast<T>(s: seq<seq<T>>, more: seq<T>): seq<seq<T>>
    requires s != []
  {
    s[|s| - 1 := Last(s) + more]
  }

  lemma Assoc<T>(a: seq<T>, b: seq<T>, c: seq<T>)
    ensures (a + b) + c == a + (b + c)
  {
  }

  predicate Distinct<T(==)>(q: seq<T>) {
    forall i, j | 0 <= i < j < |q| :: q[i] != q[j]
  }

  /** A position in the sequence with one more element at k. */
  function Shift(k: nat, p: nat): nat {
    if p < k then p else p + 1
  }

  function Inserted<T>(s: seq<T>, k: nat, x: T): (r: seq<T>)
    requires k <= |s|
    ensures |r| == |s| + 1 && r[k] == x
    ensures forall p | 0 <= p < |s| :: r[Shift(k, p)] == s[p]
    ensures forall q | 0 <= q < |r| :: r[q] == if q < k then s[q] else if q == k then x else s[q - 1]
  {
    s[..k] + [x] + s[k..]
  }

  function Removed<T>(s: seq<T>, k: nat): (r: seq<T>)
    requires k < |s|
    ensures |r| == |s| - 1
    ensures forall p | 0 <= p < |r| :: r[p] == if p < k then s[p] else s[p + 1]
  {
    s[..k] + s[k + 1..]
  }

  lemma RemovedInserted<T>(s: seq<T>, k: nat)
    requires k < |s|
    ensures Inserted(Removed(s, k), k, s[k]) == s
  {
  }
}
