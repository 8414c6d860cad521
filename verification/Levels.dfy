/** The shape of a skip list, as a sequence of heights: the head at position 0, then the nodes in order.
    The link of a position at level i goes to the next position that reaches level i. */
module Levels {
  import opened Sequences

  const MAX_LEVEL: nat := 16

  /** The next position after p of height at least i; the end if there is none. */
  function Next(t: seq<nat>, p: nat, i: nat): (q: nat)
    requires p < |t|
    ensures p < q <= |t|
    ensures q < |t| ==> t[q] >= i
    ensures forall r | p < r < q :: t[r] < i
    decreases |t| - p
  {
    if p + 1 == |t| || t[p + 1] >= i then p + 1 else Next(t, p + 1, i)
  }

  /** The last position before k of height at least i; the head reaches every level. */
  function Prior(t: seq<nat>, k: nat, i: nat): (p: nat)
    requires 0 < k <= |t| && t[0] >= i
    ensures p < k && t[p] >= i
    ensures forall r | p < r < k :: t[r] < i
  {
    if t[k - 1] >= i then k - 1 else Prior(t, k - 1, i)
  }

  /** Both are determined by what they promise. */
  lemma NextIs(t: seq<nat>, p: nat, i: nat, q: nat)
    requires p < q <= |t| && (q < |t| ==> t[q] >= i) && forall r | p < r < q :: t[r] < i
    ensures Next(t, p, i) == q
  {
  }

  lemma NextBeyond(t: seq<nat>, p: nat, i: nat, k: nat)
    requires p < k <= |t| && forall r | p < r < k :: t[r] < i
    ensures Next(t, p, i) >= k
  {
  }

  lemma NextReaches(t: seq<nat>, p: nat, i: nat, q: nat)
    requires p < q < |t| && t[q] >= i
    ensures Next(t, p, i) <= q
  {
  }

  lemma PriorIs(t: seq<nat>, k: nat, i: nat, p: nat)
    requires p < k <= |t| && t[0] >= i && t[p] >= i && Next(t, p, i) >= k
    ensures Prior(t, k, i) == p
  {
  }

  /** Where the links go when a position of height h comes in at k: at the levels it reaches, the link
      that passed over k goes to it, and its own link goes on to where that link went. */
  lemma NextInserted(t: seq<nat>, k: nat, h: nat, p: nat, i: nat)
    requires 0 < k <= |t| && p < |t| && t[0] >= i && t[p] >= i
    ensures var u := Inserted(t, k, h);
            Next(u, Shift(k, p), i) ==
            if i <= h && p == Prior(t, k, i) then k else Shift(k, Next(t, p, i))
  {
    hide Next, Prior, Inserted;
    var q := Next(t, p, i);
    if p >= k {
      NextAfter(t, k, h, p, i);
    } else if q < k {
      NextBefore(t, k, h, p, i);
    } else {
      PriorIs(t, k, i, p);
      NextAcross(t, k, h, p, i);
    }
  }

  lemma NextAfter(t: seq<nat>, k: nat, h: nat, p: nat, i: nat)
    requires 0 < k <= p < |t|
    ensures Next(Inserted(t, k, h), p + 1, i) == Next(t, p, i) + 1
  {
    hide Next, Inserted;
    var u, q := Inserted(t, k, h), Next(t, p, i);
    forall r | p + 1 < r < q + 1
      ensures u[r] < i
    {
      assert u[r] == t[r - 1];
    }
    assert q < |t| ==> u[q + 1] == t[q];
    NextIs(u, p + 1, i, q + 1);
  }

  lemma NextBefore(t: seq<nat>, k: nat, h: nat, p: nat, i: nat)
    requires p < k <= |t| && Next(t, p, i) < k
    ensures Next(Inserted(t, k, h), p, i) == Next(t, p, i)
  {
    hide Next, Inserted;
    var u, q := Inserted(t, k, h), Next(t, p, i);
    assert forall r | p < r <= q :: u[r] == t[r];
    NextIs(u, p, i, q);
  }

  lemma NextAcross(t: seq<nat>, k: nat, h: nat, p: nat, i: nat)
    requires p < k <= |t| && Next(t, p, i) >= k
    ensures Next(Inserted(t, k, h), p, i) == if i <= h then k else Next(t, p, i) + 1
  {
    hide Next, Inserted;
    var u, q := Inserted(t, k, h), Next(t, p, i);
    forall r | p < r < (if i <= h then k else q + 1)
      ensures u[r] < i
    {
      assert u[r] == if r < k then t[r] else if r == k then h else t[r - 1];
    }
    assert u[k] == h && (q < |t| ==> u[q + 1] == t[q]);
    NextIs(u, p, i, if i <= h then k else q + 1);
  }

  lemma NextOfNew(t: seq<nat>, k: nat, h: nat, i: nat)
    requires 0 < k <= |t| && t[0] >= i && i <= h
    ensures Next(Inserted(t, k, h), k, i) == Next(t, Prior(t, k, i), i) + 1
    ensures Next(t, Prior(t, k, i), i) >= k
  {
    var u, p := Inserted(t, k, h), Prior(t, k, i);
    var q := Next(t, p, i);
    forall r | k < r < q + 1
      ensures u[r] < i
    {
      assert u[r] == t[r - 1];
    }
    NextIs(u, k, i, q + 1);
  }

  lemma PriorInserted(t: seq<nat>, k: nat, h: nat, i: nat)
    requires 0 < k <= |t| && t[0] >= i
    ensures Inserted(t, k, h)[0] >= i && Prior(Inserted(t, k, h), k, i) == Prior(t, k, i)
  {
    var u, p := Inserted(t, k, h), Prior(t, k, i);
    assert forall r | 0 <= r < k :: u[r] == t[r];
    NextBeyond(u, p, i, k);
    PriorIs(u, k, i, p);
  }
}
