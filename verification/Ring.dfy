/** Neighbour choice. Every process looks in the same table of slots for the nearest occupied slot
    on either side of its own. All choices together form one cycle through the occupied slots. */
module Ring {
  import opened Sequences
  import opened Wire

  /** A table of magics; 0 marks a free slot. */
  type Table = seq<u16>

  predicate Occupied(t: Table, i: nat) {
    i < |t| && t[i] != 0
  }

  /** Slot number of a position that may have gone once round. */
  function Wrap(n: nat, x: nat): nat
    requires x < 2 * n
  {
    if x < n then x else x - n
  }

  /** The slot k places ahead of p. */
  function At(t: Table, p: nat, k: nat): nat
    requires p < |t| && k <= |t|
  {
    Wrap(|t|, p + k)
  }

  /** The slot k places behind p. */
  function Back(t: Table, p: nat, k: nat): nat
    requires p < |t| && k <= |t|
  {
    Wrap(|t|, |t| + p - k)
  }

  /** Steps forward from p to the nearest occupied slot, at least i. */
  function Ahead(t: Table, p: nat, i: nat): (k: nat)
    requires Occupied(t, p) && 1 <= i <= |t|
    ensures i <= k <= |t| && Occupied(t, At(t, p, k))
    ensures forall j | i <= j < k :: !Occupied(t, At(t, p, j))
    decreases |t| - i
  {
    if Occupied(t, At(t, p, i)) then i else Ahead(t, p, i + 1)
  }

  /** Steps back from p to the nearest occupied slot, at least i. */
  function Behind(t: Table, p: nat, i: nat): (k: nat)
    requires Occupied(t, p) && 1 <= i <= |t|
    ensures i <= k <= |t| && Occupied(t, Back(t, p, k))
    ensures forall j | i <= j < k :: !Occupied(t, Back(t, p, j))
    decreases |t| - i
  {
    if Occupied(t, Back(t, p, i)) then i else Behind(t, p, i + 1)
  }

  /** The neighbour B, whose pipe the process at p reads. */
  function Next(t: Table, p: nat): (q: nat)
    requires Occupied(t, p)
    ensures Occupied(t, q)
  {
    At(t, p, Ahead(t, p, 1))
  }

  /** The neighbour A, which reads the pipe of the process at p. */
  function Prev(t: Table, p: nat): (q: nat)
    requires Occupied(t, p)
    ensures Occupied(t, q)
  {
    Back(t, p, Behind(t, p, 1))
  }

  /** The neighbour search of `Manager::Loop`, for a table that holds the process's own magic. */
  method Neighbours(prefer: Table, pos: nat) returns (a: nat, b: nat)
    requires Occupied(prefer, pos)
    ensures a == Prev(prefer, pos) && b == Next(prefer, pos)
  {
    var n := |prefer|;
    a, b := pos, pos;
    var i := 1;
    while i <= n
      invariant 1 <= i <= n
      invariant Behind(prefer, pos, 1) == Behind(prefer, pos, i)
      decreases n - i
    {
      a := (n + pos - i) % n;
      WrapMod(n, n + pos - i);
      if prefer[a] != 0 {
        break;
      }
      i := i + 1;
    }
    i := 1;
    while i <= n
      invariant 1 <= i <= n
      invariant Ahead(prefer, pos, 1) == Ahead(prefer, pos, i)
      decreases n - i
    {
      b := (pos + i) % n;
      WrapMod(n, pos + i);
      if prefer[b] != 0 {
        break;
      }
      i := i + 1;
    }
  }

  lemma WrapMod(n: nat, x: nat)
    requires x < 2 * n
    ensures x % n == Wrap(n, x)
  {
    if x < n {
      assert x % n == x;
    } else {
      assert x == n * 1 + (x - n);
      assert x % n == x - n;
    }
  }

  /** Going to the next slot and back leads home. */
  lemma PrevNext(t: Table, p: nat)
    requires Occupied(t, p)
    ensures Prev(t, Next(t, p)) == p
  {
    var k, q := Ahead(t, p, 1), Next(t, p);
    forall b | 1 <= b < k
      ensures !Occupied(t, Back(t, q, b))
    {
      assert Back(t, q, b) == At(t, p, k - b);
    }
    assert Back(t, q, k) == p;
  }

  lemma NextPrev(t: Table, p: nat)
    requires Occupied(t, p)
    ensures Next(t, Prev(t, p)) == p
  {
    var k, q := Behind(t, p, 1), Prev(t, p);
    forall a | 1 <= a < k
      ensures !Occupied(t, At(t, q, a))
    {
      assert At(t, q, a) == Back(t, p, k - a);
    }
    assert At(t, q, k) == p;
  }

  /** p, its next slot, the next of that, ... : k steps. */
  function Steps(t: Table, p: nat, k: nat): (q: nat)
    requires Occupied(t, p)
    ensures Occupied(t, q)
  {
    if k == 0 then p else Next(t, Steps(t, p, k - 1))
  }

  /** The occupied slots from the i-th ahead of p round to p, in order. */
  function Tour(t: Table, p: nat, i: nat): (r: seq<nat>)
    requires p < |t| && i <= |t|
    decreases |t| - i
  {
    if i == |t| then []
    else (if Occupied(t, At(t, p, i)) then [At(t, p, i)] else []) + Tour(t, p, i + 1)
  }

  /** The tour holds occupied slots only, and none passed before. */
  lemma {:induction false} TourSlots(t: Table, p: nat, i: nat, a: nat)
    requires p < |t| && i <= |t| && a < |Tour(t, p, i)|
    ensures var x := Tour(t, p, i)[a];
            Occupied(t, x) && forall j | 0 <= j < i :: x != At(t, p, j)
    decreases |t| - i
  {
    if !Occupied(t, At(t, p, i)) {
      TourSlots(t, p, i + 1, a);
    } else if a > 0 {
      TourSlots(t, p, i + 1, a - 1);
    }
  }

  /** No slot is on the tour twice. */
  lemma {:induction false} TourDistinct(t: Table, p: nat, i: nat, a: nat, b: nat)
    requires p < |t| && i <= |t| && a < b < |Tour(t, p, i)|
    ensures Tour(t, p, i)[a] != Tour(t, p, i)[b]
    decreases |t| - i
  {
    if !Occupied(t, At(t, p, i)) {
      TourDistinct(t, p, i + 1, a, b);
    } else if a > 0 {
      TourDistinct(t, p, i + 1, a - 1, b - 1);
    } else {
      TourSlots(t, p, i + 1, b - 1);
    }
  }

  /** The tour holds every occupied slot that lies ahead. */
  lemma {:induction false} TourComplete(t: Table, p: nat, i: nat, j: nat)
    requires p < |t| && i <= j < |t| && Occupied(t, At(t, p, j))
    ensures At(t, p, j) in Tour(t, p, i)
    decreases |t| - i
  {
    if i < j {
      TourComplete(t, p, i + 1, j);
    }
  }

  /** From the j-th slot ahead of p, with nothing occupied up to the i-th, the next slot is the first
      of the tour from there, or p at its end. */
  lemma {:induction false} TourHead(t: Table, p: nat, j: nat, i: nat)
    requires Occupied(t, p) && j < i <= |t| && Occupied(t, At(t, p, j))
    requires forall l | j < l < i :: !Occupied(t, At(t, p, l))
    ensures Next(t, At(t, p, j)) == if Tour(t, p, i) == [] then p else Tour(t, p, i)[0]
    decreases |t| - i
  {
    if i < |t| && !Occupied(t, At(t, p, i)) {
      TourHead(t, p, j, i + 1);
    } else {
      var x := At(t, p, j);
      forall l | 1 <= l < i - j
        ensures !Occupied(t, At(t, x, l))
      {
        assert At(t, x, l) == At(t, p, j + l);
      }
      assert At(t, x, i - j) == At(t, p, i);
      assert At(t, p, |t|) == p;
    }
  }

  /** The neighbour steps from any slot follow the tour. */
  lemma {:induction false} TourFollows(t: Table, p: nat, j: nat, k: nat, m: nat)
    requires Occupied(t, p) && j < |t| && Occupied(t, At(t, p, j)) && Steps(t, p, m) == At(t, p, j)
    requires k <= |Tour(t, p, j + 1)|
    ensures Steps(t, p, m + 1 + k) == if k == |Tour(t, p, j + 1)| then p else Tour(t, p, j + 1)[k]
    decreases |t| - j
  {
    hide Tour, At, Next;
    TourHead(t, p, j, j + 1);
    if k > 0 {
      var i := TourFirst(t, p, j + 1);
      TourFollows(t, p, i, k - 1, m + 1);
    }
  }

  /** Where a non-empty tour begins. */
  lemma {:induction false} TourFirst(t: Table, p: nat, i: nat) returns (j: nat)
    requires p < |t| && i <= |t| && Tour(t, p, i) != []
    ensures i <= j < |t| && Occupied(t, At(t, p, j)) && Tour(t, p, i) == [At(t, p, j)] + Tour(t, p, j + 1)
    decreases |t| - i
  {
    if Occupied(t, At(t, p, i)) {
      j := i;
    } else {
      j := TourFirst(t, p, i + 1);
    }
  }

  lemma {:induction false} TourSteps(t: Table, p: nat, k: nat)
    requires Occupied(t, p) && k <= |Tour(t, p, 0)|
    ensures 0 < |Tour(t, p, 0)|
    ensures Steps(t, p, k) == if k == |Tour(t, p, 0)| then p else Tour(t, p, 0)[k]
  {
    assert At(t, p, 0) == p && Tour(t, p, 0) == [p] + Tour(t, p, 1);
    if k > 0 {
      TourFollows(t, p, 0, k - 1, 0);
    }
  }

  lemma TourAll(t: Table, p: nat, q: nat)
    requires Occupied(t, p) && Occupied(t, q)
    ensures q in Tour(t, p, 0)
  {
    var j := if p <= q then q - p else |t| + q - p;
    assert At(t, p, j) == q;
    TourComplete(t, p, 0, j);
  }

  /** The neighbours form a single cycle: starting anywhere, the steps visit every occupied slot
      exactly once and are then back. */
  lemma SingleCycle(t: Table, p: nat)
    requires Occupied(t, p)
    ensures var r := Tour(t, p, 0);
            && 0 < |r| && Steps(t, p, |r|) == p
            && (forall k | 0 <= k < |r| :: Steps(t, p, k) == r[k])
            && (forall a, b | 0 <= a < b < |r| :: r[a] != r[b])
            && (forall q | Occupied(t, q) :: q in r)
  {
    var r := Tour(t, p, 0);
    TourSteps(t, p, |r|);
    hide Tour, Steps, At;
    forall a, b | 0 <= a < b < |r|
      ensures r[a] != r[b]
    {
      TourDistinct(t, p, 0, a, b);
    }
    forall k | 0 <= k < |r|
      ensures Steps(t, p, k) == r[k]
    {
      TourSteps(t, p, k);
    }
    forall q | Occupied(t, q)
      ensures q in r
    {
      TourAll(t, p, q);
    }
  }
}
