/** The queue of workers that a task holds: an intrusive circular doubly linked list, of which the task
    knows the first node (`Task::Put`, `Task::Pop`, `Task::Del`, `Task::count`; `Ring` is that part of a
    task). Every operation is proved against the sequence of the nodes in the ring. */
module Queue {
  import opened Scheduler
  import opened Sequences

  class Node {
    var next: Node?
    var prev: Node?

    constructor ()
      ensures next == null && prev == null
    {
      next, prev := null, null;
    }
  }

  lemma {:induction false} WithoutNone(r: seq<Node>, w: Node)
    requires w !in r
    ensures Without(r, w) == r
  {
    if r != [] {
      WithoutNone(r[1..], w);
    }
  }

  lemma {:induction false} WithoutRemoved(r: seq<Node>, w: Node, k: nat)
    requires Distinct(r) && k < |r| && r[k] == w
    ensures Without(r, w) == Removed(r, k)
  {
    if k > 0 {
      WithoutRemoved(r[1..], w, k - 1);
      assert Removed(r, k) == [r[0]] + Removed(r[1..], k - 1);
    } else {
      assert Removed(r, 0) == r[1..];
      WithoutNone(r[1..], w);
    }
  }

  lemma NoLinks(r: seq<Node>)
    requires r == []
    ensures Linked(r)
  {
  }

  lemma RemovedFirst(ring: seq<Node>, k: nat)
    requires k < |ring|
    ensures Removed(ring, 0) == ring[1..]
    ensures |ring| > 1 ==> Removed(ring, k)[0] == ring[if k == 0 then 1 else 0]
  {
  }

  /** The links along the ring, forward and back, and around its end. */
  ghost predicate Linked(r: seq<Node>)
    reads r
  {
    && Distinct(r)
    && (forall i | 0 <= i < |r| - 1 :: r[i].next == r[i + 1] && r[i + 1].prev == r[i])
    && (r != [] ==> r[|r| - 1].next == r[0] && r[0].prev == r[|r| - 1])
  }

  /** The neighbours of a node in the ring. */
  lemma Around(r: seq<Node>, k: nat)
    requires Linked(r) && k < |r|
    ensures r[k].next == r[if k + 1 < |r| then k + 1 else 0]
    ensures r[k].prev == r[if k > 0 then k - 1 else |r| - 1]
    ensures r[k].next == r[k] <==> |r| == 1
    ensures r[k] == r[0] <==> k == 0
  {
    if k > 0 {
      assert r[k - 1 + 1].prev == r[k - 1];
    }
  }

  class Ring {
    var wk: Node?
    ghost var ring: seq<Node>

    ghost predicate Valid()
      reads this, ring
    {
      && (wk == null <==> ring == [])
      && (wk != null ==> wk == ring[0])
      && Linked(ring)
    }

    constructor ()
      ensures Valid() && ring == []
    {
      wk, ring := null, [];
    }

    predicate Empty()
      requires Valid()
      reads this, ring
      ensures Empty() <==> ring == []
    {
      wk == null
    }

    /** `link_before`: x goes in front of the first node, that is, to the end of the ring. */
    method Put(x: Node)
      requires Valid() && x !in ring
      modifies this, ring, x
      ensures Valid() && ring == old(ring) + [x]
    {
      if wk != null {
        var last := wk.prev;
        x.prev := last;
        x.next := wk;
        last.next := x;
        wk.prev := x;
      } else {
        x.next, x.prev := x, x;
        wk := x;
      }
      ring := ring + [x];
    }

    /** `unlink`: the neighbours of x are joined. */
    method Unlink(x: Node, ghost r: seq<Node>, ghost k: nat)
      requires Linked(r) && k < |r| && x == r[k]
      modifies r
      ensures Linked(Removed(r, k)) && unchanged(this)
    {
      Around(r, k);
      ghost var q := Removed(r, k);
      var n, p := x.next, x.prev;
      n.prev := p;
      p.next := n;
      if |q| > 0 {
        assert q[0] == r[if k == 0 then 1 else 0] && q[|q| - 1] == r[if k == |r| - 1 then |r| - 2 else |r| - 1];
      }
    }

    /** The first node leaves. */
    method Pop() returns (x: Node?)
      requires Valid()
      modifies this, ring
      ensures Valid()
      ensures old(ring) == [] ==> x == null && ring == []
      ensures old(ring) != [] ==> x == old(ring)[0] && ring == old(ring)[1..]
    {
      if Empty() {
        return null;
      }
      RemovedFirst(ring, 0);
      hide Linked, Removed;
      x := Shift();
    }

    method Shift() returns (x: Node)
      requires Valid() && ring != []
      modifies this, ring
      ensures Valid() && x == old(ring)[0] && ring == Removed(old(ring), 0)
    {
      hide Linked, Removed;
      Around(ring, 0);
      x := wk;
      wk := wk.next;
      if x.next == x {
        wk := null;
        NoLinks(Removed(ring, 0));
      } else {
        Unlink(x, ring, 0);
      }
      RemovedFirst(ring, 0);
      ring := Removed(ring, 0);
    }

    /** w is looked for around the ring and taken out where it is found. */
    method Del(w: Node)
      requires Valid() && ring != []
      modifies this, ring
      ensures Valid()
      ensures ring == Without(old(ring), w)
    {
      hide Without, Removed;
      var x := wk;
      ghost var k := 0;
      while true
        invariant 0 <= k < |ring| && x == ring[k] && w !in ring[..k]
        invariant Valid() && ring == old(ring) && Linked(ring)
        decreases |ring| - k
      {
        if x == w {
          WithoutRemoved(ring, w, k);
          Take(x, k);
          break;
        }
        Around(ring, k);
        x := x.next;
        if x == wk {
          WithoutNone(ring, w);
          break;
        }
        k := k + 1;
      }
    }

    method Take(x: Node, ghost k: nat)
      requires Valid() && k < |ring| && x == ring[k]
      modifies this, ring
      ensures Valid() && ring == Removed(old(ring), k)
    {
      hide Linked, Removed;
      Around(ring, k);
      if x == wk {
        if x.next == x {
          wk := null;
        } else {
          wk := wk.next;
        }
      }
      Unlink(x, ring, k);
      RemovedFirst(ring, k);
      ring := Removed(ring, k);
    }

    /** Going round once. */
    method Count() returns (n: nat)
      requires Valid()
      ensures n == |ring|
    {
      if Empty() {
        return 0;
      }
      var x := wk.next;
      n := 1;
      while x != wk
        invariant 1 <= n <= |ring| && x == if n < |ring| then ring[n] else ring[0]
        decreases |ring| - n
      {
        x := x.next;
        n := n + 1;
      }
    }
  }
}
