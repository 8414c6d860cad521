/** The skip list `CoreSpace`: nodes with forward links per level, searched from the top level down. Nodes
    are reused, so a link above a node's present height is stale and must never be followed. Every
    operation is proved against the map from keys to nodes, for any heights the caller draws. */
module SkipList {
  import opened Sequences
  import opened Levels

  class Node {
    var forward: seq<Node?>
    var height: nat
    var key: nat
    /** The holders of the block (`writeset2_`, by bit number). */
    var holders: set<nat>
    /** The block that `user_` points at: its space and its position. */
    var user: (nat, nat)

    constructor (height: nat, key: nat)
      ensures this.height == height && this.key == key && holders == {}
      ensures |forward| == MAX_LEVEL + 1 && forall i | 0 <= i <= MAX_LEVEL :: forward[i] == null
    {
      this.height, this.key, this.holders, this.user := height, key, {}, (0, 0);
      this.forward := seq(MAX_LEVEL + 1, _ => null);
    }
  }

  // ----- the list as sequences: the head, then the nodes in order -----

  ghost predicate Sorted(keys: seq<int>) {
    forall p, q | 0 <= p < q < |keys| :: keys[p] < keys[q]
  }

  /** How many positions come before `key`. */
  ghost function Rank(keys: seq<int>, key: nat): (k: nat)
    requires Sorted(keys) && keys != [] && keys[0] == -1
    ensures 0 < k <= |keys|
    ensures forall p | 0 <= p < k :: keys[p] < key
    ensures forall p | k <= p < |keys| :: keys[p] >= key
  {
    if keys[|keys| - 1] < key then |keys| else Rank(keys[..|keys| - 1], key)
  }

  /** The node at a position; none beyond the end. */
  function At(c: seq<Node>, p: nat): Node? {
    if p < |c| then c[p] else null
  }

  /** Every link a node has at its levels goes to the next node that reaches the level. */
  ghost predicate Links(c: seq<Node>, t: seq<nat>, p: nat)
    requires p < |c| == |t|
    reads c`forward
  {
    && |c[p].forward| == MAX_LEVEL + 1
    && t[p] <= MAX_LEVEL
    && forall i | 0 <= i <= t[p] :: c[p].forward[i] == At(c, Next(t, p, i))
  }

  ghost predicate Linked(c: seq<Node>, t: seq<nat>)
    reads c`forward
  {
    |c| == |t| && forall p | 0 <= p < |c| :: Links(c, t, p)
  }

  /** The nodes carry the keys and heights. */
  ghost predicate Keyed(c: seq<Node>, t: seq<nat>, keys: seq<int>)
    reads c`key, c`height
  {
    |c| == |t| == |keys| && forall p | 0 < p < |c| :: c[p].key == keys[p] && c[p].height == t[p]
  }

  ghost predicate Shaped(head: Node, c: seq<Node>, t: seq<nat>, keys: seq<int>) {
    && 0 < |c| == |t| == |keys|
    && c[0] == head && t[0] == MAX_LEVEL && keys[0] == -1
    && Distinct(c) && Sorted(keys)
  }

  /** The level is the greatest height in the list. */
  ghost predicate Topped(t: seq<nat>, level: nat) {
    && t != []
    && level <= MAX_LEVEL
    && (forall p | 0 < p < |t| :: t[p] <= level)
    && (level > 0 ==> Next(t, 0, level) < |t|)
  }

  ghost predicate Whole(head: Node, c: seq<Node>, t: seq<nat>, keys: seq<int>, level: nat)
    reads c`forward, c`key, c`height
  {
    Shaped(head, c, t, keys) && Linked(c, t) && Keyed(c, t, keys) && Topped(t, level)
  }

  // ----- the map -----

  ghost function MapOf(c: seq<Node>, keys: seq<int>): map<int, Node>
    requires Sorted(keys) && |c| == |keys|
  {
    map p | 0 < p < |keys| :: keys[p] := c[p]
  }

  /** The node of the first key from `key` on. */
  lemma MapRank(c: seq<Node>, keys: seq<int>, key: nat)
    requires Sorted(keys) && |c| == |keys| && keys != [] && keys[0] == -1
    ensures var k, m := Rank(keys, key), MapOf(c, keys);
            && (key in m <==> k < |keys| && keys[k] == key)
            && (k < |keys| ==> keys[k] in m && m[keys[k]] == c[k])
            && (forall o <- m :: o >= key ==> k < |keys| && o >= keys[k])
  {
    var k, m := Rank(keys, key), MapOf(c, keys);
    MapIs(m, c, keys);
    hide MapOf, Sorted;
    if key in m {
      assert Has(keys, key);
    }
    if k < |keys| {
      assert keys[k] in m;
      KeysFrom(keys, k);
    }
    forall o | o in m && o >= key
      ensures k < |keys| && o >= keys[k]
    {
      assert Has(keys, o);
    }
  }

  lemma KeysFrom(keys: seq<int>, k: nat)
    requires Sorted(keys) && k < |keys|
    ensures forall p | k <= p < |keys| :: keys[p] >= keys[k]
    ensures forall p | 0 <= p < |keys| && keys[p] == keys[k] :: p == k
  {
  }

  ghost predicate IsMap(m: map<int, Node>, c: seq<Node>, keys: seq<int>)
    requires |c| == |keys|
  {
    && (forall p | 0 < p < |keys| :: keys[p] in m && m[keys[p]] == c[p])
    && (forall o <- m :: Has(keys, o))
  }

  ghost predicate Has(keys: seq<int>, o: int) {
    exists p :: 0 < p < |keys| && keys[p] == o
  }

  lemma MapAt(c: seq<Node>, keys: seq<int>)
    requires Sorted(keys) && |c| == |keys|
    ensures IsMap(MapOf(c, keys), c, keys)
  {
    var n := MapOf(c, keys);
    assert forall p | 0 < p < |keys| :: keys[p] in n && n[keys[p]] == c[p];
    assert forall o <- n :: Has(keys, o);
  }

  /** A map is determined by the entries. */
  lemma OneMap(m: map<int, Node>, n: map<int, Node>, c: seq<Node>, keys: seq<int>)
    requires |c| == |keys| && IsMap(m, c, keys) && IsMap(n, c, keys)
    ensures m == n
  {
    assert forall o <- m :: o in n && m[o] == n[o];
    assert forall o <- n :: o in m;
  }

  lemma MapIs(m: map<int, Node>, c: seq<Node>, keys: seq<int>)
    requires Sorted(keys) && |c| == |keys|
    ensures IsMap(m, c, keys) <==> m == MapOf(c, keys)
  {
    MapAt(c, keys);
    hide *;
    if IsMap(m, c, keys) {
      OneMap(m, MapOf(c, keys), c, keys);
    }
  }

  lemma SortedInserted(keys: seq<int>, k: nat, key: int)
    requires Sorted(keys) && 0 < k <= |keys| && keys[k - 1] < key && (k < |keys| ==> key < keys[k])
    ensures Sorted(Inserted(keys, k, key))
  {
    var ls := Inserted(keys, k, key);
    assert forall p | 0 <= p < k :: keys[p] < key;
    assert forall p | k <= p < |keys| :: key < keys[p];
  }

  lemma HasInserted(keys: seq<int>, k: nat, key: int, o: int)
    requires 0 < k <= |keys|
    ensures Has(Inserted(keys, k, key), o) <==> o == key || Has(keys, o)
  {
    var ls := Inserted(keys, k, key);
    hide Inserted;
    assert ls[k] == key;
    if Has(keys, o) {
      var p :| 0 < p < |keys| && keys[p] == o;
      assert ls[Shift(k, p)] == o;
    }
    if Has(ls, o) {
      var q :| 0 < q < |ls| && ls[q] == o;
      assert q < k ==> keys[q] == o;
      assert q > k ==> keys[q - 1] == o;
    }
  }

  lemma FreshKey(keys: seq<int>, k: nat, key: int)
    requires Sorted(keys) && 0 < k <= |keys| && keys[k - 1] < key && (k < |keys| ==> key < keys[k])
    ensures !Has(keys, key)
  {
    assert forall p | 0 <= p < k :: keys[p] < key;
    assert forall p | k <= p < |keys| :: key < keys[p];
  }

  lemma MapInserted(c: seq<Node>, keys: seq<int>, k: nat, x: Node, key: int)
    requires Sorted(keys) && |c| == |keys| && 0 < k <= |keys|
    requires keys[k - 1] < key && (k < |keys| ==> key < keys[k])
    ensures Sorted(Inserted(keys, k, key))
    ensures MapOf(Inserted(c, k, x), Inserted(keys, k, key)) == MapOf(c, keys)[key := x]
    ensures key !in MapOf(c, keys)
  {
    SortedInserted(keys, k, key);
    FreshKey(keys, k, key);
    var d, ls, m := Inserted(c, k, x), Inserted(keys, k, key), MapOf(c, keys);
    MapIs(m, c, keys);
    hide *;
    NotIn(m, c, keys, key);
    forall q | 0 < q < |ls|
      ensures ls[q] in m[key := x] && m[key := x][ls[q]] == d[q]
    {
      InsertedAt(m, c, keys, k, x, key, q);
    }
    forall o | o in m[key := x]
      ensures Has(ls, o)
    {
      HasInserted(keys, k, key, o);
    }
    IsMapIf(m[key := x], d, ls);
    MapIs(m[key := x], d, ls);
  }

  lemma NotIn(m: map<int, Node>, c: seq<Node>, keys: seq<int>, key: int)
    requires |c| == |keys| && IsMap(m, c, keys) && !Has(keys, key)
    ensures key !in m && (forall o <- m :: Has(keys, o))
  {
  }

  lemma IsMapIf(m: map<int, Node>, c: seq<Node>, keys: seq<int>)
    requires |c| == |keys|
    requires forall p | 0 < p < |keys| :: keys[p] in m && m[keys[p]] == c[p]
    requires forall o <- m :: Has(keys, o)
    ensures IsMap(m, c, keys)
  {
  }

  lemma InsertedAt(m: map<int, Node>, c: seq<Node>, keys: seq<int>, k: nat, x: Node, key: int, q: nat)
    requires |c| == |keys| && IsMap(m, c, keys) && key !in m && 0 < k <= |keys| && 0 < q <= |keys|
    ensures var ls, d := Inserted(keys, k, key), Inserted(c, k, x);
            ls[q] in m[key := x] && m[key := x][ls[q]] == d[q]
  {
    hide Has, Inserted;
    if q != k {
      var p := if q < k then q else q - 1;
      assert keys[p] in m;
    }
  }

  // ----- one node more -----

  /** The link of position q at level l once x of height h has come in at k. */
  ghost function Target(c: seq<Node>, t: seq<nat>, k: nat, x: Node, h: nat, q: nat, l: nat): Node?
    requires 0 < k <= |c| == |t| && q <= |t|
  {
    At(Inserted(c, k, x), Next(Inserted(t, k, h), q, l))
  }

  /** Only the predecessor at each level that x reaches gets another link: the one to x. */
  lemma TargetOld(c: seq<Node>, t: seq<nat>, k: nat, x: Node, h: nat, p: nat, l: nat)
    requires 0 < k <= |c| == |t| && p < |t| && l <= t[0] && l <= t[p]
    ensures Target(c, t, k, x, h, Shift(k, p), l) ==
            if l <= h && p == Prior(t, k, l) then x else At(c, Next(t, p, l))
  {
    hide Next, Prior, Inserted;
    NextInserted(t, k, h, p, l);
    var q := Next(t, p, l);
    assert q < |c| ==> Inserted(c, k, x)[Shift(k, q)] == c[q];
  }

  /** x takes over the link of its predecessor. */
  lemma TargetNew(c: seq<Node>, t: seq<nat>, k: nat, x: Node, h: nat, l: nat)
    requires 0 < k <= |c| == |t| && l <= t[0] && l <= h
    ensures Target(c, t, k, x, h, k, l) == At(c, Next(t, Prior(t, k, l), l))
  {
    hide Next, Prior, Inserted;
    NextOfNew(t, k, h, l);
    var q := Next(t, Prior(t, k, l), l);
    assert q < |c| ==> Inserted(c, k, x)[Shift(k, q)] == c[q];
  }

  /** The links of one old position when the levels below i lead through x. */
  ghost predicate HalfAt(c: seq<Node>, t: seq<nat>, k: nat, x: Node, h: nat, i: nat, p: nat)
    requires 0 < k <= |c| == |t| && p < |t|
    reads c
  {
    && |c[p].forward| == MAX_LEVEL + 1 && t[p] <= MAX_LEVEL
    && forall l | 0 <= l <= t[p] ::
         c[p].forward[l] == if l < i then Target(c, t, k, x, h, Shift(k, p), l) else At(c, Next(t, p, l))
  }

  ghost predicate HalfNew(c: seq<Node>, t: seq<nat>, k: nat, x: Node, h: nat, i: nat)
    requires 0 < k <= |c| == |t|
    reads x
  {
    && |x.forward| == MAX_LEVEL + 1 && h <= MAX_LEVEL
    && forall l | 0 <= l < i && l <= h :: x.forward[l] == Target(c, t, k, x, h, k, l)
  }

  ghost predicate Half(c: seq<Node>, t: seq<nat>, k: nat, x: Node, h: nat, i: nat)
    reads c, x
  {
    && 0 < k <= |c| == |t| && t[0] == MAX_LEVEL
    && (forall p | 0 <= p < |c| :: HalfAt(c, t, k, x, h, i, p))
    && HalfNew(c, t, k, x, h, i)
  }

  lemma HalfStart(c: seq<Node>, t: seq<nat>, k: nat, x: Node, h: nat)
    requires 0 < k <= |c| && Linked(c, t) && t[0] == MAX_LEVEL && |x.forward| == MAX_LEVEL + 1 && h <= MAX_LEVEL
    ensures Half(c, t, k, x, h, 0)
  {
    forall p | 0 <= p < |c|
      ensures HalfAt(c, t, k, x, h, 0, p)
    {
      assert Links(c, t, p);
    }
  }

  /** When every level that x reaches leads through it, the list with x is linked. */
  lemma HalfEnd(c: seq<Node>, t: seq<nat>, k: nat, x: Node, h: nat)
    requires Half(c, t, k, x, h, h + 1)
    ensures Linked(Inserted(c, k, x), Inserted(t, k, h))
  {
    hide Inserted, Next;
    var d, u := Inserted(c, k, x), Inserted(t, k, h);
    forall q | 0 <= q < |d|
      ensures Links(d, u, q)
    {
      if q != k {
        var p := if q < k then q else q - 1;
        assert HalfAt(c, t, k, x, h, h + 1, p);
        assert d[q] == c[p] && u[q] == t[p] && q == Shift(k, p);
        forall l | 0 <= l <= t[p]
          ensures c[p].forward[l] == Target(c, t, k, x, h, q, l)
        {
          TargetOld(c, t, k, x, h, p, l);
        }
      }
    }
  }

  // ----- one node less -----

  /** The links of a remaining position when the levels below i no longer lead through x. */
  ghost predicate BackAt(c: seq<Node>, t: seq<nat>, k: nat, x: Node, h: nat, i: nat, p: nat)
    requires 0 < k <= |c| == |t| && p < |t|
    reads c
  {
    && |c[p].forward| == MAX_LEVEL + 1 && t[p] <= MAX_LEVEL
    && forall l | 0 <= l <= t[p] ::
         c[p].forward[l] == if l < i then At(c, Next(t, p, l)) else Target(c, t, k, x, h, Shift(k, p), l)
  }

  ghost predicate Back(c: seq<Node>, t: seq<nat>, k: nat, x: Node, h: nat, i: nat)
    reads c, x
  {
    && 0 < k <= |c| == |t| && t[0] == MAX_LEVEL
    && (forall p | 0 <= p < |c| :: BackAt(c, t, k, x, h, i, p))
    && HalfNew(c, t, k, x, h, h + 1)
  }

  lemma BackStart(c: seq<Node>, t: seq<nat>, k: nat, x: Node, h: nat)
    requires 0 < k <= |c| == |t| && t[0] == MAX_LEVEL && Linked(Inserted(c, k, x), Inserted(t, k, h))
    ensures Back(c, t, k, x, h, 0)
  {
    hide Inserted, Next;
    var d, u := Inserted(c, k, x), Inserted(t, k, h);
    forall p | 0 <= p < |c|
      ensures BackAt(c, t, k, x, h, 0, p)
    {
      assert Links(d, u, Shift(k, p)) && d[Shift(k, p)] == c[p] && u[Shift(k, p)] == t[p];
    }
    assert Links(d, u, k) && d[k] == x && u[k] == h;
  }

  lemma BackEnd(c: seq<Node>, t: seq<nat>, k: nat, x: Node, h: nat, i: nat)
    requires Back(c, t, k, x, h, i) && i > h
    ensures Linked(c, t)
  {
    hide Inserted, Next, Target;
    forall p | 0 <= p < |c|
      ensures Links(c, t, p)
    {
      assert BackAt(c, t, k, x, h, i, p);
      forall l | i <= l <= t[p]
        ensures c[p].forward[l] == At(c, Next(t, p, l))
      {
        TargetOld(c, t, k, x, h, p, l);
      }
    }
  }

  /** The predecessor at level i leads to x exactly when x reaches the level. */
  lemma BackTest(c: seq<Node>, t: seq<nat>, k: nat, x: Node, h: nat, i: nat)
    requires Back(c, t, k, x, h, i) && i <= MAX_LEVEL && x !in c
    ensures i < |c[Prior(t, k, i)].forward|
    ensures c[Prior(t, k, i)].forward[i] == x <==> i <= h
  {
    hide Inserted, Next, Target, Prior;
    var p := Prior(t, k, i);
    assert BackAt(c, t, k, x, h, i, p);
    TargetOld(c, t, k, x, h, p, i);
  }

  lemma ShapedRemoved(head: Node, c: seq<Node>, t: seq<nat>, keys: seq<int>, k: nat)
    requires Shaped(head, c, t, keys) && 0 < k < |c|
    ensures Shaped(head, Removed(c, k), Removed(t, k), Removed(keys, k))
    ensures c[k] !in Removed(c, k)
  {
  }

  lemma KeyedRemoved(c: seq<Node>, t: seq<nat>, keys: seq<int>, k: nat)
    requires Keyed(c, t, keys) && 0 < k < |c|
    ensures Keyed(Removed(c, k), Removed(t, k), Removed(keys, k))
  {
  }

  lemma MapRemoved(c: seq<Node>, keys: seq<int>, k: nat)
    requires Sorted(keys) && |c| == |keys| && 0 < k < |keys|
    ensures Sorted(Removed(keys, k))
    ensures MapOf(Removed(c, k), Removed(keys, k)) == MapOf(c, keys) - {keys[k]}
    ensures keys[k] in MapOf(c, keys)
  {
    hide *;
    var d, ls := Removed(c, k), Removed(keys, k);
    SortedRemoved(keys, k);
    RemovedInserted(c, k);
    RemovedInserted(keys, k);
    MapInserted(d, ls, k, c[k], keys[k]);
    PutAndTake(MapOf(d, ls), keys[k], c[k]);
  }

  lemma PutAndTake(m: map<int, Node>, key: int, x: Node)
    requires key !in m
    ensures m[key := x] - {key} == m && key in m[key := x]
  {
  }

  lemma SortedRemoved(keys: seq<int>, k: nat)
    requires Sorted(keys) && k < |keys|
    ensures Sorted(Removed(keys, k)) && |Removed(keys, k)| == |keys| - 1
    ensures k > 0 ==> Removed(keys, k)[k - 1] == keys[k - 1] < keys[k]
    ensures k < |keys| - 1 ==> keys[k] < Removed(keys, k)[k]
  {
  }

  lemma RemovedHas(c: seq<Node>, k: nat)
    requires k < |c| && Distinct(c)
    ensures forall n :: n in Removed(c, k) <==> n in c && n != c[k]
  {
    RemovedInserted(c, k);
    InsertedHas(Removed(c, k), k, c[k]);
    hide Inserted;
    assert c[k] !in Removed(c, k);
  }

  /** The first key of the map from `key` on. */
  ghost predicate Least(m: map<int, Node>, key: int, o: int) {
    o in m && o >= key && forall q <- m :: q >= key ==> o <= q
  }

  /** Taking out the first key from `key` on takes out `key` exactly when `key` is there. */
  lemma DeletesKey(m: map<int, Node>, key: int, o: int)
    requires Least(m, key, o)
    ensures m - {o} == m - {key} <==> key in m
  {
    if key !in m {
      assert o in m - {key} && o !in m - {o};
    }
  }

  lemma ShapedInserted(head: Node, c: seq<Node>, t: seq<nat>, keys: seq<int>, k: nat, x: Node, h: nat, key: nat)
    requires Shaped(head, c, t, keys) && x !in c && 0 < k <= |c|
    requires keys[k - 1] < key && (k < |keys| ==> key < keys[k])
    ensures Shaped(head, Inserted(c, k, x), Inserted(t, k, h), Inserted(keys, k, key))
  {
    SortedInserted(keys, k, key);
    var d := Inserted(c, k, x);
    hide Sorted, Inserted;
    forall p, q | 0 <= p < q < |d|
      ensures d[p] != d[q]
    {
      assert p < k ==> d[p] == c[p];
      assert p > k ==> d[p] == c[p - 1];
      assert q < k ==> d[q] == c[q];
      assert q > k ==> d[q] == c[q - 1];
    }
  }

  lemma ToppedInserted(t: seq<nat>, level: nat, k: nat, h: nat)
    requires Topped(t, level) && 0 < k <= |t| && h <= MAX_LEVEL
    ensures Topped(Inserted(t, k, h), if h > level then h else level)
  {
    var u := Inserted(t, k, h);
    if h < level {
      var q := Next(t, 0, level);
      NextReaches(u, 0, level, Shift(k, q));
    } else {
      NextReaches(u, 0, h, k);
    }
  }

  lemma KeyedInserted(c: seq<Node>, t: seq<nat>, keys: seq<int>, k: nat, x: Node)
    requires Keyed(c, t, keys) && 0 < k <= |c|
    ensures Keyed(Inserted(c, k, x), Inserted(t, k, x.height), Inserted(keys, k, x.key))
  {
  }

  class CoreSpace {
    const head: Node
    var trace: seq<Node?>
    var level: nat
    ghost var chain: seq<Node>
    ghost var tall: seq<nat>
    ghost var keys: seq<int>

    ghost predicate Valid()
      reads `chain, `tall, `keys, `level, chain`forward, chain`key, chain`height
    {
      Whole(head, chain, tall, keys, level)
    }

    constructor (head: Node)
      requires |head.forward| == MAX_LEVEL + 1 && forall i | 0 <= i <= MAX_LEVEL :: head.forward[i] == null
      ensures Valid() && this.head == head && chain == [head]
    {
      this.head, level, trace := head, 0, [];
      chain, tall, keys := [head], [MAX_LEVEL], [-1];
    }

    /** The trace is the node before the key at every level in use. */
    ghost predicate Traced(k: nat, top: nat)
      reads this
    {
      && 0 < k <= |tall| == |chain| && tall[0] == MAX_LEVEL && |trace| == MAX_LEVEL + 1 && top <= MAX_LEVEL + 1
      && forall i | 0 <= i < top :: trace[i] == chain[Prior(tall, k, i)]
    }

    lemma Facts()
      requires Valid()
      ensures 0 < |chain| == |tall| == |keys| && Sorted(keys) && keys[0] == -1 && chain[0] == head
      ensures tall[0] == MAX_LEVEL && level <= MAX_LEVEL
    {
    }

    lemma HeadIn()
      requires Valid()
      ensures head in chain
    {
    }

    /** A node's link at one of its levels. */
    lemma Link(p: nat, i: nat)
      requires Valid() && p < |tall| && i <= tall[p]
      ensures |chain| == |tall| == |keys| && i < |chain[p].forward| == MAX_LEVEL + 1
      ensures chain[p].forward[i] == At(chain, Next(tall, p, i))
      ensures forall q | 0 < q < |chain| :: chain[q].key == keys[q]
    {
      assert Links(chain, tall, p);
    }

    /** Along one level, as far as the key. */
    method Walk(from: Node, key: nat, i: nat, ghost p: nat) returns (x: Node, ghost q: nat)
      requires Valid() && p < Rank(keys, key) && from == chain[p] && i <= tall[p]
      ensures q < Rank(keys, key) && x == chain[q] && i <= tall[q] && q == Prior(tall, Rank(keys, key), i)
      ensures i == 0 ==> q + 1 == Rank(keys, key)
    {
      hide Whole, Rank, Next, Prior;
      Facts();
      ghost var k := Rank(keys, key);
      x, q := from, p;
      Link(q, i);
      while x.forward[i] != null && x.forward[i].key < key
        invariant q < k && x == chain[q] && i <= tall[q]
        invariant i < |x.forward| && x.forward[i] == At(chain, Next(tall, q, i))
        invariant forall q | 0 < q < |chain| :: chain[q].key == keys[q]
        decreases k - q
      {
        q := Next(tall, q, i);
        x := x.forward[i];
        Link(q, i);
      }
      PriorIs(tall, k, i, q);
      NextAtZero(tall, q);
    }

    /** Finds the first node whose key is not below `key`, and leaves its predecessors in `trace`. */
    method Search(key: nat) returns (r: Node?)
      requires Valid()
      modifies this`trace
      ensures Valid()
      ensures var k := Rank(keys, key); r == At(chain, k) && Traced(k, level + 1)
    {
      hide Whole, Rank, Next, Prior;
      Facts();
      ghost var k: nat, p: nat := Rank(keys, key), 0;
      trace := seq(MAX_LEVEL + 1, _ => null);
      var x, i := head, level as int;
      while i >= 0
        invariant Valid() && -1 <= i <= level <= MAX_LEVEL && |trace| == MAX_LEVEL + 1
        invariant |chain| == |tall| == |keys| && tall[0] == MAX_LEVEL
        invariant p < k <= |chain| && x == chain[p] && (i >= 0 ==> i <= tall[p])
        invariant forall l | i < l <= level :: trace[l] == chain[Prior(tall, k, l)]
        invariant i == -1 ==> p + 1 == k
      {
        x, p := Walk(x, key, i, p);
        trace := trace[i := x];
        i := i - 1;
      }
      Link(p, 0);
      r := x.forward[0];
      NextAtZero(tall, p);
    }

    /** At level i, x goes in behind its predecessor. */
    method Hook(x: Node, y: Node, i: nat, ghost k: nat, ghost h: nat)
      requires Half(chain, tall, k, x, h, i) && i <= h && x !in chain && Distinct(chain)
      requires y == chain[Prior(tall, k, i)]
      modifies x`forward, y`forward
      ensures Half(chain, tall, k, x, h, i + 1) && |x.forward| == MAX_LEVEL + 1
    {
      hide Next, Prior, Inserted, Target;
      ghost var c, t, p0 := chain, tall, Prior(tall, k, i);
      assert HalfAt(c, t, k, x, h, i, p0);
      x.forward := x.forward[i := y.forward[i]];
      y.forward := y.forward[i := x];
      TargetNew(c, t, k, x, h, i);
      assert HalfNew(c, t, k, x, h, i + 1);
      ghost var j := i + 1;
      forall p | 0 <= p < |c|
        ensures HalfAt(c, t, k, x, h, j, p)
      {
        assert old(HalfAt(c, t, k, x, h, i, p));
        if i <= t[p] {
          TargetOld(c, t, k, x, h, p, i);
        }
      }
    }

    /** The levels up to a new greatest height lead from the head. */
    method Raise(lvl: nat, ghost k: nat)
      requires Traced(k, level + 1) && Topped(tall, level) && lvl <= MAX_LEVEL && chain[0] == head
      modifies this`trace, this`level
      ensures level == if lvl > old(level) then lvl else old(level)
      ensures Traced(k, level + 1)
    {
      if lvl > level {
        for i := level + 1 to lvl + 1
          invariant Traced(k, i) && level == old(level)
        {
          PriorIs(tall, k, i, 0);
          trace := trace[i := head];
        }
        level := lvl;
      }
    }

    /** x is linked in at every level that it reaches. */
    method Join(x: Node, lvl: nat, ghost k: nat)
      requires Linked(chain, tall) && Distinct(chain) && x !in chain && |x.forward| == MAX_LEVEL + 1
      requires lvl <= MAX_LEVEL && Traced(k, lvl + 1) && Keyed(chain, tall, keys)
      modifies chain`forward, x`forward
      ensures Linked(Inserted(chain, k, x), Inserted(tall, k, lvl)) && Keyed(chain, tall, keys)
      ensures |x.forward| == MAX_LEVEL + 1
    {
      hide Half, Linked, Distinct;
      HalfStart(chain, tall, k, x, lvl);
      for i := 0 to lvl + 1
        invariant Half(chain, tall, k, x, lvl, i) && Keyed(chain, tall, keys) && |x.forward| == MAX_LEVEL + 1
      {
        Hook(x, trace[i], i, k, lvl);
      }
      HalfEnd(chain, tall, k, x, lvl);
    }

    /** At level i, the predecessor of x leads past it. */
    method Unhook(x: Node, y: Node, i: nat, ghost c: seq<Node>, ghost t: seq<nat>, ghost k: nat, ghost h: nat)
      requires Back(c, t, k, x, h, i) && i <= h && x !in c && Distinct(c)
      requires y == c[Prior(t, k, i)]
      modifies y`forward
      ensures Back(c, t, k, x, h, i + 1)
    {
      hide Next, Prior, Inserted, Target;
      assert BackAt(c, t, k, x, h, i, Prior(t, k, i));
      TargetNew(c, t, k, x, h, i);
      y.forward := y.forward[i := x.forward[i]];
      ghost var j := i + 1;
      forall p | 0 <= p < |c|
        ensures BackAt(c, t, k, x, h, j, p)
      {
        assert old(BackAt(c, t, k, x, h, i, p));
        if i <= t[p] {
          TargetOld(c, t, k, x, h, p, i);
        }
      }
      assert HalfNew(c, t, k, x, h, h + 1);
    }

    /** x is taken out of every level it reaches. */
    method Part(x: Node, ghost c: seq<Node>, ghost t: seq<nat>, ghost ks: seq<int>, ghost k: nat, ghost h: nat)
      requires 0 < k <= |c| == |t| && t[0] == MAX_LEVEL && Linked(Inserted(c, k, x), Inserted(t, k, h))
      requires x !in c && Distinct(c) && h <= level <= MAX_LEVEL && |trace| == MAX_LEVEL + 1
      requires forall i | 0 <= i <= level :: trace[i] == c[Prior(t, k, i)]
      requires Keyed(c, t, ks)
      modifies c`forward
      ensures Linked(c, t) && Keyed(c, t, ks)
    {
      hide Back, Linked, Distinct, Prior;
      BackStart(c, t, k, x, h);
      var i := 0;
      while i <= level
        invariant i <= h + 1 && Back(c, t, k, x, h, i) && Keyed(c, t, ks)
        decreases level + 1 - i
      {
        BackTest(c, t, k, x, h, i);
        if trace[i].forward[i] != x {
          break;
        }
        Unhook(x, trace[i], i, c, t, k, h);
        i := i + 1;
      }
      BackEnd(c, t, k, x, h, i);
    }

    ghost function View(): map<int, Node>
      reads `chain, `tall, `keys, `level, chain`forward, chain`key, chain`height
      requires Valid()
    {
      MapOf(chain, keys)
    }

    /** The new node is a part of the list. */
    ghost method Grow(k: nat, x: Node, lvl: nat)
      requires Shaped(head, chain, tall, keys) && Keyed(chain, tall, keys)
      requires x !in chain && x.height == lvl <= MAX_LEVEL && 0 < k <= |chain|
      requires keys[k - 1] < x.key && (k < |keys| ==> x.key < keys[k])
      requires Linked(Inserted(chain, k, x), Inserted(tall, k, lvl)) && Topped(Inserted(tall, k, lvl), level)
      modifies this`chain, this`tall, this`keys
      ensures Valid() && x in chain && (forall n :: n in chain <==> n in old(chain) || n == x)
      ensures MapOf(chain, keys) == MapOf(old(chain), old(keys))[x.key as int := x]
      ensures x.key !in MapOf(old(chain), old(keys))
    {
      hide Inserted, Linked, Topped, MapOf, Sorted, Distinct;
      ShapedInserted(head, chain, tall, keys, k, x, lvl, x.key);
      KeyedInserted(chain, tall, keys, k, x);
      MapInserted(chain, keys, k, x, x.key);
      InsertedHas(chain, k, x);
      chain, tall, keys := Inserted(chain, k, x), Inserted(tall, k, lvl), Inserted(keys, k, x.key);
    }

    /** The node y, or a new one, is set up and linked in at rank k. */
    method Add(key: nat, y: Node?, lvl: nat, ghost k: nat) returns (x: Node)
      requires Valid() && lvl <= MAX_LEVEL && Traced(k, level + 1)
      requires 0 < k <= |chain| && keys[k - 1] < key && (k < |keys| ==> key < keys[k])
      requires y != null ==> y !in chain && |y.forward| == MAX_LEVEL + 1
      modifies this, chain`forward, if y == null then {} else {y}
      ensures Valid()
      ensures key !in old(View()) && View() == old(View())[key as int := x] && x.key == key && x.height == lvl
      ensures |x.forward| == MAX_LEVEL + 1
      ensures forall n :: n in chain <==> n in old(chain) || n == x
      ensures if y != null then x == y && y.holders == old(y.holders) && y.user == old(y.user)
              else fresh(x) && x.holders == {}
    {
      hide Linked, Topped, Distinct, MapOf, Sorted, Inserted, Keyed, Traced;
      ToppedInserted(tall, level, k, lvl);
      Raise(lvl, k);
      TracedLess(k, level + 1, lvl + 1);
      if y != null {
        x := y;
        x.height := lvl;
        x.key := key;
      } else {
        x := new Node(lvl, key);
      }
      Join(x, lvl, k);
      Grow(k, x, lvl);
    }

    lemma TracedLess(k: nat, top: nat, less: nat)
      requires Traced(k, top) && less <= top
      ensures Traced(k, less)
    {
    }

    /** A key that is not in the list is put there, on the node y or on a new one. A key that is there
        keeps its node. */
    method Insert(key: nat, y: Node?, lvl: nat) returns (x: Node)
      requires Valid() && lvl <= MAX_LEVEL
      requires y != null ==> y !in chain && |y.forward| == MAX_LEVEL + 1
      modifies this, chain`forward, if y == null then {} else {y}
      ensures Valid()
      ensures key in old(View()) ==> x == old(View())[key] && View() == old(View()) && chain == old(chain)
      ensures key !in old(View()) ==>
                && View() == old(View())[key as int := x] && x.key == key && x.height == lvl
                && |x.forward| == MAX_LEVEL + 1
                && (forall n :: n in chain <==> n in old(chain) || n == x)
                && (y != null ==> x == y) && (y == null ==> fresh(x) && x.holders == {})
      ensures y != null ==> y.holders == old(y.holders) && y.user == old(y.user)
    {
      hide Whole, Rank, MapOf, Traced;
      Facts();
      ghost var k := Rank(keys, key);
      MapRank(chain, keys, key);
      RankBounds(keys, key);
      var z := Search(key);
      ReadKey(k);
      if z == null || z.key != key {
        x := Add(key, y, lvl, k);
      } else {
        x := z;
      }
    }

    /** The level falls to the greatest height left. */
    method Lower()
      requires Linked(chain, tall) && Shaped(head, chain, tall, keys)
      requires level <= MAX_LEVEL && forall p | 0 < p < |tall| :: tall[p] <= level
      modifies this`level
      ensures Topped(tall, level)
    {
      assert Links(chain, tall, 0);
      while level > 0 && head.forward[level] == null
        invariant level <= MAX_LEVEL && forall p | 0 < p < |tall| :: tall[p] <= level
      {
        assert Next(tall, 0, level) == |tall|;
        level := level - 1;
      }
    }

    /** What is left without position k. */
    lemma Split(k: nat)
      requires Valid() && 0 < k < |chain| && Traced(k, level + 1)
      ensures var c, t, ks := Removed(chain, k), Removed(tall, k), Removed(keys, k);
              && 0 < k <= |c| == |t| && Shaped(head, c, t, ks) && Keyed(c, t, ks)
              && chain[k] !in c && chain == Inserted(c, k, chain[k]) && tall == Inserted(t, k, tall[k])
              && tall[k] <= level && (forall p | 0 < p < |t| :: t[p] <= level)
              && (forall i | 0 <= i <= level :: trace[i] == c[Prior(t, k, i)])
              && chain[k].key == keys[k]
    {
      hide Removed, Inserted, Sorted, Prior, Linked, Distinct, Next;
      ShapedRemoved(head, chain, tall, keys, k);
      KeyedRemoved(chain, tall, keys, k);
      RemovedInserted(chain, k);
      RemovedInserted(tall, k);
      var c, t := Removed(chain, k), Removed(tall, k);
      forall i | 0 <= i <= level
        ensures trace[i] == c[Prior(t, k, i)]
      {
        PriorInserted(t, k, tall[k], i);
        assert c[Shift(k, Prior(t, k, i))] == chain[Prior(t, k, i)];
      }
    }

    /** The node at rank k is taken out. */
    method Remove(x: Node, ghost k: nat)
      requires Valid() && 0 < k < |chain| && Traced(k, level + 1) && x == chain[k]
      modifies this, chain`forward
      ensures Valid() && old(keys[k] as int) in old(View()) && View() == old(View()) - {old(keys[k] as int)}
      ensures x.forward == old(x.forward) && x.key == old(keys[k])
      ensures forall n :: n in chain <==> n in old(chain) && n != x
    {
      hide Removed, Inserted, Sorted, Prior, Linked, Distinct, Next, MapOf, Keyed;
      ghost var c, t, ks := Removed(chain, k), Removed(tall, k), Removed(keys, k);
      Split(k);
      MapRemoved(chain, keys, k);
      RemovedHas(chain, k);
      Part(x, c, t, ks, k, tall[k]);
      chain, tall, keys := c, t, ks;
      Lower();
    }

    /** Takes out the node of the first key from `key` on, whether or not that is `key` itself. If there
        is none, nothing changes. */
    method Delete(key: nat, destroy: bool) returns (r: Node?)
      requires Valid()
      modifies this, chain`forward
      ensures Valid()
      ensures forall o | Least(old(View()), key, o) ::
                && View() == old(View()) - {o}
                && r == (if destroy then null else old(View())[o])
                && forall n :: n in chain <==> n in old(chain) && n != old(View())[o]
      ensures (forall o <- old(View()) :: o < key) ==> r == null && View() == old(View()) && chain == old(chain)
      ensures forall n <- old(chain) :: |n.forward| == MAX_LEVEL + 1
    {
      hide Whole, Rank, MapOf, Traced;
      Facts();
      ghost var k := Rank(keys, key);
      MapRank(chain, keys, key);
      RankBounds(keys, key);
      r := Search(key);
      Widths();
      if r != null {
        Remove(r, k);
        Widths();
        if destroy {
          r := null;
        }
      }
    }

    lemma Widths()
      requires Valid()
      ensures forall n <- chain :: |n.forward| == MAX_LEVEL + 1
    {
      forall p | 0 <= p < |chain|
        ensures |chain[p].forward| == MAX_LEVEL + 1
      {
        assert Links(chain, tall, p);
      }
    }

    method Contains(key: nat) returns (r: Node?)
      requires Valid()
      modifies this`trace
      ensures Valid()
      ensures r == if key in View() then View()[key] else null
    {
      hide Whole, Rank, MapOf, Traced;
      Facts();
      MapRank(chain, keys, key);
      ReadKey(Rank(keys, key));
      r := Search(key);
      if r != null && r.key != key {
        r := null;
      }
    }

    /** The node of the first key in [b, e). */
    method Interval(b: nat, e: nat) returns (r: Node?)
      requires Valid()
      modifies this`trace
      ensures Valid()
      ensures r == null <==> forall o <- View() :: !(b <= o < e)
      ensures r != null ==> b <= r.key < e && Least(View(), b, r.key) && View()[r.key as int] == r
    {
      hide Whole, Rank, MapOf, Traced;
      Facts();
      MapRank(chain, keys, b);
      ReadKey(Rank(keys, b));
      r := Search(b);
      assert r != null ==> r.key as int in View();
      if r != null && !(b <= r.key < e) {
        r := null;
      }
    }

    /** x gets another key, unless that is taken. */
    method Move(x: Node, key: nat, lvl: nat) returns (r: Node?)
      requires Valid() && x in chain && x != head && lvl <= MAX_LEVEL
      modifies this, chain
      ensures Valid() && forall n :: n in chain <==> n in old(chain)
      ensures old(x.key) in old(View()) && old(View())[old(x.key as int)] == x
      ensures forall n <- chain ::
                n.holders == old(n.holders) && n.user == old(n.user) && (n != x ==> n.key == old(n.key))
      ensures key in old(View()) ==> r == null && View() == old(View()) && x.key == old(x.key)
      ensures key !in old(View()) ==>
                && r == x && x.key == key && x.height == lvl
                && View() == (old(View()) - {old(x.key as int)})[key as int := x]
    {
      hide Whole, Rank, MapOf;
      KeyOf(x);
      var y := Contains(key);
      if y != null {
        return null;
      }
      ghost var m, key0 := View(), x.key as int;
      assert Least(m, key0, key0);
      var z := Delete(x.key, false);
      assert z == x && z in old(chain);
      assert forall p | 0 <= p < |chain| :: chain[p] in old(chain);
      r := Insert(key, z, lvl);
    }

    /** What the map holds is in the list, under its own key. */
    lemma InList(o: int)
      requires Valid() && o in View()
      ensures o >= 0 && View()[o] in chain && View()[o] != head && View()[o].key == o
    {
      var p :| 0 < p < |keys| && keys[p] == o;
      assert chain[p] == View()[o];
    }

    /** Every node is where its key says. */
    lemma KeyOf(x: Node)
      requires Valid() && x in chain && x != head
      ensures x.key as int in View() && View()[x.key as int] == x && Least(View(), x.key, x.key)
    {
      var p :| 0 <= p < |chain| && chain[p] == x;
      assert keys[p] in View();
    }

    lemma ReadKey(k: nat)
      requires Valid() && 0 < k
      ensures |chain| == |keys| && (k < |chain| ==> chain[k].key == keys[k])
    {
    }
  }

  lemma InsertedHas(c: seq<Node>, k: nat, x: Node)
    requires k <= |c|
    ensures forall n :: n in Inserted(c, k, x) <==> n in c || n == x
  {
    var d := Inserted(c, k, x);
    assert d[k] == x;
    forall n | n in c
      ensures n in d
    {
      var p :| 0 <= p < |c| && c[p] == n;
      assert d[Shift(k, p)] == n;
    }
  }

  lemma RankBounds(keys: seq<int>, key: nat)
    requires Sorted(keys) && keys != [] && keys[0] == -1
    ensures var k := Rank(keys, key); 0 < k <= |keys| && keys[k - 1] < key && (k < |keys| ==> key <= keys[k])
  {
  }

  lemma NextAtZero(t: seq<nat>, p: nat)
    requires p < |t|
    ensures Next(t, p, 0) == p + 1
  {
  }
}