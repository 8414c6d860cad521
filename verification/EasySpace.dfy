/** The block allocator `EasySpace` on top of the skip list: nodes are blocks, the list holds the blocks in
    use under their keys, and the others wait in a queue. Every method is proved against the step of
    Space that it performs, for any heights drawn. */
module EasySpace {
  import opened Sequences
  import opened SkipList
  import opened Levels
  import opened Markers
  import opened Space

  /** The nodes carry what the abstract state says. */
  ghost predicate BlockAt(s: State, blocks: seq<Node>, i: nat)
    requires i < |blocks| == |s.blocks|
    reads blocks`key, blocks`holders, blocks`forward
  {
    && blocks[i].key == Key(s, i) && blocks[i].holders == s.blocks[i].holders
    && |blocks[i].forward| == MAX_LEVEL + 1
  }

  ghost predicate Backed(s: State, blocks: seq<Node>, free: seq<Node>)
    reads blocks`key, blocks`holders, blocks`forward
  {
    && |blocks| == |s.blocks| && |free| == |s.free|
    && (forall i | 0 <= i < |blocks| :: BlockAt(s, blocks, i))
    && (forall j | 0 <= j < |free| :: s.free[j] < |blocks| && free[j] == blocks[s.free[j]])
  }

  /** The list holds exactly the blocks that somebody holds. */
  ghost predicate Indexed(s: State, blocks: seq<Node>, head: Node, chain: seq<Node>)
    requires |blocks| == |s.blocks|
  {
    && head !in blocks
    && (forall n | n in chain :: n == head || n in blocks)
    && (forall i | 0 <= i < |blocks| :: blocks[i] in chain <==> s.blocks[i].holders != {})
  }

  lemma KeyOfBlock(s: State, i: nat)
    requires Inv(s) && i < |s.blocks|
    ensures Unpack(Key(s, i)) == Uni(s.blocks[i].log, i, 0)
  {
    assert BlockOk(s.blocks[i], s.last);
    UnpackPack(Uni(s.blocks[i].log, i, 0));
  }

  /** Different blocks are different nodes. */
  lemma DistinctBlocks(s: State, blocks: seq<Node>, free: seq<Node>, i: nat, j: nat)
    requires Inv(s) && Backed(s, blocks, free) && i < |blocks| && j < |blocks| && blocks[i] == blocks[j]
    ensures i == j
  {
    assert BlockAt(s, blocks, i) && BlockAt(s, blocks, j);
    KeyOfBlock(s, i);
    KeyOfBlock(s, j);
  }

  /** One block changes: it is in the list afterwards exactly if somebody holds it. */
  lemma IndexedChange(s: State, t: State, blocks: seq<Node>, head: Node, chain: seq<Node>, later: seq<Node>, p: nat)
    requires |blocks| == |s.blocks| == |t.blocks| && p < |blocks| && Indexed(s, blocks, head, chain)
    requires forall i | 0 <= i < |blocks| && i != p :: t.blocks[i] == s.blocks[i] && blocks[i] != blocks[p]
    requires forall n | n in later :: n in chain || n == blocks[p]
    requires forall n | n in chain :: n in later || n == blocks[p]
    requires blocks[p] in later <==> t.blocks[p].holders != {}
    ensures Indexed(t, blocks, head, later)
  {
  }

  /** The queue of free blocks, as nodes. */
  ghost predicate Queued(s: State, blocks: seq<Node>, free: seq<Node>) {
    |free| == |s.free| && forall j | 0 <= j < |free| :: s.free[j] < |blocks| && free[j] == blocks[s.free[j]]
  }

  lemma BackedIf(s: State, blocks: seq<Node>, free: seq<Node>)
    requires |blocks| == |s.blocks| && Queued(s, blocks, free)
    requires forall i | 0 <= i < |blocks| :: BlockAt(s, blocks, i)
    ensures Backed(s, blocks, free)
  {
  }

  lemma OtherBlocks(s: State, blocks: seq<Node>, free: seq<Node>, p: nat)
    requires Inv(s) && Backed(s, blocks, free) && p < |blocks|
    ensures forall i | 0 <= i < |blocks| && i != p :: blocks[i] != blocks[p]
    ensures forall i | 0 <= i < |blocks| :: BlockAt(s, blocks, i)
  {
    forall i | 0 <= i < |blocks| && blocks[i] == blocks[p]
      ensures i == p
    {
      DistinctBlocks(s, blocks, free, i, p);
    }
  }

  lemma NotCurrent(s: State, m: nat)
    requires Inv(s) && Unpack(m).log > s.last
    ensures !Current(s, m)
  {
    var p := Unpack(m).pos;
    if p < |s.blocks| {
      KeyOfBlock(s, p);
      assert BlockOk(s.blocks[p], s.last);
    }
  }

  lemma StartBacked(n: nat, blocks: seq<Node>, free: seq<Node>, head: Node)
    requires |blocks| == n && head !in blocks
    requires AllBlank(blocks) && Backwards(blocks, free)
    ensures Backed(Start(n), blocks, free) && Indexed(Start(n), blocks, head, [head])
  {
    BlankIs(blocks);
    forall i | 0 <= i < n
      ensures BlockAt(Start(n), blocks, i)
    {
      assert Blank(blocks[i], i);
    }
  }

  ghost predicate Blank(b: Node, k: nat)
    reads b
  {
    b.key == Pack(Uni(1, k, 0)) && b.holders == {} && |b.forward| == MAX_LEVEL + 1
  }

  ghost predicate AllBlank(blocks: seq<Node>)
    reads blocks
  {
    forall k | 0 <= k < |blocks| :: Blank(blocks[k], k)
  }

  /** The last block comes first. */
  ghost predicate Backwards(blocks: seq<Node>, free: seq<Node>) {
    |free| == |blocks| && forall j | 0 <= j < |free| :: free[j] == blocks[|free| - 1 - j]
  }

  lemma BlankIs(blocks: seq<Node>)
    requires AllBlank(blocks)
    ensures forall k | 0 <= k < |blocks| :: blocks[k].key == Pack(Uni(1, k, 0)) && blocks[k].holders == {}
  {
    hide Pack;
    forall k | 0 <= k < |blocks|
      ensures blocks[k].key == Pack(Uni(1, k, 0)) && blocks[k].holders == {}
    {
      assert Blank(blocks[k], k);
    }
  }

  class EasySpace {
    const core: CoreSpace
    var blocks: seq<Node>
    var free: seq<Node>
    var last: nat
    ghost var abs: State

    ghost predicate Valid()
      reads this, core`chain, core`tall, core`keys, core`level
      reads core.chain`forward, core.chain`key, core.chain`height
      reads blocks`key, blocks`holders, blocks`forward
    {
      && core.Valid() && last == abs.last && Inv(abs)
      && Backed(abs, blocks, free) && Indexed(abs, blocks, core.head, core.chain)
    }

    constructor (n: nat)
      requires n <= MAX_BLOCK_COUNT
      ensures Valid() && abs == Start(n)
      ensures |blocks| == n && last == 1 && Backwards(blocks, free)
      ensures forall j | 0 <= j < n :: blocks[j].holders == {} && blocks[j].key == Pack(Uni(1, j, 0))
    {
      hide CoreSpace.Valid, Inv, Pack, Start, Backed, Indexed, AllBlank, Backwards;
      var head := new Node(MAX_LEVEL, 0);
      core := new CoreSpace(head);
      var bs, fs := MakeBlocks(n);
      last, blocks, free, abs := 1, bs, fs, Start(n);
      new;
      LastOne(n);
      StartInv(n);
      StartBacked(n, blocks, free, core.head);
      BlankIs(blocks);
    }

    lemma LastOne(n: nat)
      ensures Start(n).last == 1
    {
    }

    /** Every new block is linked in at the front of the queue of free blocks. */
    static method MakeBlocks(n: nat) returns (blocks: seq<Node>, free: seq<Node>)
      ensures |blocks| == n && AllBlank(blocks) && Backwards(blocks, free)
      ensures forall k | 0 <= k < n :: fresh(blocks[k])
    {
      hide Pack;
      blocks, free := [], [];
      for i := 0 to n
        invariant |blocks| == i && AllBlank(blocks) && Backwards(blocks, free)
        invariant forall k | 0 <= k < i :: fresh(blocks[k])
      {
        var node := new Node(0, Pack(Uni(1, i, 0)));
        blocks := blocks + [node];
        free := [node] + free;
      }
    }

    /** What the list finds under a marker. */
    lemma Lookup(m: nat)
      requires Valid()
      ensures m in core.View() <==> Current(abs, m)
      ensures Current(abs, m) ==> core.View()[m] == blocks[Unpack(m).pos] && Unpack(m).shift == 0
    {
      hide CoreSpace.Valid, CoreSpace.View, Inv, Pack, Unpack;
      if m in core.View() {
        core.InList(m);
        var n := core.View()[m];
        var i: nat :| i < |blocks| && blocks[i] == n;
        assert BlockAt(abs, blocks, i);
        KeyOfBlock(abs, i);
      }
      if Current(abs, m) {
        var p := Unpack(m).pos;
        assert BlockAt(abs, blocks, p);
        KeyOfBlock(abs, p);
        core.KeyOf(blocks[p]);
      }
    }

    /** The next version of a block fits no block. */
    lemma NotYet(p: nat)
      requires Valid() && p < MAX_BLOCK_COUNT && last + 1 < LOGS
      ensures Pack(Uni(last + 1, p, 0)) !in core.View() && Unpack(Pack(Uni(last + 1, p, 0))) == Uni(last + 1, p, 0)
    {
      var m := Pack(Uni(last + 1, p, 0));
      UnpackPack(Uni(last + 1, p, 0));
      Lookup(m);
      NotCurrent(abs, m);
    }

    /** A block in use gets its next version. */
    method Renew(y: Node, m: nat, lvl: nat)
      requires Valid() && Current(abs, m) && y == blocks[Unpack(m).pos] && lvl <= MAX_LEVEL && last + 1 < LOGS
      modifies this, core, core.chain
      ensures Valid() && abs == Space.Write(old(abs), m).0 && blocks == old(blocks) && free == old(free)
      ensures y.key == Space.Write(old(abs), m).1
    {
      hide CoreSpace.Valid, CoreSpace.View, Inv, Pack, Unpack;
      ghost var s, t, p := abs, Space.Write(abs, m).0, Unpack(m).pos;
      WriteInv(s, m);
      Lookup(m);
      NotYet(p);
      forall i: nat | i < |blocks| && blocks[i] == y
        ensures i == p
      {
        DistinctBlocks(s, blocks, free, i, p);
      }
      last := last + 1;
      var r := core.Move(y, Pack(Unpack(m).(log := last)), lvl);
      core.Widths();
      forall i | 0 <= i < |blocks|
        ensures BlockAt(t, blocks, i)
      {
        assert old(BlockAt(s, blocks, i));
      }
      abs := t;
    }

    /** The first free block goes to the caller. */
    method Reuse(m: nat, lvl: nat) returns (y: Node)
      requires Valid() && !Current(abs, m) && free != [] && lvl <= MAX_LEVEL && last + 1 < LOGS
      modifies this, core, core.chain, blocks
      ensures Valid() && abs == Space.Write(old(abs), m).0 && blocks == old(blocks)
      ensures y == old(free)[0] && free == old(free)[1..]
      ensures y in blocks && y.key == Space.Write(old(abs), m).1
    {
      hide CoreSpace.Valid, CoreSpace.View, Inv, Pack, Unpack, Space.Write, Current, Backed, Indexed;
      SizeOk();
      ghost var s, t, p := abs, Space.Write(abs, m).0, abs.free[0];
      WriteInv(s, m);
      FreeHead(s);
      KeyOfBlock(s, p);
      NotYet(p);
      y := free[0];
      Queues(p);
      OtherBlocks(s, blocks, free, p);
      free := free[1..];
      last := last + 1;
      var x := core.Insert(Pack(Unpack(y.key).(log := last)), y, lvl);
      y.holders := {0};
      core.Widths();
      forall i | 0 <= i < |blocks|
        ensures BlockAt(t, blocks, i)
      {
        assert old(BlockAt(s, blocks, i));
      }
      IndexedChange(s, t, blocks, core.head, old(core.chain), core.chain, p);
      BackedIf(t, blocks, free);
      abs := t;
    }

    lemma Queues(p: nat)
      requires Valid() && p < |blocks|
      ensures Queued(abs, blocks, free) && |blocks| == |abs.blocks|
      ensures blocks[p] in core.chain <==> abs.blocks[p].holders != {}
      ensures blocks[p] != core.head && |blocks[p].forward| == MAX_LEVEL + 1 && blocks[p].key == Key(abs, p)
      ensures blocks[p].holders == abs.blocks[p].holders
    {
      assert BlockAt(abs, blocks, p);
    }

    lemma FreeHead(s: State)
      requires Inv(s) && s.free != []
      ensures var p := s.free[0];
              && p < |s.blocks| <= MAX_BLOCK_COUNT && s.blocks[p].holders == {}
              && forall m | !Current(s, m) ::
                   Space.Write(s, m) == (State(s.last + 1, s.blocks[p := Block(s.last + 1, {0})], s.free[1..]),
                                         Pack(Uni(s.last + 1, p, 0)))
    {
      assert s.free[0] in s.free;
    }

    /** There is no free block: the caller gets a new one. */
    method Append(m: nat, lvl: nat) returns (y: Node)
      requires Valid() && !Current(abs, m) && free == [] && |blocks| < MAX_BLOCK_COUNT
      requires lvl <= MAX_LEVEL && last + 1 < LOGS
      modifies this, core, core.chain
      ensures Valid() && abs == Space.Write(old(abs), m).0 && blocks == old(blocks) + [y] && free == []
      ensures fresh(y) && y.key == Space.Write(old(abs), m).1
    {
      hide CoreSpace.Valid, CoreSpace.View, Inv, Pack, Unpack;
      ghost var s, t, p := abs, Space.Write(abs, m).0, |blocks|;
      WriteInv(s, m);
      NotYet(p);
      last := last + 1;
      y := core.Insert(Pack(Uni(last, |blocks|, 0)), null, lvl);
      blocks := blocks + [y];
      y.holders := {0};
      core.Widths();
      forall i | 0 <= i < |blocks|
        ensures BlockAt(t, blocks, i)
      {
        if i < p {
          assert old(BlockAt(s, blocks, i));
        }
      }
      abs := t;
    }

    /** `EasySpace::Write`. */
    method Write(m: nat, lvl: nat) returns (y: Node?, r: nat)
      requires Valid() && lvl <= MAX_LEVEL && last + 1 < LOGS
      modifies this, core, core.chain, blocks
      ensures Valid() && (abs, r) == Space.Write(old(abs), m)
      ensures if r == 0 then y == null else y != null && y in blocks && y.key == r
      ensures !Current(old(abs), m) && old(free) != [] ==> y == old(free)[0] && free == old(free)[1..]
      ensures Current(old(abs), m) || old(free) == [] ==> free == old(free)
    {
      hide CoreSpace.Valid, CoreSpace.View, Inv, Pack, Unpack;
      Lookup(m);
      y := core.Contains(m);
      if y != null && m > 0 {
        Renew(y, m, lvl);
      } else {
        Zero();
        if free == [] {
          if |blocks| < MAX_BLOCK_COUNT {
            y := Append(m, lvl);
          } else {
            return null, 0;
          }
        } else {
          y := Reuse(m, lvl);
        }
      }
      WritesKey(old(abs), m);
      r := y.key;
    }

    /** `Allocator::Aquare`: who asks with 0 or an owner's marker writes, anybody else reads. */
    method Aquare(m: nat, lvl: nat) returns (y: Node?, r: nat)
      requires Valid() && lvl <= MAX_LEVEL && last + 1 < LOGS
      modifies this, core, core.chain, blocks
      ensures Valid() && (abs, r) == Space.Aquare(old(abs), m)
      ensures m == 0 || Unpack(m).shift == 0 ==>
                && (r != 0 <==> Current(old(abs), m) || old(free) != [] || old(|blocks|) < MAX_BLOCK_COUNT)
                && (r != 0 ==> y != null && y in blocks && y.key == r && Current(abs, r))
      ensures m != 0 && Unpack(m).shift != 0 ==> y == null && r == 0
    {
      CurrentIsOwner(abs, m);
      hide CoreSpace.Valid, CoreSpace.View, Inv, Pack, Unpack, Current, Space.Write, Space.Read, Backed, Indexed;
      SizeOk();
      if m == 0 || Unpack(m).shift == 0 {
        InvOk();
        AquareHandsOut(abs, m);
        y, r := Write(m, lvl);
      } else {
        AquareNeverReads(abs, m);
        y, r := Read(m);
      }
    }

    lemma InvOk()
      requires Valid()
      ensures Inv(abs) && last == abs.last
    {
    }

    /** 0 is nobody's marker. */
    lemma Zero()
      requires Valid()
      ensures !Current(abs, 0)
    {
      assert Unpack(0) == Uni(0, 0, 0);
      if |abs.blocks| > 0 {
        KeyOfBlock(abs, 0);
        assert BlockOk(abs.blocks[0], abs.last);
      }
    }

    /** `EasySpace::Read`: the holder numbers are tried one after the other, 0 after 63. It returns only
        if one is left. */
    method Read(m: nat) returns (x: Node?, r: nat)
      requires Valid() && Room(abs, m)
      modifies this, core, blocks`holders
      ensures Valid() && (abs, r) == Space.Read(old(abs), m) && blocks == old(blocks)
      ensures if Current(old(abs), m) then x != null && x == blocks[Unpack(m).pos] else x == null
    {
      hide CoreSpace.Valid, CoreSpace.View, Inv, Pack, Unpack, Current, Backed, Indexed;
      Lookup(m);
      Zero();
      x := core.Contains(m);
      if x == null || m == 0 {
        return null, 0;
      }
      r := Share(x, m);
    }

    /** A block in use gets one more holder. */
    method Share(x: Node, m: nat) returns (r: nat)
      requires Valid() && Current(abs, m) && Room(abs, m) && x == blocks[Unpack(m).pos]
      modifies this, blocks`holders
      ensures Valid() && (abs, r) == Space.Read(old(abs), m) && blocks == old(blocks)
    {
      hide CoreSpace.Valid, CoreSpace.View, Inv, Pack, Unpack, Backed, Indexed, Vacant;
      ghost var s, t, p := abs, Space.Read(abs, m).0, Unpack(m).pos;
      ReadInv(s, m);
      SizeOk();
      Queues(p);
      OtherBlocks(s, blocks, free, p);
      var bit := Pick(x);
      x.holders := x.holders + {bit};
      r := Pack(Unpack(m).(shift := bit));
      forall i | 0 <= i < |blocks|
        ensures BlockAt(t, blocks, i)
      {
        assert old(BlockAt(s, blocks, i));
      }
      IndexedChange(s, t, blocks, core.head, core.chain, core.chain, p);
      BackedIf(t, blocks, free);
      abs := t;
    }

    lemma SizeOk()
      requires Valid()
      ensures |blocks| == |abs.blocks| && |free| == |abs.free|
    {
    }

    /** From one holder number to the next. */
    lemma VacantStep(h: set<nat>)
      ensures forall b: nat | 1 <= b < 64 && b in h :: Vacant(h, b) == Vacant(h, b + 1)
      ensures forall b: nat | 1 <= b < 64 && b !in h :: Vacant(h, b) == b
      ensures Vacant(h, 64) == if 0 in h then 64 else 0
    {
    }

    method Pick(x: Node) returns (shift: nat)
      requires Vacant(x.holders, 1) < 64
      ensures shift == Vacant(x.holders, 1)
    {
      VacantStep(x.holders);
      hide Vacant;
      shift := 1;
      while shift in x.holders
        invariant 0 <= shift < 64
        invariant Vacant(x.holders, 1) == Vacant(x.holders, if shift == 0 then 64 else shift)
        decreases if shift == 0 then 0 else 64 - shift
      {
        shift := if shift == 63 then 0 else shift + 1;
      }
    }

    /** `EasySpace::Free`. A position beyond the blocks raises an exception and changes nothing. */
    method Free(m: nat) returns (ok: bool)
      requires Valid()
      modifies this, core, core.chain`forward, blocks`holders
      ensures Valid() && abs == Space.Free(old(abs), m) && blocks == old(blocks)
      ensures ok <==> m == 0 || Unpack(m).pos < |blocks|
      ensures free == if m != 0 && Unpack(m).pos < |blocks| && old(blocks[Unpack(m).pos].holders) == {Unpack(m).shift}
                      then old(free) + [blocks[Unpack(m).pos]] else old(free)
    {
      hide CoreSpace.Valid, CoreSpace.View, Inv, Pack, Unpack;
      ok := true;
      if m > 0 {
        var u := Unpack(m);
        if u.pos >= |blocks| {
          return false;
        }
        var x := blocks[u.pos];
        assert BlockAt(abs, blocks, u.pos);
        if u.shift in x.holders {
          Release(x, m);
        }
      }
    }

    method Release(x: Node, m: nat)
      requires Valid() && m != 0 && Unpack(m).pos < |blocks| && x == blocks[Unpack(m).pos]
               && Unpack(m).shift in x.holders
      requires x.holders == abs.blocks[Unpack(m).pos].holders
      modifies this, core, core.chain`forward, blocks`holders
      ensures Valid() && abs == Space.Free(old(abs), m) && blocks == old(blocks)
      ensures free == if old(x.holders) == {Unpack(m).shift} then old(free) + [x] else old(free)
    {
      hide CoreSpace.Valid, CoreSpace.View, Inv, Pack, Unpack, Backed, Indexed;
      ghost var s, t, p := abs, Space.Free(abs, m), Unpack(m).pos;
      FreeInv(s, m);
      SizeOk();
      Queues(p);
      OtherBlocks(s, blocks, free, p);
      x.holders := x.holders - {Unpack(m).shift};
      if x.holders == {} {
        free := free + [x];
        core.KeyOf(x);
        var z := core.Delete(x.key, false);
      }
      forall i | 0 <= i < |blocks|
        ensures BlockAt(t, blocks, i)
      {
        assert old(BlockAt(s, blocks, i));
      }
      IndexedChange(s, t, blocks, core.head, old(core.chain), core.chain, p);
      BackedIf(t, blocks, free);
      abs := t;
    }
  }
}
