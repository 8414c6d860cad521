/** The block allocator `EasySpace`, without its index: blocks with a version and a set of holders, a
    queue of free blocks, and markers that name a version of a block and one of its holders. */
module Space {
  import opened Sequences
  import opened Markers

  // ----- states and steps -----

  datatype Block = Block(log: nat, holders: set<nat>)

  datatype State = State(last: nat, blocks: seq<Block>, free: seq<nat>)

  /** The constructor links every block in behind the head, so the last one comes first. */
  function Start(n: nat): State {
    State(1, seq(n, _ => Block(1, {})), seq(n, i requires 0 <= i < n => n - 1 - i))
  }

  /** The marker of a block that is in use, with holder 0: the key it is indexed by. */
  function Key(s: State, p: nat): nat
    requires p < |s.blocks|
  {
    Pack(Uni(s.blocks[p].log, p, 0))
  }

  /** m is the key of a block in use. */
  predicate Current(s: State, m: nat) {
    var p := Unpack(m).pos;
    p < |s.blocks| && s.blocks[p].holders != {} && Key(s, p) == m
  }

  /** `EasySpace::Write`: a current marker gets the next version of its block and the holders stay; any
      other gets a block of its own, a free one or a new one. The marker 0 says that there is none. */
  function Write(s: State, m: nat): (r: (State, nat)) {
    var log := s.last + 1;
    if Current(s, m) then
      var p := Unpack(m).pos;
      (s.(last := log, blocks := s.blocks[p := s.blocks[p].(log := log)]), Pack(Uni(log, p, 0)))
    else if s.free != [] then
      var p := s.free[0];
      if p < |s.blocks| then
        (State(log, s.blocks[p := Block(log, {0})], s.free[1..]), Pack(Uni(log, p, 0)))
      else (s, 0)
    else if |s.blocks| < MAX_BLOCK_COUNT then
      (s.(last := log, blocks := s.blocks + [Block(log, {0})]), Pack(Uni(log, |s.blocks|, 0)))
    else (s, 0)
  }

  /** The first holder number from b on that is not taken, 0 coming after 63; 64 if all are taken. */
  function Vacant(holders: set<nat>, b: nat): (r: nat)
    requires 1 <= b <= 64
    ensures r <= 64 && (r < 64 ==> r !in holders)
    ensures r == 0 || r >= b
    ensures forall j | b <= j < 64 && (r == 0 || j < r) :: j in holders
    ensures r == 64 ==> 0 in holders
    decreases 64 - b
  {
    if b == 64 then if 0 in holders then 64 else 0
    else if b !in holders then b
    else Vacant(holders, b + 1)
  }

  /** Some holder number is not taken: otherwise `EasySpace::Read` does not return. */
  predicate Room(s: State, m: nat) {
    Current(s, m) ==> Vacant(s.blocks[Unpack(m).pos].holders, 1) < 64
  }

  /** `EasySpace::Read`: one more holder of a current marker. */
  function Read(s: State, m: nat): (r: (State, nat))
    requires Room(s, m)
  {
    if Current(s, m) then
      var u := Unpack(m);
      var b := s.blocks[u.pos];
      var bit := Vacant(b.holders, 1);
      (s.(blocks := s.blocks[u.pos := b.(holders := b.holders + {bit})]), Pack(u.(shift := bit)))
    else (s, 0)
  }

  /** `EasySpace::Free`: a holder leaves, whatever the version of the marker; the last one frees the
      block. A position beyond the blocks is an error that changes nothing. */
  function Free(s: State, m: nat): State {
    var u := Unpack(m);
    if m == 0 || u.pos >= |s.blocks| || u.shift !in s.blocks[u.pos].holders then s
    else
      var left := s.blocks[u.pos].holders - {u.shift};
      s.(blocks := s.blocks[u.pos := s.blocks[u.pos].(holders := left)],
         free := if left == {} then s.free + [u.pos] else s.free)
  }

  // ----- the invariant -----

  predicate BlockOk(b: Block, last: nat) {
    && 1 <= b.log <= last
    && forall h <- b.holders :: h < 64
  }

  /** Every block is either in the queue of free blocks, once, and held by nobody, or it is held. */
  ghost predicate Inv(s: State) {
    && |s.blocks| <= MAX_BLOCK_COUNT && 1 <= s.last < LOGS
    && (forall p | 0 <= p < |s.blocks| :: BlockOk(s.blocks[p], s.last))
    && Distinct(s.free)
    && (forall i | 0 <= i < |s.free| :: s.free[i] < |s.blocks|)
    && (forall p: nat | p < |s.blocks| :: p in s.free <==> s.blocks[p].holders == {})
  }

  lemma StartInv(n: nat)
    requires n <= MAX_BLOCK_COUNT
    ensures Inv(Start(n))
  {
    var s := Start(n);
    forall p: nat | p < n
      ensures p in s.free
    {
      assert s.free[n - 1 - p] == p;
    }
  }

  lemma WriteInv(s: State, m: nat)
    requires Inv(s) && s.last + 1 < LOGS
    ensures Inv(Write(s, m).0)
  {
    if !Current(s, m) && s.free != [] {
      var p := s.free[0];
      assert s.free == [p] + s.free[1..];
      forall q: nat | q < |s.blocks|
        ensures q in s.free[1..] <==> q in s.free && q != p
      {
        if q in s.free[1..] {
          var i :| 0 <= i < |s.free[1..]| && s.free[1..][i] == q;
          assert s.free[i + 1] == q;
        }
      }
    }
  }

  lemma ReadInv(s: State, m: nat)
    requires Inv(s) && Room(s, m)
    ensures Inv(Read(s, m).0)
  {
    if Current(s, m) {
      var p := Unpack(m).pos;
      var t := Read(s, m).0;
      forall q | 0 <= q < |t.blocks|
        ensures BlockOk(t.blocks[q], t.last)
      {
        assert BlockOk(s.blocks[q], s.last);
      }
    }
  }

  lemma FreeInv(s: State, m: nat)
    requires Inv(s)
    ensures Inv(Free(s, m))
  {
    var t, p := Free(s, m), Unpack(m).pos;
    if t != s {
      assert p !in s.free;
      assert BlockOk(s.blocks[p], s.last);
      forall q: nat | q < |t.blocks|
        ensures q in t.free <==> t.blocks[q].holders == {}
      {
        assert q in s.free + [p] <==> q in s.free || q == p;
      }
    }
  }

  // ----- runs -----

  datatype Event = Writing(m: nat) | Reading(m: nat) | Freeing(m: nat)

  /** The space; who holds which block under which number, as the markers handed out and given back
      say; and the markers that Write has handed out. */
  datatype World = World(space: State, held: set<(nat, nat)>, issued: seq<nat>)

  ghost predicate Possible(s: State, e: Event) {
    match e
    case Writing(_) => s.last + 1 < LOGS
    case Reading(m) => Room(s, m)
    case Freeing(_) => true
  }

  function Token(m: nat): (nat, nat) {
    (Unpack(m).pos, Unpack(m).shift)
  }

  ghost function Happen(w: World, e: Event): World
    requires Possible(w.space, e)
  {
    match e
    case Writing(m) =>
      var (t, r) := Write(w.space, m);
      if r == 0 then w.(space := t)
      else World(t, if Current(w.space, m) then w.held else w.held + {Token(r)}, w.issued + [r])
    case Reading(m) =>
      var (t, r) := Read(w.space, m);
      w.(space := t, held := if r == 0 then w.held else w.held + {Token(r)})
    case Freeing(m) =>
      w.(space := Free(w.space, m), held := if m == 0 then w.held else w.held - {Token(m)})
  }

  /** Worlds that a space of n blocks can reach, whatever markers it is given. */
  ghost predicate Run(n: nat, es: seq<Event>, w: World) {
    if es == [] then n <= MAX_BLOCK_COUNT && w == World(Start(n), {}, [])
    else exists before ::
      Run(n, es[..|es| - 1], before) && Possible(before.space, Last(es)) && w == Happen(before, Last(es))
  }

  ghost predicate Holds(w: World, p: nat, b: nat) {
    p < |w.space.blocks| && b in w.space.blocks[p].holders
  }

  /** The holders of a block are those who were handed it and have not given it back. */
  ghost predicate Agree(w: World) {
    forall p: nat, b: nat :: (p, b) in w.held <==> Holds(w, p, b)
  }

  /** The markers handed out grow with every Write. */
  ghost predicate Growing(w: World) {
    && (forall i, j | 0 <= i < j < |w.issued| :: Unpack(w.issued[i]).log < Unpack(w.issued[j]).log)
    && (forall i | 0 <= i < |w.issued| :: Unpack(w.issued[i]).log <= w.space.last)
  }

  ghost predicate Good(w: World) {
    Inv(w.space) && Agree(w) && Growing(w)
  }

  /** What Write hands out: version last + 1 of a block, under number 0. */
  lemma Written(s: State, m: nat)
    requires Inv(s) && s.last + 1 < LOGS && Write(s, m).1 != 0
    ensures var (t, r) := Write(s, m);
            var u := Unpack(r);
            && u == Uni(s.last + 1, u.pos, 0) && u.pos < |t.blocks| && t.last == s.last + 1
            && t.blocks[u.pos].log == u.log && Current(t, r)
            && (Current(s, m) ==> u.pos == Unpack(m).pos && t.blocks[u.pos].holders == s.blocks[u.pos].holders)
            && (!Current(s, m) ==>
                  t.blocks[u.pos].holders == {0} && (u.pos < |s.blocks| ==> s.blocks[u.pos].holders == {}))
            && |s.blocks| <= |t.blocks|
            && forall p | 0 <= p < |t.blocks| && p != u.pos :: p < |s.blocks| && t.blocks[p] == s.blocks[p]
  {
    var (t, r) := Write(s, m);
    var p := if Current(s, m) then Unpack(m).pos else if s.free != [] then s.free[0] else |s.blocks|;
    assert p < MAX_BLOCK_COUNT;
    UnpackPack(Uni(s.last + 1, p, 0));
    assert !Current(s, m) && s.free != [] ==> p in s.free;
    hide Inv, Pack, Unpack;
  }

  /** What Read hands out: the version asked for, under a number that nobody has. */
  lemma ReadOut(s: State, m: nat)
    requires Inv(s) && Room(s, m) && Current(s, m)
    ensures var (t, r) := Read(s, m);
            var u := Unpack(r);
            && r != 0 && u == Unpack(m).(shift := u.shift) && u.shift < 64
            && u.shift !in s.blocks[u.pos].holders
            && (forall j | 1 <= j < 64 && (u.shift == 0 || j < u.shift) :: j in s.blocks[u.pos].holders)
            && t == s.(blocks := s.blocks[u.pos := s.blocks[u.pos].(holders := s.blocks[u.pos].holders + {u.shift})])
  {
    var u := Unpack(m);
    var bit := Vacant(s.blocks[u.pos].holders, 1);
    PackUnpack(m);
    UnpackPack(Uni(s.blocks[u.pos].log, u.pos, 0));
    UnpackPack(u.(shift := bit));
    assert BlockOk(s.blocks[u.pos], s.last);
    hide Vacant;
  }

  /** A Write fails exactly if the marker is not current, no block is free and no more may be made. */
  lemma WritesKey(s: State, m: nat)
    requires Inv(s)
    ensures Write(s, m).1 == 0 <==> !Current(s, m) && s.free == [] && |s.blocks| >= MAX_BLOCK_COUNT
  {
    assert s.free != [] ==> s.free[0] in s.free;
  }

  lemma WritingGood(w: World, m: nat)
    requires Good(w) && Possible(w.space, Writing(m))
    ensures Good(Happen(w, Writing(m)))
  {
    var s, v := w.space, Happen(w, Writing(m));
    WriteInv(s, m);
    if Write(s, m).1 != 0 {
      Written(s, m);
    } else {
      NotWritten(s, m);
    }
    hide Write, Current, Inv, Unpack;
  }

  lemma NotWritten(s: State, m: nat)
    requires Inv(s) && Write(s, m).1 == 0
    ensures Write(s, m).0 == s
  {
  }

  lemma ReadingGood(w: World, m: nat)
    requires Good(w) && Possible(w.space, Reading(m))
    ensures Good(Happen(w, Reading(m)))
  {
    ReadInv(w.space, m);
    if Current(w.space, m) {
      ReadOut(w.space, m);
    } else {
      assert Read(w.space, m) == (w.space, 0);
    }
    hide Read, Room, Inv, Unpack;
  }

  lemma FreeingGood(w: World, m: nat)
    requires Good(w)
    ensures Good(Happen(w, Freeing(m)))
  {
    FreeInv(w.space, m);
    hide Inv, Unpack;
  }

  lemma {:induction false} RunGood(n: nat, es: seq<Event>, w: World)
    requires Run(n, es, w)
    ensures Good(w)
    decreases |es|
  {
    if es == [] {
      StartInv(n);
    } else {
      var before :| Run(n, es[..|es| - 1], before) && Possible(before.space, Last(es)) && w == Happen(before, Last(es));
      RunGood(n, es[..|es| - 1], before);
      hide Happen, Possible, Good, Run;
      match Last(es) {
        case Writing(m) => WritingGood(before, m);
        case Reading(m) => ReadingGood(before, m);
        case Freeing(m) => FreeingGood(before, m);
      }
    }
  }

  // ----- what the runs promise -----

  /** The markers that Write hands out never repeat, and a Write that does not renew a marker hands out
      a block that nobody holds. */
  lemma WriteIsExclusive(n: nat, es: seq<Event>, w: World, m: nat)
    requires Run(n, es, w) && Possible(w.space, Writing(m)) && Write(w.space, m).1 != 0
    ensures var r := Write(w.space, m).1;
            && r !in w.issued
            && Happen(w, Writing(m)).issued == w.issued + [r]
            && (!Current(w.space, m) ==>
                  && (forall b: nat :: (Unpack(r).pos, b) !in w.held)
                  && Happen(w, Writing(m)).held == w.held + {(Unpack(r).pos, 0)})
            && (Current(w.space, m) ==> Happen(w, Writing(m)).held == w.held && Unpack(r).pos == Unpack(m).pos)
  {
    RunGood(n, es, w);
    Written(w.space, m);
    hide Write, Inv, Unpack, Current, Run;
  }

  /** A Read of a current marker gives its caller a number under which nobody holds the block: the first from
      1 on, or 0 if all of those are taken. */
  lemma ReadIsDistinct(n: nat, es: seq<Event>, w: World, m: nat)
    requires Run(n, es, w) && Possible(w.space, Reading(m)) && Current(w.space, m)
    ensures var r := Read(w.space, m).1;
            && Unpack(r).pos == Unpack(m).pos && Unpack(r).log == Unpack(m).log && Token(r) !in w.held
            && Happen(w, Reading(m)).held == w.held + {(Unpack(r).pos, Unpack(r).shift)}
            && forall j: nat | 1 <= j < 64 && (Unpack(r).shift == 0 || j < Unpack(r).shift) ::
                 (Unpack(m).pos, j) in w.held
  {
    RunGood(n, es, w);
    ReadOut(w.space, m);
    hide Read, Inv, Unpack, Current, Run, Room;
  }

  /** A block returns to the free queue exactly when the last holder that was handed it gives it back. */
  lemma FreedByLast(n: nat, es: seq<Event>, w: World, m: nat)
    requires Run(n, es, w) && m != 0
    ensures var p, t := Unpack(m).pos, Free(w.space, m);
            (p in t.free && p !in w.space.free) <==>
            (Token(m) in w.held && forall b: nat | (p, b) in w.held :: b == Token(m).1)
    ensures var p, t := Unpack(m).pos, Free(w.space, m);
            if Token(m) in w.held && forall b: nat | (p, b) in w.held :: b == Token(m).1
            then w.space.free < t.free && |t.free| == |w.space.free| + 1 && t.free[|w.space.free|] == p
            else t.free == w.space.free
  {
    RunGood(n, es, w);
    var s, u := w.space, Unpack(m);
    var t := Free(s, m);
    hide Unpack, Run, Growing;
    if u.pos < |s.blocks| && u.shift in s.blocks[u.pos].holders {
      var left := s.blocks[u.pos].holders - {u.shift};
      LastLeft(w, u.pos, u.shift);
      assert u.pos !in s.free;
      assert left == {} ==> t.free[|t.free| - 1] == u.pos;
    }
  }

  lemma LastLeft(w: World, p: nat, b: nat)
    requires Agree(w) && Holds(w, p, b)
    ensures w.space.blocks[p].holders - {b} == {} <==> forall c: nat | (p, c) in w.held :: c == b
  {
    var left := w.space.blocks[p].holders - {b};
    if left != {} {
      var c: nat :| c in left;
      assert Holds(w, p, c);
      assert (p, c) in w.held;
    } else {
      forall c: nat | (p, c) in w.held
        ensures c == b
      {
        assert Holds(w, p, c);
        assert c !in left;
      }
    }
  }

  /** The event hands out a block that was not in use. */
  ghost predicate Hands(w: World, e: Event) {
    e.Writing? && !Current(w.space, e.m) && Write(w.space, e.m).1 != 0
  }

  /** The events can happen, one after the other. */
  ghost predicate Follows(w: World, es: seq<Event>)
    decreases |es|
  {
    es != [] ==> Possible(w.space, es[0]) && Follows(Happen(w, es[0]), es[1..])
  }

  /** The blocks that fresh Writes hand out in the course of es, in order. */
  ghost function Outs(w: World, es: seq<Event>): seq<nat>
    requires Follows(w, es)
    decreases |es|
  {
    if es == [] then []
    else
      (if Hands(w, es[0]) then [Unpack(Write(w.space, es[0].m).1).pos] else []) + Outs(Happen(w, es[0]), es[1..])
  }

  /** A fresh Write takes the block at the front of the queue; everything else leaves the front alone. */
  lemma QueueStep(w: World, e: Event)
    requires Good(w) && Possible(w.space, e)
    ensures Good(Happen(w, e))
    ensures var q, r := w.space.free, Happen(w, e).space.free;
            if Hands(w, e) then
              if q == [] then r == [] else Unpack(Write(w.space, e.m).1).pos == q[0] && r == q[1..]
            else q <= r
  {
    match e {
      case Writing(m) =>
        WritingGood(w, m);
        if !Current(w.space, m) && w.space.free != [] {
          var p := w.space.free[0];
          assert p in w.space.free;
          UnpackPack(Uni(w.space.last + 1, p, 0));
        }
      case Reading(m) => ReadingGood(w, m);
      case Freeing(m) => FreeingGood(w, m);
    }
    hide Good, Pack, Unpack, Vacant, Token;
  }

  lemma {:induction false} OutsInOrder(w: World, es: seq<Event>, k: nat)
    requires Good(w) && Follows(w, es) && k < |w.space.free| && k < |Outs(w, es)|
    ensures Outs(w, es)[k] == w.space.free[k]
    decreases |es|
  {
    hide Good, Happen, Possible, Hands, Unpack, Write;
    var v := Happen(w, es[0]);
    QueueStep(w, es[0]);
    if !Hands(w, es[0]) {
      OutsInOrder(v, es[1..], k);
    } else if k > 0 {
      OutsInOrder(v, es[1..], k - 1);
    }
  }

  /** First in, first out: whatever follows, a block freed behind k others is handed out by the fresh Write
      number k + 1 from then on, and by none before. */
  lemma FirstInFirstOut(n: nat, es: seq<Event>, w: World, m: nat, later: seq<Event>)
    requires Run(n, es, w) && m != 0
    requires Token(m) in w.held && forall b: nat | (Unpack(m).pos, b) in w.held :: b == Token(m).1
    requires Follows(Happen(w, Freeing(m)), later)
    ensures var outs, k, p := Outs(Happen(w, Freeing(m)), later), |w.space.free|, Unpack(m).pos;
            && (k < |outs| ==> outs[k] == p)
            && forall i | 0 <= i < k && i < |outs| :: outs[i] != p
  {
    RunGood(n, es, w);
    FreedByLast(n, es, w, m);
    FreeingGood(w, m);
    var v, k := Happen(w, Freeing(m)), |w.space.free|;
    var outs, p := Outs(v, later), Unpack(m).pos;
    hide Run, Outs, Follows, Token, Unpack, Growing, Agree, Free;
    assert v.space.free[k] == p;
    if k < |outs| {
      OutsInOrder(v, later, k);
    }
    forall i | 0 <= i < k && i < |outs|
      ensures outs[i] != p
    {
      OutsInOrder(v, later, i);
    }
  }

  /** The blocks that somebody holds. */
  function Held(s: State): set<nat> {
    set p | 0 <= p < |s.blocks| && s.blocks[p].holders != {}
  }

  lemma FreeOrHeld(s: State)
    requires Inv(s)
    ensures forall p: nat :: p < |s.blocks| <==> p in s.free || p in Held(s)
    ensures forall p: nat :: !(p in s.free && p in Held(s))
    ensures Distinct(s.free)
  {
  }

  /** Free and held blocks add up. */
  lemma Accounted(s: State)
    requires Inv(s)
    ensures |s.free| + |Held(s)| == |s.blocks|
  {
    hide *;
    FreeOrHeld(s);
    var spare := Members(s.free);
    assert spare !! Held(s);
    assert spare + Held(s) == UpTo(|s.blocks|);
  }

  function UpTo(n: nat): (r: set<nat>)
    ensures |r| == n && forall p: nat :: p in r <==> p < n
  {
    if n == 0 then {} else UpTo(n - 1) + {n - 1}
  }

  function Members(q: seq<nat>): (r: set<nat>)
    ensures forall p :: p in r <==> p in q
    ensures Distinct(q) ==> |r| == |q|
  {
    if q == [] then {}
    else
      assert q == q[..|q| - 1] + [q[|q| - 1]];
      assert Distinct(q) ==> Distinct(q[..|q| - 1]) && q[|q| - 1] !in q[..|q| - 1];
      Members(q[..|q| - 1]) + {q[|q| - 1]}
  }

  /** Two different markers that are both current name different blocks. */
  lemma OneOwner(s: State, m: nat, o: nat)
    requires Current(s, m) && Current(s, o) && m != o
    ensures Unpack(m).pos != Unpack(o).pos
  {
    hide Pack, Unpack;
  }

  // ----- through the allocator -----

  /** Blocks are indexed by their owner's marker. */
  lemma CurrentIsOwner(s: State, m: nat)
    ensures Current(s, m) ==> Unpack(m).shift == 0
  {
  }

  /** `Allocator::Aquare`: an owner's marker, and 0, are written; any other marker is read. */
  function Aquare(s: State, m: nat): (r: (State, nat)) {
    CurrentIsOwner(s, m);
    if m == 0 || Unpack(m).shift == 0 then Write(s, m) else Read(s, m)
  }

  /** Who asks with 0 or with an owner's marker gets a marker exactly if his own is current, or a block is
      free, or another block may be made. It is current from then on, under number 0, with a version never
      handed out before, for his own block if his marker is current, and otherwise for one nobody holds. */
  lemma AquareHandsOut(s: State, m: nat)
    requires Inv(s) && s.last + 1 < LOGS && (m == 0 || Unpack(m).shift == 0)
    ensures var (t, r) := Aquare(s, m);
            && Inv(t)
            && (r != 0 <==> Current(s, m) || s.free != [] || |s.blocks| < MAX_BLOCK_COUNT)
            && (r == 0 ==> t == s)
            && (r != 0 ==>
                  var u := Unpack(r);
                  && Current(t, r) && u.shift == 0 && u.log == s.last + 1 == t.last
                  && u.pos < |t.blocks|
                  && (Current(s, m) ==> u.pos == Unpack(m).pos && t.blocks[u.pos].holders == s.blocks[u.pos].holders)
                  && (!Current(s, m) ==>
                        && t.blocks[u.pos].holders == {0}
                        && (u.pos < |s.blocks| ==> s.blocks[u.pos].holders == {})
                        && u.pos == if s.free != [] then s.free[0] else |s.blocks|))
  {
    WriteInv(s, m);
    WritesKey(s, m);
    if Write(s, m).1 == 0 {
      NotWritten(s, m);
    } else {
      Written(s, m);
      if !Current(s, m) {
        WrittenAt(s, m);
      }
    }
    hide Write, Inv, Current, Pack, Unpack;
  }

  /** Where a block comes from: the front of the queue, or the end of the blocks. */
  lemma WrittenAt(s: State, m: nat)
    requires Inv(s) && s.last + 1 < LOGS && !Current(s, m) && Write(s, m).1 != 0
    ensures Unpack(Write(s, m).1).pos == if s.free != [] then s.free[0] else |s.blocks|
    ensures Write(s, m).0.free == if s.free != [] then s.free[1..] else []
  {
    var p := if s.free != [] then s.free[0] else |s.blocks|;
    assert s.free != [] ==> p in s.free;
    UnpackPack(Uni(s.last + 1, p, 0));
    hide Pack, Unpack;
  }

  /** What a marker is read for never is: blocks are indexed by their owner's marker, so a marker that
      the allocator would pass to Read is not current, and nothing is handed out. */
  lemma AquareNeverReads(s: State, m: nat)
    requires m != 0 && Unpack(m).shift != 0
    ensures Aquare(s, m) == (s, 0)
  {
    CurrentIsOwner(s, m);
    hide Unpack, Pack;
  }

  // ----- markers that are no longer held -----

  /** A Write that gets block 0, the only free one. */
  lemma WriteZero(log: nat, last: nat)
    ensures Write(State(last, [Block(log, {})], [0]), 0) ==
            (State(last + 1, [Block(last + 1, {0})], []), Pack(Uni(last + 1, 0, 0)))
  {
    hide Pack;
    assert Unpack(0) == Uni(0, 0, 0);
    var b := Block(last + 1, {0});
    assert [Block(log, {})][0 := b] == [b] && [0 as nat][1..] == [];
  }

  lemma FreeZero(log: nat, last: nat, m: nat)
    requires m != 0 && Unpack(m).pos == 0 && Unpack(m).shift == 0
    ensures Free(State(last, [Block(log, {0})], []), m) == State(last, [Block(log, {})], [0])
  {
    hide Unpack;
    assert {0} - {0} == {};
    assert [Block(log, {0})][0 := Block(log, {})] == [Block(log, {})];
  }

  /** Giving a marker back twice: the block has meanwhile gone to another writer, who loses it. */
  lemma FreedTwice()
    ensures var (s1, m1) := Write(Start(1), 0);
            var (s3, m2) := Write(Free(s1, m1), 0);
            var s4 := Free(s3, m1);
            m1 != m2 && Current(s3, m2) && !Current(s4, m2) && s4.free == [0]
  {
    var m1, m2 := Pack(Uni(2, 0, 0)), Pack(Uni(3, 0, 0));
    UnpackPack(Uni(2, 0, 0));
    UnpackPack(Uni(3, 0, 0));
    assert Start(1) == State(1, [Block(1, {})], [0]);
    WriteZero(1, 1);
    FreeZero(2, 2, m1);
    WriteZero(2, 2);
    FreeZero(3, 3, m1);
    hide Write, Free, Unpack;
  }

  /** In every run Free changes something exactly when somebody holds the block under the number in the
      marker, whoever that is. */
  lemma FreeChanges(n: nat, es: seq<Event>, w: World, m: nat)
    requires Run(n, es, w) && m != 0
    ensures Free(w.space, m) != w.space <==> Token(m) in w.held
    ensures Happen(w, Freeing(m)).held == w.held - {(Unpack(m).pos, Unpack(m).shift)}
  {
    RunGood(n, es, w);
    hide Unpack, Run, Growing;
    var u := Unpack(m);
    assert Holds(w, u.pos, u.shift) <==> Token(m) in w.held;
    if Holds(w, u.pos, u.shift) {
      assert Free(w.space, m).blocks[u.pos].holders == w.space.blocks[u.pos].holders - {u.shift};
    }
  }
}
