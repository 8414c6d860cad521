/** One process's `RegularRegistr`: the skip list of its nodes, the array of nodes per slot, and the
    shared memory it works on. Every method is proved against the operation of Registr that it performs,
    for any heights drawn. */
module RegularRegistr {
  import opened Sequences
  import opened Levels
  import opened Markers
  import opened Registr
  import opened SkipList

  /** The blocks in shared memory: their versions, and the bits set in each process's own blocks. */
  class Shared {
    var logs: map<Slot, nat>
    var held: set<(nat, Slot)>

    constructor ()
      ensures logs == map[] && held == {}
    {
      logs, held := map[], {};
    }

    ghost function View(): Memory
      reads this
    {
      Memory(logs, held)
    }
  }

  /** The nodes that the abstract state speaks of, and no others, are in the list. */
  ghost predicate Backed(q: Proc, users: map<Slot, Node>, head: Node, chain: seq<Node>)
    reads chain`key, chain`user
  {
    && users.Keys == q.users.Keys
    && (forall s <- users ::
          users[s] in chain && users[s] != head && users[s].key == q.users[s] && users[s].user == (s.space, s.pos))
    && (forall n | n in chain :: n == head || (BlockOf(n.user) in users && users[BlockOf(n.user)] == n))
  }

  /** One node more. */
  lemma BackedMore(q: Proc, users: map<Slot, Node>, head: Node, chain: seq<Node>, longer: seq<Node>, s: Slot,
                   x: Node, r: Proc)
    requires Backed(q, users, head, chain) && s !in users && r.users == q.users[s := x.key]
    requires x.user == (s.space, s.pos) && x != head && x in longer
    requires forall n | n in longer :: n in chain || n == x
    requires forall n | n in chain :: n in longer
    ensures Backed(r, users[s := x], head, longer)
  {
  }

  /** Neither the bias nor the spaces known matter to the nodes. */
  lemma SameNodes(q: Proc, r: Proc, size: nat, users: map<Slot, Node>, head: Node, chain: seq<Node>)
    requires Agree(q, size) && Backed(q, users, head, chain)
    requires r.users == q.users && r.index == q.index && q.known <= r.known
    ensures Agree(r, size) && Backed(r, users, head, chain)
  {
  }

  /** One node less. */
  lemma BackedLess(q: Proc, users: map<Slot, Node>, head: Node, chain: seq<Node>, shorter: seq<Node>, s: Slot, r: Proc)
    requires Backed(q, users, head, chain) && s in users && r.users == q.users - {s}
    requires forall n | n in shorter :: n in chain && n != users[s]
    requires forall n | n in chain && n != users[s] :: n in shorter
    ensures Backed(r, users - {s}, head, shorter)
  {
    forall o <- users | o != s
      ensures users[o] != users[s]
    {
      assert users[o].user == (o.space, o.pos) && users[s].user == (s.space, s.pos);
    }
  }

  function BlockOf(u: (nat, nat)): Slot {
    Slot(u.0, u.1)
  }

  class RegularRegistr {
    const master: nat
    const size: nat
    const shared: Shared
    const core: CoreSpace
    var known: set<nat>
    var users: map<Slot, Node>
    var bias: nat
    ghost var abs: Proc

    ghost predicate Good()
      reads `known, `users, `bias, `abs, core`chain, core`tall, core`keys, core`level
      reads core.chain`forward, core.chain`key, core.chain`height, core.chain`user
    {
      && core.Valid() && known == abs.known && bias == abs.bias && master < SPACES
      && 0 < size <= MAX_BLOCK_COUNT && master in known && (forall s <- known :: s < SPACES)
      && Agree(abs, size) && Backed(abs, users, core.head, core.chain)
    }

    constructor (magic: nat, size: nat, shared: Shared)
      requires 0 < size <= MAX_BLOCK_COUNT
      ensures Good() && master == magic % SPACES && this.size == size && this.shared == shared
      ensures abs == Proc({master}, map[], map[], 0)
    {
      var head := new Node(MAX_LEVEL, 0);
      core := new CoreSpace(head);
      this.size, this.shared, master := size, shared, magic % SPACES;
      known, users, bias, abs := {magic % SPACES}, map[], 0, Proc({magic % SPACES}, map[], map[], 0);
    }

    /** What the list finds under a marker. */
    lemma Lookup(mark: nat)
      requires Good()
      ensures mark in core.View() <==> mark in abs.index
      ensures mark in abs.index ==> abs.index[mark] in users && core.View()[mark] == users[abs.index[mark]]
    {
      hide CoreSpace.Valid, CoreSpace.View, SlotOf;
      if mark in core.View() {
        core.InList(mark);
        var n := core.View()[mark];
        assert BlockOf(n.user) in users;
      }
      if mark in abs.index {
        var s := abs.index[mark];
        assert s in users;
        core.KeyOf(users[s]);
      }
    }

    /** A key that the slot does not have is not in the list. */
    lemma Unlisted(s: Slot, mark: nat)
      requires Good() && SlotOf(mark) == s && (s in users ==> users[s].key != mark)
      ensures mark !in core.View()
      ensures s in users ==> s in abs.users && users[s] in core.chain && users[s] != core.head
    {
      hide CoreSpace.Valid, CoreSpace.View, SlotOf;
      Lookup(mark);
    }

    lemma RekeyIs(s: Slot, mark: nat)
      requires Good() && SlotOf(mark) == s && s.space in known && Registr.Valid(s, size)
      ensures var q := Rekey(abs, s, mark);
              Agree(q, size) && q.users == abs.users[s := mark] && q.known == abs.known && q.bias == abs.bias
    {
      hide SlotOf;
      RekeyAgree(abs, s, mark, size);
    }

    /** A node for a slot that has none. */
    method Make(s: Slot, mark: nat, lvl: nat) returns (x: Node)
      requires Good() && s !in users && SlotOf(mark) == s && s.space in known && Registr.Valid(s, size)
               && lvl <= MAX_LEVEL
      modifies `users, `abs, core, core.chain`forward
      ensures Good() && abs == Rekey(old(abs), s, mark) && s in users && x == users[s] && x.key == mark
    {
      hide CoreSpace.Valid, CoreSpace.View, SlotOf, Agree, Rekey, Backed;
      Unlisted(s, mark);
      RekeyIs(s, mark);
      core.HeadIn();
      x := core.Insert(mark, null, lvl);
      x.user := (s.space, s.pos);
      BackedMore(old(abs), users, core.head, old(core.chain), core.chain, s, x, Rekey(abs, s, mark));
      users := users[s := x];
      abs := Rekey(abs, s, mark);
    }

    /** The node of a slot gets another key. */
    method Renew(s: Slot, mark: nat, lvl: nat)
      requires Good() && s in users && users[s].key != mark
      requires SlotOf(mark) == s && s.space in known && Registr.Valid(s, size) && lvl <= MAX_LEVEL
      modifies `abs, core, core.chain
      ensures Good() && abs == Rekey(old(abs), s, mark) && users == old(users) && users[s].key == mark
    {
      hide CoreSpace.Valid, CoreSpace.View, SlotOf, Agree, Rekey;
      Unlisted(s, mark);
      RekeyIs(s, mark);
      var x := users[s];
      var r := core.Move(x, mark, lvl);
      abs := Rekey(abs, s, mark);
    }

    /** The version of a block goes up. */
    method Bump(s: Slot) returns (log: nat)
      modifies shared`logs
      ensures log == old(Log(shared.View(), s)) + 1
      ensures shared.View() == old(shared.View()).(logs := old(shared.logs)[s := log])
    {
      log := (if s in shared.logs then shared.logs[s] else 0) + 1;
      shared.logs := shared.logs[s := log];
    }

    /** The next version of a slot is not the key of its node. */
    lemma NextMark(s: Slot)
      requires Good() && ProcOk(shared.View(), abs, master, size)
      requires s.space == master && s.pos < size && Log(shared.View(), s) + 1 < LOGS
      ensures var mark := Mark(Log(shared.View(), s) + 1, s);
              && SlotOf(mark) == s && Registr.Valid(s, size) && s.space in known && mark != 0
              && (s in users ==> users[s].key != mark)
    {
      MarkOf(Log(shared.View(), s) + 1, s);
      assert Unpack(0) == Uni(0, 0, 0);
      if s in users {
        UserIs(shared.View(), abs, master, size, s);
      }
      hide Agree, CoreSpace.Valid, Mark;
    }

    /** `Write` with a marker of its own. */
    method WriteMarked(mark: nat, lvl: nat) returns (x: Node)
      requires Good() && ProcOk(shared.View(), abs, master, size) && lvl <= MAX_LEVEL
      requires Unpack(mark).shift == master && Unpack(mark).pos < size && Log(shared.View(), SlotOf(mark)) + 1 < LOGS
      modifies `users, `abs, core, core.chain, shared`logs
      ensures Good() && (shared.View(), abs, x.key) == Registr.WriteMarked(old(shared.View()), old(abs), master, mark)
      ensures SlotOf(mark) in users && users[SlotOf(mark)] == x
    {
      hide CoreSpace.Valid, CoreSpace.View, Agree, Rekey, Backed, Pack, Unpack, ProcOk;
      var s := Slot(master, Unpack(mark).pos);
      NextMark(s);
      Lookup(mark);
      var found := core.Contains(mark);
      if found != null {
        x := found;
        Found(mark, x);
        var log := Bump(BlockOf(x.user));
        Renew(s, Pack(Uni(log, Unpack(mark).pos, master)), lvl);
      } else if s in users {
        x := users[s];
        var log := Bump(s);
        Renew(s, Pack(Uni(log, Unpack(mark).pos, master)), lvl);
      } else {
        var log := Bump(s);
        x := Make(s, Pack(Uni(log, Unpack(mark).pos, master)), lvl);
      }
    }

    lemma Found(mark: nat, x: Node)
      requires Good() && mark in core.View() && x == core.View()[mark]
      ensures mark in abs.index && abs.index[mark] == SlotOf(mark) == BlockOf(x.user) && SlotOf(mark) in users
      ensures users[SlotOf(mark)] == x
    {
      Lookup(mark);
      hide CoreSpace.Valid, CoreSpace.View, SlotOf;
    }

    /** `Ok`. */
    method Ok(mark: nat) returns (b: bool)
      requires Good()
      modifies core`trace
      ensures Good() && b == Registr.Ok(shared.View(), abs, master, mark)
    {
      hide CoreSpace.Valid, CoreSpace.View, Agree, Backed, Pack, Unpack;
      if mark == 0 {
        return false;
      }
      if Unpack(mark).shift == master {
        var clear := {};
        for s := 0 to SPACES
          invariant forall k :: k in clear <==>
                                  k in known && k < s && (k, Slot(master, Unpack(mark).pos)) !in shared.held
        {
          if s in known && (s, Slot(master, Unpack(mark).pos)) !in shared.held {
            clear := clear + {s};
          }
        }
        b := known * clear == known;
      } else {
        Lookup(mark);
        var x := core.Contains(mark);
        if x == null {
          return false;
        }
        Found(mark, x);
        var s := BlockOf(x.user);
        b := (if s in shared.logs then shared.logs[s] else 0) == Unpack(mark).log;
      }
    }

    /** The scan has come to a usable position exactly when it stops there. */
    lemma ScanStep(m: Memory, q: Proc, k: nat)
      requires 0 < size && k <= Scan(m, q, master, size, 0) < size
      ensures Usable(m, q, master, (q.bias + k) % size) <==> Scan(m, q, master, size, 0) == k
    {
      assert k < Scan(m, q, master, size, 0) ==> Passed(m, q, master, size, k);
    }

    /** `Write` without a marker, when the scan finds something. */
    method WriteFresh(lvl: nat) returns (x: Node)
      requires Good() && ProcOk(shared.View(), abs, master, size) && lvl <= MAX_LEVEL
      requires Scan(shared.View(), abs, master, size, 0) < size
      requires forall i: nat | i < size :: Log(shared.View(), Slot(master, i)) + 1 < LOGS
      modifies `users, `abs, `bias, core, core.chain`forward, shared
      ensures Good() && (shared.View(), abs, x.key) == Registr.WriteFresh(old(shared.View()), old(abs), master, size)
      ensures var s := SlotOf(x.key);
              && s.space == master && s !in old(users) && s in users && users[s] == x && bias == s.pos + 1
              && shared.held == old(shared.held) + {(master, s)}
    {
      hide CoreSpace.Valid, CoreSpace.View, Agree, Rekey, Backed, Pack, Unpack, ProcOk, Scan, Usable;
      ghost var m, q := shared.View(), abs;
      ghost var k := 0;
      var b := bias;
      while true
        invariant Good() && b == bias + k && k <= Scan(m, q, master, size, 0) && shared.View() == m && abs == q
        invariant users == old(users) && core.chain == old(core.chain)
        decreases size - k
      {
        ScanStep(m, q, k);
        var i := b % size;
        var s := Slot(master, i);
        NextMark(s);
        var log := (if s in shared.logs then shared.logs[s] else 0) + 1;
        MarkOf(log, s);
        assert Log(m, s) + 1 == log;
        var ok := Ok(Pack(Uni(log, i, master)));
        OkIsClear(m, q, Mark(log, s), s);
        if s !in users && ok {
          x := Take(s, log, lvl);
          break;
        }
        b, k := b + 1, k + 1;
      }
    }

    /** The slot s is the process's. */
    method Take(s: Slot, log: nat, lvl: nat) returns (x: Node)
      requires Good() && s !in users && s.space == master && s.space in known && Registr.Valid(s, size)
      requires SlotOf(Mark(log, s)) == s && lvl <= MAX_LEVEL
      modifies `users, `abs, `bias, core, core.chain`forward, shared
      ensures Good() && x.key == Mark(log, s)
      ensures shared.View() == Memory(old(shared.logs)[s := log], old(shared.held) + {(master, s)})
      ensures abs == Rekey(old(abs), s, Mark(log, s)).(bias := s.pos + 1)
      ensures s in users && users[s] == x && bias == s.pos + 1
    {
      hide CoreSpace.Valid, CoreSpace.View, Agree, Rekey, Backed, Unpack, SlotOf, Registr.Valid;
      shared.logs := shared.logs[s := log];
      shared.held := shared.held + {(master, s)};
      x := Make(s, Pack(Uni(log, s.pos, s.space)), lvl);
      Turn(s.pos + 1);
    }

    /** The next scan starts at b. */
    method Turn(b: nat)
      requires Good()
      modifies `abs, `bias
      ensures Good() && abs == old(abs).(bias := b) && bias == b
    {
      hide CoreSpace.Valid, CoreSpace.View, Agree, Backed;
      SameNodes(abs, abs.(bias := b), size, users, core.head, core.chain);
      bias, abs := b, abs.(bias := b);
    }

    lemma OkIsClear(m: Memory, q: Proc, mark: nat, s: Slot)
      requires Unpack(mark).shift == s.space == master && Unpack(mark).pos == s.pos && mark != 0 && s.space == master
      requires Good() && q == abs
      ensures s !in users && Registr.Ok(m, q, master, mark) <==> Usable(m, q, master, s.pos)
    {
    }

    /** `Read`: a node is made or brought up to date, and the reading is announced. */
    method Read(mark: nat, lvl: nat) returns (x: Node?, r: nat)
      requires Good() && lvl <= MAX_LEVEL
      requires mark != 0 ==> Unpack(mark).shift in known && Registr.Valid(SlotOf(mark), size)
      modifies `users, `abs, core, core.chain, shared`held
      ensures Good() && (shared.View(), abs, r) == Registr.Read(old(shared.View()), old(abs), master, mark)
      ensures (x == null <==> mark == 0) && (x != null ==> x.key == r)
      ensures var s := SlotOf(mark);
              mark != 0 ==>
                && s in users && users[s] == x && shared.held == old(shared.held) + {(master, s)}
                && r == if s in old(users) && old(users[s].key) > mark then old(users[s].key) else mark
    {
      hide CoreSpace.Valid, CoreSpace.View, Agree, Rekey, Backed, Unpack;
      if mark == 0 {
        return null, mark;
      }
      var s := Slot(Unpack(mark).shift, Unpack(mark).pos);
      UsersAgree(s);
      RekeyIs(s, mark);
      if s !in users {
        x := Make(s, mark, lvl);
      } else {
        x := users[s];
        if x.key < mark {
          Renew(s, mark, lvl);
        }
      }
      shared.held := shared.held + {(master, s)};
      r := x.key;
    }

    lemma UsersAgree(s: Slot)
      requires Good()
      ensures s in users <==> s in abs.users
      ensures s in users ==> users[s].key == abs.users[s]
    {
    }

    /** `Free`: the announcement is withdrawn and the node goes, if the marker is that of the node. */
    method Free(mark: nat) returns (ok: bool)
      requires Good()
      modifies `users, `abs, core, core.chain`forward, shared`held
      ensures Good() && (shared.View(), abs) == Registr.Free(old(shared.View()), old(abs), master, mark)
      ensures ok <==> mark in old(abs.index)
      ensures ok <==> SlotOf(mark) in old(users) && old(users[SlotOf(mark)].key) == mark
      ensures users == (if ok then old(users) - {SlotOf(mark)} else old(users))
      ensures shared.held == (if ok then old(shared.held) - {(master, SlotOf(mark))} else old(shared.held))
    {
      hide CoreSpace.Valid, CoreSpace.View, Agree, Backed, Unpack;
      Lookup(mark);
      Named(mark);
      ok := false;
      var x := core.Contains(mark);
      if x != null {
        shared.held := shared.held - {(master, Slot(Unpack(mark).shift, Unpack(mark).pos))};
        Drop(mark);
        ok := true;
      }
    }

    lemma Named(mark: nat)
      requires Good()
      ensures mark in abs.index <==> SlotOf(mark) in users && users[SlotOf(mark)].key == mark
    {
      IndexUsers(abs, size, mark);
      UsersAgree(SlotOf(mark));
      hide SlotOf, Agree, CoreSpace.Valid, CoreSpace.View;
    }

    /** The node with this key goes. */
    method Drop(mark: nat)
      requires Good() && mark in core.View()
      modifies `users, `abs, core, core.chain`forward
      ensures Good() && users == old(users) - {SlotOf(mark)} && mark in old(abs.index)
      ensures abs == old(abs).(users := old(abs.users) - {SlotOf(mark)}, index := old(abs.index) - {mark})
    {
      hide CoreSpace.Valid, CoreSpace.View, Agree, Backed, Unpack;
      Lookup(mark);
      Found(mark, core.View()[mark]);
      FreeAgree(abs, size, mark);
      var s := Slot(Unpack(mark).shift, Unpack(mark).pos);
      ghost var m := core.View();
      FirstIs(mark);
      assert Least(m, mark, mark);
      var z := core.Delete(mark, true);
      ghost var q := abs.(users := abs.users - {s}, index := abs.index - {mark});
      BackedLess(abs, users, core.head, old(core.chain), core.chain, s, q);
      users := users - {s};
      abs := q;
    }

    lemma FirstIs(mark: nat)
      requires core.Valid() && mark in core.View()
      ensures Least(core.View(), mark, mark)
    {
    }

    /** `Update`: spaces that are not mapped yet are mapped. */
    method Update(magics: set<nat>)
      requires Good() && forall s <- magics :: s < SPACES
      modifies `known, `abs
      ensures Good() && abs == old(abs).(known := old(known) + magics)
    {
      hide CoreSpace.Valid, CoreSpace.View, Unpack, Agree, Backed;
      if known == magics {
        assert known + magics == known;
        return;
      }
      ghost var q := abs;
      MapAll(magics);
      SameNodes(q, q.(known := known), size, users, core.head, core.chain);
      abs := q.(known := known);
    }

    method MapAll(magics: set<nat>)
      modifies `known
      ensures known == old(known) + magics
    {
      var left := magics;
      while left != {}
        invariant left <= magics && known + left == old(known) + magics
        decreases |left|
      {
        var iv :| iv in left;
        left := left - {iv};
        if iv !in known {
          known := known + {iv};
        }
      }
    }
  }
}
