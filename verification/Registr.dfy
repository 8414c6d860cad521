/** The shared slots of `RegularRegistr`: every process owns a space of versioned blocks in shared memory,
    and announces in its own blocks which slots of the others it reads. Processes write, read and free
    in any interleaving. `held` and `logs` are the shared memory; `users`, `index` and `bias` are private
    to a process. */
module Registr {
  import opened Arithmetic
  import opened Sequences
  import opened Markers

  const SPACES: nat := 64

  /** Block `pos` of space `space`. */
  datatype Slot = Slot(space: nat, pos: nat)

  /** The spaces a process has mapped; its node for a slot, by the node's key; the slot of the node that
      its skip list has under a key; where its next scan starts. */
  datatype Proc = Proc(known: set<nat>, users: map<Slot, nat>, index: map<nat, Slot>, bias: nat)

  /** The versions of the blocks (0 if absent), and the announcements: (q, s) is in `held` when in q's
      own block at s.pos the bit of s.space is set. */
  datatype Memory = Memory(logs: map<Slot, nat>, held: set<(nat, Slot)>)

  function Log(m: Memory, s: Slot): nat {
    if s in m.logs then m.logs[s] else 0
  }

  /** The marker of version `log` of a slot. */
  function Mark(log: nat, s: Slot): nat {
    Pack(Uni(log, s.pos, s.space))
  }

  function SlotOf(mark: nat): Slot {
    Slot(Unpack(mark).shift, Unpack(mark).pos)
  }

  // ----- the operations of process p -----

  /** `RegularRegistr::Ok` for one of its own slots: nobody in the spaces it knows has announced it. */
  ghost predicate Clear(m: Memory, q: Proc, p: nat, pos: nat) {
    forall s <- q.known :: (s, Slot(p, pos)) !in m.held
  }

  /** `RegularRegistr::Ok`. */
  ghost predicate Ok(m: Memory, q: Proc, p: nat, mark: nat) {
    && mark != 0
    && if Unpack(mark).shift == p then Clear(m, q, p, Unpack(mark).pos)
       else mark in q.index && Log(m, q.index[mark]) == Unpack(mark).log
  }

  /** The scan may hand out position i. */
  ghost predicate Usable(m: Memory, q: Proc, p: nat, i: nat) {
    Slot(p, i) !in q.users && Clear(m, q, p, i)
  }

  /** How many positions the scan passes over, from `k` on; `size` if none is usable. */
  ghost function Scan(m: Memory, q: Proc, p: nat, size: nat, k: nat): (r: nat)
    requires k <= size && 0 < size
    ensures k <= r <= size
    ensures r < size ==> Usable(m, q, p, (q.bias + r) % size)
    ensures forall j | k <= j < r :: Passed(m, q, p, size, j)
    decreases size - k
  {
    if k == size || Usable(m, q, p, (q.bias + k) % size) then k
    else
      assert Passed(m, q, p, size, k);
      Scan(m, q, p, size, k + 1)
  }

  ghost predicate Passed(m: Memory, q: Proc, p: nat, size: nat, j: nat)
    requires 0 < size
  {
    !Usable(m, q, p, (q.bias + j) % size)
  }

  /** The node for a slot gets a new key, or a node is made. */
  function Rekey(q: Proc, s: Slot, mark: nat): Proc {
    var rest := if s in q.users then q.index - {q.users[s]} else q.index;
    q.(users := q.users[s := mark], index := rest[mark := s])
  }

  /** A slot of its own gets the next version. */
  function Advance(m: Memory, q: Proc, s: Slot): (r: (Memory, Proc, nat)) {
    var log := Log(m, s) + 1;
    (m.(logs := m.logs[s := log]), Rekey(q, s, Mark(log, s)), Mark(log, s))
  }

  /** `RegularRegistr::Write` without a marker: the first usable position from `bias` on. */
  ghost function WriteFresh(m: Memory, q: Proc, p: nat, size: nat): (r: (Memory, Proc, nat))
    requires 0 < size && Scan(m, q, p, size, 0) < size
  {
    var i := (q.bias + Scan(m, q, p, size, 0)) % size;
    var (m', q', mark) := Advance(m, q, Slot(p, i));
    (m'.(held := m'.held + {(p, Slot(p, i))}), q'.(bias := i + 1), mark)
  }

  /** `RegularRegistr::Write` with a marker of its own: the node is found under the marker, or by its
      position, or made; the version goes up in any case. */
  function WriteMarked(m: Memory, q: Proc, p: nat, mark: nat): (r: (Memory, Proc, nat)) {
    if mark in q.index then Advance(m, q, q.index[mark])
    else Advance(m, q, Slot(p, Unpack(mark).pos))
  }

  /** `RegularRegistr::Read`: a node is made or brought up to date, and the reading is announced. */
  function Read(m: Memory, q: Proc, p: nat, mark: nat): (r: (Memory, Proc, nat)) {
    if mark == 0 then (m, q, 0)
    else
      var s := SlotOf(mark);
      var q' := if s !in q.users || q.users[s] < mark then Rekey(q, s, mark) else q;
      (m.(held := m.held + {(p, s)}), q', q'.users[s])
  }

  /** `RegularRegistr::Free`: the announcement is withdrawn and the node goes, if the marker is that of
      the node. */
  function Free(m: Memory, q: Proc, p: nat, mark: nat): (r: (Memory, Proc)) {
    if mark !in q.index then (m, q)
    else
      var s := SlotOf(mark);
      (m.(held := m.held - {(p, s)}), q.(users := q.users - {s}, index := q.index - {mark}))
  }

  // ----- all processes -----

  datatype System = System(size: nat, memory: Memory, procs: map<nat, Proc>, issued: set<nat>)

  datatype Event =
    | Join(p: nat)
    | Learn(p: nat, magics: set<nat>)
    | Fresh(p: nat)
    | Marked(p: nat, mark: nat)
    | Reading(p: nat, mark: nat)
    | Freeing(p: nat, mark: nat)

  /** What the code asks of its callers: own markers are written, markers that a Write has handed out and
      whose space is mapped are read, versions fit in 42 bits, and some position is left for a fresh Write. */
  ghost predicate Possible(y: System, e: Event) {
    match e
    case Join(p) => p < SPACES && p !in y.procs
    case Learn(p, magics) => p in y.procs && forall s <- magics :: s < SPACES
    case Fresh(p) =>
      && p in y.procs && 0 < y.size && Scan(y.memory, y.procs[p], p, y.size, 0) < y.size
      && Log(y.memory, Slot(p, (y.procs[p].bias + Scan(y.memory, y.procs[p], p, y.size, 0)) % y.size)) + 1 < LOGS
    case Marked(p, mark) =>
      && p in y.procs && mark != 0 && Unpack(mark).shift == p && Unpack(mark).pos < y.size
      && Log(y.memory, SlotOf(mark)) + 1 < LOGS
    case Reading(p, mark) => p in y.procs && mark in y.issued && Unpack(mark).shift in y.procs[p].known
    case Freeing(p, _) => p in y.procs
  }

  ghost function Happen(y: System, e: Event): System
    requires Possible(y, e)
  {
    match e
    case Join(p) => y.(procs := y.procs[p := Proc({p}, map[], map[], 0)])
    case Learn(p, magics) => y.(procs := y.procs[p := y.procs[p].(known := y.procs[p].known + magics)])
    case Fresh(p) =>
      var (m, q, mark) := WriteFresh(y.memory, y.procs[p], p, y.size);
      System(y.size, m, y.procs[p := q], y.issued + {mark})
    case Marked(p, mark) =>
      var (m, q, r) := WriteMarked(y.memory, y.procs[p], p, mark);
      System(y.size, m, y.procs[p := q], y.issued + {r})
    case Reading(p, mark) =>
      var (m, q, _) := Read(y.memory, y.procs[p], p, mark);
      y.(memory := m, procs := y.procs[p := q])
    case Freeing(p, mark) =>
      var (m, q) := Free(y.memory, y.procs[p], p, mark);
      y.(memory := m, procs := y.procs[p := q])
  }

  function Start(size: nat): System {
    System(size, Memory(map[], {}), map[], {})
  }

  /** What spaces of `size` blocks can come to, by any interleaving. */
  ghost predicate Run(size: nat, es: seq<Event>, y: System) {
    if es == [] then size <= MAX_BLOCK_COUNT && y == Start(size)
    else exists before ::
      Run(size, es[..|es| - 1], before) && Possible(before, Last(es)) && y == Happen(before, Last(es))
  }

  // ----- the invariant -----

  ghost predicate Valid(s: Slot, size: nat) {
    s.space < SPACES && s.pos < size <= MAX_BLOCK_COUNT
  }

  /** The array of slots and the index agree: a node's key names the slot it is in. */
  ghost predicate Agree(q: Proc, size: nat) {
    && (forall s <- q.users ::
          s.space in q.known && Valid(s, size) && q.users[s] in q.index && q.index[q.users[s]] == s)
    && (forall k <- q.index :: SlotOf(k) == q.index[k] && q.index[k] in q.users && q.users[q.index[k]] == k)
  }

  /** No marker is newer than its block. */
  ghost predicate NotNewer(m: Memory, mark: nat) {
    1 <= Unpack(mark).log <= Log(m, SlotOf(mark)) < LOGS
  }

  ghost predicate ProcOk(m: Memory, q: Proc, p: nat, size: nat) {
    && p in q.known && (forall s <- q.known :: s < SPACES)
    && Agree(q, size)
    && forall k <- q.index :: NotNewer(m, k)
  }

  /** An announcement stands for a node, and a node for a slot of another process is announced. */
  ghost predicate Announced(m: Memory, q: Proc, p: nat) {
    forall s: Slot ::
      && ((p, s) in m.held ==> s in q.users)
      && (s in q.users && s.space != p ==> (p, s) in m.held)
  }

  ghost predicate IssuedOk(y: System) {
    forall mark <- y.issued :: Valid(SlotOf(mark), y.size) && NotNewer(y.memory, mark)
  }

  /** The latest version of a slot has been handed out. */
  ghost predicate LatestOk(y: System) {
    forall s <- y.memory.logs :: Mark(y.memory.logs[s], s) in y.issued && y.memory.logs[s] < LOGS
  }

  ghost predicate Inv(y: System) {
    && y.size <= MAX_BLOCK_COUNT
    && (forall p <- y.procs ::
          p < SPACES && ProcOk(y.memory, y.procs[p], p, y.size) && Announced(y.memory, y.procs[p], p))
    && (forall h <- y.memory.held :: h.0 in y.procs)
    && IssuedOk(y) && LatestOk(y)
  }

  // ----- every step keeps the invariant -----

  lemma MarkOf(log: nat, s: Slot)
    requires log < LOGS && s.space < SPACES && s.pos < 0x10000
    ensures Unpack(Mark(log, s)) == Uni(log, s.pos, s.space) && SlotOf(Mark(log, s)) == s
  {
    UnpackPack(Uni(log, s.pos, s.space));
  }

  lemma RekeyAgree(q: Proc, s: Slot, mark: nat, size: nat)
    requires Agree(q, size) && s.space in q.known && Valid(s, size) && SlotOf(mark) == s
    ensures Agree(Rekey(q, s, mark), size)
  {
    hide Unpack;
  }

  /** Versions only go up. */
  ghost predicate Grown(m: Memory, n: Memory) {
    forall s: Slot :: Log(m, s) <= Log(n, s) < LOGS
  }

  lemma ProcLater(m: Memory, n: Memory, q: Proc, p: nat, size: nat)
    requires ProcOk(m, q, p, size) && Grown(m, n)
    ensures ProcOk(n, q, p, size)
  {
    hide Agree, Unpack, Log;
    assert forall k <- q.index :: NotNewer(m, k) && Log(m, SlotOf(k)) <= Log(n, SlotOf(k));
  }

  lemma IssuedLater(y: System, n: Memory)
    requires IssuedOk(y) && Grown(y.memory, n)
    ensures forall mark <- y.issued :: Valid(SlotOf(mark), y.size) && NotNewer(n, mark)
  {
    hide Unpack, Log;
    assert forall k <- y.issued :: NotNewer(y.memory, k) && Log(y.memory, SlotOf(k)) <= Log(n, SlotOf(k));
  }

  lemma AdvanceGrows(y: System, q: Proc, s: Slot)
    requires LatestOk(y) && Log(y.memory, s) + 1 < LOGS
    ensures Grown(y.memory, Advance(y.memory, q, s).0)
  {
    var n := Advance(y.memory, q, s).0;
    hide Mark;
    forall r: Slot
      ensures Log(y.memory, r) <= Log(n, r) < LOGS
    {
      assert r in y.memory.logs ==> y.memory.logs[r] < LOGS;
    }
  }

  /** A process that moves one of its slots on is in order, and so is what it has handed out. */
  lemma AdvanceProc(y: System, p: nat, s: Slot)
    requires Inv(y) && p in y.procs && s.space == p && s.pos < y.size && Log(y.memory, s) + 1 < LOGS
    ensures var (n, q, mark) := Advance(y.memory, y.procs[p], s);
            && ProcOk(n, q, p, y.size) && s in q.users && q.users[s] == mark
            && (forall r: Slot :: r in q.users <==> r in y.procs[p].users || r == s)
            && Valid(SlotOf(mark), y.size) && NotNewer(n, mark) && n.held == y.memory.held && mark == Mark(n.logs[s], s)
  {
    hide *;
    ProcIn(y, p);
    AdvanceIs(y.memory, y.procs[p], s);
    AdvanceGrows(y, y.procs[p], s);
    MarkOf(Log(y.memory, s) + 1, s);
    var (n, q, mark) := Advance(y.memory, y.procs[p], s);
    ProcLater(y.memory, n, y.procs[p], p, y.size);
    NewestMark(y.memory, n, s, mark, y.size);
    RekeyProc(n, y.procs[p], p, y.size, mark);
  }

  lemma AdvanceIs(m: Memory, q: Proc, s: Slot)
    ensures var (n, r, mark) := Advance(m, q, s);
            && n == m.(logs := m.logs[s := Log(m, s) + 1]) && mark == Mark(Log(m, s) + 1, s) && r == Rekey(q, s, mark)
            && s in r.users && r.users[s] == mark
  {
    hide Mark, Log;
  }

  lemma NewestMark(m: Memory, n: Memory, s: Slot, mark: nat, size: nat)
    requires n == m.(logs := m.logs[s := Log(m, s) + 1]) && SlotOf(mark) == s
             && Unpack(mark).log == Log(m, s) + 1 < LOGS
    requires s.space < SPACES && s.pos < size <= MAX_BLOCK_COUNT
    ensures NotNewer(n, mark) && Valid(s, size)
  {
    hide Unpack, SlotOf;
  }

  /** Memory and one process move on; the others have not announced anything. */
  lemma Moves(y: System, p: nat, n: Memory, q: Proc, issued: set<nat>)
    requires Inv(y) && p in y.procs && Grown(y.memory, n)
    requires ProcOk(n, q, p, y.size) && Announced(n, q, p)
    requires forall r: nat, s: Slot | r != p :: (r, s) in n.held <==> (r, s) in y.memory.held
    requires IssuedOk(System(y.size, n, map[], issued)) && LatestOk(System(y.size, n, map[], issued))
    ensures Inv(System(y.size, n, y.procs[p := q], issued))
  {
    hide Grown, Agree, Mark, SlotOf, Unpack, NotNewer, Log;
    var z := System(y.size, n, y.procs[p := q], issued);
    forall o | o in z.procs
      ensures o < SPACES && ProcOk(n, z.procs[o], o, y.size) && Announced(n, z.procs[o], o)
    {
      if o != p {
        ProcLater(y.memory, n, y.procs[o], o, y.size);
        assert Announced(y.memory, y.procs[o], o);
      }
    }
    hide ProcOk, Announced;
    forall h | h in n.held
      ensures h.0 in z.procs
    {
      assert h == (h.0, h.1);
    }
  }

  lemma IssuedMore(y: System, s: Slot, q: Proc)
    requires Inv(y) && s.space < SPACES && s.pos < y.size && Log(y.memory, s) + 1 < LOGS
    ensures var (n, _, mark) := Advance(y.memory, q, s);
            var z := System(y.size, n, map[], y.issued + {mark});
            IssuedOk(z) && LatestOk(z)
  {
    hide *;
    var (n, _, mark) := Advance(y.memory, q, s);
    InvOk(y);
    AdvanceIs(y.memory, q, s);
    AdvanceGrows(y, q, s);
    IssuedLater(y, n);
    MarkOf(Log(y.memory, s) + 1, s);
    NewestMark(y.memory, n, s, mark, y.size);
    IssuedAdd(y, n, mark);
    LatestAdd(y, n, s, mark);
  }

  lemma InvOk(y: System)
    requires Inv(y)
    ensures LatestOk(y) && IssuedOk(y) && y.size <= MAX_BLOCK_COUNT < 0x10000
  {
    hide ProcOk, Announced, LatestOk, IssuedOk;
  }

  lemma IssuedAdd(y: System, n: Memory, mark: nat)
    requires forall k <- y.issued :: Valid(SlotOf(k), y.size) && NotNewer(n, k)
    requires Valid(SlotOf(mark), y.size) && NotNewer(n, mark)
    ensures IssuedOk(System(y.size, n, map[], y.issued + {mark}))
  {
    hide Valid, NotNewer, SlotOf;
  }

  lemma LatestAdd(y: System, n: Memory, s: Slot, mark: nat)
    requires LatestOk(y) && n == y.memory.(logs := y.memory.logs[s := Log(y.memory, s) + 1])
    requires mark == Mark(Log(y.memory, s) + 1, s) && Log(y.memory, s) + 1 < LOGS
    ensures LatestOk(System(y.size, n, map[], y.issued + {mark}))
  {
    hide Mark, Log;
  }

  /** The slot that a fresh Write takes, and its place: it is within the space. */
  function Place(bias: nat, k: nat, size: nat): (i: nat)
    requires 0 < size
    ensures i < size
  {
    (bias + k) % size
  }

  lemma HeldLogs(m: Memory, held: set<(nat, Slot)>, q: Proc, p: nat, size: nat, issued: set<nat>)
    requires ProcOk(m, q, p, size)
    ensures ProcOk(m.(held := held), q, p, size)
    ensures IssuedOk(System(size, m, map[], issued)) ==> IssuedOk(System(size, m.(held := held), map[], issued))
    ensures LatestOk(System(size, m, map[], issued)) ==> LatestOk(System(size, m.(held := held), map[], issued))
  {
    var n := m.(held := held);
    assert forall k :: NotNewer(m, k) ==> NotNewer(n, k);
    hide Agree, NotNewer, Mark;
  }

  lemma GrownHeld(m: Memory, n: Memory, held: set<(nat, Slot)>)
    requires Grown(m, n)
    ensures Grown(m, n.(held := held))
  {
    forall s: Slot
      ensures Log(m, s) <= Log(n.(held := held), s) < LOGS
    {
      assert Log(n.(held := held), s) == Log(n, s);
    }
  }

  lemma BiasOk(m: Memory, q: Proc, p: nat, size: nat, bias: nat)
    requires ProcOk(m, q, p, size)
    ensures ProcOk(m, q.(bias := bias), p, size)
  {
  }

  lemma ProcIn(y: System, p: nat)
    requires Inv(y) && p in y.procs
    ensures p < SPACES && p in y.procs[p].known && (forall s <- y.procs[p].known :: s < SPACES)
    ensures ProcOk(y.memory, y.procs[p], p, y.size) && Announced(y.memory, y.procs[p], p)
    ensures LatestOk(y) && IssuedOk(y) && y.size <= MAX_BLOCK_COUNT < 0x10000
  {
  }

  /** A slot is announced and has a node; or, if it is the process's own, has a node. */
  lemma AnnouncedMore(m: Memory, n: Memory, q: Proc, q': Proc, p: nat, s: Slot)
    requires Announced(m, q, p) && forall r: Slot :: r in q'.users <==> r in q.users || r == s
    requires n.held == m.held + {(p, s)} || (n.held == m.held && s.space == p)
    ensures Announced(n, q', p)
    ensures forall r: nat, o: Slot | r != p :: (r, o) in n.held <==> (r, o) in m.held
  {
  }

  lemma AnnouncedLess(m: Memory, n: Memory, q: Proc, q': Proc, p: nat, s: Slot)
    requires Announced(m, q, p) && forall r: Slot :: r in q'.users <==> r in q.users && r != s
    requires n.held == m.held - {(p, s)}
    ensures Announced(n, q', p)
    ensures forall r: nat, o: Slot | r != p :: (r, o) in n.held <==> (r, o) in m.held
  {
  }

  lemma BiasAnnounced(m: Memory, q: Proc, p: nat, bias: nat)
    requires Announced(m, q, p)
    ensures Announced(m, q.(bias := bias), p)
  {
  }

  /** What a fresh Write does, and where. */
  lemma FreshIs(y: System, p: nat)
    requires Possible(y, Fresh(p))
    ensures var q := y.procs[p];
            var s := Slot(p, Place(q.bias, Scan(y.memory, q, p, y.size, 0), y.size));
            var (n, q', mark) := Advance(y.memory, q, s);
            && Usable(y.memory, q, p, s.pos) && Log(y.memory, s) + 1 < LOGS
            && WriteFresh(y.memory, q, p, y.size) == (n.(held := n.held + {(p, s)}), q'.(bias := s.pos + 1), mark)
            && Happen(y, Fresh(p)) ==
               System(y.size, n.(held := n.held + {(p, s)}), y.procs[p := q'.(bias := s.pos + 1)],
                      y.issued + {mark})
  {
    hide Advance, Log, Usable;
  }

  lemma FreshInv(y: System, p: nat)
    requires Inv(y) && Possible(y, Fresh(p))
    ensures Inv(Happen(y, Fresh(p)))
  {
    hide *;
    PossibleIn(y, Fresh(p), p);
    FreshIs(y, p);
    ProcIn(y, p);
    var q := y.procs[p];
    var s := Slot(p, Place(q.bias, Scan(y.memory, q, p, y.size, 0), y.size));
    var (n, q', mark) := Advance(y.memory, q, s);
    var held := n.held + {(p, s)};
    AdvanceProc(y, p, s);
    AnnouncedMore(y.memory, n.(held := held), q, q', p, s);
    BiasAnnounced(n.(held := held), q', p, s.pos + 1);
    IssuedMore(y, s, q);
    AdvanceGrows(y, q, s);
    HeldLogs(n, held, q', p, y.size, y.issued + {mark});
    GrownHeld(y.memory, n, held);
    BiasOk(n.(held := held), q', p, y.size, s.pos + 1);
    Moves(y, p, n.(held := held), q'.(bias := s.pos + 1), y.issued + {mark});
  }

  /** A marked Write moves the slot in its marker on, however its node is found. */
  lemma MarkedIs(y: System, p: nat, mark: nat)
    requires Inv(y) && Possible(y, Marked(p, mark))
    ensures var s := SlotOf(mark);
            var (n, q, r) := Advance(y.memory, y.procs[p], s);
            && s.space == p && s.pos < y.size && Log(y.memory, s) + 1 < LOGS
            && WriteMarked(y.memory, y.procs[p], p, mark) == (n, q, r)
            && Happen(y, Marked(p, mark)) == System(y.size, n, y.procs[p := q], y.issued + {r})
  {
    ProcIn(y, p);
    hide Advance, Log, Unpack, NotNewer, Inv, Announced;
  }

  lemma MarkedInv(y: System, p: nat, mark: nat)
    requires Inv(y) && Possible(y, Marked(p, mark))
    ensures Inv(Happen(y, Marked(p, mark)))
  {
    hide *;
    MarkedIs(y, p, mark);
    PossibleIn(y, Marked(p, mark), p);
    ProcIn(y, p);
    var q, s := y.procs[p], SlotOf(mark);
    var (n, q', r) := Advance(y.memory, q, s);
    AdvanceProc(y, p, s);
    AnnouncedMore(y.memory, n, q, q', p, s);
    IssuedMore(y, s, q);
    AdvanceGrows(y, q, s);
    Moves(y, p, n, q', y.issued + {r});
  }

  lemma PossibleIn(y: System, e: Event, p: nat)
    requires Possible(y, e) && !e.Join? && e.p == p
    ensures p in y.procs
    ensures e.Fresh? ==> 0 < y.size
  {
  }

  lemma ReadShape(m: Memory, q: Proc, p: nat, mark: nat)
    requires mark != 0
    ensures var (n, q', _) := Read(m, q, p, mark);
            var s := SlotOf(mark);
            && n == m.(held := m.held + {(p, s)})
            && (q' == Rekey(q, s, mark) || (q' == q && s in q.users && q.users[s] >= mark))
  {
    hide SlotOf, Rekey;
  }

  lemma IssuedIs(y: System, mark: nat)
    requires IssuedOk(y) && mark in y.issued
    ensures mark != 0 && Valid(SlotOf(mark), y.size) && NotNewer(y.memory, mark)
  {
    assert Unpack(0) == Uni(0, 0, 0);
  }

  lemma ReadIs(y: System, p: nat, mark: nat)
    requires Inv(y) && Possible(y, Reading(p, mark))
    ensures var (n, q, _) := Read(y.memory, y.procs[p], p, mark);
            var s := SlotOf(mark);
            && mark != 0 && Valid(s, y.size) && s.space in y.procs[p].known && NotNewer(y.memory, mark)
            && n == y.memory.(held := y.memory.held + {(p, s)})
            && (q == Rekey(y.procs[p], s, mark) || (q == y.procs[p] && s in q.users && q.users[s] >= mark))
            && Happen(y, Reading(p, mark)) == y.(memory := n, procs := y.procs[p := q])
  {
    IssuedIs(y, mark);
    ReadShape(y.memory, y.procs[p], p, mark);
    hide Unpack, Inv, Rekey, Read, NotNewer, Valid;
  }

  lemma RekeyProc(m: Memory, q: Proc, p: nat, size: nat, mark: nat)
    requires ProcOk(m, q, p, size) && Valid(SlotOf(mark), size) && SlotOf(mark).space in q.known && NotNewer(m, mark)
    ensures ProcOk(m, Rekey(q, SlotOf(mark), mark), p, size)
    ensures forall r: Slot :: r in Rekey(q, SlotOf(mark), mark).users <==> r in q.users || r == SlotOf(mark)
  {
    RekeyAgree(q, SlotOf(mark), mark, size);
    hide Agree, NotNewer, Valid, Unpack;
  }

  lemma ReadingInv(y: System, p: nat, mark: nat)
    requires Inv(y) && Possible(y, Reading(p, mark))
    ensures Inv(Happen(y, Reading(p, mark)))
  {
    hide *;
    PossibleIn(y, Reading(p, mark), p);
    ReadIs(y, p, mark);
    ProcIn(y, p);
    var (n, q, _) := Read(y.memory, y.procs[p], p, mark);
    RekeyProc(y.memory, y.procs[p], p, y.size, mark);
    AnnouncedMore(y.memory, n, y.procs[p], q, p, SlotOf(mark));
    HeldLogs(y.memory, n.held, q, p, y.size, y.issued);
    Same(y);
    GrownHeld(y.memory, y.memory, n.held);
    Moves(y, p, n, q, y.issued);
  }

  lemma Same(y: System)
    requires LatestOk(y)
    ensures Grown(y.memory, y.memory)
    ensures LatestOk(System(y.size, y.memory, map[], y.issued))
    ensures IssuedOk(y) ==> IssuedOk(System(y.size, y.memory, map[], y.issued))
  {
    forall s: Slot
      ensures Log(y.memory, s) < LOGS
    {
      assert s in y.memory.logs ==> y.memory.logs[s] < LOGS;
    }
  }

  lemma FreeProc(m: Memory, q: Proc, p: nat, size: nat, mark: nat)
    requires ProcOk(m, q, p, size) && mark in q.index
    ensures var q' := q.(users := q.users - {SlotOf(mark)}, index := q.index - {mark});
            ProcOk(m, q', p, size) && forall r: Slot :: r in q'.users <==> r in q.users && r != SlotOf(mark)
  {
    FreeAgree(q, size, mark);
    hide Agree, NotNewer, SlotOf;
  }

  lemma FreeAgree(q: Proc, size: nat, mark: nat)
    requires Agree(q, size) && mark in q.index
    ensures Agree(q.(users := q.users - {SlotOf(mark)}, index := q.index - {mark}), size)
  {
    hide Valid, Unpack;
  }

  lemma FreeingInv(y: System, p: nat, mark: nat)
    requires Inv(y) && Possible(y, Freeing(p, mark))
    ensures Inv(Happen(y, Freeing(p, mark)))
  {
    FreeIs(y, p, mark);
    ProcIn(y, p);
    hide *;
    if mark in y.procs[p].index {
      var (n, q) := Free(y.memory, y.procs[p], p, mark);
      FreeProc(y.memory, y.procs[p], p, y.size, mark);
      AnnouncedLess(y.memory, n, y.procs[p], q, p, SlotOf(mark));
      HeldLogs(y.memory, n.held, q, p, y.size, y.issued);
      Same(y);
      GrownHeld(y.memory, y.memory, n.held);
      Moves(y, p, n, q, y.issued);
    }
  }

  lemma FreeIs(y: System, p: nat, mark: nat)
    requires Possible(y, Freeing(p, mark))
    ensures var (n, q) := Free(y.memory, y.procs[p], p, mark);
            && Happen(y, Freeing(p, mark)) == y.(memory := n, procs := y.procs[p := q])
            && (mark !in y.procs[p].index ==> Happen(y, Freeing(p, mark)) == y)
            && (mark in y.procs[p].index ==>
                  && n == y.memory.(held := y.memory.held - {(p, SlotOf(mark))})
                  && q == y.procs[p].(users := y.procs[p].users - {SlotOf(mark)}, index := y.procs[p].index - {mark}))
  {
    assert y.procs[p := y.procs[p]] == y.procs;
    hide SlotOf;
  }

  lemma JoinInv(y: System, p: nat)
    requires Inv(y) && Possible(y, Join(p))
    ensures Inv(Happen(y, Join(p)))
  {
    var q := Proc({p}, map[], map[], 0);
    forall s: Slot
      ensures (p, s) !in y.memory.held
    {
      assert (p, s) in y.memory.held ==> (p, s).0 in y.procs;
    }
    assert ProcOk(y.memory, q, p, y.size);
    assert Announced(y.memory, q, p);
    hide ProcOk, Announced, Mark, NotNewer, Valid;
  }

  lemma LearnInv(y: System, p: nat, magics: set<nat>)
    requires Inv(y) && Possible(y, Learn(p, magics))
    ensures Inv(Happen(y, Learn(p, magics)))
  {
    var q := y.procs[p];
    assert ProcOk(y.memory, q, p, y.size) && Announced(y.memory, q, p);
    assert ProcOk(y.memory, q.(known := q.known + magics), p, y.size);
    assert Announced(y.memory, q.(known := q.known + magics), p);
    hide ProcOk, Announced, Mark, NotNewer, Valid;
  }

  lemma {:induction false} RunInv(size: nat, es: seq<Event>, y: System)
    requires Run(size, es, y)
    ensures Inv(y) && y.size == size
    decreases |es|
  {
    if es != [] {
      var before :| Run(size, es[..|es| - 1], before) && Possible(before, Last(es)) && y == Happen(before, Last(es));
      RunInv(size, es[..|es| - 1], before);
      StepInv(before, Last(es));
    }
  }

  /** Every step of every process keeps the invariant. */
  lemma StepInv(y: System, e: Event)
    requires Inv(y) && Possible(y, e)
    ensures Inv(Happen(y, e)) && Happen(y, e).size == y.size
  {
    match e {
      case Join(p) => JoinInv(y, p);
      case Learn(p, magics) => LearnInv(y, p, magics);
      case Fresh(p) => FreshInv(y, p);
      case Marked(p, mark) => MarkedInv(y, p, mark);
      case Reading(p, mark) => ReadingInv(y, p, mark);
      case Freeing(p, mark) => FreeingInv(y, p, mark);
    }
    hide Inv;
  }

  // ----- reclamation -----

  /** Process r has a node for slot s. */
  ghost predicate Has(y: System, r: nat, s: Slot) {
    r in y.procs && s in y.procs[r].users
  }

  /** What the scan looks at says exactly whether the slot is held by the process itself or by a process
      whose space it knows. */
  lemma UsableIff(size: nat, es: seq<Event>, y: System, p: nat, i: nat)
    requires Run(size, es, y) && p in y.procs
    ensures Usable(y.memory, y.procs[p], p, i) <==> forall r <- y.procs[p].known :: !Has(y, r, Slot(p, i))
  {
    RunInv(size, es, y);
    var q, s := y.procs[p], Slot(p, i);
    ProcIn(y, p);
    hide ProcOk, IssuedOk, LatestOk, Run;
    forall r | r in q.known
      ensures Has(y, r, s) <==> if r == p then s in q.users else (r, s) in y.memory.held
    {
      if r in y.procs {
        ProcIn(y, r);
        assert Announced(y.memory, y.procs[r], r);
      } else {
        assert (r, s) in y.memory.held ==> (r, s).0 in y.procs;
      }
    }
    assert Announced(y.memory, q, p);
    assert (p, s) in y.memory.held ==> s in q.users;
  }

  /** In every run a fresh Write hands out a slot that neither the process itself nor any process it
      knows still holds. */
  lemma Reclaimed(size: nat, es: seq<Event>, y: System, p: nat)
    requires Run(size, es, y) && Possible(y, Fresh(p))
    ensures var mark := WriteFresh(y.memory, y.procs[p], p, y.size).2;
            && SlotOf(mark).space == p && SlotOf(mark).pos < y.size
            && forall r <- y.procs[p].known :: !Has(y, r, SlotOf(mark))
  {
    hide *;
    RunInv(size, es, y);
    PossibleIn(y, Fresh(p), p);
    ProcIn(y, p);
    FreshIs(y, p);
    var q := y.procs[p];
    var i := Place(q.bias, Scan(y.memory, q, p, y.size, 0), y.size);
    UsableIff(size, es, y, p, i);
    AdvanceProc(y, p, Slot(p, i));
    MarkSlot(y, q, Slot(p, i));
  }

  lemma MarkSlot(y: System, q: Proc, s: Slot)
    requires s.space < SPACES && s.pos < y.size <= MAX_BLOCK_COUNT && Log(y.memory, s) + 1 < LOGS
    ensures var mark := Advance(y.memory, q, s).2;
            SlotOf(mark) == s && Unpack(mark).log == Log(y.memory, s) + 1
  {
    MarkOf(Log(y.memory, s) + 1, s);
    hide Log;
  }

  /** The scan goes round: every position has its turn. */
  lemma TurnOf(bias: nat, i: nat, size: nat) returns (k: nat)
    requires i < size
    ensures k < size && (bias + k) % size == i
  {
    var b := bias % size;
    k := if i >= b then i - b else i + size - b;
    assert bias == size * (bias / size) + b;
    if i >= b {
      Divides(size * (bias / size) + i, size, bias / size, i);
      assert bias + k == size * (bias / size) + i;
    } else {
      Divides(size * (bias / size + 1) + i, size, bias / size + 1, i);
      assert bias + k == size * (bias / size + 1) + i;
    }
  }

  /** And only once in a round. */
  lemma OneTurn(bias: nat, j: nat, k: nat, size: nat)
    requires j < size && k < size && (bias + j) % size == (bias + k) % size
    ensures j == k
  {
    var i := (bias + j) % size;
    assert bias + j == size * ((bias + j) / size) + i;
    assert bias + k == size * ((bias + k) / size) + i;
    var a, b := (bias + j) / size, (bias + k) / size;
    assert size * a + k == size * b + j by {
      assert size * a - size * b == j - k;
    }
    Quotient(size, a, k, b, j);
  }

  /** A fresh Write starts its scan behind the slot that the one before handed out: if the next position
      is usable, that is the next to be handed out. */
  lemma InTurn(m: Memory, q: Proc, p: nat, size: nat)
    requires 0 < size && Scan(m, q, p, size, 0) < size
    ensures var (n, r, _) := WriteFresh(m, q, p, size);
            var i := (q.bias + Scan(m, q, p, size, 0)) % size;
            Usable(n, r, p, (i + 1) % size) ==> Scan(n, r, p, size, 0) == 0 && r.bias == i + 1
  {
    hide Usable, Advance, Log, Mark, Rekey;
  }

  /** The scan comes up with a slot exactly if some position is usable. */
  lemma ScanFinds(m: Memory, q: Proc, p: nat, size: nat)
    requires 0 < size
    ensures Scan(m, q, p, size, 0) < size <==> exists i: nat :: i < size && Usable(m, q, p, i)
  {
    var r := Scan(m, q, p, size, 0);
    if i: nat :| i < size && Usable(m, q, p, i) {
      var k := TurnOf(q.bias, i, size);
      assert k < r ==> Passed(m, q, p, size, k);
    }
    if r < size {
      assert Usable(m, q, p, Place(q.bias, r, size));
    }
  }

  /** Of holders and announcements only those of process r for slot o may differ. */
  ghost predicate OthersKept(y: System, z: System, r: nat, o: Slot) {
    forall q: nat, s: Slot | q != r || s != o ::
      (Has(z, q, s) <==> Has(y, q, s)) && ((q, s) in z.memory.held <==> (q, s) in y.memory.held)
  }

  /** Process p changes what it has of slot s, and its announcement of s. */
  lemma OneChanges(y: System, z: System, p: nat, s: Slot, q: Proc)
    requires p in y.procs && z.procs == y.procs[p := q]
    requires forall o: Slot | o != s :: o in q.users <==> o in y.procs[p].users
    requires z.memory.held == y.memory.held + {(p, s)} || z.memory.held == y.memory.held - {(p, s)}
    ensures OthersKept(y, z, p, s)
    ensures (Has(z, p, s) <==> s in q.users) && (Has(y, p, s) <==> s in y.procs[p].users)
    ensures p in z.procs && z.procs[p] == q
  {
  }

  /** After a fresh Write the process holds the slot, under the marker handed out, and has announced it. */
  lemma FreshTakes(size: nat, es: seq<Event>, y: System, p: nat)
    requires Run(size, es, y) && Possible(y, Fresh(p))
    ensures var z, mark := Happen(y, Fresh(p)), WriteFresh(y.memory, y.procs[p], p, y.size).2;
            var s := SlotOf(mark);
            && s.space == p && !Has(y, p, s) && Has(z, p, s) && z.procs[p].users[s] == mark
            && (p, s) in z.memory.held && OthersKept(y, z, p, s)
  {
    hide *;
    RunInv(size, es, y);
    PossibleIn(y, Fresh(p), p);
    ProcIn(y, p);
    SizeIn(y);
    FreshIs(y, p);
    var q := y.procs[p];
    var s := Slot(p, Place(q.bias, Scan(y.memory, q, p, y.size, 0), y.size));
    var (n, q', mark) := Advance(y.memory, q, s);
    AdvanceIs(y.memory, q, s);
    MarkSlot(y, q, s);
    RekeyUsers(q, s, mark);
    UsableFree(y.memory, q, p, s.pos);
    OneChanges(y, Happen(y, Fresh(p)), p, s, q'.(bias := s.pos + 1));
  }

  lemma UsableFree(m: Memory, q: Proc, p: nat, i: nat)
    requires Usable(m, q, p, i)
    ensures Slot(p, i) !in q.users
  {
  }

  lemma RekeyUsers(q: Proc, s: Slot, mark: nat)
    ensures Rekey(q, s, mark).users == q.users[s := mark]
  {
  }

  /** After a Read the process has a node for the slot, under the later of the marker and what it had, which is
      what it is given, and it has announced the slot. */
  lemma ReadTakes(size: nat, es: seq<Event>, y: System, p: nat, mark: nat)
    requires Run(size, es, y) && Possible(y, Reading(p, mark))
    ensures var z, s := Happen(y, Reading(p, mark)), SlotOf(mark);
            && Has(z, p, s) && (p, s) in z.memory.held && OthersKept(y, z, p, s)
            && z.procs[p].users[s] == Read(y.memory, y.procs[p], p, mark).2
            && z.procs[p].users[s] ==
               (if Has(y, p, s) && y.procs[p].users[s] > mark then y.procs[p].users[s] else mark)
  {
    hide *;
    RunInv(size, es, y);
    PossibleIn(y, Reading(p, mark), p);
    ReadIs(y, p, mark);
    ReadResult(y.memory, y.procs[p], p, mark);
    RekeyUsers(y.procs[p], SlotOf(mark), mark);
    OneChanges(y, Happen(y, Reading(p, mark)), p, SlotOf(mark), Read(y.memory, y.procs[p], p, mark).1);
  }

  lemma ReadResult(m: Memory, q: Proc, p: nat, mark: nat)
    requires mark != 0
    ensures var (_, q', r) := Read(m, q, p, mark);
            var s := SlotOf(mark);
            && s in q'.users && q'.users[s] == r
            && r == if s in q.users && q.users[s] > mark then q.users[s] else mark
  {
    hide SlotOf;
  }

  /** Free with the marker of its node: the process holds the slot no longer, nor announces it. With any other
      marker nothing changes. */
  lemma FreeGives(size: nat, es: seq<Event>, y: System, p: nat, mark: nat)
    requires Run(size, es, y) && Possible(y, Freeing(p, mark))
    ensures var z, s := Happen(y, Freeing(p, mark)), SlotOf(mark);
            if Has(y, p, s) && y.procs[p].users[s] == mark
            then !Has(z, p, s) && (p, s) !in z.memory.held && OthersKept(y, z, p, s)
            else z == y
  {
    hide *;
    RunInv(size, es, y);
    PossibleIn(y, Freeing(p, mark), p);
    ProcIn(y, p);
    FreeIs(y, p, mark);
    AgreeOf(y.memory, y.procs[p], p, y.size);
    IndexUsers(y.procs[p], y.size, mark);
    HasIff(y, p, SlotOf(mark));
    if mark in y.procs[p].index {
      OneChanges(y, Happen(y, Freeing(p, mark)), p, SlotOf(mark), Free(y.memory, y.procs[p], p, mark).1);
    }
  }

  lemma AgreeOf(m: Memory, q: Proc, p: nat, size: nat)
    requires ProcOk(m, q, p, size)
    ensures Agree(q, size)
  {
    hide Agree;
  }

  lemma HasIff(y: System, p: nat, s: Slot)
    requires p in y.procs
    ensures Has(y, p, s) <==> s in y.procs[p].users
  {
  }

  lemma IndexUsers(q: Proc, size: nat, mark: nat)
    requires Agree(q, size)
    ensures mark in q.index <==> SlotOf(mark) in q.users && q.users[SlotOf(mark)] == mark
  {
    hide Valid, Unpack;
  }

  /** Reuse: once a slot is given back, its owner can hand it out again if and only if no process that the owner
      knows, itself included, still holds it. */
  lemma FreedUsable(size: nat, es: seq<Event>, y: System, p: nat, mark: nat, o: nat)
    requires Run(size, es, y) && Possible(y, Freeing(p, mark)) && o in y.procs && SlotOf(mark).space == o
    requires Has(y, p, SlotOf(mark)) && y.procs[p].users[SlotOf(mark)] == mark
    ensures var z, s := Happen(y, Freeing(p, mark)), SlotOf(mark);
            && o in z.procs && z.procs[o].known == y.procs[o].known
            && (Usable(z.memory, z.procs[o], o, s.pos) <==>
                  forall r <- y.procs[o].known :: r == p || !Has(y, r, s))
  {
    var z, s := Happen(y, Freeing(p, mark)), SlotOf(mark);
    FreeGives(size, es, y, p, mark);
    RunSnoc(size, es, y, Freeing(p, mark));
    FreeKnows(y, p, mark, o);
    UsableIff(size, es + [Freeing(p, mark)], z, o, s.pos);
    assert Slot(o, s.pos) == s;
    hide Run, Possible, Happen, Usable, SlotOf;
  }

  lemma FreeKnows(y: System, p: nat, mark: nat, o: nat)
    requires Possible(y, Freeing(p, mark)) && o in y.procs
    ensures o in Happen(y, Freeing(p, mark)).procs
    ensures Happen(y, Freeing(p, mark)).procs[o].known == y.procs[o].known
  {
    hide SlotOf;
  }

  // ----- versions -----

  /** The marker that a Write hands out is new: it is the next version of its block. */
  lemma NeverRepeats(size: nat, es: seq<Event>, y: System, e: Event)
    requires Run(size, es, y) && Possible(y, e) && (e.Fresh? || e.Marked?)
    ensures var mark := if e.Fresh? then WriteFresh(y.memory, y.procs[e.p], e.p, y.size).2
                        else WriteMarked(y.memory, y.procs[e.p], e.p, e.mark).2;
            && mark !in y.issued && Happen(y, e).issued == y.issued + {mark}
            && Unpack(mark).log == Log(y.memory, SlotOf(mark)) + 1 == Log(Happen(y, e).memory, SlotOf(mark))
            && forall s: Slot | s != SlotOf(mark) :: Log(Happen(y, e).memory, s) == Log(y.memory, s)
  {
    hide *;
    RunInv(size, es, y);
    PossibleIn(y, e, e.p);
    ProcIn(y, e.p);
    SizeIn(y);
    var q := y.procs[e.p];
    match e {
      case Fresh(p) =>
        FreshIs(y, p);
        var s := Slot(p, Place(q.bias, Scan(y.memory, q, p, y.size, 0), y.size));
        MarkSlot(y, q, s);
        NextVersion(y, q, s, Advance(y.memory, q, s).0.held + {(p, s)});
      case Marked(p, mark) =>
        MarkedIs(y, p, mark);
        MarkSlot(y, q, SlotOf(mark));
        NextVersion(y, q, SlotOf(mark), Advance(y.memory, q, SlotOf(mark)).0.held);
    }
  }

  lemma SizeIn(y: System)
    requires Inv(y)
    ensures y.size <= MAX_BLOCK_COUNT
  {
  }

  lemma NextVersion(y: System, q: Proc, s: Slot, held: set<(nat, Slot)>)
    requires IssuedOk(y) && SlotOf(Advance(y.memory, q, s).2) == s
             && Unpack(Advance(y.memory, q, s).2).log == Log(y.memory, s) + 1
    ensures var (n, _, mark) := Advance(y.memory, q, s);
            && mark !in y.issued && Log(n.(held := held), s) == Log(y.memory, s) + 1 && n.(held := n.held) == n
            && forall o: Slot | o != s :: Log(n.(held := held), o) == Log(y.memory, o)
  {
    var mark := Advance(y.memory, q, s).2;
    assert mark in y.issued ==> NotNewer(y.memory, mark);
    hide Unpack, Mark, SlotOf;
  }

  /** What `Ok` says about a marker that was read: true exactly if no later version has been handed out. */
  lemma OkIff(size: nat, es: seq<Event>, y: System, p: nat, mark: nat)
    requires Run(size, es, y) && p in y.procs && mark in y.procs[p].index && Unpack(mark).shift != p
    ensures Ok(y.memory, y.procs[p], p, mark) <==>
            forall o <- y.issued | SlotOf(o) == SlotOf(mark) :: Unpack(o).log <= Unpack(mark).log
  {
    RunInv(size, es, y);
    ProcIn(y, p);
    IndexIs(y.memory, y.procs[p], p, y.size, mark);
    var s := SlotOf(mark);
    hide Run, Agree, ProcOk, Inv, Announced;
    assert forall o <- y.issued :: NotNewer(y.memory, o);
    LatestIs(y, s);
    hide Mark;
  }

  lemma IndexIs(m: Memory, q: Proc, p: nat, size: nat, mark: nat)
    requires ProcOk(m, q, p, size) && mark in q.index
    ensures q.index[mark] == SlotOf(mark) && NotNewer(m, mark) && mark != 0 && Valid(SlotOf(mark), size)
  {
    assert Unpack(0) == Uni(0, 0, 0);
  }

  lemma LatestIs(y: System, s: Slot)
    requires LatestOk(y) && Log(y.memory, s) > 0 && Valid(s, y.size)
    ensures exists o :: o in y.issued && SlotOf(o) == s && Unpack(o).log == Log(y.memory, s)
  {
    MarkOf(Log(y.memory, s), s);
    assert Mark(Log(y.memory, s), s) in y.issued;
    hide Unpack, Mark;
  }

  /** A later version of the same slot has the greater key. */
  lemma LaterKey(m: Memory, before: nat, mark: nat)
    requires NotNewer(m, before) && Unpack(mark).log == Log(m, SlotOf(before)) + 1 < LOGS
    ensures before < mark
  {
    PackUnpack(before);
    PackUnpack(mark);
    PackOrder(Unpack(before), Unpack(mark));
  }

  lemma AdvanceKeys(y: System, q: Proc, o: Slot, s: Slot)
    requires s in q.users && SlotOf(q.users[s]) == s && NotNewer(y.memory, q.users[s])
    requires o.space < SPACES && o.pos < y.size <= MAX_BLOCK_COUNT && Log(y.memory, o) + 1 < LOGS
    ensures var q' := Advance(y.memory, q, o).1; s in q'.users && q.users[s] <= q'.users[s]
  {
    MarkSlot(y, q, o);
    if s == o {
      LaterKey(y.memory, q.users[s], Advance(y.memory, q, o).2);
    }
    hide NotNewer, SlotOf, Mark, Log;
  }

  /** As long as a process has a node for a slot, the node's key only grows. */
  lemma KeysRise(size: nat, es: seq<Event>, y: System, e: Event, p: nat, s: Slot)
    requires Run(size, es, y) && Possible(y, e) && Has(y, p, s) && Has(Happen(y, e), p, s)
    ensures y.procs[p].users[s] <= Happen(y, e).procs[p].users[s]
  {
    hide *;
    RunInv(size, es, y);
    HasIs(y, p, s);
    HasIs(Happen(y, e), p, s);
    ProcIn(y, p);
    UserIs(y.memory, y.procs[p], p, y.size, s);
    SizeIn(y);
    if e.Join? || e.p != p {
      OtherProc(y, e, p);
    } else {
      match e {
        case Fresh(_) =>
          FreshIs(y, p);
          var i := Scan(y.memory, y.procs[p], p, y.size, 0);
          AdvanceKeys(y, y.procs[p], Slot(p, Place(y.procs[p].bias, i, y.size)), s);
        case Marked(_, mark) =>
          MarkedIs(y, p, mark);
          AdvanceKeys(y, y.procs[p], SlotOf(mark), s);
        case Reading(_, mark) =>
          ReadKeys(y, p, mark, s);
        case Freeing(_, mark) =>
          FreeIs(y, p, mark);
        case Learn(_, magics) =>
          LearnKeys(y, p, magics);
      }
    }
  }

  lemma HasIs(y: System, p: nat, s: Slot)
    requires Has(y, p, s)
    ensures p in y.procs && s in y.procs[p].users
  {
  }

  lemma ReadKeys(y: System, p: nat, mark: nat, s: Slot)
    requires Possible(y, Reading(p, mark)) && s in y.procs[p].users
    ensures var q := Happen(y, Reading(p, mark)).procs[p]; s in q.users && y.procs[p].users[s] <= q.users[s]
  {
    hide SlotOf;
  }

  lemma LearnKeys(y: System, p: nat, magics: set<nat>)
    requires Possible(y, Learn(p, magics))
    ensures Happen(y, Learn(p, magics)).procs[p].users == y.procs[p].users
  {
  }

  lemma UserIs(m: Memory, q: Proc, p: nat, size: nat, s: Slot)
    requires ProcOk(m, q, p, size) && s in q.users
    ensures SlotOf(q.users[s]) == s && NotNewer(m, q.users[s]) && Valid(s, size)
  {
    assert q.users[s] in q.index;
  }

  lemma OtherProc(y: System, e: Event, p: nat)
    requires Possible(y, e) && p in y.procs && (e.Join? || e.p != p)
    ensures Happen(y, e).procs[p] == y.procs[p]
  {
  }

  // ----- what the promises depend on -----

  lemma RunSnoc(size: nat, es: seq<Event>, y: System, e: Event)
    requires Run(size, es, y) && Possible(y, e)
    ensures Run(size, es + [e], Happen(y, e))
  {
    hide Possible, Happen;
    assert (es + [e])[..|es + [e]| - 1] == es && Last(es + [e]) == e;
  }

  /** What the first branch of Write asserts of a marker under which it finds a node: that the process has
      announced its own slot. */
  predicate Announces(m: Memory, q: Proc, p: nat, mark: nat) {
    mark in q.index ==> (p, SlotOf(mark)) in m.held
  }

  /** In every run a Write with a marker of its own leaves the process's own bit as it was, and it is clear
      if the slot had no node. Then what the next Write asserts of the marker just handed out is false:
      that a slot is its own the process tells by its array of slots, not by the bit. */
  lemma OwnBit(size: nat, es: seq<Event>, y: System, p: nat, mark: nat)
    requires Run(size, es, y) && Possible(y, Marked(p, mark))
    ensures var z, s, r := Happen(y, Marked(p, mark)), SlotOf(mark), WriteMarked(y.memory, y.procs[p], p, mark).2;
            && s.space == p && SlotOf(r) == s && Has(z, p, s) && r in z.procs[p].index
            && ((p, s) in z.memory.held <==> (p, s) in y.memory.held)
            && (Announces(z.memory, z.procs[p], p, r) <==> (p, s) in y.memory.held)
            && (!Has(y, p, s) ==> (p, s) !in z.memory.held && !Announces(z.memory, z.procs[p], p, r))
  {
    RunInv(size, es, y);
    PossibleIn(y, Marked(p, mark), p);
    ProcIn(y, p);
    SizeIn(y);
    MarkedIs(y, p, mark);
    var s := SlotOf(mark);
    MarkSlot(y, y.procs[p], s);
    AdvanceIs(y.memory, y.procs[p], s);
    assert Announced(y.memory, y.procs[p], p);
    hide Run, Inv, ProcOk, Mark, SlotOf, Log, Possible, Happen, WriteMarked, Advance, IssuedOk, LatestOk;
  }

  /** There are such runs: a process that has just joined writes with a marker of its own. */
  lemma OwnBitClear(size: nat, p: nat, log: nat)
    requires 0 < size <= MAX_BLOCK_COUNT && p < SPACES && 0 < log < LOGS
    ensures Possible(Start(size), Join(p)) && Run(size, [Join(p)], Happen(Start(size), Join(p)))
    ensures var y := Happen(Start(size), Join(p));
            Possible(y, Marked(p, Mark(log, Slot(p, 0)))) && !Has(y, p, Slot(p, 0))
  {
    var y0 := Start(size);
    RunSnoc(size, [], y0, Join(p));
    assert [] + [Join(p)] == [Join(p)];
    MarkOf(log, Slot(p, 0));
    assert Unpack(0) == Uni(0, 0, 0);
    hide Unpack, Mark;
  }

  /** Two processes with spaces of one block, of which only the second knows the other. */
  function Strangers(memory: Memory, q: Proc, r: Proc, issued: set<nat>): System {
    System(1, memory, map[0 := q, 1 := r], issued)
  }

  lemma StrangersMeet() returns (es: seq<Event>)
    ensures Run(1, es, Strangers(Memory(map[], {}), Proc({0}, map[], map[], 0), Proc({1, 0}, map[], map[], 0), {}))
  {
    hide Scan;
    var q, r := Proc({0}, map[], map[], 0), Proc({1}, map[], map[], 0);
    var y0, m := Start(1), Memory(map[], {});
    RunSnoc(1, [], y0, Join(0));
    var y1 := System(1, m, map[0 := q], {});
    assert Happen(y0, Join(0)) == y1;
    RunSnoc(1, [] + [Join(0)], y1, Join(1));
    var y2 := Strangers(m, q, r, {});
    assert Happen(y1, Join(1)) == y2;
    RunSnoc(1, [] + [Join(0)] + [Join(1)], y2, Learn(1, {0}));
    es := [] + [Join(0)] + [Join(1)] + [Learn(1, {0})];
    assert r.(known := {1} + {0}) == Proc({1, 0}, map[], map[], 0);
    assert Happen(y2, Learn(1, {0})) == Strangers(m, q, Proc({1, 0}, map[], map[], 0), {});
  }

  const SHARED := Slot(0, 0)

  /** How the two go on: the first hands the block out, the second reads it, the first frees it. */
  ghost function Stage(k: nat): System {
    var a, s := Mark(1, SHARED), SHARED;
    var unused, reader := Proc({0}, map[], map[], 0), Proc({1, 0}, map[], map[], 0);
    var owner := Proc({0}, map[s := a], map[a := s], 1);
    if k == 0 then Strangers(Memory(map[], {}), unused, reader, {})
    else if k == 1 then Strangers(Memory(map[s := 1], {(0, s)}), owner, reader, {a})
    else if k == 2 then
      Strangers(Memory(map[s := 1], {(0, s), (1, s)}), owner, Proc({1, 0}, map[s := a], map[a := s], 0), {a})
    else Strangers(Memory(map[s := 1], {(1, s)}), Proc({0}, map[], map[], 1),
                   Proc({1, 0}, map[s := a], map[a := s], 0), {a})
  }

  lemma StageFresh()
    ensures Possible(Stage(0), Fresh(0)) && Happen(Stage(0), Fresh(0)) == Stage(1)
  {
    FirstFresh(Memory(map[], {}), Proc({0}, map[], map[], 0), SHARED);
    hide Mark, Scan;
  }

  lemma StageRead()
    ensures Possible(Stage(1), Reading(1, Mark(1, SHARED))) && Happen(Stage(1), Reading(1, Mark(1, SHARED))) == Stage(2)
  {
    var a := Mark(1, SHARED);
    MarkOf(1, SHARED);
    hide Mark, Unpack;
    var y := Stage(1);
    ReadFirst(y.memory, y.procs[1], SHARED, a);
  }

  lemma StageFree()
    ensures Possible(Stage(2), Freeing(0, Mark(1, SHARED))) && Happen(Stage(2), Freeing(0, Mark(1, SHARED))) == Stage(3)
  {
    MarkOf(1, SHARED);
    hide Mark, Unpack;
    var y := Stage(2);
    FreeFirst(y.memory, y.procs[0], SHARED, Mark(1, SHARED));
    assert {(0 as nat, SHARED), (1 as nat, SHARED)} - {(0 as nat, SHARED)} == {(1 as nat, SHARED)};
  }

  lemma StageEnd()
    ensures var y := Stage(3);
            && Has(y, 1, SHARED) && 0 in y.procs && 1 !in y.procs[0].known
            && Possible(y, Fresh(0)) && SlotOf(WriteFresh(y.memory, y.procs[0], 0, 1).2) == SHARED
  {
    var y := Stage(3);
    FirstFresh(y.memory, y.procs[0], SHARED);
    MarkOf(2, SHARED);
    hide Mark, Scan, SlotOf;
  }

  /** Knowing the reader matters: a process hands a slot out again that a process it does not know still
      holds. */
  lemma UnknownReader() returns (es: seq<Event>)
    ensures var y := Stage(3);
            && Run(1, es, y) && Has(y, 1, SHARED) && 0 in y.procs && 1 !in y.procs[0].known
            && Possible(y, Fresh(0)) && SlotOf(WriteFresh(y.memory, y.procs[0], 0, 1).2) == SHARED
  {
    es := StrangersMeet();
    StageFresh();
    StageRead();
    StageFree();
    StageEnd();
    var a := Mark(1, SHARED);
    assert Stage(0) == Strangers(Memory(map[], {}), Proc({0}, map[], map[], 0), Proc({1, 0}, map[], map[], 0), {});
    hide *;
    RunSnoc(1, es, Stage(0), Fresh(0));
    RunSnoc(1, es + [Fresh(0)], Stage(1), Reading(1, a));
    RunSnoc(1, es + [Fresh(0)] + [Reading(1, a)], Stage(2), Freeing(0, a));
    es := es + [Fresh(0)] + [Reading(1, a)] + [Freeing(0, a)];
  }

  lemma FirstFresh(m: Memory, q: Proc, s: Slot)
    requires s == Slot(0, 0) && Usable(m, q, 0, 0) && q.known == {0} && q.users == map[] && q.index == map[]
             && Log(m, s) <= 1
    ensures Scan(m, q, 0, 1, 0) == 0
    ensures WriteFresh(m, q, 0, 1) ==
            (Memory(m.logs[s := Log(m, s) + 1], m.held + {(0, s)}),
             Proc({0}, map[s := Mark(Log(m, s) + 1, s)], map[Mark(Log(m, s) + 1, s) := s], 1), Mark(Log(m, s) + 1, s))
  {
    hide Mark;
    assert (q.bias + 0) % 1 == 0;
  }

  lemma ReadFirst(m: Memory, r: Proc, s: Slot, a: nat)
    requires a != 0 && SlotOf(a) == s && r.users == map[] && r.index == map[]
    ensures Read(m, r, 1, a) == (m.(held := m.held + {(1, s)}), r.(users := map[s := a], index := map[a := s]), a)
  {
    hide SlotOf;
  }

  lemma FreeFirst(m: Memory, q: Proc, s: Slot, a: nat)
    requires SlotOf(a) == s && q.users == map[s := a] && q.index == map[a := s]
    ensures Free(m, q, 0, a) == (m.(held := m.held - {(0, s)}), q.(users := map[], index := map[]))
  {
    hide SlotOf;
  }
}
