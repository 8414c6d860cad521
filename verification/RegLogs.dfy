/** The register table (`RegTable`, `Regedit`): a file with one record per slot, that every process reads
    into a table of its own, merges into a view of its own, and writes for its own slot. A record carries
    a log that grows like a Lamport clock. The phases of a merge of different processes interleave. */
module RegLogs {
  import opened Sequences

  const SLOTS: nat := 64
  const NO_PID: nat := 0xffff_ffff

  datatype Record = Record(tmark: nat, kind: nat, magic: nat, pid: nat, log: nat, see: set<nat>) {
    /** `Register::ok`. */
    predicate Ok() {
      0 < pid && pid != NO_PID
    }
  }

  const BLANK := Record(0, 0, 0, 0, 0, {})

  /** A table without entries. */
  function Blanks(): (v: seq<Record>)
    ensures |v| == SLOTS && forall i | 0 <= i < SLOTS :: v[i] == BLANK
  {
    seq(SLOTS, _ => BLANK)
  }

  /** `Regedit::IxByMagic`. */
  function Ix(magic: nat): nat {
    magic % SLOTS
  }

  // ----- the functions of one process -----

  /** `RegTable::W2`: the records in the file that are ok, each in the slot of its magic. */
  function Load(file: seq<Record>, n: nat): (w2: seq<Record>)
    requires n <= |file|
    ensures |w2| == SLOTS
  {
    if n == 0 then Blanks()
    else
      var w2, r := Load(file, n - 1), file[n - 1];
      if r.Ok() then w2[Ix(r.magic) := r] else w2
  }

  /** `RegTable::ReCalcLog`: more than the log given and all logs in the table. */
  function Max(w2: seq<Record>, log: nat): (m: nat)
    ensures log <= m && forall i | 0 <= i < |w2| && w2[i].Ok() :: w2[i].log <= m
    ensures m == log || exists i :: 0 <= i < |w2| && w2[i].Ok() && w2[i].log == m
  {
    if w2 == [] then log
    else
      var m := Max(w2[..|w2| - 1], log);
      if w2[|w2| - 1].Ok() && m < w2[|w2| - 1].log then w2[|w2| - 1].log else m
  }

  function NextLog(w2: seq<Record>, log: nat): nat {
    Max(w2, log) + 1
  }

  /** The saving phase of `RegTable::Merge`: for every commit the record that the view has now is written,
      if its log is newer than the table's. */
  function Save(w2: seq<Record>, file: seq<Record>, view: seq<Record>,
                commits: seq<nat>): (r: (seq<Record>, seq<Record>))
    requires |w2| == |file| == |view| == SLOTS && forall i | 0 <= i < |commits| :: commits[i] < SLOTS
    ensures |r.0| == |r.1| == SLOTS
  {
    if commits == [] then (w2, file)
    else
      var (w, f) := Save(w2, file, view, commits[..|commits| - 1]);
      var r := view[commits[|commits| - 1]];
      if w[Ix(r.magic)].log < r.log then (w[Ix(r.magic) := r], f[Ix(r.magic) := r]) else (w, f)
  }

  /** `Regedit::Update`: the record replaces the view's if it has the newer log or the newer mark. */
  function Update(view: seq<Record>, r: Record): (v: seq<Record>)
    requires |view| == SLOTS
    ensures |v| == SLOTS
  {
    var mine := view[Ix(r.magic)];
    if mine.log < r.log || mine.tmark < r.tmark then view[Ix(r.magic) := r] else view
  }

  /** The updating phase of `RegTable::Merge`, for the first n records of the table. */
  function UpdateAll(view: seq<Record>, w2: seq<Record>, n: nat): (v: seq<Record>)
    requires |view| == SLOTS && n <= |w2|
    ensures |v| == SLOTS
  {
    if n == 0 then view
    else
      var v := UpdateAll(view, w2, n - 1);
      if w2[n - 1].Ok() then Update(v, w2[n - 1]) else v
  }

  /** Every record that is ok is in the slot of its magic, and the others carry no log. */
  ghost predicate Placed(t: seq<Record>) {
    |t| == SLOTS && forall i | 0 <= i < |t| :: PlacedAt(t[i], i)
  }

  ghost predicate PlacedAt(r: Record, i: nat) {
    if r.Ok() then Ix(r.magic) == i else r.log == 0
  }

  lemma {:induction false} LoadIs(file: seq<Record>, n: nat)
    requires Placed(file) && n <= SLOTS
    ensures forall i | 0 <= i < SLOTS :: Load(file, n)[i] == if i < n && file[i].Ok() then file[i] else BLANK
  {
    if n > 0 {
      LoadIs(file, n - 1);
      assert PlacedAt(file[n - 1], n - 1);
    }
  }

  ghost predicate Newer(r: Record, mine: Record) {
    r.Ok() && (mine.log < r.log || mine.tmark < r.tmark)
  }

  lemma {:induction false} UpdateIs(view: seq<Record>, w2: seq<Record>, n: nat)
    requires |view| == SLOTS && Placed(w2) && n <= SLOTS
    ensures forall i | 0 <= i < SLOTS ::
              UpdateAll(view, w2, n)[i] == if i < n && Newer(w2[i], view[i]) then w2[i] else view[i]
  {
    if n > 0 {
      UpdateIs(view, w2, n - 1);
      assert PlacedAt(w2[n - 1], n - 1);
    }
  }

  /** All commits are of slot p: saving writes the view's record of p, if it is newer, and nothing else. */
  lemma {:induction false} SaveIs(w2: seq<Record>, file: seq<Record>, view: seq<Record>, commits: seq<nat>, p: nat)
    requires |w2| == |file| == |view| == SLOTS && p < SLOTS
    requires forall i | 0 <= i < |commits| :: commits[i] == p
    requires PlacedAt(view[p], p)
    ensures var (w, f) := Save(w2, file, view, commits);
            if commits != [] && w2[p].log < view[p].log then w == w2[p := view[p]] && f == file[p := view[p]]
            else (w, f) == (w2, file)
  {
    if commits != [] {
      SaveIs(w2, file, view, commits[..|commits| - 1], p);
    }
  }

  // ----- all processes -----

  datatype Phase = Idle | HasRead | HasSaved | HasUpdated

  datatype Proc = Proc(w2: seq<Record>, view: seq<Record>, commits: seq<nat>, phase: Phase)

  /** The file; the processes, process p with slot p; and every record that process p has ever made for
      its slot, by its log, without the mark. */
  datatype System = System(file: seq<Record>, procs: map<nat, Proc>, said: map<(nat, nat), Record>)

  datatype Op = Add(magic: nat, kind: nat, pid: nat) | Link(pos: nat) | Unlink(pos: nat)

  datatype Event =
    | Join(p: nat)
    | Change(p: nat, op: Op)
    | Loading(p: nat)
    | Saving(p: nat)
    | Updating(p: nat)
    | Marking(p: nat, tmark: nat)

  /** What `AddNode`, `AddEdge` and `DelEdge` make of the record of a slot. */
  function Changed(w2: seq<Record>, r: Record, op: Op): Record {
    match op
    case Add(magic, kind, pid) => Record(r.tmark, kind, magic, pid, NextLog(w2, r.log), {})
    case Link(pos) => if r.Ok() then r.(see := r.see + {pos}, log := NextLog(w2, r.log)) else r
    case Unlink(pos) => if r.Ok() then r.(see := r.see - {pos}, log := NextLog(w2, r.log)) else r
  }

  function Body(r: Record): Record {
    r.(tmark := 0)
  }

  /** A process joins once, changes its slot between merges, and merges phase by phase. */
  ghost predicate Possible(y: System, e: Event) {
    && |y.file| == SLOTS && e.p < SLOTS
    && if e.Join? then e.p !in y.procs
       else
         && e.p in y.procs
         && |y.procs[e.p].w2| == |y.procs[e.p].view| == SLOTS
         && (forall i | 0 <= i < |y.procs[e.p].commits| :: y.procs[e.p].commits[i] == e.p)
         && match e
            case Change(p, Add(magic, _, pid)) => y.procs[p].phase.Idle? && Ix(magic) == p && 0 < pid < NO_PID
            case Change(p, _) => y.procs[p].phase.Idle?
            case Loading(p) => y.procs[p].phase.Idle?
            case Saving(p) => y.procs[p].phase.HasRead?
            case Updating(p) => y.procs[p].phase.HasSaved?
            case Marking(p, _) => y.procs[p].phase.HasUpdated?
            case Join(_) => true
  }

  ghost function Happen(y: System, e: Event): System
    requires Possible(y, e)
  {
    match e
    case Join(p) => y.(procs := y.procs[p := Proc(Load(y.file, SLOTS), Blanks(), [], Idle)])
    case Change(p, op) =>
      var q := y.procs[p];
      var r := Changed(q.w2, q.view[p], op);
      y.(procs := y.procs[p := q.(view := q.view[p := r], commits := q.commits + [p])],
         said := y.said[(p, r.log) := Body(r)])
    case Loading(p) => y.(procs := y.procs[p := y.procs[p].(w2 := Load(y.file, SLOTS), phase := HasRead)])
    case Saving(p) =>
      var q := y.procs[p];
      var (w2, file) := Save(q.w2, y.file, q.view, q.commits);
      y.(file := file, procs := y.procs[p := q.(w2 := w2, commits := [], phase := HasSaved)])
    case Updating(p) =>
      var q := y.procs[p];
      y.(procs := y.procs[p := q.(view := UpdateAll(q.view, q.w2, SLOTS), phase := HasUpdated)])
    case Marking(p, tmark) =>
      var q := y.procs[p];
      y.(file := y.file[p := y.file[p].(tmark := tmark)],
         procs := y.procs[p := q.(w2 := q.w2[p := q.w2[p].(tmark := tmark)], phase := Idle)])
  }

  function Start(): System {
    System(Blanks(), map[], map[])
  }

  ghost predicate Run(es: seq<Event>, y: System) {
    if es == [] then y == Start()
    else exists before ::
      Run(es[..|es| - 1], before) && Possible(before, Last(es)) && y == Happen(before, Last(es))
  }

  // ----- the invariant -----

  /** Every record of slot i is one that its process has made. */
  ghost predicate Said(said: map<(nat, nat), Record>, t: seq<Record>)
    requires |t| == SLOTS
  {
    forall i | 0 <= i < SLOTS :: SaidAt(said, t[i], i)
  }

  ghost predicate SaidAt(said: map<(nat, nat), Record>, r: Record, i: nat) {
    if r.log == 0 then Body(r) == BLANK
    else (i, r.log) in said && said[(i, r.log)] == Body(r) && r.Ok() && Ix(r.magic) == i
  }

  /** No log in t is newer than in u, but for slot p where that is not claimed. */
  ghost predicate Behind(t: seq<Record>, u: seq<Record>, claimed: bool, p: nat)
    requires |t| == |u| == SLOTS
  {
    forall i | 0 <= i < SLOTS && (i != p || claimed) :: t[i].log <= u[i].log
  }

  ghost predicate Sized(q: Proc, p: nat) {
    && p < SLOTS && |q.w2| == |q.view| == SLOTS
    && forall i | 0 <= i < |q.commits| :: q.commits[i] == p
  }

  /** How the table and the view of process p stand to the file, phase by phase. */
  ghost predicate Orders(file: seq<Record>, q: Proc, p: nat)
    requires Sized(q, p) && |file| == SLOTS
  {
    && Behind(q.w2, file, true, p)
    && Behind(q.view, file, q.commits == [], p)
    && file[p].log <= q.view[p].log
    && (q.phase.HasRead? ==> q.w2[p].log == file[p].log && Behind(q.view, q.w2, q.commits == [], p))
    && (q.phase.HasSaved? ==> q.commits == [] && Behind(q.view, q.w2, true, p))
    && (q.phase.HasUpdated? ==> q.commits == [])
  }

  ghost predicate ProcOk(said: map<(nat, nat), Record>, file: seq<Record>, q: Proc, p: nat)
    requires |file| == SLOTS
  {
    Sized(q, p) && Said(said, q.w2) && Said(said, q.view) && Orders(file, q, p)
  }

  ghost predicate AllProcs(said: map<(nat, nat), Record>, file: seq<Record>, procs: map<nat, Proc>)
    requires |file| == SLOTS
  {
    forall p <- procs :: ProcOk(said, file, procs[p], p)
  }

  ghost predicate NotAhead(k: (nat, nat), procs: map<nat, Proc>) {
    k.0 in procs && k.0 < |procs[k.0].view| && k.1 <= procs[k.0].view[k.0].log
  }

  /** Nothing has been said that is newer than the sayer's own view. */
  ghost predicate History(said: map<(nat, nat), Record>, procs: map<nat, Proc>) {
    forall k <- said :: NotAhead(k, procs)
  }

  /** Nobody has written the slots of those who have not joined. */
  ghost predicate Unjoined(file: seq<Record>, procs: map<nat, Proc>)
    requires |file| == SLOTS
  {
    forall p: nat | p < SLOTS && p !in procs :: file[p].log == 0
  }

  ghost predicate Inv(y: System) {
    && |y.file| == SLOTS && Said(y.said, y.file)
    && AllProcs(y.said, y.file, y.procs)
    && History(y.said, y.procs)
    && Unjoined(y.file, y.procs)
  }

  // ----- every step keeps the invariant -----

  lemma SaidPlaced(said: map<(nat, nat), Record>, t: seq<Record>)
    requires |t| == SLOTS && Said(said, t)
    ensures Placed(t)
  {
    forall i | 0 <= i < SLOTS
      ensures PlacedAt(t[i], i)
    {
      assert SaidAt(said, t[i], i);
    }
  }

  /** What is loaded from the file has the file's logs. */
  lemma Loaded(said: map<(nat, nat), Record>, file: seq<Record>)
    requires |file| == SLOTS && Said(said, file)
    ensures var w2 := Load(file, SLOTS);
            && Said(said, w2) && forall i | 0 <= i < SLOTS :: w2[i].log == file[i].log
  {
    SaidPlaced(said, file);
    LoadIs(file, SLOTS);
    var w2 := Load(file, SLOTS);
    hide Load;
    forall i | 0 <= i < SLOTS
      ensures SaidAt(said, w2[i], i) && w2[i].log == file[i].log
    {
      assert SaidAt(said, file[i], i);
    }
  }

  lemma ProcIn(y: System, p: nat)
    requires Inv(y) && p in y.procs
    ensures |y.file| == SLOTS && ProcOk(y.said, y.file, y.procs[p], p) && Said(y.said, y.file)
    ensures Sized(y.procs[p], p) && Said(y.said, y.procs[p].w2) && Said(y.said, y.procs[p].view)
    ensures Orders(y.file, y.procs[p], p)
  {
    hide Sized, Said, Orders, History, Unjoined;
  }

  lemma HistoryMoves(said: map<(nat, nat), Record>, procs: map<nat, Proc>, p: nat, q: Proc)
    requires History(said, procs) && p in procs && p < |q.view| && p < |procs[p].view|
             && q.view[p].log >= procs[p].view[p].log
    ensures History(said, procs[p := q])
  {
    forall k | k in said
      ensures NotAhead(k, procs[p := q])
    {
      assert NotAhead(k, procs);
    }
  }

  /** Slot p of the file may move forward; the other processes only see it fall behind. */
  ghost predicate Forward(file: seq<Record>, later: seq<Record>, p: nat) {
    && |file| == |later| == SLOTS && p < SLOTS
    && (forall i | 0 <= i < SLOTS && i != p :: later[i] == file[i])
    && later[p].log >= file[p].log
  }

  lemma OrdersForward(file: seq<Record>, later: seq<Record>, q: Proc, p: nat, o: nat)
    requires Forward(file, later, p) && o != p && Sized(q, o) && Orders(file, q, o)
    ensures Orders(later, q, o)
  {
  }

  /** Process p moves, and with it its slot of the file. */
  lemma Moves(y: System, p: nat, file: seq<Record>, q: Proc)
    requires Inv(y) && p in y.procs && Forward(y.file, file, p) && Said(y.said, file) && ProcOk(y.said, file, q, p)
    requires q.view[p].log >= y.procs[p].view[p].log
    ensures Inv(y.(file := file, procs := y.procs[p := q]))
  {
    ProcIn(y, p);
    HistoryMoves(y.said, y.procs, p, q);
    hide Said, History, Orders, Sized, Forward;
    MoveAll(y, p, file, q);
    MoveUnjoined(y.file, y.procs, p, file, q);
  }

  lemma MoveUnjoined(f: seq<Record>, procs: map<nat, Proc>, p: nat, file: seq<Record>, q: Proc)
    requires Forward(f, file, p) && Unjoined(f, procs)
    ensures Unjoined(file, procs[p := q])
  {
  }

  lemma MoveAll(y: System, p: nat, file: seq<Record>, q: Proc)
    requires Inv(y) && p in y.procs && Forward(y.file, file, p) && |file| == SLOTS && ProcOk(y.said, file, q, p)
    ensures AllProcs(y.said, file, y.procs[p := q])
  {
    var procs := y.procs[p := q];
    forall o | o in procs
      ensures ProcOk(y.said, file, procs[o], o)
    {
      if o != p {
        MoveOther(y, p, file, o);
      }
    }
  }

  lemma MoveOther(y: System, p: nat, file: seq<Record>, o: nat)
    requires Inv(y) && Forward(y.file, file, p) && |file| == SLOTS && o in y.procs && o != p
    ensures ProcOk(y.said, file, y.procs[o], o)
  {
    ProcIn(y, o);
    OrdersForward(y.file, file, y.procs[o], p, o);
    hide Said, Orders, Sized;
  }

  lemma NotMoved(file: seq<Record>, p: nat)
    requires |file| == SLOTS && p < SLOTS
    ensures Forward(file, file, p)
  {
  }

  lemma LoadedProc(said: map<(nat, nat), Record>, file: seq<Record>, q: Proc, p: nat)
    requires |file| == SLOTS && Said(said, file) && ProcOk(said, file, q, p) && q.phase.Idle?
    ensures ProcOk(said, file, q.(w2 := Load(file, SLOTS), phase := HasRead), p)
  {
    Loaded(said, file);
    hide Load, Said;
  }

  lemma LoadingIs(y: System, p: nat)
    requires Possible(y, Loading(p))
    ensures p in y.procs && y.procs[p].phase.Idle? && |y.file| == SLOTS && p < |y.procs[p].view|
    ensures Happen(y, Loading(p)) == y.(procs := y.procs[p := y.procs[p].(w2 := Load(y.file, SLOTS), phase := HasRead)])
  {
    hide Load;
  }

  lemma LoadingInv(y: System, p: nat)
    requires Inv(y) && Possible(y, Loading(p))
    ensures Inv(Happen(y, Loading(p)))
  {
    hide *;
    LoadingIs(y, p);
    ProcIn(y, p);
    LoadedProc(y.said, y.file, y.procs[p], p);
    SizedIs(y.procs[p], p, y.said, y.file);
    NotMoved(y.file, p);
    Moves(y, p, y.file, y.procs[p].(w2 := Load(y.file, SLOTS), phase := HasRead));
  }

  lemma JoinProc(y: System, p: nat)
    requires Inv(y) && p !in y.procs && p < SLOTS
    ensures |y.file| == SLOTS && ProcOk(y.said, y.file, Proc(Load(y.file, SLOTS), Blanks(), [], Idle), p)
  {
    Loaded(y.said, y.file);
    var q := Proc(Load(y.file, SLOTS), Blanks(), [], Idle);
    hide Load, Blanks;
    assert Said(y.said, q.view);
    assert Orders(y.file, q, p);
    hide Said, Orders;
  }

  lemma JoinHistory(said: map<(nat, nat), Record>, procs: map<nat, Proc>, p: nat, q: Proc)
    requires History(said, procs) && p !in procs
    ensures History(said, procs[p := q])
  {
    forall k | k in said
      ensures NotAhead(k, procs[p := q])
    {
      assert NotAhead(k, procs);
    }
  }

  lemma JoinInv(y: System, p: nat)
    requires Inv(y) && Possible(y, Join(p))
    ensures Inv(Happen(y, Join(p)))
  {
    JoinProc(y, p);
    var q := Proc(Load(y.file, SLOTS), Blanks(), [], Idle);
    JoinHistory(y.said, y.procs, p, q);
    assert Happen(y, Join(p)) == y.(procs := y.procs[p := q]);
    hide Load, Said, ProcOk, History;
  }

  /** What the updating phase leaves: for every slot the record with the log of the table. */
  lemma Updated(said: map<(nat, nat), Record>, view: seq<Record>, w2: seq<Record>)
    requires |view| == |w2| == SLOTS && Said(said, view) && Said(said, w2)
    requires forall i | 0 <= i < SLOTS :: view[i].log <= w2[i].log
    ensures var v := UpdateAll(view, w2, SLOTS);
            Said(said, v) && forall i | 0 <= i < SLOTS :: v[i].log == w2[i].log && Body(v[i]) == Body(w2[i])
  {
    SaidPlaced(said, w2);
    UpdateIs(view, w2, SLOTS);
    var v := UpdateAll(view, w2, SLOTS);
    hide UpdateAll, Placed;
    forall i | 0 <= i < SLOTS
      ensures SaidAt(said, v[i], i) && v[i].log == w2[i].log && Body(v[i]) == Body(w2[i])
    {
      assert SaidAt(said, view[i], i) && SaidAt(said, w2[i], i);
    }
  }

  lemma UpdatingIs(y: System, p: nat)
    requires Possible(y, Updating(p))
    ensures p in y.procs && |y.procs[p].view| == |y.procs[p].w2| == SLOTS && y.procs[p].phase.HasSaved?
    ensures var q := y.procs[p];
            Happen(y, Updating(p)) ==
            y.(procs := y.procs[p := q.(view := UpdateAll(q.view, q.w2, SLOTS), phase := HasUpdated)])
  {
    hide UpdateAll;
  }

  lemma UpdatedProc(said: map<(nat, nat), Record>, file: seq<Record>, q: Proc, p: nat)
    requires |file| == SLOTS && ProcOk(said, file, q, p) && q.phase.HasSaved?
    ensures var r := q.(view := UpdateAll(q.view, q.w2, SLOTS), phase := HasUpdated);
            ProcOk(said, file, r, p) && r.view[p].log >= q.view[p].log
  {
    Updated(said, q.view, q.w2);
    hide UpdateAll, Said;
  }

  lemma UpdatingInv(y: System, p: nat)
    requires Inv(y) && Possible(y, Updating(p))
    ensures Inv(Happen(y, Updating(p)))
  {
    hide *;
    UpdatingIs(y, p);
    ProcIn(y, p);
    SizedIs(y.procs[p], p, y.said, y.file);
    UpdatedProc(y.said, y.file, y.procs[p], p);
    NotMoved(y.file, p);
    Moves(y, p, y.file, y.procs[p].(view := UpdateAll(y.procs[p].view, y.procs[p].w2, SLOTS), phase := HasUpdated));
  }

  /** What the saving phase writes. */
  lemma Saved(said: map<(nat, nat), Record>, f: seq<Record>, q: Proc, p: nat)
    requires |f| == SLOTS && ProcOk(said, f, q, p) && Said(said, f) && q.phase.HasRead?
    ensures forall i | 0 <= i < |q.commits| :: q.commits[i] < SLOTS
    ensures var (w2, file) := Save(q.w2, f, q.view, q.commits);
            && (if q.commits != [] && q.w2[p].log < q.view[p].log then
                  w2 == q.w2[p := q.view[p]] && file == f[p := q.view[p]]
                else (w2, file) == (q.w2, f))
            && Said(said, file) && Said(said, w2) && Forward(f, file, p)
            && Orders(file, q.(w2 := w2, commits := [], phase := HasSaved), p)
  {
    assert SaidAt(said, q.view[p], p);
    SaveIs(q.w2, f, q.view, q.commits, p);
    SaidPut(said, q.w2, p, q.view[p]);
    SaidPut(said, f, p, q.view[p]);
    hide Save, SaidAt, Said;
  }

  lemma SaidPut(said: map<(nat, nat), Record>, t: seq<Record>, p: nat, r: Record)
    requires |t| == SLOTS && p < SLOTS && Said(said, t) && SaidAt(said, r, p)
    ensures Said(said, t[p := r])
  {
    hide SaidAt;
  }

  lemma SavingInv(y: System, p: nat)
    requires Inv(y) && Possible(y, Saving(p))
    ensures Inv(Happen(y, Saving(p)))
  {
    ProcIn(y, p);
    var q := y.procs[p];
    Saved(y.said, y.file, q, p);
    hide Save, Said, Inv, Orders, Forward;
    var (w2, file) := Save(q.w2, y.file, q.view, q.commits);
    Moves(y, p, file, q.(w2 := w2, commits := [], phase := HasSaved));
  }

  lemma Marked(said: map<(nat, nat), Record>, f: seq<Record>, q: Proc, p: nat, tmark: nat)
    requires |f| == SLOTS && ProcOk(said, f, q, p) && Said(said, f) && q.phase.HasUpdated?
    ensures var file := f[p := f[p].(tmark := tmark)];
            var r := q.(w2 := q.w2[p := q.w2[p].(tmark := tmark)], phase := Idle);
            ProcOk(said, file, r, p) && Said(said, file) && Forward(f, file, p)
  {
    assert SaidAt(said, f[p], p) && SaidAt(said, q.w2[p], p);
    SaidPut(said, f, p, f[p].(tmark := tmark));
    SaidPut(said, q.w2, p, q.w2[p].(tmark := tmark));
    hide SaidAt, Said;
  }

  lemma MarkingInv(y: System, p: nat, tmark: nat)
    requires Inv(y) && Possible(y, Marking(p, tmark))
    ensures Inv(Happen(y, Marking(p, tmark)))
  {
    ProcIn(y, p);
    var q := y.procs[p];
    Marked(y.said, y.file, q, p, tmark);
    hide Said, Inv, Orders, ProcOk, Forward;
    Moves(y, p, y.file[p := y.file[p].(tmark := tmark)], q.(w2 := q.w2[p := q.w2[p].(tmark := tmark)], phase := Idle));
  }

  /** A new record has a log above its own and above everything in the table, unless nothing changes. */
  lemma ChangedIs(w2: seq<Record>, r: Record, op: Op, p: nat)
    requires op.Add? ==> Ix(op.magic) == p && 0 < op.pid < NO_PID
    ensures var c := Changed(w2, r, op);
            || (c == r && !r.Ok())
            || (c.Ok() && c.log > r.log && (forall i | 0 <= i < |w2| && w2[i].Ok() :: c.log > w2[i].log) &&
                (Ix(c.magic) == p || c.magic == r.magic))
  {
  }

  lemma SaidMore(said: map<(nat, nat), Record>, t: seq<Record>, k: (nat, nat), r: Record)
    requires |t| == SLOTS && Said(said, t) && (k !in said || k.1 == 0)
    ensures Said(said[k := r], t)
  {
    forall i | 0 <= i < SLOTS
      ensures SaidAt(said[k := r], t[i], i)
    {
      assert SaidAt(said, t[i], i);
    }
  }

  /** The saying of a changed record is new, or says nothing. */
  lemma NewSaying(said: map<(nat, nat), Record>, procs: map<nat, Proc>, p: nat, op: Op)
    requires History(said, procs) && p in procs && Sized(procs[p], p) && Said(said, procs[p].view)
    requires op.Add? ==> Ix(op.magic) == p && 0 < op.pid < NO_PID
    ensures var r := Changed(procs[p].w2, procs[p].view[p], op);
            && r.log >= procs[p].view[p].log && ((p, r.log) !in said || r.log == 0)
            && SaidAt(said[(p, r.log) := Body(r)], r, p)
  {
    var q := procs[p];
    ChangedIs(q.w2, q.view[p], op, p);
    assert SaidAt(said, q.view[p], p);
    var r := Changed(q.w2, q.view[p], op);
    hide Changed, Said;
    var k: (nat, nat) := (p, r.log);
    assert k in said ==> NotAhead(k, procs);
  }

  lemma ChangedProc(said: map<(nat, nat), Record>, file: seq<Record>, q: Proc, p: nat, r: Record)
    requires |file| == SLOTS && ProcOk(said, file, q, p) && q.phase.Idle?
    requires r.log >= q.view[p].log && ((p, r.log) !in said || r.log == 0) && SaidAt(said[(p, r.log) := Body(r)], r, p)
    ensures ProcOk(said[(p, r.log) := Body(r)], file, q.(view := q.view[p := r], commits := q.commits + [p]), p)
  {
    var k: (nat, nat) := (p, r.log);
    SaidMore(said, q.w2, k, Body(r));
    SaidMore(said, q.view, k, Body(r));
    SaidPut(said[k := Body(r)], q.view, p, r);
    hide Said, SaidAt;
  }

  lemma OthersMore(said: map<(nat, nat), Record>, file: seq<Record>, procs: map<nat, Proc>, k: (nat, nat), r: Record)
    requires |file| == SLOTS && AllProcs(said, file, procs) && (k !in said || k.1 == 0)
    ensures AllProcs(said[k := r], file, procs)
  {
    hide Said, Orders, Sized;
    forall o | o in procs
      ensures ProcOk(said[k := r], file, procs[o], o)
    {
      SizedIs(procs[o], o, said, file);
      SaidMore(said, procs[o].w2, k, r);
      SaidMore(said, procs[o].view, k, r);
    }
  }

  lemma SizedIs(q: Proc, o: nat, said: map<(nat, nat), Record>, file: seq<Record>)
    requires |file| == SLOTS && ProcOk(said, file, q, o)
    ensures |q.w2| == |q.view| == SLOTS && o < SLOTS
  {
  }

  lemma ChangeIs(y: System, p: nat, op: Op)
    requires Possible(y, Change(p, op))
    ensures var q := y.procs[p];
            var r := Changed(q.w2, q.view[p], op);
            Happen(y, Change(p, op)) ==
            y.(procs := y.procs[p := q.(view := q.view[p := r], commits := q.commits + [p])],
               said := y.said[(p, r.log) := Body(r)])
  {
    hide Changed;
  }

  lemma ChangePossible(y: System, p: nat, op: Op)
    requires Possible(y, Change(p, op))
    ensures p in y.procs && p < SLOTS && |y.procs[p].view| == |y.procs[p].w2| == SLOTS && y.procs[p].phase.Idle?
    ensures op.Add? ==> Ix(op.magic) == p && 0 < op.pid < NO_PID
  {
  }

  lemma ChangeInv(y: System, p: nat, op: Op)
    requires Inv(y) && Possible(y, Change(p, op))
    ensures Inv(Happen(y, Change(p, op)))
  {
    hide *;
    ChangePossible(y, p, op);
    ChangeIs(y, p, op);
    InvParts(y);
    ProcIn(y, p);
    var q := y.procs[p];
    NewSaying(y.said, y.procs, p, op);
    var r := Changed(q.w2, q.view[p], op);
    var k: (nat, nat) := (p, r.log);
    ChangedProc(y.said, y.file, q, p, r);
    SaidMore(y.said, y.file, k, Body(r));
    OthersMore(y.said, y.file, y.procs, k, Body(r));
    var q', said := q.(view := q.view[p := r], commits := q.commits + [p]), y.said[k := Body(r)];
    HistoryMore(y.said, y.procs, p, q', k, Body(r));
    AllButOne(said, y.file, y.procs, p, q');
    NotMoved(y.file, p);
    MoveUnjoined(y.file, y.procs, p, y.file, q');
    InvWhole(y.(procs := y.procs[p := q'], said := said));
  }

  lemma InvParts(y: System)
    requires Inv(y)
    ensures |y.file| == SLOTS && Said(y.said, y.file) && AllProcs(y.said, y.file, y.procs) && History(y.said, y.procs)
    ensures Unjoined(y.file, y.procs)
  {
    hide Said, AllProcs, History, Unjoined;
  }

  lemma InvWhole(y: System)
    requires |y.file| == SLOTS && Said(y.said, y.file) && AllProcs(y.said, y.file, y.procs)
    requires History(y.said, y.procs) && Unjoined(y.file, y.procs)
    ensures Inv(y)
  {
    hide Said, AllProcs, History, Unjoined;
  }

  lemma AllButOne(said: map<(nat, nat), Record>, file: seq<Record>, procs: map<nat, Proc>, p: nat, q: Proc)
    requires |file| == SLOTS && AllProcs(said, file, procs) && ProcOk(said, file, q, p)
    ensures AllProcs(said, file, procs[p := q])
  {
    hide ProcOk;
  }

  lemma HistoryMore(said: map<(nat, nat), Record>, procs: map<nat, Proc>, p: nat, q: Proc, k: (nat, nat), r: Record)
    requires History(said, procs) && p in procs && p < |q.view| && p < |procs[p].view|
             && q.view[p].log >= procs[p].view[p].log
    requires k == (p, q.view[p].log)
    ensures History(said[k := r], procs[p := q])
  {
    HistoryMoves(said, procs, p, q);
  }

  lemma StepInv(y: System, e: Event)
    requires Inv(y) && Possible(y, e)
    ensures Inv(Happen(y, e))
  {
    match e {
      case Join(p) => JoinInv(y, p);
      case Change(p, op) => ChangeInv(y, p, op);
      case Loading(p) => LoadingInv(y, p);
      case Saving(p) => SavingInv(y, p);
      case Updating(p) => UpdatingInv(y, p);
      case Marking(p, tmark) => MarkingInv(y, p, tmark);
    }
    hide *;
  }

  lemma {:induction false} RunInv(es: seq<Event>, y: System)
    requires Run(es, y)
    ensures Inv(y)
    decreases |es|
  {
    if es == [] {
      assert Said(y.said, y.file);
    } else {
      var before :| Run(es[..|es| - 1], before) && Possible(before, Last(es)) && y == Happen(before, Last(es));
      RunInv(es[..|es| - 1], before);
      StepInv(before, Last(es));
    }
  }

  // ----- what the runs promise -----

  /** The logs in the file never fall, and only the slot of the process that moves can change. */
  lemma FileLogsRise(es: seq<Event>, y: System, e: Event, i: nat)
    requires Run(es, y) && Possible(y, e) && i < SLOTS
    ensures |y.file| == |Happen(y, e).file| == SLOTS
    ensures y.file[i].log <= Happen(y, e).file[i].log
    ensures i != e.p ==> Happen(y, e).file[i] == y.file[i]
  {
    RunInv(es, y);
    if e.Saving? {
      ProcIn(y, e.p);
      Saved(y.said, y.file, y.procs[e.p], e.p);
    }
    hide Inv, Said, Save, Load, UpdateAll, Changed, Orders;
  }

  /** A change of a record gets a log above the record's own and above all that the process last read. */
  lemma NewLogIsGreatest(es: seq<Event>, y: System, p: nat, op: Op)
    requires Run(es, y) && Possible(y, Change(p, op))
    ensures var q, r := y.procs[p], Happen(y, Change(p, op)).procs[p].view[p];
            r == q.view[p] || (r.log > q.view[p].log && forall i | 0 <= i < SLOTS :: r.log > q.w2[i].log)
  {
    RunInv(es, y);
    ProcIn(y, p);
    ChangedIs(y.procs[p].w2, y.procs[p].view[p], op, p);
    SaidPlaced(y.said, y.procs[p].w2);
    ChangeIs(y, p, op);
    var q := y.procs[p];
    assert forall i | 0 <= i < SLOTS :: PlacedAt(q.w2[i], i);
    hide Inv, Said, Changed, Orders, Happen, Run;
  }

  /** A record is determined by its slot and its log, wherever it is found: in the file, in a table or in
      a view. */
  lemma SameLogSameRecord(es: seq<Event>, y: System, p: nat, q: nat, i: nat)
    requires Run(es, y) && p in y.procs && q in y.procs && i < SLOTS
    ensures |y.file| == |y.procs[p].view| == |y.procs[q].view| == |y.procs[p].w2| == SLOTS
    ensures y.procs[p].view[i].log == y.procs[q].view[i].log ==> Body(y.procs[p].view[i]) == Body(y.procs[q].view[i])
    ensures y.procs[p].view[i].log == y.file[i].log ==> Body(y.procs[p].view[i]) == Body(y.file[i])
    ensures y.procs[p].view[i].log == y.procs[p].w2[i].log ==> Body(y.procs[p].view[i]) == Body(y.procs[p].w2[i])
  {
    RunInv(es, y);
    ProcIn(y, p);
    ProcIn(y, q);
    hide Inv, Orders, Run, ProcOk;
    assert SaidAt(y.said, y.procs[p].view[i], i) && SaidAt(y.said, y.procs[q].view[i], i);
    assert SaidAt(y.said, y.file[i], i) && SaidAt(y.said, y.procs[p].w2[i], i);
  }

  /** `later` is not behind r, and is r but for the mark if the log is the same. */
  predicate NotBack(r: Record, later: Record) {
    r.log <= later.log && (r.log == later.log ==> Body(r) == Body(later))
  }

  lemma UpdateNotBack(y: System, p: nat, i: nat)
    requires Inv(y) && Possible(y, Updating(p)) && i < SLOTS
    ensures p in y.procs && p in Happen(y, Updating(p)).procs
    ensures |y.procs[p].view| == |Happen(y, Updating(p)).procs[p].view| == SLOTS
    ensures NotBack(y.procs[p].view[i], Happen(y, Updating(p)).procs[p].view[i])
  {
    UpdatingIs(y, p);
    ProcIn(y, p);
    var q := y.procs[p];
    hide Possible, Happen, Inv, UpdateAll, ProcOk;
    Updated(y.said, q.view, q.w2);
    assert SaidAt(y.said, q.view[i], i) && SaidAt(y.said, q.w2[i], i);
    hide Said, Orders;
  }

  lemma ChangeNotBack(y: System, p: nat, op: Op, i: nat)
    requires Inv(y) && Possible(y, Change(p, op)) && i < SLOTS
    ensures |y.procs[p].view| == |Happen(y, Change(p, op)).procs[p].view| == SLOTS
    ensures NotBack(y.procs[p].view[i], Happen(y, Change(p, op)).procs[p].view[i])
  {
    hide *;
    ChangePossible(y, p, op);
    ChangedIs(y.procs[p].w2, y.procs[p].view[p], op, p);
    ChangeIs(y, p, op);
    ChangedNotBack(y.procs[p].view[p], Changed(y.procs[p].w2, y.procs[p].view[p], op), y.procs[p].view, p, i);
  }

  lemma ChangedNotBack(r: Record, c: Record, view: seq<Record>, p: nat, i: nat)
    requires p < |view| && i < |view| && view[p] == r && (c == r || c.log > r.log)
    ensures NotBack(view[i], view[p := c][i])
  {
  }

  lemma ViewStays(y: System, e: Event, p: nat)
    requires Inv(y) && Possible(y, e) && p in y.procs && (e.p != p || !(e.Updating? || e.Change?))
    ensures p in Happen(y, e).procs && Happen(y, e).procs[p].view == y.procs[p].view
  {
    hide Inv, Save, Load, UpdateAll, Changed;
  }

  /** No step takes a record of any view back: its log does not fall, and if the log stays, so does the
      record but for the mark. */
  lemma NoRollback(es: seq<Event>, y: System, e: Event, p: nat, i: nat)
    requires Run(es, y) && Possible(y, e) && p in y.procs && i < SLOTS
    ensures var z := Happen(y, e);
            p in z.procs && |y.procs[p].view| == |z.procs[p].view| == SLOTS
              && NotBack(y.procs[p].view[i], z.procs[p].view[i])
  {
    RunInv(es, y);
    ProcIn(y, p);
    hide Run, Inv, Said, Orders, Happen, Possible, ProcOk;
    match e {
      case Updating(o) =>
        if o == p {
          UpdateNotBack(y, p, i);
          StillThere(y, e, p);
        } else {
          ViewStays(y, e, p);
        }
      case Change(o, op) =>
        if o == p {
          ChangeNotBack(y, p, op, i);
          StillThere(y, e, p);
        } else {
          ViewStays(y, e, p);
        }
      case _ => ViewStays(y, e, p);
    }
  }

  lemma StillThere(y: System, e: Event, p: nat)
    requires Possible(y, e) && p in y.procs
    ensures p in Happen(y, e).procs
  {
    hide Save, Load, UpdateAll, Changed;
  }

  /** A merge brings the view up to what it read: for every slot the record of the file as it was then, or
      the process's own newer one. */
  lemma CatchesUp(es: seq<Event>, y: System, p: nat, i: nat)
    requires Run(es, y) && Possible(y, Updating(p)) && i < SLOTS
    ensures p in y.procs && p in Happen(y, Updating(p)).procs
    ensures var q, z := y.procs[p], Happen(y, Updating(p)).procs[p];
            |q.w2| == |z.view| == SLOTS && z.view[i].log == q.w2[i].log && Body(z.view[i]) == Body(q.w2[i])
  {
    RunInv(es, y);
    UpdatingIs(y, p);
    ProcIn(y, p);
    hide Possible, Happen, Inv, UpdateAll, ProcOk, Run;
    Updated(y.said, y.procs[p].view, y.procs[p].w2);
    hide Said;
  }

  /** The reading phase brings the file as it is into the table, and changes nothing else. */
  lemma LoadingReads(es: seq<Event>, y: System, p: nat, i: nat)
    requires Run(es, y) && Possible(y, Loading(p)) && i < SLOTS
    ensures var z := Happen(y, Loading(p));
            && p in z.procs && |y.file| == |z.procs[p].w2| == SLOTS
            && z.procs[p].w2[i] == (if y.file[i].Ok() then y.file[i] else BLANK)
            && z.procs[p].view == y.procs[p].view && z.file == y.file && z.said == y.said
  {
    RunInv(es, y);
    ProcIn(y, p);
    LoadingIs(y, p);
    SaidPlaced(y.said, y.file);
    LoadIs(y.file, SLOTS);
    hide Run, Inv, Possible, Happen, Load, Said, Orders, Placed, ProcOk, Sized;
  }

  lemma SavingIs(y: System, p: nat)
    requires Possible(y, Saving(p)) && ProcOk(y.said, y.file, y.procs[p], p)
    ensures var q := y.procs[p];
            && p in y.procs && q.phase.HasRead? && |q.w2| == |y.file| == |q.view| == SLOTS
            && (forall i | 0 <= i < |q.commits| :: q.commits[i] < SLOTS)
            && var (w2, file) := Save(q.w2, y.file, q.view, q.commits);
               Happen(y, Saving(p)) ==
               y.(file := file, procs := y.procs[p := q.(w2 := w2, commits := [], phase := HasSaved)])
  {
    hide Save, Said, Orders;
  }

  /** After the saving phase the file has the process's own record, whatever others have done in between. */
  lemma SavingPublishes(es: seq<Event>, y: System, p: nat)
    requires Run(es, y) && Possible(y, Saving(p))
    ensures var z := Happen(y, Saving(p));
            && p in z.procs && p < SLOTS == |z.file| == |z.procs[p].view| && z.procs[p].view == y.procs[p].view
            && z.file[p].log == z.procs[p].view[p].log && Body(z.file[p]) == Body(z.procs[p].view[p])
  {
    RunInv(es, y);
    ProcIn(y, p);
    SavingIs(y, p);
    Saved(y.said, y.file, y.procs[p], p);
    var q := y.procs[p];
    hide Run, Inv, Possible, Happen, Save, Said, SaidAt, ProcOk, Forward;
    var (w2, file) := Save(q.w2, y.file, q.view, q.commits);
    SameSaying(y.said, file, q.view, p);
  }

  lemma SameSaying(said: map<(nat, nat), Record>, t: seq<Record>, u: seq<Record>, i: nat)
    requires |t| == |u| == SLOTS && Said(said, t) && Said(said, u) && i < SLOTS
    ensures t[i].log == u[i].log ==> Body(t[i]) == Body(u[i])
  {
    assert SaidAt(said, t[i], i) && SaidAt(said, u[i], i);
  }

  /** The marking phase puts the mark into the process's own slot, of the file and of its table, and changes
      nothing else. */
  lemma MarkingMarks(es: seq<Event>, y: System, p: nat, tmark: nat)
    requires Run(es, y) && Possible(y, Marking(p, tmark))
    ensures var z := Happen(y, Marking(p, tmark));
            && p in z.procs && p < SLOTS == |z.file| == |z.procs[p].w2|
            && z.file[p] == y.file[p].(tmark := tmark) && z.procs[p].w2[p] == y.procs[p].w2[p].(tmark := tmark)
            && (forall i | 0 <= i < SLOTS && i != p ::
                  z.file[i] == y.file[i] && z.procs[p].w2[i] == y.procs[p].w2[i])
            && z.procs[p].view == y.procs[p].view && z.said == y.said
  {
  }

  // ----- what a process's own record says -----

  ghost predicate Adds(e: Event, p: nat) {
    e.Change? && e.p == p && e.op.Add?
  }

  /** The process has made its record. */
  ghost predicate Added(es: seq<Event>, p: nat) {
    exists k :: 0 <= k < |es| && Adds(es[k], p)
  }

  /** Event k is the last by which p made its record. */
  ghost predicate LastAdd(es: seq<Event>, p: nat, k: nat) {
    k < |es| && Adds(es[k], p) && forall j | k < j < |es| :: !Adds(es[j], p)
  }

  /** The event takes the edge to pos away. */
  ghost predicate Cuts(e: Event, p: nat, pos: nat) {
    Adds(e, p) || e == Change(p, Unlink(pos))
  }

  /** The last `Link` or `Unlink` of pos since the last `Add` was a `Link`. */
  ghost predicate Linked(es: seq<Event>, p: nat, pos: nat) {
    exists k :: 0 <= k < |es| && LinksAt(es, p, pos, k)
  }

  ghost predicate LinksAt(es: seq<Event>, p: nat, pos: nat, k: nat)
    requires k < |es|
  {
    es[k] == Change(p, Link(pos)) && Added(es[..k], p) && forall j | k < j < |es| :: !Cuts(es[j], p, pos)
  }

  lemma AddedSnoc(es: seq<Event>, e: Event, p: nat)
    ensures Added(es + [e], p) <==> Added(es, p) || Adds(e, p)
  {
    var all := es + [e];
    hide Adds;
    if Added(es, p) {
      var k :| 0 <= k < |es| && Adds(es[k], p);
      assert Adds(all[k], p);
    }
    if Adds(e, p) {
      assert Adds(all[|es|], p);
    }
  }

  lemma LinkedSnoc(es: seq<Event>, e: Event, p: nat, pos: nat)
    ensures Linked(es + [e], p, pos) <==>
            (e == Change(p, Link(pos)) && Added(es, p)) || (Linked(es, p, pos) && !Cuts(e, p, pos))
  {
    var all := es + [e];
    hide Added;
    assert all[..|es|] == es;
    if e == Change(p, Link(pos)) && Added(es, p) {
      assert LinksAt(all, p, pos, |es|);
    }
    if Linked(es, p, pos) && !Cuts(e, p, pos) {
      var k :| 0 <= k < |es| && LinksAt(es, p, pos, k);
      assert all[..k] == es[..k];
      assert LinksAt(all, p, pos, k);
    }
    if k :| 0 <= k < |all| && LinksAt(all, p, pos, k) {
      if k < |es| {
        assert all[..k] == es[..k];
        assert all[|es|] == e;
        assert forall j | k < j < |es| :: es[j] == all[j];
        assert LinksAt(es, p, pos, k);
      }
    }
  }

  lemma LinkedAdded(es: seq<Event>, p: nat, pos: nat)
    requires Linked(es, p, pos)
    ensures Added(es, p)
  {
    hide Cuts, Adds;
    var k :| 0 <= k < |es| && LinksAt(es, p, pos, k);
    var a :| 0 <= a < k && Adds(es[..k][a], p);
    assert Adds(es[a], p);
  }

  /** What a step does to the own record of a process, but for log and mark. */
  lemma OwnStep(y: System, e: Event, p: nat)
    requires Inv(y) && Possible(y, e) && p in y.procs && p < SLOTS
    ensures p in Happen(y, e).procs && |y.procs[p].view| == |Happen(y, e).procs[p].view| == SLOTS
    ensures var r, s := y.procs[p].view[p], Happen(y, e).procs[p].view[p];
            if e.Change? && e.p == p then
              match e.op
              case Add(magic, kind, pid) =>
                s.Ok() && s.magic == magic && s.kind == kind && s.pid == pid && s.see == {}
              case Link(pos) => s.Ok() == r.Ok() && Names(s, r) && s.see == if r.Ok() then r.see + {pos} else r.see
              case Unlink(pos) => s.Ok() == r.Ok() && Names(s, r) && s.see == if r.Ok() then r.see - {pos} else r.see
            else s.Ok() == r.Ok() && Names(s, r) && s.see == r.see
  {
    hide *;
    ProcIn(y, p);
    SizedIs(y.procs[p], p, y.said, y.file);
    StillThere(y, e, p);
    if e.Change? && e.p == p {
      ChangePossible(y, p, e.op);
      ChangeIs(y, p, e.op);
      ChangedSees(y.procs[p].w2, y.procs[p].view[p], e.op);
    } else if e == Updating(p) {
      UpdatingIs(y, p);
      UpdatedOwn(y.said, y.file, y.procs[p], p);
    } else {
      ViewStays(y, e, p);
      SameNames(y.procs[p].view[p]);
    }
  }

  /** Same kind, magic and process number. */
  predicate Names(s: Record, r: Record) {
    s.kind == r.kind && s.magic == r.magic && s.pid == r.pid
  }

  lemma SameNames(r: Record)
    ensures Names(r, r)
  {
  }

  lemma ChangedSees(w2: seq<Record>, r: Record, op: Op)
    requires op.Add? ==> 0 < op.pid < NO_PID
    ensures var s := Changed(w2, r, op);
            match op
            case Add(magic, kind, pid) => s.Ok() && s.magic == magic && s.kind == kind && s.pid == pid && s.see == {}
            case Link(pos) => s.Ok() == r.Ok() && Names(s, r) && s.see == if r.Ok() then r.see + {pos} else r.see
            case Unlink(pos) => s.Ok() == r.Ok() && Names(s, r) && s.see == if r.Ok() then r.see - {pos} else r.see
  {
  }

  /** The updating phase brings nothing new for the own slot. */
  lemma UpdatedOwn(said: map<(nat, nat), Record>, file: seq<Record>, q: Proc, p: nat)
    requires |file| == SLOTS && ProcOk(said, file, q, p) && q.phase.HasSaved?
    requires p < SLOTS == |q.view| == |q.w2|
    ensures var r, s := q.view[p], UpdateAll(q.view, q.w2, SLOTS)[p];
            s.Ok() == r.Ok() && Names(s, r) && s.see == r.see
  {
    Updated(said, q.view, q.w2);
    var v := UpdateAll(q.view, q.w2, SLOTS);
    hide UpdateAll;
    assert v[p].log == q.w2[p].log == q.view[p].log;
    assert SaidAt(said, q.view[p], p) && SaidAt(said, v[p], p);
    assert Body(v[p]) == Body(q.view[p]);
    hide Said;
  }

  lemma {:induction false} NotJoined(es: seq<Event>, y: System, p: nat)
    requires Run(es, y) && p !in y.procs
    ensures !Added(es, p) && forall pos :: !Linked(es, p, pos)
    decreases |es|
  {
    hide Run, Possible, Happen, Cuts, LinksAt, Adds;
    if es != [] {
      var before := RunBefore(es, y);
      NotJoinedStep(before, Last(es), p);
      NotJoined(es[..|es| - 1], before, p);
      hide Added, Linked;
      InitLast(es);
      AddedSnoc(es[..|es| - 1], Last(es), p);
      forall pos
        ensures !Linked(es, p, pos)
      {
        LinkedSnoc(es[..|es| - 1], Last(es), p, pos);
      }
    }
  }

  lemma NotJoinedStep(y: System, e: Event, p: nat)
    requires Possible(y, e) && p !in Happen(y, e).procs
    ensures p !in y.procs && e.p != p && !Adds(e, p) && forall pos :: e != Change(p, Link(pos))
  {
    hide Save, Load, UpdateAll, Changed;
  }

  lemma RunBefore(es: seq<Event>, y: System) returns (before: System)
    requires Run(es, y) && es != []
    ensures Run(es[..|es| - 1], before) && Possible(before, Last(es)) && y == Happen(before, Last(es))
  {
    before :| Run(es[..|es| - 1], before) && Possible(before, Last(es)) && y == Happen(before, Last(es));
  }

  lemma NobodyYet(es: seq<Event>, y: System, p: nat)
    requires Run(es, y) && p in y.procs
    ensures es != []
  {
  }

  lemma OwnSlot(es: seq<Event>, y: System, p: nat)
    requires Run(es, y) && p in y.procs
    ensures Inv(y) && p < 64 && |y.procs[p].view| == 64 == SLOTS
  {
    RunInv(es, y);
    ProcIn(y, p);
    hide Run, Inv, Said, Orders;
  }

  /** In every run: a process's own record is ok exactly if the process has made it, and has an edge to pos
      exactly if the last `AddEdge` or `DelEdge` of pos since it was made last was an `AddEdge`. */
  lemma {:induction false} OwnSees(es: seq<Event>, y: System, p: nat, pos: nat)
    requires Run(es, y) && p in y.procs
    ensures p < SLOTS == |y.procs[p].view|
    ensures y.procs[p].view[p].Ok() <==> Added(es, p)
    ensures pos in y.procs[p].view[p].see <==> Linked(es, p, pos)
    decreases |es|
  {
    hide *;
    OwnSlot(es, y, p);
    NobodyYet(es, y, p);
    var init, e := es[..|es| - 1], Last(es);
    var before := RunBefore(es, y);
    InitLast(es);
    AddedSnoc(init, e, p);
    LinkedSnoc(init, e, p, pos);
    AddsIs(e, p, pos);
    if p in before.procs {
      OwnSlot(init, before, p);
      OwnSees(init, before, p, pos);
      OwnStep(before, e, p);
      if Linked(init, p, pos) {
        LinkedAdded(init, p, pos);
      }
    } else {
      NotJoined(init, before, p);
      JoinedBlank(before, e, p);
    }
  }

  lemma InitLast(es: seq<Event>)
    requires es != []
    ensures es[..|es| - 1] + [Last(es)] == es
  {
  }

  lemma AddsIs(e: Event, p: nat, pos: nat)
    ensures Adds(e, p) <==> e.Change? && e.p == p && e.op.Add?
    ensures Cuts(e, p, pos) <==> Adds(e, p) || e == Change(p, Unlink(pos))
    ensures e == Change(p, Link(pos)) <==> e.Change? && e.p == p && e.op.Link? && e.op.pos == pos
    ensures e == Change(p, Unlink(pos)) <==> e.Change? && e.p == p && e.op.Unlink? && e.op.pos == pos
  {
  }

  lemma JoinedBlank(y: System, e: Event, p: nat)
    requires Possible(y, e) && p !in y.procs && p in Happen(y, e).procs && p < SLOTS
    ensures e == Join(p) && |Happen(y, e).procs[p].view| == SLOTS
    ensures !Happen(y, e).procs[p].view[p].Ok() && Happen(y, e).procs[p].view[p].see == {}
  {
    hide Save, Load, UpdateAll, Changed;
  }

  lemma LastAddInit(es: seq<Event>, p: nat, k: nat)
    requires es != [] && LastAdd(es, p, k)
    ensures k < |es| && Adds(es[k], p)
    ensures k < |es| - 1 ==> !Adds(Last(es), p) && LastAdd(es[..|es| - 1], p, k) && Added(es[..|es| - 1], p)
  {
    hide Adds;
    if k < |es| - 1 {
      var init := es[..|es| - 1];
      assert Adds(init[k], p);
    }
  }

  /** And it has the kind, the magic and the process number it was made with last. */
  lemma {:induction false} OwnNames(es: seq<Event>, y: System, p: nat, k: nat)
    requires Run(es, y) && p in y.procs && LastAdd(es, p, k)
    ensures p < SLOTS == |y.procs[p].view| && k < |es|
    ensures es[k].Change? && es[k].op.Add?
    ensures var r, op := y.procs[p].view[p], es[k].op;
            r.kind == op.kind && r.magic == op.magic && r.pid == op.pid
    decreases |es|
  {
    hide *;
    OwnSlot(es, y, p);
    NobodyYet(es, y, p);
    var init, e := es[..|es| - 1], Last(es);
    var before := RunBefore(es, y);
    LastAddInit(es, p, k);
    AddsIs(es[k], p, 0);
    AddsIs(e, p, 0);
    LastIs(es);
    if p in before.procs {
      OwnSlot(init, before, p);
      OwnStep(before, e, p);
      NamesAre(y.procs[p].view[p], before.procs[p].view[p]);
      if k < |es| - 1 {
        OwnNames(init, before, p, k);
      }
    } else {
      NotJoined(init, before, p);
      JoinedBlank(before, e, p);
    }
  }

  lemma NamesAre(s: Record, r: Record)
    ensures Names(s, r) <==> s.kind == r.kind && s.magic == r.magic && s.pid == r.pid
  {
  }

  lemma LastIs(es: seq<Event>)
    requires es != []
    ensures Last(es) == es[|es| - 1]
  {
  }
}
