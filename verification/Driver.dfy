/** The scheduler as the driver runs it: `Driver::Exec`, the dispatch loop of `Driver::Run`, `Worker::On`
    and one turn of `Driver::Run`. Every method is proved against the step of Scheduler it performs, and
    `es` records the steps, so that what holds over all runs holds of the driver. */
module Driver {
  import opened Scheduler
  import opened Sequences
  import opened Wire

  lemma RunSnoc(n: nat, es: seq<Event>, s: State, e: Event, t: State)
    requires Run(n, es, s) && Happens(s, e, t)
    ensures Run(n, es + [e], t)
  {
    hide Happens;
    assert (es + [e])[..|es + [e]| - 1] == es && Last(es + [e]) == e;
  }

  /** Going through the idle queue from the front sorts it. */
  lemma {:induction false} PickSnoc(q: seq<nat>, x: nat, ws: seq<Worker>, m: nat, behind: bool)
    requires Below(q, |ws|) && x < |ws|
    ensures Below(q + [x], |ws|)
    ensures Pick(q + [x], ws, m, behind) ==
            Pick(q, ws, m, behind) + if ws[x].marker < m <==> behind then [x] else []
  {
    hide Pick;
    if q != [] {
      PickSnoc(q[1..], x, ws, m, behind);
      assert (q + [x])[1..] == q[1..] + [x];
      PickCons(q, ws, m, behind);
      PickCons(q + [x], ws, m, behind);
      Assoc(if ws[q[0]].marker < m <==> behind then [q[0]] else [], Pick(q[1..], ws, m, behind),
            if ws[x].marker < m <==> behind then [x] else []);
    } else {
      assert [x][1..] == [] && [] + [x] == [x];
      PickCons([x], ws, m, behind);
      PickNone(ws, m, behind);
    }
  }

  lemma PickNone(ws: seq<Worker>, m: nat, behind: bool)
    ensures Pick([], ws, m, behind) == []
  {
  }

  lemma PickCons(q: seq<nat>, ws: seq<Worker>, m: nat, behind: bool)
    requires q != [] && Below(q, |ws|)
    ensures Below(q[1..], |ws|)
    ensures Pick(q, ws, m, behind) ==
            (if ws[q[0]].marker < m <==> behind then [q[0]] else []) + Pick(q[1..], ws, m, behind)
  {
  }

  /** The workers, those in `go` put to the task m. */
  function Sent(ws: seq<Worker>, go: seq<nat>, m: nat): seq<Worker> {
    seq(|ws|, w requires 0 <= w < |ws| => if w in go then ws[w].(job := m) else ws[w])
  }

  /** s with `go` put to its head task and `idle` left idle. */
  function Sorted(s: State, go: seq<nat>, idle: seq<nat>): State
    requires s.tasks != []
  {
    var h := s.tasks[0];
    s.(tasks := s.tasks[0 := h.(queue := h.queue + go)], idle := idle, workers := Sent(s.workers, go, h.marker))
  }

  /** The assignment when j idle workers have been looked at. */
  function Half(s: State, j: nat): State
    requires s.tasks != [] && Below(s.idle, |s.workers|) && j <= |s.idle|
  {
    Sorted(s, Pick(s.idle[..j], s.workers, s.tasks[0].marker, true),
           s.idle[j..] + Pick(s.idle[..j], s.workers, s.tasks[0].marker, false))
  }

  lemma HalfEnds(s: State)
    requires s.tasks != [] && Below(s.idle, |s.workers|)
    ensures Half(s, 0) == s && Half(s, |s.idle|) == Assign(s)
  {
    assert s.idle[..0] == [] && s.idle[0..] + [] == s.idle && s.tasks[0].queue + [] == s.tasks[0].queue;
    assert s.tasks[0 := s.tasks[0]] == s.tasks;
    assert Sent(s.workers, [], s.tasks[0].marker) == s.workers;
    assert s.idle[..|s.idle|] == s.idle && s.idle[|s.idle|..] == [];
    var no := Pick(s.idle, s.workers, s.tasks[0].marker, false);
    assert [] + no == no;
  }

  /** Looking at one more idle worker. */
  function Look(s: State): State
    requires s.tasks != [] && s.idle != [] && s.idle[0] < |s.workers|
  {
    var h, wk := s.tasks[0], s.idle[0];
    if s.workers[wk].marker < h.marker then
      s.(tasks := s.tasks[0 := h.(queue := h.queue + [wk])], idle := s.idle[1..],
         workers := s.workers[wk := s.workers[wk].(job := h.marker)])
    else
      s.(idle := s.idle[1..] + [wk])
  }

  lemma LookSorted(s: State, go: seq<nat>, wk: nat, rest: seq<nat>)
    requires s.tasks != [] && wk < |s.workers|
    ensures Look(Sorted(s, go, [wk] + rest)) ==
            if s.workers[wk].marker < s.tasks[0].marker then Sorted(s, go + [wk], rest) else Sorted(s, go, rest + [wk])
  {
    var h, ws := s.tasks[0], s.workers;
    Assoc(h.queue, go, [wk]);
    assert ([wk] + rest)[1..] == rest;
    assert Sent(ws, go, h.marker)[wk := Sent(ws, go, h.marker)[wk].(job := h.marker)] == Sent(ws, go + [wk], h.marker);
  }

  /** Picking from one more. */
  lemma PickOn(q: seq<nat>, j: nat, ws: seq<Worker>, m: nat)
    requires Below(q, |ws|) && j < |q|
    ensures q[j] < |ws| && Below(q[..j], |ws|)
    ensures var (go, no, far) := (Pick(q[..j], ws, m, true), Pick(q[..j], ws, m, false), ws[q[j]].marker < m);
            && Pick(q[..j + 1], ws, m, true) == (if far then go + [q[j]] else go)
            && Pick(q[..j + 1], ws, m, false) == (if far then no else no + [q[j]])
  {
    assert q[..j + 1] == q[..j] + [q[j]];
    PickSnoc(q[..j], q[j], ws, m, true);
    PickSnoc(q[..j], q[j], ws, m, false);
    hide Pick, Below;
    var go, no := Pick(q[..j], ws, m, true), Pick(q[..j], ws, m, false);
    assert go + [] == go && no + [] == no;
  }

  lemma HalfLook(s: State, j: nat)
    requires s.tasks != [] && Below(s.idle, |s.workers|) && j < |s.idle|
    ensures var u := Half(s, j);
            && u.tasks != [] && u.idle != [] && u.idle[0] < |u.workers|
            && u.tasks[0].marker == s.tasks[0].marker && Look(u) == Half(s, j + 1)
  {
    hide Pick, Look, Below, Sorted;
    var q, wk, m, ws := s.idle, s.idle[j], s.tasks[0].marker, s.workers;
    PickOn(q, j, ws, m);
    var go, no, rest := Pick(q[..j], ws, m, true), Pick(q[..j], ws, m, false), q[j + 1..];
    assert q[j..] == [wk] + rest;
    Assoc([wk], rest, no);
    Assoc(rest, no, [wk]);
    LookSorted(s, go, wk, rest + no);
    SortedShape(s, go, [wk] + (rest + no));
  }

  lemma SortedShape(s: State, go: seq<nat>, idle: seq<nat>)
    requires s.tasks != []
    ensures var u := Sorted(s, go, idle);
            u.tasks != [] && u.idle == idle && |u.workers| == |s.workers| && u.tasks[0].marker == s.tasks[0].marker
  {
  }

  lemma LogOk(s: State)
    requires Inv(s)
    ensures |s.log| == |s.workers|
  {
  }

  /** A step of one worker leaves the others where they are. */
  lemma StepKeeps(n: nat, es: seq<Event>, s: State, w: nat, finished: bool)
    requires Run(n, es, s) && Busy(s, w)
    ensures Find(s.tasks, s.workers[w].job) < |s.tasks| && |s.log| == |s.workers| == n
    ensures var t := Scheduler.On(s, w, finished);
            && |t.tasks| == |s.tasks| && |t.workers| == n
            && (forall v | 0 <= v < n && v != w :: t.workers[v] == s.workers[v])
            && Pending(t.tasks, n) == Pending(s.tasks, n) - if finished then 1 else 0
  {
    RunInv(n, es, s);
    hide Run, Inv, Pending, Count;
    FindJob(s, w);
    LogOk(s);
    if finished {
      OnPending(s, w);
      OnShape(s, w);
    } else {
      OnStays(s, w);
    }
  }

  lemma OnStays(s: State, w: nat)
    requires Busy(s, w) && |s.log| == |s.workers| && Find(s.tasks, s.workers[w].job) < |s.tasks|
    ensures var t := Scheduler.On(s, w, false);
            && t.tasks == s.tasks && |t.workers| == |s.workers|
            && forall v | 0 <= v < |s.workers| && v != w :: t.workers[v] == s.workers[v]
  {
  }

  class Driver {
    var jobs: seq<Task>
    var idle: seq<nat>
    var workers: seq<Worker>
    var taskSeq: nat
    ghost var log: seq<seq<nat>>
    ghost var es: seq<Event>

    ghost function View(): State
      reads this
    {
      State(jobs, idle, workers, taskSeq, log)
    }

    ghost predicate Valid()
      reads this
    {
      Run(|workers|, es, View())
    }

    constructor (n: nat)
      requires 0 < n
      ensures Valid() && View() == Start(n) && es == []
      ensures jobs == [] && taskSeq == 0 && |idle| == |workers| == |log| == n
      ensures forall w | 0 <= w < n :: idle[w] == w && workers[w] == Worker(0, 0) && log[w] == []
    {
      jobs, idle, workers, taskSeq := [], seq(n, w requires 0 <= w < n => w), seq(n, _ => Worker(0, 0)), 0;
      log, es := seq(n, _ => []), [];
    }

    /** When the list is empty, every worker has finished every task that `Exec` was ever called for. */
    lemma Drained(w: nat)
      requires Valid() && jobs == [] && w < |workers|
      ensures |log| == |workers| && |log[w]| == taskSeq == Postings(es)
      ensures forall k | 0 <= k < |log[w]| :: log[w][k] == k + 1
    {
      AllFinished(|workers|, es, View(), w);
      PostedIs(|workers|, es, View());
    }

    /** `Driver::Exec`. */
    method Exec()
      requires Valid()
      modifies this
      ensures Valid() && View() == Post(old(View())) && es == old(es) + [Posting]
      ensures taskSeq == old(taskSeq) + 1 && jobs == old(jobs) + [Task(taskSeq, 0, [])]
      ensures idle == old(idle) && workers == old(workers) && log == old(log)
    {
      ghost var s := View();
      taskSeq := taskSeq + 1;
      jobs := jobs + [Task(taskSeq, 0, [])];
      es := es + [Posting];
      RunSnoc(|workers|, old(es), s, Posting, View());
    }

    /** One idle worker is taken from the front: if it is behind the head task it goes there, otherwise
        it queues up again. */
    method LookAt(m: nat)
      requires jobs != [] && m == jobs[0].marker && idle != [] && idle[0] < |workers|
      modifies this`jobs, this`idle, this`workers
      ensures View() == Look(old(View()))
    {
      var wk := idle[0];
      idle := idle[1..];
      if workers[wk].marker < m {
        jobs := jobs[0 := jobs[0].(queue := jobs[0].queue + [wk])];
        workers := workers[wk := workers[wk].(job := m)];
      } else {
        idle := idle + [wk];
      }
    }

    method AssignHead()
      requires jobs != [] && Below(idle, |workers|)
      modifies this`jobs, this`idle, this`workers
      ensures View() == Assign(old(View()))
    {
      hide Half, Look, Assign, Below;
      ghost var s := View();
      HalfEnds(s);
      var m, todo := jobs[0].marker, |idle|;
      for j := 0 to todo
        invariant m == s.tasks[0].marker && todo == |s.idle| && View() == Half(s, j)
      {
        HalfLook(s, j);
        LookAt(m);
      }
    }

    /** The loop under the lock; the finished tasks it returns are freed. */
    method Dispatch() returns (kf: seq<Task>)
      requires Valid()
      modifies this
      ensures Valid() && es == old(es) + [Dispatching] && |workers| == old(|workers|)
      ensures Below(old(idle), |old(workers)|) && (View(), kf) == Scheduler.Dispatch(old(View()))
    {
      hide Scheduler.Dispatch, Run, Inv, Assign, Below, Reapings;
      ghost var s := View();
      RunInv(|workers|, es, s);
      DispatchInv(s);
      kf := [];
      var more := true;
      while jobs != [] && more
        invariant es == old(es) && Below(idle, |workers|)
        invariant var (t, out) := Scheduler.Dispatch(s);
                  if more then Scheduler.Dispatch(View()).0 == t && out == kf + Scheduler.Dispatch(View()).1
                  else (View(), kf) == (t, out)
        decreases |jobs|, more
      {
        ghost var u := View();
        DispatchStep(u);
        AssignShape(u);
        AssignHead();
        assert kf + [] == kf;
        Assoc(kf, [jobs[0]], Scheduler.Dispatch(View().(tasks := jobs[1..])).1);
        if jobs[0].queue == [] && jobs[0].looks == |workers| {
          kf := kf + [jobs[0]];
          jobs := jobs[1..];
        } else {
          more := false;
        }
      }
      DispatchStep(View());
      assert kf + [] == kf;
      es := es + [Dispatching];
      RunSnoc(|workers|, old(es), s, Dispatching, View());
    }

    /** `Worker::On`: the task the worker stands at is performed; if the action is finished the worker
        is counted, leaves the task and goes on to the next one, or to the idle queue behind the last. */
    method On(w: nat, finished: bool)
      requires Valid() && Busy(View(), w)
      modifies this
      ensures Valid() && es == old(es) + [Stepping(w, finished)]
      ensures old(Find(jobs, workers[w].job) < |jobs| && |log| == |workers|)
      ensures View() == Scheduler.On(old(View()), w, finished)
      ensures |workers| == old(|workers|) && workers[w].marker == old(workers[w].job)
      ensures |log| == old(|log|) && log[w] == old(log[w]) + if finished then [old(workers[w].job)] else []
      ensures forall v | 0 <= v < |workers| && v != w :: workers[v] == old(workers[v]) && log[v] == old(log[v])
      ensures !finished ==> jobs == old(jobs) && idle == old(idle) && workers[w].job == old(workers[w].job)
      ensures taskSeq == old(taskSeq)
    {
      hide Run, Inv, Count;
      ghost var s := View();
      RunInv(|workers|, es, s);
      FindJob(s, w);
      LogOk(s);
      var i := Find(jobs, workers[w].job);
      var marker := jobs[i].marker;
      workers := workers[w := Worker(marker, marker)];
      if finished {
        jobs := jobs[i := Task(marker, jobs[i].looks + 1, Without(jobs[i].queue, w))];
        log := log[w := log[w] + [marker]];
        if i + 1 < |jobs| {
          jobs := jobs[i + 1 := jobs[i + 1].(queue := jobs[i + 1].queue + [w])];
          workers := workers[w := Worker(marker, jobs[i + 1].marker)];
        } else {
          idle := idle + [w];
          workers := workers[w := Worker(marker, 0)];
        }
      }
      es := es + [Stepping(w, finished)];
      RunSnoc(|s.workers|, old(es), s, Stepping(w, finished), View());
    }

    /** One turn of `Driver::Run`: the loop under the lock, then one worker, drawn at random, performs its
        task if it stands at one. After the loop somebody stands at the head task, if there is one, and a
        finished action takes one off the pending actions: the list drains. */
    method Turn(w: nat, finished: bool) returns (kf: seq<Task>)
      requires Valid() && w < |workers|
      modifies this
      ensures Valid() && |workers| == old(|workers|)
      ensures Below(old(idle), |old(workers)|)
      ensures var (t, out) := Scheduler.Dispatch(old(View()));
              && kf == out && Manned(t)
              && (Busy(t, w) ==> |t.log| == |t.workers| && Find(t.tasks, t.workers[w].job) < |t.tasks|)
              && View() == (if Busy(t, w) then Scheduler.On(t, w, finished) else t)
              && Pending(jobs, |workers|) == Pending(old(jobs), |workers|) - if Busy(t, w) && finished then 1 else 0
    {
      hide Run, Inv, Pending, Scheduler.Dispatch, Scheduler.On, Find, Count;
      ghost var n := |workers|;
      Progress(n, es, View());
      kf := Dispatch();
      if workers[w].job != 0 {
        StepKeeps(n, es, View(), w, finished);
        On(w, finished);
      }
    }

    /** One turn without priorities, the other build: the loop under the lock, then every worker that
        stands at a task performs it. If every action is finished, the turn leaves no task or takes
        something off the pending actions: the list drains. */
    method TurnAll(finished: seq<bool>) returns (kf: seq<Task>)
      requires Valid() && |finished| == |workers|
      modifies this
      ensures Valid() && |workers| == old(|workers|)
      ensures (forall w | 0 <= w < |finished| :: finished[w]) ==>
                jobs == [] || Pending(jobs, |workers|) < old(Pending(jobs, |workers|))
    {
      hide Run, Inv, Pending, Scheduler.Dispatch, Scheduler.On, Find, Count;
      ghost var n, p := |workers|, Pending(jobs, |workers|);
      Progress(n, es, View());
      kf := Dispatch();
      Progress(n, es, View());
      ghost var none, w0: nat := jobs == [], 0;
      if !none {
        w0 :| Busy(View(), w0) && workers[w0].job == jobs[0].marker;
      }
      for w := 0 to |workers|
        invariant Valid() && |workers| == n == |finished|
        invariant none ==> jobs == []
        invariant !none ==> w0 < n && (w <= w0 ==> workers[w0].job != 0)
        invariant (forall v | 0 <= v < n :: finished[v]) ==>
                    Pending(jobs, n) <= p && (!none && w0 < w ==> Pending(jobs, n) < p)
      {
        if workers[w].job != 0 {
          StepKeeps(n, es, View(), w, finished[w]);
          On(w, finished[w]);
        }
      }
    }
  }
}
