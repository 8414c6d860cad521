/** The task scheduler. Tasks form a list in the order in which they were posted; every worker walks
    the list and performs every task. `Driver::Exec` appends a task, the loop under the lock hands
    idle workers to the head task and reaps finished head tasks, and `Worker::On` performs the task a
    worker stands at. Which worker moves, and whether its action is finished, is left open. */
module Scheduler {
  import opened Sequences

  /** A task in the list: its number, how many workers have finished it, who stands at it. */
  datatype Task = Task(marker: nat, looks: nat, queue: seq<nat>)

  /** A worker: the task it performed last, and the one it stands at (0: it is idle). */
  datatype Worker = Worker(marker: nat, job: nat)

  /** `log[w]`: the tasks that worker w has finished, in order. */
  datatype State = State(tasks: seq<Task>, idle: seq<nat>, workers: seq<Worker>, posted: nat, log: seq<seq<nat>>)

  // ----- steps -----

  function Post(s: State): State {
    s.(tasks := s.tasks + [Task(s.posted + 1, 0, [])], posted := s.posted + 1)
  }

  predicate Below(q: seq<nat>, n: nat) {
    forall i | 0 <= i < |q| :: q[i] < n
  }

  /** The idle workers that have, or have not, come as far as task m. */
  function Pick(idle: seq<nat>, ws: seq<Worker>, m: nat, behind: bool): (r: seq<nat>)
    requires Below(idle, |ws|)
    ensures Below(r, |ws|)
    ensures forall w :: w in r <==> w in idle && w < |ws| && (ws[w].marker < m <==> behind)
    ensures Distinct(idle) ==> Distinct(r)
  {
    if idle == [] then []
    else
      assert idle == [idle[0]] + idle[1..];
      var r := Pick(idle[1..], ws, m, behind);
      if ws[idle[0]].marker < m <==> behind then [idle[0]] + r else r
  }

  /** Idle workers that have not come as far as the head task are put there. */
  function Assign(s: State): State
    requires s.tasks != [] && Below(s.idle, |s.workers|)
  {
    var h := s.tasks[0];
    var go := Pick(s.idle, s.workers, h.marker, true);
    s.(tasks := s.tasks[0 := h.(queue := h.queue + go)],
       idle := Pick(s.idle, s.workers, h.marker, false),
       workers := seq(|s.workers|, w requires 0 <= w < |s.workers| =>
         if w in go then s.workers[w].(job := h.marker) else s.workers[w]))
  }

  predicate Complete(t: Task, n: nat) {
    t.queue == [] && t.looks == n
  }

  /** The loop under the lock: assign, and while the head task is complete, take it out and go on. */
  function Dispatch(s: State): (r: (State, seq<Task>))
    requires Below(s.idle, |s.workers|)
    decreases |s.tasks|
  {
    if s.tasks == [] then (s, [])
    else
      var a := Assign(s);
      if Complete(a.tasks[0], |a.workers|) then
        var (r, out) := Dispatch(a.(tasks := a.tasks[1..]));
        (r, [a.tasks[0]] + out)
      else (a, [])
  }

  /** Position of task m in the list; the length of the list if it is not there. */
  function Find(ts: seq<Task>, m: nat): (i: nat)
    ensures i <= |ts| && (i < |ts| ==> ts[i].marker == m)
    ensures forall j | 0 <= j < i :: ts[j].marker != m
  {
    if ts == [] || ts[0].marker == m then 0 else 1 + Find(ts[1..], m)
  }

  /** A queue without worker w. */
  function Without<T(==)>(q: seq<T>, w: T): (r: seq<T>)
    ensures (forall v <- r :: v in q && v != w) && (forall v <- q :: v == w || v in r)
    ensures Distinct(q) ==> Distinct(r)
  {
    if q == [] then []
    else
      assert q == [q[0]] + q[1..];
      var r := Without(q[1..], w);
      assert Distinct(q) ==> Distinct(q[1..]) && q[0] !in r;
      if q[0] == w then r else [q[0]] + r
  }

  /** Worker w performs the task it stands at. If the action is finished the worker is counted and
      goes on to the next task, or becomes idle behind the last one. */
  function On(s: State, w: nat, finished: bool): State
    requires w < |s.workers| && s.workers[w].job != 0 && |s.log| == |s.workers|
    requires Find(s.tasks, s.workers[w].job) < |s.tasks|
  {
    var i := Find(s.tasks, s.workers[w].job);
    var t := s.tasks[i];
    if !finished then s.(workers := s.workers[w := Worker(t.marker, t.marker)])
    else
      var ts := s.tasks[i := Task(t.marker, t.looks + 1, Without(t.queue, w))];
      var u := s.(log := s.log[w := s.log[w] + [t.marker]]);
      if i + 1 < |ts| then
        var next := ts[i + 1];
        u.(tasks := ts[i + 1 := next.(queue := next.queue + [w])],
           workers := s.workers[w := Worker(t.marker, next.marker)])
      else
        u.(tasks := ts, idle := s.idle + [w], workers := s.workers[w := Worker(t.marker, 0)])
  }

  // ----- the invariant -----

  /** The last task that worker w has finished. */
  function Passed(w: Worker): int {
    if w.job == 0 then w.marker else w.job - 1
  }

  /** How many workers have finished task m. */
  function Count(ws: seq<Worker>, m: nat): nat {
    if ws == [] then 0
    else Count(ws[..|ws| - 1], m) + if Passed(ws[|ws| - 1]) >= m then 1 else 0
  }

  /** The last task that has been reaped. */
  function Reaped(s: State): int {
    s.posted - |s.tasks|
  }

  ghost predicate TasksOk(s: State) {
    && 0 <= Reaped(s)
    && forall i | 0 <= i < |s.tasks| ::
         && s.tasks[i].marker == Reaped(s) + 1 + i
         && s.tasks[i].looks == Count(s.workers, s.tasks[i].marker)
         && QueueOk(s, s.tasks[i].queue, s.tasks[i].marker)
  }

  /** The workers in a queue stand at its task, and are there once. */
  ghost predicate QueueOk(s: State, q: seq<nat>, job: nat) {
    Distinct(q) && (forall w <- q :: w < |s.workers| && s.workers[w].job == job)
  }

  /** A worker has finished everything reaped; it is in the queue it believes to be in; and it has
      finished exactly the tasks 1, 2, ... up to where it stands. */
  ghost predicate WorkerOk(s: State, w: nat)
    requires w < |s.workers| == |s.log|
  {
    var x := s.workers[w];
    && Reaped(s) <= Passed(x) <= s.posted && x.marker <= Passed(x) + 1
    && (if x.job == 0 then w in s.idle
        else x.job <= s.posted && Passed(x) <= x.marker && w in s.tasks[x.job - Reaped(s) - 1].queue)
    && |s.log[w]| == Passed(x)
    && forall k | 0 <= k < |s.log[w]| :: s.log[w][k] == k + 1
  }

  ghost predicate Inv(s: State) {
    && 0 < |s.workers| == |s.log|
    && TasksOk(s)
    && QueueOk(s, s.idle, 0)
    && forall w | 0 <= w < |s.workers| :: WorkerOk(s, w)
  }

  // ----- counting -----

  /** One worker's progress changes the count of exactly the tasks it has newly finished. */
  lemma {:induction false} CountUpdate(ws: seq<Worker>, w: nat, x: Worker, m: nat)
    requires w < |ws|
    ensures Count(ws[w := x], m) ==
            Count(ws, m) + (if Passed(x) >= m then 1 else 0) - (if Passed(ws[w]) >= m then 1 else 0)
    decreases |ws|
  {
    var init := ws[..|ws| - 1];
    if w < |ws| - 1 {
      CountUpdate(init, w, x, m);
      assert ws[w := x][..|ws| - 1] == init[w := x];
    } else {
      assert ws[w := x][..|ws| - 1] == init;
    }
  }

  /** Workers that keep their progress keep the counts. */
  lemma {:induction false} CountSame(ws: seq<Worker>, vs: seq<Worker>, m: nat)
    requires |ws| == |vs| && forall w | 0 <= w < |ws| :: Passed(ws[w]) == Passed(vs[w])
    ensures Count(ws, m) == Count(vs, m)
    decreases |ws|
  {
    if ws != [] {
      CountSame(ws[..|ws| - 1], vs[..|vs| - 1], m);
    }
  }

  /** The count is full exactly when everybody has finished. */
  lemma {:induction false} CountFull(ws: seq<Worker>, m: nat)
    ensures Count(ws, m) <= |ws|
    ensures Count(ws, m) == |ws| <==> forall w | 0 <= w < |ws| :: Passed(ws[w]) >= m
    decreases |ws|
  {
    if ws != [] {
      var init := ws[..|ws| - 1];
      CountFull(init, m);
      assert forall w | 0 <= w < |init| :: init[w] == ws[w];
    }
  }

  /** Nobody has finished a task that has not been posted. */
  lemma {:induction false} CountNone(ws: seq<Worker>, m: nat)
    requires forall w | 0 <= w < |ws| :: Passed(ws[w]) < m
    ensures Count(ws, m) == 0
    decreases |ws|
  {
    if ws != [] {
      CountNone(ws[..|ws| - 1], m);
    }
  }

  // ----- every step keeps the invariant -----

  function Start(n: nat): State {
    State([], seq(n, w requires 0 <= w < n => w), seq(n, _ => Worker(0, 0)), 0, seq(n, _ => []))
  }

  lemma StartInv(n: nat)
    requires 0 < n
    ensures Inv(Start(n))
  {
    var s := Start(n);
    forall w | 0 <= w < n
      ensures WorkerOk(s, w)
    {
      assert s.idle[w] == w;
    }
  }

  lemma PostInv(s: State)
    requires Inv(s)
    ensures Inv(Post(s))
  {
    var t := Post(s);
    forall i | 0 <= i < |t.tasks|
      ensures t.tasks[i].looks == Count(t.workers, t.tasks[i].marker) && QueueOk(t, t.tasks[i].queue, t.tasks[i].marker)
    {
      if i < |s.tasks| {
        assert QueueOk(s, s.tasks[i].queue, s.tasks[i].marker);
      } else {
        forall w | 0 <= w < |t.workers|
          ensures Passed(t.workers[w]) < t.posted
        {
          assert WorkerOk(s, w);
        }
        CountNone(t.workers, t.posted);
      }
    }
    forall w | 0 <= w < |t.workers|
      ensures WorkerOk(t, w)
    {
      assert WorkerOk(s, w);
    }
  }

  lemma QueueBelow(s: State, q: seq<nat>, job: nat)
    requires QueueOk(s, q, job)
    ensures Below(q, |s.workers|)
  {
    assert forall i | 0 <= i < |q| :: q[i] in q;
  }

  /** Where a worker is after the assignment. */
  lemma AssignWorker(s: State, w: nat)
    requires Inv(s) && s.tasks != [] && Below(s.idle, |s.workers|) && w < |s.workers|
    ensures Passed(Assign(s).workers[w]) == Passed(s.workers[w]) && WorkerOk(Assign(s), w)
  {
    hide TasksOk, Distinct, Below;
    HeadMarker(s);
    assert WorkerOk(s, w);
    var x := s.workers[w];
    assert QueueOk(s, s.idle, 0);
    if x.job == 0 {
      AssignIdle(s, w);
    } else {
      AssignBusy(s, w);
    }
  }

  lemma AssignIdle(s: State, w: nat)
    requires Assignable(s, w) && s.workers[w].job == 0
    ensures WorkerOk(Assign(s), w) && Passed(Assign(s).workers[w]) == Passed(s.workers[w])
  {
  }

  lemma AssignBusy(s: State, w: nat)
    requires Assignable(s, w) && s.workers[w].job != 0 && w !in s.idle
    ensures WorkerOk(Assign(s), w) && Passed(Assign(s).workers[w]) == Passed(s.workers[w])
  {
  }

  ghost predicate Assignable(s: State, w: nat) {
    && w < |s.workers| == |s.log| && s.tasks != [] && Below(s.idle, |s.workers|)
    && WorkerOk(s, w) && s.tasks[0].marker == Reaped(s) + 1
  }

  lemma AssignQueues(s: State)
    requires Inv(s) && s.tasks != [] && Below(s.idle, |s.workers|)
    ensures var t, h := Assign(s), s.tasks[0];
            && QueueOk(t, t.idle, 0) && QueueOk(t, t.tasks[0].queue, h.marker)
            && forall i | 0 < i < |t.tasks| :: QueueOk(t, t.tasks[i].queue, t.tasks[i].marker)
  {
    var t, h := Assign(s), s.tasks[0];
    assert QueueOk(s, h.queue, h.marker);
    var go := Pick(s.idle, s.workers, h.marker, true);
    assert forall w <- go :: w !in h.queue;
    forall i | 0 < i < |t.tasks|
      ensures QueueOk(t, t.tasks[i].queue, t.tasks[i].marker)
    {
      assert QueueOk(s, s.tasks[i].queue, s.tasks[i].marker);
    }
  }

  lemma AssignInv(s: State)
    requires Inv(s) && s.tasks != []
    ensures Below(s.idle, |s.workers|) && Inv(Assign(s))
    ensures Assign(s).log == s.log && Assign(s).posted == s.posted && |Assign(s).tasks| == |s.tasks|
    ensures forall w <- Assign(s).idle :: w < |s.workers| && Assign(s).workers[w].marker >= s.tasks[0].marker
  {
    hide *;
    QueueIdle(s);
    AssignSizes(s);
    AssignQueues(s);
    AssignShape(s);
    var t := Assign(s);
    forall w | 0 <= w < |t.workers|
      ensures Passed(t.workers[w]) == Passed(s.workers[w]) && WorkerOk(t, w)
    {
      AssignWorker(s, w);
    }
    forall i | 0 <= i < |t.tasks|
      ensures TaskOk(t, i)
    {
      AssignTask(s, t, i);
    }
    InvIntro(t);
  }

  lemma AssignSizes(s: State)
    requires Inv(s) && s.tasks != [] && Below(s.idle, |s.workers|)
    ensures 0 < |s.workers| == |s.log| && 0 <= Reaped(s) && Reaped(Assign(s)) == Reaped(s)
  {
    AssignShape(s);
    hide Assign, QueueOk, WorkerOk, Count;
  }

  lemma AssignTask(s: State, t: State, i: nat)
    requires Inv(s) && i < |s.tasks| == |t.tasks| && |t.workers| == |s.workers| && Reaped(t) == Reaped(s)
    requires t.tasks[i].marker == s.tasks[i].marker && t.tasks[i].looks == s.tasks[i].looks
    requires forall w | 0 <= w < |s.workers| :: Passed(t.workers[w]) == Passed(s.workers[w])
    requires QueueOk(t, t.tasks[i].queue, t.tasks[i].marker)
    ensures TaskOk(t, i)
  {
    CountSame(s.workers, t.workers, s.tasks[i].marker);
    TaskIs(s, i);
    hide Inv, QueueOk, Count, Passed, Reaped;
  }

  lemma AssignShape(s: State)
    requires s.tasks != [] && Below(s.idle, |s.workers|)
    ensures var t := Assign(s);
            && |t.workers| == |s.workers| && t.log == s.log && t.posted == s.posted && |t.tasks| == |s.tasks|
            && (forall i | 0 <= i < |s.tasks| ::
                  t.tasks[i].marker == s.tasks[i].marker && t.tasks[i].looks == s.tasks[i].looks)
            && (forall w <- t.idle ::
                  w < |s.workers| && t.workers[w] == s.workers[w] && s.workers[w].marker >= s.tasks[0].marker)
  {
  }

  /** Every worker has finished task m, and none stands at it. */
  ghost predicate Done(s: State, m: nat) {
    |s.log| == |s.workers| &&
    forall w | 0 <= w < |s.workers| :: m in s.log[w] && s.workers[w].job != m
  }

  /** A complete head task has been finished by everybody, and taking it out leaves all in order. */
  lemma ReapInv(s: State)
    requires Inv(s) && s.tasks != [] && Complete(s.tasks[0], |s.workers|)
    ensures Inv(s.(tasks := s.tasks[1..])) && Done(s, s.tasks[0].marker)
  {
    var h, t := s.tasks[0], s.(tasks := s.tasks[1..]);
    CountFull(s.workers, h.marker);
    forall w | 0 <= w < |s.workers|
      ensures WorkerOk(t, w) && h.marker in s.log[w] && s.workers[w].job != h.marker
    {
      ReapWorker(s, w);
    }
    hide WorkerOk;
    forall i | 0 <= i < |t.tasks|
      ensures && t.tasks[i].marker == Reaped(t) + 1 + i
              && t.tasks[i].looks == Count(t.workers, t.tasks[i].marker)
              && QueueOk(t, t.tasks[i].queue, t.tasks[i].marker)
    {
      assert t.tasks[i] == s.tasks[i + 1];
      assert QueueOk(s, s.tasks[i + 1].queue, s.tasks[i + 1].marker);
    }
  }

  lemma ReapWorker(s: State, w: nat)
    requires Inv(s) && s.tasks != [] && s.tasks[0].queue == [] && w < |s.workers|
             && Passed(s.workers[w]) >= s.tasks[0].marker
    ensures var h, t := s.tasks[0], s.(tasks := s.tasks[1..]);
            WorkerOk(t, w) && h.marker in s.log[w] && s.workers[w].job != h.marker
  {
    var h, x := s.tasks[0], s.workers[w];
    assert WorkerOk(s, w);
    assert h.marker == Reaped(s) + 1;
    assert s.log[w][h.marker - 1] == h.marker;
  }

  /** The tasks taken out: in order from where reaping had come, each finished by everybody and
      referenced by nobody. */
  ghost predicate Reapings(t: State, base: int, out: seq<Task>) {
    forall i | 0 <= i < |out| :: out[i].marker == base + 1 + i && Done(t, out[i].marker)
  }

  /** The loop under the lock keeps everything in order. What it takes out has been finished by every
      worker and is referenced by none. If tasks remain, somebody stands at the first. */
  lemma {:induction false} DispatchInv(s: State)
    requires Inv(s)
    ensures Below(s.idle, |s.workers|)
    ensures var (t, out) := Dispatch(s);
            && Inv(t) && t.log == s.log && t.posted == s.posted && |t.workers| == |s.workers|
            && Reaped(t) == Reaped(s) + |out| && Reapings(t, Reaped(s), out)
            && (t.tasks != [] ==> t.tasks[0].queue != [])
    decreases |s.tasks|
  {
    hide *;
    QueueIdle(s);
    DispatchStep(s);
    if s.tasks != [] {
      AssignInv(s);
      AssignShape(s);
      var a := Assign(s);
      if Complete(a.tasks[0], |a.workers|) {
        var b := a.(tasks := a.tasks[1..]);
        ReapInv(a);
        HeadMarker(a);
        ReapedIs(s, a, b);
        DispatchInv(b);
        var (t, out) := Dispatch(b);
        ReapedLater(b, t, |out|);
        DoneStays(a, t, a.tasks[0].marker);
        ReapingsCons(t, Reaped(s), a.tasks[0], out);
      } else {
        HeadManned(s);
        ReapedIs(s, a, a);
      }
    }
  }

  lemma QueueIdle(s: State)
    requires Inv(s)
    ensures Below(s.idle, |s.workers|)
  {
    QueueBelow(s, s.idle, 0);
  }

  lemma HeadMarker(s: State)
    requires Inv(s) && s.tasks != []
    ensures s.tasks[0].marker == Reaped(s) + 1
  {
  }

  lemma ReapedIs(s: State, a: State, b: State)
    requires a.posted == s.posted && |a.tasks| == |s.tasks| && b.posted == s.posted
    ensures Reaped(a) == Reaped(s) && Reaped(b) == Reaped(s) + |s.tasks| - |b.tasks| && Reapings(b, Reaped(s), [])
  {
  }

  lemma ReapedLater(b: State, t: State, k: nat)
    requires Reaped(t) == Reaped(b) + k
    ensures Reaped(b) <= Reaped(t)
  {
  }

  lemma ReapingsCons(t: State, base: int, h: Task, out: seq<Task>)
    requires Reapings(t, base + 1, out) && h.marker == base + 1 && Done(t, h.marker)
    ensures Reapings(t, base, [h] + out)
  {
    hide Done;
  }

  lemma DispatchStep(s: State)
    requires Below(s.idle, |s.workers|)
    ensures s.tasks == [] ==> Dispatch(s) == (s, []) && Reapings(s, Reaped(s), [])
    ensures s.tasks != [] ==>
              var a := Assign(s);
              && a.tasks != [] && |a.workers| == |s.workers| && Below(a.idle, |a.workers|)
              && (if Complete(a.tasks[0], |a.workers|) then
                    var (r, out) := Dispatch(a.(tasks := a.tasks[1..])); Dispatch(s) == (r, [a.tasks[0]] + out)
                  else Dispatch(s) == (a, []))
              && (Complete(a.tasks[0], |a.workers|) ==> a.tasks[0].queue == [])
  {
  }

  /** What everybody has finished stays finished. */
  lemma DoneStays(s: State, t: State, m: nat)
    requires Inv(t) && t.log == s.log && |t.workers| == |s.workers| && Done(s, m) && m <= Reaped(t)
    ensures Done(t, m)
  {
    forall w | 0 <= w < |t.workers|
      ensures t.workers[w].job != m
    {
      assert WorkerOk(t, w);
    }
  }

  /** After the assignment a head task that is not complete has a worker. */
  lemma HeadManned(s: State)
    requires Inv(s) && s.tasks != [] && Below(s.idle, |s.workers|)
    requires !Complete(Assign(s).tasks[0], |s.workers|)
    ensures Assign(s).tasks[0].queue != []
  {
    var t := Assign(s);
    AssignInv(s);
    var h := t.tasks[0];
    hide Assign;
    if h.queue == [] {
      CountFull(t.workers, h.marker);
      forall w | 0 <= w < |t.workers|
        ensures Passed(t.workers[w]) >= h.marker
      {
        assert WorkerOk(t, w);
      }
    }
  }

  ghost predicate Busy(s: State, w: nat) {
    w < |s.workers| && s.workers[w].job != 0
  }

  /** A busy worker's task is in the list, and the worker is in its queue. */
  lemma FindJob(s: State, w: nat)
    requires Inv(s) && Busy(s, w)
    ensures var i, j := Find(s.tasks, s.workers[w].job), s.workers[w].job;
            && i < |s.tasks| && i == j - Reaped(s) - 1 && s.tasks[i].marker == j
            && w in s.tasks[i].queue && |s.log[w]| == j - 1
            && QueueOk(s, s.tasks[i].queue, j) && s.tasks[i].looks == Count(s.workers, j)
            && (i + 1 < |s.tasks| ==> s.tasks[i + 1].marker == j + 1)
            && (i + 1 == |s.tasks| ==> j == s.posted)
  {
    assert WorkerOk(s, w);
    var k := s.workers[w].job - Reaped(s) - 1;
    assert s.tasks[k].marker == s.workers[w].job;
    var i := Find(s.tasks, s.workers[w].job);
    assert i < |s.tasks| ==> s.tasks[i].marker == Reaped(s) + 1 + i;
  }

  lemma InvIntro(t: State)
    requires 0 < |t.workers| == |t.log| && 0 <= Reaped(t) && QueueOk(t, t.idle, 0)
    requires forall w | 0 <= w < |t.workers| :: WorkerOk(t, w)
    requires forall k | 0 <= k < |t.tasks| :: TaskOk(t, k)
    ensures Inv(t)
  {
    hide WorkerOk, QueueOk, Count;
    forall k | 0 <= k < |t.tasks|
      ensures && t.tasks[k].marker == Reaped(t) + 1 + k
              && t.tasks[k].looks == Count(t.workers, t.tasks[k].marker)
              && QueueOk(t, t.tasks[k].queue, t.tasks[k].marker)
    {
      assert TaskOk(t, k);
    }
  }

  ghost predicate TaskOk(t: State, k: nat)
    requires k < |t.tasks|
  {
    && t.tasks[k].marker == Reaped(t) + 1 + k
    && t.tasks[k].looks == Count(t.workers, t.tasks[k].marker)
    && QueueOk(t, t.tasks[k].queue, t.tasks[k].marker)
  }

  lemma StillShape(s: State, w: nat)
    requires Inv(s) && Busy(s, w)
    ensures w < |s.workers| == |s.log| && s.workers[w].job != 0 && Find(s.tasks, s.workers[w].job) < |s.tasks|
    ensures 0 <= Reaped(s) && QueueOk(s, s.idle, 0)
    ensures var j := s.workers[w].job; On(s, w, false) == s.(workers := s.workers[w := Worker(j, j)])
  {
    FindJob(s, w);
    hide Find, QueueOk, WorkerOk, Count;
  }

  lemma StillWorker(s: State, w: nat, v: nat)
    requires Inv(s) && Busy(s, w) && v < |s.workers|
    ensures var j := s.workers[w].job;
            var t := s.(workers := s.workers[w := Worker(j, j)]);
            && |t.workers| == |t.log| && WorkerOk(t, v) && Passed(t.workers[v]) == Passed(s.workers[v])
            && t.workers[v].job == s.workers[v].job
  {
    WorkerIn(s, v);
    hide Inv;
  }

  lemma StillTask(s: State, t: State, k: nat)
    requires k < |s.tasks| && TaskOk(s, k) && t == s.(workers := t.workers) && |t.workers| == |s.workers|
    requires forall v | 0 <= v < |s.workers| ::
               Passed(t.workers[v]) == Passed(s.workers[v]) && t.workers[v].job == s.workers[v].job
    ensures TaskOk(t, k)
  {
    CountSame(s.workers, t.workers, s.tasks[k].marker);
    hide Count, Passed;
  }

  lemma StillIdle(s: State, t: State)
    requires QueueOk(s, s.idle, 0) && t == s.(workers := t.workers) && |t.workers| == |s.workers|
    requires forall v | 0 <= v < |s.workers| :: t.workers[v].job == s.workers[v].job
    ensures QueueOk(t, t.idle, 0) && Reaped(t) == Reaped(s)
  {
    hide Distinct;
  }

  lemma TaskIs(s: State, k: nat)
    requires Inv(s) && k < |s.tasks|
    ensures TaskOk(s, k)
  {
    hide Count, QueueOk, WorkerOk;
  }

  /** Performing an action that goes on leaves everybody where they were. */
  lemma OnUnfinished(s: State, w: nat)
    requires Inv(s) && Busy(s, w)
    ensures Find(s.tasks, s.workers[w].job) < |s.tasks| && Inv(On(s, w, false))
  {
    hide *;
    StillShape(s, w);
    var t := On(s, w, false);
    forall v | 0 <= v < |s.workers|
      ensures WorkerOk(t, v) && Passed(t.workers[v]) == Passed(s.workers[v])
      ensures t.workers[v].job == s.workers[v].job
    {
      StillWorker(s, w, v);
    }
    forall k | 0 <= k < |t.tasks|
      ensures TaskOk(t, k)
    {
      TaskIs(s, k);
      StillTask(s, t, k);
    }
    StillIdle(s, t);
    InvIntro(t);
  }

  /** What a finished action changes, in terms of the task's position i. */
  lemma OnShape(s: State, w: nat)
    requires Inv(s) && Busy(s, w)
    ensures Find(s.tasks, s.workers[w].job) < |s.tasks|
    ensures var t, i, j := On(s, w, true), Find(s.tasks, s.workers[w].job), s.workers[w].job;
            && |t.tasks| == |s.tasks| && |t.workers| == |s.workers| == |t.log| && t.posted == s.posted
            && t.log == s.log[w := s.log[w] + [j]]
            && t.workers == s.workers[w := Worker(j, if i + 1 < |s.tasks| then j + 1 else 0)]
            && (forall k | 0 <= k < |s.tasks| ::
                  && t.tasks[k].marker == s.tasks[k].marker
                  && t.tasks[k].looks == s.tasks[k].looks + (if k == i then 1 else 0)
                  && t.tasks[k].queue == if k == i then Without(s.tasks[k].queue, w)
                                         else if k == i + 1 then s.tasks[k].queue + [w] else s.tasks[k].queue)
            && t.idle == if i + 1 < |s.tasks| then s.idle else s.idle + [w]
  {
    FindJob(s, w);
    hide Inv, QueueOk, Count;
  }

  /** The worker that moved. */
  lemma OnMover(s: State, w: nat)
    requires Inv(s) && Busy(s, w)
    ensures Find(s.tasks, s.workers[w].job) < |s.tasks| && WorkerOk(On(s, w, true), w)
  {
    FindJob(s, w);
    OnShape(s, w);
    assert WorkerOk(s, w);
    hide TasksOk, On, QueueOk, Without;
  }

  lemma OnPlace(s: State, w: nat, k: nat, v: nat)
    requires Inv(s) && Busy(s, w) && k < |s.tasks| && v in s.tasks[k].queue && v != w
    ensures Find(s.tasks, s.workers[w].job) < |s.tasks|
    ensures k < |On(s, w, true).tasks| && v in On(s, w, true).tasks[k].queue
  {
    FindJob(s, w);
    OnShape(s, w);
    hide On, Inv, Find, Busy, Without;
  }

  /** The others. */
  lemma OnWorkers(s: State, w: nat, v: nat)
    requires Inv(s) && Busy(s, w) && v < |s.workers| && v != w
    ensures Find(s.tasks, s.workers[w].job) < |s.tasks| && WorkerOk(On(s, w, true), v)
  {
    hide *;
    WorkerIn(s, v);
    WorkerPlace(s, v);
    OnSizes(s, w);
    OnOthers(s, w, v);
    if s.workers[v].job != 0 {
      OnPlace(s, w, s.workers[v].job - Reaped(s) - 1, v);
    }
    OnSame(s, w, v);
  }

  /** Where a worker is. */
  lemma WorkerPlace(s: State, v: nat)
    requires Inv(s) && v < |s.workers|
    ensures var k := s.workers[v].job - Reaped(s) - 1;
            s.workers[v].job != 0 ==> 0 <= k < |s.tasks| && v in s.tasks[k].queue
  {
    WorkerIn(s, v);
    hide Inv;
  }

  lemma OnOthers(s: State, w: nat, v: nat)
    requires Inv(s) && Busy(s, w) && v < |s.workers| && v != w
    ensures Find(s.tasks, s.workers[w].job) < |s.tasks| && |s.log| == |s.workers|
    ensures var t := On(s, w, true);
            && |t.tasks| == |s.tasks| && |t.log| == |t.workers| == |s.workers| && t.posted == s.posted
            && t.workers[v] == s.workers[v] && t.log[v] == s.log[v] && (v in s.idle ==> v in t.idle)
  {
    FindJob(s, w);
    OnShape(s, w);
    WorkerIn(s, w);
    hide On, Find, Inv, WorkerOk, QueueOk, Count, Without;
  }

  lemma WorkerIn(s: State, v: nat)
    requires Inv(s) && v < |s.workers|
    ensures |s.workers| == |s.log| && WorkerOk(s, v) && 0 <= Reaped(s)
  {
  }

  lemma OnSame(s: State, w: nat, v: nat)
    requires v < |s.workers| == |s.log| && v != w && WorkerOk(s, v) && 0 <= Reaped(s)
    requires w < |s.workers| && s.workers[w].job != 0 && Find(s.tasks, s.workers[w].job) < |s.tasks|
    requires var t, x := On(s, w, true), s.workers[v];
             && |t.tasks| == |s.tasks| && |t.log| == |t.workers| == |s.workers| && t.posted == s.posted
             && t.workers[v] == x && t.log[v] == s.log[v]
             && (v in s.idle ==> v in t.idle)
             && (x.job != 0 ==> v in t.tasks[x.job - Reaped(s) - 1].queue)
    ensures WorkerOk(On(s, w, true), v)
  {
    hide On, Find;
  }

  lemma OnLooks(s: State, w: nat, k: nat)
    requires Inv(s) && Busy(s, w) && k < |s.tasks|
    ensures Find(s.tasks, s.workers[w].job) < |s.tasks|
    ensures var t := On(s, w, true);
            |t.tasks| == |s.tasks| && t.tasks[k].looks == Count(t.workers, t.tasks[k].marker)
  {
    FindJob(s, w);
    OnShape(s, w);
    var t := On(s, w, true);
    CountUpdate(s.workers, w, t.workers[w], s.tasks[k].marker);
    assert s.tasks[k].marker == Reaped(s) + 1 + k;
    hide On, WorkerOk, QueueOk, Count, Without;
  }

  /** A queue of which no member moves. */
  lemma QueueKept(s: State, t: State, w: nat, q: seq<nat>, job: nat)
    requires QueueOk(s, q, job) && w !in q
    requires |t.workers| == |s.workers| && forall v | 0 <= v < |s.workers| && v != w :: t.workers[v] == s.workers[v]
    ensures QueueOk(t, q, job)
  {
    hide Distinct;
  }

  /** The queue that the worker joins. */
  lemma QueueJoined(s: State, t: State, w: nat, q: seq<nat>, job: nat)
    requires QueueOk(s, q, job) && w !in q && w < |t.workers| && t.workers[w].job == job
    requires |t.workers| == |s.workers| && forall v | 0 <= v < |s.workers| && v != w :: t.workers[v] == s.workers[v]
    ensures QueueOk(t, q + [w], job)
  {
  }

  lemma OnQueue(s: State, w: nat, k: nat)
    requires Inv(s) && Busy(s, w) && k < |s.tasks|
    ensures Find(s.tasks, s.workers[w].job) < |s.tasks|
    ensures var t := On(s, w, true);
            |t.tasks| == |s.tasks| && QueueOk(t, t.tasks[k].queue, t.tasks[k].marker)
  {
    FindJob(s, w);
    OnShape(s, w);
    TaskIn(s, k);
    hide On, WorkerOk, TasksOk, Count, Inv, Distinct, Find, Without, QueueOk;
    var t, i, j, q := On(s, w, true), Find(s.tasks, s.workers[w].job), s.workers[w].job, s.tasks[k].queue;
    if k == i {
      QueueWithout(s, w, q, j);
      QueueKept(s, t, w, Without(q, w), j);
    } else {
      NotQueued(s, w, q, s.tasks[k].marker);
      if k == i + 1 {
        QueueJoined(s, t, w, q, s.tasks[k].marker);
      } else {
        QueueKept(s, t, w, q, s.tasks[k].marker);
      }
    }
  }

  lemma TaskIn(s: State, k: nat)
    requires Inv(s) && k < |s.tasks|
    ensures QueueOk(s, s.tasks[k].queue, s.tasks[k].marker) && s.tasks[k].marker == Reaped(s) + 1 + k
  {
  }

  lemma QueueWithout(s: State, w: nat, q: seq<nat>, job: nat)
    requires QueueOk(s, q, job)
    ensures QueueOk(s, Without(q, w), job) && w !in Without(q, w)
  {
    hide Without;
  }

  lemma NotQueued(s: State, w: nat, q: seq<nat>, job: nat)
    requires QueueOk(s, q, job) && Busy(s, w) && s.workers[w].job != job
    ensures w !in q
  {
  }

  lemma OnIdle(s: State, w: nat)
    requires Inv(s) && Busy(s, w)
    ensures Find(s.tasks, s.workers[w].job) < |s.tasks| && QueueOk(On(s, w, true), On(s, w, true).idle, 0)
  {
    FindJob(s, w);
    OnShape(s, w);
    assert QueueOk(s, s.idle, 0);
    hide On, WorkerOk, TasksOk;
  }

  lemma OnSizes(s: State, w: nat)
    requires Inv(s) && Busy(s, w)
    ensures w < |s.workers| == |s.log| && s.workers[w].job != 0 && Find(s.tasks, s.workers[w].job) < |s.tasks|
    ensures var t := On(s, w, true);
            && 0 < |t.workers| == |t.log| == |s.workers| && |t.tasks| == |s.tasks|
            && 0 <= Reaped(t) && t.posted == s.posted
            && t.log == s.log[w := s.log[w] + [|s.log[w]| + 1]]
  {
    FindJob(s, w);
    OnShape(s, w);
    hide On, Find, QueueOk, WorkerOk, Count;
  }

  lemma OnTask(s: State, w: nat, k: nat)
    requires Inv(s) && Busy(s, w) && k < |s.tasks|
    ensures Find(s.tasks, s.workers[w].job) < |s.tasks|
    ensures k < |On(s, w, true).tasks| && TaskOk(On(s, w, true), k)
  {
    OnShape(s, w);
    OnLooks(s, w, k);
    OnQueue(s, w, k);
    TaskIn(s, k);
    hide On, Find, QueueOk, Count, Inv, Without;
  }

  /** A finished action: the worker has finished the next task in turn, once, and goes on. */
  lemma OnFinished(s: State, w: nat)
    requires Inv(s) && Busy(s, w)
    ensures Find(s.tasks, s.workers[w].job) < |s.tasks|
    ensures var t := On(s, w, true);
            Inv(t) && t.log == s.log[w := s.log[w] + [|s.log[w]| + 1]] && t.posted == s.posted
  {
    hide *;
    OnSizes(s, w);
    OnIdle(s, w);
    var t := On(s, w, true);
    forall v | 0 <= v < |t.workers|
      ensures WorkerOk(t, v)
    {
      if v == w {
        OnMover(s, w);
      } else {
        OnWorkers(s, w, v);
      }
    }
    forall k | 0 <= k < |t.tasks|
      ensures TaskOk(t, k)
    {
      OnTask(s, w, k);
    }
    InvIntro(t);
  }

  // ----- runs -----

  datatype Event = Posting | Dispatching | Stepping(w: nat, finished: bool)

  ghost predicate Happens(s: State, e: Event, t: State) {
    match e
    case Posting => t == Post(s)
    case Dispatching => Below(s.idle, |s.workers|) && t == Dispatch(s).0
    case Stepping(w, finished) =>
      && Busy(s, w) && |s.log| == |s.workers| && Find(s.tasks, s.workers[w].job) < |s.tasks|
      && t == On(s, w, finished)
  }

  /** States that n workers can reach. */
  ghost predicate Run(n: nat, es: seq<Event>, s: State) {
    if es == [] then 0 < n && s == Start(n)
    else exists before :: Run(n, es[..|es| - 1], before) && Happens(before, Last(es), s)
  }

  /** One step keeps the invariant and the number of workers. */
  lemma HappensInv(s: State, e: Event, t: State)
    requires Inv(s) && Happens(s, e, t)
    ensures Inv(t) && |t.workers| == |s.workers|
  {
    hide Inv, Dispatch, Find, On;
    match e {
      case Posting => PostInv(s);
      case Dispatching => DispatchInv(s);
      case Stepping(w, finished) =>
        if finished {
          OnFinished(s, w);
          OnShape(s, w);
        } else {
          OnUnfinished(s, w);
          OnKeeps(s, w);
        }
    }
  }

  lemma OnKeeps(s: State, w: nat)
    requires Busy(s, w) && |s.log| == |s.workers| && Find(s.tasks, s.workers[w].job) < |s.tasks|
    ensures |On(s, w, false).workers| == |s.workers|
  {
  }

  lemma {:induction false} RunInv(n: nat, es: seq<Event>, s: State)
    requires Run(n, es, s)
    ensures Inv(s) && |s.workers| == n
    decreases |es|
  {
    if es == [] {
      StartInv(n);
    } else {
      var before :| Run(n, es[..|es| - 1], before) && Happens(before, Last(es), s);
      RunInv(n, es[..|es| - 1], before);
      HappensInv(before, Last(es), s);
    }
  }

  /** How many tasks have been posted. */
  function Postings(es: seq<Event>): nat {
    if es == [] then 0 else Postings(es[..|es| - 1]) + if Last(es).Posting? then 1 else 0
  }

  /** Every posting counts, and nothing else does. */
  lemma {:induction false} PostedIs(n: nat, es: seq<Event>, s: State)
    requires Run(n, es, s)
    ensures s.posted == Postings(es)
    decreases |es|
  {
    if es != [] {
      var before :| Run(n, es[..|es| - 1], before) && Happens(before, Last(es), s);
      PostedIs(n, es[..|es| - 1], before);
      RunInv(n, es[..|es| - 1], before);
      hide Run, Inv, Dispatch, Find, On;
      PostedStep(before, Last(es), s);
    }
  }

  lemma PostedStep(s: State, e: Event, t: State)
    requires Inv(s) && Happens(s, e, t)
    ensures t.posted == s.posted + if e.Posting? then 1 else 0
  {
    hide Inv, Dispatch, Find;
    if e.Dispatching? {
      DispatchInv(s);
    }
  }

  /** When the list is empty every worker has finished every task ever posted, each once and in order. */
  lemma AllFinished(n: nat, es: seq<Event>, s: State, w: nat)
    requires Run(n, es, s) && s.tasks == [] && w < n
    ensures |s.log| == n && |s.log[w]| == Postings(es)
    ensures forall k | 0 <= k < |s.log[w]| :: s.log[w][k] == k + 1
  {
    RunInv(n, es, s);
    PostedIs(n, es, s);
    assert WorkerOk(s, w);
  }

  /** The list holds the tasks posted last: every posting is in it until all workers have finished it. */
  lemma PostedIn(n: nat, es: seq<Event>, s: State, m: nat)
    requires Run(n, es, s) && 0 < m <= Postings(es)
    ensures |s.tasks| <= Postings(es) && |s.log| == |s.workers| == n
    ensures if m <= Postings(es) - |s.tasks| then forall w | 0 <= w < n :: m in s.log[w]
            else s.tasks[m - 1 - (Postings(es) - |s.tasks|)].marker == m
  {
    RunInv(n, es, s);
    PostedIs(n, es, s);
    hide Run, Postings;
    forall w | 0 <= w < n && m <= s.posted - |s.tasks|
      ensures m in s.log[w]
    {
      assert WorkerOk(s, w);
      assert s.log[w][m - 1] == m;
    }
  }

  /** Exactly once and in order: in every run each worker has finished the tasks 1, 2, ..., k for some
      k, each once. k is the number an idle worker carries, and one less than the number of the task a
      busy worker stands at. */
  lemma ExactlyOnce(n: nat, es: seq<Event>, s: State, w: nat)
    requires Run(n, es, s) && w < n
    ensures |s.workers| == |s.log| == n
    ensures |s.log[w]| == Passed(s.workers[w]) <= Postings(es)
    ensures forall k | 0 <= k < |s.log[w]| :: s.log[w][k] == k + 1
  {
    RunInv(n, es, s);
    PostedIs(n, es, s);
    assert WorkerOk(s, w);
  }

  /** Safe reclamation: in every run, a task that the loop takes out has been finished by every worker
      and is referenced by none of them. */
  lemma SafeReclamation(n: nat, es: seq<Event>, s: State, x: Task)
    requires Run(n, es, s) && Below(s.idle, |s.workers|) && x in Dispatch(s).1
    ensures Done(Dispatch(s).0, x.marker)
  {
    RunInv(n, es, s);
    DispatchInv(s);
    var (t, out) := Dispatch(s);
    hide Dispatch, Inv, Done;
    var i :| 0 <= i < |out| && out[i] == x;
  }

  /** Actions still to be finished. */
  function Pending(ts: seq<Task>, n: nat): int {
    if ts == [] then 0 else n - ts[0].looks + Pending(ts[1..], n)
  }

  lemma {:induction false} PendingUpdate(ts: seq<Task>, i: nat, x: Task, n: nat)
    requires i < |ts|
    ensures Pending(ts[i := x], n) == Pending(ts, n) + ts[i].looks - x.looks
  {
    if i > 0 {
      PendingUpdate(ts[1..], i - 1, x, n);
      assert ts[i := x][1..] == ts[1..][i - 1 := x];
    } else {
      assert ts[0 := x][1..] == ts[1..];
    }
  }

  lemma {:induction false} PendingSame(ts: seq<Task>, us: seq<Task>, n: nat)
    requires |ts| == |us| && forall i | 0 <= i < |ts| :: ts[i].looks == us[i].looks
    ensures Pending(ts, n) == Pending(us, n)
  {
    if ts != [] {
      PendingSame(ts[1..], us[1..], n);
    }
  }

  lemma {:induction false} PendingNone(s: State, k: nat)
    requires Inv(s) && k <= |s.tasks|
    ensures Pending(s.tasks[k..], |s.workers|) >= 0
    ensures Pending(s.tasks[k..], |s.workers|) == 0 ==> forall i | k <= i < |s.tasks| :: s.tasks[i].looks == |s.workers|
    decreases |s.tasks| - k
  {
    if k < |s.tasks| {
      PendingNone(s, k + 1);
      assert s.tasks[k..][1..] == s.tasks[k + 1..];
      CountFull(s.workers, s.tasks[k].marker);
    }
  }

  lemma {:induction false} DispatchPending(s: State)
    requires Below(s.idle, |s.workers|)
    ensures Pending(Dispatch(s).0.tasks, |s.workers|) == Pending(s.tasks, |s.workers|)
    decreases |s.tasks|
  {
    if s.tasks != [] {
      var a := Assign(s);
      AssignShape(s);
      PendingSame(s.tasks, a.tasks, |s.workers|);
      hide Assign;
      DispatchStep(s);
      if Complete(a.tasks[0], |a.workers|) {
        DispatchPending(a.(tasks := a.tasks[1..]));
      }
    }
  }

  /** Somebody stands at the head task. */
  ghost predicate Manned(t: State) {
    t.tasks == [] || exists w: nat :: Busy(t, w) && t.workers[w].job == t.tasks[0].marker
  }

  /** A finished action takes one off the pending actions. */
  ghost predicate Advances(s: State, w: nat) {
    Busy(s, w) && |s.log| == |s.workers| ==>
      && Find(s.tasks, s.workers[w].job) < |s.tasks|
      && Pending(On(s, w, true).tasks, |s.workers|) == Pending(s.tasks, |s.workers|) - 1
  }

  /** Progress. After the loop under the lock some worker stands at the head task, if there is one;
      each action a worker finishes takes one off the pending actions, the loop takes off none, and
      when nothing is pending the loop empties the list. So the list drains. */
  lemma Progress(n: nat, es: seq<Event>, s: State)
    requires Run(n, es, s)
    ensures |s.workers| == n && Below(s.idle, n) && Pending(s.tasks, n) >= 0
    ensures var t := Dispatch(s).0;
            && Manned(t) && Pending(t.tasks, n) == Pending(s.tasks, n)
            && (Pending(s.tasks, n) == 0 ==> t.tasks == [])
    ensures forall w: nat :: Advances(s, w)
  {
    hide *;
    RunInv(n, es, s);
    DispatchInv(s);
    DispatchPending(s);
    var t := Dispatch(s).0;
    PendingAll(s);
    PendingAll(t);
    HeadWorker(t);
    HeadPending(t);
    forall w: nat
      ensures Advances(s, w)
    {
      OnAdvances(s, w);
    }
  }

  lemma PendingAll(s: State)
    requires Inv(s)
    ensures Pending(s.tasks, |s.workers|) >= 0
    ensures Pending(s.tasks, |s.workers|) == 0 && s.tasks != [] ==> s.tasks[0].looks == |s.workers|
  {
    assert s.tasks[0..] == s.tasks;
    PendingNone(s, 0);
    hide Inv, Pending;
  }

  lemma HeadWorker(t: State)
    requires Inv(t) && (t.tasks != [] ==> t.tasks[0].queue != [])
    ensures Manned(t)
  {
    if t.tasks != [] {
      var w := t.tasks[0].queue[0];
      assert QueueOk(t, t.tasks[0].queue, t.tasks[0].marker) && w in t.tasks[0].queue;
      assert Busy(t, w);
    }
  }

  /** A manned head task is not finished by everybody. */
  lemma HeadPending(t: State)
    requires Inv(t) && (t.tasks != [] ==> t.tasks[0].queue != [])
    ensures t.tasks != [] ==> t.tasks[0].looks != |t.workers|
  {
    if t.tasks != [] {
      var w := t.tasks[0].queue[0];
      assert QueueOk(t, t.tasks[0].queue, t.tasks[0].marker) && w in t.tasks[0].queue;
      CountFull(t.workers, t.tasks[0].marker);
    }
  }

  lemma OnAdvances(s: State, w: nat)
    requires Inv(s)
    ensures Advances(s, w)
  {
    if Busy(s, w) {
      OnPending(s, w);
    }
    hide Inv, On, Pending, Find;
  }

  lemma OnPending(s: State, w: nat)
    requires Inv(s) && Busy(s, w)
    ensures Find(s.tasks, s.workers[w].job) < |s.tasks|
    ensures Pending(On(s, w, true).tasks, |s.workers|) == Pending(s.tasks, |s.workers|) - 1
  {
    FindJob(s, w);
    OnShape(s, w);
    var i, t := Find(s.tasks, s.workers[w].job), On(s, w, true);
    PendingUpdate(s.tasks, i, t.tasks[i], |s.workers|);
    hide On, Inv;
    PendingSame(s.tasks[i := t.tasks[i]], t.tasks, |s.workers|);
  }
}
