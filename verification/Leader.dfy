/** Leader selection (`Driver::Overwatch`): each process keeps the magic of a leader and, at every call,
    sweeps the table of registers for a greater process number than the leader's. The number it compares
    with is not brought up to date during the sweep, so one call need not find the greatest. */
module Leader {
  import opened RegLogs

  /** A register that counts. */
  predicate Fit(r: Record, guilty: set<nat>) {
    r.Ok() && r.magic !in guilty
  }

  /** The table: one register per slot, in the slot that its magic names. */
  ghost predicate Table(t: seq<Record>) {
    |t| == SLOTS && forall i | 0 <= i < |t| && t[i].Ok() :: t[i].magic % SLOTS == i && t[i].magic != 0
  }

  ghost predicate DistinctPids(t: seq<Record>) {
    forall i, j | 0 <= i < j < |t| && t[i].Ok() && t[j].Ok() :: t[i].pid != t[j].pid
  }

  /** The sweep: every register above `lpid` takes over from what was found before. */
  function Sweep(t: seq<Record>, guilty: set<nat>, lpid: nat, leader: nat): (r: nat) {
    if t == [] then leader
    else
      var last := t[|t| - 1];
      if Fit(last, guilty) && lpid < last.pid then last.magic
      else Sweep(t[..|t| - 1], guilty, lpid, leader)
  }

  /** The leader's register counts; otherwise there is no leader. */
  predicate Stands(t: seq<Record>, guilty: set<nat>, leader: nat)
    requires |t| == SLOTS
  {
    leader != 0 && Fit(t[leader % SLOTS], guilty)
  }

  /** The process number that the sweep compares with. */
  function Pid(t: seq<Record>, guilty: set<nat>, leader: nat): nat
    requires |t| == SLOTS
  {
    if Stands(t, guilty, leader) then t[leader % SLOTS].pid else 0
  }

  function Elect(t: seq<Record>, guilty: set<nat>, leader: nat): nat
    requires |t| == SLOTS
  {
    Sweep(t, guilty, Pid(t, guilty, leader), if Stands(t, guilty, leader) then leader else 0)
  }

  method Overwatch(t: seq<Record>, guilty: set<nat>, leader: nat) returns (next: nat)
    requires |t| == SLOTS
    ensures next == Elect(t, guilty, leader)
    ensures next != 0 && Table(t) ==> t[next % SLOTS].Ok() && t[next % SLOTS].magic !in guilty
    ensures Table(t) ==> (next == 0 <==> forall i | 0 <= i < SLOTS && t[i].Ok() :: t[i].magic in guilty)
    ensures next != leader && next != 0 && Table(t) ==> t[next % SLOTS].magic == next
    ensures leader != 0 && t[leader % SLOTS].Ok() && t[leader % SLOTS].magic !in guilty && Table(t) ==>
              next == leader || t[next % SLOTS].pid > t[leader % SLOTS].pid
  {
    Chosen(t, guilty, leader);
    var lpid := 0;
    next := leader;
    if next != 0 {
      var r := t[next % SLOTS];
      if r.Ok() && r.magic !in guilty {
        lpid := r.pid;
      } else {
        next := 0;
      }
    }
    ghost var first := next;
    for i := 0 to |t|
      invariant next == Sweep(t[..i], guilty, lpid, first)
    {
      assert t[..i + 1][..i] == t[..i];
      if t[i].Ok() && t[i].magic !in guilty && lpid < t[i].pid {
        next := t[i].magic;
      }
    }
    assert t[..|t|] == t;
  }

  // ----- what one call does -----

  /** Slot i holds the register of `leader`, which is ok and not guilty. */
  ghost predicate At(t: seq<Record>, guilty: set<nat>, leader: nat, i: nat) {
    i < |t| && t[i].Ok() && t[i].magic !in guilty && t[i].magic == leader
  }

  /** The ok register, not guilty, with the greatest process number. */
  ghost predicate Greatest(t: seq<Record>, guilty: set<nat>, i: nat) {
    && i < |t| && t[i].Ok() && t[i].magic !in guilty
    && forall j | 0 <= j < |t| && t[j].Ok() && t[j].magic !in guilty :: t[j].pid <= t[i].pid
  }

  /** Whom one call chooses: nobody guilty, and nobody only if all are; somebody with a greater process number
      than a leader that counts, or that leader. */
  lemma Chosen(t: seq<Record>, guilty: set<nat>, leader: nat)
    requires |t| == SLOTS
    ensures var next := Elect(t, guilty, leader);
            Table(t) ==>
              && (next != 0 ==> t[next % SLOTS].Ok() && t[next % SLOTS].magic !in guilty)
              && (next == 0 <==> forall i | 0 <= i < SLOTS && t[i].Ok() :: t[i].magic in guilty)
              && (next != leader && next != 0 ==> t[next % SLOTS].magic == next)
              && (leader != 0 && t[leader % SLOTS].Ok() && t[leader % SLOTS].magic !in guilty ==>
                    next == leader || t[next % SLOTS].pid > t[leader % SLOTS].pid)
  {
    if Table(t) {
      var next, lpid := Elect(t, guilty, leader), Pid(t, guilty, leader);
      var first := if Stands(t, guilty, leader) then leader else 0;
      SweepFinds(t, guilty, lpid, first);
      hide Sweep;
      if i: nat :| At(t, guilty, next, i) && t[i].pid > lpid {
        assert t[i].magic % SLOTS == i;
      } else {
        assert next == first;
        if first == 0 {
          assert forall i | 0 <= i < SLOTS && t[i].Ok() :: t[i].magic in guilty || t[i].pid <= lpid;
        }
      }
    }
  }

  /** The sweep finds a register above `lpid` if there is one, and changes nothing otherwise. */
  lemma {:induction false} SweepFinds(t: seq<Record>, guilty: set<nat>, lpid: nat, leader: nat)
    ensures (exists i: nat :: At(t, guilty, Sweep(t, guilty, lpid, leader), i) && t[i].pid > lpid) ||
            (Sweep(t, guilty, lpid, leader) == leader &&
             forall i | 0 <= i < |t| && Fit(t[i], guilty) :: t[i].pid <= lpid)
  {
    if t != [] {
      var k := |t| - 1;
      if Fit(t[k], guilty) && lpid < t[k].pid {
        assert At(t, guilty, t[k].magic, k);
      } else {
        var init := t[..k];
        SweepFinds(init, guilty, lpid, leader);
        var r := Sweep(init, guilty, lpid, leader);
        if i: nat :| At(init, guilty, r, i) && init[i].pid > lpid {
          assert At(t, guilty, r, i);
        } else {
          assert forall i | 0 <= i < k && Fit(t[i], guilty) :: init[i].pid <= lpid;
        }
      }
    }
  }

  /** One call moves to a register above the leader's, or keeps the leader, and then none is above. */
  lemma ElectRises(t: seq<Record>, guilty: set<nat>, leader: nat)
    requires Table(t)
    ensures var next := Elect(t, guilty, leader);
            || (Stands(t, guilty, next) && Pid(t, guilty, next) > Pid(t, guilty, leader) &&
                exists i: nat :: At(t, guilty, next, i))
            || (next == (if Stands(t, guilty, leader) then leader else 0) &&
                forall i | 0 <= i < |t| && Fit(t[i], guilty) :: t[i].pid <= Pid(t, guilty, leader))
  {
    SweepFinds(t, guilty, Pid(t, guilty, leader), if Stands(t, guilty, leader) then leader else 0);
  }

  /** Two registers, the one with the greater process number in slot 1. */
  function TwoRegisters(): (t: seq<Record>)
    ensures |t| == SLOTS
    ensures forall i | 0 <= i < SLOTS :: t[i] == if i == 1 then Record(0, 0, 65, 9, 1, {})
                                                 else if i == 2 then Record(0, 0, 66, 5, 1, {}) else BLANK
  {
    seq(SLOTS, i => if i == 1 then Record(0, 0, 65, 9, 1, {}) else if i == 2 then Record(0, 0, 66, 5, 1, {}) else BLANK)
  }

  /** One call need not find the greatest: the last register above the leader's wins. */
  lemma NotAtOnce()
    ensures var t := TwoRegisters();
            && Table(t) && DistinctPids(t) && Greatest(t, {}, 1)
            && Elect(t, {}, 0) == 66 && Elect(t, {}, 66) == 65
  {
    var t := TwoRegisters();
    hide TwoRegisters;
    assert t[1].pid == 9 && t[2].pid == 5 && t[1].magic == 65 && t[2].magic == 66;
    SweepTo(t, {}, 0, 0, 2);
    SweepTo(t, {}, 5, 66, 1);
  }

  /** What follows the last register above `lpid` does not matter. */
  lemma {:induction false} SweepTo(t: seq<Record>, guilty: set<nat>, lpid: nat, leader: nat, i: nat)
    requires i < |t| && Fit(t[i], guilty) && t[i].pid > lpid
    requires forall j | i < j < |t| :: !Fit(t[j], guilty) || t[j].pid <= lpid
    ensures Sweep(t, guilty, lpid, leader) == t[i].magic
    decreases |t|
  {
    if i < |t| - 1 {
      SweepTo(t[..|t| - 1], guilty, lpid, leader, i);
    }
  }

  /** If no register is above `lpid`, the sweep changes nothing. */
  lemma {:induction false} SweepKeeps(t: seq<Record>, guilty: set<nat>, lpid: nat, leader: nat)
    requires forall j | 0 <= j < |t| :: !Fit(t[j], guilty) || t[j].pid <= lpid
    ensures Sweep(t, guilty, lpid, leader) == leader
  {
    if t != [] {
      SweepKeeps(t[..|t| - 1], guilty, lpid, leader);
    }
  }

  /** The last register above `lpid`, if there is one. */
  lemma {:induction false} LastAbove(t: seq<Record>, guilty: set<nat>, lpid: nat, i: nat) returns (k: nat)
    requires i < |t| && Fit(t[i], guilty) && t[i].pid > lpid
    ensures i <= k < |t| && Fit(t[k], guilty) && t[k].pid > lpid
    ensures forall j | k < j < |t| :: !Fit(t[j], guilty) || t[j].pid <= lpid
    decreases |t|
  {
    k := |t| - 1;
    if !(Fit(t[k], guilty) && t[k].pid > lpid) {
      k := LastAbove(t[..|t| - 1], guilty, lpid, i);
    }
  }

  /** Registers behind slot `top` that the sweep would take over. */
  ghost predicate NoneBehind(t: seq<Record>, guilty: set<nat>, lpid: nat, top: nat) {
    forall j | top < j < |t| && t[j].Ok() && t[j].magic !in guilty :: t[j].pid <= lpid
  }

  /** One call finds the greatest process number exactly if no register above the leader's stands behind
      the greatest in the table; and if the leader's is the greatest already, exactly if the magic
      remembered is the one in its slot. */
  lemma OnceIff(t: seq<Record>, guilty: set<nat>, leader: nat, top: nat, lpid: nat)
    requires Table(t) && DistinctPids(t) && Greatest(t, guilty, top)
    requires lpid == if leader != 0 && t[leader % SLOTS].Ok() && t[leader % SLOTS].magic !in guilty
                     then t[leader % SLOTS].pid else 0
    ensures Elect(t, guilty, leader) == t[top].magic <==>
            if t[top].pid > lpid then NoneBehind(t, guilty, lpid, top) else leader == t[top].magic
  {
    var first := if Stands(t, guilty, leader) then leader else 0;
    assert Pid(t, guilty, leader) == lpid;
    if t[top].pid > lpid {
      var k := LastAbove(t, guilty, lpid, top);
      SweepTo(t, guilty, lpid, first, k);
      assert t[k].magic % SLOTS == k && t[top].magic % SLOTS == top;
    } else {
      SweepKeeps(t, guilty, lpid, first);
      assert Stands(t, guilty, leader);
    }
  }

  // ----- repeated calls -----

  function After(t: seq<Record>, guilty: set<nat>, leader: nat, calls: nat): nat
    requires |t| == SLOTS
    decreases calls
  {
    if calls == 0 then leader else After(t, guilty, Elect(t, guilty, leader), calls - 1)
  }

  /** How many registers that count are above `lpid`. */
  function Above(t: seq<Record>, guilty: set<nat>, lpid: nat): (n: nat)
    ensures n <= |t|
  {
    if t == [] then 0
    else Above(t[..|t| - 1], guilty, lpid) + if Fit(t[|t| - 1], guilty) && t[|t| - 1].pid > lpid then 1 else 0
  }

  lemma {:induction false} AboveLess(t: seq<Record>, guilty: set<nat>, low: nat, high: nat)
    requires low <= high
    ensures Above(t, guilty, high) <= Above(t, guilty, low)
    ensures (exists i :: 0 <= i < |t| && Fit(t[i], guilty) && low < t[i].pid <= high) ==>
              Above(t, guilty, high) < Above(t, guilty, low)
  {
    if t != [] {
      var init := t[..|t| - 1];
      AboveLess(init, guilty, low, high);
      if i :| 0 <= i < |t| && Fit(t[i], guilty) && low < t[i].pid <= high {
        assert i < |init| ==> init[i] == t[i];
      }
    }
  }

  lemma {:induction false} AboveNone(t: seq<Record>, guilty: set<nat>, lpid: nat)
    ensures Above(t, guilty, lpid) == 0 <==> forall i | 0 <= i < |t| && Fit(t[i], guilty) :: t[i].pid <= lpid
  {
    if t != [] {
      var init := t[..|t| - 1];
      AboveNone(init, guilty, lpid);
      assert forall i | 0 <= i < |init| :: init[i] == t[i];
    }
  }

  /** A magic that is no longer in its slot, while the slot holds the greatest register. */
  ghost predicate Stale(t: seq<Record>, guilty: set<nat>, leader: nat)
    requires |t| == SLOTS
  {
    leader != 0 && t[leader % SLOTS].magic != leader && Greatest(t, guilty, leader % SLOTS)
  }

  /** The greatest stays leader once it is. */
  lemma Settled(t: seq<Record>, guilty: set<nat>, leader: nat, top: nat)
    requires Table(t) && DistinctPids(t) && Greatest(t, guilty, top) && !Stale(t, guilty, leader)
    requires Above(t, guilty, Pid(t, guilty, leader)) == 0
    ensures leader == t[top].magic && Elect(t, guilty, leader) == leader
  {
    AboveNone(t, guilty, Pid(t, guilty, leader));
    assert Stands(t, guilty, leader) && Greatest(t, guilty, leader % SLOTS);
    ElectRises(t, guilty, leader);
  }

  /** What one call does to the number of registers above. */
  lemma ElectNears(t: seq<Record>, guilty: set<nat>, leader: nat, top: nat)
    requires Table(t) && Greatest(t, guilty, top) && Above(t, guilty, Pid(t, guilty, leader)) > 0
    ensures var next := Elect(t, guilty, leader);
            && Above(t, guilty, Pid(t, guilty, next)) < Above(t, guilty, Pid(t, guilty, leader))
            && !Stale(t, guilty, next)
  {
    var next := Elect(t, guilty, leader);
    ElectRises(t, guilty, leader);
    AboveNone(t, guilty, Pid(t, guilty, leader));
    var i: nat :| At(t, guilty, next, i);
    assert i == next % SLOTS;
    AboveLess(t, guilty, Pid(t, guilty, leader), Pid(t, guilty, next));
  }

  lemma {:induction false} Settles(t: seq<Record>, guilty: set<nat>, leader: nat, calls: nat, top: nat)
    requires Table(t) && DistinctPids(t) && Greatest(t, guilty, top) && !Stale(t, guilty, leader)
    requires calls >= Above(t, guilty, Pid(t, guilty, leader))
    ensures After(t, guilty, leader, calls) == t[top].magic
    decreases calls
  {
    if Above(t, guilty, Pid(t, guilty, leader)) == 0 {
      Settled(t, guilty, leader, top);
      if calls > 0 {
        Settles(t, guilty, leader, calls - 1, top);
      }
    } else {
      ElectNears(t, guilty, leader, top);
      Settles(t, guilty, Elect(t, guilty, leader), calls - 1, top);
    }
  }

  lemma {:induction false} StaysStale(t: seq<Record>, guilty: set<nat>, leader: nat, calls: nat)
    requires Table(t) && Stale(t, guilty, leader)
    ensures After(t, guilty, leader, calls) == leader
    decreases calls
  {
    if calls > 0 {
      ElectRises(t, guilty, leader);
      StaysStale(t, guilty, leader, calls - 1);
    }
  }

  /** Repeated calls over an unchanging table come to the greatest process number and stay there, from
      any leader remembered, except exactly when the magic remembered has been replaced in its slot by
      the greatest register: then it is kept for good. */
  lemma ConvergesIff(t: seq<Record>, guilty: set<nat>, leader: nat, top: nat)
    requires Table(t) && DistinctPids(t) && Greatest(t, guilty, top)
    ensures (forall calls: nat | calls >= SLOTS :: After(t, guilty, leader, calls) == t[top].magic) <==>
            !Stale(t, guilty, leader)
  {
    if Stale(t, guilty, leader) {
      StaysStale(t, guilty, leader, SLOTS);
      SameTop(t, guilty, leader % SLOTS, top);
      assert After(t, guilty, leader, SLOTS) != t[top].magic;
    } else {
      forall calls: nat | calls >= SLOTS
        ensures After(t, guilty, leader, calls) == t[top].magic
      {
        Settles(t, guilty, leader, calls, top);
      }
    }
  }

  lemma SameTop(t: seq<Record>, guilty: set<nat>, i: nat, j: nat)
    requires DistinctPids(t) && Greatest(t, guilty, i) && Greatest(t, guilty, j)
    ensures i == j
  {
  }

  /** Processes that see the same table and start without a leader, or with one of its registers, agree. */
  lemma Agreement(t: seq<Record>, guilty: set<nat>, one: nat, two: nat, i: nat, j: nat, calls: nat, more: nat)
    requires Table(t) && DistinctPids(t) && calls >= SLOTS && more >= SLOTS
    requires exists top: nat :: Greatest(t, guilty, top)
    requires one == 0 || At(t, guilty, one, i)
    requires two == 0 || At(t, guilty, two, j)
    ensures After(t, guilty, one, calls) == After(t, guilty, two, more)
  {
    var top: nat :| Greatest(t, guilty, top);
    Settles(t, guilty, one, calls, top);
    Settles(t, guilty, two, more, top);
  }
}
