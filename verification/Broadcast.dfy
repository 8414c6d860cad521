/** Broadcast round the ring. A process hands its frames to its neighbour A; whoever receives a frame
    of somebody else passes it on and handles it, and the origin takes its own frame off the ring. The
    channels are queues of frames: the pipe's queue, the write in flight and the pipe itself. Here any
    channel may deliver at any time; Traffic takes them apart and says when one can. */
module Broadcast {
  import opened Sequences
  import opened Wire
  import opened Codec
  import opened Ring
  import opened Demux

  /** `queue[n]`: frames on their way from n to its neighbour A. `heard[n]`: frames n has handled.
      `injected[n]`: frames of n's own that it has put on the ring. */
  datatype Net = Net(queue: seq<seq<Frame>>, heard: seq<seq<Frame>>, injected: seq<seq<Frame>>)

  datatype Event = Inject(n: nat, f: Frame) | Deliver(n: nat)

  predicate Shape(t: Table, net: Net) {
    |t| == MAX_LINK_COUNT && |net.queue| == |net.heard| == |net.injected| == |t|
  }

  ghost predicate Possible(t: Table, net: Net, e: Event) {
    && Shape(t, net)
    && match e
       case Inject(n, f) => Occupied(t, n) && Hearable(f) && QoS(f) == n
       case Deliver(n) => Occupied(t, n) && net.queue[n] != [] && Hearable(net.queue[n][0])
  }

  /** A process puts a frame of its own on the ring, or A reads a frame from the pipe of n, forwards
      it unless it is its own, and handles it (`Tube::HandleRead`). */
  ghost function Happen(t: Table, net: Net, e: Event): (r: Net)
    requires Possible(t, net, e)
    ensures Shape(t, r)
  {
    match e
    case Inject(n, f) =>
      net.(queue := net.queue[n := net.queue[n] + [f]], injected := net.injected[n := net.injected[n] + [f]])
    case Deliver(n) =>
      var f, m, q := net.queue[n][0], Prev(t, n), net.queue[n := net.queue[n][1..]];
      net.(heard := net.heard[m := net.heard[m] + [f]],
           queue := if QoS(f) == m then q else q[m := q[m] + [f]])
  }

  ghost function Silent(): Net {
    var none := seq(MAX_LINK_COUNT, i => []);
    Net(none, none, none)
  }

  ghost predicate Run(t: Table, es: seq<Event>, net: Net) {
    if es == [] then |t| == MAX_LINK_COUNT && net == Silent()
    else exists before ::
      Run(t, es[..|es| - 1], before) && Possible(t, before, Last(es)) && net == Happen(t, before, Last(es))
  }

  // ----- conservation -----

  /** All frames are hearable and come from processes on the ring. */
  predicate Sane(t: Table, fs: seq<Frame>) {
    AllHearable(fs) && forall i | 0 <= i < |fs| :: Occupied(t, QoS(fs[i]))
  }

  /** What n has to pass on of origin o. */
  ghost function Due(net: Net, n: nat, o: nat): seq<Frame>
    requires n < |net.heard| && o < |net.injected|
    requires AllHearable(net.heard[n])
  {
    if n == o then net.injected[o] else Of(net.heard[n], o)
  }

  ghost predicate AllSane(t: Table, net: Net) {
    && Shape(t, net)
    && forall n: nat | Occupied(t, n) :: Sane(t, net.queue[n]) && Sane(t, net.heard[n]) && Sane(t, net.injected[n])
  }

  /** Nothing is lost, duplicated or reordered on the way from n to its neighbour: of every origin,
      what the neighbour has handled and what is on its way are together what n had to pass on. */
  ghost predicate Conserved(t: Table, net: Net) {
    && AllSane(t, net)
    && forall n: nat, o: nat | Occupied(t, n) && Occupied(t, o) ::
         Of(net.heard[Prev(t, n)], o) + Of(net.queue[n], o) == Due(net, n, o)
  }

  lemma OfSnoc(fs: seq<Frame>, f: Frame, o: nat)
    requires AllHearable(fs) && Hearable(f)
    ensures AllHearable(fs + [f]) && Of(fs + [f], o) == Of(fs, o) + if QoS(f) == o then [f] else []
  {
    hide Hearable;
    assert (fs + [f])[..|fs|] == fs;
  }

  lemma {:induction false} OfCons(f: Frame, fs: seq<Frame>, o: nat)
    requires AllHearable(fs) && Hearable(f)
    ensures AllHearable([f] + fs) && Of([f] + fs, o) == (if QoS(f) == o then [f] else []) + Of(fs, o)
    decreases |fs|
  {
    if fs == [] {
      assert [f] + fs == [f] && [f][..0] == [];
    } else {
      var init := fs[..|fs| - 1];
      OfCons(f, init, o);
      assert ([f] + fs)[..|fs|] == [f] + init;
      Assoc(if QoS(f) == o then [f] else [], Of(init, o), if QoS(Last(fs)) == o then [Last(fs)] else []);
    }
  }

  lemma OfFront(fs: seq<Frame>, o: nat)
    requires fs != [] && AllHearable(fs)
    ensures AllHearable(fs[1..]) && Of(fs, o) == (if QoS(fs[0]) == o then [fs[0]] else []) + Of(fs[1..], o)
  {
    hide Hearable;
    assert [fs[0]] + fs[1..] == fs;
    OfCons(fs[0], fs[1..], o);
  }

  lemma SaneSnoc(t: Table, fs: seq<Frame>, f: Frame)
    requires Sane(t, fs) && Hearable(f) && Occupied(t, QoS(f))
    ensures Sane(t, fs + [f])
  {
    hide Hearable, QoS;
  }

  lemma SaneFront(t: Table, fs: seq<Frame>)
    requires Sane(t, fs) && fs != []
    ensures Sane(t, fs[1..]) && Hearable(fs[0]) && Occupied(t, QoS(fs[0])) && AllHearable(fs)
  {
    hide QoS;
  }

  /** Injecting keeps everything conserved. */
  lemma InjectConserves(t: Table, net: Net, n: nat, f: Frame)
    requires Conserved(t, net) && Possible(t, net, Inject(n, f))
    ensures Conserved(t, Happen(t, net, Inject(n, f)))
  {
    var r := Happen(t, net, Inject(n, f));
    SaneSnoc(t, net.queue[n], f);
    SaneSnoc(t, net.injected[n], f);
    hide Sane, Hearable, QoS;
    forall k: nat, o: nat | Occupied(t, k) && Occupied(t, o)
      ensures Of(r.heard[Prev(t, k)], o) + Of(r.queue[k], o) == Due(r, k, o)
    {
      assert Of(net.heard[Prev(t, k)], o) + Of(net.queue[k], o) == Due(net, k, o);
      if k == n {
        OfSnoc(net.queue[n], f, o);
        Assoc(Of(net.heard[Prev(t, k)], o), Of(net.queue[n], o), if n == o then [f] else []);
      }
    }
  }

  lemma DeliverSane(t: Table, net: Net, n: nat)
    requires AllSane(t, net) && Possible(t, net, Deliver(n))
    ensures AllSane(t, Happen(t, net, Deliver(n)))
  {
    var m := Prev(t, n);
    SaneFront(t, net.queue[n]);
    var f := net.queue[n][0];
    SaneSnoc(t, net.heard[m], f);
    SaneSnoc(t, net.queue[n := net.queue[n][1..]][m], f);
    hide Sane, Hearable, QoS;
  }

  /** What is conserved on one link. */
  lemma LinkIs(t: Table, net: Net, k: nat, o: nat)
    requires Conserved(t, net) && Occupied(t, k) && Occupied(t, o)
    ensures Shape(t, net) && AllHearable(net.heard[k]) && AllHearable(net.heard[Prev(t, k)])
            && AllHearable(net.queue[k])
    ensures Of(net.heard[Prev(t, k)], o) + Of(net.queue[k], o) == Due(net, k, o)
  {
    hide Hearable, QoS, Of, Due;
  }

  lemma DeliverIs(t: Table, net: Net, n: nat)
    requires Possible(t, net, Deliver(n))
    ensures var r, f, m := Happen(t, net, Deliver(n)), net.queue[n][0], Prev(t, n);
            var q := net.queue[n := net.queue[n][1..]];
            && Hearable(f) && r.injected == net.injected && r.heard == net.heard[m := net.heard[m] + [f]]
            && r.queue == (if QoS(f) == m then q else q[m := q[m] + [f]])
  {
    hide Hearable, QoS;
  }

  lemma DeliverLink(t: Table, net: Net, n: nat, k: nat, o: nat)
    requires Conserved(t, net) && Possible(t, net, Deliver(n)) && Occupied(t, k) && Occupied(t, o)
    requires AllSane(t, Happen(t, net, Deliver(n)))
    ensures var r := Happen(t, net, Deliver(n));
            Of(r.heard[Prev(t, k)], o) + Of(r.queue[k], o) == Due(r, k, o)
  {
    DeliverIs(t, net, n);
    LinkIs(t, net, k, o);
    SaneFront(t, net.queue[n]);
    NextPrev(t, n);
    NextPrev(t, k);
    var r, m, f := Happen(t, net, Deliver(n)), Prev(t, n), net.queue[n][0];
    var mine := if QoS(f) == o then [f] else [];
    OfSnoc(net.heard[m], f, o);
    if k == n {
      OfFront(net.queue[n], o);
      hide Sane, Hearable, QoS, Of, Prev, Next, Happen, Conserved;
      Assoc(Of(net.heard[m], o), mine, Of(net.queue[n][1..], o));
      if m == n {
        OfSnoc(net.queue[n][1..], f, o);
        Assoc(Of(net.heard[m], o) + mine, Of(net.queue[n][1..], o), mine);
      }
    } else {
      OfSnoc(net.queue[m], f, o);
      hide Sane, Hearable, QoS, Of, Prev, Next, Happen, Conserved;
      Assoc(Of(net.heard[Prev(t, m)], o), Of(net.queue[m], o), mine);
    }
  }

  /** Delivering keeps everything conserved. */
  lemma DeliverConserves(t: Table, net: Net, n: nat)
    requires Conserved(t, net) && Possible(t, net, Deliver(n))
    ensures Conserved(t, Happen(t, net, Deliver(n)))
  {
    DeliverSane(t, net, n);
    var r := Happen(t, net, Deliver(n));
    hide Happen, AllSane, Due, Of;
    forall k: nat, o: nat | Occupied(t, k) && Occupied(t, o)
      ensures Of(r.heard[Prev(t, k)], o) + Of(r.queue[k], o) == Due(r, k, o)
    {
      DeliverLink(t, net, n, k, o);
    }
  }

  lemma SilentConserved(t: Table)
    requires |t| == MAX_LINK_COUNT
    ensures Conserved(t, Silent())
  {
  }

  /** In every run, everything is conserved. */
  lemma {:induction false} RunConserves(t: Table, es: seq<Event>, net: Net)
    requires Run(t, es, net)
    ensures Conserved(t, net)
    decreases |es|
  {
    if es == [] {
      SilentConserved(t);
    } else {
      var before :| Run(t, es[..|es| - 1], before) && Possible(t, before, Last(es))
        && net == Happen(t, before, Last(es));
      RunConserves(t, es[..|es| - 1], before);
      match Last(es) {
        case Inject(n, f) => InjectConserves(t, before, n, f);
        case Deliver(n) => DeliverConserves(t, before, n);
      }
    }
  }

  // ----- what every process has handled -----

  lemma {:induction false} StepsNext(t: Table, p: nat, k: nat)
    requires Occupied(t, p)
    ensures Steps(t, Next(t, p), k) == Steps(t, p, k + 1)
  {
    if k > 0 {
      StepsNext(t, p, k - 1);
    }
  }

  /** From every process the origin is some steps ahead. */
  lemma StepsReach(t: Table, m: nat, o: nat) returns (k: nat)
    requires Occupied(t, m) && Occupied(t, o)
    ensures 0 < k && Steps(t, m, k) == o
  {
    hide Tour;
    SingleCycle(t, m);
    var r := Tour(t, m, 0);
    k :| 0 <= k < |r| && r[k] == o;
    if k == 0 {
      k := |r|;
    }
  }

  ghost predicate Drained(t: Table, net: Net)
    requires |net.queue| == |t|
  {
    forall n: nat | Occupied(t, n) :: net.queue[n] == []
  }

  /** The link of conservation from n to the process that reads its pipe. */
  lemma Link(t: Table, net: Net, m: nat, o: nat)
    requires Conserved(t, net) && Occupied(t, m) && Occupied(t, o)
    ensures Shape(t, net) && AllHearable(net.heard[m]) && AllHearable(net.heard[Next(t, m)])
            && AllHearable(net.queue[Next(t, m)])
    ensures var n := Next(t, m);
            Of(net.heard[m], o) + Of(net.queue[n], o) == if n == o then net.injected[o] else Of(net.heard[n], o)
    ensures Drained(t, net) ==> Of(net.queue[Next(t, m)], o) == []
    ensures m < |net.heard| && Next(t, m) < |net.heard| && Next(t, m) < |net.queue| && o < |net.injected|
  {
    PrevNext(t, m);
    hide Prev, Next;
    var n := Next(t, m);
    assert Of(net.heard[Prev(t, n)], o) + Of(net.queue[n], o) == Due(net, n, o);
  }

  lemma {:induction false} HeardAlong(t: Table, net: Net, m: nat, o: nat, k: nat)
    requires Conserved(t, net) && Occupied(t, m) && Occupied(t, o)
    requires 0 < k && Steps(t, m, k) == o
    ensures Shape(t, net) && AllHearable(net.heard[m])
    ensures Of(net.heard[m], o) <= net.injected[o]
    ensures Drained(t, net) ==> Of(net.heard[m], o) == net.injected[o]
    decreases k
  {
    hide *;
    var n := Next(t, m);
    StepsNext(t, m, k - 1);
    Link(t, net, m, o);
    if n != o {
      FirstStep(t, m, k);
      HeardAlong(t, net, n, o, k - 1);
      PrefixOf(Of(net.heard[m], o), Of(net.queue[n], o), Of(net.heard[n], o), net.injected[o]);
    } else {
      PrefixOf(Of(net.heard[m], o), Of(net.queue[n], o), net.injected[o], net.injected[o]);
    }
  }

  lemma PrefixOf(a: seq<Frame>, b: seq<Frame>, c: seq<Frame>, all: seq<Frame>)
    requires a + b == c && c <= all
    ensures a <= all && (b == [] ==> a == c)
  {
    assert b == [] ==> a + b == a;
  }

  lemma FirstStep(t: Table, m: nat, k: nat)
    requires Occupied(t, m) && 0 < k
    ensures k == 1 ==> Steps(t, m, k) == Next(t, m)
  {
    hide Next;
    assert Steps(t, m, 0) == m;
  }

  /** In every run every process (the origin included) has handled of each origin's frames a prefix,
      in order and without repetition. When the channels are empty it has handled all of them. */
  lemma InOrder(t: Table, es: seq<Event>, net: Net, m: nat, o: nat)
    requires Run(t, es, net) && Occupied(t, m) && Occupied(t, o)
    ensures Conserved(t, net) && Of(net.heard[m], o) <= net.injected[o]
    ensures Drained(t, net) ==> Of(net.heard[m], o) == net.injected[o]
  {
    RunConserves(t, es, net);
    var k := StepsReach(t, m, o);
    HeardAlong(t, net, m, o, k);
  }

  // ----- frames do not travel for ever -----

  /** How far o is behind n; a whole turn if they are the same. */
  function Distance(t: Table, n: nat, o: nat): nat
    requires n < |t| && o < |t|
  {
    if o < n then n - o else |t| + n - o
  }

  /** Deliveries until a frame of o that is on its way from n is off the ring. */
  function Hops(t: Table, n: nat, o: nat): (h: nat)
    requires Occupied(t, n) && Occupied(t, o)
    ensures 1 <= h
    decreases Distance(t, n, o)
  {
    if Prev(t, n) == o then 1 else Closer(t, n, o); 1 + Hops(t, Prev(t, n), o)
  }

  lemma Closer(t: Table, n: nat, o: nat)
    requires Occupied(t, n) && Occupied(t, o) && Prev(t, n) != o
    ensures Distance(t, Prev(t, n), o) < Distance(t, n, o)
  {
    assert Back(t, n, Distance(t, n, o)) == o;
  }

  /** Deliveries that the frames of a queue still need. */
  function Load(t: Table, n: nat, fs: seq<Frame>): nat
    requires Occupied(t, n) && Sane(t, fs)
  {
    if fs == [] then 0 else SaneFront(t, fs); Hops(t, n, QoS(fs[0])) + Load(t, n, fs[1..])
  }

  lemma {:induction false} LoadSnoc(t: Table, n: nat, fs: seq<Frame>, f: Frame)
    requires Occupied(t, n) && Sane(t, fs) && Hearable(f) && Occupied(t, QoS(f))
    ensures Sane(t, fs + [f]) && Load(t, n, fs + [f]) == Load(t, n, fs) + Hops(t, n, QoS(f))
    decreases |fs|
  {
    SaneSnoc(t, fs, f);
    hide Sane, Hops, Hearable, QoS;
    if fs == [] {
      assert (fs + [f])[1..] == [];
      assert Load(t, n, [f]) == Hops(t, n, QoS(f)) + Load(t, n, [f][1..]);
    } else {
      SaneFront(t, fs);
      LoadSnoc(t, n, fs[1..], f);
      assert (fs + [f])[0] == fs[0] && (fs + [f])[1..] == fs[1..] + [f];
    }
  }

  /** Deliveries that the frames on the ring still need, counting the channels before slot k. */
  ghost function Work(t: Table, net: Net, k: nat): nat
    requires AllSane(t, net) && k <= |t|
  {
    if k == 0 then 0
    else Work(t, net, k - 1) + if Occupied(t, k - 1) then Load(t, k - 1, net.queue[k - 1]) else 0
  }

  /** Work changes by what changes in the one channel that changes. */
  lemma {:induction false} WorkUpdate(t: Table, a: Net, b: Net, n: nat, k: nat)
    requires AllSane(t, a) && AllSane(t, b) && k <= |t| && Occupied(t, n)
    requires forall i | 0 <= i < |t| && i != n :: a.queue[i] == b.queue[i]
    ensures n < k ==> Work(t, b, k) + Load(t, n, a.queue[n]) == Work(t, a, k) + Load(t, n, b.queue[n])
    ensures k <= n ==> Work(t, b, k) == Work(t, a, k)
  {
    if k > 0 {
      WorkUpdate(t, a, b, n, k - 1);
    }
  }

  /** Every delivery does exactly one unit of the work left. */
  lemma DeliverWorks(t: Table, net: Net, n: nat)
    requires AllSane(t, net) && Possible(t, net, Deliver(n))
    ensures AllSane(t, Happen(t, net, Deliver(n)))
    ensures Work(t, Happen(t, net, Deliver(n)), |t|) == Work(t, net, |t|) - 1
  {
    var m, f, r := Prev(t, n), net.queue[n][0], Happen(t, net, Deliver(n));
    DeliverSane(t, net, n);
    SaneFront(t, net.queue[n]);
    var popped := net.(queue := net.queue[n := net.queue[n][1..]]);
    PoppedSane(t, net, n);
    hide AllSane, Sane, Hops, Hearable, QoS;
    WorkUpdate(t, net, popped, n, |t|);
    LoadFront(t, n, net.queue[n]);
    if QoS(f) == m {
      SameWork(t, popped, r, |t|);
    } else {
      WorkUpdate(t, popped, r, m, |t|);
      LoadSnoc(t, m, popped.queue[m], f);
    }
    HopsStep(t, n, QoS(f));
  }

  lemma HopsStep(t: Table, n: nat, o: nat)
    requires Occupied(t, n) && Occupied(t, o)
    ensures Hops(t, n, o) == if Prev(t, n) == o then 1 else 1 + Hops(t, Prev(t, n), o)
  {
  }

  lemma LoadFront(t: Table, n: nat, fs: seq<Frame>)
    requires Occupied(t, n) && Sane(t, fs) && fs != []
    ensures Hearable(fs[0]) && Occupied(t, QoS(fs[0])) && Sane(t, fs[1..])
    ensures Load(t, n, fs) == Hops(t, n, QoS(fs[0])) + Load(t, n, fs[1..])
  {
    SaneFront(t, fs);
  }

  lemma PoppedSane(t: Table, net: Net, n: nat)
    requires AllSane(t, net) && Possible(t, net, Deliver(n))
    ensures AllSane(t, net.(queue := net.queue[n := net.queue[n][1..]]))
  {
    SaneFront(t, net.queue[n]);
    hide Sane, Hearable, QoS;
  }

  lemma {:induction false} SameWork(t: Table, a: Net, b: Net, k: nat)
    requires AllSane(t, a) && AllSane(t, b) && k <= |t| && a.queue == b.queue
    ensures Work(t, a, k) == Work(t, b, k)
  {
    if k > 0 {
      SameWork(t, a, b, k - 1);
    }
  }

  /** Work is left exactly while some channel holds a frame. */
  lemma {:induction false} WorkLeft(t: Table, net: Net, k: nat)
    requires AllSane(t, net) && k <= |t|
    ensures Work(t, net, k) == 0 <==> forall n: nat | n < k && Occupied(t, n) :: net.queue[n] == []
  {
    if k > 0 {
      WorkLeft(t, net, k - 1);
      if Occupied(t, k - 1) && net.queue[k - 1] != [] {
        LoadFront(t, k - 1, net.queue[k - 1]);
      }
    }
  }
}
