/** The ring with its pipes taken apart. A frame that is passed on only joins the pipe's queue; writes
    are started by `Play` and by the end of the write before. Every run of this machine is a run of
    Broadcast, so that what is proved there holds here; but here a frame may have to wait, and the
    module says exactly when. */
module Traffic {
  import opened Sequences
  import opened Wire
  import opened Ring
  import opened Demux
  import opened Lines
  import Broadcast

  /** `lines[n]`: the way from n to its neighbour A. */
  datatype Net = Net(lines: seq<Line>, heard: seq<seq<Frame>>, injected: seq<seq<Frame>>)

  datatype Event =
    | Play(n: nat, fs: seq<Frame>)           // `Pipe::Play` moves frames of its own to the queue, and starts a write
    | HandleWrite(n: nat, connected: bool)   // the write in flight has succeeded
    | HandleRead(n: nat)                     // A reads a frame of n, passes it on unless it is its own, and handles it

  predicate Shape(t: Table, net: Net) {
    && |t| == MAX_LINK_COUNT && |net.lines| == |net.heard| == |net.injected| == |t|
    && forall n | 0 <= n < |t| :: net.lines[n].Ok()
  }

  predicate Own(fs: seq<Frame>, n: nat) {
    forall i | 0 <= i < |fs| :: Hearable(fs[i]) && QoS(fs[i]) == n
  }

  ghost predicate Possible(t: Table, net: Net, e: Event) {
    && Shape(t, net) && Occupied(t, e.n)
    && match e
       case Play(n, fs) => Own(fs, n)
       case HandleWrite(n, _) => net.lines[n].flying != []
       case HandleRead(n) => net.lines[n].wire != [] && Hearable(net.lines[n].wire[0])
  }

  ghost function Happen(t: Table, net: Net, e: Event): Net
    requires Possible(t, net, e)
  {
    match e
    case Play(n, fs) =>
      net.(lines := net.lines[n := Started(Queued(net.lines[n], fs))],
           injected := net.injected[n := net.injected[n] + fs])
    case HandleWrite(n, connected) =>
      net.(lines := net.lines[n := Written(net.lines[n], connected)])
    case HandleRead(n) =>
      var f, m, ls := net.lines[n].wire[0], Prev(t, n), net.lines[n := Taken(net.lines[n])];
      net.(heard := net.heard[m := net.heard[m] + [f]],
           lines := if QoS(f) == m then ls else ls[m := Queued(ls[m], [f])])
  }

  /** The events es lead from a to b. */
  ghost predicate Leads(t: Table, a: Net, es: seq<Event>, b: Net)
    decreases |es|
  {
    if es == [] then a == b
    else Possible(t, a, es[0]) && Leads(t, Happen(t, a, es[0]), es[1..], b)
  }

  ghost function Silent(): Net {
    var none := seq(MAX_LINK_COUNT, i => []);
    Net(seq(MAX_LINK_COUNT, i => NO_LINE), none, none)
  }

  ghost predicate Run(t: Table, es: seq<Event>, net: Net) {
    |t| == MAX_LINK_COUNT && Leads(t, Silent(), es, net)
  }

  // ----- the steps of a pipe do not show in Broadcast -----

  /** The channel from n: all that its pipe holds. */
  function Held(lines: seq<Line>): (r: seq<seq<Frame>>)
    ensures |r| == |lines| && forall n | 0 <= n < |r| :: r[n] == lines[n].Held()
  {
    seq(|lines|, n requires 0 <= n < |lines| => lines[n].Held())
  }

  function Whole(net: Net): Broadcast.Net {
    Broadcast.Net(Held(net.lines), net.heard, net.injected)
  }

  lemma HeldUpdate(lines: seq<Line>, n: nat, l: Line)
    requires n < |lines|
    ensures Held(lines[n := l]) == Held(lines)[n := l.Held()]
  {
    hide Line.Held;
  }

  lemma HappenShape(t: Table, net: Net, e: Event)
    requires Possible(t, net, e)
    ensures Shape(t, Happen(t, net, e))
  {
    match e {
      case Play(n, fs) =>
        QueuedHeld(net.lines[n], fs);
        StartedHeld(Queued(net.lines[n], fs));
      case HandleWrite(n, connected) =>
        WrittenHeld(net.lines[n], connected);
      case HandleRead(n) =>
        TakenHeld(net.lines[n]);
    }
    hide Prev, Written, Started, Hearable, QoS;
  }

  /** Frames that n puts on the ring. */
  ghost function Injected(b: Broadcast.Net, n: nat, fs: seq<Frame>): Broadcast.Net
    requires n < |b.queue| == |b.injected|
  {
    b.(queue := b.queue[n := b.queue[n] + fs], injected := b.injected[n := b.injected[n] + fs])
  }

  lemma PlayWhole(t: Table, net: Net, n: nat, fs: seq<Frame>)
    requires Possible(t, net, Play(n, fs))
    ensures Whole(Happen(t, net, Play(n, fs))) == Injected(Whole(net), n, fs)
  {
    QueuedHeld(net.lines[n], fs);
    StartedHeld(Queued(net.lines[n], fs));
    HeldUpdate(net.lines, n, Started(Queued(net.lines[n], fs)));
    hide Started, Queued, Line.Held, Own;
  }

  lemma WriteWhole(t: Table, net: Net, n: nat, connected: bool)
    requires Possible(t, net, HandleWrite(n, connected))
    ensures Whole(Happen(t, net, HandleWrite(n, connected))) == Whole(net)
  {
    WrittenHeld(net.lines[n], connected);
    HeldUpdate(net.lines, n, Written(net.lines[n], connected));
    hide Written, Line.Held;
  }

  lemma ReadWhole(t: Table, net: Net, n: nat)
    requires Possible(t, net, HandleRead(n))
    ensures Broadcast.Possible(t, Whole(net), Broadcast.Deliver(n))
    ensures Whole(Happen(t, net, HandleRead(n))) == Broadcast.Happen(t, Whole(net), Broadcast.Deliver(n))
  {
    var f, m, ls := net.lines[n].wire[0], Prev(t, n), net.lines[n := Taken(net.lines[n])];
    TakenHeld(net.lines[n]);
    HeldUpdate(net.lines, n, Taken(net.lines[n]));
    QueuedHeld(ls[m], [f]);
    HeldUpdate(ls, m, Queued(ls[m], [f]));
    hide Queued, Taken, Line.Held, Hearable, QoS, Prev;
  }

  /** One more event of Broadcast. */
  lemma RunStep(t: Table, es: seq<Broadcast.Event>, b: Broadcast.Net, e: Broadcast.Event)
    requires Broadcast.Run(t, es, b) && Broadcast.Possible(t, b, e)
    ensures Broadcast.Run(t, es + [e], Broadcast.Happen(t, b, e))
  {
    hide Broadcast.Possible, Broadcast.Happen;
    var all := es + [e];
    assert all[..|all| - 1] == es && Last(all) == e;
    assert Broadcast.Run(t, all[..|all| - 1], b);
  }

  lemma {:induction false} InjectAll(t: Table, es: seq<Broadcast.Event>, b: Broadcast.Net, n: nat, fs: seq<Frame>)
    returns (cs: seq<Broadcast.Event>)
    requires Broadcast.Run(t, es, b) && Broadcast.Shape(t, b) && Occupied(t, n) && Own(fs, n)
    ensures Broadcast.Run(t, cs, Injected(b, n, fs))
    decreases |fs|
  {
    hide Broadcast.Run, Hearable, QoS;
    if fs == [] {
      cs := es;
      assert b.queue[n] + [] == b.queue[n] && b.injected[n] + [] == b.injected[n];
      assert b.queue[n := b.queue[n]] == b.queue && b.injected[n := b.injected[n]] == b.injected;
    } else {
      var init, f := fs[..|fs| - 1], Last(fs);
      var ds := InjectAll(t, es, b, n, init);
      var c := Injected(b, n, init);
      RunStep(t, ds, c, Broadcast.Inject(n, f));
      cs := ds + [Broadcast.Inject(n, f)];
      assert init + [f] == fs;
      Assoc(b.queue[n], init, [f]);
      Assoc(b.injected[n], init, [f]);
      assert Broadcast.Happen(t, c, Broadcast.Inject(n, f)) == Injected(b, n, fs);
    }
  }

  /** What the events after a do is a run of Broadcast if what led to a is. */
  lemma {:induction false} LeadsWhole(t: Table, a: Net, es: seq<Event>, b: Net, before: seq<Broadcast.Event>)
    returns (cs: seq<Broadcast.Event>)
    requires Shape(t, a) && Leads(t, a, es, b) && Broadcast.Run(t, before, Whole(a))
    ensures Shape(t, b) && Broadcast.Run(t, cs, Whole(b))
    decreases |es|
  {
    hide Broadcast.Run, Broadcast.Possible, Broadcast.Happen, Whole, Injected, Possible, Happen;
    if es == [] {
      cs := before;
    } else {
      var ds := EventWhole(t, a, es[0], before);
      cs := LeadsWhole(t, Happen(t, a, es[0]), es[1..], b, ds);
    }
  }

  lemma EventWhole(t: Table, a: Net, e: Event, before: seq<Broadcast.Event>) returns (cs: seq<Broadcast.Event>)
    requires Possible(t, a, e) && Broadcast.Run(t, before, Whole(a))
    ensures Shape(t, Happen(t, a, e)) && Broadcast.Run(t, cs, Whole(Happen(t, a, e)))
  {
    hide *;
    HappenShape(t, a, e);
    match e {
      case Play(n, fs) =>
        PlayWhole(t, a, n, fs);
        PlayPossible(t, a, n, fs);
        cs := InjectAll(t, before, Whole(a), n, fs);
      case HandleWrite(n, connected) =>
        WriteWhole(t, a, n, connected);
        cs := before;
      case HandleRead(n) =>
        ReadWhole(t, a, n);
        RunStep(t, before, Whole(a), Broadcast.Deliver(n));
        cs := before + [Broadcast.Deliver(n)];
    }
  }

  lemma PlayPossible(t: Table, net: Net, n: nat, fs: seq<Frame>)
    requires Possible(t, net, Play(n, fs))
    ensures Broadcast.Shape(t, Whole(net)) && Occupied(t, n) && Own(fs, n)
    ensures n < |Whole(net).queue| == |Whole(net).injected|
  {
    hide Own, Line.Held;
  }

  lemma SilentWhole(t: Table)
    requires |t| == MAX_LINK_COUNT
    ensures Shape(t, Silent()) && Broadcast.Run(t, [], Whole(Silent()))
  {
    assert Whole(Silent()).queue == Broadcast.Silent().queue;
  }

  /** Refinement: every run of the pipes is a run of the channels. */
  lemma RunWhole(t: Table, es: seq<Event>, net: Net) returns (cs: seq<Broadcast.Event>)
    requires Run(t, es, net)
    ensures Shape(t, net) && Broadcast.Run(t, cs, Whole(net)) && Broadcast.Conserved(t, Whole(net))
  {
    SilentWhole(t);
    cs := LeadsWhole(t, Silent(), es, net, []);
    Broadcast.RunConserves(t, cs, Whole(net));
  }

  // ----- what can be delivered without another Play -----

  ghost predicate Quiet(es: seq<Event>) {
    forall i | 0 <= i < |es| :: !es[i].Play?
  }

  /** All frames on the ring come from processes on it. */
  ghost predicate Proper(t: Table, net: Net) {
    Shape(t, net) && Broadcast.AllSane(t, Whole(net))
  }

  /** In every run they do. */
  lemma RunProper(t: Table, es: seq<Event>, net: Net)
    requires Run(t, es, net)
    ensures Proper(t, net)
  {
    var cs := RunWhole(t, es, net);
    hide Run, Whole, Broadcast.AllSane;
  }

  lemma ProperLine(t: Table, net: Net, n: nat)
    requires Proper(t, net) && Occupied(t, n)
    ensures Shape(t, net) && n < |net.lines|
    ensures net.lines[n].wire != [] ==> Possible(t, net, HandleRead(n))
    ensures net.lines[n].flying != [] ==> Possible(t, net, HandleWrite(n, true))
  {
    hide Hearable, QoS;
    if net.lines[n].wire != [] {
      TakenHeld(net.lines[n]);
      assert Broadcast.Sane(t, Whole(net).queue[n]);
      assert net.lines[n].Held()[0] == net.lines[n].wire[0];
    }
  }

  lemma HappenProper(t: Table, net: Net, e: Event)
    requires Proper(t, net) && Possible(t, net, e) && !e.Play?
    ensures Proper(t, Happen(t, net, e))
  {
    hide *;
    ProperIs(t, net);
    HappenShape(t, net, e);
    match e {
      case HandleWrite(n, connected) =>
        WriteWhole(t, net, n, connected);
      case HandleRead(n) =>
        ReadWhole(t, net, n);
        Broadcast.DeliverSane(t, Whole(net), n);
    }
    ProperIs(t, Happen(t, net, e));
  }

  lemma ProperIs(t: Table, net: Net)
    ensures Proper(t, net) <==> Shape(t, net) && Broadcast.AllSane(t, Whole(net))
  {
  }

  lemma WriteIs(t: Table, net: Net, n: nat)
    requires Possible(t, net, HandleWrite(n, true))
    ensures var l, r := net.lines[n], Happen(t, net, HandleWrite(n, true));
            && n < |r.lines| && |l.flying| == 1 && r.heard == net.heard
            && r.lines[n].wire == l.wire + l.flying && (r.lines[n].flying == [] <==> l.waiting == [])
            && r.lines[n].Held() == l.Held() && |l.Held()| == |l.wire| + 1 + |l.waiting|
  {
    WrittenHeld(net.lines[n], true);
  }

  lemma ReadIs(t: Table, net: Net, n: nat)
    requires Possible(t, net, HandleRead(n))
    ensures var l, r, m := net.lines[n], Happen(t, net, HandleRead(n)), Prev(t, n);
            && n < |r.lines| && m < |r.heard| && m < |net.heard| && |r.heard[m]| == |net.heard[m]| + 1
            && r.lines[n].wire == l.wire[1..] && r.lines[n].flying == l.flying
            && |r.lines[n].Held()| >= |l.Held()| - 1
  {
    hide Prev, Hearable, QoS;
  }

  /** A frame can be delivered if it is on the wire, or if a write is in flight that starts the next. */
  lemma {:induction false} Moves(t: Table, a: Net, n: nat, k: nat) returns (es: seq<Event>, b: Net)
    requires Proper(t, a) && Occupied(t, n) && n < |a.lines| && k < |a.lines[n].Held()|
    requires k < |a.lines[n].wire| || a.lines[n].flying != []
    ensures Quiet(es) && Leads(t, a, es, b) && Prev(t, n) < |a.heard| && Prev(t, n) < |b.heard|
    ensures |a.heard[Prev(t, n)]| + k < |b.heard[Prev(t, n)]|
    decreases k, a.lines[n].wire == []
  {
    hide *;
    ProperLine(t, a, n);
    if a.lines[n].wire == [] {
      var e := HandleWrite(n, true);
      WriteIs(t, a, n);
      HappenProper(t, a, e);
      es, b := Moves(t, Happen(t, a, e), n, k);
      LeadsCons(t, a, e, es, b);
      es := [e] + es;
    } else {
      var e := HandleRead(n);
      ReadIs(t, a, n);
      HappenProper(t, a, e);
      es, b := [], Happen(t, a, e);
      LeadsNone(t, b);
      if k > 0 {
        es, b := Moves(t, b, n, k - 1);
      }
      LeadsCons(t, a, e, es, b);
      es := [e] + es;
    }
  }

  lemma LeadsNone(t: Table, a: Net)
    ensures Leads(t, a, [], a) && Quiet([])
  {
  }

  lemma LeadsCons(t: Table, a: Net, e: Event, es: seq<Event>, b: Net)
    requires Possible(t, a, e) && Leads(t, Happen(t, a, e), es, b)
    ensures Leads(t, a, [e] + es, b) && (Quiet(es) && !e.Play? ==> Quiet([e] + es))
  {
    hide Possible, Happen;
    assert ([e] + es)[0] == e && ([e] + es)[1..] == es;
  }

  /** Without a write in flight, what waits goes on waiting. */
  lemma IdleStep(t: Table, a: Net, e: Event, n: nat)
    requires Possible(t, a, e) && !e.Play? && Occupied(t, n) && n < |a.lines| && a.lines[n].flying == []
    ensures Shape(t, Happen(t, a, e)) && Prev(t, n) < |a.heard|
    ensures var b, m := Happen(t, a, e), Prev(t, n);
            && b.lines[n].flying == []
            && |b.heard[m]| + |b.lines[n].wire| == |a.heard[m]| + |a.lines[n].wire|
            && a.lines[n].waiting <= b.lines[n].waiting
  {
    HappenShape(t, a, e);
    NextPrev(t, n);
    NextPrev(t, e.n);
    hide Prev, Next, Hearable, QoS;
  }

  lemma {:induction false} IdleStays(t: Table, a: Net, es: seq<Event>, b: Net, n: nat)
    requires Leads(t, a, es, b) && Quiet(es) && Shape(t, a) && Occupied(t, n) && a.lines[n].flying == []
    ensures Shape(t, b) && Prev(t, n) < |a.heard|
    ensures b.lines[n].flying == [] && |b.heard[Prev(t, n)]| <= |a.heard[Prev(t, n)]| + |a.lines[n].wire|
    ensures a.lines[n].waiting <= b.lines[n].waiting
    decreases |es|
  {
    hide Possible, Happen, Prev, Shape;
    ShapeIs(t, a, n);
    if es != [] {
      IdleStep(t, a, es[0], n);
      IdleStays(t, Happen(t, a, es[0]), es[1..], b, n);
    }
  }

  lemma ShapeIs(t: Table, a: Net, n: nat)
    requires Shape(t, a) && Occupied(t, n)
    ensures n < |a.lines| && Prev(t, n) < |a.heard|
  {
    hide Prev;
  }

  /** The events es, none of them a Play, let the neighbour of n handle more than k frames of its line. */
  ghost predicate Brings(t: Table, a: Net, es: seq<Event>, b: Net, n: nat, k: nat)
    requires Occupied(t, n) && Shape(t, a)
  {
    Quiet(es) && Leads(t, a, es, b) && Shape(t, b) && |a.heard[Prev(t, n)]| + k < |b.heard[Prev(t, n)]|
  }

  /** Frame k of those held on a line can be handled by the neighbour without another Play if and only if it is
      on the wire, or a write is in flight. */
  lemma DeliverableIff(t: Table, a: Net, n: nat, k: nat)
    requires Proper(t, a) && Occupied(t, n) && n < |a.lines| && k < |a.lines[n].Held()|
    ensures (exists es, b :: Brings(t, a, es, b, n, k)) <==> k < |a.lines[n].wire| || a.lines[n].flying != []
  {
    if k < |a.lines[n].wire| || a.lines[n].flying != [] {
      var es, b := Moves(t, a, n, k);
      LeadsShape(t, a, es, b);
      hide *;
      BringsIntro(t, a, es, b, n, k);
    } else {
      forall es, b | Brings(t, a, es, b, n, k)
        ensures false
      {
        IdleStays(t, a, es, b, n);
      }
    }
  }

  lemma BringsIntro(t: Table, a: Net, es: seq<Event>, b: Net, n: nat, k: nat)
    requires Occupied(t, n) && Shape(t, a) && Shape(t, b) && Quiet(es) && Leads(t, a, es, b)
    requires Prev(t, n) < |a.heard| && Prev(t, n) < |b.heard| && |a.heard[Prev(t, n)]| + k < |b.heard[Prev(t, n)]|
    ensures Brings(t, a, es, b, n, k)
  {
  }

  lemma {:induction false} LeadsShape(t: Table, a: Net, es: seq<Event>, b: Net)
    requires Shape(t, a) && Leads(t, a, es, b)
    ensures Shape(t, b)
    decreases |es|
  {
    hide Possible, Happen, Shape;
    if es != [] {
      HappenShape(t, a, es[0]);
      LeadsShape(t, Happen(t, a, es[0]), es[1..], b);
    }
  }

  lemma SaneOwn(t: Table, fs: seq<Frame>, more: seq<Frame>, n: nat)
    requires Broadcast.Sane(t, fs) && Own(more, n) && Occupied(t, n)
    ensures Broadcast.Sane(t, fs + more)
  {
    hide Hearable, QoS;
  }

  lemma PlayProper(t: Table, net: Net, n: nat, fs: seq<Frame>)
    requires Proper(t, net) && Possible(t, net, Play(n, fs))
    ensures Proper(t, Happen(t, net, Play(n, fs)))
  {
    HappenShape(t, net, Play(n, fs));
    PlayWhole(t, net, n, fs);
    PlayPossible(t, net, n, fs);
    SaneOwn(t, Whole(net).queue[n], fs, n);
    SaneOwn(t, Whole(net).injected[n], fs, n);
    hide Happen, Whole, Broadcast.Sane, Own;
  }

  /** The next Play of n, with or without frames of its own, sets everything on the line of n going. */
  lemma PlayWakes(t: Table, net: Net, n: nat, fs: seq<Frame>, k: nat)
    requires Proper(t, net) && Possible(t, net, Play(n, fs))
    ensures var r := Happen(t, net, Play(n, fs));
            && Proper(t, r) && n < |r.lines| && r.lines[n].Held() == net.lines[n].Held() + fs
            && (k < |r.lines[n].Held()| ==> exists es, b :: Brings(t, r, es, b, n, k))
  {
    PlayProper(t, net, n, fs);
    QueuedHeld(net.lines[n], fs);
    StartedHeld(Queued(net.lines[n], fs));
    var r := Happen(t, net, Play(n, fs));
    hide Own, Started, Brings;
    if k < |r.lines[n].Held()| {
      DeliverableIff(t, r, n, k);
    }
  }

  /** All lines are empty but that of n. */
  ghost predicate Only(t: Table, net: Net, n: nat, l: Line) {
    Shape(t, net) && n < |t| && forall i | 0 <= i < |t| :: net.lines[i] == if i == n then l else NO_LINE
  }

  lemma PlayOnly(t: Table, net: Net, a: nat, f: Frame)
    requires Only(t, net, a, NO_LINE) && Occupied(t, a) && Hearable(f) && QoS(f) == a
    ensures Possible(t, net, Play(a, [f])) && Only(t, Happen(t, net, Play(a, [f])), a, Line([], [f], []))
  {
    assert [] + [f] == [f] && [f][1..] == [];
    HappenShape(t, net, Play(a, [f]));
    hide Hearable, QoS;
  }

  lemma WriteOnly(t: Table, net: Net, a: nat, f: Frame)
    requires Only(t, net, a, Line([], [f], [])) && Occupied(t, a)
    ensures Possible(t, net, HandleWrite(a, true))
    ensures Only(t, Happen(t, net, HandleWrite(a, true)), a, Line([f], [], []))
  {
    assert [] + [f] == [f];
    HappenShape(t, net, HandleWrite(a, true));
  }

  lemma ReadOnly(t: Table, net: Net, a: nat, f: Frame)
    requires Only(t, net, a, Line([f], [], [])) && Occupied(t, a) && Hearable(f) && QoS(f) == a && Prev(t, a) != a
    ensures Possible(t, net, HandleRead(a))
    ensures Only(t, Happen(t, net, HandleRead(a)), Prev(t, a), Line([], [], [f]))
  {
    assert [] + [f] == [f] && [f][1..] == [];
    HappenShape(t, net, HandleRead(a));
    hide Hearable, QoS, Prev;
  }

  /** A state in which frames wait for ever without another Play can be reached: a sends a frame, and its
      neighbour, whose pipe is idle, passes it on. */
  lemma Waits(t: Table, a: nat, f: Frame) returns (es: seq<Event>, net: Net)
    requires |t| == MAX_LINK_COUNT && Occupied(t, a) && Prev(t, a) != a && Hearable(f) && QoS(f) == a
    ensures Run(t, es, net) && Prev(t, a) < |net.lines| && net.lines[Prev(t, a)] == Line([], [], [f])
    ensures forall e: Event :: e.Play? || !Possible(t, net, e)
  {
    hide Leads, Quiet, Happen, Hearable, QoS, Prev;
    SilentWhole(t);
    var n0 := Silent();
    assert Only(t, n0, a, NO_LINE);
    hide Silent, Only;
    PlayOnly(t, n0, a, f);
    var n1 := Happen(t, n0, Play(a, [f]));
    WriteOnly(t, n1, a, f);
    var n2 := Happen(t, n1, HandleWrite(a, true));
    ReadOnly(t, n2, a, f);
    net := Happen(t, n2, HandleRead(a));
    OnlyRests(t, net, Prev(t, a), f);
    LeadsNone(t, net);
    LeadsCons(t, n2, HandleRead(a), [], net);
    LeadsCons(t, n1, HandleWrite(a, true), [HandleRead(a)] + [], net);
    LeadsCons(t, n0, Play(a, [f]), [HandleWrite(a, true)] + ([HandleRead(a)] + []), net);
    es := [Play(a, [f])] + ([HandleWrite(a, true)] + ([HandleRead(a)] + []));
  }

  lemma OnlyRests(t: Table, net: Net, n: nat, f: Frame)
    requires Only(t, net, n, Line([], [], [f]))
    ensures n < |net.lines| && net.lines[n] == Line([], [], [f])
    ensures forall e: Event :: e.Play? || !Possible(t, net, e)
  {
  }

  // ----- work -----

  /** Work is left exactly while some line holds a frame; but something happens without another Play exactly
      while a frame is on a wire or in flight. */
  lemma WorkLeft(t: Table, net: Net)
    requires Proper(t, net)
    ensures Broadcast.Work(t, Whole(net), |t|) == 0 <==> forall n: nat | Occupied(t, n) :: net.lines[n].Held() == []
    ensures (exists e: Event :: !e.Play? && Possible(t, net, e)) <==>
            exists n: nat :: Occupied(t, n) && (net.lines[n].wire != [] || net.lines[n].flying != [])
  {
    Broadcast.WorkLeft(t, Whole(net), |t|);
    if n: nat :| Occupied(t, n) && (net.lines[n].wire != [] || net.lines[n].flying != []) {
      ProperLine(t, net, n);
      hide Possible, Line.Held, Broadcast.Work;
      assert Possible(t, net, if net.lines[n].wire != [] then HandleRead(n) else HandleWrite(n, true));
    }
  }

  /** Moves that the frames before slot k still need to get on the wires. */
  function Pending(t: Table, lines: seq<Line>, k: nat): nat
    requires k <= |lines| == |t|
  {
    if k == 0 then 0
    else
      Pending(t, lines, k - 1) +
      if Occupied(t, k - 1) then 2 * |lines[k - 1].waiting| + |lines[k - 1].flying| else 0
  }

  lemma {:induction false} PendingUpdate(t: Table, lines: seq<Line>, n: nat, l: Line, k: nat)
    requires k <= |lines| == |t| && Occupied(t, n)
    ensures Pending(t, lines[n := l], k) ==
            if k <= n then Pending(t, lines, k)
            else Pending(t, lines, k) + 2 * |l.waiting| + |l.flying| - 2 * |lines[n].waiting| - |lines[n].flying|
  {
    if k > 0 {
      PendingUpdate(t, lines, n, l, k - 1);
    }
  }

  /** How much can still happen without another Play, at most. */
  ghost function Rest(t: Table, net: Net): nat
    requires Proper(t, net)
  {
    3 * Broadcast.Work(t, Whole(net), |t|) + Pending(t, net.lines, |t|)
  }

  lemma QuietWorks(t: Table, net: Net, e: Event)
    requires Proper(t, net) && Possible(t, net, e) && !e.Play?
    ensures Proper(t, Happen(t, net, e)) && Rest(t, Happen(t, net, e)) < Rest(t, net)
  {
    HappenProper(t, net, e);
    var l, r := net.lines[e.n], Happen(t, net, e);
    match e {
      case HandleWrite(n, connected) =>
        WriteWhole(t, net, n, connected);
        PendingUpdate(t, net.lines, n, Written(l, connected), |t|);
      case HandleRead(n) =>
        ReadWhole(t, net, n);
        Broadcast.DeliverWorks(t, Whole(net), n);
        PendingUpdate(t, net.lines, n, Taken(l), |t|);
        var ls, m := net.lines[n := Taken(l)], Prev(t, n);
        PendingUpdate(t, ls, m, Queued(ls[m], [l.wire[0]]), |t|);
    }
    hide Proper, Broadcast.Work, Whole, Pending, Hearable, QoS, Prev;
  }

  /** Without another Play the ring comes to rest. */
  lemma {:induction false} QuietEnds(t: Table, a: Net, es: seq<Event>, b: Net)
    requires Proper(t, a) && Quiet(es) && Leads(t, a, es, b)
    ensures Proper(t, b) && |es| + Rest(t, b) <= Rest(t, a)
    decreases |es|
  {
    hide Proper, Possible, Happen, Rest;
    if es != [] {
      QuietWorks(t, a, es[0]);
      QuietEnds(t, Happen(t, a, es[0]), es[1..], b);
    }
  }
}
