/** The way of frames from one process to its neighbour: waiting in the pipe's queue, in the write in
    flight, or written and not yet read. `Links.Pipe` is the object that goes through these steps. */
module Lines {
  import opened Sequences
  import opened Wire

  datatype Line = Line(wire: seq<Frame>, flying: seq<Frame>, waiting: seq<Frame>) {
    /** All frames on the way, the next to be read first. */
    function Held(): seq<Frame> {
      wire + flying + waiting
    }

    /** One write at a time. */
    predicate Ok() {
      |flying| <= 1
    }
  }

  const NO_LINE := Line([], [], [])

  /** Frames are queued. No write is started. */
  function Queued(l: Line, fs: seq<Frame>): Line {
    l.(waiting := l.waiting + fs)
  }

  /** `AsyncWrite`. */
  function Started(l: Line): Line {
    if l.flying != [] || l.waiting == [] then l else l.(flying := [l.waiting[0]], waiting := l.waiting[1..])
  }

  /** `HandleWrite`: the write in flight has succeeded. */
  function Written(l: Line, connected: bool): Line {
    var w := Line(l.wire + l.flying, [], l.waiting);
    if connected then Started(w) else w
  }

  /** The neighbour has read a frame. */
  function Taken(l: Line): Line
    requires l.wire != []
  {
    l.(wire := l.wire[1..])
  }

  lemma QueuedHeld(l: Line, fs: seq<Frame>)
    ensures Queued(l, fs).Held() == l.Held() + fs && (l.Ok() ==> Queued(l, fs).Ok())
  {
    Assoc(l.wire + l.flying, l.waiting, fs);
  }

  /** Starting and finishing a write moves frames on and changes nothing in what is held. */
  lemma StartedHeld(l: Line)
    requires l.Ok()
    ensures Started(l).Held() == l.Held() && Started(l).Ok() && Started(l).wire == l.wire
    ensures Started(l).flying == [] <==> l.flying == [] && l.waiting == []
  {
    if l.flying == [] && l.waiting != [] {
      assert l.wire + [] == l.wire && [l.waiting[0]] + l.waiting[1..] == l.waiting;
      Assoc(l.wire, [l.waiting[0]], l.waiting[1..]);
    }
  }

  lemma WrittenHeld(l: Line, connected: bool)
    requires l.Ok()
    ensures Written(l, connected).Held() == l.Held() && Written(l, connected).Ok()
    ensures Written(l, connected).wire == l.wire + l.flying
    ensures Written(l, connected).flying == [] <==> !connected || l.waiting == []
  {
    var w := Line(l.wire + l.flying, [], l.waiting);
    assert w.Held() == l.Held() by {
      assert l.wire + l.flying + [] == l.wire + l.flying;
    }
    StartedHeld(w);
  }

  lemma TakenHeld(l: Line)
    requires l.wire != []
    ensures l.Held() != [] && l.Held()[0] == l.wire[0] && Taken(l).Held() == l.Held()[1..]
    ensures l.Ok() ==> Taken(l).Ok()
  {
  }
}
