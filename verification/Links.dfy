/** The two ends of a process on the ring: the tube, which hears and forwards, and the pipe, which
    queues frames and has at most one of them being written. */
module Links {
  import opened Sequences
  import opened Wire
  import opened Codec
  import opened Demux
  import opened Lines
  import opened Transport

  /** The frames that a process passes on: those of other origins. */
  function Foreign(fs: seq<Frame>, kseed: nat): seq<Frame>
    requires AllHearable(fs)
  {
    if fs == [] then []
    else Foreign(fs[..|fs| - 1], kseed) + if QoS(Last(fs)) == kseed then [] else [Last(fs)]
  }

  lemma HearAllNone(rs: seq<In>, kseed: nat)
    requires |rs| == MAX_LINK_COUNT
    ensures AllHearable([]) && HearAll(rs, []) == (rs, []) && Foreign([], kseed) == []
  {
  }

  lemma HearAllStep(rs: seq<In>, fs: seq<Frame>, i: nat, kseed: nat)
    requires |rs| == MAX_LINK_COUNT && AllHearable(fs) && i < |fs|
    ensures Hearable(fs[i]) && AllHearable(fs[..i]) && AllHearable(fs[..i + 1])
    ensures var (ss, out) := HearAll(rs, fs[..i]);
            && HearAll(rs, fs[..i + 1]) == (Hear(ss, fs[i]).0, out + Hear(ss, fs[i]).1)
            && PeakAmong(rs, fs, i) == Peak(ss[QoS(fs[i])], fs[i])
    ensures Foreign(fs[..i + 1], kseed) == Foreign(fs[..i], kseed) + if QoS(fs[i]) == kseed then [] else [fs[i]]
  {
    hide Hear, Peak;
    assert fs[..i + 1][..i] == fs[..i];
  }

  class Tube {
    const kseed: nat
    const physical: seq<Reader>
    var direct: seq<Frame>       // frames handed to the pipe
    var heard: seq<Heard>        // messages put together
    ghost var states: seq<In>

    ghost predicate Valid()
      reads this, physical, set r <- physical :: r.buf
    {
      && |physical| == MAX_LINK_COUNT && |states| == MAX_LINK_COUNT
      && (forall i | 0 <= i < |physical| :: physical[i].Valid() && physical[i].State() == states[i])
      && (forall i, j | 0 <= i < j < |physical| :: physical[i] != physical[j] && physical[i].buf != physical[j].buf)
    }

    /** The reader's buffer holds whatever is copied of the frame. */
    ghost predicate Room(f: Frame)
      requires Valid() && Hearable(f)
      reads this, physical, set r <- physical :: r.buf
    {
      Peak(states[QoS(f)], f) <= physical[QoS(f)].buf.Length
    }

    /** `HandleRead`, for the bytes of one frame. */
    method HandleRead(f: Frame)
      requires Valid() && (f != [] ==> Readable(f) && Room(f))
      modifies this`direct, this`heard, this`states, physical, set r <- physical :: r.buf
      ensures Valid()
      ensures f == [] ==> direct == old(direct) && heard == old(heard) && states == old(states)
      ensures f != [] ==> direct == if QoS(f) == kseed then old(direct) else old(direct) + [f]
      ensures f != [] ==> (states, heard) == (Hear(old(states), f).0, old(heard) + Hear(old(states), f).1)
    {
      if f == [] {
        return;
      }
      var qos := f[0].lo / MAX_COUNTER;
      if qos != kseed {
        direct := direct + [f];
      }
      var out := Play(physical[qos], f);
      heard := heard + Tag(qos, out);
      states := states[qos := physical[qos].State()];
    }

    /** The buffer of each reader holds whatever is copied of the frames it gets. */
    ghost predicate RoomAll(fs: seq<Frame>)
      requires |states| == MAX_LINK_COUNT == |physical| && AllHearable(fs)
      reads this`states
    {
      forall t | 0 <= t < |fs| :: PeakAmong(states, fs, t) <= physical[QoS(fs[t])].buf.Length
    }

    /** Reads frame after frame: every `HandleRead` is followed by the next read. */
    method Listen(fs: seq<Frame>)
      requires Valid() && AllHearable(fs) && RoomAll(fs)
      modifies this`direct, this`heard, this`states, physical, set r <- physical :: r.buf
      ensures Valid() && direct == old(direct) + Foreign(fs, kseed)
      ensures (states, heard) == (HearAll(old(states), fs).0, old(heard) + HearAll(old(states), fs).1)
    {
      hide HearAll, Hear, Foreign, Peak;
      ghost var rs, was, to := states, heard, direct;
      HearAllNone(rs, kseed);
      assert fs[..0] == [] && was + [] == was && to + [] == to;
      for i := 0 to |fs|
        invariant Valid() && direct == to + Foreign(fs[..i], kseed)
        invariant (states, heard) == (HearAll(rs, fs[..i]).0, was + HearAll(rs, fs[..i]).1)
      {
        HearAllStep(rs, fs, i, kseed);
        ghost var out, more := HearAll(rs, fs[..i]).1, Hear(states, fs[i]).1;
        Assoc(was, out, more);
        Assoc(to, Foreign(fs[..i], kseed), if QoS(fs[i]) == kseed then [] else [fs[i]]);
        HandleRead(fs[i]);
      }
      assert fs[..|fs|] == fs;
    }

    /** `Head`, then `Next` until null, collecting a message whenever the reader is complete. */
    static method Play(r: Reader, f: Frame) returns (out: seq<Msg>)
      requires r.Valid() && f != [] && Readable(f) && Peak(r.State(), f) <= r.buf.Length
      modifies r, r.buf
      ensures r.Valid() && (r.State(), out) == Receive(old(r.State()), f)
    {
      hide Drain, DrainPeak, Peak, Receive, Codec.Head, Start, Complete;
      ghost var all := Receive(r.State(), f);
      HeadTurn(r.State(), f);
      out := [];
      var more := r.Head(f);
      while more
        invariant r.Valid() && (more ==> DrainPeak(r.State()) <= r.buf.Length)
        invariant more ==> all == (Drain(r.State()).0, out + Report(r.State()) + Drain(r.State()).1)
        invariant !more ==> all == (r.State(), out)
        decreases |r.State().rest|, more
      {
        ghost var s, before := r.State(), out;
        var done := r.Complited();
        if done {
          out := out + [Msg(r.hdr.hi, r.hdr.lo, r.buf[..r.writed])];
        }
        assert out == before + Report(s) by {
          assert before + [] == before;
        }
        DrainTurn(s, out);
        more := r.Next();
      }
    }

    static lemma HeadTurn(s: In, f: Frame)
      requires f != [] && Readable(f)
      ensures var (more, t) := Codec.Head(s, f);
              && |t.got| <= Peak(s, f) && (more ==> DrainPeak(t) <= Peak(s, f))
              && Receive(s, f) == if more then (Drain(t).0, [] + Report(t) + Drain(t).1) else (t, [])
    {
      hide Drain, DrainPeak, Report;
      var (more, t) := Codec.Head(s, f);
      assert [] + Report(t) == Report(t);
    }

    /** One call of `Next` in terms of `Drain`. */
    static lemma DrainTurn(s: In, out: seq<Msg>)
      ensures if s.rest == [] then (Drain(s).0, out + Drain(s).1) == (s, out)
              else
                var (more, t) := Start(s);
                && |t.got| <= DrainPeak(s) && (more ==> DrainPeak(t) <= DrainPeak(s))
                && (more ==>
                      && |t.rest| < |s.rest| && out + Drain(s).1 == out + Report(t) + Drain(t).1
                      && Drain(s).0 == Drain(t).0)
                && (!more ==> |t.rest| == |s.rest| && (Drain(s).0, out + Drain(s).1) == (t, out))
    {
      assert out + [] == out;
      if s.rest != [] {
        var (more, t) := Start(s);
        if more {
          Assoc(out, Report(t), Drain(t).1);
        }
      }
    }
  }

  class Pipe {
    var rbuf: seq<Frame>           // waiting to be written
    var corresponding: bool        // a write is in flight
    ghost var flying: seq<Frame>   // the write in flight
    ghost var wire: seq<Frame>     // everything written
    ghost var pushed: seq<Frame>   // everything ever queued

    /** Frames reach the wire in the order in which they were queued, one write at a time. */
    ghost predicate Valid()
      reads this
    {
      Way().Held() == pushed && |flying| == if corresponding then 1 else 0
    }

    /** The pipe as a value. */
    ghost function Way(): Line
      reads this`rbuf, this`flying, this`wire
    {
      Line(wire, flying, rbuf)
    }

    constructor ()
      ensures Valid() && Way() == NO_LINE
    {
      rbuf, corresponding := [], false;
      flying, wire, pushed := [], [], [];
    }

    /** Only queues the frame. */
    method Direct(f: Frame)
      requires Valid()
      modifies this`rbuf, this`pushed
      ensures Valid() && Way() == Queued(old(Way()), [f])
    {
      QueuedHeld(Way(), [f]);
      rbuf, pushed := rbuf + [f], pushed + [f];
    }

    /** Starts the next write unless one is in flight. */
    method AsyncWrite()
      requires Valid()
      modifies this`rbuf, this`corresponding, this`flying
      ensures Valid() && Way() == Started(old(Way()))
    {
      StartedHeld(Way());
      if corresponding || rbuf == [] {
        return;
      }
      var f := rbuf[0];
      rbuf, corresponding, flying := rbuf[1..], true, [f];
    }

    /** The write in flight has succeeded. */
    method HandleWrite(connected: bool)
      requires Valid() && corresponding
      modifies this
      ensures Valid() && Way() == Written(old(Way()), connected) && pushed == old(pushed)
    {
      WrittenHeld(Way(), false);
      corresponding, wire, flying := false, wire + flying, [];
      if connected {
        AsyncWrite();
      }
    }

    /** The part of `Play` that moves frames from the writer's queue: all but the last, and the last
        one too if nothing else is waiting. */
    method Flush(abuf: seq<Frame>) returns (rest: seq<Frame>)
      requires Valid() && abuf != []
      modifies this`rbuf, this`pushed
      ensures Valid() && |rest| <= |abuf| && Way() == Queued(old(Way()), abuf[..|abuf| - |rest|])
      ensures rest == (if old(rbuf) == [] && |abuf| == 1 then [] else [Last(abuf)])
    {
      hide Line.Held;
      rest := abuf;
      ghost var before := Way();
      assert abuf[..0] == [] && rbuf + [] == rbuf;
      while rbuf == [] || |rest| > 1
        invariant |rest| <= |abuf| && rest == abuf[|abuf| - |rest|..]
        invariant Valid() && Way() == Queued(before, abuf[..|abuf| - |rest|])
        invariant rest == [] ==> rbuf != [] && before.waiting == [] && |abuf| == 1
        decreases |rest|
      {
        ghost var k := |abuf| - |rest|;
        assert abuf[..k] + [rest[0]] == abuf[..k + 1];
        Assoc(before.waiting, abuf[..k], [rest[0]]);
        QueuedHeld(Way(), [rest[0]]);
        rbuf, pushed := rbuf + [rest[0]], pushed + [rest[0]];
        rest := rest[1..];
      }
    }

    /** `Play`, as far as frames are concerned: it flushes, if there is something to flush and the process is
        connected, and starts a write. */
    method Play(abuf: seq<Frame>, connected: bool) returns (rest: seq<Frame>)
      requires Valid()
      modifies this`rbuf, this`pushed, this`corresponding, this`flying
      ensures Valid() && |rest| <= |abuf| && Way() == Started(Queued(old(Way()), abuf[..|abuf| - |rest|]))
      ensures rest == (if !connected || abuf == [] then abuf
                       else if old(rbuf) == [] && |abuf| == 1 then [] else [Last(abuf)])
    {
      rest := abuf;
      if connected && abuf != [] {
        rest := Flush(abuf);
      } else {
        assert abuf[..0] == [] && rbuf + [] == rbuf;
      }
      AsyncWrite();
    }
  }
}
