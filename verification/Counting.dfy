/** Counting words. Every payload and body word of a stream is accounted for by at most one report,
    so a reader that drops a body header can no longer report everything. This is why the round trip
    fails on every run that is not roomy. */
module Counting {
  import opened Sequences
  import opened Wire
  import opened Codec
  import opened Sheets
  import opened Layout

  /** Words other than frame headers. */
  function Volume(fs: seq<Frame>): int {
    if fs == [] then 0 else |fs[0]| - 1 + Volume(fs[1..])
  }

  /** Words needed to write messages. */
  function Weight(ms: seq<Msg>): nat {
    if ms == [] then 0 else |ms[0].data| + 1 + Weight(ms[1..])
  }

  lemma {:induction false} WeightConcat(a: seq<Msg>, b: seq<Msg>)
    ensures Weight(a + b) == Weight(a) + Weight(b)
  {
    if a == [] {
      assert a + b == b;
    } else {
      assert (a + b)[0] == a[0] && (a + b)[1..] == a[1..] + b;
      WeightConcat(a[1..], b);
    }
  }

  lemma {:induction false} VolumeConcat(a: seq<Frame>, b: seq<Frame>)
    ensures Volume(a + b) == Volume(a) + Volume(b)
  {
    if a == [] {
      assert a + b == b;
    } else {
      assert (a + b)[0] == a[0] && (a + b)[1..] == a[1..] + b;
      VolumeConcat(a[1..], b);
    }
  }

  lemma VolumeOne(f: Frame)
    ensures Volume([f]) == |f| - 1
  {
    assert [f][1..] == [];
  }

  lemma VolumeAppendLast(fs: seq<Frame>, more: seq<Word>)
    requires fs != []
    ensures Volume(AppendLast(fs, more)) == Volume(fs) + |more|
  {
    var front := fs[..|fs| - 1];
    assert fs == front + [Last(fs)] && AppendLast(fs, more) == front + [Last(fs) + more];
    VolumeConcat(front, [Last(fs)]);
    VolumeConcat(front, [Last(fs) + more]);
    VolumeOne(Last(fs));
    VolumeOne(Last(fs) + more);
  }

  // ----- how a writer's frames grow -----

  /** b grows out of a: words are added to the last frame of a and whole frames behind it, the first
      of which is number n of the stream. */
  ghost predicate Grown(qos: nat, n: nat, a: seq<Frame>, b: seq<Frame>)
    requires qos < 64
  {
    && |a| <= |b|
    && (forall i | 0 <= i < |a| :: a[i] <= b[i] && (i < |a| - 1 ==> a[i] == b[i]))
    && (forall i | |a| <= i < |b| :: 2 <= |b[i]| && b[i][0].lo == Stamp(n + (i - |a|) + 1, qos))
  }

  lemma GrownTrans(qos: nat, n: nat, a: seq<Frame>, b: seq<Frame>, c: seq<Frame>)
    requires qos < 64 && Grown(qos, n, a, b) && Grown(qos, n + |b| - |a|, b, c)
    ensures Grown(qos, n, a, c)
  {
    hide Stamp;
    forall i | |a| <= i < |c|
      ensures 2 <= |c[i]| && c[i][0].lo == Stamp(n + (i - |a|) + 1, qos)
    {
      if i < |b| {
        assert b[i] <= c[i];
      }
    }
  }

  lemma GrownLast(qos: nat, n: nat, a: seq<Frame>, more: seq<Word>)
    requires qos < 64 && a != []
    ensures Grown(qos, n, a, AppendLast(a, more))
  {
  }

  lemma GrownNew(qos: nat, n: nat, a: seq<Frame>, f: Frame)
    requires qos < 64 && 2 <= |f| && f[0].lo == Stamp(n + 1, qos)
    ensures Grown(qos, n, a, a + [f])
  {
    hide Stamp;
  }

  /** A turn that finds the last frame full. */
  lemma SpillOpen(cap: nat, qos: nat, o: Out, rem: seq<Word>, started: bool, n: nat, q: Out, k: nat)
    requires 3 <= cap && qos < 64 && 0 < |rem| < 16384 && o.abuf != [] && Fits(o.abuf, cap) && o.counter == Ticks(n)
    requires |Last(o.abuf)| == cap && k == Least(|rem|, cap - 1)
    requires q == Out(Ticks(n + 1), o.abuf + [[Word(Stamp(n + 1, qos), Pointer(cap, |rem|, started))] + rem[..k]])
    ensures 0 < k && Fits(q.abuf, cap) && Spill(cap, qos, o, rem, started) == Spill(cap, qos, q, rem[k..], true)
  {
    TicksStep(n, qos);
    hide Ticks, Stamp, Bump, Pointer;
    var h := Word(Stamp(n + 1, qos), Pointer(cap, |rem|, started));
    assert AppendLast(o.abuf + [[h]], rem[..k]) == q.abuf;
  }

  /** A turn that finds a free word. */
  lemma SpillMore(cap: nat, qos: nat, o: Out, rem: seq<Word>, started: bool, q: Out, k: nat)
    requires 3 <= cap && qos < 64 && 0 < |rem| < 16384 && o.abuf != [] && Fits(o.abuf, cap)
    requires |Last(o.abuf)| != cap && k == Least(|rem|, cap - |Last(o.abuf)|)
             && q == o.(abuf := AppendLast(o.abuf, rem[..k]))
    ensures 0 < k && Fits(q.abuf, cap) && Spill(cap, qos, o, rem, started) == Spill(cap, qos, q, rem[k..], true)
  {
    hide Stamp, Bump, Pointer;
  }

  /** A frame with pointer 0 and w as its first payload word. */
  predicate Begins(f: Frame, w: Word) {
    2 <= |f| && f[0].hi == 0 && f[1] == w
  }

  lemma BeginsIs(f: Frame, w: Word)
    requires Begins(f, w)
    ensures 2 <= |f| && f[0].hi == 0 && f[1] == w
  {
  }

  lemma BeginsMore(f: Frame, g: Frame, w: Word)
    requires Begins(f, w) && f <= g
    ensures Begins(g, w)
  {
  }

  lemma BeginsNew(cap: nat, f: Frame, w: Word, left: nat, started: bool, n: nat, qos: nat)
    requires qos < 64 && left < 16384 && 2 <= |f| && f[1] == w
    requires f[0] == Word(Stamp(n + 1, qos), Pointer(cap, left, started))
    ensures !started ==> Begins(f, w)
  {
    hide Stamp;
  }

  lemma SpillStep(cap: nat, qos: nat, o: Out, rem: seq<Word>, started: bool, n: nat) returns (q: Out, k: nat)
    requires 3 <= cap && qos < 64 && 0 < |rem| < 16384 && o.abuf != [] && Fits(o.abuf, cap) && o.counter == Ticks(n)
    ensures 0 < k <= |rem| && q.abuf != [] && Fits(q.abuf, cap) && |o.abuf| <= |q.abuf|
    ensures Spill(cap, qos, o, rem, started) == Spill(cap, qos, q, rem[k..], true)
    ensures Grown(qos, n, o.abuf, q.abuf) && q.counter == Ticks(n + |q.abuf| - |o.abuf|)
    ensures Volume(q.abuf) == Volume(o.abuf) + k
    ensures !started && |Last(o.abuf)| == cap ==>
              |o.abuf| < |q.abuf| && Begins(q.abuf[|o.abuf|], rem[0])
  {
    hide Ticks, Stamp, Bump, Volume, Grown, Spill, Fits;
    LastBound(o, cap);
    if |Last(o.abuf)| == cap {
      var h := Word(Stamp(n + 1, qos), Pointer(cap, |rem|, started));
      k := Least(|rem|, cap - 1);
      q := Out(Ticks(n + 1), o.abuf + [[h] + rem[..k]]);
      SpillOpen(cap, qos, o, rem, started, n, q, k);
      GrownNew(qos, n, o.abuf, [h] + rem[..k]);
      VolumeConcat(o.abuf, [[h] + rem[..k]]);
      VolumeOne([h] + rem[..k]);
      BeginsNew(cap, [h] + rem[..k], rem[0], |rem|, started, n, qos);
    } else {
      k := Least(|rem|, cap - |Last(o.abuf)|);
      q := o.(abuf := AppendLast(o.abuf, rem[..k]));
      SpillMore(cap, qos, o, rem, started, q, k);
      GrownLast(qos, n, o.abuf, rem[..k]);
      VolumeAppendLast(o.abuf, rem[..k]);
    }
  }

  lemma SpillNone(cap: nat, qos: nat, o: Out, started: bool, n: nat)
    requires 3 <= cap && qos < 64 && o.abuf != [] && Fits(o.abuf, cap)
    ensures Spill(cap, qos, o, [], started) == o && Grown(qos, n, o.abuf, o.abuf)
  {
  }

  lemma GrownAt(qos: nat, n: nat, a: seq<Frame>, b: seq<Frame>, i: nat)
    requires qos < 64 && Grown(qos, n, a, b) && i < |a| && a[i] != []
    ensures |a| <= |b| && a[i] <= b[i] && b[i] != [] && b[i][0] == a[i][0]
  {
    hide Stamp;
  }

  /** The payload loop: frames grow, and every payload word is put down once. If the loop starts in a
      full frame without having put down a word, the first frame it opens has pointer 0. */
  lemma {:induction false} SpillGrows(cap: nat, qos: nat, o: Out, rem: seq<Word>, started: bool, n: nat)
    requires 3 <= cap && qos < 64 && |rem| < 16384 && o.abuf != [] && Fits(o.abuf, cap) && o.counter == Ticks(n)
    ensures var r := Spill(cap, qos, o, rem, started);
            && Grown(qos, n, o.abuf, r.abuf) && |o.abuf| <= |r.abuf|
            && r.counter == Ticks(n + |r.abuf| - |o.abuf|)
            && Volume(r.abuf) == Volume(o.abuf) + |rem|
            && (!started && rem != [] && |Last(o.abuf)| == cap ==>
                  |o.abuf| < |r.abuf| && Begins(r.abuf[|o.abuf|], rem[0]))
    decreases |rem|
  {
    hide *;
    if rem == [] {
      SpillNone(cap, qos, o, started, n);
    } else {
      var q, k := SpillStep(cap, qos, o, rem, started, n);
      var m := n + |q.abuf| - |o.abuf|;
      SpillGrows(cap, qos, q, rem[k..], true, m);
      var r := Spill(cap, qos, q, rem[k..], true);
      GrownTrans(qos, n, o.abuf, q.abuf, r.abuf);
      if !started && |Last(o.abuf)| == cap {
        BeginsIs(q.abuf[|o.abuf|], rem[0]);
        GrownAt(qos, m, q.abuf, r.abuf, |o.abuf|);
        BeginsMore(q.abuf[|o.abuf|], r.abuf[|o.abuf|], rem[0]);
      }
    }
  }

  /** One `Write`: the stream grows by the words of the message. */
  lemma WriteGrows(cap: nat, qos: nat, o: Out, m: Msg, n: nat)
    requires 3 <= cap && qos < 64 && m.Valid() && Fits(o.abuf, cap) && o.counter == Ticks(n)
    ensures var r := Write(cap, qos, o, m);
            && |o.abuf| <= |r.abuf| && Grown(qos, n, o.abuf, r.abuf)
            && r.counter == Ticks(n + |r.abuf| - |o.abuf|)
            && Volume(r.abuf) == Volume(o.abuf) + |m.data| + 1
  {
    hide *;
    MsgSize(m);
    if o.abuf == [] || |Last(o.abuf)| == cap {
      WriteOpens(cap, qos, o, m, n);
      var f := [Word(Stamp(n + 1, qos), 0)] + [m.Body()];
      var q := Out(Ticks(n + 1), o.abuf + [f]);
      GrownNew(qos, n, o.abuf, f);
      VolumeConcat(o.abuf, [f]);
      VolumeOne(f);
      SpillGrows(cap, qos, q, m.data, false, n + 1);
      GrownTrans(qos, n, o.abuf, q.abuf, Spill(cap, qos, q, m.data, false).abuf);
    } else {
      LastFits(o, cap);
      WriteExtends(cap, qos, o, m);
      var q := Out(o.counter, AppendLast(o.abuf, [m.Body()]));
      AppendLastIs(o.abuf, [m.Body()]);
      GrownLast(qos, n, o.abuf, [m.Body()]);
      VolumeAppendLast(o.abuf, [m.Body()]);
      SpillGrows(cap, qos, q, m.data, false, n);
      GrownTrans(qos, n, o.abuf, q.abuf, Spill(cap, qos, q, m.data, false).abuf);
    }
  }

  lemma LastBound(o: Out, cap: nat)
    requires o.abuf != [] && Fits(o.abuf, cap)
    ensures |Last(o.abuf)| <= cap
  {
  }

  lemma LastFits(o: Out, cap: nat)
    requires o.abuf != [] && Fits(o.abuf, cap) && |Last(o.abuf)| != cap
    ensures |Last(o.abuf)| < cap
  {
  }

  lemma AppendLastIs(fs: seq<Frame>, more: seq<Word>)
    requires fs != []
    ensures AppendLast(fs, more) == fs[..|fs| - 1] + [Last(fs) + more] && |AppendLast(fs, more)| == |fs|
  {
  }

  /** A `Write` that starts with one free word: its body header fills the frame, and the payload
      begins behind a frame header whose pointer is 0. */
  lemma TightWrite(cap: nat, qos: nat, o: Out, m: Msg, n: nat)
    requires 3 <= cap && qos < 64 && m.Valid() && Fits(o.abuf, cap) && o.counter == Ticks(n) && Tight(cap, o)
    ensures var r, k := Write(cap, qos, o, m).abuf, |o.abuf|;
            && k < |r| && r[k - 1] == Last(o.abuf) + [m.Body()]
            && 2 <= |r[k]| && r[k][0].hi == 0 && m.data != [] && r[k][1] == m.data[0]
  {
    hide *;
    MsgSize(m);
    TightIs(cap, o);
    WriteExtends(cap, qos, o, m);
    AppendLastIs(o.abuf, [m.Body()]);
    var q := Out(o.counter, AppendLast(o.abuf, [m.Body()]));
    LastIs(q.abuf);
    SpillGrows(cap, qos, q, m.data, false, n);
    var r := Spill(cap, qos, q, m.data, false);
    GrownAt(qos, n, q.abuf, r.abuf, |o.abuf| - 1);
    FullFrame(r.abuf, cap, |o.abuf| - 1, Last(o.abuf) + [m.Body()]);
    BeginsIs(r.abuf[|o.abuf|], m.data[0]);
  }

  lemma TightIs(cap: nat, o: Out)
    requires Tight(cap, o)
    ensures o.abuf != [] && |Last(o.abuf)| == cap - 1
  {
  }

  lemma FullFrame(fs: seq<Frame>, cap: nat, i: nat, f: Frame)
    requires i < |fs| && Fits(fs, cap) && f <= fs[i] && |f| == cap
    ensures fs[i] == f
  {
  }

  // ----- runs -----

  /** What holds of the frames of any run, roomy or not. */
  ghost predicate Shaped(cap: nat, qos: nat, r: Run, weight: nat)
    requires qos < 64
  {
    && r.out.counter == Ticks(|r.Stream()|)
    && Fits(r.Stream(), cap) && Stamped(qos, 0, r.Stream())
    && Volume(r.Stream()) == weight
  }

  ghost predicate Stamped(qos: nat, base: nat, fs: seq<Frame>)
    requires qos < 64
  {
    forall i | 0 <= i < |fs| :: 2 <= |fs[i]| && fs[i][0].lo == Stamp(base + i + 1, qos)
  }

  lemma GrownPrefix(qos: nat, n: nat, pre: seq<Frame>, a: seq<Frame>, b: seq<Frame>)
    requires qos < 64 && Grown(qos, n, a, b)
    ensures Grown(qos, n, pre + a, pre + b)
  {
    hide Stamp;
    forall i | |pre + a| <= i < |pre + b|
      ensures 2 <= |(pre + b)[i]| && (pre + b)[i][0].lo == Stamp(n + (i - |pre + a|) + 1, qos)
    {
      assert (pre + b)[i] == b[i - |pre|];
    }
  }

  lemma StampedGrown(qos: nat, a: seq<Frame>, b: seq<Frame>)
    requires qos < 64 && Stamped(qos, 0, a) && Grown(qos, |a|, a, b)
    ensures Stamped(qos, 0, b)
  {
    hide Stamp;
    forall i | 0 <= i < |b|
      ensures 2 <= |b[i]| && b[i][0].lo == Stamp(0 + i + 1, qos)
    {
      if i < |a| {
        assert a[i] <= b[i];
      } else {
        assert |a| + (i - |a|) + 1 == 0 + i + 1;
      }
    }
  }

  /** One step of a run: the stream grows, by the words of the message if one is sent. */
  lemma StepGrows(cap: nat, qos: nat, r: Run, op: Op, weight: nat)
    requires 3 <= cap && qos < 64 && Fits(r.out.abuf, cap) && (op.Send? ==> op.m.Valid())
    requires Shaped(cap, qos, r, weight)
    ensures var t := Step(cap, qos, r, op);
            && Grown(qos, |r.Stream()|, r.Stream(), t.Stream())
            && Shaped(cap, qos, t, weight + if op.Send? then |op.m.data| + 1 else 0)
  {
    match op
    case Send(m) =>
      StepSend(cap, qos, r, m);
      WriteGrows(cap, qos, r.out, m, |r.Stream()|);
      hide Write, Grown, Volume, Stamped, Ticks, Fits;
      var w := Write(cap, qos, r.out, m);
      GrownPrefix(qos, |r.Stream()|, r.sent, r.out.abuf, w.abuf);
      StampedGrown(qos, r.Stream(), r.sent + w.abuf);
      VolumeConcat(r.sent, r.out.abuf);
      VolumeConcat(r.sent, w.abuf);
      FitsConcat(r.sent, r.out.abuf, cap);
      FitsConcat(r.sent, w.abuf, cap);
    case Flush =>
      hide Volume, Stamped, Ticks, Fits;
      assert Step(cap, qos, r, op).Stream() == r.Stream();
  }

  lemma {:induction false} RunShaped(cap: nat, qos: nat, ops: seq<Op>)
    requires 3 <= cap && qos < 64 && Sendable(ops)
    ensures Shaped(cap, qos, Exec(cap, qos, ops), Weight(Sends(ops)))
  {
    if ops != [] {
      var init := ops[..|ops| - 1];
      RunShaped(cap, qos, init);
      StepGrows(cap, qos, Exec(cap, qos, init), Last(ops), Weight(Sends(init)));
      hide Shaped, Step, Weight;
      match Last(ops) {
        case Send(m) =>
          WeightConcat(Sends(init), [m]);
          WeightOne(m);
        case Flush =>
          assert Sends(init) + [] == Sends(init);
      }
    }
  }

  lemma WeightOne(m: Msg)
    ensures Weight([m]) == |m.data| + 1
  {
    assert [m][1..] == [];
  }

  /** A stream only ever grows: full frames and frames with a successor keep their words. */
  lemma {:induction false} RunGrows(cap: nat, qos: nat, ops: seq<Op>, k: nat)
    requires 3 <= cap && qos < 64 && Sendable(ops) && k <= |ops|
    ensures Sendable(ops[..k])
    ensures var a, b := Exec(cap, qos, ops[..k]).Stream(), Exec(cap, qos, ops).Stream();
            Grown(qos, |a|, a, b)
    decreases |ops|
  {
    hide Grown, Shaped, Step, Sends, Weight;
    if k == |ops| {
      assert ops[..k] == ops;
      GrownSame(qos, Exec(cap, qos, ops).Stream());
    } else {
      var init := ops[..|ops| - 1];
      assert init[..k] == ops[..k];
      RunGrows(cap, qos, init, k);
      RunShaped(cap, qos, init);
      StepGrows(cap, qos, Exec(cap, qos, init), Last(ops), Weight(Sends(init)));
      var a, b := Exec(cap, qos, ops[..k]).Stream(), Exec(cap, qos, init).Stream();
      GrownSize(qos, |a|, a, b);
      GrownTrans(qos, |a|, a, b, Exec(cap, qos, ops).Stream());
    }
  }

  lemma GrownSame(qos: nat, a: seq<Frame>)
    requires qos < 64
    ensures Grown(qos, |a|, a, a)
  {
  }

  lemma GrownSize(qos: nat, n: nat, a: seq<Frame>, b: seq<Frame>)
    requires qos < 64 && Grown(qos, n, a, b)
    ensures |a| <= |b|
  {
  }

  // ----- how a reader uses words -----

  /** Words of the message the reader is collecting, body header included; none once it is reported
      or overrun. */
  function Debt(s: In): nat {
    if |s.got| < Normalize(s.hdr.lo) / 4 then |s.got| + 1 else 0
  }

  lemma StartWeight(s: In)
    requires s.rest != []
    ensures var (more, t) := Start(s);
            && (more ==> Weight(Report(t)) + Debt(t) + |t.rest| <= |s.rest|)
            && (!more ==> Debt(t) == 0)
            && t.counter == s.counter
  {
  }

  lemma {:induction false} DrainWeight(s: In)
    ensures var (t, out) := Drain(s);
            && Weight(out) + Debt(t) <= (if s.rest == [] then Debt(s) else |s.rest|)
            && t.counter == s.counter
    decreases |s.rest|
  {
    if s.rest != [] {
      StartWeight(s);
      var (more, t) := Start(s);
      if more {
        DrainWeight(t);
        WeightConcat(Report(t), Drain(t).1);
      }
    }
  }

  lemma CopyWeight(s: In, k: nat)
    requires s.rest != [] && 0 < k
    ensures var t := Copy(s, k);
            Weight(Report(t)) + Debt(t) + |t.rest| <= Debt(s) + |s.rest| && t.counter == s.counter
  {
    var t := Copy(s, k);
    if Complete(t) {
      WeightOne(Msg(t.hdr.hi, t.hdr.lo, t.got));
    }
  }

  /** One frame, not preceded by loss: what is reported and what is still owed is paid for by the
      words of the frame and by what was owed before. A frame with pointer 0 cancels the old debt. */
  lemma ReceiveWeight(s: In, f: Frame)
    requires 2 <= |f| && !Lost(s, f)
    ensures var (t, out) := Receive(s, f);
            && Weight(out) + Debt(t) <= (if f[0].hi == 0 then 0 else Debt(s)) + |f| - 1
            && t.counter == f[0].lo
  {
    var h := In(f[0].lo, false, s.hdr, s.got, f[1..]);
    if f[0].hi == 0 {
      ReceivePlain(s, f);
      DrainWeight(h);
    } else {
      var k := if f[0].hi == MORE then |h.rest| else Ceil4(f[0].hi);
      CopyWeight(h, k);
      var t := Copy(h, k);
      ReceiveThen(s, f, k, t);
      DrainWeight(t);
      WeightConcat(Report(t), Drain(t).1);
    }
  }

  lemma ReceiveThen(s: In, f: Frame, k: nat, t: In)
    requires 2 <= |f| && !Lost(s, f) && f[0].hi > 0
    requires k == if f[0].hi == MORE then |f| - 1 else Ceil4(f[0].hi)
    requires t == Copy(In(f[0].lo, false, s.hdr, s.got, f[1..]), k)
    ensures Receive(s, f) == (Drain(t).0, Report(t) + Drain(t).1)
  {
    hide Drain, Report;
  }

  lemma StampStep(i: nat, qos: nat, c: u16)
    requires qos < 64 && (i - c) % MAX_COUNTER == 0
    ensures (Stamp(i + 1, qos) - c) % MAX_COUNTER == 1 && (i + 1 - Stamp(i + 1, qos)) % MAX_COUNTER == 0
  {
    StampDistance(i + 1, qos, c);
    StampDistance(i + 1, qos, Stamp(i + 1, qos));
    assert (i + 1 - c) % MAX_COUNTER == 1;
  }

  lemma {:induction false} DecodeWeight(s: In, qos: nat, base: nat, fs: seq<Frame>)
    requires qos < 64 && Stamped(qos, base, fs) && (base - s.counter) % MAX_COUNTER == 0
    ensures AllReadable(fs)
    ensures var (t, out) := Decode(s, fs);
            && Weight(out) + Debt(t) <=
               (if fs != [] && fs[0] != [] && fs[0][0].hi == 0 then 0 else Debt(s)) + Volume(fs)
            && (base + |fs| - t.counter) % MAX_COUNTER == 0
    decreases |fs|
  {
    hide Receive, Stamp, Weight, Debt;
    if fs != [] {
      var f := fs[0];
      assert f[0].lo == Stamp(base + 1, qos);
      StampStep(base, qos, s.counter);
      ReceiveWeight(s, f);
      var (t, out) := Receive(s, f);
      StampedTail(qos, base, fs);
      DecodeWeight(t, qos, base + 1, fs[1..]);
      WeightConcat(out, Decode(t, fs[1..]).1);
      WeightNone();
    } else {
      WeightNone();
    }
  }

  lemma WeightNone()
    ensures Weight([]) == 0
  {
  }

  lemma StampedTail(qos: nat, base: nat, fs: seq<Frame>)
    requires qos < 64 && fs != [] && Stamped(qos, base, fs)
    ensures Stamped(qos, base + 1, fs[1..])
  {
    hide Stamp;
    forall i | 0 <= i < |fs[1..]|
      ensures 2 <= |fs[1..][i]| && fs[1..][i][0].lo == Stamp(base + 1 + i + 1, qos)
    {
      assert fs[1..][i] == fs[i + 1];
      assert base + (i + 1) + 1 == base + 1 + i + 1;
    }
  }
}
