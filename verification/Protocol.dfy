/** The frame protocol as a whole: what a reader makes of a writer's run. */
module Protocol {
  import opened Sequences
  import opened Wire
  import opened Codec
  import opened Sheets
  import opened Layout
  import opened Loss
  import opened Counting

  /** All n frames arrive. */
  function Everything(n: nat): (d: seq<nat>)
    ensures |d| == n && forall i | 0 <= i < n :: d[i] == i
  {
    seq(n, i => i)
  }

  lemma EverythingArrives(cap: nat, qos: nat, shs: seq<Sheet>, fs: seq<Frame>)
    requires 3 <= cap && qos < 64 && AllOk(cap, shs) && AllDefined(shs) && Chained(None, shs)
    requires fs == EncodeAll(cap, qos, 0, shs) && Fits(fs, cap)
    ensures Channel(cap, qos, shs, Everything(|shs|)) && Pick(fs, Everything(|fs|)) == fs
  {
    var d := Everything(|shs|);
    forall i | 0 <= i < |shs|
      ensures |Encode(cap, qos, i, shs[i])| <= cap
    {
      EncodeAllAt(cap, qos, 0, shs, i);
    }
    hide Encode, EncodeAll, AllOk, Chained;
    assert forall t | 0 <= t < |d| :: Near(d, t);
  }

  lemma EverythingArrived(shs: seq<Sheet>, i: nat)
    requires i < |shs|
    ensures ArrivedTo(shs, Everything(|shs|), i)
  {
    var d := Everything(|shs|);
    forall j | First(shs, i) <= j <= i
      ensures j in d
    {
      assert d[j] == j;
    }
  }

  lemma {:induction false} EverythingExpected(cap: nat, qos: nat, shs: seq<Sheet>, t: nat)
    requires t <= |shs| && Chained(None, shs)
    ensures Expected(shs, Everything(|shs|), t) == AllDone(shs[..t])
  {
    hide ArrivedTo, Chained, Everything, AllDone, Genuine, Sheet.Done;
    var d := Everything(|shs|);
    if t > 0 {
      EverythingArrived(shs, t - 1);
      GenuineIs(shs, d, t - 1);
      EverythingExpected(cap, qos, shs, t - 1);
      assert shs[..t] == shs[..t - 1] + [shs[t - 1]];
      AllDoneConcat(shs[..t - 1], [shs[t - 1]]);
      AllDoneOne(shs[t - 1]);
    } else {
      AllDoneNone();
    }
  }

  lemma AllDoneNone()
    ensures AllDone([]) == []
  {
  }

  lemma EverythingSound(first: Word, shs: seq<Sheet>)
    ensures Sound(first, shs, Everything(|shs|), |shs|)
  {
    hide ArrivedTo, Everything, Joined, Header;
    var d := Everything(|shs|);
    forall u | 0 <= u < |shs|
      ensures !Spurious(first, shs, d, u)
    {
      EverythingArrived(shs, u);
    }
  }

  /** A chain of frames that all arrive is decoded to the messages it carries. */
  lemma DecodeChain(s: In, cap: nat, qos: nat, shs: seq<Sheet>, fs: seq<Frame>)
    requires 3 <= cap && qos < 64 && AllOk(cap, shs) && AllDefined(shs) && Chained(None, shs)
    requires fs == EncodeAll(cap, qos, 0, shs) && Fits(fs, cap) && Fresh(s)
    ensures AllReadable(fs) && Decode(s, fs).1 == AllDone(shs)
    ensures Channel(cap, qos, shs, Everything(|shs|))
    ensures Decode(s, fs).0 == StateAt(s, cap, qos, shs, Everything(|shs|), |shs|)
  {
    hide *;
    var d := Everything(|shs|);
    EverythingArrives(cap, qos, shs, fs);
    DecodeArrivals(s, cap, qos, shs, d, |d|, fs);
    assert fs[..|fs|] == fs && shs[..|shs|] == shs;
    ReportsExact(s, cap, qos, shs, d, |d|);
    EverythingSound(s.hdr, shs);
    EverythingExpected(cap, qos, shs, |shs|);
  }

  /** The round trip, for runs in which no message is written with exactly one word free. */
  lemma RoundTrip(s: In, cap: nat, qos: nat, ops: seq<Op>)
    requires 3 <= cap && qos < 64 && Sendable(ops) && Fresh(s) && Roomy(cap, qos, ops)
    ensures AllReadable(Exec(cap, qos, ops).Stream())
    ensures Decode(s, Exec(cap, qos, ops).Stream()).1 == Sends(ops)
  {
    hide *;
    var shs := RunLays(cap, qos, ops);
    var r := Exec(cap, qos, ops);
    LaidElim(cap, qos, r, shs, Sends(ops));
    StreamIs(r);
    DecodeChain(s, cap, qos, shs, r.Stream());
  }

  lemma StreamIs(r: Run)
    ensures r.Stream() == r.sent + r.out.abuf
  {
  }

  // ----- a run that is not roomy loses a message -----

  lemma {:induction false} FirstTight(cap: nat, qos: nat, ops: seq<Op>) returns (k: nat)
    requires 3 <= cap && qos < 64 && Sendable(ops) && !Roomy(cap, qos, ops)
    ensures k < |ops| && Sendable(ops[..k]) && Roomy(cap, qos, ops[..k]) && ops[k].Send?
    ensures Tight(cap, Exec(cap, qos, ops[..k]).out)
  {
    var init := ops[..|ops| - 1];
    if Roomy(cap, qos, init) {
      k := |ops| - 1;
    } else {
      k := FirstTight(cap, qos, init);
      assert init[..k] == ops[..k];
    }
  }

  /** The chain whose last frame is filled up by a body header. */
  lemma TightChain(s: In, cap: nat, qos: nat, r: Run, shs: seq<Sheet>, msgs: seq<Msg>, m: Msg, fs: seq<Frame>)
    requires 3 <= cap && qos < 64 && Laid(cap, qos, r, shs, msgs) && Tight(cap, r.out) && m.Valid() && Fresh(s)
    requires fs == r.sent + r.out.abuf[..|r.out.abuf| - 1] + [Last(r.out.abuf) + [m.Body()]]
    ensures fs != [] && fs[0] != [] && fs[0][0].hi == 0
    ensures AllReadable(fs) && Debt(Decode(s, fs).0) == 1
  {
    hide *;
    TightIs(cap, r.out);
    var chain := TightLaid(cap, qos, r, shs, msgs, m, fs);
    DecodeChain(s, cap, qos, chain, fs);
    var d := Everything(|chain|);
    TracksAt(s, cap, qos, chain, d, |chain|);
    var u := StateAt(s, cap, qos, chain, d, |chain|);
    TightDebt(u, chain, d, m);
    ChainStart(cap, qos, chain, fs);
  }

  lemma TightDebt(u: In, chain: seq<Sheet>, d: seq<nat>, m: Msg)
    requires chain != [] && m.Valid() && Last(chain).open == Some(Part(m, 0, 0))
    requires |d| == |chain| && forall i | 0 <= i < |d| :: d[i] == i
    requires Tracks(u, chain, Before(d, |d|), HeldAfter(chain, d, |d|))
    ensures Debt(u) == 1
  {
  }

  lemma ChainStart(cap: nat, qos: nat, chain: seq<Sheet>, fs: seq<Frame>)
    requires qos < 64 && AllDefined(chain) && Chained(None, chain) && chain != [] && fs == EncodeAll(cap, qos, 0, chain)
    ensures fs != [] && fs[0] != [] && fs[0][0].hi == 0
  {
    assert Continues(LeftAt(None, chain, 0), chain[0]);
  }

  lemma TightLaid(cap: nat, qos: nat, r: Run, shs: seq<Sheet>, msgs: seq<Msg>, m: Msg, fs: seq<Frame>)
    returns (chain: seq<Sheet>)
    requires 3 <= cap && qos < 64 && Laid(cap, qos, r, shs, msgs) && m.Valid()
    requires r.out.abuf != [] && |Last(r.out.abuf)| == cap - 1
    requires fs == r.sent + r.out.abuf[..|r.out.abuf| - 1] + [Last(r.out.abuf) + [m.Body()]]
    ensures chain != [] && Last(chain).open == Some(Part(m, 0, 0))
    ensures AllOk(cap, chain) && AllDefined(chain) && Chained(None, chain)
    ensures fs == EncodeAll(cap, qos, 0, chain) && Fits(fs, cap)
  {
    hide *;
    LaidElim(cap, qos, r, shs, msgs);
    LastSheet(cap, qos, r, shs, msgs);
    var pre, t := shs[..|shs| - 1], Last(shs);
    var t' := t.(open := Some(Part(m, 0, 0)));
    TightSheet(cap, qos, |pre|, t, m);
    ChainAdd(cap, pre, t, t');
    chain := pre + [t'];
    LastOf(pre, t');
    EncodeAllConcat(cap, qos, 0, pre, [t']);
    EncodeAllOne(cap, qos, |pre|, t');
    var front := r.out.abuf[..|r.out.abuf| - 1];
    assert r.sent + r.out.abuf == r.sent + front + [r.out.abuf[|r.out.abuf| - 1]];
    FitsConcat(r.sent + front, [r.out.abuf[|r.out.abuf| - 1]], cap);
    FitsConcat(r.sent + front, [Last(r.out.abuf) + [m.Body()]], cap);
    FitsOne(Last(r.out.abuf) + [m.Body()], cap);
  }

  lemma FitsOne(f: Frame, cap: nat)
    requires 1 <= |f| <= cap
    ensures Fits([f], cap)
  {
  }

  lemma EncodeAllOne(cap: nat, qos: nat, k: nat, t: Sheet)
    requires qos < 64 && t.Defined()
    ensures AllDefined([t]) && EncodeAll(cap, qos, 0 + k, [t]) == [Encode(cap, qos, k, t)]
  {
    hide Encode;
  }

  lemma TightSheet(cap: nat, qos: nat, k: nat, t: Sheet, m: Msg)
    requires 3 <= cap && qos < 64 && Finished(t) && t.Ok(cap) && t.Defined() && m.Valid()
    requires |Encode(cap, qos, k, t)| == cap - 1
    ensures var t' := t.(open := Some(Part(m, 0, 0)));
            && t'.Ok(cap) && t'.Defined() && t'.cont == t.cont
            && Encode(cap, qos, k, t') == Encode(cap, qos, k, t) + [m.Body()]
  {
    MsgSize(m);
    FilledOpen(cap, t, 0, m);
    var t' := t.(open := Some(Part(m, 0, 0)));
    assert t' == Filled(t, 0, m);
    assert t'.Payload() == t.Payload() + [m.Body()];
    hide Flat;
    assert t.cont.Some? ==> |t.Payload()| >= t.cont.value.n;
  }

  lemma ChainAdd(cap: nat, pre: seq<Sheet>, t: Sheet, t': Sheet)
    requires AllOk(cap, pre) && Chained(None, pre) && Continues(LeftAt(None, pre, |pre|), t)
    requires t'.Ok(cap) && t'.cont == t.cont && t'.Defined()
    ensures AllOk(cap, pre + [t']) && Chained(None, pre + [t']) && AllDefined(pre + [t']) && AllDefined([t'])
            && AllDefined(pre)
  {
    hide Sheet.Ok;
    assert Chained(LeftAt(None, pre, |pre|), [t']);
    ChainedConcat(None, pre, [t']);
    AllOkDefined(cap, pre);
  }

  lemma AllOkDefined(cap: nat, shs: seq<Sheet>)
    requires AllOk(cap, shs)
    ensures AllDefined(shs)
  {
  }

  /** A run that writes a message with one word free does not come back whole. */
  lemma TightFails(s: In, cap: nat, qos: nat, ops: seq<Op>)
    requires 3 <= cap && qos < 64 && Sendable(ops) && Fresh(s) && !Roomy(cap, qos, ops)
    ensures AllReadable(Exec(cap, qos, ops).Stream())
    ensures Decode(s, Exec(cap, qos, ops).Stream()).1 != Sends(ops)
  {
    hide *;
    var fs := Exec(cap, qos, ops).Stream();
    var c := TightPlace(s, cap, qos, ops);
    RunShaped(cap, qos, ops);
    ShapedElim(cap, qos, Exec(cap, qos, ops), Weight(Sends(ops)));
    StampedSplit(qos, fs, c);
    FreshCounts(s);
    DecodeWeight(s, qos, 0, fs[..c]);
    DecodeWeight(Decode(s, fs[..c]).0, qos, c, fs[c..]);
    assert fs[..c] + fs[c..] == fs;
    DecodeConcat(s, fs[..c], fs[c..]);
    VolumeConcat(fs[..c], fs[c..]);
    WeightConcat(Decode(s, fs[..c]).1, Decode(Decode(s, fs[..c]).0, fs[c..]).1);
  }

  lemma FreshCounts(s: In)
    requires Fresh(s)
    ensures (0 - s.counter) % MAX_COUNTER == 0
  {
  }

  lemma ShapedElim(cap: nat, qos: nat, r: Run, weight: nat)
    requires qos < 64 && Shaped(cap, qos, r, weight)
    ensures Stamped(qos, 0, r.Stream()) && Volume(r.Stream()) == weight && Fits(r.Stream(), cap)
    ensures r.out.counter == Ticks(|r.Stream()|) && r.Stream() == r.sent + r.out.abuf
  {
  }

  lemma StampedSplit(qos: nat, fs: seq<Frame>, c: nat)
    requires qos < 64 && c <= |fs| && Stamped(qos, 0, fs)
    ensures Stamped(qos, 0, fs[..c]) && Stamped(qos, c, fs[c..])
  {
    hide Stamp;
    forall i | 0 <= i < |fs[c..]|
      ensures 2 <= |fs[c..][i]| && fs[c..][i][0].lo == Stamp(c + i + 1, qos)
    {
      assert fs[c..][i] == fs[c + i];
      assert 0 + (c + i) + 1 == c + i + 1;
    }
  }

  /** Where the run first writes with one free word: the reader holds a bare body header after frame
      c - 1, and frame c does not continue it. */
  lemma TightPlace(s: In, cap: nat, qos: nat, ops: seq<Op>) returns (c: nat)
    requires 3 <= cap && qos < 64 && Sendable(ops) && Fresh(s) && !Roomy(cap, qos, ops)
    ensures var fs := Exec(cap, qos, ops).Stream();
            && 0 < c < |fs| && AllReadable(fs[..c])
            && fs[0] != [] && fs[0][0].hi == 0 && fs[c] != [] && fs[c][0].hi == 0
            && Debt(Decode(s, fs[..c]).0) == 1
  {
    hide *;
    var k := FirstTight(cap, qos, ops);
    var before, after := ops[..k], ops[..k + 1];
    var m := ops[k].m;
    SendableParts(ops, k);
    var r0, r1 := Exec(cap, qos, before), Exec(cap, qos, after);
    ExecSend(cap, qos, ops, k);
    var shs := RunLays(cap, qos, before);
    TightIs(cap, r0.out);
    var p := r0.sent + r0.out.abuf[..|r0.out.abuf| - 1] + [Last(r0.out.abuf) + [m.Body()]];
    TightChain(s, cap, qos, r0, shs, Sends(before), m, p);
    RunShaped(cap, qos, before);
    ShapedElim(cap, qos, r0, Weight(Sends(before)));
    c := |r0.Stream()|;
    TightWrite(cap, qos, r0.out, m, c);
    WriteGrows(cap, qos, r0.out, m, c);
    StreamIs(r1);
    var w := Write(cap, qos, r0.out, m);
    TightFront(qos, c, r0, w, Last(r0.out.abuf) + [m.Body()], p);
    RunGrows(cap, qos, ops, k + 1);
    TightKeeps(qos, r1.Stream(), Exec(cap, qos, ops).Stream(), c);
    var fs := Exec(cap, qos, ops).Stream();
    assert fs[..c] == p;
    assert fs[0] == p[0];
  }

  lemma SendableParts(ops: seq<Op>, k: nat)
    requires Sendable(ops) && k < |ops|
    ensures Sendable(ops[..k]) && Sendable(ops[..k + 1]) && (ops[k].Send? ==> ops[k].m.Valid())
  {
  }

  lemma ExecSend(cap: nat, qos: nat, ops: seq<Op>, k: nat)
    requires 3 <= cap && qos < 64 && Sendable(ops) && k < |ops| && ops[k].Send?
    requires Sendable(ops[..k]) && Sendable(ops[..k + 1]) && ops[k].m.Valid()
    ensures var r := Exec(cap, qos, ops[..k]);
            Exec(cap, qos, ops[..k + 1]) == Run(Write(cap, qos, r.out, ops[k].m), r.sent)
  {
    assert ops[..k + 1][..k] == ops[..k];
    hide Write;
  }

  lemma TightFront(qos: nat, c: nat, r0: Run, w: Out, f: Frame, p: seq<Frame>)
    requires qos < 64 && r0.out.abuf != [] && c == |r0.sent| + |r0.out.abuf|
    requires Grown(qos, c, r0.out.abuf, w.abuf) && |r0.out.abuf| < |w.abuf| && w.abuf[|r0.out.abuf| - 1] == f
    requires p == r0.sent + r0.out.abuf[..|r0.out.abuf| - 1] + [f]
    ensures (r0.sent + w.abuf)[..c] == p && c < |r0.sent + w.abuf| && (r0.sent + w.abuf)[c] == w.abuf[|r0.out.abuf|]
    ensures |p| == c
  {
    hide Stamp;
  }

  lemma TightKeeps(qos: nat, a: seq<Frame>, b: seq<Frame>, c: nat)
    requires qos < 64 && Grown(qos, |a|, a, b) && c < |a| && a[c] != []
    ensures |a| <= |b| && b[..c] == a[..c] && b[c] != [] && b[c][0] == a[c][0]
  {
    hide Stamp;
    assert a[c] <= b[c];
  }

  /** Among messages of length 1 to MAX_LEN the round trip holds exactly for the runs in which no message is
      written with exactly one word free in the last frame. */
  lemma RoomyIff(s: In, cap: nat, qos: nat, ops: seq<Op>)
    requires 3 <= cap && qos < 64 && Sendable(ops) && Fresh(s)
    ensures AllReadable(Exec(cap, qos, ops).Stream())
    ensures Decode(s, Exec(cap, qos, ops).Stream()).1 == Sends(ops) <==> Roomy(cap, qos, ops)
  {
    hide *;
    if Roomy(cap, qos, ops) {
      RoundTrip(s, cap, qos, ops);
    } else {
      TightFails(s, cap, qos, ops);
    }
  }

  // ----- messages of any length -----

  /** Behind every frame header there is a word. */
  ghost predicate Wide(fs: seq<Frame>) {
    forall i | 0 <= i < |fs| :: 2 <= |fs[i]|
  }

  lemma WideReadable(fs: seq<Frame>)
    requires Wide(fs)
    ensures AllReadable(fs)
  {
  }

  lemma HeadedWide(cap: nat, qos: nat, o: Out, body: Word)
    requires 2 <= cap && qos < 64 && Fits(o.abuf, cap) && Wide(o.abuf)
    ensures Wide(Headed(cap, qos, o, body).abuf)
  {
    hide Stamp;
  }

  lemma {:induction false} SpillWide(cap: nat, qos: nat, o: Out, rem: seq<Word>, started: bool)
    requires 2 <= cap && qos < 64 && |rem| < 16384 && o.abuf != [] && Fits(o.abuf, cap) && Wide(o.abuf)
    ensures Wide(Spill(cap, qos, o, rem, started).abuf)
    decreases |rem|
  {
    hide Stamp;
    if rem != [] {
      var p := if |Last(o.abuf)| == cap then Open(o, qos, Pointer(cap, |rem|, started)) else o;
      var n := Least(|rem|, cap - |Last(p.abuf)|);
      SpillWide(cap, qos, p.(abuf := AppendLast(p.abuf, rem[..n])), rem[n..], true);
    }
  }

  lemma WriteWide(cap: nat, qos: nat, o: Out, m: Msg)
    requires 2 <= cap && qos < 64 && m.Padded() && Fits(o.abuf, cap) && Wide(o.abuf)
    ensures Wide(Write(cap, qos, o, m).abuf)
  {
    HeadedWide(cap, qos, o, m.Body());
    SpillWide(cap, qos, Headed(cap, qos, o, m.Body()), m.data[..Normalize(m.len) / 4], false);
    hide Headed, Spill;
  }

  lemma {:induction false} ExecWide(cap: nat, qos: nat, ops: seq<Op>)
    requires 3 <= cap && qos < 64 && Written(ops)
    ensures Wide(Exec(cap, qos, ops).sent) && Wide(Exec(cap, qos, ops).out.abuf)
  {
    if ops != [] {
      var init := ops[..|ops| - 1];
      ExecWide(cap, qos, init);
      var r := Exec(cap, qos, init);
      if Last(ops).Send? {
        WriteWide(cap, qos, r.out, Last(ops).m);
      }
      hide Write;
    }
  }

  /** What a reader can report: a positive length, and as many words as the length rounds to. */
  predicate Reportable(m: Msg) {
    m.len > 0 && 4 * |m.data| == Normalize(m.len)
  }

  ghost predicate AllReportable(ms: seq<Msg>) {
    forall i | 0 <= i < |ms| :: Reportable(ms[i])
  }

  lemma {:induction false} DrainReports(s: In)
    ensures AllReportable(Drain(s).1)
    decreases |s.rest|
  {
    if s.rest != [] && Start(s).0 {
      DrainReports(Start(s).1);
    }
  }

  lemma ReceiveReports(s: In, f: Frame)
    requires 2 <= |f|
    ensures AllReportable(Receive(s, f).1)
  {
    var (more, t) := Head(s, f);
    if more {
      DrainReports(t);
      assert AllReportable(Report(t));
    }
    hide Head, Drain, Report;
  }

  lemma {:induction false} DecodeReports(s: In, fs: seq<Frame>)
    requires Wide(fs)
    ensures AllReadable(fs) && AllReportable(Decode(s, fs).1)
    decreases |fs|
  {
    hide Receive, Reportable;
    WideReadable(fs);
    if fs != [] {
      ReceiveReports(s, fs[0]);
      DecodeReports(Receive(s, fs[0]).0, fs[1..]);
    }
  }

  /** Only messages of length 1 to MAX_LEN can be reported as they were written. */
  lemma ReportableIff(m: Msg)
    requires m.Padded()
    ensures Reportable(m) <==> m.Valid()
  {
    NormalizeKeeps(m.len);
  }

  lemma {:induction false} SendsHas(ops: seq<Op>, i: nat)
    requires i < |ops| && ops[i].Send?
    ensures ops[i].m in Sends(ops)
    decreases |ops|
  {
    if i < |ops| - 1 {
      SendsHas(ops[..|ops| - 1], i);
    }
  }

  /** The round trip over messages of all lengths: it holds exactly if every length is from 1 to MAX_LEN and
      no message is written with exactly one word free in the last frame. */
  lemma RoundTripIff(s: In, cap: nat, qos: nat, ops: seq<Op>)
    requires 3 <= cap && qos < 64 && Written(ops) && Fresh(s)
    ensures AllReadable(Exec(cap, qos, ops).Stream())
    ensures Decode(s, Exec(cap, qos, ops).Stream()).1 == Sends(ops) <==> Sendable(ops) && Roomy(cap, qos, ops)
  {
    ExecWide(cap, qos, ops);
    var fs := Exec(cap, qos, ops).Stream();
    assert Wide(fs);
    DecodeReports(s, fs);
    if Sendable(ops) {
      RoomyIff(s, cap, qos, ops);
    } else {
      var i :| 0 <= i < |ops| && ops[i].Send? && !ops[i].m.Valid();
      ReportableIff(ops[i].m);
      SendsHas(ops, i);
    }
    hide Exec, Decode, Sends, Roomy, Reportable;
  }

  /** Frames that have left the writer early decode to a prefix of what is sent. */
  lemma SentPrefix(s: In, cap: nat, qos: nat, ops: seq<Op>)
    requires 3 <= cap && qos < 64 && Sendable(ops) && Fresh(s) && Roomy(cap, qos, ops)
    ensures AllReadable(Exec(cap, qos, ops).sent)
    ensures Decode(s, Exec(cap, qos, ops).sent).1 <= Sends(ops)
  {
    hide *;
    var r := Exec(cap, qos, ops);
    RoundTrip(s, cap, qos, ops);
    StreamIs(r);
    ReadableParts(r.sent, r.out.abuf);
    DecodeConcat(s, r.sent, r.out.abuf);
  }

  /** Once as many frames are flushed as the writer held, what has left it decodes to all that was sent. */
  lemma SentWhole(s: In, cap: nat, qos: nat, ops: seq<Op>)
    requires 3 <= cap && qos < 64 && Sendable(ops) && Fresh(s) && Roomy(cap, qos, ops)
    ensures var t := Exec(cap, qos, ops + Flushes(|Exec(cap, qos, ops).out.abuf|));
            t.out.abuf == [] && AllReadable(t.sent) && Decode(s, t.sent).1 == Sends(ops)
  {
    hide *;
    var r := Exec(cap, qos, ops);
    FlushesSend(cap, qos, ops, |r.out.abuf|);
    var t := Exec(cap, qos, ops + Flushes(|r.out.abuf|));
    LeastSame(|r.out.abuf|);
    StreamIs(t);
    assert t.sent + [] == t.sent;
    RoundTrip(s, cap, qos, ops);
  }

  lemma LeastSame(n: nat)
    ensures Least(n, n) == n
  {
  }

  lemma ReadableParts(a: seq<Frame>, b: seq<Frame>)
    requires AllReadable(a + b)
    ensures AllReadable(a) && AllReadable(b)
  {
    assert forall i | 0 <= i < |a| :: (a + b)[i] == a[i];
    assert forall i | 0 <= i < |b| :: (a + b)[|a| + i] == b[i];
  }

  /** A message of length 0 stops the reader: of the words of a frame, in any state of the reader, the
      messages in front of it come out, and nothing of what is behind it. */
  lemma {:induction false} ZeroStops(s: In, whole: seq<Msg>, z: Msg, tail: seq<Word>)
    requires forall i | 0 <= i < |whole| :: whole[i].Valid()
    requires z.len == 0 && s.rest == Flat(whole) + ([z.Body()] + tail)
    ensures Drain(s).1 == whole
    decreases |whole|
  {
    if whole != [] {
      var m, more := whole[0], Flat(whole[1..]) + ([z.Body()] + tail);
      Assoc(m.Words(), Flat(whole[1..]), [z.Body()] + tail);
      DrainWhole(s, m, more);
      ZeroStops(s.(hdr := m.Body(), got := m.data, rest := more), whole[1..], z, tail);
      assert [m] + whole[1..] == whole;
    } else {
      assert s.rest[0] == z.Body();
    }
  }

  // ----- loss -----

  /** Resynchronisation. Of a roomy run let any frames be lost, fewer than 1023 in a row. Each frame
      that arrives brings the messages it finishes, provided all of their frames arrived, and at most
      one report besides. Nothing but those messages comes out exactly when no frame of a broken
      message brings the words held to the number that the last header announces; both numbers are
      read off the layout and the delivery. */
  lemma Resync(s: In, cap: nat, qos: nat, ops: seq<Op>, d: seq<nat>) returns (shs: seq<Sheet>)
    requires 3 <= cap && qos < 64 && Sendable(ops) && Fresh(s) && Roomy(cap, qos, ops)
    requires Delivery(d, |Exec(cap, qos, ops).Stream()|)
    ensures var fs := Exec(cap, qos, ops).Stream();
            && Laid(cap, qos, Exec(cap, qos, ops), shs, Sends(ops)) && Channel(cap, qos, shs, d) && |shs| == |fs|
            && (forall t | 0 <= t < |d| :: d[t] < |fs|) && AllReadable(Pick(fs, d))
            && Decode(s, Pick(fs, d)).1 == Reports(s, cap, qos, shs, d, |d|)
            && (Decode(s, Pick(fs, d)).1 == Expected(shs, d, |d|) <==> Sound(s.hdr, shs, d, |d|))
    ensures forall t | 0 <= t < |d| ::
              Reports(s, cap, qos, shs, d, t + 1) ==
              Reports(s, cap, qos, shs, d, t) + (Extra(s.hdr, shs, d, t) + Genuine(shs, d, t))
  {
    hide *;
    shs := RunLays(cap, qos, ops);
    var r, fs := Exec(cap, qos, ops), Exec(cap, qos, ops).Stream();
    LaidElim(cap, qos, r, shs, Sends(ops));
    StreamIs(r);
    ChannelIntro(cap, qos, shs, d, fs);
    DecodeArrivals(s, cap, qos, shs, d, |d|, fs);
    assert Pick(fs, d)[..|d|] == Pick(fs, d);
    ReportsExact(s, cap, qos, shs, d, |d|);
    forall t | 0 <= t < |d|
      ensures Reports(s, cap, qos, shs, d, t + 1) ==
              Reports(s, cap, qos, shs, d, t) + (Extra(s.hdr, shs, d, t) + Genuine(shs, d, t))
    {
      Arrival(cap, qos, shs, d, t);
      ReportsStep(s, cap, qos, shs, d, t);
      ArrivalReports(s, cap, qos, shs, d, t);
    }
  }

  /** What is reported stays reported. */
  lemma {:induction false} ReportsKeep(s: In, cap: nat, qos: nat, shs: seq<Sheet>, d: seq<nat>, t: nat, u: nat)
    requires Channel(cap, qos, shs, d) && t <= u <= |d|
    ensures Reports(s, cap, qos, shs, d, t) <= Reports(s, cap, qos, shs, d, u)
    decreases u
  {
    hide *;
    if t < u {
      ReportsKeep(s, cap, qos, shs, d, t, u - 1);
      Arrival(cap, qos, shs, d, u - 1);
      ReportsStep(s, cap, qos, shs, d, u - 1);
    }
  }

  lemma GenuineIs(shs: seq<Sheet>, d: seq<nat>, t: nat)
    requires t < |d| && d[t] < |shs| && ArrivedTo(shs, d, d[t])
    ensures Genuine(shs, d, t) == shs[d[t]].Done()
  {
  }

  /** A message all of whose frames arrive, or that lies inside a frame that arrives, is reported with its
      own words, whatever was lost around it and whatever the reader was in the middle of. */
  lemma Recovered(s: In, cap: nat, qos: nat, ops: seq<Op>, d: seq<nat>, shs: seq<Sheet>, t: nat, m: Msg)
    requires 3 <= cap && qos < 64 && Sendable(ops) && Fresh(s) && Roomy(cap, qos, ops)
    requires Laid(cap, qos, Exec(cap, qos, ops), shs, Sends(ops)) && Delivery(d, |shs|)
    requires t < |d| && d[t] < |shs| && m in Genuine(shs, d, t)
    ensures var fs := Exec(cap, qos, ops).Stream();
            && (forall u | 0 <= u < |d| :: d[u] < |fs|) && AllReadable(Pick(fs, d))
            && m in Decode(s, Pick(fs, d)).1
  {
    hide *;
    var r, fs := Exec(cap, qos, ops), Exec(cap, qos, ops).Stream();
    LaidElim(cap, qos, r, shs, Sends(ops));
    StreamIs(r);
    ChannelIntro(cap, qos, shs, d, fs);
    DecodeArrivals(s, cap, qos, shs, d, |d|, fs);
    assert Pick(fs, d)[..|d|] == Pick(fs, d);
    Arrival(cap, qos, shs, d, t);
    ReportsStep(s, cap, qos, shs, d, t);
    ArrivalReports(s, cap, qos, shs, d, t);
    ReportsKeep(s, cap, qos, shs, d, t + 1, |d|);
    InPrefix(Reports(s, cap, qos, shs, d, t), Extra(s.hdr, shs, d, t), Genuine(shs, d, t),
             Reports(s, cap, qos, shs, d, |d|), m);
  }

  lemma InPrefix(a: seq<Msg>, b: seq<Msg>, c: seq<Msg>, w: seq<Msg>, m: Msg)
    requires m in c && a + (b + c) <= w
    ensures m in w
  {
    var i :| 0 <= i < |c| && c[i] == m;
    assert (a + (b + c))[|a| + |b| + i] == m;
  }

  lemma ChannelIntro(cap: nat, qos: nat, shs: seq<Sheet>, d: seq<nat>, fs: seq<Frame>)
    requires 3 <= cap && qos < 64 && AllOk(cap, shs) && AllDefined(shs) && Chained(None, shs) && Delivery(d, |shs|)
    requires fs == EncodeAll(cap, qos, 0, shs) && Fits(fs, cap)
    ensures Channel(cap, qos, shs, d) && forall t | 0 <= t < |d| :: d[t] < |shs|
  {
    forall i | 0 <= i < |shs|
      ensures |Encode(cap, qos, i, shs[i])| <= cap
    {
      EncodeAllAt(cap, qos, 0, shs, i);
    }
    hide Encode, EncodeAll, AllOk, Chained, Near;
  }

  /** A message that was never sent can come out: the frame that begins b is lost, and the rest of b
      is reported under the header of a. */
  lemma StaleHeader(s: In, a: Msg, b: Msg)
    requires Fresh(s) && a.Valid() && b.Valid() && |a.data| == 2 && |b.data| == 4
    ensures var ops := [Send(a), Send(b)];
            var fs := Exec(4, 0, ops).Stream();
            && Roomy(4, 0, ops) && |fs| == 3 && Delivery([0, 2], 3) && AllReadable([fs[0], fs[2]])
            && Decode(s, [fs[0], fs[2]]).1 == [a, Msg(a.spec, a.len, b.data[2..])]
  {
    hide *;
    var ops, d := [Send(a), Send(b)], [0, 2];
    StaleRun(a, b);
    var shs, r := StaleSheets(a, b), Exec(4, 0, ops);
    var fs := r.Stream();
    StreamIs(r);
    LaidElim(4, 0, r, shs, [a, b]);
    assert |shs| == 3 && |EncodeAll(4, 0, 0, shs)| == |shs| by {
      StaleReports(s, a, b);
    }
    StaleDelivery();
    ChannelIntro(4, 0, shs, d, fs);
    DecodeArrivals(s, 4, 0, shs, d, 2, fs);
    assert Pick(fs, d)[..2] == [fs[0], fs[2]];
    Arrival(4, 0, shs, d, 0);
    Arrival(4, 0, shs, d, 1);
    ReportsStep(s, 4, 0, shs, d, 0);
    ReportsStep(s, 4, 0, shs, d, 1);
    StateStep(s, 4, 0, shs, d, 0);
    ExactStart(s, 4, 0, shs, d);
    StaleReports(s, a, b);
    assert [] + [a] + [Msg(a.spec, a.len, b.data[2..])] == [a, Msg(a.spec, a.len, b.data[2..])];
  }

  /** The layout of the run: a fills a frame, b begins in a second and ends in a third. */
  ghost function StaleSheets(a: Msg, b: Msg): seq<Sheet> {
    [Sheet(None, [a], None), Sheet(None, [], Some(Part(b, 0, 2))), Sheet(Some(Part(b, 2, 2)), [], None)]
  }

  lemma StaleDelivery()
    ensures Delivery([0, 2], 3)
  {
    assert Near([0, 2], 0) && Near([0, 2], 1);
  }

  lemma StaleReports(s: In, a: Msg, b: Msg)
    requires Fresh(s) && a.Valid() && b.Valid() && |a.data| == 2 && |b.data| == 4
    ensures var shs := StaleSheets(a, b);
            && |shs| == 3 && shs[0].Ok(4) && shs[2].Ok(4)
            && ReadSheet(s, 4, 0, 0, shs[0]).1 == [a]
            && ReadSheet(ReadSheet(s, 4, 0, 0, shs[0]).0, 4, 0, 2, shs[2]).1 == [Msg(a.spec, a.len, b.data[2..])]
  {
    var t := ReadSheet(s, 4, 0, 0, Sheet(None, [a], None)).0;
    assert t == In(1, (0 + 1 - s.counter) % 1024 > 1, a.Body(), a.data, []);
    var c := AfterCont(t, 4, 0, 2, Sheet(Some(Part(b, 2, 2)), [], None));
    assert c.got == b.data[2..];
    assert Report(c) + [] == Report(c);
  }

  lemma StaleRun(a: Msg, b: Msg)
    requires a.Valid() && b.Valid() && |a.data| == 2 && |b.data| == 4
    ensures var ops := [Send(a), Send(b)];
            && Sendable(ops) && Roomy(4, 0, ops)
            && Laid(4, 0, Exec(4, 0, ops), StaleSheets(a, b), [a, b])
  {
    hide *;
    var ops := [Send(a), Send(b)];
    StaleExec(a, b);
    WriteNewFrame(4, 0, IDLE, [], [], a);
    StaleEntered(a, b);
    var r := Exec(4, 0, [Send(a)]);
    var s0 := [] + Entered(4, BLANK, 2, a);
    assert [] + [a] == [a] && s0 == [Sheet(None, [a], None)];
    StaleFull(r, a);
    LaidElim(4, 0, r, s0, [a]);
    WriteNewFrame(4, 0, r, s0, [a], b);
    assert s0 + Entered(4, BLANK, 2, b) == StaleSheets(a, b);
    assert [a] + [b] == [a, b];
    StaleRoomy(a, b, r);
  }

  lemma StaleExec(a: Msg, b: Msg)
    requires a.Valid() && b.Valid()
    ensures Sendable([]) && Sendable([Send(a)]) && Sendable([Send(a), Send(b)])
    ensures Fits(IDLE.out.abuf, 4) && Laid(4, 0, IDLE, [], []) && IDLE.out.abuf == []
    ensures Exec(4, 0, [Send(a)]) == Step(4, 0, IDLE, Send(a))
    ensures Exec(4, 0, [Send(a), Send(b)]) == Step(4, 0, Exec(4, 0, [Send(a)]), Send(b))
  {
    hide Step;
    assert [Send(a)][..0] == [] && [Send(a), Send(b)][..1] == [Send(a)];
  }

  lemma StaleEntered(a: Msg, b: Msg)
    requires a.Valid() && b.Valid() && |a.data| == 2 && |b.data| == 4
    ensures Entered(4, BLANK, 2, a) == [Sheet(None, [a], None)]
    ensures [Sheet(None, [a], None)] + Entered(4, BLANK, 2, b) == StaleSheets(a, b)
  {
    assert [] + [a] == [a];
    var c := Sheet(Some(Part(b, 2, 2)), [], None);
    assert Tail(4, b, 2) == [c] + Tail(4, b, 4);
  }

  lemma StaleFull(r: Run, a: Msg)
    requires a.Valid() && |a.data| == 2 && Laid(4, 0, r, [Sheet(None, [a], None)], [a])
    ensures r.out.abuf == [] || |Last(r.out.abuf)| == 4
  {
    var sh := Sheet(None, [a], None);
    EncodeAllOne(4, 0, 0, sh);
    assert sh.Payload() == a.Words() by {
      assert Flat([a]) == a.Words() by {
        assert [a][1..] == [] && a.Words() + Flat([]) == a.Words();
      }
      assert [] + a.Words() + [] == a.Words();
    }
    hide EncodeAll, AllDone, Chained;
    assert |Encode(4, 0, 0, sh)| == 4;
    assert r.Stream() == [Encode(4, 0, 0, sh)];
    assert r.out.abuf != [] ==> Last(r.out.abuf) == Last(r.Stream());
  }

  lemma StaleRoomy(a: Msg, b: Msg, r: Run)
    requires a.Valid() && b.Valid() && r == Exec(4, 0, [Send(a)])
    requires r.out.abuf == [] || |Last(r.out.abuf)| == 4
    ensures Sendable([Send(a), Send(b)]) && Roomy(4, 0, [Send(a), Send(b)])
  {
    hide Step;
    assert [Send(a)][..0] == [] && [Send(a), Send(b)][..1] == [Send(a)];
    assert Exec(4, 0, []).out.abuf == [];
    assert Roomy(4, 0, []) && Roomy(4, 0, [Send(a)]);
  }
}
