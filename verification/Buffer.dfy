/** How much of the reassembly buffer the reader uses. Nothing in the reader checks that what it copies
    fits, so this decides whether a run can be read at all: it is the longest message sent, exactly if
    all frames arrive, and at most if some are lost. */
module Buffer {
  import opened Sequences
  import opened Wire
  import opened Codec
  import opened Sheets
  import opened Layout
  import opened Loss
  import opened Protocol

  // ----- one frame -----

  function Longest(ms: seq<Msg>): nat {
    if ms == [] then 0 else Max(|ms[0].data|, Longest(ms[1..]))
  }

  lemma {:induction false} LongestIs(ms: seq<Msg>, size: nat)
    ensures Longest(ms) <= size <==> forall i | 0 <= i < |ms| :: |ms[i].data| <= size
  {
    if ms != [] {
      LongestIs(ms[1..], size);
      assert forall i | 0 < i < |ms| :: ms[i] == ms[1..][i - 1];
    }
  }

  /** What the messages begun in a frame need. */
  function Begun(sh: Sheet): nat {
    Max(Longest(sh.whole), if sh.open.Some? then sh.open.value.n else 0)
  }

  lemma DrainPeakStep(s: In, t: In)
    requires s.rest != [] && Start(s) == (true, t)
    ensures DrainPeak(s) == Max(|t.got|, DrainPeak(t))
  {
  }

  lemma DrainPeakWhole(s: In, m: Msg, tail: seq<Word>)
    requires m.Valid() && s.rest == m.Words() + tail
    ensures DrainPeak(s) == Max(|m.data|, DrainPeak(s.(hdr := m.Body(), got := m.data, rest := tail)))
  {
    StartAt(s, m.Body(), m.data, tail);
    hide Start, DrainPeak;
    DrainPeakStep(s, s.(hdr := m.Body(), got := m.data, rest := tail));
  }

  lemma DrainPeakOpen(s: In, open: Option<Part>)
    requires open.Some? ==> open.value.Ok() && open.value.from == 0 && !open.value.Ends()
    requires s.rest == OpenWords(open)
    ensures DrainPeak(s) == if open.Some? then open.value.n else 0
  {
    if open.Some? {
      var p := open.value;
      assert s.rest == [p.m.Body()] + p.Words() + [];
      StartAt(s, p.m.Body(), p.Words(), []);
      DrainPeakStep(s, s.(hdr := p.m.Body(), got := p.Words(), rest := []));
    }
  }

  lemma {:induction false} DrainPeakIs(s: In, whole: seq<Msg>, open: Option<Part>)
    requires forall i | 0 <= i < |whole| :: whole[i].Valid()
    requires open.Some? ==> open.value.Ok() && open.value.from == 0 && !open.value.Ends()
    requires s.rest == Flat(whole) + OpenWords(open)
    ensures DrainPeak(s) == Max(Longest(whole), if open.Some? then open.value.n else 0)
    decreases |whole|
  {
    hide DrainPeak, OpenWords, Msg.Valid;
    if whole != [] {
      var m, tail := whole[0], Flat(whole[1..]) + OpenWords(open);
      Assoc(m.Words(), Flat(whole[1..]), OpenWords(open));
      DrainPeakWhole(s, m, tail);
      DrainPeakIs(s.(hdr := m.Body(), got := m.data, rest := tail), whole[1..], open);
    } else {
      assert Flat(whole) + OpenWords(open) == OpenWords(open);
      DrainPeakOpen(s, open);
    }
  }

  lemma PeakPlain(s: In, f: Frame)
    requires 2 <= |f| && f[0].hi == 0
    ensures Peak(s, f) == DrainPeak(AfterHeader(s, f))
  {
  }

  lemma PeakCont(s: In, f: Frame, words: seq<Word>, tail: seq<Word>)
    requires f != [] && f[0].hi > 0 && f[1..] == words + tail
    requires if f[0].hi == MORE then tail == [] else |words| == Ceil4(f[0].hi)
    ensures var h := AfterHeader(s, f);
            var t := h.(got := h.got + words, rest := tail);
            Peak(s, f) == Max(|t.got|, DrainPeak(t))
  {
    var h := AfterHeader(s, f);
    assert (words + tail)[..|words|] == words && (words + tail)[|words|..] == tail;
    assert Head(s, f) == (true, Copy(h, |words|));
  }

  /** What a frame needs, in any state of the reader: the continuation behind what is kept, and each of the
      messages that begin in it alone. */
  lemma SheetPeak(s: In, cap: nat, qos: nat, i: nat, sh: Sheet)
    requires 3 <= cap && qos < 64 && sh.Ok(cap) && |Encode(cap, qos, i, sh)| <= cap
    ensures Readable(Encode(cap, qos, i, sh))
    ensures Peak(s, Encode(cap, qos, i, sh)) ==
            Max(if sh.cont.Some? then |AfterCont(s, cap, qos, i, sh).got| else 0, Begun(sh))
  {
    if sh.cont.Some? {
      SheetPeakCont(s, cap, qos, i, sh);
    } else {
      SheetPeakPlain(s, cap, qos, i, sh);
    }
  }

  lemma SheetPeakPlain(s: In, cap: nat, qos: nat, i: nat, sh: Sheet)
    requires 3 <= cap && qos < 64 && sh.Ok(cap) && sh.cont.None?
    ensures Readable(Encode(cap, qos, i, sh))
    ensures Peak(s, Encode(cap, qos, i, sh)) == Begun(sh)
  {
    hide DrainPeak, Peak, Longest, Max, Stamp;
    var f := Encode(cap, qos, i, sh);
    var starts := Flat(sh.whole) + OpenWords(sh.open);
    assert sh.Payload() == starts;
    assert f[1..] == starts && f[0].hi == 0 && 0 < |starts|;
    DrainPeakIs(AfterHeader(s, f), sh.whole, sh.open);
    PeakPlain(s, f);
  }

  lemma SheetPeakCont(s: In, cap: nat, qos: nat, i: nat, sh: Sheet)
    requires 3 <= cap && qos < 64 && sh.Ok(cap) && sh.cont.Some? && |Encode(cap, qos, i, sh)| <= cap
    ensures Readable(Encode(cap, qos, i, sh))
    ensures Peak(s, Encode(cap, qos, i, sh)) == Max(|AfterCont(s, cap, qos, i, sh).got|, Begun(sh))
  {
    hide DrainPeak, Flat, Peak, Longest, Max;
    var f, t := Encode(cap, qos, i, sh), AfterCont(s, cap, qos, i, sh);
    var c, starts := sh.cont.value.Words(), Flat(sh.whole) + OpenWords(sh.open);
    assert sh.Payload() == c + starts;
    assert f[1..] == c + starts && f[0] == Word(Stamp(i + 1, qos), sh.Mark(cap));
    StampDistance(i + 1, qos, s.counter);
    var h := AfterHeader(s, f);
    assert t.(rest := starts) == h.(got := h.got + c, rest := starts);
    DrainPeakIs(t.(rest := starts), sh.whole, sh.open);
    PeakCont(s, f, c, starts);
  }

  // ----- one arrival -----

  /** The words an arrival needs, from the layout and the delivery. */
  function Needed(shs: seq<Sheet>, d: seq<nat>, t: nat): nat
    requires t < |d| && forall u | 0 <= u < |d| :: d[u] < |shs|
  {
    Max(if shs[d[t]].cont.Some? then Joined(shs, d, t) else 0, Begun(shs[d[t]]))
  }

  lemma ArrivalPeak(s: In, cap: nat, qos: nat, shs: seq<Sheet>, d: seq<nat>, t: nat)
    requires Channel(cap, qos, shs, d) && t < |d| && Fresh(s)
    requires forall u | 0 <= u < |d| :: d[u] < |shs|
    requires qos < 64 && shs[d[t]].Ok(cap) && shs[d[t]].Defined()
    ensures Readable(Encode(cap, qos, d[t], shs[d[t]]))
    ensures Peak(StateAt(s, cap, qos, shs, d, t), Encode(cap, qos, d[t], shs[d[t]])) == Needed(shs, d, t)
  {
    StateIs(s, cap, qos, shs, d, t);
    JoinedIs(s, cap, qos, shs, d, t);
    ReadableFrame(cap, qos, shs, d, d[t], EncodeAll(cap, qos, 0, shs));
    SheetPeak(StateAt(s, cap, qos, shs, d, t), cap, qos, d[t], shs[d[t]]);
    hide Channel, StateAt, AfterCont, Joined, Begun, Encode, Peak, Sheet.Ok;
  }

  // ----- the messages sent decide -----

  lemma {:induction false} LongestConcat(a: seq<Msg>, b: seq<Msg>)
    ensures Longest(a + b) == Max(Longest(a), Longest(b))
  {
    if a == [] {
      assert a + b == b;
    } else {
      assert (a + b)[0] == a[0] && (a + b)[1..] == a[1..] + b;
      LongestConcat(a[1..], b);
    }
  }

  ghost predicate EachDone(shs: seq<Sheet>, size: nat) {
    forall i | 0 <= i < |shs| :: Longest(shs[i].Done()) <= size
  }

  lemma {:induction false} AllDoneLongest(shs: seq<Sheet>, size: nat)
    ensures Longest(AllDone(shs)) <= size <==> EachDone(shs, size)
  {
    hide Longest, Sheet.Done;
    if shs == [] {
      LongestIs([], size);
    } else {
      LongestConcat(shs[0].Done(), AllDone(shs[1..]));
      AllDoneLongest(shs[1..], size);
      assert EachDone(shs, size) <==> Longest(shs[0].Done()) <= size && EachDone(shs[1..], size) by {
        assert forall i | 0 < i < |shs| :: shs[i] == shs[1..][i - 1];
      }
    }
  }

  lemma DoneLongest(sh: Sheet)
    ensures Longest(sh.Done()) ==
            Max(if sh.cont.Some? && sh.cont.value.Ends() then |sh.cont.value.m.data| else 0, Longest(sh.whole))
  {
    if sh.cont.Some? && sh.cont.value.Ends() {
      LongestConcat([sh.cont.value.m], sh.whole);
    } else {
      assert sh.Done() == sh.whole;
    }
  }

  /** What is left open is finished later, as all that is sent is. */
  lemma {:induction false} LeftDone(cap: nat, shs: seq<Sheet>, i: nat, size: nat)
    requires AllOk(cap, shs) && Chained(None, shs) && LeftAt(None, shs, |shs|).None? && EachDone(shs, size)
    requires i < |shs| && Left(shs[i]).Some?
    ensures |Left(shs[i]).value.0.data| <= size
    decreases |shs| - i
  {
    hide AllOk, EachDone, Longest;
    assert LeftAt(None, shs, |shs|) == Left(shs[|shs| - 1]);
    assert Continues(LeftAt(None, shs, i + 1), shs[i + 1]);
    DoneAt(cap, shs, i + 1, size);
    if !shs[i + 1].cont.value.Ends() {
      LeftDone(cap, shs, i + 1, size);
    }
  }

  lemma DoneAt(cap: nat, shs: seq<Sheet>, i: nat, size: nat)
    requires AllOk(cap, shs) && EachDone(shs, size) && i < |shs|
    ensures shs[i].cont.Some? && shs[i].cont.value.Ends() ==> |shs[i].cont.value.m.data| <= size
    ensures shs[i].cont.Some? && !shs[i].cont.value.Ends() ==> shs[i].open.None?
    ensures Longest(shs[i].whole) <= size
  {
    DoneLongest(shs[i]);
    hide Longest, Sheet.Done;
    assert shs[i].Ok(cap);
  }

  /** A chain that carries messages of at most `size` words has no longer one in any frame. */
  lemma ChainBounded(cap: nat, shs: seq<Sheet>, size: nat)
    requires AllOk(cap, shs) && Chained(None, shs) && LeftAt(None, shs, |shs|).None?
    requires Longest(AllDone(shs)) <= size
    ensures Bounded(shs, size)
  {
    AllDoneLongest(shs, size);
    forall i | 0 <= i < |shs|
      ensures shs[i].cont.Some? ==> |shs[i].cont.value.m.data| <= size
      ensures shs[i].open.Some? ==> |shs[i].open.value.m.data| <= size
      ensures forall j | 0 <= j < |shs[i].whole| :: |shs[i].whole[j].data| <= size
    {
      hide AllOk, Chained, EachDone, Longest;
      DoneAt(cap, shs, i, size);
      LongestIs(shs[i].whole, size);
      if Left(shs[i]).Some? {
        LeftDone(cap, shs, i, size);
      }
    }
    hide *;
    BoundedIntro(shs, size);
  }

  lemma BoundedIntro(shs: seq<Sheet>, size: nat)
    requires forall i | 0 <= i < |shs| ::
               && (shs[i].cont.Some? ==> |shs[i].cont.value.m.data| <= size)
               && (shs[i].open.Some? ==> |shs[i].open.value.m.data| <= size)
               && (forall j | 0 <= j < |shs[i].whole| :: |shs[i].whole[j].data| <= size)
    ensures Bounded(shs, size)
  {
  }

  /** However frames are lost, no arrival needs more than the longest message. */
  lemma BufferBounded(s: In, cap: nat, qos: nat, shs: seq<Sheet>, d: seq<nat>, t: nat, size: nat)
    requires Channel(cap, qos, shs, d) && t < |d| && Fresh(s) && Bounded(shs, size)
    requires forall u | 0 <= u < |d| :: d[u] < |shs|
    requires qos < 64 && shs[d[t]].Ok(cap)
    ensures Needed(shs, d, t) <= size
  {
    StateIs(s, cap, qos, shs, d, t);
    JoinedIs(s, cap, qos, shs, d, t);
    ArrivalHolds(s, cap, qos, shs, d, t);
    LongestIs(shs[d[t]].whole, size);
    hide Channel, StateAt, AfterCont, Joined, Longest, Held;
  }

  /** A frame of a message that has arrived so far needs room for all of it that has arrived. */
  lemma NeededCovers(s: In, cap: nat, qos: nat, shs: seq<Sheet>, d: seq<nat>, t: nat)
    requires Channel(cap, qos, shs, d) && t < |d| && Fresh(s) && ArrivedTo(shs, d, d[t])
    requires forall u | 0 <= u < |d| :: d[u] < |shs|
    requires qos < 64 && shs[d[t]].Ok(cap)
    ensures Longest(shs[d[t]].Done()) <= Needed(shs, d, t)
  {
    HeldIsArrived(cap, qos, shs, d, t);
    DoneLongest(shs[d[t]]);
    StateIs(s, cap, qos, shs, d, t);
    JoinedIs(s, cap, qos, shs, d, t);
    ArrivalHolds(s, cap, qos, shs, d, t);
    hide Channel, StateAt, AfterCont, Joined, Longest, Held, Sheet.Done;
  }

  // ----- runs -----

  /** Reading fs, the reader never copies beyond the first `size` words of its buffer. */
  ghost predicate Within(s: In, fs: seq<Frame>, size: nat)
    requires AllReadable(fs)
  {
    forall t | 0 <= t < |fs| :: PeakAt(s, fs, t) <= size
  }

  ghost function PeakAt(s: In, fs: seq<Frame>, t: nat): nat
    requires AllReadable(fs) && t < |fs|
  {
    assert forall i | 0 <= i < t :: fs[..t][i] == fs[i];
    Peak(Decode(s, fs[..t]).0, fs[t])
  }

  lemma PeakNeeded(s: In, cap: nat, qos: nat, shs: seq<Sheet>, d: seq<nat>, t: nat, fs: seq<Frame>)
    requires Channel(cap, qos, shs, d) && t < |d| && Fresh(s) && AllDefined(shs) && qos < 64
    requires fs == EncodeAll(cap, qos, 0, shs)
    requires forall u | 0 <= u < |d| :: d[u] < |shs|
    requires AllReadable(Pick(fs, d))
    ensures PeakAt(s, Pick(fs, d), t) == Needed(shs, d, t)
  {
    hide *;
    DecodeArrivals(s, cap, qos, shs, d, t, fs);
    ReadableFrame(cap, qos, shs, d, d[t], fs);
    ArrivalPeak(s, cap, qos, shs, d, t);
    PeakAtIs(s, Pick(fs, d), t);
  }

  lemma PeakAtIs(s: In, fs: seq<Frame>, t: nat)
    requires AllReadable(fs) && t < |fs| && AllReadable(fs[..t]) && Readable(fs[t])
    ensures PeakAt(s, fs, t) == Peak(Decode(s, fs[..t]).0, fs[t])
  {
  }

  /** Let any frames of a roomy run be lost, fewer than 1023 in a row: a buffer that holds the longest
      message sent is never overrun, wherever in a frame the reader is. */
  lemma LossyWithin(s: In, cap: nat, qos: nat, ops: seq<Op>, d: seq<nat>, size: nat)
    requires 3 <= cap && qos < 64 && Sendable(ops) && Fresh(s) && Roomy(cap, qos, ops)
    requires Delivery(d, |Exec(cap, qos, ops).Stream()|) && Longest(Sends(ops)) <= size
    ensures var fs := Exec(cap, qos, ops).Stream();
            (forall t | 0 <= t < |d| :: d[t] < |fs|) && AllReadable(Pick(fs, d)) && Within(s, Pick(fs, d), size)
  {
    hide *;
    var shs := Resync(s, cap, qos, ops, d);
    var r, fs := Exec(cap, qos, ops), Exec(cap, qos, ops).Stream();
    LaidElim(cap, qos, r, shs, Sends(ops));
    StreamIs(r);
    ChainBounded(cap, shs, size);
    forall t | 0 <= t < |d|
      ensures PeakAt(s, Pick(fs, d), t) <= size
    {
      Arrival(cap, qos, shs, d, t);
      PeakNeeded(s, cap, qos, shs, d, t, fs);
      BufferBounded(s, cap, qos, shs, d, t, size);
    }
    WithinIntro(s, Pick(fs, d), size);
  }

  lemma WithinIntro(s: In, fs: seq<Frame>, size: nat)
    requires AllReadable(fs)
    ensures Within(s, fs, size) <==> forall t | 0 <= t < |fs| :: PeakAt(s, fs, t) <= size
  {
  }

  /** When all frames of a roomy run arrive, the reader stays within a buffer of `size` words if and only if
      no message sent is longer. The writer can check this before each `Write`; the reader does not. */
  lemma WithinIff(s: In, cap: nat, qos: nat, ops: seq<Op>, size: nat)
    requires 3 <= cap && qos < 64 && Sendable(ops) && Fresh(s) && Roomy(cap, qos, ops)
    ensures AllReadable(Exec(cap, qos, ops).Stream())
    ensures Within(s, Exec(cap, qos, ops).Stream(), size) <==> Longest(Sends(ops)) <= size
  {
    hide *;
    RoundTrip(s, cap, qos, ops);
    var shs := RunLays(cap, qos, ops);
    var r, fs := Exec(cap, qos, ops), Exec(cap, qos, ops).Stream();
    LaidElim(cap, qos, r, shs, Sends(ops));
    StreamIs(r);
    var d := Everything(|shs|);
    EverythingArrives(cap, qos, shs, fs);
    WithinIntro(s, fs, size);
    if Longest(Sends(ops)) <= size {
      ChainBounded(cap, shs, size);
    } else {
      AllDoneLongest(shs, size);
      EachDoneIs(shs, size);
    }
    forall t | 0 <= t < |fs|
      ensures PeakAt(s, fs, t) == Needed(shs, d, t)
      ensures Longest(shs[t].Done()) <= Needed(shs, d, t)
      ensures Longest(Sends(ops)) <= size ==> Needed(shs, d, t) <= size
    {
      Arrival(cap, qos, shs, d, t);
      PeakNeeded(s, cap, qos, shs, d, t, fs);
      EverythingArrived(shs, t);
      NeededCovers(s, cap, qos, shs, d, t);
      if Longest(Sends(ops)) <= size {
        BufferBounded(s, cap, qos, shs, d, t, size);
      }
    }
  }

  lemma EachDoneIs(shs: seq<Sheet>, size: nat)
    ensures EachDone(shs, size) <==> forall i | 0 <= i < |shs| :: Longest(shs[i].Done()) <= size
  {
  }
}
