/** One reader per origin. Frames of all origins arrive interleaved, and each goes to the reader of
    the origin in its header. */
module Demux {
  import opened Sequences
  import opened Wire
  import opened Codec

  const MAX_LINK_COUNT := 64

  /** A message with the origin whose reader put it together. */
  datatype Heard = Heard(origin: nat, m: Msg)

  function Tag(origin: nat, ms: seq<Msg>): (r: seq<Heard>)
    ensures |r| == |ms| && forall i | 0 <= i < |ms| :: r[i] == Heard(origin, ms[i])
  {
    seq(|ms|, i requires 0 <= i < |ms| => Heard(origin, ms[i]))
  }

  predicate Hearable(f: Frame) {
    f != [] && Readable(f)
  }

  /** One frame through the reader of its origin. */
  function Hear(rs: seq<In>, f: Frame): (r: (seq<In>, seq<Heard>))
    requires |rs| == MAX_LINK_COUNT && Hearable(f)
    ensures |r.0| == MAX_LINK_COUNT
  {
    var (t, out) := Receive(rs[QoS(f)], f);
    (rs[QoS(f) := t], Tag(QoS(f), out))
  }

  predicate AllHearable(fs: seq<Frame>) {
    forall i | 0 <= i < |fs| :: Hearable(fs[i])
  }

  function HearAll(rs: seq<In>, fs: seq<Frame>): (r: (seq<In>, seq<Heard>))
    requires |rs| == MAX_LINK_COUNT && AllHearable(fs)
    ensures |r.0| == MAX_LINK_COUNT
  {
    if fs == [] then (rs, [])
    else
      var (ss, out) := HearAll(rs, fs[..|fs| - 1]);
      var (ts, more) := Hear(ss, Last(fs));
      (ts, out + more)
  }

  /** The most words a reader's buffer holds while frame t is read, after those before it. */
  function PeakAmong(rs: seq<In>, fs: seq<Frame>, t: nat): nat
    requires |rs| == MAX_LINK_COUNT && AllHearable(fs) && t < |fs|
  {
    Peak(HearAll(rs, fs[..t]).0[QoS(fs[t])], fs[t])
  }

  /** The frames of one origin, in order. */
  function Of(fs: seq<Frame>, origin: nat): seq<Frame>
    requires AllHearable(fs)
  {
    if fs == [] then []
    else Of(fs[..|fs| - 1], origin) + if QoS(Last(fs)) == origin then [Last(fs)] else []
  }

  /** What was heard of one origin, in order. */
  function HeardOf(hs: seq<Heard>, origin: nat): seq<Msg> {
    if hs == [] then []
    else HeardOf(hs[..|hs| - 1], origin) + if Last(hs).origin == origin then [Last(hs).m] else []
  }

  lemma {:induction false} HeardOfConcat(a: seq<Heard>, b: seq<Heard>, origin: nat)
    ensures HeardOf(a + b, origin) == HeardOf(a, origin) + HeardOf(b, origin)
    decreases |b|
  {
    if b == [] {
      assert a + b == a;
    } else {
      var init := b[..|b| - 1];
      assert (a + b)[..|a + b| - 1] == a + init;
      HeardOfConcat(a, init, origin);
      Assoc(HeardOf(a, origin), HeardOf(init, origin), if Last(b).origin == origin then [Last(b).m] else []);
    }
  }

  lemma {:induction false} HeardOfTag(ms: seq<Msg>, tag: nat, origin: nat)
    ensures HeardOf(Tag(tag, ms), origin) == if tag == origin then ms else []
    decreases |ms|
  {
    if ms != [] {
      var init := ms[..|ms| - 1];
      HeardOfTag(init, tag, origin);
      assert Tag(tag, ms)[..|ms| - 1] == Tag(tag, init);
      assert ms == init + [Last(ms)];
    }
  }

  lemma {:induction false} OfReadable(fs: seq<Frame>, origin: nat)
    requires AllHearable(fs)
    ensures AllReadable(Of(fs, origin))
    decreases |fs|
  {
    if fs != [] {
      OfReadable(fs[..|fs| - 1], origin);
      assert Readable(Last(fs));
    }
  }

  lemma HearStep(rs: seq<In>, fs: seq<Frame>, origin: nat)
    requires |rs| == MAX_LINK_COUNT && AllHearable(fs) && fs != [] && origin < MAX_LINK_COUNT
    ensures var init, f := fs[..|fs| - 1], Last(fs);
            var (ss, out) := HearAll(rs, init);
            var (t, ms) := Receive(ss[QoS(f)], f);
            && Hearable(f) && QoS(f) < MAX_LINK_COUNT
            && HearAll(rs, fs) == (ss[QoS(f) := t], out + Tag(QoS(f), ms))
            && Of(fs, origin) == Of(init, origin) + if QoS(f) == origin then [f] else []
  {
    hide Receive, Readable;
  }

  lemma HearNothing(rs: seq<In>, origin: nat)
    requires |rs| == MAX_LINK_COUNT && origin < MAX_LINK_COUNT
    ensures AllHearable([]) && HearAll(rs, []) == (rs, []) && Of([], origin) == [] && HeardOf([], origin) == []
  {
  }

  /** Demultiplexing: whatever the interleaving, each origin is decoded as if it were alone. */
  lemma {:induction false} Demultiplex(rs: seq<In>, fs: seq<Frame>, origin: nat)
    requires |rs| == MAX_LINK_COUNT && AllHearable(fs) && origin < MAX_LINK_COUNT
    ensures AllReadable(Of(fs, origin))
    ensures var (ts, out) := HearAll(rs, fs);
            (ts[origin], HeardOf(out, origin)) == Decode(rs[origin], Of(fs, origin))
    decreases |fs|
  {
    OfReadable(fs, origin);
    hide *;
    if fs == [] {
      HearNothing(rs, origin);
      DecodeNone(rs[origin]);
    } else {
      var init, f := fs[..|fs| - 1], Last(fs);
      HearStep(rs, fs, origin);
      HearableInit(fs);
      OfReadable(init, origin);
      Demultiplex(rs, init, origin);
      var (ss, out) := HearAll(rs, init);
      var (t, ms) := Receive(ss[QoS(f)], f);
      HeardOfConcat(out, Tag(QoS(f), ms), origin);
      HeardOfTag(ms, QoS(f), origin);
      if QoS(f) == origin {
        DecodeSnoc(rs[origin], Of(init, origin), f);
      } else {
        assert Of(init, origin) + [] == Of(init, origin);
        assert HeardOf(out, origin) + [] == HeardOf(out, origin);
      }
    }
  }

  lemma HearableInit(fs: seq<Frame>)
    requires fs != [] && AllHearable(fs)
    ensures AllHearable(fs[..|fs| - 1]) && Hearable(Last(fs)) && Readable(Last(fs)) && Last(fs) != []
  {
  }
}
