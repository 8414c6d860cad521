/** The message bus as a whole: writers, ring and readers together. */
module EndToEnd {
  import opened Sequences
  import opened Wire
  import opened Codec
  import opened Layout
  import opened Loss
  import opened Counting
  import opened Protocol
  import opened Ring
  import opened Demux
  import opened Broadcast
  import opened Buffer
  import Lines
  import Traffic

  /** The frames of a writer bear its origin and can be put on the ring. */
  lemma WriterInjects(cap: nat, o: nat, ops: seq<Op>, i: nat)
    requires 3 <= cap && o < MAX_LINK_COUNT && Sendable(ops)
    requires i < |Exec(cap, o, ops).Stream()|
    ensures var f := Exec(cap, o, ops).Stream()[i];
            Hearable(f) && QoS(f) == o
  {
    RunShaped(cap, o, ops);
    hide Exec, Run.Stream;
    StampOrigin(i + 1, o);
    assert Exec(cap, o, ops).Stream()[i][0].lo == Stamp(0 + i + 1, o);
  }

  lemma StampOrigin(c: nat, o: nat)
    requires o < 64
    ensures Stamp(c, o) / MAX_COUNTER == o
  {
  }

  lemma DecodePrefix(s: In, a: seq<Frame>, b: seq<Frame>)
    requires AllReadable(b) && a <= b
    ensures AllReadable(a) && Decode(s, a).1 <= Decode(s, b).1
  {
    var c := b[|a|..];
    assert b == a + c;
    hide Decode;
    ReadableParts(a, c);
    DecodeConcat(s, a, c);
  }

  /** On a stable ring, let every process write its messages (roomily) and flush its frames as it
      likes. Then whatever is in flight, each process has put together, of the messages of each origin,
      a prefix: each message once, in order, word for word. When the origin's frames have been flushed
      and the channels are empty, it has put together all of them. */
  lemma Delivered(cap: nat, t: Table, es: seq<Traffic.Event>, net: Traffic.Net, ops: seq<Op>, o: nat, m: nat,
                  rs: seq<In>)
    requires 3 <= cap && Occupied(t, o) && Occupied(t, m) && Traffic.Run(t, es, net)
    requires |t| == MAX_LINK_COUNT && |net.injected| == |t| && |net.heard| == |t|
    requires Sendable(ops) && Roomy(cap, o, ops) && net.injected[o] == Exec(cap, o, ops).sent
    requires |rs| == MAX_LINK_COUNT && Fresh(rs[o])
    ensures AllHearable(net.heard[m]) && |net.lines| == |t|
    ensures HeardOf(HearAll(rs, net.heard[m]).1, o) <= Sends(ops)
    ensures Empty(t, net) && Exec(cap, o, ops).out.abuf == [] ==>
              HeardOf(HearAll(rs, net.heard[m]).1, o) == Sends(ops)
  {
    hide *;
    var cs := Traffic.RunWhole(t, es, net);
    var whole := Traffic.Whole(net);
    EmptyDrained(t, net);
    InOrder(t, cs, whole, m, o);
    OriginSize(t, o);
    ConservedHearable(t, whole, m);
    Demultiplex(rs, net.heard[m], o);
    SentPrefix(rs[o], cap, o, ops);
    DecodePrefix(rs[o], Of(net.heard[m], o), net.injected[o]);
    if Exec(cap, o, ops).out.abuf == [] {
      StreamIs(Exec(cap, o, ops));
      assert Exec(cap, o, ops).Stream() == net.injected[o];
      RoundTrip(rs[o], cap, o, ops);
    }
  }

  /** No frame is waiting, in flight or on a wire. */
  ghost predicate Empty(t: Table, net: Traffic.Net)
    requires |net.lines| == |t|
  {
    forall n: nat | Occupied(t, n) :: net.lines[n].Held() == []
  }

  lemma EmptyDrained(t: Table, net: Traffic.Net)
    requires Traffic.Shape(t, net)
    ensures |net.lines| == |net.heard| == |net.injected| == |t|
    ensures var whole := Traffic.Whole(net);
            && whole.heard == net.heard && whole.injected == net.injected && |whole.queue| == |t|
            && (Drained(t, whole) <==> Empty(t, net))
  {
    hide Lines.Line.Held;
  }

  lemma OriginSize(t: Table, o: nat)
    requires Occupied(t, o) && |t| == MAX_LINK_COUNT
    ensures o < |t| && o < 64
  {
  }

  lemma ConservedHearable(t: Table, net: Broadcast.Net, m: nat)
    requires Conserved(t, net) && Occupied(t, m)
    ensures Shape(t, net) && m < |net.heard| && AllHearable(net.heard[m]) && |net.queue| == |t|
  {
  }

  // ----- the readers' buffers -----

  lemma {:induction false} OfPrefix(fs: seq<Frame>, k: nat, o: nat)
    requires AllHearable(fs) && k <= |fs|
    ensures AllHearable(fs[..k]) && Of(fs[..k], o) <= Of(fs, o)
    decreases |fs|
  {
    hide Hearable;
    if k == |fs| {
      assert fs[..k] == fs;
    } else {
      OfPrefix(fs[..|fs| - 1], k, o);
      assert fs[..|fs| - 1][..k] == fs[..k];
    }
  }

  lemma OfLast(fs: seq<Frame>, k: nat)
    requires AllHearable(fs) && k < |fs|
    ensures AllHearable(fs[..k]) && AllHearable(fs[..k + 1])
    ensures Of(fs[..k + 1], QoS(fs[k])) == Of(fs[..k], QoS(fs[k])) + [fs[k]]
  {
    hide Hearable;
    assert fs[..k + 1][..k] == fs[..k];
  }

  /** Whether a reader stays within its buffer depends on the frames of its own origin alone. */
  lemma PeakAlone(rs: seq<In>, fs: seq<Frame>, k: nat, o: nat)
    requires |rs| == MAX_LINK_COUNT && AllHearable(fs) && k < |fs| && o == QoS(fs[k]) && o < MAX_LINK_COUNT
    ensures AllReadable(Of(fs, o)) && AllHearable(fs[..k]) && |Of(fs[..k], o)| < |Of(fs, o)|
    ensures PeakAmong(rs, fs, k) == PeakAt(rs[o], Of(fs, o), |Of(fs[..k], o)|)
  {
    OfReadable(fs, o);
    OfPrefix(fs, k + 1, o);
    OfLast(fs, k);
    hide Hearable, Peak, Decode, HearAll, Of, QoS;
    var a, b := Of(fs[..k], o), Of(fs, o);
    assert b[|a|] == (a + [fs[k]])[|a|] == fs[k];
    assert b[..|a|] == (a + [fs[k]])[..|a|] == a;
    Demultiplex(rs, fs[..k], o);
    PeakAtIs(rs[o], b, |a|);
  }

  lemma WithinPrefix(s: In, a: seq<Frame>, b: seq<Frame>, size: nat, k: nat)
    requires AllReadable(b) && a <= b && Within(s, b, size) && k < |a|
    ensures AllReadable(a) && PeakAt(s, a, k) <= size
  {
    assert forall i | 0 <= i < |a| :: a[i] == b[i];
    assert a[..k] == b[..k];
    assert PeakAt(s, b, k) <= size;
    hide Readable, Decode, Peak;
  }

  /** On a stable ring, let every message of o have at most `size` words. Then no frame of o makes any
      process copy beyond the first `size` words of the buffer it keeps for o: this is what
      `Tube.Listen` needs of its caller. */
  lemma BuffersSuffice(cap: nat, t: Table, es: seq<Traffic.Event>, net: Traffic.Net, ops: seq<Op>, o: nat, m: nat,
                       rs: seq<In>, size: nat, k: nat)
    requires 3 <= cap && Occupied(t, o) && Occupied(t, m) && Traffic.Run(t, es, net)
    requires |t| == MAX_LINK_COUNT && |net.injected| == |t| && |net.heard| == |t|
    requires Sendable(ops) && Roomy(cap, o, ops) && net.injected[o] == Exec(cap, o, ops).sent
    requires Longest(Sends(ops)) <= size && |rs| == MAX_LINK_COUNT && Fresh(rs[o])
    requires k < |net.heard[m]| && net.heard[m][k] != [] && QoS(net.heard[m][k]) == o
    ensures AllHearable(net.heard[m]) && PeakAmong(rs, net.heard[m], k) <= size
  {
    hide *;
    var cs := Traffic.RunWhole(t, es, net);
    var whole := Traffic.Whole(net);
    EmptyDrained(t, net);
    InOrder(t, cs, whole, m, o);
    OriginSize(t, o);
    ConservedHearable(t, whole, m);
    PeakAlone(rs, net.heard[m], k, o);
    WithinIff(rs[o], cap, o, ops, size);
    StreamIs(Exec(cap, o, ops));
    WithinPrefix(rs[o], Of(net.heard[m], o), Exec(cap, o, ops).Stream(), size, |Of(net.heard[m][..k], o)|);
  }
}
