/** What `AkvaWriter::Write` and `AkvaReader::Head`, `Next` and `Complited` compute, as functions
    on words. The classes in Transport.dfy are proved against these. */
module Codec {
  import opened Sequences
  import opened Wire

  // ----- writer -----

  /** Frames held by a writer (`abuf_`), oldest first, and its frame counter. */
  datatype Out = Out(counter: u16, abuf: seq<Frame>)

  /** `++counter_` on 16 bits. */
  function Bump(counter: u16): u16 {
    (counter + 1) % 0x1_0000
  }

  /** A frame with a fresh header is pushed at the back. */
  function Open(o: Out, qos: nat, pointer: u16): Out
    requires qos < 64
  {
    var c := Bump(o.counter);
    Out(c, o.abuf + [[Word(Stamp(c, qos), pointer)]])
  }

  ghost predicate Fits(abuf: seq<Frame>, cap: nat) {
    forall i | 0 <= i < |abuf| :: 1 <= |abuf[i]| <= cap
  }

  /** The pointer patched into a frame allocated in the middle of a payload. */
  function Pointer(cap: nat, remaining: nat, started: bool): u16
    requires remaining < 16384
  {
    if !started then 0 else if remaining < cap - 1 then remaining * 4 else MORE
  }

  /** The payload loop. `started` is `writed > 0`. */
  function Spill(cap: nat, qos: nat, o: Out, rem: seq<Word>, started: bool): (r: Out)
    requires 2 <= cap && qos < 64 && |rem| < 16384
    requires o.abuf != [] && Fits(o.abuf, cap)
    ensures r.abuf != [] && Fits(r.abuf, cap)
    decreases |rem|
  {
    if rem == [] then o
    else
      var alloc := |Last(o.abuf)| == cap;
      var p := if alloc then Open(o, qos, Pointer(cap, |rem|, started)) else o;
      var space := cap - |Last(p.abuf)|;
      var n := if |rem| < space then |rem| else space;
      Spill(cap, qos, p.(abuf := AppendLast(p.abuf, rem[..n])), rem[n..], true)
  }

  /** The body header goes to the last frame when it has a free word, and to a new one otherwise. */
  function Headed(cap: nat, qos: nat, o: Out, body: Word): (r: Out)
    requires 2 <= cap && qos < 64 && Fits(o.abuf, cap)
    ensures r.abuf != [] && Fits(r.abuf, cap)
  {
    var p := if o.abuf == [] || |Last(o.abuf)| == cap then Open(o, qos, 0) else o;
    p.(abuf := AppendLast(p.abuf, [body]))
  }

  /** `AkvaWriter::Write`. */
  function Write(cap: nat, qos: nat, o: Out, m: Msg): (r: Out)
    requires 2 <= cap && qos < 64 && m.Padded() && Fits(o.abuf, cap)
    ensures r.abuf != [] && Fits(r.abuf, cap)
  {
    Spill(cap, qos, Headed(cap, qos, o, m.Body()), m.data[..Normalize(m.len) / 4], false)
  }

  // ----- reader -----

  /** Reader state. `got` is the reassembly buffer up to `writed_`, and `rest` the words of the
      current frame between `b_` and `e_`. */
  datatype In = In(counter: u16, lose: bool, hdr: Word, got: seq<Word>, rest: seq<Word>)

  /** `Complited`. */
  predicate Complete(s: In) {
    4 * |s.got| == Normalize(s.hdr.lo)
  }

  /** Copies up to n words of the frame to the reassembly buffer. */
  function Copy(s: In, n: nat): In {
    var k := if n <= |s.rest| then n else |s.rest|;
    s.(got := s.got + s.rest[..k], rest := s.rest[k..])
  }

  /** A message starts at the current word: the code shared by `Head` and `Next`. */
  function Start(s: In): (r: (bool, In))
    requires s.rest != []
    ensures r.0 ==> |r.1.rest| < |s.rest|
  {
    var t := s.(got := [], hdr := s.rest[0]);
    if t.hdr.lo > 0 then (true, Copy(t.(rest := s.rest[1..]), Ceil4(t.hdr.lo)))
    else (false, t)
  }

  /** What `Head` needs of a frame: without continued payload there is a word to take as a body
      header. (On a lone header word the code reads past the frame.) */
  predicate Readable(f: Frame) {
    |f| == 1 ==> f[0].hi != 0
  }

  /** Distance from the last counter seen. More than one step means loss. */
  predicate Lost(s: In, f: Frame)
    requires f != []
  {
    (f[0].lo - s.counter) % MAX_COUNTER > 1
  }

  /** `Head`: false stands for the null result. */
  function Head(s: In, f: Frame): (bool, In)
    requires Readable(f)
  {
    if f == [] then (false, s.(rest := []))
    else
      var lost := Lost(s, f);
      var t := In(f[0].lo, lost, s.hdr, if lost then [] else s.got, f[1..]);
      if f[0].hi == MORE then (true, Copy(t, |t.rest|))
      else if f[0].hi > 0 then (true, Copy(t, Ceil4(f[0].hi)))
      else Start(t)
  }

  /** The message handed over when a step leaves the reader complete. */
  function Report(s: In): seq<Msg> {
    if Complete(s) then [Msg(s.hdr.hi, s.hdr.lo, s.got)] else []
  }

  /** `Next` until it returns null. */
  function Drain(s: In): (In, seq<Msg>)
    decreases |s.rest|
  {
    if s.rest == [] then (s, [])
    else
      var (more, t) := Start(s);
      if more then
        var (u, out) := Drain(t);
        (u, Report(t) + out)
      else (t, [])
  }

  /** One frame through the reader: `Head`, then `Next` until null, with a report after each
      non-null result. */
  function Receive(s: In, f: Frame): (In, seq<Msg>)
    requires Readable(f)
  {
    var (more, t) := Head(s, f);
    if more then
      var (u, out) := Drain(t);
      (u, Report(t) + out)
    else (t, [])
  }

  function Max(a: nat, b: nat): nat {
    if a < b then b else a
  }

  /** The most words the reassembly buffer holds after a step of `Drain`. */
  function DrainPeak(s: In): nat
    decreases |s.rest|
  {
    if s.rest == [] then 0
    else
      var (more, t) := Start(s);
      Max(|t.got|, if more then DrainPeak(t) else 0)
  }

  /** The most words the reassembly buffer holds after a step of `Receive`: nothing is copied beyond. */
  function Peak(s: In, f: Frame): nat
    requires Readable(f)
  {
    var (more, t) := Head(s, f);
    Max(|t.got|, if more then DrainPeak(t) else 0)
  }

  predicate AllReadable(fs: seq<Frame>) {
    forall i | 0 <= i < |fs| :: Readable(fs[i])
  }

  /** A stream of frames through one reader. */
  function Decode(s: In, fs: seq<Frame>): (In, seq<Msg>)
    requires AllReadable(fs)
    decreases |fs|
  {
    if fs == [] then (s, [])
    else
      var (t, out) := Receive(s, fs[0]);
      var (u, more) := Decode(t, fs[1..]);
      (u, out + more)
  }

  lemma {:induction false} DecodeConcat(s: In, a: seq<Frame>, b: seq<Frame>)
    requires AllReadable(a) && AllReadable(b)
    ensures AllReadable(a + b)
    ensures var (t, out) := Decode(s, a);
            var (u, more) := Decode(t, b);
            Decode(s, a + b) == (u, out + more)
    decreases |a|
  {
    if a == [] {
      assert a + b == b && [] + Decode(s, b).1 == Decode(s, b).1;
    } else {
      var (s1, first) := Receive(s, a[0]);
      DecodeConcat(s1, a[1..], b);
      assert (a + b)[0] == a[0] && (a + b)[1..] == a[1..] + b;
      var (t, out) := Decode(s1, a[1..]);
      var (u, more) := Decode(t, b);
      Assoc(first, out, more);
    }
  }

  lemma DecodeNone(s: In)
    ensures AllReadable([]) && Decode(s, []) == (s, [])
  {
  }

  lemma DecodeOne(s: In, f: Frame)
    requires Readable(f)
    ensures AllReadable([f]) && Decode(s, [f]) == Receive(s, f)
  {
    hide Receive;
    assert [f][1..] == [];
    assert Decode(Receive(s, f).0, []) == (Receive(s, f).0, []);
    assert Receive(s, f).1 + [] == Receive(s, f).1;
  }

  lemma DecodeSnoc(s: In, fs: seq<Frame>, f: Frame)
    requires AllReadable(fs) && Readable(f)
    ensures AllReadable(fs + [f])
    ensures var (t, out) := Decode(s, fs);
            var (u, more) := Receive(t, f);
            Decode(s, fs + [f]) == (u, out + more)
  {
    hide Receive, Decode;
    DecodeOne(Decode(s, fs).0, f);
    DecodeConcat(s, fs, [f]);
  }
}
