/** The layout of frames: which part of which message each frame carries. `Encode` turns a layout
    into words. `Layout.RunLays` shows that the writer produces encoded layouts, and `ReceiveSheet`
    shows what the reader makes of one, whatever state it is in. */
module Sheets {
  import opened Sequences
  import opened Wire
  import opened Codec

  datatype Option<+T> = None | Some(value: T)

  /** Payload words from, ..., from + n - 1 of a message (none if n is 0). */
  datatype Part = Part(m: Msg, from: nat, n: nat) {
    predicate Ok() {
      m.Valid() && from + n <= |m.data|
    }

    predicate Ends() {
      from + n == |m.data|
    }

    function Words(): seq<Word>
      requires Ok()
    {
      m.data[from..from + n]
    }
  }

  /** One frame: the continuation of a message begun earlier, messages that lie inside the frame,
      and the beginning of a message that goes on in the next frame. */
  datatype Sheet = Sheet(cont: Option<Part>, whole: seq<Msg>, open: Option<Part>) {
    ghost predicate Ok(cap: nat) {
      && (cont.Some? ==>
            && cont.value.Ok() && 0 < cont.value.from && 0 < cont.value.n <= cap - 1
            && (!cont.value.Ends() ==> whole == [] && open.None?)
            && (cont.value.n == cap - 1 ==> whole == [] && open.None?))
      && (forall i | 0 <= i < |whole| :: whole[i].Valid())
      && (open.Some? ==> open.value.Ok() && open.value.from == 0 && !open.value.Ends())
      && (cont.Some? || whole != [] || open.Some?)
    }

    predicate Defined() {
      (cont.Some? ==> cont.value.Ok()) && (open.Some? ==> open.value.Ok())
    }

    /** Nothing is left to be continued. */
    predicate Closed() {
      open.None? && (cont.Some? ==> cont.value.Ends())
    }

    /** The messages whose last word is in this frame. */
    function Done(): seq<Msg> {
      (if cont.Some? && cont.value.Ends() then [cont.value.m] else []) + whole
    }

    /** The pointer word: 0 without continuation, its size in bytes, or MORE if it fills the frame. */
    function Mark(cap: nat): u16
      requires Defined()
    {
      if cont.None? then 0 else if cont.value.n < cap - 1 then 4 * cont.value.n else MORE
    }

    function Payload(): seq<Word>
      requires Defined()
    {
      (if cont.Some? then cont.value.Words() else []) + Flat(whole) +
      (if open.Some? then [open.value.m.Body()] + open.value.Words() else [])
    }
  }

  function Flat(ms: seq<Msg>): seq<Word> {
    if ms == [] then [] else ms[0].Words() + Flat(ms[1..])
  }

  lemma {:induction false} FlatAppend(ms: seq<Msg>, m: Msg)
    ensures Flat(ms + [m]) == Flat(ms) + m.Words()
  {
    if ms == [] {
    } else {
      assert (ms + [m])[0] == ms[0] && (ms + [m])[1..] == ms[1..] + [m];
      FlatAppend(ms[1..], m);
      Assoc(ms[0].Words(), Flat(ms[1..]), m.Words());
    }
  }

  /** Frame number i (from 0) of the stream of origin qos. */
  ghost function Encode(cap: nat, qos: nat, i: nat, sh: Sheet): Frame
    requires qos < 64 && sh.Defined()
  {
    [Word(Stamp(i + 1, qos), sh.Mark(cap))] + sh.Payload()
  }

  // ----- reader -----

  /** The reader after the messages lying inside a frame and the one it leaves open. */
  ghost function AfterStarts(s: In, whole: seq<Msg>, open: Option<Part>): In
    requires open.Some? ==> open.value.Ok()
  {
    if open.Some? then s.(hdr := open.value.m.Body(), got := open.value.Words(), rest := [])
    else if whole != [] then s.(hdr := Last(whole).Body(), got := Last(whole).data, rest := [])
    else s.(rest := [])
  }

  function OpenWords(open: Option<Part>): seq<Word>
    requires open.Some? ==> open.value.Ok()
  {
    if open.Some? then [open.value.m.Body()] + open.value.Words() else []
  }

  /** A body header starts a message, whatever the reader held before. */
  lemma StartAt(s: In, body: Word, words: seq<Word>, tail: seq<Word>)
    requires body.lo > 0 && s.rest == [body] + words + tail
    requires |words| == Ceil4(body.lo) || (|words| < Ceil4(body.lo) && tail == [])
    ensures Start(s) == (true, s.(hdr := body, got := words, rest := tail))
  {
    assert s.rest[1..] == words + tail;
    assert (words + tail)[..|words|] == words && (words + tail)[|words|..] == tail;
    assert [] + words == words;
  }

  /** A reader that holds words of a valid message is complete when it holds all of them. */
  lemma ReportPart(s: In, m: Msg, n: nat)
    requires m.Valid() && n <= |m.data| && s.hdr == m.Body() && s.got == m.data[..n]
    ensures Report(s) == if n == |m.data| then [m] else []
  {
    assert m.data[..|m.data|] == m.data;
  }

  lemma DrainStep(s: In, t: In)
    requires s.rest != [] && Start(s) == (true, t)
    ensures Drain(s) == (Drain(t).0, Report(t) + Drain(t).1)
  {
  }

  lemma DrainOpen(s: In, p: Part)
    requires p.Ok() && p.from == 0 && !p.Ends()
    requires s.rest == [p.m.Body()] + p.Words()
    ensures Drain(s) == (s.(hdr := p.m.Body(), got := p.Words(), rest := []), [])
  {
    var t := s.(hdr := p.m.Body(), got := p.Words(), rest := []);
    assert s.rest == [p.m.Body()] + p.Words() + [];
    StartAt(s, p.m.Body(), p.Words(), []);
    DrainStep(s, t);
    assert p.Words() == p.m.data[..p.n] && Report(t) + [] == Report(t);
    ReportPart(t, p.m, p.n);
  }

  /** A whole message at the front of the unread words comes out. */
  lemma DrainWhole(s: In, m: Msg, tail: seq<Word>)
    requires m.Valid() && s.rest == m.Words() + tail
    ensures var t := s.(hdr := m.Body(), got := m.data, rest := tail);
            Drain(s) == (Drain(t).0, [m] + Drain(t).1)
  {
    var t := s.(hdr := m.Body(), got := m.data, rest := tail);
    StartAt(s, m.Body(), m.data, tail);
    DrainStep(s, t);
    assert m.data == m.data[..|m.data|];
    ReportPart(t, m, |m.data|);
  }

  lemma {:induction false} DrainStarts(s: In, whole: seq<Msg>, open: Option<Part>)
    requires forall i | 0 <= i < |whole| :: whole[i].Valid()
    requires open.Some? ==> open.value.Ok() && open.value.from == 0 && !open.value.Ends()
    requires s.rest == Flat(whole) + OpenWords(open)
    ensures Drain(s) == (AfterStarts(s, whole, open), whole)
    decreases |whole|
  {
    hide Drain, OpenWords, Msg.Valid, Part.Ok, Part.Ends;
    if whole != [] {
      var m, tail := whole[0], Flat(whole[1..]) + OpenWords(open);
      Assoc(m.Words(), Flat(whole[1..]), OpenWords(open));
      DrainWhole(s, m, tail);
      DrainStarts(s.(hdr := m.Body(), got := m.data, rest := tail), whole[1..], open);
      assert [m] + whole[1..] == whole;
    } else {
      assert Flat(whole) + OpenWords(open) == OpenWords(open);
      DrainRest(s, open);
    }
  }

  lemma DrainRest(s: In, open: Option<Part>)
    requires open.Some? ==> open.value.Ok() && open.value.from == 0 && !open.value.Ends()
    requires s.rest == OpenWords(open)
    ensures Drain(s) == (AfterStarts(s, [], open), [])
  {
    if open.Some? {
      DrainOpen(s, open.value);
    }
  }

  /** What the reader makes of a frame, in any state: continued payload joins the buffer (emptied
      first if frames were lost) and may complete whatever header the reader remembers; messages
      inside the frame come out as they were written. */
  ghost function ReadSheet(s: In, cap: nat, qos: nat, i: nat, sh: Sheet): (In, seq<Msg>)
    requires qos < 64 && sh.Ok(cap)
  {
    var t := AfterCont(s, cap, qos, i, sh);
    (AfterStarts(t, sh.whole, sh.open), (if sh.cont.Some? then Report(t) else []) + sh.whole)
  }

  ghost function AfterCont(s: In, cap: nat, qos: nat, i: nat, sh: Sheet): In
    requires qos < 64 && sh.Ok(cap)
  {
    var lost := (i + 1 - s.counter) % MAX_COUNTER > 1;
    var kept := if lost then [] else s.got;
    In(Stamp(i + 1, qos), lost, s.hdr, kept + if sh.cont.Some? then sh.cont.value.Words() else [], [])
  }

  lemma StampDistance(i: nat, qos: nat, c: u16)
    requires qos < 64
    ensures (Stamp(i, qos) - c) % MAX_COUNTER == (i - c) % MAX_COUNTER
  {
  }

  /** The reader state when `Head` has consumed the frame header. */
  ghost function AfterHeader(s: In, f: Frame): In
    requires f != []
  {
    In(f[0].lo, Lost(s, f), s.hdr, if Lost(s, f) then [] else s.got, f[1..])
  }

  /** Without continuation, `Head` does what `Next` would do after the frame header. */
  lemma ReceivePlain(s: In, f: Frame)
    requires 2 <= |f| && f[0].hi == 0
    ensures Receive(s, f) == Drain(AfterHeader(s, f))
  {
  }

  lemma ReceiveCont(s: In, f: Frame, words: seq<Word>, tail: seq<Word>)
    requires f != [] && f[0].hi > 0 && f[1..] == words + tail
    requires if f[0].hi == MORE then tail == [] else |words| == Ceil4(f[0].hi)
    ensures var h := AfterHeader(s, f);
            var t := h.(got := h.got + words, rest := tail);
            Receive(s, f) == (Drain(t).0, Report(t) + Drain(t).1)
  {
    var h := AfterHeader(s, f);
    assert (words + tail)[..|words|] == words && (words + tail)[|words|..] == tail;
    assert Head(s, f) == (true, Copy(h, |words|));
  }

  lemma ReceiveSheet(s: In, cap: nat, qos: nat, i: nat, sh: Sheet)
    requires 3 <= cap && qos < 64 && sh.Ok(cap) && |Encode(cap, qos, i, sh)| <= cap
    ensures Readable(Encode(cap, qos, i, sh))
    ensures Receive(s, Encode(cap, qos, i, sh)) == ReadSheet(s, cap, qos, i, sh)
  {
    if sh.cont.Some? {
      ReceiveSheetCont(s, cap, qos, i, sh);
    } else {
      ReceiveSheetPlain(s, cap, qos, i, sh);
    }
  }

  lemma ReceiveSheetPlain(s: In, cap: nat, qos: nat, i: nat, sh: Sheet)
    requires 3 <= cap && qos < 64 && sh.Ok(cap) && sh.cont.None?
    ensures Readable(Encode(cap, qos, i, sh))
    ensures Receive(s, Encode(cap, qos, i, sh)) == ReadSheet(s, cap, qos, i, sh)
  {
    hide Drain, Receive;
    var f, t := Encode(cap, qos, i, sh), AfterCont(s, cap, qos, i, sh);
    var starts := Flat(sh.whole) + OpenWords(sh.open);
    assert sh.Payload() == starts;
    assert f[1..] == starts && f[0] == Word(Stamp(i + 1, qos), 0) && 0 < |starts|;
    StampDistance(i + 1, qos, s.counter);
    assert t.(rest := starts) == AfterHeader(s, f);
    DrainStarts(t.(rest := starts), sh.whole, sh.open);
    ReceivePlain(s, f);
    assert [] + sh.whole == sh.whole;
  }

  lemma ReceiveSheetCont(s: In, cap: nat, qos: nat, i: nat, sh: Sheet)
    requires 3 <= cap && qos < 64 && sh.Ok(cap) && sh.cont.Some? && |Encode(cap, qos, i, sh)| <= cap
    ensures Readable(Encode(cap, qos, i, sh))
    ensures Receive(s, Encode(cap, qos, i, sh)) == ReadSheet(s, cap, qos, i, sh)
  {
    hide Drain, Flat, Receive;
    var f, t := Encode(cap, qos, i, sh), AfterCont(s, cap, qos, i, sh);
    var c, starts := sh.cont.value.Words(), Flat(sh.whole) + OpenWords(sh.open);
    assert sh.Payload() == c + starts;
    assert f[1..] == c + starts && f[0] == Word(Stamp(i + 1, qos), sh.Mark(cap));
    StampDistance(i + 1, qos, s.counter);
    var h := AfterHeader(s, f);
    assert t.(rest := starts) == h.(got := h.got + c, rest := starts);
    DrainStarts(t.(rest := starts), sh.whole, sh.open);
    ReceiveCont(s, f, c, starts);
  }
}
