/** Runs of a writer: messages are written and, in between, frames leave the front of `abuf_` for
    the pipe. As long as no message starts in a frame with exactly one free word, the frames are
    the encoding of a chain of sheets that carries exactly the written messages. */
module Layout {
  import Arithmetic
  import opened Sequences
  import opened Wire
  import opened Codec
  import opened Sheets

  datatype Op = Send(m: Msg) | Flush

  /** `sent`: the frames that have left the writer. */
  datatype Run = Run(out: Out, sent: seq<Frame>) {
    function Stream(): seq<Frame> {
      sent + out.abuf
    }
  }

  const IDLE := Run(Out(0, []), [])

  /** What a caller can write at all: messages of any 16-bit length. */
  ghost predicate Written(ops: seq<Op>) {
    forall i | 0 <= i < |ops| && ops[i].Send? :: ops[i].m.Padded()
  }

  /** Messages of length 1 to MAX_LEN. */
  ghost predicate Sendable(ops: seq<Op>): (sendable: bool)
    ensures sendable ==> Written(ops)
  {
    forall i | 0 <= i < |ops| && ops[i].Send? :: ops[i].m.Valid()
  }

  ghost function Step(cap: nat, qos: nat, r: Run, op: Op): (t: Run)
    requires 3 <= cap && qos < 64 && Fits(r.out.abuf, cap) && (op.Send? ==> op.m.Padded())
    ensures Fits(t.out.abuf, cap)
  {
    match op
    case Send(m) => Run(Write(cap, qos, r.out, m), r.sent)
    case Flush =>
      if r.out.abuf == [] then r
      else Run(r.out.(abuf := r.out.abuf[1..]), r.sent + [r.out.abuf[0]])
  }

  ghost function Exec(cap: nat, qos: nat, ops: seq<Op>): (r: Run)
    requires 3 <= cap && qos < 64 && Written(ops)
    ensures Fits(r.out.abuf, cap)
  {
    if ops == [] then IDLE else Step(cap, qos, Exec(cap, qos, ops[..|ops| - 1]), Last(ops))
  }

  function Sends(ops: seq<Op>): seq<Msg> {
    if ops == [] then []
    else Sends(ops[..|ops| - 1]) + match Last(ops) { case Send(m) => [m] case Flush => [] }
  }

  /** Exactly one word is free in the frame that would take the next body header. */
  predicate Tight(cap: nat, o: Out) {
    o.abuf != [] && |Last(o.abuf)| == cap - 1
  }

  /** No message of the run is written when one word is free: the writer can check this before
      each `Write`. */
  ghost predicate Roomy(cap: nat, qos: nat, ops: seq<Op>)
    requires 3 <= cap && qos < 64 && Written(ops)
  {
    ops != [] ==>
      && Roomy(cap, qos, ops[..|ops| - 1])
      && (Last(ops).Send? ==> !Tight(cap, Exec(cap, qos, ops[..|ops| - 1]).out))
  }

  // ----- chains of sheets -----

  ghost predicate AllDefined(shs: seq<Sheet>) {
    forall i | 0 <= i < |shs| :: shs[i].Defined()
  }

  ghost predicate AllOk(cap: nat, shs: seq<Sheet>) {
    forall i | 0 <= i < |shs| :: shs[i].Ok(cap)
  }

  ghost function EncodeAll(cap: nat, qos: nat, base: nat, shs: seq<Sheet>): (fs: seq<Frame>)
    requires qos < 64 && AllDefined(shs)
    ensures |fs| == |shs|
    decreases |shs|
  {
    if shs == [] then []
    else [Encode(cap, qos, base, shs[0])] + EncodeAll(cap, qos, base + 1, shs[1..])
  }

  lemma {:induction false} EncodeAllAt(cap: nat, qos: nat, base: nat, shs: seq<Sheet>, i: nat)
    requires qos < 64 && AllDefined(shs) && i < |shs|
    ensures EncodeAll(cap, qos, base, shs)[i] == Encode(cap, qos, base + i, shs[i])
    decreases i
  {
    hide Encode;
    if i > 0 {
      EncodeAllAt(cap, qos, base + 1, shs[1..], i - 1);
    }
  }

  lemma EncodeAllStep(cap: nat, qos: nat, base: nat, shs: seq<Sheet>)
    requires qos < 64 && AllDefined(shs) && shs != []
    ensures shs[0].Defined() && AllDefined(shs[1..])
    ensures EncodeAll(cap, qos, base, shs) == [Encode(cap, qos, base, shs[0])] + EncodeAll(cap, qos, base + 1, shs[1..])
  {
    hide Encode;
  }

  lemma DefinedConcat(a: seq<Sheet>, b: seq<Sheet>)
    requires AllDefined(a) && AllDefined(b)
    ensures AllDefined(a + b)
  {
  }

  lemma {:induction false} EncodeAllConcat(cap: nat, qos: nat, base: nat, a: seq<Sheet>, b: seq<Sheet>)
    requires qos < 64 && AllDefined(a) && AllDefined(b)
    ensures AllDefined(a + b)
    ensures EncodeAll(cap, qos, base, a + b) == EncodeAll(cap, qos, base, a) + EncodeAll(cap, qos, base + |a|, b)
    decreases |a|
  {
    hide Encode, AllDefined;
    DefinedConcat(a, b);
    if a == [] {
      assert a + b == b;
      assert EncodeAll(cap, qos, base, a) == [];
    } else {
      EncodeAllStep(cap, qos, base, a);
      EncodeAllStep(cap, qos, base, a + b);
      hide EncodeAll;
      assert (a + b)[0] == a[0] && (a + b)[1..] == a[1..] + b;
      EncodeAllConcat(cap, qos, base + 1, a[1..], b);
    }
  }

  /** What the next frame has to continue: a message and the words of it already carried. */
  function Left(sh: Sheet): Option<(Msg, nat)> {
    if sh.open.Some? then Some((sh.open.value.m, sh.open.value.n))
    else if sh.cont.Some? && !sh.cont.value.Ends() then Some((sh.cont.value.m, sh.cont.value.from + sh.cont.value.n))
    else None
  }

  predicate Continues(before: Option<(Msg, nat)>, sh: Sheet) {
    match before
    case None => sh.cont.None?
    case Some(p) => sh.cont.Some? && sh.cont.value.m == p.0 && sh.cont.value.from == p.1
  }

  /** What is left to continue before sheet i, when `before` is left by what precedes the chain. */
  function LeftAt(before: Option<(Msg, nat)>, shs: seq<Sheet>, i: nat): Option<(Msg, nat)>
    requires i <= |shs|
  {
    if i == 0 then before else Left(shs[i - 1])
  }

  ghost predicate Chained(before: Option<(Msg, nat)>, shs: seq<Sheet>) {
    forall i | 0 <= i < |shs| :: Continues(LeftAt(before, shs, i), shs[i])
  }

  lemma ChainedConcat(before: Option<(Msg, nat)>, a: seq<Sheet>, b: seq<Sheet>)
    requires Chained(before, a) && Chained(LeftAt(before, a, |a|), b)
    ensures Chained(before, a + b)
    ensures LeftAt(before, a + b, |a + b|) == LeftAt(LeftAt(before, a, |a|), b, |b|)
  {
    forall i | 0 <= i < |a + b|
      ensures Continues(LeftAt(before, a + b, i), (a + b)[i])
    {
      if i < |a| {
        assert Continues(LeftAt(before, a, i), a[i]);
      } else {
        assert Continues(LeftAt(LeftAt(before, a, |a|), b, i - |a|), b[i - |a|]);
      }
    }
  }

  function AllDone(shs: seq<Sheet>): seq<Msg> {
    if shs == [] then [] else shs[0].Done() + AllDone(shs[1..])
  }

  lemma {:induction false} AllDoneConcat(a: seq<Sheet>, b: seq<Sheet>)
    ensures AllDone(a + b) == AllDone(a) + AllDone(b)
  {
    hide Sheet.Done;
    if a == [] {
      assert a + b == b;
    } else {
      assert (a + b)[0] == a[0] && (a + b)[1..] == a[1..] + b;
      AllDoneConcat(a[1..], b);
      Assoc(a[0].Done(), AllDone(a[1..]), AllDone(b));
    }
  }

  // ----- what one Write lays out -----

  function Least(a: nat, b: nat): nat {
    if a < b then a else b
  }

  /** The frames that continue m from payload word `from` on. */
  ghost function Tail(cap: nat, m: Msg, from: nat): (shs: seq<Sheet>)
    requires 3 <= cap && m.Valid() && 0 < from <= |m.data|
    ensures AllOk(cap, shs) && AllDefined(shs)
    decreases |m.data| - from
  {
    if from == |m.data| then []
    else
      var n := Least(|m.data| - from, cap - 1);
      [Sheet(Some(Part(m, from, n)), [], None)] + Tail(cap, m, from + n)
  }

  lemma {:induction false} TailFits(cap: nat, m: Msg, from: nat, i: nat)
    requires 3 <= cap && m.Valid() && 0 < from <= |m.data| && i < |Tail(cap, m, from)|
    ensures |Tail(cap, m, from)[i].Payload()| <= cap - 1
    decreases i
  {
    var n := Least(|m.data| - from, cap - 1);
    if i > 0 {
      TailFits(cap, m, from + n, i - 1);
    }
  }

  lemma {:induction false} TailDone(cap: nat, m: Msg, from: nat)
    requires 3 <= cap && m.Valid() && 0 < from <= |m.data|
    ensures AllDone(Tail(cap, m, from)) == if from == |m.data| then [] else [m]
    decreases |m.data| - from
  {
    if from < |m.data| {
      var n := Least(|m.data| - from, cap - 1);
      TailDone(cap, m, from + n);
      assert Tail(cap, m, from)[1..] == Tail(cap, m, from + n);
    }
  }

  lemma TailFirst(cap: nat, m: Msg, from: nat, n: nat)
    requires 3 <= cap && m.Valid() && 0 < from < |m.data| && n == Least(|m.data| - from, cap - 1)
    ensures var sh := Sheet(Some(Part(m, from, n)), [], None);
            && Tail(cap, m, from) == [sh] + Tail(cap, m, from + n)
            && Chained(Some((m, from)), [sh])
            && LeftAt(Some((m, from)), [sh], 1) == (if from + n < |m.data| then Some((m, from + n)) else None)
            && (from + n == |m.data| ==> Tail(cap, m, from) == [sh])
            && 0 < n <= |m.data| - from
  {
    var sh := Sheet(Some(Part(m, from, n)), [], None);
    assert [sh] + [] == [sh];
  }

  lemma {:induction false} TailChained(cap: nat, m: Msg, from: nat)
    requires 3 <= cap && m.Valid() && 0 < from < |m.data|
    ensures var shs := Tail(cap, m, from);
            Chained(Some((m, from)), shs) && LeftAt(Some((m, from)), shs, |shs|).None?
    decreases |m.data| - from
  {
    hide *;
    var n := Least(|m.data| - from, cap - 1);
    TailFirst(cap, m, from, n);
    var sh, rest := Sheet(Some(Part(m, from, n)), [], None), Tail(cap, m, from + n);
    if from + n < |m.data| {
      TailChained(cap, m, from + n);
      ChainedConcat(Some((m, from)), [sh], rest);
    }
  }

  /** The 16-bit counter of a writer that has opened n frames. */
  function Ticks(n: nat): u16 {
    n % 0x1_0000
  }

  lemma TicksStep(n: nat, qos: nat)
    requires qos < 64
    ensures Bump(Ticks(n)) == Ticks(n + 1) && Stamp(Ticks(n + 1), qos) == Stamp(n + 1, qos)
  {
    hide Stamp;
    StampTicks(n + 1, qos);
  }

  /** The 10 bits of the stamp do not notice when the 16 bits of the counter wrap. */
  lemma StampTicks(n: nat, qos: nat)
    requires qos < 64
    ensures Stamp(Ticks(n), qos) == Stamp(n, qos)
  {
    var q, r := n / 0x1_0000, Ticks(n);
    assert n == 0x1_0000 * q + r;
    var a, b := r / MAX_COUNTER, r % MAX_COUNTER;
    assert r == MAX_COUNTER * a + b;
    Arithmetic.Divides(n, MAX_COUNTER, 64 * q + a, b);
  }

  lemma ContFrame(cap: nat, qos: nat, base: nat, p: Part)
    requires qos < 64 && p.Ok()
    ensures var sh := Sheet(Some(p), [], None);
            Encode(cap, qos, base, sh) == [Word(Stamp(base + 1, qos), sh.Mark(cap))] + p.Words()
  {
    assert Sheet(Some(p), [], None).Payload() == p.Words();
  }

  /** One turn of the payload loop that finds the frame full. */
  lemma SpillFull(cap: nat, qos: nat, o: Out, m: Msg, from: nat, base: nat, sh: Sheet)
    requires 3 <= cap && qos < 64 && m.Valid() && 0 < from < |m.data|
    requires o.abuf != [] && Fits(o.abuf, cap) && |Last(o.abuf)| == cap
    requires o.counter == Ticks(base)
    requires var left := |m.data| - from;
             sh == Sheet(Some(Part(m, from, Least(left, cap - 1))), [], None)
    ensures var q := Out(Ticks(base + 1), o.abuf + [Encode(cap, qos, base, sh)]);
            Fits(q.abuf, cap) && (from + sh.cont.value.n < |m.data| ==> |Last(q.abuf)| == cap) &&
            Spill(cap, qos, o, m.data[from..], true) == Spill(cap, qos, q, m.data[from + sh.cont.value.n..], true)
  {
    hide Encode, Stamp, Ticks, Bump, Spill;
    var rem, n := m.data[from..], sh.cont.value.n;
    TicksStep(base, qos);
    ContFrame(cap, qos, base, sh.cont.value);
    assert sh.cont.value.Words() == rem[..n] && rem[n..] == m.data[from + n..];
    SpillOpens(cap, qos, o, rem, Encode(cap, qos, base, sh), n);
  }

  lemma SpillOpens(cap: nat, qos: nat, o: Out, rem: seq<Word>, f: Frame, n: nat)
    requires 3 <= cap && qos < 64 && 0 < |rem| < 16384
    requires o.abuf != [] && Fits(o.abuf, cap) && |Last(o.abuf)| == cap
    requires n == Least(|rem|, cap - 1)
    requires f == Last(Open(o, qos, Pointer(cap, |rem|, true)).abuf) + rem[..n]
    ensures var q := Out(Bump(o.counter), o.abuf + [f]);
            Fits(q.abuf, cap) && Spill(cap, qos, o, rem, true) == Spill(cap, qos, q, rem[n..], true)
  {
    var p := Open(o, qos, Pointer(cap, |rem|, true));
    assert AppendLast(p.abuf, rem[..n]) == o.abuf + [f];
  }

  lemma {:induction false} SpillTail(cap: nat, qos: nat, o: Out, m: Msg, from: nat, base: nat)
    requires 3 <= cap && qos < 64 && m.Valid() && 0 < from <= |m.data|
    requires o.abuf != [] && Fits(o.abuf, cap)
    requires from == |m.data| || |Last(o.abuf)| == cap
    requires o.counter == Ticks(base)
    ensures var shs := Tail(cap, m, from);
            Spill(cap, qos, o, m.data[from..], true) ==
            Out(Ticks(base + |shs|), o.abuf + EncodeAll(cap, qos, base, shs))
    decreases |m.data| - from
  {
    hide *;
    if from == |m.data| {
      SpillDone(cap, qos, o, m, from, base);
    } else {
      var n := Least(|m.data| - from, cap - 1);
      TailStep(cap, m, from, n);
      var sh, rest := Sheet(Some(Part(m, from, n)), [], None), Tail(cap, m, from + n);
      var f := Encode(cap, qos, base, sh);
      var q := Out(Ticks(base + 1), o.abuf + [f]);
      SpillFull(cap, qos, o, m, from, base, sh);
      SpillTail(cap, qos, q, m, from + n, base + 1);
      EncodeAllCons(cap, qos, base, sh, rest);
      Assoc(o.abuf, [f], EncodeAll(cap, qos, base + 1, rest));
    }
  }

  lemma SpillDone(cap: nat, qos: nat, o: Out, m: Msg, from: nat, base: nat)
    requires 3 <= cap && qos < 64 && m.Valid() && 0 < from == |m.data|
    requires o.abuf != [] && Fits(o.abuf, cap) && o.counter == Ticks(base)
    ensures Tail(cap, m, from) == [] && EncodeAll(cap, qos, base, []) == []
    ensures Spill(cap, qos, o, m.data[from..], true) == Out(Ticks(base), o.abuf + [])
  {
    assert o.abuf + [] == o.abuf;
  }

  lemma TailStep(cap: nat, m: Msg, from: nat, n: nat)
    requires 3 <= cap && m.Valid() && 0 < from < |m.data| && n == Least(|m.data| - from, cap - 1)
    ensures 0 < n && from + n <= |m.data|
    ensures var sh := Sheet(Some(Part(m, from, n)), [], None);
            sh.Defined() && Tail(cap, m, from) == [sh] + Tail(cap, m, from + n)
  {
  }

  lemma EncodeAllCons(cap: nat, qos: nat, base: nat, sh: Sheet, rest: seq<Sheet>)
    requires qos < 64 && sh.Defined() && AllDefined(rest)
    ensures AllDefined([sh] + rest)
    ensures EncodeAll(cap, qos, base, [sh] + rest) == [Encode(cap, qos, base, sh)] + EncodeAll(cap, qos, base + 1, rest)
  {
    assert ([sh] + rest)[1..] == rest;
  }

  // ----- one Write -----

  /** Sheet t with message m entered, when `free` words are left after its body header. */
  function Filled(t: Sheet, free: nat, m: Msg): Sheet {
    if |m.data| <= free then t.(whole := t.whole + [m]) else t.(open := Some(Part(m, 0, free)))
  }

  ghost function Rest(cap: nat, free: nat, m: Msg): (shs: seq<Sheet>)
    requires 3 <= cap && m.Valid() && 0 < free
    ensures AllOk(cap, shs) && AllDefined(shs)
  {
    if |m.data| <= free then [] else Tail(cap, m, free)
  }

  /** All that sheet t carries is finished. It may still be blank. */
  ghost predicate Finished(t: Sheet) {
    && t.Closed() && t.Defined()
    && (t.cont.Some? ==> 0 < t.cont.value.from && 0 < t.cont.value.n)
    && forall i | 0 <= i < |t.whole| :: t.whole[i].Valid()
  }

  /** A target for a new message: a body header and `free` > 0 payload words fit behind it. */
  ghost predicate Target(cap: nat, qos: nat, k: nat, t: Sheet, free: nat)
    requires qos < 64
  {
    Finished(t) && 0 < free && |Encode(cap, qos, k, t)| + 1 + free == cap
  }

  lemma FilledOk(cap: nat, qos: nat, k: nat, t: Sheet, free: nat, m: Msg)
    requires 3 <= cap && qos < 64 && Target(cap, qos, k, t, free) && m.Valid()
    ensures Filled(t, free, m).Ok(cap) && Filled(t, free, m).Defined()
    ensures t.cont.Some? ==> t.cont.value.n <= cap - 3
  {
    hide Flat;
    assert t.cont.Some? ==> |t.Payload()| >= t.cont.value.n;
  }

  lemma FilledDone(t: Sheet, free: nat, m: Msg)
    ensures Filled(t, free, m).Done() == t.Done() + if |m.data| <= free then [m] else []
  {
  }

  lemma FilledWhole(cap: nat, t: Sheet, free: nat, m: Msg)
    requires t.Defined() && t.open.None? && |m.data| <= free
    ensures Filled(t, free, m).Payload() == t.Payload() + m.Words()
  {
    FlatAppend(t.whole, m);
    hide Flat;
    var c := if t.cont.Some? then t.cont.value.Words() else [];
    assert t.Payload() == c + Flat(t.whole);
    Assoc(c, Flat(t.whole), m.Words());
  }

  lemma FilledOpen(cap: nat, t: Sheet, free: nat, m: Msg)
    requires t.Defined() && t.open.None? && m.Valid() && free < |m.data|
    ensures Filled(t, free, m).Defined()
    ensures Filled(t, free, m).Payload() == t.Payload() + ([m.Body()] + m.data[..free])
  {
    hide Flat;
    var c := if t.cont.Some? then t.cont.value.Words() else [];
    assert t.Payload() == c + Flat(t.whole);
    assert Part(m, 0, free).Words() == m.data[..free];
  }

  lemma FilledEncode(cap: nat, qos: nat, k: nat, t: Sheet, free: nat, m: Msg)
    requires 3 <= cap && qos < 64 && Target(cap, qos, k, t, free) && m.Valid()
    ensures Filled(t, free, m).Defined()
    ensures Encode(cap, qos, k, Filled(t, free, m)) ==
            Encode(cap, qos, k, t) + ([m.Body()] + m.data[..Least(|m.data|, free)])
  {
    FilledOk(cap, qos, k, t, free, m);
    hide Sheet.Payload;
    var h := [Word(Stamp(k + 1, qos), t.Mark(cap))];
    if |m.data| <= free {
      FilledWhole(cap, t, free, m);
      assert m.data[..|m.data|] == m.data;
      Assoc(h, t.Payload(), m.Words());
    } else {
      FilledOpen(cap, t, free, m);
      Assoc(h, t.Payload(), [m.Body()] + m.data[..free]);
    }
  }

  /** The first turn of the payload loop, in the frame that took the body header. */
  lemma SpillFirst(cap: nat, qos: nat, c: u16, pre: seq<Frame>, f: Frame, body: Word, data: seq<Word>, free: nat)
    requires 3 <= cap && qos < 64 && 0 < |data| < 16384
    requires 1 <= |f| && 0 < free && |f| + 1 + free == cap && Fits(pre, cap)
    ensures var n := Least(|data|, free);
            var g := f + ([body] + data[..n]);
            && Fits(pre + [f + [body]], cap) && Fits(pre + [g], cap)
            && (n < |data| ==> |g| == cap)
            && Spill(cap, qos, Out(c, pre + [f + [body]]), data, false) ==
               Spill(cap, qos, Out(c, pre + [g]), data[n..], true)
  {
    var n := Least(|data|, free);
    var o := Out(c, pre + [f + [body]]);
    Assoc(f, [body], data[..n]);
    assert Last(o.abuf) == f + [body];
    assert AppendLast(o.abuf, data[..n]) == pre + [f + ([body] + data[..n])];
  }

  /** The sheets a message occupies when it is entered on target t. */
  ghost function Entered(cap: nat, t: Sheet, free: nat, m: Msg): seq<Sheet>
    requires 3 <= cap && m.Valid() && 0 < free
  {
    [Filled(t, free, m)] + Rest(cap, free, m)
  }

  lemma SpillInto(cap: nat, qos: nat, k: nat, t: Sheet, free: nat, pre: seq<Frame>, m: Msg)
    requires 3 <= cap && qos < 64 && Target(cap, qos, k, t, free) && m.Valid() && Fits(pre, cap)
    ensures var shs := Entered(cap, t, free, m);
            && AllDefined(shs) && Fits(pre + [Encode(cap, qos, k, t) + [m.Body()]], cap)
            && Spill(cap, qos, Out(Ticks(k + 1), pre + [Encode(cap, qos, k, t) + [m.Body()]]), m.data, false) ==
               Out(Ticks(k + |shs|), pre + EncodeAll(cap, qos, k, shs))
  {
    hide *;
    TargetFacts(cap, qos, k, t, free, m);
    var f, n := Encode(cap, qos, k, t), Least(|m.data|, free);
    var t', rest := Filled(t, free, m), Rest(cap, free, m);
    FilledEncode(cap, qos, k, t, free, m);
    var g := Encode(cap, qos, k, t');
    SpillFirst(cap, qos, Ticks(k + 1), pre, f, m.Body(), m.data, free);
    EncodeAllCons(cap, qos, k, t', rest);
    Assoc(pre, [g], EncodeAll(cap, qos, k + 1, rest));
    LastOf(pre, g);
    SpillRest(cap, qos, Out(Ticks(k + 1), pre + [g]), m, n, k + 1, rest);
  }

  lemma LastOf<T>(s: seq<T>, x: T)
    ensures Last(s + [x]) == x
  {
  }

  lemma TargetFacts(cap: nat, qos: nat, k: nat, t: Sheet, free: nat, m: Msg)
    requires 3 <= cap && qos < 64 && Target(cap, qos, k, t, free) && m.Valid()
    ensures 0 < free && t.Defined() && 1 <= |Encode(cap, qos, k, t)| && |Encode(cap, qos, k, t)| + 1 + free == cap
    ensures 0 < |m.data| < 16384
    ensures var n := Least(|m.data|, free);
            0 < n <= |m.data| && Rest(cap, free, m) == if n == |m.data| then [] else Tail(cap, m, n)
    ensures Entered(cap, t, free, m) == [Filled(t, free, m)] + Rest(cap, free, m)
  {
  }

  lemma SpillRest(cap: nat, qos: nat, o: Out, m: Msg, n: nat, base: nat, rest: seq<Sheet>)
    requires 3 <= cap && qos < 64 && m.Valid() && 0 < n <= |m.data|
    requires o.abuf != [] && Fits(o.abuf, cap) && o.counter == Ticks(base)
    requires n < |m.data| ==> |Last(o.abuf)| == cap
    requires rest == if n == |m.data| then [] else Tail(cap, m, n)
    ensures AllDefined(rest)
    ensures Spill(cap, qos, o, m.data[n..], true) == Out(Ticks(base + |rest|), o.abuf + EncodeAll(cap, qos, base, rest))
  {
    hide *;
    SpillTail(cap, qos, o, m, n, base);
    if n == |m.data| {
      SpillDone(cap, qos, o, m, n, base);
    }
  }

  lemma EnteredChained(cap: nat, qos: nat, pre: seq<Sheet>, t: Sheet, free: nat, m: Msg)
    requires 3 <= cap && qos < 64 && Target(cap, qos, |pre|, t, free) && m.Valid()
    requires AllOk(cap, pre) && Chained(None, pre) && Continues(LeftAt(None, pre, |pre|), t)
    ensures var shs := pre + Entered(cap, t, free, m);
            AllOk(cap, shs) && Chained(None, shs) && LeftAt(None, shs, |shs|).None?
  {
    hide Encode;
    var t', rest := Filled(t, free, m), Rest(cap, free, m);
    FilledOk(cap, qos, |pre|, t, free, m);
    assert Chained(LeftAt(None, pre, |pre|), [t']);
    ChainedConcat(None, pre, [t']);
    if free < |m.data| {
      TailChained(cap, m, free);
      ChainedConcat(None, pre + [t'], rest);
    }
    Assoc(pre, [t'], rest);
    assert pre + [t'] + [] == pre + [t'];
  }

  lemma EnteredDone(cap: nat, pre: seq<Sheet>, t: Sheet, free: nat, m: Msg)
    requires 3 <= cap && 0 < free && m.Valid()
    ensures AllDone(pre + Entered(cap, t, free, m)) == AllDone(pre) + t.Done() + [m]
  {
    hide *;
    var t', rest := Filled(t, free, m), Rest(cap, free, m);
    FilledDone(t, free, m);
    AllDoneConcat(pre, [t'] + rest);
    AllDoneConcat([t'], rest);
    AllDoneOne(t');
    RestDone(cap, free, m);
    EnteredIs(cap, t, free, m);
    if |m.data| <= free {
      assert AllDone([t'] + rest) == (t.Done() + [m]) + [];
      Assoc(AllDone(pre), t.Done(), [m]);
    } else {
      assert AllDone([t'] + rest) == (t.Done() + []) + [m];
      Assoc(AllDone(pre), t.Done(), [m]);
    }
  }

  lemma EnteredIs(cap: nat, t: Sheet, free: nat, m: Msg)
    requires 3 <= cap && 0 < free && m.Valid()
    ensures Entered(cap, t, free, m) == [Filled(t, free, m)] + Rest(cap, free, m)
  {
  }

  lemma AllDoneOne(sh: Sheet)
    ensures AllDone([sh]) == sh.Done()
  {
    assert [sh][1..] == [] && sh.Done() + [] == sh.Done();
  }

  lemma RestDone(cap: nat, free: nat, m: Msg)
    requires 3 <= cap && 0 < free && m.Valid()
    ensures AllDone(Rest(cap, free, m)) == if |m.data| <= free then [] else [m]
  {
    if free < |m.data| {
      TailDone(cap, m, free);
    }
  }

  // ----- the writer lays out what is written -----

  /** The writer's frames are the encoding of a chain that carries msgs. */
  ghost predicate Laid(cap: nat, qos: nat, r: Run, shs: seq<Sheet>, msgs: seq<Msg>)
    requires qos < 64
  {
    && AllOk(cap, shs) && Chained(None, shs) && LeftAt(None, shs, |shs|).None?
    && r.Stream() == EncodeAll(cap, qos, 0, shs)
    && Fits(r.Stream(), cap)
    && r.out.counter == Ticks(|shs|)
    && AllDone(shs) == msgs
  }

  const BLANK := Sheet(None, [], None)

  lemma BlankTarget(cap: nat, qos: nat, k: nat)
    requires 3 <= cap && qos < 64
    ensures Target(cap, qos, k, BLANK, cap - 2) && Encode(cap, qos, k, BLANK) == [Word(Stamp(k + 1, qos), 0)]
    ensures BLANK.Done() == []
  {
  }

  /** A message entered on target t, which is sheet |pre| of the chain. */
  lemma WriteEnters(cap: nat, qos: nat, r: Run, pre: seq<Sheet>, front: seq<Frame>, t: Sheet, free: nat, m: Msg)
    requires 3 <= cap && qos < 64 && m.Valid() && |m.data| < 16384 && Fits(r.out.abuf, cap)
    requires AllOk(cap, pre) && Chained(None, pre) && Continues(LeftAt(None, pre, |pre|), t)
    requires Target(cap, qos, |pre|, t, free) && t.Defined()
    requires AllDefined(pre) && r.sent + front == EncodeAll(cap, qos, 0, pre)
    requires Fits(r.sent, cap) && Fits(front, cap)
    requires Fits(front + [Encode(cap, qos, |pre|, t) + [m.Body()]], cap)
    requires Write(cap, qos, r.out, m) ==
             Spill(cap, qos, Out(Ticks(|pre| + 1), front + [Encode(cap, qos, |pre|, t) + [m.Body()]]), m.data, false)
    requires 0 < free
    ensures Laid(cap, qos, Step(cap, qos, r, Send(m)), pre + Entered(cap, t, free, m), AllDone(pre) + t.Done() + [m])
  {
    hide *;
    var k, added := |pre|, Entered(cap, t, free, m);
    StepSend(cap, qos, r, m);
    EnteredChained(cap, qos, pre, t, free, m);
    EnteredDone(cap, pre, t, free, m);
    SpillInto(cap, qos, k, t, free, front, m);
    EncodeAllConcat(cap, qos, 0, pre, added);
    Assoc(r.sent, front, EncodeAll(cap, qos, k, added));
    var w := Write(cap, qos, r.out, m);
    FitsConcat(r.sent, w.abuf, cap);
    LaidIntro(cap, qos, r.sent, w, pre + added);
  }

  lemma FitsConcat(a: seq<Frame>, b: seq<Frame>, cap: nat)
    ensures Fits(a + b, cap) <==> Fits(a, cap) && Fits(b, cap)
  {
    if Fits(a + b, cap) {
      assert forall i | 0 <= i < |a| :: (a + b)[i] == a[i];
      assert forall i | 0 <= i < |b| :: (a + b)[|a| + i] == b[i];
    }
  }

  lemma StepSend(cap: nat, qos: nat, r: Run, m: Msg)
    requires 3 <= cap && qos < 64 && m.Valid() && Fits(r.out.abuf, cap)
    ensures |m.data| == Ceil4(m.len) && Step(cap, qos, r, Send(m)) == Run(Write(cap, qos, r.out, m), r.sent)
  {
  }

  lemma LaidIntro(cap: nat, qos: nat, sent: seq<Frame>, o: Out, shs: seq<Sheet>)
    requires qos < 64 && AllOk(cap, shs) && Chained(None, shs) && LeftAt(None, shs, |shs|).None? && AllDefined(shs)
    requires sent + o.abuf == EncodeAll(cap, qos, 0, shs) && Fits(sent + o.abuf, cap) && o.counter == Ticks(|shs|)
    ensures Laid(cap, qos, Run(o, sent), shs, AllDone(shs))
  {
  }

  lemma WriteOpens(cap: nat, qos: nat, o: Out, m: Msg, k: nat)
    requires 3 <= cap && qos < 64 && m.Valid() && Fits(o.abuf, cap) && o.counter == Ticks(k)
    requires o.abuf == [] || |Last(o.abuf)| == cap
    ensures var f := [Word(Stamp(k + 1, qos), 0)];
            && Fits(o.abuf + [f + [m.Body()]], cap)
            && Write(cap, qos, o, m) == Spill(cap, qos, Out(Ticks(k + 1), o.abuf + [f + [m.Body()]]), m.data, false)
  {
    TicksStep(k, qos);
    hide Ticks, Stamp, Bump, Spill;
    var f := [Word(Stamp(k + 1, qos), 0)];
    assert AppendLast(Open(o, qos, 0).abuf, [m.Body()]) == o.abuf + [f + [m.Body()]];
    assert m.data[..Normalize(m.len) / 4] == m.data;
  }

  lemma WriteExtends(cap: nat, qos: nat, o: Out, m: Msg)
    requires 3 <= cap && qos < 64 && m.Valid() && Fits(o.abuf, cap)
    requires o.abuf != [] && |Last(o.abuf)| < cap
    ensures var front := o.abuf[..|o.abuf| - 1];
            && Fits(front + [Last(o.abuf) + [m.Body()]], cap)
            && Write(cap, qos, o, m) ==
               Spill(cap, qos, Out(o.counter, front + [Last(o.abuf) + [m.Body()]]), m.data, false)
  {
    hide Spill;
    var front := o.abuf[..|o.abuf| - 1];
    assert AppendLast(o.abuf, [m.Body()]) == front + [Last(o.abuf) + [m.Body()]];
    assert m.data[..Normalize(m.len) / 4] == m.data;
  }

  /** A `Write` that finds no frame, or a full one, enters the message on a blank sheet. */
  lemma WriteNewFrame(cap: nat, qos: nat, r: Run, shs: seq<Sheet>, msgs: seq<Msg>, m: Msg)
    requires 3 <= cap && qos < 64 && m.Valid() && Fits(r.out.abuf, cap)
    requires Laid(cap, qos, r, shs, msgs) && (r.out.abuf == [] || |Last(r.out.abuf)| == cap)
    ensures Laid(cap, qos, Step(cap, qos, r, Send(m)), shs + Entered(cap, BLANK, cap - 2, m), msgs + [m])
  {
    hide *;
    MsgSize(m);
    LaidElim(cap, qos, r, shs, msgs);
    FitsConcat(r.sent, r.out.abuf, cap);
    BlankTarget(cap, qos, |shs|);
    WriteOpens(cap, qos, r.out, m, |shs|);
    WriteEnters(cap, qos, r, shs, r.out.abuf, BLANK, cap - 2, m);
    assert msgs + [] == msgs;
  }

  /** One `Write` that does not start with exactly one free word. */
  lemma WriteLays(cap: nat, qos: nat, r: Run, shs: seq<Sheet>, msgs: seq<Msg>, m: Msg) returns (shs': seq<Sheet>)
    requires 3 <= cap && qos < 64 && m.Valid() && Fits(r.out.abuf, cap)
    requires Laid(cap, qos, r, shs, msgs) && !Tight(cap, r.out)
    ensures Laid(cap, qos, Step(cap, qos, r, Send(m)), shs', msgs + [m])
  {
    hide *;
    var o := r.out;
    if o.abuf == [] || |Last(o.abuf)| == cap {
      WriteNewFrame(cap, qos, r, shs, msgs, m);
      shs' := shs + Entered(cap, BLANK, cap - 2, m);
    } else {
      MsgSize(m);
      LaidElim(cap, qos, r, shs, msgs);
      FitsConcat(r.sent, o.abuf, cap);
      var front, pre := o.abuf[..|o.abuf| - 1], shs[..|shs| - 1];
      var t, free := Last(shs), cap - 1 - |Last(o.abuf)|;
      SizeOf(cap, o);
      LastSheet(cap, qos, r, shs, msgs);
      TargetIntro(cap, qos, |pre|, t, free);
      WriteExtends(cap, qos, o, m);
      WriteEnters(cap, qos, r, pre, front, t, free, m);
      shs' := pre + Entered(cap, t, free, m);
    }
  }

  lemma TargetIntro(cap: nat, qos: nat, k: nat, t: Sheet, free: nat)
    requires qos < 64 && Finished(t) && t.Defined() && 0 < free && |Encode(cap, qos, k, t)| + 1 + free == cap
    ensures Target(cap, qos, k, t, free)
  {
  }

  lemma MsgSize(m: Msg)
    requires m.Valid()
    ensures 0 < |m.data| < 16384
  {
  }

  lemma SizeOf(cap: nat, o: Out)
    requires o.abuf != [] && Fits(o.abuf, cap) && !Tight(cap, o) && |Last(o.abuf)| != cap
    ensures |Last(o.abuf)| < cap - 1 && Fits(o.abuf[..|o.abuf| - 1], cap)
  {
  }

  lemma LaidElim(cap: nat, qos: nat, r: Run, shs: seq<Sheet>, msgs: seq<Msg>)
    requires qos < 64 && Laid(cap, qos, r, shs, msgs)
    ensures AllOk(cap, shs) && Chained(None, shs) && LeftAt(None, shs, |shs|).None? && AllDefined(shs)
    ensures r.sent + r.out.abuf == EncodeAll(cap, qos, 0, shs) && Fits(r.sent + r.out.abuf, cap)
    ensures r.out.counter == Ticks(|shs|) && AllDone(shs) == msgs
    ensures Continues(LeftAt(None, shs, |shs|), BLANK) && BLANK.Defined()
  {
  }

  /** The last sheet of a laid-out run takes the next message if its frame has room. */
  lemma LastSheet(cap: nat, qos: nat, r: Run, shs: seq<Sheet>, msgs: seq<Msg>)
    requires 3 <= cap && qos < 64 && Laid(cap, qos, r, shs, msgs)
    requires r.out.abuf != [] && |Last(r.out.abuf)| < cap
    ensures shs != []
    ensures var pre, t := shs[..|shs| - 1], Last(shs);
            && AllOk(cap, pre) && AllDefined(pre) && Chained(None, pre) && Continues(LeftAt(None, pre, |pre|), t)
            && t.Defined() && Encode(cap, qos, |pre|, t) == Last(r.out.abuf)
            && Finished(t) && t.Ok(cap)
            && r.sent + r.out.abuf[..|r.out.abuf| - 1] == EncodeAll(cap, qos, 0, pre)
            && AllDone(pre) + t.Done() == msgs
  {
    hide *;
    LaidElim(cap, qos, r, shs, msgs);
    assert |EncodeAll(cap, qos, 0, shs)| == |shs|;
    var pre, t := shs[..|shs| - 1], Last(shs);
    LastIs(shs);
    assert shs == pre + [t];
    ChainInit(cap, shs);
    SheetFinished(cap, shs);
    LastFrame(cap, qos, r.sent, r.out.abuf, pre, t);
    AllDoneConcat(pre, [t]);
    AllDoneOne(t);
  }

  lemma SheetFinished(cap: nat, shs: seq<Sheet>)
    requires shs != [] && AllOk(cap, shs) && LeftAt(None, shs, |shs|).None?
    ensures var t := Last(shs); Finished(t) && t.Ok(cap) && t.Defined() && AllDefined([t])
  {
  }

  lemma ChainInit(cap: nat, shs: seq<Sheet>)
    requires shs != [] && AllOk(cap, shs) && Chained(None, shs)
    ensures var pre := shs[..|shs| - 1];
            AllOk(cap, pre) && AllDefined(pre) && Chained(None, pre) && Continues(LeftAt(None, pre, |pre|), Last(shs))
  {
    var pre := shs[..|shs| - 1];
    hide Sheet.Ok, Continues;
    forall i | 0 <= i < |pre|
      ensures Continues(LeftAt(None, pre, i), pre[i])
    {
      assert Continues(LeftAt(None, shs, i), shs[i]);
    }
    assert Continues(LeftAt(None, shs, |pre|), shs[|pre|]);
  }

  lemma LastFrame(cap: nat, qos: nat, sent: seq<Frame>, abuf: seq<Frame>, pre: seq<Sheet>, t: Sheet)
    requires qos < 64 && AllDefined(pre) && AllDefined([t]) && abuf != []
    requires t.Defined() && AllDefined(pre + [t]) && sent + abuf == EncodeAll(cap, qos, 0, pre + [t])
    ensures Encode(cap, qos, |pre|, t) == Last(abuf)
    ensures sent + abuf[..|abuf| - 1] == EncodeAll(cap, qos, 0, pre)
  {
    hide *;
    EncodeAllConcat(cap, qos, 0, pre, [t]);
    EncodeAllAt(cap, qos, 0 + |pre|, [t], 0);
    var a, f := EncodeAll(cap, qos, 0, pre), Encode(cap, qos, |pre|, t);
    assert EncodeAll(cap, qos, 0 + |pre|, [t]) == [f];
    assert sent + abuf == a + [f];
    assert (sent + abuf)[|sent + abuf| - 1] == abuf[|abuf| - 1];
    assert sent + abuf[..|abuf| - 1] == (sent + abuf)[..|sent + abuf| - 1];
    LastIs(abuf);
  }

  lemma LastIs<T>(s: seq<T>)
    requires s != []
    ensures Last(s) == s[|s| - 1]
  {
  }

  /** Taking a frame off the front of the queue changes nothing in the stream. */
  lemma FlushLays(cap: nat, qos: nat, r: Run, shs: seq<Sheet>, msgs: seq<Msg>)
    requires 3 <= cap && qos < 64 && Fits(r.out.abuf, cap) && Laid(cap, qos, r, shs, msgs)
    ensures Laid(cap, qos, Step(cap, qos, r, Flush), shs, msgs)
  {
    hide EncodeAll, AllOk, Chained, Ticks, AllDone, Fits;
    assert Step(cap, qos, r, Flush).Stream() == r.Stream();
  }

  /** Every roomy run is laid out as a chain that carries what was sent. */
  lemma {:induction false} RunLays(cap: nat, qos: nat, ops: seq<Op>) returns (shs: seq<Sheet>)
    requires 3 <= cap && qos < 64 && Sendable(ops) && Roomy(cap, qos, ops)
    ensures Laid(cap, qos, Exec(cap, qos, ops), shs, Sends(ops))
  {
    if ops == [] {
      shs := [];
    } else {
      var init := ops[..|ops| - 1];
      var before := RunLays(cap, qos, init);
      hide Laid, Write, Tight;
      match Last(ops) {
        case Send(m) =>
          shs := WriteLays(cap, qos, Exec(cap, qos, init), before, Sends(init), m);
        case Flush =>
          shs := before;
          FlushLays(cap, qos, Exec(cap, qos, init), shs, Sends(init));
          assert Sends(init) + [] == Sends(init);
      }
    }
  }

  // ----- flushing -----

  /** k frames leave the writer, or all if there are fewer. */
  function Flushes(k: nat): seq<Op> {
    seq(k, _ => Flush)
  }

  /** Each flush sends the first frame that is left, and none is lost or changed on the way. */
  lemma {:induction false} FlushesSend(cap: nat, qos: nat, ops: seq<Op>, k: nat)
    requires 3 <= cap && qos < 64 && Written(ops)
    ensures Written(ops + Flushes(k)) && Sends(ops + Flushes(k)) == Sends(ops)
    ensures var r, t := Exec(cap, qos, ops), Exec(cap, qos, ops + Flushes(k));
            && t.Stream() == r.Stream() && |t.sent| == |r.sent| + Least(k, |r.out.abuf|)
            && |t.out.abuf| == |r.out.abuf| - Least(k, |r.out.abuf|)
    decreases k
  {
    hide Write;
    if k == 0 {
      assert ops + Flushes(0) == ops;
    } else {
      FlushesSend(cap, qos, ops, k - 1);
      var all := ops + Flushes(k);
      assert all[..|all| - 1] == ops + Flushes(k - 1) && Last(all) == Flush;
      FlushSends(cap, qos, Exec(cap, qos, ops + Flushes(k - 1)));
      assert Sends(ops) + [] == Sends(ops);
    }
  }

  lemma FlushSends(cap: nat, qos: nat, r: Run)
    requires 3 <= cap && qos < 64 && Fits(r.out.abuf, cap)
    ensures var t := Step(cap, qos, r, Flush);
            && t.Stream() == r.Stream()
            && |t.sent| == |r.sent| + (if r.out.abuf == [] then 0 else 1)
            && |t.out.abuf| == |r.out.abuf| - (if r.out.abuf == [] then 0 else 1)
  {
  }
}
