/** The frame writer and reader as the objects they are: blocks with a write offset, a writer that
    patches frames in place, and a reader that copies into a fixed reassembly buffer. Each method is
    proved to compute the function of Codec.dfy that stands for it. */
module Transport {
  import opened Sequences
  import opened Wire
  import opened Codec

  /** A block of words with a write offset; reading starts at 0. */
  class Block {
    const buffer: array<Word>
    var wr: nat

    ghost predicate Valid()
      reads this
    {
      wr <= buffer.Length
    }

    ghost function Contents(): Frame
      requires Valid()
      reads this, buffer
    {
      buffer[..wr]
    }

    /** A zeroed block. */
    constructor (cap: nat)
      ensures Valid() && fresh(buffer) && buffer.Length == cap && wr == 0
      ensures forall i | 0 <= i < cap :: buffer[i] == Word(0, 0)
    {
      buffer := new Word[cap](_ => Word(0, 0));
      wr := 0;
    }

    function Space(): nat
      requires Valid()
      reads this
    {
      buffer.Length - wr
    }

    /** Appends words if there are any and they fit; otherwise nothing happens. */
    method Copy(words: seq<Word>) returns (ok: bool)
      requires Valid()
      modifies this`wr, buffer
      ensures Valid() && ok == (words != [] && |words| <= old(Space()))
      ensures Contents() == if ok then old(Contents()) + words else old(Contents())
    {
      if words == [] || Space() < |words| {
        return false;
      }
      forall i | 0 <= i < |words| {
        buffer[wr + i] := words[i];
      }
      wr := wr + |words|;
      return true;
    }
  }

  /** `AkvaWriter`: `abuf` is the queue of frames, and `counter` the number of the last one. */
  class Writer {
    const cap: nat
    const qos: nat
    var counter: u16
    var abuf: seq<Block>
    ghost var out: Out

    ghost predicate Valid()
      reads this, abuf, set b <- abuf :: b.buffer
    {
      && 3 <= cap && qos < 64 && out.counter == counter
      && |abuf| == |out.abuf| && Fits(out.abuf, cap)
      && (forall i | 0 <= i < |abuf| ::
            abuf[i].Valid() && abuf[i].buffer.Length == cap && abuf[i].Contents() == out.abuf[i])
      && (forall i, j | 0 <= i < j < |abuf| :: abuf[i] != abuf[j] && abuf[i].buffer != abuf[j].buffer)
    }

    constructor (cap: nat, qos: nat)
      requires 3 <= cap && qos < 64
      ensures Valid() && this.cap == cap && this.qos == qos && out == Out(0, [])
    {
      this.cap, this.qos := cap, qos;
      counter, abuf := 0, [];
      out := Out(0, []);
    }

    lemma LastValid()
      requires Valid() && abuf != []
      ensures out.abuf != [] && Fits(out.abuf, cap) && 3 <= cap && qos < 64
      ensures var f := abuf[|abuf| - 1];
              f.Valid() && f.Space() == cap - |Last(out.abuf)|
    {
    }

    lemma EmptyValid()
      requires Valid()
      ensures out.counter == counter && (abuf == [] <==> out.abuf == []) && Fits(out.abuf, cap) && 3 <= cap && qos < 64
    {
    }

    /** Takes a block, puts a frame header with pointer 0 into it and queues it. */
    method NewFrame() returns (f: Block)
      requires Valid()
      modifies this`counter, this`abuf, this`out
      ensures Valid() && fresh(f) && fresh(f.buffer) && abuf == old(abuf) + [f] && f.wr == 1
      ensures out == Open(old(out), qos, 0)
    {
      f := new Block(cap);
      counter := Bump(counter);
      f.buffer[0] := Word(Stamp(counter, qos), 0);
      f.wr := 1;
      abuf := abuf + [f];
      out := Open(out, qos, 0);
      assert f.Contents() == [f.buffer[0]];
    }
  
    /** Adds words behind the last frame. */
    method Put(f: Block, words: seq<Word>)
      requires Valid() && abuf != [] && f == abuf[|abuf| - 1] && words != [] && |words| <= f.Space()
      modifies f`wr, f.buffer, this`out
      ensures Valid() && out == old(out).(abuf := AppendLast(old(out).abuf, words))
    {
      var ok := f.Copy(words);
      out := out.(abuf := AppendLast(out.abuf, words));
    }

    /** Patches the pointer of the last frame. */
    method Mark(f: Block, pointer: u16)
      requires Valid() && abuf != [] && f == abuf[|abuf| - 1]
      modifies f.buffer, this`out
      ensures Valid()
      ensures var fs := old(out).abuf;
              out == old(out).(abuf := fs[|fs| - 1 := Last(fs)[0 := Word(Last(fs)[0].lo, pointer)]])
    {
      var header := Word(f.buffer[0].lo, pointer);
      f.buffer[0] := header;
      out := out.(abuf := out.abuf[|out.abuf| - 1 := Last(out.abuf)[0 := header]]);
      assert f.Contents() == Last(out.abuf);
    }

    /** `AkvaWriter::Write`. */
    method Write(spec: u16, data: seq<Word>, len: u16)
      requires Valid() && |data| == Ceil4(len)
      modifies this`counter, this`abuf, this`out, abuf, set b <- abuf :: b.buffer
      ensures Valid() && out == Codec.Write(cap, qos, old(out), Msg(spec, len, data))
      ensures old(abuf) <= abuf
    {
      hide Valid, Block.Valid, Block.Space, Spill, Codec.Write;
      EmptyValid();
      var f := Begin(Word(len, spec));
      WriteIs(cap, qos, old(out), Msg(spec, len, data));
      LastValid();
      var bytes, writed := Normalize(len), 0;
      ghost var all, start := data[..bytes / 4], out;
      while writed < bytes
        invariant Valid() && abuf != [] && f == abuf[|abuf| - 1] && writed % 4 == 0 && writed <= bytes
        invariant old(abuf) <= abuf
        invariant (f in old(abuf) && f.buffer in (set b <- old(abuf) :: b.buffer)) || (fresh(f) && fresh(f.buffer))
        invariant out.abuf != [] && Fits(out.abuf, cap)
        invariant Spill(cap, qos, start, all, false) == Spill(cap, qos, out, all[writed / 4..], writed > 0)
        decreases bytes - writed
      {
        var n;
        f, n := Turn(f, all[writed / 4..], data[writed / 4..], bytes - writed, 0 < writed);
        assert all[writed / 4..][n..] == all[(writed + 4 * n) / 4..];
        writed := writed + 4 * n;
        LastValid();
      }
      assert all[writed / 4..] == [];
      SpillNothing(out, writed > 0);
    }

    /** Finds the frame with a free word, or queues a new one, and puts the body header there. */
    method Begin(body: Word) returns (f: Block)
      requires Valid() && Fits(out.abuf, cap) && 3 <= cap && qos < 64
      modifies this`counter, this`abuf, this`out, abuf, set b <- abuf :: b.buffer
      ensures Valid() && old(abuf) <= abuf && abuf != [] && f == abuf[|abuf| - 1]
      ensures (f in old(abuf) && f.buffer in (set b <- old(abuf) :: b.buffer)) || (fresh(f) && fresh(f.buffer))
      ensures out == Headed(cap, qos, old(out), body)
    {
      hide Valid, Block.Valid, Block.Space, Spill;
      EmptyValid();
      if abuf != [] {
        LastValid();
      }
      if abuf == [] || abuf[|abuf| - 1].Space() == 0 {
        f := NewFrame();
      } else {
        f := abuf[|abuf| - 1];
      }
      LastValid();
      Put(f, [body]);
      LastValid();
    }

    /** A new frame in the middle of a payload: its pointer is patched unless this is the first payload
        word. */
    method NextFrame(ghost rem: seq<Word>, left: u16, started: bool) returns (f: Block)
      requires Valid() && abuf != [] && 0 < left <= MAX_LEN && left == 4 * |rem|
      modifies this`counter, this`abuf, this`out
      ensures Valid() && fresh(f) && fresh(f.buffer) && abuf == old(abuf) + [f]
      ensures out == Open(old(out), qos, Pointer(cap, |rem|, started)) && |Last(out.abuf)| == 1
    {
      hide Valid, Block.Valid, Block.Space;
      ghost var o := out;
      f := NewFrame();
      LastValid();
      var space := f.Space();
      if started {
        Mark(f, if left / 4 < space then left else MORE);
        Patched(o, Pointer(cap, |rem|, started), out);
      }
    }

    /** The body of the payload loop: `left` bytes of `data` remain. A full frame is replaced by a new
        one; then the frame takes what fits. */
    method Turn(f0: Block, ghost rem: seq<Word>, data: seq<Word>, left: u16, started: bool) returns (f: Block, n: nat)
      requires Valid() && abuf != [] && f0 == abuf[|abuf| - 1]
      requires 0 < left <= MAX_LEN && left % 4 == 0 && left / 4 <= |data| && rem == data[..left / 4]
      modifies this`counter, this`abuf, this`out, f0`wr, f0.buffer
      ensures Valid() && old(abuf) <= abuf && abuf != [] && f == abuf[|abuf| - 1]
      ensures f == f0 || (fresh(f) && fresh(f.buffer))
      ensures 0 < n <= |rem| && Spill(cap, qos, old(out), rem, started) == Spill(cap, qos, out, rem[n..], true)
    {
      hide Valid, Block.Valid, Block.Space, Spill, Open, Pointer;
      LastValid();
      f := f0;
      ghost var o := out;
      if f.Space() == 0 {
        f := NextFrame(rem, left, started);
      }
      LastValid();
      var space := f.Space();
      n := if left / 4 < space then left / 4 else space;
      Put(f, data[..n]);
      LastValid();
      assert data[..n] == rem[..n];
      OneTurn(o, rem, started, out, n);
    }

    lemma Patched(o: Out, pointer: u16, q: Out)
      requires qos < 64
      requires var p := Open(o, qos, 0);
               var fs := p.abuf;
               q == p.(abuf := fs[|fs| - 1 := Last(fs)[0 := Word(Last(fs)[0].lo, pointer)]])
      ensures q == Open(o, qos, pointer)
    {
      var fs := Open(o, qos, 0).abuf;
      var f: Frame := Last(fs);
      assert f[0 := Word(f[0].lo, pointer)] == [Word(f[0].lo, pointer)];
    }

    lemma WriteIs(cap: nat, qos: nat, o: Out, m: Msg)
      requires 2 <= cap && qos < 64 && |m.data| == Ceil4(m.len) && Fits(o.abuf, cap)
      ensures Codec.Write(cap, qos, o, m) ==
              Spill(cap, qos, Headed(cap, qos, o, m.Body()), m.data[..Normalize(m.len) / 4], false)
    {
    }

    lemma SpillNothing(o: Out, started: bool)
      requires 3 <= cap && qos < 64 && o.abuf != [] && Fits(o.abuf, cap)
      ensures Spill(cap, qos, o, [], started) == o
    {
    }

    /** One turn of the loop is one step of the function. */
    lemma OneTurn(o: Out, rem: seq<Word>, started: bool, q: Out, n: nat)
      requires 3 <= cap && qos < 64 && 0 < |rem| < 16384 && o.abuf != [] && Fits(o.abuf, cap)
      requires q.abuf != [] && Fits(q.abuf, cap) && n <= |rem|
      requires var alloc := |Last(o.abuf)| == cap;
               var p := if alloc then Open(o, qos, Pointer(cap, |rem|, started)) else o;
               && n == (if |rem| < cap - |Last(p.abuf)| then |rem| else cap - |Last(p.abuf)|)
               && q == p.(abuf := AppendLast(p.abuf, rem[..n]))
      ensures 0 < n && Spill(cap, qos, o, rem, started) == Spill(cap, qos, q, rem[n..], true)
    {
    }
  }

  /** `AkvaReader`: a reassembly buffer of which the first `writed` words are in use, and a window
      b..e of the frame being read. */
  class Reader {
    const buf: array<Word>
    var writed: nat
    var counter: u16
    var lose: bool
    var hdr: Word
    var frame: Frame
    var b: nat

    ghost predicate Valid()
      reads this
    {
      writed <= buf.Length && b <= |frame|
    }

    /** The reader as a value. */
    ghost function State(): In
      requires Valid()
      reads this, buf
    {
      In(counter, lose, hdr, buf[..writed], frame[b..])
    }

    constructor (len: nat)
      ensures Valid() && fresh(buf) && buf.Length == len && Fresh()
    {
      buf := new Word[len](_ => Word(0, 0));
      writed, counter, lose := 0, 0, false;
      frame, b := [], 0;
    }

    predicate Fresh()
      reads this
    {
      counter == 0 && writed == 0
    }

    /** `Complited`. */
    method Complited() returns (done: bool)
      requires Valid()
      ensures done <==> Complete(State())
    {
      done := 4 * writed == Normalize(hdr.lo);
    }

    /** Copies up to n words of the frame behind what the buffer holds. */
    method Take(n: nat)
      requires Valid() && |Codec.Copy(State(), n).got| <= buf.Length
      modifies this`writed, this`b, buf
      ensures Valid() && State() == Codec.Copy(old(State()), n)
    {
      var c := if b + n > |frame| then |frame| else b + n;
      forall i | 0 <= i < c - b {
        buf[writed + i] := frame[b + i];
      }
      assert buf[..writed + (c - b)] == old(buf[..writed]) + frame[b..c];
      assert frame[b..][..c - b] == frame[b..c] && frame[b..][c - b..] == frame[c..];
      writed, b := writed + (c - b), c;
    }

    /** A message starts at the current word. */
    method Begin() returns (more: bool)
      requires Valid() && b < |frame| && |Start(State()).1.got| <= buf.Length
      modifies this`writed, this`b, this`hdr, buf
      ensures Valid() && (more, State()) == Start(old(State()))
    {
      writed, hdr := 0, frame[b];
      if hdr.lo > 0 {
        b := b + 1;
        Take(Ceil4(hdr.lo));
        return true;
      }
      return false;
    }

    /** `Head`. The frame must fit the buffer where it is copied. */
    method Head(f: Frame) returns (more: bool)
      requires Valid() && Readable(f) && |Codec.Head(State(), f).1.got| <= buf.Length
      modifies this, buf
      ensures Valid() && (more, State()) == Codec.Head(old(State()), f)
    {
      frame, b := f, 0;
      if |f| == 0 {
        return false;
      }
      var fh := f[0];
      b := 1;
      if (fh.lo - counter) % MAX_COUNTER > 1 {
        writed := 0;
        lose := true;
      } else {
        lose := false;
      }
      counter := fh.lo;
      if fh.hi == MORE {
        Take(|f| - b);
      } else if fh.hi > 0 {
        Take(Ceil4(fh.hi));
      } else {
        more := Begin();
        return;
      }
      return true;
    }

    /** `Next`. */
    method Next() returns (more: bool)
      requires Valid() && (b < |frame| ==> |Start(State()).1.got| <= buf.Length)
      modifies this`writed, this`b, this`hdr, buf
      ensures Valid() && if old(b) == |frame| then !more && State() == old(State())
              else (more, State()) == Start(old(State()))
    {
      if b == |frame| {
        return false;
      }
      more := Begin();
    }
  }
}
