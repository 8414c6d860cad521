/** Frames may be lost on the way. The reader is followed over an in-order subsequence of a chain of
    frames: messages all of whose frames arrive come out, and whatever else comes out is made of the
    continuation frames of a message whose beginning was lost. */
module Loss {
  import opened Sequences
  import opened Wire
  import opened Codec
  import opened Sheets
  import opened Layout

  /** The numbers of the frames that arrive: in order, fewer than 1023 lost in a row. (A reader that
      has seen nothing behaves as if it had seen the frame before frame 0.) */
  ghost predicate Delivery(d: seq<nat>, n: nat) {
    && (forall t | 0 <= t < |d| :: d[t] < n)
    && (forall t | 0 <= t < |d| :: Near(d, t))
  }

  predicate Near(d: seq<nat>, t: nat)
    requires t < |d|
  {
    Before(d, t) < d[t] <= Before(d, t) + 1023
  }

  /** The last frame seen before the t-th arrival. */
  function Before(d: seq<nat>, t: nat): int
    requires t <= |d|
  {
    if t == 0 then -1 else d[t - 1]
  }

  function Pick(fs: seq<Frame>, d: seq<nat>): (r: seq<Frame>)
    requires forall t | 0 <= t < |d| :: d[t] < |fs|
    ensures |r| == |d| && forall t | 0 <= t < |d| :: r[t] == fs[d[t]]
  {
    seq(|d|, t requires 0 <= t < |d| => fs[d[t]])
  }

  /** A reader that has just been constructed. Its header is not initialised. */
  predicate Fresh(s: In) {
    s.counter == 0 && s.got == []
  }

  /** The frame in which the message continued by frame i begins. */
  function First(shs: seq<Sheet>, i: nat): (f: nat)
    requires i < |shs|
    ensures f <= i
  {
    if shs[i].cont.None? || i == 0 then i
    else if shs[i - 1].open.Some? then i - 1
    else First(shs, i - 1)
  }

  /** All frames of the message continued by the t-th arrival have arrived up to that one. */
  ghost predicate Arrived(shs: seq<Sheet>, d: seq<nat>, t: nat)
    requires t < |d| && d[t] < |shs|
  {
    ArrivedTo(shs, d, d[t])
  }

  ghost predicate ArrivedTo(shs: seq<Sheet>, d: seq<nat>, i: nat)
    requires i < |shs|
  {
    forall j | First(shs, i) <= j <= i :: j in d
  }

  /** A chain of sheets on the channel. */
  ghost predicate Channel(cap: nat, qos: nat, shs: seq<Sheet>, d: seq<nat>) {
    && 3 <= cap && qos < 64 && AllOk(cap, shs) && AllDefined(shs) && Chained(None, shs) && Delivery(d, |shs|)
    && forall i | 0 <= i < |shs| :: |Encode(cap, qos, i, shs[i])| <= cap
  }

  /** The reader before the t-th arrival. */
  ghost function StateAt(s: In, cap: nat, qos: nat, shs: seq<Sheet>, d: seq<nat>, t: nat): In
    requires Channel(cap, qos, shs, d) && t <= |d|
  {
    if t == 0 then s else ReadSheet(StateAt(s, cap, qos, shs, d, t - 1), cap, qos, d[t - 1], shs[d[t - 1]]).0
  }

  /** What the t-th arrival must bring: the message it finishes, if all of it arrived, and the
      messages inside it. */
  ghost function Genuine(shs: seq<Sheet>, d: seq<nat>, t: nat): seq<Msg>
    requires t < |d| && d[t] < |shs|
  {
    var sh := shs[d[t]];
    (if sh.cont.Some? && sh.cont.value.Ends() && Arrived(shs, d, t) then [sh.cont.value.m] else []) + sh.whole
  }

  ghost function Expected(shs: seq<Sheet>, d: seq<nat>, t: nat): seq<Msg>
    requires t <= |d| && forall u | 0 <= u < |d| :: d[u] < |shs|
  {
    if t == 0 then [] else Expected(shs, d, t - 1) + Genuine(shs, d, t - 1)
  }

  /** Words in the buffer after t arrivals: of the last message that begins in the last frame, or what was
      kept before that frame with its continuation. */
  function Size(shs: seq<Sheet>, d: seq<nat>, t: nat): nat
    requires t <= |d| && forall u | 0 <= u < |d| :: d[u] < |shs|
    decreases t, 0
  {
    if t == 0 then 0
    else
      var sh := shs[d[t - 1]];
      if sh.open.Some? then sh.open.value.n
      else if sh.whole != [] then |Last(sh.whole).data|
      else Joined(shs, d, t - 1)
  }

  /** Words in the buffer when the t-th arrival has added its continuation to what was kept. Only a frame
      that directly follows the one seen before leaves the buffer as it was. */
  function Joined(shs: seq<Sheet>, d: seq<nat>, t: nat): nat
    requires t < |d| && forall u | 0 <= u < |d| :: d[u] < |shs|
    decreases t, 1
  {
    (if Before(d, t) + 1 == d[t] then Size(shs, d, t) else 0) +
    (if shs[d[t]].cont.Some? then shs[d[t]].cont.value.n else 0)
  }

  /** The last body header in the first t arrivals. */
  function Header(first: Word, shs: seq<Sheet>, d: seq<nat>, t: nat): Word
    requires t <= |d| && forall u | 0 <= u < |d| :: d[u] < |shs|
  {
    if t == 0 then first
    else
      var sh := shs[d[t - 1]];
      if sh.open.Some? then sh.open.value.m.Body()
      else if sh.whole != [] then Last(sh.whole).Body()
      else Header(first, shs, d, t - 1)
  }

  /** The t-th arrival continues a message not all of whose frames arrived, and yet the words kept and
      those it brings are as many as the last header that arrived announces. */
  ghost predicate Spurious(first: Word, shs: seq<Sheet>, d: seq<nat>, t: nat)
    requires t < |d| && forall u | 0 <= u < |d| :: d[u] < |shs|
  {
    shs[d[t]].cont.Some? && !Arrived(shs, d, t) && 4 * Joined(shs, d, t) == Normalize(Header(first, shs, d, t).lo)
  }

  // ----- the frames of a message arrive without a gap -----

  /** Arrival t continues what arrival t - 1 left, and that was complete so far. */
  ghost predicate Held(shs: seq<Sheet>, d: seq<nat>, t: nat)
    requires t < |d| && forall u | 0 <= u < |d| :: d[u] < |shs|
  {
    shs[d[t]].cont.None? ||
    (0 < t && d[t - 1] + 1 == d[t] && (shs[d[t - 1]].open.Some? || Held(shs, d, t - 1)))
  }

  lemma {:induction false} Increasing(d: seq<nat>, n: nat, t: nat, u: nat)
    requires Delivery(d, n) && t < u < |d|
    ensures d[t] < d[u]
  {
    assert Near(d, u);
    if t < u - 1 {
      Increasing(d, n, t, u - 1);
    }
  }

  /** Frame j arrived just before frame j + 1 if it arrived at all. */
  lemma ArrivedBefore(d: seq<nat>, n: nat, t: nat, j: nat)
    requires Delivery(d, n) && t < |d| && d[t] == j + 1 && j in d
    ensures 0 < t && d[t - 1] == j
  {
    var u :| 0 <= u < |d| && d[u] == j;
    if t < u {
      Increasing(d, n, t, u);
    } else if u < t - 1 {
      Increasing(d, n, u, t - 1);
      Increasing(d, n, t - 1, t);
    }
  }

  lemma FirstStep(shs: seq<Sheet>, d: seq<nat>, i: nat)
    requires 0 < i < |shs| && shs[i].cont.Some? && i in d
    ensures ArrivedTo(shs, d, i) <==> i - 1 in d && (shs[i - 1].open.Some? || ArrivedTo(shs, d, i - 1))
  {
  }

  lemma FirstOwn(shs: seq<Sheet>, d: seq<nat>, i: nat)
    requires i < |shs| && shs[i].cont.None? && i in d
    ensures ArrivedTo(shs, d, i)
  {
  }

  lemma ChannelFacts(cap: nat, qos: nat, shs: seq<Sheet>, d: seq<nat>, t: nat)
    requires Channel(cap, qos, shs, d) && t < |d|
    ensures Delivery(d, |shs|) && d[t] < |shs|
    ensures forall u | 0 <= u < |d| :: d[u] < |shs|
    ensures Continues(LeftAt(None, shs, d[t]), shs[d[t]]) && (shs[d[t]].cont.Some? ==> 0 < d[t])
  {
    hide AllOk, Encode;
  }

  lemma {:induction false} HeldIsArrived(cap: nat, qos: nat, shs: seq<Sheet>, d: seq<nat>, t: nat)
    requires Channel(cap, qos, shs, d) && t < |d|
    ensures d[t] < |shs| && forall u | 0 <= u < |d| :: d[u] < |shs|
    ensures Held(shs, d, t) <==> Arrived(shs, d, t)
  {
    hide Channel, Delivery, ArrivedTo;
    ChannelFacts(cap, qos, shs, d, t);
    var i := d[t];
    assert i in d;
    if shs[i].cont.None? {
      FirstOwn(shs, d, i);
    } else {
      FirstStep(shs, d, i);
      if 0 < t && d[t - 1] + 1 == i {
        assert d[t - 1] in d && d[t - 1] == i - 1;
        HeldIsArrived(cap, qos, shs, d, t - 1);
      } else if i - 1 in d {
        ArrivedBefore(d, |shs|, t, i - 1);
      }
    }
  }

  // ----- what the reader holds -----

  /** The reader has just seen frame i (-1: none). Of the message left open there it holds the last
      few words, and all of them if `held`. */
  ghost predicate Tracks(s: In, shs: seq<Sheet>, i: int, held: bool)
    requires -1 <= i < |shs|
  {
    && (i + 1 - s.counter) % MAX_COUNTER == 0
    && (0 <= i && Left(shs[i]).Some? ==> Holds(s, Left(shs[i]).value.0, Left(shs[i]).value.1, held))
  }

  /** The buffer ends with word n of m. */
  ghost predicate Holds(s: In, m: Msg, n: nat, held: bool) {
    && |s.got| <= n <= |m.data| && s.got == m.data[n - |s.got|..n]
    && (held ==> |s.got| == n && s.hdr == m.Body())
  }

  /** What is left open after t arrivals has arrived from its beginning. */
  ghost predicate HeldAfter(shs: seq<Sheet>, d: seq<nat>, t: nat)
    requires t <= |d| && forall u | 0 <= u < |d| :: d[u] < |shs|
  {
    0 < t && (shs[d[t - 1]].open.Some? || Held(shs, d, t - 1))
  }

  /** The counter shows loss exactly when the frame is not the next one. */
  lemma LostIff(c: u16, b: int, i: int)
    requires (b + 1 - c) % MAX_COUNTER == 0 && b < i <= b + 1023
    ensures (i + 1 - c) % MAX_COUNTER > 1 <==> i != b + 1
  {
    assert (i + 1 - c) % MAX_COUNTER == i - b;
  }

  /** More words go to the buffer: it holds the end of what has been sent, and more of it. */
  lemma CopyHolds(s: In, t: In, p: Part, all: bool)
    requires p.Ok() && t.hdr == s.hdr && t.got == s.got + p.Words()
    requires s.got == [] || Holds(s, p.m, p.from, all)
    requires all ==> Holds(s, p.m, p.from, true)
    ensures Holds(t, p.m, p.from + p.n, all)
  {
    var k := p.from - |s.got|;
    assert s.got == p.m.data[k..p.from];
    assert p.m.data[k..p.from] + p.m.data[p.from..p.from + p.n] == p.m.data[k..p.from + p.n];
  }

  /** What the continuation of a frame does to the buffer. */
  lemma ContCopies(s: In, cap: nat, qos: nat, b: int, i: nat, sh: Sheet)
    requires qos < 64 && -1 <= b < i <= b + 1023 && (b + 1 - s.counter) % MAX_COUNTER == 0 && sh.Ok(cap)
             && sh.cont.Some?
    ensures var t := AfterCont(s, cap, qos, i, sh);
            t.hdr == s.hdr && t.got == (if i == b + 1 then s.got else []) + sh.cont.value.Words()
  {
    LostIff(s.counter, b, i);
  }

  /** Continued payload: the buffer goes on holding the end of what has been sent. */
  lemma ContHolds(s: In, cap: nat, qos: nat, shs: seq<Sheet>, b: int, i: nat, held: bool)
    requires qos < 64 && -1 <= b < i < |shs| && i <= b + 1023 && Tracks(s, shs, b, held)
    requires shs[i].Ok(cap) && shs[i].cont.Some? && 0 < i && Continues(Left(shs[i - 1]), shs[i])
    ensures var p := shs[i].cont.value;
            Holds(AfterCont(s, cap, qos, i, shs[i]), p.m, p.from + p.n, held && b + 1 == i)
  {
    var p := shs[i].cont.value;
    ContCopies(s, cap, qos, b, i, shs[i]);
    hide AfterCont;
    var t := AfterCont(s, cap, qos, i, shs[i]);
    if b + 1 == i {
      assert Holds(s, p.m, p.from, held);
      CopyHolds(s, t, p, held);
    } else {
      CopyHolds(s.(got := []), t, p, false);
    }
  }

  lemma StampCounts(i: nat, qos: nat)
    requires qos < 64
    ensures (i - Stamp(i, qos)) % MAX_COUNTER == 0
  {
    StampDistance(i, qos, Stamp(i, qos));
  }

  /** What a frame leaves open. */
  lemma SheetTracks(s: In, cap: nat, qos: nat, shs: seq<Sheet>, i: nat, held: bool)
    requires qos < 64 && i < |shs| && shs[i].Ok(cap)
    requires shs[i].cont.Some? ==>
               var p := shs[i].cont.value; Holds(AfterCont(s, cap, qos, i, shs[i]), p.m, p.from + p.n, held)
    ensures Tracks(ReadSheet(s, cap, qos, i, shs[i]).0, shs, i, shs[i].open.Some? || held)
  {
    StampCounts(i + 1, qos);
    hide Stamp;
  }

  /** Reports of a continuation: a whole message if all of it is held. */
  lemma ContReports(c: In, p: Part, held: bool)
    requires p.Ok() && Holds(c, p.m, p.from + p.n, held) && held
    ensures Report(c) == if p.Ends() then [p.m] else []
  {
    ReportPart(c, p.m, p.from + p.n);
  }

  lemma SheetOf(cap: nat, qos: nat, shs: seq<Sheet>, d: seq<nat>, t: nat)
    requires Channel(cap, qos, shs, d) && t < |d|
    ensures qos < 64 && d[t] < |shs| && shs[d[t]].Ok(cap) && Near(d, t)
    ensures forall u | 0 <= u < |d| :: d[u] < |shs|
  {
    hide Sheet.Ok, Encode, Chained, Near;
  }

  lemma HeldStep(shs: seq<Sheet>, d: seq<nat>, t: nat)
    requires t < |d| && forall u | 0 <= u < |d| :: d[u] < |shs|
    ensures shs[d[t]].cont.Some? ==> Held(shs, d, t) == (HeldAfter(shs, d, t) && Before(d, t) + 1 == d[t])
    ensures HeldAfter(shs, d, t + 1) == (shs[d[t]].open.Some? || Held(shs, d, t))
    ensures Before(d, t + 1) == d[t] && !HeldAfter(shs, d, 0) && Before(d, 0) == -1
  {
  }

  /** Everything known about the t-th arrival. */
  lemma Arrival(cap: nat, qos: nat, shs: seq<Sheet>, d: seq<nat>, t: nat)
    requires Channel(cap, qos, shs, d) && t < |d|
    ensures qos < 64 && d[t] < |shs| && shs[d[t]].Ok(cap) && Before(d, t) < d[t] <= Before(d, t) + 1023
    ensures -1 <= Before(d, t)
    ensures forall u | 0 <= u < |d| :: d[u] < |shs|
    ensures shs[d[t]].cont.Some? ==> 0 < d[t] && Continues(Left(shs[d[t] - 1]), shs[d[t]])
  {
    SheetOf(cap, qos, shs, d, t);
    ChannelFacts(cap, qos, shs, d, t);
    hide Channel, Delivery, Sheet.Ok;
  }

  lemma StateStep(s: In, cap: nat, qos: nat, shs: seq<Sheet>, d: seq<nat>, t: nat)
    requires Channel(cap, qos, shs, d) && t < |d| && qos < 64 && d[t] < |shs| && shs[d[t]].Ok(cap)
    ensures StateAt(s, cap, qos, shs, d, t + 1) ==
            ReadSheet(StateAt(s, cap, qos, shs, d, t), cap, qos, d[t], shs[d[t]]).0
  {
    hide Channel, ReadSheet;
  }

  /** After any arrivals the reader holds the end of the message left open. */
  lemma {:induction false} TracksAt(s: In, cap: nat, qos: nat, shs: seq<Sheet>, d: seq<nat>, t: nat)
    requires Channel(cap, qos, shs, d) && t <= |d| && Fresh(s)
    requires forall u | 0 <= u < |d| :: d[u] < |shs|
    ensures -1 <= Before(d, t) < |shs|
    ensures Tracks(StateAt(s, cap, qos, shs, d, t), shs, Before(d, t), HeldAfter(shs, d, t))
    decreases t, 0
  {
    hide *;
    if t == 0 {
      TracksStart(s, cap, qos, shs, d);
    } else {
      TracksStep(s, cap, qos, shs, d, t - 1);
    }
  }

  lemma TracksStart(s: In, cap: nat, qos: nat, shs: seq<Sheet>, d: seq<nat>)
    requires Channel(cap, qos, shs, d) && Fresh(s) && forall u | 0 <= u < |d| :: d[u] < |shs|
    ensures -1 <= Before(d, 0) < |shs|
    ensures Tracks(StateAt(s, cap, qos, shs, d, 0), shs, Before(d, 0), HeldAfter(shs, d, 0))
  {
    hide Channel;
  }

  lemma TracksStep(s: In, cap: nat, qos: nat, shs: seq<Sheet>, d: seq<nat>, t: nat)
    requires Channel(cap, qos, shs, d) && t < |d| && Fresh(s)
    requires forall u | 0 <= u < |d| :: d[u] < |shs|
    ensures -1 <= Before(d, t + 1) < |shs|
    ensures Tracks(StateAt(s, cap, qos, shs, d, t + 1), shs, Before(d, t + 1), HeldAfter(shs, d, t + 1))
    decreases t, 2
  {
    hide *;
    Arrival(cap, qos, shs, d, t);
    ArrivalHolds(s, cap, qos, shs, d, t);
    HeldStep(shs, d, t);
    StateStep(s, cap, qos, shs, d, t);
    SheetTracks(StateAt(s, cap, qos, shs, d, t), cap, qos, shs, d[t], Held(shs, d, t));
  }

  /** Continued payload after t arrivals: the reader holds the end of the message, and all of it so
      far if no frame of it is missing. */
  lemma ArrivalHolds(s: In, cap: nat, qos: nat, shs: seq<Sheet>, d: seq<nat>, t: nat)
    requires Channel(cap, qos, shs, d) && t < |d| && Fresh(s)
    requires forall u | 0 <= u < |d| :: d[u] < |shs|
    requires qos < 64 && shs[d[t]].Ok(cap)
    ensures shs[d[t]].cont.Some? ==>
              var p := shs[d[t]].cont.value;
              Holds(AfterCont(StateAt(s, cap, qos, shs, d, t), cap, qos, d[t], shs[d[t]]), p.m, p.from + p.n,
                    Held(shs, d, t))
    decreases t, 1
  {
    hide *;
    Arrival(cap, qos, shs, d, t);
    HeldStep(shs, d, t);
    TracksAt(s, cap, qos, shs, d, t);
    if shs[d[t]].cont.Some? {
      ContHolds(StateAt(s, cap, qos, shs, d, t), cap, qos, shs, Before(d, t), d[t], HeldAfter(shs, d, t));
    }
  }

  // ----- size and header, from the layout and the delivery alone -----

  lemma StartsSize(s: In, whole: seq<Msg>, open: Option<Part>)
    requires open.Some? ==> open.value.Ok() && open.value.from == 0
    ensures var t := AfterStarts(s, whole, open);
            && |t.got| == (if open.Some? then open.value.n else if whole != [] then |Last(whole).data| else |s.got|)
            && t.hdr == (if open.Some? then open.value.m.Body() else if whole != [] then Last(whole).Body() else s.hdr)
  {
  }

  lemma SheetSize(s: In, cap: nat, qos: nat, i: nat, sh: Sheet)
    requires qos < 64 && sh.Ok(cap)
    ensures ReadSheet(s, cap, qos, i, sh).0 == AfterStarts(AfterCont(s, cap, qos, i, sh), sh.whole, sh.open)
    ensures sh.open.Some? ==> sh.open.value.Ok() && sh.open.value.from == 0
    ensures sh.cont.Some? ==> sh.cont.value.Ok() && |sh.cont.value.Words()| == sh.cont.value.n
  {
    hide AfterCont, AfterStarts;
  }

  lemma SizeStep(first: Word, shs: seq<Sheet>, d: seq<nat>, t: nat)
    requires t < |d| && forall u | 0 <= u < |d| :: d[u] < |shs|
    ensures Size(shs, d, 0) == 0 && Header(first, shs, d, 0) == first
    ensures var sh := shs[d[t]];
            && Size(shs, d, t + 1) ==
               (if sh.open.Some? then sh.open.value.n
                else if sh.whole != [] then |Last(sh.whole).data| else Joined(shs, d, t))
            && Header(first, shs, d, t + 1) ==
               (if sh.open.Some? then sh.open.value.m.Body()
                else if sh.whole != [] then Last(sh.whole).Body() else Header(first, shs, d, t))
            && Joined(shs, d, t) == (if Before(d, t) + 1 == d[t] then Size(shs, d, t) else 0) +
                                    (if sh.cont.Some? then sh.cont.value.n else 0)
  {
  }

  lemma Counted(s: In, shs: seq<Sheet>, i: int, held: bool)
    requires -1 <= i < |shs| && Tracks(s, shs, i, held)
    ensures (i + 1 - s.counter) % MAX_COUNTER == 0
  {
  }

  /** The continuation of an arrival: its words join the buffer, under the header seen last. */
  lemma JoinedIs(s: In, cap: nat, qos: nat, shs: seq<Sheet>, d: seq<nat>, t: nat)
    requires Channel(cap, qos, shs, d) && t < |d| && Fresh(s)
    requires forall u | 0 <= u < |d| :: d[u] < |shs|
    requires qos < 64 && shs[d[t]].Ok(cap)
    requires var u := StateAt(s, cap, qos, shs, d, t);
             |u.got| == Size(shs, d, t) && u.hdr == Header(s.hdr, shs, d, t)
    ensures var c := AfterCont(StateAt(s, cap, qos, shs, d, t), cap, qos, d[t], shs[d[t]]);
            shs[d[t]].cont.Some? ==> |c.got| == Joined(shs, d, t) && c.hdr == Header(s.hdr, shs, d, t)
  {
    hide *;
    Arrival(cap, qos, shs, d, t);
    TracksAt(s, cap, qos, shs, d, t);
    var u := StateAt(s, cap, qos, shs, d, t);
    Counted(u, shs, Before(d, t), HeldAfter(shs, d, t));
    SizeStep(s.hdr, shs, d, t);
    if shs[d[t]].cont.Some? {
      SheetSize(u, cap, qos, d[t], shs[d[t]]);
      ContCopies(u, cap, qos, Before(d, t), d[t], shs[d[t]]);
    }
  }

  /** After any arrivals: how many words the reader holds, and which header it remembers. */
  lemma {:induction false} StateIs(s: In, cap: nat, qos: nat, shs: seq<Sheet>, d: seq<nat>, t: nat)
    requires Channel(cap, qos, shs, d) && t <= |d| && Fresh(s)
    requires forall u | 0 <= u < |d| :: d[u] < |shs|
    ensures var u := StateAt(s, cap, qos, shs, d, t);
            |u.got| == Size(shs, d, t) && u.hdr == Header(s.hdr, shs, d, t)
  {
    hide *;
    if t == 0 {
      StateStart(s, cap, qos, shs, d);
    } else {
      StateIs(s, cap, qos, shs, d, t - 1);
      Arrival(cap, qos, shs, d, t - 1);
      var u, i := StateAt(s, cap, qos, shs, d, t - 1), d[t - 1];
      var sh := shs[i];
      StateStep(s, cap, qos, shs, d, t - 1);
      SizeStep(s.hdr, shs, d, t - 1);
      JoinedIs(s, cap, qos, shs, d, t - 1);
      SheetSize(u, cap, qos, i, sh);
      StartsSize(AfterCont(u, cap, qos, i, sh), sh.whole, sh.open);
      SomethingIn(sh, cap);
    }
  }

  lemma SomethingIn(sh: Sheet, cap: nat)
    requires sh.Ok(cap)
    ensures sh.cont.Some? || sh.whole != [] || sh.open.Some?
  {
  }

  lemma StateStart(s: In, cap: nat, qos: nat, shs: seq<Sheet>, d: seq<nat>)
    requires Channel(cap, qos, shs, d) && Fresh(s)
    requires forall u | 0 <= u < |d| :: d[u] < |shs|
    ensures StateAt(s, cap, qos, shs, d, 0) == s && |s.got| == 0
    ensures Size(shs, d, 0) == 0 && Header(s.hdr, shs, d, 0) == s.hdr
  {
    hide Channel;
  }

  /** Layout and delivery tell when the reader takes the continuation of a broken message for a whole one. */
  lemma SpuriousIs(s: In, cap: nat, qos: nat, shs: seq<Sheet>, d: seq<nat>, t: nat)
    requires Channel(cap, qos, shs, d) && t < |d| && Fresh(s)
    requires forall u | 0 <= u < |d| :: d[u] < |shs|
    requires qos < 64 && shs[d[t]].Ok(cap)
    ensures Spurious(s.hdr, shs, d, t) <==>
            shs[d[t]].cont.Some? && !Arrived(shs, d, t) &&
            Complete(AfterCont(StateAt(s, cap, qos, shs, d, t), cap, qos, d[t], shs[d[t]]))
  {
    StateIs(s, cap, qos, shs, d, t);
    JoinedIs(s, cap, qos, shs, d, t);
    hide Channel, Arrived, StateAt, AfterCont, Joined, Header, Sheet.Ok;
  }

  // ----- what comes out -----

  /** The k words of a message up to the end of p. */
  function Ending(p: Part, k: nat): seq<Word> {
    var e := p.from + p.n;
    if k <= e <= |p.m.data| then p.m.data[e - k..e] else []
  }

  /** The report that a frame of a broken message may cause: the last words of that message under the header
      of another one. */
  ghost function Extra(first: Word, shs: seq<Sheet>, d: seq<nat>, t: nat): seq<Msg>
    requires t < |d| && forall u | 0 <= u < |d| :: d[u] < |shs|
  {
    var h := Header(first, shs, d, t);
    if Spurious(first, shs, d, t) then [Msg(h.hi, h.lo, Ending(shs[d[t]].cont.value, Joined(shs, d, t)))] else []
  }

  lemma EndingHeld(c: In, p: Part, held: bool)
    requires Holds(c, p.m, p.from + p.n, held)
    ensures c.got == Ending(p, |c.got|)
  {
  }

  /** What an arrival reports of its continuation. */
  lemma ContIs(s: In, cap: nat, qos: nat, shs: seq<Sheet>, d: seq<nat>, t: nat)
    requires Channel(cap, qos, shs, d) && t < |d| && Fresh(s)
    requires forall u | 0 <= u < |d| :: d[u] < |shs|
    requires qos < 64 && shs[d[t]].Ok(cap) && shs[d[t]].cont.Some?
    ensures var r := Report(AfterCont(StateAt(s, cap, qos, shs, d, t), cap, qos, d[t], shs[d[t]]));
            var p := shs[d[t]].cont.value;
            r == Extra(s.hdr, shs, d, t) + if Arrived(shs, d, t) && p.Ends() then [p.m] else []
  {
    hide *;
    var p, c := shs[d[t]].cont.value, AfterCont(StateAt(s, cap, qos, shs, d, t), cap, qos, d[t], shs[d[t]]);
    if Arrived(shs, d, t) {
      ContReported(s, cap, qos, shs, d, t);
      ExtraCases(s.hdr, shs, d, t);
      assert [] + Report(c) == Report(c);
    } else {
      SpuriousIs(s, cap, qos, shs, d, t);
      StateIs(s, cap, qos, shs, d, t);
      JoinedIs(s, cap, qos, shs, d, t);
      ArrivalHolds(s, cap, qos, shs, d, t);
      EndingHeld(c, p, Held(shs, d, t));
      ReportCases(c);
      ExtraCases(s.hdr, shs, d, t);
      assert Report(c) + [] == Report(c);
    }
  }

  lemma ReportCases(c: In)
    ensures Report(c) == if Complete(c) then [Msg(c.hdr.hi, c.hdr.lo, c.got)] else []
  {
    hide Complete;
  }

  lemma ExtraCases(first: Word, shs: seq<Sheet>, d: seq<nat>, t: nat)
    requires t < |d| && forall u | 0 <= u < |d| :: d[u] < |shs|
    ensures Spurious(first, shs, d, t) ==> shs[d[t]].cont.Some? && !Arrived(shs, d, t)
    ensures var h := Header(first, shs, d, t);
            Extra(first, shs, d, t) ==
            if Spurious(first, shs, d, t) then [Msg(h.hi, h.lo, Ending(shs[d[t]].cont.value, Joined(shs, d, t)))]
            else []
  {
    hide Arrived, Header, Joined, Ending;
  }

  /** What comes out of the first t arrivals. */
  ghost function Reports(s: In, cap: nat, qos: nat, shs: seq<Sheet>, d: seq<nat>, t: nat): seq<Msg>
    requires Channel(cap, qos, shs, d) && t <= |d|
  {
    if t == 0 then []
    else
      Reports(s, cap, qos, shs, d, t - 1) +
      ReadSheet(StateAt(s, cap, qos, shs, d, t - 1), cap, qos, d[t - 1], shs[d[t - 1]]).1
  }

  /** The continuation of an arrival whose message has arrived reports it if it ends. */
  lemma ContReported(s: In, cap: nat, qos: nat, shs: seq<Sheet>, d: seq<nat>, t: nat)
    requires Channel(cap, qos, shs, d) && t < |d| && Fresh(s)
    requires qos < 64 && d[t] < |shs| && shs[d[t]].Ok(cap) && shs[d[t]].cont.Some? && Arrived(shs, d, t)
    ensures var p := shs[d[t]].cont.value;
            Report(AfterCont(StateAt(s, cap, qos, shs, d, t), cap, qos, d[t], shs[d[t]])) ==
            if p.Ends() then [p.m] else []
  {
    SheetOf(cap, qos, shs, d, t);
    HeldIsArrived(cap, qos, shs, d, t);
    ArrivalHolds(s, cap, qos, shs, d, t);
    PartOk(shs[d[t]], cap);
    hide *;
    ContReports(AfterCont(StateAt(s, cap, qos, shs, d, t), cap, qos, d[t], shs[d[t]]), shs[d[t]].cont.value, true);
  }

  lemma PartOk(sh: Sheet, cap: nat)
    requires sh.Ok(cap) && sh.cont.Some?
    ensures sh.cont.value.Ok()
  {
  }

  /** One arrival: possibly one spurious report, then exactly what must come. */
  lemma ArrivalReports(s: In, cap: nat, qos: nat, shs: seq<Sheet>, d: seq<nat>, t: nat)
    requires Channel(cap, qos, shs, d) && t < |d| && Fresh(s)
    ensures qos < 64 && d[t] < |shs| && shs[d[t]].Ok(cap) && forall u | 0 <= u < |d| :: d[u] < |shs|
    ensures ReadSheet(StateAt(s, cap, qos, shs, d, t), cap, qos, d[t], shs[d[t]]).1 ==
            Extra(s.hdr, shs, d, t) + Genuine(shs, d, t)
  {
    hide *;
    Arrival(cap, qos, shs, d, t);
    if shs[d[t]].cont.Some? {
      ContIs(s, cap, qos, shs, d, t);
    }
    ExtraCases(s.hdr, shs, d, t);
    SheetReports(StateAt(s, cap, qos, shs, d, t), cap, qos, shs, d, t, Extra(s.hdr, shs, d, t));
  }

  lemma SheetReports(s: In, cap: nat, qos: nat, shs: seq<Sheet>, d: seq<nat>, t: nat, extra: seq<Msg>)
    requires t < |d| && qos < 64 && d[t] < |shs| && shs[d[t]].Ok(cap)
    requires shs[d[t]].cont.None? ==> extra == []
    requires shs[d[t]].cont.Some? ==>
               var p := shs[d[t]].cont.value;
               Report(AfterCont(s, cap, qos, d[t], shs[d[t]])) ==
               extra + if Arrived(shs, d, t) && p.Ends() then [p.m] else []
    ensures ReadSheet(s, cap, qos, d[t], shs[d[t]]).1 == extra + Genuine(shs, d, t)
  {
    hide Arrived, AfterCont, AfterStarts, Sheet.Ok, Report;
    var sh := shs[d[t]];
    assert [] + sh.whole == sh.whole;
    if sh.cont.Some? {
      Assoc(extra, if Arrived(shs, d, t) && sh.cont.value.Ends() then [sh.cont.value.m] else [], sh.whole);
    }
  }

  /** The reader works through the arrivals as described. */
  lemma {:induction false} DecodeArrivals(s: In, cap: nat, qos: nat, shs: seq<Sheet>, d: seq<nat>, t: nat,
                                          fs: seq<Frame>)
    requires Channel(cap, qos, shs, d) && t <= |d| && qos < 64 && AllDefined(shs) && fs == EncodeAll(cap, qos, 0, shs)
    requires forall u | 0 <= u < |d| :: d[u] < |shs|
    ensures AllReadable(Pick(fs, d)[..t])
    ensures Decode(s, Pick(fs, d)[..t]) == (StateAt(s, cap, qos, shs, d, t), Reports(s, cap, qos, shs, d, t))
  {
    hide *;
    if t == 0 {
      ExactStart(s, cap, qos, shs, d);
      DecodeNone(s);
      assert Pick(fs, d)[..0] == [];
    } else {
      DecodeArrivals(s, cap, qos, shs, d, t - 1, fs);
      DecodeArrival(s, cap, qos, shs, d, t - 1, fs);
    }
  }

  lemma DecodeArrival(s: In, cap: nat, qos: nat, shs: seq<Sheet>, d: seq<nat>, t: nat, fs: seq<Frame>)
    requires Channel(cap, qos, shs, d) && t < |d| && qos < 64 && AllDefined(shs) && fs == EncodeAll(cap, qos, 0, shs)
    requires forall u | 0 <= u < |d| :: d[u] < |shs|
    requires AllReadable(Pick(fs, d)[..t])
    requires Decode(s, Pick(fs, d)[..t]) == (StateAt(s, cap, qos, shs, d, t), Reports(s, cap, qos, shs, d, t))
    ensures AllReadable(Pick(fs, d)[..t + 1])
    ensures Decode(s, Pick(fs, d)[..t + 1]) ==
            (StateAt(s, cap, qos, shs, d, t + 1), Reports(s, cap, qos, shs, d, t + 1))
  {
    hide *;
    var ps, i, u := Pick(fs, d), d[t], StateAt(s, cap, qos, shs, d, t);
    ReadableFrame(cap, qos, shs, d, i, fs);
    ReceiveSheet(u, cap, qos, i, shs[i]);
    assert ps[..t + 1] == ps[..t] + [ps[t]];
    DecodeOne(u, ps[t]);
    DecodeConcat(s, ps[..t], [ps[t]]);
    StateStep(s, cap, qos, shs, d, t);
    ReportsStep(s, cap, qos, shs, d, t);
  }

  lemma ReportsStep(s: In, cap: nat, qos: nat, shs: seq<Sheet>, d: seq<nat>, t: nat)
    requires Channel(cap, qos, shs, d) && t < |d| && qos < 64 && d[t] < |shs| && shs[d[t]].Ok(cap)
    ensures Reports(s, cap, qos, shs, d, t + 1) == Reports(s, cap, qos, shs, d, t) +
            ReadSheet(StateAt(s, cap, qos, shs, d, t), cap, qos, d[t], shs[d[t]]).1
  {
    hide Channel, ReadSheet, StateAt;
  }

  lemma ReadableFrame(cap: nat, qos: nat, shs: seq<Sheet>, d: seq<nat>, i: nat, fs: seq<Frame>)
    requires Channel(cap, qos, shs, d) && AllDefined(shs) && i < |shs| && qos < 64 && fs == EncodeAll(cap, qos, 0, shs)
    ensures 3 <= cap && shs[i].Defined() && shs[i].Ok(cap) && |Encode(cap, qos, i, shs[i])| <= cap
            && fs[i] == Encode(cap, qos, i, shs[i])
  {
    hide Encode, Sheet.Ok;
    EncodeAllAt(cap, qos, 0, shs, i);
  }

  ghost predicate Sound(first: Word, shs: seq<Sheet>, d: seq<nat>, t: nat)
    requires t <= |d| && forall u | 0 <= u < |d| :: d[u] < |shs|
  {
    forall u | 0 <= u < t :: !Spurious(first, shs, d, u)
  }

  lemma ExactStep(first: Word, shs: seq<Sheet>, d: seq<nat>, t: nat)
    requires t < |d| && forall u | 0 <= u < |d| :: d[u] < |shs|
    ensures Expected(shs, d, t + 1) == Expected(shs, d, t) + Genuine(shs, d, t)
    ensures Sound(first, shs, d, t + 1) <==> Sound(first, shs, d, t) && !Spurious(first, shs, d, t)
  {
    hide Spurious, Genuine;
  }

  lemma ExactStart(s: In, cap: nat, qos: nat, shs: seq<Sheet>, d: seq<nat>)
    requires Channel(cap, qos, shs, d)
    requires forall u | 0 <= u < |d| :: d[u] < |shs|
    ensures Reports(s, cap, qos, shs, d, 0) == [] && Expected(shs, d, 0) == [] && Sound(s.hdr, shs, d, 0)
    ensures StateAt(s, cap, qos, shs, d, 0) == s
  {
    hide Channel;
  }

  /** Nothing spurious comes out exactly when no broken continuation brings the words held to the number that
      the last header announces. */
  lemma {:induction false} ReportsExact(s: In, cap: nat, qos: nat, shs: seq<Sheet>, d: seq<nat>, t: nat)
    requires Channel(cap, qos, shs, d) && t <= |d| && Fresh(s)
    requires forall u | 0 <= u < |d| :: d[u] < |shs|
    ensures var r, e := Reports(s, cap, qos, shs, d, t), Expected(shs, d, t);
            && |r| >= |e|
            && (Sound(s.hdr, shs, d, t) ==> r == e)
            && (!Sound(s.hdr, shs, d, t) ==> |r| > |e|)
  {
    hide *;
    if t == 0 {
      ExactStart(s, cap, qos, shs, d);
    } else {
      ReportsExact(s, cap, qos, shs, d, t - 1);
      Arrival(cap, qos, shs, d, t - 1);
      ReportsStep(s, cap, qos, shs, d, t - 1);
      ArrivalReports(s, cap, qos, shs, d, t - 1);
      ExtraCases(s.hdr, shs, d, t - 1);
      ExactStep(s.hdr, shs, d, t - 1);
      assert [] + Genuine(shs, d, t - 1) == Genuine(shs, d, t - 1);
    }
  }

  /** No message of the chain is longer than `bound` words. */
  ghost predicate Bounded(shs: seq<Sheet>, bound: nat) {
    forall i | 0 <= i < |shs| ::
      && (shs[i].cont.Some? ==> |shs[i].cont.value.m.data| <= bound)
      && (shs[i].open.Some? ==> |shs[i].open.value.m.data| <= bound)
      && (forall j | 0 <= j < |shs[i].whole| :: |shs[i].whole[j].data| <= bound)
  }
}
