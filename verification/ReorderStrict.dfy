/** When the delivery log of the reference buffer is strictly increasing between resets: on every run,
    legal or not, as long as no event hands up a number that is, or stays, queued. */
module ReorderStrict {
  import opened Reorder
  import opened ReorderInt
  import opened ReorderOrder
  import opened SeqNum

  /** Between resets every number delivered is above all delivered before it. */
  predicate StrictlyOrdered(d: seq<Frame>, cuts: seq<nat>) {
    forall i, j :: 0 <= i < j < |d| && !Between(cuts, i, j) ==> d[i].seqno < d[j].seqno
  }

  /** The event lets a queued number come twice: a request that is honoured and starts at a queued
      number, or a queued number arriving that is indicated at once, being next or finding no block. */
  predicate Repeats(r: RxInt, e: Event) {
    match e
    case Arrive(f, now) =>
      var m := FlushInt(r, now);
      && m.last.At? && m.last.n < f.seqno <= m.last.n + m.win && Holds(m.list, f.seqno)
      && (f.seqno == m.last.n + 1 || m.free == [])
    case BlockAckReq(start) => r.last.At? && r.last.n < start && Holds(r.list, start)
    case _ => false
  }

  predicate NoRepeats(r: RxInt, es: seq<Event>)
    decreases |es|
  {
    es != [] ==> !Repeats(r, es[0]) && NoRepeats(StepInt(r, es[0]), es[1..])
  }

  // ------------------------------------------------------------- the invariant

  /** Every entry since the last reset is at most n. */
  predicate Below(d: seq<Frame>, cuts: seq<nat>, n: int) {
    forall i :: 0 <= i < |d| && !Between(cuts, i, |d|) ==> d[i].seqno <= n
  }

  predicate Above(list: seq<Mpdu>, n: int) {
    forall i :: 0 <= i < |list| ==> list[i].frame.seqno > n
  }

  /** The log is strictly increasing, and everything queued is yet to come. */
  predicate StrictInv(r: RxInt) {
    && Loose(r) && MarksInside(r.cuts, r.delivered) && StrictlyOrdered(r.delivered, r.cuts)
    && match r.last
       case Reset => forall i :: 0 <= i < |r.delivered| ==> Between(r.cuts, i, |r.delivered|)
       case At(n) => Below(r.delivered, r.cuts, n) && Above(r.list, n)
  }

  lemma AppendStrict(d: seq<Frame>, cuts: seq<nat>, n: int, fs: seq<Frame>, m: int)
    requires MarksInside(cuts, d) && StrictlyOrdered(d, cuts) && Below(d, cuts, n) && n <= m
    requires forall i, j :: 0 <= i < j < |fs| ==> fs[i].seqno < fs[j].seqno
    requires forall i :: 0 <= i < |fs| ==> n < fs[i].seqno <= m
    ensures MarksInside(cuts, d + fs) && StrictlyOrdered(d + fs, cuts) && Below(d + fs, cuts, m)
  {
    var e := d + fs;
    forall i, j | 0 <= i < j < |e| && !Between(cuts, i, j)
      ensures e[i].seqno < e[j].seqno
    {
      if i < |d| <= j {
        assert !Between(cuts, i, |d|) by {
          assert forall k :: k in cuts && i < k <= |d| ==> i < k <= j;
        }
      }
    }
    forall i | 0 <= i < |e| && !Between(cuts, i, |e|)
      ensures e[i].seqno <= m
    {
      if i < |d| {
        assert !Between(cuts, i, |d|) by {
          assert forall k :: k in cuts && i < k <= |d| ==> i < k <= |e|;
        }
      }
    }
  }

  /** Handing up the first k of the queue, which lie at or below m. */
  lemma HandUpStrict(r: RxInt, n: int, k: nat, m: int)
    requires MarksInside(r.cuts, r.delivered) && StrictlyOrdered(r.delivered, r.cuts) && Below(r.delivered, r.cuts, n)
    requires Ascending(r.list) && Above(r.list, n) && n <= m && k <= |r.list|
    requires forall i :: 0 <= i < k ==> r.list[i].frame.seqno <= m
    ensures var h := HandUp(r, k);
            MarksInside(h.cuts, h.delivered) && StrictlyOrdered(h.delivered, h.cuts) && Below(h.delivered, h.cuts, m)
  {
    AppendStrict(r.delivered, r.cuts, n, Frames(r.list[..k]), m);
  }

  // ------------------------------------------------------------- kept by every operation

  lemma MoveStrict(r: RxInt, s: int)
    requires StrictInv(r) && r.last.At? && r.last.n < s
    ensures StrictInv(MoveTo(r, s))
  {
    hide Below, StrictlyOrdered, MarksInside;
    LooseMove(r, s);
    UpToSplits(r.list, s);
    HandUpStrict(r, r.last.n, UpTo(r.list, s), s);
    hide UpTo;
  }

  lemma AdvanceStrict(r: RxInt, n: int)
    requires StrictInv(r) && r.last == At(n)
    ensures StrictInv(Advance(r, n))
  {
    hide Below, StrictlyOrdered, MarksInside;
    LooseAdvance(r, n);
    var k := RunLength(r.list, n);
    HandUpStrict(r, n, k, n + k);
    forall i | k <= i < |r.list|
      ensures r.list[i].frame.seqno > n + k
    {
      assert k > 0 ==> r.list[k - 1].frame.seqno == n + k;
    }
    hide RunLength;
  }

  /** A number that is not queued and has nothing queued below it is handed up. */
  lemma IndicateStrict(r: RxInt, n: int, f: Frame)
    requires Loose(r) && MarksInside(r.cuts, r.delivered) && StrictlyOrdered(r.delivered, r.cuts)
    requires Below(r.delivered, r.cuts, n) && n < f.seqno && Above(r.list, f.seqno)
    requires forall i :: 0 <= i < |r.list| ==> r.list[i].frame.seqno <= f.seqno + r.win
    ensures StrictInv(IndicateInt(r, f))
  {
    AppendStrict(r.delivered, r.cuts, n, [f], f.seqno);
  }

  lemma ResetStrict(r: RxInt)
    requires StrictInv(r)
    ensures StrictInv(ResetAll(r))
  {
    var k := |r.list|;
    var h := HandUp(r, k);
    if r.last.At? {
      var m := r.last.n + r.win;
      HandUpStrict(r, r.last.n, k, m);
    }
    assert StrictlyOrdered(h.delivered, h.cuts);
    var c := h.cuts + [|h.delivered|];
    forall i, j | 0 <= i < j < |h.delivered| && !Between(c, i, j)
      ensures h.delivered[i].seqno < h.delivered[j].seqno
    {
      assert forall x :: x in h.cuts ==> x in c;
      assert !Between(h.cuts, i, j);
    }
    assert |h.delivered| in c;
  }

  lemma FlushStrict(r: RxInt, now: int)
    requires StrictInv(r)
    ensures StrictInv(FlushInt(r, now))
  {
    hide StrictInv, ResetAll, Advance, MoveTo;
    ResetStrict(r);
    Retime(ResetAll(r), now);
    if r.last.At? {
      var s := r.last.n + 1;
      MoveStrict(r, s);
      Retime(MoveTo(r, s), now);
      MoveIs(r, s);
      AdvanceStrict(MoveTo(r, s).(timer := now), s);
    }
  }

  lemma MoveIs(r: RxInt, s: int)
    ensures MoveTo(r, s) == HandUpTo(r, s).(last := At(s))
  {
  }

  lemma Retime(r: RxInt, now: int)
    requires StrictInv(r)
    ensures StrictInv(r.(timer := now))
  {
  }

  lemma EnqueueStrict(r: RxInt, f: Frame)
    requires StrictInv(r) && r.last.At? && r.last.n < f.seqno <= r.last.n + r.win
    requires r.free == [] ==> !Holds(r.list, f.seqno)
    ensures StrictInv(EnqueueInt(r, f)) && EnqueueInt(r, f).last.At?
  {
    LooseEnqueue(r, f);
    UpToSplits(r.list, f.seqno);
    if r.free == [] {
      var h := HandUpTo(r, f.seqno);
      HandUpStrict(r, r.last.n, UpTo(r.list, f.seqno), f.seqno - 1);
      hide UpTo, Below, StrictlyOrdered, MarksInside;
      IndicateStrict(h, f.seqno - 1, f);
    }
  }

  lemma ClassifyStrict(r: RxInt, f: Frame)
    requires StrictInv(r)
    requires r.last.At? && r.last.n < f.seqno <= r.last.n + r.win && Holds(r.list, f.seqno) ==>
               f.seqno != r.last.n + 1 && r.free != []
    ensures StrictInv(ClassifyInt(r, f))
  {
    hide EnqueueInt, Advance, MoveTo;
    if r.last.Reset? {
      IndicateStrict(r, f.seqno - 1, f);
    } else if f.seqno == r.last.n + 1 {
      IndicateStrict(r, r.last.n, f);
      AdvanceStrict(IndicateInt(r, f), f.seqno);
    } else if r.last.n < f.seqno <= r.last.n + r.win {
      EnqueueStrict(r, f);
    } else if r.last.n + r.win < f.seqno {
      var s := f.seqno - r.win;
      MoveStrict(r, s);
      MoveFields(r, s, f.seqno);
      EnqueueStrict(MoveTo(r, s), f);
      AdvanceStrict(EnqueueInt(MoveTo(r, s), f), EnqueueInt(MoveTo(r, s), f).last.n);
    }
  }

  lemma MoveFields(r: RxInt, s: int, x: int)
    requires Loose(r) && r.last.At? && r.last.n + r.win < x
    ensures MoveTo(r, s).last == At(s) && MoveTo(r, s).win == r.win && !Holds(MoveTo(r, s).list, x)
  {
  }

  lemma BarStrict(r: RxInt, start: int)
    requires StrictInv(r) && (r.last.At? && r.last.n < start ==> !Holds(r.list, start))
    ensures StrictInv(BarInt(r, start))
  {
    if r.last.At? && r.last.n < start {
      LooseMove(r, start);
      UpToSplits(r.list, start);
      HandUpStrict(r, r.last.n, UpTo(r.list, start), start - 1);
      hide UpTo;
    }
  }

  lemma StepStrict(r: RxInt, e: Event)
    requires StrictInv(r) && !Repeats(r, e)
    ensures StrictInv(StepInt(r, e))
  {
    hide StrictInv, FlushInt, ClassifyInt, BarInt, ResetAll;
    match e
    case Arrive(f, now) =>
      FlushStrict(r, now);
      Retime(FlushInt(r, now), now);
      ClassifyStrict(FlushInt(r, now).(timer := now), f);
    case Oversized(f) => Discard(r, f);
    case BlockAckReq(start) => BarStrict(r, start);
    case FlushTimer(now) => FlushStrict(r, now);
    case IdleTimeout(now) => ResetStrict(r);
  }

  lemma Discard(r: RxInt, f: Frame)
    requires StrictInv(r)
    ensures StrictInv(DropInt(r, f))
  {
  }

  /** A run in which no event repeats delivers strictly increasing numbers between resets. */
  lemma {:induction false} RunStrict(r: RxInt, es: seq<Event>)
    requires StrictInv(r) && NoRepeats(r, es)
    ensures StrictInv(RunInt(r, es))
    decreases |es|
  {
    hide StrictInv, StepInt, Repeats;
    if es == [] {
    } else {
      StepStrict(r, es[0]);
      RunStrict(StepInt(r, es[0]), es[1..]);
    }
  }

  // ------------------------------------------------------------- and only then

  /** The converse: a run that has got to an event that repeats goes on, with at most one more event, to
      a log that is not strictly increasing. The numbers these events compare are near. */
  lemma RepeatBreaks(r: RxInt, e: Event) returns (es: seq<Event>)
    requires StrictInv(r) && Repeats(r, e)
    ensures !StrictlyOrdered(RunInt(StepInt(r, e), es).delivered, RunInt(StepInt(r, e), es).cuts)
    ensures Close(r, e) && CloseRun(StepInt(r, e), es)
  {
    RepeatClose(r, e);
    match e
    case Arrive(f, now) =>
      var m := FlushInt(r, now).(timer := now);
      FlushStrict(r, now);
      hide FlushInt, RunInt, StrictlyOrdered, Close;
      if f.seqno == m.last.n + 1 {
        es := [FlushTimer(now + FLUSH_ALL_TIMEOUT + 1)];
        NextTwice(m, f);
        RunOne(StepInt(r, e), es[0]);
      } else {
        es := [];
        NoBlockTwice(m, f);
        RunNothing(StepInt(r, e));
      }
    case BlockAckReq(start) =>
      hide FlushInt, RunInt, StrictlyOrdered, Close;
      var f := Frame(start, 0);
      es := [Arrive(f, r.timer)];
      BarTwice(r, f);
      AgainClose(r, f);
      RunOne(StepInt(r, e), es[0]);
  }

  /** What is queued in front of the last number is near it. */
  lemma QueueNear(r: RxInt)
    requires StrictInv(r) && r.last.At?
    ensures forall s :: r.last.n <= s <= r.last.n + r.win ==> AllNear(r.list, s)
  {
  }

  lemma RepeatClose(r: RxInt, e: Event)
    requires StrictInv(r) && Repeats(r, e)
    ensures Close(r, e)
  {
    hide FlushInt;
    if r.last.At? {
      QueueNear(r);
    }
    if e.Arrive? {
      FlushStrict(r, e.now);
      QueueNear(FlushInt(r, e.now));
    }
  }

  lemma RunNothing(r: RxInt)
    ensures RunInt(r, []) == r
  {
  }

  lemma RunOne(r: RxInt, e: Event)
    ensures RunInt(r, [e]) == StepInt(r, e) && (Close(r, e) ==> CloseRun(r, [e]))
  {
    assert [e][1..] == [];
    hide StepInt, Close;
  }

  /** A pair of equal numbers that no reset separates. */
  lemma TwiceBreaks(d: seq<Frame>, cuts: seq<nat>, i: nat, j: nat)
    requires i < j < |d| && d[i].seqno == d[j].seqno && forall m :: m in cuts ==> m <= i || m > j
    ensures !StrictlyOrdered(d, cuts)
  {
    assert !Between(cuts, i, j);
  }

  /** A queued number that arrives as the next one is indicated and stays queued, until it is flushed. */
  lemma NextTwice(r: RxInt, f: Frame)
    requires StrictInv(r) && r.last.At? && f.seqno == r.last.n + 1 && Holds(r.list, f.seqno)
    ensures var n, late := ClassifyInt(r, f), r.timer + FLUSH_ALL_TIMEOUT + 1;
            !StrictlyOrdered(FlushInt(n, late).delivered, FlushInt(n, late).cuts) && Close(n, FlushTimer(late))
  {
    hide StrictlyOrdered;
    var n, late := ClassifyInt(r, f), r.timer + FLUSH_ALL_TIMEOUT + 1;
    NextStays(r, f);
    FlushFirst(n, late);
    var m := FlushInt(n, late);
    assert m.delivered[|r.delivered|] == f;
    TwiceBreaks(m.delivered, m.cuts, |r.delivered|, |r.delivered| + 1);
  }

  lemma NextStays(r: RxInt, f: Frame)
    requires StrictInv(r) && r.last.At? && f.seqno == r.last.n + 1 && Holds(r.list, f.seqno)
    ensures ClassifyInt(r, f) == r.(last := At(f.seqno), delivered := r.delivered + [f])
    ensures r.list[0].frame.seqno == f.seqno && AllNear(r.list, f.seqno + 1)
  {
    var q :| 0 <= q < |r.list| && r.list[q].frame.seqno == f.seqno;
    assert q == 0 && RunLength(r.list, f.seqno) == 0;
    assert r.list[0..] == r.list && r.delivered + [f] + Frames([]) == r.delivered + [f];
  }

  /** A flush that is late enough hands up the first of the queue, and resets only behind it. */
  lemma FlushFirst(n: RxInt, late: int)
    requires n.last.At? && n.list != [] && late > n.timer + FLUSH_ALL_TIMEOUT && n.list[0].frame.seqno <= n.last.n + 1
    ensures var m, k := FlushInt(n, late), |n.delivered|;
            && k < |m.delivered| && m.delivered[..k] == n.delivered && m.delivered[k] == n.list[0].frame
            && forall c :: c in m.cuts ==> c in n.cuts || c > k
  {
    hide RunLength;
    var m := FlushInt(n, late);
    if |n.list| > 1 {
      assert m.delivered == n.delivered + Frames(n.list[..|n.list|]);
    } else {
      var s := n.last.n + 1;
      var u := UpTo(n.list, s);
      assert u == 1;
      var h := HandUpTo(n, s).(timer := late, last := At(s));
      assert h.delivered == n.delivered + Frames(n.list[..1]) && h.list == [];
    }
  }

  lemma NoBlockTwice(r: RxInt, f: Frame)
    requires StrictInv(r) && Stored(r, f) && r.free == [] && Holds(r.list, f.seqno)
    ensures !StrictlyOrdered(ClassifyInt(r, f).delivered, ClassifyInt(r, f).cuts)
  {
    var q :| 0 <= q < |r.list| && r.list[q].frame.seqno == f.seqno;
    UpToSplits(r.list, f.seqno);
    var d := ClassifyInt(r, f).delivered;
    assert d[|r.delivered| + q] == r.list[q].frame && d[|d| - 1] == f;
    TwiceBreaks(d, r.cuts, |r.delivered| + q, |d| - 1);
  }

  lemma BarTwice(r: RxInt, f: Frame)
    requires StrictInv(r) && r.last.At? && r.last.n < f.seqno && Holds(r.list, f.seqno)
    ensures var n := ArriveInt(BarInt(r, f.seqno), f, r.timer); !StrictlyOrdered(n.delivered, n.cuts)
  {
    var q :| 0 <= q < |r.list| && r.list[q].frame.seqno == f.seqno;
    UpToSplits(r.list, f.seqno);
    var b := BarInt(r, f.seqno);
    var n := ArriveInt(b, f, r.timer);
    assert b.delivered[|r.delivered| + q] == r.list[q].frame;
    assert n.delivered[|r.delivered| + q] == r.list[q].frame && n.delivered[|b.delivered|] == f;
    TwiceBreaks(n.delivered, r.cuts, |r.delivered| + q, |b.delivered|);
  }

  lemma AgainClose(r: RxInt, f: Frame)
    requires StrictInv(r) && r.last.At? && r.last.n < f.seqno && Holds(r.list, f.seqno)
    ensures Close(BarInt(r, f.seqno), Arrive(f, r.timer))
  {
    hide UpTo;
  }

  // ------------------------------------------------------------- the marks of the weaker order law

  lemma FlushHits(r: RxInt, now: int)
    ensures FlushInt(r, now).hits == r.hits
  {
    hide UpTo, RunLength;
  }

  lemma EnqueueHits(r: RxInt, f: Frame)
    ensures EnqueueInt(r, f).hits == r.hits <==> !(r.free == [] && Holds(r.list, f.seqno))
  {
    hide UpTo;
  }

  lemma SlideHits(r: RxInt, f: Frame)
    requires QueueInv(r) && r.last.At? && r.last.n + r.win < f.seqno
    ensures SlideInt(r, f).hits == r.hits
  {
    hide UpTo, RunLength, EnqueueInt;
    var m := MoveTo(r, f.seqno - r.win);
    EnqueueHits(m, f);
  }

  lemma ClassifyHits(r: RxInt, f: Frame)
    requires QueueInv(r)
    ensures ClassifyInt(r, f).hits == r.hits <==>
      !(r.last.At? && r.last.n + 1 < f.seqno <= r.last.n + r.win && r.free == [] && Holds(r.list, f.seqno))
  {
    hide UpTo, RunLength, EnqueueInt, SlideInt;
    EnqueueHits(r, f);
    if r.last.At? && r.last.n + r.win < f.seqno {
      SlideHits(r, f);
    }
  }

  /** An event leaves a hit mark exactly if it repeats. */
  lemma StepHits(r: RxInt, e: Event)
    requires QueueInv(r)
    ensures StepInt(r, e).hits == r.hits <==> !Repeats(r, e)
  {
    hide UpTo, ClassifyInt, FlushInt;
    match e
    case Arrive(f, now) =>
      FlushHits(r, now);
      FlushKeeps(r, now);
      ClassifyHits(FlushInt(r, now).(timer := now), f);
    case BlockAckReq(start) =>
    case FlushTimer(now) => FlushHits(r, now);
    case _ =>
  }
}
