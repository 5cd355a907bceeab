/** The 12-bit reordering buffer is the unbounded one seen modulo 4096, on every run that compares
    near numbers only. */
module ReorderRefinement {
  import opened SeqNum
  import opened Reorder
  import opened ReorderInt

  function NarrowFrame(f: Frame): Frame {
    Frame(Wrap12(f.seqno), f.pkt)
  }

  function NarrowLog(fs: seq<Frame>): (ws: seq<Frame>)
    ensures |ws| == |fs|
    ensures forall i :: 0 <= i < |fs| ==> ws[i] == NarrowFrame(fs[i])
  {
    seq(|fs|, i requires 0 <= i < |fs| => NarrowFrame(fs[i]))
  }

  function NarrowList(l: seq<Mpdu>): (w: seq<Mpdu>)
    ensures |w| == |l|
    ensures forall i :: 0 <= i < |l| ==> w[i] == Mpdu(NarrowFrame(l[i].frame), l[i].blk)
  {
    seq(|l|, i requires 0 <= i < |l| => Mpdu(NarrowFrame(l[i].frame), l[i].blk))
  }

  function NarrowLast(n: Last): int {
    match n
    case Reset => RESET_RCV_SEQ
    case At(v) => Wrap12(v)
  }

  function Narrow(r: RxInt): Rx {
    Rx(NarrowLast(r.last), NarrowList(r.list), r.win, r.timer, r.free,
       NarrowLog(r.delivered), NarrowLog(r.dropped))
  }

  function NarrowEvent(e: Event): Event {
    match e
    case Arrive(f, now) => Arrive(NarrowFrame(f), now)
    case Oversized(f) => Oversized(NarrowFrame(f))
    case BlockAckReq(start) => BlockAckReq(Wrap12(start))
    case _ => e
  }

  function NarrowEvents(es: seq<Event>): seq<Event> {
    if es == [] then [] else [NarrowEvent(es[0])] + NarrowEvents(es[1..])
  }

  // ------------------------------------------------------------- list primitives agree

  lemma {:induction false} PushAllNarrow(l: seq<Mpdu>, free: seq<nat>)
    ensures PushAll(NarrowList(l), free) == PushAll(l, free)
  {
    if l != [] {
      assert NarrowList(l)[1..] == NarrowList(l[1..]);
      PushAllNarrow(l[1..], [l[0].blk] + free);
    }
  }

  lemma DeliverNarrow(r: RxInt, k: nat)
    requires k <= |r.list|
    ensures Deliver(Narrow(r), k) == Narrow(HandUp(r, k))
  {
    assert NarrowList(r.list)[..k] == NarrowList(r.list[..k]);
    assert NarrowList(r.list)[k..] == NarrowList(r.list[k..]);
    PushAllNarrow(r.list[..k], r.free);
    assert Frames(NarrowList(r.list[..k])) == NarrowLog(Frames(r.list[..k]));
    assert NarrowLog(r.delivered) + NarrowLog(Frames(r.list[..k]))
        == NarrowLog(r.delivered + Frames(r.list[..k]));
  }

  lemma {:induction false} InOrderCountNarrow(l: seq<Mpdu>, start: int)
    requires Ascending(l) && AllNear(l, start)
    ensures InOrderCount(NarrowList(l), Wrap12(start)) == RunLength(l, start)
  {
    if l != [] {
      StepOneIsSuccessor(l[0].frame.seqno, start);
      if l[0].frame.seqno == start + 1 {
        assert NarrowList(l)[1..] == NarrowList(l[1..]);
        InOrderCountNarrow(l[1..], start + 1);
      }
    }
  }

  lemma {:induction false} LeCountNarrow(l: seq<Mpdu>, s: int)
    requires AllNear(l, s)
    ensures LeCount(NarrowList(l), Wrap12(s)) == UpTo(l, s)
  {
    if l != [] {
      SmallerIsLess(l[0].frame.seqno, s);
      WrapInjective(l[0].frame.seqno, s);
      assert NarrowList(l)[1..] == NarrowList(l[1..]);
      LeCountNarrow(l[1..], s);
    }
  }

  lemma {:induction false} ScanNarrow(l: seq<Mpdu>, s: int)
    requires Ascending(l) && AllNear(l, s)
    ensures IsDuplicate(NarrowList(l), Wrap12(s)) <==> Holds(l, s)
    ensures !Holds(l, s) ==> ScanPosition(NarrowList(l), Wrap12(s)) == UpTo(l, s)
  {
    if l != [] {
      var w := NarrowList(l);
      SmallerIsLess(l[0].frame.seqno, s);
      WrapInjective(l[0].frame.seqno, s);
      assert w[1..] == NarrowList(l[1..]);
      ScanNarrow(l[1..], s);
      if l[0].frame.seqno < s {
        assert Holds(l, s) <==> Holds(l[1..], s) by {
          if i :| 0 <= i < |l| && l[i].frame.seqno == s { assert l[1..][i - 1] == l[i]; }
          if i :| 0 <= i < |l[1..]| && l[1..][i].frame.seqno == s { assert l[i + 1] == l[1..][i]; }
        }
      } else if l[0].frame.seqno > s {
        assert !Holds(l, s);
        assert UpTo(l, s) == 0;
      }
    }
  }

  // ------------------------------------------------------------- operations agree

  lemma AdvanceNarrow(r: RxInt)
    requires r.last.At? && Ascending(r.list) && AllNear(r.list, r.last.n)
    ensures InOrder(Narrow(r), Wrap12(r.last.n)) == Narrow(Advance(r, r.last.n))
  {
    hide InOrderCount, RunLength, Deliver, HandUp, Wrap12, AllNear, Ascending;
    InOrderCountNarrow(r.list, r.last.n);
    DeliverNarrow(r, RunLength(r.list, r.last.n));
  }

  lemma HandUpToNarrow(r: RxInt, s: int)
    requires AllNear(r.list, s)
    ensures DeliverLe(Narrow(r), Wrap12(s)) == Narrow(HandUpTo(r, s))
  {
    LeCountNarrow(r.list, s);
    DeliverNarrow(r, UpTo(r.list, s));
  }

  lemma RefreshNarrow(r: RxInt)
    ensures Refresh(Narrow(r)) == Narrow(ResetAll(r))
  {
    DeliverNarrow(r, |r.list|);
  }

  lemma {:induction false} FlushNarrow(r: RxInt, now: int)
    requires Loose(r) && (r.last.At? ==> AllNear(r.list, r.last.n + 1))
    ensures Flush(Narrow(r), now) == Narrow(FlushInt(r, now))
  {
    if now > r.timer + FLUSH_ALL_TIMEOUT && |r.list| > 1 {
      RefreshNarrow(r);
    } else if now > r.timer + REORDERING_PACKET_TIMEOUT && |r.list| > 0 {
      SkipNarrow(r, now);
    }
  }

  lemma NextWrap(n: int)
    ensures (Wrap12(n) + 1) % 4096 == Wrap12(n + 1)
  {
  }

  lemma HandUpToLists(r: RxInt, s: int)
    requires Ascending(r.list) && AllNear(r.list, s)
    ensures Ascending(HandUpTo(r, s).list) && AllNear(HandUpTo(r, s).list, s)
  {
    hide UpTo, Near;
  }

  lemma SkipNarrow(r: RxInt, now: int)
    requires Loose(r) && r.last.At? && AllNear(r.list, r.last.n + 1)
    ensures SkipOne(Narrow(r), now) == Narrow(SkipOneInt(r, now))
  {
    hide Wrap12, DeliverLe, HandUpTo, InOrder, Advance, AllNear, Ascending;
    var s := r.last.n + 1;
    NextWrap(r.last.n);
    HandUpToNarrow(r, s);
    HandUpToLists(r, s);
    AdvanceNarrow(HandUpTo(r, s).(timer := now, last := At(s)));
  }

  lemma IndicateNarrow(r: RxInt, f: Frame)
    ensures Indicate(Narrow(r).(last := Wrap12(f.seqno)), NarrowFrame(f)) == Narrow(IndicateInt(r, f))
  {
    assert NarrowLog(r.delivered) + [NarrowFrame(f)] == NarrowLog(r.delivered + [f]);
  }

  lemma DropNarrow(r: RxInt, f: Frame)
    ensures Drop(Narrow(r), NarrowFrame(f)) == Narrow(DropInt(r, f))
  {
    assert NarrowLog(r.dropped) + [NarrowFrame(f)] == NarrowLog(r.dropped + [f]);
  }

  lemma EnqueueNarrow(r: RxInt, f: Frame)
    requires Ascending(r.list) && AllNear(r.list, f.seqno)
    ensures Enqueue(Narrow(r), NarrowFrame(f)) == Narrow(EnqueueInt(r, f))
  {
    hide Wrap12, UpTo, ScanPosition;
    var s := f.seqno;
    if r.free == [] {
      HandUpToNarrow(r, s);
      IndicateNarrow(MarkIf(HandUpTo(r, s), Holds(r.list, s)), f);
    } else {
      ScanNarrow(r.list, s);
      DropNarrow(r, f);
      if !Holds(r.list, s) {
        var k := UpTo(r.list, s);
        assert InsertAt(NarrowList(r.list), k, Mpdu(NarrowFrame(f), r.free[0]))
            == NarrowList(InsertAt(r.list, k, Mpdu(f, r.free[0])));
      }
    }
  }

  lemma MoveToNarrow(r: RxInt, s: int)
    requires AllNear(r.list, s)
    ensures DeliverLe(Narrow(r), Wrap12(s)).(last := Wrap12(s)) == Narrow(MoveTo(r, s))
  {
    HandUpToNarrow(r, s);
  }

  lemma WindowStartNarrow(s: int, win: nat)
    requires Window(win)
    ensures WindowStart(Wrap12(s), win) == Wrap12(s - win)
  {
  }

  lemma MoveToFields(r: RxInt, s: int)
    ensures MoveTo(r, s).win == r.win && MoveTo(r, s).last == At(s)
  {
  }

  /** What is left in the queue when the window slides up to a frame. */
  lemma SlideLists(r: RxInt, f: Frame)
    requires Loose(r) && r.last.At? && r.last.n + r.win < f.seqno && AllNear(r.list, f.seqno)
    ensures var m := MoveTo(r, f.seqno - r.win);
      && AllNear(r.list, f.seqno - r.win) && Ascending(m.list) && AllNear(m.list, f.seqno) && Loose(m)
      && var e := EnqueueInt(m, f);
         e.last.At? && Ascending(e.list) && AllNear(e.list, e.last.n)
  {
    var s := f.seqno - r.win;
    var m := MoveTo(r, s);
    LooseMove(r, s);
    UpToSplits(r.list, s);
    assert forall i :: 0 <= i < |m.list| ==> s < m.list[i].frame.seqno < f.seqno;
    LooseEnqueue(m, f);
    UpToSplits(m.list, f.seqno);
    hide UpTo;
  }

  lemma SlideNarrow(r: RxInt, f: Frame)
    requires Loose(r) && r.last.At? && r.last.n + r.win < f.seqno && AllNear(r.list, f.seqno)
    ensures Slide(Narrow(r), NarrowFrame(f)) == Narrow(SlideInt(r, f))
  {
    hide Wrap12, WindowStart, MoveTo, DeliverLe, Enqueue, EnqueueInt, InOrder, Advance, Loose;
    var s := f.seqno - r.win;
    var m := MoveTo(r, s);
    LooseWindow(r);
    WindowStartNarrow(f.seqno, r.win);
    SlideLists(r, f);
    MoveToNarrow(r, s);
    MoveToFields(r, s);
    EnqueueNarrow(m, f);
    AdvanceNarrow(EnqueueInt(m, f));
  }

  lemma LooseWindow(r: RxInt)
    requires Loose(r)
    ensures Window(r.win) && Ascending(r.list)
  {
  }

  /** The driver's four comparisons tell the five cases apart exactly as the integers do. */
  lemma CasesAgree(s: int, n: int, win: nat)
    requires Near(s, n) && Window(win)
    ensures StepOne(Wrap12(s), Wrap12(n)) <==> s == n + 1
    ensures s != n + 1 ==>
      ((Wrap12(s) == Wrap12(n) || Smaller(Wrap12(s), Wrap12(n))) <==> s <= n)
    ensures s > n + 1 ==>
      (Smaller(Wrap12(s), (Wrap12(n) + win + 1) % 4096) <==> s <= n + win)
  {
    StepOneIsSuccessor(s, n);
    WrapInjective(s, n);
    SmallerIsLess(s, n);
    WrapShift(n, win + 1);
    if s > n + 1 {
      SmallerIsLess(s, n + win + 1);
    }
  }

  lemma ClassifyNarrow(r: RxInt, f: Frame)
    requires Loose(r)
    requires r.last.At? ==> Near(f.seqno, r.last.n) && (f.seqno > r.last.n ==> AllNear(r.list, f.seqno))
    ensures Classify(Narrow(r), NarrowFrame(f)) == Narrow(ClassifyInt(r, f))
  {
    hide Wrap12, Smaller, StepOne, Slide, SlideInt, Enqueue, EnqueueInt, InOrder, Advance;
    if r.last.Reset? {
      IndicateNarrow(r, f);
    } else {
      var n := r.last.n;
      CasesAgree(f.seqno, n, r.win);
      if f.seqno == n + 1 {
        IndicateNarrow(r, f);
        AdvanceNarrow(IndicateInt(r, f));
      } else if f.seqno <= n {
        DropNarrow(r, f);
      } else if f.seqno <= n + r.win {
        EnqueueNarrow(r, f);
      } else {
        SlideNarrow(r, f);
      }
    }
  }

  lemma BarNarrow(r: RxInt, start: int)
    requires Loose(r)
    requires r.last.At? ==> Near(r.last.n, start) && (start > r.last.n ==> AllNear(r.list, start))
    ensures BarStep(Narrow(r), Wrap12(start)) == Narrow(BarInt(r, start))
  {
    hide Wrap12, Smaller, DeliverLe, HandUpTo;
    SmallerThanReset(Wrap12(start));
    BeforeStart(start);
    if r.last.At? {
      SmallerIsLess(r.last.n, start);
    }
    if r.last.Reset? || r.last.n < start {
      HandUpToNarrow(r, start);
    }
  }

  lemma BeforeStart(start: int)
    ensures Wrap12(start - 1) == if Wrap12(start) == 0 then MAXSEQ else Wrap12(start) - 1
  {
  }

  /** One step: the driver's arithmetic computes the reference step modulo 4096. */
  lemma StepRefines(r: RxInt, e: Event)
    requires Loose(r) && Close(r, e)
    ensures Step(Narrow(r), NarrowEvent(e)) == Narrow(StepInt(r, e))
  {
    hide Loose, Flush, FlushInt, Classify, ClassifyInt, BarStep, BarInt;
    match e
    case Arrive(f, now) =>
      FlushNarrow(r, now);
      LooseFlush(r, now);
      LooseTimer(FlushInt(r, now), now);
      ClassifyNarrow(FlushInt(r, now).(timer := now), f);
    case Oversized(f) => DropNarrow(r, f);
    case BlockAckReq(start) => BarNarrow(r, start);
    case FlushTimer(now) => FlushNarrow(r, now);
    case IdleTimeout(now) => RefreshNarrow(r);
  }

  lemma LooseTimer(r: RxInt, t: int)
    requires Loose(r)
    ensures Loose(r.(timer := t))
  {
  }

  /** Whole runs: same deliveries, drops, queue, free list and window, with or without free blocks, as
      long as each number that is compared is within half the space. */
  lemma {:induction false} RunRefines(r: RxInt, es: seq<Event>)
    requires Loose(r) && CloseRun(r, es)
    ensures Run(Narrow(r), NarrowEvents(es)) == Narrow(RunInt(r, es))
    ensures Loose(RunInt(r, es))
    decreases |es|
  {
    hide Loose, Close, Step, StepInt;
    if es != [] {
      StepRefines(r, es[0]);
      LooseStep(r, es[0]);
      assert NarrowEvents(es)[1..] == NarrowEvents(es[1..]);
      RunRefines(StepInt(r, es[0]), es[1..]);
    }
  }
}
