/** Order of the delivery log, on every run of the reference buffer (and, through the refinement,
    of the driver's buffer). */
module ReorderOrder {
  import opened Reorder
  import opened ReorderInt

  /** Some mark of `ms` lies after log entry i and not after entry j. */
  predicate Between(ms: seq<nat>, i: int, j: int) {
    exists m :: m in ms && i < m <= j
  }

  /** Between resets the log never goes back, and repeats a number only across a hit mark. */
  predicate LogOrdered(d: seq<Frame>, cuts: seq<nat>, hits: seq<nat>) {
    forall i, j :: 0 <= i < j < |d| && !Between(cuts, i, j) ==>
      || d[i].seqno < d[j].seqno
      || (d[i].seqno == d[j].seqno && Between(hits, i, j))
  }

  /** Every entry since the last reset is at most n, or is n + 1 with a hit mark after it. */
  predicate BoundedBy(d: seq<Frame>, cuts: seq<nat>, hits: seq<nat>, n: int) {
    forall i :: 0 <= i < |d| && !Between(cuts, i, |d|) ==>
      || d[i].seqno <= n
      || (d[i].seqno == n + 1 && Between(hits, i, |d|))
  }

  predicate MarksInside(ms: seq<nat>, d: seq<Frame>) {
    forall m :: m in ms ==> m <= |d|
  }

  predicate OrderInv(r: RxInt) {
    && MarksInside(r.cuts, r.delivered)
    && MarksInside(r.hits, r.delivered)
    && LogOrdered(r.delivered, r.cuts, r.hits)
    && match r.last
       case Reset => forall i :: 0 <= i < |r.delivered| ==> Between(r.cuts, i, |r.delivered|)
       case At(n) => BoundedBy(r.delivered, r.cuts, r.hits, n)
  }

  lemma AppendOne(d: seq<Frame>, cuts: seq<nat>, hits: seq<nat>, f: Frame)
    requires MarksInside(cuts, d) && MarksInside(hits, d)
    requires LogOrdered(d, cuts, hits) && BoundedBy(d, cuts, hits, f.seqno - 1)
    ensures LogOrdered(d + [f], cuts, hits) && BoundedBy(d + [f], cuts, hits, f.seqno)
  {
    var e := d + [f];
    forall i, j | 0 <= i < j < |e| && !Between(cuts, i, j)
      ensures e[i].seqno < e[j].seqno || (e[i].seqno == e[j].seqno && Between(hits, i, j))
    {
    }
    forall i | 0 <= i < |e| && !Between(cuts, i, |e|)
      ensures e[i].seqno <= f.seqno
    {
      assert i < |d| && Between(cuts, i, |d|) ==> Between(cuts, i, |e|);
    }
  }

  lemma Loosen(d: seq<Frame>, cuts: seq<nat>, hits: seq<nat>, n: int, n': int)
    requires BoundedBy(d, cuts, hits, n) && n <= n'
    ensures BoundedBy(d, cuts, hits, n')
  {
  }

  /** Handing up an ascending stretch of the queue that lies beyond everything handed up so far. */
  lemma {:induction false} AppendList(d: seq<Frame>, cuts: seq<nat>, hits: seq<nat>, l: seq<Mpdu>, n: int, top: int)
    requires MarksInside(cuts, d) && MarksInside(hits, d)
    requires LogOrdered(d, cuts, hits) && BoundedBy(d, cuts, hits, n)
    requires Ascending(l) && InWindow(l, n + 1, top) && n <= top
    ensures LogOrdered(d + Frames(l), cuts, hits) && BoundedBy(d + Frames(l), cuts, hits, top)
    decreases |l|
  {
    if l == [] {
      assert d + Frames(l) == d;
      Loosen(d, cuts, hits, n, top);
    } else {
      var f := l[0].frame;
      Loosen(d, cuts, hits, n, f.seqno - 1);
      AppendOne(d, cuts, hits, f);
      AppendList(d + [f], cuts, hits, l[1..], f.seqno, top);
      assert d + Frames(l) == d + [f] + Frames(l[1..]);
    }
  }

  lemma HandUpOrdered(r: RxInt, k: nat, n: int, top: int)
    requires OrderInv(r) && Ascending(r.list) && k <= |r.list|
    requires BoundedBy(r.delivered, r.cuts, r.hits, n) && n <= top
    requires forall i :: 0 <= i < k ==> n + 1 <= r.list[i].frame.seqno <= top
    ensures OrderInv(HandUp(r, k).(last := At(top)))
  {
    AppendList(r.delivered, r.cuts, r.hits, r.list[..k], n, top);
  }

  lemma AdvanceOrdered(r: RxInt)
    requires OrderInv(r) && Undrained(r)
    ensures OrderInv(Advance(r, r.last.n))
  {
    var k := RunLength(r.list, r.last.n);
    HandUpOrdered(r, k, r.last.n, r.last.n + k);
  }

  lemma MoveToOrdered(r: RxInt, s: int)
    requires OrderInv(r) && QueueInv(r) && r.last.At? && r.last.n < s
    ensures OrderInv(MoveTo(r, s))
  {
    HandUpOrdered(r, UpTo(r.list, s), r.last.n, s);
  }

  lemma IndicateOrdered(r: RxInt, f: Frame)
    requires OrderInv(r)
    requires r.last.At? ==> BoundedBy(r.delivered, r.cuts, r.hits, f.seqno - 1)
    ensures OrderInv(IndicateInt(r, f))
  {
    AppendOne(r.delivered, r.cuts, r.hits, f);
  }

  lemma ResetOrdered(r: RxInt)
    requires OrderInv(r) && QueueInv(r)
    ensures OrderInv(ResetAll(r))
  {
    if r.last.At? {
      HandUpOrdered(r, |r.list|, r.last.n, r.last.n + r.win);
    }
    var d := HandUp(r, |r.list|);
    assert r.last.Reset? ==> d.delivered == r.delivered;
    assert forall i :: 0 <= i < |d.delivered| ==> Between(d.cuts + [|d.delivered|], i, |d.delivered|) by {
      assert |d.delivered| in d.cuts + [|d.delivered|];
    }
    CutMore(d.delivered, d.cuts, d.hits, |d.delivered|);
  }

  lemma CutMore(d: seq<Frame>, cuts: seq<nat>, hits: seq<nat>, m: nat)
    requires LogOrdered(d, cuts, hits)
    ensures LogOrdered(d, cuts + [m], hits) && LogOrdered(d, cuts, hits + [m])
  {
    forall i, j
      ensures Between(cuts, i, j) ==> Between(cuts + [m], i, j)
      ensures Between(hits, i, j) ==> Between(hits + [m], i, j)
    {
      if x :| x in cuts && i < x <= j { assert x in cuts + [m]; }
      if x :| x in hits && i < x <= j { assert x in hits + [m]; }
    }
  }

  lemma FlushOrdered(r: RxInt, now: int)
    requires OrderInv(r) && QueueInv(r)
    ensures OrderInv(FlushInt(r, now))
  {
    hide ResetAll, SkipOneInt, QueueInv;
    ResetOrdered(r);
    if r.last.At? {
      SkipOrdered(r, now);
    }
  }

  lemma SkipOrdered(r: RxInt, now: int)
    requires OrderInv(r) && QueueInv(r) && r.last.At?
    ensures OrderInv(SkipOneInt(r, now))
  {
    var s := r.last.n + 1;
    MoveToOrdered(r, s);
    UpToSplits(r.list, s);
    hide LogOrdered, BoundedBy, MarksInside, Advance;
    AdvanceOrdered(HandUpTo(r, s).(timer := now, last := At(s)));
  }

  /** Handing up to s with last := s - 1, the number s itself marked when it was queued. */
  lemma MarkOrdered(r: RxInt, s: int)
    requires OrderInv(r) && Ascending(r.list)
    requires r.last.At? ==> r.last.n < s && InWindow(r.list, r.last.n + 1, r.last.n + r.win)
    requires r.last.Reset? ==> r.list == []
    ensures OrderInv(MarkIf(HandUpTo(r, s), Holds(r.list, s)).(last := At(s - 1)))
  {
    var k := UpTo(r.list, s);
    var h := HandUpTo(r, s);
    if r.last.Reset? {
      assert h.delivered == r.delivered;
    } else if Holds(r.list, s) {
      HandUpOrdered(r, k, r.last.n, s);
      CutMore(h.delivered, h.cuts, h.hits, |h.delivered|);
      assert |h.delivered| in h.hits + [|h.delivered|];
      assert forall i :: 0 <= i < |h.delivered| ==> Between(h.hits + [|h.delivered|], i, |h.delivered|);
    } else {
      assert forall i :: 0 <= i < k ==> r.list[i].frame.seqno != s;
      HandUpOrdered(r, k, r.last.n, s - 1);
    }
  }

  lemma EnqueueOrdered(r: RxInt, f: Frame)
    requires OrderInv(r) && Undrained(r) && r.last.n < f.seqno
    ensures OrderInv(EnqueueInt(r, f))
  {
    if r.free == [] {
      MarkOrdered(r, f.seqno);
      var m := MarkIf(HandUpTo(r, f.seqno), Holds(r.list, f.seqno)).(last := At(f.seqno - 1));
      IndicateOrdered(m, f);
      assert IndicateInt(m, f) == EnqueueInt(r, f);
    }
  }

  lemma SlideOrdered(r: RxInt, f: Frame)
    requires OrderInv(r) && QueueInv(r) && r.last.At? && r.last.n + r.win < f.seqno
    ensures OrderInv(SlideInt(r, f))
  {
    hide OrderInv;
    var s := f.seqno - r.win;
    var m := MoveTo(r, s);
    MoveToOrdered(r, s);
    UpToSplits(r.list, s);
    EnqueueOrdered(m, f);
    EnqueueKeeps(m, f);
    AdvanceOrdered(EnqueueInt(m, f));
  }

  lemma ClassifyOrdered(r: RxInt, f: Frame)
    requires OrderInv(r) && QueueInv(r)
    ensures OrderInv(ClassifyInt(r, f))
  {
    if r.last.Reset? {
      IndicateOrdered(r, f);
    } else if f.seqno == r.last.n + 1 {
      IndicateOrdered(r, f);
      AdvanceOrdered(IndicateInt(r, f));
    } else if r.last.n < f.seqno <= r.last.n + r.win {
      EnqueueOrdered(r, f);
    } else if f.seqno > r.last.n {
      SlideOrdered(r, f);
    }
  }

  lemma StepOrdered(r: RxInt, e: Event)
    requires OrderInv(r) && QueueInv(r)
    ensures OrderInv(StepInt(r, e))
  {
    match e
    case Arrive(f, now) =>
      FlushOrdered(r, now);
      FlushKeeps(r, now);
      ClassifyOrdered(FlushInt(r, now).(timer := now), f);
    case BlockAckReq(start) =>
      if r.last.Reset? || r.last.n < start {
        MarkOrdered(r, start);
      }
    case FlushTimer(now) => FlushOrdered(r, now);
    case IdleTimeout(now) => ResetOrdered(r);
    case Oversized(f) =>
  }

  /** Every legal run keeps the queue invariant and the order of the delivery log. */
  lemma {:induction false} RunOrdered(r: RxInt, es: seq<Event>)
    requires OrderInv(r) && QueueInv(r) && LegalRun(r, es)
    ensures OrderInv(RunInt(r, es)) && QueueInv(RunInt(r, es))
    decreases |es|
  {
    if es != [] {
      StepOrdered(r, es[0]);
      StepKeeps(r, es[0]);
      RunOrdered(StepInt(r, es[0]), es[1..]);
    }
  }
}
