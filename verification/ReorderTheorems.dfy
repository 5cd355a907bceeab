/** What the driver's reordering buffer guarantees, and where it fails, stated about the 12-bit functions
    `Step`, `Run`, `Classify` and `BarStep`; `RxInt` states serve to name the true numbers. */
module ReorderTheorems {
  import opened SeqNum
  import opened Reorder
  import opened ReorderInt
  import opened ReorderRefinement
  import opened ReorderOrder
  import opened ReorderStrict
  import opened ReorderPermutation

  /** A session as BARecSessionAdd leaves it. */
  function NewSession(win: nat, timer: int, free: seq<nat>): RxInt {
    RxInt(Reset, [], win, timer, free, [], [], [], [])
  }

  /** Any legal run of the driver's buffer delivers some log of true numbers modulo 4096, in order
      between resets and without repeats except across hit marks, and the queue is the ascending
      window queue of the reference. */
  lemma DriverRunOrdered(win: nat, timer: int, free: seq<nat>, es: seq<Event>)
    requires Window(win) && LegalRun(NewSession(win, timer, free), es)
    ensures var r := RunInt(NewSession(win, timer, free), es);
      && Run(Narrow(NewSession(win, timer, free)), NarrowEvents(es)) == Narrow(r)
      && QueueInv(r) && LogOrdered(r.delivered, r.cuts, r.hits)
      && (NoRepeats(NewSession(win, timer, free), es) ==> StrictlyOrdered(r.delivered, r.cuts))
  {
    var s := NewSession(win, timer, free);
    hide RunInt, LegalRun, NoRepeats, CloseRun, Run;
    LegalRunClose(s, es);
    RunRefines(s, es);
    RunOrdered(s, es);
    if NoRepeats(s, es) {
      RunStrict(s, es);
    }
  }

  /** Any run whose numbers are close enough to be told apart and in which no event repeats: the
      driver delivers strictly increasing numbers between resets, blocks or no blocks. */
  lemma DriverStrict(win: nat, timer: int, free: seq<nat>, es: seq<Event>)
    requires Window(win) && CloseRun(NewSession(win, timer, free), es) && NoRepeats(NewSession(win, timer, free), es)
    ensures var r := RunInt(NewSession(win, timer, free), es);
      && Run(Narrow(NewSession(win, timer, free)), NarrowEvents(es)) == Narrow(r)
      && StrictlyOrdered(r.delivered, r.cuts)
  {
    var s := NewSession(win, timer, free);
    hide RunInt, NoRepeats, CloseRun, Run;
    RunRefines(s, es);
    RunStrict(s, es);
  }

  /** The converse, from any state the driver can be in before the first repeat: its run goes on to a
      log that is not strictly increasing. */
  lemma DriverRepeats(r: RxInt, e: Event) returns (es: seq<Event>)
    requires StrictInv(r) && Repeats(r, e)
    ensures var n := RunInt(r, [e] + es);
      Run(Narrow(r), NarrowEvents([e] + es)) == Narrow(n) && !StrictlyOrdered(n.delivered, n.cuts)
  {
    hide StrictlyOrdered, Run, StepInt, Close;
    es := RepeatBreaks(r, e);
    assert ([e] + es)[1..] == es;
    RunRefines(r, [e] + es);
  }

  // ------------------------------------------------------------- enough blocks, no requests

  /** No request, and every arriving number within half the space of the last indicated one. */
  predicate NearArrivals(r: RxInt, es: seq<Event>)
    decreases |es|
  {
    es != [] ==>
      && !es[0].BlockAckReq?
      && (es[0].Arrive? ==>
            var m := FlushInt(r, es[0].now); m.last.At? ==> Near(es[0].frame.seqno, m.last.n))
      && NearArrivals(StepInt(r, es[0]), es[1..])
  }

  function Blocks(r: RxInt): nat { |r.free| + |r.list| }

  lemma HandUpBlocks(r: RxInt, k: nat)
    requires k <= |r.list|
    ensures Blocks(HandUp(r, k)) == Blocks(r)
  {
    PushAllLength(r.list[..k], r.free);
  }

  lemma FlushBlocks(r: RxInt, now: int)
    ensures Blocks(FlushInt(r, now)) == Blocks(r) && FlushInt(r, now).win == r.win
  {
    hide HandUp, PushAll;
    HandUpBlocks(r, |r.list|);
    HandUpFields(r, |r.list|);
    if r.last.At? {
      var s := r.last.n + 1;
      var k := UpTo(r.list, s);
      HandUpBlocks(r, k);
      HandUpFields(r, k);
      var m := HandUp(r, k).(timer := now, last := At(s));
      HandUpBlocks(m, RunLength(m.list, s));
      HandUpFields(m, RunLength(m.list, s));
    }
  }

  lemma HandUpFields(r: RxInt, k: nat)
    requires k <= |r.list|
    ensures HandUp(r, k).win == r.win && HandUp(r, k).last == r.last
  {
  }

  lemma AdvanceBlocks(r: RxInt, start: int)
    ensures Blocks(Advance(r, start)) == Blocks(r) && Advance(r, start).win == r.win
  {
    hide HandUp, RunLength;
    HandUpBlocks(r, RunLength(r.list, start));
    HandUpFields(r, RunLength(r.list, start));
  }

  lemma EnqueueBlocks(r: RxInt, f: Frame)
    ensures Blocks(EnqueueInt(r, f)) == Blocks(r) && EnqueueInt(r, f).win == r.win
  {
    hide HandUp, UpTo;
    HandUpBlocks(r, UpTo(r.list, f.seqno));
    HandUpFields(r, UpTo(r.list, f.seqno));
  }

  lemma ClassifyBlocks(r: RxInt, f: Frame)
    ensures Blocks(ClassifyInt(r, f)) == Blocks(r) && ClassifyInt(r, f).win == r.win
  {
    hide Advance, EnqueueInt, HandUp, UpTo;
    if r.last.At? {
      AdvanceBlocks(IndicateInt(r, f), f.seqno);
      EnqueueBlocks(r, f);
      var s := f.seqno - r.win;
      HandUpBlocks(r, UpTo(r.list, s));
      HandUpFields(r, UpTo(r.list, s));
      var e := EnqueueInt(MoveTo(r, s), f);
      EnqueueBlocks(MoveTo(r, s), f);
      if e.last.At? {
        AdvanceBlocks(e, e.last.n);
      }
    }
  }

  lemma StepBlocks(r: RxInt, e: Event)
    requires !e.BlockAckReq?
    ensures Blocks(StepInt(r, e)) == Blocks(r) && StepInt(r, e).win == r.win
  {
    hide FlushInt, ClassifyInt, HandUp;
    HandUpBlocks(r, |r.list|);
    HandUpFields(r, |r.list|);
    match e
    case Arrive(f, now) =>
      FlushBlocks(r, now);
      ClassifyBlocks(FlushInt(r, now).(timer := now), f);
    case FlushTimer(now) => FlushBlocks(r, now);
    case _ =>
  }

  /** With as many blocks as the window is wide, one is free whenever a frame arrives. */
  lemma BlockLeft(r: RxInt)
    requires QueueInv(r) && Blocks(r) >= r.win
    ensures r.free != [] && (r.last.At? ==> !Holds(r.list, r.last.n + 1))
  {
    if r.last.At? {
      ShortQueue(r.list, r.last.n + 2, r.last.n + r.win);
    }
  }

  lemma {:induction false} PoolSuffices(r: RxInt, es: seq<Event>)
    requires QueueInv(r) && Blocks(r) >= r.win && NearArrivals(r, es)
    ensures LegalRun(r, es) && NoRepeats(r, es)
    decreases |es|
  {
    hide StepInt, FlushInt, QueueInv, Blocks;
    if es != [] {
      var e := es[0];
      if e.Arrive? {
        FlushKeeps(r, e.now);
        FlushBlocks(r, e.now);
        BlockLeft(FlushInt(r, e.now));
      }
      StepKeeps(r, e);
      StepBlocks(r, e);
      PoolSuffices(StepInt(r, e), es[1..]);
    }
  }

  /** A session with at least BAWinSize blocks of its own and no requests: the driver delivers strictly
      increasing numbers between resets, whatever else happens. */
  lemma PoolStrict(win: nat, timer: int, free: seq<nat>, es: seq<Event>)
    requires Window(win) && |free| >= win && NearArrivals(NewSession(win, timer, free), es)
    ensures var r := RunInt(NewSession(win, timer, free), es);
      && Run(Narrow(NewSession(win, timer, free)), NarrowEvents(es)) == Narrow(r)
      && StrictlyOrdered(r.delivered, r.cuts)
  {
    var s := NewSession(win, timer, free);
    hide RunInt, LegalRun, NoRepeats, CloseRun, Run, NearArrivals;
    PoolSuffices(s, es);
    LegalRunClose(s, es);
    DriverStrict(win, timer, free, es);
  }

  /** The driver restores any window-bounded permutation of a..b, across wrap-around. */
  lemma DriverRestoresPermutation(r: RxInt, a: int, b: int, xs: seq<Arrival>)
    requires Window(r.win) && r.last == At(a - 1) && r.list == [] && |r.free| >= r.win
    requires a <= b + 1 && Covers(xs, a, b) && Distinct(xs) && Smooth(r, xs)
    ensures var r' := Run(Narrow(r), NarrowEvents(Events(xs)));
      && r'.last == Wrap12(b) && r'.list == []
      && |r'.delivered| == |r.delivered| + (b - a + 1)
      && forall i :: |r.delivered| <= i < |r'.delivered| ==>
           && r'.delivered[i].seqno == Wrap12(a + (i - |r.delivered|))
           && exists k :: 0 <= k < |xs| && r'.delivered[i] == NarrowFrame(xs[k].frame)
  {
    hide Run, RunInt, LegalRun, NarrowEvents, Events, Wrap12, Smooth, Covers, Distinct;
    PermutationRestored(r, a, b, xs);
    LegalRunClose(r, Events(xs));
    RunRefines(r, Events(xs));
    var d := RunInt(r, Events(xs)).delivered;
    forall i | |r.delivered| <= i < |d|
      ensures exists k :: 0 <= k < |xs| && NarrowLog(d)[i] == NarrowFrame(xs[k].frame)
    {
      var k :| 0 <= k < |xs| && xs[k].frame == d[i];
    }
  }

  // ------------------------------------------------------------- numbers that come twice

  /** The log holds the number at two places. */
  ghost predicate Twice(d: seq<Frame>, s: int) {
    exists i, j :: 0 <= i < j < |d| && d[i].seqno == s && d[j].seqno == s
  }

  /** A request whose starting number is queued hands that number up and then accepts it again. */
  lemma BarRedelivers(r: RxInt, s: int, p: nat)
    requires QueueInv(r) && r.last.At? && Holds(r.list, s)
    ensures Twice(Classify(BarStep(Narrow(r), Wrap12(s)), Frame(Wrap12(s), p)).delivered, Wrap12(s))
  {
    hide Classify, BarStep, ClassifyInt, BarInt, Wrap12, Twice, Loose, AllNear, Near;
    var f, b := Frame(s, p), BarInt(r, s);
    BarFacts(r, s);
    BarNarrow(r, s);
    ClassifyNarrow(b, f);
    var i := BarTwiceInt(r, f);
    NarrowTwice(ClassifyInt(b, f).delivered, s, i, |b.delivered|);
  }

  lemma BarFacts(r: RxInt, s: int)
    requires QueueInv(r) && r.last.At? && Holds(r.list, s)
    ensures Loose(r) && Near(r.last.n, s) && r.last.n < s && AllNear(r.list, s)
    ensures var b := BarInt(r, s); Loose(b) && b.last == At(s - 1) && Near(s, s - 1) && AllNear(b.list, s)
  {
    hide UpTo;
    LooseStep(r, BlockAckReq(s));
    UpToSplits(r.list, s);
  }

  lemma BarTwiceInt(r: RxInt, f: Frame) returns (i: nat)
    requires QueueInv(r) && r.last.At? && Holds(r.list, f.seqno)
    ensures var b := BarInt(r, f.seqno);
      var d := ClassifyInt(b, f).delivered;
      i < |b.delivered| < |d| && d[i].seqno == f.seqno == d[|b.delivered|].seqno
  {
    hide RunLength;
    var q :| 0 <= q < |r.list| && r.list[q].frame.seqno == f.seqno;
    UpToSplits(r.list, f.seqno);
    i := |r.delivered| + q;
    assert BarInt(r, f.seqno).delivered[i] == r.list[q].frame;
  }

  lemma NarrowTwice(d: seq<Frame>, s: int, i: nat, j: nat)
    requires i < j < |d| && d[i].seqno == s == d[j].seqno
    ensures Twice(NarrowLog(d), Wrap12(s))
  {
    assert NarrowLog(d)[i].seqno == Wrap12(s) && NarrowLog(d)[j].seqno == Wrap12(s);
  }

  /** With no block left, a frame that is already queued is handed up twice. */
  lemma NoBlockRedelivers(r: RxInt, f: Frame)
    requires QueueInv(r) && Stored(r, f) && Holds(r.list, f.seqno) && r.free == []
    ensures Twice(Classify(Narrow(r), NarrowFrame(f)).delivered, Wrap12(f.seqno))
  {
    hide Classify, ClassifyInt, Wrap12, Twice;
    ClassifyNarrow(r, f);
    var i := NoBlockTwiceInt(r, f);
    NarrowTwice(ClassifyInt(r, f).delivered, f.seqno, i, |ClassifyInt(r, f).delivered| - 1);
  }

  lemma NoBlockTwiceInt(r: RxInt, f: Frame) returns (i: nat)
    requires QueueInv(r) && Stored(r, f) && Holds(r.list, f.seqno) && r.free == []
    ensures var d := ClassifyInt(r, f).delivered; i < |d| - 1 && d[i].seqno == f.seqno == d[|d| - 1].seqno
  {
    var q :| 0 <= q < |r.list| && r.list[q].frame.seqno == f.seqno;
    UpToSplits(r.list, f.seqno);
    i := |r.delivered| + q;
    assert ClassifyInt(r, f).delivered[i] == r.list[q].frame;
  }

  /** In the reset state the driver honours a request exactly in the lower half of the space. */
  lemma BarInResetState(r: Rx, start: int)
    requires r.last == RESET_RCV_SEQ && r.list == [] && 0 <= start <= MAXSEQ
    ensures BarStep(r, start) ==
      if start < HALF_SPACE then r.(last := (start + MAXSEQ) % 4096) else r
  {
    SmallerThanReset(start);
    assert r.list[0..] == r.list;
    assert r.delivered + Frames([]) == r.delivered;
  }

  // ------------------------------------------------------------- failing runs of new sessions

  /** A new session of the driver with window 64. */
  function Session(free: seq<nat>): Rx {
    Rx(RESET_RCV_SEQ, [], 64, 0, free, [], [])
  }

  lemma RunStep(r: Rx, es: seq<Event>)
    requires es != []
    ensures Run(r, es) == Run(Step(r, es[0]), es[1..])
  {
  }

  /** Frames 0 and 2, a request starting at 2, and frame 2 again: 0, 2 and 2 are delivered. */
  lemma BarRunFails()
    ensures var es := [Arrive(Frame(0, 1), 0), Arrive(Frame(2, 2), 0), BlockAckReq(2), Arrive(Frame(2, 3), 0)];
            Run(Session([7]), es).delivered == [Frame(0, 1), Frame(2, 2), Frame(2, 3)]
  {
    var e0, e1, e2, e3 := Arrive(Frame(0, 1), 0), Arrive(Frame(2, 2), 0), BlockAckReq(2), Arrive(Frame(2, 3), 0);
    var r0 := Session([7]);
    var r1 := Rx(0, [], 64, 0, [7], [Frame(0, 1)], []);
    var r2 := Rx(0, [Mpdu(Frame(2, 2), 7)], 64, 0, [], [Frame(0, 1)], []);
    var r3 := Rx(1, [], 64, 0, [7], [Frame(0, 1), Frame(2, 2)], []);
    FirstArrives();
    SecondStored();
    RequestHandsUp();
    assert Step(r3, e3).delivered == [Frame(0, 1), Frame(2, 2), Frame(2, 3)] by { AgainArrives(); }
    hide Step;
    RunStep(r0, [e0, e1, e2, e3]);
    assert [e0, e1, e2, e3][1..] == [e1, e2, e3];
    RunStep(r1, [e1, e2, e3]);
    assert [e1, e2, e3][1..] == [e2, e3];
    RunStep(r2, [e2, e3]);
    assert [e2, e3][1..] == [e3];
    RunStep(r3, [e3]);
    assert [e3][1..] == [];
  }

  lemma FirstArrives()
    ensures Step(Session([7]), Arrive(Frame(0, 1), 0)) == Rx(0, [], 64, 0, [7], [Frame(0, 1)], [])
  {
  }

  lemma SecondStored()
    ensures Step(Rx(0, [], 64, 0, [7], [Frame(0, 1)], []), Arrive(Frame(2, 2), 0))
         == Rx(0, [Mpdu(Frame(2, 2), 7)], 64, 0, [], [Frame(0, 1)], [])
  {
  }

  lemma RequestHandsUp()
    ensures Step(Rx(0, [Mpdu(Frame(2, 2), 7)], 64, 0, [], [Frame(0, 1)], []), BlockAckReq(2))
         == Rx(1, [], 64, 0, [7], [Frame(0, 1), Frame(2, 2)], [])
  {
    var l := [Mpdu(Frame(2, 2), 7)];
    assert LeCount(l, 2) == 1 + LeCount(l[1..], 2);
    assert l[..1] == l && Frames(l) == [Frame(2, 2)];
    assert PushAll(l, []) == PushAll(l[1..], [7]);
  }

  lemma AgainArrives()
    ensures Step(Rx(1, [], 64, 0, [7], [Frame(0, 1), Frame(2, 2)], []), Arrive(Frame(2, 3), 0)).delivered
         == [Frame(0, 1), Frame(2, 2), Frame(2, 3)]
  {
  }

  /** With a single block: frame 0, frame 2, and frame 2 again: 0, 2 and 2 are delivered. */
  lemma NoBlockRunFails()
    ensures var es := [Arrive(Frame(0, 1), 0), Arrive(Frame(2, 2), 0), Arrive(Frame(2, 3), 0)];
            Run(Session([7]), es).delivered == [Frame(0, 1), Frame(2, 2), Frame(2, 3)]
  {
    var e0, e1, e2 := Arrive(Frame(0, 1), 0), Arrive(Frame(2, 2), 0), Arrive(Frame(2, 3), 0);
    var r1 := Rx(0, [], 64, 0, [7], [Frame(0, 1)], []);
    var r2 := Rx(0, [Mpdu(Frame(2, 2), 7)], 64, 0, [], [Frame(0, 1)], []);
    FirstArrives();
    SecondStored();
    assert Step(r2, e2).delivered == [Frame(0, 1), Frame(2, 2), Frame(2, 3)] by { DuplicateArrives(); }
    hide Step;
    RunStep(Session([7]), [e0, e1, e2]);
    assert [e0, e1, e2][1..] == [e1, e2];
    RunStep(r1, [e1, e2]);
    assert [e1, e2][1..] == [e2];
    RunStep(r2, [e2]);
    assert [e2][1..] == [];
  }

  lemma DuplicateArrives()
    ensures Step(Rx(0, [Mpdu(Frame(2, 2), 7)], 64, 0, [], [Frame(0, 1)], []), Arrive(Frame(2, 3), 0)).delivered
         == [Frame(0, 1), Frame(2, 2), Frame(2, 3)]
  {
    var l := [Mpdu(Frame(2, 2), 7)];
    assert LeCount(l, 2) == 1 + LeCount(l[1..], 2);
    assert l[..1] == l && Frames(l) == [Frame(2, 2)];
  }

  /** With a single block: frames 0, 3 and 2. Frame 2 is indicated, and its successor stays queued. */
  lemma StrandedRun()
    ensures var es := [Arrive(Frame(0, 1), 0), Arrive(Frame(3, 2), 0), Arrive(Frame(2, 3), 0)];
            Run(Session([7]), es)
            == Rx(2, [Mpdu(Frame(3, 2), 7)], 64, 0, [], [Frame(0, 1), Frame(2, 3)], [])
  {
    var e0, e1, e2 := Arrive(Frame(0, 1), 0), Arrive(Frame(3, 2), 0), Arrive(Frame(2, 3), 0);
    var r1 := Rx(0, [], 64, 0, [7], [Frame(0, 1)], []);
    var r2 := Rx(0, [Mpdu(Frame(3, 2), 7)], 64, 0, [], [Frame(0, 1)], []);
    FirstArrives();
    ThirdStored();
    SuccessorStays();
    hide Step;
    RunStep(Session([7]), [e0, e1, e2]);
    assert [e0, e1, e2][1..] == [e1, e2];
    RunStep(r1, [e1, e2]);
    assert [e1, e2][1..] == [e2];
    RunStep(r2, [e2]);
    assert [e2][1..] == [];
  }

  lemma ThirdStored()
    ensures Step(Rx(0, [], 64, 0, [7], [Frame(0, 1)], []), Arrive(Frame(3, 2), 0))
         == Rx(0, [Mpdu(Frame(3, 2), 7)], 64, 0, [], [Frame(0, 1)], [])
  {
  }

  lemma SuccessorStays()
    ensures Step(Rx(0, [Mpdu(Frame(3, 2), 7)], 64, 0, [], [Frame(0, 1)], []), Arrive(Frame(2, 3), 0))
         == Rx(2, [Mpdu(Frame(3, 2), 7)], 64, 0, [], [Frame(0, 1), Frame(2, 3)], [])
  {
    var l := [Mpdu(Frame(3, 2), 7)];
    assert LeCount(l, 2) == 0 && l[..0] == [] && l[0..] == l;
  }
}
