/** Receive reordering buffer of one Block-Ack session, with the driver's 12-bit arithmetic.
    Every operation is a function on `Rx`, the session together with the shared free list. */
module Reorder {
  import opened SeqNum

  /** A received MPDU: its sequence number and the identity of its packet. */
  datatype Frame = Frame(seqno: int, pkt: nat)

  /** A frame held in a reordering block taken from the pool. */
  datatype Mpdu = Mpdu(frame: Frame, blk: nat)

  datatype Rx = Rx(
    last: int,               // LastIndSeq
    list: seq<Mpdu>,         // reordering list, in list order
    win: nat,                // BAWinSize
    timer: int,              // LastIndSeqAtTimer
    free: seq<nat>,          // freelist of the block pool, head first
    delivered: seq<Frame>,   // frames handed to the upper layer, oldest first
    dropped: seq<Frame>)     // frames released without being handed up

  datatype Event =
    | Arrive(frame: Frame, now: int)
    | Oversized(frame: Frame)
    | BlockAckReq(start: int)
    | FlushTimer(now: int)
    | IdleTimeout(now: int)

  // Time-outs in system ticks, for a kernel running at HZ = 100.
  const REORDERING_PACKET_TIMEOUT: int := 10       // (100 * HZ) / 1000
  const FLUSH_ALL_TIMEOUT: int := 50               // MAX_REORDERING_PACKET_TIMEOUT / 6
  const REC_BA_SESSION_IDLE_TIMEOUT: int := 1000

  // ------------------------------------------------------------- list primitives

  /** Number of leading frames that continue `start` one by one. */
  function InOrderCount(list: seq<Mpdu>, start: int): (k: nat)
    ensures k <= |list|
  {
    if list == [] || !StepOne(list[0].frame.seqno, start) then 0
    else 1 + InOrderCount(list[1..], list[0].frame.seqno)
  }

  /** Number of leading frames at or before `s`. */
  function LeCount(list: seq<Mpdu>, s: int): (k: nat)
    ensures k <= |list|
  {
    if list == [] || !(list[0].frame.seqno == s || Smaller(list[0].frame.seqno, s)) then 0
    else 1 + LeCount(list[1..], s)
  }

  /** Where ba_reordering_mpdu_insertsorted stops scanning. */
  function ScanPosition(list: seq<Mpdu>, s: int): (k: nat)
    ensures k <= |list|
  {
    if list == [] || !Smaller(list[0].frame.seqno, s) then 0
    else 1 + ScanPosition(list[1..], s)
  }

  predicate IsDuplicate(list: seq<Mpdu>, s: int) {
    var k := ScanPosition(list, s);
    k < |list| && list[k].frame.seqno == s
  }

  function InsertAt(list: seq<Mpdu>, k: nat, m: Mpdu): seq<Mpdu>
    requires k <= |list|
  {
    list[..k] + [m] + list[k..]
  }

  function Frames(list: seq<Mpdu>): (fs: seq<Frame>)
    ensures |fs| == |list|
    ensures forall i :: 0 <= i < |list| ==> fs[i] == list[i].frame
  {
    seq(|list|, i requires 0 <= i < |list| => list[i].frame)
  }

  /** Blocks pushed one after the other on the head of the free list. */
  function PushAll(list: seq<Mpdu>, free: seq<nat>): seq<nat> {
    if list == [] then free else PushAll(list[1..], [list[0].blk] + free)
  }

  // ------------------------------------------------------------- operations

  /** Dequeue `k` blocks, hand their frames up, and free the blocks. */
  function Deliver(r: Rx, k: nat): Rx
    requires k <= |r.list|
  {
    r.(list := r.list[k..],
       free := PushAll(r.list[..k], r.free),
       delivered := r.delivered + Frames(r.list[..k]))
  }

  /** ba_indicate_reordering_mpdus_in_order, with its caller's update of LastIndSeq. */
  function InOrder(r: Rx, start: int): Rx {
    var k := InOrderCount(r.list, start);
    var d := Deliver(r, k);
    if k == 0 then d else d.(last := r.list[k - 1].frame.seqno)
  }

  /** ba_indicate_reordering_mpdus_le_seq */
  function DeliverLe(r: Rx, s: int): Rx {
    Deliver(r, LeCount(r.list, s))
  }

  /** ba_refresh_reordering_mpdus */
  function Refresh(r: Rx): Rx {
    Deliver(r, |r.list|).(last := RESET_RCV_SEQ)
  }

  /** Give up waiting for the next number: move past it and hand up what follows. */
  function SkipOne(r: Rx, now: int): Rx {
    var s := (r.last + 1) % 4096;
    InOrder(DeliverLe(r, s).(timer := now, last := s), s)
  }

  /** ba_flush_reordering_timeout_mpdus */
  function Flush(r: Rx, now: int): Rx {
    if now > r.timer + FLUSH_ALL_TIMEOUT && |r.list| > 1 then
      Refresh(r).(timer := now)
    else if now > r.timer + REORDERING_PACKET_TIMEOUT && |r.list| > 0 then
      SkipOne(r, now)
    else
      r
  }

  function Indicate(r: Rx, f: Frame): Rx {
    r.(delivered := r.delivered + [f])
  }

  function Drop(r: Rx, f: Frame): Rx {
    r.(dropped := r.dropped + [f])
  }

  /** ba_enqueue_reordering_packet */
  function Enqueue(r: Rx, f: Frame): Rx {
    if r.free == [] then
      Indicate(DeliverLe(r, f.seqno).(last := f.seqno), f)
    else if IsDuplicate(r.list, f.seqno) then
      Drop(r, f)
    else
      r.(list := InsertAt(r.list, ScanPosition(r.list, f.seqno), Mpdu(f, r.free[0])),
         free := r.free[1..])
  }

  /** First sequence number kept when a frame beyond the window slides the window up to itself. */
  function WindowStart(s: int, win: nat): int {
    var tmp := s - win - 1;
    ((if tmp < 0 then tmp + 4096 else tmp) + 1) % 4096
  }

  /** Case V of Indicate_AMPDU_Packet: the frame becomes the last one of the window. */
  function Slide(r: Rx, f: Frame): Rx {
    var s := WindowStart(f.seqno, r.win);
    var e := Enqueue(DeliverLe(r, s).(last := s), f);
    InOrder(e, e.last)
  }

  /** Indicate_AMPDU_Packet, after the time-out flush. */
  function Classify(r: Rx, f: Frame): Rx {
    if r.last == RESET_RCV_SEQ then
      Indicate(r.(last := f.seqno), f)
    else if StepOne(f.seqno, r.last) then
      InOrder(Indicate(r.(last := f.seqno), f), f.seqno)
    else if f.seqno == r.last || Smaller(f.seqno, r.last) then
      Drop(r, f)
    else if Smaller(f.seqno, (r.last + r.win + 1) % 4096) then
      Enqueue(r, f)
    else
      Slide(r, f)
  }

  function ArriveStep(r: Rx, f: Frame, now: int): Rx {
    Classify(Flush(r, now).(timer := now), f)
  }

  /** CntlEnqueueForRecv, for a well-formed request of an existing session. */
  function BarStep(r: Rx, start: int): Rx {
    if Smaller(r.last, start) then
      DeliverLe(r, start).(last := if start == 0 then MAXSEQ else start - 1)
    else
      r
  }

  /** BARecSessionTearDown of an accepted session. */
  function TearDown(r: Rx): Rx {
    Refresh(r).(win := 0)
  }

  /** BARecSessionAdd of a session that exists: the queue is handed up before the new parameters are set. */
  function Renew(r: Rx, win: nat): Rx {
    Refresh(r).(win := win)
  }

  /** ba_reordering_resource_release: queued packets are released, not handed up. */
  function ReleaseAll(r: Rx): Rx {
    r.(list := [], free := PushAll(r.list, r.free), dropped := r.dropped + Frames(r.list))
  }

  function Step(r: Rx, e: Event): Rx {
    match e
    case Arrive(f, now) => ArriveStep(r, f, now)
    case Oversized(f) => Drop(r, f)
    case BlockAckReq(start) => BarStep(r, start)
    case FlushTimer(now) => Flush(r, now)
    case IdleTimeout(now) => if now > r.timer + REC_BA_SESSION_IDLE_TIMEOUT then Refresh(r) else r
  }

  function Run(r: Rx, es: seq<Event>): Rx
    decreases |es|
  {
    if es == [] then r else Run(Step(r, es[0]), es[1..])
  }
}

/** The same buffer over unbounded integers: the reference the 12-bit code is meant to implement.
    `cuts` and `hits` are marks in the delivery log used to state its order. */
module ReorderInt {
  import opened SeqNum
  import opened Reorder

  datatype Last = Reset | At(n: int)

  datatype RxInt = RxInt(
    last: Last,
    list: seq<Mpdu>,
    win: nat,
    timer: int,
    free: seq<nat>,
    delivered: seq<Frame>,
    dropped: seq<Frame>,
    cuts: seq<nat>,   // log positions at which the session was reset
    hits: seq<nat>)   // log positions after which the number just handed up may come again

  /** Number of leading frames numbered start+1, start+2, ... */
  function RunLength(list: seq<Mpdu>, start: int): (k: nat)
    ensures k <= |list|
    ensures forall i :: 0 <= i < k ==> list[i].frame.seqno == start + 1 + i
    ensures k < |list| ==> list[k].frame.seqno != start + 1 + k
  {
    if list == [] || list[0].frame.seqno != start + 1 then 0
    else 1 + RunLength(list[1..], start + 1)
  }

  /** Number of leading frames numbered at most s. */
  function UpTo(list: seq<Mpdu>, s: int): (k: nat)
    ensures k <= |list|
    ensures forall i :: 0 <= i < k ==> list[i].frame.seqno <= s
    ensures k < |list| ==> list[k].frame.seqno > s
  {
    if list == [] || list[0].frame.seqno > s then 0 else 1 + UpTo(list[1..], s)
  }

  predicate Holds(list: seq<Mpdu>, s: int) {
    exists i :: 0 <= i < |list| && list[i].frame.seqno == s
  }

  function HandUp(r: RxInt, k: nat): RxInt
    requires k <= |r.list|
  {
    r.(list := r.list[k..],
       free := PushAll(r.list[..k], r.free),
       delivered := r.delivered + Frames(r.list[..k]))
  }

  function Advance(r: RxInt, start: int): RxInt {
    var k := RunLength(r.list, start);
    var d := HandUp(r, k);
    if k == 0 then d else d.(last := At(start + k))
  }

  function HandUpTo(r: RxInt, s: int): RxInt {
    HandUp(r, UpTo(r.list, s))
  }

  function MarkIf(r: RxInt, hit: bool): RxInt {
    if hit then r.(hits := r.hits + [|r.delivered|]) else r
  }

  function ResetAll(r: RxInt): RxInt {
    var d := HandUp(r, |r.list|);
    d.(last := Reset, cuts := d.cuts + [|d.delivered|])
  }

  function SkipOneInt(r: RxInt, now: int): RxInt
    requires r.last.At?
  {
    var s := r.last.n + 1;
    Advance(HandUpTo(r, s).(timer := now, last := At(s)), s)
  }

  function FlushInt(r: RxInt, now: int): RxInt {
    if now > r.timer + FLUSH_ALL_TIMEOUT && |r.list| > 1 then
      ResetAll(r).(timer := now)
    else if now > r.timer + REORDERING_PACKET_TIMEOUT && |r.list| > 0 && r.last.At? then
      SkipOneInt(r, now)
    else
      r
  }

  function IndicateInt(r: RxInt, f: Frame): RxInt {
    r.(last := At(f.seqno), delivered := r.delivered + [f])
  }

  function DropInt(r: RxInt, f: Frame): RxInt {
    r.(dropped := r.dropped + [f])
  }

  /** Sorted insertion, duplicates dropped; with no block, everything up to the frame goes up. */
  function EnqueueInt(r: RxInt, f: Frame): RxInt {
    if r.free == [] then
      IndicateInt(MarkIf(HandUpTo(r, f.seqno), Holds(r.list, f.seqno)), f)
    else if Holds(r.list, f.seqno) then
      DropInt(r, f)
    else
      r.(list := InsertAt(r.list, UpTo(r.list, f.seqno), Mpdu(f, r.free[0])), free := r.free[1..])
  }

  function MoveTo(r: RxInt, s: int): RxInt {
    HandUpTo(r, s).(last := At(s))
  }

  function SlideInt(r: RxInt, f: Frame): RxInt {
    var e := EnqueueInt(MoveTo(r, f.seqno - r.win), f);
    if e.last.At? then Advance(e, e.last.n) else e
  }

  function ClassifyInt(r: RxInt, f: Frame): RxInt {
    if r.last.Reset? then
      IndicateInt(r, f)
    else if f.seqno == r.last.n + 1 then
      Advance(IndicateInt(r, f), f.seqno)
    else if f.seqno <= r.last.n then
      DropInt(r, f)
    else if f.seqno <= r.last.n + r.win then
      EnqueueInt(r, f)
    else
      SlideInt(r, f)
  }

  function ArriveInt(r: RxInt, f: Frame, now: int): RxInt {
    ClassifyInt(FlushInt(r, now).(timer := now), f)
  }

  /** A request moves the window start to `start`. In the reset state the driver compares with its
      reset value, so it takes the request exactly when the number lies in the lower half space. */
  function BarInt(r: RxInt, start: int): RxInt {
    if (if r.last.Reset? then Wrap12(start) < HALF_SPACE else r.last.n < start) then
      MarkIf(HandUpTo(r, start), Holds(r.list, start)).(last := At(start - 1))
    else
      r
  }

  function StepInt(r: RxInt, e: Event): RxInt {
    match e
    case Arrive(f, now) => ArriveInt(r, f, now)
    case Oversized(f) => DropInt(r, f)
    case BlockAckReq(start) => BarInt(r, start)
    case FlushTimer(now) => FlushInt(r, now)
    case IdleTimeout(now) => if now > r.timer + REC_BA_SESSION_IDLE_TIMEOUT then ResetAll(r) else r
  }

  function RunInt(r: RxInt, es: seq<Event>): RxInt
    decreases |es|
  {
    if es == [] then r else RunInt(StepInt(r, es[0]), es[1..])
  }

  // ------------------------------------------------------------- invariant

  predicate Ascending(list: seq<Mpdu>) {
    forall i, j :: 0 <= i < j < |list| ==> list[i].frame.seqno < list[j].frame.seqno
  }

  predicate InWindow(list: seq<Mpdu>, lo: int, hi: int) {
    forall i :: 0 <= i < |list| ==> lo <= list[i].frame.seqno <= hi
  }

  /** Window size as BARecSessionAdd sets it: never 0, and an 8-bit field. */
  predicate Window(win: nat) {
    1 <= win <= 255
  }

  /** Reset means empty; otherwise the queue is strictly ascending, 2..win past the last number. */
  predicate QueueInv(r: RxInt) {
    && Window(r.win)
    && Ascending(r.list)
    && match r.last
       case Reset => r.list == []
       case At(n) => InWindow(r.list, n + 2, n + r.win)
  }

  /** The frame falls inside the window but is not the next one. */
  predicate Stored(r: RxInt, f: Frame) {
    r.last.At? && r.last.n + 1 < f.seqno <= r.last.n + r.win
  }

  /** What the environment promises about an event: numbers within half the sequence space of the
      last indicated one, and, when no block is left, no queued direct successor of the frame. */
  predicate Legal(r: RxInt, e: Event) {
    match e
    case Arrive(f, now) =>
      var m := FlushInt(r, now);
      m.last.At? ==> Near(f.seqno, m.last.n) && (m.free == [] && Stored(m, f) ==> !Holds(m.list, f.seqno + 1))
    case BlockAckReq(start) => r.last.At? ==> Near(r.last.n, start)
    case _ => true
  }

  predicate LegalRun(r: RxInt, es: seq<Event>)
    decreases |es|
  {
    es != [] ==> Legal(r, es[0]) && LegalRun(StepInt(r, es[0]), es[1..])
  }

  // ------------------------------------------------------------- without the gap

  /** What every event keeps, whatever its number and however many blocks are left: the queue is
      ascending and ends within the window. */
  predicate Loose(r: RxInt) {
    && Window(r.win)
    && Ascending(r.list)
    && match r.last
       case Reset => r.list == []
       case At(n) => forall i :: 0 <= i < |r.list| ==> r.list[i].frame.seqno <= n + r.win
  }

  predicate AllNear(l: seq<Mpdu>, s: int) {
    forall i :: 0 <= i < |l| ==> Near(l[i].frame.seqno, s)
  }

  /** The numbers an event makes the driver compare are within half the space of each other: the
      arriving one and the last indicated one, and the queued ones with both. */
  predicate Close(r: RxInt, e: Event) {
    match e
    case Arrive(f, now) =>
      var m := FlushInt(r, now);
      && (r.last.At? ==> AllNear(r.list, r.last.n + 1))
      && (m.last.At? ==> Near(f.seqno, m.last.n) && (f.seqno > m.last.n ==> AllNear(m.list, f.seqno)))
    case BlockAckReq(start) => r.last.At? ==> Near(r.last.n, start) && (start > r.last.n ==> AllNear(r.list, start))
    case FlushTimer(now) => r.last.At? ==> AllNear(r.list, r.last.n + 1)
    case _ => true
  }

  predicate CloseRun(r: RxInt, es: seq<Event>)
    decreases |es|
  {
    es != [] ==> Close(r, es[0]) && CloseRun(StepInt(r, es[0]), es[1..])
  }

  lemma LooseAdvance(r: RxInt, start: int)
    requires Loose(r) && r.last == At(start)
    ensures Loose(Advance(r, start)) && Advance(r, start).last.At?
  {
    hide RunLength;
  }

  lemma LooseMove(r: RxInt, s: int)
    requires Loose(r) && (r.last.At? ==> r.last.n < s)
    ensures Loose(HandUpTo(r, s).(last := At(s))) && Loose(HandUpTo(r, s).(last := At(s - 1)))
  {
    hide UpTo;
  }

  lemma LooseFlush(r: RxInt, now: int)
    requires Loose(r)
    ensures Loose(FlushInt(r, now))
  {
    hide UpTo, RunLength, Advance;
    if r.last.At? {
      var s := r.last.n + 1;
      LooseMove(r, s);
      LooseAdvance(HandUpTo(r, s).(timer := now, last := At(s)), s);
    }
  }

  lemma LooseEnqueue(r: RxInt, f: Frame)
    requires Loose(r) && r.last.At? && r.last.n <= f.seqno <= r.last.n + r.win
    ensures Loose(EnqueueInt(r, f)) && EnqueueInt(r, f).last.At?
  {
    UpToSplits(r.list, f.seqno);
    if r.free != [] && !Holds(r.list, f.seqno) {
      InsertAscending(r.list, UpTo(r.list, f.seqno), Mpdu(f, r.free[0]));
    }
    hide UpTo, InsertAt;
  }

  lemma LooseClassify(r: RxInt, f: Frame)
    requires Loose(r)
    ensures Loose(ClassifyInt(r, f))
  {
    hide UpTo, RunLength, EnqueueInt, Advance;
    if r.last.At? {
      if f.seqno == r.last.n + 1 {
        LooseAdvance(IndicateInt(r, f), f.seqno);
      } else if r.last.n < f.seqno <= r.last.n + r.win {
        LooseEnqueue(r, f);
      } else if f.seqno > r.last.n {
        var m := MoveTo(r, f.seqno - r.win);
        LooseMove(r, f.seqno - r.win);
        LooseEnqueue(m, f);
        LooseAdvance(EnqueueInt(m, f), EnqueueInt(m, f).last.n);
      }
    }
  }

  lemma LooseStep(r: RxInt, e: Event)
    requires Loose(r)
    ensures Loose(StepInt(r, e))
  {
    hide UpTo, ClassifyInt, FlushInt;
    match e
    case Arrive(f, now) =>
      LooseFlush(r, now);
      LooseClassify(FlushInt(r, now).(timer := now), f);
    case BlockAckReq(start) =>
      if r.last.At? && r.last.n < start { LooseMove(r, start); }
    case FlushTimer(now) => LooseFlush(r, now);
    case _ =>
  }

  // ------------------------------------------------------------- the invariant is kept

  /** As QueueInv, but the direct successor of the last number may still be queued. */
  predicate Undrained(r: RxInt) {
    Window(r.win) && Ascending(r.list) && r.last.At? && InWindow(r.list, r.last.n + 1, r.last.n + r.win)
  }

  lemma UpToSplits(list: seq<Mpdu>, s: int)
    requires Ascending(list)
    ensures forall i :: UpTo(list, s) <= i < |list| ==> list[i].frame.seqno > s
  {
  }

  lemma AdvanceDrains(r: RxInt)
    requires Undrained(r)
    ensures QueueInv(Advance(r, r.last.n)) && Advance(r, r.last.n).last.At?
  {
    var n, k := r.last.n, RunLength(r.list, r.last.n);
    forall i | k <= i < |r.list|
      ensures n + k + 2 <= r.list[i].frame.seqno
    {
      assert r.list[k].frame.seqno <= r.list[i].frame.seqno;
      assert k > 0 ==> r.list[k - 1].frame.seqno < r.list[k].frame.seqno;
    }
  }

  lemma FlushKeeps(r: RxInt, now: int)
    requires QueueInv(r)
    ensures QueueInv(FlushInt(r, now))
  {
    if r.last.At? {
      var s := r.last.n + 1;
      UpToSplits(r.list, s);
      AdvanceDrains(HandUpTo(r, s).(timer := now, last := At(s)));
    }
  }

  lemma InsertAscending(l: seq<Mpdu>, k: nat, m: Mpdu)
    requires Ascending(l) && k <= |l|
    requires forall i :: 0 <= i < k ==> l[i].frame.seqno < m.frame.seqno
    requires forall i :: k <= i < |l| ==> l[i].frame.seqno > m.frame.seqno
    ensures Ascending(InsertAt(l, k, m))
    ensures forall lo, hi :: InWindow(l, lo, hi) && lo <= m.frame.seqno <= hi ==> InWindow(InsertAt(l, k, m), lo, hi)
  {
  }

  lemma EnqueueKeeps(r: RxInt, f: Frame)
    requires Undrained(r)
    requires r.last.n + 1 <= f.seqno <= r.last.n + r.win
    ensures Undrained(EnqueueInt(r, f))
  {
    UpToSplits(r.list, f.seqno);
    var k := UpTo(r.list, f.seqno);
    if r.free != [] && !Holds(r.list, f.seqno) {
      InsertAscending(r.list, k, Mpdu(f, r.free[0]));
    }
    hide UpTo, InsertAt;
  }

  /** Storing keeps the gap after the last number, unless no block is left and the direct successor
      of the frame is queued: then, and only then, the queue is left undrained. */
  lemma EnqueueKeepsGapIff(r: RxInt, f: Frame)
    requires QueueInv(r) && r.last.At?
    requires r.last.n + 2 <= f.seqno <= r.last.n + r.win
    ensures QueueInv(EnqueueInt(r, f)) <==> (r.free == [] ==> !Holds(r.list, f.seqno + 1))
  {
    EnqueueKeeps(r, f);
    UpToSplits(r.list, f.seqno);
    if r.free == [] {
      var k := UpTo(r.list, f.seqno);
      if i :| 0 <= i < |r.list| && r.list[i].frame.seqno == f.seqno + 1 {
        assert r.list[k..][i - k] == r.list[i];
      }
    }
  }

  lemma SlideKeeps(r: RxInt, f: Frame)
    requires QueueInv(r) && r.last.At? && f.seqno > r.last.n + r.win
    ensures QueueInv(SlideInt(r, f)) && SlideInt(r, f).last.At?
  {
    hide UpTo, Advance, EnqueueInt, PushAll;
    var m := MoveTo(r, f.seqno - r.win);
    UpToSplits(r.list, f.seqno - r.win);
    EnqueueKeeps(m, f);
    AdvanceDrains(EnqueueInt(m, f));
  }

  lemma ClassifyKeeps(r: RxInt, f: Frame)
    requires QueueInv(r)
    requires r.free == [] && Stored(r, f) ==> !Holds(r.list, f.seqno + 1)
    ensures QueueInv(ClassifyInt(r, f))
  {
    if r.last.At? {
      if f.seqno == r.last.n + 1 {
        AdvanceDrains(IndicateInt(r, f));
      } else if r.last.n + 2 <= f.seqno <= r.last.n + r.win {
        EnqueueKeepsGapIff(r, f);
      } else if f.seqno > r.last.n {
        SlideKeeps(r, f);
      }
    }
  }

  lemma StepKeeps(r: RxInt, e: Event)
    requires QueueInv(r) && Legal(r, e)
    ensures QueueInv(StepInt(r, e))
  {
    match e
    case Arrive(f, now) =>
      FlushKeeps(r, now);
      ClassifyKeeps(FlushInt(r, now).(timer := now), f);
    case BlockAckReq(start) => UpToSplits(r.list, start);
    case FlushTimer(now) => FlushKeeps(r, now);
    case _ =>
  }

  /** Legal events compare near numbers only. */
  lemma LegalClose(r: RxInt, e: Event)
    requires QueueInv(r) && Legal(r, e)
    ensures Loose(r) && Close(r, e)
  {
    if e.Arrive? {
      FlushKeeps(r, e.now);
    }
    hide FlushInt;
  }

  lemma {:induction false} LegalRunClose(r: RxInt, es: seq<Event>)
    requires QueueInv(r) && LegalRun(r, es)
    ensures CloseRun(r, es)
    decreases |es|
  {
    hide StepInt, Close, Legal, QueueInv;
    if es != [] {
      LegalClose(r, es[0]);
      StepKeeps(r, es[0]);
      LegalRunClose(StepInt(r, es[0]), es[1..]);
    }
  }
}
