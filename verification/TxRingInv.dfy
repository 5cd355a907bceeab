/** Layout invariant of the transmit ring and its preservation by every step. */
module TxRingInv {
  import opened Modular
  import opened TxChain
  import opened TxRing

  /** Where each accepted frame is: in a completed transfer, in the transfer in flight, or queued;
      queued frames up to the wrap point are `high`, those after it (or all, if none) `low`. */
  datatype Hist = Hist(done: seq<seq<TxFrame>>, inflight: seq<TxFrame>, high: seq<TxFrame>, low: seq<TxFrame>)

  function Flatten(bs: seq<seq<TxFrame>>): seq<TxFrame> {
    if bs == [] then [] else Flatten(bs[..|bs| - 1]) + bs[|bs| - 1]
  }

  function LowStart(r: Ring, h: Hist): nat {
    if h.high == [] then r.enb else 8
  }

  /** The writer has wrapped and works below the transfer in flight. */
  predicate Behind(r: Ring, h: Hist) {
    h.high != [] || r.cw < r.nb
  }

  const TOP: nat := 198854   // MAX_TXBULK_LIMIT - WRAP_RESERVE + 8

  /** The last record before the wrap starts here or later: MAX_TXBULK_LIMIT - WRAP_RESERVE - 2031. */
  const LAST_ROUND: nat := 196815

  predicate Cursors(r: Ring, h: Hist) {
    && |r.buf| == MAX_TXBULK_SIZE && |r.pad| == 8
    && r.cw <= TOP && r.enb <= TOP && r.nb <= TOP
    && (r.writer.Idle? ==> r.cwr == r.cw && r.cw + 8 <= TOP)
    && LowStart(r, h) + Total(h.low) == r.cw
    && if h.high != [] then
         8 <= r.nb && r.nb + 20 <= r.enb && (r.cw == 8 || r.cw + 8 <= r.nb)
         && r.enb + Total(h.high) + 8 <= MAX_TXBULK_LIMIT
         && LAST_ROUND <= r.enb + Total(h.high[..|h.high| - 1]) <= TOP
       else if r.nb == 0 then
         && !r.pending && !r.copyPad
         && if r.enb == 0 then r.cw == 0 && r.writer.Idle?
            else r.enb == 8 && (h.low != [] || r.writer.Writing?)
       else
         && 8 <= r.nb && 8 <= r.enb
         && if r.cw < r.nb then
              r.nb >= LOCAL_TXBUF_SIZE + 8 && (r.enb == 8 || (r.enb == 16 && (h.low != [] || r.writer.Writing?)))
            else r.nb + 20 <= r.enb
  }

  predicate Queue(r: Ring, h: Hist) {
    && AllFit(h.high) && AllFit(h.low)
    && Chain(Restored(r), r.enb, h.high, EDCA, EDCA_LAST)
    && Chain(Restored(r), LowStart(r, h), h.low, EDCA, EDCA)
    && (r.copyPad ==> h.high != [] || h.low != [] || r.writer.Writing?)
  }

  predicate Flight(r: Ring, h: Hist) {
    if !r.pending then h.inflight == []
    else
      && h.inflight != [] && AllFit(h.inflight)
      && Chain(r.buf, r.nb, h.inflight, EDCA_NEXT, EDCA)
      && (r.bulkSize == Total(h.inflight) + 4 || r.bulkSize == Total(h.inflight) + 8)
      && At(r.buf, r.nb + Total(h.inflight), Zeros(8))
      && r.nb + Total(h.inflight) + 8 <= MAX_TXBULK_LIMIT
      && (h.high != [] || r.cw >= r.nb ==> r.nb + Total(h.inflight) <= r.enb)
  }

  predicate WriterOk(r: Ring, h: Hist) {
    r.writer.Writing? ==>
      var f, k := r.writer.frame, r.writer.copied;
      && Fits(f) && k <= |Tail(f)|
      && r.cwr == r.cw + 4 + |f.header|
      && r.writer.last == (r.cw + WRAP_RESERVE + RecLen(f) > MAX_TXBULK_LIMIT)
      && (Behind(r, h) ==> r.cw + RecLen(f) + 8 <= r.nb)
      && At(Restored(r), r.cw, Head(f, HeadFlags(r.writer.last)))
      && At(r.buf, r.cw + 4 + |f.header|, Tail(f)[..k])
  }

  /** A transfer: the records of its frames followed by 4 or 8 zero bytes. */
  predicate IsTransfer(w: seq<Byte>, fs: seq<TxFrame>) {
    fs != [] && (w == Wire(fs) + Zeros(4) || w == Wire(fs) + Zeros(8))
  }

  predicate Log(r: Ring, h: Hist) {
    && r.accepted == Flatten(h.done) + h.inflight + h.high + h.low
    && |r.wire| == |h.done|
    && forall i :: 0 <= i < |h.done| ==> IsTransfer(r.wire[i], h.done[i])
  }

  predicate Good(r: Ring, h: Hist) {
    Cursors(r, h) && Queue(r, h) && Flight(r, h) && WriterOk(r, h) && Log(r, h)
  }

  /** Deadlock: nothing is being written or sent, the ring refuses every writer, and it looks empty to
      the bulk-out side. */
  predicate Stuck(r: Ring) {
    r.writer.Idle? && !r.pending && !CanDoWrite(r) && LooksEmpty(r)
  }

  // ------------------------------------------------------------- small facts

  lemma FitLen(f: TxFrame)
    requires Fits(f)
    ensures 20 <= 4 + |f.header| <= RecLen(f) <= 2032
    ensures 4 + |f.header| + |Tail(f)| == RecLen(f) + 8
  {
  }

  lemma {:induction false} TotalAtLeast(fs: seq<TxFrame>)
    requires AllFit(fs) && fs != []
    ensures Total(fs) >= 20
  {
    FitLen(fs[0]);
  }

  /** Emptiness as the bulk-out side tests it is emptiness of the queue. */
  lemma LooksEmptyIff(r: Ring, h: Hist)
    requires Cursors(r, h) && AllFit(h.high) && AllFit(h.low)
    ensures LooksEmpty(r) <==> h.high == [] && h.low == []
    ensures r.enb == r.cw <==> h.high == [] && h.low == []
  {
    if h.low != [] { TotalAtLeast(h.low); }
    hide Total, AllFit;
    assert h.low == [] ==> Total(h.low) == 0 by { EmptyTotal(); }
  }

  lemma EmptyTotal()
    ensures Total([]) == 0
  {
  }

  // ------------------------------------------------------------- writer steps

  /** A stretch the writer may store into. */
  predicate WriterArea(r: Ring, h: Hist, lo: nat, hi: nat) {
    && r.cw <= lo <= hi <= MAX_TXBULK_LIMIT
    && (Behind(r, h) ==> hi <= r.nb)
    && (r.pending && !Behind(r, h) ==> r.nb + Total(h.inflight) + 8 <= lo)
  }

  lemma StoreRestored(r: Ring, r': Ring, lo: nat, bytes: seq<Byte>)
    requires r'.buf == Put(r.buf, lo, bytes)
    requires r'.enb == r.enb && r'.copyPad == r.copyPad && r'.pad == r.pad
    ensures Same(r.buf, r'.buf, 0, lo) && Same(r.buf, r'.buf, lo + |bytes|, |r.buf|)
    ensures Same(Restored(r), Restored(r'), 0, lo) && Same(Restored(r), Restored(r'), lo + |bytes|, |r.buf|)
  {
  }

  lemma StoreQueue(r: Ring, h: Hist, r': Ring, lo: nat, hi: nat)
    requires Cursors(r, h) && Queue(r, h) && WriterArea(r, h, lo, hi)
    requires Same(Restored(r), Restored(r'), 0, lo) && Same(Restored(r), Restored(r'), hi, |r.buf|)
    requires r'.enb == r.enb && r'.copyPad == r.copyPad && (r.writer.Writing? ==> r'.writer.Writing?)
    ensures Queue(r', h)
  {
    hide Chain, AllFit, Restored, Total;
    EmptyTotal();
    ChainFrame(Restored(r), Restored(r'), r.enb, h.high, EDCA, EDCA_LAST);
    ChainFrame(Restored(r), Restored(r'), LowStart(r, h), h.low, EDCA, EDCA);
  }

  lemma StoreFlight(r: Ring, h: Hist, r': Ring, lo: nat, hi: nat)
    requires Cursors(r, h) && Flight(r, h) && WriterArea(r, h, lo, hi)
    requires Same(r.buf, r'.buf, 0, lo) && Same(r.buf, r'.buf, hi, |r.buf|)
    requires r'.cw == r.cw && r'.nb == r.nb && r'.enb == r.enb && r'.pending == r.pending && r'.bulkSize == r.bulkSize
    ensures Flight(r', h)
  {
    hide Chain, AllFit, Total;
    if r.pending {
      ChainFrame(r.buf, r'.buf, r.nb, h.inflight, EDCA_NEXT, EDCA);
    }
  }

  /** Storing inside the writer's area disturbs neither the queue nor the transfer in flight. */
  lemma StoreKeeps(r: Ring, h: Hist, r': Ring, lo: nat, bytes: seq<Byte>)
    requires Cursors(r, h) && Queue(r, h) && Flight(r, h)
    requires WriterArea(r, h, lo, lo + |bytes|)
    requires r'.buf == Put(r.buf, lo, bytes)
    requires r'.cw == r.cw && r'.nb == r.nb && r'.enb == r.enb && r'.copyPad == r.copyPad && r'.pad == r.pad
    requires r'.pending == r.pending && r'.bulkSize == r.bulkSize
    requires r.writer.Writing? ==> r'.writer.Writing?
    ensures Queue(r', h) && Flight(r', h)
    ensures Same(Restored(r), Restored(r'), 0, lo) && Same(r.buf, r'.buf, 0, lo)
  {
    hide Cursors, Queue, Flight, WriterArea, Restored, Same;
    StoreRestored(r, r', lo, bytes);
    StoreQueue(r, h, r', lo, lo + |bytes|);
    StoreFlight(r, h, r', lo, lo + |bytes|);
  }

  lemma ReserveCursors(r: Ring, h: Hist, f: TxFrame)
    requires Cursors(r, h) && CanDoWrite(r) && 20 <= RecLen(f) <= 2032
    requires r.enb == r.cw ==> h.high == [] && h.low == []
    requires r.enb != r.cw ==> h.high != [] || h.low != []
    ensures Cursors(Reserved(r, f), h)
    ensures Behind(Reserved(r, f), h) == Behind(r, h)
    ensures Behind(r, h) ==> Reserved(r, f).cw + RecLen(f) + 8 <= r.nb
  {
    hide RecLen, Total;
    EmptyTotal();
  }

  lemma ReserveQueue(r: Ring, h: Hist, f: TxFrame)
    requires Queue(r, h) && r.writer.Idle?
    requires r.enb == r.cw ==> h.high == [] && h.low == []
    ensures Queue(Reserved(r, f), h)
  {
    hide Chain, AllFit, RecLen, Restored;
    var q := Reserved(r, f);
    if r.enb == r.cw {
      ChainEmpty(Restored(q), q.enb);
    } else {
      RestoredSame(r, q);
    }
  }

  lemma ReserveFlight(r: Ring, h: Hist, f: TxFrame)
    requires Cursors(r, h) && Flight(r, h) && CanDoWrite(r) && AllFit(h.low)
    requires r.enb == r.cw ==> h.high == [] && h.low == []
    requires var q := Reserved(r, f);
      Cursors(q, h) && Behind(q, h) == Behind(r, h) && (Behind(r, h) ==> q.cw + RecLen(f) + 8 <= r.nb)
    requires 20 <= RecLen(f) <= 2032
    ensures var q := Reserved(r, f);
      Flight(q, h) && WriterArea(q, h, q.cw, q.cw + RecLen(f) + 8)
  {
    if h.low != [] { TotalAtLeast(h.low); }
    hide RecLen, Total, Chain, AllFit, At, Fits;
    EmptyTotal();
  }

  lemma ReserveGood(r: Ring, h: Hist, f: TxFrame)
    requires Good(r, h) && Fits(f) && CanDoWrite(r)
    ensures var q := Reserved(r, f);
      && Cursors(q, h) && Queue(q, h) && Flight(q, h)
      && WriterArea(q, h, q.cw, q.cw + RecLen(f) + 8)
  {
    assert AllFit(h.low) && AllFit(h.high);
    hide Cursors, Queue, Flight, WriterOk, Log, AllFit, RecLen, Fits, Reserved, WriterArea, Behind;
    FitLen(f);
    LooksEmptyIff(r, h);
    ReserveCursors(r, h, f);
    ReserveQueue(r, h, f);
    ReserveFlight(r, h, f);
  }

  lemma RestoredSame(r: Ring, q: Ring)
    requires r.copyPad == q.copyPad && r.buf == q.buf && r.enb == q.enb && r.pad == q.pad
    ensures Restored(r) == Restored(q)
  {
  }

  lemma ChainEmpty(buf: seq<Byte>, pos: nat)
    ensures forall mid: Byte, fin: Byte :: Chain(buf, pos, [], mid, fin)
  {
  }

  /** The saved bytes lie at the writer's record or clear of it. */
  lemma PadOutside(r: Ring, h: Hist, len: nat)
    requires Cursors(r, h) && AllFit(h.low)
    requires h.high != [] ==> r.cw + len <= r.nb
    ensures r.enb == r.cw || r.enb + 20 <= r.cw || r.cw + len <= r.enb
  {
    if h.low != [] { TotalAtLeast(h.low); }
    hide Total, AllFit;
    EmptyTotal();
  }

  lemma CursorsKeep(r: Ring, h: Hist, r': Ring)
    requires Cursors(r, h)
    requires |r'.buf| == |r.buf| && |r'.pad| == |r.pad| && r'.cw == r.cw && r'.nb == r.nb && r'.enb == r.enb
    requires r'.pending == r.pending && r'.copyPad == r.copyPad
    requires r.writer.Writing? && r'.writer.Writing?
    ensures Cursors(r', h)
  {
  }

  lemma StoredHead(r: Ring, r': Ring, head: seq<Byte>)
    requires r'.buf == Put(r.buf, r.cw, head) && r'.cw == r.cw
    requires r'.copyPad == r.copyPad && r'.enb == r.enb && r'.pad == r.pad
    requires r.cw + |head| <= |r.buf| && |r.pad| == 8
    requires r.copyPad ==> r.enb + 8 <= r.cw || r.cw + |head| <= r.enb
    ensures At(Restored(r'), r.cw, head)
  {
  }

  lemma NoPadAtReserve(r: Ring, h: Hist, f: TxFrame)
    requires Good(r, h) && CanDoWrite(r)
    ensures r.enb == r.cw ==> !Reserved(r, f).copyPad
    ensures r.enb != r.cw ==> Reserved(r, f).enb != Reserved(r, f).cw
  {
    LooksEmptyIff(r, h);
  }

  lemma BeginWriter(q: Ring, h: Hist, r': Ring, f: TxFrame)
    requires Cursors(q, h) && AllFit(h.low) && WriterArea(q, h, q.cw, q.cw + RecLen(f) + 8) && Fits(f)
    requires q.copyPad ==> q.enb != q.cw
    requires q.writer == Writing(f, q.cw + WRAP_RESERVE + RecLen(f) > MAX_TXBULK_LIMIT, 0)
    requires q.cwr == q.cw + 4 + |f.header|
    requires r' == q.(buf := Put(q.buf, q.cw, Head(f, HeadFlags(q.writer.last))))
    ensures WriterOk(r', h)
  {
    hide Cursors, AllFit, Fits, RecLen, Head, Tail, Restored, At, Put;
    FitLen(f);
    PadOutside(q, h, RecLen(f) + 8);
    BufSize(q, h);
    StoredHead(q, r', Head(f, HeadFlags(q.writer.last)));
    assert Tail(f)[..0] == [];
    AtNothing(r'.buf, q.cw + 4 + |f.header|);
  }

  lemma AtNothing(buf: seq<Byte>, pos: nat)
    ensures pos <= |buf| ==> At(buf, pos, [])
  {
  }

  lemma BeginGood(r: Ring, h: Hist, f: TxFrame)
    requires Good(r, h) && Fits(f)
    ensures Good(BeginStep(r, f), h)
  {
    assert AllFit(h.low);
    hide Cursors, Queue, Flight, WriterOk, Log, AllFit, Fits, RecLen, Head, Put, WriterArea;
    if CanDoWrite(r) {
      var q, r' := Reserved(r, f), BeginStep(r, f);
      ReserveGood(r, h, f);
      FitLen(f);
      NoPadAtReserve(r, h, f);
      AreaPrefix(q, h, q.cw, q.cw + RecLen(f) + 8, q.cw + 4 + |f.header|);
      StoreKeeps(q, h, r', q.cw, Head(f, HeadFlags(q.writer.last)));
      CursorsKeep(q, h, r');
      BeginWriter(q, h, r', f);
      LogKeep(r, h, r');
    }
  }

  lemma AreaPrefix(r: Ring, h: Hist, lo: nat, hi: nat, hi': nat)
    requires WriterArea(r, h, lo, hi) && lo <= hi' <= hi
    ensures WriterArea(r, h, lo, hi')
  {
  }

  // ------------------------------------------------------------- copying

  lemma CopyArea(r: Ring, h: Hist)
    requires Good(r, h) && r.writer.Writing? && r.writer.copied < |Tail(r.writer.frame)|
    ensures var lo := r.cw + 4 + |r.writer.frame.header| + r.writer.copied;
      WriterArea(r, h, lo, lo + 1)
  {
    FitLen(r.writer.frame);
    hide Chain, Total, AllFit, RecLen, Fits, Log, Restored, Queue;
  }

  /** One more byte of the tail stands in the buffer. */
  lemma AtExtend(buf: seq<Byte>, buf': seq<Byte>, pos: nat, t: seq<Byte>, k: nat)
    requires k < |t| && At(buf, pos, t[..k]) && pos + k < |buf|
    requires buf' == Put(buf, pos + k, [t[k]])
    ensures At(buf', pos, t[..k + 1])
  {
  }

  lemma AtSame(buf: seq<Byte>, buf': seq<Byte>, pos: nat, bytes: seq<Byte>, hi: int)
    requires At(buf, pos, bytes) && Same(buf, buf', 0, hi) && pos + |bytes| <= hi
    ensures At(buf', pos, bytes)
  {
  }

  lemma CopyWriter(r: Ring, h: Hist)
    requires WriterOk(r, h) && r.writer.Writing? && r.writer.copied < |Tail(r.writer.frame)|
    requires var r' := CopyStep(r);
      var lo := r.cw + 4 + |r.writer.frame.header| + r.writer.copied;
      lo < |r.buf| && Same(Restored(r), Restored(r'), 0, lo)
    ensures WriterOk(CopyStep(r), h)
  {
    var f, k, r' := r.writer.frame, r.writer.copied, CopyStep(r);
    hide RecLen, Fits, Restored, At, Tail, Head;
    AtSame(Restored(r), Restored(r'), r.cw, Head(f, HeadFlags(r.writer.last)), r.cw + 4 + |f.header| + k);
    AtExtend(r.buf, r'.buf, r.cw + 4 + |f.header|, Tail(f), k);
  }

  lemma CopyGood(r: Ring, h: Hist)
    requires Good(r, h)
    ensures Good(CopyStep(r), h)
  {
    hide Cursors, Queue, Flight, WriterOk, Log, Restored, Tail;
    if r.writer.Writing? && r.writer.copied < |Tail(r.writer.frame)| {
      var f, k, r' := r.writer.frame, r.writer.copied, CopyStep(r);
      var lo := r.cw + 4 + |f.header| + k;
      CopyArea(r, h);
      StoreKeeps(r, h, r', lo, [Tail(f)[k]]);
      assert |r'.buf| == |r.buf|;
      CursorsKeep(r, h, r');
      BufSize(r, h);
      CopyWriter(r, h);
      LogKeep(r, h, r');
    }
  }

  lemma BufSize(r: Ring, h: Hist)
    requires Cursors(r, h)
    ensures |r.buf| == MAX_TXBULK_SIZE && |r.pad| == 8
  {
  }

  lemma LogKeep(r: Ring, h: Hist, r': Ring)
    requires Log(r, h) && r'.accepted == r.accepted && r'.wire == r.wire
    ensures Log(r', h)
  {
  }

  // ------------------------------------------------------------- end of a frame

  /** Head and tail together are the record. */
  lemma JoinRecord(b: seq<Byte>, buf: seq<Byte>, pos: nat, f: TxFrame, flags: Byte)
    requires At(b, pos, Head(f, flags)) && At(buf, pos + 4 + |f.header|, Tail(f))
    requires |b| == |buf| && Same(buf, b, pos + 4 + |f.header|, pos + RecLen(f))
    ensures At(b, pos, Record(f, flags))
  {
    var mid := pos + 4 + |f.header|;
    forall i | pos <= i < pos + RecLen(f)
      ensures b[i] == Record(f, flags)[i - pos]
    {
      if i >= mid {
        assert b[i] == buf[i] == Tail(f)[i - mid];
      }
    }
  }

  /** Restoring the saved bytes touches a stretch of 8. */
  lemma RestoredOutside(r: Ring, lo: int, hi: int)
    requires |r.pad| == 8 && (r.enb + 8 <= lo || hi <= r.enb)
    ensures Same(r.buf, Restored(r), lo, hi)
  {
  }

  lemma RecordComplete(r: Ring, h: Hist)
    requires Cursors(r, h) && AllFit(h.low) && WriterOk(r, h)
    requires r.writer.Writing? && r.writer.copied == |Tail(r.writer.frame)|
    ensures At(Restored(r), r.cw, Record(r.writer.frame, HeadFlags(r.writer.last)))
  {
    hide Cursors, AllFit, Fits, Restored, RecLen, Tail, Head, Record, At;
    var f := r.writer.frame;
    FitLen(f);
    PadOutside(r, h, RecLen(f) + 8);
    BufSize(r, h);
    RestoredOutside(r, r.cw + 4 + |f.header|, r.cw + RecLen(f));
    assert Tail(f)[..r.writer.copied] == Tail(f);
    JoinRecord(Restored(r), r.buf, r.cw, f, HeadFlags(r.writer.last));
  }

  lemma EndArea(r: Ring, h: Hist)
    requires Good(r, h) && r.writer.Writing?
    ensures r.writer.last ==> !Behind(r, h)
  {
    FitLen(r.writer.frame);
    hide Chain, Total, AllFit, RecLen, Fits, Restored, Queue, Flight;
  }

  /** The finished frame joins the queue: behind the others, or as the last one before the wrap. */
  function EndHist(r: Ring, h: Hist): Hist
    requires r.writer.Writing?
  {
    if r.writer.last then h.(high := h.low + [r.writer.frame], low := [])
    else h.(low := h.low + [r.writer.frame])
  }

  lemma EndCursors(r: Ring, h: Hist)
    requires Cursors(r, h) && WriterOk(r, h) && r.writer.Writing? && r.writer.copied == |Tail(r.writer.frame)|
    requires r.writer.last ==> !Behind(r, h) && r.nb != 0
    ensures Cursors(EndStep(r), EndHist(r, h))
  {
    FitLen(r.writer.frame);
    TotalSnoc(h.low, r.writer.frame);
    EmptyTotal();
    assert (h.low + [r.writer.frame])[..|h.low|] == h.low;
    hide Total, RecLen, Fits, Restored, At, Tail, Head;
  }

  lemma EndQueue(r: Ring, h: Hist)
    requires Queue(r, h) && r.writer.Writing? && r.writer.copied == |Tail(r.writer.frame)| && Fits(r.writer.frame)
    requires LowStart(r, h) + Total(h.low) == r.cw && (r.writer.last ==> h.high == [])
    requires At(Restored(r), r.cw, Record(r.writer.frame, HeadFlags(r.writer.last)))
    ensures Queue(EndStep(r), EndHist(r, h))
  {
    hide Total, RecLen, Fits, Restored, At, Tail, Head, Record, Chain, AllFit;
    var f := r.writer.frame;
    RestoredSame(r, EndStep(r));
    FitSnoc(h.low, f);
    ChainSnoc(Restored(r), LowStart(r, h), h.low, f, EDCA, HeadFlags(r.writer.last));
    ChainEmpty(Restored(r), 8);
  }

  lemma FitSnoc(fs: seq<TxFrame>, f: TxFrame)
    requires AllFit(fs) && Fits(f)
    ensures AllFit(fs + [f])
    ensures AllFit([])
  {
  }

  lemma EndRest(r: Ring, h: Hist)
    requires Flight(r, h) && Log(r, h) && r.writer.Writing? && r.writer.copied == |Tail(r.writer.frame)|
    requires r.writer.last ==> !Behind(r, h)
    requires Behind(r, h) ==> r.cw + RecLen(r.writer.frame) + 8 <= r.nb
    ensures Flight(EndStep(r), EndHist(r, h)) && WriterOk(EndStep(r), EndHist(r, h)) && Log(EndStep(r), EndHist(r, h))
  {
    hide Total, Chain, At, Tail, AllFit;
    assert r.writer.last ==> h.high == [];
  }

  /** Finishing a frame deadlocks the ring if and only if it is the last before the wrap and no
      transfer has ever been started; otherwise the layout is kept. */
  lemma EndGood(r: Ring, h: Hist)
    requires Good(r, h) && r.writer.Writing? && r.writer.copied == |Tail(r.writer.frame)|
    ensures r.writer.last && r.nb == 0 ==> Stuck(EndStep(r)) && EndStep(r).nb == 0
    ensures !(r.writer.last && r.nb == 0) ==> Good(EndStep(r), EndHist(r, h)) && !Stuck(EndStep(r))
  {
    EndArea(r, h);
    assert Fits(r.writer.frame) && AllFit(h.low) && (Behind(r, h) ==> r.cw + RecLen(r.writer.frame) + 8 <= r.nb);
    assert LowStart(r, h) + Total(h.low) == r.cw && (r.nb == 0 ==> !r.pending && (Behind(r, h) || r.enb == 8));
    hide Cursors, Queue, Flight, WriterOk, Log, Restored, Tail, Fits, RecLen, Total, At, Record, EndHist;
    RecordComplete(r, h);
    if !(r.writer.last && r.nb == 0) {
      EndCursors(r, h);
      EndQueue(r, h);
      EndRest(r, h);
      NotStuck(EndStep(r), EndHist(r, h));
    }
  }

  /** A laid-out ring is never deadlocked: an empty one has room, also behind a wrapped transfer. */
  lemma NotStuck(r: Ring, h: Hist)
    requires Good(r, h)
    ensures !Stuck(r)
  {
    LooksEmptyIff(r, h);
    hide Chain, Total, AllFit, Restored, At;
  }
}
