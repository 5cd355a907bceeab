/** Bulk-out steps keep the layout invariant of the transmit ring. */
module TxRingBulk {
  import opened Modular
  import opened TxChain
  import opened TxRing
  import opened TxRingInv

  lemma ClearNextOf()
    ensures ClearNext(EDCA) == EDCA && ClearNext(EDCA_NEXT) == EDCA
  {
    assert ClearNext(4) == 4 && ClearNext(68) == 4;
  }

  /** Clearing USBDMANextVLD on the last record taken closes the chain of the transfer. */
  lemma {:induction false} CloseChain(buf: seq<Byte>, pos: nat, gs: seq<TxFrame>, x: Byte)
    requires gs != [] && Chain(buf, pos, gs, EDCA_NEXT, x) && (x == EDCA || x == EDCA_NEXT)
    ensures var p := pos + Total(gs[..|gs| - 1]);
      && p + 3 < |buf| && p + 4 <= pos + Total(gs) && ClearNext(buf[p + 3]) == EDCA
      && Chain(buf[p + 3 := EDCA], pos, gs, EDCA_NEXT, EDCA)
    decreases |gs|
  {
    hide ClearNext, RecLen, Record;
    ClearNextOf();
    if |gs| == 1 {
      assert gs[..0] == [] && gs == [gs[0]] && gs[1..] == [];
      EmptyTotal();
      RecordStands(buf, pos, gs[0], x);
      AtSetFlags(buf, pos, gs[0], x, EDCA);
    } else {
      var next, p := pos + RecLen(gs[0]), pos + Total(gs[..|gs| - 1]);
      assert gs[..|gs| - 1][1..] == gs[1..][..|gs| - 2];
      RecordStands(buf, pos, gs[0], EDCA_NEXT);
      CloseChain(buf, next, gs[1..], x);
      assert At(buf[p + 3 := EDCA], pos, Record(gs[0], EDCA_NEXT));
    }
  }

  lemma RecordStands(buf: seq<Byte>, pos: nat, f: TxFrame, flags: Byte)
    requires At(buf, pos, Record(f, flags))
    ensures RecLen(f) >= 4 && pos + RecLen(f) <= |buf|
  {
  }

  /** The records the next transfer draws from. */
  function Front(h: Hist): seq<TxFrame> {
    if h.high != [] then h.high else h.low
  }

  function StartHist(h: Hist, n: nat): Hist
    requires n <= |Front(h)|
  {
    if h.high != [] then h.(inflight := h.high[..n], high := h.high[n..])
    else h.(inflight := h.low[..n], low := h.low[n..])
  }

  /** What the batch of a ready ring looks like, with the last record's flags fixed up. */
  predicate Taken(r: Ring, h: Hist, b: Batch, n: nat) {
    && 0 < n <= |Front(h)| && !b.bad && b.size == Total(Front(h)[..n])
    && b.end == r.enb + Total(Front(h)[..n])
    && b.wrapped == (h.high != [] && n == |h.high|)
    && |Closed(b)| == |r.buf|
    && Same(Restored(r), Closed(b), 0, r.enb) && Same(Restored(r), Closed(b), b.end, |r.buf|)
    && Chain(Closed(b), r.enb, Front(h)[..n], EDCA_NEXT, EDCA)
    && b.end + Total(Front(h)[n..]) == r.enb + Total(Front(h))
    && Total(Front(h)[..n - 1]) < 0x8000
  }

  lemma FrontReady(r: Ring, h: Hist)
    requires Cursors(r, h) && Queue(r, h) && !LooksEmpty(r)
    ensures Front(h) != [] && AllFit(Front(h))
    ensures var fin := if h.high != [] then EDCA_LAST else EDCA;
      && Chain(Restored(r), r.enb, Front(h), EDCA, fin)
      && r.enb + Total(Front(h)) + 8 <= MAX_TXBULK_LIMIT
      && ((fin == EDCA && r.cw == r.enb + Total(Front(h))) || (fin == EDCA_LAST && r.cw < r.enb))
  {
    LooksEmptyIff(r, h);
    hide Chain, Total, Restored, AllFit;
  }

  lemma ClosedOf(b: Batch, buf: seq<Byte>, pos: nat, cw: nat, fs: seq<TxFrame>, n: nat, fin: Byte)
    requires Took(buf, pos, 0, -1, cw, b, fs, n, fin) && 0 < n && AllFit(fs)
    ensures Same(buf, Closed(b), 0, pos) && Same(buf, Closed(b), b.end, |buf|)
    ensures Chain(Closed(b), pos, fs[..n], EDCA_NEXT, EDCA)
  {
    var gs := fs[..n];
    assert gs[..|gs| - 1] == fs[..n - 1];
    hide ClearNext, Chain, Total, Fits;
    CloseChain(b.buf, pos, gs, OpenFlags(b.end, b.wrapped, cw));
  }

  /** Every record is taken with less than 0x8000 bytes before it. */
  lemma {:induction false} BatchBound(buf: seq<Byte>, pos: nat, size: nat, lastInfo: int, cw: nat, mps: nat)
    ensures var b := TakeBatch(buf, pos, size, lastInfo, cw, mps);
      b.lastInfo == lastInfo || b.lastInfo - pos + size < 0x8000
    decreases |buf| - pos
  {
    hide TakenFlags, IsLastRound;
    if pos + 8 <= |buf| && !LimitReached(size, CckAt(buf, pos), mps) && pos != cw && LenAt(buf, pos) > 8 &&
      !IsLastRound(buf[pos + 3]) {
      hide CckAt;
      var next := pos + LenAt(buf, pos) + 4;
      BatchBound(buf[pos + 3 := TakenFlags(buf[pos + 3], next != cw, cw == 8)], next, size + LenAt(buf, pos) + 4, pos,
        cw, mps);
    }
  }

  lemma BatchTaken(r: Ring, h: Hist, mps: nat) returns (n: nat)
    requires Cursors(r, h) && Queue(r, h) && !LooksEmpty(r)
    ensures Taken(r, h, TakeBatch(Restored(r), r.enb, 0, -1, r.cw, mps), n)
    ensures AllFit(Front(h)) && Stops(Front(h), n, 0, mps)
  {
    FrontReady(r, h);
    BufSize(r, h);
    hide Cursors, Queue, Chain, Total, Restored, TakeBatch, LooksEmpty, AllFit, Front;
    var fs, fin := Front(h), if h.high != [] then EDCA_LAST else EDCA;
    var b := TakeBatch(Restored(r), r.enb, 0, -1, r.cw, mps);
    n := TakeBatchTakes(Restored(r), r.enb, 0, -1, r.cw, mps, fs, fin);
    ClosedOf(b, Restored(r), r.enb, r.cw, fs, n, fin);
    BatchBound(Restored(r), r.enb, 0, -1, r.cw, mps);
    TotalSplit(fs, n);
    HighFront(h);
  }

  lemma HighFront(h: Hist)
    ensures h.high != [] ==> Front(h) == h.high
  {
  }

  // ------------------------------------------------------------- submitting the transfer

  predicate Saves(r: Ring, b: Batch) {
    !b.wrapped && (b.end != r.cw || r.cwr > r.cw)
  }

  /** The buffer after the 8 bytes were zeroed, and with the saved bytes put back. */
  lemma LaunchBuf(r: Ring, b: Batch, mps: nat)
    requires mps > 0 && b.end + 8 <= |Closed(b)|
    ensures var r' := Launch(r, b, mps);
      && Same(Closed(b), r'.buf, 0, b.end) && Same(Closed(b), r'.buf, b.end + 8, |Closed(b)|)
      && At(r'.buf, b.end, Zeros(8))
      && Same(Closed(b), Restored(r'), 0, b.end)
      && (Saves(r, b) ==> Restored(r') == Closed(b))
      && (!Saves(r, b) ==> Restored(r') == r'.buf)
  {
    hide Closed, Put, Slice8, Same, At, TransferSize;
    var c := Closed(b);
    ZerosPut(c, b.end);
    PutBack(c, b.end);
  }

  lemma ZerosPut(c: seq<Byte>, e: nat)
    requires e + 8 <= |c|
    ensures var d := Put(c, e, Zeros(8)); |d| == |c| && Same(c, d, 0, e) && Same(c, d, e + 8, |c|) && At(d, e, Zeros(8))
  {
  }

  lemma PutBack(c: seq<Byte>, e: nat)
    requires e + 8 <= |c|
    ensures Put(Put(c, e, Zeros(8)), e, Slice8(c, e)) == c && Same(c, c, 0, e)
  {
    var d := Put(Put(c, e, Zeros(8)), e, Slice8(c, e));
    forall i | 0 <= i < |c|
      ensures d[i] == c[i]
    {
      assert e <= i < e + 8 ==> Slice8(c, e)[i - e] == c[i];
    }
  }

  lemma TransferSizeOf(size: nat, mps: nat)
    requires mps > 0
    ensures TransferSize(size, mps) == size + 4 || TransferSize(size, mps) == size + 8
  {
  }

  lemma StartCursorsHigh(r: Ring, h: Hist, b: Batch, n: nat, mps: nat)
    requires Cursors(r, h) && Taken(r, h, b, n) && mps > 0 && h.high != [] && Total(h.high[..n]) >= 20
    ensures Cursors(Launch(r, b, mps), StartHist(h, n))
  {
    hide Total, Chain, Restored, Closed, At, Same, TransferSize, Put, Slice8;
    EmptyTotal();
    if n == |h.high| {
      assert h.high[..n] == h.high && h.high[n..] == [];
    } else {
      var front := h.high[..|h.high| - 1];
      TotalSplit(front, n);
      assert front[..n] == h.high[..n] && front[n..] == h.high[n..][..|h.high| - n - 1];
    }
  }

  lemma StartCursorsLow(r: Ring, h: Hist, b: Batch, n: nat, mps: nat)
    requires Cursors(r, h) && Taken(r, h, b, n) && mps > 0 && h.high == [] && Total(h.low[..n]) >= 20
    ensures Cursors(Launch(r, b, mps), StartHist(h, n))
  {
    hide Total, Chain, Restored, Closed, At, Same, TransferSize, Put, Slice8;
  }

  lemma StartCursors(r: Ring, h: Hist, b: Batch, n: nat, mps: nat)
    requires Cursors(r, h) && AllFit(Front(h)) && Taken(r, h, b, n) && mps > 0
    ensures Cursors(Launch(r, b, mps), StartHist(h, n))
  {
    FitPrefix(Front(h), n);
    hide AllFit, Cursors, Total, Chain, Restored, Closed, Same, Launch, StartHist;
    TotalAtLeast(Front(h)[..n]);
    if h.high != [] {
      StartCursorsHigh(r, h, b, n, mps);
    } else {
      StartCursorsLow(r, h, b, n, mps);
    }
  }

  lemma StartFlight(r: Ring, h: Hist, b: Batch, n: nat, mps: nat)
    requires Cursors(r, h) && AllFit(Front(h)) && Taken(r, h, b, n) && mps > 0
    ensures Flight(Launch(r, b, mps), StartHist(h, n))
    ensures b.end + 8 <= |Closed(b)|
  {
    hide Chain, Total, AllFit, Fits, Restored, Closed, TransferSize;
    var r', h' := Launch(r, b, mps), StartHist(h, n);
    TransferSizeOf(b.size, mps);
    LaunchBuf(r, b, mps);
    assert h'.inflight == Front(h)[..n];
    ChainFrame(Closed(b), r'.buf, r.enb, h'.inflight, EDCA_NEXT, EDCA);
    FitPrefix(Front(h), n);
    assert h.high != [] && n == |h.high| ==> h'.high == [];
  }

  lemma FitPrefix(fs: seq<TxFrame>, n: nat)
    requires AllFit(fs) && n <= |fs|
    ensures AllFit(fs[..n]) && AllFit(fs[n..])
  {
  }

  /** Far case: the writer's side below the transfer is not touched. */
  lemma StartBelow(r: Ring, b: Batch, mps: nat)
    requires mps > 0 && b.end + 8 <= |Closed(b)| && r.enb <= b.end && |r.pad| == 8
    requires Same(Restored(r), Closed(b), 0, r.enb)
    ensures var r' := Launch(r, b, mps);
      Same(Restored(r), Restored(r'), 0, r.enb) && Same(r.buf, r'.buf, 0, r.enb)
  {
    hide Closed;
    LaunchBuf(r, b, mps);
    RestoredOutside(r, 0, r.enb);
    hide Restored;
  }

  lemma StartQueueHigh(r: Ring, h: Hist, b: Batch, n: nat, mps: nat)
    requires Cursors(r, h) && Queue(r, h) && Taken(r, h, b, n) && mps > 0 && h.high != []
    ensures Queue(Launch(r, b, mps), StartHist(h, n))
  {
    hide Total, AllFit, Fits, Restored, Closed, TransferSize, Chain;
    var r', h' := Launch(r, b, mps), StartHist(h, n);
    LaunchBuf(r, b, mps);
    FitPrefix(h.high, n);
    StartBelow(r, b, mps);
    ChainFrame(Restored(r), Restored(r'), 8, h.low, EDCA, EDCA);
    if n == |h.high| {
      assert h'.high == [];
      ChainEmpty(Restored(r'), r'.enb);
    } else {
      ChainDrop(Restored(r), r.enb, h.high, n, EDCA, EDCA_LAST);
      assert Same(Restored(r), Restored(r'), b.end, |r.buf|);
      ChainFrame(Restored(r), Restored(r'), b.end, h.high[n..], EDCA, EDCA_LAST);
    }
  }

  lemma StartQueueLow(r: Ring, h: Hist, b: Batch, n: nat, mps: nat)
    requires Cursors(r, h) && Queue(r, h) && Taken(r, h, b, n) && mps > 0 && h.high == []
    ensures Queue(Launch(r, b, mps), StartHist(h, n))
  {
    hide Total, AllFit, Fits, Restored, Closed, TransferSize, Chain;
    var r', h' := Launch(r, b, mps), StartHist(h, n);
    LaunchBuf(r, b, mps);
    FitPrefix(h.low, n);
    ChainEmpty(Restored(r'), r'.enb);
    EmptyTotal();
    if n < |h.low| {
      ChainDrop(Restored(r), r.enb, h.low, n, EDCA, EDCA);
      FitPrefix(h.low, n);
      TotalAtLeast(h.low[n..]);
      assert Saves(r, b);
      ChainFrame(Restored(r), Restored(r'), b.end, h.low[n..], EDCA, EDCA);
    } else {
      assert h.low[n..] == [];
    }
  }

  /** The writer's head and copied tail survive the start of a transfer. */
  lemma StartWriterHigh(r: Ring, h: Hist, b: Batch, n: nat, mps: nat)
    requires Cursors(r, h) && WriterOk(r, h) && Taken(r, h, b, n) && mps > 0 && h.high != [] && r.writer.Writing?
    ensures WriterOk(Launch(r, b, mps), StartHist(h, n))
  {
    var f, r' := r.writer.frame, Launch(r, b, mps);
    FitLen(f);
    hide Total, AllFit, Fits, Restored, Closed, TransferSize, Chain, At, RecLen, Tail, Head;
    StartBelow(r, b, mps);
    AtSame(Restored(r), Restored(r'), r.cw, Head(f, HeadFlags(r.writer.last)), r.enb);
    AtSame(r.buf, r'.buf, r.cw + 4 + |f.header|, Tail(f)[..r.writer.copied], r.enb);
  }

  lemma AtMoved(buf: seq<Byte>, buf': seq<Byte>, pos: nat, bytes: seq<Byte>, lo: int)
    requires At(buf, pos, bytes) && Same(buf, buf', lo, |buf|) && lo <= pos
    ensures At(buf', pos, bytes)
  {
  }

  lemma StartWriterLow(r: Ring, h: Hist, b: Batch, n: nat, mps: nat)
    requires Cursors(r, h) && WriterOk(r, h) && Taken(r, h, b, n) && mps > 0 && h.high == [] && r.writer.Writing?
    requires Total(h.low[..n]) >= 20
    ensures WriterOk(Launch(r, b, mps), StartHist(h, n))
  {
    hide Total, AllFit, Fits, Restored, Closed, TransferSize, Chain, At, RecLen, Tail, Head, Put, Slice8;
    var f, r' := r.writer.frame, Launch(r, b, mps);
    FitLen(f);
    var pos := r.cw + 4 + |f.header|;
    LaunchBuf(r, b, mps);
    AtMoved(Restored(r), Restored(r'), r.cw, Head(f, HeadFlags(r.writer.last)), b.end);
    RestoredOutside(r, pos, |r.buf|);
    assert Same(r.buf, r'.buf, pos, |r.buf|);
    AtMoved(r.buf, r'.buf, pos, Tail(f)[..r.writer.copied], pos);
  }

  lemma StartAccepted(h: Hist, n: nat)
    requires n <= |Front(h)| && h.inflight == []
    ensures var h' := StartHist(h, n);
      h'.done == h.done && h.inflight + h.high + h.low == h'.inflight + h'.high + h'.low
  {
    assert Front(h) == Front(h)[..n] + Front(h)[n..];
  }

  lemma StartLog(r: Ring, h: Hist, b: Batch, n: nat, mps: nat)
    requires Log(r, h) && h.inflight == [] && mps > 0 && n <= |Front(h)|
    ensures Log(Launch(r, b, mps), StartHist(h, n))
  {
    hide Closed, TransferSize, Put, Slice8, IsTransfer, Flatten, StartHist;
    var h' := StartHist(h, n);
    StartAccepted(h, n);
    assert Flatten(h.done) + (h.inflight + h.high + h.low) == Flatten(h.done) + h.inflight + h.high + h.low;
    assert Flatten(h.done) + (h'.inflight + h'.high + h'.low) == Flatten(h.done) + h'.inflight + h'.high + h'.low;
  }

  lemma LaunchGood(r: Ring, h: Hist, b: Batch, n: nat, mps: nat)
    requires Good(r, h) && Taken(r, h, b, n) && mps > 0 && !r.pending
    ensures Good(Launch(r, b, mps), StartHist(h, n))
  {
    assert AllFit(Front(h)) && h.inflight == [];
    FitPrefix(Front(h), n);
    hide Cursors, Queue, Flight, WriterOk, Log, Taken, Launch, StartHist, AllFit, Total;
    TotalAtLeast(Front(h)[..n]);
    StartCursors(r, h, b, n, mps);
    StartFlight(r, h, b, n, mps);
    StartLog(r, h, b, n, mps);
    LaunchWriter(r, b, mps);
    if h.high != [] {
      StartQueueHigh(r, h, b, n, mps);
      if r.writer.Writing? { StartWriterHigh(r, h, b, n, mps); }
    } else {
      StartQueueLow(r, h, b, n, mps);
      if r.writer.Writing? { StartWriterLow(r, h, b, n, mps); }
    }
    IdleOk(Launch(r, b, mps), StartHist(h, n));
  }

  lemma LaunchWriter(r: Ring, b: Batch, mps: nat)
    requires mps > 0
    ensures Launch(r, b, mps).writer == r.writer
  {
  }

  lemma IdleOk(r: Ring, h: Hist)
    ensures r.writer.Idle? ==> WriterOk(r, h)
  {
  }

  /** Starting a transfer keeps the layout: the frames taken move from the queue to the flight. */
  lemma StartGood(r: Ring, h: Hist, mps: nat) returns (h': Hist)
    requires Good(r, h) && mps > 0
    ensures Good(StartStep(r, mps), h')
  {
    h' := h;
    if !r.pending && !LooksEmpty(r) {
      hide Cursors, Queue, Flight, WriterOk, Log, Launch, TakeBatch, LooksEmpty;
      var n := BatchTaken(r, h, mps);
      LaunchGood(r, h, TakeBatch(Restored(r), r.enb, 0, -1, r.cw, mps), n, mps);
      h' := StartHist(h, n);
    }
  }

  // ------------------------------------------------------------- completion

  lemma RegionIsTransfer(r: Ring, h: Hist)
    requires |r.buf| == MAX_TXBULK_SIZE && Flight(r, h) && r.pending
    ensures IsTransfer(Region(r.buf, r.nb, r.bulkSize), h.inflight)
  {
    var w, e := Wire(h.inflight), r.nb + Total(h.inflight);
    ChainIsWire(r.buf, r.nb, h.inflight);
    hide Chain, AllFit, Wire, Total;
    var k := r.bulkSize - Total(h.inflight);
    var t := Region(r.buf, r.nb, r.bulkSize);
    forall i | 0 <= i < |t|
      ensures t[i] == (w + Zeros(k))[i]
    {
      assert t[i] == r.buf[r.nb + i];
      if i >= |w| {
        assert r.buf[e + (i - |w|)] == Zeros(8)[i - |w|];
      }
    }
    assert t == w + Zeros(k);
  }

  /** Completion puts exactly the frames in flight on the wire. */
  lemma CompleteGood(r: Ring, h: Hist)
    requires Good(r, h) && r.pending
    ensures Good(CompleteStep(r), h.(done := h.done + [h.inflight], inflight := []))
  {
    var r', h' := CompleteStep(r), h.(done := h.done + [h.inflight], inflight := []);
    hide Cursors, Queue, WriterOk, Log;
    CompleteLog(r, h);
    CompleteLayout(r, h);
  }

  lemma CompleteLog(r: Ring, h: Hist)
    requires Good(r, h) && r.pending
    ensures Log(CompleteStep(r), h.(done := h.done + [h.inflight], inflight := []))
  {
    hide Cursors, Queue, Flight, WriterOk, IsTransfer, Region, Flatten;
    BufSize(r, h);
    RegionIsTransfer(r, h);
    FlattenSnoc(h.done, h.inflight);
  }

  lemma FlattenSnoc(done: seq<seq<TxFrame>>, fs: seq<TxFrame>)
    ensures Flatten(done + [fs]) == Flatten(done) + fs
  {
    assert (done + [fs])[..|done|] == done;
  }

  lemma CompleteLayout(r: Ring, h: Hist)
    requires Cursors(r, h) && Queue(r, h) && WriterOk(r, h) && r.pending
    ensures var r', h' := CompleteStep(r), h.(done := h.done + [h.inflight], inflight := []);
      Cursors(r', h') && Queue(r', h') && WriterOk(r', h') && Flight(r', h')
  {
    hide Chain, Total, AllFit, Region, Restored, At, Fits, RecLen, Head, Tail;
    RestoredSame(r, CompleteStep(r));
  }
}
