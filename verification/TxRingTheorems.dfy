/** What the transmit ring guarantees over every interleaving of writers and transfers. */
module TxRingTheorems {
  import opened Modular
  import opened TxChain
  import opened TxRing
  import opened TxRingBulk
  import opened TxRingInv

  /** Every frame handed to the writer fits a slot with its pads. */
  predicate FramesFit(ss: seq<Step>) {
    forall i :: 0 <= i < |ss| && ss[i].Begin? ==> Fits(ss[i].frame)
  }

  lemma InitialGood(r: Ring)
    requires Initial(r)
    ensures Good(r, Hist([], [], [], []))
  {
    EmptyTotal();
    ChainEmpty(Restored(r), 0);
    hide Chain, Total, Restored;
  }

  /** A stuck ring refuses every writer and starts no transfer: no step changes it again. */
  lemma StuckStays(r: Ring, s: Step, mps: nat)
    requires Stuck(r) && mps > 0
    ensures Next(r, s, mps) == r
  {
    hide TakeBatch, Launch, Reserved;
  }

  /** One step keeps the layout, or finishes the frame that wraps before any transfer was started. */
  lemma NextGood(r: Ring, h: Hist, s: Step, mps: nat) returns (h': Hist)
    requires Good(r, h) && mps > 0 && (s.Begin? ==> Fits(s.frame))
    ensures Good(Next(r, s, mps), h') || (Stuck(Next(r, s, mps)) && r.nb == Next(r, s, mps).nb == 0 && s == End)
  {
    hide Good, Stuck, BeginStep, CopyStep, StartStep, Tail;
    h' := h;
    match s
    case Begin(f) => BeginGood(r, h, f);
    case Copy => CopyGood(r, h);
    case End =>
      if r.writer.Writing? && r.writer.copied == |Tail(r.writer.frame)| {
        EndGood(r, h);
        h' := EndHist(r, h);
      } else {
        EndIdle(r, h);
      }
    case Start => h' := StartGood(r, h, mps);
    case Complete =>
      if r.pending {
        CompleteGood(r, h);
        h' := h.(done := h.done + [h.inflight], inflight := []);
      } else {
        CompleteIdle(r);
      }
  }

  lemma EndIdle(r: Ring, h: Hist)
    requires Good(r, h) && !(r.writer.Writing? && r.writer.copied == |Tail(r.writer.frame)|)
    ensures EndStep(r) == r
  {
    hide Cursors, Queue, Flight, Log;
  }

  lemma CompleteIdle(r: Ring)
    requires !r.pending
    ensures CompleteStep(r) == r
  {
  }

  ghost predicate Sound(r: Ring) {
    exists h :: Good(r, h)
  }

  lemma {:induction false} RunStuck(r: Ring, ss: seq<Step>, mps: nat)
    requires Stuck(r) && mps > 0
    ensures Run(r, ss, mps) == r
    decreases |ss|
  {
    if ss != [] {
      StuckStays(r, ss[0], mps);
      RunStuck(r, ss[1..], mps);
    }
  }

  /** When a step deadlocks a laid-out ring: exactly at the end of the frame that wraps, before any
      transfer was started. */
  predicate WrapsTooSoon(r: Ring, s: Step) {
    s == End && r.writer.Writing? && r.writer.copied == |Tail(r.writer.frame)| && r.writer.last && r.nb == 0
  }

  lemma StuckExactly(r: Ring, h: Hist, s: Step, mps: nat)
    requires Good(r, h) && mps > 0 && (s.Begin? ==> Fits(s.frame))
    ensures Stuck(Next(r, s, mps)) <==> WrapsTooSoon(r, s)
    ensures WrapsTooSoon(r, s) ==> Next(r, s, mps).nb == 0
  {
    hide Good, Stuck, BeginStep, CopyStep, StartStep, CompleteStep, Tail;
    if s == End && r.writer.Writing? && r.writer.copied == |Tail(r.writer.frame)| {
      EndGood(r, h);
    } else {
      var h' := NextGood(r, h, s, mps);
      if s == End {
        EndIdle(r, h);
        NotStuck(r, h);
      } else {
        NotStuck(Next(r, s, mps), h');
      }
    }
  }

  /** Every run from a laid-out ring stays laid out, unless it deadlocked before the first transfer. */
  lemma {:induction false} RunSound(r: Ring, ss: seq<Step>, mps: nat)
    requires Sound(r) && FramesFit(ss) && mps > 0
    ensures Sound(Run(r, ss, mps)) || (Stuck(Run(r, ss, mps)) && Run(r, ss, mps).nb == 0)
    decreases |ss|
  {
    if ss != [] {
      hide Good, Stuck, Next;
      var h :| Good(r, h);
      var h' := NextGood(r, h, ss[0], mps);
      var q := Next(r, ss[0], mps);
      if Good(q, h') {
        RunSound(q, ss[1..], mps);
      } else {
        RunStuck(q, ss[1..], mps);
      }
    }
  }

  /** The completed transfers are `batches` on the wire, USBDMANextVLD set on all records but the
      last of each; together with `rest` their frames in order are the frames accepted. */
  predicate Delivered(r: Ring, batches: seq<seq<TxFrame>>, rest: seq<TxFrame>) {
    && r.accepted == Flatten(batches) + rest
    && |r.wire| == |batches|
    && (forall i :: 0 <= i < |batches| ==> IsTransfer(r.wire[i], batches[i]))
    && (!r.pending && LooksEmpty(r) ==> rest == [])
  }

  lemma QuietIsEmpty(r: Ring, h: Hist)
    requires Good(r, h)
    ensures !r.pending && LooksEmpty(r) ==> h.inflight == [] && h.high == [] && h.low == []
  {
    LooksEmptyIff(r, h);
    hide Cursors, Queue, WriterOk, Log, LooksEmpty;
  }

  lemma GoodDelivers(r: Ring, h: Hist)
    requires Good(r, h)
    ensures Delivered(r, h.done, h.inflight + h.high + h.low)
  {
    hide Cursors, Queue, Flight, WriterOk, IsTransfer, Flatten, LooksEmpty;
    QuietIsEmpty(r, h);
    assert Flatten(h.done) + (h.inflight + h.high + h.low) == Flatten(h.done) + h.inflight + h.high + h.low;
  }

  /** First in, first out and byte-exact, for every interleaving of writers and transfers: unless
      the ring got stuck, what went over the wire is a prefix of what was accepted, batch by batch;
      what is missing is in flight or queued, and once the ring is quiet nothing is missing. */
  lemma FifoByteExact(r0: Ring, ss: seq<Step>, mps: nat)
    requires Initial(r0) && FramesFit(ss) && mps > 0
    ensures var r := Run(r0, ss, mps);
      (Stuck(r) && r.nb == 0) || exists batches, rest :: Delivered(r, batches, rest)
  {
    hide Good, Stuck, Run, Delivered, Initial;
    InitialGood(r0);
    RunSound(r0, ss, mps);
    var r := Run(r0, ss, mps);
    if Sound(r) {
      var h :| Good(r, h);
      GoodDelivers(r, h);
    }
  }

  /** A run of a laid-out ring deadlocks exactly if it gets to the end of a wrapping frame before any
      transfer was started; none is ever started then. */
  lemma {:induction false} DeadlockIff(r: Ring, ss: seq<Step>, mps: nat)
    requires Sound(r) && FramesFit(ss) && mps > 0
    ensures Stuck(Run(r, ss, mps)) <==>
      exists k :: 0 <= k < |ss| && WrapsTooSoon(Run(r, ss[..k], mps), ss[k])
    ensures Stuck(Run(r, ss, mps)) ==> Run(r, ss, mps).nb == 0
    decreases |ss|
  {
    hide Good, Stuck, Next, WrapsTooSoon;
    var h :| Good(r, h);
    if ss == [] {
      NotStuck(r, h);
    } else {
      var rest := ss[1..];
      var h' := NextGood(r, h, ss[0], mps);
      StuckExactly(r, h, ss[0], mps);
      var q := Next(r, ss[0], mps);
      assert ss[..0] == [];
      if Stuck(q) {
        RunStuck(q, rest, mps);
        assert WrapsTooSoon(Run(r, ss[..0], mps), ss[0]);
      } else {
        DeadlockIff(q, rest, mps);
        ShiftPrefix(r, q, ss, mps);
      }
    }
  }

  /** Once a transfer has been started no run deadlocks. */
  lemma {:induction false} NeverStuckAfterTransfer(r: Ring, ss: seq<Step>, mps: nat)
    requires Sound(r) && r.nb != 0 && FramesFit(ss) && mps > 0
    ensures Sound(Run(r, ss, mps)) && !Stuck(Run(r, ss, mps))
    decreases |ss|
  {
    hide Good, Next, Stuck;
    var h :| Good(r, h);
    NotStuck(r, h);
    if ss != [] {
      var h' := NextGood(r, h, ss[0], mps);
      KeepsTransfer(r, h, ss[0], mps);
      NeverStuckAfterTransfer(Next(r, ss[0], mps), ss[1..], mps);
    }
  }

  lemma ShiftPrefix(r: Ring, q: Ring, ss: seq<Step>, mps: nat)
    requires ss != [] && mps > 0 && q == Next(r, ss[0], mps) && !WrapsTooSoon(r, ss[0])
    ensures (exists k :: 0 <= k < |ss| && WrapsTooSoon(Run(r, ss[..k], mps), ss[k]))
       <==> (exists k :: 0 <= k < |ss| - 1 && WrapsTooSoon(Run(q, ss[1..][..k], mps), ss[1..][k]))
  {
    hide Next, WrapsTooSoon;
    var rest := ss[1..];
    assert ss[..0] == [];
    forall k | 0 <= k < |rest|
      ensures Run(r, ss[..k + 1], mps) == Run(q, rest[..k], mps) && ss[k + 1] == rest[k]
    {
      assert ss[..k + 1][1..] == rest[..k];
    }
    if k :| 0 <= k < |ss| && WrapsTooSoon(Run(r, ss[..k], mps), ss[k]) {
      assert WrapsTooSoon(Run(q, rest[..k - 1], mps), rest[k - 1]);
    }
    if k :| 0 <= k < |rest| && WrapsTooSoon(Run(q, rest[..k], mps), rest[k]) {
      assert WrapsTooSoon(Run(r, ss[..k + 1], mps), ss[k + 1]);
    }
  }

  lemma KeepsTransfer(r: Ring, h: Hist, s: Step, mps: nat)
    requires Good(r, h) && r.nb != 0 && mps > 0
    ensures Next(r, s, mps).nb != 0
  {
    assert r.enb != 0;
    hide Good, TakeBatch, Put, Tail;
  }

  // ------------------------------------------------------------- how it gets stuck

  function Copies(n: nat): seq<Step> {
    if n == 0 then [] else [Copy] + Copies(n - 1)
  }

  lemma {:induction false} RunAppend(r: Ring, a: seq<Step>, b: seq<Step>, mps: nat)
    requires mps > 0
    ensures Run(r, a + b, mps) == Run(Run(r, a, mps), b, mps)
    decreases |a|
  {
    if a == [] {
      assert a + b == b;
    } else {
      assert (a + b)[1..] == a[1..] + b;
      RunAppend(Next(r, a[0], mps), a[1..], b, mps);
    }
  }

  lemma CopiedAtMost(r: Ring, h: Hist)
    requires Good(r, h) && r.writer.Writing?
    ensures r.writer.copied <= |Tail(r.writer.frame)|
  {
  }

  /** The unlocked copy, run to its end. */
  lemma {:induction false} CopyAll(r: Ring, h: Hist, mps: nat) returns (ss: seq<Step>)
    requires Good(r, h) && r.writer.Writing? && mps > 0
    ensures FramesFit(ss)
    ensures var q := Run(r, ss, mps);
      && Good(q, h) && q.writer == r.writer.(copied := |Tail(r.writer.frame)|)
      && q.cw == r.cw && q.nb == r.nb && q.enb == r.enb && q.pending == r.pending && q.wire == r.wire
      && q.accepted == r.accepted
    decreases |Tail(r.writer.frame)| - r.writer.copied
  {
    hide Good, Tail, Put;
    CopiedAtMost(r, h);
    if r.writer.copied == |Tail(r.writer.frame)| {
      ss := [];
    } else {
      CopyGood(r, h);
      var rest := CopyAll(CopyStep(r), h, mps);
      ss := [Copy] + rest;
      assert ss[1..] == rest;
    }
  }

  function ZeroFrame(): (f: TxFrame)
    ensures Fits(f)
  {
    TxFrame(Zeros(16), Zeros(2000))
  }

  /** Before the first transfer, frames can be written one after the other. */
  lemma WriteOne(r: Ring, h: Hist, mps: nat) returns (ss: seq<Step>)
    requires Good(r, h) && r.nb == 0 && r.writer.Idle? && mps > 0
    ensures FramesFit(ss)
    ensures var q := Run(r, ss, mps);
      && q.accepted != [] && q.wire == r.wire
      && (Stuck(q) || (Sound(q) && q.nb == 0 && q.writer.Idle? && q.cw > r.cw))
  {
    var f := ZeroFrame();
    LooksEmptyIff(r, h);
    assert CanDoWrite(r);
    BeginGood(r, h, f);
    var b := BeginStep(r, f);
    assert b.wire == r.wire && b.nb == 0 && b.cw >= r.cw && b.writer.Writing?;
    hide Good, BeginStep, Fits, Tail;
    var copies := CopyAll(b, h, mps);
    ss := [Begin(f)] + copies + [End];
    var c := Run(b, copies, mps);
    EndGood(c, h);
    assert ss == [Begin(f)] + (copies + [End]);
    assert ss[1..] == copies + [End];
    RunAppend(b, copies, [End], mps);
    assert Run(r, ss, mps) == EndStep(c) by {
      assert Next(r, Begin(f), mps) == b;
      assert [End][1..] == [];
      assert Run(c, [End], mps) == Run(Next(c, End, mps), [], mps);
    }
  }

  /** A writer that is never followed by a transfer wraps onto the start of the ring: from any
      quiet ring without a transfer there is a run that ends stuck, with accepted frames lost. */
  lemma {:induction false} FillsUntilStuck(r: Ring, mps: nat) returns (ss: seq<Step>)
    requires Sound(r) && r.nb == 0 && r.writer.Idle? && mps > 0
    ensures FramesFit(ss) && Stuck(Run(r, ss, mps))
    ensures Run(r, ss, mps).accepted != [] && Run(r, ss, mps).wire == r.wire
    decreases TOP - r.cw
  {
    var h :| Good(r, h);
    assert r.cw <= TOP;
    hide Good, Stuck;
    var first := WriteOne(r, h, mps);
    var q := Run(r, first, mps);
    if Stuck(q) {
      ss := first;
    } else {
      assert q.cw <= TOP by { SoundTop(q); }
      var more := FillsUntilStuck(q, mps);
      ss := first + more;
      RunAppend(r, first, more, mps);
    }
  }

  lemma SoundTop(r: Ring)
    requires Sound(r)
    ensures r.cw <= TOP
  {
  }

  // ------------------------------------------------------------- space and non-overlap

  /** The transfer in flight and its 8-byte tail are the same in both states. */
  predicate FlightUntouched(r: Ring, h: Hist, r': Ring) {
    && r'.nb == r.nb && r'.bulkSize == r.bulkSize && r'.pending == r.pending
    && Same(r.buf, r'.buf, r.nb, r.nb + Total(h.inflight) + 8)
  }

  lemma AreaSpares(r: Ring, h: Hist, r': Ring, cw: nat, lo: nat, bytes: seq<Byte>)
    requires r.pending && r'.nb == r.nb && r'.bulkSize == r.bulkSize && r'.pending == r.pending
    requires r'.buf == Put(r.buf, lo, bytes)
    requires lo + |bytes| <= r.nb || r.nb + Total(h.inflight) + 8 <= lo
    ensures FlightUntouched(r, h, r')
  {
    hide Total;
  }

  lemma BeginSpares(r: Ring, h: Hist, f: TxFrame)
    requires Good(r, h) && r.pending && Fits(f)
    ensures FlightUntouched(r, h, BeginStep(r, f))
  {
    hide Good, Fits, FlightUntouched, RecLen, CanDoWrite;
    if CanDoWrite(r) {
      ReserveGood(r, h, f);
      FitLen(f);
      var q := Reserved(r, f);
      AreaSpares(r, h, BeginStep(r, f), q.cw, q.cw, Head(f, HeadFlags(q.writer.last)));
    } else {
      assert FlightUntouched(r, h, r) by { Untouched(r, h); }
    }
  }

  lemma Untouched(r: Ring, h: Hist)
    ensures FlightUntouched(r, h, r)
  {
  }

  lemma CopySpares(r: Ring, h: Hist)
    requires Good(r, h) && r.pending
    ensures FlightUntouched(r, h, CopyStep(r))
  {
    hide Good, FlightUntouched, Tail;
    if r.writer.Writing? && r.writer.copied < |Tail(r.writer.frame)| {
      CopyArea(r, h);
      var f, k := r.writer.frame, r.writer.copied;
      AreaSpares(r, h, CopyStep(r), r.cw, r.cw + 4 + |f.header| + k, [Tail(f)[k]]);
    } else {
      Untouched(r, h);
    }
  }

  /** No step of the writer changes a byte of the transfer in flight or of its 8-byte tail. */
  lemma WriterSparesFlight(r: Ring, h: Hist, s: Step, mps: nat)
    requires Good(r, h) && r.pending && mps > 0
    requires s.Copy? || s.End? || (s.Begin? && Fits(s.frame))
    ensures FlightUntouched(r, h, Next(r, s, mps))
  {
    hide Good, BeginStep, CopyStep, Fits;
    match s
    case Begin(f) => BeginSpares(r, h, f);
    case Copy => CopySpares(r, h);
    case End =>
  }

  // ------------------------------------------------------------- the end of the buffer

  /** Nothing at or beyond MAX_TXBULK_LIMIT differs, and a transfer with its tail lies below it. */
  predicate BelowLimit(r: Ring, q: Ring) {
    && Same(r.buf, q.buf, MAX_TXBULK_LIMIT, MAX_TXBULK_SIZE)
    && (q.pending ==> q.nb + q.bulkSize <= MAX_TXBULK_LIMIT)
  }

  lemma FlightBelow(r: Ring, h: Hist)
    requires Good(r, h)
    ensures r.pending ==> r.nb + r.bulkSize <= MAX_TXBULK_LIMIT
    ensures |r.buf| == MAX_TXBULK_SIZE
  {
    hide Queue, WriterOk, Log, Chain, Total, AllFit;
  }

  lemma PutBelow(buf: seq<Byte>, lo: nat, bytes: seq<Byte>)
    requires lo + |bytes| <= MAX_TXBULK_LIMIT
    ensures Same(buf, Put(buf, lo, bytes), MAX_TXBULK_LIMIT, MAX_TXBULK_SIZE)
  {
  }

  lemma BeginBelow(r: Ring, h: Hist, f: TxFrame)
    requires Good(r, h) && Fits(f)
    ensures Same(r.buf, BeginStep(r, f).buf, MAX_TXBULK_LIMIT, MAX_TXBULK_SIZE)
  {
    hide Good, Fits, RecLen, CanDoWrite, Put, Head;
    if CanDoWrite(r) {
      ReserveGood(r, h, f);
      FitLen(f);
      var q := Reserved(r, f);
      PutBelow(r.buf, q.cw, Head(f, HeadFlags(q.writer.last)));
    }
  }

  lemma CopyBelow(r: Ring, h: Hist)
    requires Good(r, h)
    ensures Same(r.buf, CopyStep(r).buf, MAX_TXBULK_LIMIT, MAX_TXBULK_SIZE)
  {
    hide Good, Tail, Put;
    if r.writer.Writing? && r.writer.copied < |Tail(r.writer.frame)| {
      CopyArea(r, h);
      var f, k := r.writer.frame, r.writer.copied;
      PutBelow(r.buf, r.cw + 4 + |f.header| + k, [Tail(f)[k]]);
    }
  }

  lemma StartBelowLimit(r: Ring, h: Hist, mps: nat)
    requires Good(r, h) && mps > 0
    ensures Same(r.buf, StartStep(r, mps).buf, MAX_TXBULK_LIMIT, MAX_TXBULK_SIZE)
  {
    if !r.pending && !LooksEmpty(r) {
      FrontReady(r, h);
      BufSize(r, h);
      var n := BatchTaken(r, h, mps);
      var b := TakeBatch(Restored(r), r.enb, 0, -1, r.cw, mps);
      assert b.end + 8 <= MAX_TXBULK_LIMIT && r.enb + 8 <= MAX_TXBULK_LIMIT;
      hide Good, Chain, Total, AllFit, Restored, TakeBatch, Closed, TransferSize, Put, LooksEmpty;
      LaunchBuf(r, b, mps);
      RestoredOutside(r, MAX_TXBULK_LIMIT, MAX_TXBULK_SIZE);
    }
  }

  lemma NextBelow(r: Ring, h: Hist, s: Step, mps: nat)
    requires Good(r, h) && mps > 0 && (s.Begin? ==> Fits(s.frame))
    ensures Same(r.buf, Next(r, s, mps).buf, MAX_TXBULK_LIMIT, MAX_TXBULK_SIZE)
  {
    hide Good, Fits, BeginStep, CopyStep, StartStep;
    match s
    case Begin(f) => BeginBelow(r, h, f);
    case Copy => CopyBelow(r, h);
    case End =>
    case Start => StartBelowLimit(r, h, mps);
    case Complete =>
  }

  /** Over every run no byte at or beyond MAX_TXBULK_LIMIT is written, and no transfer reads one. */
  lemma {:induction false} LimitKept(r: Ring, ss: seq<Step>, mps: nat)
    requires Sound(r) && FramesFit(ss) && mps > 0
    ensures BelowLimit(r, Run(r, ss, mps))
    decreases |ss|
  {
    hide Good, Next, Stuck, Same;
    var h :| Good(r, h);
    FlightBelow(r, h);
    SameAlways(r.buf);
    if ss != [] {
      var q := Next(r, ss[0], mps);
      var h' := NextGood(r, h, ss[0], mps);
      NextBelow(r, h, ss[0], mps);
      if Good(q, h') {
        LimitKept(q, ss[1..], mps);
        SameTwice(r.buf, q.buf, Run(r, ss, mps).buf);
      } else {
        RunStuck(q, ss[1..], mps);
        StuckIdle(q);
      }
    }
  }

  lemma SameAlways(a: seq<Byte>)
    ensures Same(a, a, MAX_TXBULK_LIMIT, MAX_TXBULK_SIZE)
  {
  }

  lemma SameTwice(a: seq<Byte>, b: seq<Byte>, c: seq<Byte>)
    requires Same(a, b, MAX_TXBULK_LIMIT, MAX_TXBULK_SIZE) && Same(b, c, MAX_TXBULK_LIMIT, MAX_TXBULK_SIZE)
    ensures Same(a, c, MAX_TXBULK_LIMIT, MAX_TXBULK_SIZE)
  {
  }

  lemma StuckIdle(r: Ring)
    requires Stuck(r)
    ensures !r.pending
  {
  }

  // ------------------------------------------------------------- reserved space

  lemma {:induction false} WritableStable(r: Ring, ss: seq<Step>, mps: nat)
    requires Sound(r) && CanDoWrite(r) && mps > 0
    requires forall i :: 0 <= i < |ss| ==> ss[i].Start? || ss[i].Complete?
    ensures CanDoWrite(Run(r, ss, mps))
    decreases |ss|
  {
    if ss != [] {
      hide Good, Next, CanDoWrite;
      var h :| Good(r, h);
      var h' := NextGood(r, h, ss[0], mps);
      ReservationStep(r, h, ss[0], mps);
      WritableStable(Next(r, ss[0], mps), ss[1..], mps);
    }
  }

  lemma ReservationStep(r: Ring, h: Hist, s: Step, mps: nat)
    requires Good(r, h) && CanDoWrite(r) && mps > 0 && (s.Start? || s.Complete?)
    ensures CanDoWrite(Next(r, s, mps))
  {
    LooksEmptyIff(r, h);
    hide Queue, Flight, WriterOk, Log, Total, TakeBatch, Put, Closed, LooksEmpty, Restored;
  }

  /** Space granted by RTUSBFreeDescriptorRequest is still accepted by RtmpUSBCanDoWrite after any
      number of transfers were started and completed. */
  lemma ReservationStable(r: Ring, required: nat, ss: seq<Step>, mps: nat)
    requires Sound(r) && HasSpaceFor(r, required) && mps > 0
    requires forall i :: 0 <= i < |ss| ==> ss[i].Start? || ss[i].Complete?
    ensures CanDoWrite(Run(r, ss, mps))
  {
    WritableStable(r, ss, mps);
  }
}
