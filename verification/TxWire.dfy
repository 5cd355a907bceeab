/** The transmit ring seen from the device: word-aligned records of the frames that were handed to the
    writer, transfers of the right size, and a reader that recovers every frame. */
module TxWire {
  import opened Modular
  import opened TxChain
  import opened TxRing
  import opened TxRingBulk
  import opened TxRingInv
  import opened TxRingTheorems

  // ------------------------------------------------------------- padding and alignment

  /** USBDMATxPktLen is the next multiple of 4. */
  lemma PadRight(f: TxFrame)
    ensures PktLen(f) % 4 == 0 && BodyLen(f) <= PktLen(f) < BodyLen(f) + 4 && RecLen(f) % 4 == 0
  {
  }

  lemma {:induction false} TotalAligned(fs: seq<TxFrame>)
    ensures Total(fs) % 4 == 0
  {
    hide RecLen;
    if fs != [] {
      PadRight(fs[0]);
      TotalAligned(fs[1..]);
    }
  }

  /** The three cursors are on word boundaries. */
  predicate Aligned(r: Ring) { r.cw % 4 == 0 && r.nb % 4 == 0 && r.enb % 4 == 0 }

  lemma StartAligned(r: Ring, h: Hist, mps: nat)
    requires Good(r, h) && mps > 0 && Aligned(r) && !r.pending && !LooksEmpty(r)
    ensures Aligned(StartStep(r, mps))
  {
    hide Cursors, Queue, Flight, WriterOk, Log, Chain, Same, Total, AllFit, Stops;
    hide TakeBatch, Closed, Put, Restored, Slice8, TransferSize, LooksEmpty;
    var n := BatchTaken(r, h, mps);
    TotalAligned(Front(h)[..n]);
  }

  lemma NextAligned(r: Ring, h: Hist, s: Step, mps: nat)
    requires Good(r, h) && mps > 0 && Aligned(r)
    ensures Aligned(Next(r, s, mps))
  {
    hide Good, StartStep, Put, Tail, Head, RecLen, CanDoWrite;
    if s == End && r.writer.Writing? {
      PadRight(r.writer.frame);
    }
    if s == Start {
      if r.pending || LooksEmpty(r) {
        NoStart(r, mps);
      } else {
        StartAligned(r, h, mps);
      }
    }
  }

  lemma NoStart(r: Ring, mps: nat)
    requires mps > 0 && (r.pending || LooksEmpty(r))
    ensures StartStep(r, mps) == r
  {
  }

  /** Over every run the cursors stay on word boundaries. */
  lemma {:induction false} AlwaysAligned(r: Ring, ss: seq<Step>, mps: nat)
    requires Sound(r) && FramesFit(ss) && mps > 0 && Aligned(r)
    ensures Aligned(Run(r, ss, mps))
    decreases |ss|
  {
    if ss != [] {
      hide Good, Stuck, Next, Aligned;
      var h :| Good(r, h);
      var h' := NextGood(r, h, ss[0], mps);
      NextAligned(r, h, ss[0], mps);
      var q := Next(r, ss[0], mps);
      if Good(q, h') {
        AlwaysAligned(q, ss[1..], mps);
      } else {
        RunStuck(q, ss[1..], mps);
      }
    }
  }

  // ------------------------------------------------------------- what is accepted is what was handed over

  /** The frames of the run's write requests that find the ring writable, in order. */
  function Admitted(r: Ring, ss: seq<Step>, mps: nat): seq<TxFrame>
    requires mps > 0
    decreases |ss|
  {
    if ss == [] then []
    else (if ss[0].Begin? && CanDoWrite(r) then [ss[0].frame] else []) + Admitted(Next(r, ss[0], mps), ss[1..], mps)
  }

  function Underway(w: Writer): seq<TxFrame> { if w.Writing? then [w.frame] else [] }

  lemma StepAdmits(r: Ring, s: Step, mps: nat)
    requires mps > 0
    ensures var q := Next(r, s, mps);
            q.accepted + Underway(q.writer)
            == r.accepted + Underway(r.writer) + if s.Begin? && CanDoWrite(r) then [s.frame] else []
  {
    hide TakeBatch, Launch, Put, Tail, Head, RecLen, Restored;
    LaunchKeeps(r, mps);
  }

  lemma LaunchKeeps(r: Ring, mps: nat)
    requires mps > 0
    ensures StartStep(r, mps).accepted == r.accepted && StartStep(r, mps).writer == r.writer
  {
    hide TakeBatch, Closed, Put, Restored;
  }

  /** Over every run the frames accepted, with the one being written, are exactly those admitted. */
  lemma {:induction false} AcceptedExactly(r: Ring, ss: seq<Step>, mps: nat)
    requires mps > 0
    ensures var q := Run(r, ss, mps);
            q.accepted + Underway(q.writer) == r.accepted + Underway(r.writer) + Admitted(r, ss, mps)
    decreases |ss|
  {
    hide Next, CanDoWrite;
    if ss != [] {
      StepAdmits(r, ss[0], mps);
      AcceptedExactly(Next(r, ss[0], mps), ss[1..], mps);
    }
  }

  lemma {:induction false} AdmittedFit(r: Ring, ss: seq<Step>, mps: nat)
    requires mps > 0 && FramesFit(ss)
    ensures AllFit(Admitted(r, ss, mps))
    decreases |ss|
  {
    hide Next, CanDoWrite, Fits;
    if ss != [] {
      AdmittedFit(Next(r, ss[0], mps), ss[1..], mps);
    }
  }

  // ------------------------------------------------------------- when a writer is refused

  /** A writer is refused exactly if another one is at work, or fewer than 2048 bytes lie between the write
      cursor and the transfer ahead of it; a request for more room asks for that much more. */
  lemma RefusedExactly(r: Ring, required: nat)
    ensures CanDoWrite(r) <==> HasSpaceFor(r, 0)
    ensures HasSpaceFor(r, required) <==>
            r.writer.Idle? && !(0 < r.nb - r.cw < required + 2048) && !(r.cw == 8 && r.nb < required + 2048)
  {
  }

  lemma BeginFacts(r: Ring, f: TxFrame)
    requires CanDoWrite(r)
    ensures var b := BeginStep(r, f); b.writer.Writing? && b.writer.frame == f && b.accepted == r.accepted
  {
    hide Put, Head;
  }

  /** From any laid-out ring that is writable, any frame that fits is written and accepted. */
  lemma WriteGoesThrough(r: Ring, h: Hist, f: TxFrame, mps: nat) returns (ss: seq<Step>)
    requires Good(r, h) && CanDoWrite(r) && Fits(f) && mps > 0
    ensures FramesFit(ss) && Run(r, ss, mps).accepted == r.accepted + [f] && Run(r, ss, mps).writer.Idle?
  {
    hide Good, BeginStep, CanDoWrite, Fits, Tail, RecLen, Run;
    BeginGood(r, h, f);
    BeginFacts(r, f);
    var b := BeginStep(r, f);
    var copies := CopyAll(b, h, mps);
    ss := [Begin(f)] + (copies + [End]);
    var c := Run(b, copies, mps);
    RunAppend(r, [Begin(f)], copies + [End], mps);
    RunAppend(b, copies, [End], mps);
    RunSingle(r, Begin(f), mps);
    RunSingle(c, End, mps);
  }

  lemma RunSingle(r: Ring, s: Step, mps: nat)
    requires mps > 0
    ensures Run(r, [s], mps) == Next(r, s, mps)
  {
    hide Next;
    assert [s][1..] == [];
  }

  // ------------------------------------------------------------- the size of a transfer

  /** 4 or 8 bytes more than the records, and never a whole number of USB packets. */
  lemma TransferSizeIs(size: nat, mps: nat)
    requires mps > 4
    ensures size + 4 <= TransferSize(size, mps) <= size + 8 && TransferSize(size, mps) % mps != 0
  {
    if (size + 4) % mps == 0 {
      var q := (size + 4) / mps;
      assert size + 8 == mps * q + 4;
      RemainderIs(mps, q, 4);
    }
  }

  /** No transfer pending or done is a whole number of USB packets. */
  predicate NoBoundary(r: Ring, mps: nat)
    requires mps > 0
  {
    (r.pending ==> r.bulkSize % mps != 0) && forall i :: 0 <= i < |r.wire| ==> |r.wire[i]| % mps != 0
  }

  lemma NextNoBoundary(r: Ring, h: Hist, s: Step, mps: nat)
    requires Good(r, h) && mps > 4 && NoBoundary(r, mps)
    ensures NoBoundary(Next(r, s, mps), mps)
  {
    hide TakeBatch, Closed, Put, Restored, Tail, Head, RecLen, Slice8, TransferSize, CanDoWrite, LooksEmpty;
    hide Cursors, Queue, WriterOk, Log;
    match s
    case Start =>
      var b := TakeBatch(Restored(r), r.enb, 0, -1, r.cw, mps);
      TransferSizeIs(b.size, mps);
    case Complete =>
      BufSize(r, h);
      hide Chain;
    case _ =>
  }

  lemma {:induction false} NeverOnBoundary(r: Ring, ss: seq<Step>, mps: nat)
    requires Sound(r) && FramesFit(ss) && mps > 4 && NoBoundary(r, mps)
    ensures NoBoundary(Run(r, ss, mps), mps)
    decreases |ss|
  {
    if ss != [] {
      hide Good, Stuck, Next, NoBoundary;
      var h :| Good(r, h);
      var h' := NextGood(r, h, ss[0], mps);
      NextNoBoundary(r, h, ss[0], mps);
      var q := Next(r, ss[0], mps);
      if Good(q, h') {
        NeverOnBoundary(q, ss[1..], mps);
      } else {
        RunStuck(q, ss[1..], mps);
      }
    }
  }

  // ------------------------------------------------------------- how much is batched

  /** The limits in bytes: at most 24k, about 4k in front of a CCK frame, 2k on a full-speed bus. */
  lemma LimitRange(size: nat, cck: bool, mps: nat)
    ensures !LimitReached(size, cck, mps) ==> size < 0x8000 && (mps < 512 ==> size < 0x800)
    ensures !LimitReached(size, cck, mps) && !cck ==> size < 0x6000
    ensures !LimitReached(size, cck, mps) && cck && size < 0x2000 ==> size < 0x1000
    ensures LimitReached(size, cck, mps) && mps >= 512 ==> size >= 0x1000 && (!cck ==> size >= 0x6000)
    ensures LimitReached(size, cck, mps) && mps < 512 ==> size >= 0x800
  {
  }

  predicate AllCck(fs: seq<TxFrame>)
    requires AllFit(fs)
  {
    forall i :: 0 <= i < |fs| ==> Cck(fs[i])
  }

  predicate NoCck(fs: seq<TxFrame>)
    requires AllFit(fs)
  {
    forall i :: 0 <= i < |fs| ==> !Cck(fs[i])
  }

  /** From `size` bytes on: what the last frame taken had before it, and what a batch that leaves frames
      behind has taken. */
  lemma {:induction false} StopsRange(fs: seq<TxFrame>, n: nat, size: nat, mps: nat)
    requires AllFit(fs) && Stops(fs, n, size, mps)
    ensures n <= |fs|
    ensures n > 0 ==> var before := size + Total(fs[..n - 1]);
              && (mps < 512 ==> before < 0x800) && (NoCck(fs) ==> before < 0x6000)
              && (AllCck(fs) && size < 0x1000 ==> before < 0x1000)
    ensures n < |fs| ==> var taken := size + Total(fs[..n]);
              if mps < 512 then taken >= 0x800 else taken >= 0x1000 && (NoCck(fs) ==> taken >= 0x6000)
    decreases |fs|
  {
    hide LimitReached, RecLen, Cck;
    assert fs[..0] == [];
    if fs != [] {
      LimitRange(size, Cck(fs[0]), mps);
      if n > 0 {
        var rest, next := fs[1..], size + RecLen(fs[0]);
        StopsRange(rest, n - 1, next, mps);
        assert fs[..n][1..] == rest[..n - 1];
        if n > 1 {
          assert fs[..n - 1][1..] == rest[..n - 2];
          LimitRange(next, Cck(rest[0]), mps);
          FitLen(fs[0]);
        }
      }
    }
  }

  /** A bulk-out of a laid-out ring takes the queued frames in order: as many as the limits allow, and
      only a limit or the wrap leaves frames behind. */
  lemma BatchLimits(r: Ring, h: Hist, mps: nat) returns (n: nat)
    requires Good(r, h) && mps > 0 && !r.pending && !LooksEmpty(r)
    ensures AllFit(Front(h)) && 0 < n <= |Front(h)|
    ensures var fs := Front(h); var before, taken := Total(fs[..n - 1]), Total(fs[..n]);
            && StartStep(r, mps).bulkSize == TransferSize(taken, mps)
            && (mps < 512 ==> before < 0x800) && (NoCck(fs) ==> before < 0x6000) && (AllCck(fs) ==> before < 0x1000)
            && (n < |fs| ==> if mps < 512 then taken >= 0x800 else taken >= 0x1000 && (NoCck(fs) ==> taken >= 0x6000))
  {
    hide Cursors, Queue, Flight, WriterOk, Log, TakeBatch, Closed, Put, Restored, LooksEmpty, Slice8, TransferSize;
    hide LimitReached, Cck, Total, NoCck, AllCck, Stops;
    n := BatchTaken(r, h, mps);
    StopsRange(Front(h), n, 0, mps);
  }

  // ------------------------------------------------------------- reading a transfer

  /** A packet as the device finds it: where its TXINFO stands, the upper two bytes of that word, and what
      follows. */
  datatype Packet = Packet(at: nat, spare: Byte, flags: Byte, body: seq<Byte>)

  /** Reading from `pos` on: the length is the low half of the TXINFO word, little-endian, and another
      packet follows if bit 30 is set. */
  function Packets(w: seq<Byte>, pos: nat): seq<Packet>
    decreases |w| - pos
  {
    if pos + 4 > |w| then []
    else
      var end := pos + 4 + w[pos] as int + 256 * w[pos + 1] as int;
      if end > |w| then []
      else
        [Packet(pos, w[pos + 2], w[pos + 3], w[pos + 4..end])]
        + if w[pos + 3] / 64 % 2 == 1 then Packets(w, end) else []
  }

  /** The packet carries the frame: on a word boundary, for the EDCA queue, its bytes and then zeros up to
      a multiple of four. */
  predicate Carries(p: Packet, f: TxFrame) {
    && p.at % 4 == 0 && p.spare == 0 && p.flags / 2 % 4 == 2 && p.flags % 2 == 0 && p.flags / 8 % 8 == 0
    && |p.body| % 4 == 0 && BodyLen(f) <= |p.body| < BodyLen(f) + 4
    && p.body[..BodyLen(f)] == f.header + f.payload
    && forall i :: BodyLen(f) <= i < |p.body| ==> p.body[i] == 0
  }

  lemma RecordCarries(w: seq<Byte>, pos: nat, f: TxFrame, flags: Byte)
    requires At(w, pos, Record(f, flags)) && Fits(f) && pos % 4 == 0 && (flags == EDCA || flags == EDCA_NEXT)
    ensures pos + 4 <= |w| && w[pos] as int + 256 * w[pos + 1] as int == PktLen(f)
    ensures w[pos + 2] == 0 && w[pos + 3] == flags
    ensures pos + RecLen(f) <= |w| && Carries(Packet(pos, 0, flags, w[pos + 4..pos + RecLen(f)]), f)
  {
    PadRight(f);
    var r, body := Record(f, flags), w[pos + 4..pos + RecLen(f)];
    assert w[pos] == r[0] && w[pos + 1] == r[1] && w[pos + 2] == r[2] && w[pos + 3] == r[3];
    assert forall i :: 0 <= i < |body| ==> body[i] == r[4 + i];
    assert r[4..4 + BodyLen(f)] == f.header + f.payload;
    assert body[..BodyLen(f)] == r[4..4 + BodyLen(f)];
  }

  /** The device reads a transfer as its frames, in order, every one and nothing else. */
  lemma {:induction false} WireReads(w: seq<Byte>, pos: nat, fs: seq<TxFrame>)
    requires At(w, pos, Wire(fs)) && AllFit(fs) && fs != [] && pos % 4 == 0
    ensures var ps := Packets(w, pos); |ps| == |fs| && forall i :: 0 <= i < |fs| ==> Carries(ps[i], fs[i])
    decreases |fs|
  {
    hide Record, RecLen, Carries, PktLen, Packets, Fits, At;
    var flags := if |fs| == 1 then EDCA else EDCA_NEXT;
    var next := pos + RecLen(fs[0]);
    WireSplit(w, pos, fs);
    RecordCarries(w, pos, fs[0], flags);
    PadRight(fs[0]);
    FirstPacket(w, pos, fs[0], flags);
    if |fs| > 1 {
      WireReads(w, next, fs[1..]);
    }
  }

  lemma {:induction false} WireSplit(w: seq<Byte>, pos: nat, fs: seq<TxFrame>)
    requires At(w, pos, Wire(fs)) && fs != []
    ensures At(w, pos, Record(fs[0], if |fs| == 1 then EDCA else EDCA_NEXT))
    ensures At(w, pos + RecLen(fs[0]), Wire(fs[1..]))
  {
    hide Record, RecLen, At;
    AtSplit(w, pos, Record(fs[0], if |fs| == 1 then EDCA else EDCA_NEXT), Wire(fs[1..]));
  }

  lemma AtSplit(w: seq<Byte>, pos: nat, a: seq<Byte>, b: seq<Byte>)
    requires At(w, pos, a + b)
    ensures At(w, pos, a) && At(w, pos + |a|, b)
  {
    assert forall i :: 0 <= i < |a| ==> (a + b)[i] == a[i];
    forall i | pos + |a| <= i < pos + |a| + |b|
      ensures w[i] == b[i - (pos + |a|)]
    {
      assert w[i] == (a + b)[i - pos];
    }
  }

  lemma FirstPacket(w: seq<Byte>, pos: nat, f: TxFrame, flags: Byte)
    requires pos + 4 <= |w| && w[pos] as int + 256 * w[pos + 1] as int == PktLen(f)
    requires pos + RecLen(f) <= |w| && w[pos + 2] == 0 && w[pos + 3] == flags && (flags == EDCA || flags == EDCA_NEXT)
    ensures var next := pos + RecLen(f);
            Packets(w, pos)
            == [Packet(pos, 0, flags, w[pos + 4..next])] + if flags == EDCA then [] else Packets(w, next)
  {
    hide PktLen;
    assert 4 / 64 % 2 == 0 && 68 / 64 % 2 == 1;
  }

  lemma TransferReads(w: seq<Byte>, fs: seq<TxFrame>)
    requires IsTransfer(w, fs) && AllFit(fs)
    ensures AllCarry(Packets(w, 0), fs)
  {
    hide Wire, Carries, Packets;
    WireReads(w, 0, fs);
  }

  // ------------------------------------------------------------- from writer to device

  /** All packets of the transfers, as the device reads them. */
  function Read(wire: seq<seq<Byte>>): seq<Packet> {
    if wire == [] then [] else Read(wire[..|wire| - 1]) + Packets(wire[|wire| - 1], 0)
  }

  lemma {:induction false} ReadBack(wire: seq<seq<Byte>>, batches: seq<seq<TxFrame>>)
    requires |wire| == |batches| && AllFit(Flatten(batches))
    requires forall i :: 0 <= i < |wire| ==> IsTransfer(wire[i], batches[i])
    ensures AllCarry(Read(wire), Flatten(batches))
    decreases |wire|
  {
    hide IsTransfer, Carries, Packets, AllFit, AllCarry;
    if wire == [] {
      CarryNothing();
    } else {
      var n := |wire| - 1;
      FitParts(Flatten(batches[..n]), batches[n]);
      ReadBack(wire[..n], batches[..n]);
      TransferReads(wire[n], batches[n]);
      CarryJoin(Read(wire[..n]), Flatten(batches[..n]), Packets(wire[n], 0), batches[n]);
    }
  }

  predicate AllCarry(ps: seq<Packet>, fs: seq<TxFrame>) {
    |ps| == |fs| && forall i :: 0 <= i < |fs| ==> Carries(ps[i], fs[i])
  }

  lemma CarryNothing()
    ensures AllCarry([], [])
  {
  }

  lemma CarryJoin(ps: seq<Packet>, fs: seq<TxFrame>, qs: seq<Packet>, gs: seq<TxFrame>)
    requires AllCarry(ps, fs) && AllCarry(qs, gs)
    ensures AllCarry(ps + qs, fs + gs)
  {
    hide Carries;
  }

  lemma FitParts(a: seq<TxFrame>, b: seq<TxFrame>)
    requires AllFit(a + b)
    ensures AllFit(a) && AllFit(b)
  {
    hide Fits;
    assert forall i :: 0 <= i < |a| ==> a[i] == (a + b)[i];
    assert forall i :: 0 <= i < |b| ==> b[i] == (a + b)[|a| + i];
  }

  /** End to end, over every interleaving: unless the ring deadlocked before the first transfer, the device
      reads exactly the first of the frames that were admitted, each once, in order, with its bytes; and
      once nothing is pending, waiting or being written, all of them. */
  lemma DeviceReadsFrames(r0: Ring, ss: seq<Step>, mps: nat)
    requires Initial(r0) && FramesFit(ss) && mps > 0
    ensures var r, fs := Run(r0, ss, mps), Admitted(r0, ss, mps);
            || (Stuck(r) && r.nb == 0)
            || (&& |Read(r.wire)| <= |fs| && (forall i :: 0 <= i < |Read(r.wire)| ==> Carries(Read(r.wire)[i], fs[i]))
                && (!r.pending && LooksEmpty(r) && r.writer.Idle? ==> |Read(r.wire)| == |fs|))
  {
    hide Stuck, Run, IsTransfer, Carries, Packets, Fits, Admitted, LooksEmpty, Flatten;
    FifoByteExact(r0, ss, mps);
    AcceptedExactly(r0, ss, mps);
    AdmittedFit(r0, ss, mps);
    var r, fs := Run(r0, ss, mps), Admitted(r0, ss, mps);
    if !(Stuck(r) && r.nb == 0) {
      var batches, rest :| Delivered(r, batches, rest);
      var flat := Flatten(batches);
      assert r0.accepted + Underway(r0.writer) + fs == fs;
      assert r.accepted + Underway(r.writer) == flat + (rest + Underway(r.writer));
      assert forall i :: 0 <= i < |flat| ==> flat[i] == fs[i];
      ReadBack(r.wire, batches);
    }
  }
}
