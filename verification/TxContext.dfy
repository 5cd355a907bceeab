/** HT_TX_CONTEXT and its users in the form the driver has: cursors and bytes updated in place, one
    method per critical section, each proved against the functions of `TxRing`. Every store and
    load is proved to be inside the transfer buffer. */
module TxContext {
  import opened Modular
  import Sequences
  import opened TxChain
  import opened TxRing
  import opened TxRingBulk
  import opened TxRingInv
  import opened TxRingTheorems

  class HtTxContext {
    const packet: array<Byte>            // TransferBuffer->field.WirelessPacket
    var curWritePosition: nat
    var curWriteRealPos: nat
    var nextBulkOutPosition: nat
    var eNextBulkOutPosition: nat
    var copySavePad: bool
    var savedPad: seq<Byte>
    var bulkOutPending: bool
    var bulkOutSize: nat
    var writer: Writer                   // bCurWriting with the writer's local variables
    ghost var accepted: seq<TxFrame>
    ghost var wire: seq<seq<Byte>>

    ghost function View(): Ring
      reads this, packet
    {
      Ring(packet[..], curWritePosition, curWriteRealPos, nextBulkOutPosition, eNextBulkOutPosition,
           copySavePad, savedPad, bulkOutPending, bulkOutSize, writer, accepted, wire)
    }

    /** The ring is laid out soundly, or stuck for good. */
    ghost predicate Valid()
      reads this, packet
    {
      Sound(View()) || Stuck(View())
    }

    constructor ()
      ensures Valid() && Initial(View()) && fresh(packet)
    {
      packet := new Byte[MAX_TXBULK_SIZE];
      curWritePosition, curWriteRealPos := 0, 0;
      nextBulkOutPosition, eNextBulkOutPosition := 0, 0;
      copySavePad, savedPad := false, [0, 0, 0, 0, 0, 0, 0, 0];
      bulkOutPending, bulkOutSize := false, 0;
      writer := Idle;
      accepted, wire := [], [];
      new;
      InitialGood(View());
    }

    /** RtmpUSBCanDoWrite */
    method CanWrite() returns (ok: bool)
      ensures ok == CanDoWrite(View())
    {
      if curWritePosition < nextBulkOutPosition && curWritePosition + LOCAL_TXBUF_SIZE > nextBulkOutPosition {
        ok := false;
      } else if curWritePosition == 8 && nextBulkOutPosition < LOCAL_TXBUF_SIZE {
        ok := false;
      } else {
        ok := writer.Idle?;
      }
    }

    /** NdisMoveMemory into the transfer buffer. */
    method Store(pos: nat, bytes: seq<Byte>)
      requires pos + |bytes| <= packet.Length
      modifies packet
      ensures packet[..] == Put(old(packet[..]), pos, bytes)
    {
      Sequences.Copy(packet, pos, bytes);
      assert forall i :: pos <= i < pos + |bytes| ==> packet[i] == packet[pos..pos + |bytes|][i - pos];
      assert packet[..] == Put(old(packet[..]), pos, bytes);
    }

    /** First critical section of RtmpUSB_WriteSingleTxResource. */
    method BeginWrite(f: TxFrame) returns (ok: bool)
      requires Valid() && Fits(f)
      modifies this, packet
      ensures View() == BeginStep(old(View()), f) && Valid()
      ensures ok == CanDoWrite(old(View()))
    {
      hide Sound, Stuck, Fits, RecLen, Put, Head;
      ghost var r := View();
      StepValid(r, Begin(f), 512);
      BeginBounds(r, f);
      ok := CanWrite();
      if ok {
        if eNextBulkOutPosition == curWritePosition {
          eNextBulkOutPosition := eNextBulkOutPosition + 8;
          curWritePosition := curWritePosition + 8;
        }
        curWriteRealPos := curWritePosition;
        var last := curWritePosition + WRAP_RESERVE + RecLen(f) > MAX_TXBULK_LIMIT;
        writer := Writing(f, last, 0);
        Store(curWritePosition, Head(f, HeadFlags(last)));
        curWriteRealPos := curWriteRealPos + 4 + |f.header|;
      }
    }

    /** One byte of the unlocked copy of payload and padding. */
    method CopyByte()
      requires Valid() && writer.Writing? && writer.copied < |Tail(writer.frame)|
      modifies this`writer, packet
      ensures View() == CopyStep(old(View())) && Valid()
    {
      hide Sound, Stuck, Put, Tail;
      StepValid(View(), Copy, 512);
      CopyBounds(View());
      Store(curWritePosition + 4 + |writer.frame.header| + writer.copied, [Tail(writer.frame)[writer.copied]]);
      writer := writer.(copied := writer.copied + 1);
    }

    /** Second critical section of RtmpUSB_WriteSingleTxResource. */
    method EndWrite()
      requires Valid() && writer.Writing? && writer.copied == |Tail(writer.frame)|
      modifies this
      ensures View() == EndStep(old(View())) && Valid()
    {
      hide Sound, Stuck, Tail, RecLen;
      StepValid(View(), End, 512);
      var f := writer.frame;
      curWritePosition := if writer.last then 8 else curWritePosition + RecLen(f);
      curWriteRealPos := curWritePosition;
      writer := Idle;
      accepted := accepted + [f];
    }

    /** The batching loop of RTUSBBulkOutDataPacket over the records `fs` that stand at `start`. */
    method TakeRecords(start: nat, mps: nat, ghost fs: seq<TxFrame>, ghost fin: Byte)
        returns (end: nat, size: nat, lastInfo: int, wrapped: bool)
      requires Chain(packet[..], start, fs, EDCA, fin) && AllFit(fs) && start + Total(fs) + 8 <= packet.Length
      requires (fin == EDCA && curWritePosition == start + Total(fs))
            || (fin == EDCA_LAST && curWritePosition < start && fs != [])
      modifies packet
      ensures Batch(packet[..], end, size, lastInfo, wrapped, false)
        == TakeBatch(old(packet[..]), start, 0, -1, curWritePosition, mps)
    {
      hide TakeBatch, LimitReached, TakenFlags, IsLastRound, RecLen, Fits, Record, CckAt, LenAt, Total, AllFit;
      ghost var b := TakeBatch(packet[..], start, 0, -1, curWritePosition, mps);
      ghost var gs := fs;
      end, size, lastInfo, wrapped := start, 0, -1, false;
      while !wrapped && !LimitReached(size, CckAt(packet[..], end), mps) && end != curWritePosition
        invariant end + 8 <= packet.Length
        invariant wrapped ==> b == Batch(packet[..], end, size, lastInfo, true, false)
        invariant !wrapped ==>
          && b == TakeBatch(packet[..], end, size, lastInfo, curWritePosition, mps)
          && Chain(packet[..], end, gs, EDCA, fin) && AllFit(gs) && end + Total(gs) + 8 <= packet.Length
          && ((fin == EDCA && curWritePosition == end + Total(gs))
              || (fin == EDCA_LAST && curWritePosition < end && gs != []))
        decreases !wrapped, |gs|
      {
        ghost var buf := packet[..];
        NextRecord(buf, end, size, lastInfo, curWritePosition, mps, gs, fin);
        // A length of 8 or less cannot occur here: every record standing in the ring is longer.
        var len := LenAt(packet[..], end);
        var next := end + len + 4;
        var flags := packet[end + 3];
        packet[end + 3] := TakenFlags(flags, next != curWritePosition, curWritePosition == 8);
        assert packet[..] == buf[end + 3 := TakenFlags(flags, next != curWritePosition, curWritePosition == 8)];
        wrapped := IsLastRound(flags);
        lastInfo := end;
        size := size + len + 4;
        end := next;
        gs := gs[1..];
      }
      if !wrapped {
        BatchStops(packet[..], end, size, lastInfo, curWritePosition, mps);
      }
    }

    /** RTUSBBulkOutDataPacket, up to the submission of the transfer. */
    method BulkOutData(mps: nat)
      requires Valid() && mps > 0
      modifies this, packet
      ensures View() == StartStep(old(View()), mps) && Valid()
    {
      hide Sound, Stuck, Launch, TakeBatch, Put, Slice8, Zeros, Total, Chain, AllFit;
      ghost var r := View();
      StepValid(r, Start, mps);
      if bulkOutPending {
        return;
      }
      if eNextBulkOutPosition == curWritePosition || eNextBulkOutPosition == curWritePosition + 8 {
        return;
      }
      ghost var fs, fin := ReadyRecords(r);
      ghost var b := TakeBatch(Restored(r), r.enb, 0, -1, r.cw, mps);
      StartBounds(r, mps);
      nextBulkOutPosition := eNextBulkOutPosition;
      if copySavePad {
        Store(nextBulkOutPosition, savedPad);
        copySavePad := false;
      }
      assert packet[..] == Restored(r);
      var end, size, lastInfo, wrapped := TakeRecords(nextBulkOutPosition, mps, fs, fin);
      assert Batch(packet[..], end, size, lastInfo, wrapped, false) == b;
      if 0 <= lastInfo {
        packet[lastInfo + 3] := ClearNext(packet[lastInfo + 3]);
      }
      assert packet[..] == Closed(b);
      LaunchSame(r, View(), b, mps);
      Submit(end, size, wrapped, mps, b);
    }

    /** Saving of the bytes after the transfer, zeroing, and submission. */
    method Submit(end: nat, size: nat, wrapped: bool, mps: nat, ghost b: Batch)
      requires mps > 0 && packet[..] == Closed(b) && end + 8 <= packet.Length && !copySavePad
      requires b.end == end && b.size == size && b.wrapped == wrapped
      modifies this, packet
      ensures View() == Launch(old(View()).(enb := old(nextBulkOutPosition)), b, mps)
    {
      hide Closed, Put;
      eNextBulkOutPosition := if wrapped then 8 else end;
      if !wrapped && ((eNextBulkOutPosition == curWritePosition && curWriteRealPos > curWritePosition)
                      || eNextBulkOutPosition != curWritePosition) {
        savedPad := packet[end..end + 8];
        assert savedPad == Slice8(Closed(b), end);
        copySavePad := true;
      }
      Store(end, Zeros(8));
      bulkOutSize := if (size + 4) % mps == 0 then size + 8 else size + 4;
      bulkOutPending := true;
    }

    /** rt2870_dataout_complete_tasklet on success: the device has read the transfer. */
    method BulkOutComplete()
      requires Valid() && bulkOutPending
      modifies this`bulkOutPending, this`wire
      ensures View() == CompleteStep(old(View())) && Valid()
    {
      hide Sound, Stuck;
      StepValid(View(), Complete, 512);
      wire := wire + [Region(packet[..], nextBulkOutPosition, bulkOutSize)];
      bulkOutPending := false;
    }
  }

  /** The records a ready ring will draw from. */
  lemma ReadyRecords(r: Ring) returns (fs: seq<TxFrame>, fin: Byte)
    requires (Sound(r) || Stuck(r)) && !LooksEmpty(r)
    ensures Chain(Restored(r), r.enb, fs, EDCA, fin) && AllFit(fs) && r.enb + Total(fs) + 8 <= |r.buf|
    ensures (fin == EDCA && r.cw == r.enb + Total(fs)) || (fin == EDCA_LAST && r.cw < r.enb && fs != [])
    ensures r.enb + 8 <= |r.buf| && |r.pad| == 8
  {
    var h :| Good(r, h);
    FrontReady(r, h);
    GoodSize(r, h);
    fs, fin := Front(h), if h.high != [] then EDCA_LAST else EDCA;
    hide Good, Chain, AllFit;
  }

  lemma StartBounds(r: Ring, mps: nat)
    requires (Sound(r) || Stuck(r)) && !LooksEmpty(r) && mps > 0
    ensures var b := TakeBatch(Restored(r), r.enb, 0, -1, r.cw, mps);
      !b.bad && b.end + 8 <= |r.buf|
  {
    hide TakeBatch, Chain, LooksEmpty;
    assert exists h :: Good(r, h) by { NotStuckIfReady(r); }
    var h :| Good(r, h);
    var n := BatchTaken(r, h, mps);
    assert AllFit(Front(h));
    StartFlight(r, h, TakeBatch(Restored(r), r.enb, 0, -1, r.cw, mps), n, mps);
    hide Good, AllFit, Closed;
  }

  /** Launch does not depend on what it overwrites. */
  lemma LaunchSame(r: Ring, q: Ring, b: Batch, mps: nat)
    requires mps > 0 && q == r.(buf := q.buf, nb := q.nb, copyPad := q.copyPad)
    ensures Launch(q.(enb := r.enb), b, mps) == Launch(r, b, mps)
  {
  }

  lemma NotStuckIfReady(r: Ring)
    requires !LooksEmpty(r)
    ensures !Stuck(r)
  {
  }

  lemma BatchStops(buf: seq<Byte>, pos: nat, size: nat, lastInfo: int, cw: nat, mps: nat)
    requires pos + 8 <= |buf| && (LimitReached(size, CckAt(buf, pos), mps) || pos == cw)
    ensures TakeBatch(buf, pos, size, lastInfo, cw, mps) == Batch(buf, pos, size, lastInfo, false, false)
  {
  }

  /** One turn of the batching loop, in the terms the loop computes with. */
  lemma NextRecord(buf: seq<Byte>, pos: nat, size: nat, lastInfo: int, cw: nat, mps: nat, gs: seq<TxFrame>, fin: Byte)
    requires Chain(buf, pos, gs, EDCA, fin) && AllFit(gs) && pos + Total(gs) + 8 <= |buf|
    requires (fin == EDCA && cw == pos + Total(gs)) || (fin == EDCA_LAST && cw < pos && gs != [])
    requires !LimitReached(size, CckAt(buf, pos), mps) && pos != cw
    ensures gs != [] && LenAt(buf, pos) == PktLen(gs[0]) > 8
    ensures var next := pos + LenAt(buf, pos) + 4;
      var buf' := buf[pos + 3 := TakenFlags(buf[pos + 3], next != cw, cw == 8)];
      && (IsLastRound(buf[pos + 3]) ==>
            next + 8 <= |buf|
            && TakeBatch(buf, pos, size, lastInfo, cw, mps)
               == Batch(buf', next, size + LenAt(buf, pos) + 4, pos, true, false))
      && (!IsLastRound(buf[pos + 3]) ==>
            && TakeBatch(buf, pos, size, lastInfo, cw, mps)
               == TakeBatch(buf', next, size + LenAt(buf, pos) + 4, pos, cw, mps)
            && Chain(buf', next, gs[1..], EDCA, fin) && AllFit(gs[1..])
            && next + Total(gs[1..]) == pos + Total(gs)
            && (fin == EDCA_LAST ==> gs[1..] != []))
  {
    hide TakeBatch, LimitReached, TakenFlags, IsLastRound, CckAt, Record, Fits, LenAt;
    assert gs != [];
    var f, flags := gs[0], if |gs| == 1 then fin else EDCA;
    assert RecLen(f) == PktLen(f) + 4;
    hide RecLen, PktLen;
    RecordLen(buf, pos, f, flags);
    AtSetFlags(buf, pos, f, flags, EDCA);
    var next := pos + RecLen(f);
    TakenFlagsOf(next != cw, cw == 8);
    TakeOne(buf, pos, size, lastInfo, cw, mps, f, flags);
    if flags != EDCA_LAST {
      ChainFrame(buf, buf[pos + 3 := OpenFlags(next, false, cw)], next, gs[1..], EDCA, fin);
    }
  }

  /** Whatever the step, a sound or stuck ring stays sound or stuck. */
  lemma StepValid(r: Ring, s: Step, mps: nat)
    requires Sound(r) || Stuck(r)
    requires mps > 0 && (s.Begin? ==> Fits(s.frame))
    ensures Sound(Next(r, s, mps)) || Stuck(Next(r, s, mps))
  {
    hide Good, Next, Stuck;
    if Stuck(r) {
      StuckStays(r, s, mps);
    } else {
      var h :| Good(r, h);
      var h' := NextGood(r, h, s, mps);
    }
  }

  lemma BeginBounds(r: Ring, f: TxFrame)
    requires (Sound(r) || Stuck(r)) && Fits(f)
    ensures CanDoWrite(r) ==> Reserved(r, f).cw + 4 + |f.header| <= |r.buf|
  {
    hide Good, Fits, RecLen;
    if CanDoWrite(r) {
      var h :| Good(r, h);
      ReserveGood(r, h, f);
      FitLen(f);
      GoodSize(r, h);
    }
  }

  lemma CopyBounds(r: Ring)
    requires (Sound(r) || Stuck(r)) && r.writer.Writing? && r.writer.copied < |Tail(r.writer.frame)|
    ensures r.cw + 4 + |r.writer.frame.header| + r.writer.copied < |r.buf|
  {
    hide Good, Tail;
    var h :| Good(r, h);
    CopyArea(r, h);
    GoodSize(r, h);
  }

  lemma GoodSize(r: Ring, h: Hist)
    requires Good(r, h)
    ensures |r.buf| == MAX_TXBULK_SIZE && |r.pad| == 8
  {
  }
}
