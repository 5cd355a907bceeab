/** The USB data transmit ring: a byte buffer filled frame by frame by a writer and emptied batch by
    batch by bulk transfers. Steps are the driver's critical sections; the unlocked payload copy is
    one step per byte, so every interleaving with bulk transfers is covered. */
module TxRing {
  import opened Modular

  const LOCAL_TXBUF_SIZE: nat := 2048
  const MAX_TXBULK_LIMIT: nat := 202752     // LOCAL_TXBUF_SIZE * (BULKAGGRE_ZISE - 1)
  const MAX_TXBULK_SIZE: nat := 204800      // LOCAL_TXBUF_SIZE * BULKAGGRE_ZISE
  const WRAP_RESERVE: nat := 3906

  // ------------------------------------------------------------- frames and records

  /** `header` is TXWI, 802.11 header and header padding; `payload` the source buffer. */
  datatype TxFrame = TxFrame(header: seq<Byte>, payload: seq<Byte>)

  function BodyLen(f: TxFrame): nat { |f.header| + |f.payload| }

  function PadLen(f: TxFrame): nat { (4 - BodyLen(f) % 4) % 4 }

  /** USBDMATxPktLen */
  function PktLen(f: TxFrame): nat { BodyLen(f) + PadLen(f) }

  /** Space one frame takes in the ring, TXINFO included. */
  function RecLen(f: TxFrame): (n: nat)
    ensures n >= 4
  {
    4 + PktLen(f)
  }

  /** The header holds a TXWI, and the record with the 8 bytes before and after it fits a slot. */
  predicate Fits(f: TxFrame) {
    |f.header| >= 16 && RecLen(f) + 16 <= LOCAL_TXBUF_SIZE
  }

  function Zeros(n: nat): (z: seq<Byte>)
    ensures |z| == n && forall i :: 0 <= i < n ==> z[i] == 0
  {
    seq(n, i => 0)
  }

  // Fourth TXINFO byte: WIV, QSEL (2 bits), SwUseLastRound, rsv2 (2 bits), USBDMANextVLD, USBDMATxburst.
  const EDCA: Byte := 4            // QSEL == FIFO_EDCA
  const EDCA_LAST: Byte := 12      // with SwUseLastRound
  const EDCA_NEXT: Byte := 68      // with USBDMANextVLD

  function WithEdca(b: Byte): Byte { b - 2 * ((b / 2) % 4) + 4 }

  predicate IsLastRound(b: Byte) { (b / 8) % 2 == 1 }

  function ClearLastRound(b: Byte): Byte { if IsLastRound(b) then b - 8 else b }

  predicate IsNext(b: Byte) { (b / 64) % 2 == 1 }

  function SetNext(b: Byte): Byte { if IsNext(b) then b else b + 64 }

  function ClearNext(b: Byte): Byte { if IsNext(b) then b - 64 else b }

  function TxInfo(f: TxFrame, flags: Byte): seq<Byte> {
    [PktLen(f) % 256, (PktLen(f) / 256) % 256, 0, flags]
  }

  /** What the writer stores under the lock. */
  function Head(f: TxFrame, flags: Byte): (h: seq<Byte>)
    ensures |h| == 4 + |f.header|
  {
    TxInfo(f, flags) + f.header
  }

  /** What the writer stores without the lock: payload, padding and 8 zero bytes. */
  function Tail(f: TxFrame): (t: seq<Byte>)
    ensures |t| == |f.payload| + PadLen(f) + 8
  {
    f.payload + Zeros(PadLen(f) + 8)
  }

  function Record(f: TxFrame, flags: Byte): (r: seq<Byte>)
    ensures |r| == RecLen(f)
  {
    Head(f, flags) + f.payload + Zeros(PadLen(f))
  }

  // ------------------------------------------------------------- state

  /** The frame being written, whether it is the last before the wrap, and bytes of Tail copied. */
  datatype Writer = Idle | Writing(frame: TxFrame, last: bool, copied: nat)

  datatype Ring = Ring(
    buf: seq<Byte>,
    cw: nat,            // CurWritePosition
    cwr: nat,           // CurWriteRealPos
    nb: nat,            // NextBulkOutPosition
    enb: nat,           // ENextBulkOutPosition
    copyPad: bool,      // bCopySavePad
    pad: seq<Byte>,     // SavedPad
    pending: bool,      // BulkOutPending
    bulkSize: nat,      // BulkOutSize
    writer: Writer,     // Writing exactly while bCurWriting
    accepted: seq<TxFrame>,     // frames whose writer has finished, oldest first
    wire: seq<seq<Byte>>)       // completed transfers, as read from the buffer at completion

  datatype Step = Begin(frame: TxFrame) | Copy | End | Start | Complete

  function Put(buf: seq<Byte>, pos: nat, bytes: seq<Byte>): (r: seq<Byte>)
    ensures |r| == |buf|
    ensures forall i :: 0 <= i < |buf| ==>
      r[i] == if pos <= i < pos + |bytes| then bytes[i - pos] else buf[i]
  {
    seq(|buf|, i requires 0 <= i < |buf| => if pos <= i < pos + |bytes| then bytes[i - pos] else buf[i])
  }

  /** RtmpUSBCanDoWrite */
  predicate CanDoWrite(r: Ring) {
    && !(r.cw < r.nb < r.cw + LOCAL_TXBUF_SIZE)
    && !(r.cw == 8 && r.nb < LOCAL_TXBUF_SIZE)
    && r.writer.Idle?
  }

  /** RTUSBFreeDescriptorRequest */
  predicate HasSpaceFor(r: Ring, required: nat) {
    && !(r.cw < r.nb < r.cw + required + LOCAL_TXBUF_SIZE)
    && !(r.cw == 8 && r.nb < required + LOCAL_TXBUF_SIZE)
    && r.writer.Idle?
  }

  function HeadFlags(last: bool): Byte { if last then EDCA_LAST else EDCA }

  /** The writer's reservation: 8 bytes are skipped when the next transfer would start right here. */
  function Reserved(r: Ring, f: TxFrame): Ring {
    var bump := if r.enb == r.cw then 8 else 0;
    var cw := r.cw + bump;
    r.(cw := cw, enb := r.enb + bump, cwr := cw + 4 + |f.header|,
       writer := Writing(f, cw + WRAP_RESERVE + RecLen(f) > MAX_TXBULK_LIMIT, 0))
  }

  /** First critical section of RtmpUSB_WriteSingleTxResource; a refused frame is discarded. */
  function BeginStep(r: Ring, f: TxFrame): Ring {
    if !CanDoWrite(r) then r
    else
      var q := Reserved(r, f);
      q.(buf := Put(q.buf, q.cw, Head(f, HeadFlags(q.writer.last))))
  }

  /** One byte of the unlocked copy. */
  function CopyStep(r: Ring): Ring {
    if r.writer.Idle? || r.writer.copied >= |Tail(r.writer.frame)| then r
    else
      var w := r.writer;
      r.(buf := Put(r.buf, r.cw + 4 + |w.frame.header| + w.copied, [Tail(w.frame)[w.copied]]),
         writer := w.(copied := w.copied + 1))
  }

  /** Second critical section of RtmpUSB_WriteSingleTxResource. */
  function EndStep(r: Ring): Ring {
    if r.writer.Idle? || r.writer.copied < |Tail(r.writer.frame)| then r
    else
      var cw := if r.writer.last then 8 else r.cw + RecLen(r.writer.frame);
      r.(cw := cw, cwr := cw, writer := Idle, accepted := r.accepted + [r.writer.frame])
  }

  // ------------------------------------------------------------- bulk-out

  function LenAt(buf: seq<Byte>, pos: nat): nat
    requires pos + 8 <= |buf|
  {
    buf[pos] as int + 256 * (buf[pos + 1] as int)
  }

  /** PHYMODE of the TXWI that follows the TXINFO at `pos` is MODE_CCK. */
  predicate CckAt(buf: seq<Byte>, pos: nat)
    requires pos + 8 <= |buf|
  {
    buf[pos + 7] / 64 == 0
  }

  /** The size limits of the batching loop; `mps` is BulkOutMaxPacketSize. */
  predicate LimitReached(size: nat, cck: bool, mps: nat) {
    || size >= 0x8000
    || (mps < 512 && size >= 0x800)
    || if size != 0 && cck then (size / 0x1000) % 2 == 1 else (size / 0x2000) % 4 == 3
  }

  /** TXINFO flags of a record taken into the transfer; `more` when data follows it. */
  function TakenFlags(b: Byte, more: bool, atStart: bool): Byte {
    var b1 := WithEdca(b);
    var b2 := if more then SetNext(b1) else b1;
    if IsLastRound(b) then ClearLastRound(if atStart then ClearNext(b2) else b2) else b2
  }

  datatype Batch = Batch(buf: seq<Byte>, end: nat, size: nat, lastInfo: int, wrapped: bool, bad: bool)

  /** The batching loop of RTUSBBulkOutDataPacket, from position `pos` with `size` bytes taken. */
  function TakeBatch(buf: seq<Byte>, pos: nat, size: nat, lastInfo: int, cw: nat, mps: nat): (b: Batch)
    ensures |b.buf| == |buf|
    ensures b.lastInfo == lastInfo || 0 <= b.lastInfo <= |buf| - 8
    decreases |buf| - pos
  {
    if pos + 8 > |buf| || LimitReached(size, CckAt(buf, pos), mps) || pos == cw then
      Batch(buf, pos, size, lastInfo, false, false)
    else if LenAt(buf, pos) <= 8 then
      Batch(buf, pos, size, lastInfo, false, true)
    else
      var next := pos + LenAt(buf, pos) + 4;
      var buf' := buf[pos + 3 := TakenFlags(buf[pos + 3], next != cw, cw == 8)];
      if IsLastRound(buf[pos + 3]) then
        Batch(buf', next, size + LenAt(buf, pos) + 4, pos, true, false)
      else
        TakeBatch(buf', next, size + LenAt(buf, pos) + 4, pos, cw, mps)
  }

  predicate LooksEmpty(r: Ring) {
    r.enb == r.cw || r.enb == r.cw + 8
  }

  /** The buffer with the saved bytes back in place. */
  function Restored(r: Ring): (b: seq<Byte>)
    ensures |b| == |r.buf|
  {
    if r.copyPad then Put(r.buf, r.enb, r.pad) else r.buf
  }

  /** 4 bytes of padding, 8 when the transfer would otherwise end on a packet boundary. */
  function TransferSize(size: nat, mps: nat): nat
    requires mps > 0
  {
    if (size + 4) % mps == 0 then size + 8 else size + 4
  }

  function Slice8(buf: seq<Byte>, pos: nat): (s: seq<Byte>)
    ensures |s| == 8
  {
    seq(8, i requires 0 <= i < 8 => if pos + i < |buf| then buf[pos + i] else 0)
  }

  /** The buffer once USBDMANextVLD of the last record taken has been cleared. */
  function Closed(b: Batch): (buf: seq<Byte>)
    ensures |buf| == |b.buf|
  {
    if 0 <= b.lastInfo && b.lastInfo + 3 < |b.buf| then
      b.buf[b.lastInfo + 3 := ClearNext(b.buf[b.lastInfo + 3])]
    else
      b.buf
  }

  /** Save the 8 bytes after the transfer if they belong to a record, zero them, and submit. */
  function Launch(r: Ring, b: Batch, mps: nat): Ring
    requires mps > 0
  {
    var enb := if b.wrapped then 8 else b.end;
    var save := !b.wrapped && (enb != r.cw || r.cwr > r.cw);
    r.(nb := r.enb,
       enb := enb,
       copyPad := save,
       pad := if save then Slice8(Closed(b), enb) else r.pad,
       buf := Put(Closed(b), b.end, Zeros(8)),
       bulkSize := TransferSize(b.size, mps),
       pending := true)
  }

  /** RTUSBBulkOutDataPacket, up to the submission of the transfer. */
  function StartStep(r: Ring, mps: nat): Ring
    requires mps > 0
  {
    if r.pending || LooksEmpty(r) then r
    else
      var b := TakeBatch(Restored(r), r.enb, 0, -1, r.cw, mps);
      if b.bad then r.(nb := r.enb, buf := b.buf, copyPad := false) else Launch(r, b, mps)
  }

  /** Successful completion: the device has read the whole region. */
  function CompleteStep(r: Ring): Ring {
    if !r.pending then r
    else r.(pending := false, wire := r.wire + [Region(r.buf, r.nb, r.bulkSize)])
  }

  function Region(buf: seq<Byte>, pos: nat, n: nat): seq<Byte> {
    if pos + n <= |buf| then buf[pos..pos + n] else []
  }

  function Next(r: Ring, s: Step, mps: nat): Ring
    requires mps > 0
  {
    match s
    case Begin(f) => BeginStep(r, f)
    case Copy => CopyStep(r)
    case End => EndStep(r)
    case Start => StartStep(r, mps)
    case Complete => CompleteStep(r)
  }

  function Run(r: Ring, ss: seq<Step>, mps: nat): Ring
    requires mps > 0
    decreases |ss|
  {
    if ss == [] then r else Run(Next(r, ss[0], mps), ss[1..], mps)
  }

  /** Cursors as NICInitTransmit sets them; the buffer content is arbitrary. */
  predicate Initial(r: Ring) {
    && |r.buf| == MAX_TXBULK_SIZE && |r.pad| == 8
    && r.cw == r.cwr == r.nb == r.enb == 0
    && !r.copyPad && !r.pending && r.writer == Idle
    && r.accepted == [] && r.wire == []
  }
}
