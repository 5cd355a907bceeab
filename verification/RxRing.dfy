/** The records of a bulk-in buffer, as GetPacketFromRxRing of common/2870_rtmp_init.c reads them. */
module RxParse {
  import opened Modular
  import opened Options

  /** One record: a length field whose upper two bytes are unused, RXWI with the MPDU, RXINFO. */
  datatype Record = Record(spare: (Byte, Byte), frame: seq<Byte>, info: seq<Byte>)

  /** RXWI.MPDUtotalByteCount: bits 16 to 27 of the first word. */
  function MpduCount(frame: seq<Byte>): nat
    requires |frame| >= 4
  {
    frame[2] as int + 256 * (frame[3] as int % 16)
  }

  /** What the device promises of a record. */
  predicate WellFormed(r: Record) {
    16 <= |r.frame| < 0x1_0000 && |r.frame| % 4 == 0 && |r.info| == 4 && MpduCount(r.frame) <= |r.frame|
  }

  function Encode(r: Record): (b: seq<Byte>)
    requires WellFormed(r)
    ensures |b| == |r.frame| + 8
  {
    [(|r.frame| % 256) as Byte, (|r.frame| / 256) as Byte, r.spare.0, r.spare.1] + r.frame + r.info
  }

  function EncodeAll(rs: seq<Record>): seq<Byte>
    requires forall i :: 0 <= i < |rs| ==> WellFormed(rs[i])
  {
    if rs == [] then [] else Encode(rs[0]) + EncodeAll(rs[1..])
  }

  /** The record at pos, if the checks of the code pass. */
  function Next(b: seq<Byte>, pos: nat): (r: Option<Record>)
    requires pos <= |b|
    ensures r.Some? ==> pos + |r.value.frame| + 8 <= |b|
  {
    if |b| - pos < 24 then None
    else
      var len := b[pos] as int + 256 * b[pos + 1] as int;
      if len == 0 || len % 4 != 0 || len + 8 > |b| - pos then None
      else if MpduCount(b[pos + 4..]) > len then None
      else Some(Record((b[pos + 2], b[pos + 3]), b[pos + 4..pos + 4 + len], b[pos + 4 + len..pos + 8 + len]))
  }

  /** A record is found exactly if 24 bytes are left, its length is a multiple of four but 0, it fits with
      its 8 bytes of framing, and the 12-bit MPDU count of its RXWI does not exceed it. */
  lemma NextIff(b: seq<Byte>, pos: nat)
    requires pos <= |b|
    ensures Next(b, pos).Some? <==>
            && pos + 24 <= |b|
            && var len, mpdu := b[pos] as int + 256 * b[pos + 1] as int, b[pos + 6] as int + 256 * b[pos + 7] as int;
               len % 4 == 0 && len > 0 && pos + len + 8 <= |b| && mpdu % 0x1000 <= len
  {
    if pos + 24 <= |b| {
      assert b[pos + 4..][2] == b[pos + 6] && b[pos + 4..][3] == b[pos + 7];
      TwelveBits(b[pos + 6], b[pos + 7]);
    }
  }

  lemma TwelveBits(x: Byte, y: Byte)
    ensures x as int + 256 * (y as int % 16) == (x as int + 256 * y as int) % 0x1000
  {
  }

  /** Repeated reading from pos until no record is found. */
  function Drain(b: seq<Byte>, pos: nat): seq<Record>
    requires pos <= |b|
    decreases |b| - pos
  {
    var r := Next(b, pos);
    if r.None? then [] else [r.value] + Drain(b, pos + |r.value.frame| + 8)
  }

  /** The first n of the records, or all if there are fewer. */
  function First(rs: seq<Record>, n: nat): seq<Record> { if n < |rs| then rs[..n] else rs }

  lemma NextEncoded(a: seq<Byte>, r: Record, c: seq<Byte>)
    requires WellFormed(r)
    ensures Next(a + Encode(r) + c, |a|) == Some(r)
  {
    var b := a + Encode(r) + c;
    var pos, len := |a|, |r.frame|;
    var e := Encode(r);
    assert b[pos..pos + len + 8] == e;
    assert b[pos] == e[0] && b[pos + 1] == e[1] && b[pos + 2] == e[2] && b[pos + 3] == e[3];
    assert b[pos + 4..pos + 4 + len] == e[4..4 + len] == r.frame;
    assert b[pos + 4 + len..pos + 8 + len] == e[4 + len..] == r.info;
    assert b[pos + 4..][2] == r.frame[2] && b[pos + 4..][3] == r.frame[3];
  }

  /** Draining a buffer of well-formed records recovers exactly those records. */
  lemma {:induction false} DrainEncoded(a: seq<Byte>, rs: seq<Record>)
    requires forall i :: 0 <= i < |rs| ==> WellFormed(rs[i])
    ensures Drain(a + EncodeAll(rs), |a|) == rs
    decreases |rs|
  {
    hide Encode, Next;
    var b := a + EncodeAll(rs);
    if rs != [] {
      var r, rest := rs[0], rs[1..];
      assert b == a + Encode(r) + EncodeAll(rest);
      NextEncoded(a, r, EncodeAll(rest));
      DrainEncoded(a + Encode(r), rest);
      assert rs == [r] + rest;
    } else {
      assert b == a;
      NextAtEnd(a);
    }
  }

  lemma NextAtEnd(b: seq<Byte>)
    ensures Next(b, |b|) == None
  {
  }

  /** Whatever the buffer holds, the records read are well-formed apart from their size, and are laid
      out one after the other from pos on. */
  lemma NextIsThere(b: seq<Byte>, pos: nat)
    requires pos <= |b| && Next(b, pos).Some?
    ensures var r := Next(b, pos).value;
            |r.frame| % 4 == 0 && 0 < |r.frame| < 0x1_0000 && |r.info| == 4 && pos + |r.frame| + 8 <= |b| &&
            b[pos..pos + |r.frame| + 8]
            == [(|r.frame| % 256) as Byte, (|r.frame| / 256) as Byte, r.spare.0, r.spare.1] + r.frame + r.info
  {
    var r := Next(b, pos).value;
    var len := |r.frame|;
    assert len == b[pos] as int + 256 * b[pos + 1] as int;
    assert b[pos..pos + len + 8] == [b[pos], b[pos + 1], b[pos + 2],
           b[pos + 3]] + b[pos + 4..pos + 4 + len] + b[pos + 4 + len..pos + 8 + len];
  }
}

/** The ring of eight receive contexts of common/rtusb_bulk.c, filled by bulk-in transfers and
    drained in order. */
module RxRingSpec {
  import opened Modular
  import opened Options
  import opened RxParse

  /** The flags of an RX_CONTEXT, and the BulkInOffset bytes received in it. */
  datatype Ctx = Ctx(inUse: bool, readable: bool, handling: bool, data: seq<Byte>)

  const IDLE := Ctx(false, false, false, [])

  /** A buffer that has been read, the records found, and whether reading went on to its end. */
  datatype Done = Done(data: seq<Byte>, records: seq<Record>, all: bool)

  /** The contexts, NextRxBulkInIndex, NextRxBulkInReadIndex, PendingRx and ReadPosition; the context
      the device is filling; how many buffers wait; every buffer received; what was read of those
      handled, and of the one being handled. */
  datatype Ring = Ring(ctx: seq<Ctx>, fill: nat, read: nat, pending: nat, pos: nat, flight: Option<nat>, count: nat,
                       received: seq<seq<Byte>>, done: seq<Done>, current: seq<Record>)

  const INITIAL := Ring(seq(8, _ => IDLE), 0, 0, 0, 0, None, 0, [], [], [])

  datatype Event = BulkIn(ok: bool) | Received(data: seq<Byte>) | Start | Packet(memory: bool) | End

  predicate Shape(r: Ring) { |r.ctx| == 8 && r.fill < 8 && r.read < 8 && (r.flight.Some? ==> r.flight.value < 8) }

  // ------------------------------------------------------------- steps

  /** DoBulkIn; ok is whether the device takes the URB. */
  function BulkInStep(r: Ring, ok: bool): Ring
    requires Shape(r)
  {
    var c := r.ctx[r.fill];
    if r.pending > 0 || c.readable || c.inUse || !ok then r
    else r.(ctx := r.ctx[r.fill := c.(inUse := true)], pending := r.pending + 1, flight := Some(r.fill))
  }

  /** rx_done_tasklet for a successful transfer of the given bytes; none at all leaves the context to
      be used again. */
  function ReceivedStep(r: Ring, data: seq<Byte>): Ring
    requires Shape(r)
  {
    if r.flight.None? || r.pending == 0 then r
    else
      var c := r.ctx[r.flight.value].(inUse := false, data := r.ctx[r.flight.value].data + data);
      var n := r.(pending := r.pending - 1, flight := None);
      if c.data == [] then n.(ctx := r.ctx[r.flight.value := c])
      else n.(ctx := r.ctx[r.flight.value := c.(readable := true)], fill := Ix(8, r.fill, 1), count := r.count + 1,
              received := r.received + [c.data])
  }

  /** RTUSBBulkReceive takes the next readable context. */
  function StartStep(r: Ring): Ring
    requires Shape(r)
  {
    var c := r.ctx[r.read];
    if c.inUse || !c.readable || c.handling then r else r.(ctx := r.ctx[r.read := c.(handling := true)])
  }

  /** GetPacketFromRxRing; memory is whether a packet can be allocated. */
  function PacketStep(r: Ring, memory: bool): Ring
    requires Shape(r)
  {
    var c := r.ctx[r.read];
    if !c.handling || !c.readable || c.inUse || r.pos > |c.data| || !memory || Next(c.data, r.pos).None? then r
    else
      var x := Next(c.data, r.pos).value;
      r.(pos := r.pos + |x.frame| + 8, current := r.current + [x])
  }

  /** RTUSBBulkReceive gives the context back. */
  function EndStep(r: Ring): Ring
    requires Shape(r)
  {
    var c := r.ctx[r.read];
    if !c.handling || r.count == 0 then r
    else r.(ctx := r.ctx[r.read := c.(data := [], readable := false, handling := false)], pos := 0,
      read := Ix(8, r.read, 1),
            count := r.count - 1, current := [],
            done := r.done + [Done(c.data, r.current, r.pos <= |c.data| && Next(c.data, r.pos).None?)])
  }

  // ------------------------------------------------------------- the invariant

  function At(r: Ring, j: nat): Ctx
    requires |r.ctx| == 8
  {
    r.ctx[Ix(8, r.read, j)]
  }

  /** What the j-th context from the read index on must be. */
  ghost predicate Right(r: Ring, j: nat)
    requires |r.ctx| == 8 && r.count <= |r.received|
  {
    var c := At(r, j);
    && c.readable == (j < r.count)
    && c.data == (if j < r.count then r.received[|r.received| - r.count + j] else [])
    && c.inUse == (r.flight.Some? && j == r.count)
    && (c.handling ==> j == 0 && j < r.count)
  }

  /** What has been read of the buffer at hand is the beginning of its records. */
  ghost predicate Reading(r: Ring)
    requires |r.ctx| == 8
  {
    var c := At(r, 0);
    if c.handling then r.pos <= |c.data| && Drain(c.data, 0) == r.current + Drain(c.data, r.pos)
    else r.pos == 0 && r.current == []
  }

  ghost predicate ReadRight(d: Done) { d.records <= Drain(d.data, 0) && (d.all ==> d.records == Drain(d.data, 0)) }

  ghost predicate Inv(r: Ring) {
    && Shape(r) && r.count <= 8 && r.fill == Ix(8, r.read, r.count) && |r.done| + r.count == |r.received|
    && (forall j :: 0 <= j < 8 ==> Right(r, j))
    && (r.flight.Some? ==> r.flight.value == r.fill && r.count < 8) && r.pending == (if r.flight.Some? then 1 else 0)
    && Reading(r)
    && (forall i :: 0 <= i < |r.done| ==> r.done[i].data == r.received[i] && ReadRight(r.done[i]))
  }

  lemma InitialInv()
    ensures Inv(INITIAL)
  {
  }

  lemma BulkInKeeps(r: Ring, ok: bool)
    requires Inv(r)
    ensures Inv(BulkInStep(r, ok))
  {
    hide Ix, Drain, ReadRight;
    var n := BulkInStep(r, ok);
    if n != r {
      IxWrap(8, r.read);
      assert Right(r, 0);
      assert r.count < 8;
      forall j | 0 <= j < 8
        ensures Right(n, j)
      {
        assert Right(r, j);
        if j != r.count {
          IxDistinct(8, r.read, j, r.count);
        }
      }
    }
  }

  lemma ReceivedKeeps(r: Ring, data: seq<Byte>)
    requires Inv(r)
    ensures Inv(ReceivedStep(r, data))
  {
    hide Ix, Drain, ReadRight;
    var n := ReceivedStep(r, data);
    if r.flight.Some? {
      IxSum(8, r.read, r.count, 1);
      assert Right(r, r.count);
      forall j | 0 <= j < 8
        ensures Right(n, j)
      {
        assert Right(r, j);
        if j != r.count {
          IxDistinct(8, r.read, j, r.count);
        }
      }
      assert Right(r, 0) && Right(n, 0);
      assert forall i :: 0 <= i < |n.done| ==> n.received[i] == r.received[i];
    }
  }

  lemma StartKeeps(r: Ring)
    requires Inv(r)
    ensures Inv(StartStep(r))
  {
    hide Ix, ReadRight;
    var n := StartStep(r);
    if n != r {
      IxWrap(8, r.read);
      assert Right(r, 0);
      forall j | 0 <= j < 8
        ensures Right(n, j)
      {
        assert Right(r, j);
        if j != 0 {
          IxDistinct(8, r.read, j, 0);
        }
      }
      assert Drain(At(r, 0).data, 0) == [] + Drain(At(r, 0).data, 0);
    }
  }

  lemma PacketKeeps(r: Ring, memory: bool)
    requires Inv(r)
    ensures Inv(PacketStep(r, memory))
  {
    hide Ix, ReadRight, Next;
    var n := PacketStep(r, memory);
    if n != r {
      IxWrap(8, r.read);
      forall j | 0 <= j < 8
        ensures Right(n, j)
      {
        assert Right(r, j);
      }
      var b := At(r, 0).data;
      assert r.current + ([Next(b, r.pos).value] + Drain(b, n.pos)) == n.current + Drain(b, n.pos);
    }
  }

  lemma DrainEnd(b: seq<Byte>, pos: nat)
    requires pos <= |b|
    ensures Next(b, pos).None? <==> Drain(b, pos) == []
  {
    hide Next;
  }

  lemma EndKeeps(r: Ring)
    requires Inv(r)
    ensures Inv(EndStep(r))
  {
    hide Ix, Next, Drain;
    var n := EndStep(r);
    if n != r {
      IxWrap(8, r.read);
      DrainEnd(At(r, 0).data, r.pos);
      IxSum(8, r.read, 1, r.count - 1);
      assert Right(r, 0);
      forall j | 0 <= j < 8
        ensures Right(n, j)
      {
        IxSum(8, r.read, 1, j);
        if j < 7 {
          assert Right(r, j + 1);
          IxDistinct(8, r.read, j + 1, 0);
        }
      }
      assert Right(n, 0);
      assert ReadRight(n.done[|r.done|]);
    }
  }

  // ------------------------------------------------------------- runs

  function Step(r: Ring, e: Event): Ring
    requires Shape(r)
  {
    match e
    case BulkIn(ok) => BulkInStep(r, ok)
    case Received(data) => ReceivedStep(r, data)
    case Start => StartStep(r)
    case Packet(memory) => PacketStep(r, memory)
    case End => EndStep(r)
  }

  lemma StepKeeps(r: Ring, e: Event)
    requires Inv(r)
    ensures Inv(Step(r, e))
  {
    hide Inv, BulkInStep, ReceivedStep, StartStep, PacketStep, EndStep;
    match e
    case BulkIn(ok) => BulkInKeeps(r, ok);
    case Received(data) => ReceivedKeeps(r, data);
    case Start => StartKeeps(r);
    case Packet(memory) => PacketKeeps(r, memory);
    case End => EndKeeps(r);
  }

  ghost function Run(r: Ring, es: seq<Event>): (n: Ring)
    requires Inv(r)
    ensures Inv(n)
    decreases |es|
  {
    if es == [] then r else
      StepKeeps(r, es[0]);
      Run(Step(r, es[0]), es[1..])
  }

  /** The readable contexts are those from the read index up to the fill index; at most one transfer is
      pending, into the fill index; buffers are handled in the order they were received, and of each
      the records read are the first ones it holds, all of them when reading went on to its end. */
  ghost predicate Sound(r: Ring) {
    && Shape(r) && r.count <= 8 && r.fill == Ix(8, r.read, r.count) && r.pending <= 1
    && (forall j :: 0 <= j < 8 ==> (At(r, j).readable <==> j < r.count))
    && (r.flight.Some? ==> r.flight.value == r.fill && !r.ctx[r.fill].readable)
    && |r.done| <= |r.received|
    && (forall i :: 0 <= i < |r.done| ==> r.done[i].data == r.received[i] && ReadRight(r.done[i]))
  }

  lemma InvSound(r: Ring)
    requires Inv(r)
    ensures Sound(r)
  {
    hide Ix, ReadRight;
    forall j | 0 <= j < 8
      ensures At(r, j).readable <==> j < r.count
    {
      assert Right(r, j);
    }
    assert r.count < 8 ==> Right(r, r.count);
  }

  /** Every state reachable from the initialised ring is sound. */
  lemma AlwaysSound(es: seq<Event>)
    ensures Inv(INITIAL) && Sound(Run(INITIAL, es))
  {
    InitialInv();
    InvSound(Run(INITIAL, es));
  }

  // ------------------------------------------------------------- what the steps achieve

  /** A transfer is started exactly if none is out, a context is free and the device takes the URB; it goes
      into the first context after the waiting ones. */
  lemma BulkInStarts(r: Ring, ok: bool)
    requires Inv(r)
    ensures var n := BulkInStep(r, ok);
            if r.flight.None? && r.count < 8 && ok then
              n.flight == Some(Ix(8, r.read, r.count)) && n.pending == 1 && n.received == r.received
            else n == r
  {
    hide Ix, Drain, ReadRight;
    if r.count < 8 {
      assert Right(r, r.count);
    } else {
      IxWrap(8, r.read);
      assert Right(r, 0);
    }
  }

  /** A transfer that brings bytes ends up as the last of the waiting buffers, with exactly those bytes; an
      empty one leaves no trace. */
  lemma ReceivedStores(r: Ring, data: seq<Byte>)
    requires Inv(r) && r.flight.Some?
    ensures var n := ReceivedStep(r, data);
            && n.flight.None? && n.pending == 0
            && (data != [] ==>
                  && n.received == r.received + [data] && n.count == r.count + 1
                  && At(n, r.count).readable && At(n, r.count).data == data && n.fill == Ix(8, r.read, r.count + 1))
            && (data == [] ==> n.received == r.received && n.count == r.count && n.fill == r.fill)
  {
    hide Ix, Drain, ReadRight;
    assert Right(r, r.count);
    assert [] + data == data;
    IxSum(8, r.read, r.count, 1);
  }

  /** A waiting buffer is taken up exactly if there is one, and the oldest first. */
  lemma StartTakes(r: Ring)
    requires Inv(r) && !r.ctx[r.read].handling
    ensures var n := StartStep(r);
            && (n.ctx[n.read].handling <==> r.count > 0) && n.read == r.read
            && (r.count > 0 ==> n.ctx[n.read].data == r.received[|r.received| - r.count])
  {
    hide Ix, Drain, ReadRight;
    IxWrap(8, r.read);
    assert Right(r, 0);
  }

  /** With memory the next record of the buffer is read, and the position moves behind it; otherwise nothing
      changes. */
  lemma PacketReads(r: Ring, memory: bool)
    requires Inv(r) && r.ctx[r.read].handling
    ensures var b, n := r.ctx[r.read].data, PacketStep(r, memory);
            && 0 < r.count <= |r.received| && b == r.received[|r.received| - r.count] && r.pos <= |b|
            && if memory && Next(b, r.pos).Some? then
                 var x := Next(b, r.pos).value;
                 n.current == r.current + [x] && n.pos == r.pos + |x.frame| + 8 && n.read == r.read
               else n == r
  {
    hide Ix, Drain, ReadRight, Next;
    IxWrap(8, r.read);
    assert Right(r, 0);
  }

  /** A buffer that was taken up is given back: one fewer waits, and what was read of it is on record. */
  lemma EndGivesBack(r: Ring)
    requires Inv(r) && r.ctx[r.read].handling
    ensures var n := EndStep(r);
            && n.count == r.count - 1 && n.read == Ix(8, r.read, 1) && n.received == r.received
            && |n.done| == |r.done| + 1 && n.done[..|r.done|] == r.done
            && n.done[|r.done|].data == r.received[|r.received| - r.count] && n.done[|r.done|].records == r.current
  {
    hide Ix, Drain, ReadRight, Next;
    IxWrap(8, r.read);
    assert Right(r, 0);
  }

  /** The non-empty data of the transfers that complete in the run. */
  ghost function Transferred(r: Ring, es: seq<Event>): seq<seq<Byte>>
    requires Inv(r)
    decreases |es|
  {
    if es == [] then [] else
      StepKeeps(r, es[0]);
      (if es[0].Received? && r.flight.Some? && es[0].data != [] then [es[0].data] else [])
      + Transferred(Step(r, es[0]), es[1..])
  }

  lemma StepTransfers(r: Ring, e: Event)
    requires Inv(r)
    ensures Step(r, e).received
            == r.received + if e.Received? && r.flight.Some? && e.data != [] then [e.data] else []
  {
    hide Inv;
    ShapeOf(r);
    hide Ix, Drain, Next, ReceivedStep;
    if e.Received? {
      if r.flight.Some? {
        ReceivedStores(r, e.data);
      } else {
        NothingReceived(r, e.data);
      }
    }
  }

  lemma ShapeOf(r: Ring)
    requires Inv(r)
    ensures Shape(r)
  {
  }

  lemma NothingReceived(r: Ring, data: seq<Byte>)
    requires Shape(r) && r.flight.None?
    ensures ReceivedStep(r, data) == r
  {
  }

  /** Over every run the buffers received are exactly the non-empty data the device delivered, in order. */
  lemma {:induction false} ReceivedExactly(r: Ring, es: seq<Event>)
    requires Inv(r)
    ensures Run(r, es).received == r.received + Transferred(r, es)
    decreases |es|
  {
    hide Inv, Step;
    if es == [] {
    } else {
      ShapeOf(r);
      StepKeeps(r, es[0]);
      StepTransfers(r, es[0]);
      ReceivedExactly(Step(r, es[0]), es[1..]);
    }
  }

  /** A buffer of well-formed records that was read to its end gave exactly those records. */
  lemma RecordsRecovered(r: Ring, i: nat, rs: seq<Record>)
    requires Sound(r) && i < |r.done| && r.done[i].all
    requires (forall j :: 0 <= j < |rs| ==> WellFormed(rs[j])) && r.received[i] == EncodeAll(rs)
    ensures r.done[i].records == rs
  {
    hide Ix, EncodeAll, Drain;
    DrainEncoded([], rs);
    assert [] + EncodeAll(rs) == EncodeAll(rs);
  }

  /** End to end: the i-th buffer handled was the i-th non-empty one the device delivered, and read to its
      end it gave the records that were encoded in it. */
  lemma RecordsDelivered(es: seq<Event>, i: nat, rs: seq<Record>)
    requires Inv(INITIAL) && i < |Run(INITIAL, es).done| && Run(INITIAL, es).done[i].all
    requires forall j :: 0 <= j < |rs| ==> WellFormed(rs[j])
    requires i < |Transferred(INITIAL, es)| && Transferred(INITIAL, es)[i] == EncodeAll(rs)
    ensures Run(INITIAL, es).done[i].records == rs
  {
    hide Run, Transferred, EncodeAll, Sound, Inv;
    AlwaysSound(es);
    ReceivedExactly(INITIAL, es);
    assert INITIAL.received + Transferred(INITIAL, es) == Transferred(INITIAL, es);
    RecordsRecovered(Run(INITIAL, es), i, rs);
  }
}

/** The receive path as the driver updates it. What the device holds and the logs are for
    specification. */
module RxRing {
  import opened Modular
  import opened Options
  import opened RxParse
  import opened RxRingSpec

  class Rx {
    const ctx: array<Ctx>
    var fill: nat
    var read: nat
    var pending: nat
    var pos: nat
    ghost var flight: Option<nat>
    ghost var count: nat
    ghost var received: seq<seq<Byte>>
    ghost var done: seq<Done>
    ghost var current: seq<Record>

    ghost function View(): Ring
      reads this, ctx
    {
      Ring(ctx[..], fill, read, pending, pos, flight, count, received, done, current)
    }

    ghost predicate Valid()
      reads this, ctx
    {
      Inv(View())
    }

    constructor ()
      ensures Valid() && View() == INITIAL && fresh(ctx)
    {
      ctx := new Ctx[8](_ => IDLE);
      fill, read, pending, pos := 0, 0, 0, 0;
      flight, count, received, done, current := None, 0, [], [], [];
      new;
      assert ctx[..] == INITIAL.ctx;
      InitialInv();
    }

    /** DoBulkIn */
    method BulkIn(ok: bool)
      requires Valid()
      modifies this, ctx
      ensures Valid() && View() == BulkInStep(old(View()), ok)
    {
      hide Inv, Ix, Drain;
      InvSound(View());
      BulkInKeeps(View(), ok);
      ghost var was := ctx[..];
      if pending > 0 || ctx[fill].readable || ctx[fill].inUse {
        return;
      }
      ctx[fill] := ctx[fill].(inUse := true);
      pending := pending + 1;
      if !ok {
        ctx[fill] := ctx[fill].(inUse := false);
        pending := pending - 1;
        assert ctx[..] == was;
        return;
      }
      flight := Some(fill);
    }

    /** rx_done_tasklet up to its call of RTUSBBulkReceive, for a transfer into context i. */
    method Received(i: nat, data: seq<Byte>)
      requires Valid() && flight == Some(i)
      modifies this, ctx
      ensures Valid() && View() == ReceivedStep(old(View()), data)
    {
      hide Inv, Ix;
      ghost var v := View();
      FlightPending(v);
      ReceivedKeeps(v, data);
      ctx[i] := ctx[i].(inUse := false);
      ctx[i] := ctx[i].(data := ctx[i].data + data);
      pending := pending - 1;
      if |ctx[i].data| != 0 {
        ctx[i] := ctx[i].(readable := true);
        fill := Ix(8, fill, 1);
        count, received := count + 1, received + [ctx[i].data];
      }
      flight := None;
      assert View() == ReceivedStep(v, data);
    }

    /** GetPacketFromRxRing */
    method GetPacket(memory: bool) returns (p: Option<Record>)
      requires Valid() && ctx[read].handling
      modifies this
      ensures Valid() && View() == PacketStep(old(View()), memory)
      ensures p == if memory then Next(old(ctx[read].data), old(pos)) else None
      ensures p.Some? ==> current == old(current) + [p.value] && pos > old(pos)
      ensures pos <= |ctx[read].data|
    {
      hide Ix, Drain, ReadRight;
      PacketKeeps(View(), memory);
      HandlingHead(View());
      var b := ctx[read].data;
      p := None;
      if |b| - pos < 24 {
        return;
      }
      var len := b[pos] as int + 256 * b[pos + 1] as int;
      if len == 0 || len % 4 != 0 || len + 8 > |b| - pos {
        return;
      }
      if MpduCount(b[pos + 4..]) > len || !memory {
        return;
      }
      p := Some(Record((b[pos + 2], b[pos + 3]), b[pos + 4..pos + 4 + len], b[pos + 4 + len..pos + 8 + len]));
      pos := pos + len + 8;
      current := current + [p.value];
    }

    /** One turn of the loop of RTUSBBulkReceive: the oldest waiting buffer, if any, is read and given
        back. */
    method HandleOne(budget: nat) returns (some: bool, records: seq<Record>)
      requires Valid() && !ctx[read].handling
      modifies this, ctx
      ensures Valid() && !ctx[read].handling
      ensures some <==> old(count) > 0
      ensures received == old(received) && count == old(count) - (if some then 1 else 0)
      ensures some ==>
                var b := old(received[|received| - count]);
                && records == First(Drain(b, 0), budget)
                && done == old(done) + [Done(b, records, |Drain(b, 0)| <= budget)]
      ensures !some ==> done == old(done) && records == []
      ensures flight == old(flight) && pending == old(pending)
    {
      hide Ix, Drain, First, ReadRight, Next, Right, Reading;
      records := [];
      HeadOf(View());
      some := !ctx[read].inUse && ctx[read].readable && !ctx[read].handling;
      if !some {
        return;
      }
      StartKeeps(View());
      ctx[read] := ctx[read].(handling := true);
      ghost var b := ctx[read].data;
      records := ReadRecords(b, budget);
      HandlingHead(View());
      GiveBack();
      HeadOf(View());
    }

    /** The context that was read is given back. */
    method GiveBack()
      requires Valid() && ctx[read].handling
      modifies this, ctx
      ensures Valid() && View() == EndStep(old(View()))
    {
      hide Ix, Drain, ReadRight, Next;
      ghost var v := View();
      EndKeeps(v);
      HandlingHead(v);
      ghost var b := ctx[read].data;
      ctx[read] := ctx[read].(data := []);
      ctx[read] := ctx[read].(readable := false, handling := false);
      done := done + [Done(b, current, pos <= |b| && Next(b, pos).None?)];
      pos := 0;
      count, current := count - 1, [];
      read := Ix(8, read, 1);
      assert View() == EndStep(v);
    }

    /** RTUSBBulkReceive: every waiting buffer is read in order, the k-th of them for budget(k)
        packets or to its end, and the next transfer is started. stopHandle and stopRx are the flags
        NEED_STOP_HANDLE_RX and NEED_STOP_RX; ok is whether the device takes the URB. */
    method BulkReceive(stopHandle: bool, stopRx: bool, ok: bool, budget: nat -> nat)
      requires Valid() && !ctx[read].handling
      modifies this, ctx
      ensures Valid() && received == old(received) && old(done) <= done
      ensures if stopHandle then View() == old(View()) else |done| == |received|
      ensures forall i :: |old(done)| <= i < |done| ==>
                && done[i].data == received[i]
                && done[i].records == First(Drain(received[i], 0), budget(i - |old(done)|))
                && (done[i].all <==> |Drain(received[i], 0)| <= budget(i - |old(done)|))
      ensures stopRx ==> flight == old(flight) && pending == old(pending)
    {
      hide Ix, Drain, First, Right, Reading, Next;
      if stopHandle {
        return;
      }
      var n := 0;
      while true
        invariant Valid() && !ctx[read].handling && received == old(received) && old(done) <= done
        invariant flight == old(flight) && pending == old(pending) && n == |done| - |old(done)|
        invariant forall i :: |old(done)| <= i < |done| ==>
                    && done[i].data == received[i]
                    && done[i].records == First(Drain(received[i], 0), budget(i - |old(done)|))
                    && (done[i].all <==> |Drain(received[i], 0)| <= budget(i - |old(done)|))
        decreases count
      {
        var some, _ := HandleOne(budget(n));
        if !some {
          break;
        }
        n := n + 1;
      }
      if !stopRx {
        BulkIn(ok);
      }
    }

    /** The packet loop of STARxDoneInterruptHandle on the context being handled. Besides the end of
        the records an adapter flag, monitor mode and a packet that cannot be allocated end it: budget
        is how many packets it may take before one of those does. */
    method ReadRecords(ghost b: seq<Byte>, budget: nat) returns (records: seq<Record>)
      requires Valid() && ctx[read].handling && b == ctx[read].data && pos == 0 && current == []
      modifies this
      ensures Valid() && records == current == First(Drain(b, 0), budget)
      ensures read == old(read) && fill == old(fill) && pending == old(pending) && flight == old(flight)
      ensures count == old(count) && received == old(received) && done == old(done)
      ensures pos <= |b| && (Next(b, pos).None? <==> |Drain(b, 0)| <= budget)
    {
      hide Ix, ReadRight, Next, Right, Reading, Drain;
      records := [];
      HandlingHead(View());
      while |records| < budget
        invariant Valid() && records == current && pos <= |b| && |records| <= budget
        invariant Drain(b, 0) == current + Drain(b, pos)
        invariant read == old(read) && fill == old(fill) && pending == old(pending) && flight == old(flight)
        invariant count == old(count) && received == old(received) && done == old(done)
        decreases |b| - pos
      {
        var p := GetPacket(true);
        if p.None? {
          break;
        }
        records := records + [p.value];
        HandlingHead(View());
      }
      DrainEnd(b, pos);
    }
  }

  lemma HandlingHead(r: Ring)
    requires Inv(r) && r.ctx[r.read].handling
    ensures r.pos <= |r.ctx[r.read].data| && r.count > 0 && r.ctx[r.read].readable && !r.ctx[r.read].inUse
    ensures Drain(r.ctx[r.read].data, 0) == r.current + Drain(r.ctx[r.read].data, r.pos)
  {
    hide Ix, Drain;
    IxWrap(8, r.read);
    assert Right(r, 0);
  }

  lemma FlightPending(r: Ring)
    requires Inv(r) && r.flight.Some?
    ensures Shape(r) && r.pending == 1 && r.flight.value == r.fill
  {
  }

  lemma HeadOf(r: Ring)
    requires Inv(r)
    ensures r.ctx[r.read].readable <==> r.count > 0
    ensures r.count > 0 ==> !r.ctx[r.read].inUse && |r.received| >= r.count
    ensures r.count > 0 ==> r.ctx[r.read].data == r.received[|r.received| - r.count]
    ensures r.ctx[r.read].handling ==> r.count > 0
    ensures !r.ctx[r.read].handling ==> r.pos == 0 && r.current == []
    ensures forall j :: 0 <= j < 8 && r.ctx[j].handling ==> j == r.read
  {
    hide Ix, Drain;
    IxWrap(8, r.read);
    assert Right(r, 0);
    OnlyHead(r);
  }

  lemma OnlyHead(r: Ring)
    requires Inv(r)
    ensures forall j :: 0 <= j < 8 && r.ctx[j].handling ==> j == r.read
  {
    hide Drain;
    forall j | 0 <= j < 8 && r.ctx[j].handling
      ensures j == r.read
    {
      var k := (j + 8 - r.read) % 8;
      assert Ix(8, r.read, k) == j;
      assert Right(r, k);
    }
  }
}
