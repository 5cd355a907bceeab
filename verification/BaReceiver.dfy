/** The receive path of common/ba_action.c in the form it has there: a block pool and a session
    whose fields are updated in place, each method proved against the functions of `Reorder`. */
module BaReceiver {
  import opened Options
  import opened SeqNum
  import opened Reorder
  import opened ReorderDrops

  lemma NoneYet(l: seq<Mpdu>, free: seq<nat>)
    ensures Frames(l[..0]) == [] && PushAll(l[..0], free) == free
  {
  }

  lemma FramesSnoc(l: seq<Mpdu>, k: nat)
    requires k < |l|
    ensures Frames(l[..k + 1]) == Frames(l[..k]) + [l[k].frame]
  {
  }

  lemma StepOneRange(s: int, start: int)
    requires StepOne(s, start)
    ensures 0 <= s <= MAXSEQ
  {
  }

  /** The head counts exactly when it is one step on. */
  lemma InOrderFirst(l: seq<Mpdu>, start: int)
    ensures InOrderCount(l, start)
         == if l != [] && StepOne(l[0].frame.seqno, start) then 1 + InOrderCount(l[1..], l[0].frame.seqno) else 0
  {
    hide StepOne;
  }

  /** PushAll, one block later. */
  lemma {:induction false} PushAllSnoc(l: seq<Mpdu>, k: nat, free: seq<nat>)
    requires k < |l|
    ensures PushAll(l[..k + 1], free) == [l[k].blk] + PushAll(l[..k], free)
    decreases k
  {
    if k == 0 {
      assert l[..1] == [l[0]] && l[..1][1..] == [];
    } else {
      assert l[..k + 1][1..] == l[1..][..k] && l[..k][1..] == l[1..][..k - 1];
      PushAllSnoc(l[1..], k - 1, [l[0].blk] + free);
    }
  }

  /** The window of a session: the smaller of the two byte-sized limits, and 64 in place of 0. */
  function WindowOf(bufSize: nat, rxWinLimit: nat): (w: nat)
    ensures 1 <= w <= 255
    ensures bufSize % 256 > 0 && rxWinLimit % 256 > 0 ==>
              w <= bufSize % 256 && w <= rxWinLimit % 256 && (w == bufSize % 256 || w == rxWinLimit % 256)
    ensures bufSize % 256 == 0 || rxWinLimit % 256 == 0 ==> w == 64
  {
    var a, b := bufSize % 256, rxWinLimit % 256;
    var w := if a < b then a else b;
    if w == 0 then 64 else w
  }

  class BlockPool {
    var freelist: seq<nat>
    var qlen: int

    ghost predicate Valid()
      reads this
    {
      qlen == |freelist|
    }

    /** ba_reordering_resource_init: blocks 0..num-1, the last one on top. */
    constructor (num: nat)
      ensures Valid() && qlen == num
      ensures forall i :: 0 <= i < num ==> freelist[i] == num - 1 - i
    {
      freelist, qlen := [], 0;
      new;
      for i := 0 to num
        invariant Valid() && qlen == i
        invariant forall j :: 0 <= j < i ==> freelist[j] == i - 1 - j
      {
        Free(i);
      }
    }

    /** ba_mpdu_blk_free */
    method Free(blk: nat)
      requires Valid()
      modifies this
      ensures Valid() && freelist == [blk] + old(freelist)
    {
      qlen := qlen + 1;
      freelist := [blk] + freelist;
    }

    /** ba_mpdu_blk_alloc */
    method Alloc() returns (blk: Option<nat>)
      requires Valid()
      modifies this
      ensures Valid()
      ensures old(freelist) == [] ==> blk == None && freelist == []
      ensures old(freelist) != [] ==> blk == Some(old(freelist[0])) && freelist == old(freelist[1..])
    {
      blk := None;
      if qlen != 0 {
        qlen := qlen - 1;
        blk := Some(freelist[0]);
        freelist := freelist[1..];
      }
    }
  }

  class RecSession {
    var lastIndSeq: int
    var list: seq<Mpdu>
    var qlen: int
    var winSize: nat
    var lastIndSeqAtTimer: int
    var delivered: seq<Frame>
    var dropped: seq<Frame>

    ghost predicate Valid()
      reads this
    {
      qlen == |list|
    }

    ghost function View(pool: BlockPool): Rx
      reads this, pool
    {
      Rx(lastIndSeq, list, winSize, lastIndSeqAtTimer, pool.freelist, delivered, dropped)
    }

    /** Parameters as BARecSessionAdd sets them for an accepted request; the timer keeps what it held. */
    constructor (bufSize: nat, rxWinLimit: nat, timer: int)
      ensures Valid() && lastIndSeq == RESET_RCV_SEQ && list == [] && delivered == [] && dropped == []
      ensures bufSize % 256 > 0 && rxWinLimit % 256 > 0 ==>
                winSize <= bufSize % 256 && winSize <= rxWinLimit % 256 &&
                  (winSize == bufSize % 256 || winSize == rxWinLimit % 256)
      ensures bufSize % 256 == 0 || rxWinLimit % 256 == 0 ==> winSize == 64
      ensures 1 <= winSize <= 255 && lastIndSeqAtTimer == timer
    {
      winSize := WindowOf(bufSize, rxWinLimit);
      lastIndSeq, list, qlen := RESET_RCV_SEQ, [], 0;
      lastIndSeqAtTimer := timer;
      delivered, dropped := [], [];
    }

    /** ba_reordering_mpdu_insertsorted */
    method InsertSorted(m: Mpdu) returns (ok: bool)
      requires Valid()
      modifies this`list, this`qlen
      ensures Valid()
      ensures ok == !IsDuplicate(old(list), m.frame.seqno)
      ensures list == if ok then InsertAt(old(list), ScanPosition(old(list), m.frame.seqno), m) else old(list)
    {
      var k := 0;
      while k < |list| && Smaller(list[k].frame.seqno, m.frame.seqno)
        invariant k <= |list|
        invariant ScanPosition(list, m.frame.seqno) == k + ScanPosition(list[k..], m.frame.seqno)
      {
        assert list[k..][1..] == list[k + 1..];
        k := k + 1;
      }
      if k < |list| && list[k].frame.seqno == m.frame.seqno {
        return false;
      }
      list := list[..k] + [m] + list[k..];
      qlen := qlen + 1;
      return true;
    }

    /** ba_dequeue, then announce the frame and free its block. */
    method AnnounceHead(pool: BlockPool) returns (s: int)
      requires Valid() && pool.Valid() && list != []
      modifies this`list, this`qlen, this`delivered, pool
      ensures Valid() && pool.Valid()
      ensures s == old(list[0].frame.seqno) && list == old(list[1..])
      ensures delivered == old(delivered) + [old(list[0].frame)]
      ensures pool.freelist == [old(list[0].blk)] + old(pool.freelist)
    {
      var m := list[0];
      qlen := qlen - 1;
      list := list[1..];
      delivered := delivered + [m.frame];
      pool.Free(m.blk);
      s := m.frame.seqno;
    }

    /** ba_indicate_reordering_mpdus_in_order */
    method IndicateInOrder(pool: BlockPool, startSeq: int) returns (lastInd: int)
      requires Valid() && pool.Valid()
      modifies this`list, this`qlen, this`delivered, pool
      ensures Valid() && pool.Valid()
      ensures var k := InOrderCount(old(list), startSeq);
        && View(pool) == Deliver(old(View(pool)), k)
        && lastInd == (if k == 0 then RESET_RCV_SEQ else old(list)[k - 1].frame.seqno)
        && (k > 0 ==> 0 <= lastInd <= MAXSEQ)
    {
      hide InOrderCount, PushAll, Frames, StepOne;
      ghost var l, free := list, pool.freelist;
      ghost var k := 0;
      var start := startSeq;
      lastInd := RESET_RCV_SEQ;
      NoneYet(l, free);
      while qlen > 0 && StepOne(list[0].frame.seqno, start)
        invariant Valid() && pool.Valid()
        invariant k <= |l| && list == l[k..]
        invariant start == if k == 0 then startSeq else l[k - 1].frame.seqno
        invariant lastInd == if k == 0 then RESET_RCV_SEQ else l[k - 1].frame.seqno
        invariant k > 0 ==> 0 <= lastInd <= MAXSEQ
        invariant InOrderCount(l, startSeq) == k + InOrderCount(list, start)
        invariant delivered == old(delivered) + Frames(l[..k])
        invariant pool.freelist == PushAll(l[..k], free)
        decreases qlen
      {
        PushAllSnoc(l, k, free);
        FramesSnoc(l, k);
        InOrderFirst(list, start);
        StepOneRange(list[0].frame.seqno, start);
        start := AnnounceHead(pool);
        lastInd := start;
        k := k + 1;
      }
      InOrderFirst(list, start);
    }

    /** ba_indicate_reordering_mpdus_le_seq */
    method IndicateLe(pool: BlockPool, s: int)
      requires Valid() && pool.Valid()
      modifies this`list, this`qlen, this`delivered, pool
      ensures Valid() && pool.Valid()
      ensures View(pool) == DeliverLe(old(View(pool)), s)
    {
      ghost var l, free := list, pool.freelist;
      ghost var k := 0;
      while qlen > 0 && (list[0].frame.seqno == s || Smaller(list[0].frame.seqno, s))
        invariant Valid() && pool.Valid()
        invariant k <= |l| && list == l[k..]
        invariant LeCount(l, s) == k + LeCount(list, s)
        invariant delivered == old(delivered) + Frames(l[..k])
        invariant pool.freelist == PushAll(l[..k], free)
        decreases qlen
      {
        PushAllSnoc(l, k, free);
        var _ := AnnounceHead(pool);
        assert Frames(l[..k + 1]) == Frames(l[..k]) + [l[k].frame];
        k := k + 1;
      }
    }

    /** ba_refresh_reordering_mpdus */
    method RefreshAll(pool: BlockPool)
      requires Valid() && pool.Valid()
      modifies this`list, this`qlen, this`delivered, this`lastIndSeq, pool
      ensures Valid() && pool.Valid()
      ensures View(pool) == Refresh(old(View(pool)))
    {
      ghost var l, free := list, pool.freelist;
      ghost var k := 0;
      while qlen != 0
        invariant Valid() && pool.Valid()
        invariant k <= |l| && list == l[k..]
        invariant delivered == old(delivered) + Frames(l[..k])
        invariant pool.freelist == PushAll(l[..k], free)
        decreases qlen
      {
        PushAllSnoc(l, k, free);
        lastIndSeq := AnnounceHead(pool);
        assert Frames(l[..k + 1]) == Frames(l[..k]) + [l[k].frame];
        k := k + 1;
      }
      assert l[..k] == l && l[k..] == [];
      lastIndSeq := RESET_RCV_SEQ;
    }

    /** Drain in order after `last` was set, and remember the last number drained. */
    method DrainFrom(pool: BlockPool)
      requires Valid() && pool.Valid()
      modifies this`list, this`qlen, this`delivered, this`lastIndSeq, pool
      ensures Valid() && pool.Valid()
      ensures View(pool) == InOrder(old(View(pool)), old(lastIndSeq))
    {
      var s := IndicateInOrder(pool, lastIndSeq);
      if s != RESET_RCV_SEQ {
        lastIndSeq := s;
      }
    }

    /** ba_flush_reordering_timeout_mpdus */
    method FlushTimeout(pool: BlockPool, now: int)
      requires Valid() && pool.Valid()
      modifies this`list, this`qlen, this`delivered, this`lastIndSeq, this`lastIndSeqAtTimer, pool
      ensures Valid() && pool.Valid()
      ensures View(pool) == Flush(old(View(pool)), now)
    {
      hide InOrder, DeliverLe, Refresh;
      if now > lastIndSeqAtTimer + FLUSH_ALL_TIMEOUT && qlen > 1 {
        RefreshAll(pool);
        lastIndSeqAtTimer := now;
      } else if now > lastIndSeqAtTimer + REORDERING_PACKET_TIMEOUT && qlen > 0 {
        var s := (lastIndSeq + 1) % 4096;
        IndicateLe(pool, s);
        lastIndSeqAtTimer := now;
        lastIndSeq := s;
        DrainFrom(pool);
      }
    }

    /** ba_enqueue_reordering_packet */
    method EnqueuePacket(pool: BlockPool, f: Frame)
      requires Valid() && pool.Valid()
      modifies this`list, this`qlen, this`delivered, this`dropped, this`lastIndSeq, pool
      ensures Valid() && pool.Valid()
      ensures View(pool) == Enqueue(old(View(pool)), f)
    {
      hide DeliverLe, IsDuplicate, ScanPosition, InsertAt;
      var blk := pool.Alloc();
      match blk
      case Some(b) =>
        var ok := InsertSorted(Mpdu(f, b));
        if !ok {
          dropped := dropped + [f];
          pool.Free(b);
          assert pool.freelist == old(pool.freelist);
        }
      case None =>
        IndicateLe(pool, f.seqno);
        lastIndSeq := f.seqno;
        delivered := delivered + [f];
    }

    /** Indicate_AMPDU_Packet, for a frame that belongs to this session. */
    method IndicateAmpdu(pool: BlockPool, f: Frame, now: int)
      requires Valid() && pool.Valid()
      modifies this, pool
      ensures Valid() && pool.Valid()
      ensures View(pool) == ArriveStep(old(View(pool)), f, now)
    {
      hide Flush, InOrder, Enqueue, DeliverLe;
      FlushTimeout(pool, now);
      lastIndSeqAtTimer := now;
      if lastIndSeq == RESET_RCV_SEQ {
        lastIndSeq := f.seqno;
        delivered := delivered + [f];
      } else if StepOne(f.seqno, lastIndSeq) {
        lastIndSeq := f.seqno;
        delivered := delivered + [f];
        DrainFrom(pool);
      } else if f.seqno == lastIndSeq || Smaller(f.seqno, lastIndSeq) {
        dropped := dropped + [f];
      } else if Smaller(f.seqno, (lastIndSeq + winSize + 1) % 4096) {
        EnqueuePacket(pool, f);
      } else {
        var tmp := f.seqno - winSize - 1;
        if tmp < 0 {
          tmp := tmp + 4096;
        }
        var winStart := (tmp + 1) % 4096;
        IndicateLe(pool, winStart);
        lastIndSeq := winStart;
        EnqueuePacket(pool, f);
        DrainFrom(pool);
      }
    }

    /** CntlEnqueueForRecv, for a well-formed request of this session. */
    method BlockAckRequest(pool: BlockPool, start: int)
      requires Valid() && pool.Valid()
      modifies this`list, this`qlen, this`delivered, this`lastIndSeq, pool
      ensures Valid() && pool.Valid()
      ensures View(pool) == BarStep(old(View(pool)), start)
    {
      if Smaller(lastIndSeq, start) {
        IndicateLe(pool, start);
        lastIndSeq := if start == 0 then MAXSEQ else start - 1;
      }
    }

    /** BARecSessionAdd for a session that exists: the queue is handed up, and the parameters set anew. */
    method Readd(pool: BlockPool, bufSize: nat, rxWinLimit: nat)
      requires Valid() && pool.Valid()
      modifies this`list, this`qlen, this`delivered, this`lastIndSeq, this`winSize, pool
      ensures Valid() && pool.Valid() && winSize == WindowOf(bufSize, rxWinLimit)
      ensures View(pool) == Renew(old(View(pool)), winSize)
      ensures Followed(delivered, old(delivered), old(list)) && dropped == old(dropped) && list == []
    {
      RenewDelivers(View(pool), WindowOf(bufSize, rxWinLimit));
      RefreshAll(pool);
      winSize := WindowOf(bufSize, rxWinLimit);
      lastIndSeq := RESET_RCV_SEQ;
    }

    /** BARecSessionTearDown of an accepted session: the queue is handed up, and the session reset. */
    method TearDownSession(pool: BlockPool)
      requires Valid() && pool.Valid()
      modifies this`list, this`qlen, this`delivered, this`lastIndSeq, this`winSize, pool
      ensures Valid() && pool.Valid() && View(pool) == TearDown(old(View(pool)))
      ensures Followed(delivered, old(delivered), old(list)) && dropped == old(dropped) && list == []
    {
      TearDownDelivers(View(pool));
      RefreshAll(pool);
      lastIndSeq := RESET_RCV_SEQ;
      winSize := 0;
    }

    /** ba_reordering_resource_release, for one session: the queue is released. */
    method ReleaseQueue(pool: BlockPool)
      requires Valid() && pool.Valid()
      modifies this`list, this`qlen, this`dropped, pool
      ensures Valid() && pool.Valid() && View(pool) == ReleaseAll(old(View(pool)))
      ensures Followed(dropped, old(dropped), old(list)) && delivered == old(delivered) && list == []
    {
      ReleaseDrops(View(pool));
      ghost var l, free := list, pool.freelist;
      ghost var k := 0;
      while qlen != 0
        invariant Valid() && pool.Valid()
        invariant k <= |l| && list == l[k..]
        invariant dropped == old(dropped) + Frames(l[..k])
        invariant pool.freelist == PushAll(l[..k], free)
        decreases qlen
      {
        PushAllSnoc(l, k, free);
        FramesSnoc(l, k);
        var m := list[0];
        qlen := qlen - 1;
        list := list[1..];
        dropped := dropped + [m.frame];
        pool.Free(m.blk);
        k := k + 1;
      }
      assert l[..k] == l && l[k..] == [];
    }
  }
}
