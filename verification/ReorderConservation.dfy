/** Nothing is lost and nothing is duplicated: blocks and packets are conserved on every path,
    including duplicates, allocation failure and teardown, for all sessions sharing one pool.
    No legality of the events is assumed here. */
module ReorderConservation {
  import opened SeqNum
  import opened Reorder

  function Blks(l: seq<Mpdu>): (bs: seq<nat>)
    ensures |bs| == |l| && forall i :: 0 <= i < |l| ==> bs[i] == l[i].blk
  {
    seq(|l|, i requires 0 <= i < |l| => l[i].blk)
  }

  function Pkts(fs: seq<Frame>): (ps: seq<nat>)
    ensures |ps| == |fs| && forall i :: 0 <= i < |fs| ==> ps[i] == fs[i].pkt
  {
    seq(|fs|, i requires 0 <= i < |fs| => fs[i].pkt)
  }

  /** All blocks reachable from a session and the free list, with multiplicity. */
  function BlockBag(r: Rx): multiset<nat> {
    multiset(r.free) + multiset(Blks(r.list))
  }

  /** All packets delivered, released or queued, with multiplicity. */
  function PacketBag(r: Rx): multiset<nat> {
    multiset(Pkts(r.delivered)) + multiset(Pkts(r.dropped)) + multiset(Pkts(Frames(r.list)))
  }

  function Received(e: Event): multiset<nat> {
    match e
    case Arrive(f, _) => multiset{f.pkt}
    case Oversized(f) => multiset{f.pkt}
    case _ => multiset{}
  }

  predicate Conserves(r: Rx, r': Rx, incoming: multiset<nat>) {
    BlockBag(r') == BlockBag(r) && PacketBag(r') == PacketBag(r) + incoming
  }

  lemma {:induction false} PushAllBag(l: seq<Mpdu>, free: seq<nat>)
    ensures multiset(PushAll(l, free)) == multiset(free) + multiset(Blks(l))
  {
    if l == [] {
      assert Blks(l) == [];
    } else {
      PushAllBag(l[1..], [l[0].blk] + free);
      assert Blks(l) == [l[0].blk] + Blks(l[1..]);
    }
  }

  lemma DeliverConserves(r: Rx, k: nat)
    requires k <= |r.list|
    ensures Conserves(r, Deliver(r, k), multiset{})
  {
    hide PushAll, Frames;
    var l := r.list;
    PushAllBag(l[..k], r.free);
    assert Blks(l) == Blks(l[..k]) + Blks(l[k..]);
    assert Pkts(Frames(l)) == Pkts(Frames(l[..k])) + Pkts(Frames(l[k..]));
    assert Pkts(r.delivered + Frames(l[..k])) == Pkts(r.delivered) + Pkts(Frames(l[..k]));
  }

  lemma InOrderConserves(r: Rx, start: int)
    ensures Conserves(r, InOrder(r, start), multiset{})
  {
    DeliverConserves(r, InOrderCount(r.list, start));
  }

  lemma IndicateConserves(r: Rx, f: Frame, n: int)
    ensures Conserves(r, Indicate(r.(last := n), f), multiset{f.pkt})
  {
    assert Pkts(r.delivered + [f]) == Pkts(r.delivered) + [f.pkt];
  }

  lemma DropConserves(r: Rx, f: Frame)
    ensures Conserves(r, Drop(r, f), multiset{f.pkt})
  {
    assert Pkts(r.dropped + [f]) == Pkts(r.dropped) + [f.pkt];
  }

  lemma FlushConserves(r: Rx, now: int)
    ensures Conserves(r, Flush(r, now), multiset{})
  {
    hide BlockBag, PacketBag;
    var s := (r.last + 1) % 4096;
    DeliverConserves(r, |r.list|);
    DeliverConserves(r, LeCount(r.list, s));
    Unaffected(DeliverLe(r, s), s, now);
    InOrderConserves(DeliverLe(r, s).(timer := now, last := s), s);
    Unaffected(Deliver(r, |r.list|), RESET_RCV_SEQ, now);
  }

  /** LastIndSeq and the timer do not take part. */
  lemma Unaffected(r: Rx, n: int, t: int)
    ensures Conserves(r, r.(last := n), multiset{})
    ensures Conserves(r, r.(timer := t), multiset{})
    ensures Conserves(r, r.(timer := t, last := n), multiset{})
  {
  }

  lemma StoreConserves(r: Rx, f: Frame, k: nat)
    requires r.free != [] && k <= |r.list|
    ensures Conserves(r, r.(list := InsertAt(r.list, k, Mpdu(f, r.free[0])), free := r.free[1..]), multiset{f.pkt})
  {
    var l, l' := r.list, InsertAt(r.list, k, Mpdu(f, r.free[0]));
    assert Blks(l) == Blks(l[..k]) + Blks(l[k..]);
    assert Blks(l') == Blks(l[..k]) + [r.free[0]] + Blks(l[k..]);
    assert Pkts(Frames(l)) == Pkts(Frames(l[..k])) + Pkts(Frames(l[k..]));
    assert Pkts(Frames(l')) == Pkts(Frames(l[..k])) + [f.pkt] + Pkts(Frames(l[k..]));
    assert r.free == [r.free[0]] + r.free[1..];
  }

  lemma EnqueueConserves(r: Rx, f: Frame)
    ensures Conserves(r, Enqueue(r, f), multiset{f.pkt})
  {
    hide BlockBag, PacketBag;
    if r.free == [] {
      DeliverConserves(r, LeCount(r.list, f.seqno));
      IndicateConserves(DeliverLe(r, f.seqno), f, f.seqno);
    } else {
      DropConserves(r, f);
      StoreConserves(r, f, ScanPosition(r.list, f.seqno));
    }
  }

  lemma SlideConserves(r: Rx, f: Frame)
    ensures Conserves(r, Slide(r, f), multiset{f.pkt})
  {
    hide BlockBag, PacketBag, Enqueue, InOrder;
    var s := WindowStart(f.seqno, r.win);
    var m := DeliverLe(r, s).(last := s);
    DeliverConserves(r, LeCount(r.list, s));
    Unaffected(DeliverLe(r, s), s, 0);
    EnqueueConserves(m, f);
    InOrderConserves(Enqueue(m, f), Enqueue(m, f).last);
  }

  lemma ClassifyConserves(r: Rx, f: Frame)
    ensures Conserves(r, Classify(r, f), multiset{f.pkt})
  {
    hide BlockBag, PacketBag, Slide, Enqueue, InOrder;
    IndicateConserves(r, f, f.seqno);
    InOrderConserves(Indicate(r.(last := f.seqno), f), f.seqno);
    DropConserves(r, f);
    EnqueueConserves(r, f);
    SlideConserves(r, f);
  }

  lemma StepConserves(r: Rx, e: Event)
    ensures Conserves(r, Step(r, e), Received(e))
  {
    hide BlockBag, PacketBag, Flush, Classify;
    match e
    case Arrive(f, now) =>
      FlushConserves(r, now);
      Unaffected(Flush(r, now), 0, now);
      ClassifyConserves(Flush(r, now).(timer := now), f);
    case Oversized(f) => DropConserves(r, f);
    case BlockAckReq(start) =>
      DeliverConserves(r, LeCount(r.list, start));
      Unaffected(DeliverLe(r, start), if start == 0 then MAXSEQ else start - 1, 0);
    case FlushTimer(now) => FlushConserves(r, now);
    case IdleTimeout(now) =>
      DeliverConserves(r, |r.list|);
      Unaffected(Deliver(r, |r.list|), RESET_RCV_SEQ, 0);
  }

  lemma TearDownConserves(r: Rx)
    ensures Conserves(r, TearDown(r), multiset{})
    ensures Conserves(r, ReleaseAll(r), multiset{})
    ensures TearDown(r).list == [] && ReleaseAll(r).list == []
  {
    DeliverConserves(r, |r.list|);
    PushAllBag(r.list, r.free);
    assert Pkts(r.dropped + Frames(r.list)) == Pkts(r.dropped) + Pkts(Frames(r.list));
  }

  lemma RenewConserves(r: Rx, win: nat)
    ensures Conserves(r, Renew(r, win), multiset{})
  {
    DeliverConserves(r, |r.list|);
  }

  // ------------------------------------------------------------- all sessions, one pool

  /** Sessions sharing one free list; a session's own `free` field stands for the shared one only
      while that session takes a step. */
  datatype World = World(
    free: seq<nat>,
    sessions: seq<Rx>,
    direct: seq<Frame>,     // frames of no session, handed up as they came
    released: seq<Frame>)   // frames of no session, released

  datatype Action = On(event: Event) | Teardown | Readd(win: nat) | Release

  datatype Input = Input(session: nat, action: Action)

  function Act(r: Rx, a: Action): Rx {
    match a
    case On(e) => Step(r, e)
    case Teardown => TearDown(r)
    case Readd(win) => Renew(r, win)
    case Release => ReleaseAll(r)
  }

  /** A frame of no session reaches no list: it is handed up directly, or released if oversized. */
  function StepWorld(w: World, x: Input): World {
    if x.session < |w.sessions| then
      var r := Act(w.sessions[x.session].(free := w.free), x.action);
      w.(free := r.free, sessions := w.sessions[x.session := r])
    else if x.action.On? && x.action.event.Arrive? then w.(direct := w.direct + [x.action.event.frame])
    else if x.action.On? && x.action.event.Oversized? then w.(released := w.released + [x.action.event.frame])
    else w
  }

  function RunWorld(w: World, xs: seq<Input>): World
    decreases |xs|
  {
    if xs == [] then w else RunWorld(StepWorld(w, xs[0]), xs[1..])
  }

  function HeldBlocks(ss: seq<Rx>): multiset<nat> {
    if ss == [] then multiset{} else HeldBlocks(ss[..|ss| - 1]) + multiset(Blks(ss[|ss| - 1].list))
  }

  function PoolBag(w: World): multiset<nat> {
    multiset(w.free) + HeldBlocks(w.sessions)
  }

  lemma Regroup(a: multiset<nat>, b: multiset<nat>, c: multiset<nat>)
    ensures a + b + c == a + c + b
  {
  }

  lemma Exchange(f: multiset<nat>, f': multiset<nat>, h: multiset<nat>, h': multiset<nat>, b: multiset<nat>,
      b': multiset<nat>)
    requires h' + b == h + b' && f' + b' == f + b
    ensures f' + h' == f + h
  {
    forall x: nat
      ensures f'[x] + h'[x] == f[x] + h[x]
    {
      assert (h' + b)[x] == (h + b')[x] && (f' + b')[x] == (f + b)[x];
    }
  }

  lemma {:induction false} HeldUpdate(ss: seq<Rx>, i: nat, r: Rx)
    requires i < |ss|
    ensures HeldBlocks(ss[i := r]) + multiset(Blks(ss[i].list)) == HeldBlocks(ss) + multiset(Blks(r.list))
    decreases |ss|
  {
    hide Blks;
    var n := |ss| - 1;
    if i == n {
      assert ss[i := r][..n] == ss[..n];
    } else {
      HeldUpdate(ss[..n], i, r);
      assert ss[i := r][..n] == ss[..n][i := r];
      Regroup(HeldBlocks(ss[..n][i := r]), multiset(Blks(ss[n].list)), multiset(Blks(ss[i].list)));
      Regroup(HeldBlocks(ss[..n]), multiset(Blks(ss[n].list)), multiset(Blks(r.list)));
    }
  }

  lemma StepWorldConserves(w: World, x: Input)
    ensures PoolBag(StepWorld(w, x)) == PoolBag(w)
  {
    hide Act;
    if x.session < |w.sessions| {
      var r0 := w.sessions[x.session].(free := w.free);
      var r := Act(r0, x.action);
      ActConserves(r0, x.action);
      HeldUpdate(w.sessions, x.session, r);
      Exchange(multiset(w.free), multiset(r.free), HeldBlocks(w.sessions),
        HeldBlocks(w.sessions[x.session := r]), multiset(Blks(r0.list)), multiset(Blks(r.list)));
    }
  }

  /** Over every run of every session, the free list and the session lists together hold exactly
      the blocks of the original pool, each once. */
  lemma {:induction false} PoolPartition(w: World, xs: seq<Input>, pool: set<nat>)
    requires PoolBag(w) == multiset(pool)
    ensures PoolBag(RunWorld(w, xs)) == multiset(pool)
    decreases |xs|
  {
    if xs != [] {
      StepWorldConserves(w, xs[0]);
      PoolPartition(StepWorld(w, xs[0]), xs[1..], pool);
    }
  }

  // ------------------------------------------------------------- packets of all sessions

  function SessionPackets(ss: seq<Rx>): multiset<nat> {
    if ss == [] then multiset{} else SessionPackets(ss[..|ss| - 1]) + PacketBag(ss[|ss| - 1])
  }

  /** All packets: delivered, released or queued in some session, or handed up or released outside. */
  function WorldPackets(w: World): multiset<nat> {
    SessionPackets(w.sessions) + (multiset(Pkts(w.direct)) + multiset(Pkts(w.released)))
  }

  function ReceivedBy(x: Input): multiset<nat> {
    if x.action.On? then Received(x.action.event) else multiset{}
  }

  function ReceivedAll(xs: seq<Input>): multiset<nat> {
    if xs == [] then multiset{} else ReceivedBy(xs[0]) + ReceivedAll(xs[1..])
  }

  lemma {:induction false} PacketsUpdate(ss: seq<Rx>, i: nat, r: Rx, incoming: multiset<nat>)
    requires i < |ss| && PacketBag(r) == PacketBag(ss[i]) + incoming
    ensures SessionPackets(ss[i := r]) == SessionPackets(ss) + incoming
    decreases |ss|
  {
    hide PacketBag;
    var n := |ss| - 1;
    if i == n {
      assert ss[i := r][..n] == ss[..n];
    } else {
      PacketsUpdate(ss[..n], i, r, incoming);
      assert ss[i := r][..n] == ss[..n][i := r];
    }
  }

  lemma ActConserves(r: Rx, a: Action)
    ensures Conserves(r, Act(r, a), if a.On? then Received(a.event) else multiset{})
  {
    hide Step, TearDown, Renew, ReleaseAll, Conserves;
    TearDownConserves(r);
    if a.On? {
      StepConserves(r, a.event);
    } else if a.Readd? {
      RenewConserves(r, a.win);
    }
  }

  lemma PktsSnoc(fs: seq<Frame>, f: Frame)
    ensures multiset(Pkts(fs + [f])) == multiset(Pkts(fs)) + multiset{f.pkt}
  {
    assert Pkts(fs + [f]) == Pkts(fs) + [f.pkt];
  }

  lemma WorldStep(w: World, x: Input)
    ensures WorldPackets(StepWorld(w, x)) == WorldPackets(w) + ReceivedBy(x)
  {
    hide Act, Pkts, PacketBag, SessionPackets;
    if x.session < |w.sessions| {
      var r0 := w.sessions[x.session].(free := w.free);
      ActConserves(r0, x.action);
      SharedFree(w.sessions[x.session], w.free);
      PacketsUpdate(w.sessions, x.session, Act(r0, x.action), ReceivedBy(x));
    } else if x.action.On? && (x.action.event.Arrive? || x.action.event.Oversized?) {
      PktsSnoc(w.direct, x.action.event.frame);
      PktsSnoc(w.released, x.action.event.frame);
    }
  }

  lemma SharedFree(r: Rx, free: seq<nat>)
    ensures PacketBag(r.(free := free)) == PacketBag(r)
  {
  }

  /** Over every run of all sessions, with events, tear-downs and releases in any order on one shared
      pool, each packet received is in exactly one place: delivered, released or queued. */
  lemma {:induction false} PacketsConserved(w: World, xs: seq<Input>)
    ensures WorldPackets(RunWorld(w, xs)) == WorldPackets(w) + ReceivedAll(xs)
    decreases |xs|
  {
    hide WorldPackets, StepWorld, ReceivedBy;
    if xs != [] {
      WorldStep(w, xs[0]);
      PacketsConserved(StepWorld(w, xs[0]), xs[1..]);
    }
  }
}
