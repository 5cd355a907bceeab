/** What one event of the reference buffer does, without its operations: where the window stands
    afterwards, and which frames go up. */
module ReorderSteps {
  import opened Reorder
  import opened ReorderInt

  /** k is queued or has just arrived. */
  predicate Here(list: seq<Mpdu>, f: Frame, k: int) { k == f.seqno || Holds(list, k) }

  /** From `base` on everything up to n is here, and n + 1 is not. */
  predicate RunsTo(list: seq<Mpdu>, f: Frame, base: int, n: int) {
    base <= n && !Here(list, f, n + 1) && forall k :: base < k <= n ==> Here(list, f, k)
  }

  /** Of the frames in `all`, those at or below n have been added to the log, and the others are queued;
      together they are all of them, in order. */
  predicate Split(log: seq<Frame>, before: seq<Frame>, list: seq<Mpdu>, all: seq<Frame>, n: int) {
    && before <= log && log[|before|..] + Frames(list) == all
    && (forall i :: |before| <= i < |log| ==> log[i].seqno <= n)
    && (forall i :: 0 <= i < |list| ==> list[i].frame.seqno > n)
  }

  /** The queued frames with the new one in its place. */
  function Merged(list: seq<Mpdu>, f: Frame): seq<Frame> {
    if list == [] || list[0].frame.seqno > f.seqno then [f] + Frames(list)
    else [list[0].frame] + Merged(list[1..], f)
  }

  lemma {:induction false} MergedIs(list: seq<Mpdu>, f: Frame)
    ensures var k := UpTo(list, f.seqno); Merged(list, f) == Frames(list[..k]) + [f] + Frames(list[k..])
  {
    if list == [] || list[0].frame.seqno > f.seqno {
      assert list[0..] == list;
    } else {
      MergedIs(list[1..], f);
      var k := UpTo(list[1..], f.seqno);
      assert list[..k + 1] == [list[0]] + list[1..][..k] && list[k + 1..] == list[1..][k..];
      assert Frames(list[..k + 1]) == [list[0].frame] + Frames(list[1..][..k]);
    }
  }

  /** Handing up the first k: the log grows by them and the rest stays. */
  lemma HandUpSplits(r: RxInt, k: nat, n: int)
    requires k <= |r.list|
    requires (forall i :: 0 <= i < k ==> r.list[i].frame.seqno <= n)
    requires (forall i :: k <= i < |r.list| ==> r.list[i].frame.seqno > n)
    ensures var h := HandUp(r, k); Split(h.delivered, r.delivered, h.list, Frames(r.list), n)
  {
    var h := HandUp(r, k);
    assert Frames(r.list) == Frames(r.list[..k]) + Frames(r.list[k..]);
  }

  /** From n on the list has everything up to m, and not m + 1. */
  predicate Consecutive(list: seq<Mpdu>, n: int, m: int) {
    n <= m && !Holds(list, m + 1) && forall k :: n < k <= m ==> Holds(list, k)
  }

  lemma RunSplits(list: seq<Mpdu>, n: int)
    requires Ascending(list) && forall i :: 0 <= i < |list| ==> list[i].frame.seqno > n
    ensures var k := RunLength(list, n);
            && Consecutive(list, n, n + k) && forall i :: k <= i < |list| ==> list[i].frame.seqno > n + k + 1
  {
    var k := RunLength(list, n);
    hide RunLength;
    forall i | k <= i < |list|
      ensures list[i].frame.seqno > n + k + 1
    {
      assert k > 0 ==> list[k - 1].frame.seqno == n + k && list[k - 1].frame.seqno < list[k].frame.seqno;
      assert list[k].frame.seqno > n + k + 1;
      assert i > k ==> list[k].frame.seqno < list[i].frame.seqno;
    }
    forall j | n < j <= n + k
      ensures Holds(list, j)
    {
      assert list[j - n - 1].frame.seqno == j;
    }
  }

  /** A drain after n was indicated goes as far as the queue has consecutive numbers. */
  lemma AdvanceSplits(r: RxInt, n: int)
    requires Ascending(r.list) && r.last == At(n) && forall i :: 0 <= i < |r.list| ==> r.list[i].frame.seqno > n
    ensures var a := Advance(r, n);
            && a.last.At? && Consecutive(r.list, n, a.last.n) && a.dropped == r.dropped && a.timer == r.timer
            && Split(a.delivered, r.delivered, a.list, Frames(r.list), a.last.n)
  {
    hide RunLength, Split, Consecutive, Holds, PushAll;
    RunSplits(r.list, n);
    HandUpSplits(r, RunLength(r.list, n), n + RunLength(r.list, n));
  }

  // ------------------------------------------------------------- arrivals

  /** A frame after the last number that is not queued, with a block to spare unless it is next: the window
      moves up so that the frame fits, then past everything that is there; that goes up in order. */
  lemma ArrivalLaw(r: RxInt, f: Frame)
    requires QueueInv(r) && r.last.At? && r.last.n < f.seqno && !Holds(r.list, f.seqno)
    requires r.free != [] || f.seqno == r.last.n + 1
    ensures var n, base := ClassifyInt(r, f), if f.seqno <= r.last.n + r.win then r.last.n else f.seqno - r.win;
            && n.last.At? && RunsTo(r.list, f, base, n.last.n) && n.dropped == r.dropped
            && Split(n.delivered, r.delivered, n.list, Merged(r.list, f), n.last.n)
  {
    if f.seqno == r.last.n + 1 {
      NextLaw(r, f);
    } else if f.seqno <= r.last.n + r.win {
      StoredLaw(r, f);
    } else {
      SlideLaw(r, f);
    }
  }

  lemma NextLaw(r: RxInt, f: Frame)
    requires QueueInv(r) && r.last.At? && f.seqno == r.last.n + 1
    ensures var n := ClassifyInt(r, f);
            && n.last.At? && RunsTo(r.list, f, r.last.n, n.last.n) && n.dropped == r.dropped
            && Split(n.delivered, r.delivered, n.list, Merged(r.list, f), n.last.n)
  {
    hide Advance, Split, Merged, Consecutive, RunsTo, RunLength;
    var i := IndicateInt(r, f);
    AdvanceSplits(i, f.seqno);
    var n := Advance(i, f.seqno);
    assert ClassifyInt(r, f) == n;
    MergedFirst(r.list, f);
    LaterOn(r.list, f, n.last.n);
    SplitAfter(n.delivered, r.delivered, f, n.list, Frames(r.list), n.last.n);
  }

  lemma LaterOn(list: seq<Mpdu>, f: Frame, m: int)
    requires Consecutive(list, f.seqno, m)
    ensures RunsTo(list, f, f.seqno - 1, m) && f.seqno <= m
  {
    hide Holds;
  }

  lemma MergedFirst(list: seq<Mpdu>, f: Frame)
    requires list == [] || list[0].frame.seqno > f.seqno
    ensures Merged(list, f) == [f] + Frames(list)
  {
  }

  lemma SplitAfter(log: seq<Frame>, before: seq<Frame>, f: Frame, list: seq<Mpdu>, all: seq<Frame>, n: int)
    requires Split(log, before + [f], list, all, n) && f.seqno <= n
    ensures Split(log, before, list, [f] + all, n)
  {
    assert log[|before|] == f;
    assert log[|before|..] == [f] + log[|before| + 1..];
    assert [f] + log[|before| + 1..] + Frames(list) == [f] + (log[|before| + 1..] + Frames(list));
  }

  lemma StoredLaw(r: RxInt, f: Frame)
    requires QueueInv(r) && Stored(r, f) && !Holds(r.list, f.seqno) && r.free != []
    ensures var n := ClassifyInt(r, f);
            && n.last == r.last && RunsTo(r.list, f, r.last.n, r.last.n) && n.dropped == r.dropped
            && Split(n.delivered, r.delivered, n.list, Merged(r.list, f), r.last.n)
  {
    hide Split, Merged, RunsTo, UpTo, Holds, InsertAt, Frames, Ascending;
    var k := UpTo(r.list, f.seqno);
    var l := InsertAt(r.list, k, Mpdu(f, r.free[0]));
    assert ClassifyInt(r, f) == r.(list := l, free := r.free[1..]);
    InsertedFrames(r.list, f, r.free[0]);
    InsertedAbove(r.list, k, Mpdu(f, r.free[0]), r.last.n);
    NothingUp(r.delivered, l, Merged(r.list, f), r.last.n);
    NotYet(r, f);
  }

  lemma InsertedFrames(list: seq<Mpdu>, f: Frame, blk: nat)
    ensures Frames(InsertAt(list, UpTo(list, f.seqno), Mpdu(f, blk))) == Merged(list, f)
  {
    hide Merged, UpTo;
    MergedIs(list, f);
    var k := UpTo(list, f.seqno);
    FramesSnoc(list[..k], Mpdu(f, blk));
    assert Frames(list[..k] + [Mpdu(f, blk)] + list[k..]) == Frames(list[..k] + [Mpdu(f, blk)]) + Frames(list[k..]);
  }

  lemma InsertedAbove(list: seq<Mpdu>, k: nat, m: Mpdu, n: int)
    requires k <= |list| && m.frame.seqno > n && forall i :: 0 <= i < |list| ==> list[i].frame.seqno > n
    ensures forall i :: 0 <= i < |InsertAt(list, k, m)| ==> InsertAt(list, k, m)[i].frame.seqno > n
  {
  }

  lemma NothingUp(log: seq<Frame>, list: seq<Mpdu>, all: seq<Frame>, n: int)
    requires Frames(list) == all && forall i :: 0 <= i < |list| ==> list[i].frame.seqno > n
    ensures Split(log, log, list, all, n)
  {
    assert log[|log|..] == [] && [] + Frames(list) == all;
  }

  lemma NotYet(r: RxInt, f: Frame)
    requires QueueInv(r) && r.last.At? && f.seqno > r.last.n + 1
    ensures RunsTo(r.list, f, r.last.n, r.last.n)
  {
  }

  lemma SlideLaw(r: RxInt, f: Frame)
    requires QueueInv(r) && r.last.At? && r.last.n + r.win < f.seqno && r.free != []
    ensures var n := ClassifyInt(r, f);
            && n.last.At? && RunsTo(r.list, f, f.seqno - r.win, n.last.n) && n.dropped == r.dropped
            && Split(n.delivered, r.delivered, n.list, Merged(r.list, f), n.last.n)
  {
    hide Advance, EnqueueInt, MoveTo, Split, Merged, Consecutive, RunsTo, Holds, Ascending, UpTo;
    var s := f.seqno - r.win;
    var m := MoveTo(r, s);
    MoveSplits(r, s);
    MoveRoom(r, s, f.seqno);
    EnqueueEnd(m, f);
    var e := EnqueueInt(m, f);
    EndAscends(m.list, Mpdu(f, m.free[0]));
    AdvanceSplits(e, s);
    var n := Advance(e, s);
    SlideIs(r, f);
    MoreThanWindow(r, f);
    RunsAfter(r, s, f, m.free[0], n.last.n);
    MergedLast(r.list, f);
    FramesSnoc(m.list, Mpdu(f, m.free[0]));
    AtLeast(e.list, s, n.last.n);
    JoinSplits(r, m, n, f);
  }

  lemma AtLeast(list: seq<Mpdu>, n: int, m: int)
    requires Consecutive(list, n, m)
    ensures n <= m
  {
  }

  lemma FramesSnoc(l: seq<Mpdu>, m: Mpdu)
    ensures Frames(l + [m]) == Frames(l) + [m.frame]
  {
  }

  lemma MoreThanWindow(r: RxInt, f: Frame)
    requires QueueInv(r) && r.last.At? && r.last.n + r.win < f.seqno
    ensures Ascending(r.list) && forall i :: 0 <= i < |r.list| ==> r.list[i].frame.seqno < f.seqno
  {
  }

  lemma SlideIs(r: RxInt, f: Frame)
    requires r.last.At? && r.last.n + r.win < f.seqno && r.win > 0
    requires EnqueueInt(MoveTo(r, f.seqno - r.win), f).last == At(f.seqno - r.win)
    ensures ClassifyInt(r, f) == Advance(EnqueueInt(MoveTo(r, f.seqno - r.win), f), f.seqno - r.win)
  {
    hide Advance, EnqueueInt, MoveTo;
  }

  lemma EndAscends(l: seq<Mpdu>, m: Mpdu)
    requires Ascending(l) && forall i :: 0 <= i < |l| ==> l[i].frame.seqno < m.frame.seqno
    ensures Ascending(l + [m])
  {
  }

  lemma MoveSplits(r: RxInt, s: int)
    requires Ascending(r.list)
    ensures var m := MoveTo(r, s);
            && Split(m.delivered, r.delivered, m.list, Frames(r.list), s) && m.list == r.list[UpTo(r.list, s)..]
            && forall i :: 0 <= i < |m.list| ==> m.list[i].frame.seqno > s
  {
    hide Split, PushAll;
    UpToSplits(r.list, s);
    HandUpSplits(r, UpTo(r.list, s), s);
    hide UpTo;
  }

  lemma RunsAfter(r: RxInt, s: int, f: Frame, blk: nat, m: int)
    requires Ascending(r.list) && s < f.seqno
    requires Consecutive(r.list[UpTo(r.list, s)..] + [Mpdu(f, blk)], s, m)
    ensures RunsTo(r.list, f, s, m)
  {
    var list := r.list[UpTo(r.list, s)..] + [Mpdu(f, blk)];
    assert list[..|list| - 1] == r.list[UpTo(r.list, s)..] && list[..|list|] == list;
    HeldAfter(r, s, f, list);
    hide UpTo, Holds, Here, Ascending;
  }

  lemma MoveRoom(r: RxInt, s: int, x: int)
    requires QueueInv(r) && r.last.At? && r.last.n + r.win < x && r.free != []
    ensures var m := MoveTo(r, s);
            && m.free != [] && m.last == At(s) && m.win == r.win && m.dropped == r.dropped && Ascending(m.list)
            && forall i :: 0 <= i < |m.list| ==> m.list[i].frame.seqno < x
  {
    PushAllGrows(r.list[..UpTo(r.list, s)], r.free);
    hide UpTo;
  }

  lemma {:induction false} PushAllGrows(l: seq<Mpdu>, free: seq<nat>)
    requires free != []
    ensures PushAll(l, free) != []
  {
    if l != [] {
      PushAllGrows(l[1..], [l[0].blk] + free);
    }
  }

  /** A number above all queued ones is stored at the end. */
  lemma EnqueueEnd(m: RxInt, f: Frame)
    requires m.free != [] && forall i :: 0 <= i < |m.list| ==> m.list[i].frame.seqno < f.seqno
    ensures EnqueueInt(m, f) == m.(list := m.list + [Mpdu(f, m.free[0])], free := m.free[1..])
  {
    var k := UpTo(m.list, f.seqno);
    assert k == |m.list|;
    assert m.list[..k] == m.list && m.list[k..] == [];
  }

  lemma {:induction false} MergedLast(list: seq<Mpdu>, f: Frame)
    requires forall i :: 0 <= i < |list| ==> list[i].frame.seqno < f.seqno
    ensures Merged(list, f) == Frames(list) + [f]
  {
    MergedIs(list, f);
    var k := UpTo(list, f.seqno);
    assert list[..k] == list && list[k..] == [];
  }

  /** Above s, what the queue holds after the move is what is here. */
  lemma HeldAfter(r: RxInt, s: int, f: Frame, list: seq<Mpdu>)
    requires Ascending(r.list) && s < f.seqno
    requires list[..|list|] == list && |list| > 0 && list[|list| - 1].frame == f
    requires list[..|list| - 1] == r.list[UpTo(r.list, s)..]
    ensures forall k :: k > s ==> (Holds(list, k) <==> Here(r.list, f, k))
  {
    var u := UpTo(r.list, s);
    forall k | k > s
      ensures Holds(list, k) <==> Here(r.list, f, k)
    {
      if Holds(list, k) {
        var i :| 0 <= i < |list| && list[i].frame.seqno == k;
        if i < |list| - 1 {
          assert r.list[u + i] == r.list[u..][i] == list[..|list| - 1][i] == list[i];
        }
      }
      if Holds(r.list, k) {
        var i :| 0 <= i < |r.list| && r.list[i].frame.seqno == k;
        assert i >= u;
        assert list[i - u] == list[..|list| - 1][i - u] == r.list[u..][i - u] == r.list[i];
      }
      if k == f.seqno {
        assert list[|list| - 1].frame.seqno == k;
      }
    }
  }

  lemma JoinSplits(r: RxInt, m: RxInt, n: RxInt, f: Frame)
    requires m.last.At? && n.last.At? && m.last.n <= n.last.n
    requires Split(m.delivered, r.delivered, m.list, Frames(r.list), m.last.n)
    requires Split(n.delivered, m.delivered, n.list, Frames(m.list) + [f], n.last.n)
    ensures Split(n.delivered, r.delivered, n.list, Frames(r.list) + [f], n.last.n)
  {
    var a, b := m.delivered[|r.delivered|..], n.delivered[|m.delivered|..];
    assert n.delivered == m.delivered + b && m.delivered == r.delivered + a;
    assert n.delivered[|r.delivered|..] == a + b;
    assert (a + b) + Frames(n.list) == a + (b + Frames(n.list)) == a + (Frames(m.list) + [f]);
    assert a + (Frames(m.list) + [f]) == a + Frames(m.list) + [f];
  }

  // ------------------------------------------------------------- without a block, requests, timeouts

  /** Without a block a frame of the window goes up at once, after everything queued at or below it; the
      window then stands at the frame. */
  lemma NoBlockLaw(r: RxInt, f: Frame)
    requires QueueInv(r) && Stored(r, f) && r.free == []
    ensures var n := ClassifyInt(r, f);
            && n.last == At(f.seqno) && n.dropped == r.dropped && n.delivered != []
            && n.delivered[|n.delivered| - 1] == f
            && Split(n.delivered[..|n.delivered| - 1], r.delivered, n.list, Frames(r.list), f.seqno)
  {
    UpToSplits(r.list, f.seqno);
    HandUpSplits(r, UpTo(r.list, f.seqno), f.seqno);
    var h := HandUpTo(r, f.seqno);
    assert ClassifyInt(r, f).delivered == h.delivered + [f];
    assert (h.delivered + [f])[..|h.delivered|] == h.delivered;
    hide UpTo, HandUp;
  }

  /** A request past the last number hands up everything queued at or below its start, which is then the next
      number awaited; any other changes nothing. */
  lemma RequestLaw(r: RxInt, start: int)
    requires QueueInv(r) && r.last.At?
    ensures var n := BarInt(r, start);
            if r.last.n < start then
              n.last == At(start - 1) && n.dropped == r.dropped &&
              Split(n.delivered, r.delivered, n.list, Frames(r.list), start)
            else n == r
  {
    UpToSplits(r.list, start);
    HandUpSplits(r, UpTo(r.list, start), start);
    hide UpTo, HandUp;
  }

  /** A first timeout gives up the number after the last one, and goes on past everything that is there. */
  lemma GiveUpLaw(r: RxInt, now: int)
    requires QueueInv(r) && r.last.At?
    ensures var n := SkipOneInt(r, now);
            && n.last.At? && Consecutive(r.list, r.last.n + 1, n.last.n)
            && n.timer == now && n.dropped == r.dropped
            && Split(n.delivered, r.delivered, n.list, Frames(r.list), n.last.n)
  {
    hide Split, Consecutive, Advance;
    var s := r.last.n + 1;
    NoneBelow(r, s);
    AdvanceSplits(r.(timer := now, last := At(s)), s);
  }

  lemma NoneBelow(r: RxInt, s: int)
    requires forall i :: 0 <= i < |r.list| ==> r.list[i].frame.seqno > s
    ensures HandUpTo(r, s) == r
  {
    assert UpTo(r.list, s) == 0 && r.list[..0] == [] && r.list[0..] == r.list;
    assert r.delivered + Frames([]) == r.delivered;
  }
}
