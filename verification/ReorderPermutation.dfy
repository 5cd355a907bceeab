/** A window-bounded permutation is put back in order. */
module ReorderPermutation {
  import opened Reorder
  import opened ReorderInt

  datatype Arrival = Arrival(frame: Frame, now: int)

  function Events(xs: seq<Arrival>): seq<Event> {
    if xs == [] then [] else [Arrive(xs[0].frame, xs[0].now)] + Events(xs[1..])
  }

  /** No time-out fires, and no frame runs past the window that is current when it arrives. */
  predicate Smooth(r: RxInt, xs: seq<Arrival>)
    decreases |xs|
  {
    xs != [] ==>
      && r.last.At?
      && xs[0].now <= r.timer + REORDERING_PACKET_TIMEOUT
      && xs[0].frame.seqno <= r.last.n + r.win
      && Smooth(ArriveInt(r, xs[0].frame, xs[0].now), xs[1..])
  }

  predicate Distinct(xs: seq<Arrival>) {
    forall i, j :: 0 <= i < j < |xs| ==> xs[i].frame.seqno != xs[j].frame.seqno
  }

  predicate Numbered(xs: seq<Arrival>, n: int) {
    exists i :: 0 <= i < |xs| && xs[i].frame.seqno == n
  }

  /** The numbers of `xs` are exactly a..b. */
  predicate Covers(xs: seq<Arrival>, a: int, b: int) {
    && (forall i :: 0 <= i < |xs| ==> a <= xs[i].frame.seqno <= b)
    && (forall n :: a <= n <= b ==> Numbered(xs, n))
  }

  function FramesOf(xs: seq<Arrival>): set<Frame> {
    set i | 0 <= i < |xs| :: xs[i].frame
  }

  predicate Queued(l: seq<Mpdu>, f: Frame) {
    exists i :: 0 <= i < |l| && l[i].frame == f
  }

  /** From position `base` on, the log holds numbers a, a+1, ..., n, all of them frames of `got`. */
  predicate Placed(d: seq<Frame>, base: nat, a: int, n: int, got: set<Frame>) {
    && a - 1 <= n && |d| == base + (n - a + 1)
    && forall i :: base <= i < |d| ==> d[i].seqno == a + i - base && d[i] in got
  }

  predicate QueuedFrom(l: seq<Mpdu>, got: set<Frame>) {
    forall i :: 0 <= i < |l| ==> l[i].frame in got
  }

  predicate Accounted(l: seq<Mpdu>, a: int, n: int, got: set<Frame>) {
    forall f :: f in got ==> a <= f.seqno && (f.seqno <= n || Queued(l, f))
  }

  /** Every frame received since number a is handed up in its place or still queued. */
  predicate Tracks(r: RxInt, base: nat, a: int, got: set<Frame>) {
    && r.last.At? && QueueInv(r)
    && Placed(r.delivered, base, a, r.last.n, got)
    && QueuedFrom(r.list, got)
    && Accounted(r.list, a, r.last.n, got)
  }

  /** The queue cannot hold more than win - 1 frames, so win blocks are always enough. */
  lemma {:induction false} ShortQueue(l: seq<Mpdu>, lo: int, hi: int)
    requires Ascending(l) && InWindow(l, lo, hi) && lo <= hi + 1
    ensures |l| <= hi - lo + 1
    decreases |l|
  {
    if l != [] {
      ShortQueue(l[1..], l[0].frame.seqno + 1, hi);
    }
  }

  lemma PushAllLength(l: seq<Mpdu>, free: seq<nat>)
    ensures |PushAll(l, free)| == |l| + |free|
  {
  }

  lemma AccountedAfterDrain(l: seq<Mpdu>, k: nat, a: int, n: int, got: set<Frame>, f: Frame)
    requires Accounted(l, a, n, got) && f.seqno == n + 1 && a <= f.seqno
    requires k <= |l| && forall i :: 0 <= i < k ==> l[i].frame.seqno == n + 2 + i
    ensures Accounted(l[k..], a, n + 1 + k, got + {f})
  {
    forall g | g in got && g.seqno > n + 1 + k
      ensures Queued(l[k..], g)
    {
      var i :| 0 <= i < |l| && l[i].frame == g;
      assert l[k..][i - k].frame == g;
    }
  }

  lemma PlacedAfterDrain(d: seq<Frame>, l: seq<Mpdu>, k: nat, base: nat, a: int, n: int, got: set<Frame>, f: Frame)
    requires Placed(d, base, a, n, got) && QueuedFrom(l, got) && f.seqno == n + 1
    requires k <= |l| && forall i :: 0 <= i < k ==> l[i].frame.seqno == n + 2 + i
    ensures Placed(d + [f] + Frames(l[..k]), base, a, n + 1 + k, got + {f})
  {
  }

  lemma TrackInOrder(r: RxInt, base: nat, a: int, got: set<Frame>, f: Frame)
    requires Tracks(r, base, a, got) && f.seqno == r.last.n + 1
    ensures var r' := Advance(IndicateInt(r, f), f.seqno);
      && Tracks(r', base, a, got + {f}) && |r'.free| + |r'.list| == |r.free| + |r.list|
  {
    var m := IndicateInt(r, f);
    var k := RunLength(r.list, f.seqno);
    AdvanceDrains(m);
    PushAllLength(m.list[..k], m.free);
    AccountedAfterDrain(r.list, k, a, r.last.n, got, f);
    PlacedAfterDrain(r.delivered, r.list, k, base, a, r.last.n, got, f);
    hide QueueInv, Accounted, Queued, Placed, PushAll, Frames, RunLength;
    assert QueuedFrom(r.list[k..], got + {f});
  }

  lemma AccountedAfterInsert(l: seq<Mpdu>, k: nat, a: int, n: int, got: set<Frame>, m: Mpdu)
    requires Accounted(l, a, n, got) && k <= |l| && a <= m.frame.seqno
    ensures Accounted(InsertAt(l, k, m), a, n, got + {m.frame})
    ensures QueuedFrom(l, got) ==> QueuedFrom(InsertAt(l, k, m), got + {m.frame})
  {
    var l' := InsertAt(l, k, m);
    assert l'[k] == m;
    forall g | g in got && g.seqno > n
      ensures Queued(l', g)
    {
      var i :| 0 <= i < |l| && l[i].frame == g;
      assert l'[if i < k then i else i + 1].frame == g;
    }
  }

  lemma TrackStore(r: RxInt, base: nat, a: int, got: set<Frame>, f: Frame)
    requires Tracks(r, base, a, got) && r.free != []
    requires r.last.n + 2 <= f.seqno <= r.last.n + r.win && !Holds(r.list, f.seqno)
    ensures var r' := EnqueueInt(r, f);
      && Tracks(r', base, a, got + {f}) && |r'.free| + |r'.list| == |r.free| + |r.list|
  {
    EnqueueKeepsGapIff(r, f);
    AccountedAfterInsert(r.list, UpTo(r.list, f.seqno), a, r.last.n, got, Mpdu(f, r.free[0]));
    hide QueueInv, Accounted, QueuedFrom, Queued;
  }

  predicate NewNumber(got: set<Frame>, n: int) {
    forall g :: g in got ==> g.seqno != n
  }

  lemma PlacedHas(d: seq<Frame>, base: nat, a: int, n: int, got: set<Frame>, m: int)
    requires Placed(d, base, a, n, got) && a <= m <= n
    ensures !NewNumber(got, m)
  {
    assert d[base + (m - a)] in got;
  }

  /** A frame with a new number is past the last one handed up and not queued. */
  lemma FreshIsAhead(r: RxInt, base: nat, a: int, got: set<Frame>, f: Frame)
    requires Tracks(r, base, a, got) && a <= f.seqno
    requires NewNumber(got, f.seqno)
    ensures r.last.n < f.seqno && !Holds(r.list, f.seqno)
  {
    if f.seqno <= r.last.n {
      PlacedHas(r.delivered, base, a, r.last.n, got, f.seqno);
    }
  }

  lemma TrackArrival(r: RxInt, base: nat, a: int, got: set<Frame>, x: Arrival)
    requires Tracks(r, base, a, got) && |r.free| + |r.list| >= r.win
    requires x.now <= r.timer + REORDERING_PACKET_TIMEOUT
    requires a <= x.frame.seqno <= r.last.n + r.win
    requires NewNumber(got, x.frame.seqno)
    ensures Legal(r, Arrive(x.frame, x.now))
    ensures var r' := ArriveInt(r, x.frame, x.now);
      && Tracks(r', base, a, got + {x.frame}) && |r'.free| + |r'.list| >= r'.win
  {
    var m := r.(timer := x.now);
    assert FlushInt(r, x.now) == r;
    FreshIsAhead(r, base, a, got, x.frame);
    if x.frame.seqno == r.last.n + 1 {
      TrackInOrder(m, base, a, got, x.frame);
    } else {
      ShortQueue(r.list, r.last.n + 2, r.last.n + r.win);
      TrackStore(m, base, a, got, x.frame);
    }
  }

  lemma FramesOfSplit(xs: seq<Arrival>)
    requires xs != []
    ensures FramesOf(xs) == {xs[0].frame} + FramesOf(xs[1..])
  {
    assert forall i :: 0 < i < |xs| ==> xs[i] == xs[1..][i - 1];
  }

  lemma RunFirst(r: RxInt, xs: seq<Arrival>)
    requires xs != []
    ensures RunInt(r, Events(xs)) == RunInt(ArriveInt(r, xs[0].frame, xs[0].now), Events(xs[1..]))
    ensures LegalRun(r, Events(xs)) <==>
      && Legal(r, Arrive(xs[0].frame, xs[0].now))
      && LegalRun(ArriveInt(r, xs[0].frame, xs[0].now), Events(xs[1..]))
  {
    assert Events(xs)[1..] == Events(xs[1..]);
  }

  /** None of the frames still to come repeats a number of `got`. */
  predicate AllNew(got: set<Frame>, a: int, xs: seq<Arrival>) {
    forall i :: 0 <= i < |xs| ==> a <= xs[i].frame.seqno && NewNumber(got, xs[i].frame.seqno)
  }

  lemma {:induction false} TrackRun(r: RxInt, base: nat, a: int, got: set<Frame>, xs: seq<Arrival>)
    requires Tracks(r, base, a, got) && |r.free| + |r.list| >= r.win
    requires Smooth(r, xs) && Distinct(xs) && AllNew(got, a, xs)
    ensures LegalRun(r, Events(xs))
    ensures Tracks(RunInt(r, Events(xs)), base, a, got + FramesOf(xs))
    decreases |xs|
  {
    if xs == [] {
      assert got + FramesOf(xs) == got;
    } else {
      var f := xs[0].frame;
      assert NewNumber(got, f.seqno);
      TrackArrival(r, base, a, got, xs[0]);
      assert AllNew(got + {f}, a, xs[1..]) by {
        forall i | 0 <= i < |xs[1..]|
          ensures NewNumber(got + {f}, xs[1..][i].frame.seqno)
        {
          assert xs[1..][i] == xs[i + 1];
          assert NewNumber(got, xs[i + 1].frame.seqno);
        }
      }
      RunFirst(r, xs);
      FramesOfSplit(xs);
      hide Tracks, ArriveInt, RunInt, Legal, LegalRun, AllNew, NewNumber, FramesOf;
      TrackRun(ArriveInt(r, f, xs[0].now), base, a, got + {f}, xs[1..]);
      assert got + FramesOf(xs) == got + {f} + FramesOf(xs[1..]);
    }
  }

  lemma NumberAccounted(xs: seq<Arrival>, l: seq<Mpdu>, a: int, n: int, m: int)
    requires Accounted(l, a, n, FramesOf(xs)) && Numbered(xs, m)
    ensures m <= n || Holds(l, m)
  {
    var i :| 0 <= i < |xs| && xs[i].frame.seqno == m;
    assert xs[i].frame in FramesOf(xs);
  }

  /** Frames a..b, each arriving once in any order that respects the moving window, are handed up
      as a, a+1, ..., b, each the frame that arrived, and nothing stays queued. */
  lemma PermutationRestored(r: RxInt, a: int, b: int, xs: seq<Arrival>)
    requires Window(r.win) && r.last == At(a - 1) && r.list == [] && |r.free| >= r.win
    requires a <= b + 1 && Covers(xs, a, b) && Distinct(xs) && Smooth(r, xs)
    ensures var r' := RunInt(r, Events(xs));
      && r'.last == At(b) && r'.list == []
      && |r'.delivered| == |r.delivered| + (b - a + 1)
      && forall i :: |r.delivered| <= i < |r'.delivered| ==>
           r'.delivered[i].seqno == a + (i - |r.delivered|) && r'.delivered[i] in FramesOf(xs)
    ensures LegalRun(r, Events(xs))
  {
    var base := |r.delivered|;
    assert AllNew({}, a, xs);
    TrackRun(r, base, a, {}, xs);
    assert {} + FramesOf(xs) == FramesOf(xs);
    var r' := RunInt(r, Events(xs));
    var n, l, d := r'.last.n, r'.list, r'.delivered;
    assert forall f :: f in FramesOf(xs) ==> a <= f.seqno <= b;
    assert n >= a ==> d[|d| - 1] in FramesOf(xs);
    assert l != [] ==> l[0].frame in FramesOf(xs);
    if n < b {
      assert Numbered(xs, n + 1);
      NumberAccounted(xs, l, a, n, n + 1);
    }
  }
}
