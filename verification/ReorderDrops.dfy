/** Which frames are released instead of handed up: only ones that arrive late, twice or too long, and the
    queue of a session whose resources are released. A tear-down hands the queue up. */
module ReorderDrops {
  import opened Reorder
  import opened ReorderConservation
  import opened ReorderInt

  // ------------------------------------------------------------- the two ways a session ends

  /** s is a followed by the frames of the list, in list order. */
  predicate Followed(s: seq<Frame>, a: seq<Frame>, list: seq<Mpdu>) {
    |s| == |a| + |list| && s[..|a|] == a && forall i :: 0 <= i < |list| ==> s[|a| + i] == list[i].frame
  }

  /** A tear-down hands up everything queued, in order, releases nothing, and resets the session. */
  lemma TearDownDelivers(r: Rx)
    ensures var t := TearDown(r);
            && Followed(t.delivered, r.delivered, r.list) && t.dropped == r.dropped
            && t.list == [] && t.last == 0xffff && t.win == 0
  {
    assert r.list[..|r.list|] == r.list;
  }

  /** So does the renewal of a session, which then starts afresh with the new window. */
  lemma RenewDelivers(r: Rx, win: nat)
    ensures var t := Renew(r, win);
            && Followed(t.delivered, r.delivered, r.list) && t.dropped == r.dropped
            && t.list == [] && t.last == 0xffff && t.win == win && t.timer == r.timer
  {
    assert r.list[..|r.list|] == r.list;
  }

  /** Releasing the resources releases everything queued and hands up nothing. */
  lemma ReleaseDrops(r: Rx)
    ensures var t := ReleaseAll(r); Followed(t.dropped, r.dropped, r.list) && t.delivered == r.delivered && t.list == []
  {
  }

  // ------------------------------------------------------------- every event

  /** A stretch of the log with nothing or one frame added. */
  predicate AtMost(s: seq<Frame>, a: seq<Frame>, e: Event) {
    s == a || ((e.Arrive? || e.Oversized?) && s == a + [e.frame])
  }

  lemma EnqueueDrops(r: Rx, f: Frame)
    ensures Enqueue(r, f).dropped == r.dropped || Enqueue(r, f).dropped == r.dropped + [f]
    ensures r.delivered <= Enqueue(r, f).delivered
  {
  }

  lemma FlushDrops(r: Rx, now: int)
    ensures Flush(r, now).dropped == r.dropped && r.delivered <= Flush(r, now).delivered
  {
  }

  lemma ClassifyDrops(r: Rx, f: Frame)
    ensures Classify(r, f).dropped == r.dropped || Classify(r, f).dropped == r.dropped + [f]
    ensures r.delivered <= Classify(r, f).delivered
  {
    hide Enqueue, InOrderCount, LeCount, PushAll;
    EnqueueDrops(r, f);
    var s := WindowStart(f.seqno, r.win);
    EnqueueDrops(DeliverLe(r, s).(last := s), f);
  }

  /** An event releases the frame it brings or nothing, and takes nothing back. */
  lemma StepDrops(r: Rx, e: Event)
    ensures AtMost(Step(r, e).dropped, r.dropped, e) && r.delivered <= Step(r, e).delivered
  {
    hide Classify, Flush, LeCount, PushAll;
    match e
    case Arrive(f, now) =>
      FlushDrops(r, now);
      ClassifyDrops(Flush(r, now).(timer := now), f);
    case FlushTimer(now) => FlushDrops(r, now);
    case _ =>
  }

  // ------------------------------------------------------------- all sessions

  /** The frame an input brings to session s, if any. */
  function Brings(x: Input, s: nat): seq<Frame> {
    if x.session == s && x.action.On? && (x.action.event.Arrive? || x.action.event.Oversized?) then
      [x.action.event.frame]
    else []
  }

  /** The frames the inputs bring to session s, in order. */
  function Arrivals(xs: seq<Input>, s: nat): seq<Frame> {
    if xs == [] then [] else Brings(xs[0], s) + Arrivals(xs[1..], s)
  }

  predicate NoRelease(xs: seq<Input>, s: nat) {
    forall i :: 0 <= i < |xs| ==> !(xs[i].session == s && xs[i].action.Release?)
  }

  /** x is a with some of its entries left out. */
  predicate Subsequence(x: seq<Frame>, a: seq<Frame>) {
    x == [] || (a != [] && ((x[0] == a[0] && Subsequence(x[1..], a[1..])) || Subsequence(x, a[1..])))
  }

  lemma WorldStepDrops(w: World, x: Input, s: nat)
    requires s < |w.sessions| && !(x.session == s && x.action.Release?)
    ensures var o, n := w.sessions[s], StepWorld(w, x).sessions[s];
            && |StepWorld(w, x).sessions| == |w.sessions| && o.delivered <= n.delivered
            && (n.dropped == o.dropped || n.dropped == o.dropped + Brings(x, s))
  {
    hide Step, TearDown, Renew, ReleaseAll;
    if x.session == s {
      var r := w.sessions[s].(free := w.free);
      TearDownDelivers(r);
      if x.action.On? {
        StepDrops(r, x.action.event);
      } else if x.action.Readd? {
        RenewDelivers(r, x.action.win);
      }
    }
  }

  /** Over every run of all sessions, tear-downs included: what a session releases are frames that arrived
      in the run, each at most once and in order of arrival, so never one that was queued; only releasing
      its resources does that. */
  lemma {:induction false} OnlyArrivalsDropped(w: World, xs: seq<Input>, s: nat) returns (x: seq<Frame>)
    requires s < |w.sessions| && NoRelease(xs, s)
    ensures s < |RunWorld(w, xs).sessions|
    ensures RunWorld(w, xs).sessions[s].dropped == w.sessions[s].dropped + x && Subsequence(x, Arrivals(xs, s))
    ensures w.sessions[s].delivered <= RunWorld(w, xs).sessions[s].delivered
    decreases |xs|
  {
    hide StepWorld;
    if xs == [] {
      x := [];
    } else {
      var w1 := StepWorld(w, xs[0]);
      WorldStepDrops(w, xs[0], s);
      var rest := OnlyArrivalsDropped(w1, xs[1..], s);
      var first, later := Brings(xs[0], s), Arrivals(xs[1..], s);
      Extends(rest, later, first);
      x := if w1.sessions[s].dropped == w.sessions[s].dropped then rest else first + rest;
    }
  }

  lemma Extends(x: seq<Frame>, a: seq<Frame>, f: seq<Frame>)
    requires Subsequence(x, a) && |f| <= 1
    ensures Subsequence(x, f + a) && Subsequence(f + x, f + a)
  {
    if f == [] {
      assert f + a == a && f + x == x;
    } else {
      assert (f + a)[1..] == a && (f + x)[1..] == x;
    }
  }

  // ------------------------------------------------------------- exactly which

  /** A frame that is released: too long, not after the last number, or queued already with a block to
      spare. */
  predicate Discards(r: RxInt, e: Event) {
    match e
    case Arrive(f, now) =>
      var m := FlushInt(r, now);
      m.last.At? && f.seqno != m.last.n + 1 && (f.seqno <= m.last.n || (m.free != [] && Holds(m.list, f.seqno)))
    case Oversized(f) => true
    case _ => false
  }

  /** The reference releases a frame exactly then. */
  lemma DiscardsExactly(r: RxInt, e: Event)
    requires Loose(r)
    ensures StepInt(r, e).dropped == r.dropped + if Discards(r, e) then [e.frame] else []
  {
    hide UpTo, RunLength, FlushInt;
    if e.Arrive? || e.FlushTimer? {
      LooseFlush(r, e.now);
      FlushDropsNothing(r, e.now);
    }
  }

  lemma FlushDropsNothing(r: RxInt, now: int)
    ensures FlushInt(r, now).dropped == r.dropped
  {
  }

  // ------------------------------------------------------------- how long frames wait

  /** In ticks of 10 ms since the last arrival or flush: up to 10 nothing happens; up to 50, or with a
      single frame queued, the number after the last one is given up and what then follows is handed up;
      after 50 several frames are all handed up and the session is reset. */
  lemma FlushTimes(r: Rx, now: int)
    ensures now - r.timer <= 10 || r.list == [] ==> Flush(r, now) == r
    ensures now - r.timer > 10 && r.list != [] ==> Flush(r, now).timer == now
    ensures now - r.timer > 10 && r.list != [] && (now - r.timer <= 50 || |r.list| == 1) ==>
              Flush(r, now) == SkipOne(r, now)
    ensures now - r.timer > 50 && |r.list| > 1 ==>
              Followed(Flush(r, now).delivered, r.delivered, r.list) && Flush(r, now).list == [] &&
                Flush(r, now).last == 0xffff
  {
    hide InOrderCount, LeCount, PushAll;
    assert r.list[..|r.list|] == r.list;
  }
}
