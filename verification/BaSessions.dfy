/** What the session tables mean: for every station and TID a session that is absent, waiting for its
    response after so many requests, or open. Every operation moves exactly one of them. */
module BaSessions {
  import opened BaTablesSpec

  datatype Session = Absent | Waiting(requests: nat) | Opened

  /** The session of the k-th station and TID. */
  ghost function State(t: Tab, k: nat): Session
    requires Inv(t) && k < 256
  {
    assert LinksBack(t, k);
    var i := t.link[k];
    if i == 0 then Absent else if t.e[i].status.Pending? then Waiting(t.e[i].token) else Opened
  }

  /** u differs from t in the session of k at most, which is s there. */
  ghost predicate Moves(t: Tab, u: Tab, k: nat, s: Session)
    requires Inv(t) && Inv(u) && k < 256
  {
    State(u, k) == s && forall j :: 0 <= j < 256 && j != k ==> State(u, j) == State(t, j)
  }

  /** The bit says whether the session is open. */
  lemma BitMeans(t: Tab, k: nat)
    requires Inv(t) && k < 256
    ensures t.bit[k] <==> State(t, k).Opened?
  {
    assert LinksBack(t, k) && BitRight(t, k);
  }

  /** Entries other than i keep their sessions if entry i and the link of k are all that changes. */
  lemma OthersStay(t: Tab, u: Tab, i: nat, k: nat)
    requires Inv(t) && Inv(u) && i < 128 && k < 256
    requires forall j :: 0 <= j < 256 && j != k ==> u.link[j] == t.link[j] && t.link[j] != i
    requires forall j :: 0 <= j < 128 && j != i ==> u.e[j] == t.e[j]
    ensures forall j :: 0 <= j < 256 && j != k ==> State(u, j) == State(t, j)
  {
    forall j | 0 <= j < 256 && j != k
      ensures State(u, j) == State(t, j)
    {
      assert LinksBack(t, j) && LinksBack(u, j);
    }
  }

  /** A busy entry belongs to its own station and TID alone. */
  lemma OwnedOnce(t: Tab, i: nat, k: nat)
    requires Inv(t) && 0 < i < 128 && k < 256
    requires t.e[i].status.None? || t.link[k] == i
    ensures forall j :: 0 <= j < 256 && j != k ==> t.link[j] != i
  {
    forall j | 0 <= j < 256 && j != k
      ensures t.link[j] != i
    {
      assert LinksBack(t, j) && LinksBack(t, k);
    }
  }

  // ------------------------------------------------------------- the operations

  /** A set-up starts a session, with one request, exactly if there is none and fewer than 127 are in
      use. */
  lemma SetUpMeans(t: Tab, w: nat, d: nat)
    requires Inv(t) && w < 32 && d < 8
    ensures var u, k := SetUp(t, w, d), Key(w, d);
            && Inv(u)
            && if State(t, k).Absent? && t.num < 127 then Moves(t, u, k, Waiting(1)) && u.num == t.num + 1 else u == t
  {
    var u, k, i := SetUp(t, w, d), Key(w, d), FirstFree(t.e, 1);
    SetUpKeeps(t, w, d);
    FreeIffRoom(t);
    if State(t, k).Absent? && t.num < 127 {
      OwnedOnce(t, i, k);
      OthersStay(t, u, i, k);
    }
  }

  /** A response opens a waiting session and changes nothing else. */
  lemma RespondMeans(t: Tab, w: nat, d: nat)
    requires Inv(t) && w < 32 && d < 8
    ensures var u, k := Respond(t, w, d), Key(w, d);
            && Inv(u) && u.num == t.num
            && if State(t, k).Waiting? then Moves(t, u, k, Opened) && u.bit[k] else u == t
  {
    var u, k := Respond(t, w, d), Key(w, d);
    var i := t.link[k];
    RespondKeeps(t, w, d);
    assert LinksBack(t, k);
    if i != 0 {
      KeyInjective(t.e[i].wcid, t.e[i].tid, w, d);
      OwnedOnce(t, i, k);
      if t.e[i].status.Pending? {
        OthersStay(t, u, i, k);
      }
    }
  }

  lemma ReleaseMeans(t: Tab, k: nat)
    requires Inv(t) && k < 256
    ensures var u := Release(t, t.link[k]);
            && Inv(u) && Moves(t, u, k, Absent)
            && u.num == t.num - (if State(t, k).Absent? then 0 else 1)
  {
    var i := t.link[k];
    var u := Release(t, i);
    ReleaseKeeps(t, i);
    assert LinksBack(t, k);
    if i != 0 {
      OwnedOnce(t, i, k);
      OthersStay(t, u, i, k);
      CountUpdate(t.e, i, t.e[i].(status := None, token := 0));
    }
  }

  /** A tear-down ends the session of its station and TID and no other. */
  lemma TearDownMeans(t: Tab, w: nat, d: nat)
    requires Inv(t) && d < 8
    ensures Inv(TearDown(t, w, d))
    ensures w < 32 ==> Moves(t, TearDown(t, w, d), Key(w, d), Absent) && !TearDown(t, w, d).bit[Key(w, d)]
    ensures w >= 32 ==> TearDown(t, w, d) == t
  {
    TearDownKeeps(t, w, d);
    if w < 32 {
      ReleaseMeans(t, Key(w, d));
    }
  }

  /** The timer of a waiting session sends another request up to the eighth, and then ends it. The timer of
      an entry that is free again ends the session its last station and TID have by then, if any. */
  lemma TimeoutMeans(t: Tab, i: nat)
    requires Inv(t) && i < 128
    ensures var u, k := Timeout(t, i), Key(t.e[i].wcid, t.e[i].tid);
            && Inv(u) && k < 256 && (!t.e[i].status.None? ==> t.link[k] == i)
            && if !t.e[i].status.None? && State(t, k).Waiting? then
                 var n := State(t, k).requests;
                 (Sends(t, i) <==> n < 8) && Moves(t, u, k, if n < 8 then Waiting(n + 1) else Absent)
               else !Sends(t, i) && Moves(t, u, k, Absent)
  {
    var u, k := Timeout(t, i), Key(t.e[i].wcid, t.e[i].tid);
    TimeoutKeeps(t, i);
    assert LinkedFrom(t, i);
    if Sends(t, i) {
      OwnedOnce(t, i, k);
      OthersStay(t, u, i, k);
    } else {
      ReleaseMeans(t, k);
    }
  }

  /** A request of the peer opens the session exactly if there is one already or fewer than 8 are in
      use. */
  lemma AcceptMeans(t: Tab, w: nat, d: nat)
    requires Inv(t) && w < 32 && d < 8
    ensures var u, k := Accept(t, w, d), Key(w, d);
            && Inv(u) && (Accepts(t, w, d) <==> !State(t, k).Absent? || t.num < 8)
            && (if Accepts(t, w, d) then Moves(t, u, k, Opened) && u.bit[k] else u == t)
            && u.num == t.num + (if State(t, k).Absent? && t.num < 8 then 1 else 0)
  {
    var u, k := Accept(t, w, d), Key(w, d);
    var i := if t.link[k] != 0 then t.link[k] else FirstFree(t.e, 1);
    AcceptKeeps(t, w, d);
    FreeIffRoom(t);
    assert LinksBack(t, k);
    if Accepts(t, w, d) {
      OwnedOnce(t, i, k);
      OthersStay(t, u, i, k);
    }
  }

  // ------------------------------------------------------------- runs

  lemma StepLimits(s: Tables, op: Op)
    requires Inv(s.ori) && Inv(s.rec) && InRange(op) && s.rec.num <= 8
    ensures Step(s, op).rec.num <= 8
  {
    hide Inv, SetUp, Respond, Timeout, TearDown, Accept, Moves, State;
    match op
    case PeerRequest(w, d) => AcceptMeans(s.rec, w, d);
    case EndRecipient(w, d) => ReleaseFewer(s.rec, w, d);
    case _ =>
  }

  lemma ReleaseFewer(t: Tab, w: nat, d: nat)
    requires Inv(t) && w < 32 && d < 8
    ensures TearDown(t, w, d).num <= t.num
  {
    hide Inv, Moves, State;
    ReleaseMeans(t, Key(w, d));
  }

  /** Over every run there are never more than 8 recipient sessions, nor more than 127 of an originator. */
  lemma {:induction false} AlwaysFew(s: Tables, ops: seq<Op>)
    requires Inv(s.ori) && Inv(s.rec) && (forall i :: 0 <= i < |ops| ==> InRange(ops[i])) && s.rec.num <= 8
    ensures Run(s, ops).rec.num <= 8 && Run(s, ops).ori.num <= 127
    decreases |ops|
  {
    hide Step, CountBusy;
    if ops == [] {
      FreeIffRoom(s.ori);
    } else {
      StepKeeps(s, ops[0]);
      StepLimits(s, ops[0]);
      AlwaysFew(Step(s, ops[0]), ops[1..]);
    }
  }

  /** The table after n timeouts of entry i in a row. */
  ghost function TimedOut(t: Tab, i: nat, n: nat): (u: Tab)
    requires Inv(t) && i < 128
    ensures Inv(u)
  {
    if n == 0 then t else
      var u := TimedOut(t, i, n - 1);
      TimeoutKeeps(u, i);
      Timeout(u, i)
  }

  /** After a set-up each of the next seven timeouts sends a request, and the eighth ends the session. */
  lemma {:induction false} SevenRequests(t: Tab, w: nat, d: nat, n: nat)
    requires Inv(t) && w < 32 && d < 8 && State(t, Key(w, d)).Absent? && t.num < 127 && n <= 7
    ensures var s := SetUp(t, w, d); var i := s.link[Key(w, d)];
            && Inv(s) && 0 < i < 128
            && var u := TimedOut(s, i, n);
               && u.link[Key(w, d)] == i && State(u, Key(w, d)) == Waiting(n + 1) && (Sends(u, i) <==> n < 7)
               && (n == 7 ==> State(TimedOut(s, i, 8), Key(w, d)).Absent?)
  {
    hide FirstFree;
    var s, k := SetUp(t, w, d), Key(w, d);
    SetUpMeans(t, w, d);
    var i := s.link[k];
    assert LinksBack(s, k);
    if n > 0 {
      SevenRequests(t, w, d, n - 1);
      OneMore(TimedOut(s, i, n - 1), i, k, n);
    }
    if n == 7 {
      LastOne(TimedOut(s, i, 7), i, k);
    }
  }

  lemma OneMore(u: Tab, i: nat, k: nat, n: nat)
    requires Inv(u) && 0 < i < 128 && k < 256 && u.link[k] == i && State(u, k) == Waiting(n) && 0 < n < 8
    ensures var v := Timeout(u, i);
            Inv(v) && v.link[k] == i && State(v, k) == Waiting(n + 1) && (Sends(v, i) <==> n + 1 < 8)
  {
    assert LinksBack(u, k);
    TimeoutMeans(u, i);
  }

  lemma LastOne(u: Tab, i: nat, k: nat)
    requires Inv(u) && 0 < i < 128 && k < 256 && u.link[k] == i && State(u, k) == Waiting(8)
    ensures Inv(Timeout(u, i)) && State(Timeout(u, i), k).Absent?
  {
    assert LinksBack(u, k);
    TimeoutMeans(u, i);
  }
}
