/** The block-ack session tables of common/ba_action.c, on values. The originator and the recipient
    table have the same shape. */
module BaTablesSpec {
  /** The four session states, in order: NONE, USED, then WaitRes or HandleRes, then Done or Accept. */
  datatype Status = None | Used | Pending | Open

  /** BA_ORI_ENTRY and BA_REC_ENTRY; the token counts the ADDBA requests of an originator. */
  datatype Entry = Entry(status: Status, wcid: nat, tid: nat, token: nat)

  /** One table: its entries, their number in use, and for each station and TID the index of its
      session (0 for none) and the bit of its bitmap. */
  datatype Tab = Tab(e: seq<Entry>, num: nat, link: seq<nat>, bit: seq<bool>)

  function Key(wcid: nat, tid: nat): nat { 8 * wcid + tid }

  predicate Live(s: Status) { s.Pending? || s.Open? }

  function CountBusy(e: seq<Entry>): (n: nat)
    ensures n <= |e|
  {
    if e == [] then 0 else CountBusy(e[..|e| - 1]) + if e[|e| - 1].status.None? then 0 else 1
  }

  ghost predicate Shape(t: Tab) {
    |t.e| == 128 && |t.link| == |t.bit| == 256 && forall i :: 0 <= i < 128 ==> t.e[i].wcid < 32 && t.e[i].tid < 8
  }

  /** The session a station and TID are linked to is live and is theirs. */
  ghost predicate LinksBack(t: Tab, k: nat)
    requires Shape(t) && k < 256
  {
    t.link[k] != 0 ==>
      t.link[k] < 128 && Live(t.e[t.link[k]].status) && Key(t.e[t.link[k]].wcid, t.e[t.link[k]].tid) == k
  }

  /** A busy entry is live, and its own station and TID are linked to it. */
  ghost predicate LinkedFrom(t: Tab, i: nat)
    requires Shape(t) && i < 128
  {
    !t.e[i].status.None? ==> i > 0 && Live(t.e[i].status) && t.link[Key(t.e[i].wcid, t.e[i].tid)] == i
  }

  /** The bit is set exactly for an open session. */
  ghost predicate BitRight(t: Tab, k: nat)
    requires Shape(t) && k < 256
  {
    t.bit[k] <==> t.link[k] != 0 && t.link[k] < 128 && t.e[t.link[k]].status.Open?
  }

  ghost predicate Inv(t: Tab) {
    && Shape(t) && t.num == CountBusy(t.e)
    && (forall k :: 0 <= k < 256 ==> LinksBack(t, k) && BitRight(t, k))
    && (forall i :: 0 <= i < 128 ==> LinkedFrom(t, i))
    && (forall i :: 0 <= i < 128 && Live(t.e[i].status) ==> t.e[i].token <= 8)
  }

  const EMPTY: Tab := Tab(seq(128, _ => Entry(None, 0, 0, 0)), 0, seq(256, _ => 0), seq(256, _ => false))

  /** Two stations or TIDs never share a session. */
  lemma LinksInjective(t: Tab, j: nat, k: nat)
    requires Inv(t) && j < 256 && k < 256 && t.link[j] == t.link[k] != 0
    ensures j == k
  {
    assert LinksBack(t, j) && LinksBack(t, k);
  }

  // ------------------------------------------------------------- counting and allocating

  lemma {:induction false} CountUpdate(e: seq<Entry>, i: nat, x: Entry)
    requires i < |e|
    ensures CountBusy(e[i := x])
            == CountBusy(e) - (if e[i].status.None? then 0 else 1) + (if x.status.None? then 0 else 1)
  {
    var f := e[i := x];
    if i == |e| - 1 {
      assert f[..i] == e[..i];
    } else {
      assert f[..|e| - 1] == e[..|e| - 1][i := x];
      CountUpdate(e[..|e| - 1], i, x);
    }
  }

  /** The first free entry from index i on, or |e|. */
  function FirstFree(e: seq<Entry>, i: nat): (r: nat)
    requires i <= |e|
    ensures i <= r <= |e| && (r < |e| ==> e[r].status.None?)
    ensures forall j :: i <= j < r ==> !e[j].status.None?
    decreases |e| - i
  {
    if i == |e| || e[i].status.None? then i else FirstFree(e, i + 1)
  }

  lemma {:induction false} CountAtLeast(e: seq<Entry>, n: nat)
    requires n <= |e| && forall j :: n <= j < |e| ==> !e[j].status.None?
    ensures CountBusy(e) >= |e| - n
    decreases |e|
  {
    if n < |e| {
      CountAtLeast(e[..|e| - 1], n);
    }
  }

  lemma {:induction false} CountAtMost(e: seq<Entry>, n: nat)
    requires n <= |e| && forall j :: 0 <= j < n ==> e[j].status.None?
    ensures CountBusy(e) <= |e| - n
    decreases |e|
  {
    if n < |e| {
      CountAtMost(e[..|e| - 1], n);
    } else if n > 0 {
      CountAtMost(e[..n - 1], n - 1);
    }
  }

  /** A free entry is found exactly when fewer than 127 are in use; in particular below the limit of
      8 recipient sessions, and the originator test against 128 never fires. */
  lemma FreeIffRoom(t: Tab)
    requires Inv(t)
    ensures FirstFree(t.e, 1) < 128 <==> t.num < 127
    ensures t.num <= 127
  {
    assert LinkedFrom(t, 0);
    CountAtMost(t.e, 1);
    var r := FirstFree(t.e, 1);
    if r == 128 {
      CountAtLeast(t.e, 1);
    } else {
      CountUpdate(t.e, r, t.e[r].(status := Used));
      CountAtMost(t.e[r := t.e[r].(status := Used)], 1);
    }
  }

  // ------------------------------------------------------------- the operations

  /** A session for station w and TID d placed at i. */
  function Place(t: Tab, i: nat, w: nat, d: nat, s: Status, token: nat): Tab
    requires |t.e| == 128 && |t.link| == 256 && 0 < i < 128 && w < 32 && d < 8
  {
    t.(e := t.e[i := Entry(s, w, d, token)], link := t.link[Key(w, d) := i])
  }

  /** BAOriSessionSetUp, once the configuration allows it. */
  function SetUp(t: Tab, w: nat, d: nat): Tab
    requires |t.e| == 128 && |t.link| == 256 && w < 32 && d < 8
  {
    var i := FirstFree(t.e, 1);
    if t.link[Key(w, d)] != 0 || t.num >= 128 || i == 128 then t
    else Place(t, i, w, d, Pending, 1).(num := t.num + 1)
  }

  /** BAOriSessionAdd: the peer's response opens a waiting session. */
  function Respond(t: Tab, w: nat, d: nat): Tab
    requires |t.e| == 128 && |t.link| == |t.bit| == 256 && w < 32 && d < 8
  {
    var i := t.link[Key(w, d)];
    if 0 < i < 128 && t.e[i].tid == d && t.e[i].status.Pending? then
      t.(e := t.e[i := t.e[i].(status := Open)], bit := t.bit[Key(w, d) := true])
    else t
  }

  /** BATableFreeOriEntry; also the effect of BARecSessionTearDown on a session. */
  function Release(t: Tab, i: nat): Tab
    requires Shape(t)
  {
    if i == 0 || i >= 128 || t.e[i].status.None? then t
    else
      var k := Key(t.e[i].wcid, t.e[i].tid);
      Tab(t.e[i := t.e[i].(status := None, token := 0)], if t.num > 0 then t.num - 1 else 0, t.link[k := 0],
          if t.e[i].status.Open? then t.bit[k := false] else t.bit)
  }

  /** BAOriSessionTearDown and BARecSessionTearDown. */
  function TearDown(t: Tab, w: nat, d: nat): Tab
    requires Shape(t) && d < 8
  {
    if w >= 32 then t else Release(t, t.link[Key(w, d)])
  }

  /** Whether the set-up timer of entry i sends another ADDBA request. */
  predicate Sends(t: Tab, i: nat)
    requires |t.e| == 128 && i < 128
  {
    t.e[i].status.Pending? && t.e[i].token < 8
  }

  /** BAOriSessionSetupTimeout: another request, or the session of its station and TID is freed. */
  function Timeout(t: Tab, i: nat): Tab
    requires Shape(t) && i < 128
  {
    if Sends(t, i) then t.(e := t.e[i := t.e[i].(token := t.e[i].token + 1)])
    else Release(t, t.link[Key(t.e[i].wcid, t.e[i].tid)])
  }

  /** BARecSessionAdd: whether it accepts, and the table then. */
  function Accepts(t: Tab, w: nat, d: nat): bool
    requires |t.link| == 256 && w < 32 && d < 8
  {
    t.link[Key(w, d)] != 0 || t.num < 8
  }

  function Accept(t: Tab, w: nat, d: nat): Tab
    requires |t.e| == 128 && |t.link| == |t.bit| == 256 && w < 32 && d < 8
  {
    var i := t.link[Key(w, d)];
    var marked := t.(bit := t.bit[Key(w, d) := true]);
    if 0 < i < 128 then Place(marked, i, w, d, Open, t.e[i].token)
    else if t.num >= 8 || FirstFree(t.e, 1) == 128 then t
    else Place(marked, FirstFree(t.e, 1), w, d, Open, 0).(num := t.num + 1)
  }

  // ------------------------------------------------------------- what every operation keeps

  /** Keys determine station and TID. */
  lemma KeyInjective(w: nat, d: nat, w': nat, d': nat)
    requires d < 8 && d' < 8 && Key(w, d) == Key(w', d')
    ensures w == w' && d == d'
  {
  }

  lemma NewKeeps(t: Tab, i: nat, w: nat, d: nat, s: Status, token: nat)
    requires Inv(t) && 0 < i < 128 && t.e[i].status.None?
    requires w < 32 && d < 8 && t.link[Key(w, d)] == 0 && Live(s) && token <= 8
    ensures Inv(Place(t, i, w, d, s, token).(num := t.num + 1, bit := t.bit[Key(w, d) := s.Open?]))
  {
    var k := Key(w, d);
    var u := Place(t, i, w, d, s, token).(num := t.num + 1, bit := t.bit[k := s.Open?]);
    CountUpdate(t.e, i, Entry(s, w, d, token));
    forall j | 0 <= j < 256
      ensures LinksBack(u, j) && BitRight(u, j)
    {
      assert LinksBack(t, j) && BitRight(t, j);
    }
    forall j | 0 <= j < 128
      ensures LinkedFrom(u, j)
    {
      assert LinkedFrom(t, j);
    }
  }

  lemma SetUpKeeps(t: Tab, w: nat, d: nat)
    requires Inv(t) && w < 32 && d < 8
    ensures Inv(SetUp(t, w, d))
  {
    hide Inv, FirstFree;
    SetUpShape(t, w, d);
    var i := FirstFree(t.e, 1);
    if t.link[Key(w, d)] == 0 && t.num < 128 && i < 128 {
      NewKeeps(t, i, w, d, Pending, 1);
      assert t.bit == t.bit[Key(w, d) := false];
    }
  }

  lemma SetUpShape(t: Tab, w: nat, d: nat)
    requires Inv(t) && w < 32 && d < 8
    ensures Shape(t) && (t.link[Key(w, d)] == 0 ==> !t.bit[Key(w, d)])
  {
    assert BitRight(t, Key(w, d));
  }

  /** Changing the state of a live session at i, with its bit. */
  lemma ReviseKeeps(t: Tab, i: nat, s: Status, token: nat)
    requires Inv(t) && 0 < i < 128 && Live(t.e[i].status) && Live(s) && token <= 8
    ensures var k := Key(t.e[i].wcid, t.e[i].tid);
            Inv(t.(e := t.e[i := t.e[i].(status := s, token := token)], bit := t.bit[k := s.Open?]))
  {
    var k := Key(t.e[i].wcid, t.e[i].tid);
    var u := t.(e := t.e[i := t.e[i].(status := s, token := token)], bit := t.bit[k := s.Open?]);
    CountUpdate(t.e, i, t.e[i].(status := s, token := token));
    assert LinkedFrom(t, i);
    forall j | 0 <= j < 256
      ensures LinksBack(u, j) && BitRight(u, j)
    {
      assert LinksBack(t, j) && BitRight(t, j);
    }
    forall j | 0 <= j < 128
      ensures LinkedFrom(u, j)
    {
      assert LinkedFrom(t, j);
    }
  }

  lemma ReleaseKeeps(t: Tab, i: nat)
    requires Inv(t)
    ensures Inv(Release(t, i))
  {
    if 0 < i < 128 && !t.e[i].status.None? {
      var k := Key(t.e[i].wcid, t.e[i].tid);
      var u := Release(t, i);
      CountUpdate(t.e, i, t.e[i].(status := None, token := 0));
      assert LinkedFrom(t, i) && BitRight(t, k);
      forall j | 0 <= j < 256
        ensures LinksBack(u, j) && BitRight(u, j)
      {
        assert LinksBack(t, j) && BitRight(t, j);
      }
      forall j | 0 <= j < 128
        ensures LinkedFrom(u, j)
      {
        assert LinkedFrom(t, j);
      }
    }
  }

  lemma RespondKeeps(t: Tab, w: nat, d: nat)
    requires Inv(t) && w < 32 && d < 8
    ensures Inv(Respond(t, w, d))
  {
    var i := t.link[Key(w, d)];
    assert LinksBack(t, Key(w, d));
    if 0 < i < 128 && t.e[i].status.Pending? {
      ReviseKeeps(t, i, Open, t.e[i].token);
    }
  }

  lemma TimeoutKeeps(t: Tab, i: nat)
    requires Inv(t) && i < 128
    ensures Inv(Timeout(t, i))
  {
    if Sends(t, i) {
      assert LinkedFrom(t, i);
      var k := Key(t.e[i].wcid, t.e[i].tid);
      assert BitRight(t, k);
      ReviseKeeps(t, i, Pending, t.e[i].token + 1);
      assert t.bit[k := false] == t.bit;
    } else {
      ReleaseKeeps(t, t.link[Key(t.e[i].wcid, t.e[i].tid)]);
    }
  }

  lemma AcceptKeeps(t: Tab, w: nat, d: nat)
    requires Inv(t) && w < 32 && d < 8
    ensures Inv(Accept(t, w, d))
    ensures Accepts(t, w, d) <==> Accept(t, w, d).bit[Key(w, d)]
  {
    var k := Key(w, d);
    var i := t.link[k];
    assert LinksBack(t, k) && BitRight(t, k);
    FreeIffRoom(t);
    if i != 0 {
      KeyInjective(t.e[i].wcid, t.e[i].tid, w, d);
      ReviseKeeps(t, i, Open, t.e[i].token);
      assert t.link[k := i] == t.link;
    } else if t.num < 8 {
      NewKeeps(t, FirstFree(t.e, 1), w, d, Open, 0);
    }
  }

  lemma TearDownKeeps(t: Tab, w: nat, d: nat)
    requires Inv(t) && d < 8
    ensures Inv(TearDown(t, w, d))
    ensures w < 32 ==> TearDown(t, w, d).link[Key(w, d)] == 0 && !TearDown(t, w, d).bit[Key(w, d)]
  {
    if w < 32 {
      var k := Key(w, d);
      assert LinksBack(t, k) && BitRight(t, k);
      ReleaseKeeps(t, t.link[k]);
    }
  }

  lemma EmptyInv()
    ensures Inv(EMPTY)
  {
    CountAtMost(EMPTY.e, 128);
  }

  // ------------------------------------------------------------- runs

  datatype Op = AddRequest(wcid: nat, tid: nat) | AddResponse(wcid: nat, tid: nat) | TimerFires(index: nat)
              | EndOriginator(wcid: nat, tid: nat) | PeerRequest(wcid: nat, tid: nat)
              | EndRecipient(wcid: nat, tid: nat)

  predicate InRange(op: Op) { if op.TimerFires? then op.index < 128 else op.wcid < 32 && op.tid < 8 }

  datatype Tables = Tables(ori: Tab, rec: Tab)

  function Step(s: Tables, op: Op): Tables
    requires Shape(s.ori) && Shape(s.rec) && InRange(op)
  {
    match op
    case AddRequest(w, d) => s.(ori := SetUp(s.ori, w, d))
    case AddResponse(w, d) => s.(ori := Respond(s.ori, w, d))
    case TimerFires(i) => s.(ori := Timeout(s.ori, i))
    case EndOriginator(w, d) => s.(ori := TearDown(s.ori, w, d))
    case PeerRequest(w, d) => s.(rec := Accept(s.rec, w, d))
    case EndRecipient(w, d) => s.(rec := TearDown(s.rec, w, d))
  }

  lemma StepKeeps(s: Tables, op: Op)
    requires Inv(s.ori) && Inv(s.rec) && InRange(op)
    ensures Inv(Step(s, op).ori) && Inv(Step(s, op).rec)
  {
    hide Inv, SetUp, Respond, Timeout, TearDown, Accept;
    match op
    case AddRequest(w, d) => SetUpKeeps(s.ori, w, d);
    case AddResponse(w, d) => RespondKeeps(s.ori, w, d);
    case TimerFires(i) => TimeoutKeeps(s.ori, i);
    case EndOriginator(w, d) => TearDownKeeps(s.ori, w, d);
    case PeerRequest(w, d) => AcceptKeeps(s.rec, w, d);
    case EndRecipient(w, d) => TearDownKeeps(s.rec, w, d);
  }

  ghost function Run(s: Tables, ops: seq<Op>): (n: Tables)
    requires Inv(s.ori) && Inv(s.rec) && forall i :: 0 <= i < |ops| ==> InRange(ops[i])
    ensures Inv(n.ori) && Inv(n.rec)
    decreases |ops|
  {
    if ops == [] then s else
      StepKeeps(s, ops[0]);
      Run(Step(s, ops[0]), ops[1..])
  }

  /** From the empty tables, any mix of requests, responses, timeouts and tear-downs keeps both tables
      consistent. */
  lemma AlwaysConsistent(ops: seq<Op>)
    requires forall i :: 0 <= i < |ops| ==> InRange(ops[i])
    ensures Inv(EMPTY) && var n := Run(Tables(EMPTY, EMPTY), ops); Inv(n.ori) && Inv(n.rec)
  {
    EmptyInv();
  }

  // ------------------------------------------------------------- how often a set-up asks

  /** How many ADDBA requests entry i sends during a run. */
  ghost function Requests(s: Tables, ops: seq<Op>, i: nat): nat
    requires Inv(s.ori) && Inv(s.rec) && (forall j :: 0 <= j < |ops| ==> InRange(ops[j])) && i < 128
    decreases |ops|
  {
    if ops == [] then 0 else
      StepKeeps(s, ops[0]);
      (if ops[0] == TimerFires(i) && Sends(s.ori, i) then 1 else 0) + Requests(Step(s, ops[0]), ops[1..], i)
  }

  /** Entry i is never freed during the run. */
  ghost predicate Stays(s: Tables, ops: seq<Op>, i: nat)
    requires Inv(s.ori) && Inv(s.rec) && (forall j :: 0 <= j < |ops| ==> InRange(ops[j])) && i < 128
    decreases |ops|
  {
    !s.ori.e[i].status.None? &&
    (ops == [] || (StepKeeps(s, ops[0]); Stays(Step(s, ops[0]), ops[1..], i)))
  }

  /** While a session stays, only a request of its own changes its token, by one. */
  lemma TokenMoves(s: Tables, op: Op, i: nat)
    requires Inv(s.ori) && Inv(s.rec) && InRange(op) && i < 128 && !s.ori.e[i].status.None?
    requires !Step(s, op).ori.e[i].status.None?
    ensures Step(s, op).ori.e[i].token == s.ori.e[i].token + (if op == TimerFires(i) && Sends(s.ori, i) then 1 else 0)
  {
  }

  /** One set-up, which starts its token at 1, sends at most seven requests before it is freed. */
  lemma {:induction false} AtMostSeven(s: Tables, ops: seq<Op>, i: nat)
    requires Inv(s.ori) && Inv(s.rec) && (forall j :: 0 <= j < |ops| ==> InRange(ops[j])) && i < 128
    requires Stays(s, ops, i)
    ensures Requests(s, ops, i) + s.ori.e[i].token <= 8
    decreases |ops|
  {
    if ops == [] {
      assert LinkedFrom(s.ori, i);
    } else {
      StepKeeps(s, ops[0]);
      TokenMoves(s, ops[0], i);
      AtMostSeven(Step(s, ops[0]), ops[1..], i);
    }
  }

  lemma SetUpStartsAtOne(t: Tab, w: nat, d: nat)
    requires Inv(t) && w < 32 && d < 8 && SetUp(t, w, d) != t
    ensures var i := SetUp(t, w, d).link[Key(w, d)]; 0 < i < 128 && SetUp(t, w, d).e[i] == Entry(Pending, w, d, 1)
    ensures t.link[Key(w, d)] == 0
  {
  }
}

/** The session tables as common/ba_action.c updates them. */
module BaTables {
  import opened BaTablesSpec

  class SessionTable {
    const e: array<Entry>
    const link: array<nat>
    const bit: array<bool>
    var num: nat

    ghost function View(): Tab
      reads this, e, link, bit
    {
      Tab(e[..], num, link[..], bit[..])
    }

    ghost predicate Valid()
      reads this, e, link, bit
    {
      Inv(View())
    }

    constructor ()
      ensures View() == EMPTY && Valid() && fresh(e) && fresh(link) && fresh(bit)
    {
      e := new Entry[128](_ => Entry(None, 0, 0, 0));
      link := new nat[256](_ => 0);
      bit := new bool[256](_ => false);
      num := 0;
      new;
      assert e[..] == EMPTY.e && link[..] == EMPTY.link && bit[..] == EMPTY.bit;
      EmptyInv();
    }

    /** The search both allocators make: the entry they end at and the index they report. With no free
        entry they end at the last one, and report no index (0). */
    method Search() returns (at: nat, idx: nat)
      requires e.Length == 128
      ensures var r := FirstFree(e[..], 1); if r < 128 then at == idx == r else at == 127 && idx == 0
    {
      at, idx := 127, 0;
      for i := 1 to 128
        invariant FirstFree(e[..], 1) == FirstFree(e[..], i) && at == 127 && idx == 0
      {
        if e[i].status.None? {
          return i, i;
        }
      }
    }

    /** BATableAllocOriEntry below its limit: the first free entry is marked as used and counted. */
    method Allocate() returns (at: nat, idx: nat)
      requires e.Length == 128
      modifies this`num, e
      ensures var r := FirstFree(old(e[..]), 1);
              if r < 128 then
                at == idx == r && num == old(num) + 1 && e[..] == old(e[..])[r := old(e[..])[r].(status := Used)]
              else at == 127 && idx == 0 && num == old(num) && e[..] == old(e[..])
    {
      hide FirstFree;
      at, idx := Search();
      if idx != 0 {
        num := num + 1;
        e[at] := e[at].(status := Used);
      }
    }

    /** The end of BAOriSessionSetUp: an entry that is not live yet is linked and waits for a response. */
    method Enter(at: nat, idx: nat, w: nat, d: nat)
      requires at < e.Length == 128 && link.Length == 256 && w < 32 && d < 8
      modifies e, link
      ensures if Live(old(e[at]).status) then e[..] == old(e[..]) && link[..] == old(link[..])
              else e[..] == old(e[..])[at := Entry(Pending, w, d, 1)] && link[..] == old(link[..])[Key(w, d) := idx]
    {
      if !Live(e[at].status) {
        link[Key(w, d)] := idx;
        e[at] := Entry(Pending, w, d, 1);
      }
    }

    /** BAOriSessionSetUp; `allowed` is what the configuration and the transmit mode say. */
    method SetUp(w: nat, d: nat, allowed: bool)
      requires Valid() && w < 32 && d < 8
      modifies this, e, link
      ensures Valid() && View() == if allowed then BaTablesSpec.SetUp(old(View()), w, d) else old(View())
    {
      hide FirstFree, Inv;
      ghost var t := View();
      ShapeOf(t);
      if !allowed {
        return;
      }
      SetUpKeeps(t, w, d);
      FreeIffRoom(t);
      var k := Key(w, d);
      var idx := link[k];
      var at := idx;
      if idx == 0 {
        if num >= 128 {
          return;
        }
        at, idx := Allocate();
      }
      LinkLive(t, k);
      LastLive(t);
      ghost var mid := e[..];
      Enter(at, idx, w, d);
      assert idx != 0 && !Live(mid[at].status) ==> e[..] == t.e[at := Entry(Pending, w, d, 1)];
    }

    /** BAOriSessionAdd: an ADDBA response from the peer. */
    method Respond(w: nat, d: nat)
      requires Valid() && w < 32 && d < 8
      modifies e, bit
      ensures Valid() && View() == BaTablesSpec.Respond(old(View()), w, d)
    {
      hide Inv;
      ghost var t := View();
      RespondKeeps(t, w, d);
      ShapeOf(t);
      LinkLive(t, Key(w, d));
      var i := link[Key(w, d)];
      if i != 0 && e[i].tid == d && e[i].status.Pending? {
        e[i] := e[i].(status := Open);
        bit[Key(w, d)] := true;
      }
    }

    /** BATableFreeOriEntry */
    method FreeOri(i: nat)
      requires Valid()
      modifies this, e, link, bit
      ensures Valid() && View() == Release(old(View()), i)
    {
      hide Inv;
      ghost var t := View();
      ReleaseKeeps(t, i);
      ShapeOf(t);
      if i == 0 || i >= 128 {
        return;
      }
      if !e[i].status.None? {
        var k := Key(e[i].wcid, e[i].tid);
        link[k] := 0;
        if e[i].status.Open? {
          bit[k] := false;
        }
        BusyCounted(t, i);
        num := num - 1;
        e[i] := e[i].(status := None, token := 0);
      }
    }

    /** BAOriSessionTearDown */
    method EndOriginator(w: nat, d: nat)
      requires Valid() && d < 8
      modifies this, e, link, bit
      ensures Valid() && View() == TearDown(old(View()), w, d)
    {
      hide Inv, Release;
      ghost var t := View();
      ShapeOf(t);
      if w >= 32 {
        return;
      }
      var i := link[Key(w, d)];
      if i == 0 || i >= 128 {
        ReleaseNothing(t, i);
        return;
      }
      FreeOri(i);
    }

    /** BAOriSessionSetupTimeout for entry i: whether it sends an ADDBA request. */
    method SetupTimeout(i: nat) returns (sent: bool)
      requires Valid() && i < 128
      modifies this, e, link, bit
      ensures Valid() && View() == Timeout(old(View()), i) && sent == Sends(old(View()), i)
    {
      hide Inv, Release;
      ghost var t := View();
      ShapeOf(t);
      TimeoutKeeps(t, i);
      sent := e[i].status.Pending? && e[i].token < 8;
      if sent {
        e[i] := e[i].(token := e[i].token + 1);
      } else {
        FreeOri(link[Key(e[i].wcid, e[i].tid)]);
      }
    }

    /** BARecSessionAdd: an ADDBA request from the peer. */
    method AddRecipient(w: nat, d: nat) returns (ok: bool)
      requires Valid() && w < 32 && d < 8
      modifies this, e, link, bit
      ensures Valid() && View() == Accept(old(View()), w, d) && ok == Accepts(old(View()), w, d)
    {
      hide Inv, FirstFree;
      ghost var t := View();
      ShapeOf(t);
      AcceptKeeps(t, w, d);
      FreeIffRoom(t);
      var k := Key(w, d);
      LinkLive(t, k);
      var idx := link[k];
      var at := idx;
      if idx == 0 {
        if num >= 8 {
          return false;
        }
        at, idx := Search();
        num := num + 1;
        e[at] := e[at].(status := Used, token := 0);
      }
      e[at] := e[at].(status := Pending);
      e[at] := Entry(Open, w, d, e[at].token);
      bit[k] := true;
      link[k] := idx;
      assert e[..] == t.e[at := e[at]];
      ok := true;
    }

    /** BATableFreeRecEntry, which leaves the bitmap alone. */
    method FreeRec(i: nat)
      requires e.Length == 128 && link.Length == 256 && Shape(View())
      requires 0 < i < 128 && !e[i].status.None? ==> num > 0
      modifies this, e, link
      ensures var t := old(View());
              View() == if i == 0 || i >= 128 || t.e[i].status.None? then t
                        else t.(e := t.e[i := t.e[i].(status := None, token := 0)], num := t.num - 1,
                                link := t.link[Key(t.e[i].wcid, t.e[i].tid) := 0])
    {
      if i == 0 || i >= 128 {
        return;
      }
      if !e[i].status.None? {
        link[Key(e[i].wcid, e[i].tid)] := 0;
        num := num - 1;
        e[i] := e[i].(status := None, token := 0);
      }
    }

    /** BARecSessionTearDown */
    method EndRecipient(w: nat, d: nat)
      requires Valid() && d < 8
      modifies this, e, link, bit
      ensures Valid() && View() == TearDown(old(View()), w, d)
    {
      hide Inv;
      ghost var t := View();
      ShapeOf(t);
      if w >= 32 {
        return;
      }
      TearDownKeeps(t, w, d);
      var k := Key(w, d);
      var i := link[k];
      if i == 0 {
        return;
      }
      OwnSession(t, w, d);
      BusyCounted(t, i);
      if d == e[i].tid && e[i].status.Open? {
        bit[k] := false;
        link[k] := 0;
      }
      FreeRec(i);
      assert link[..] == t.link[k := 0];
      assert View() == TearDown(t, w, d);
    }
  }

  /** BASessionTearDownALL: no session of the station remains in either table, and an index outside the
      MAC table ends nothing. */
  method TearDownAll(ori: SessionTable, rec: SessionTable, w: nat)
    requires ori.Valid() && rec.Valid() && ori != rec && ori.e != rec.e && ori.link != rec.link && ori.bit != rec.bit
    modifies ori, ori.e, ori.link, ori.bit, rec, rec.e, rec.link, rec.bit
    ensures ori.Valid() && rec.Valid()
    ensures ori.View() == EndAll(old(ori.View()), w, 8) && rec.View() == EndAll(old(rec.View()), w, 8)
    ensures w >= 32 ==> ori.View() == old(ori.View()) && rec.View() == old(rec.View())
  {
    hide Inv, TearDown;
    if w >= 32 {
      EndAllOutside(ori.View(), w, 8);
      EndAllOutside(rec.View(), w, 8);
    }
    for i := 0 to 8
      invariant ori.Valid() && rec.Valid()
      invariant ori.View() == EndAll(old(ori.View()), w, i) && rec.View() == EndAll(old(rec.View()), w, i)
    {
      ori.EndOriginator(w, i);
      rec.EndRecipient(w, i);
    }
  }

  ghost function EndAll(t: Tab, w: nat, n: nat): (u: Tab)
    requires Inv(t) && n <= 8
    ensures Inv(u)
  {
    if n == 0 then t else
      var v := EndAll(t, w, n - 1);
      TearDownKeeps(v, w, n - 1);
      TearDown(v, w, n - 1)
  }

  lemma {:induction false} EndAllEnds(t: Tab, w: nat, n: nat, d: nat)
    requires Inv(t) && d < n <= 8 && w < 32
    ensures EndAll(t, w, n).link[Key(w, d)] == 0 && !EndAll(t, w, n).bit[Key(w, d)]
  {
    var v := EndAll(t, w, n - 1);
    TearDownKeeps(v, w, n - 1);
    if d < n - 1 {
      EndAllEnds(t, w, n - 1, d);
    }
  }

  lemma {:induction false} EndAllOutside(t: Tab, w: nat, n: nat)
    requires Inv(t) && n <= 8 && w >= 32
    ensures EndAll(t, w, n) == t
  {
    hide Inv;
    if n > 0 {
      EndAllOutside(t, w, n - 1);
    }
  }

  lemma BusyCounted(t: Tab, i: nat)
    requires Inv(t) && i < 128 && !t.e[i].status.None?
    ensures t.num > 0
  {
    CountUpdate(t.e, i, t.e[i].(status := None));
  }

  lemma ReleaseNothing(t: Tab, i: nat)
    requires Shape(t) && (i == 0 || i >= 128)
    ensures Release(t, i) == t
  {
  }

  lemma OwnSession(t: Tab, w: nat, d: nat)
    requires Inv(t) && w < 32 && d < 8 && t.link[Key(w, d)] != 0
    ensures var i := t.link[Key(w, d)]; i < 128 && t.e[i].wcid == w && t.e[i].tid == d && Live(t.e[i].status)
    ensures t.e[t.link[Key(w, d)]].status.Pending? ==> !t.bit[Key(w, d)]
  {
    assert LinksBack(t, Key(w, d)) && BitRight(t, Key(w, d));
    KeyInjective(t.e[t.link[Key(w, d)]].wcid, t.e[t.link[Key(w, d)]].tid, w, d);
  }

  lemma ShapeOf(t: Tab)
    requires Inv(t)
    ensures Shape(t)
  {
  }

  lemma LinkLive(t: Tab, k: nat)
    requires Inv(t) && k < 256
    ensures t.link[k] != 0 ==> t.link[k] < 128 && Live(t.e[t.link[k]].status)
  {
    assert LinksBack(t, k);
  }

  lemma LastLive(t: Tab)
    requires Inv(t)
    ensures FirstFree(t.e, 1) == 128 ==> Live(t.e[127].status)
  {
    assert LinkedFrom(t, 127);
  }
}
