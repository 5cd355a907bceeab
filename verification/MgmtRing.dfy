/** The management transmit ring: common/cmm_data.c and common/cmm_data_2870.c fill it,
    common/rtusb_bulk.c submits from it, and the completion tasklet of common/2870_rtmp_init.c empties
    it in two critical sections. Filling and submitting each start with a test outside any lock that
    the locked part does not repeat; test and locked part are separate steps. */
module MgmtRingSpec {
  import opened Modular
  import opened Options

  type Packet = nat

  /** The flags of a TX_CONTEXT, and the packet of its cell. */
  datatype Cell = Cell(inUse: bool, waiting: bool, pending: bool, packet: Option<Packet>)

  const EMPTY := Cell(false, false, false, None)

  datatype Ring = Ring(
    cells: seq<Cell>,            // MgmtRing.Cell
    cpu: nat,                    // TxCpuIdx
    dma: nat,                    // TxDmaIdx
    free: nat,                   // TxSwFreeIdx, 32 bits wide
    bulkPending: bool,           // BulkOutPending[MGMTPIPEIDX]
    asks: map<nat, Packet>,      // requesters that have passed the test for a free cell
    looks: map<nat, nat>,        // callers that have passed the test of the cell, and that cell
    claimed: Option<nat>,        // the cell taken under the lock and not yet submitted
    flight: Option<nat>,         // the cell whose transfer the device holds
    finishing: Option<nat>,      // the cell whose completion is between its critical sections
    accepted: seq<Packet>,       // packets put into the ring, oldest first
    submitted: seq<Packet>)      // packets submitted, oldest first

  const INITIAL := Ring(seq(32, _ => EMPTY), 0, 0, 32, false, map[], map[], None, None, None, [], [])

  datatype Event =
    | Ask(caller: nat, packet: Packet)   // MiniportMMRequest, up to the lock
    | Kick(caller: nat)                  // RtmpUSBMgmtKickOut, under the lock
    | Leave(caller: nat)                 // a request that fails for another reason
    | Look(caller: nat)                  // RTUSBBulkOutMLMEPacket, up to the lock
    | Commit(caller: nat, stop: bool)    // its critical section; stop is NEED_STOP_TX
    | Submit(ok: bool)                   // the submission, and the undoing of a refused one
    | Complete                           // the tasklet's first critical section
    | Finish                             // its second

  ghost predicate Shape(r: Ring) {
    && |r.cells| == 32 && r.cpu < 32 && r.dma < 32
    && (forall c :: c in r.looks ==> r.looks[c] < 32)
    && (r.claimed.Some? ==> r.claimed.value < 32) && (r.flight.Some? ==> r.flight.value < 32)
    && (r.finishing.Some? ==> r.finishing.value < 32)
  }

  // ------------------------------------------------------------- steps

  function AskStep(r: Ring, c: nat, p: Packet): Ring {
    if c in r.asks || r.free == 0 then r else r.(asks := r.asks[c := p])
  }

  /** The cell at TxCpuIdx is filled; nothing is tested again. */
  function KickStep(r: Ring, c: nat): Ring
    requires |r.cells| == 32 && r.cpu < 32
  {
    if c !in r.asks then r
    else
      var p := r.asks[c];
      r.(cells := r.cells[r.cpu := r.cells[r.cpu].(inUse := true, waiting := true, packet := Some(p))],
         free := if r.free == 0 then 0xffff_ffff else r.free - 1,
         cpu := Ix(32, r.cpu, 1), accepted := r.accepted + [p], asks := r.asks - {c})
  }

  function LeaveStep(r: Ring, c: nat): Ring { r.(asks := r.asks - {c}) }

  /** The cell at TxDmaIdx can be submitted. */
  predicate Ready(r: Ring)
    requires |r.cells| == 32 && r.dma < 32
  {
    r.free < 32 && r.cells[r.dma].inUse && r.cells[r.dma].waiting
  }

  function LookStep(r: Ring, c: nat): Ring
    requires |r.cells| == 32 && r.dma < 32
  {
    if c in r.looks || !Ready(r) then r else r.(looks := r.looks[c := r.dma])
  }

  /** The cell looked at is taken unless a transfer is pending or transmission is to stop; the cell is
      not tested again. */
  function CommitStep(r: Ring, c: nat, stop: bool): Ring
    requires |r.cells| == 32 && (c in r.looks ==> r.looks[c] < 32)
  {
    if c !in r.looks then r
    else if r.bulkPending || stop then r.(looks := r.looks - {c})
    else
      var i := r.looks[c];
      r.(cells := r.cells[i := r.cells[i].(pending := true, waiting := false)], bulkPending := true,
         claimed := Some(i), looks := r.looks - {c})
  }

  function SubmitStep(r: Ring, ok: bool): Ring
    requires |r.cells| == 32 && (r.claimed.Some? ==> r.claimed.value < 32)
  {
    if r.claimed.None? then r
    else
      var i := r.claimed.value;
      var c := r.cells[i];
      if ok then r.(claimed := None, flight := Some(i),
                    submitted := r.submitted + if c.packet.Some? then [c.packet.value] else [])
      else r.(cells := r.cells[i := c.(pending := false, waiting := true)], bulkPending := false, claimed := None)
  }

  /** The pending flag goes. */
  function CompleteStep(r: Ring): Ring {
    if r.flight.None? || r.finishing.Some? then r
    else r.(bulkPending := false, flight := None, finishing := r.flight)
  }

  /** The cell is cleared and the index advances. */
  function FinishStep(r: Ring): Ring
    requires |r.cells| == 32 && (r.finishing.Some? ==> r.finishing.value < 32)
  {
    if r.finishing.None? then r
    else r.(cells := r.cells[r.finishing.value := EMPTY], dma := Ix(32, r.dma, 1),
            free := (r.free + 1) % 0x1_0000_0000, finishing := None)
  }

  function Step(r: Ring, e: Event): (n: Ring)
    requires Shape(r)
    ensures Shape(n)
  {
    match e
    case Ask(c, p) => AskStep(r, c, p)
    case Kick(c) => KickStep(r, c)
    case Leave(c) => LeaveStep(r, c)
    case Look(c) => LookStep(r, c)
    case Commit(c, stop) => CommitStep(r, c, stop)
    case Submit(ok) => SubmitStep(r, ok)
    case Complete => CompleteStep(r)
    case Finish => FinishStep(r)
  }

  ghost function Run(r: Ring, es: seq<Event>): (n: Ring)
    requires Shape(r)
    ensures Shape(n)
    decreases |es|
  {
    if es == [] then r else Run(Step(r, es[0]), es[1..])
  }

  // ------------------------------------------------------------- the invariant

  /** The j-th cell from TxDmaIdx on. */
  function At(r: Ring, j: nat): Cell
    requires |r.cells| == 32
  {
    r.cells[Ix(32, r.dma, j)]
  }

  /** The first cell has been taken for a transfer. */
  predicate HeadOut(r: Ring) { r.claimed.Some? || r.flight.Some? || r.finishing.Some? }

  /** What the j-th cell must hold: the accepted packets that are not done, in order, then nothing. */
  function Expected(r: Ring, j: nat): Cell {
    var used := 32 - r.free;
    if r.free > 32 || j >= used || |r.accepted| < used then EMPTY
    else
      var p := Some(r.accepted[|r.accepted| - used + j]);
      if j == 0 && HeadOut(r) then Cell(true, false, true, p) else Cell(true, true, false, p)
  }

  /** How many of the accepted packets have been submitted. */
  function Out(r: Ring): int {
    |r.accepted| - (32 - r.free) + if r.flight.Some? || r.finishing.Some? then 1 else 0
  }

  ghost predicate Inv(r: Ring) {
    && Shape(r) && r.free <= 32 && r.cpu == Ix(32, r.dma, 32 - r.free) && |r.accepted| >= 32 - r.free
    && (forall j :: 0 <= j < 32 ==> At(r, j) == Expected(r, j))
    && (r.bulkPending <==> r.claimed.Some? || r.flight.Some?)
    && !(r.claimed.Some? && r.flight.Some?) && !(r.claimed.Some? && r.finishing.Some?)
    && !(r.flight.Some? && r.finishing.Some?)
    && (r.claimed.Some? ==> r.claimed.value == r.dma)
    && (r.flight.Some? ==> r.flight.value == r.dma)
    && (r.finishing.Some? ==> r.finishing.value == r.dma)
    && (HeadOut(r) ==> r.free < 32)
    && r.submitted == r.accepted[..Out(r)]
  }

  lemma InitialInv()
    ensures Inv(INITIAL)
  {
  }

  /** A requester's cell count still holds, so that the cell it fills is free. */
  predicate KickSafe(r: Ring, c: nat) { c in r.asks ==> r.free > 0 }

  /** A caller's look still holds, or the critical section will refuse it anyway. */
  predicate CommitSafe(r: Ring, c: nat, stop: bool)
    requires |r.cells| == 32 && r.dma < 32
  {
    c in r.looks ==> r.bulkPending || stop || (r.looks[c] == r.dma && Ready(r))
  }

  /** Filling a cell keeps the ring in order exactly if a cell is still free. */
  lemma KickKeeps(r: Ring, c: nat)
    requires Inv(r)
    ensures Inv(KickStep(r, c)) <==> KickSafe(r, c)
  {
    hide Ix;
    var n := KickStep(r, c);
    if c in r.asks && r.free > 0 {
      var used := 32 - r.free;
      IxSum(32, r.dma, used, 1);
      forall j | 0 <= j < 32
        ensures At(n, j) == Expected(n, j)
      {
        assert At(r, j) == Expected(r, j) && At(r, used) == Expected(r, used);
        if j != used {
          IxDistinct(32, r.dma, j, used);
        }
      }
      assert n.submitted == n.accepted[..Out(n)];
    }
  }

  /** A commit keeps the ring in order exactly if the look still holds or a transfer is pending. */
  lemma CommitKeeps(r: Ring, c: nat, stop: bool)
    requires Inv(r)
    ensures Inv(CommitStep(r, c, stop)) <==> CommitSafe(r, c, stop)
  {
    hide Ix;
    var n := CommitStep(r, c, stop);
    IxWrap(32, r.dma);
    assert At(r, 0) == Expected(r, 0);
    if c in r.looks {
      if r.bulkPending || stop {
        SameCells(r, n);
      } else if r.looks[c] == r.dma && Ready(r) {
        TakeHead(r, c);
      }
    }
  }

  lemma SameCells(r: Ring, n: Ring)
    requires Inv(r) && n == r.(asks := n.asks, looks := n.looks) && forall c :: c in n.looks ==> n.looks[c] < 32
    ensures Inv(n)
  {
    hide Ix;
    forall j | 0 <= j < 32
      ensures At(n, j) == Expected(n, j)
    {
      assert At(r, j) == Expected(r, j);
    }
  }

  lemma TakeHead(r: Ring, c: nat)
    requires Inv(r) && c in r.looks && !r.bulkPending && r.looks[c] == r.dma && Ready(r)
    ensures Inv(CommitStep(r, c, false))
  {
    hide Ix;
    var n := CommitStep(r, c, false);
    IxWrap(32, r.dma);
    assert At(r, 0) == Expected(r, 0);
    forall j | 0 <= j < 32
      ensures At(n, j) == Expected(n, j)
    {
      assert At(r, j) == Expected(r, j);
      if j != 0 {
        IxDistinct(32, r.dma, j, 0);
      }
    }
  }

  lemma SubmitKeeps(r: Ring, ok: bool)
    requires Inv(r)
    ensures Inv(SubmitStep(r, ok))
  {
    hide Ix;
    var n := SubmitStep(r, ok);
    IxWrap(32, r.dma);
    assert At(r, 0) == Expected(r, 0);
    forall j | 0 <= j < 32
      ensures At(n, j) == Expected(n, j)
    {
      assert At(r, j) == Expected(r, j);
      if j != 0 {
        IxDistinct(32, r.dma, j, 0);
      }
    }
  }

  lemma CompleteKeeps(r: Ring)
    requires Inv(r)
    ensures Inv(CompleteStep(r))
  {
    hide Ix;
    var n := CompleteStep(r);
    forall j | 0 <= j < 32
      ensures At(n, j) == Expected(n, j)
    {
      assert At(r, j) == Expected(r, j);
    }
  }

  lemma FinishKeeps(r: Ring)
    requires Inv(r)
    ensures Inv(FinishStep(r))
  {
    hide Ix;
    var n := FinishStep(r);
    if r.finishing.Some? {
      IxWrap(32, r.dma);
      IxSum(32, r.dma, 1, 31 - r.free);
      forall j | 0 <= j < 32
        ensures At(n, j) == Expected(n, j)
      {
        IxSum(32, r.dma, 1, j);
        if j < 31 {
          assert At(r, j + 1) == Expected(r, j + 1);
          IxDistinct(32, r.dma, j + 1, 0);
        }
      }
    }
  }

  /** The exact condition under which an event keeps the ring in order. */
  predicate Safe(r: Ring, e: Event)
    requires |r.cells| == 32 && r.dma < 32
  {
    match e
    case Kick(c) => KickSafe(r, c)
    case Commit(c, stop) => CommitSafe(r, c, stop)
    case _ => true
  }

  lemma StepKeeps(r: Ring, e: Event)
    requires Inv(r)
    ensures Inv(Step(r, e)) <==> Safe(r, e)
  {
    hide Inv, KickStep, CommitStep, SubmitStep, CompleteStep, FinishStep, Ready;
    ShapeOf(r);
    match e
    case Ask(c, p) => SameCells(r, AskStep(r, c, p));
    case Kick(c) => KickKeeps(r, c);
    case Leave(c) => SameCells(r, LeaveStep(r, c));
    case Look(c) => SameCells(r, LookStep(r, c));
    case Commit(c, stop) => CommitKeeps(r, c, stop);
    case Submit(ok) => SubmitKeeps(r, ok);
    case Complete => CompleteKeeps(r);
    case Finish => FinishKeeps(r);
  }

  lemma ShapeOf(r: Ring)
    requires Inv(r)
    ensures Shape(r)
  {
  }

  // ------------------------------------------------------------- runs

  /** Every event of the run is safe when it happens. */
  ghost predicate SafeRun(r: Ring, es: seq<Event>)
    requires Shape(r)
    decreases |es|
  {
    es == [] || (Safe(r, es[0]) && SafeRun(Step(r, es[0]), es[1..]))
  }

  /** A run keeps the ring in order throughout exactly if every test still holds when it is acted on. */
  lemma {:induction false} InOrderIff(r: Ring, es: seq<Event>)
    requires Inv(r)
    ensures SafeRun(r, es) <==> forall k :: 0 <= k <= |es| ==> Inv(Run(r, es[..k]))
    decreases |es|
  {
    hide Inv, Safe, Step;
    if es == [] {
      assert es[..0] == [];
    } else {
      ShapeOf(r);
      var n := Step(r, es[0]);
      StepKeeps(r, es[0]);
      forall k | 0 < k <= |es|
        ensures Run(r, es[..k]) == Run(n, es[1..][..k - 1])
      {
        assert es[..k][1..] == es[1..][..k - 1];
      }
      assert es[..0] == [] && Run(r, []) == r;
      assert Run(r, es[..1]) == n;
      if Safe(r, es[0]) {
        InOrderIff(n, es[1..]);
        if forall k :: 0 <= k <= |es| ==> Inv(Run(r, es[..k])) {
          forall k | 0 <= k <= |es[1..]|
            ensures Inv(Run(n, es[1..][..k]))
          {
            assert Run(r, es[..k + 1]) == Run(n, es[1..][..k + 1 - 1]);
          }
        }
      } else {
        assert !Inv(Run(r, es[..1]));
      }
    }
  }

  /** The cells in use are the 32 - TxSwFreeIdx ones from TxDmaIdx up to TxCpuIdx; at most one
      transfer is out, for the cell TxDmaIdx; and the packets submitted are the accepted ones in
      order, none twice, none skipped. */
  ghost predicate Sound(r: Ring) {
    && Shape(r) && r.free <= 32 && Ix(32, r.dma, 32 - r.free) == r.cpu
    && (forall j :: 0 <= j < 32 ==> (At(r, j).inUse <==> j < 32 - r.free))
    && (r.bulkPending <==> r.claimed.Some? || r.flight.Some?)
    && !(r.claimed.Some? && r.flight.Some?) && !(r.bulkPending && r.finishing.Some?)
    && (r.claimed.Some? ==> r.claimed.value == r.dma) && (r.flight.Some? ==> r.flight.value == r.dma)
    && (r.finishing.Some? ==> r.finishing.value == r.dma)
    && r.submitted <= r.accepted
  }

  lemma InvSound(r: Ring)
    requires Inv(r)
    ensures Sound(r)
  {
    hide Ix;
    forall j | 0 <= j < 32
      ensures At(r, j).inUse <==> j < 32 - r.free
    {
      assert At(r, j) == Expected(r, j);
    }
  }

  lemma {:induction false} SafeRunKeeps(r: Ring, es: seq<Event>)
    requires Inv(r) && SafeRun(r, es)
    ensures Inv(Run(r, es))
    decreases |es|
  {
    hide Inv, Safe, Step;
    if es == [] {
    } else {
      ShapeOf(r);
      StepKeeps(r, es[0]);
      SafeRunKeeps(Step(r, es[0]), es[1..]);
    }
  }

  // ------------------------------------------------------------- callers one at a time

  /** A caller looks only when no other caller is between its look and its commit, and no more
      requesters are between test and lock than cells are free. */
  ghost predicate Serial(r: Ring, es: seq<Event>)
    requires Shape(r)
    decreases |es|
  {
    es == [] || (OneAtATime(r, es[0]) && Serial(Step(r, es[0]), es[1..]))
  }

  predicate OneAtATime(r: Ring, e: Event) {
    match e
    case Ask(c, p) => |r.asks| < r.free
    case Look(c) => r.looks == map[]
    case _ => true
  }

  /** There are cells for all requesters, and the one look there may be still holds. */
  ghost predicate Current(r: Ring) {
    && Inv(r) && |r.asks| <= r.free
    && (forall c, d :: c in r.looks && d in r.looks ==> c == d)
    && (forall c :: c in r.looks ==> r.looks[c] == r.dma && Ready(r))
  }

  lemma MapMinus<T>(m: map<nat, T>, c: nat)
    requires c in m
    ensures |m - {c}| == |m| - 1
  {
    assert (m - {c}).Keys == m.Keys - {c};
    assert |m - {c}| == |(m - {c}).Keys|;
    assert |m| == |m.Keys|;
  }

  lemma MapPlus<T>(m: map<nat, T>, c: nat, p: T)
    requires c !in m
    ensures |m[c := p]| == |m| + 1
  {
    assert m[c := p].Keys == m.Keys + {c};
    assert |m[c := p]| == |m[c := p].Keys|;
    assert |m| == |m.Keys|;
  }

  /** A waiting head is not out. */
  lemma WaitingHead(r: Ring)
    requires Inv(r) && Ready(r)
    ensures !HeadOut(r) && !r.bulkPending
  {
    hide Ix;
    IxWrap(32, r.dma);
    assert At(r, 0) == Expected(r, 0);
  }

  lemma CurrentStep(r: Ring, e: Event)
    requires Current(r) && OneAtATime(r, e)
    ensures Safe(r, e) && Current(Step(r, e))
  {
    hide Inv, Ix;
    ShapeOf(r);
    assert Safe(r, e) by {
      if e.Kick? && e.caller in r.asks {
        MapMinus(r.asks, e.caller);
      }
    }
    StepKeeps(r, e);
    if r.looks != map[] {
      WaitingHead(r);
    }
    CurrentCounts(r, e);
    CurrentLooks(r, e);
  }

  lemma AsksOf(r: Ring, e: Event)
    requires Shape(r) && r.free <= 32 && Safe(r, e)
    ensures e.Ask? ==> Step(r, e) == AskStep(r, e.caller, e.packet)
    ensures e.Kick? && e.caller in r.asks ==> Step(r, e).asks == r.asks - {e.caller} && Step(r, e).free == r.free - 1
    ensures e.Leave? ==> Step(r, e).asks == r.asks - {e.caller} && Step(r, e).free == r.free
    ensures !e.Ask? && !e.Leave? && !(e.Kick? && e.caller in r.asks) ==>
              Step(r, e).asks == r.asks && Step(r, e).free >= r.free
  {
    hide Ix, Ready;
  }

  lemma CurrentCounts(r: Ring, e: Event)
    requires Current(r) && OneAtATime(r, e) && Safe(r, e)
    ensures |Step(r, e).asks| <= Step(r, e).free
  {
    hide Inv, Step, Ready, Safe;
    ShapeOf(r);
    FreeBound(r);
    AsksOf(r, e);
    match e
    case Ask(c, p) =>
      if c !in r.asks {
        MapPlus(r.asks, c, p);
      }
    case Kick(c) =>
      if c in r.asks {
        MapMinus(r.asks, c);
      }
    case Leave(c) =>
      if c in r.asks {
        MapMinus(r.asks, c);
      } else {
        assert r.asks - {c} == r.asks;
      }
    case _ =>
  }

  lemma CurrentLooks(r: Ring, e: Event)
    requires Current(r) && OneAtATime(r, e) && Safe(r, e)
    requires r.looks != map[] ==> !HeadOut(r) && !r.bulkPending
    ensures forall c, d :: c in Step(r, e).looks && d in Step(r, e).looks ==> c == d
    ensures forall c :: c in Step(r, e).looks ==> Step(r, e).looks[c] == Step(r, e).dma && Ready(Step(r, e))
  {
    hide Inv, Ix;
    ShapeOf(r);
    FreeBound(r);
  }

  lemma FreeBound(r: Ring)
    requires Inv(r)
    ensures r.free <= 32
  {
  }

  /** Callers one at a time are safe, so the ring is in order and submits every packet once. */
  lemma {:induction false} SerialSafe(r: Ring, es: seq<Event>)
    requires Current(r) && Serial(r, es)
    ensures SafeRun(r, es) && Sound(Run(r, es))
    decreases |es|
  {
    hide Inv, Safe, Step, OneAtATime, Sound;
    if es == [] {
      InvSound(r);
    } else {
      ShapeOf(r);
      CurrentStep(r, es[0]);
      SerialSafe(Step(r, es[0]), es[1..]);
    }
  }

  /** From the initialised ring: every run whose tests still hold when acted on is sound, and one
      whose callers come one at a time is such a run. */
  lemma AlwaysSound(es: seq<Event>)
    ensures Inv(INITIAL)
    ensures Serial(INITIAL, es) ==> SafeRun(INITIAL, es)
    ensures SafeRun(INITIAL, es) ==> Sound(Run(INITIAL, es))
  {
    hide Sound, Safe, Step, OneAtATime;
    InitialInv();
    if Serial(INITIAL, es) {
      SerialSafe(INITIAL, es);
    }
    if SafeRun(INITIAL, es) {
      SafeRunKeeps(INITIAL, es);
      InvSound(Run(INITIAL, es));
    }
  }

  // ------------------------------------------------------------- what goes wrong otherwise

  lemma {:induction false} RunJoin(r: Ring, es: seq<Event>, fs: seq<Event>)
    requires Shape(r)
    ensures Run(r, es + fs) == Run(Run(r, es), fs)
    decreases |es|
  {
    hide Step, Shape;
    if es == [] {
      assert es + fs == fs;
    } else {
      assert (es + fs)[1..] == es[1..] + fs;
      RunJoin(Step(r, es[0]), es[1..], fs);
    }
  }

  lemma RunOne(r: Ring, e: Event)
    requires Shape(r)
    ensures Run(r, [e]) == Step(r, e)
  {
    hide Step, Shape;
    assert [e][1..] == [];
  }

  lemma RunTwo(r: Ring, a: Event, b: Event)
    requires Shape(r)
    ensures Run(r, [a, b]) == Step(Step(r, a), b)
  {
    hide Step, Shape;
    assert [a, b][1..] == [b];
    RunOne(Step(r, a), b);
  }

  /** Two callers look at the waiting head, and one of them takes, submits and completes it. */
  function Overtaken(a: nat, b: nat): seq<Event> { [Look(a), Look(b)] + [Commit(b, false), Submit(true)] }

  function Stale(a: nat): seq<Event> { [Complete, Commit(a, false)] }

  /** In any ring with a waiting head, the caller that was overtaken commits between the two critical
      sections of the completion and submits the head again: its packet goes out twice. */
  lemma SubmittedTwice(r: Ring, a: nat, b: nat)
    requires Inv(r) && Ready(r) && a !in r.looks && b !in r.looks && a != b
    ensures |r.submitted| < |r.accepted|
    ensures var p := r.accepted[|r.submitted|]; var n := Run(Run(r, Overtaken(a, b)), Stale(a));
            n.claimed.Some? && SubmitStep(n, true).submitted == r.submitted + [p, p] && n.accepted == r.accepted
  {
    hide Inv, Shape, Step, Ready;
    ShapeOf(r);
    var m := Run(r, [Look(a), Look(b)]);
    RunTwo(r, Look(a), Look(b));
    BothLook(r, a, b);
    var n := Run(m, [Commit(b, false), Submit(true)]);
    RunTwo(m, Commit(b, false), Submit(true));
    RunJoin(r, [Look(a), Look(b)], [Commit(b, false), Submit(true)]);
    OneSubmits(r, m, a, b);
    RunTwo(n, Complete, Commit(a, false));
    OtherCommits(n, a);
  }

  lemma BothLook(r: Ring, a: nat, b: nat)
    requires Shape(r) && Ready(r) && a !in r.looks && b !in r.looks && a != b
    ensures Step(Step(r, Look(a)), Look(b)) == r.(looks := r.looks[a := r.dma][b := r.dma])
  {
  }

  lemma OneSubmits(r: Ring, m: Ring, a: nat, b: nat)
    requires Inv(r) && Ready(r) && a != b && m == r.(looks := r.looks[a := r.dma][b := r.dma]) && Shape(m)
    ensures |r.submitted| < |r.accepted|
    ensures var n := Step(Step(m, Commit(b, false)), Submit(true)); var p := r.accepted[|r.submitted|];
            && n.flight == Some(n.dma) && n.finishing.None? && a in n.looks && n.looks[a] == n.dma
            && n.cells[n.dma].packet == Some(p)
            && n.submitted == r.submitted + [p] && n.accepted == r.accepted
  {
    hide Ix;
    IxWrap(32, r.dma);
    WaitingHead(r);
    assert At(r, 0) == Expected(r, 0);
  }

  lemma OtherCommits(n: Ring, a: nat)
    requires Shape(n) && n.flight == Some(n.dma) && n.finishing.None? && a in n.looks && n.looks[a] == n.dma
    requires n.cells[n.dma].packet.Some?
    ensures var o := Step(Step(n, Complete), Commit(a, false));
            o.claimed == Some(n.dma) && o.accepted == n.accepted
            && SubmitStep(o, true).submitted == n.submitted + [n.cells[n.dma].packet.value]
  {
  }

  /** Two requesters pass the test for the last free cell. */
  function Crowd(a: nat, b: nat, p: Packet, q: Packet): seq<Event> { [Ask(a, p), Ask(b, q)] + [Kick(a), Kick(b)] }

  /** With one cell free, two requesters that pass the test together wrap the free count, write over
      the oldest packet, and leave a ring from which no look succeeds. */
  lemma CountWraps(r: Ring, a: nat, b: nat, p: Packet, q: Packet)
    requires Inv(r) && r.free == 1 && a !in r.asks && b !in r.asks && a != b
    ensures var n := Run(r, Crowd(a, b, p, q));
            n.free == 0xffff_ffff && n.cells[n.dma].packet == Some(q) && !Ready(n) && n.accepted == r.accepted + [p, q]
  {
    hide Ix;
    IxSum(32, r.dma, 31, 1);
    IxWrap(32, r.dma);
    IxDistinct(32, r.dma, 31, 0);
    var m := Run(r, [Ask(a, p), Ask(b, q)]);
    RunTwo(r, Ask(a, p), Ask(b, q));
    assert m == r.(asks := r.asks[a := p][b := q]);
    RunTwo(m, Kick(a), Kick(b));
    RunJoin(r, [Ask(a, p), Ask(b, q)], [Kick(a), Kick(b)]);
  }

  /** The ring can be filled to any count by requesters one at a time. */
  lemma {:induction false} CanFill(n: nat) returns (es: seq<Event>)
    requires n <= 32
    ensures SafeRun(INITIAL, es) && Inv(INITIAL) && Inv(Run(INITIAL, es))
    ensures var r := Run(INITIAL, es); r.free == 32 - n && r.asks == map[] && r.looks == map[]
  {
    InitialInv();
    if n == 0 {
      es := [];
    } else {
      var fs := CanFill(n - 1);
      var r := Run(INITIAL, fs);
      es := fs + [Ask(0, 0), Kick(0)];
      OneMore(r);
      RunJoin(INITIAL, fs, [Ask(0, 0), Kick(0)]);
      SafeJoin(INITIAL, fs, [Ask(0, 0), Kick(0)]);
      SafeRunKeeps(INITIAL, es);
    }
  }

  lemma OneMore(r: Ring)
    requires Inv(r) && r.free > 0 && r.asks == map[]
    ensures var n := Run(r, [Ask(0, 0), Kick(0)]);
            n.free == r.free - 1 && n.asks == map[] && n.looks == r.looks
    ensures SafeRun(r, [Ask(0, 0), Kick(0)])
  {
    hide Inv, Ix;
    ShapeOf(r);
    RunTwo(r, Ask(0, 0), Kick(0));
    assert [Ask(0, 0), Kick(0)][1..] == [Kick(0)] && [Kick(0)][1..] == [];
  }

  lemma {:induction false} SafeJoin(r: Ring, es: seq<Event>, fs: seq<Event>)
    requires Shape(r) && SafeRun(r, es) && SafeRun(Run(r, es), fs)
    ensures SafeRun(r, es + fs)
    decreases |es|
  {
    hide Step, Safe, Shape;
    if es == [] {
      assert es + fs == fs;
    } else {
      assert (es + fs)[1..] == es[1..] + fs;
      SafeJoin(Step(r, es[0]), es[1..], fs);
    }
  }

  /** Both failures happen from the initialised ring. */
  lemma Reachable(p: Packet)
    ensures Shape(INITIAL)
    ensures exists es :: Run(INITIAL, es).submitted == [p, p] && Run(INITIAL, es).accepted == [p]
    ensures exists es :: Run(INITIAL, es).free == 0xffff_ffff
  {
    hide Inv, Step, Ready;
    InitialInv();
    ShapeOf(INITIAL);
    TwiceFromStart(p);
    var fs := CanFill(31);
    CountWraps(Run(INITIAL, fs), 0, 1, p, p);
    RunJoin(INITIAL, fs, Crowd(0, 1, p, p));
  }

  lemma TwiceFromStart(p: Packet)
    requires Shape(INITIAL)
    ensures exists es :: Run(INITIAL, es).submitted == [p, p] && Run(INITIAL, es).accepted == [p]
  {
    hide Inv, Step, Ready, Shape, SubmitStep, Overtaken, Stale;
    var start := [Ask(0, p), Kick(0)];
    FirstPacket(p);
    SubmittedTwice(Run(INITIAL, start), 1, 2);
    RunJoin(INITIAL, start, Overtaken(1, 2));
    RunJoin(INITIAL, start + Overtaken(1, 2), Stale(1));
    var es := start + Overtaken(1, 2) + Stale(1);
    var n := Run(INITIAL, es);
    RunOne(n, Submit(true));
    RunJoin(INITIAL, es, [Submit(true)]);
    SubmitIs(n);
    assert Run(INITIAL, es + [Submit(true)]).submitted == [p, p];
  }

  lemma SubmitIs(r: Ring)
    requires Shape(r)
    ensures Step(r, Submit(true)) == SubmitStep(r, true) && SubmitStep(r, true).accepted == r.accepted
  {
  }

  lemma FirstPacket(p: Packet)
    ensures Inv(INITIAL)
    ensures var r := Run(INITIAL, [Ask(0, p), Kick(0)]);
            Inv(r) && Ready(r) && r.looks == map[] && r.accepted == [p] && r.submitted == []
  {
    InitialInv();
    RunTwo(INITIAL, Ask(0, p), Kick(0));
    var m := Step(INITIAL, Ask(0, p));
    StepKeeps(INITIAL, Ask(0, p));
    StepKeeps(m, Kick(0));
  }

  /** Between the two critical sections of a completion no look succeeds; a commit of an earlier look
      does take the cell again. */
  lemma TheGap(r: Ring, c: nat)
    requires Inv(r) && r.finishing.Some?
    ensures !Ready(r)
    ensures CommitStep(r, c, false) != r <==> c in r.looks
    ensures c in r.looks ==> CommitStep(r, c, false).claimed == Some(r.looks[c])
  {
    hide Ix;
    IxWrap(32, r.dma);
    assert At(r, 0) == Expected(r, 0);
  }

  /** A caller alone with a waiting cell and nothing out submits the next accepted packet. */
  lemma SubmitsNext(r: Ring, c: nat)
    requires Inv(r) && r.free < 32 && !HeadOut(r) && c !in r.looks
    ensures |r.submitted| < |r.accepted|
    ensures SubmitStep(CommitStep(LookStep(r, c), c, false), true).submitted
            == r.submitted + [r.accepted[|r.submitted|]]
  {
    hide Ix;
    IxWrap(32, r.dma);
    assert At(r, 0) == Expected(r, 0);
  }

  // ------------------------------------------------------------- what the steps achieve

  /** A completion goes through both critical sections: the first gives up the pending flag, the second frees
      the cell, moves TxDmaIdx on and raises the free count. */
  lemma CompletionFrees(r: Ring)
    requires Inv(r) && r.flight.Some?
    ensures var m := CompleteStep(r);
            && !m.bulkPending && m.flight.None? && m.finishing == Some(r.dma) && m.free == r.free
            && var n := FinishStep(m);
               && n.dma == Ix(32, r.dma, 1) && n.free == r.free + 1 && n.finishing.None?
               && n.cells[r.dma] == EMPTY && n.submitted == r.submitted && n.accepted == r.accepted
  {
  }

  /** A submission the host controller refuses leaves the ring as it was before the look. */
  lemma RefusedUndone(r: Ring, c: nat)
    requires Inv(r) && Ready(r) && c !in r.looks
    ensures SubmitStep(CommitStep(LookStep(r, c), c, false), false) == r
  {
    hide Ix;
    IxWrap(32, r.dma);
    WaitingHead(r);
    assert At(r, 0) == Expected(r, 0);
    var n := SubmitStep(CommitStep(LookStep(r, c), c, false), false);
    assert n.cells == r.cells && n.looks == r.looks;
  }

  /** The packets of the requests that get to the lock in the run. */
  ghost function Kicked(r: Ring, es: seq<Event>): seq<Packet>
    requires Shape(r)
    decreases |es|
  {
    if es == [] then []
    else
      (if es[0].Kick? && es[0].caller in r.asks then [r.asks[es[0].caller]] else []) + Kicked(Step(r, es[0]), es[1..])
  }

  /** Over every run, safe or not, the packets accepted are those, in order. */
  lemma {:induction false} AcceptedExactly(r: Ring, es: seq<Event>)
    requires Shape(r)
    ensures Run(r, es).accepted == r.accepted + Kicked(r, es)
    decreases |es|
  {
    if es == [] {
    } else {
      KickAccepts(r, es[0]);
      hide Step, Shape;
      AcceptedExactly(Step(r, es[0]), es[1..]);
    }
  }

  lemma KickAccepts(r: Ring, e: Event)
    requires Shape(r)
    ensures Step(r, e).accepted == r.accepted + if e.Kick? && e.caller in r.asks then [r.asks[e.caller]] else []
  {
    hide Ix, Ready;
  }

  /** A request goes on to the lock with its packet exactly if a cell is free. */
  lemma AskPasses(r: Ring, c: nat, p: Packet)
    requires c !in r.asks
    ensures c in AskStep(r, c, p).asks <==> r.free > 0
    ensures r.free > 0 ==> AskStep(r, c, p).asks[c] == p
  {
  }

  /** One caller sends the head: look, commit, submit and both halves of the completion. */
  function SendHead(c: nat): seq<Event> { [Look(c), Commit(c, false)] + [Submit(true), Complete] + [Finish] }

  lemma SendsHead(r: Ring, c: nat)
    requires Inv(r) && r.free < 32 && !HeadOut(r) && c !in r.looks
    ensures |r.submitted| < |r.accepted|
    ensures var n := Run(r, SendHead(c));
            && Inv(n) && n.free == r.free + 1 && n.accepted == r.accepted && n.looks == r.looks && !HeadOut(n)
            && n.submitted == r.submitted + [r.accepted[|r.submitted|]]
  {
    SubmitsNext(r, c);
    HeadReady(r);
    var l := LookStep(r, c);
    var m := CommitStep(l, c, false);
    var s := SubmitStep(m, true);
    StepKeeps(r, Look(c));
    StepKeeps(l, Commit(c, false));
    SubmitKeeps(m, true);
    CommitFacts(r, c);
    CompletionFrees(s);
    CompleteKeeps(s);
    FinishKeeps(CompleteStep(s));
    hide Inv, Shape, Step, Ready, Expected;
    ShapeOf(r);
    ShapeOf(m);
    StepsAre(r, l, m, s, c);
  }

  lemma HeadReady(r: Ring)
    requires Inv(r) && r.free < 32 && !HeadOut(r)
    ensures Ready(r)
  {
    hide Ix;
    IxWrap(32, r.dma);
    assert At(r, 0) == Expected(r, 0);
  }

  lemma CommitFacts(r: Ring, c: nat)
    requires Inv(r) && Ready(r) && c !in r.looks && !r.bulkPending && r.flight.None? && r.finishing.None?
    ensures var m := CommitStep(LookStep(r, c), c, false); var s := SubmitStep(m, true);
            && m.claimed == Some(r.dma) && m.looks == r.looks && s.looks == r.looks && s.flight == Some(r.dma)
            && s.free == r.free && s.accepted == r.accepted && s.finishing.None? && s.claimed.None? && s.dma == r.dma
  {
    assert r.looks[c := r.dma] - {c} == r.looks;
  }

  lemma StepsAre(r: Ring, l: Ring, m: Ring, s: Ring, c: nat)
    requires Shape(r) && Shape(l) && Shape(m) && Shape(s) && l == Step(r, Look(c)) && m == Step(l, Commit(c, false))
    requires s == Step(m, Submit(true)) && Shape(CompleteStep(s))
    ensures Run(r, SendHead(c)) == FinishStep(CompleteStep(s))
  {
    hide Shape;
    RunTwo(r, Look(c), Commit(c, false));
    RunTwo(m, Submit(true), Complete);
    RunJoin(r, [Look(c), Commit(c, false)], [Submit(true), Complete]);
    RunOne(CompleteStep(s), Finish);
    RunJoin(r, [Look(c), Commit(c, false)] + [Submit(true), Complete], [Finish]);
  }

  /** Nothing stays behind: from any ring in order with nothing out, one caller can send all the packets
      accepted and leave the ring empty. */
  lemma {:induction false} CanDrain(r: Ring, c: nat) returns (es: seq<Event>)
    requires Inv(r) && !HeadOut(r) && c !in r.looks
    ensures Run(r, es).free == 32 && Run(r, es).submitted == r.accepted
    decreases 32 - r.free
  {
    if r.free == 32 {
      es := [];
      assert Out(r) == |r.accepted|;
    } else {
      SendsHead(r, c);
      var n := Run(r, SendHead(c));
      hide Inv, SendHead, HeadOut;
      ShapeOf(r);
      var rest := CanDrain(n, c);
      es := SendHead(c) + rest;
      RunJoin(r, SendHead(c), rest);
    }
  }

  // ------------------------------------------------------------- the transfer length

  /** BulkOutSize of RtmpUSBMgmtKickOut for a frame of n bytes. */
  function BulkOutSize(n: nat, maxPacket: nat): nat
    requires maxPacket > 0
  {
    var size := (n + 3) / 4 * 4 + 4;
    if size % maxPacket == 0 then size + 4 else size
  }

  /** The padding fits RTMP_PKT_TAIL_PADDING, and the transfer is whole words that do not end on a
      packet boundary. */
  lemma BulkOutSizeIs(n: nat, maxPacket: nat)
    requires maxPacket > 4
    ensures var s := BulkOutSize(n, maxPacket); n + 4 <= s <= n + 11 && s % 4 == 0 && s % maxPacket != 0
  {
    var size := (n + 3) / 4 * 4 + 4;
    if size % maxPacket == 0 {
      var q := size / maxPacket;
      assert size + 4 == maxPacket * q + 4;
      RemainderIs(maxPacket, q, 4);
    }
  }
}

/** The ring as the driver updates it. Who is between a test and its lock, what the device holds, and
    the two logs are for specification. */
module MgmtRing {
  import opened MgmtRingSpec
  import opened Modular
  import opened Options

  class Mgmt {
    const cells: array<Cell>
    var cpu: nat
    var dma: nat
    var free: nat
    var bulkPending: bool
    ghost var asks: map<nat, Packet>
    ghost var looks: map<nat, nat>
    ghost var claimed: Option<nat>
    ghost var flight: Option<nat>
    ghost var finishing: Option<nat>
    ghost var accepted: seq<Packet>
    ghost var submitted: seq<Packet>

    ghost function View(): Ring
      reads this, cells
    {
      Ring(cells[..], cpu, dma, free, bulkPending, asks, looks, claimed, flight, finishing, accepted, submitted)
    }

    ghost predicate Valid()
      reads this, cells
    {
      Shape(View())
    }

    constructor ()
      ensures Valid() && View() == INITIAL && Inv(View()) && fresh(cells)
    {
      cells := new Cell[32](_ => EMPTY);
      cpu, dma, free, bulkPending := 0, 0, 32, false;
      asks, looks := map[], map[];
      claimed, flight, finishing, accepted, submitted := None, None, None, [], [];
      new;
      assert cells[..] == INITIAL.cells;
      InitialInv();
    }

    /** MiniportMMRequest, before the lock: whether requester c may go on with packet p. */
    method TestFree(ghost c: nat, ghost p: Packet) returns (ok: bool)
      requires Valid() && c !in asks
      modifies this`asks
      ensures Valid() && View() == AskStep(old(View()), c, p) && (ok <==> c in asks)
    {
      ok := free > 0;
      if ok {
        asks := asks[c := p];
      }
    }

    /** RtmpUSBMgmtKickOut */
    method KickOut(ghost c: nat, p: Packet)
      requires Valid() && c in asks && asks[c] == p
      modifies this, cells
      ensures Valid() && View() == KickStep(old(View()), c)
    {
      hide Ix;
      cells[cpu] := cells[cpu].(inUse := true, waiting := true, packet := Some(p));
      free := if free == 0 then 0xffff_ffff else free - 1;
      cpu := Ix(32, cpu, 1);
      accepted, asks := accepted + [p], asks - {c};
    }

    /** RTUSBBulkOutMLMEPacket, before the lock: the cell caller c is to submit, if any. */
    method LookAt(ghost c: nat) returns (cell: Option<nat>)
      requires Valid() && c !in looks
      modifies this`looks
      ensures Valid() && View() == LookStep(old(View()), c)
      ensures cell == if c in looks then Some(looks[c]) else None
    {
      if free >= 32 || !cells[dma].inUse || !cells[dma].waiting {
        return None;
      }
      looks := looks[c := dma];
      return Some(dma);
    }

    /** Its critical section, for the cell looked at: whether to submit. */
    method Take(ghost c: nat, i: nat, stop: bool) returns (ok: bool)
      requires Valid() && c in looks && looks[c] == i
      modifies this, cells
      ensures Valid() && View() == CommitStep(old(View()), c, stop)
      ensures ok <==> !old(bulkPending) && !stop
    {
      looks := looks - {c};
      ok := !bulkPending && !stop;
      if ok {
        bulkPending := true;
        cells[i] := cells[i].(pending := true, waiting := false);
        claimed := Some(i);
      }
    }

    /** Its submission of that cell, undone if the host controller refuses it. */
    method Submitted(i: nat, ok: bool)
      requires Valid() && claimed == Some(i)
      modifies this, cells
      ensures Valid() && View() == SubmitStep(old(View()), ok)
    {
      claimed := None;
      if !ok {
        bulkPending := false;
        cells[i] := cells[i].(pending := false, waiting := true);
        return;
      }
      flight := Some(i);
      submitted := submitted + if cells[i].packet.Some? then [cells[i].packet.value] else [];
    }

    /** The first critical section of the completion tasklet. */
    method CompleteFirst()
      requires Valid() && flight.Some? && finishing.None?
      modifies this
      ensures Valid() && View() == CompleteStep(old(View()))
    {
      bulkPending := false;
      finishing, flight := flight, None;
    }

    /** The second, for the cell the transfer was for; it returns the packet to free, in a ring in
        order the oldest one. */
    method FinishSecond(i: nat) returns (p: Option<Packet>)
      requires Valid() && finishing == Some(i)
      modifies this, cells
      ensures Valid() && View() == FinishStep(old(View()))
      ensures old(Inv(View())) ==> i == old(dma) && p == Some(old(accepted[|accepted| - (32 - free)]))
    {
      hide Ix;
      IxWrap(32, dma);
      assert Inv(View()) ==> At(View(), 0) == Expected(View(), 0);
      p := cells[i].packet;
      cells[i] := EMPTY;
      dma := Ix(32, dma, 1);
      free := (free + 1) % 0x1_0000_0000;
      finishing := None;
    }
  }
}
