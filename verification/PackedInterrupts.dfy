/** No interrupt of a packed queue is lost: the driver's enable_cb and get_buf, one shared-memory access
    at a time, against a device that writes used elements before it reads the driver's event structure,
    and reads the flags before the position. */
module PackedInterrupts {
  import opened Integers
  import opened RingMath
  import opened Ledger
  import opened EventIndex
  import opened PackedRing
  import opened PackedInvariant
  import opened PackedSteps
  import opened PackedRuns
  import opened PackedTheorems
  import opened PackedEvents
  import opened Interrupts

  /** As for the split queue; counts are in descriptors here. */
  datatype Irq = Irq(q: System, es: bool, dev: DevicePc, drv: DriverPc, woken: bool)

  datatype Act =
    | AddBuf(sg: seq<Sg>, out: nat, token: nat, table: Option<nat>)
    | Fetch | Publish(i: nat, len: nat, extra: Flags) | ReadFlags | ReadPosition | Raise
    | Reap | WriteEvent
    | Disable | EnableEvent | EnableFlags | EnableCheck

  predicate ActAllowed(a: Act) {
    a.AddBuf? ==> |a.sg| >= 1 && a.out <= |a.sg|
  }

  function WithEvents(q: System, shadow: nat, flags: nat, off: nat): System {
    q.(r := q.r.(shadow := shadow, drvFlags := flags, drvOff := off))
  }

  /** The driver's position as `off_wrap`. */
  function Here(r: Packed): nat {
    OffWrap(r.lastUsed, r.usedWrap)
  }

  /** The last write of get_buf. */
  function EventWritten(q: System): System {
    if q.r.shadow == FLAG_DESC then WithEvents(q, q.r.shadow, q.r.drvFlags, Here(q.r)) else q
  }

  /** The test of `virtqueue_kick_prepare_packed`, made by the device on the driver's event position. */
  predicate PositionPassed(n: nat, off: nat, usedIdx: nat, usedWrap: bool, count: nat) {
    var event := if WrapOf(off) != usedWrap then OffOf(off) - n as int else OffOf(off) as int;
    NeedEvent(event % U16, usedIdx, (usedIdx as int - count as int) % U16)
  }

  /** The steps that take or bring a buffer: add_buf, the device reading one and publishing one, and
      get_buf up to its last write. */
  ghost function QueueStep(x: Irq, a: Act): Irq
    requires Inv(x.q) && ActAllowed(a)
  {
    match a
    case AddBuf(sg, out, token, table) =>
      if Free(x.drv) then x.(q := AddStep(x.q, sg, out, token, table).0) else x
    case Fetch => x.(q := FetchStep(x.q).0)
    case Publish(i, len, extra) => PublishStep(x, i, len, extra)
    case Reap => ReapStep(x)
    case _ => x
  }

  /** The queue is `q'`, with `k` more descriptors used. */
  function HasPublished(x: Irq, q': System, k: nat): Irq {
    x.(q := q', dev := Wrote(Published(x.dev) + k))
  }

  ghost function PublishStep(x: Irq, i: nat, len: nat, extra: Flags): Irq
    requires Inv(x.q)
  {
    if CanPublish(x, i) then HasPublished(x, CompleteStep(x.q, i, len, extra).0, |x.q.g.fetched[i].ids|) else x
  }

  ghost function ReapStep(x: Irq): Irq
    requires Inv(x.q)
  {
    if !Free(x.drv) then x
    else if !MoreUsed(x.q.r) then SeenEmpty(x)
    else x.(q := Reaping(x.q), drv := Reaped, woken := false)
  }

  /** The device looks at the event structure at least once in 2^16 descriptors. */
  predicate CanPublish(x: Irq, i: nat) {
    && (x.dev.Idle? || x.dev.Wrote?)
    && i < |x.q.g.fetched|
    && Published(x.dev) + |x.q.g.fetched[i].ids| < U16
  }

  /** get_buf found nothing. */
  function SeenEmpty(x: Irq): Irq {
    x.(drv := if x.q.r.shadow != FLAG_DISABLE then Waiting else Running, woken := false)
  }

  /** get_buf without its last write, the event position. */
  ghost function Reaping(q: System): System
    requires Inv(q)
  {
    WithEvents(GetStep(q).0, q.r.shadow, q.r.drvFlags, q.r.drvOff)
  }

  /** The device's decision, the last write of get_buf, disable_cb, and the steps of enable_cb. */
  ghost function LocalStep(x: Irq, a: Act): Irq
    requires WellFormed(x.q.r)
  {
    var r := x.q.r;
    match a
    case ReadFlags =>
      if !x.dev.Wrote? then x
      else x.(dev := if r.drvFlags == FLAG_DESC then SawDesc(x.dev.count) else Decided(r.drvFlags != FLAG_DISABLE))
    case ReadPosition =>
      if !x.dev.SawDesc? then x
      else x.(dev := Decided(PositionPassed(r.num, r.drvOff, x.q.dev.usedIdx, x.q.dev.usedWrap, x.dev.count)))
    case Raise =>
      if x.dev.Decided? then x.(dev := Idle, woken := x.woken || (x.dev.raise && x.q.g.done != [])) else x
    case WriteEvent =>
      if x.drv != Reaped then x else x.(q := EventWritten(x.q), drv := Running)
    case Disable =>
      if Free(x.drv) then x.(q := WithEvents(x.q, FLAG_DISABLE, FLAG_DISABLE, r.drvOff), drv := Running, woken := false)
      else x
    case EnableEvent =>
      if Free(x.drv) then
        x.(q := if x.es then WithEvents(x.q, r.shadow, r.drvFlags, Here(r)) else x.q, drv := EventSet, woken := false)
      else x
    case EnableFlags =>
      if x.drv != EventSet then x
      else if r.shadow != FLAG_DISABLE then x.(drv := FlagSet)
      else
        var f := if x.es then FLAG_DESC else FLAG_ENABLE;
        x.(q := WithEvents(x.q, f, f, r.drvOff), drv := FlagSet)
    case EnableCheck =>
      if x.drv == FlagSet then x.(drv := if MoreUsed(r) then Running else Waiting, woken := false) else x
    case _ => x
  }

  predicate IsQueueAct(a: Act) {
    a.AddBuf? || a.Fetch? || a.Publish? || a.Reap?
  }

  ghost function IrqStep(x: Irq, a: Act): Irq
    requires Inv(x.q) && ActAllowed(a)
  {
    if IsQueueAct(a) then QueueStep(x, a) else LocalStep(x, a)
  }

  // ---------------------------------------------------------------- the invariant

  /** What ties the event structure to the driver's place; `here` is the driver's position. */
  predicate EventLaw(es: bool, shadow: nat, flags: nat, off: nat, here: nat,
                     nDone: nat, dev: DevicePc, drv: DriverPc, woken: bool) {
    && flags == shadow <= FLAG_DESC
    && (shadow == FLAG_DESC ==> es)
    && ((Free(drv) || drv == FlagSet) && shadow == FLAG_DESC ==> off == here)
    && (drv == EventSet && es ==> off == here)
    && (drv == FlagSet ==> shadow != FLAG_DISABLE)
    && (drv == Waiting ==> shadow != FLAG_DISABLE && WakeUpComing(nDone, dev, woken))
    && (dev.SawDesc? ==> es && shadow != FLAG_ENABLE)
    && (dev.Wrote? || dev.SawDesc? ==> 0 < dev.count < U16)
  }

  ghost predicate Law(x: Irq) {
    EventLaw(x.es, x.q.r.shadow, x.q.r.drvFlags, x.q.r.drvOff, Here(x.q.r), UsedEnd(x.q.g), x.dev, x.drv, x.woken)
  }

  ghost predicate IrqInv(x: Irq) {
    Inv(x.q) && Law(x)
  }

  // ---------------------------------------------------------------- steps on the queue

  lemma {:induction false} EventFieldsAreFree(q: System, shadow: nat, flags: nat, off: nat)
    requires Inv(q)
    ensures Inv(WithEvents(q, shadow, flags, off))
  {
  }

  /** `q'` has the event fields and the driver's position of `q`, and `k` more used descriptors. */
  ghost predicate Leaves(q: System, q': System, k: nat) {
    && q'.r.shadow == q.r.shadow && q'.r.drvFlags == q.r.drvFlags && q'.r.drvOff == q.r.drvOff
    && q'.r.lastUsed == q.r.lastUsed && q'.r.usedWrap == q.r.usedWrap
    && UsedEnd(q'.g) == UsedEnd(q.g) + k
  }

  lemma {:induction false} AddEffect(q: System, sg: seq<Sg>, out: nat, token: nat, table: Option<nat>)
    requires Inv(q) && |sg| >= 1 && out <= |sg|
    ensures Leaves(q, AddStep(q, sg, out, token, table).0, 0)
  {
  }

  lemma {:induction false} FetchEffect(q: System)
    requires Inv(q)
    ensures Leaves(q, FetchStep(q).0, 0)
  {
  }

  lemma {:induction false} UseEffect(q: System, i: nat, len: nat, extra: Flags)
    requires q.dev.usedIdx < |q.r.desc| && i < |q.g.fetched| && 1 <= |q.g.fetched[i].ids| <= |q.r.desc|
    ensures Leaves(q, CompleteSystem(q, i, len, extra), |q.g.fetched[i].ids|)
  {
    CompleteGhostFacts(q.g, i, len);
  }

  lemma {:induction false} FetchedFits(q: System, i: nat)
    requires Inv(q) && i < |q.g.fetched|
    ensures 1 <= |q.g.fetched[i].ids| <= q.r.num
  {
    FetchedInFlight(q, i);
    CompleteGhostFacts(q.g, i, 0);
  }

  lemma {:induction false} CompleteEffect(q: System, i: nat, len: nat, extra: Flags)
    requires Inv(q) && i < |q.g.fetched|
    ensures |q.g.fetched[i].ids| >= 1 && Leaves(q, CompleteStep(q, i, len, extra).0, |q.g.fetched[i].ids|)
  {
    FetchedFits(q, i);
    assert CompleteStep(q, i, len, extra).0 == CompleteSystem(q, i, len, extra);
    UseEffect(q, i, len, extra);
  }

  /** A queue step that leaves the event fields keeps the law. */
  lemma {:induction false} LawFollows(x: Irq, q': System)
    requires Law(x) && Leaves(x.q, q', 0)
    ensures Law(x.(q := q'))
  {
  }

  lemma {:induction false} LawFollowsPublish(x: Irq, q': System, k: nat)
    requires Law(x) && (x.dev.Idle? || x.dev.Wrote?) && Leaves(x.q, q', k)
    requires k > 0 && Published(x.dev) + k < U16
    ensures Law(HasPublished(x, q', k))
  {
  }

  lemma {:induction false} PublishKeeps(x: Irq, i: nat, len: nat, extra: Flags) returns (y: Irq)
    requires IrqInv(x) && CanPublish(x, i)
    ensures y == PublishStep(x, i, len, extra) && IrqInv(y)
  {
    var q', k := CompletesTo(x.q, i, len, extra);
    y := IrqFollowsPublish(x, q', k);
  }

  lemma {:induction false} PublishActIs(x: Irq, a: Act)
    requires Inv(x.q) && a.Publish?
    ensures QueueStep(x, a) == PublishStep(x, a.i, a.len, a.extra)
  {
  }

  lemma {:induction false} PublishActKeeps(x: Irq, a: Act)
    requires IrqInv(x) && a.Publish?
    ensures IrqInv(QueueStep(x, a))
  {
    PublishActIs(x, a);
    if CanPublish(x, a.i) {
      var y := PublishKeeps(x, a.i, a.len, a.extra);
      SameIrq(y, QueueStep(x, a));
    } else {
      SameIrq(x, QueueStep(x, a));
    }
  }

  lemma {:induction false} CompletesTo(q: System, i: nat, len: nat, extra: Flags) returns (q': System, k: nat)
    requires Inv(q) && i < |q.g.fetched|
    ensures q' == CompleteStep(q, i, len, extra).0 && k == |q.g.fetched[i].ids| > 0 && Inv(q') && Leaves(q, q', k)
  {
    q', k := CompleteStep(q, i, len, extra).0, |q.g.fetched[i].ids|;
    CompleteStepKeeps(q, i, len, extra);
    CompleteEffect(q, i, len, extra);
  }

  lemma {:induction false} IrqFollowsPublish(x: Irq, q': System, k: nat) returns (y: Irq)
    requires IrqInv(x) && (x.dev.Idle? || x.dev.Wrote?) && Inv(q') && Leaves(x.q, q', k)
    requires k > 0 && Published(x.dev) + k < U16
    ensures y == HasPublished(x, q', k) && IrqInv(y)
  {
    LawFollowsPublish(x, q', k);
    y := HasPublished(x, q', k);
  }

  lemma {:induction false} AddBufKeeps(x: Irq, a: Act)
    requires IrqInv(x) && ActAllowed(a) && a.AddBuf?
    ensures IrqInv(QueueStep(x, a))
  {
    AddStepKeeps(x.q, a.sg, a.out, a.token, a.table);
    AddEffect(x.q, a.sg, a.out, a.token, a.table);
    LawFollows(x, AddStep(x.q, a.sg, a.out, a.token, a.table).0);
  }

  lemma {:induction false} FetchKeeps(x: Irq, a: Act)
    requires IrqInv(x) && a.Fetch?
    ensures IrqInv(QueueStep(x, a))
  {
    FetchStepKeeps(x.q);
    FetchEffect(x.q);
    LawFollows(x, FetchStep(x.q).0);
  }

  lemma {:induction false} ReapingKeeps(q: System)
    requires Inv(q)
    ensures Inv(Reaping(q))
  {
    GetStepKeeps(q);
    EventFieldsAreFree(GetStep(q).0, q.r.shadow, q.r.drvFlags, q.r.drvOff);
  }

  lemma {:induction false} LawFollowsReap(x: Irq, q': System)
    requires Law(x) && Free(x.drv)
    requires q'.r.shadow == x.q.r.shadow && q'.r.drvFlags == x.q.r.drvFlags && q'.r.drvOff == x.q.r.drvOff
    ensures Law(x.(q := q', drv := Reaped, woken := false))
    ensures UsedEnd(x.q.g) == 0 ==> Law(SeenEmpty(x))
  {
  }

  lemma {:induction false} EmptyReapKeeps(x: Irq)
    requires IrqInv(x) && Free(x.drv) && !MoreUsed(x.q.r)
    ensures Law(SeenEmpty(x))
  {
    MoreUsedIsExact(x.q);
    LawFollowsReap(x, x.q);
  }

  lemma {:induction false} FoundReapKeeps(x: Irq)
    requires IrqInv(x) && Free(x.drv)
    ensures Inv(Reaping(x.q)) && Law(x.(q := Reaping(x.q), drv := Reaped, woken := false))
  {
    ReapingKeeps(x.q);
    LawFollowsReap(x, Reaping(x.q));
  }

  lemma {:induction false} ReapKeeps(x: Irq)
    requires IrqInv(x)
    ensures IrqInv(ReapStep(x))
  {
    if Free(x.drv) {
      if MoreUsed(x.q.r) {
        FoundReapKeeps(x);
      } else {
        EmptyReapKeeps(x);
      }
    }
  }

  lemma {:induction false} ReapActIs(x: Irq, a: Act)
    requires Inv(x.q) && a.Reap?
    ensures QueueStep(x, a) == ReapStep(x)
  {
  }

  lemma {:induction false} SameIrq(x: Irq, y: Irq)
    requires IrqInv(x) && y == x
    ensures IrqInv(y)
  {
  }

  lemma {:induction false} ReapActKeeps(x: Irq, a: Act)
    requires IrqInv(x) && a.Reap?
    ensures IrqInv(QueueStep(x, a))
  {
    ReapKeeps(x);
    ReapActIs(x, a);
    SameIrq(ReapStep(x), QueueStep(x, a));
  }

  lemma {:induction false} QueueStepKeeps(x: Irq, a: Act)
    requires IrqInv(x) && ActAllowed(a) && IsQueueAct(a)
    ensures IrqInv(QueueStep(x, a))
  {
    match a
    case AddBuf(_, _, _, _) => AddBufKeeps(x, a);
    case Fetch => FetchKeeps(x, a);
    case Publish(_, _, _) => PublishActKeeps(x, a);
    case Reap => ReapActKeeps(x, a);
  }

  // ---------------------------------------------------------------- steps on the event structure

  /** The driver's position lies among the last `count` descriptors the device used as long as at least
      one and at most `count` of them are unread. */
  lemma {:induction false} EventIsHit(n: nat, last: nat, wrap: bool, p: nat, count: nat)
    requires last < n <= MAX_RING && 0 < p <= n && p <= count < U16
    ensures PositionPassed(n, OffWrap(last, wrap), Slot(n, last, p), ParityAt(n, last, wrap, p), count)
  {
    OffWrapRoundTrip(last, wrap);
    var wraps := last + p >= n;
    var e: int := if wraps then last - n as int else last;
    PackedTest(n, Slot(n, last, p), count, e);
  }

  /** What the local steps use of the queue's invariant. */
  ghost predicate Placed(q: System) {
    && WellFormed(q.r)
    && UsedEnd(q.g) <= q.r.num
    && q.dev.usedIdx == Slot(q.r.num, q.r.lastUsed, UsedEnd(q.g))
    && q.dev.usedWrap == ParityAt(q.r.num, q.r.lastUsed, q.r.usedWrap, UsedEnd(q.g))
    && (MoreUsed(q.r) <==> UsedEnd(q.g) != 0)
    && (q.g.done == [] <==> UsedEnd(q.g) == 0)
  }

  lemma {:induction false} DoneIsCounted(g: Ghost, out: multiset<Buf>)
    requires out == InFlight(g) && forall b: Buf :: b in out ==> Shaped(b)
    ensures g.done == [] <==> UsedEnd(g) == 0
  {
    if g.done != [] {
      assert g.done[0] in out;
    }
  }

  lemma {:induction false} InvPlaces(q: System)
    requires Inv(q)
    ensures Placed(q)
  {
    MoreUsedIsExact(q);
    DoneIsCounted(q.g, InFlight(q.g));
  }

  lemma {:induction false} DecidedKeeps(x: Irq, raise: bool)
    requires Law(x) && (x.dev.Wrote? || x.dev.SawDesc?)
    requires x.drv == Waiting && 0 < UsedEnd(x.q.g) <= x.dev.count ==> raise
    ensures Law(x.(dev := Decided(raise)))
  {
  }

  lemma {:induction false} UnreadIsHit(q: System, count: nat)
    requires Placed(q) && 0 < UsedEnd(q.g) <= count < U16 && q.r.drvOff == Here(q.r)
    ensures PositionPassed(q.r.num, q.r.drvOff, q.dev.usedIdx, q.dev.usedWrap, count)
  {
    EventIsHit(q.r.num, q.r.lastUsed, q.r.usedWrap, UsedEnd(q.g), count);
  }

  lemma {:induction false} ReadPositionLaw(x: Irq)
    requires Placed(x.q) && Law(x)
    ensures Law(LocalStep(x, ReadPosition))
  {
    if x.dev.SawDesc? {
      var r, d := x.q.r, x.q.dev;
      if x.drv == Waiting && 0 < UsedEnd(x.q.g) <= x.dev.count {
        UnreadIsHit(x.q, x.dev.count);
      }
      DecidedKeeps(x, PositionPassed(r.num, r.drvOff, d.usedIdx, d.usedWrap, x.dev.count));
    }
  }

  lemma {:induction false} LocalLaw(x: Irq, a: Act)
    requires Placed(x.q) && Law(x) && !IsQueueAct(a)
    ensures Law(LocalStep(x, a))
  {
    if a.ReadPosition? {
      ReadPositionLaw(x);
    }
  }

  /** A local step changes nothing of the queue but the event structure. */
  lemma {:induction false} LocalShape(x: Irq, a: Act) returns (shadow: nat, flags: nat, off: nat)
    requires WellFormed(x.q.r) && !IsQueueAct(a)
    ensures LocalStep(x, a).q == WithEvents(x.q, shadow, flags, off)
  {
    var r := LocalStep(x, a).q.r;
    shadow, flags, off := r.shadow, r.drvFlags, r.drvOff;
  }

  lemma {:induction false} LocalStepKeeps(x: Irq, a: Act)
    requires IrqInv(x) && !IsQueueAct(a)
    ensures IrqInv(LocalStep(x, a))
  {
    InvPlaces(x.q);
    LocalLaw(x, a);
    var shadow, flags, off := LocalShape(x, a);
    EventFieldsAreFree(x.q, shadow, flags, off);
  }

  // ---------------------------------------------------------------- runs

  lemma {:induction false} IrqStepKeeps(x: Irq, a: Act)
    requires IrqInv(x) && ActAllowed(a)
    ensures IrqInv(IrqStep(x, a))
  {
    if IsQueueAct(a) {
      QueueStepKeeps(x, a);
    } else {
      LocalStepKeeps(x, a);
    }
  }

  ghost function IrqRun(x: Irq, acts: seq<Act>): (y: Irq)
    requires IrqInv(x) && forall i :: 0 <= i < |acts| ==> ActAllowed(acts[i])
    ensures IrqInv(y)
    decreases |acts|
  {
    if acts == [] then x
    else
      IrqStepKeeps(x, acts[0]);
      IrqRun(IrqStep(x, acts[0]), acts[1..])
  }

  lemma {:induction false} IdleMeansRaised(x: Irq)
    requires Placed(x.q) && Law(x) && x.drv == Waiting && x.dev == Idle && MoreUsed(x.q.r)
    ensures x.woken
  {
  }

  /** From a new queue, in any interleaving: once the driver has seen the used ring empty with
      interrupts enabled, be it in enable_cb or in get_buf, a device that has gone idle after writing a
      used element has raised an interrupt for it. */
  lemma {:induction false} NoLostInterruptPacked(num: nat, es: bool, acts: seq<Act>)
    requires 0 < num <= MAX_RING && forall i :: 0 <= i < |acts| ==> ActAllowed(acts[i])
    ensures var x := Irq(FreshSystem(num), es, Idle, Running, false);
            && IrqInv(x)
            && var y := IrqRun(x, acts);
               y.drv == Waiting && y.dev == Idle && MoreUsed(y.q.r) ==> y.woken
  {
    FreshKeeps(num);
    var y := IrqRun(Irq(FreshSystem(num), es, Idle, Running, false), acts);
    InvPlaces(y.q);
    if y.drv == Waiting && y.dev == Idle && MoreUsed(y.q.r) {
      IdleMeansRaised(y);
    }
  }

  lemma {:induction false} LastWriteOfGet(r: Packed)
    requires WellFormed(r) && GetBuf(r).1 != Null
    ensures var g := GetBuf(r).0;
            var taken := g.(shadow := r.shadow, drvFlags := r.drvFlags, drvOff := r.drvOff);
            g == if r.shadow == FLAG_DESC then taken.(drvOff := Here(taken)) else taken
  {
  }

  lemma {:induction false} GetStepRing(q: System)
    requires Inv(q)
    ensures GetStep(q).0.r == GetBuf(q.r).0
    ensures MoreUsed(q.r) ==> GetBuf(q.r).1 != Null
  {
    MoreUsedIsExact(q);
    GetOutcome(q);
  }

  /** The two steps of get_buf, with nothing in between, are get_buf. */
  lemma {:induction false} ReapThenWriteIsGet(q: System)
    requires Inv(q) && MoreUsed(q.r)
    ensures GetBuf(q.r).0 == EventWritten(Reaping(q)).r
  {
    GetStepRing(q);
    LastWriteOfGet(q.r);
  }
}
