/** No interrupt of a split queue is lost: the driver's enable_cb and get_buf, one shared-memory access
    at a time, against a device that publishes used entries before it reads the event field. */
module SplitInterrupts {
  import opened Integers
  import opened Ledger
  import opened EventIndex
  import opened SplitRing
  import opened SplitInvariant
  import opened SplitSteps
  import opened SplitRuns
  import opened Interrupts

  /** A queue with its device, whether event suppression was negotiated, where the two sides are, and
      whether an interrupt was raised since the driver began to wait for what is now in the used ring. */
  datatype SIrq = SIrq(q: SSystem, es: bool, dev: DevicePc, drv: DriverPc, woken: bool)

  datatype SAct =
    | AddBuf(sg: seq<Sg>, out: nat, token: nat, table: Option<nat>)
    | Fetch | Publish(i: nat, len: nat) | Decide | Raise
    | Reap | WriteEvent
    | Disable | EnableFlag | EnableEvent | EnableCheck

  predicate SActAllowed(a: SAct) {
    a.AddBuf? ==> |a.sg| >= 1 && a.out <= |a.sg|
  }

  function WithEvents(q: SSystem, event: nat, on: bool): SSystem {
    q.(r := q.r.(usedEvent := event, interruptsOn := on))
  }

  /** What the device concludes from the driver's event index, or without event suppression from the
      NO_INTERRUPT flag, `count` entries after it last did. */
  predicate Concludes(r: Split, es: bool, count: nat) {
    if es then NeedEvent(r.usedEvent, r.usedIdx, (r.usedIdx as int - count as int) % U16)
    else r.interruptsOn
  }

  /** The device looks at the event index at least once in 2^16 entries. */
  predicate CanPublish(x: SIrq, i: nat) {
    (x.dev.Idle? || x.dev.Wrote?) && i < |x.q.g.fetched| && Published(x.dev) + 1 < U16
  }

  /** The steps that take or bring a buffer: add_buf, the device reading one and publishing one, and
      get_buf up to its last write. */
  ghost function QueueStep(x: SIrq, a: SAct): SIrq
    requires SInv(x.q) && SActAllowed(a)
  {
    match a
    case AddBuf(sg, out, token, table) =>
      if Free(x.drv) then x.(q := SAddStep(x.q, sg, out, token, table).0) else x
    case Fetch => x.(q := SFetchStep(x.q).0)
    case Publish(i, len) =>
      if CanPublish(x, i) then x.(q := SCompleteStep(x.q, i, len).0, dev := Wrote(Published(x.dev) + 1)) else x
    case Reap => ReapStep(x)
    case _ => x
  }

  ghost function ReapStep(x: SIrq): SIrq
    requires SInv(x.q)
  {
    if !Free(x.drv) then x
    else if x.q.r.lastUsed == x.q.r.usedIdx then SeenEmpty(x)
    else x.(q := SGetStep(x.q, false).0, drv := Reaped, woken := false)
  }

  /** get_buf found nothing. */
  function SeenEmpty(x: SIrq): SIrq {
    x.(drv := if x.q.r.interruptsOn then Waiting else Running, woken := false)
  }

  /** The last write of get_buf. */
  function EventWritten(r: Split, es: bool): Split {
    if es && r.interruptsOn then r.(usedEvent := r.lastUsed) else r
  }

  /** The device's decision, the last write of get_buf, disable_cb, and the steps of enable_cb. */
  function LocalStep(x: SIrq, a: SAct): SIrq {
    var r := x.q.r;
    match a
    case Decide => if x.dev.Wrote? then x.(dev := Decided(Concludes(r, x.es, x.dev.count))) else x
    case Raise =>
      if x.dev.Decided? then x.(dev := Idle, woken := x.woken || (x.dev.raise && x.q.g.done != [])) else x
    case WriteEvent =>
      if x.drv != Reaped then x else x.(q := x.q.(r := EventWritten(r, x.es)), drv := Running)
    case Disable => if Free(x.drv) then x.(q := WithEvents(x.q, r.usedEvent, false), drv := Running, woken := false) else x
    case EnableFlag => if Free(x.drv) then x.(q := WithEvents(x.q, r.usedEvent, true), drv := FlagSet, woken := false) else x
    case EnableEvent => if x.drv == FlagSet then x.(q := WithEvents(x.q, r.lastUsed, r.interruptsOn), drv := EventSet) else x
    case EnableCheck =>
      if x.drv != EventSet then x
      else x.(drv := if r.lastUsed == r.usedIdx then Waiting else Running, woken := false)
    case _ => x
  }

  predicate IsQueueAct(a: SAct) {
    a.AddBuf? || a.Fetch? || a.Publish? || a.Reap?
  }

  ghost function SIrqStep(x: SIrq, a: SAct): SIrq
    requires SInv(x.q) && SActAllowed(a)
  {
    if IsQueueAct(a) then QueueStep(x, a) else LocalStep(x, a)
  }

  // ---------------------------------------------------------------- the invariant

  /** What ties the event index to the driver's place, over the fields it depends on. */
  predicate EventLaw(es: bool, on: bool, event: nat, last: nat, nDone: nat, dev: DevicePc, drv: DriverPc, woken: bool) {
    && (Free(drv) && es && on ==> event == last)
    && (drv == FlagSet ==> on)
    && (drv == EventSet ==> on && event == last)
    && (drv == Waiting ==> on && WakeUpComing(nDone, dev, woken))
    && (dev.Wrote? ==> 0 < dev.count < U16)
    && !dev.SawDesc?
  }

  ghost predicate Law(x: SIrq) {
    EventLaw(x.es, x.q.r.interruptsOn, x.q.r.usedEvent, x.q.r.lastUsed, |x.q.g.done|, x.dev, x.drv, x.woken)
  }

  ghost predicate SIrqInv(x: SIrq) {
    SInv(x.q) && Law(x)
  }

  // ---------------------------------------------------------------- steps on the queue

  lemma {:induction false} RingsDoNotReadEvents(r: Split, devAvail: nat, g: SGhost, event: nat, on: bool)
    requires SplitWellFormed(r) && IndicesOk(r, devAvail, g) && RingsOk(r, g)
    ensures var r' := r.(usedEvent := event, interruptsOn := on);
            SplitWellFormed(r') && IndicesOk(r', devAvail, g) && RingsOk(r', g)
  {
  }

  /** The driver's event index and flag are no part of the queue's invariant. */
  lemma {:induction false} EventFieldsAreFree(q: SSystem, event: nat, on: bool)
    requires SInv(q)
    ensures SInv(WithEvents(q, event, on))
  {
    RingsDoNotReadEvents(q.r, q.devAvail, q.g, event, on);
  }

  /** `q'` has the event fields and the driver's position of `q`, and `k` more completed buffers. */
  ghost predicate Leaves(q: SSystem, q': SSystem, k: nat) {
    && q'.r.usedEvent == q.r.usedEvent && q'.r.interruptsOn == q.r.interruptsOn && q'.r.lastUsed == q.r.lastUsed
    && |q'.g.done| == |q.g.done| + k
  }

  lemma {:induction false} AddEffect(q: SSystem, sg: seq<Sg>, out: nat, token: nat, table: Option<nat>)
    requires SInv(q) && |sg| >= 1 && out <= |sg|
    ensures Leaves(q, SAddStep(q, sg, out, token, table).0, 0)
  {
  }

  lemma {:induction false} FetchEffect(q: SSystem)
    requires SInv(q)
    ensures Leaves(q, SFetchStep(q).0, 0)
  {
  }

  lemma {:induction false} CompleteEffect(q: SSystem, i: nat, len: nat)
    requires SInv(q) && i < |q.g.fetched|
    ensures Leaves(q, SCompleteStep(q, i, len).0, 1)
  {
  }

  /** A queue step that leaves the event fields keeps the law. */
  lemma {:induction false} LawFollows(x: SIrq, q': SSystem)
    requires Law(x) && Leaves(x.q, q', 0)
    ensures Law(x.(q := q'))
  {
  }

  lemma {:induction false} LawFollowsPublish(x: SIrq, q': SSystem)
    requires Law(x) && (x.dev.Idle? || x.dev.Wrote?) && Leaves(x.q, q', 1) && Published(x.dev) + 1 < U16
    ensures Law(x.(q := q', dev := Wrote(Published(x.dev) + 1)))
  {
  }

  lemma {:induction false} PublishKeeps(x: SIrq, a: SAct)
    requires SIrqInv(x) && a.Publish?
    ensures SIrqInv(QueueStep(x, a))
  {
    if CanPublish(x, a.i) {
      var q' := CompletesTo(x.q, a.i, a.len);
      IrqFollowsPublish(x, q');
    }
  }

  lemma {:induction false} CompletesTo(q: SSystem, i: nat, len: nat) returns (q': SSystem)
    requires SInv(q) && i < |q.g.fetched|
    ensures q' == SCompleteStep(q, i, len).0 && SInv(q') && Leaves(q, q', 1)
  {
    q' := SCompleteStep(q, i, len).0;
    SCompleteStepKeeps(q, i, len);
    CompleteEffect(q, i, len);
  }

  lemma {:induction false} IrqFollowsPublish(x: SIrq, q': SSystem)
    requires SIrqInv(x) && (x.dev.Idle? || x.dev.Wrote?) && SInv(q') && Leaves(x.q, q', 1) && Published(x.dev) + 1 < U16
    ensures SIrqInv(x.(q := q', dev := Wrote(Published(x.dev) + 1)))
  {
    LawFollowsPublish(x, q');
  }

  lemma {:induction false} AddBufKeeps(x: SIrq, a: SAct)
    requires SIrqInv(x) && SActAllowed(a) && a.AddBuf?
    ensures SIrqInv(QueueStep(x, a))
  {
    SAddStepKeeps(x.q, a.sg, a.out, a.token, a.table);
    AddEffect(x.q, a.sg, a.out, a.token, a.table);
    LawFollows(x, SAddStep(x.q, a.sg, a.out, a.token, a.table).0);
  }

  lemma {:induction false} FetchKeeps(x: SIrq, a: SAct)
    requires SIrqInv(x) && a.Fetch?
    ensures SIrqInv(QueueStep(x, a))
  {
    SFetchStepKeeps(x.q);
    FetchEffect(x.q);
    LawFollows(x, SFetchStep(x.q).0);
  }

  lemma {:induction false} LawFollowsReap(x: SIrq, q': SSystem)
    requires Law(x) && Free(x.drv) && q'.r.interruptsOn == x.q.r.interruptsOn
    ensures Law(x.(q := q', drv := Reaped, woken := false))
    ensures x.q.g.done == [] ==> Law(SeenEmpty(x))
  {
  }

  lemma {:induction false} ReapEffect(q: SSystem)
    requires SInv(q)
    ensures SGetStep(q, false).0.r.interruptsOn == q.r.interruptsOn
  {
    SGetResult(q, false);
  }

  lemma {:induction false} EmptyReapKeeps(x: SIrq)
    requires SIrqInv(x) && Free(x.drv) && x.q.r.lastUsed == x.q.r.usedIdx
    ensures Law(SeenEmpty(x))
  {
    UsedIsAhead(x.q);
    LawFollowsReap(x, x.q);
  }

  lemma {:induction false} FoundReapKeeps(x: SIrq)
    requires SIrqInv(x) && Free(x.drv)
    ensures SInv(SGetStep(x.q, false).0) && Law(x.(q := SGetStep(x.q, false).0, drv := Reaped, woken := false))
  {
    SGetKeeps(x.q, false);
    ReapEffect(x.q);
    LawFollowsReap(x, SGetStep(x.q, false).0);
  }

  lemma {:induction false} ReapKeeps(x: SIrq)
    requires SIrqInv(x)
    ensures SIrqInv(ReapStep(x))
  {
    if Free(x.drv) {
      if x.q.r.lastUsed == x.q.r.usedIdx {
        EmptyReapKeeps(x);
      } else {
        FoundReapKeeps(x);
      }
    }
  }

  lemma {:induction false} ReapActIs(x: SIrq, a: SAct)
    requires SInv(x.q) && a.Reap?
    ensures QueueStep(x, a) == ReapStep(x)
  {
  }

  lemma {:induction false} SameIrq(x: SIrq, y: SIrq)
    requires SIrqInv(x) && y == x
    ensures SIrqInv(y)
  {
  }

  lemma {:induction false} ReapActKeeps(x: SIrq, a: SAct)
    requires SIrqInv(x) && a.Reap?
    ensures SIrqInv(QueueStep(x, a))
  {
    ReapKeeps(x);
    ReapActIs(x, a);
    SameIrq(ReapStep(x), QueueStep(x, a));
  }

  lemma {:induction false} QueueStepKeeps(x: SIrq, a: SAct)
    requires SIrqInv(x) && SActAllowed(a) && IsQueueAct(a)
    ensures SIrqInv(QueueStep(x, a))
  {
    match a
    case AddBuf(_, _, _, _) => AddBufKeeps(x, a);
    case Fetch => FetchKeeps(x, a);
    case Publish(_, _) => PublishKeeps(x, a);
    case Reap => ReapActKeeps(x, a);
  }

  // ---------------------------------------------------------------- steps on the event index

  /** An event index at the driver's position lies among the last `count` published entries as long as
      at least one and at most `count` entries are unread. */
  lemma {:induction false} EventIsHit(last: nat, n: nat, count: nat)
    requires 0 < n <= count < U16
    ensures var used := Low16(last + n);
            NeedEvent(Low16(last), used, (used as int - count as int) % U16)
  {
    var here, used := Low16(last), Low16(last + n);
    DistanceOfLow16(last, n);
    SmallRemainder(used as int - here as int - 1, n - 1);
    var from: nat := if used >= count then used - count else used + U16 - count;
    SmallRemainder(used as int - count as int, from);
    SmallRemainder(used as int - from as int, count);
  }

  /** What the local steps use of the queue's invariant. */
  ghost predicate Placed(q: SSystem) {
    && q.r.lastUsed == Low16(q.g.lastAbs)
    && q.r.usedIdx == Low16(q.g.lastAbs + |q.g.done|)
    && (q.r.lastUsed == q.r.usedIdx <==> q.g.done == [])
  }

  /** The used index is ahead of the driver's by the completed entries. */
  lemma {:induction false} UsedIsAhead(q: SSystem)
    requires SInv(q)
    ensures Placed(q)
  {
    UsedExactlySplit(q.r, q.devAvail, q.g);
  }

  lemma {:induction false} DecidedKeeps(x: SIrq, raise: bool)
    requires Law(x) && x.dev.Wrote?
    requires x.drv == Waiting && 0 < |x.q.g.done| <= x.dev.count ==> raise
    ensures Law(x.(dev := Decided(raise)))
  {
  }

  lemma {:induction false} UnreadIsHit(q: SSystem, es: bool, count: nat)
    requires Placed(q) && 0 < |q.g.done| <= count < U16
    requires q.r.interruptsOn && (es ==> q.r.usedEvent == q.r.lastUsed)
    ensures Concludes(q.r, es, count)
  {
    EventIsHit(q.g.lastAbs, |q.g.done|, count);
  }

  lemma {:induction false} DecideLaw(x: SIrq)
    requires Placed(x.q) && Law(x)
    ensures Law(LocalStep(x, Decide))
  {
    if x.dev.Wrote? {
      if x.drv == Waiting && 0 < |x.q.g.done| <= x.dev.count {
        UnreadIsHit(x.q, x.es, x.dev.count);
      }
      DecidedKeeps(x, Concludes(x.q.r, x.es, x.dev.count));
    }
  }

  lemma {:induction false} LocalLaw(x: SIrq, a: SAct)
    requires Placed(x.q) && Law(x) && !IsQueueAct(a)
    ensures Law(LocalStep(x, a))
  {
    if a.Decide? {
      DecideLaw(x);
    }
  }

  /** A local step changes nothing of the queue but the driver's event index and flag. */
  lemma {:induction false} LocalShape(x: SIrq, a: SAct) returns (event: nat, on: bool)
    requires !IsQueueAct(a)
    ensures LocalStep(x, a).q == WithEvents(x.q, event, on)
  {
    event, on := LocalStep(x, a).q.r.usedEvent, LocalStep(x, a).q.r.interruptsOn;
  }

  lemma {:induction false} LocalStepKeeps(x: SIrq, a: SAct)
    requires SIrqInv(x) && !IsQueueAct(a)
    ensures SIrqInv(LocalStep(x, a))
  {
    UsedIsAhead(x.q);
    LocalLaw(x, a);
    var event, on := LocalShape(x, a);
    EventFieldsAreFree(x.q, event, on);
  }

  // ---------------------------------------------------------------- runs

  lemma {:induction false} SIrqStepKeeps(x: SIrq, a: SAct)
    requires SIrqInv(x) && SActAllowed(a)
    ensures SIrqInv(SIrqStep(x, a))
  {
    if IsQueueAct(a) {
      QueueStepKeeps(x, a);
    } else {
      LocalStepKeeps(x, a);
    }
  }

  ghost function SIrqRun(x: SIrq, acts: seq<SAct>): (y: SIrq)
    requires SIrqInv(x) && forall i :: 0 <= i < |acts| ==> SActAllowed(acts[i])
    ensures SIrqInv(y)
    decreases |acts|
  {
    if acts == [] then x
    else
      SIrqStepKeeps(x, acts[0]);
      SIrqRun(SIrqStep(x, acts[0]), acts[1..])
  }

  /** From a new queue, in any interleaving: once the driver has seen the used ring empty with
      interrupts enabled, be it in enable_cb or in get_buf, a device that has gone idle after publishing
      something has raised an interrupt for it. */
  lemma {:induction false} NoLostInterruptSplit(num: nat, es: bool, acts: seq<SAct>)
    requires RingSize(num) && forall i :: 0 <= i < |acts| ==> SActAllowed(acts[i])
    ensures var x := SIrq(FreshSSystem(num), es, Idle, Running, false);
            && SIrqInv(x)
            && var y := SIrqRun(x, acts);
               y.drv == Waiting && y.dev == Idle && y.q.r.lastUsed != y.q.r.usedIdx ==> y.woken
  {
    FreshSKeeps(num);
    UsedIsAhead(SIrqRun(SIrq(FreshSSystem(num), es, Idle, Running, false), acts).q);
  }

  lemma {:induction false} LastWriteOfGet(r: Split, ids: seq<nat>, es: bool)
    requires SplitWellFormed(r) && |ids| >= 1 && forall i :: 0 <= i < |ids| ==> ids[i] < r.num
    ensures SReap(r, ids, es) == EventWritten(SReap(r, ids, false), es)
  {
  }

  /** The two steps of get_buf, with nothing in between, are get_buf. */
  lemma {:induction false} ReapThenWriteIsGet(q: SSystem, es: bool)
    requires SInv(q) && q.g.done != []
    ensures SGetStep(q, es).0.r == EventWritten(SGetStep(q, false).0.r, es)
  {
    SGetResult(q, false);
    SGetResult(q, es);
    LastWriteOfGet(q.r, q.g.done[0].ids, es);
  }
}
