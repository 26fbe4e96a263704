/** No notification of a split queue is lost: the mirror of `SplitInterrupts`, as `PackedNotify` is that of
    `PackedInterrupts`. */
module SplitNotify {
  import opened Integers
  import opened Ledger
  import opened BufferQueue
  import opened EventIndex
  import opened SplitRing
  import opened SplitInvariant
  import opened SplitSteps
  import opened SplitRuns
  import opened SplitKicks

  /** A queue with its device, whether event suppression was negotiated, what the device has written into its
      flags and its event index, whether it sleeps, and whether it was notified since it fell asleep. */
  datatype SNotice = SNotice(q: SSystem, es: bool, noNotify: bool, event: nat, asleep: bool, told: bool)

  /** The driver's calls; the device reads a chain, completes one, writes its flag and its event index, sees
      that there is nothing to read and falls asleep, or wakes up because it was notified. */
  datatype SAct =
    | AddBuf(sg: seq<Sg>, out: nat, token: nat, table: Option<nat>) | GetBuf | Kicks
    | Reads | Uses(i: nat, len: nat)
    | SetsEvent(noNotify: bool, event: nat) | Sleeps | Wakes

  predicate SActAllowed(a: SAct) {
    && (a.AddBuf? ==> |a.sg| >= 1 && a.out <= |a.sg|)
    && (a.SetsEvent? ==> a.event < U16)
  }

  /** The device has asked to be notified of the next buffer. */
  predicate Asks(es: bool, noNotify: bool, event: nat, devAvail: nat) {
    if es then event == devAvail else !noNotify
  }

  predicate AsksNow(x: SNotice) { Asks(x.es, x.noNotify, x.event, x.q.devAvail) }

  predicate IsLocal(a: SAct) { a.SetsEvent? || a.Sleeps? || a.Wakes? }

  ghost function SNoticeStep(x: SNotice, a: SAct): SNotice
    requires SInv(x.q) && SActAllowed(a)
  {
    if IsLocal(a) then LocalStep(x, a) else if a.Kicks? then KickNow(x) else x.(q := QueueStep(x, a))
  }

  ghost function LocalStep(x: SNotice, a: SAct): SNotice {
    match a
    case SetsEvent(noNotify, event) => if x.asleep then x else x.(noNotify := noNotify, event := event)
    case Sleeps => FallsAsleep(x)
    case Wakes => if x.told then x.(asleep := false) else x
    case _ => x
  }

  ghost function QueueStep(x: SNotice, a: SAct): SSystem
    requires SInv(x.q) && SActAllowed(a)
  {
    match a
    case AddBuf(sg, out, token, table) => SAddStep(x.q, sg, out, token, table).0
    case GetBuf => SGetStep(x.q, x.es).0
    case Reads => if x.asleep then x.q else SFetchStep(x.q).0
    case Uses(i, len) => SCompleteStep(x.q, i, len).0
    case _ => x.q
  }

  ghost function KickNow(x: SNotice): SNotice {
    var (q', ev) := SKickStep(x.q, x.es, x.noNotify, x.event);
    x.(q := q', told := x.told || ev == Kicked(true))
  }

  /** Nothing is unread: the device's index is the driver's. */
  ghost function FallsAsleep(x: SNotice): SNotice {
    if !x.asleep && AsksNow(x) && x.q.devAvail == x.q.r.availIdx then x.(asleep := true, told := false) else x
  }

  // ---------------------------------------------------------------- one kick, by what the device asks for

  /** Without event suppression the kick notifies exactly if the device has not set NO_NOTIFY. */
  lemma {:induction false} KickForFlag(s: SSystem, noNotify: bool, event: nat)
    ensures noNotify ==> SKickStep(s, false, noNotify, event).1 == Kicked(false)
    ensures !noNotify ==> SKickStep(s, false, noNotify, event).1 == Kicked(true)
  {
  }

  /** The device's next position, counted without wrapping. */
  ghost function DevAbs(s: SSystem): nat { s.g.lastAbs + |s.g.done| + |s.g.fetched| }

  /** The kick tells apart what was passed. */
  ghost predicate KickTells(s: SSystem) {
    s.g.lastKick <= Now(s.g) && CountTells(Now(s.g), s.g.lastKick)
  }

  lemma {:induction false} PositionReaches(s: SSystem)
    requires RingSize(s.r.num) && IndicesOk(s.r, s.devAvail, s.g) && SKickInv(s) && KickTells(s)
    requires s.g.pending != [] && s.g.lastKick <= DevAbs(s)
    ensures SKickPrepare(s.r, true, false, s.devAvail).1
  {
    var now, p := Now(s.g), DevAbs(s);
    assert s.devAvail == Low16(p) && s.g.lastKick <= p < s.g.lastKick + (now - s.g.lastKick);
    PrepareIsKicks(s, s.devAvail);
    KickIsRight(now, s.g.lastKick, s.devAvail);
  }

  /** With a buffer unread that was added since the last kick, the kick notifies a device that has asked. */
  lemma {:induction false} KickReaches(s: SSystem, es: bool, noNotify: bool, event: nat)
    requires RingSize(s.r.num) && IndicesOk(s.r, s.devAvail, s.g) && SKickInv(s)
    requires Asks(es, noNotify, event, s.devAvail) && s.g.pending != [] && s.g.lastKick <= DevAbs(s)
    requires es ==> KickTells(s)
    ensures SKickStep(s, es, noNotify, event).1 == Kicked(true)
  {
    if es {
      PositionReaches(s);
    } else {
      KickForFlag(s, noNotify, event);
    }
  }

  // ---------------------------------------------------------------- the invariant

  /** While the device sleeps it has asked; and until it is notified, all it has not read was added after the
      last kick. */
  ghost predicate NoticeLaw(x: SNotice) {
    && SKickInv(x.q)
    && (x.asleep ==> AsksNow(x))
    && (x.asleep && !x.told ==> x.q.g.lastKick <= DevAbs(x.q))
  }

  ghost predicate NoticeInv(x: SNotice) { SInv(x.q) && NoticeLaw(x) }

  /** With event suppression the kick's count is good enough. */
  ghost predicate KicksWell(x: SNotice, a: SAct) { a.Kicks? && x.es ==> KickTells(x.q) }

  /** The device is where it was, and so is the last kick. */
  ghost predicate Stays(s: SSystem, t: SSystem) {
    t.devAvail == s.devAvail && t.g.lastKick == s.g.lastKick && DevAbs(t) == DevAbs(s)
  }

  lemma {:induction false} AddStays(s: SSystem, sg: seq<Sg>, out: nat, token: nat, table: Option<nat>)
    requires SInv(s) && |sg| >= 1 && out <= |sg|
    ensures Stays(s, SAddStep(s, sg, out, token, table).0)
  {
  }

  lemma {:induction false} AddsTo(s: SSystem, sg: seq<Sg>, out: nat, token: nat, table: Option<nat>) returns (t: SSystem)
    requires SInv(s) && SKickInv(s) && |sg| >= 1 && out <= |sg|
    ensures t == SAddStep(s, sg, out, token, table).0 && SInv(t) && SKickInv(t) && Stays(s, t)
  {
    t := SAddStep(s, sg, out, token, table).0;
    SAddStepKeeps(s, sg, out, token, table);
    AddKeepsKick(s, sg, out, token, table);
    AddStays(s, sg, out, token, table);
  }

  lemma {:induction false} GetsTo(s: SSystem, es: bool) returns (t: SSystem)
    requires SInv(s) && SKickInv(s)
    ensures t == SGetStep(s, es).0 && SInv(t) && SKickInv(t) && Stays(s, t)
  {
    t := SGetStep(s, es).0;
    SGetKeeps(s, es);
    GetKeepsKick(s, es);
    SGetResult(s, es);
  }

  lemma {:induction false} CompleteStays(s: SSystem, i: nat, len: nat)
    requires SInv(s)
    ensures Stays(s, SCompleteStep(s, i, len).0)
  {
  }

  lemma {:induction false} UsesTo(s: SSystem, i: nat, len: nat) returns (t: SSystem)
    requires SInv(s) && SKickInv(s)
    ensures t == SCompleteStep(s, i, len).0 && SInv(t) && SKickInv(t) && Stays(s, t)
  {
    t := SCompleteStep(s, i, len).0;
    SCompleteStepKeeps(s, i, len);
    CompleteKeepsKick(s, i, len);
    CompleteStays(s, i, len);
  }

  lemma {:induction false} ReadsTo(s: SSystem) returns (t: SSystem)
    requires SInv(s) && SKickInv(s)
    ensures t == SFetchStep(s).0 && SInv(t) && SKickInv(t)
  {
    t := SFetchStep(s).0;
    SFetchStepKeeps(s);
    FetchKeepsKick(s);
  }

  lemma {:induction false} KickLaw(x: SNotice)
    requires NoticeInv(x) && KicksWell(x, Kicks)
    ensures NoticeLaw(KickNow(x))
  {
    KickKeepsKick(x.q, x.es, x.noNotify, x.event);
    if x.asleep && !x.told && x.q.g.pending != [] {
      KickReaches(x.q, x.es, x.noNotify, x.event);
    }
  }

  lemma {:induction false} LocalLaw(x: SNotice, a: SAct)
    requires NoticeInv(x) && IsLocal(a)
    ensures LocalStep(x, a).q == x.q && NoticeLaw(LocalStep(x, a))
  {
    DeviceHasExactly(x.q);
  }

  lemma {:induction false} OtherLaw(x: SNotice, y: SNotice)
    requires NoticeInv(x) && y.q == x.q && NoticeLaw(y)
    ensures NoticeInv(y)
  {
  }

  lemma {:induction false} LocalKeeps(x: SNotice, a: SAct)
    requires NoticeInv(x) && IsLocal(a)
    ensures NoticeInv(LocalStep(x, a))
  {
    LocalLaw(x, a);
    OtherLaw(x, LocalStep(x, a));
  }

  lemma {:induction false} KickKeeps(x: SNotice)
    requires NoticeInv(x) && KicksWell(x, Kicks)
    ensures NoticeInv(KickNow(x))
  {
    SKickKeeps(x.q, x.es, x.noNotify, x.event);
    KickLaw(x);
  }

  /** A step of the queue leaves the device where it was, or the device is awake. */
  lemma {:induction false} QueueTo(x: SNotice, a: SAct) returns (q': SSystem)
    requires NoticeInv(x) && SActAllowed(a)
    ensures q' == QueueStep(x, a) && SInv(q') && SKickInv(q') && (x.asleep ==> Stays(x.q, q'))
  {
    match a
    case AddBuf(sg, out, token, table) => q' := AddsTo(x.q, sg, out, token, table);
    case GetBuf => q' := GetsTo(x.q, x.es);
    case Uses(i, len) => q' := UsesTo(x.q, i, len);
    case Reads => q' := ReadsWhileAwake(x);
    case _ => q' := x.q;
  }

  lemma {:induction false} ReadsWhileAwake(x: SNotice) returns (q': SSystem)
    requires NoticeInv(x)
    ensures q' == (if x.asleep then x.q else SFetchStep(x.q).0) && SInv(q') && SKickInv(q')
    ensures x.asleep ==> Stays(x.q, q')
  {
    if x.asleep {
      q' := x.q;
    } else {
      q' := ReadsTo(x.q);
    }
  }

  lemma {:induction false} NoticeFollows(x: SNotice, q': SSystem) returns (y: SNotice)
    requires NoticeInv(x) && SInv(q') && SKickInv(q') && (x.asleep ==> Stays(x.q, q'))
    ensures y == x.(q := q') && NoticeInv(y)
  {
    y := x.(q := q');
  }

  lemma {:induction false} StepKeepsNotice(x: SNotice, a: SAct) returns (y: SNotice)
    requires NoticeInv(x) && SActAllowed(a) && KicksWell(x, a)
    ensures y == SNoticeStep(x, a) && NoticeInv(y)
  {
    if IsLocal(a) {
      LocalKeeps(x, a);
      y := LocalStep(x, a);
    } else if a.Kicks? {
      KickKeeps(x);
      y := KickNow(x);
    } else {
      var q' := QueueTo(x, a);
      y := NoticeFollows(x, q');
    }
  }

  // ---------------------------------------------------------------- runs

  ghost predicate AllActsAllowed(acts: seq<SAct>) {
    forall i :: 0 <= i < |acts| ==> SActAllowed(acts[i])
  }

  lemma {:induction false} QueueStepKeeps(x: SNotice, a: SAct)
    requires SInv(x.q) && SActAllowed(a)
    ensures SInv(QueueStep(x, a))
  {
    match a
    case AddBuf(sg, out, token, table) => SAddStepKeeps(x.q, sg, out, token, table);
    case GetBuf => SGetKeeps(x.q, x.es);
    case Reads => SFetchStepKeeps(x.q);
    case Uses(i, len) => SCompleteStepKeeps(x.q, i, len);
    case _ =>
  }

  lemma {:induction false} LocalStaysPut(x: SNotice, a: SAct)
    ensures LocalStep(x, a).q == x.q && LocalStep(x, a).es == x.es
  {
  }

  lemma {:induction false} StepKeepsQueue(x: SNotice, a: SAct)
    requires SInv(x.q) && SActAllowed(a)
    ensures SInv(SNoticeStep(x, a).q) && SNoticeStep(x, a).es == x.es
  {
    if IsLocal(a) {
      LocalStaysPut(x, a);
    } else if a.Kicks? {
      SKickKeeps(x.q, x.es, x.noNotify, x.event);
    } else {
      QueueStepKeeps(x, a);
    }
  }

  ghost function SNoticeRun(x: SNotice, acts: seq<SAct>): (y: SNotice)
    requires SInv(x.q) && AllActsAllowed(acts)
    ensures SInv(y.q)
    decreases |acts|
  {
    if acts == [] then x
    else
      StepKeepsQueue(x, acts[0]);
      SNoticeRun(SNoticeStep(x, acts[0]), acts[1..])
  }

  /** Every kick of the run that relies on the event index can tell what was passed. */
  ghost predicate AllKicksTell(x: SNotice, acts: seq<SAct>)
    requires SInv(x.q) && AllActsAllowed(acts)
    decreases |acts|
  {
    acts == [] ||
    (KicksWell(x, acts[0]) && (StepKeepsQueue(x, acts[0]); AllKicksTell(SNoticeStep(x, acts[0]), acts[1..])))
  }

  lemma {:induction false} RunKeepsNotice(x: SNotice, acts: seq<SAct>)
    requires NoticeInv(x) && AllActsAllowed(acts) && AllKicksTell(x, acts)
    ensures NoticeInv(SNoticeRun(x, acts))
    decreases |acts|
  {
    if acts != [] {
      var y := StepKeepsNotice(x, acts[0]);
      RunKeepsNotice(y, acts[1..]);
    }
  }

  lemma {:induction false} FlagTells(x: SNotice, acts: seq<SAct>)
    requires SInv(x.q) && AllActsAllowed(acts) && !x.es
    ensures AllKicksTell(x, acts)
    decreases |acts|
  {
    if acts != [] {
      StepKeepsQueue(x, acts[0]);
      FlagTells(SNoticeStep(x, acts[0]), acts[1..]);
    }
  }

  /** A new queue whose device is awake. */
  ghost function NewSNotice(num: nat, es: bool): SNotice
    requires num > 0
  {
    SNotice(FreshSSystem(num), es, false, 0, false, false)
  }

  /** When the driver has kicked after its last add, a device that sleeps while a buffer is unread has been
      notified since it fell asleep. */
  ghost predicate NotLost(x: SNotice) {
    x.asleep && x.q.g.pending != [] && x.q.g.lastKick == Now(x.q.g) ==> x.told
  }

  /** From a new queue, in any interleaving, no notification is lost: without event suppression in any case, and
      with it as long as each kick meets a count below 2^32, or one of which at least 2^16 is left. */
  lemma {:induction false} NoLostNotificationSplit(num: nat, es: bool, acts: seq<SAct>)
    requires RingSize(num) && AllActsAllowed(acts)
    ensures SInv(NewSNotice(num, es).q)
    ensures !es || AllKicksTell(NewSNotice(num, es), acts) ==> NotLost(SNoticeRun(NewSNotice(num, es), acts))
  {
    FreshSKeeps(num);
    var x := NewSNotice(num, es);
    if !es {
      FlagTells(x, acts);
    }
    if AllKicksTell(x, acts) {
      RunKeepsNotice(x, acts);
      ToldAtLast(SNoticeRun(x, acts));
    }
  }

  lemma {:induction false} ToldAtLast(x: SNotice)
    requires NoticeInv(x)
    ensures NotLost(x)
  {
  }
}
