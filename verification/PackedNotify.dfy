/** No notification of a packed queue is lost: the driver adds buffers and kicks, and a device that has found
    nothing to read sleeps until it is notified. The mirror of `PackedInterrupts`. */
module PackedNotify {
  import opened Integers
  import opened RingMath
  import opened Ledger
  import opened BufferQueue
  import opened PackedRing
  import opened PackedInvariant
  import opened PackedSteps
  import opened PackedRuns
  import opened PackedTheorems
  import opened PackedEvents
  import opened PackedKicks

  /** A queue with its device, what the device's event structure says, whether the device sleeps, and whether
      it was notified since it fell asleep. */
  datatype Notice = Notice(q: System, flags: nat, off: nat, asleep: bool, told: bool)

  /** The driver's calls; the device reads a chain, completes one, writes its event structure, sees that
      there is nothing to read and falls asleep, or wakes up because it was notified. */
  datatype Act =
    | AddBuf(sg: seq<Sg>, out: nat, token: nat, table: Option<nat>) | GetBuf | Kicks
    | Reads | Uses(i: nat, len: nat, extra: Flags)
    | SetsEvent(flags: nat, off: nat) | Sleeps | Wakes

  predicate ActAllowed(a: Act) {
    a.AddBuf? ==> |a.sg| >= 1 && a.out <= |a.sg|
  }

  /** The device has asked to be notified of the next buffer: in any case, or of its own position. */
  predicate Asks(flags: nat, off: nat, dev: Device) {
    flags == FLAG_ENABLE || (flags == FLAG_DESC && off == OffWrap(dev.availIdx, dev.availWrap))
  }

  /** The steps that only touch the device's event structure and whether it sleeps. */
  predicate IsLocal(a: Act) { a.SetsEvent? || a.Sleeps? || a.Wakes? }

  ghost function NoticeStep(x: Notice, a: Act): Notice
    requires Inv(x.q) && ActAllowed(a)
  {
    if IsLocal(a) then LocalStep(x, a) else if a.Kicks? then KickNow(x) else x.(q := QueueStep(x, a))
  }

  ghost function LocalStep(x: Notice, a: Act): Notice
    requires Inv(x.q)
  {
    match a
    case SetsEvent(flags, off) => if x.asleep then x else x.(flags := flags, off := off)
    case Sleeps => FallsAsleep(x)
    case Wakes => if x.told then x.(asleep := false) else x
    case _ => x
  }

  ghost function QueueStep(x: Notice, a: Act): System
    requires Inv(x.q) && ActAllowed(a)
  {
    match a
    case AddBuf(sg, out, token, table) => AddStep(x.q, sg, out, token, table).0
    case GetBuf => GetStep(x.q).0
    case Reads => if x.asleep then x.q else FetchStep(x.q).0
    case Uses(i, len, extra) => CompleteStep(x.q, i, len, extra).0
    case _ => x.q
  }

  ghost function KickNow(x: Notice): Notice {
    var (q', ev) := KickStep(x.q, x.flags, x.off);
    x.(q := q', told := x.told || ev == Kicked(true))
  }

  ghost function FallsAsleep(x: Notice): Notice
    requires Inv(x.q)
  {
    if !x.asleep && Asks(x.flags, x.off, x.q.dev) && !DeviceSeesNow(x.q) then x.(asleep := true, told := false) else x
  }

  ghost predicate DeviceSeesNow(q: System)
    requires Inv(q)
  {
    DeviceSees(q.r, q.dev)
  }

  // ---------------------------------------------------------------- one kick, by what the device asks for

  /** A device that asks for every notification gets one by every kick, a device that asks for none gets
      none, and one that names a position gets what the event test says. */
  lemma {:induction false} KickForFlags(s: System, devFlags: nat, devOff: nat)
    ensures devFlags == FLAG_ENABLE ==> KickStep(s, devFlags, devOff).1 == Kicked(true)
    ensures devFlags == FLAG_DISABLE ==> KickStep(s, devFlags, devOff).1 == Kicked(false)
    ensures devFlags == FLAG_DESC ==> KickStep(s, devFlags, devOff).1 == Kicked(PackedKicks.Kicks(s.r, devOff))
    ensures devFlags > FLAG_DESC ==> KickStep(s, devFlags, devOff).1 == Kicked(true)
  {
  }

  /** The device's next position, counted without wrapping. */
  ghost function DevAbs(s: System): int { NextAvailAbs(s) as int - Total(s.g.pending) as int }

  /** The event position a device at its next position names is that position. */
  lemma {:induction false} OwnPosition(s: System, off: nat)
    requires WellFormed(s.r) && PositionsOk(s.r, s.dev, s.g) && off == OffWrap(s.dev.availIdx, s.dev.availWrap)
    ensures PackedKicks.IsEvent(s.r.num, off) && EventAbs(s, off) == DevAbs(s)
  {
    OffWrapRoundTrip(s.dev.availIdx, s.dev.availWrap);
    EventBehind(s, off);
  }

  /** The kick misses no event: nothing was added, or an even number of direct adds has filled the whole ring
      and the count fits in 16 bits or what is left of it covers this lap and the one before. */
  ghost predicate KickTells(s: System) {
    s.g.lastKick <= NextAvailAbs(s) &&
    var added := NextAvailAbs(s) - s.g.lastKick;
    added == 0 || (s.g.fullAdds % 2 == 0 && (added < U16 || added % U16 >= s.r.nextIdx + s.r.num))
  }

  /** The decision for the device's own position, passed since the last kick. */
  lemma {:induction false} PositionReaches(s: System, off: nat)
    requires WellFormed(s.r) && PositionsOk(s.r, s.dev, s.g) && KickInv(s) && KickTells(s)
    requires s.r.availWrap == s.r.auAvail <==> s.g.fullAdds % 2 == 0
    requires Total(s.g.pending) > 0 && s.g.lastKick <= DevAbs(s) && off == OffWrap(s.dev.availIdx, s.dev.availWrap)
    ensures PackedKicks.Kicks(s.r, off)
  {
    OwnPosition(s, off);
    KickAt(s, NextAvailAbs(s) - s.g.lastKick);
    assert PassedSince(s, off);
  }

  /** With a buffer unread that was added since the last kick, the kick notifies a device that has asked. */
  lemma {:induction false} KickReaches(s: System, flags: nat, off: nat)
    requires Inv(s) && KickInv(s) && Asks(flags, off, s.dev) && s.g.pending != [] && s.g.lastKick <= DevAbs(s)
    requires flags == FLAG_DESC ==> KickTells(s)
    ensures KickStep(s, flags, off).1 == Kicked(true)
  {
    KickForFlags(s, flags, off);
    InvParts(s);
    if flags == FLAG_DESC {
      PositionReaches(s, off);
    }
  }

  /** What is needed of the invariant here. */
  lemma {:induction false} InvParts(s: System)
    requires Inv(s)
    ensures WellFormed(s.r) && PositionsOk(s.r, s.dev, s.g)
    ensures s.r.availWrap == s.r.auAvail <==> s.g.fullAdds % 2 == 0
    ensures s.g.pending != [] ==> Total(s.g.pending) > 0
  {
    CounterFollows(s);
    if s.g.pending != [] {
      WalkIsRingDescs(s);
    }
  }

  // ---------------------------------------------------------------- the invariant

  /** While the device sleeps it has asked; and until it is notified, all it has not read was added after the
      last kick. */
  ghost predicate NoticeLaw(x: Notice) {
    && KickInv(x.q)
    && (x.asleep ==> Asks(x.flags, x.off, x.q.dev))
    && (x.asleep && !x.told ==> x.q.g.lastKick <= DevAbs(x.q))
  }

  ghost predicate NoticeInv(x: Notice) { Inv(x.q) && NoticeLaw(x) }

  /** A device that names a position sees a kick that misses none. */
  ghost predicate KicksWell(x: Notice, a: Act) { a.Kicks? && x.flags == FLAG_DESC ==> KickTells(x.q) }

  /** The device is where it was, and so is the last kick. */
  ghost predicate Stays(s: System, t: System) {
    && t.dev.availIdx == s.dev.availIdx && t.dev.availWrap == s.dev.availWrap
    && t.g.lastKick == s.g.lastKick && DevAbs(t) == DevAbs(s)
  }

  lemma {:induction false} AcceptStays(s: System, b: Buf)
    requires WellFormed(s.r) && Shaped(b) && |b.ids| <= s.r.numFree == |s.g.free|
    requires forall i :: 0 <= i < |b.ids| ==> b.ids[i] < s.r.num
    ensures Stays(s, System(Accept(s.r, b), s.dev, AcceptGhost(s, b)))
  {
    AcceptAdds(s, b);
    TotalPush(s.g.pending, b);
  }

  lemma {:induction false} AddStays(s: System, sg: seq<Sg>, out: nat, token: nat, table: Option<nat>)
    requires Inv(s) && |sg| >= 1 && out <= |sg|
    ensures Stays(s, AddStep(s, sg, out, token, table).0)
  {
    if HasRoom(s.r, sg, table) {
      NewBufTakesPrefix(s, sg, out, token, table);
      FreeIsCounted(s);
      AcceptStays(s, NewBuf(s.r, sg, out, token, table));
    }
  }

  lemma {:induction false} GetsTo(s: System) returns (t: System)
    requires Inv(s) && KickInv(s)
    ensures t == GetStep(s).0 && Inv(t) && KickInv(t) && Stays(s, t)
  {
    t := GetStep(s).0;
    GetStepKeeps(s);
    GetKeepsKick(s);
    GetStays(s);
  }

  lemma {:induction false} GetStays(s: System)
    requires Inv(s)
    ensures Stays(s, GetStep(s).0)
  {
  }

  lemma {:induction false} SystemStays(s: System, i: nat, len: nat, extra: Flags)
    requires WellFormed(s.r) && s.dev.usedIdx < |s.r.desc| && i < |s.g.fetched| && 1 <= |s.g.fetched[i].ids| <= |s.r.desc|
    ensures Stays(s, CompleteSystem(s, i, len, extra))
  {
  }

  lemma {:induction false} CompleteIsSystem(s: System, i: nat, len: nat, extra: Flags) returns (t: System)
    requires Inv(s) && i < |s.g.fetched|
    ensures t == CompleteStep(s, i, len, extra).0 && Stays(s, t)
  {
    t := CompleteStep(s, i, len, extra).0;
    CompleteKeeps(s, i, len, extra);
    SystemStays(s, i, len, extra);
  }

  lemma {:induction false} UsesTo(s: System, i: nat, len: nat, extra: Flags) returns (t: System)
    requires Inv(s) && KickInv(s)
    ensures t == CompleteStep(s, i, len, extra).0 && Inv(t) && KickInv(t) && Stays(s, t)
  {
    t := CompleteStep(s, i, len, extra).0;
    CompleteStepKeeps(s, i, len, extra);
    CompleteKeepsKick(s, i, len, extra);
    if i < |s.g.fetched| {
      t := CompleteIsSystem(s, i, len, extra);
    }
  }

  lemma {:induction false} AddsTo(s: System, sg: seq<Sg>, out: nat, token: nat, table: Option<nat>) returns (t: System)
    requires Inv(s) && KickInv(s) && |sg| >= 1 && out <= |sg|
    ensures t == AddStep(s, sg, out, token, table).0 && Inv(t) && KickInv(t) && Stays(s, t)
  {
    t := AddStep(s, sg, out, token, table).0;
    AddStepKeeps(s, sg, out, token, table);
    AddKeepsKick(s, sg, out, token, table);
    AddStays(s, sg, out, token, table);
  }

  lemma {:induction false} ReadsTo(s: System) returns (t: System)
    requires Inv(s) && KickInv(s)
    ensures t == FetchStep(s).0 && Inv(t) && KickInv(t)
  {
    t := FetchStep(s).0;
    FetchStepKeeps(s);
    FetchKeepsKick(s);
  }

  lemma {:induction false} KickLaw(x: Notice)
    requires NoticeInv(x) && KicksWell(x, Kicks)
    ensures NoticeLaw(KickNow(x))
  {
    KickKeepsKick(x.q, x.flags, x.off);
    if x.asleep && !x.told && x.q.g.pending != [] {
      KickReaches(x.q, x.flags, x.off);
    }
  }

  lemma {:induction false} SleepsLaw(x: Notice)
    requires NoticeInv(x) && !DeviceSeesNow(x.q) && Asks(x.flags, x.off, x.q.dev)
    ensures NoticeLaw(x.(asleep := true, told := false))
  {
    DeviceSeesExactly(x.q);
  }

  lemma {:induction false} OtherLaw(x: Notice, y: Notice)
    requires NoticeInv(x) && y.q == x.q && NoticeLaw(y)
    ensures NoticeInv(y)
  {
  }

  lemma {:induction false} SleepsKeeps(x: Notice)
    requires NoticeInv(x)
    ensures NoticeInv(FallsAsleep(x))
  {
    if !x.asleep && Asks(x.flags, x.off, x.q.dev) && !DeviceSeesNow(x.q) {
      SleepsLaw(x);
      OtherLaw(x, FallsAsleep(x));
    }
  }

  lemma {:induction false} LocalKeeps(x: Notice, a: Act)
    requires NoticeInv(x) && IsLocal(a)
    ensures NoticeInv(LocalStep(x, a))
  {
    if a.Sleeps? {
      SleepsKeeps(x);
    } else {
      OtherLaw(x, LocalStep(x, a));
    }
  }

  lemma {:induction false} KickKeeps(x: Notice)
    requires NoticeInv(x) && KicksWell(x, Kicks)
    ensures NoticeInv(KickNow(x))
  {
    KickStepKeeps(x.q, x.flags, x.off);
    KickLaw(x);
  }

  /** A step of the queue leaves the device where it was, or the device is awake. */
  lemma {:induction false} QueueTo(x: Notice, a: Act) returns (q': System)
    requires NoticeInv(x) && ActAllowed(a)
    ensures q' == QueueStep(x, a) && Inv(q') && KickInv(q') && (x.asleep ==> Stays(x.q, q'))
  {
    match a
    case AddBuf(sg, out, token, table) => q' := AddsTo(x.q, sg, out, token, table);
    case GetBuf => q' := GetsTo(x.q);
    case Uses(i, len, extra) => q' := UsesTo(x.q, i, len, extra);
    case Reads => q' := ReadsWhileAwake(x);
    case _ => q' := x.q;
  }

  lemma {:induction false} ReadsWhileAwake(x: Notice) returns (q': System)
    requires NoticeInv(x)
    ensures q' == (if x.asleep then x.q else FetchStep(x.q).0) && Inv(q') && KickInv(q')
    ensures x.asleep ==> Stays(x.q, q')
  {
    if x.asleep {
      q' := x.q;
    } else {
      q' := ReadsTo(x.q);
    }
  }

  lemma {:induction false} NoticeFollows(x: Notice, q': System) returns (y: Notice)
    requires NoticeInv(x) && Inv(q') && KickInv(q') && (x.asleep ==> Stays(x.q, q'))
    ensures y == x.(q := q') && NoticeInv(y)
  {
    y := x.(q := q');
  }

  lemma {:induction false} StepKeepsNotice(x: Notice, a: Act) returns (y: Notice)
    requires NoticeInv(x) && ActAllowed(a) && KicksWell(x, a)
    ensures y == NoticeStep(x, a) && NoticeInv(y)
  {
    if IsLocal(a) {
      LocalKeeps(x, a);
      y := LocalStep(x, a);
    } else if a.Kicks? {
      KickKeeps(x);
      y := KickNow(x);
    } else {
      var q' := QueueTo(x, a);
      y := NoticeFollows(x, q');
    }
  }

  // ---------------------------------------------------------------- runs

  ghost predicate AllActsAllowed(acts: seq<Act>) {
    forall i :: 0 <= i < |acts| ==> ActAllowed(acts[i])
  }

  lemma {:induction false} QueueStepKeeps(x: Notice, a: Act)
    requires Inv(x.q) && ActAllowed(a)
    ensures Inv(QueueStep(x, a))
  {
    match a
    case AddBuf(sg, out, token, table) => AddStepKeeps(x.q, sg, out, token, table);
    case GetBuf => GetStepKeeps(x.q);
    case Reads => FetchStepKeeps(x.q);
    case Uses(i, len, extra) => CompleteStepKeeps(x.q, i, len, extra);
    case _ =>
  }

  lemma {:induction false} LocalStaysPut(x: Notice, a: Act)
    requires Inv(x.q)
    ensures LocalStep(x, a).q == x.q
  {
  }

  lemma {:induction false} StepKeepsQueue(x: Notice, a: Act)
    requires Inv(x.q) && ActAllowed(a)
    ensures Inv(NoticeStep(x, a).q)
  {
    if IsLocal(a) {
      LocalStaysPut(x, a);
    } else if a.Kicks? {
      KickStepKeeps(x.q, x.flags, x.off);
    } else {
      QueueStepKeeps(x, a);
    }
  }

  ghost function NoticeRun(x: Notice, acts: seq<Act>): (y: Notice)
    requires Inv(x.q) && AllActsAllowed(acts)
    ensures Inv(y.q)
    decreases |acts|
  {
    if acts == [] then x
    else
      StepKeepsQueue(x, acts[0]);
      NoticeRun(NoticeStep(x, acts[0]), acts[1..])
  }

  /** Every kick of the run that meets a device that names a position misses none. */
  ghost predicate AllKicksTell(x: Notice, acts: seq<Act>)
    requires Inv(x.q) && AllActsAllowed(acts)
    decreases |acts|
  {
    acts == [] ||
    (KicksWell(x, acts[0]) && (StepKeepsQueue(x, acts[0]); AllKicksTell(NoticeStep(x, acts[0]), acts[1..])))
  }

  lemma {:induction false} RunKeepsNotice(x: Notice, acts: seq<Act>)
    requires NoticeInv(x) && AllActsAllowed(acts) && AllKicksTell(x, acts)
    ensures NoticeInv(NoticeRun(x, acts))
    decreases |acts|
  {
    if acts != [] {
      var y := StepKeepsNotice(x, acts[0]);
      RunKeepsNotice(y, acts[1..]);
    }
  }

  /** The device never names a position. */
  ghost predicate NoPosition(acts: seq<Act>) {
    forall i :: 0 <= i < |acts| && acts[i].SetsEvent? ==> acts[i].flags != FLAG_DESC
  }

  lemma {:induction false} StepNamesNone(x: Notice, a: Act)
    requires Inv(x.q) && ActAllowed(a) && (a.SetsEvent? ==> a.flags != FLAG_DESC) && x.flags != FLAG_DESC
    ensures NoticeStep(x, a).flags != FLAG_DESC && KicksWell(x, a)
  {
  }

  lemma {:induction false} NoPositionTells(x: Notice, acts: seq<Act>)
    requires Inv(x.q) && AllActsAllowed(acts) && NoPosition(acts) && x.flags != FLAG_DESC
    ensures AllKicksTell(x, acts)
    decreases |acts|
  {
    if acts != [] {
      StepKeepsQueue(x, acts[0]);
      StepNamesNone(x, acts[0]);
      NoPositionTells(NoticeStep(x, acts[0]), acts[1..]);
    }
  }

  /** A new queue whose device is awake. */
  ghost function NewNotice(num: nat): Notice
    requires num > 0
  {
    Notice(FreshSystem(num), FLAG_ENABLE, 0, false, false)
  }

  /** From a new queue, in any interleaving: when the driver has kicked after its last add, a device that sleeps
      while a buffer is unread has been notified since it fell asleep. For a device that asks for every
      notification there is no condition; one that names a position relies on kicks that miss no event. */
  lemma {:induction false} NoLostNotificationPacked(num: nat, acts: seq<Act>)
    requires 0 < num <= MAX_RING && AllActsAllowed(acts)
    ensures Inv(NewNotice(num).q)
    ensures NoPosition(acts) || AllKicksTell(NewNotice(num), acts) ==> NotLost(NoticeRun(NewNotice(num), acts))
  {
    FreshKeeps(num);
    FreshKick(num);
    var x := NewNotice(num);
    if NoPosition(acts) {
      NoPositionTells(x, acts);
    }
    if AllKicksTell(x, acts) {
      RunKeepsNotice(x, acts);
      ToldAtLast(NoticeRun(x, acts));
    }
  }

  /** When the driver has kicked after its last add, a device that sleeps while a buffer is unread has been
      notified. */
  ghost predicate NotLost(x: Notice) {
    x.asleep && x.q.g.pending != [] && x.q.g.lastKick == NextAvailAbs(x.q) ==> x.told
  }

  lemma {:induction false} ToldAtLast(x: Notice)
    requires NoticeInv(x)
    ensures NotLost(x)
  {
    InvParts(x.q);
  }

  // ---------------------------------------------------------------- a run that loses one

  lemma {:induction false} RunNext(x: Notice, acts: seq<Act>) returns (y: Notice)
    requires Inv(x.q) && AllActsAllowed(acts) && acts != []
    ensures y == NoticeStep(x, acts[0]) && Inv(y.q) && NoticeRun(x, acts) == NoticeRun(y, acts[1..])
  {
    StepKeepsQueue(x, acts[0]);
    y := NoticeStep(x, acts[0]);
  }

  lemma {:induction false} LocalNext(x: Notice, a: Act, rest: seq<Act>) returns (y: Notice)
    requires Inv(x.q) && AllActsAllowed(rest) && IsLocal(a)
    ensures y == LocalStep(x, a) && y.q == x.q
    ensures AllActsAllowed([a] + rest) && NoticeRun(x, [a] + rest) == NoticeRun(y, rest)
  {
    LocalStaysPut(x, a);
    assert ([a] + rest)[1..] == rest;
    y := RunNext(x, [a] + rest);
  }

  lemma {:induction false} NamesNext(x: Notice, a: Act, rest: seq<Act>)
    requires Inv(x.q) && AllActsAllowed(rest) && a.SetsEvent? && !x.asleep
    ensures AllActsAllowed([a] + rest)
    ensures NoticeRun(x, [a] + rest) == NoticeRun(x.(flags := a.flags, off := a.off), rest)
  {
    var y := LocalNext(x, a, rest);
  }

  lemma {:induction false} SleepIs(x: Notice, a: Act)
    requires Inv(x.q) && a.Sleeps? && !x.asleep && x.q.g.pending == [] && Asks(x.flags, x.off, x.q.dev)
    ensures LocalStep(x, a) == x.(asleep := true, told := false)
  {
    DeviceSeesExactly(x.q);
  }

  lemma {:induction false} SleepsNext(x: Notice, a: Act, rest: seq<Act>)
    requires Inv(x.q) && AllActsAllowed(rest) && a.Sleeps? && !x.asleep
    requires x.q.g.pending == [] && Asks(x.flags, x.off, x.q.dev)
    ensures AllActsAllowed([a] + rest)
    ensures NoticeRun(x, [a] + rest) == NoticeRun(x.(asleep := true, told := false), rest)
  {
    SleepIs(x, a);
    var y := LocalNext(x, a, rest);
  }

  lemma {:induction false} AddIs(x: Notice, a: Act)
    requires Inv(x.q) && ActAllowed(a) && a.AddBuf?
    ensures NoticeStep(x, a) == x.(q := AddStep(x.q, a.sg, a.out, a.token, a.table).0)
  {
  }

  lemma {:induction false} Adds(x: Notice, a: Act, rest: seq<Act>, t: System)
    requires Inv(x.q) && AllActsAllowed(rest) && ActAllowed(a) && a.AddBuf?
    requires t == AddStep(x.q, a.sg, a.out, a.token, a.table).0
    ensures AllActsAllowed([a] + rest) && Inv(t) && NoticeRun(x, [a] + rest) == NoticeRun(x.(q := t), rest)
  {
    assert ([a] + rest)[1..] == rest;
    AddIs(x, a);
    var y := RunNext(x, [a] + rest);
  }

  lemma {:induction false} NotTold(x: Notice)
    requires KickStep(x.q, x.flags, x.off).1 == Kicked(false) && x.asleep && !x.told && x.q.g.pending != []
    ensures !NotLost(KickNow(x))
  {
    assert NextAvailAbs(KickNow(x).q) == NextAvailAbs(x.q);
  }

  lemma {:induction false} KicksLast(x: Notice, acts: seq<Act>)
    requires Inv(x.q) && AllActsAllowed(acts) && acts == [Kicks]
    ensures NoticeRun(x, acts) == KickNow(x)
  {
    var y := RunNext(x, acts);
  }

  /** The queue after an add that fills it from the start. */
  lemma {:induction false} FullFromStart(num: nat, sg: seq<Sg>, out: nat, token: nat) returns (t: System)
    requires 0 < num <= MAX_RING && |sg| == num && out <= num && Inv(FreshSystem(num))
    ensures t == AddStep(FreshSystem(num), sg, out, token, None).0
    ensures t.r.num == num == t.r.numAdded && t.r.nextIdx == 0 && t.r.availWrap && t.g.pending != []
  {
    var s := FreshSystem(num);
    t := AddStep(s, sg, out, token, None).0;
    PackedKicks.AddMoves(s, sg, out, token);
    Refilled(s, NewBuf(s.r, sg, out, token, None));
  }

  lemma {:induction false} Refilled(s: System, b: Buf)
    requires WellFormed(s.r) && Shaped(b) && b.table == None && |b.ids| == s.r.num == s.r.numFree <= |s.g.free|
    requires forall i :: 0 <= i < |b.ids| ==> b.ids[i] < s.r.num
    requires s.r.nextIdx == s.r.numAdded == 0 && s.r.availWrap
    ensures var t := System(Accept(s.r, b), s.dev, AcceptGhost(s, b));
            t.r.num == s.r.num && t.r.nextIdx == 0 && t.r.availWrap && t.r.numAdded == s.r.num && t.g.pending != []
  {
  }

  /** The wrap counter that a full add leaves behind makes the event test miss the first position. */
  lemma {:induction false} KickMissesFirst(s: System)
    requires 0 < s.r.num == s.r.numAdded <= MAX_RING && s.r.nextIdx == 0 && s.r.availWrap
    ensures KickStep(s, FLAG_DESC, OffWrap(0, true)).1 == Kicked(false)
  {
    OffWrapRoundTrip(0, true);
  }

  lemma {:induction false} MissedKick(x: Notice, acts: seq<Act>)
    requires Inv(x.q) && AllActsAllowed(acts) && acts == [Kicks]
    requires x.asleep && !x.told && x.flags == FLAG_DESC && x.off == OffWrap(0, true)
    requires 0 < x.q.r.num == x.q.r.numAdded <= MAX_RING && x.q.r.nextIdx == 0 && x.q.r.availWrap && x.q.g.pending != []
    ensures !NotLost(NoticeRun(x, acts))
  {
    KickMissesFirst(x.q);
    KicksLast(x, acts);
    NotTold(x);
  }

  /** An add that fills the queue, and a kick, while the device sleeps. */
  lemma {:induction false} AddAndKick(x: Notice, a: Act, t: System)
    requires Inv(x.q) && ActAllowed(a) && a.AddBuf? && t == AddStep(x.q, a.sg, a.out, a.token, a.table).0
    requires x.asleep && !x.told && x.flags == FLAG_DESC && x.off == OffWrap(0, true)
    requires 0 < t.r.num == t.r.numAdded <= MAX_RING && t.r.nextIdx == 0 && t.r.availWrap && t.g.pending != []
    ensures AllActsAllowed([a] + [Kicks]) && !NotLost(NoticeRun(x, [a] + [Kicks]))
  {
    Adds(x, a, [Kicks], t);
    MissedKick(x.(q := t), [Kicks]);
  }

  /** On a new queue of any size whose device sleeps until its first position is reached: a direct add that fills
      the queue, and the kick after it, leave the device asleep with the buffer unread. */
  lemma {:induction false} FullAddIsNotNotified(num: nat, sg: seq<Sg>, out: nat, token: nat, acts: seq<Act>)
    requires 0 < num <= MAX_RING && |sg| == num && out <= num
    requires acts == [SetsEvent(FLAG_DESC, OffWrap(0, true)), Sleeps, AddBuf(sg, out, token, None), Kicks]
    ensures Inv(NewNotice(num).q) && AllActsAllowed(acts) && !NotLost(NoticeRun(NewNotice(num), acts))
  {
    FreshKeeps(num);
    var x, rest := NewNotice(num), [AddBuf(sg, out, token, None)] + [Kicks];
    var y := x.(flags := FLAG_DESC, off := OffWrap(0, true));
    assert acts == [acts[0]] + ([Sleeps] + rest);
    var t := FullFromStart(num, sg, out, token);
    AddAndKick(y.(asleep := true, told := false), rest[0], t);
    SleepsNext(y, Sleeps, rest);
    NamesNext(x, acts[0], [Sleeps] + rest);
  }
}
