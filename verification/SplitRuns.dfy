/** Whole runs of a split queue: any interleaving of driver calls and device actions. */
module SplitRuns {
  import opened Ledger
  import opened EventIndex
  import opened BufferQueue
  import opened FlightBag
  import opened PackedRing
  import opened SplitRing
  import opened SplitInvariant
  import opened SplitIds
  import opened SplitSteps

  // ---------------------------------------------------------------- the initial state

  ghost function FreshSGhost(num: nat): SGhost {
    SGhost(seq(num, i requires 0 <= i < num => i), seq(num, i requires 0 <= i < num => InFree(i)),
           [], [], [], [], 0, 0)
  }

  ghost function FreshSSystem(num: nat): SSystem
    requires num > 0
  {
    SSystem(FreshSplit(num), 0, FreshSGhost(num))
  }

  lemma {:induction false} FreshSKeeps(num: nat)
    requires RingSize(num)
    ensures SInv(FreshSSystem(num))
  {
    var s := FreshSSystem(num);
    assert SplitWellFormed(s.r);
    assert SInFlight(s.g) == multiset{};
    assert Partition(num, s.g.free, SInFlight(s.g), s.g.home) by {
      assert forall x :: 0 <= x < num ==> s.g.home[x] == InFree(x) && s.g.free[x] == x;
    }
    assert SLinked(s.r.desc, s.g.free);
  }

  /** A new queue holds nothing and has all descriptors free; the device may interrupt, and has nothing to read. */
  lemma {:induction false} NewSQueueIsEmpty(num: nat)
    requires RingSize(num)
    ensures var r := FreshSplit(num);
            && r.num == r.numUnused == num && r.lastUsed == r.usedIdx == 0 && r.availIdx == 0 && r.numAdded == 0
            && r.interruptsOn && (forall i :: 0 <= i < num ==> r.tokens[i] == Null)
  {
  }

  // ---------------------------------------------------------------- steps

  datatype SOp =
    | SAdd(sg: seq<Sg>, out: nat, token: nat, table: Option<nat>)
    | SFetch
    | SComplete(i: nat, len: nat)
    | SGet(eventSuppression: bool)
    | SKick(eventSuppression: bool, noNotify: bool, availEvent: nat)

  /** What a caller of add_buf owes: at least one element, and `out` of them at most. */
  predicate SAllowed(op: SOp) {
    op.SAdd? ==> |op.sg| >= 1 && op.out <= |op.sg|
  }

  lemma {:induction false} SNewBufTakesPrefix(s: SSystem, sg: seq<Sg>, out: nat, token: nat, table: Option<nat>)
    requires SInv(s) && |sg| >= 1 && out <= |sg| && SHasRoom(s.r, sg, table)
    ensures var b := SNewBuf(s.r, sg, out, token, table);
            && Shaped(b) && |b.ids| <= |s.g.free| && b.ids == s.g.free[..|b.ids|]
            && (forall i :: 0 <= i < |b.ids| ==> b.ids[i] < s.r.num)
  {
    SChainIsPrefix(s.r.desc, s.g.free, if SUsesTable(s.r, sg, table) then 1 else |sg|);
  }

  lemma {:induction false} SGetReady(s: SSystem)
    requires SInv(s)
    ensures ReapReady(s.r)
    ensures s.g.done == [] <==> s.r.lastUsed == s.r.usedIdx
    ensures s.g.done != [] ==>
              && |s.g.done[0].ids| >= 1
              && (forall i :: 0 <= i < |s.g.done[0].ids| ==> s.g.done[0].ids[i] < s.r.num)
              && UsedHead(s.r) == s.g.done[0].ids[0]
              && Follow(s.r.desc, UsedHead(s.r), s.r.num) == s.g.done[0].ids
              && s.r.tokens[UsedHead(s.r)] == Ptr(s.g.done[0].token)
              && s.r.used[RingSlot(s.r.num, s.r.lastUsed)].len == s.g.doneLen[0]
  {
    UsedExactlySplit(s.r, s.devAvail, s.g);
    if s.g.done != [] {
      SReapIds(s.r, s.devAvail, s.g);
    }
  }

  /** One call or one action, and the event it amounts to. */
  ghost function SStep(s: SSystem, op: SOp): (SSystem, Event)
    requires SInv(s) && SAllowed(op)
  {
    match op
    case SAdd(sg, out, token, table) => SAddStep(s, sg, out, token, table)
    case SFetch => SFetchStep(s)
    case SComplete(i, len) => SCompleteStep(s, i, len)
    case SGet(eventSuppression) => SGetStep(s, eventSuppression)
    case SKick(eventSuppression, noNotify, availEvent) => SKickStep(s, eventSuppression, noNotify, availEvent)
  }

  ghost function SAddStep(s: SSystem, sg: seq<Sg>, out: nat, token: nat, table: Option<nat>): (SSystem, Event)
    requires SInv(s) && |sg| >= 1 && out <= |sg|
  {
    if SHasRoom(s.r, sg, table) then
      SNewBufTakesPrefix(s, sg, out, token, table);
      (SSystem(SAddBuf(s.r, sg, out, token, table).0, s.devAvail, SAcceptGhost(s.g, SNewBuf(s.r, sg, out, token, table))),
       Added(Entry(token, sg, out)))
    else (SSystem(SAddBuf(s.r, sg, out, token, table).0, s.devAvail, s.g), NoSpace)
  }

  /** What an add does, by what is in the queue: a table for more than one element takes one descriptor if one
      is free, a list takes one for each element; it is accepted exactly if there are as many, and otherwise
      nothing changes. */
  lemma {:induction false} SAddOutcome(s: SSystem, sg: seq<Sg>, out: nat, token: nat, table: Option<nat>)
    requires SInv(s) && |sg| >= 1 && out <= |sg|
    ensures var free := s.r.num - (Total(s.g.done) + Total(s.g.fetched) + Total(s.g.pending));
            var (t, ev) := SAddStep(s, sg, out, token, table);
            if (table.Some? && |sg| > 1 && free > 0) || |sg| <= free then
              && ev == Added(Entry(token, sg, out)) && t.devAvail == s.devAvail
              && t.g.done == s.g.done && t.g.fetched == s.g.fetched && |t.g.pending| == |s.g.pending| + 1
              && t.g.pending[..|s.g.pending|] == s.g.pending
              && var b := t.g.pending[|s.g.pending|];
                 && b.token == token && b.sg == sg && b.out == out
                 && b.table == (if |sg| > 1 && free > 0 then table else None)
                 && |b.ids| == (if table.Some? then 1 else |sg|)
            else t == s && ev == NoSpace
  {
    if SHasRoom(s.r, sg, table) {
      SNewBufTakesPrefix(s, sg, out, token, table);
    }
  }

  ghost function SFetchStep(s: SSystem): (SSystem, Event)
    requires SInv(s)
  {
    if s.devAvail != s.r.availIdx then
      DeviceHasExactly(s);
      (SSystem(s.r, Succ16(s.devAvail), SFetchGhost(s.g)), Seen(EntryOf(s.g.pending[0])))
    else (s, Refused)
  }

  ghost function SCompleteStep(s: SSystem, i: nat, len: nat): (SSystem, Event)
    requires SInv(s)
  {
    if i < |s.g.fetched| then
      SCompleteKeeps(s, i, len);
      (SSystem(SDeviceUse(s.r, s.g.fetched[i].ids[0], len), s.devAvail, SCompleteGhost(s.g, i, len)),
       Completed(EntryOf(s.g.fetched[i]), len))
    else (s, Refused)
  }

  /** The next available position, never wrapping. */
  ghost function Now(g: SGhost): nat { g.lastAbs + Count(g) }

  ghost function SKickStep(s: SSystem, eventSuppression: bool, noNotify: bool, availEvent: nat): (SSystem, Event) {
    var (r', notify) := SKickPrepare(s.r, eventSuppression, noNotify, availEvent);
    (SSystem(r', s.devAvail, s.g.(lastKick := Now(s.g))), Kicked(notify))
  }

  ghost function SGetStep(s: SSystem, eventSuppression: bool): (SSystem, Event)
    requires SInv(s)
  {
    SGetReady(s);
    var (r', token, len) := SGetBuf(s.r, eventSuppression);
    if token != Null then (SSystem(r', s.devAvail, SReapGhost(s.g)), Returned(EntryOf(s.g.done[0]), len))
    else (SSystem(r', s.devAvail, s.g), NothingUsed)
  }

  ghost function SStagesOf(g: SGhost): Stages {
    Stages(g.done, g.doneLen, g.fetched, g.pending)
  }

  // ---------------------------------------------------------------- refinement

  lemma {:induction false} SGetOutcome(s: SSystem, eventSuppression: bool)
    requires SInv(s)
    ensures ReapReady(s.r)
    ensures s.g.done == [] ==> SGetBuf(s.r, eventSuppression) == (s.r, Null, 0)
    ensures s.g.done != [] ==>
              && |s.g.done[0].ids| >= 1
              && (forall i :: 0 <= i < |s.g.done[0].ids| ==> s.g.done[0].ids[i] < s.r.num)
              && SGetBuf(s.r, eventSuppression)
                 == (SReap(s.r, s.g.done[0].ids, eventSuppression), Ptr(s.g.done[0].token), s.g.doneLen[0])
  {
    SGetReady(s);
  }

  lemma {:induction false} SGetKeeps(s: SSystem, eventSuppression: bool)
    requires SInv(s)
    ensures SInv(SGetStep(s, eventSuppression).0)
  {
    SGetResult(s, eventSuppression);
    if s.g.done != [] {
      SReapKeeps(s, eventSuppression);
    }
  }

  lemma {:induction false} SGetResult(s: SSystem, eventSuppression: bool)
    requires SInv(s)
    ensures s.g.done == [] ==> SGetStep(s, eventSuppression).0 == s
    ensures s.g.done != [] ==>
              && |s.g.done[0].ids| >= 1
              && (forall i :: 0 <= i < |s.g.done[0].ids| ==> s.g.done[0].ids[i] < s.r.num)
              && SGetStep(s, eventSuppression).0
                 == SSystem(SReap(s.r, s.g.done[0].ids, eventSuppression), s.devAvail, SReapGhost(s.g))
  {
    SGetOutcome(s, eventSuppression);
  }

  lemma {:induction false} SCountersAreFree(s: SSystem, numAdded: nat, lastKick: nat)
    requires SInv(s)
    ensures SInv(SSystem(s.r.(numAdded := numAdded), s.devAvail, s.g.(lastKick := lastKick)))
  {
    SKickKeepsRings(s.r, s.g, numAdded, lastKick);
    assert SInFlight(s.g.(lastKick := lastKick)) == SInFlight(s.g);
  }

  lemma {:induction false} SKickKeepsRings(r: Split, g: SGhost, numAdded: nat, lastKick: nat)
    requires r.num > 0 && |r.used| == |r.avail| == r.num && RingsOk(r, g)
    ensures RingsOk(r.(numAdded := numAdded), g.(lastKick := lastKick))
  {
    var u, g' := RingSlot(r.num, g.lastAbs), g.(lastKick := lastKick);
    assert SUsedOk(r.used, u, g'.done, g'.doneLen) && SAvailOk(r.avail, u, |g'.done| + |g'.fetched|, g'.pending);
  }

  lemma {:induction false} SKickKeeps(s: SSystem, eventSuppression: bool, noNotify: bool, availEvent: nat)
    requires SInv(s)
    ensures SInv(SKickStep(s, eventSuppression, noNotify, availEvent).0)
  {
    SCountersAreFree(s, 0, Now(s.g));
  }

  lemma {:induction false} SAddStepKeeps(s: SSystem, sg: seq<Sg>, out: nat, token: nat, table: Option<nat>)
    requires SInv(s) && |sg| >= 1 && out <= |sg|
    ensures SInv(SAddStep(s, sg, out, token, table).0)
  {
    if SHasRoom(s.r, sg, table) {
      SNewBufTakesPrefix(s, sg, out, token, table);
      SAcceptKeeps(s, SNewBuf(s.r, sg, out, token, table));
    }
  }

  lemma {:induction false} SFetchStepKeeps(s: SSystem)
    requires SInv(s)
    ensures SInv(SFetchStep(s).0)
  {
    DeviceHasExactly(s);
    if s.g.pending != [] {
      SFetchKeeps(s);
    }
  }

  lemma {:induction false} SCompleteStepKeeps(s: SSystem, i: nat, len: nat)
    requires SInv(s)
    ensures SInv(SCompleteStep(s, i, len).0)
  {
    if i < |s.g.fetched| {
      SCompleteKeeps(s, i, len);
    }
  }

  /** Every call and every device action keeps the invariant. */
  lemma {:induction false} SStepKeeps(s: SSystem, op: SOp)
    requires SInv(s) && SAllowed(op)
    ensures SInv(SStep(s, op).0)
  {
    match op
    case SAdd(sg, out, token, table) => SAddStepKeeps(s, sg, out, token, table);
    case SFetch => SFetchStepKeeps(s);
    case SComplete(i, len) => SCompleteStepKeeps(s, i, len);
    case SGet(eventSuppression) => SGetKeeps(s, eventSuppression);
    case SKick(eventSuppression, noNotify, availEvent) => SKickKeeps(s, eventSuppression, noNotify, availEvent);
  }

  /** A step is its event on the bag. */
  ghost predicate SIsEvent(s: SSystem, step: (SSystem, Event)) {
    Happens(SStagesOf(s.g), step.1, SStagesOf(step.0.g))
  }

  lemma {:induction false} SAddIsEvent(s: SSystem, sg: seq<Sg>, out: nat, token: nat, table: Option<nat>)
    requires SInv(s) && |sg| >= 1 && out <= |sg|
    ensures SIsEvent(s, SAddStep(s, sg, out, token, table))
  {
    if SHasRoom(s.r, sg, table) {
      SNewBufTakesPrefix(s, sg, out, token, table);
      var b := SNewBuf(s.r, sg, out, token, table);
      AcceptBag(SStagesOf(s.g), SStagesOf(SAcceptGhost(s.g, b)), b);
    } else {
      IdleBag(SStagesOf(s.g), NoSpace);
    }
  }

  lemma {:induction false} SFetchIsEvent(s: SSystem)
    requires SInv(s)
    ensures SIsEvent(s, SFetchStep(s))
  {
    DeviceHasExactly(s);
    if s.g.pending != [] {
      FetchBag(SStagesOf(s.g), SStagesOf(SFetchGhost(s.g)));
    } else {
      IdleBag(SStagesOf(s.g), Refused);
    }
  }

  lemma {:induction false} SCompleteIsEvent(s: SSystem, i: nat, len: nat)
    requires SInv(s)
    ensures SIsEvent(s, SCompleteStep(s, i, len))
  {
    if i < |s.g.fetched| {
      CompleteBag(SStagesOf(s.g), i, len, SStagesOf(SCompleteGhost(s.g, i, len)));
    } else {
      IdleBag(SStagesOf(s.g), Refused);
    }
  }

  lemma {:induction false} SGetIsEvent(s: SSystem, eventSuppression: bool)
    requires SInv(s)
    ensures SIsEvent(s, SGetStep(s, eventSuppression))
  {
    SGetOutcome(s, eventSuppression);
    if s.g.done != [] {
      ReapBag(SStagesOf(s.g), SStagesOf(SReapGhost(s.g)));
    } else {
      IdleBag(SStagesOf(s.g), NothingUsed);
    }
  }

  lemma {:induction false} SKickIsEvent(s: SSystem, eventSuppression: bool, noNotify: bool, availEvent: nat)
    requires SInv(s)
    ensures SIsEvent(s, SKickStep(s, eventSuppression, noNotify, availEvent))
  {
    IdleBag(SStagesOf(s.g), SKickStep(s, eventSuppression, noNotify, availEvent).1);
  }

  /** Every call and every device action is one event of the abstract bag. */
  lemma {:induction false} SStepRefines(s: SSystem, op: SOp)
    requires SInv(s) && SAllowed(op)
    ensures SIsEvent(s, SStep(s, op))
  {
    match op
    case SAdd(sg, out, token, table) => SAddIsEvent(s, sg, out, token, table);
    case SFetch => SFetchIsEvent(s);
    case SComplete(i, len) => SCompleteIsEvent(s, i, len);
    case SGet(eventSuppression) => SGetIsEvent(s, eventSuppression);
    case SKick(eventSuppression, noNotify, availEvent) => SKickIsEvent(s, eventSuppression, noNotify, availEvent);
  }

  // ---------------------------------------------------------------- runs

  ghost predicate SAllAllowed(ops: seq<SOp>) {
    forall i :: 0 <= i < |ops| ==> SAllowed(ops[i])
  }

  ghost function SRun(s: SSystem, ops: seq<SOp>): (SSystem, seq<Event>)
    requires SInv(s) && SAllAllowed(ops)
    decreases |ops|
  {
    if ops == [] then (s, [])
    else
      SStepKeeps(s, ops[0]);
      var (s1, ev) := SStep(s, ops[0]);
      var (s2, evs) := SRun(s1, ops[1..]);
      (s2, [ev] + evs)
  }

  /** Over any run the invariant holds at the end and the events are a run of the abstract bag. */
  lemma {:induction false} SRunRefines(s: SSystem, ops: seq<SOp>)
    requires SInv(s) && SAllAllowed(ops)
    ensures var (s', evs) := SRun(s, ops);
            && SInv(s')
            && Leads(BagOf(SStagesOf(s.g)), evs, BagOf(SStagesOf(s'.g)))
    decreases |ops|
  {
    if ops != [] {
      SStepKeeps(s, ops[0]);
      SStepRefines(s, ops[0]);
      var (s1, ev) := SStep(s, ops[0]);
      SRunRefines(s1, ops[1..]);
      var (s2, evs) := SRun(s1, ops[1..]);
      assert ([ev] + evs)[1..] == evs;
    }
  }

  /** From a new queue, whatever the callers and the device do: each accepted buffer is returned once
      or is still in the queue, and buffers come back in completion order with the device's lengths. */
  lemma {:induction false} SEachBufferReturnsOnce(num: nat, ops: seq<SOp>)
    requires RingSize(num) && SAllAllowed(ops)
    ensures SInv(FreshSSystem(num))
    ensures var (s', evs) := SRun(FreshSSystem(num), ops);
            && SInv(s')
            && Accepted(evs) == Entries(Returns(evs)) + Held(BagOf(SStagesOf(s'.g)))
            && Completions(evs) == Returns(evs) + BagOf(SStagesOf(s'.g)).done
  {
    FreshSKeeps(num);
    SRunRefines(FreshSSystem(num), ops);
    var (s', evs) := SRun(FreshSSystem(num), ops);
    FreshSBag(num);
    BagConserves(evs, BagOf(SStagesOf(s'.g)));
  }

  lemma {:induction false} FreshSBag(num: nat)
    requires num > 0
    ensures BagOf(SStagesOf(FreshSSystem(num).g)) == EmptyBag
  {
  }
}
