/** Whole runs of a packed queue: any interleaving of driver calls and device actions. */
module PackedRuns {
  import opened Ledger
  import opened BufferQueue
  import opened FlightBag
  import opened PackedRing
  import opened PackedInvariant
  import opened PackedIds
  import opened PackedSteps
  import opened PackedTheorems
  import opened PackedEvents

  // ---------------------------------------------------------------- the initial state

  ghost function FreshGhost(num: nat): Ghost {
    Ghost(seq(num, i requires 0 <= i < num => i), seq(num, i requires 0 <= i < num => InFree(i)),
          [], [], [], [], 0, 0, 0, 0)
  }

  ghost function FreshSystem(num: nat): System
    requires num > 0
  {
    System(Fresh(num), FreshDevice, FreshGhost(num))
  }

  /** A new queue satisfies the invariant; its pages need only be zeroed. */
  lemma {:induction false} FreshKeeps(num: nat)
    requires 0 < num <= MAX_RING
    ensures Inv(FreshSystem(num))
  {
    var s := FreshSystem(num);
    assert WellFormed(s.r);
    assert InFlight(s.g) == multiset{};
    assert Partition(num, s.g.free, InFlight(s.g), s.g.home) by {
      assert forall x :: 0 <= x < num ==> s.g.home[x] == InFree(x) && s.g.free[x] == x;
    }
    assert LapBitsOk(s.r.desc, 0, true, 0, 0);
  }

  // ---------------------------------------------------------------- steps

  datatype Op =
    | Add(sg: seq<Sg>, out: nat, token: nat, table: Option<nat>)
    | Fetch
    | Complete(i: nat, len: nat, extra: Flags)
    | Get
    | Kick(devFlags: nat, devOff: nat)

  /** What a caller of add_buf owes: at least one element, and `out` of them at most. */
  predicate Allowed(op: Op) {
    op.Add? ==> |op.sg| >= 1 && op.out <= |op.sg|
  }

  lemma {:induction false} NewBufTakesPrefix(s: System, sg: seq<Sg>, out: nat, token: nat, table: Option<nat>)
    requires Inv(s) && |sg| >= 1 && out <= |sg| && HasRoom(s.r, sg, table)
    ensures var b := NewBuf(s.r, sg, out, token, table);
            && Shaped(b) && |b.ids| <= |s.g.free| && b.ids == s.g.free[..|b.ids|]
            && (forall i :: 0 <= i < |b.ids| ==> b.ids[i] < s.r.num)
  {
    ChainIsPrefix(s.r.st, s.g.free, if UsesTable(s.r, table) then 1 else |sg|);
  }

  /** One call or one action, and the event it amounts to. The ring and the device change as the
      code and the standard say; the ghost part only records which buffers moved. */
  ghost function Step(s: System, op: Op): (System, Event)
    requires Inv(s) && Allowed(op)
  {
    match op
    case Add(sg, out, token, table) => AddStep(s, sg, out, token, table)
    case Fetch => FetchStep(s)
    case Complete(i, len, extra) => CompleteStep(s, i, len, extra)
    case Get => GetStep(s)
    case Kick(devFlags, devOff) => KickStep(s, devFlags, devOff)
  }

  ghost function AddStep(s: System, sg: seq<Sg>, out: nat, token: nat, table: Option<nat>): (System, Event)
    requires Inv(s) && |sg| >= 1 && out <= |sg|
  {
    if HasRoom(s.r, sg, table) then
      NewBufTakesPrefix(s, sg, out, token, table);
      (System(AddBuf(s.r, sg, out, token, table).0, s.dev, AcceptGhost(s, NewBuf(s.r, sg, out, token, table))),
       Added(Entry(token, sg, out)))
    else (System(AddBuf(s.r, sg, out, token, table).0, s.dev, s.g), NoSpace)
  }

  /** What an add does, by what is in the queue: a table takes one descriptor if one is free, a list takes one
      for each element; it is accepted exactly if there are as many, and otherwise nothing changes. */
  lemma {:induction false} AddOutcome(s: System, sg: seq<Sg>, out: nat, token: nat, table: Option<nat>)
    requires Inv(s) && |sg| >= 1 && out <= |sg|
    ensures var free := s.r.num - (Total(s.g.done) + Total(s.g.fetched) + Total(s.g.pending));
            var (t, ev) := AddStep(s, sg, out, token, table);
            if (table.Some? && free > 0) || |sg| <= free then
              && ev == Added(Entry(token, sg, out)) && t.dev == s.dev
              && t.g.done == s.g.done && t.g.fetched == s.g.fetched && |t.g.pending| == |s.g.pending| + 1
              && t.g.pending[..|s.g.pending|] == s.g.pending
              && var b := t.g.pending[|s.g.pending|];
                 && b.token == token && b.sg == sg && b.out == out && b.table == (if free > 0 then table else None)
                 && |b.ids| == (if table.Some? then 1 else |sg|)
            else t == s && ev == NoSpace
  {
    if HasRoom(s.r, sg, table) {
      NewBufTakesPrefix(s, sg, out, token, table);
    }
  }

  ghost function FetchStep(s: System): (System, Event)
    requires Inv(s)
  {
    if DeviceSees(s.r, s.dev) then
      DeviceSeesExactly(s);
      WalkIsRingDescs(s);
      (System(s.r, DeviceTake(s.r.num, s.dev, |Walk(s.r.desc, s.dev.availIdx, s.r.num)|), FetchGhost(s.g)),
       Seen(EntryOf(s.g.pending[0])))
    else (s, Refused)
  }

  ghost function CompleteStep(s: System, i: nat, len: nat, extra: Flags): (System, Event)
    requires Inv(s)
  {
    if i < |s.g.fetched| then
      CompleteKeeps(s, i, len, extra);
      (CompleteSystem(s, i, len, extra), Completed(EntryOf(s.g.fetched[i]), len))
    else (s, Refused)
  }

  ghost function GetStep(s: System): (System, Event)
    requires Inv(s)
  {
    var (r', token, len) := GetBuf(s.r);
    if token != Null then
      UsedExactly(s.r.desc, s.r.lastUsed, s.r.usedWrap, s.g);
      (System(r', s.dev, ReapGhost(s)), Returned(EntryOf(s.g.done[0]), len))
    else (System(r', s.dev, s.g), NothingUsed)
  }

  ghost function KickStep(s: System, devFlags: nat, devOff: nat): (System, Event) {
    var (r', notify) := KickPrepare(s.r, devFlags, devOff);
    (System(r', s.dev, s.g.(lastKick := NextAvailAbs(s))), Kicked(notify))
  }

  // ---------------------------------------------------------------- refinement

  ghost function StagesOf(g: Ghost): Stages {
    Stages(g.done, g.doneLen, g.fetched, g.pending)
  }

  lemma {:induction false} GetOutcome(s: System)
    requires Inv(s)
    ensures s.g.done == [] ==> GetBuf(s.r).0 == s.r && GetBuf(s.r).1 == Null
    ensures s.g.done != [] ==> |s.g.done[0].ids| >= 1 && s.g.done[0].ids[0] < s.r.num
    ensures s.g.done != [] ==> GetBuf(s.r) == (Reap(s.r, s.g.done[0].ids[0]), Ptr(s.g.done[0].token), s.g.doneLen[0])
  {
    UsedExactly(s.r.desc, s.r.lastUsed, s.r.usedWrap, s.g);
    if s.g.done != [] {
      ReapKeeps(s);
    }
  }

  lemma {:induction false} KickKeepsRing(desc: seq<PDesc>, u: nat, w: bool, g: Ghost, lastKick: nat)
    requires u < |desc| && RingOk(desc, u, w, g)
    ensures RingOk(desc, u, w, g.(lastKick := lastKick))
  {
    var g' := g.(lastKick := lastKick);
    assert UsedEnd(g') == UsedEnd(g) && FetchEnd(g') == FetchEnd(g) && AvailEnd(g') == AvailEnd(g);
    assert LapBitsOk(desc, u, w, UsedEnd(g'), AvailEnd(g'));
    assert UsedOk(desc, u, w, g'.done, g'.doneLen);
    assert AvailOk(desc, u, w, FetchEnd(g'), g'.pending);
  }

  lemma {:induction false} KickKeepsPositions(r: Packed, dev: Device, g: Ghost, numAdded: nat, lastKick: nat)
    requires WellFormed(r) && PositionsOk(r, dev, g) && LapsOk(r, g)
    ensures WellFormed(r.(numAdded := numAdded))
    ensures PositionsOk(r.(numAdded := numAdded), dev, g.(lastKick := lastKick))
    ensures LapsOk(r.(numAdded := numAdded), g.(lastKick := lastKick))
  {
  }

  lemma {:induction false} CountersAreFree(s: System, numAdded: nat, lastKick: nat)
    requires Inv(s)
    ensures Inv(System(s.r.(numAdded := numAdded), s.dev, s.g.(lastKick := lastKick)))
  {
    KickKeepsRing(s.r.desc, s.r.lastUsed, s.r.usedWrap, s.g, lastKick);
    KickKeepsPositions(s.r, s.dev, s.g, numAdded, lastKick);
    assert InFlight(s.g.(lastKick := lastKick)) == InFlight(s.g);
  }

  lemma {:induction false} KickStepKeeps(s: System, devFlags: nat, devOff: nat)
    requires Inv(s)
    ensures Inv(KickStep(s, devFlags, devOff).0)
  {
    CountersAreFree(s, 0, NextAvailAbs(s));
  }

  lemma {:induction false} AddStepKeeps(s: System, sg: seq<Sg>, out: nat, token: nat, table: Option<nat>)
    requires Inv(s) && |sg| >= 1 && out <= |sg|
    ensures Inv(AddStep(s, sg, out, token, table).0)
  {
    if HasRoom(s.r, sg, table) {
      NewBufTakesPrefix(s, sg, out, token, table);
      AcceptKeeps(s, NewBuf(s.r, sg, out, token, table));
    }
  }

  lemma {:induction false} FetchStepKeeps(s: System)
    requires Inv(s)
    ensures Inv(FetchStep(s).0)
  {
    DeviceSeesExactly(s);
    if s.g.pending != [] {
      WalkIsRingDescs(s);
      FetchKeeps(s);
    }
  }

  lemma {:induction false} CompleteStepKeeps(s: System, i: nat, len: nat, extra: Flags)
    requires Inv(s)
    ensures Inv(CompleteStep(s, i, len, extra).0)
  {
    if i < |s.g.fetched| {
      CompleteKeeps(s, i, len, extra);
    }
  }

  lemma {:induction false} GetStepKeeps(s: System)
    requires Inv(s)
    ensures Inv(GetStep(s).0)
  {
    GetOutcome(s);
    if s.g.done != [] {
      ReapKeeps(s);
    }
  }

  /** Every call and every device action keeps the invariant. */
  lemma {:induction false} StepKeeps(s: System, op: Op)
    requires Inv(s) && Allowed(op)
    ensures Inv(Step(s, op).0)
  {
    match op
    case Add(sg, out, token, table) => AddStepKeeps(s, sg, out, token, table);
    case Fetch => FetchStepKeeps(s);
    case Complete(i, len, extra) => CompleteStepKeeps(s, i, len, extra);
    case Get => GetStepKeeps(s);
    case Kick(devFlags, devOff) => KickStepKeeps(s, devFlags, devOff);
  }

  /** A step is its event on the bag. */
  ghost predicate IsEvent(s: System, step: (System, Event)) {
    Happens(StagesOf(s.g), step.1, StagesOf(step.0.g))
  }

  lemma {:induction false} AddIsEvent(s: System, sg: seq<Sg>, out: nat, token: nat, table: Option<nat>)
    requires Inv(s) && |sg| >= 1 && out <= |sg|
    ensures IsEvent(s, AddStep(s, sg, out, token, table))
  {
    if HasRoom(s.r, sg, table) {
      NewBufTakesPrefix(s, sg, out, token, table);
      var b := NewBuf(s.r, sg, out, token, table);
      AcceptBag(StagesOf(s.g), StagesOf(AcceptGhost(s, b)), b);
    } else {
      IdleBag(StagesOf(s.g), NoSpace);
    }
  }

  lemma {:induction false} FetchIsEvent(s: System)
    requires Inv(s)
    ensures IsEvent(s, FetchStep(s))
  {
    DeviceSeesExactly(s);
    if s.g.pending != [] {
      FetchBag(StagesOf(s.g), StagesOf(FetchGhost(s.g)));
    } else {
      IdleBag(StagesOf(s.g), Refused);
    }
  }

  lemma {:induction false} CompleteIsEvent(s: System, i: nat, len: nat, extra: Flags)
    requires Inv(s)
    ensures IsEvent(s, CompleteStep(s, i, len, extra))
  {
    if i < |s.g.fetched| {
      CompleteBag(StagesOf(s.g), i, len, StagesOf(CompleteGhost(s.g, i, len)));
    } else {
      IdleBag(StagesOf(s.g), Refused);
    }
  }

  lemma {:induction false} GetIsEvent(s: System)
    requires Inv(s)
    ensures IsEvent(s, GetStep(s))
  {
    GetOutcome(s);
    if s.g.done != [] {
      ReapBag(StagesOf(s.g), StagesOf(ReapGhost(s)));
    } else {
      IdleBag(StagesOf(s.g), NothingUsed);
    }
  }

  lemma {:induction false} KickIsEvent(s: System, devFlags: nat, devOff: nat)
    requires Inv(s)
    ensures IsEvent(s, KickStep(s, devFlags, devOff))
  {
    IdleBag(StagesOf(s.g), KickStep(s, devFlags, devOff).1);
  }

  /** Every call and every device action is one event of the abstract bag. */
  lemma {:induction false} StepRefines(s: System, op: Op)
    requires Inv(s) && Allowed(op)
    ensures IsEvent(s, Step(s, op))
  {
    match op
    case Add(sg, out, token, table) => AddIsEvent(s, sg, out, token, table);
    case Fetch => FetchIsEvent(s);
    case Complete(i, len, extra) => CompleteIsEvent(s, i, len, extra);
    case Get => GetIsEvent(s);
    case Kick(devFlags, devOff) => KickIsEvent(s, devFlags, devOff);
  }

  // ---------------------------------------------------------------- runs

  ghost predicate AllAllowed(ops: seq<Op>) {
    forall i :: 0 <= i < |ops| ==> Allowed(ops[i])
  }

  ghost function Run(s: System, ops: seq<Op>): (System, seq<Event>)
    requires Inv(s) && AllAllowed(ops)
    decreases |ops|
  {
    if ops == [] then (s, [])
    else
      StepKeeps(s, ops[0]);
      var (s1, ev) := Step(s, ops[0]);
      var (s2, evs) := Run(s1, ops[1..]);
      (s2, [ev] + evs)
  }

  /** Over any run the invariant holds at the end and the events are a run of the abstract bag. */
  lemma {:induction false} RunRefines(s: System, ops: seq<Op>)
    requires Inv(s) && AllAllowed(ops)
    ensures var (s', evs) := Run(s, ops);
            Inv(s') && Leads(BagOf(StagesOf(s.g)), evs, BagOf(StagesOf(s'.g)))
    decreases |ops|
  {
    if ops != [] {
      StepKeeps(s, ops[0]);
      StepRefines(s, ops[0]);
      var (s1, ev) := Step(s, ops[0]);
      RunRefines(s1, ops[1..]);
      var (s2, evs) := Run(s1, ops[1..]);
      assert ([ev] + evs)[1..] == evs;
    }
  }

  /** From a new queue, whatever the callers and the device do: each accepted buffer is returned
      once or is still in the queue, and buffers come back in completion order with the device's
      lengths. */
  lemma {:induction false} EachBufferReturnsOnce(num: nat, ops: seq<Op>)
    requires 0 < num <= MAX_RING && AllAllowed(ops)
    ensures Inv(FreshSystem(num))
    ensures var (s', evs) := Run(FreshSystem(num), ops);
            && Inv(s')
            && Accepted(evs) == Entries(Returns(evs)) + Held(BagOf(StagesOf(s'.g)))
            && Completions(evs) == Returns(evs) + BagOf(StagesOf(s'.g)).done
  {
    FreshKeeps(num);
    RunRefines(FreshSystem(num), ops);
    var (s', evs) := Run(FreshSystem(num), ops);
    FreshBag(num);
    BagConserves(evs, BagOf(StagesOf(s'.g)));
  }

  lemma {:induction false} FreshBag(num: nat)
    requires num > 0
    ensures BagOf(StagesOf(FreshSystem(num).g)) == EmptyBag
  {
  }
}
