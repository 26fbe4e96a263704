/** The kick decision of a split queue over whole runs. */
module SplitKicks {
  import opened Integers
  import opened Ledger
  import opened EventIndex
  import opened SplitRing
  import opened SplitInvariant
  import opened SplitSteps
  import opened SplitRuns
  import opened SplitTheorems

  // ---------------------------------------------------------------- the decision on positions

  /** The driver's 32-bit count at position `now`. */
  function Count32(now: nat, lastKick: nat): nat
    requires lastKick <= now
  {
    (now - lastKick) % U32
  }

  /** The decision with event suppression at position `now`, for the event index the device has written. */
  predicate Kicks(now: nat, lastKick: nat, event: nat)
    requires lastKick <= now
  {
    KickSplit(event, Low16(now), Count32(now, lastKick))
  }

  /** Whether that position was passed by the buffers added since the last kick. */
  ghost predicate PassedSince(now: nat, lastKick: nat, event: nat)
    requires lastKick <= now
  {
    Passed(event, lastKick, now - lastKick)
  }

  /** Everything is passed by 2^16 buffers. */
  lemma {:induction false} ManyPassAll(event: nat, from: nat, added: nat)
    requires event < U16 && added >= U16
    ensures Passed(event, from, added)
  {
    FirstAtIsFirst(event, from, from);
  }

  /** What a kick decides is right for the last buffers, as many as the count says. */
  lemma {:induction false} KicksOnLast(now: nat, lastKick: nat, event: nat)
    requires lastKick <= now && event < U16
    ensures var n := Count32(now, lastKick);
            n <= now - lastKick && (Kicks(now, lastKick, event) <==> Passed(event, now - n, n))
  {
    var n := Count32(now, lastKick);
    KickSplitIsExact(event, now - n, n);
  }

  lemma {:induction false} NeverWithoutNeed(now: nat, lastKick: nat, event: nat)
    requires lastKick <= now && event < U16 && Kicks(now, lastKick, event)
    ensures PassedSince(now, lastKick, event)
  {
    var n := Count32(now, lastKick);
    KicksOnLast(now, lastKick, event);
    var p: nat :| now - n <= p < now - n + n && Low16(p) == event;
    assert lastKick <= p < lastKick + (now - lastKick);
  }

  /** The count is the number of buffers, or enough of it is left. */
  predicate CountTells(now: nat, lastKick: nat)
    requires lastKick <= now
  {
    now - lastKick < U32 || Count32(now, lastKick) >= U16
  }

  lemma {:induction false} KickIsRight(now: nat, lastKick: nat, event: nat)
    requires lastKick <= now && event < U16 && CountTells(now, lastKick)
    ensures Kicks(now, lastKick, event) <==> PassedSince(now, lastKick, event)
  {
    var n := Count32(now, lastKick);
    KicksOnLast(now, lastKick, event);
    if n >= U16 {
      ManyPassAll(event, now - n, n);
      NeverWithoutNeed(now, lastKick, event);
    } else {
      assert n == now - lastKick;
    }
  }

  /** The next position was passed long ago and not by the last buffers. */
  lemma {:induction false} KickMissesOne(now: nat, lastKick: nat)
    requires lastKick <= now && !CountTells(now, lastKick)
    ensures PassedSince(now, lastKick, Low16(now)) && !Kicks(now, lastKick, Low16(now))
  {
    var n := Count32(now, lastKick);
    ManyPassAll(Low16(now), lastKick, now - lastKick);
    KicksOnLast(now, lastKick, Low16(now));
    NotAmongLast(now, n);
  }

  lemma {:induction false} NotAmongLast(now: nat, n: nat)
    requires n <= now && n < U16
    ensures !Passed(Low16(now), now - n, n)
  {
    if Passed(Low16(now), now - n, n) {
      var p: nat :| now - n <= p < now - n + n && Low16(p) == Low16(now);
      Low16Differs(p, now - p);
    }
  }

  /** Exactly when the kick notifies for exactly the positions passed since the last one. */
  lemma {:induction false} KickIsRightIff(now: nat, lastKick: nat)
    requires lastKick <= now
    ensures (forall event :: 0 <= event < U16 ==>
               (Kicks(now, lastKick, event) <==> PassedSince(now, lastKick, event)))
       <==> CountTells(now, lastKick)
  {
    if CountTells(now, lastKick) {
      forall event | 0 <= event < U16
        ensures Kicks(now, lastKick, event) <==> PassedSince(now, lastKick, event)
      {
        KickIsRight(now, lastKick, event);
      }
    } else {
      KickMissesOne(now, lastKick);
    }
  }

  // ---------------------------------------------------------------- runs

  /** The driver's 32-bit count is the number of buffers added since the last kick, wrapped. */
  ghost predicate SKickInv(s: SSystem) {
    s.g.lastKick <= Now(s.g) && s.r.numAdded == Count32(Now(s.g), s.g.lastKick)
  }

  /** `k` buffers were added, and no kick. */
  ghost predicate Adds(s: SSystem, t: SSystem, k: nat) {
    && t.g.lastKick == s.g.lastKick && Now(t.g) == Now(s.g) + k
    && t.r.numAdded == if k == 0 then s.r.numAdded else (s.r.numAdded + k) % U32
  }

  lemma {:induction false} CountsOn(now: nat, lastKick: nat, k: nat)
    requires lastKick <= now
    ensures (Count32(now, lastKick) + k) % U32 == Count32(now + k, lastKick)
  {
  }

  lemma {:induction false} AddsKeepKick(s: SSystem, t: SSystem, k: nat)
    requires SKickInv(s) && Adds(s, t, k)
    ensures SKickInv(t)
  {
    CountsOn(Now(s.g), s.g.lastKick, k);
  }

  lemma {:induction false} AcceptAdds(s: SSystem, b: Buf)
    requires SplitWellFormed(s.r) && Shaped(b) && |b.ids| <= s.r.numUnused && |b.ids| <= |s.g.free|
    requires forall i :: 0 <= i < |b.ids| ==> b.ids[i] < s.r.num
    ensures Adds(s, SSystem(SAccept(s.r, b), s.devAvail, SAcceptGhost(s.g, b)), 1)
  {
  }

  lemma {:induction false} AddKeepsKick(s: SSystem, sg: seq<Sg>, out: nat, token: nat, table: Option<nat>)
    requires SInv(s) && SKickInv(s) && |sg| >= 1 && out <= |sg|
    ensures SKickInv(SAddStep(s, sg, out, token, table).0)
  {
    if SHasRoom(s.r, sg, table) {
      SNewBufTakesPrefix(s, sg, out, token, table);
      AcceptAdds(s, SNewBuf(s.r, sg, out, token, table));
      AddsKeepKick(s, SAddStep(s, sg, out, token, table).0, 1);
    }
  }

  lemma {:induction false} MovesKeepNow(g: SGhost, i: nat, len: nat)
    ensures g.pending != [] ==> Now(SFetchGhost(g)) == Now(g)
    ensures i < |g.fetched| ==> Now(SCompleteGhost(g, i, len)) == Now(g)
    ensures g.done != [] && |g.doneLen| == |g.done| ==> Now(SReapGhost(g)) == Now(g)
  {
  }

  lemma {:induction false} StillCounts(s: SSystem, r: Split, devAvail: nat, g: SGhost)
    requires SKickInv(s) && r.numAdded == s.r.numAdded && Now(g) == Now(s.g) && g.lastKick == s.g.lastKick
    ensures SKickInv(SSystem(r, devAvail, g))
  {
  }

  lemma {:induction false} FetchKeepsKick(s: SSystem)
    requires SInv(s) && SKickInv(s)
    ensures SKickInv(SFetchStep(s).0)
  {
    DeviceHasExactly(s);
    MovesKeepNow(s.g, 0, 0);
    var t := SFetchStep(s).0;
    StillCounts(s, t.r, t.devAvail, t.g);
  }

  lemma {:induction false} CompleteKeepsKick(s: SSystem, i: nat, len: nat)
    requires SInv(s) && SKickInv(s)
    ensures SKickInv(SCompleteStep(s, i, len).0)
  {
    MovesKeepNow(s.g, i, len);
    var t := SCompleteStep(s, i, len).0;
    StillCounts(s, t.r, t.devAvail, t.g);
  }

  lemma {:induction false} GetKeepsKick(s: SSystem, eventSuppression: bool)
    requires SInv(s) && SKickInv(s)
    ensures SKickInv(SGetStep(s, eventSuppression).0)
  {
    SGetResult(s, eventSuppression);
    MovesKeepNow(s.g, 0, 0);
    var t := SGetStep(s, eventSuppression).0;
    StillCounts(s, t.r, t.devAvail, t.g);
  }

  lemma {:induction false} KickKeepsKick(s: SSystem, eventSuppression: bool, noNotify: bool, availEvent: nat)
    ensures SKickInv(SKickStep(s, eventSuppression, noNotify, availEvent).0)
  {
  }

  lemma {:induction false} SStepKeepsKick(s: SSystem, op: SOp)
    requires SInv(s) && SAllowed(op) && SKickInv(s)
    ensures SKickInv(SStep(s, op).0)
  {
    match op
    case SAdd(sg, out, token, table) => AddKeepsKick(s, sg, out, token, table);
    case SFetch => FetchKeepsKick(s);
    case SComplete(i, len) => CompleteKeepsKick(s, i, len);
    case SGet(eventSuppression) => GetKeepsKick(s, eventSuppression);
    case SKick(eventSuppression, noNotify, availEvent) => KickKeepsKick(s, eventSuppression, noNotify, availEvent);
  }

  lemma {:induction false} SRunKeepsKick(s: SSystem, ops: seq<SOp>)
    requires SInv(s) && SAllAllowed(ops) && SKickInv(s)
    ensures SInv(SRun(s, ops).0) && SKickInv(SRun(s, ops).0)
    decreases |ops|
  {
    if ops != [] {
      SStepKeeps(s, ops[0]);
      SStepKeepsKick(s, ops[0]);
      SRunKeepsKick(SStep(s, ops[0]).0, ops[1..]);
    }
  }

  /** The driver's decision is the one on positions. */
  lemma {:induction false} PrepareIsKicks(s: SSystem, event: nat)
    requires RingSize(s.r.num) && IndicesOk(s.r, s.devAvail, s.g) && SKickInv(s)
    ensures SKickPrepare(s.r, true, false, event).1 <==> Kicks(Now(s.g), s.g.lastKick, event)
  {
    CountFits(s.r, s.devAvail, s.g);
  }

  /** A kick at the end of any run never notifies without need; and it notifies for exactly the event
      positions passed since the last kick if and only if fewer than 2^32 buffers were added since, or at
      least 2^16 are left of the 32-bit count. */
  lemma {:induction false} KickOverRuns(num: nat, ops: seq<SOp>)
    requires RingSize(num) && SAllAllowed(ops)
    ensures SInv(FreshSSystem(num))
    ensures var s := SRun(FreshSSystem(num), ops).0;
            var (now, lastKick) := (Now(s.g), s.g.lastKick);
            && lastKick <= now
            && (forall event :: 0 <= event < U16 && SKickPrepare(s.r, true, false, event).1 ==>
                  PassedSince(now, lastKick, event))
            && ((forall event :: 0 <= event < U16 ==>
                   (SKickPrepare(s.r, true, false, event).1 <==> PassedSince(now, lastKick, event)))
                <==> CountTells(now, lastKick))
  {
    FreshSKeeps(num);
    SRunKeepsKick(FreshSSystem(num), ops);
    var s := SRun(FreshSSystem(num), ops).0;
    forall event | 0 <= event < U16
      ensures SKickPrepare(s.r, true, false, event).1 <==> Kicks(Now(s.g), s.g.lastKick, event)
      ensures Kicks(Now(s.g), s.g.lastKick, event) ==> PassedSince(Now(s.g), s.g.lastKick, event)
    {
      PrepareIsKicks(s, event);
      if Kicks(Now(s.g), s.g.lastKick, event) {
        NeverWithoutNeed(Now(s.g), s.g.lastKick, event);
      }
    }
    KickIsRightIff(Now(s.g), s.g.lastKick);
  }

  // ---------------------------------------------------------------- a run that uses the count up

  /** One buffer goes in, is read, is completed and comes back. */
  function Cycle(): seq<SOp> { [SAdd([Sg(0, 0)], 0, 0, None), SFetch, SComplete(0, 0), SGet(false)] }

  function Cycles(k: nat): (ops: seq<SOp>)
    ensures SAllAllowed(ops)
  {
    if k == 0 then [] else Cycle() + Cycles(k - 1)
  }

  /** Where the one buffer is. */
  ghost predicate Holds(s: SSystem, pending: nat, fetched: nat, done: nat, now: nat, lastKick: nat) {
    && SInv(s) && SKickInv(s) && Now(s.g) == now && s.g.lastKick == lastKick
    && |s.g.pending| == pending && |s.g.fetched| == fetched && |s.g.done| == done
  }

  lemma {:induction false} CycleAdds(s: SSystem, now: nat, lastKick: nat) returns (t: SSystem)
    requires Holds(s, 0, 0, 0, now, lastKick)
    ensures t == SStep(s, Cycle()[0]).0 && Holds(t, 1, 0, 0, now + 1, lastKick)
  {
    var sg := [Sg(0, 0)];
    SAddStepKeeps(s, sg, 0, 0, None);
    AddKeepsKick(s, sg, 0, 0, None);
    SNewBufTakesPrefix(s, sg, 0, 0, None);
    t := SStep(s, Cycle()[0]).0;
    assert t.g == SAcceptGhost(s.g, SNewBuf(s.r, sg, 0, 0, None));
  }

  lemma {:induction false} CycleFetches(s: SSystem, now: nat, lastKick: nat) returns (t: SSystem)
    requires Holds(s, 1, 0, 0, now, lastKick)
    ensures t == SStep(s, SFetch).0 && Holds(t, 0, 1, 0, now, lastKick)
  {
    DeviceHasExactly(s);
    SFetchStepKeeps(s);
    FetchKeepsKick(s);
    t := SFetchStep(s).0;
  }

  lemma {:induction false} CompleteMoves(s: SSystem)
    requires SInv(s) && |s.g.fetched| == 1
    ensures SCompleteStep(s, 0, 0).0.g == SCompleteGhost(s.g, 0, 0)
  {
  }

  lemma {:induction false} CycleCompletes(s: SSystem, now: nat, lastKick: nat) returns (t: SSystem)
    requires Holds(s, 0, 1, 0, now, lastKick)
    ensures t == SStep(s, SComplete(0, 0)).0 && Holds(t, 0, 0, 1, now, lastKick)
  {
    SCompleteStepKeeps(s, 0, 0);
    CompleteKeepsKick(s, 0, 0);
    CompleteMoves(s);
    t := SCompleteStep(s, 0, 0).0;
  }

  lemma {:induction false} GetMoves(s: SSystem)
    requires SInv(s) && |s.g.done| == 1
    ensures |s.g.doneLen| == 1 && SGetStep(s, false).0.g == SReapGhost(s.g)
  {
    SGetResult(s, false);
  }

  lemma {:induction false} CycleGets(s: SSystem, now: nat, lastKick: nat) returns (t: SSystem)
    requires Holds(s, 0, 0, 1, now, lastKick)
    ensures t == SStep(s, SGet(false)).0 && Holds(t, 0, 0, 0, now, lastKick)
  {
    SGetKeeps(s, false);
    GetKeepsKick(s, false);
    GetMoves(s);
    t := SGetStep(s, false).0;
  }

  lemma {:induction false} RunOn(s: SSystem, ops: seq<SOp>)
    requires SInv(s) && SAllAllowed(ops) && ops != []
    ensures SInv(SStep(s, ops[0]).0) && SRun(s, ops).0 == SRun(SStep(s, ops[0]).0, ops[1..]).0
  {
    SStepKeeps(s, ops[0]);
  }

  lemma {:induction false} TwoMoves(s: SSystem, ops: seq<SOp>, now: nat, lastKick: nat) returns (t: SSystem)
    requires Holds(s, 0, 0, 0, now, lastKick) && SAllAllowed(ops) && |ops| >= 2
    requires ops[0] == Cycle()[0] && ops[1] == SFetch
    ensures Holds(t, 0, 1, 0, now + 1, lastKick) && SRun(s, ops).0 == SRun(t, ops[1..][1..]).0
  {
    RunOn(s, ops);
    t := CycleAdds(s, now, lastKick);
    RunOn(t, ops[1..]);
    t := CycleFetches(t, now + 1, lastKick);
  }

  lemma {:induction false} TwoMore(s: SSystem, ops: seq<SOp>, now: nat, lastKick: nat) returns (t: SSystem)
    requires Holds(s, 0, 1, 0, now, lastKick) && SAllAllowed(ops) && |ops| >= 2
    requires ops[0] == SComplete(0, 0) && ops[1] == SGet(false)
    ensures Holds(t, 0, 0, 0, now, lastKick) && SRun(s, ops).0 == SRun(t, ops[1..][1..]).0
  {
    RunOn(s, ops);
    t := CycleCompletes(s, now, lastKick);
    RunOn(t, ops[1..]);
    t := CycleGets(t, now, lastKick);
  }

  lemma {:induction false} OneCycle(s: SSystem, rest: seq<SOp>, now: nat, lastKick: nat) returns (t: SSystem)
    requires Holds(s, 0, 0, 0, now, lastKick) && SAllAllowed(rest)
    ensures Holds(t, 0, 0, 0, now + 1, lastKick) && SAllAllowed(Cycle() + rest)
    ensures SRun(s, Cycle() + rest).0 == SRun(t, rest).0
  {
    var ops := Cycle() + rest;
    var half := ops[1..][1..];
    assert half[1..][1..] == rest;
    t := TwoMoves(s, ops, now, lastKick);
    t := TwoMore(t, half, now + 1, lastKick);
  }

  lemma {:induction false} CyclesCount(s: SSystem, k: nat, now: nat, lastKick: nat) returns (t: SSystem)
    requires Holds(s, 0, 0, 0, now, lastKick)
    ensures t == SRun(s, Cycles(k)).0 && Holds(t, 0, 0, 0, now + k, lastKick)
    decreases k
  {
    if k == 0 {
      t := s;
    } else {
      t := OneCycle(s, Cycles(k - 1), now, lastKick);
      t := CyclesCount(t, k - 1, now + 1, lastKick);
    }
  }

  /** A run at whose end a kick misses an event that was passed: 2^32 buffers, one after the other, and no
      kick. */
  lemma {:induction false} WrappedCountMisses(num: nat)
    requires RingSize(num)
    ensures SInv(FreshSSystem(num))
    ensures var s := SRun(FreshSSystem(num), Cycles(U32)).0;
            && s.g.lastKick <= Now(s.g) && PassedSince(Now(s.g), s.g.lastKick, Low16(Now(s.g)))
            && !SKickPrepare(s.r, true, false, Low16(Now(s.g))).1
  {
    FreshSKeeps(num);
    var s := CyclesCount(FreshSSystem(num), U32, 0, 0);
    MissesAt(s);
  }

  lemma {:induction false} MissesAt(s: SSystem)
    requires Holds(s, 0, 0, 0, U32, 0)
    ensures PassedSince(Now(s.g), s.g.lastKick, Low16(Now(s.g)))
    ensures !SKickPrepare(s.r, true, false, Low16(Now(s.g))).1
  {
    KickMissesOne(Now(s.g), s.g.lastKick);
    PrepareIsKicks(s, Low16(Now(s.g)));
  }
}
