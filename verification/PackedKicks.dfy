/** The kick decision of a packed queue over whole runs. */
module PackedKicks {
  import opened Integers
  import opened Ledger
  import opened EventIndex
  import opened PackedRing
  import opened PackedInvariant
  import opened PackedSteps
  import opened PackedRuns
  import opened PackedTheorems
  import opened PackedEvents

  // ---------------------------------------------------------------- the test on positions

  /** The driver's test for an event at position `e`, counted from the start of the driver's lap. */
  predicate Test(next: nat, added: nat, e: int) {
    NeedEvent(e % U16, next, (next as int - added as int) % U16)
  }

  /** Whether position `e` is among the last `added` before `next`. */
  predicate InLast(next: nat, added: nat, e: int) {
    next as int - added as int <= e < next as int
  }

  lemma {:induction false} TestIs(next: nat, added: nat, e: int)
    ensures Test(next, added, e) <==> (next as int - e - 1) % U16 < added % U16
  {
    var from := (next as int - added as int) % U16;
    assert (next as int - from as int) % U16 == added % U16;
    assert (next as int - e % U16 - 1) % U16 == (next as int - e - 1) % U16;
  }

  lemma {:induction false} TestWraps(next: nat, added: nat, e: int)
    ensures Test(next, added % U32, e) <==> Test(next, added, e)
  {
    TestIs(next, added, e);
    TestIs(next, added % U32, e);
    LowOfLow(added);
  }

  lemma {:induction false} LowOfLow(added: nat)
    ensures (added % U32) % U16 == added % U16
  {
  }

  /** No event of this lap or the one before was passed and is missed. */
  predicate MissesNone(n: nat, next: nat, added: nat) {
    forall e: int :: -(n as int) <= e < n as int && InLast(next, added, e) ==> Test(next, added, e)
  }

  /** A 16-bit test misses none exactly when the count fits in 16 bits or what is left of it covers both
      laps. */
  lemma {:induction false} MissesNoneIff(n: nat, next: nat, added: nat)
    requires 0 < n <= MAX_RING && next < n
    ensures MissesNone(n, next, added) <==> added < U16 || added % U16 >= next + n
  {
    if added < U16 || added % U16 >= next + n {
      forall e: int | -(n as int) <= e < n as int && InLast(next, added, e)
        ensures Test(next, added, e)
      {
        TestIs(next, added, e);
        SmallRemainder(next as int - e - 1, next as int - e - 1);
      }
    } else {
      TestIs(next, added, -(n as int));
      SmallRemainder(next as int + n as int - 1, next + n - 1);
      assert InLast(next, added, -(n as int));
    }
  }

  /** No other event of this lap or the one before makes the test true. */
  predicate NoneExtra(n: nat, next: nat, added: nat) {
    forall e: int :: -(n as int) <= e < n as int && Test(next, added, e) ==> InLast(next, added, e)
  }

  /** Exactly when the 16-bit count leaves room for the rest of the lap. */
  lemma {:induction false} NoneExtraIff(n: nat, next: nat, added: nat)
    requires 0 < n <= MAX_RING && next < n
    ensures NoneExtra(n, next, added) <==> added % U16 + n - next <= U16
  {
    if added % U16 + n - next <= U16 {
      forall e: int | -(n as int) <= e < n as int && Test(next, added, e)
        ensures InLast(next, added, e)
      {
        ExtraIsLast(n, next, added, e);
      }
    } else {
      var e: int := n - 1;
      TestIs(next, added, e);
      SmallRemainder(next as int - e - 1, next + U16 - n);
      assert !InLast(next, added, e);
    }
  }

  lemma {:induction false} ExtraIsLast(n: nat, next: nat, added: nat, e: int)
    requires 0 < n <= MAX_RING && next < n && -(n as int) <= e < n as int && Test(next, added, e)
    requires added % U16 + n - next <= U16
    ensures InLast(next, added, e)
  {
    TestIs(next, added, e);
    if e >= next {
      SmallRemainder(next as int - e - 1, next as int - e - 1 + U16);
    } else {
      SmallRemainder(next as int - e - 1, next as int - e - 1);
    }
  }

  /** The position at which a driver whose lap bit is wrong looks instead. */
  function OtherLap(n: nat, e: int): int { if e >= 0 then e - n as int else e + n as int }

  /** A lap off, some event is missed as soon as something was added. */
  lemma {:induction false} WrongLapMisses(n: nat, next: nat, added: nat) returns (e: int)
    requires 0 < n <= MAX_RING && next < n && 0 < added
    ensures -(n as int) <= e < n as int && InLast(next, added, e) && !Test(next, added, OtherLap(n, e))
  {
    if added >= n {
      e := next as int - n as int;
      TestIs(next, added, next);
      SmallRemainder(-1, U16 - 1);
    } else {
      e := next as int - 1;
      TestIs(next, added, OtherLap(n, e));
      SmallRemainder(next as int - OtherLap(n, e) - 1, if next > 0 then n else U16 - n);
    }
  }

  // ---------------------------------------------------------------- the driver's decision

  /** The decision for the device's event position. */
  predicate Kicks(r: Packed, devOff: nat) {
    KickPrepare(r, FLAG_DESC, devOff).1
  }

  /** The position of an event in the lap named by its wrap bit, if `wrap` is the bit of the driver's lap. */
  function Relative(n: nat, devOff: nat, wrap: bool): int {
    if WrapOf(devOff) == wrap then OffOf(devOff) as int else OffOf(devOff) as int - n as int
  }

  /** What a device may write as its event position. */
  predicate IsEvent(n: nat, devOff: nat) {
    devOff < 2 * MAX_RING && OffOf(devOff) < n
  }

  /** An `off_wrap` for a position. */
  function EventAt(n: nat, e: int, wrap: bool): (devOff: nat)
    requires 0 < n <= MAX_RING && -(n as int) <= e < n as int
    ensures IsEvent(n, devOff) && Relative(n, devOff, wrap) == e
  {
    var off: nat, w := if e >= 0 then e else e + n as int, wrap == (e >= 0);
    OffWrapRoundTrip(off, w);
    OffWrap(off, w)
  }

  lemma {:induction false} KicksIsTest(r: Packed, devOff: nat)
    ensures Kicks(r, devOff) <==> Test(r.nextIdx, r.numAdded, Relative(r.num, devOff, r.availWrap))
  {
  }

  // ---------------------------------------------------------------- runs

  /** The driver's 32-bit count is the number of descriptors added since the last kick, wrapped. */
  ghost predicate KickInv(s: System) {
    s.g.lastKick <= NextAvailAbs(s) && s.r.numAdded == (NextAvailAbs(s) - s.g.lastKick) % U32
  }

  /** `k` descriptors were added, and no kick. */
  ghost predicate Adds(s: System, t: System, k: nat) {
    && t.g.lastKick == s.g.lastKick && NextAvailAbs(t) == NextAvailAbs(s) + k
    && t.r.numAdded == if k == 0 then s.r.numAdded else (s.r.numAdded + k) % U32
  }

  lemma {:induction false} CountsOn(a: nat, k: nat)
    ensures (a % U32 + k) % U32 == (a + k) % U32
  {
  }

  lemma {:induction false} AddsKeepKick(s: System, t: System, k: nat)
    requires KickInv(s) && Adds(s, t, k)
    ensures KickInv(t)
  {
    CountsOn(NextAvailAbs(s) - s.g.lastKick, k);
  }

  /** An add moves the next available position by the descriptors it takes. */
  lemma {:induction false} AcceptAdds(s: System, b: Buf)
    requires WellFormed(s.r) && Shaped(b) && |b.ids| <= s.r.numFree == |s.g.free|
    requires forall i :: 0 <= i < |b.ids| ==> b.ids[i] < s.r.num
    ensures Adds(s, System(Accept(s.r, b), s.dev, AcceptGhost(s, b)), |b.ids|)
  {
    var g' := AcceptGhost(s, b);
    LapDistance(s.r.num, s.g.availLap, s.r.nextIdx, g'.availLap, |b.ids|);
  }

  lemma {:induction false} FreeIsCounted(s: System)
    requires Inv(s)
    ensures WellFormed(s.r) && s.r.numFree == |s.g.free|
  {
  }

  lemma {:induction false} AddKeepsKick(s: System, sg: seq<Sg>, out: nat, token: nat, table: Option<nat>)
    requires Inv(s) && KickInv(s) && |sg| >= 1 && out <= |sg|
    ensures KickInv(AddStep(s, sg, out, token, table).0)
  {
    if HasRoom(s.r, sg, table) {
      NewBufTakesPrefix(s, sg, out, token, table);
      FreeIsCounted(s);
      var b := NewBuf(s.r, sg, out, token, table);
      AcceptAdds(s, b);
      AddsKeepKick(s, System(Accept(s.r, b), s.dev, AcceptGhost(s, b)), |b.ids|);
    }
  }

  lemma {:induction false} StillCounts(s: System, t: System)
    requires KickInv(s) && t.r.num == s.r.num && t.r.numAdded == s.r.numAdded && t.r.nextIdx == s.r.nextIdx
    requires t.g.availLap == s.g.availLap && t.g.lastKick == s.g.lastKick
    ensures KickInv(t)
  {
  }

  lemma {:induction false} FetchKeepsKick(s: System)
    requires Inv(s) && KickInv(s)
    ensures KickInv(FetchStep(s).0)
  {
    StillCounts(s, FetchStep(s).0);
  }

  lemma {:induction false} CompleteKeepsKick(s: System, i: nat, len: nat, extra: Flags)
    requires Inv(s) && KickInv(s)
    ensures KickInv(CompleteStep(s, i, len, extra).0)
  {
    StillCounts(s, CompleteStep(s, i, len, extra).0);
  }

  lemma {:induction false} GetKeepsKick(s: System)
    requires Inv(s) && KickInv(s)
    ensures KickInv(GetStep(s).0)
  {
    StillCounts(s, GetStep(s).0);
  }

  lemma {:induction false} KickKeepsKick(s: System, devFlags: nat, devOff: nat)
    ensures KickInv(KickStep(s, devFlags, devOff).0)
  {
    var t := KickStep(s, devFlags, devOff).0;
    assert NextAvailAbs(t) == NextAvailAbs(s) == t.g.lastKick;
  }

  lemma {:induction false} StepKeepsKick(s: System, op: Op)
    requires Inv(s) && Allowed(op) && KickInv(s)
    ensures KickInv(Step(s, op).0)
  {
    match op
    case Add(sg, out, token, table) => AddKeepsKick(s, sg, out, token, table);
    case Fetch => FetchKeepsKick(s);
    case Complete(i, len, extra) => CompleteKeepsKick(s, i, len, extra);
    case Get => GetKeepsKick(s);
    case Kick(devFlags, devOff) => KickKeepsKick(s, devFlags, devOff);
  }

  lemma {:induction false} RunKeepsKick(s: System, ops: seq<Op>)
    requires Inv(s) && AllAllowed(ops) && KickInv(s)
    ensures Inv(Run(s, ops).0) && KickInv(Run(s, ops).0)
    decreases |ops|
  {
    if ops != [] {
      StepKeeps(s, ops[0]);
      StepKeepsKick(s, ops[0]);
      RunKeepsKick(Step(s, ops[0]).0, ops[1..]);
    }
  }

  // ---------------------------------------------------------------- exactly when the kick is right

  /** Whether the device's event position was passed by the descriptors added since the last kick. */
  ghost predicate PassedSince(s: System, devOff: nat) {
    s.g.lastKick <= EventAbs(s, devOff) < NextAvailAbs(s)
  }

  /** Every event that was passed makes the driver notify. */
  ghost predicate NoneMissed(s: System) {
    forall devOff: nat :: IsEvent(s.r.num, devOff) && PassedSince(s, devOff) ==> Kicks(s.r, devOff)
  }

  /** Exactly the events that were passed make the driver notify. */
  ghost predicate Exact(s: System) {
    forall devOff: nat :: IsEvent(s.r.num, devOff) ==> (Kicks(s.r, devOff) <==> PassedSince(s, devOff))
  }

  /** What the two notions say of one event, `added` descriptors after the last kick. */
  lemma {:induction false} OneEvent(s: System, devOff: nat, added: nat)
    requires KickInv(s) && added == NextAvailAbs(s) - s.g.lastKick
    ensures Kicks(s.r, devOff) <==> Test(s.r.nextIdx, added, Relative(s.r.num, devOff, s.r.availWrap))
    ensures PassedSince(s, devOff) <==> InLast(s.r.nextIdx, added, Relative(s.r.num, devOff, s.r.auAvail))
  {
    KicksIsTest(s.r, devOff);
    TestWraps(s.r.nextIdx, added, Relative(s.r.num, devOff, s.r.availWrap));
    EventBehind(s, devOff);
  }

  /** With the right lap bit, the two notions are those on positions. */
  lemma {:induction false} RightLap(s: System, added: nat)
    requires WellFormed(s.r) && KickInv(s) && s.r.availWrap == s.r.auAvail && added == NextAvailAbs(s) - s.g.lastKick
    ensures NoneMissed(s) <==> MissesNone(s.r.num, s.r.nextIdx, added)
    ensures Exact(s) <==> MissesNone(s.r.num, s.r.nextIdx, added) && NoneExtra(s.r.num, s.r.nextIdx, added)
  {
    var n, next, w := s.r.num, s.r.nextIdx, s.r.auAvail;
    forall devOff: nat | IsEvent(n, devOff)
      ensures Kicks(s.r, devOff) <==> Test(next, added, Relative(n, devOff, w))
      ensures PassedSince(s, devOff) <==> InLast(next, added, Relative(n, devOff, w))
    {
      OneEvent(s, devOff, added);
    }
    forall e: int | -(n as int) <= e < n as int
      ensures Kicks(s.r, EventAt(n, e, w)) <==> Test(next, added, e)
      ensures PassedSince(s, EventAt(n, e, w)) <==> InLast(next, added, e)
    {
      OneEvent(s, EventAt(n, e, w), added);
    }
  }

  lemma {:induction false} WrongLap(s: System, added: nat)
    requires WellFormed(s.r) && KickInv(s) && s.r.availWrap != s.r.auAvail && added == NextAvailAbs(s) - s.g.lastKick
    requires added > 0
    ensures !NoneMissed(s) && !Exact(s)
  {
    var e := WrongLapMisses(s.r.num, s.r.nextIdx, added);
    var devOff := EventAt(s.r.num, e, s.r.auAvail);
    OneEvent(s, devOff, added);
    assert Relative(s.r.num, devOff, s.r.availWrap) == OtherLap(s.r.num, e);
    assert PassedSince(s, devOff) && !Kicks(s.r, devOff);
  }

  lemma {:induction false} NothingAdded(s: System)
    requires WellFormed(s.r) && KickInv(s) && NextAvailAbs(s) == s.g.lastKick
    ensures NoneMissed(s) && Exact(s)
  {
    forall devOff: nat
      ensures !Kicks(s.r, devOff) && !PassedSince(s, devOff)
    {
      OneEvent(s, devOff, 0);
      TestIs(s.r.nextIdx, 0, Relative(s.r.num, devOff, s.r.availWrap));
    }
  }

  /** What one kick is worth, `added` descriptors after the last one. No event that was passed is missed if
      and only if nothing was added, or an even number of direct adds has filled the whole ring and the count
      fits in 16 bits or what is left of it covers this lap and the one before. The decision is right for
      every event if and only if, besides, what is left of the count leaves room for the rest of the lap. */
  ghost predicate KickIsRight(s: System, added: nat) {
    var c := added % U16;
    && (NoneMissed(s) <==>
          added == 0
          || (s.g.fullAdds % 2 == 0 && (added < U16 || c >= s.r.nextIdx + s.r.num)))
    && (Exact(s) <==> NoneMissed(s) && c + s.r.num - s.r.nextIdx <= U16)
  }

  lemma {:induction false} KickAt(s: System, added: nat)
    requires WellFormed(s.r) && KickInv(s) && added == NextAvailAbs(s) - s.g.lastKick
    requires s.r.availWrap == s.r.auAvail <==> s.g.fullAdds % 2 == 0
    ensures KickIsRight(s, added)
  {
    if added == 0 {
      NothingAdded(s);
    } else if s.g.fullAdds % 2 == 0 {
      RightLap(s, added);
      MissesNoneIff(s.r.num, s.r.nextIdx, added);
      NoneExtraIff(s.r.num, s.r.nextIdx, added);
    } else {
      WrongLap(s, added);
    }
  }

  /** A kick now is worth what the descriptors added since the last one make it. */
  ghost predicate KickIsRightNow(s: System) {
    s.g.lastKick <= NextAvailAbs(s) && KickIsRight(s, NextAvailAbs(s) - s.g.lastKick)
  }

  lemma {:induction false} KickNow(s: System)
    requires WellFormed(s.r) && KickInv(s)
    requires s.r.availWrap == s.r.auAvail <==> s.g.fullAdds % 2 == 0
    ensures KickIsRightNow(s)
  {
    KickAt(s, NextAvailAbs(s) - s.g.lastKick);
  }

  lemma {:induction false} RunsTo(c: System, ops: seq<Op>) returns (s: System)
    requires Inv(c) && AllAllowed(ops) && KickInv(c)
    ensures s == Run(c, ops).0 && Inv(s) && KickInv(s)
  {
    RunKeepsKick(c, ops);
    s := Run(c, ops).0;
  }

  /** A kick at the end of any run. */
  lemma {:induction false} KickOverRuns(num: nat, ops: seq<Op>)
    requires 0 < num <= MAX_RING && AllAllowed(ops)
    ensures Inv(FreshSystem(num)) && KickIsRightNow(Run(FreshSystem(num), ops).0)
  {
    FreshKeeps(num);
    FreshKick(num);
    var s := RunsTo(FreshSystem(num), ops);
    CounterFollows(s);
    KickNow(s);
  }

  lemma {:induction false} FreshKick(num: nat)
    requires num > 0
    ensures KickInv(FreshSystem(num))
  {
  }

  lemma {:induction false} CounterFollows(s: System)
    requires Inv(s)
    ensures WellFormed(s.r) && (s.r.availWrap == s.r.auAvail <==> s.g.fullAdds % 2 == 0)
  {
  }

  /** A run at whose end a kick misses an event that was passed: one direct add that fills a new queue. */
  lemma {:induction false} FullAddMisses(num: nat, sg: seq<Sg>, out: nat, token: nat)
    requires 0 < num <= MAX_RING && |sg| == num && out <= num
    ensures Inv(FreshSystem(num)) && !NoneMissed(Run(FreshSystem(num), [Add(sg, out, token, None)]).0)
  {
    var ops := [Add(sg, out, token, None)];
    KickOverRuns(num, ops);
    FirstAddFills(num, sg, out, token);
    RunOne(FreshSystem(num), ops[0]);
  }

  lemma {:induction false} RunOne(s: System, op: Op)
    requires Inv(s) && Allowed(op)
    ensures Run(s, [op]).0 == Step(s, op).0
  {
    StepKeeps(s, op);
    assert [op][1..] == [];
  }

  lemma {:induction false} AddMoves(s: System, sg: seq<Sg>, out: nat, token: nat)
    requires Inv(s) && 1 <= |sg| <= s.r.numFree && out <= |sg|
    ensures var b := NewBuf(s.r, sg, out, token, None);
            && Shaped(b) && b.table == None && |b.ids| == |sg| <= |s.g.free|
            && (forall i :: 0 <= i < |b.ids| ==> b.ids[i] < s.r.num)
            && AddStep(s, sg, out, token, None).0 == System(Accept(s.r, b), s.dev, AcceptGhost(s, b))
  {
    NewBufTakesPrefix(s, sg, out, token, None);
  }

  /** An add that fills the ring from its first slot on. */
  lemma {:induction false} FillsFromStart(s: System, b: Buf)
    requires WellFormed(s.r) && Shaped(b) && b.table == None && |b.ids| == s.r.num == s.r.numFree <= |s.g.free|
    requires forall i :: 0 <= i < |b.ids| ==> b.ids[i] < s.r.num
    requires s.r.nextIdx == 0 && s.g.availLap == s.g.fullAdds == s.g.lastKick == 0
    ensures var t := System(Accept(s.r, b), s.dev, AcceptGhost(s, b));
            t.g.fullAdds == 1 && t.g.availLap == 1 && t.r.nextIdx == 0 && t.g.lastKick == 0 && t.r.num == s.r.num
  {
  }

  lemma {:induction false} FirstAddFills(num: nat, sg: seq<Sg>, out: nat, token: nat)
    requires 0 < num <= MAX_RING && |sg| == num && out <= num && Inv(FreshSystem(num))
    ensures var s := AddStep(FreshSystem(num), sg, out, token, None).0;
            s.g.fullAdds == 1 && NextAvailAbs(s) == num && s.g.lastKick == 0
  {
    var s := FreshSystem(num);
    AddMoves(s, sg, out, token);
    FillsFromStart(s, NewBuf(s.r, sg, out, token, None));
  }
}
