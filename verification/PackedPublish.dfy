/** An add to a packed queue while the device is at work: the writes of the add, in any order but with the
    head's flags word last, interleaved with any actions of the device on the memory it finds. */
module PackedPublish {
  import opened RingMath
  import opened Ledger
  import opened PackedRing
  import opened PackedInvariant
  import opened PackedSteps
  import opened PackedRuns
  import opened PackedTheorems
  import opened PackedQueueClass

  /** One access to ring memory: the device reads a chain, the device writes a used element, or the driver
      writes to slot number `j` of the chain it is adding. */
  datatype Access =
    | Reads
    | Uses(i: nat, len: nat, extra: Flags)
    | Writes(j: nat, d: PDesc)

  /** The queue as if the add had not begun, and the memory as it is. */
  datatype Adding = Adding(s: System, mem: seq<PDesc>)

  /** An add of `k` descriptors has begun and is not yet published. */
  ghost predicate Begun(x: Adding, k: nat) {
    Inv(x.s) && 1 <= k <= x.s.r.numFree && HalfWritten(x.s.r, x.mem, k)
  }

  /** The device reads a chain from memory. */
  ghost function ReadsOn(x: Adding): Device
    requires WellFormed(x.s.r) && |x.mem| == x.s.r.num && x.s.dev.availIdx < x.s.r.num
  {
    var n, dev := x.s.r.num, x.s.dev;
    if IsAvailable(x.mem[dev.availIdx].flags, dev.availWrap) && |Walk(x.mem, dev.availIdx, n)| <= n
    then DeviceTake(n, dev, |Walk(x.mem, dev.availIdx, n)|)
    else dev
  }

  /** The device writes a used element into memory. */
  ghost function UsesOn(mem: seq<PDesc>, dev: Device, b: Buf, len: nat, extra: Flags): seq<PDesc>
    requires dev.usedIdx < |mem| && |b.ids| >= 1
  {
    mem[dev.usedIdx := UsedDesc(mem[dev.usedIdx].addr, b, len, dev.usedWrap, extra)]
  }

  /** The driver writes to a slot of the new chain; the head keeps its flags word. */
  ghost function WritesOn(x: Adding, j: nat, d: PDesc): seq<PDesc>
    requires WellFormed(x.s.r) && |x.mem| == x.s.r.num && j < x.s.r.num
  {
    var at := Slot(x.s.r.num, x.s.r.nextIdx, j);
    x.mem[at := if j == 0 then d.(flags := x.mem[at].flags) else d]
  }

  /** What the device reads from memory moves it exactly as if the add had not begun. */
  lemma {:induction false} ReadsAreFetches(x: Adding, k: nat)
    requires Begun(x, k)
    ensures x.s.dev.availIdx < x.s.r.num && ReadsOn(x) == FetchStep(x.s).0.dev
  {
    HalfAddIsInvisible(x.s, x.mem, k);
    DeviceSeesExactly(x.s);
    if x.s.g.pending != [] {
      WalkIsRingDescs(x.s);
    }
  }

  ghost function AccessStep(x: Adding, a: Access, k: nat): Adding
    requires Begun(x, k)
  {
    match a
    case Reads =>
      ReadsAreFetches(x, k);
      Adding(FetchStep(x.s).0.(dev := ReadsOn(x)), x.mem)
    case Uses(i, len, extra) =>
      if i < |x.s.g.fetched| then
        FetchedFits(x.s, i);
        Adding(CompleteStep(x.s, i, len, extra).0, UsesOn(x.mem, x.s.dev, x.s.g.fetched[i], len, extra))
      else x
    case Writes(j, d) => if j < k then Adding(x.s, WritesOn(x, j, d)) else x
  }

  lemma {:induction false} FetchedFits(s: System, i: nat)
    requires Inv(s) && i < |s.g.fetched|
    ensures 1 <= |s.g.fetched[i].ids| <= s.r.num && s.dev.usedIdx < s.r.num
  {
    FetchedInFlight(s, i);
    CompleteGhostFacts(s.g, i, 0);
  }

  // ---------------------------------------------------------------- the device notices nothing

  /** Where the device writes its next used element is no slot of the new chain. */
  lemma {:induction false} UsedSlotIsOutside(s: System, i: nat, k: nat)
    requires Inv(s) && i < |s.g.fetched| && k <= s.r.numFree
    ensures s.dev.usedIdx < s.r.num && Offset(s.r.num, s.r.nextIdx, s.dev.usedIdx) >= k
  {
    FetchedFits(s, i);
    CompleteGhostFacts(s.g, i, 0);
    UsedBeforeNext(s.r.num, s.r.lastUsed, UsedEnd(s.g), AvailEnd(s.g), k);
  }

  lemma {:induction false} UsedBeforeNext(n: nat, u: nat, used: nat, avail: nat, k: nat)
    requires u < n && used < avail && avail + k <= n
    ensures Offset(n, Slot(n, u, avail), Slot(n, u, used)) >= k
  {
  }

  lemma {:induction false} UseIsWrite(s: System, i: nat, len: nat, extra: Flags)
    requires Inv(s) && i < |s.g.fetched|
    ensures 1 <= |s.g.fetched[i].ids| <= s.r.num && s.dev.usedIdx < s.r.num
    ensures var b := s.g.fetched[i];
            CompleteStep(s, i, len, extra).0.r == DeviceUse(s.r, s.dev, b.ids[0], |b.ids|, len, extra).0
  {
    FetchedFits(s, i);
  }

  lemma {:induction false} UsesKeepHalf(x: Adding, i: nat, len: nat, extra: Flags, k: nat)
    requires Begun(x, k) && i < |x.s.g.fetched|
    ensures Begun(AccessStep(x, Uses(i, len, extra), k), k)
  {
    UsedSlotIsOutside(x.s, i, k);
    UseIsWrite(x.s, i, len, extra);
    HalfAfterUse(x.s, x.mem, x.s.g.fetched[i], len, extra, k);
    CompleteStepKeeps(x.s, i, len, extra);
    var y := Adding(CompleteStep(x.s, i, len, extra).0, UsesOn(x.mem, x.s.dev, x.s.g.fetched[i], len, extra));
    StillBegun(y.s, y, k);
    SameAdding(y, AccessStep(x, Uses(i, len, extra), k), k);
  }

  lemma {:induction false} SameAdding(x: Adding, y: Adding, k: nat)
    requires Begun(x, k) && y == x
    ensures Begun(y, k)
  {
  }

  lemma {:induction false} StillBegun(t: System, y: Adding, k: nat)
    requires Inv(t) && y.s == t && 1 <= k <= t.r.numFree && HalfWritten(t.r, y.mem, k)
    ensures Begun(y, k)
  {
  }

  lemma {:induction false} HalfAfterUse(s: System, mem: seq<PDesc>, b: Buf, len: nat, extra: Flags, k: nat)
    requires WellFormed(s.r) && HalfWritten(s.r, mem, k) && 1 <= k && |b.ids| >= 1 && |b.ids| <= s.r.num
    requires s.dev.usedIdx < s.r.num && Offset(s.r.num, s.r.nextIdx, s.dev.usedIdx) >= k
    ensures var r' := DeviceUse(s.r, s.dev, b.ids[0], |b.ids|, len, extra).0;
            var mem' := UsesOn(mem, s.dev, b, len, extra);
            WellFormed(r') && HalfWritten(r', mem', k) && mem'[s.dev.usedIdx] == r'.desc[s.dev.usedIdx]
  {
    assert mem[s.dev.usedIdx] == s.r.desc[s.dev.usedIdx];
  }

  lemma {:induction false} WritesKeepHalf(x: Adding, j: nat, d: PDesc, k: nat)
    requires WellFormed(x.s.r) && HalfWritten(x.s.r, x.mem, k) && j < k <= x.s.r.num
    ensures HalfWritten(x.s.r, WritesOn(x, j, d), k)
  {
    SlotInjective(x.s.r.num, x.s.r.nextIdx, j, 0);
  }

  lemma {:induction false} ReadsKeep(x: Adding, k: nat)
    requires Begun(x, k)
    ensures Begun(AccessStep(x, Reads, k), k)
  {
    FetchStepKeeps(x.s);
    ReadsAreFetches(x, k);
    StillBegun(FetchStep(x.s).0, AccessStep(x, Reads, k), k);
  }

  lemma {:induction false} AccessKeeps(x: Adding, a: Access, k: nat)
    requires Begun(x, k)
    ensures Begun(AccessStep(x, a, k), k)
  {
    match a
    case Reads => ReadsKeep(x, k);
    case Uses(i, len, extra) =>
      if i < |x.s.g.fetched| {
        UsesKeepHalf(x, i, len, extra, k);
      }
    case Writes(j, d) =>
      if j < k {
        WritesKeepHalf(x, j, d, k);
      }
  }

  // ---------------------------------------------------------------- any interleaving

  ghost function AccessRun(x: Adding, acts: seq<Access>, k: nat): (y: Adding)
    requires Begun(x, k)
    ensures Begun(y, k)
    decreases |acts|
  {
    if acts == [] then x
    else
      AccessKeeps(x, acts[0], k);
      AccessRun(AccessStep(x, acts[0], k), acts[1..], k)
  }

  /** What an access is for the queue. */
  function OpsOf(a: Access): seq<Op> {
    match a
    case Reads => [Fetch]
    case Uses(i, len, extra) => [Complete(i, len, extra)]
    case Writes(_, _) => []
  }

  /** The device's part of an interleaving. */
  function DeviceOps(acts: seq<Access>): seq<Op> {
    if acts == [] then [] else OpsOf(acts[0]) + DeviceOps(acts[1..])
  }

  lemma {:induction false} DeviceOpsAllowed(acts: seq<Access>)
    ensures AllAllowed(DeviceOps(acts))
    decreases |acts|
  {
    if acts != [] {
      DeviceOpsAllowed(acts[1..]);
    }
  }

  lemma {:induction false} OneAction(s: System, op: Op, ops: seq<Op>)
    requires Inv(s) && Allowed(op) && AllAllowed(ops)
    ensures AllAllowed([op] + ops) && Inv(Step(s, op).0)
    ensures Run(s, [op] + ops).0 == Run(Step(s, op).0, ops).0
  {
    StepKeeps(s, op);
    assert ([op] + ops)[1..] == ops;
  }

  lemma {:induction false} AccessIsOp(x: Adding, a: Access, k: nat, ops: seq<Op>)
    requires Begun(x, k) && AllAllowed(ops)
    ensures AllAllowed(OpsOf(a) + ops) && Inv(AccessStep(x, a, k).s)
    ensures Run(x.s, OpsOf(a) + ops).0 == Run(AccessStep(x, a, k).s, ops).0
  {
    match a
    case Reads =>
      ReadsAreFetches(x, k);
      OneAction(x.s, Fetch, ops);
    case Uses(i, len, extra) =>
      OneAction(x.s, Complete(i, len, extra), ops);
    case Writes(_, _) =>
      assert OpsOf(a) + ops == ops;
  }

  /** The device does exactly what it would have done had the add not begun. */
  lemma {:induction false} DeviceIsUndisturbed(x: Adding, acts: seq<Access>, k: nat)
    requires Begun(x, k)
    ensures AllAllowed(DeviceOps(acts)) && AccessRun(x, acts, k).s == Run(x.s, DeviceOps(acts)).0
    decreases |acts|
  {
    DeviceOpsAllowed(acts);
    if acts != [] {
      AccessKeeps(x, acts[0], k);
      DeviceOpsAllowed(acts[1..]);
      AccessIsOp(x, acts[0], k, DeviceOps(acts[1..]));
      DeviceIsUndisturbed(AccessStep(x, acts[0], k), acts[1..], k);
    }
  }

  /** The driver's own fields, which the device does not write. */
  ghost predicate SameDriver(r: Packed, r': Packed) {
    r' == r.(desc := r'.desc)
  }

  lemma {:induction false} UseLeavesDriver(s: System, i: nat, len: nat, extra: Flags)
    requires Inv(s)
    ensures SameDriver(s.r, CompleteStep(s, i, len, extra).0.r)
  {
    if i < |s.g.fetched| {
      UseIsWrite(s, i, len, extra);
    }
  }

  lemma {:induction false} AccessLeavesDriver(x: Adding, a: Access, k: nat)
    requires Begun(x, k)
    ensures SameDriver(x.s.r, AccessStep(x, a, k).s.r)
  {
    match a
    case Reads =>
    case Uses(i, len, extra) => UseLeavesDriver(x.s, i, len, extra);
    case Writes(_, _) =>
  }

  /** The writes of the driver's own add, one after the other: at each of them the device finds the new head
      not available and every earlier chain whole. */
  lemma {:induction false} PublishedIsInvisible(s: System, trace: seq<seq<PDesc>>, k: nat, final: seq<PDesc>, i: nat)
    requires Inv(s) && 1 <= k <= s.r.numFree && Published(s.r, trace, k, final) && i < |trace|
    ensures Begun(Adding(s, trace[i]), k) && s.dev.availIdx < s.r.num
    ensures !IsAvailable(trace[i][s.r.nextIdx].flags, s.r.auAvail)
    ensures ReadsOn(Adding(s, trace[i])) == FetchStep(s).0.dev
  {
    HalfAddIsInvisible(s, trace[i], k);
    ReadsAreFetches(Adding(s, trace[i]), k);
  }
}
