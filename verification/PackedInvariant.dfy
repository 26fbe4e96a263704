/** What every reachable state of a packed queue and its device satisfies. */
module PackedInvariant {
  import opened RingMath
  import opened Ledger
  import opened PackedRing

  /** What the driver's own fields do not say: which buffers the device has not read yet, has read,
      and has completed (with the length it reported), which ids are free, and how many laps each
      side has made. `fullAdds` counts the direct adds that took the whole ring at once, and `lastKick` is
      the next available position at the last kick, never wrapping. */
  datatype Ghost = Ghost(
    free: seq<nat>, home: seq<Home>,
    pending: seq<Buf>, fetched: seq<Buf>, done: seq<Buf>, doneLen: seq<nat>,
    availLap: nat, usedLap: nat, fullAdds: nat, lastKick: nat)

  datatype System = System(r: Packed, dev: Device, g: Ghost)

  ghost function InFlight(g: Ghost): multiset<Buf> {
    multiset(g.done) + multiset(g.fetched) + multiset(g.pending)
  }

  // ---------------------------------------------------------------- ids

  /** Each id of the list points at the next one. */
  ghost predicate Linked(st: seq<DescState>, ids: seq<nat>) {
    && (forall k :: 0 <= k < |ids| ==> ids[k] < |st|)
    && (forall j, k :: 0 <= j < |ids| && k == j + 1 < |ids| ==> st[ids[j]].next == ids[k])
  }

  ghost predicate StateOf(st: seq<DescState>, b: Buf)
    requires Shaped(b)
  {
    && Linked(st, b.ids)
    && st[b.ids[0]].data == Ptr(b.token)
    && st[b.ids[0]].num == |b.ids|
    && st[b.ids[0]].last == b.ids[|b.ids| - 1]
  }

  /** Only the head of a chain holds a token. */
  ghost predicate TokensOk(st: seq<DescState>, home: seq<Home>) {
    && |st| == |home|
    && (forall x :: 0 <= x < |st| ==> (st[x].data != Null <==> home[x].InBuf? && home[x].pos == 0))
  }

  ghost predicate StatesOk(st: seq<DescState>, out: multiset<Buf>) {
    forall b: Buf :: b in out ==> Shaped(b) && StateOf(st, b)
  }

  /** The free list and the chains of `out` share out the ids, and `desc_state` records them. */
  ghost predicate IdsOk(n: nat, st: seq<DescState>, freeHead: nat, free: seq<nat>, out: multiset<Buf>, home: seq<Home>) {
    && Partition(n, free, out, home)
    && (free != [] ==> free[0] == freeHead)
    && Linked(st, free)
    && StatesOk(st, out)
    && TokensOk(st, home)
  }

  // ---------------------------------------------------------------- ring positions

  ghost function UsedEnd(g: Ghost): nat { Total(g.done) }
  ghost function FetchEnd(g: Ghost): nat { Total(g.done) + Total(g.fetched) }
  ghost function AvailEnd(g: Ghost): nat { Total(g.done) + Total(g.fetched) + Total(g.pending) }

  /** The driver's and the device's four positions, counted in slots from `last_used_idx`. */
  ghost predicate PositionsOk(r: Packed, dev: Device, g: Ghost)
    requires WellFormed(r)
  {
    && |g.free| == r.numFree
    && r.numFree + AvailEnd(g) == r.num
    && r.nextIdx == Slot(r.num, r.lastUsed, AvailEnd(g))
    && r.auAvail == ParityAt(r.num, r.lastUsed, r.usedWrap, AvailEnd(g))
    && dev.availIdx == Slot(r.num, r.lastUsed, FetchEnd(g))
    && dev.availWrap == ParityAt(r.num, r.lastUsed, r.usedWrap, FetchEnd(g))
    && dev.usedIdx == Slot(r.num, r.lastUsed, UsedEnd(g))
    && dev.usedWrap == ParityAt(r.num, r.lastUsed, r.usedWrap, UsedEnd(g))
  }

  /** The lap bits say which lap each side is on. */
  ghost predicate LapsOk(r: Packed, g: Ghost) {
    && (r.usedWrap <==> g.usedLap % 2 == 0)
    && (r.auAvail <==> g.availLap % 2 == 0)
    && g.availLap == g.usedLap + (if r.lastUsed + AvailEnd(g) >= r.num then 1 else 0)
    && ((r.availWrap == r.auAvail) <==> g.fullAdds % 2 == 0)
  }

  // ---------------------------------------------------------------- ring contents

  /** The lap bit of slot `s` for the positions of one lap that starts at slot `u` with bit `w`. */
  predicate LapBit(u: nat, w: bool, s: nat) {
    (s >= u) == w
  }

  /** A slot carries the lap bit of its position exactly when the driver has filled that position,
      and past the used elements no filled slot looks used. */
  ghost predicate LapBitsOk(desc: seq<PDesc>, u: nat, w: bool, usedEnd: nat, availEnd: nat)
    requires u < |desc|
  {
    && (forall s :: 0 <= s < |desc| ==>
          (desc[s].flags.avail == LapBit(u, w, s) <==> Offset(|desc|, u, s) < availEnd))
    && (forall s :: 0 <= s < |desc| && usedEnd <= Offset(|desc|, u, s) < availEnd ==>
          desc[s].flags.used == !LapBit(u, w, s))
  }

  /** The used element of `b` is `k` slots after `u`. */
  ghost predicate UsedAt(desc: seq<PDesc>, u: nat, w: bool, k: nat, b: Buf, len: nat)
    requires u < |desc|
  {
    && k < |desc| && |b.ids| >= 1
    && var d := desc[Slot(|desc|, u, k)];
       IsUsed(d.flags, ParityAt(|desc|, u, w, k)) && d.id == b.ids[0] && d.len == len
  }

  ghost predicate UsedOk(desc: seq<PDesc>, u: nat, w: bool, done: seq<Buf>, doneLen: seq<nat>)
    requires u < |desc|
  {
    && |doneLen| == |done|
    && (forall j :: 0 <= j < |done| ==> UsedAt(desc, u, w, Start(done, j), done[j], doneLen[j]))
  }

  /** The slot `q` places after `u` belongs to the chain of `b` that starts `k` places after `u`. */
  ghost predicate HoldsDesc(desc: seq<PDesc>, u: nat, w: bool, k: nat, b: Buf, q: nat)
    requires u < |desc| && Shaped(b) && k <= q < k + |b.ids| <= |desc|
  {
    desc[Slot(|desc|, u, q)] == DescOf(b, q - k, ParityAt(|desc|, u, w, q))
  }

  /** The whole chain of `b` lies from `k` slots after `u` on. */
  ghost predicate ChainAt(desc: seq<PDesc>, u: nat, w: bool, k: nat, b: Buf)
    requires u < |desc|
  {
    && Shaped(b) && k + |b.ids| <= |desc|
    && (forall q :: k <= q < k + |b.ids| ==> HoldsDesc(desc, u, w, k, b, q))
  }

  ghost predicate AvailOk(desc: seq<PDesc>, u: nat, w: bool, fetchEnd: nat, pending: seq<Buf>)
    requires u < |desc|
  {
    forall j :: 0 <= j < |pending| ==> ChainAt(desc, u, w, fetchEnd + Start(pending, j), pending[j])
  }

  ghost predicate RingOk(desc: seq<PDesc>, u: nat, w: bool, g: Ghost)
    requires u < |desc|
  {
    && LapBitsOk(desc, u, w, UsedEnd(g), AvailEnd(g))
    && UsedOk(desc, u, w, g.done, g.doneLen)
    && AvailOk(desc, u, w, FetchEnd(g), g.pending)
  }

  ghost predicate Inv(s: System) {
    && WellFormed(s.r)
    && IdsOk(s.r.num, s.r.st, s.r.freeHead, s.g.free, InFlight(s.g), s.g.home)
    && PositionsOk(s.r, s.dev, s.g)
    && LapsOk(s.r, s.g)
    && RingOk(s.r.desc, s.r.lastUsed, s.r.usedWrap, s.g)
  }
}
