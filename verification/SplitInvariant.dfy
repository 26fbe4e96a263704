/** What every reachable state of a split queue and its device satisfies. */
module SplitInvariant {
  import opened RingMath
  import opened Ledger
  import opened EventIndex
  import opened PackedRing
  import opened SplitRing

  /** Which buffers the device has not read yet, has read, and has completed; which ids are free; and
      the driver's used position counted without wrapping; and the available position at the last kick. */
  datatype SGhost = SGhost(
    free: seq<nat>, home: seq<Home>,
    pending: seq<Buf>, fetched: seq<Buf>, done: seq<Buf>, doneLen: seq<nat>, lastAbs: nat,
    lastKick: nat)

  /** The device's own copy of the next available index it will read. */
  datatype SSystem = SSystem(r: Split, devAvail: nat, g: SGhost)

  ghost function SInFlight(g: SGhost): multiset<Buf> {
    multiset(g.done) + multiset(g.fetched) + multiset(g.pending)
  }

  // ---------------------------------------------------------------- ids

  /** Each id of the list points at the next one. */
  ghost predicate SLinked(desc: seq<SDesc>, ids: seq<nat>) {
    && (forall k :: 0 <= k < |ids| ==> ids[k] < |desc|)
    && (forall j, k :: 0 <= j < |ids| && k == j + 1 < |ids| ==> desc[ids[j]].next == ids[k])
  }

  /** The descriptors of `b` are in the table: the caller's list in order, each NEXT but the last one,
      WRITE exactly from element `out` on, and the whole chain is followed by `next`. */
  ghost predicate ChainOf(desc: seq<SDesc>, b: Buf)
    requires Shaped(b)
  {
    && SLinked(desc, b.ids)
    && (forall j :: 0 <= j < |b.ids| ==> desc[b.ids[j]] == SDescOf(b, j, desc[b.ids[j]].next))
  }

  ghost predicate ChainsOk(desc: seq<SDesc>, out: multiset<Buf>) {
    forall b: Buf :: b in out ==> Shaped(b) && ChainOf(desc, b)
  }

  /** Exactly the heads of chains carry a token, and it is the caller's. */
  ghost predicate STokensOk(tokens: seq<Opaque>, home: seq<Home>) {
    && |tokens| == |home|
    && (forall x :: 0 <= x < |tokens| ==>
          tokens[x] == if home[x].InBuf? && home[x].pos == 0 then Ptr(home[x].buf.token) else Null)
  }

  ghost predicate SIdsOk(n: nat, desc: seq<SDesc>, tokens: seq<Opaque>, first: nat,
                         free: seq<nat>, out: multiset<Buf>, home: seq<Home>) {
    && Partition(n, free, out, home)
    && (free != [] ==> free[0] == first)
    && SLinked(desc, free)
    && ChainsOk(desc, out)
    && STokensOk(tokens, home)
  }

  // ---------------------------------------------------------------- rings

  /** How many buffers are in the queue at all. */
  ghost function Count(g: SGhost): nat { |g.done| + |g.fetched| + |g.pending| }

  /** Four 16-bit indices are the low halves of positions `d`, `f` and `p` apart. */
  predicate IndexLaw(last: nat, used: nat, devAvail: nat, avail: nat, lastAbs: nat, d: nat, f: nat, p: nat) {
    && last == Low16(lastAbs)
    && used == Low16(lastAbs + d)
    && devAvail == Low16(lastAbs + d + f)
    && avail == Low16(lastAbs + d + f + p)
  }

  /** The 16-bit indices are the low halves of positions that never wrap, and each buffer in the queue
      holds a descriptor. */
  ghost predicate IndicesOk(r: Split, devAvail: nat, g: SGhost) {
    && IndexLaw(r.lastUsed, r.usedIdx, devAvail, r.availIdx, g.lastAbs, |g.done|, |g.fetched|, |g.pending|)
    && |g.free| == r.numUnused
    && r.numUnused + Total(g.done) + Total(g.fetched) + Total(g.pending) == r.num
    && Count(g) <= r.num - r.numUnused
  }

  /** Completed buffer `j` is in the used ring, `j` slots after slot `u`. */
  ghost predicate SUsedOk(used: seq<UsedElem>, u: nat, done: seq<Buf>, doneLen: seq<nat>)
    requires u < |used|
  {
    && |doneLen| == |done| <= |used|
    && (forall j :: 0 <= j < |done| ==> UsedEntry(used, u, j, done[j], doneLen[j]))
  }

  /** The used element of `b` is `q` slots after slot `u`. */
  ghost predicate UsedEntry(used: seq<UsedElem>, u: nat, q: nat, b: Buf, len: nat)
    requires u < |used|
  {
    q < |used| && |b.ids| >= 1 && used[Slot(|used|, u, q)] == UsedElem(b.ids[0], len)
  }

  /** The head of `b` is in the available ring, `q` slots after slot `u`. */
  ghost predicate AvailEntry(avail: seq<nat>, u: nat, q: nat, b: Buf)
    requires u < |avail|
  {
    q < |avail| && |b.ids| >= 1 && avail[Slot(|avail|, u, q)] == b.ids[0]
  }

  /** Unread buffer `j` is in the available ring, `k + j` slots after slot `u`. */
  ghost predicate SAvailOk(avail: seq<nat>, u: nat, k: nat, pending: seq<Buf>)
    requires u < |avail|
  {
    && k + |pending| <= |avail|
    && (forall j :: 0 <= j < |pending| ==> AvailEntry(avail, u, k + j, pending[j]))
  }

  ghost predicate RingsOk(r: Split, g: SGhost)
    requires r.num > 0 && |r.used| == |r.avail| == r.num
  {
    var u := RingSlot(r.num, g.lastAbs);
    && SUsedOk(r.used, u, g.done, g.doneLen)
    && SAvailOk(r.avail, u, |g.done| + |g.fetched|, g.pending)
  }

  ghost predicate SInv(s: SSystem) {
    && SplitWellFormed(s.r)
    && SIdsOk(s.r.num, s.r.desc, s.r.tokens, s.r.firstUnused, s.g.free, SInFlight(s.g), s.g.home)
    && IndicesOk(s.r, s.devAvail, s.g)
    && RingsOk(s.r, s.g)
  }
}
