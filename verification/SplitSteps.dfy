/** Each driver call and each device action on a split queue keeps the invariant. */
module SplitSteps {
  import opened Integers
  import opened RingMath
  import opened Ledger
  import opened EventIndex
  import opened PackedRing
  import opened SplitRing
  import opened SplitInvariant
  import opened SplitIds

  // ---------------------------------------------------------------- ring slots

  lemma {:induction false} RingSlotIsRemainder(n: nat, idx: nat)
    requires n > 0
    ensures RingSlot(n, idx) == idx % n
    decreases idx
  {
    if idx >= n {
      RingSlotIsRemainder(n, idx - n);
      AddMultiple(n, idx - n, 1);
    }
  }

  /** Moving `j` positions on moves `j` slots on. */
  lemma {:induction false} RingSlotPlus(n: nat, p: nat, j: nat)
    requires n > 0 && j <= n
    ensures RingSlot(n, p + j) == Slot(n, RingSlot(n, p), j)
    decreases p
  {
    if p >= n {
      RingSlotPlus(n, p - n, j);
    } else if p + j >= n {
      assert RingSlot(n, p + j) == RingSlot(n, p + j - n) == p + j - n;
    }
  }

  /** A position and its low 16 bits share a slot, because the ring size divides 2^16. */
  lemma {:induction false} SlotOfLow16(n: nat, p: nat)
    requires RingSize(n)
    ensures RingSlot(n, Low16(p)) == RingSlot(n, p)
  {
    RingSlotIsRemainder(n, U16);
    var q, c := p / U16, U16 / n;
    assert U16 == c * n;
    Low16IsRemainder(p);
    assert p == q * U16 + Low16(p);
    Regroup(q, c, n);
    AddMultiple(n, Low16(p), q * c);
    RingSlotIsRemainder(n, p);
    RingSlotIsRemainder(n, Low16(p));
  }

  /** The slot a 16-bit index names, `j` positions after `p`. */
  lemma {:induction false} IndexSlot(n: nat, p: nat, j: nat)
    requires RingSize(n) && j <= n
    ensures RingSlot(n, Low16(p + j)) == Slot(n, RingSlot(n, p), j)
  {
    SlotOfLow16(n, p + j);
    RingSlotPlus(n, p, j);
  }

  lemma {:induction false} Regroup(q: nat, c: nat, n: nat)
    ensures q * (c * n) == (q * c) * n
  {
  }

  // ---------------------------------------------------------------- adding

  ghost function SAcceptGhost(g: SGhost, b: Buf): SGhost
    requires |b.ids| <= |g.free|
  {
    g.(free := g.free[|b.ids|..], home := TakeHome(g.home, b, |b.ids|), pending := g.pending + [b])
  }

  /** An add writes the one available slot past the last unread buffer, so none is overwritten. */
  lemma {:induction false} PublishKeepsAvail(avail: seq<nat>, u: nat, k: nat, pending: seq<Buf>, b: Buf)
    requires u < |avail| && SAvailOk(avail, u, k, pending) && k + |pending| < |avail| && |b.ids| >= 1
    ensures SAvailOk(avail[Slot(|avail|, u, k + |pending|) := b.ids[0]], u, k, pending + [b])
  {
    var avail', pending' := avail[Slot(|avail|, u, k + |pending|) := b.ids[0]], pending + [b];
    forall j | 0 <= j < |pending'|
      ensures AvailEntry(avail', u, k + j, pending'[j])
    {
      SlotInjective(|avail|, u, k + j, k + |pending|);
      if j < |pending| {
        assert AvailEntry(avail, u, k + j, pending[j]);
      }
    }
  }

  lemma {:induction false} SAcceptIndices(s: SSystem, b: Buf)
    requires SplitWellFormed(s.r) && IndicesOk(s.r, s.devAvail, s.g)
    requires Shaped(b) && |b.ids| <= |s.g.free|
    requires forall i :: 0 <= i < |b.ids| ==> b.ids[i] < s.r.num
    ensures IndicesOk(SAccept(s.r, b), s.devAvail, SAcceptGhost(s.g, b))
  {
    TotalPush(s.g.pending, b);
    NextLow16(s.g.lastAbs + Count(s.g));
  }

  /** The slot an add writes lies past every buffer in the queue. */
  lemma {:induction false} SAcceptSlot(s: SSystem, b: Buf)
    requires SplitWellFormed(s.r) && IndicesOk(s.r, s.devAvail, s.g)
    requires Shaped(b) && |b.ids| <= |s.g.free|
    requires forall i :: 0 <= i < |b.ids| ==> b.ids[i] < s.r.num
    ensures Count(s.g) < s.r.num
    ensures SAccept(s.r, b).avail
         == s.r.avail[Slot(s.r.num, RingSlot(s.r.num, s.g.lastAbs), Count(s.g)) := b.ids[0]]
  {
    assert s.r.availIdx == Low16(s.g.lastAbs + Count(s.g));
    IndexSlot(s.r.num, s.g.lastAbs, Count(s.g));
  }

  lemma {:induction false} AcceptKeepsUsed(s: SSystem, b: Buf)
    requires SplitWellFormed(s.r) && Shaped(b) && |b.ids| <= s.r.numUnused && |b.ids| <= |s.g.free|
    requires forall i :: 0 <= i < |b.ids| ==> b.ids[i] < s.r.num
    ensures var r', g' := SAccept(s.r, b), SAcceptGhost(s.g, b);
            && r'.num == s.r.num && r'.used == s.r.used && g'.lastAbs == s.g.lastAbs
            && g'.done == s.g.done && g'.doneLen == s.g.doneLen && g'.fetched == s.g.fetched
            && g'.pending == s.g.pending + [b]
  {
  }

  lemma {:induction false} SAcceptRings(s: SSystem, b: Buf)
    requires SplitWellFormed(s.r) && IndicesOk(s.r, s.devAvail, s.g) && RingsOk(s.r, s.g)
    requires Shaped(b) && |b.ids| <= |s.g.free|
    requires forall i :: 0 <= i < |b.ids| ==> b.ids[i] < s.r.num
    ensures RingsOk(SAccept(s.r, b), SAcceptGhost(s.g, b))
  {
    var u, k := RingSlot(s.r.num, s.g.lastAbs), |s.g.done| + |s.g.fetched|;
    SAcceptSlot(s, b);
    PublishKeepsAvail(s.r.avail, u, k, s.g.pending, b);
    AcceptKeepsUsed(s, b);
    RingsAre(SAccept(s.r, b), SAcceptGhost(s.g, b), u, k, s.r.used, s.g.done, s.g.doneLen,
             s.r.avail[Slot(s.r.num, u, Count(s.g)) := b.ids[0]], s.g.pending + [b]);
  }

  lemma {:induction false} RingsAre(r: Split, g: SGhost, u: nat, k: nat, used: seq<UsedElem>, done: seq<Buf>, doneLen: seq<nat>,
                                    avail: seq<nat>, pending: seq<Buf>)
    requires 0 < r.num == |used| == |avail| && u == RingSlot(r.num, g.lastAbs) && k == |g.done| + |g.fetched|
    requires r.used == used && r.avail == avail && g.done == done && g.doneLen == doneLen && g.pending == pending
    requires SUsedOk(used, u, done, doneLen) && SAvailOk(avail, u, k, pending)
    ensures RingsOk(r, g)
  {
  }

  lemma {:induction false} SAcceptFlight(s: SSystem, b: Buf)
    requires SplitWellFormed(s.r) && |s.g.free| == s.r.numUnused
    requires SIdsOk(s.r.num, s.r.desc, s.r.tokens, s.r.firstUnused, s.g.free, SInFlight(s.g), s.g.home)
    requires Shaped(b) && |b.ids| <= |s.g.free| && b.ids == s.g.free[..|b.ids|]
    ensures (forall i :: 0 <= i < |b.ids| ==> b.ids[i] < s.r.num) && SplitWellFormed(SAccept(s.r, b))
    ensures var r', g' := SAccept(s.r, b), SAcceptGhost(s.g, b);
            SIdsOk(s.r.num, r'.desc, r'.tokens, r'.firstUnused, g'.free, SInFlight(g'), g'.home)
  {
    SAcceptKeepsIds(s.r, s.g.free, SInFlight(s.g), s.g.home, b);
    assert SInFlight(SAcceptGhost(s.g, b)) == SInFlight(s.g) + multiset{b};
  }

  lemma {:induction false} SAcceptKeeps(s: SSystem, b: Buf)
    requires SInv(s)
    requires Shaped(b) && |b.ids| <= |s.g.free| && b.ids == s.g.free[..|b.ids|]
    ensures forall i :: 0 <= i < |b.ids| ==> b.ids[i] < s.r.num
    ensures SInv(SSystem(SAccept(s.r, b), s.devAvail, SAcceptGhost(s.g, b)))
  {
    SAcceptFlight(s, b);
    SAcceptIndices(s, b);
    SAcceptRings(s, b);
  }

  // ---------------------------------------------------------------- the device reads a chain

  ghost function SFetchGhost(g: SGhost): SGhost
    requires g.pending != []
  {
    g.(pending := g.pending[1..], fetched := g.fetched + [g.pending[0]])
  }

  /** The device has something to read exactly when a buffer is unread. */
  lemma {:induction false} DeviceHasExactly(s: SSystem)
    requires SplitWellFormed(s.r) && IndicesOk(s.r, s.devAvail, s.g)
    ensures s.devAvail != s.r.availIdx <==> s.g.pending != []
  {
    Low16Differs(s.g.lastAbs + |s.g.done| + |s.g.fetched|, |s.g.pending|);
  }

  /** Descriptor `d` is what the caller asked for at place `i`: element `i` of its list, with NEXT unless it is
      the last one and WRITE from element `out` on; or the table, its length in bytes, and INDIRECT. */
  predicate SSaysCallers(d: SDesc, b: Buf, i: nat) {
    match b.table
    case None =>
      && i < |b.sg| && d.addr == b.sg[i].addr && d.len == b.sg[i].len && !d.flags.indirect
      && (d.flags.next <==> i + 1 < |b.sg|) && (d.flags.write <==> i >= b.out)
    case Some(table) =>
      i == 0 && d.addr == table && d.len == 16 * |b.sg| % U32 && d.flags.indirect && !d.flags.next && !d.flags.write
  }

  /** The chain of `b` read along NEXT is the caller's list, in order, or the one descriptor of its table. */
  ghost predicate ReadsBuffer(w: seq<SDesc>, b: Buf) {
    && |w| == (if b.table == None then |b.sg| else 1)
    && (forall i :: 0 <= i < |w| ==> SSaysCallers(w[i], b, i))
  }

  lemma {:induction false} DescSays(b: Buf, i: nat, next: nat)
    requires Shaped(b) && i < |b.ids|
    ensures SSaysCallers(SDescOf(b, i, next), b, i)
  {
  }

  lemma {:induction false} WalkMeansBuffer(desc: seq<SDesc>, out: multiset<Buf>, b: Buf)
    requires NextInRange(desc) && ChainsOk(desc, out) && b in out && |b.ids| <= |desc|
    ensures Shaped(b) && b.ids[0] < |desc| && ReadsBuffer(SWalk(desc, b.ids[0], |desc|), b)
  {
    assert ChainOf(desc, b);
    WalkReadsList(desc, b, 0, |desc|);
    var w := SWalk(desc, b.ids[0], |desc|);
    forall i | 0 <= i < |b.ids|
      ensures SSaysCallers(w[i], b, i)
    {
      assert w[i - 0] == desc[b.ids[i]];
      DescSays(b, i, desc[b.ids[i]].next);
    }
  }

  lemma {:induction false} AvailNamesOldest(r: Split, devAvail: nat, g: SGhost)
    requires SplitWellFormed(r) && IndicesOk(r, devAvail, g) && RingsOk(r, g) && g.pending != []
    ensures |g.pending[0].ids| >= 1 && r.avail[RingSlot(r.num, devAvail)] == g.pending[0].ids[0]
  {
    var k := |g.done| + |g.fetched|;
    IndexSlot(r.num, g.lastAbs, k);
    assert AvailEntry(r.avail, RingSlot(r.num, g.lastAbs), k + 0, g.pending[0]);
  }

  /** What the device finds at its next available slot is the head of the oldest unread buffer, and
      walking NEXT from there it reads the caller's list. */
  lemma {:induction false} DeviceReadsOldestSplit(s: SSystem)
    requires SInv(s) && s.g.pending != []
    ensures var b := s.g.pending[0];
            && Shaped(b) && s.r.avail[RingSlot(s.r.num, s.devAvail)] == b.ids[0] < s.r.num
            && ReadsBuffer(SWalk(s.r.desc, b.ids[0], s.r.num), b)
  {
    var b := s.g.pending[0];
    AvailNamesOldest(s.r, s.devAvail, s.g);
    assert b in SInFlight(s.g);
    OneOfTotal(s.g.pending, b);
    WalkMeansBuffer(s.r.desc, SInFlight(s.g), b);
  }

  /** `w` is the one descriptor of a table, whose length is right, and so is what walking the table reads, as
      long as the list has at most 2^16 elements; for longer lists the walk does not read the list. */
  ghost predicate ReadsTable(w: seq<SDesc>, t: seq<SDesc>, b: Buf) {
    && |w| == 1 && b.table.Some? && w[0].flags == SFlags(false, false, true) && w[0].addr == b.table.value
    && (|b.sg| <= U16 ==> w[0].len == |b.sg| * DESC_SIZE)
    && (ReadsList(TableWalk(t, 0, |b.sg|), b.sg, b.out) <==> |b.sg| <= U16)
  }

  lemma {:induction false} BufferIsTable(w: seq<SDesc>, t: seq<SDesc>, b: Buf)
    requires Shaped(b) && b.table.Some? && ReadsBuffer(w, b)
    requires |t| == |b.sg| && SplitTableHolds(t, b.sg, b.out, |b.sg|)
    ensures ReadsTable(w, t, b)
  {
    TableReadsIff(t, b.sg, b.out);
  }

  /** The same for a buffer added through a table, if `t` is what the driver wrote there. */
  lemma {:induction false} DeviceReadsTable(s: SSystem, t: seq<SDesc>)
    requires SInv(s) && s.g.pending != [] && s.g.pending[0].table.Some?
    requires var b := s.g.pending[0];
             Shaped(b) && |t| == |b.sg| && SplitTableHolds(t, b.sg, b.out, |b.sg|)
    ensures s.g.pending[0].ids[0] < s.r.num
    ensures ReadsTable(SWalk(s.r.desc, s.g.pending[0].ids[0], s.r.num), t, s.g.pending[0])
  {
    DeviceReadsOldestSplit(s);
    BufferIsTable(SWalk(s.r.desc, s.g.pending[0].ids[0], s.r.num), t, s.g.pending[0]);
  }

  lemma {:induction false} OneOfTotal(q: seq<Buf>, b: Buf)
    requires b in q
    ensures |b.ids| <= Total(q)
  {
    if q[0] != b {
      OneOfTotal(q[1..], b);
    }
  }

  lemma {:induction false} SFetchFlight(g: SGhost)
    requires g.pending != []
    ensures SInFlight(SFetchGhost(g)) == SInFlight(g)
  {
    assert g.pending == [g.pending[0]] + g.pending[1..];
  }

  lemma {:induction false} SFetchIndices(r: Split, devAvail: nat, g: SGhost)
    requires IndicesOk(r, devAvail, g) && g.pending != []
    ensures IndicesOk(r, Succ16(devAvail), SFetchGhost(g))
  {
    TotalPush(g.fetched, g.pending[0]);
    NextLow16(g.lastAbs + |g.done| + |g.fetched|);
  }

  lemma {:induction false} SFetchRing(avail: seq<nat>, u: nat, k: nat, pending: seq<Buf>)
    requires u < |avail| && pending != [] && SAvailOk(avail, u, k, pending)
    ensures SAvailOk(avail, u, k + 1, pending[1..])
  {
    forall j | 0 <= j < |pending| - 1
      ensures AvailEntry(avail, u, k + 1 + j, pending[1..][j])
    {
      assert AvailEntry(avail, u, k + (j + 1), pending[j + 1]);
    }
  }

  lemma {:induction false} SFetchRings(r: Split, g: SGhost)
    requires r.num > 0 && |r.used| == |r.avail| == r.num && RingsOk(r, g) && g.pending != []
    ensures RingsOk(r, SFetchGhost(g))
  {
    var k := |g.done| + |g.fetched|;
    SFetchRing(r.avail, RingSlot(r.num, g.lastAbs), k, g.pending);
    assert |SFetchGhost(g).done| + |SFetchGhost(g).fetched| == k + 1;
  }

  lemma {:induction false} SFetchKeeps(s: SSystem)
    requires SInv(s) && s.g.pending != []
    ensures SInv(SSystem(s.r, Succ16(s.devAvail), SFetchGhost(s.g)))
  {
    SFetchFlight(s.g);
    SFetchIndices(s.r, s.devAvail, s.g);
    SFetchRings(s.r, s.g);
  }

  // ---------------------------------------------------------------- the device completes a buffer

  ghost function SCompleteGhost(g: SGhost, i: nat, len: nat): SGhost
    requires i < |g.fetched|
  {
    g.(done := g.done + [g.fetched[i]], doneLen := g.doneLen + [len],
       fetched := g.fetched[..i] + g.fetched[i + 1..])
  }

  lemma {:induction false} CompleteKeepsUsed(used: seq<UsedElem>, u: nat, done: seq<Buf>, doneLen: seq<nat>, b: Buf, len: nat)
    requires u < |used| && SUsedOk(used, u, done, doneLen) && |done| < |used| && |b.ids| >= 1
    ensures SUsedOk(used[Slot(|used|, u, |done|) := UsedElem(b.ids[0], len)], u, done + [b], doneLen + [len])
  {
    var used', done', doneLen' := used[Slot(|used|, u, |done|) := UsedElem(b.ids[0], len)], done + [b], doneLen + [len];
    forall j | 0 <= j < |done'|
      ensures UsedEntry(used', u, j, done'[j], doneLen'[j])
    {
      SlotInjective(|used|, u, j, |done|);
      if j < |done| {
        assert UsedEntry(used, u, j, done[j], doneLen[j]);
      }
    }
  }

  lemma {:induction false} SCompleteFlight(g: SGhost, i: nat, len: nat)
    requires i < |g.fetched|
    ensures SInFlight(SCompleteGhost(g, i, len)) == SInFlight(g)
  {
    assert g.fetched == g.fetched[..i] + [g.fetched[i]] + g.fetched[i + 1..];
  }

  lemma {:induction false} SCompleteIndices(r: Split, devAvail: nat, g: SGhost, i: nat, len: nat)
    requires SplitWellFormed(r) && IndicesOk(r, devAvail, g) && i < |g.fetched| && |g.fetched[i].ids| >= 1
    ensures IndicesOk(SDeviceUse(r, g.fetched[i].ids[0], len), devAvail, SCompleteGhost(g, i, len))
  {
    SCompleteTotals(g, i, len);
    NextLow16(g.lastAbs + |g.done|);
  }

  lemma {:induction false} SCompleteTotals(g: SGhost, i: nat, len: nat)
    requires i < |g.fetched|
    ensures var g' := SCompleteGhost(g, i, len);
            && Total(g'.done) + Total(g'.fetched) == Total(g.done) + Total(g.fetched)
            && |g'.done| == |g.done| + 1 && |g'.fetched| == |g.fetched| - 1 && Count(g') == Count(g)
  {
    TotalPush(g.done, g.fetched[i]);
    TotalRemove(g.fetched, i);
  }

  /** The slot the device writes lies past every completed buffer. */
  lemma {:induction false} SCompleteSlot(r: Split, devAvail: nat, g: SGhost, id: nat, len: nat)
    requires SplitWellFormed(r) && IndicesOk(r, devAvail, g) && g.fetched != []
    ensures |g.done| < r.num
    ensures SDeviceUse(r, id, len).used
         == r.used[Slot(r.num, RingSlot(r.num, g.lastAbs), |g.done|) := UsedElem(id, len)]
  {
    IndexSlot(r.num, g.lastAbs, |g.done|);
  }

  lemma {:induction false} SCompleteRings(r: Split, devAvail: nat, g: SGhost, i: nat, len: nat)
    requires SplitWellFormed(r) && IndicesOk(r, devAvail, g) && RingsOk(r, g)
    requires i < |g.fetched| && |g.fetched[i].ids| >= 1
    ensures RingsOk(SDeviceUse(r, g.fetched[i].ids[0], len), SCompleteGhost(g, i, len))
  {
    SCompleteSlot(r, devAvail, g, g.fetched[i].ids[0], len);
    CompleteKeepsUsed(r.used, RingSlot(r.num, g.lastAbs), g.done, g.doneLen, g.fetched[i], len);
    assert |SCompleteGhost(g, i, len).done| + |SCompleteGhost(g, i, len).fetched| == |g.done| + |g.fetched|;
  }

  lemma {:induction false} SCompleteKeeps(s: SSystem, i: nat, len: nat)
    requires SInv(s) && i < |s.g.fetched|
    ensures |s.g.fetched[i].ids| >= 1
    ensures SInv(SSystem(SDeviceUse(s.r, s.g.fetched[i].ids[0], len), s.devAvail, SCompleteGhost(s.g, i, len)))
  {
    assert s.g.fetched[i] in SInFlight(s.g);
    SCompleteFlight(s.g, i, len);
    SCompleteIndices(s.r, s.devAvail, s.g, i, len);
    SCompleteRings(s.r, s.devAvail, s.g, i, len);
  }

  // ---------------------------------------------------------------- get_buf

  ghost function SReapGhost(g: SGhost): SGhost
    requires g.done != [] && |g.doneLen| == |g.done|
  {
    g.(free := g.done[0].ids + g.free, home := PutHome(g.home, g.done[0]),
       done := g.done[1..], doneLen := g.doneLen[1..], lastAbs := g.lastAbs + 1)
  }

  /** The driver finds a used element exactly when the device has completed a buffer not yet reaped,
      and it is the oldest one, with the length the device wrote. */
  lemma {:induction false} UsedExactlySplit(r: Split, devAvail: nat, g: SGhost)
    requires SplitWellFormed(r) && IndicesOk(r, devAvail, g) && RingsOk(r, g)
    ensures r.lastUsed != r.usedIdx <==> g.done != []
    ensures g.done != [] ==>
              && |g.done[0].ids| >= 1
              && r.used[RingSlot(r.num, r.lastUsed)] == UsedElem(g.done[0].ids[0], g.doneLen[0])
  {
    Low16Differs(g.lastAbs, |g.done|);
    if g.done != [] {
      SlotOfLow16(r.num, g.lastAbs);
      assert UsedEntry(r.used, RingSlot(r.num, g.lastAbs), 0, g.done[0], g.doneLen[0]);
    }
  }

  lemma {:induction false} SReapFlight(g: SGhost)
    requires g.done != [] && |g.doneLen| == |g.done|
    ensures SInFlight(g) == SInFlight(SReapGhost(g)) + multiset{g.done[0]}
    ensures SInFlight(g) - multiset{g.done[0]} == SInFlight(SReapGhost(g))
  {
    assert g.done == [g.done[0]] + g.done[1..];
  }

  ghost predicate AllHold(q: seq<Buf>) {
    forall b :: b in q ==> |b.ids| >= 1
  }

  lemma {:induction false} SReapCount(g: SGhost)
    requires g.done != [] && |g.doneLen| == |g.done|
    requires AllHold(g.done) && AllHold(g.fetched) && AllHold(g.pending)
    ensures var g' := SReapGhost(g);
            && Count(g') <= Total(g'.done) + Total(g'.fetched) + Total(g'.pending)
            && Total(g.done) == |g.done[0].ids| + Total(g'.done)
  {
    assert forall b :: b in g.done[1..] ==> b in g.done;
    CountBound(g.done[1..]);
    CountBound(g.fetched);
    CountBound(g.pending);
  }

  lemma {:induction false} ShiftUsedRing(used: seq<UsedElem>, u: nat, done: seq<Buf>, doneLen: seq<nat>)
    requires u < |used| && done != [] && SUsedOk(used, u, done, doneLen)
    ensures SUsedOk(used, Slot(|used|, u, 1), done[1..], doneLen[1..])
  {
    forall j | 0 <= j < |done| - 1
      ensures UsedEntry(used, Slot(|used|, u, 1), j, done[1..][j], doneLen[1..][j])
    {
      SlotPlus(|used|, u, true, 1, j);
      assert UsedEntry(used, u, j + 1, done[j + 1], doneLen[j + 1]);
    }
  }

  lemma {:induction false} ShiftAvailRing(avail: seq<nat>, u: nat, k: nat, pending: seq<Buf>)
    requires u < |avail| && k > 0 && SAvailOk(avail, u, k, pending)
    ensures SAvailOk(avail, Slot(|avail|, u, 1), k - 1, pending)
  {
    var u' := Slot(|avail|, u, 1);
    forall j | 0 <= j < |pending|
      ensures AvailEntry(avail, u', k - 1 + j, pending[j])
    {
      SlotPlus(|avail|, u, true, 1, k - 1 + j);
      assert AvailEntry(avail, u, k + j, pending[j]);
    }
  }

  lemma {:induction false} ShiftRings(n: nat, lastAbs: nat, used: seq<UsedElem>, done: seq<Buf>, doneLen: seq<nat>,
                                      avail: seq<nat>, k: nat, pending: seq<Buf>)
    requires 0 < n == |used| == |avail| && done != [] && k > 0
    requires SUsedOk(used, RingSlot(n, lastAbs), done, doneLen) && SAvailOk(avail, RingSlot(n, lastAbs), k, pending)
    ensures SUsedOk(used, RingSlot(n, lastAbs + 1), done[1..], doneLen[1..])
    ensures SAvailOk(avail, RingSlot(n, lastAbs + 1), k - 1, pending)
  {
    RingSlotPlus(n, lastAbs, 1);
    ShiftUsedRing(used, RingSlot(n, lastAbs), done, doneLen);
    ShiftAvailRing(avail, RingSlot(n, lastAbs), k, pending);
  }

  lemma {:induction false} SReapRings(r: Split, g: SGhost, r': Split)
    requires r.num > 0 && |r.used| == |r.avail| == r.num && RingsOk(r, g) && g.done != []
    requires r'.num == r.num && r'.used == r.used && r'.avail == r.avail
    ensures RingsOk(r', SReapGhost(g))
  {
    ShiftRings(r.num, g.lastAbs, r.used, g.done, g.doneLen, r.avail, |g.done| + |g.fetched|, g.pending);
  }

  lemma {:induction false} SReapIndices(r: Split, devAvail: nat, g: SGhost, r': Split)
    requires IndicesOk(r, devAvail, g) && g.done != [] && |g.doneLen| == |g.done|
    requires AllHold(g.done) && AllHold(g.fetched) && AllHold(g.pending)
    requires r'.num == r.num && r'.usedIdx == r.usedIdx && r'.availIdx == r.availIdx
    requires r'.lastUsed == Succ16(r.lastUsed) && r'.numUnused == r.numUnused + |g.done[0].ids|
    ensures IndicesOk(r', devAvail, SReapGhost(g))
  {
    SReapCount(g);
    NextLow16(g.lastAbs);
  }

  lemma {:induction false} SReapIds(r: Split, devAvail: nat, g: SGhost)
    requires SplitWellFormed(r) && IndicesOk(r, devAvail, g) && g.done != [] && |g.doneLen| == |g.done|
    requires SIdsOk(r.num, r.desc, r.tokens, r.firstUnused, g.free, SInFlight(g), g.home)
    ensures var b, g' := g.done[0], SReapGhost(g);
            && Shaped(b) && b.ids[0] < r.num
            && Ends(r.desc, b.ids[0], r.num) && Follow(r.desc, b.ids[0], r.num) == b.ids
            && r.tokens[b.ids[0]] == Ptr(b.token)
            && SplitWellFormed(PutChain(r, b.ids))
            && var p := PutChain(r, b.ids);
               SIdsOk(r.num, p.desc, p.tokens, p.firstUnused, g'.free, SInFlight(g'), g'.home)
  {
    var b := g.done[0];
    assert b in SInFlight(g);
    OneOfTotal(g.done, b);
    SReapFlight(g);
    PutKeepsIds(r, g.free, SInFlight(g), g.home, b);
  }

  lemma {:induction false} FlightHolds(n: nat, g: SGhost)
    requires Partition(n, g.free, SInFlight(g), g.home)
    ensures AllHold(g.done) && AllHold(g.fetched) && AllHold(g.pending)
  {
    assert forall b :: b in g.done || b in g.fetched || b in g.pending ==> b in SInFlight(g);
  }

  lemma {:induction false} SReapKeeps(s: SSystem, eventSuppression: bool)
    requires SInv(s) && s.g.done != []
    ensures Shaped(s.g.done[0]) && s.g.done[0].ids[0] < s.r.num
    ensures Ends(s.r.desc, s.g.done[0].ids[0], s.r.num)
    ensures Follow(s.r.desc, s.g.done[0].ids[0], s.r.num) == s.g.done[0].ids
    ensures s.r.tokens[s.g.done[0].ids[0]] == Ptr(s.g.done[0].token)
    ensures SInv(SSystem(SReap(s.r, s.g.done[0].ids, eventSuppression), s.devAvail, SReapGhost(s.g)))
  {
    SReapIds(s.r, s.devAvail, s.g);
    FlightHolds(s.r.num, s.g);
    var r' := SReap(s.r, s.g.done[0].ids, eventSuppression);
    SReapIndices(s.r, s.devAvail, s.g, r');
    SReapRings(s.r, s.g, r');
  }
}
