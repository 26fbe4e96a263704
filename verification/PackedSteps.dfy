/** Each driver call and each device action on a packed queue keeps the invariant. */
module PackedSteps {
  import opened RingMath
  import opened Ledger
  import opened PackedRing
  import opened PackedInvariant
  import opened PackedIds

  // ---------------------------------------------------------------- adding

  ghost function AcceptGhost(s: System, b: Buf): Ghost
    requires WellFormed(s.r) && |b.ids| <= |s.g.free|
  {
    var k := |b.ids|;
    s.g.(free := s.g.free[k..], home := TakeHome(s.g.home, b, k), pending := s.g.pending + [b],
         availLap := s.g.availLap + (if s.r.nextIdx + k >= s.r.num then 1 else 0),
         fullAdds := s.g.fullAdds + (if b.table.None? && k == s.r.num then 1 else 0))
  }

  lemma {:induction false} AcceptPositions(s: System, b: Buf)
    requires WellFormed(s.r) && PositionsOk(s.r, s.dev, s.g) && LapsOk(s.r, s.g)
    requires Shaped(b) && |b.ids| <= |s.g.free| == s.r.numFree
    requires forall i :: 0 <= i < |b.ids| ==> b.ids[i] < s.r.num
    requires WellFormed(Accept(s.r, b))
    ensures AvailEnd(AcceptGhost(s, b)) == AvailEnd(s.g) + |b.ids|
    ensures PositionsOk(Accept(s.r, b), s.dev, AcceptGhost(s, b))
    ensures LapsOk(Accept(s.r, b), AcceptGhost(s, b))
  {
    TotalAppend(s.g.pending, [b]);
    assert Total([b]) == |b.ids| by {
      assert [b][1..] == [];
    }
    SlotPlus(s.r.num, s.r.lastUsed, s.r.usedWrap, AvailEnd(s.g), |b.ids|);
  }

  /** The slots an add writes are exactly those from `p` to `p + |ds|` after the first position. */
  lemma {:induction false} OverlaySlots(desc: seq<PDesc>, u: nat, p: nat, ds: seq<PDesc>)
    requires u < |desc| && p + |ds| <= |desc|
    ensures forall s :: 0 <= s < |desc| ==>
              var o := Offset(|desc|, u, s);
              Overlay(desc, Slot(|desc|, u, p), ds)[s] == if p <= o < p + |ds| then ds[o - p] else desc[s]
  {
    forall s | 0 <= s < |desc| {
      OffsetShift(|desc|, u, p, s);
    }
  }

  lemma {:induction false} OverlayLapBit(desc: seq<PDesc>, u: nat, w: bool, p: nat, b: Buf, s: nat)
    requires u < |desc| && s < |desc| && Shaped(b) && p + |b.ids| <= |desc|
    ensures var ds := RingDescs(|desc|, Slot(|desc|, u, p), ParityAt(|desc|, u, w, p), b);
            var d := Overlay(desc, Slot(|desc|, u, p), ds)[s];
            if p <= Offset(|desc|, u, s) < p + |b.ids|
            then d.flags.avail == LapBit(u, w, s) && d.flags.used == !LapBit(u, w, s)
            else d == desc[s]
  {
    var o := Offset(|desc|, u, s);
    OffsetShift(|desc|, u, p, s);
    if p <= o < p + |b.ids| {
      SlotPlus(|desc|, u, w, p, o - p);
    }
  }

  lemma {:induction false} OverlayLapBits(desc: seq<PDesc>, u: nat, w: bool, usedEnd: nat, p: nat, b: Buf)
    requires u < |desc| && Shaped(b) && usedEnd <= p && p + |b.ids| <= |desc|
    requires LapBitsOk(desc, u, w, usedEnd, p)
    ensures var ds := RingDescs(|desc|, Slot(|desc|, u, p), ParityAt(|desc|, u, w, p), b);
            LapBitsOk(Overlay(desc, Slot(|desc|, u, p), ds), u, w, usedEnd, p + |b.ids|)
  {
    forall s | 0 <= s < |desc| {
      OverlayLapBit(desc, u, w, p, b, s);
    }
  }

  lemma {:induction false} OverlayUsed(desc: seq<PDesc>, u: nat, w: bool, done: seq<Buf>, doneLen: seq<nat>, p: nat, ds: seq<PDesc>)
    requires u < |desc| && Total(done) <= p && p + |ds| <= |desc|
    requires UsedOk(desc, u, w, done, doneLen)
    ensures UsedOk(Overlay(desc, Slot(|desc|, u, p), ds), u, w, done, doneLen)
  {
    OverlaySlots(desc, u, p, ds);
    forall j | 0 <= j < |done|
      ensures UsedAt(Overlay(desc, Slot(|desc|, u, p), ds), u, w, Start(done, j), done[j], doneLen[j])
    {
      assert UsedAt(desc, u, w, Start(done, j), done[j], doneLen[j]);
      StartBound(done, j);
      SlotInjective(|desc|, u, Start(done, j), 0);
    }
  }

  lemma {:induction false} OverlayChain(desc: seq<PDesc>, u: nat, w: bool, k: nat, b: Buf, p: nat, ds: seq<PDesc>)
    requires u < |desc| && p + |ds| <= |desc|
    requires ChainAt(desc, u, w, k, b) && k + |b.ids| <= p
    ensures ChainAt(Overlay(desc, Slot(|desc|, u, p), ds), u, w, k, b)
  {
    OverlaySlots(desc, u, p, ds);
    forall q | k <= q < k + |b.ids|
      ensures HoldsDesc(Overlay(desc, Slot(|desc|, u, p), ds), u, w, k, b, q)
    {
      assert HoldsDesc(desc, u, w, k, b, q);
      SlotInjective(|desc|, u, q, 0);
    }
  }

  lemma {:induction false} OverlayNew(desc: seq<PDesc>, u: nat, w: bool, b: Buf, p: nat)
    requires u < |desc| && Shaped(b) && p + |b.ids| <= |desc|
    ensures var ds := RingDescs(|desc|, Slot(|desc|, u, p), ParityAt(|desc|, u, w, p), b);
            ChainAt(Overlay(desc, Slot(|desc|, u, p), ds), u, w, p, b)
  {
    var n := |desc|;
    var ds := RingDescs(n, Slot(n, u, p), ParityAt(n, u, w, p), b);
    OverlaySlots(desc, u, p, ds);
    forall q | p <= q < p + |b.ids|
      ensures HoldsDesc(Overlay(desc, Slot(n, u, p), ds), u, w, p, b, q)
    {
      SlotInjective(n, u, q, 0);
      SlotPlus(n, u, w, p, q - p);
    }
  }

  lemma {:induction false} OverlayAvailAt(desc: seq<PDesc>, u: nat, w: bool, fetchEnd: nat, pending: seq<Buf>, b: Buf, ds: seq<PDesc>, j: nat)
    requires u < |desc| && Shaped(b) && fetchEnd + Total(pending) + |b.ids| <= |desc| && j <= |pending|
    requires AvailOk(desc, u, w, fetchEnd, pending)
    requires var p := fetchEnd + Total(pending);
             ds == RingDescs(|desc|, Slot(|desc|, u, p), ParityAt(|desc|, u, w, p), b)
    ensures ChainAt(Overlay(desc, Slot(|desc|, u, fetchEnd + Total(pending)), ds), u, w,
                    fetchEnd + Start(pending + [b], j), (pending + [b])[j])
  {
    StartAppend(pending, [b], j);
    if j < |pending| {
      StartBound(pending, j);
      OverlayChain(desc, u, w, fetchEnd + Start(pending, j), pending[j], fetchEnd + Total(pending), ds);
    } else {
      OverlayNew(desc, u, w, b, fetchEnd + Total(pending));
    }
  }

  lemma {:induction false} OverlayAvail(desc: seq<PDesc>, u: nat, w: bool, fetchEnd: nat, pending: seq<Buf>, b: Buf)
    requires u < |desc| && Shaped(b) && fetchEnd + Total(pending) + |b.ids| <= |desc|
    requires AvailOk(desc, u, w, fetchEnd, pending)
    ensures var p := fetchEnd + Total(pending);
            var ds := RingDescs(|desc|, Slot(|desc|, u, p), ParityAt(|desc|, u, w, p), b);
            AvailOk(Overlay(desc, Slot(|desc|, u, p), ds), u, w, fetchEnd, pending + [b])
  {
    var p := fetchEnd + Total(pending);
    var ds := RingDescs(|desc|, Slot(|desc|, u, p), ParityAt(|desc|, u, w, p), b);
    forall j | 0 <= j < |pending + [b]|
      ensures ChainAt(Overlay(desc, Slot(|desc|, u, p), ds), u, w,
                      fetchEnd + Start(pending + [b], j), (pending + [b])[j])
    {
      OverlayAvailAt(desc, u, w, fetchEnd, pending, b, ds, j);
    }
  }

  lemma {:induction false} OverlayRing(desc: seq<PDesc>, u: nat, w: bool, g: Ghost, g': Ghost, b: Buf)
    requires u < |desc| && Shaped(b) && AvailEnd(g) + |b.ids| <= |desc|
    requires RingOk(desc, u, w, g)
    requires g'.done == g.done && g'.doneLen == g.doneLen && g'.fetched == g.fetched
    requires g'.pending == g.pending + [b] && AvailEnd(g') == AvailEnd(g) + |b.ids|
    ensures var p := AvailEnd(g);
            var ds := RingDescs(|desc|, Slot(|desc|, u, p), ParityAt(|desc|, u, w, p), b);
            RingOk(Overlay(desc, Slot(|desc|, u, p), ds), u, w, g')
  {
    var p := AvailEnd(g);
    var ds := RingDescs(|desc|, Slot(|desc|, u, p), ParityAt(|desc|, u, w, p), b);
    var desc' := Overlay(desc, Slot(|desc|, u, p), ds);
    OverlayUsed(desc, u, w, g.done, g.doneLen, p, ds);
    OverlayGhostAvail(desc, u, w, g, b, p);
    OverlayLapBits(desc, u, w, UsedEnd(g), p, b);
    SameEnds(g, g');
  }

  lemma {:induction false} SameEnds(g: Ghost, g': Ghost)
    requires g'.done == g.done && g'.fetched == g.fetched
    ensures UsedEnd(g') == UsedEnd(g) && FetchEnd(g') == FetchEnd(g)
  {
  }

  lemma {:induction false} OverlayGhostAvail(desc: seq<PDesc>, u: nat, w: bool, g: Ghost, b: Buf, p: nat)
    requires u < |desc| && Shaped(b) && p == AvailEnd(g) && p + |b.ids| <= |desc|
    requires AvailOk(desc, u, w, FetchEnd(g), g.pending)
    ensures var ds := RingDescs(|desc|, Slot(|desc|, u, p), ParityAt(|desc|, u, w, p), b);
            AvailOk(Overlay(desc, Slot(|desc|, u, p), ds), u, w, FetchEnd(g), g.pending + [b])
  {
    OverlayAvail(desc, u, w, FetchEnd(g), g.pending, b);
  }

  lemma {:induction false} AcceptInFlight(s: System, b: Buf)
    requires WellFormed(s.r) && IdsOk(s.r.num, s.r.st, s.r.freeHead, s.g.free, InFlight(s.g), s.g.home)
    requires Shaped(b) && |b.ids| <= |s.g.free| == s.r.numFree && b.ids == s.g.free[..|b.ids|]
    ensures WellFormed(Accept(s.r, b))
    ensures var r', g' := Accept(s.r, b), AcceptGhost(s, b);
            IdsOk(s.r.num, r'.st, r'.freeHead, g'.free, InFlight(g'), g'.home)
  {
    AcceptKeepsIds(s.r, s.g.free, InFlight(s.g), s.g.home, b);
    assert InFlight(AcceptGhost(s, b)) == InFlight(s.g) + multiset{b};
  }

  lemma {:induction false} AcceptKeeps(s: System, b: Buf)
    requires Inv(s)
    requires Shaped(b) && |b.ids| <= |s.g.free| && b.ids == s.g.free[..|b.ids|]
    ensures WellFormed(Accept(s.r, b))
    ensures Inv(System(Accept(s.r, b), s.dev, AcceptGhost(s, b)))
    ensures AvailEnd(AcceptGhost(s, b)) == AvailEnd(s.g) + |b.ids|
  {
    AcceptInFlight(s, b);
    AcceptPositions(s, b);
    OverlayRing(s.r.desc, s.r.lastUsed, s.r.usedWrap, s.g, AcceptGhost(s, b), b);
  }

  // ---------------------------------------------------------------- the device reads a chain

  ghost function FetchGhost(g: Ghost): Ghost
    requires g.pending != []
  {
    g.(pending := g.pending[1..], fetched := g.fetched + [g.pending[0]])
  }

  lemma {:induction false} SeesAt(desc: seq<PDesc>, u: nat, w: bool, g: Ghost)
    requires u < |desc| && RingOk(desc, u, w, g) && AvailEnd(g) <= |desc|
    ensures var f := desc[Slot(|desc|, u, FetchEnd(g))].flags;
            IsAvailable(f, ParityAt(|desc|, u, w, FetchEnd(g))) <==> g.pending != []
  {
    var k := FetchEnd(g);
    if g.pending != [] {
      assert ChainAt(desc, u, w, k + Start(g.pending, 0), g.pending[0]);
      assert HoldsDesc(desc, u, w, k, g.pending[0], k);
    } else {
      var s := Slot(|desc|, u, k);
      assert k < |desc| ==> Offset(|desc|, u, s) == k;
      assert desc[s].flags.avail == LapBit(u, w, s) <==> Offset(|desc|, u, s) < AvailEnd(g);
    }
  }

  lemma {:induction false} WalkReadsChain(desc: seq<PDesc>, u: nat, w: bool, k: nat, b: Buf, i: nat, fuel: nat)
    requires u < |desc| && ChainAt(desc, u, w, k, b) && i < |b.ids| <= i + fuel
    ensures Walk(desc, Slot(|desc|, u, k + i), fuel)
         == RingDescs(|desc|, Slot(|desc|, u, k), ParityAt(|desc|, u, w, k), b)[i..]
    decreases fuel
  {
    var n, q := |desc|, k + i;
    var ds := RingDescs(n, Slot(n, u, k), ParityAt(n, u, w, k), b);
    assert HoldsDesc(desc, u, w, k, b, q);
    SlotPlus(n, u, w, k, i);
    if i + 1 < |b.ids| {
      SlotPlus(n, u, w, q, 1);
      WalkReadsChain(desc, u, w, k, b, i + 1, fuel - 1);
      assert ds[i..] == [ds[i]] + ds[i + 1..];
    } else {
      assert ds[i..] == [ds[i]];
    }
  }

  lemma {:induction false} ReadsAt(desc: seq<PDesc>, u: nat, w: bool, fetchEnd: nat, pending: seq<Buf>)
    requires u < |desc| && pending != [] && AvailOk(desc, u, w, fetchEnd, pending)
    ensures fetchEnd + |pending[0].ids| <= |desc| && Shaped(pending[0])
    ensures Walk(desc, Slot(|desc|, u, fetchEnd), |desc|)
         == RingDescs(|desc|, Slot(|desc|, u, fetchEnd), ParityAt(|desc|, u, w, fetchEnd), pending[0])
  {
    assert ChainAt(desc, u, w, fetchEnd + Start(pending, 0), pending[0]);
    WalkReadsChain(desc, u, w, fetchEnd, pending[0], 0, |desc|);
  }

  /** A device at its next position sees a chain there exactly when a buffer is unread. */
  lemma {:induction false} DeviceSeesExactly(s: System)
    requires Inv(s)
    ensures DeviceSees(s.r, s.dev) <==> s.g.pending != []
  {
    SeesAt(s.r.desc, s.r.lastUsed, s.r.usedWrap, s.g);
  }

  lemma {:induction false} WalkIsRingDescs(s: System)
    requires Inv(s) && s.g.pending != []
    ensures Shaped(s.g.pending[0]) && |s.g.pending[0].ids| <= s.r.num
    ensures Walk(s.r.desc, s.dev.availIdx, s.r.num)
         == RingDescs(s.r.num, s.dev.availIdx, s.dev.availWrap, s.g.pending[0])
  {
    ReadsAt(s.r.desc, s.r.lastUsed, s.r.usedWrap, FetchEnd(s.g), s.g.pending);
  }

  /** Descriptor `d` is what the caller asked for at place `i`: element `i` of its list, with NEXT unless it is
      the last one and WRITE from element `out` on; or the table, its length in bytes, and INDIRECT. */
  predicate SaysCallers(d: PDesc, b: Buf, i: nat)
    requires |b.ids| >= 1
  {
    && d.id == b.ids[0]
    && match b.table
       case None =>
         && i < |b.sg| && d.addr == b.sg[i].addr && d.len == b.sg[i].len && !d.flags.indirect
         && (d.flags.next <==> i + 1 < |b.sg|) && (d.flags.write <==> i >= b.out)
       case Some(table) =>
         i == 0 && d.addr == table && d.len == 16 * |b.sg| && d.flags.indirect && !d.flags.next && !d.flags.write
  }

  lemma {:induction false} DescsAreCallers(n: nat, head: nat, avail: bool, b: Buf)
    requires head < n && Shaped(b) && |b.ids| <= n
    ensures forall i :: 0 <= i < |b.ids| ==> SaysCallers(RingDescs(n, head, avail, b)[i], b, i)
  {
  }

  /** What the device reads is the oldest unread buffer: as many descriptors as the caller's list has elements,
      or the one of its table, each saying what the caller asked for. */
  lemma {:induction false} DeviceReadsOldest(s: System)
    requires Inv(s) && s.g.pending != []
    ensures Shaped(s.g.pending[0])
    ensures var b, w := s.g.pending[0], Walk(s.r.desc, s.dev.availIdx, s.r.num);
            && |w| == (if b.table == None then |b.sg| else 1)
            && forall i :: 0 <= i < |w| ==> SaysCallers(w[i], b, i)
  {
    WalkIsRingDescs(s);
    DescsAreCallers(s.r.num, s.dev.availIdx, s.dev.availWrap, s.g.pending[0]);
  }

  /** An add without a table leaves the caller's list in the next slots of the ring, the lap bits with it. */
  lemma {:induction false} AcceptWritesList(r: Packed, b: Buf)
    requires WellFormed(r) && Shaped(b) && b.table == None && |b.ids| <= r.numFree
    requires forall i :: 0 <= i < |b.ids| ==> b.ids[i] < r.num
    ensures forall i :: 0 <= i < |b.sg| ==>
              var d := Accept(r, b).desc[Slot(r.num, r.nextIdx, i)];
              SaysCallers(d, b, i) && d.flags.avail == ParityAt(r.num, r.nextIdx, r.auAvail, i) && d.flags.used == !d.flags.avail
  {
    DescsAreCallers(r.num, r.nextIdx, r.auAvail, b);
    forall i | 0 <= i < |b.sg|
      ensures Accept(r, b).desc[Slot(r.num, r.nextIdx, i)] == RingDescs(r.num, r.nextIdx, r.auAvail, b)[i]
    {
      SlotInjective(r.num, r.nextIdx, i, i);
    }
  }

  lemma {:induction false} FetchAvail(desc: seq<PDesc>, u: nat, w: bool, fetchEnd: nat, pending: seq<Buf>)
    requires u < |desc| && pending != [] && AvailOk(desc, u, w, fetchEnd, pending)
    ensures AvailOk(desc, u, w, fetchEnd + |pending[0].ids|, pending[1..])
  {
    forall j | 0 <= j < |pending| - 1
      ensures ChainAt(desc, u, w, fetchEnd + |pending[0].ids| + Start(pending[1..], j), pending[1..][j])
    {
      assert ChainAt(desc, u, w, fetchEnd + Start(pending, j + 1), pending[j + 1]);
    }
  }

  lemma {:induction false} FetchGhostFacts(g: Ghost)
    requires g.pending != []
    ensures var g' := FetchGhost(g);
            && InFlight(g') == InFlight(g)
            && UsedEnd(g') == UsedEnd(g) && AvailEnd(g') == AvailEnd(g)
            && FetchEnd(g') == FetchEnd(g) + |g.pending[0].ids| <= AvailEnd(g)
  {
    var b := g.pending[0];
    TotalAppend(g.fetched, [b]);
    assert Total([b]) == |b.ids| + Total([b][1..]);
    assert g.pending == [b] + g.pending[1..];
  }

  lemma {:induction false} FetchRing(desc: seq<PDesc>, u: nat, w: bool, g: Ghost)
    requires u < |desc| && RingOk(desc, u, w, g) && g.pending != []
    ensures RingOk(desc, u, w, FetchGhost(g))
  {
    FetchGhostFacts(g);
    FetchAvail(desc, u, w, FetchEnd(g), g.pending);
  }

  lemma {:induction false} FetchPositions(s: System)
    requires WellFormed(s.r) && PositionsOk(s.r, s.dev, s.g) && LapsOk(s.r, s.g) && s.g.pending != []
    ensures |s.g.pending[0].ids| <= s.r.num
    ensures PositionsOk(s.r, DeviceTake(s.r.num, s.dev, |s.g.pending[0].ids|), FetchGhost(s.g))
    ensures LapsOk(s.r, FetchGhost(s.g))
    ensures InFlight(FetchGhost(s.g)) == InFlight(s.g)
  {
    FetchGhostFacts(s.g);
    SlotPlus(s.r.num, s.r.lastUsed, s.r.usedWrap, FetchEnd(s.g), |s.g.pending[0].ids|);
  }

  lemma {:induction false} FetchKeeps(s: System)
    requires Inv(s) && s.g.pending != []
    ensures |s.g.pending[0].ids| <= s.r.num
    ensures Inv(System(s.r, DeviceTake(s.r.num, s.dev, |s.g.pending[0].ids|), FetchGhost(s.g)))
  {
    FetchPositions(s);
    FetchRing(s.r.desc, s.r.lastUsed, s.r.usedWrap, s.g);
  }

  // ---------------------------------------------------------------- the device completes a buffer

  ghost function CompleteGhost(g: Ghost, i: nat, len: nat): Ghost
    requires i < |g.fetched|
  {
    g.(done := g.done + [g.fetched[i]], doneLen := g.doneLen + [len],
       fetched := g.fetched[..i] + g.fetched[i + 1..])
  }

  lemma {:induction false} CompleteGhostFacts(g: Ghost, i: nat, len: nat)
    requires i < |g.fetched|
    ensures var g' := CompleteGhost(g, i, len);
            && InFlight(g') == InFlight(g)
            && UsedEnd(g') == UsedEnd(g) + |g.fetched[i].ids| <= FetchEnd(g)
            && FetchEnd(g') == FetchEnd(g) && AvailEnd(g') == AvailEnd(g)
  {
    var b := g.fetched[i];
    TotalPush(g.done, b);
    TotalRemove(g.fetched, i);
    CompleteInFlight(g, i, len);
  }

  lemma {:induction false} CompleteInFlight(g: Ghost, i: nat, len: nat)
    requires i < |g.fetched|
    ensures InFlight(CompleteGhost(g, i, len)) == InFlight(g)
  {
    assert g.fetched == g.fetched[..i] + [g.fetched[i]] + g.fetched[i + 1..];
  }

  /** The used element the device writes. */
  function UsedDesc(addr: nat, b: Buf, len: nat, w: bool, extra: Flags): PDesc
    requires |b.ids| >= 1
  {
    PDesc(addr, len, b.ids[0], Flags(w, w, extra.next, extra.write, extra.indirect))
  }

  lemma {:induction false} WriteUsedOk(desc: seq<PDesc>, u: nat, w: bool, done: seq<Buf>, doneLen: seq<nat>, b: Buf, d: PDesc)
    requires u < |desc| && Total(done) < |desc| && |b.ids| >= 1 && UsedOk(desc, u, w, done, doneLen)
    requires IsUsed(d.flags, ParityAt(|desc|, u, w, Total(done))) && d.id == b.ids[0]
    ensures UsedOk(desc[Slot(|desc|, u, Total(done)) := d], u, w, done + [b], doneLen + [d.len])
  {
    forall j | 0 <= j < |done + [b]|
      ensures UsedAt(desc[Slot(|desc|, u, Total(done)) := d], u, w,
                     Start(done + [b], j), (done + [b])[j], (doneLen + [d.len])[j])
    {
      StartAppend(done, [b], j);
      if j < |done| {
        assert UsedAt(desc, u, w, Start(done, j), done[j], doneLen[j]);
        StartBound(done, j);
        SlotInjective(|desc|, u, Start(done, j), Total(done));
      }
    }
  }

  lemma {:induction false} WriteChain(desc: seq<PDesc>, u: nat, w: bool, m: nat, b: Buf, k: nat, d: PDesc)
    requires u < |desc| && k < m && k < |desc| && ChainAt(desc, u, w, m, b)
    ensures ChainAt(desc[Slot(|desc|, u, k) := d], u, w, m, b)
  {
    var desc' := desc[Slot(|desc|, u, k) := d];
    forall q | m <= q < m + |b.ids|
      ensures HoldsDesc(desc', u, w, m, b, q)
    {
      assert HoldsDesc(desc, u, w, m, b, q);
      SlotInjective(|desc|, u, q, k);
    }
  }

  lemma {:induction false} WriteAvailOk(desc: seq<PDesc>, u: nat, w: bool, fetchEnd: nat, pending: seq<Buf>, k: nat, d: PDesc)
    requires u < |desc| && k < fetchEnd && k < |desc| && AvailOk(desc, u, w, fetchEnd, pending)
    ensures AvailOk(desc[Slot(|desc|, u, k) := d], u, w, fetchEnd, pending)
  {
    forall j | 0 <= j < |pending|
      ensures ChainAt(desc[Slot(|desc|, u, k) := d], u, w, fetchEnd + Start(pending, j), pending[j])
    {
      var b, m := pending[j], fetchEnd + Start(pending, j);
      assert ChainAt(desc, u, w, m, b);
      WriteChain(desc, u, w, m, b, k, d);
    }
  }

  lemma {:induction false} WriteLapBits(desc: seq<PDesc>, u: nat, w: bool, usedEnd: nat, availEnd: nat, k: nat, d: PDesc)
    requires u < |desc| && LapBitsOk(desc, u, w, usedEnd, availEnd)
    requires k >= 1 && usedEnd + k <= availEnd <= |desc|
    requires d.flags.avail == ParityAt(|desc|, u, w, usedEnd)
    ensures LapBitsOk(desc[Slot(|desc|, u, usedEnd) := d], u, w, usedEnd + k, availEnd)
  {
    SlotInjective(|desc|, u, usedEnd, 0);
  }

  lemma {:induction false} CompleteRing(desc: seq<PDesc>, u: nat, w: bool, g: Ghost, i: nat, d: PDesc)
    requires u < |desc| && RingOk(desc, u, w, g) && AvailEnd(g) <= |desc|
    requires i < |g.fetched| && |g.fetched[i].ids| >= 1
    requires UsedEnd(g) + |g.fetched[i].ids| <= FetchEnd(g)
    requires IsUsed(d.flags, ParityAt(|desc|, u, w, UsedEnd(g))) && d.id == g.fetched[i].ids[0]
    ensures RingOk(desc[Slot(|desc|, u, UsedEnd(g)) := d], u, w, CompleteGhost(g, i, d.len))
  {
    CompleteGhostFacts(g, i, d.len);
    var desc', g' := desc[Slot(|desc|, u, UsedEnd(g)) := d], CompleteGhost(g, i, d.len);
    assert LapBitsOk(desc', u, w, UsedEnd(g'), AvailEnd(g')) by {
      WriteLapBits(desc, u, w, UsedEnd(g), AvailEnd(g), |g.fetched[i].ids|, d);
    }
    assert UsedOk(desc', u, w, g'.done, g'.doneLen) by {
      WriteUsedOk(desc, u, w, g.done, g.doneLen, g.fetched[i], d);
    }
    assert AvailOk(desc', u, w, FetchEnd(g'), g'.pending) by {
      WriteAvailOk(desc, u, w, FetchEnd(g), g.pending, UsedEnd(g), d);
    }
  }

  lemma {:induction false} CompletePositions(s: System, i: nat, len: nat)
    requires WellFormed(s.r) && PositionsOk(s.r, s.dev, s.g) && LapsOk(s.r, s.g) && i < |s.g.fetched|
    ensures var k := |s.g.fetched[i].ids|;
            && k <= s.r.num
            && var dev' := s.dev.(usedIdx := Slot(s.r.num, s.dev.usedIdx, k),
                                  usedWrap := ParityAt(s.r.num, s.dev.usedIdx, s.dev.usedWrap, k));
               PositionsOk(s.r, dev', CompleteGhost(s.g, i, len)) && LapsOk(s.r, CompleteGhost(s.g, i, len))
  {
    CompleteGhostFacts(s.g, i, len);
    SlotPlus(s.r.num, s.r.lastUsed, s.r.usedWrap, UsedEnd(s.g), |s.g.fetched[i].ids|);
  }

  lemma {:induction false} FetchedInFlight(s: System, i: nat)
    requires IdsOk(s.r.num, s.r.st, s.r.freeHead, s.g.free, InFlight(s.g), s.g.home) && i < |s.g.fetched|
    ensures Shaped(s.g.fetched[i])
  {
    assert s.g.fetched[i] in InFlight(s.g);
  }

  ghost function CompleteSystem(s: System, i: nat, len: nat, extra: Flags): System
    requires s.dev.usedIdx < |s.r.desc| && i < |s.g.fetched|
    requires 1 <= |s.g.fetched[i].ids| <= |s.r.desc|
  {
    var b := s.g.fetched[i];
    var (r', dev') := DeviceUse(s.r, s.dev, b.ids[0], |b.ids|, len, extra);
    System(r', dev', CompleteGhost(s.g, i, len))
  }

  lemma {:induction false} CompleteKeeps(s: System, i: nat, len: nat, extra: Flags)
    requires Inv(s) && i < |s.g.fetched|
    ensures 1 <= |s.g.fetched[i].ids| <= s.r.num
    ensures Inv(CompleteSystem(s, i, len, extra))
  {
    FetchedInFlight(s, i);
    CompletePositions(s, i, len);
    CompleteGhostFacts(s.g, i, len);
    var d := UsedDesc(s.r.desc[s.dev.usedIdx].addr, s.g.fetched[i], len, s.dev.usedWrap, extra);
    CompleteRing(s.r.desc, s.r.lastUsed, s.r.usedWrap, s.g, i, d);
  }

  // ---------------------------------------------------------------- get_buf

  ghost function ReapGhost(s: System): Ghost
    requires WellFormed(s.r) && s.g.done != [] && |s.g.doneLen| == |s.g.done|
  {
    var b := s.g.done[0];
    s.g.(free := b.ids + s.g.free, home := PutHome(s.g.home, b), done := s.g.done[1..], doneLen := s.g.doneLen[1..],
         usedLap := s.g.usedLap + (if s.r.lastUsed + |b.ids| >= s.r.num then 1 else 0))
  }

  lemma {:induction false} ReapGhostFacts(s: System)
    requires WellFormed(s.r) && s.g.done != [] && |s.g.doneLen| == |s.g.done|
    ensures var g, k := ReapGhost(s), |s.g.done[0].ids|;
            && InFlight(s.g) == InFlight(g) + multiset{s.g.done[0]}
            && UsedEnd(s.g) == k + UsedEnd(g) && FetchEnd(s.g) == k + FetchEnd(g) && AvailEnd(s.g) == k + AvailEnd(g)
  {
    assert s.g.done == [s.g.done[0]] + s.g.done[1..];
  }

  /** `more_used_packed` is true exactly when a used element waits at the driver's position; what
      earlier laps left there, or the inside of a chain, never looks used. */
  lemma {:induction false} UsedExactly(desc: seq<PDesc>, u: nat, w: bool, g: Ghost)
    requires u < |desc| && RingOk(desc, u, w, g) && AvailEnd(g) <= |desc|
    ensures IsUsed(desc[u].flags, w) <==> g.done != []
    ensures g.done != [] ==> |g.done[0].ids| >= 1 && desc[u].id == g.done[0].ids[0] && desc[u].len == g.doneLen[0]
  {
    if g.done != [] {
      assert UsedAt(desc, u, w, Start(g.done, 0), g.done[0], g.doneLen[0]);
    } else {
      assert Offset(|desc|, u, u) == 0;
      assert desc[u].flags.avail == LapBit(u, w, u) <==> 0 < AvailEnd(g);
    }
  }

  lemma {:induction false} ShiftLapBits(desc: seq<PDesc>, u: nat, w: bool, usedEnd: nat, availEnd: nat, k: nat)
    requires u < |desc| && k <= usedEnd <= availEnd <= |desc| && LapBitsOk(desc, u, w, usedEnd, availEnd)
    ensures LapBitsOk(desc, Slot(|desc|, u, k), ParityAt(|desc|, u, w, k), usedEnd - k, availEnd - k)
  {
    var u', w' := Slot(|desc|, u, k), ParityAt(|desc|, u, w, k);
    forall s | 0 <= s < |desc|
      ensures desc[s].flags.avail == LapBit(u', w', s) <==> Offset(|desc|, u', s) < availEnd - k
      ensures usedEnd - k <= Offset(|desc|, u', s) < availEnd - k ==> desc[s].flags.used == !LapBit(u', w', s)
    {
      OffsetShift(|desc|, u, k, s);
    }
  }

  lemma {:induction false} ShiftUsedAt(desc: seq<PDesc>, u: nat, w: bool, m: nat, b: Buf, len: nat, k: nat)
    requires u < |desc| && k <= m && UsedAt(desc, u, w, m, b, len)
    ensures UsedAt(desc, Slot(|desc|, u, k), ParityAt(|desc|, u, w, k), m - k, b, len)
  {
    SlotPlus(|desc|, u, w, k, m - k);
  }

  lemma {:induction false} ShiftUsed(desc: seq<PDesc>, u: nat, w: bool, done: seq<Buf>, doneLen: seq<nat>)
    requires u < |desc| && done != [] && UsedOk(desc, u, w, done, doneLen) && |done[0].ids| <= |desc|
    ensures var k := |done[0].ids|;
            UsedOk(desc, Slot(|desc|, u, k), ParityAt(|desc|, u, w, k), done[1..], doneLen[1..])
  {
    var k := |done[0].ids|;
    var u', w' := Slot(|desc|, u, k), ParityAt(|desc|, u, w, k);
    forall j | 0 <= j < |done| - 1
      ensures UsedAt(desc, u', w', Start(done[1..], j), done[1..][j], doneLen[1..][j])
    {
      assert UsedAt(desc, u, w, Start(done, j + 1), done[j + 1], doneLen[j + 1]);
      ShiftUsedAt(desc, u, w, Start(done, j + 1), done[j + 1], doneLen[j + 1], k);
    }
  }

  lemma {:induction false} ShiftChain(desc: seq<PDesc>, u: nat, w: bool, m: nat, b: Buf, k: nat)
    requires u < |desc| && k <= m && k <= |desc| && ChainAt(desc, u, w, m, b)
    ensures ChainAt(desc, Slot(|desc|, u, k), ParityAt(|desc|, u, w, k), m - k, b)
  {
    var u', w' := Slot(|desc|, u, k), ParityAt(|desc|, u, w, k);
    var m' := m - k;
    forall q | m' <= q < m' + |b.ids|
      ensures HoldsDesc(desc, u', w', m', b, q)
    {
      assert HoldsDesc(desc, u, w, m, b, q + k);
      SlotPlus(|desc|, u, w, k, q);
    }
  }

  lemma {:induction false} ShiftAvail(desc: seq<PDesc>, u: nat, w: bool, fetchEnd: nat, pending: seq<Buf>, k: nat)
    requires u < |desc| && k <= fetchEnd && k <= |desc| && AvailOk(desc, u, w, fetchEnd, pending)
    ensures AvailOk(desc, Slot(|desc|, u, k), ParityAt(|desc|, u, w, k), fetchEnd - k, pending)
  {
    var u', w' := Slot(|desc|, u, k), ParityAt(|desc|, u, w, k);
    forall j | 0 <= j < |pending|
      ensures ChainAt(desc, u', w', fetchEnd - k + Start(pending, j), pending[j])
    {
      assert ChainAt(desc, u, w, fetchEnd + Start(pending, j), pending[j]);
      ShiftChain(desc, u, w, fetchEnd + Start(pending, j), pending[j], k);
    }
  }

  lemma {:induction false} ShiftRing(desc: seq<PDesc>, u: nat, w: bool, g: Ghost, g': Ghost)
    requires u < |desc| && RingOk(desc, u, w, g) && g.done != [] && AvailEnd(g) <= |desc|
    requires g'.done == g.done[1..] && g'.doneLen == g.doneLen[1..] && g'.fetched == g.fetched && g'.pending == g.pending
    ensures var k := |g.done[0].ids|;
            k <= |desc| && RingOk(desc, Slot(|desc|, u, k), ParityAt(|desc|, u, w, k), g')
  {
    var k := |g.done[0].ids|;
    var u', w' := Slot(|desc|, u, k), ParityAt(|desc|, u, w, k);
    assert UsedEnd(g') == UsedEnd(g) - k;
    assert LapBitsOk(desc, u', w', UsedEnd(g'), AvailEnd(g')) by {
      ShiftLapBits(desc, u, w, UsedEnd(g), AvailEnd(g), k);
    }
    assert UsedOk(desc, u', w', g'.done, g'.doneLen) by {
      ShiftUsed(desc, u, w, g.done, g.doneLen);
    }
    assert AvailOk(desc, u', w', FetchEnd(g'), g'.pending) by {
      ShiftAvail(desc, u, w, FetchEnd(g), g.pending, k);
    }
  }

  lemma {:induction false} ReapIds(s: System)
    requires WellFormed(s.r) && s.g.done != [] && |s.g.doneLen| == |s.g.done|
    requires IdsOk(s.r.num, s.r.st, s.r.freeHead, s.g.free, InFlight(s.g), s.g.home)
    requires s.r.numFree + |s.g.done[0].ids| <= s.r.num
    ensures var b, g' := s.g.done[0], ReapGhost(s);
            && Shaped(b) && StateOf(s.r.st, b) && b.ids[0] < s.r.num
            && WellFormed(Detach(s.r, b.ids[0]))
            && var d := Detach(s.r, b.ids[0]);
               IdsOk(s.r.num, d.st, d.freeHead, g'.free, InFlight(g'), g'.home)
  {
    var b := s.g.done[0];
    assert b in InFlight(s.g);
    DetachKeepsIds(s.r, s.g.free, InFlight(s.g), s.g.home, b);
    ReapGhostFacts(s);
    assert InFlight(s.g) - multiset{b} == InFlight(ReapGhost(s));
  }

  lemma {:induction false} ReapPositions(s: System)
    requires WellFormed(s.r) && s.g.done != [] && |s.g.doneLen| == |s.g.done|
    requires PositionsOk(s.r, s.dev, s.g) && LapsOk(s.r, s.g)
    requires |s.g.done[0].ids| >= 1 && s.g.done[0].ids[0] < s.r.num
    requires s.r.st[s.g.done[0].ids[0]].num == |s.g.done[0].ids|
    requires WellFormed(Detach(s.r, s.g.done[0].ids[0]))
    ensures var r' := Reap(s.r, s.g.done[0].ids[0]);
            WellFormed(r') && PositionsOk(r', s.dev, ReapGhost(s)) && LapsOk(r', ReapGhost(s))
  {
    ReapGhostFacts(s);
    var n, u, w, k, g' := s.r.num, s.r.lastUsed, s.r.usedWrap, |s.g.done[0].ids|, ReapGhost(s);
    SlotPlus(n, u, w, k, UsedEnd(g'));
    SlotPlus(n, u, w, k, FetchEnd(g'));
    SlotPlus(n, u, w, k, AvailEnd(g'));
  }

  lemma {:induction false} ReapKeeps(s: System)
    requires Inv(s) && s.g.done != []
    ensures Shaped(s.g.done[0]) && s.g.done[0].ids[0] < s.r.num
    ensures s.r.st[s.g.done[0].ids[0]].data == Ptr(s.g.done[0].token)
    ensures Inv(System(Reap(s.r, s.g.done[0].ids[0]), s.dev, ReapGhost(s)))
  {
    ReapGhostFacts(s);
    ReapIds(s);
    ReapPositions(s);
    ShiftRing(s.r.desc, s.r.lastUsed, s.r.usedWrap, s.g, ReapGhost(s));
  }
}
