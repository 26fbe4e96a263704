/** What the invariant of a packed queue means for the driver and for the device. */
module PackedTheorems {
  import opened RingMath
  import opened Ledger
  import opened PackedRing
  import opened PackedInvariant
  import opened PackedIds
  import opened PackedSteps

  // ---------------------------------------------------------------- positions and laps

  /** Positions counted from the first slot of the first lap, never wrapping. */
  ghost function NextAvailAbs(s: System): nat { s.g.availLap * s.r.num + s.r.nextIdx }
  ghost function LastUsedAbs(s: System): nat { s.g.usedLap * s.r.num + s.r.lastUsed }

  /** The slots between the two ends are the descriptors in flight, and `avail_used_flags` is the
      parity of the lap of the next available slot. */
  lemma {:induction false} PositionsCountFlight(s: System)
    requires Inv(s)
    ensures NextAvailAbs(s) - LastUsedAbs(s) == s.r.num - s.r.numFree
    ensures NextAvailAbs(s) / s.r.num == s.g.availLap && NextAvailAbs(s) % s.r.num == s.r.nextIdx
    ensures s.r.auAvail <==> s.g.availLap % 2 == 0
    ensures s.r.auUsed == !s.r.auAvail
  {
    AbsolutePositions(s);
  }

  lemma {:induction false} AbsolutePositions(s: System)
    requires WellFormed(s.r) && PositionsOk(s.r, s.dev, s.g) && LapsOk(s.r, s.g)
    ensures NextAvailAbs(s) - LastUsedAbs(s) == s.r.num - s.r.numFree
    ensures NextAvailAbs(s) / s.r.num == s.g.availLap && NextAvailAbs(s) % s.r.num == s.r.nextIdx
  {
    LapsCount(s.r.num, s.r.lastUsed, s.g.usedLap, AvailEnd(s.g), s.g.availLap);
  }

  lemma {:induction false} LapsCount(n: nat, u: nat, lap: nat, p: nat, lap': nat)
    requires u < n && p <= n && lap' == lap + (if u + p >= n then 1 else 0)
    ensures lap' * n + Slot(n, u, p) == lap * n + u + p
    ensures (lap' * n + Slot(n, u, p)) / n == lap' && (lap' * n + Slot(n, u, p)) % n == Slot(n, u, p)
  {
    DivisionIsUnique(n, lap', Slot(n, u, p));
    LapDistance(n, lap, u, lap', p);
  }

  lemma {:induction false} LapDistance(n: nat, lap: nat, u: nat, lap': nat, p: nat)
    requires u < n && p <= n && lap' == lap + (if u + p >= n then 1 else 0)
    ensures lap' * n + Slot(n, u, p) == lap * n + u + p
  {
    assert (lap + 1) * n == lap * n + n;
  }

  /** `avail_wrap_counter` follows the lap over an accepted add exactly when the add is indirect or
      shorter than the ring: the test `i < head` misses a chain that fills the ring and ends at its
      own head. */
  lemma {:induction false} WrapCounterFollowsLap(r: Packed, b: Buf)
    requires WellFormed(r) && Shaped(b) && |b.ids| <= r.numFree
    requires forall i :: 0 <= i < |b.ids| ==> b.ids[i] < r.num
    requires r.availWrap == r.auAvail
    ensures var r' := Accept(r, b);
            r'.availWrap == r'.auAvail <==> b.table.Some? || |b.sg| < r.num
  {
  }

  /** A ring of four slots filled by one direct add: the flags change laps, the counter does not. */
  lemma {:induction false} FullRingAddMissesWrap()
    ensures var r, sg := Fresh(4), [Sg(0, 1), Sg(1, 1), Sg(2, 1), Sg(3, 1)];
            && WellFormed(r) && HasRoom(r, sg, None)
            && var r' := AddBuf(r, sg, 4, 7, None).0;
               !r'.auAvail && r'.availWrap && r'.nextIdx == 0
  {
    var r, sg := Fresh(4), [Sg(0, 1), Sg(1, 1), Sg(2, 1), Sg(3, 1)];
    assert Chain(r.st, 0, 4) == [0] + Chain(r.st, r.st[0].next, 3);
    assert |NewBuf(r, sg, 4, 7, None).ids| == 4;
  }

  // ---------------------------------------------------------------- used detection

  /** `more_used_packed` is exact on every lap. */
  lemma {:induction false} MoreUsedIsExact(s: System)
    requires Inv(s)
    ensures MoreUsed(s.r) <==> s.g.done != []
  {
    UsedExactly(s.r.desc, s.r.lastUsed, s.r.usedWrap, s.g);
  }

  /** An add writes only slots past the last filled one, so no used element that waits for get_buf
      and no descriptor the device may still read is overwritten. */
  lemma {:induction false} AddLeavesFilledSlots(s: System, b: Buf, x: nat)
    requires Inv(s) && Shaped(b) && |b.ids| <= |s.g.free| && b.ids == s.g.free[..|b.ids|]
    requires x < s.r.num && Offset(s.r.num, s.r.lastUsed, x) < s.r.num - s.r.numFree
    ensures forall i :: 0 <= i < |b.ids| ==> b.ids[i] < s.r.num
    ensures Accept(s.r, b).desc[x] == s.r.desc[x]
  {
    assert forall i :: 0 <= i < |b.ids| ==> b.ids[i] == s.g.free[i];
    OverlaySlots(s.r.desc, s.r.lastUsed, AvailEnd(s.g), RingDescs(s.r.num, s.r.nextIdx, s.r.auAvail, b));
  }

  // ---------------------------------------------------------------- publish order

  /** Ring memory in the middle of a direct or indirect add: anything may have happened to the `k`
      slots of the new chain except that the head's flags word is still the old one. */
  ghost predicate HalfWritten(r: Packed, desc: seq<PDesc>, k: nat)
    requires WellFormed(r)
  {
    && |desc| == r.num
    && (forall x :: 0 <= x < r.num && Offset(r.num, r.nextIdx, x) >= k ==> desc[x] == r.desc[x])
    && desc[r.nextIdx].flags == r.desc[r.nextIdx].flags
  }

  /** A device polling in ring order while an add is half done finds every chain published before,
      whole and in order, and finds the new chain's head not available. */
  lemma {:induction false} HalfAddIsInvisible(s: System, desc: seq<PDesc>, k: nat)
    requires Inv(s) && 1 <= k <= s.r.numFree && HalfWritten(s.r, desc, k)
    ensures AvailOk(desc, s.r.lastUsed, s.r.usedWrap, FetchEnd(s.g), s.g.pending)
    ensures !IsAvailable(desc[s.r.nextIdx].flags, s.r.auAvail)
    ensures IsAvailable(desc[s.dev.availIdx].flags, s.dev.availWrap) <==> s.g.pending != []
    ensures s.g.pending != [] ==>
              Walk(desc, s.dev.availIdx, s.r.num) == Walk(s.r.desc, s.dev.availIdx, s.r.num)
  {
    var desc0, u, w, p := s.r.desc, s.r.lastUsed, s.r.usedWrap, AvailEnd(s.g);
    assert AvailOk(desc, u, w, FetchEnd(s.g), s.g.pending) by {
      HalfKeepsAvail(desc0, desc, u, w, FetchEnd(s.g), s.g.pending, p, k);
    }
    assert !IsAvailable(desc[s.r.nextIdx].flags, s.r.auAvail) by {
      HalfHidesHead(desc0, desc, u, w, UsedEnd(s.g), p);
    }
    if s.g.pending != [] {
      assert Walk(desc, s.dev.availIdx, s.r.num) == Walk(desc0, s.dev.availIdx, s.r.num) by {
        WalkIsRingDescs(s);
        ReadsAt(desc, u, w, FetchEnd(s.g), s.g.pending);
      }
      OldestIsAvailable(desc, u, w, FetchEnd(s.g), s.g.pending);
    } else {
      assert s.dev.availIdx == s.r.nextIdx && s.dev.availWrap == s.r.auAvail;
    }
  }

  lemma {:induction false} HalfHidesHead(desc: seq<PDesc>, desc': seq<PDesc>, u: nat, w: bool, usedEnd: nat, p: nat)
    requires u < |desc| == |desc'| && p < |desc| && LapBitsOk(desc, u, w, usedEnd, p)
    requires desc'[Slot(|desc|, u, p)].flags == desc[Slot(|desc|, u, p)].flags
    ensures !IsAvailable(desc'[Slot(|desc|, u, p)].flags, ParityAt(|desc|, u, w, p))
  {
    assert Offset(|desc|, u, Slot(|desc|, u, p)) == p;
  }

  lemma {:induction false} OldestIsAvailable(desc: seq<PDesc>, u: nat, w: bool, fetchEnd: nat, pending: seq<Buf>)
    requires u < |desc| && pending != [] && AvailOk(desc, u, w, fetchEnd, pending)
    ensures fetchEnd < |desc| && IsAvailable(desc[Slot(|desc|, u, fetchEnd)].flags, ParityAt(|desc|, u, w, fetchEnd))
  {
    assert ChainAt(desc, u, w, fetchEnd + Start(pending, 0), pending[0]);
    assert HoldsDesc(desc, u, w, fetchEnd, pending[0], fetchEnd);
  }

  lemma {:induction false} HalfKeepsAvail(desc: seq<PDesc>, desc': seq<PDesc>, u: nat, w: bool, fetchEnd: nat, pending: seq<Buf>, p: nat, k: nat)
    requires u < |desc| == |desc'| && fetchEnd + Total(pending) == p && p + k <= |desc|
    requires AvailOk(desc, u, w, fetchEnd, pending)
    requires forall x :: 0 <= x < |desc| && Offset(|desc|, Slot(|desc|, u, p), x) >= k ==> desc'[x] == desc[x]
    ensures AvailOk(desc', u, w, fetchEnd, pending)
  {
    forall j | 0 <= j < |pending|
      ensures ChainAt(desc', u, w, fetchEnd + Start(pending, j), pending[j])
    {
      var b, m := pending[j], fetchEnd + Start(pending, j);
      assert ChainAt(desc, u, w, m, b);
      StartBound(pending, j);
      forall q | m <= q < m + |b.ids|
        ensures HoldsDesc(desc', u, w, m, b, q)
      {
        assert HoldsDesc(desc, u, w, m, b, q);
        SlotInjective(|desc|, u, q, q);
        OffsetShift(|desc|, u, p, Slot(|desc|, u, q));
      }
    }
  }

  /** Whatever is in the ring: get_buf returns a token exactly if the next element is used and names a buffer the
      driver has, and then that buffer's; otherwise it changes nothing. */
  lemma {:induction false} GetOnAnyRing(r: Packed)
    requires WellFormed(r)
    ensures var (r', token, len) := GetBuf(r);
            var d := r.desc[r.lastUsed];
            && (token != Null <==>
                  d.flags.avail == r.usedWrap && d.flags.used == r.usedWrap && d.id < r.num && r.st[d.id].data != Null)
            && (token != Null ==> token == r.st[d.id].data && len == d.len && r'.numFree == r.numFree + r.st[d.id].num)
            && (token == Null ==> r' == r)
  {
  }

  /** A new queue holds nothing and has all descriptors free; the device may interrupt, and sees nothing. */
  lemma {:induction false} NewQueueIsEmpty(num: nat)
    requires 0 < num <= MAX_RING
    ensures var r := Fresh(num);
            && WellFormed(r) && r.num == r.numFree == num && GetBuf(r) == (r, Null, 0)
            && (forall i :: 0 <= i < num ==> r.st[i].data == Null)
            && r.drvFlags == r.shadow == FLAG_ENABLE && r.numAdded == 0 && !DeviceSees(r, FreshDevice)
  {
  }

  // ---------------------------------------------------------------- teardown

  ghost function Tokens(q: seq<Buf>): multiset<nat> {
    if q == [] then multiset{} else multiset{q[0].token} + Tokens(q[1..])
  }

  lemma {:induction false} TokensRemove(q: seq<Buf>, i: nat)
    requires i < |q|
    ensures Tokens(q) == multiset{q[i].token} + Tokens(q[..i] + q[i + 1..])
  {
    var t := q[..i] + q[i + 1..];
    if i == 0 {
      assert t == q[1..];
    } else {
      TokensRemove(q[1..], i - 1);
      assert t[1..] == q[1..][..i - 1] + q[1..][i..];
    }
  }

  /** What teardown relies on: the ids are shared out between the free list and the buffers `q`. */
  ghost predicate Holding(r: Packed, free: seq<nat>, q: seq<Buf>, home: seq<Home>) {
    && WellFormed(r)
    && IdsOk(r.num, r.st, r.freeHead, free, multiset(q), home)
    && |free| == r.numFree && r.numFree + Total(q) == r.num
  }

  /** The first id that holds a token is the head of a buffer. */
  lemma {:induction false} FirstDataIsHead(r: Packed, free: seq<nat>, q: seq<Buf>, home: seq<Home>) returns (i: nat)
    requires Holding(r, free, q, home) && q != []
    ensures i < |q| && Shaped(q[i]) && FirstData(r.st, 0) == q[i].ids[0] < r.num
    ensures r.st[q[i].ids[0]].data == Ptr(q[i].token)
  {
    var x := FirstData(r.st, 0);
    assert q[0] in multiset(q) && StateOf(r.st, q[0]);
    assert x < r.num;
    assert AtHome(x, free, multiset(q), home[x]);
    var b := home[x].buf;
    assert b in multiset(q) && StateOf(r.st, b);
    i :| 0 <= i < |q| && q[i] == b;
  }

  lemma {:induction false} WithoutOne(q: seq<Buf>, i: nat)
    requires i < |q|
    ensures multiset(q[..i] + q[i + 1..]) == multiset(q) - multiset{q[i]}
    ensures Total(q) == Total(q[..i] + q[i + 1..]) + |q[i].ids|
    ensures q[i] in multiset(q)
  {
    TotalRemove(q, i);
    assert q == q[..i] + [q[i]] + q[i + 1..];
  }

  lemma {:induction false} DetachHolds(r: Packed, free: seq<nat>, q: seq<Buf>, home: seq<Home>, i: nat)
    requires Holding(r, free, q, home) && i < |q|
    ensures Shaped(q[i]) && q[i].ids[0] < r.num
    ensures Holding(Detach(r, q[i].ids[0]), q[i].ids + free, q[..i] + q[i + 1..], PutHome(home, q[i]))
  {
    var b := q[i];
    WithoutOne(q, i);
    DetachKeepsIds(r, free, multiset(q), home, b);
  }

  /** One call of `detach_unused_buf` returns the token of a buffer in flight and frees its ids. */
  lemma {:induction false} DetachUnusedStep(r: Packed, free: seq<nat>, q: seq<Buf>, home: seq<Home>)
    returns (i: nat, r': Packed, free': seq<nat>, q': seq<Buf>, home': seq<Home>)
    requires Holding(r, free, q, home) && q != []
    ensures i < |q| && q' == q[..i] + q[i + 1..]
    ensures DetachUnused(r) == (r', Ptr(q[i].token))
    ensures Holding(r', free', q', home')
  {
    i := FirstDataIsHead(r, free, q, home);
    DetachHolds(r, free, q, home, i);
    r', free', q', home' := DetachUnused(r).0, q[i].ids + free, q[..i] + q[i + 1..], PutHome(home, q[i]);
  }

  lemma {:induction false} NothingToDetach(r: Packed, free: seq<nat>, home: seq<Home>)
    requires Holding(r, free, [], home)
    ensures DetachUnused(r) == (r, Null) && r.numFree == r.num
  {
    forall x | 0 <= x < r.num
      ensures r.st[x].data == Null
    {
      assert AtHome(x, free, multiset([]), home[x]);
    }
  }

  /** Calling `detach_unused_buf` on `r` until it returns NULL yields `tokens` and leaves `r'`. */
  ghost predicate IsDrain(r: Packed, tokens: seq<nat>, r': Packed)
    requires WellFormed(r)
    decreases |tokens|
  {
    if tokens == [] then DetachUnused(r) == (r, Null) && r' == r
    else
      var (r1, token) := DetachUnused(r);
      token == Ptr(tokens[0]) && WellFormed(r1) && IsDrain(r1, tokens[1..], r')
  }

  /** Teardown returns the token of every buffer in flight once, then NULL with all ids free. */
  lemma {:induction false} DrainReturnsAll(r: Packed, free: seq<nat>, q: seq<Buf>, home: seq<Home>)
    returns (tokens: seq<nat>, r': Packed)
    requires Holding(r, free, q, home)
    ensures IsDrain(r, tokens, r') && multiset(tokens) == Tokens(q) && r'.numFree == r'.num
    decreases |q|
  {
    if q == [] {
      NothingToDetach(r, free, home);
      tokens, r' := [], r;
    } else {
      var i, r1, free1, q1, home1 := DetachUnusedStep(r, free, q, home);
      var rest;
      rest, r' := DrainReturnsAll(r1, free1, q1, home1);
      TokensRemove(q, i);
      tokens := [q[i].token] + rest;
      assert tokens[1..] == rest;
    }
  }

  /** Whatever state a run has reached, teardown ends and returns each buffer in flight once. */
  lemma {:induction false} TeardownDrains(s: System) returns (tokens: seq<nat>, r': Packed)
    requires Inv(s)
    ensures IsDrain(s.r, tokens, r') && r'.numFree == r'.num
    ensures multiset(tokens) == Tokens(s.g.done + s.g.fetched + s.g.pending)
  {
    var q := s.g.done + s.g.fetched + s.g.pending;
    TotalAppend(s.g.done + s.g.fetched, s.g.pending);
    TotalAppend(s.g.done, s.g.fetched);
    assert multiset(q) == InFlight(s.g);
    tokens, r' := DrainReturnsAll(s.r, s.g.free, q, s.g.home);
  }
}
