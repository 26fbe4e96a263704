/** The ids of a packed queue: adding takes a prefix of the free list, detaching gives a chain back. */
module PackedIds {
  import opened Ledger
  import opened PackedRing
  import opened PackedInvariant

  lemma {:induction false} ChainIsPrefix(st: seq<DescState>, free: seq<nat>, k: nat)
    requires Closed(st) && Linked(st, free) && 0 < |free| && k <= |free|
    ensures Chain(st, free[0], k) == free[..k]
    decreases k
  {
    if k > 1 {
      assert free[1..][0] == free[1] == st[free[0]].next;
      assert Linked(st, free[1..]) by {
        assert forall i :: 0 <= i < |free[1..]| ==> free[1..][i] == free[i + 1];
      }
      ChainIsPrefix(st, free[1..], k - 1);
      assert free[..k] == [free[0]] + free[1..][..k - 1];
    } else if k == 1 {
      assert Chain(st, st[free[0]].next, 0) == [];
    }
  }

  lemma {:induction false} StateFrame(st: seq<DescState>, st': seq<DescState>, b: Buf)
    requires Shaped(b) && StateOf(st, b) && |st'| == |st|
    requires forall i :: 0 <= i < |b.ids| ==> st'[b.ids[i]] == st[b.ids[i]]
    ensures StateOf(st', b)
  {
  }

  // ---------------------------------------------------------------- adding

  /** `desc_state` with `b` recorded at its head. */
  function Record(st: seq<DescState>, b: Buf): seq<DescState>
    requires Shaped(b) && b.ids[0] < |st|
  {
    var id := b.ids[0];
    st[id := DescState(Ptr(b.token), |b.ids|, st[id].next, b.ids[|b.ids| - 1])]
  }

  lemma {:induction false} RecordLinks(st: seq<DescState>, free: seq<nat>, b: Buf)
    requires Shaped(b) && |b.ids| <= |free| && b.ids == free[..|b.ids|] && Linked(st, free)
    ensures Linked(Record(st, b), free[|b.ids|..]) && StateOf(Record(st, b), b)
    ensures |b.ids| < |free| ==> st[b.ids[|b.ids| - 1]].next == free[|b.ids|]
  {
    var k, rest := |b.ids|, free[|b.ids|..];
    assert forall i :: 0 <= i < |rest| ==> rest[i] == free[k + i];
    assert b.ids[k - 1] == free[k - 1];
    assert b.ids[0] == free[0];
  }

  lemma {:induction false} RecordStates(n: nat, st: seq<DescState>, free: seq<nat>, out: multiset<Buf>, home: seq<Home>, b: Buf)
    requires Partition(n, free, out, home) && StatesOk(st, out) && |st| == n && Linked(st, free)
    requires Shaped(b) && |b.ids| <= |free| && b.ids == free[..|b.ids|]
    ensures StatesOk(Record(st, b), out + multiset{b})
  {
    assert b.ids[0] == free[0] && home[free[0]] == InFree(0);
    RecordLinks(st, free, b);
    forall c: Buf | c in out + multiset{b}
      ensures Shaped(c) && StateOf(Record(st, b), c)
    {
      if c != b {
        assert c in out;
        assert forall i :: 0 <= i < |c.ids| ==> home[c.ids[i]] == InBuf(c, i);
        StateFrame(st, Record(st, b), c);
      }
    }
  }

  lemma {:induction false} RecordTokens(n: nat, st: seq<DescState>, free: seq<nat>, out: multiset<Buf>, home: seq<Home>, b: Buf)
    requires Partition(n, free, out, home) && TokensOk(st, home) && |st| == n
    requires Shaped(b) && |b.ids| <= |free| && b.ids == free[..|b.ids|]
    ensures b.ids[0] < n && TokensOk(Record(st, b), TakeHome(home, b, |b.ids|))
  {
    assert b.ids[0] == free[0] && home[free[0]] == InFree(0);
    forall x | 0 <= x < n
      ensures Record(st, b)[x].data != Null
         <==> TakeHome(home, b, |b.ids|)[x].InBuf? && TakeHome(home, b, |b.ids|)[x].pos == 0
    {
      assert AtHome(x, free, out, home[x]);
    }
  }

  lemma {:induction false} AcceptKeepsIds(r: Packed, free: seq<nat>, out: multiset<Buf>, home: seq<Home>, b: Buf)
    requires WellFormed(r) && IdsOk(r.num, r.st, r.freeHead, free, out, home) && |free| == r.numFree
    requires Shaped(b) && |b.ids| <= |free| && b.ids == free[..|b.ids|]
    ensures b !in out
    ensures WellFormed(Accept(r, b))
    ensures var r' := Accept(r, b);
            IdsOk(r.num, r'.st, r'.freeHead, free[|b.ids|..], out + multiset{b}, TakeHome(home, b, |b.ids|))
  {
    TakeKeepsPartition(r.num, free, out, home, b);
    RecordLinks(r.st, free, b);
    RecordStates(r.num, r.st, free, out, home, b);
    RecordTokens(r.num, r.st, free, out, home, b);
    assert Accept(r, b).st == Record(r.st, b);
  }

  // ---------------------------------------------------------------- detaching

  /** `desc_state` with the chain of `b` in front of the free list. */
  function Release(st: seq<DescState>, b: Buf, freeHead: nat): seq<DescState>
    requires Shaped(b) && b.ids[0] < |st| && b.ids[|b.ids| - 1] < |st|
  {
    var id, last := b.ids[0], b.ids[|b.ids| - 1];
    var cleared := st[id := st[id].(data := Null)];
    cleared[last := cleared[last].(next := freeHead)]
  }

  lemma {:induction false} ReleaseLinks(n: nat, st: seq<DescState>, free: seq<nat>, out: multiset<Buf>, home: seq<Home>, b: Buf, freeHead: nat)
    requires Partition(n, free, out, home) && b in out && |st| == n && Linked(st, free) && StateOf(st, b)
    requires free != [] ==> free[0] == freeHead
    ensures Linked(Release(st, b, freeHead), b.ids + free)
  {
    var last := b.ids[|b.ids| - 1];
    var st', free' := Release(st, b, freeHead), b.ids + free;
    assert home[last] == InBuf(b, |b.ids| - 1);
    forall i | 0 <= i < |free'|
      ensures free'[i] < |st'| && (i < |free'| - 1 ==> st'[free'[i]].next == free'[i + 1])
    {
      if i < |b.ids| {
        assert free'[i] == b.ids[i] && home[b.ids[i]] == InBuf(b, i);
      } else {
        assert free'[i] == free[i - |b.ids|] && home[free'[i]] == InFree(i - |b.ids|);
      }
    }
  }

  lemma {:induction false} ReleaseStates(n: nat, st: seq<DescState>, free: seq<nat>, out: multiset<Buf>, home: seq<Home>, b: Buf, freeHead: nat)
    requires Partition(n, free, out, home) && StatesOk(st, out) && b in out && |st| == n
    ensures StateOf(st, b) && StatesOk(Release(st, b, freeHead), out - multiset{b})
  {
    assert StateOf(st, b);
    assert home[b.ids[0]] == InBuf(b, 0) && home[b.ids[|b.ids| - 1]] == InBuf(b, |b.ids| - 1);
    forall c: Buf | c in out - multiset{b}
      ensures Shaped(c) && StateOf(Release(st, b, freeHead), c)
    {
      assert c in out && c != b;
      assert forall i :: 0 <= i < |c.ids| ==> home[c.ids[i]] == InBuf(c, i);
      StateFrame(st, Release(st, b, freeHead), c);
    }
  }

  lemma {:induction false} ReleaseTokens(n: nat, st: seq<DescState>, free: seq<nat>, out: multiset<Buf>, home: seq<Home>, b: Buf, freeHead: nat)
    requires Partition(n, free, out, home) && TokensOk(st, home) && b in out && |st| == n
    ensures b.ids[0] < n && b.ids[|b.ids| - 1] < n
    ensures TokensOk(Release(st, b, freeHead), PutHome(home, b))
  {
    assert home[b.ids[0]] == InBuf(b, 0) && home[b.ids[|b.ids| - 1]] == InBuf(b, |b.ids| - 1);
    var st', home' := Release(st, b, freeHead), PutHome(home, b);
    forall x | 0 <= x < n
      ensures st'[x].data != Null <==> home'[x].InBuf? && home'[x].pos == 0
    {
      assert AtHome(x, free, out, home[x]);
      assert x != b.ids[0] ==> st'[x].data == st[x].data;
    }
  }

  lemma {:induction false} DetachKeepsIds(r: Packed, free: seq<nat>, out: multiset<Buf>, home: seq<Home>, b: Buf)
    requires WellFormed(r) && IdsOk(r.num, r.st, r.freeHead, free, out, home) && b in out
    requires r.numFree + |b.ids| <= r.num
    ensures b.ids[0] < r.num
    ensures WellFormed(Detach(r, b.ids[0]))
    ensures var r' := Detach(r, b.ids[0]);
            IdsOk(r.num, r'.st, r'.freeHead, b.ids + free, out - multiset{b}, PutHome(home, b))
    ensures StateOf(r.st, b)
  {
    PutKeepsPartition(r.num, free, out, home, b);
    ReleaseStates(r.num, r.st, free, out, home, b, r.freeHead);
    ReleaseLinks(r.num, r.st, free, out, home, b, r.freeHead);
    ReleaseTokens(r.num, r.st, free, out, home, b, r.freeHead);
    assert Detach(r, b.ids[0]).st == Release(r.st, b, r.freeHead);
  }
}
