/** The descriptors of a split queue: adding takes a prefix of the free list, reaping gives a chain back. */
module SplitIds {
  import opened Ledger
  import opened PackedRing
  import opened SplitRing
  import opened SplitInvariant

  lemma {:induction false} SChainIsPrefix(desc: seq<SDesc>, free: seq<nat>, k: nat)
    requires NextInRange(desc) && SLinked(desc, free) && 0 < |free| && k <= |free|
    ensures SChain(desc, free[0], k) == free[..k]
    decreases k
  {
    if k > 1 {
      assert SLinked(desc, free[1..]) by {
        assert forall i :: 0 <= i < |free[1..]| ==> free[1..][i] == free[i + 1];
      }
      assert free[1..][0] == free[1] == desc[free[0]].next;
      SChainIsPrefix(desc, free[1..], k - 1);
      assert free[..k] == [free[0]] + free[1..][..k - 1];
    } else if k == 1 {
      assert SChain(desc, desc[free[0]].next, 0) == [];
    }
  }

  ghost predicate Distinct(ids: seq<nat>) {
    forall i, j :: 0 <= i < j < |ids| ==> ids[i] != ids[j]
  }

  /** Writing the chain changes exactly its own descriptors. */
  lemma {:induction false} WriteChainWrites(desc: seq<SDesc>, b: Buf, j: nat)
    requires Shaped(b) && j <= |b.ids| && Distinct(b.ids)
    requires forall i :: 0 <= i < |b.ids| ==> b.ids[i] < |desc|
    ensures forall i :: 0 <= i < j ==>
              WriteChain(desc, b, j)[b.ids[i]] == SDescOf(b, i, desc[b.ids[i]].next)
    ensures forall x :: 0 <= x < |desc| && x !in b.ids[..j] ==> WriteChain(desc, b, j)[x] == desc[x]
    decreases j
  {
    if j > 0 {
      WriteChainWrites(desc, b, j - 1);
      assert b.ids[..j] == b.ids[..j - 1] + [b.ids[j - 1]];
    }
  }

  // ---------------------------------------------------------------- adding

  lemma {:induction false} TakenIdsDistinct(n: nat, free: seq<nat>, out: multiset<Buf>, home: seq<Home>, k: nat)
    requires Partition(n, free, out, home) && k <= |free|
    ensures Distinct(free[..k]) && (forall i :: 0 <= i < k ==> free[i] < n)
  {
    assert forall i :: 0 <= i < |free| ==> home[free[i]] == InFree(i);
  }

  lemma {:induction false} WriteKeepsChain(desc: seq<SDesc>, desc': seq<SDesc>, c: Buf)
    requires Shaped(c) && ChainOf(desc, c) && |desc'| == |desc|
    requires forall i :: 0 <= i < |c.ids| ==> desc'[c.ids[i]] == desc[c.ids[i]]
    ensures ChainOf(desc', c)
  {
  }

  lemma {:induction false} WriteMakesChain(desc: seq<SDesc>, free: seq<nat>, b: Buf)
    requires Shaped(b) && |b.ids| <= |free| && b.ids == free[..|b.ids|] && SLinked(desc, free) && Distinct(b.ids)
    ensures var desc' := WriteChain(desc, b, |b.ids|);
            ChainOf(desc', b) && SLinked(desc', free[|b.ids|..])
    ensures |b.ids| < |free| ==> desc[b.ids[|b.ids| - 1]].next == free[|b.ids|]
  {
    var k, rest := |b.ids|, free[|b.ids|..];
    WriteChainWrites(desc, b, k);
    assert b.ids[..k] == b.ids;
    assert forall i :: 0 <= i < |rest| ==> rest[i] == free[k + i];
    assert b.ids[k - 1] == free[k - 1];
  }

  lemma {:induction false} WriteKeepsChains(n: nat, desc: seq<SDesc>, free: seq<nat>, out: multiset<Buf>, home: seq<Home>, b: Buf)
    requires Partition(n, free, out, home) && ChainsOk(desc, out) && |desc| == n && SLinked(desc, free)
    requires Shaped(b) && |b.ids| <= |free| && b.ids == free[..|b.ids|] && Distinct(b.ids)
    ensures ChainsOk(WriteChain(desc, b, |b.ids|), out + multiset{b})
  {
    var desc' := WriteChain(desc, b, |b.ids|);
    WriteMakesChain(desc, free, b);
    WriteChainWrites(desc, b, |b.ids|);
    assert b.ids[..|b.ids|] == b.ids;
    forall c: Buf | c in out + multiset{b}
      ensures Shaped(c) && ChainOf(desc', c)
    {
      if c != b {
        assert c in out;
        forall i | 0 <= i < |c.ids|
          ensures c.ids[i] !in b.ids
        {
          assert home[c.ids[i]] == InBuf(c, i);
          assert forall j :: 0 <= j < |b.ids| ==> b.ids[j] == free[j];
        }
        WriteKeepsChain(desc, desc', c);
      }
    }
  }

  lemma {:induction false} AcceptTokens(n: nat, tokens: seq<Opaque>, free: seq<nat>, out: multiset<Buf>, home: seq<Home>, b: Buf)
    requires Partition(n, free, out, home) && STokensOk(tokens, home) && |tokens| == n
    requires Shaped(b) && |b.ids| <= |free| && b.ids == free[..|b.ids|]
    ensures b.ids[0] < n && STokensOk(tokens[b.ids[0] := Ptr(b.token)], TakeHome(home, b, |b.ids|))
  {
    assert b.ids[0] == free[0] && home[free[0]] == InFree(0);
    forall x | 0 <= x < n
      ensures var h := TakeHome(home, b, |b.ids|)[x];
              tokens[b.ids[0] := Ptr(b.token)][x] == if h.InBuf? && h.pos == 0 then Ptr(h.buf.token) else Null
    {
      assert AtHome(x, free, out, home[x]);
    }
  }

  lemma {:induction false} SAcceptKeepsIds(r: Split, free: seq<nat>, out: multiset<Buf>, home: seq<Home>, b: Buf)
    requires SplitWellFormed(r) && SIdsOk(r.num, r.desc, r.tokens, r.firstUnused, free, out, home) && |free| == r.numUnused
    requires Shaped(b) && |b.ids| <= |free| && b.ids == free[..|b.ids|]
    ensures b !in out
    ensures (forall i :: 0 <= i < |b.ids| ==> b.ids[i] < r.num) && SplitWellFormed(SAccept(r, b))
    ensures var r' := SAccept(r, b);
            SIdsOk(r.num, r'.desc, r'.tokens, r'.firstUnused, free[|b.ids|..], out + multiset{b}, TakeHome(home, b, |b.ids|))
  {
    TakenIdsDistinct(r.num, free, out, home, |b.ids|);
    TakeKeepsPartition(r.num, free, out, home, b);
    WriteMakesChain(r.desc, free, b);
    WriteKeepsChains(r.num, r.desc, free, out, home, b);
    AcceptTokens(r.num, r.tokens, free, out, home, b);
  }

  // ---------------------------------------------------------------- reaping

  /** Following NEXT from a buffer's head visits exactly its chain. */
  lemma {:induction false} FollowsChain(desc: seq<SDesc>, b: Buf, j: nat, fuel: nat)
    requires NextInRange(desc) && Shaped(b) && ChainOf(desc, b) && j < |b.ids| <= j + fuel
    ensures Ends(desc, b.ids[j], fuel) && Follow(desc, b.ids[j], fuel) == b.ids[j..]
    decreases fuel
  {
    assert desc[b.ids[j]] == SDescOf(b, j, desc[b.ids[j]].next);
    if j + 1 < |b.ids| {
      assert desc[b.ids[j]].next == b.ids[j + 1];
      FollowsChain(desc, b, j + 1, fuel - 1);
      assert b.ids[j..] == [b.ids[j]] + b.ids[j + 1..];
    } else {
      assert b.ids[j..] == [b.ids[j]];
    }
  }

  /** A device that walks the chain from its head reads the caller's list, element by element. */
  lemma {:induction false} WalkReadsList(desc: seq<SDesc>, b: Buf, j: nat, fuel: nat)
    requires NextInRange(desc) && Shaped(b) && ChainOf(desc, b) && j < |b.ids| <= j + fuel
    ensures var w := SWalk(desc, b.ids[j], fuel);
            && |w| == |b.ids| - j
            && (forall i :: j <= i < |b.ids| ==> w[i - j] == desc[b.ids[i]])
    decreases fuel
  {
    assert desc[b.ids[j]] == SDescOf(b, j, desc[b.ids[j]].next);
    if j + 1 < |b.ids| {
      assert desc[b.ids[j]].next == b.ids[j + 1];
      WalkReadsList(desc, b, j + 1, fuel - 1);
    }
  }

  /** The descriptor table with the chain `ids` in front of the free list. */
  function GiveBack(desc: seq<SDesc>, last: nat, first: nat): seq<SDesc>
    requires last < |desc|
  {
    desc[last := desc[last].(flags := SFlags(true, false, false), next := first)]
  }

  lemma {:induction false} GiveBackLinks(n: nat, desc: seq<SDesc>, free: seq<nat>, out: multiset<Buf>, home: seq<Home>, b: Buf, first: nat)
    requires Partition(n, free, out, home) && b in out && |desc| == n && SLinked(desc, free) && ChainOf(desc, b)
    requires free != [] ==> free[0] == first
    ensures SLinked(GiveBack(desc, b.ids[|b.ids| - 1], first), b.ids + free)
  {
    var desc', free' := GiveBack(desc, b.ids[|b.ids| - 1], first), b.ids + free;
    assert home[b.ids[|b.ids| - 1]] == InBuf(b, |b.ids| - 1);
    forall i | 0 <= i < |free'|
      ensures free'[i] < n && (i < |free'| - 1 ==> desc'[free'[i]].next == free'[i + 1])
    {
      if i < |b.ids| {
        assert free'[i] == b.ids[i] && home[b.ids[i]] == InBuf(b, i);
      } else {
        assert free'[i] == free[i - |b.ids|] && home[free'[i]] == InFree(i - |b.ids|);
      }
    }
  }

  lemma {:induction false} GiveBackChains(n: nat, desc: seq<SDesc>, free: seq<nat>, out: multiset<Buf>, home: seq<Home>, b: Buf, first: nat)
    requires Partition(n, free, out, home) && ChainsOk(desc, out) && b in out && |desc| == n
    ensures b.ids[|b.ids| - 1] < n && ChainsOk(GiveBack(desc, b.ids[|b.ids| - 1], first), out - multiset{b})
  {
    var last := b.ids[|b.ids| - 1];
    assert home[last] == InBuf(b, |b.ids| - 1);
    forall c: Buf | c in out - multiset{b}
      ensures Shaped(c) && ChainOf(GiveBack(desc, last, first), c)
    {
      assert c in out && c != b;
      assert forall i :: 0 <= i < |c.ids| ==> home[c.ids[i]] == InBuf(c, i);
      WriteKeepsChain(desc, GiveBack(desc, last, first), c);
    }
  }

  lemma {:induction false} GiveBackTokens(n: nat, tokens: seq<Opaque>, free: seq<nat>, out: multiset<Buf>, home: seq<Home>, b: Buf)
    requires Partition(n, free, out, home) && STokensOk(tokens, home) && b in out && |tokens| == n
    ensures b.ids[0] < n && tokens[b.ids[0]] == Ptr(b.token)
    ensures STokensOk(tokens[b.ids[0] := Null], PutHome(home, b))
  {
    assert home[b.ids[0]] == InBuf(b, 0);
    forall x | 0 <= x < n
      ensures var h := PutHome(home, b)[x];
              tokens[b.ids[0] := Null][x] == if h.InBuf? && h.pos == 0 then Ptr(h.buf.token) else Null
    {
      assert AtHome(x, free, out, home[x]);
    }
  }

  lemma {:induction false} PutKeepsIds(r: Split, free: seq<nat>, out: multiset<Buf>, home: seq<Home>, b: Buf)
    requires SplitWellFormed(r) && SIdsOk(r.num, r.desc, r.tokens, r.firstUnused, free, out, home) && b in out
    requires r.numUnused + |b.ids| <= r.num
    ensures Ends(r.desc, b.ids[0], r.num) && Follow(r.desc, b.ids[0], r.num) == b.ids
    ensures b.ids[0] < r.num && r.tokens[b.ids[0]] == Ptr(b.token)
    ensures SplitWellFormed(PutChain(r, b.ids))
    ensures var r' := PutChain(r, b.ids);
            SIdsOk(r.num, r'.desc, r'.tokens, r'.firstUnused, b.ids + free, out - multiset{b}, PutHome(home, b))
  {
    assert ChainOf(r.desc, b);
    FollowsChain(r.desc, b, 0, r.num);
    assert b.ids[0..] == b.ids;
    PutKeepsPartition(r.num, free, out, home, b);
    GiveBackLinks(r.num, r.desc, free, out, home, b, r.firstUnused);
    GiveBackChains(r.num, r.desc, free, out, home, b, r.firstUnused);
    GiveBackTokens(r.num, r.tokens, free, out, home, b);
    assert PutChain(r, b.ids).desc == GiveBack(r.desc, b.ids[|b.ids| - 1], r.firstUnused);
  }
}
