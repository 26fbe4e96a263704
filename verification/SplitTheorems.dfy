/** What the invariant of a split queue means for the driver and for the device. */
module SplitTheorems {
  import opened Integers
  import opened Ledger
  import opened EventIndex
  import opened PackedRing
  import opened PackedTheorems
  import opened SplitRing
  import opened SplitInvariant
  import opened SplitIds

  lemma {:induction false} CountFits(r: Split, devAvail: nat, g: SGhost)
    requires RingSize(r.num) && IndicesOk(r, devAvail, g)
    ensures r.lastUsed == Low16(g.lastAbs) && r.availIdx == Low16(g.lastAbs + Count(g))
    ensures Count(g) <= r.num < U16
  {
  }

  /** The available index runs ahead of the driver's used index by exactly the buffers in the queue,
      and there are never more of them than ring slots. */
  lemma {:induction false} IndexDistanceIsCount(r: Split, devAvail: nat, g: SGhost)
    requires RingSize(r.num) && IndicesOk(r, devAvail, g)
    ensures Distance16(r.availIdx, r.lastUsed) == Count(g) <= r.num
  {
    CountFits(r, devAvail, g);
    DistanceOfLow16(g.lastAbs, Count(g));
  }

  // ---------------------------------------------------------------- teardown

  /** What teardown relies on: the descriptors are shared out between the free list and the buffers `q`. */
  ghost predicate SHolding(r: Split, free: seq<nat>, q: seq<Buf>, home: seq<Home>) {
    && SplitWellFormed(r)
    && SIdsOk(r.num, r.desc, r.tokens, r.firstUnused, free, multiset(q), home)
    && |free| == r.numUnused && r.numUnused + Total(q) == r.num
  }

  lemma {:induction false} FirstTokenIsHead(r: Split, free: seq<nat>, q: seq<Buf>, home: seq<Home>) returns (i: nat)
    requires SHolding(r, free, q, home) && q != []
    ensures i < |q| && Shaped(q[i]) && FirstOpaque(r.tokens, 0) == q[i].ids[0] < r.num
    ensures r.tokens[q[i].ids[0]] == Ptr(q[i].token)
  {
    var x := FirstOpaque(r.tokens, 0);
    assert q[0] in multiset(q);
    assert home[q[0].ids[0]] == InBuf(q[0], 0);
    assert x < r.num;
    assert AtHome(x, free, multiset(q), home[x]);
    var b := home[x].buf;
    i :| 0 <= i < |q| && q[i] == b;
  }

  lemma {:induction false} PutHolds(r: Split, free: seq<nat>, q: seq<Buf>, home: seq<Home>, i: nat)
    requires SHolding(r, free, q, home) && i < |q|
    ensures Shaped(q[i]) && (forall j :: 0 <= j < |q[i].ids| ==> q[i].ids[j] < r.num)
    ensures Ends(r.desc, q[i].ids[0], r.num) && Follow(r.desc, q[i].ids[0], r.num) == q[i].ids
    ensures var r' := PutChain(r, q[i].ids).(availIdx := Pred16(r.availIdx));
            SHolding(r', q[i].ids + free, q[..i] + q[i + 1..], PutHome(home, q[i]))
  {
    WithoutOne(q, i);
    PutKeepsIds(r, free, multiset(q), home, q[i]);
  }

  /** One call of `detach_unused_buf` returns the token of a buffer in the queue and frees its chain. */
  lemma {:induction false} SDetachStep(r: Split, free: seq<nat>, q: seq<Buf>, home: seq<Home>)
    returns (i: nat, r': Split, free': seq<nat>, q': seq<Buf>, home': seq<Home>)
    requires SHolding(r, free, q, home) && q != []
    ensures i < |q| && q' == q[..i] + q[i + 1..]
    ensures DetachReady(r) && SDetachUnused(r) == (r', Ptr(q[i].token))
    ensures SHolding(r', free', q', home')
  {
    i := FirstTokenIsHead(r, free, q, home);
    PutHolds(r, free, q, home, i);
    r', free', q', home' := SDetachUnused(r).0, q[i].ids + free, q[..i] + q[i + 1..], PutHome(home, q[i]);
  }

  lemma {:induction false} NothingLeft(r: Split, free: seq<nat>, home: seq<Home>)
    requires SHolding(r, free, [], home)
    ensures DetachReady(r) && SDetachUnused(r) == (r, Null) && r.numUnused == r.num
  {
    forall x | 0 <= x < r.num
      ensures r.tokens[x] == Null
    {
      assert AtHome(x, free, multiset([]), home[x]);
    }
  }

  /** Calling `detach_unused_buf` on `r` until it returns NULL yields `tokens` and leaves `r'`. */
  ghost predicate IsSDrain(r: Split, tokens: seq<nat>, r': Split)
    requires SplitWellFormed(r)
    decreases |tokens|
  {
    && DetachReady(r)
    && if tokens == [] then SDetachUnused(r) == (r, Null) && r' == r
       else
         var (r1, token) := SDetachUnused(r);
         token == Ptr(tokens[0]) && SplitWellFormed(r1) && IsSDrain(r1, tokens[1..], r')
  }

  /** Teardown returns the token of every buffer in the queue once, then NULL with every descriptor free. */
  lemma {:induction false} SDrainReturnsAll(r: Split, free: seq<nat>, q: seq<Buf>, home: seq<Home>)
    returns (tokens: seq<nat>, r': Split)
    requires SHolding(r, free, q, home)
    ensures IsSDrain(r, tokens, r') && multiset(tokens) == Tokens(q) && r'.numUnused == r'.num
    decreases |q|
  {
    if q == [] {
      NothingLeft(r, free, home);
      tokens, r' := [], r;
    } else {
      var i, r1, free1, q1, home1 := SDetachStep(r, free, q, home);
      var rest;
      rest, r' := SDrainReturnsAll(r1, free1, q1, home1);
      TokensRemove(q, i);
      tokens := [q[i].token] + rest;
      assert tokens[1..] == rest;
    }
  }

  lemma {:induction false} StepsBack(p: nat)
    ensures Pred16(Low16(p + 1)) == Low16(p)
  {
    NextLow16(p);
  }

  /** Each token takes the available index one back; the driver's used index stays. */
  lemma {:induction false} DrainMovesIndex(r: Split, tokens: seq<nat>, r': Split, p: nat)
    requires SplitWellFormed(r) && IsSDrain(r, tokens, r') && r.availIdx == Low16(p + |tokens|)
    ensures r'.availIdx == Low16(p) && r'.lastUsed == r.lastUsed
    decreases |tokens|
  {
    if tokens != [] {
      var r1 := SDetachUnused(r).0;
      StepsBack(p + |tokens| - 1);
      DrainMovesIndex(r1, tokens[1..], r', p);
    }
  }

  lemma {:induction false} TokensCount(q: seq<Buf>)
    ensures |Tokens(q)| == |q|
  {
    if q != [] {
      TokensCount(q[1..]);
    }
  }

  /** A queue of `q` is drained back to position `p`, where the driver's used index is. */
  lemma {:induction false} DrainsBack(r: Split, free: seq<nat>, q: seq<Buf>, home: seq<Home>, p: nat)
    returns (tokens: seq<nat>, r': Split)
    requires SHolding(r, free, q, home) && r.lastUsed == Low16(p) && r.availIdx == Low16(p + |q|)
    ensures IsSDrain(r, tokens, r') && r'.numUnused == r'.num && r'.availIdx == r'.lastUsed
    ensures multiset(tokens) == Tokens(q)
  {
    tokens, r' := SDrainReturnsAll(r, free, q, home);
    TokensCount(q);
    assert |tokens| == |multiset(tokens)|;
    DrainMovesIndex(r, tokens, r', p);
  }

  lemma {:induction false} FlightIsList(g: SGhost)
    ensures var q := g.done + g.fetched + g.pending;
            && multiset(q) == SInFlight(g) && Total(q) == Total(g.done) + Total(g.fetched) + Total(g.pending)
            && |q| == Count(g)
  {
    TotalAppend(g.done + g.fetched, g.pending);
    TotalAppend(g.done, g.fetched);
  }

  /** Whatever state a run has reached, teardown ends and returns each buffer in the queue once; then nothing is
      between the available index and the driver's used index. */
  lemma {:induction false} STeardownDrains(s: SSystem) returns (tokens: seq<nat>, r': Split)
    requires SInv(s)
    ensures IsSDrain(s.r, tokens, r') && r'.numUnused == r'.num && r'.availIdx == r'.lastUsed
    ensures multiset(tokens) == Tokens(s.g.done + s.g.fetched + s.g.pending)
  {
    tokens, r' := DrainsFlight(s.r, s.devAvail, s.g);
  }

  lemma {:induction false} DrainsFlight(r: Split, devAvail: nat, g: SGhost) returns (tokens: seq<nat>, r': Split)
    requires SplitWellFormed(r) && IndicesOk(r, devAvail, g)
    requires SIdsOk(r.num, r.desc, r.tokens, r.firstUnused, g.free, SInFlight(g), g.home)
    ensures IsSDrain(r, tokens, r') && r'.numUnused == r'.num && r'.availIdx == r'.lastUsed
    ensures multiset(tokens) == Tokens(g.done + g.fetched + g.pending)
  {
    FlightIsList(g);
    tokens, r' := DrainsBack(r, g.free, g.done + g.fetched + g.pending, g.home, g.lastAbs);
  }
}
