/** In-flight buffers, and the ledger that says which list owns each descriptor id.
    Both ring formats keep their free list and their in-flight chains in this ledger. */
module Ledger {

  datatype Option<+T> = None | Some(value: T)

  /** One element of a scatter/gather list. */
  datatype Sg = Sg(addr: nat, len: nat)

  /** An accepted buffer: the caller's token and list, the physical address of its indirect table
      if it has one, and the descriptor ids it holds (the head first). */
  datatype Buf = Buf(token: nat, sg: seq<Sg>, out: nat, table: Option<nat>, ids: seq<nat>)

  /** A buffer with an indirect table holds one descriptor, any other one descriptor per element. */
  predicate Shaped(b: Buf) {
    && |b.sg| >= 1 && b.out <= |b.sg|
    && |b.ids| == (if b.table.Some? then 1 else |b.sg|)
  }

  /** Where a descriptor id is: at a place on the free list, or at a place in a buffer's chain. */
  datatype Home = InFree(pos: nat) | InBuf(buf: Buf, pos: nat)

  /** Every id below `n` is at exactly one place of exactly one list. */
  ghost predicate Partition(n: nat, free: seq<nat>, out: multiset<Buf>, home: seq<Home>) {
    && |home| == n
    && (forall k :: 0 <= k < |free| ==> free[k] < n && home[free[k]] == InFree(k))
    && (forall b: Buf, k :: b in out && 0 <= k < |b.ids| ==> b.ids[k] < n && home[b.ids[k]] == InBuf(b, k))
    && (forall x :: 0 <= x < n ==> AtHome(x, free, out, home[x]))
    && (forall b: Buf :: b in out ==> out[b] == 1 && Shaped(b))
  }

  ghost predicate AtHome(x: nat, free: seq<nat>, out: multiset<Buf>, h: Home) {
    match h
    case InFree(k) => k < |free| && free[k] == x
    case InBuf(b, k) => b in out && k < |b.ids| && b.ids[k] == x
  }

  /** The first `k` free ids become the chain of `b`. */
  ghost function TakeHome(home: seq<Home>, b: Buf, k: nat): seq<Home> {
    seq(|home|, x requires 0 <= x < |home| =>
      match home[x]
      case InFree(p) => if p < k then InBuf(b, p) else InFree(p - k)
      case InBuf(_, _) => home[x])
  }

  /** The chain of `b` goes to the front of the free list. */
  ghost function PutHome(home: seq<Home>, b: Buf): seq<Home> {
    seq(|home|, x requires 0 <= x < |home| =>
      match home[x]
      case InFree(p) => InFree(p + |b.ids|)
      case InBuf(c, p) => if c == b then InFree(p) else home[x])
  }

  lemma {:induction false} TakeAtHome(n: nat, free: seq<nat>, out: multiset<Buf>, home: seq<Home>, b: Buf, x: nat)
    requires Partition(n, free, out, home) && x < n
    requires |b.ids| <= |free| && b.ids == free[..|b.ids|]
    ensures AtHome(x, free[|b.ids|..], out + multiset{b}, TakeHome(home, b, |b.ids|)[x])
  {
    assert AtHome(x, free, out, home[x]);
  }

  lemma {:induction false} TakeOwned(n: nat, free: seq<nat>, out: multiset<Buf>, home: seq<Home>, b: Buf, c: Buf, i: nat)
    requires Partition(n, free, out, home) && c in out + multiset{b} && i < |c.ids|
    requires |b.ids| <= |free| && b.ids == free[..|b.ids|]
    ensures c.ids[i] < n && TakeHome(home, b, |b.ids|)[c.ids[i]] == InBuf(c, i)
  {
    if c == b {
      assert b.ids[i] == free[i];
    }
  }

  lemma {:induction false} TakeKeepsPartition(n: nat, free: seq<nat>, out: multiset<Buf>, home: seq<Home>, b: Buf)
    requires Partition(n, free, out, home)
    requires Shaped(b) && |b.ids| <= |free| && b.ids == free[..|b.ids|]
    ensures b !in out
    ensures Partition(n, free[|b.ids|..], out + multiset{b}, TakeHome(home, b, |b.ids|))
  {
    assert home[free[0]] == InFree(0) && b.ids[0] == free[0];
    var k := |b.ids|;
    var free', out', home' := free[k..], out + multiset{b}, TakeHome(home, b, k);
    assert forall i :: 0 <= i < |free'| ==> free'[i] == free[k + i];
    forall c: Buf, i | c in out' && 0 <= i < |c.ids|
      ensures c.ids[i] < n && home'[c.ids[i]] == InBuf(c, i)
    {
      TakeOwned(n, free, out, home, b, c, i);
    }
    forall x | 0 <= x < n
      ensures AtHome(x, free', out', home'[x])
    {
      TakeAtHome(n, free, out, home, b, x);
    }
  }

  lemma {:induction false} PutKeepsPartition(n: nat, free: seq<nat>, out: multiset<Buf>, home: seq<Home>, b: Buf)
    requires Partition(n, free, out, home)
    requires b in out
    ensures Partition(n, b.ids + free, out - multiset{b}, PutHome(home, b))
  {
    var free', out', home' := b.ids + free, out - multiset{b}, PutHome(home, b);
    forall i | 0 <= i < |free'|
      ensures free'[i] < n && home'[free'[i]] == InFree(i)
    {
      if i < |b.ids| {
        assert free'[i] == b.ids[i];
      } else {
        assert free'[i] == free[i - |b.ids|];
      }
    }
    forall x | 0 <= x < n
      ensures AtHome(x, free', out', home'[x])
    {
      PutAtHome(n, free, out, home, b, x);
    }
  }

  lemma {:induction false} PutAtHome(n: nat, free: seq<nat>, out: multiset<Buf>, home: seq<Home>, b: Buf, x: nat)
    requires Partition(n, free, out, home) && b in out && x < n
    ensures AtHome(x, b.ids + free, out - multiset{b}, PutHome(home, b)[x])
  {
    assert AtHome(x, free, out, home[x]);
  }

  /** Two chains of one ledger share no id, no chain repeats one, and none holds a free id. */
  lemma {:induction false} ListsAreDisjoint(n: nat, free: seq<nat>, out: multiset<Buf>, home: seq<Home>)
    requires Partition(n, free, out, home)
    ensures forall i, j :: 0 <= i < j < |free| ==> free[i] != free[j]
    ensures forall b: Buf, i, j :: b in out && 0 <= i < j < |b.ids| ==> b.ids[i] != b.ids[j]
    ensures forall b: Buf, c: Buf, i, j ::
              b in out && c in out && 0 <= i < |b.ids| && 0 <= j < |c.ids| && b.ids[i] == c.ids[j] ==> b == c
    ensures forall b: Buf, i, j :: b in out && 0 <= i < |b.ids| && 0 <= j < |free| ==> b.ids[i] != free[j]
    ensures forall x :: 0 <= x < n ==> x in free || exists b: Buf :: b in out && x in b.ids
  {
    forall x | 0 <= x < n
      ensures x in free || exists b: Buf :: b in out && x in b.ids
    {
      assert AtHome(x, free, out, home[x]);
    }
  }

  /** Descriptors held by a list of buffers. */
  function Total(s: seq<Buf>): nat {
    if s == [] then 0 else |s[0].ids| + Total(s[1..])
  }

  /** Descriptors held by the first `j` buffers of the list. */
  function Start(s: seq<Buf>, j: nat): nat
    requires j <= |s|
  {
    if j == 0 then 0 else |s[0].ids| + Start(s[1..], j - 1)
  }

  lemma {:induction false} TotalAppend(s: seq<Buf>, t: seq<Buf>)
    ensures Total(s + t) == Total(s) + Total(t)
  {
    if s == [] {
      assert s + t == t;
    } else {
      assert (s + t)[1..] == s[1..] + t;
      TotalAppend(s[1..], t);
    }
  }

  lemma {:induction false} TotalPush(s: seq<Buf>, b: Buf)
    ensures Total(s + [b]) == Total(s) + |b.ids|
  {
    TotalAppend(s, [b]);
    assert Total([b]) == |b.ids| + Total([b][1..]);
  }

  lemma {:induction false} TotalRemove(s: seq<Buf>, i: nat)
    requires i < |s|
    ensures Total(s) == Total(s[..i] + s[i + 1..]) + |s[i].ids|
  {
    TotalAppend(s[..i], s[i + 1..]);
    TotalAppend(s[..i], s[i..]);
    assert s == s[..i] + s[i..];
    assert s[i..][1..] == s[i + 1..];
  }

  lemma {:induction false} StartBound(s: seq<Buf>, j: nat)
    requires j < |s|
    ensures Start(s, j) + |s[j].ids| <= Total(s)
  {
    if j > 0 {
      StartBound(s[1..], j - 1);
    }
  }

  lemma {:induction false} StartAppend(s: seq<Buf>, t: seq<Buf>, j: nat)
    requires j <= |s|
    ensures Start(s + t, j) == Start(s, j)
    ensures j == |s| ==> Start(s, j) == Total(s)
  {
    if j > 0 {
      assert (s + t)[1..] == s[1..] + t;
      StartAppend(s[1..], t, j - 1);
    } else {
      assert |s| == 0 ==> Total(s) == 0;
    }
  }

  /** Every buffer holds a descriptor, so no more buffers than descriptors are in flight. */
  lemma {:induction false} CountBound(s: seq<Buf>)
    requires forall b :: b in s ==> |b.ids| >= 1
    ensures |s| <= Total(s)
  {
    if s != [] {
      assert s[0] in s;
      assert forall b :: b in s[1..] ==> b in s;
      CountBound(s[1..]);
    }
  }
}
