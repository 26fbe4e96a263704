/** The requests of one transfer, run by a device in any order and even byte by byte, copy the same bytes. */
module BlkCopy {
  import opened BlkPlan
  import opened BlkDevice

  /** One byte copied: where to, where from. */
  datatype Step = Step(to: nat, from: nat)

  /** The bytes one request moves; disk bytes are numbered across sectors. */
  function Steps(r: Request): (ms: seq<Step>)
    ensures |ms| == |r.bytes|
  {
    seq(|r.bytes|, i requires 0 <= i < |r.bytes| =>
      if r.out then Step(SECTOR * r.sector + i, r.bytes[i]) else Step(r.bytes[i], SECTOR * r.sector + i))
  }

  function AllSteps(rs: seq<Request>): seq<Step> {
    if rs == [] then [] else Steps(rs[0]) + AllSteps(rs[1..])
  }

  function Put(dst: nat -> nat, to: nat, byte: nat): nat -> nat {
    (a: nat) => if a == to then byte else dst(a)
  }

  /** `dst` after the steps, reading from `src`. */
  function Copy(dst: nat -> nat, src: nat -> nat, ms: seq<Step>): nat -> nat {
    if ms == [] then dst else Copy(Put(dst, ms[0].to, src(ms[0].from)), src, ms[1..])
  }

  // ---------------------------------------------------------------- any order

  /** No two steps write the same byte. */
  predicate WritesOnce(ms: seq<Step>) {
    forall i, j :: 0 <= i < j < |ms| ==> ms[i].to != ms[j].to
  }

  lemma {:induction false} CopyMisses(dst: nat -> nat, src: nat -> nat, ms: seq<Step>, a: nat)
    requires forall i :: 0 <= i < |ms| ==> ms[i].to != a
    ensures Copy(dst, src, ms)(a) == dst(a)
    decreases |ms|
  {
    if ms != [] {
      CopyMisses(Put(dst, ms[0].to, src(ms[0].from)), src, ms[1..], a);
    }
  }

  lemma {:induction false} CopyHits(dst: nat -> nat, src: nat -> nat, ms: seq<Step>, i: nat)
    requires WritesOnce(ms) && i < |ms|
    ensures Copy(dst, src, ms)(ms[i].to) == src(ms[i].from)
    decreases |ms|
  {
    var d := Put(dst, ms[0].to, src(ms[0].from));
    if i == 0 {
      CopyMisses(d, src, ms[1..], ms[0].to);
    } else {
      CopyHits(d, src, ms[1..], i - 1);
    }
  }

  lemma {:induction false} CountOne(ms: seq<Step>, i: nat)
    requires WritesOnce(ms) && i < |ms|
    ensures multiset(ms)[ms[i]] == 1
    decreases |ms|
  {
    assert ms == [ms[0]] + ms[1..];
    if i == 0 {
      assert forall j :: 0 <= j < |ms[1..]| ==> ms[1..][j] != ms[0];
    } else {
      CountOne(ms[1..], i - 1);
    }
  }

  lemma {:induction false} CountTwo(ms: seq<Step>, i: nat, j: nat)
    requires i < j < |ms| && ms[i] == ms[j]
    ensures multiset(ms)[ms[i]] >= 2
  {
    assert ms == ms[..j] + ms[j..];
    assert ms[..j][i] == ms[i] && ms[j..][0] == ms[j];
  }

  lemma {:induction false} PermutedWritesOnce(ms: seq<Step>, flat: seq<Step>)
    requires multiset(ms) == multiset(flat) && WritesOnce(flat)
    ensures WritesOnce(ms)
  {
    forall i, j | 0 <= i < j < |ms|
      ensures ms[i].to != ms[j].to
    {
      assert ms[i] in multiset(flat) && ms[j] in multiset(flat);
      if ms[i].to == ms[j].to {
        var a :| 0 <= a < |flat| && flat[a] == ms[i];
        var b :| 0 <= b < |flat| && flat[b] == ms[j];
        CountOne(flat, a);
        CountTwo(ms, i, j);
      }
    }
  }

  /** Steps that write each byte once give the same result in any order: each target gets its source,
      and nothing else changes. */
  lemma {:induction false} AnyOrderCopies(dst: nat -> nat, src: nat -> nat, ms: seq<Step>, flat: seq<Step>, a: nat)
    requires multiset(ms) == multiset(flat) && WritesOnce(flat)
    ensures forall i :: 0 <= i < |flat| ==> Copy(dst, src, ms)(flat[i].to) == src(flat[i].from)
    ensures (forall i :: 0 <= i < |flat| ==> flat[i].to != a) ==> Copy(dst, src, ms)(a) == dst(a)
  {
    PermutedWritesOnce(ms, flat);
    forall i | 0 <= i < |flat|
      ensures Copy(dst, src, ms)(flat[i].to) == src(flat[i].from)
    {
      assert flat[i] in multiset(ms);
      var j :| 0 <= j < |ms| && ms[j] == flat[i];
      CopyHits(dst, src, ms, j);
    }
    if forall i :: 0 <= i < |flat| ==> flat[i].to != a {
      forall i | 0 <= i < |ms|
        ensures ms[i].to != a
      {
        assert ms[i] in multiset(flat);
      }
      CopyMisses(dst, src, ms, a);
    }
  }

  lemma {:induction false} StepsAppend(rs: seq<Request>, qs: seq<Request>)
    ensures AllSteps(rs + qs) == AllSteps(rs) + AllSteps(qs)
    decreases |rs|
  {
    if rs == [] {
      assert rs + qs == qs;
    } else {
      assert (rs + qs)[1..] == rs[1..] + qs;
      StepsAppend(rs[1..], qs);
      assert Steps(rs[0]) + (AllSteps(rs[1..]) + AllSteps(qs)) == (Steps(rs[0]) + AllSteps(rs[1..])) + AllSteps(qs);
    }
  }

  lemma {:induction false} TakeOut(qs: seq<Request>, i: nat)
    requires i < |qs|
    ensures multiset(qs[..i] + qs[i + 1..]) == multiset(qs) - multiset{qs[i]}
    ensures multiset(AllSteps(qs)) == multiset(Steps(qs[i])) + multiset(AllSteps(qs[..i] + qs[i + 1..]))
  {
    var one := [qs[i]];
    assert qs == qs[..i] + one + qs[i + 1..];
    assert one[1..] == [];
    assert AllSteps(one) == Steps(qs[i]) + AllSteps(one[1..]);
    StepsAppend(qs[..i] + one, qs[i + 1..]);
    StepsAppend(qs[..i], one);
    StepsAppend(qs[..i], qs[i + 1..]);
  }

  lemma {:induction false} TakeFirst(rs: seq<Request>)
    requires rs != []
    ensures multiset(rs[1..]) == multiset(rs) - multiset{rs[0]}
    ensures multiset(AllSteps(rs)) == multiset(Steps(rs[0])) + multiset(AllSteps(rs[1..]))
  {
    assert rs == [rs[0]] + rs[1..];
  }

  lemma {:induction false} FindRequest(qs: seq<Request>, r: Request) returns (rest: seq<Request>)
    requires r in multiset(qs)
    ensures multiset(rest) == multiset(qs) - multiset{r}
    ensures multiset(AllSteps(qs)) == multiset(Steps(r)) + multiset(AllSteps(rest))
  {
    var i :| 0 <= i < |qs| && qs[i] == r;
    TakeOut(qs, i);
    rest := qs[..i] + qs[i + 1..];
  }

  lemma {:induction false} EmptyIsEmpty<T>(qs: seq<T>)
    requires multiset(qs) == multiset{}
    ensures qs == []
  {
    assert |multiset(qs)| == |qs|;
  }

  /** Requests in another order make the same steps in another order. */
  lemma {:induction false} PermutedSteps(rs: seq<Request>, qs: seq<Request>)
    requires multiset(rs) == multiset(qs)
    ensures multiset(AllSteps(rs)) == multiset(AllSteps(qs))
    decreases |rs|
  {
    if rs == [] {
      EmptyIsEmpty(qs);
    } else {
      assert rs[0] in multiset(rs);
      TakeFirst(rs);
      var rest := FindRequest(qs, rs[0]);
      PermutedSteps(rs[1..], rest);
    }
  }

  // ---------------------------------------------------------------- the whole transfer

  /** What sector `j` of the transfer is to move. */
  function SectorRequest(x: Job, start: nat, j: nat): Request {
    Request(x.out, start + j, PhysBytes(x.frame, x.sgs, Place(0, SECTOR * j), SECTOR))
  }

  /** One flat copy between the sectors from `start` on and the buffers laid end to end. */
  function FlatSteps(x: Job, start: nat, sectors: nat): (ms: seq<Step>)
    ensures |ms| == SECTOR * sectors
    ensures forall i :: 0 <= i < |ms| ==> ms[i] == FlatStep(x, start, i)
  {
    seq(SECTOR * sectors, i requires 0 <= i < SECTOR * sectors => FlatStep(x, start, i))
  }

  function FlatStep(x: Job, start: nat, i: nat): Step {
    var d, m := SECTOR * start + i, Phys(x.frame, ByteAt(x.sgs, 0, i));
    if x.out then Step(d, m) else Step(m, d)
  }

  function Requests(x: Job, start: nat, sectors: nat): (rs: seq<Request>)
    ensures |rs| == sectors && forall j :: 0 <= j < sectors ==> rs[j] == SectorRequest(x, start, j)
  {
    seq(sectors, j requires 0 <= j < sectors => SectorRequest(x, start, j))
  }

  lemma {:induction false} SectorSteps(x: Job, start: nat, j: nat)
    ensures var ms := Steps(SectorRequest(x, start, j));
            |ms| == SECTOR && forall i :: 0 <= i < SECTOR ==> ms[i] == FlatStep(x, start, SECTOR * j + i)
  {
    var r := SectorRequest(x, start, j);
    forall i | 0 <= i < SECTOR
      ensures Steps(r)[i] == FlatStep(x, start, SECTOR * j + i)
    {
      assert r.bytes[i] == PhysAt(x.frame, x.sgs, Place(0, SECTOR * j), i);
    }
  }

  /** The sectors' requests, one after the other, are the flat copy. */
  lemma {:induction false} RequestsAreFlat(x: Job, start: nat, sectors: nat)
    ensures AllSteps(Requests(x, start, sectors)) == FlatSteps(x, start, sectors)
    decreases sectors
  {
    if sectors > 0 {
      var rs, last := Requests(x, start, sectors - 1), SectorRequest(x, start, sectors - 1);
      RequestsAreFlat(x, start, sectors - 1);
      assert Requests(x, start, sectors) == rs + [last];
      StepsAppend(rs, [last]);
      assert [last][1..] == [];
      assert AllSteps([last]) == Steps(last) + AllSteps([last][1..]);
      SectorSteps(x, start, sectors - 1);
    }
  }

  /** Distinct bytes of the request lie in distinct places of physical memory. */
  ghost predicate NoAliases(x: Job, n: nat) {
    forall i, j :: 0 <= i < j < n ==> Phys(x.frame, ByteAt(x.sgs, 0, i)) != Phys(x.frame, ByteAt(x.sgs, 0, j))
  }

  lemma {:induction false} FlatWritesOnce(x: Job, start: nat, sectors: nat)
    requires !x.out ==> NoAliases(x, SECTOR * sectors)
    ensures WritesOnce(FlatSteps(x, start, sectors))
  {
  }

  /** Whatever order a device runs the sectors' requests in: byte `i` of the buffers and byte `i` of the
      sectors are equal afterwards, and nothing else of the target changed. For a read, `dst` is memory
      and the buffers must not overlap in it. */
  lemma {:induction false} TransferIsFlatCopy(x: Job, start: nat, sectors: nat, rs: seq<Request>,
                                              dst: nat -> nat, src: nat -> nat, a: nat)
    requires multiset(rs) == multiset(Requests(x, start, sectors))
    requires !x.out ==> NoAliases(x, SECTOR * sectors)
    ensures var after := Copy(dst, src, AllSteps(rs));
            && (forall i :: 0 <= i < SECTOR * sectors ==>
                  after(FlatStep(x, start, i).to) == src(FlatStep(x, start, i).from))
            && ((forall i :: 0 <= i < SECTOR * sectors ==> FlatStep(x, start, i).to != a) ==> after(a) == dst(a))
  {
    var flat := FlatSteps(x, start, sectors);
    PermutedSteps(rs, Requests(x, start, sectors));
    RequestsAreFlat(x, start, sectors);
    FlatWritesOnce(x, start, sectors);
    AnyOrderCopies(dst, src, AllSteps(rs), flat, a);
    forall i | 0 <= i < SECTOR * sectors
      ensures Copy(dst, src, AllSteps(rs))(FlatStep(x, start, i).to) == src(FlatStep(x, start, i).from)
    {
      assert flat[i] == FlatStep(x, start, i);
    }
    if forall i :: 0 <= i < SECTOR * sectors ==> FlatStep(x, start, i).to != a {
      assert forall i :: 0 <= i < |flat| ==> flat[i].to != a;
    }
  }
}
