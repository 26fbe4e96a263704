/** The block driver's request engine, with its queue as fields and arrays changed in place, against a
    device that completes the requests of a batch in an order of its own. */
module BlkEngine {
  import opened Integers
  import opened RingMath
  import opened Ledger
  import opened SplitRing
  import opened BlkPlan
  import opened BlkDevice
  import opened BlkCopy

  datatype Status =
    Success | ReadFault | WriteFault | InvalidParameter | SectorNotFound | WriteProtect | GeneralFailure

  // ---------------------------------------------------------------- locked pages

  /** From the start of its first page to the end of the buffer. */
  function PageSpan(sg: Sg): nat { sg.addr % PAGE + sg.len }

  /** How many pages a buffer touches. */
  function PagesOf(sg: Sg): nat { (PageSpan(sg) + PAGE - 1) / PAGE }

  /** `k` rows of `m` entries. */
  function Row(m: nat, k: nat): nat { k * m }

  /** The page numbers of the first `k` buffers are in their rows. */
  ghost predicate Locked(frame: nat -> nat, sgs: seq<Sg>, pfns: seq<nat>, m: nat, k: nat)
    requires k <= |sgs|
  {
    forall i: nat, j: nat :: i < k && j < PagesOf(sgs[i]) ==> EntryOk(frame, sgs[i], pfns, m, i, j)
  }

  ghost predicate EntryOk(frame: nat -> nat, sg: Sg, pfns: seq<nat>, m: nat, i: nat, j: nat) {
    var at := Row(m, i) + j;
    at < |pfns| && pfns[at] == frame(sg.addr / PAGE + j) * PAGE
  }

  /** The row width the driver computes leaves room for every page of every buffer. */
  predicate RowsFit(sgs: seq<Sg>, m: nat) {
    forall k :: 0 <= k < |sgs| ==> PageSpan(sgs[k]) / PAGE + 1 <= m
  }

  /** Every byte of a buffer lies in a page of its row, and a place in it names an entry of its row. */
  lemma {:induction false} PageIndex(sg: Sg, pos: nat)
    requires pos <= sg.len
    ensures sg.addr / PAGE <= (sg.addr + pos) / PAGE
    ensures (sg.addr + pos) / PAGE - sg.addr / PAGE <= PageSpan(sg) / PAGE
    ensures pos < sg.len ==> (sg.addr + pos) / PAGE - sg.addr / PAGE < PagesOf(sg)
  {
  }

  lemma {:induction false} PagesFit(sg: Sg)
    ensures PagesOf(sg) <= PageSpan(sg) / PAGE + 1
  {
  }

  lemma {:induction false} RowNext(m: nat, i: nat, k: nat)
    ensures i < k ==> Row(m, i) + m <= Row(m, k)
  {
    Multiples(i, k, m);
  }

  // ---------------------------------------------------------------- plans of a batch

  /** Chain after chain from descriptor 0 on. */
  predicate Chained(plans: seq<Plan>) {
    forall j :: 0 <= j < |plans| ==> ChainedAt(plans, j)
  }

  predicate ChainedAt(plans: seq<Plan>, j: nat)
    requires j < |plans|
  {
    plans[j].head == if j == 0 then 0 else Tail(plans[j - 1]) + 1
  }

  function EndOf(plans: seq<Plan>): nat {
    if plans == [] then 0 else Tail(plans[|plans| - 1]) + 1
  }

  lemma {:induction false} ChainsAscend(plans: seq<Plan>, a: nat, b: nat)
    requires Chained(plans) && a < b < |plans|
    ensures Tail(plans[a]) < plans[b].head
    decreases b
  {
    assert ChainedAt(plans, b);
    if a < b - 1 {
      ChainsAscend(plans, a, b - 1);
    }
  }

  predicate AllFill(plans: seq<Plan>) {
    forall j :: 0 <= j < |plans| ==> FillsAt(plans, j)
  }

  predicate FillsAt(plans: seq<Plan>, j: nat)
    requires j < |plans|
  {
    Fills(plans[j].pieces, SECTOR)
  }

  ghost predicate AllLaid(x: Job, desc: seq<BDesc>, headers: seq<Header>, plans: seq<Plan>) {
    forall j :: 0 <= j < |plans| ==> LaidAt(x, desc, headers, plans, j)
  }

  ghost predicate LaidAt(x: Job, desc: seq<BDesc>, headers: seq<Header>, plans: seq<Plan>, j: nat)
    requires j < |plans|
  {
    Laid(x, desc, headers, plans[j])
  }

  /** `places` are where the sectors of the request begin, and where the last one ends. */
  ghost predicate Grid(sgs: seq<Sg>, places: seq<Place>) {
    && places != [] && places[0] == Place(0, 0)
    && (forall j: nat :: j < |places| - 1 ==> GridStep(sgs, places, j))
  }

  ghost predicate GridStep(sgs: seq<Sg>, places: seq<Place>, j: nat)
    requires j < |places|
  {
    && IsPlace(sgs, places[j]) && SECTOR <= Left(sgs, places[j])
    && j + 1 < |places| && places[j + 1] == After(sgs, places[j], SECTOR)
    && (j + 2 == |places| <==> SECTOR == Left(sgs, places[j]))
  }

  lemma {:induction false} MakeGrid(sgs: seq<Sg>, sectors: nat) returns (places: seq<Place>)
    requires BytesFrom(sgs, 0) == SECTOR * sectors
    ensures |places| == sectors + 1 && Grid(sgs, places)
  {
    places := GridFrom(sgs, Place(0, 0), sectors);
  }

  lemma {:induction false} GridFrom(sgs: seq<Sg>, c: Place, sectors: nat) returns (places: seq<Place>)
    requires IsPlace(sgs, c) && Left(sgs, c) == SECTOR * sectors
    ensures |places| == sectors + 1 && places[0] == c
    ensures forall j: nat :: j < sectors ==> GridStep(sgs, places, j)
    decreases sectors
  {
    if sectors == 0 {
      places := [c];
    } else {
      var rest := GridFrom(sgs, After(sgs, c, SECTOR), sectors - 1);
      places := [c] + rest;
      forall j: nat | j < sectors
        ensures GridStep(sgs, places, j)
      {
        if j > 0 {
          assert GridStep(sgs, rest, j - 1);
        }
      }
    }
  }

  /** Byte `i` after the place of sector number `j` is byte `512 * j + i` of the buffers laid end to end. */
  lemma {:induction false} SectorBytes(sgs: seq<Sg>, places: seq<Place>, j: nat, i: nat)
    requires Grid(sgs, places) && j < |places|
    ensures places[j].k <= |sgs|
    ensures ByteAt(sgs, places[j].k, places[j].pos + i) == ByteAt(sgs, 0, SECTOR * j + i)
    decreases j
  {
    if j > 0 {
      assert GridStep(sgs, places, j - 1);
      AfterKeepsBytes(sgs, places[j - 1], SECTOR, i);
      SectorBytes(sgs, places, j - 1, SECTOR + i);
    }
  }

  /** `p` is sector number `j` cut at its place. */
  predicate IsCut(x: Job, places: seq<Place>, start: nat, p: Plan, j: nat) {
    && j < |places| && IsPlace(x.sgs, places[j]) && SECTOR <= Left(x.sgs, places[j])
    && p.sector == (start + j) % U32
    && p.pieces == Pieces(x.sgs, places[j], SECTOR)
  }

  /** The plans are the sectors from number `first` on. */
  predicate PlansOk(x: Job, places: seq<Place>, start: nat, first: nat, plans: seq<Plan>) {
    forall j :: 0 <= j < |plans| ==> CutAt(x, places, start, first, plans, j)
  }

  predicate CutAt(x: Job, places: seq<Place>, start: nat, first: nat, plans: seq<Plan>, j: nat)
    requires j < |plans|
  {
    IsCut(x, places, start, plans[j], first + j)
  }

  function PlanRequest(x: Job, p: Plan): Request {
    Request(x.out, p.sector, AllBytes(x.frame, x.sgs, p.pieces))
  }

  /** What sector number `j` of a request is to move; sector numbers are 32 bits wide. */
  function Wanted(x: Job, start: nat, j: nat): Request {
    SectorRequest(x, start, j).(sector := (start + j) % U32)
  }

  /** A sector cut at its place moves the bytes it is to move. */
  lemma {:induction false} CutIsWanted(x: Job, places: seq<Place>, start: nat, p: Plan, j: nat)
    requires Grid(x.sgs, places) && IsCut(x, places, start, p, j)
    ensures PlanRequest(x, p) == Wanted(x, start, j)
  {
    var c := places[j];
    PiecesCarryBytes(x.frame, x.sgs, c, SECTOR);
    var a, b := PhysBytes(x.frame, x.sgs, c, SECTOR), PhysBytes(x.frame, x.sgs, Place(0, SECTOR * j), SECTOR);
    forall i | 0 <= i < SECTOR
      ensures a[i] == b[i]
    {
      SectorBytes(x.sgs, places, j, i);
    }
    assert a == b;
  }

  // ---------------------------------------------------------------- the checks

  /** The 32-bit check on the number of bytes is right exactly when buffers and sectors lose the same
      multiple of 2^32 bytes, which is 2^23 sectors. */
  lemma {:induction false} SizeCheckIsExact(bytes: nat, sectors: nat)
    requires bytes % U32 == (sectors * SECTOR) % U32
    ensures bytes == sectors * SECTOR <==> bytes / U32 == sectors / 0x80_0000
  {
    assert sectors * SECTOR / U32 == sectors / 0x80_0000;
  }

  /** Requests the check lets through whose buffers are too small, and too big. */
  lemma {:induction false} SizeCheckMisses()
    ensures var none, sectors := [], 0x80_0000;
            && BytesFrom(none, 0) % U32 == (sectors * SECTOR) % U32 && BytesFrom(none, 0) < sectors * SECTOR
    ensures var big, sectors := [Sg(0, 0x8000_0000), Sg(0, 0x8000_0000), Sg(0, SECTOR)], 1;
            && BytesFrom(big, 0) % U32 == (sectors * SECTOR) % U32 && BytesFrom(big, 0) > sectors * SECTOR
  {
    var big := [Sg(0, 0x8000_0000), Sg(0, 0x8000_0000), Sg(0, SECTOR)];
    assert BytesFrom(big, 3) == 0;
    assert BytesFrom(big, 2) == SECTOR;
    assert BytesFrom(big, 1) == 0x8000_0000 + SECTOR;
    assert BytesFrom(big, 0) == 0x1_0000_0000 + SECTOR;
  }

  /** The 32-bit check on the sector range is right exactly when the range does not wrap. */
  lemma {:induction false} RangeCheckIsExact(start: nat, sectors: nat, disk: nat)
    requires start < U32 && sectors < U32 && disk < U32 && !((start + sectors) % U32 > disk)
    ensures start + sectors <= disk <==> start + sectors < U32
  {
  }

  /** The last sector number there is passes the check on any disk. */
  lemma {:induction false} RangeCheckMisses(disk: nat)
    requires disk < U32
    ensures var start, sectors := 0xFFFF_FFFF, 1; !((start + sectors) % U32 > disk) && start + sectors > disk
  {
  }

  // ---------------------------------------------------------------- a batch in flight

  /** `order` lists the numbers below `n`, each once: the order in which the device completes. */
  ghost predicate Permutes(order: seq<nat>, n: nat) {
    && |order| == n
    && InRange(order, n)
    && (forall i, j :: 0 <= i < j < n ==> Differ(order, i, j))
    && multiset(order) == multiset(Iota(n))
  }

  predicate Differ(order: seq<nat>, i: nat, j: nat)
    requires i < |order| && j < |order|
  {
    order[i] != order[j]
  }

  /** The heads of the plans are in the available ring from position `base` on. */
  ghost predicate HeadsIn(ring: seq<nat>, base: nat, plans: seq<Plan>)
    requires 0 < |ring|
  {
    && |plans| <= |ring|
    && (forall j :: 0 <= j < |plans| ==> HeadAt(ring, base, plans, j))
  }

  ghost predicate HeadAt(ring: seq<nat>, base: nat, plans: seq<Plan>, j: nat)
    requires j < |plans| <= |ring|
  {
    ring[Slot(|ring|, RingSlot(|ring|, base), j)] == plans[j].head
  }

  /** Everything a batch has posted so far: its chains, in order, and their heads. */
  ghost predicate Posted(x: Job, places: seq<Place>, start: nat, first: nat, plans: seq<Plan>,
                         desc: seq<BDesc>, headers: seq<Header>, avail: seq<nat>, base: nat) {
    && 0 < |avail| == |desc|
    && Chained(plans) && AllFill(plans) && 2 * |plans| <= EndOf(plans)
    && PlansOk(x, places, start, first, plans)
    && AllLaid(x, desc, headers, plans)
    && HeadsIn(avail, base, plans)
  }

  ghost predicate SameOutside<T>(was: seq<T>, now: seq<T>, lo: nat, hi: nat) {
    |now| == |was| && forall q :: 0 <= q < |was| && !(lo <= q < hi) ==> now[q] == was[q]
  }

  lemma {:induction false} LaidKept(x: Job, d: seq<BDesc>, h: seq<Header>, desc: seq<BDesc>, headers: seq<Header>,
                                    p: Plan, lo: nat, hi: nat)
    requires Laid(x, d, h, p) && Tail(p) < lo && SameOutside(d, desc, lo, hi) && SameOutside(h, headers, lo, hi)
    ensures Laid(x, desc, headers, p)
  {
    forall q | p.head + 1 <= q < p.head + 1 + |p.pieces|
      ensures DataOk(x, desc[q], p.pieces[q - (p.head + 1)], q)
    {
      assert DataOk(x, d[q], p.pieces[q - (p.head + 1)], q);
    }
  }

  lemma {:induction false} AllLaidGrows(x: Job, plans: seq<Plan>, p: Plan, d: seq<BDesc>, h: seq<Header>,
                                        desc: seq<BDesc>, headers: seq<Header>)
    requires Chained(plans) && AllLaid(x, d, h, plans) && p.head == EndOf(plans) && Laid(x, desc, headers, p)
    requires SameOutside(d, desc, p.head, Tail(p) + 1) && SameOutside(h, headers, p.head, Tail(p) + 1)
    ensures AllLaid(x, desc, headers, plans + [p])
  {
    var all := plans + [p];
    forall j | 0 <= j < |all|
      ensures LaidAt(x, desc, headers, all, j)
    {
      if j < |plans| {
        assert LaidAt(x, d, h, plans, j);
        if j < |plans| - 1 {
          ChainsAscend(plans, j, |plans| - 1);
        }
        LaidKept(x, d, h, desc, headers, plans[j], p.head, Tail(p) + 1);
      }
    }
  }

  lemma {:induction false} HeadsGrow(ring: seq<nat>, base: nat, plans: seq<Plan>, p: Plan)
    requires 0 < |ring| && HeadsIn(ring, base, plans) && |plans| < |ring|
    ensures HeadsIn(ring[Slot(|ring|, RingSlot(|ring|, base), |plans|) := p.head], base, plans + [p])
  {
    var n, u, all := |ring|, RingSlot(|ring|, base), plans + [p];
    var ring' := ring[Slot(n, u, |plans|) := p.head];
    forall j | 0 <= j < |all|
      ensures HeadAt(ring', base, all, j)
    {
      SlotInjective(n, u, j, |plans|);
      if j < |plans| {
        assert HeadAt(ring, base, plans, j);
      }
    }
  }

  lemma {:induction false} ChainGrows(plans: seq<Plan>, p: Plan)
    requires Chained(plans) && AllFill(plans) && 2 * |plans| <= EndOf(plans)
    requires p.head == EndOf(plans) && Fills(p.pieces, SECTOR)
    ensures Chained(plans + [p]) && AllFill(plans + [p]) && 2 * |plans + [p]| <= EndOf(plans + [p])
  {
    var all := plans + [p];
    forall j | 0 <= j < |all|
      ensures ChainedAt(all, j) && FillsAt(all, j)
    {
      if j < |plans| {
        assert ChainedAt(plans, j) && FillsAt(plans, j);
      }
    }
  }

  lemma {:induction false} PlansGrow(x: Job, places: seq<Place>, start: nat, first: nat, plans: seq<Plan>, p: Plan)
    requires PlansOk(x, places, start, first, plans) && IsCut(x, places, start, p, first + |plans|)
    ensures PlansOk(x, places, start, first, plans + [p])
  {
    var all := plans + [p];
    forall j | 0 <= j < |all|
      ensures CutAt(x, places, start, first, all, j)
    {
      if j < |plans| {
        assert CutAt(x, places, start, first, plans, j);
      }
    }
  }

  lemma {:induction false} NothingPosted(x: Job, places: seq<Place>, start: nat, first: nat,
                                         desc: seq<BDesc>, headers: seq<Header>, avail: seq<nat>, base: nat)
    requires 0 < |avail| == |desc| && first < |places|
    ensures Posted(x, places, start, first, [], desc, headers, avail, base) && EndOf([]) == 0
  {
  }

  /** A sector cut at its place and posted behind the others. */
  lemma {:induction false} PostOne(x: Job, places: seq<Place>, start: nat, first: nat, plans: seq<Plan>, p: Plan, base: nat,
                                   d: seq<BDesc>, h: seq<Header>, ring: seq<nat>,
                                   desc: seq<BDesc>, headers: seq<Header>)
    requires Posted(x, places, start, first, plans, d, h, ring, base) && |plans| < |ring|
    requires p.head == EndOf(plans) && Laid(x, desc, headers, p) && IsCut(x, places, start, p, first + |plans|)
    requires SameOutside(d, desc, p.head, Tail(p) + 1) && SameOutside(h, headers, p.head, Tail(p) + 1)
    ensures Posted(x, places, start, first, plans + [p], desc, headers,
                   ring[Slot(|ring|, RingSlot(|ring|, base), |plans|) := p.head], base)
  {
    PiecesFill(x.sgs, places[first + |plans|], SECTOR);
    ChainGrows(plans, p);
    PlansGrow(x, places, start, first, plans, p);
    AllLaidGrows(x, plans, p, d, h, desc, headers);
    HeadsGrow(ring, base, plans, p);
  }

  /** A batch never needs more descriptors than the table has. */
  lemma {:induction false} BatchFits(x: Job, places: seq<Place>, start: nat, first: nat, plans: seq<Plan>,
                                     desc: seq<BDesc>, headers: seq<Header>, avail: seq<nat>, base: nat)
    requires Posted(x, places, start, first, plans, desc, headers, avail, base)
    ensures 2 * |plans| <= EndOf(plans) <= |desc|
  {
    if plans != [] {
      assert LaidAt(x, desc, headers, plans, |plans| - 1);
    }
  }

  /** The used ring names the plans from `reaped` to `done` in completion order. */
  ghost predicate UsedNames(used: seq<nat>, base: nat, plans: seq<Plan>, order: seq<nat>, reaped: nat, done: nat)
    requires 0 < |used|
  {
    && reaped <= done <= |order| == |plans| <= |used| && InRange(order, |plans|)
    && (forall j :: reaped <= j < done ==> NamedAt(used, base, plans, order, j))
  }

  ghost predicate NamedAt(used: seq<nat>, base: nat, plans: seq<Plan>, order: seq<nat>, j: nat)
    requires j < |order| <= |used| && order[j] < |plans|
  {
    used[Slot(|used|, RingSlot(|used|, base), j)] == plans[order[j]].head
  }

  predicate InRange(order: seq<nat>, n: nat) {
    forall i :: 0 <= i < |order| ==> order[i] < n
  }

  /** Each completed and not yet reaped request has its status in its own tail. */
  ghost predicate TailsHold(tails: seq<nat>, plans: seq<Plan>, order: seq<nat>, statuses: seq<nat>, reaped: nat) {
    && |statuses| <= |order| && InRange(order, |plans|)
    && (forall j :: reaped <= j < |statuses| ==> StatusAt(tails, plans, order, statuses, j))
  }

  predicate StatusAt(tails: seq<nat>, plans: seq<Plan>, order: seq<nat>, statuses: seq<nat>, j: nat)
    requires j < |statuses| <= |order| && order[j] < |plans|
  {
    HoldsStatus(tails, plans[order[j]], statuses[j])
  }

  predicate HoldsStatus(tails: seq<nat>, p: Plan, status: nat) {
    Tail(p) < |tails| && tails[Tail(p)] == status
  }

  /** What a device has done with one request: its effect and the status it reported. */
  datatype Report = Report(request: Request, status: nat)

  function Reports(rs: seq<Request>, st: seq<nat>): (r: seq<Report>)
    requires |rs| == |st|
    ensures |r| == |rs| && forall i :: 0 <= i < |r| ==> r[i] == Report(rs[i], st[i])
  {
    seq(|rs|, i requires 0 <= i < |rs| => Report(rs[i], st[i]))
  }

  function RequestsIn(reports: seq<Report>): (rs: seq<Request>)
    ensures |rs| == |reports| && forall i :: 0 <= i < |rs| ==> rs[i] == reports[i].request
  {
    seq(|reports|, i requires 0 <= i < |reports| => reports[i].request)
  }

  predicate AllSucceeded(reports: seq<Report>) {
    forall i :: 0 <= i < |reports| ==> reports[i].status == S_OK
  }

  /** The requests of the plans that `order` picks. */
  function Picked(x: Job, plans: seq<Plan>, order: seq<nat>): (rs: seq<Request>)
    requires InRange(order, |plans|)
    ensures |rs| == |order|
    ensures forall j :: 0 <= j < |order| ==> rs[j] == PlanRequest(x, plans[order[j]])
  {
    seq(|order|, j requires 0 <= j < |order| => PlanRequest(x, plans[order[j]]))
  }

  lemma {:induction false} CompleteUsed(used: seq<nat>, base: nat, plans: seq<Plan>, order: seq<nat>, reaped: nat, done: nat)
    requires 0 < |used| && UsedNames(used, base, plans, order, reaped, done) && done < |plans|
    ensures var slot := Slot(|used|, RingSlot(|used|, base), done);
            UsedNames(used[slot := plans[order[done]].head], base, plans, order, reaped, done + 1)
  {
    var n, u := |used|, RingSlot(|used|, base);
    var used' := used[Slot(n, u, done) := plans[order[done]].head];
    forall j | reaped <= j < done + 1
      ensures NamedAt(used', base, plans, order, j)
    {
      SlotInjective(n, u, j, done);
      if j < done {
        assert NamedAt(used, base, plans, order, j);
      }
    }
  }

  /** The device's status byte is in a tail of its own, so it hides no other request's status. */
  lemma {:induction false} CompleteTails(tails: seq<nat>, plans: seq<Plan>, order: seq<nat>, statuses: seq<nat>, reaped: nat, status: nat)
    requires TailsHold(tails, plans, order, statuses, reaped) && Permutes(order, |plans|) && Chained(plans)
    requires |statuses| < |plans| && Tail(plans[order[|statuses|]]) < |tails|
    ensures TailsHold(tails[Tail(plans[order[|statuses|]]) := status], plans, order, statuses + [status], reaped)
  {
    var done, all := |statuses|, statuses + [status];
    var tails' := tails[Tail(plans[order[done]]) := status];
    forall j | reaped <= j < |all|
      ensures StatusAt(tails', plans, order, all, j)
    {
      if j < done {
        assert StatusAt(tails, plans, order, statuses, j) && Differ(order, j, done);
        if order[j] < order[done] {
          ChainsAscend(plans, order[j], order[done]);
        } else {
          ChainsAscend(plans, order[done], order[j]);
        }
      }
    }
  }

  // ---------------------------------------------------------------- any order, same requests

  lemma {:induction false} IndexCountsOnce(order: seq<nat>, p: nat)
    requires p < |order|
    ensures multiset(order) == multiset(order[..p] + order[p + 1..]) + multiset{order[p]}
  {
    assert order == order[..p] + [order[p]] + order[p + 1..];
  }

  lemma {:induction false} PickedWithout(x: Job, plans: seq<Plan>, order: seq<nat>, p: nat)
    requires InRange(order, |plans|) && p < |order|
    ensures InRange(order[..p] + order[p + 1..], |plans|)
    ensures multiset(Picked(x, plans, order))
         == multiset(Picked(x, plans, order[..p] + order[p + 1..])) + multiset{PlanRequest(x, plans[order[p]])}
  {
    var rs, rest := Picked(x, plans, order), order[..p] + order[p + 1..];
    assert rs == rs[..p] + [rs[p]] + rs[p + 1..];
    assert Picked(x, plans, rest) == rs[..p] + rs[p + 1..];
  }

  lemma {:induction false} FindIndex(x: Job, plans: seq<Plan>, order: seq<nat>, v: nat) returns (rest: seq<nat>)
    requires InRange(order, |plans|) && v in multiset(order)
    ensures InRange(rest, |plans|) && multiset(rest) == multiset(order) - multiset{v} && |rest| < |order|
    ensures v < |plans| && multiset(Picked(x, plans, order))
         == multiset(Picked(x, plans, rest)) + multiset{PlanRequest(x, plans[v])}
  {
    var p :| 0 <= p < |order| && order[p] == v;
    IndexCountsOnce(order, p);
    PickedWithout(x, plans, order, p);
    rest := order[..p] + order[p + 1..];
  }

  /** Picking the same plans in another order gives the same requests. */
  lemma {:induction false} PickedPermutes(x: Job, plans: seq<Plan>, a: seq<nat>, b: seq<nat>)
    requires InRange(a, |plans|) && InRange(b, |plans|) && multiset(a) == multiset(b)
    ensures multiset(Picked(x, plans, a)) == multiset(Picked(x, plans, b))
    decreases |a|
  {
    if a == [] {
      EmptyIsEmpty(b);
    } else {
      assert a[0] in multiset(a);
      var a' := FindIndex(x, plans, a, a[0]);
      var b' := FindIndex(x, plans, b, a[0]);
      PickedPermutes(x, plans, a', b');
    }
  }

  /** What the sectors from number `first` to `last` of a request are to move. */
  function WantedFrom(x: Job, start: nat, first: nat, last: nat): (rs: seq<Request>)
    requires first <= last
    ensures |rs| == last - first && forall j :: 0 <= j < last - first ==> rs[j] == Wanted(x, start, first + j)
  {
    seq(last - first, j requires 0 <= j < last - first => Wanted(x, start, first + j))
  }

  /** The plans move what the sectors from number `first` on are to move. */
  ghost predicate MovesAre(x: Job, start: nat, first: nat, plans: seq<Plan>) {
    forall j :: 0 <= j < |plans| ==> MoveAt(x, start, first, plans, j)
  }

  ghost predicate MoveAt(x: Job, start: nat, first: nat, plans: seq<Plan>, j: nat)
    requires j < |plans|
  {
    PlanRequest(x, plans[j]) == Wanted(x, start, first + j)
  }

  lemma {:induction false} BatchIsWantedNow(x: Job, places: seq<Place>, start: nat, first: nat, plans: seq<Plan>,
                                            desc: seq<BDesc>, headers: seq<Header>, avail: seq<nat>, base: nat)
    requires Grid(x.sgs, places) && Posted(x, places, start, first, plans, desc, headers, avail, base)
    ensures MovesAre(x, start, first, plans)
  {
    forall j | 0 <= j < |plans|
      ensures MoveAt(x, start, first, plans, j)
    {
      assert CutAt(x, places, start, first, plans, j);
      CutIsWanted(x, places, start, plans[j], first + j);
    }
  }

  /** A batch completed in any order has made exactly the moves of its sectors. */
  lemma {:induction false} BatchIsWanted(x: Job, start: nat, first: nat, plans: seq<Plan>, order: seq<nat>)
    requires MovesAre(x, start, first, plans) && Permutes(order, |plans|)
    ensures multiset(Picked(x, plans, order)) == multiset(WantedFrom(x, start, first, first + |plans|))
  {
    var all := Iota(|plans|);
    PickedPermutes(x, plans, order, all);
    var picked, wanted := Picked(x, plans, all), WantedFrom(x, start, first, first + |plans|);
    forall j | 0 <= j < |plans|
      ensures picked[j] == wanted[j]
    {
      assert MoveAt(x, start, first, plans, j);
    }
    assert picked == wanted;
  }

  /** The requests of one call, executed in whatever order: byte `i` of the buffers and byte `i` of the
      sectors are equal afterwards, and nothing else of the target changed. */
  lemma {:induction false} ExecutedIsFlatCopy(x: Job, start: nat, sectors: nat, executed: seq<Request>,
                                              dst: nat -> nat, src: nat -> nat, a: nat)
    requires multiset(executed) == multiset(WantedFrom(x, start, 0, sectors)) && start + sectors <= U32
    requires !x.out ==> NoAliases(x, SECTOR * sectors)
    ensures var after := Copy(dst, src, AllSteps(executed));
            && (x.out ==>
                  && (forall i: nat :: i < 512 * sectors ==> after(512 * start + i) == src(Phys(x.frame, ByteAt(x.sgs, 0, i))))
                  && (!(512 * start <= a < 512 * (start + sectors)) ==> after(a) == dst(a)))
            && (!x.out ==>
                  && (forall i: nat :: i < 512 * sectors ==> after(Phys(x.frame, ByteAt(x.sgs, 0, i))) == src(512 * start + i))
                  && ((forall i: nat :: i < 512 * sectors ==> Phys(x.frame, ByteAt(x.sgs, 0, i)) != a) ==> after(a) == dst(a)))
  {
    assert WantedFrom(x, start, 0, sectors) == Requests(x, start, sectors);
    TransferIsFlatCopy(x, start, sectors, executed, dst, src, a);
    var after := Copy(dst, src, AllSteps(executed));
    if x.out {
      FlatWrite(x, start, sectors, after, dst, src, a);
    } else {
      FlatRead(x, start, sectors, after, dst, src, a);
    }
  }

  /** What the flat copy means for a write. */
  lemma {:induction false} FlatWrite(x: Job, start: nat, sectors: nat, after: nat -> nat, dst: nat -> nat, src: nat -> nat, a: nat)
    requires x.out
    requires forall i :: 0 <= i < SECTOR * sectors ==> after(FlatStep(x, start, i).to) == src(FlatStep(x, start, i).from)
    requires (forall i :: 0 <= i < SECTOR * sectors ==> FlatStep(x, start, i).to != a) ==> after(a) == dst(a)
    ensures forall i: nat :: i < 512 * sectors ==> after(512 * start + i) == src(Phys(x.frame, ByteAt(x.sgs, 0, i)))
    ensures !(512 * start <= a < 512 * (start + sectors)) ==> after(a) == dst(a)
  {
    forall i: nat | i < 512 * sectors
      ensures after(512 * start + i) == src(Phys(x.frame, ByteAt(x.sgs, 0, i)))
    {
      assert FlatStep(x, start, i) == Step(512 * start + i, Phys(x.frame, ByteAt(x.sgs, 0, i)));
    }
    if !(512 * start <= a < 512 * (start + sectors)) {
      assert forall i :: 0 <= i < SECTOR * sectors ==> FlatStep(x, start, i).to != a;
    }
  }

  /** And for a read. */
  lemma {:induction false} FlatRead(x: Job, start: nat, sectors: nat, after: nat -> nat, dst: nat -> nat, src: nat -> nat, a: nat)
    requires !x.out
    requires forall i :: 0 <= i < SECTOR * sectors ==> after(FlatStep(x, start, i).to) == src(FlatStep(x, start, i).from)
    requires (forall i :: 0 <= i < SECTOR * sectors ==> FlatStep(x, start, i).to != a) ==> after(a) == dst(a)
    ensures forall i: nat :: i < 512 * sectors ==> after(Phys(x.frame, ByteAt(x.sgs, 0, i))) == src(512 * start + i)
    ensures (forall i: nat :: i < 512 * sectors ==> Phys(x.frame, ByteAt(x.sgs, 0, i)) != a) ==> after(a) == dst(a)
  {
    forall i: nat | i < 512 * sectors
      ensures after(Phys(x.frame, ByteAt(x.sgs, 0, i))) == src(512 * start + i)
      ensures FlatStep(x, start, i).to == Phys(x.frame, ByteAt(x.sgs, 0, i))
    {
      assert FlatStep(x, start, i) == Step(Phys(x.frame, ByteAt(x.sgs, 0, i)), 512 * start + i);
    }
  }
}
