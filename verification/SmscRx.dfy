/** The receive packets of the SMSC9118 driver: 256 packets that travel between two circular lists, the
    interrupt handler, the deferred handler and NDIS. */
module SmscRx {
  import opened RingMath
  import opened Ledger

  const QUEUE: nat := 256
  const LIST: nat := 257

  // ---------------------------------------------------------------- the circular list

  /** `PKT_LIST`. */
  datatype Ring = Ring(arr: seq<nat>, rd: nat, wr: nat)

  predicate RingOk(r: Ring) { |r.arr| == LIST && r.rd < LIST && r.wr < LIST }

  /** `INC_PTR`. */
  function Inc(i: nat): nat { if i + 1 == LIST then 0 else i + 1 }

  predicate IsEmpty(r: Ring) { r.rd == r.wr }
  predicate IsFull(r: Ring) { r.rd == Inc(r.wr) }

  /** What the list holds, oldest first. */
  function Window(r: Ring): (w: seq<nat>)
    requires RingOk(r)
    ensures |w| < LIST
  {
    seq(Offset(LIST, r.rd, r.wr), k requires 0 <= k < Offset(LIST, r.rd, r.wr) => r.arr[Slot(LIST, r.rd, k)])
  }

  /** The two tests are exact, and one of the 257 places always stays free. */
  lemma {:induction false} TestsAreExact(r: Ring)
    requires RingOk(r)
    ensures IsEmpty(r) <==> Window(r) == []
    ensures IsFull(r) <==> |Window(r)| == QUEUE
    ensures !IsEmpty(r) ==> r.arr[r.rd] == Window(r)[0]
  {
    if !IsEmpty(r) {
      assert r.arr[r.rd] == Window(r)[0];
    }
  }

  /** The consumer's increment takes the oldest. */
  lemma {:induction false} TakeAdvances(r: Ring)
    requires RingOk(r) && !IsEmpty(r)
    ensures Window(r.(rd := Inc(r.rd))) == Window(r)[1..]
  {
    var a, b := Window(r), Window(r.(rd := Inc(r.rd)));
    forall k | 0 <= k < |b|
      ensures b[k] == a[k + 1]
    {
      assert Slot(LIST, Inc(r.rd), k) == Slot(LIST, r.rd, k + 1);
    }
  }

  /** The producer's write goes to the free place. */
  lemma {:induction false} WriteIsInvisible(r: Ring, p: nat)
    requires RingOk(r)
    ensures Window(r.(arr := r.arr[r.wr := p])) == Window(r)
  {
    var a, b := Window(r), Window(r.(arr := r.arr[r.wr := p]));
    forall k | 0 <= k < |a|
      ensures a[k] == b[k]
    {
      assert Slot(LIST, r.rd, k) != r.wr;
    }
  }

  /** The producer's increment appends what it wrote. */
  lemma {:induction false} PutAdvances(r: Ring)
    requires RingOk(r) && !IsFull(r)
    ensures Window(r.(wr := Inc(r.wr))) == Window(r) + [r.arr[r.wr]]
  {
    var a, b := Window(r), Window(r.(wr := Inc(r.wr)));
    forall k | 0 <= k < |b|
      ensures b[k] == (a + [r.arr[r.wr]])[k]
    {
      if k == |a| {
        assert Slot(LIST, r.rd, k) == r.wr;
      }
    }
  }

  /** The list as the driver keeps it. */
  class PktList {
    const arr: array<nat>
    var rd: nat
    var wr: nat

    ghost function View(): Ring
      reads this, arr
    {
      Ring(arr[..], rd, wr)
    }

    /** An empty list, or for `EmptyPkt` one that holds the first `n` packets. */
    constructor (n: nat)
      requires n <= QUEUE
      ensures fresh(arr) && RingOk(View()) && Window(View()) == Iota(n)
    {
      arr := new nat[LIST](i requires 0 <= i < LIST => i);
      rd, wr := 0, n;
    }

    /** `PutPktToEmptyArray` and `PutPktToFullArray`. */
    method Put(p: nat) returns (ok: bool)
      requires RingOk(View())
      modifies this`wr, arr
      ensures RingOk(View())
      ensures ok <==> |old(Window(View()))| < QUEUE
      ensures Window(View()) == old(Window(View())) + if ok then [p] else []
    {
      TestsAreExact(View());
      if rd == Inc(wr) {
        return false;
      }
      WriteIsInvisible(View(), p);
      ghost var r := View();
      arr[wr] := p;
      PutAdvances(View());
      wr := Inc(wr);
      ok := true;
    }

    /** `GetPktFromEmptyArray` and `GetPktFromFullArray`. */
    method Get() returns (p: Option<nat>)
      requires RingOk(View())
      modifies this`rd
      ensures RingOk(View())
      ensures old(Window(View())) == [] ==> p == None && Window(View()) == []
      ensures old(Window(View())) != [] ==>
                p == Some(old(Window(View()))[0]) && Window(View()) == old(Window(View()))[1..]
    {
      TestsAreExact(View());
      if rd == wr {
        return None;
      }
      TakeAdvances(View());
      p := Some(arr[rd]);
      rd := Inc(rd);
    }
  }

  // ---------------------------------------------------------------- the pool, one access at a time

  /** Where the packets are besides the two lists. In the interrupt handler: read from `empty` with the
      read pointer not yet advanced, in hand, or written to `full` with the write pointer not yet
      advanced. In the deferred handler: read from `full`, in the indication array, indicated with the status
      not yet looked at, or to be put back. `emptyPut` is written to `empty` with the pointer not yet advanced; `ndis` holds the
      packets NDIS kept, whose status says pending, `lost` those a failed Put would lose. */
  datatype Pool = Pool(
    empty: Ring, full: Ring,
    isrTake: Option<nat>, isrHold: Option<nat>, isrPut: Option<nat>,
    dpcTake: Option<nat>, indicate: seq<nat>, testing: seq<nat>, back: seq<nat>,
    emptyPut: Option<nat>, ndis: multiset<nat>, lost: multiset<nat>)

  datatype Act =
    | IsrTakeRead | IsrTakeInc | IsrPutWrite | IsrPutInc
    | DpcTakeRead | DpcTakeInc(filtered: bool) | DpcIndicate(kept: seq<bool>) | DpcTest
    | BackWrite | ReturnWrite(p: nat) | EmptyInc

  function NewPool(): Pool {
    Pool(Ring(Iota(LIST), 0, QUEUE), Ring(Iota(LIST), 0, 0), None, None, None, None, [], [], [], None, multiset{}, multiset{})
  }

  /** The packets NDIS keeps, and the ones it is done with. */
  function Picked(s: seq<nat>, kept: seq<bool>, which: bool): seq<nat> {
    if s == [] then []
    else
      var k := kept != [] && kept[0];
      (if k == which then [s[0]] else []) + Picked(s[1..], if kept == [] then [] else kept[1..], which)
  }

  /** The first half of a Put to `empty`; a full list would lose the packet. */
  function PutWrite(x: Pool, p: nat): Pool
    requires RingOk(x.empty)
  {
    if IsFull(x.empty) then x.(lost := x.lost + multiset{p})
    else x.(empty := x.empty.(arr := x.empty.arr[x.empty.wr := p]), emptyPut := Some(p))
  }

  /** NDIS gives a packet back: its status says success, and it goes to `empty`. */
  function PutReturned(x: Pool, p: nat): Pool
    requires RingOk(x.empty) && p in x.ndis
  {
    PutWrite(x.(ndis := x.ndis - multiset{p}), p)
  }

  /** One step. Puts to `empty` come from the deferred handler and from NDIS returning a packet, which are
      serialised; a packet is returned only after the deferred handler has looked at its status. */
  function Step(x: Pool, a: Act): Pool
    requires RingOk(x.empty) && RingOk(x.full)
  {
    match a
    case IsrTakeRead =>
      if x.isrTake.Some? || x.isrHold.Some? || x.isrPut.Some? || IsEmpty(x.empty) then x
      else x.(isrTake := Some(x.empty.arr[x.empty.rd]))
    case IsrTakeInc =>
      if x.isrTake.None? then x
      else x.(empty := x.empty.(rd := Inc(x.empty.rd)), isrHold := x.isrTake, isrTake := None)
    case IsrPutWrite =>
      if x.isrHold.None? then x
      else if IsFull(x.full) then x.(isrHold := None, lost := x.lost + multiset{x.isrHold.value})
      else x.(full := x.full.(arr := x.full.arr[x.full.wr := x.isrHold.value]), isrPut := x.isrHold, isrHold := None)
    case IsrPutInc =>
      if x.isrPut.None? then x else x.(full := x.full.(wr := Inc(x.full.wr)), isrPut := None)
    case DpcTakeRead =>
      if x.dpcTake.Some? || x.testing != [] || IsEmpty(x.full) then x else x.(dpcTake := Some(x.full.arr[x.full.rd]))
    case DpcTakeInc(filtered) =>
      if x.dpcTake.None? then x
      else
        var p, y := x.dpcTake.value, x.(full := x.full.(rd := Inc(x.full.rd)), dpcTake := None);
        if filtered then y.(back := x.back + [p]) else y.(indicate := x.indicate + [p])
    case DpcIndicate(kept) =>
      if x.dpcTake.Some? || x.testing != [] then x
      else x.(indicate := [], testing := x.indicate, ndis := x.ndis + multiset(Picked(x.indicate, kept, true)))
    case DpcTest =>
      if x.testing == [] then x
      else
        var y := x.(testing := x.testing[1..]);
        if x.testing[0] in x.ndis then y else y.(back := x.back + [x.testing[0]])
    case BackWrite =>
      if x.emptyPut.Some? || x.back == [] then x else PutWrite(x.(back := x.back[1..]), x.back[0])
    case ReturnWrite(p) =>
      if x.emptyPut.Some? || p !in x.ndis || p in x.testing then x else PutReturned(x, p)
    case EmptyInc =>
      if x.emptyPut.None? then x else x.(empty := x.empty.(wr := Inc(x.empty.wr)), emptyPut := None)
  }

  // ---------------------------------------------------------------- conservation

  function Opt(o: Option<nat>): multiset<nat> {
    if o.Some? then multiset{o.value} else multiset{}
  }

  /** The indicated packets that the deferred handler will find not pending. */
  function Owed(testing: seq<nat>, ndis: multiset<nat>): seq<nat> {
    if testing == [] then []
    else (if testing[0] in ndis then [] else [testing[0]]) + Owed(testing[1..], ndis)
  }

  function InLists(x: Pool): multiset<nat>
    requires RingOk(x.empty) && RingOk(x.full)
  {
    multiset(Window(x.empty)) + multiset(Window(x.full)) + Opt(x.isrHold) + Opt(x.isrPut) + Opt(x.emptyPut)
  }

  function InDpc(x: Pool): multiset<nat> {
    multiset(x.indicate) + multiset(Owed(x.testing, x.ndis)) + multiset(x.back)
  }

  /** Every packet, wherever it is; one that was read from a list but not yet taken off it counts once,
      in the list. */
  function Everywhere(x: Pool): multiset<nat>
    requires RingOk(x.empty) && RingOk(x.full)
  {
    InLists(x) + InDpc(x) + x.ndis
  }

  /** Nothing is lost and nothing is in two places. */
  ghost predicate Whole(x: Pool) {
    && RingOk(x.empty) && RingOk(x.full)
    && Everywhere(x) == multiset(Iota(QUEUE)) && x.lost == multiset{}
  }

  /** What each half-done access has seen or written is still there. */
  predicate HalfDone(x: Pool)
    requires RingOk(x.empty) && RingOk(x.full)
  {
    && (x.isrTake.Some? ==> !IsEmpty(x.empty) && x.isrTake.value == x.empty.arr[x.empty.rd]
                            && x.isrHold.None? && x.isrPut.None?)
    && (x.isrHold.Some? ==> x.isrPut.None?)
    && (x.isrPut.Some? ==> !IsFull(x.full) && x.isrPut.value == x.full.arr[x.full.wr])
    && (x.dpcTake.Some? ==> !IsEmpty(x.full) && x.dpcTake.value == x.full.arr[x.full.rd])
    && (x.emptyPut.Some? ==> !IsFull(x.empty) && x.emptyPut.value == x.empty.arr[x.empty.wr])
  }

  ghost predicate Inv(x: Pool) {
    Whole(x) && HalfDone(x)
  }

  lemma {:induction false} NewKeeps()
    ensures Inv(NewPool())
  {
    var x := NewPool();
    assert Window(x.empty) == Iota(QUEUE);
    assert Window(x.full) == [];
  }

  /** There are 256 packets in all. */
  lemma {:induction false} TotalCount(x: Pool)
    requires Whole(x)
    ensures |Window(x.empty)| + |Window(x.full)| + |Opt(x.isrHold)| + |Opt(x.isrPut)| + |Opt(x.emptyPut)|
          + |x.indicate| + |Owed(x.testing, x.ndis)| + |x.back| + |x.ndis| == QUEUE
  {
    assert |Everywhere(x)| == |multiset(Iota(QUEUE))|;
  }

  lemma {:induction false} FirstOut(w: seq<nat>)
    requires w != []
    ensures multiset(w) == multiset{w[0]} + multiset(w[1..])
  {
    assert w == [w[0]] + w[1..];
  }

  // ---------------------------------------------------------------- the interrupt handler

  lemma {:induction false} IsrTakeIncWhole(x: Pool)
    requires Whole(x) && HalfDone(x)
    ensures Whole(Step(x, IsrTakeInc))
  {
    if x.isrTake.Some? {
      TestsAreExact(x.empty);
      TakeAdvances(x.empty);
      FirstOut(Window(x.empty));
    }
  }

  lemma {:induction false} IsrHalfDone(x: Pool)
    requires RingOk(x.empty) && RingOk(x.full) && HalfDone(x)
    ensures HalfDone(Step(x, IsrTakeRead)) && HalfDone(Step(x, IsrTakeInc))
  {
  }

  lemma {:induction false} IsrTakeKeeps(x: Pool, a: Act)
    requires Inv(x) && (a == IsrTakeRead || a == IsrTakeInc)
    ensures Inv(Step(x, a))
  {
    IsrTakeIncWhole(x);
    IsrHalfDone(x);
  }

  /** The full list always has room for the packet in the interrupt handler's hand. */
  lemma {:induction false} IsrPutHasRoom(x: Pool)
    requires Whole(x) && x.isrHold.Some?
    ensures !IsFull(x.full)
  {
    TotalCount(x);
    TestsAreExact(x.full);
  }

  lemma {:induction false} IsrPutKeeps(x: Pool)
    requires Inv(x)
    ensures Inv(Step(x, IsrPutWrite))
  {
    if x.isrHold.Some? {
      IsrPutHasRoom(x);
      WriteIsInvisible(x.full, x.isrHold.value);
    }
  }

  lemma {:induction false} IsrPutIncKeeps(x: Pool)
    requires Inv(x)
    ensures Inv(Step(x, IsrPutInc))
  {
    if x.isrPut.Some? {
      PutAdvances(x.full);
    }
  }

  // ---------------------------------------------------------------- the deferred handler

  /** Packet `p` goes from the lists to the deferred handler. */
  lemma {:induction false} OneMoves(l: multiset<nat>, d: multiset<nat>, n: multiset<nat>, p: nat)
    ensures l + (d + multiset{p}) + n == (l + multiset{p}) + d + n
  {
  }

  lemma {:induction false} Fewer(e: multiset<nat>, f: multiset<nat>, h: multiset<nat>, i: multiset<nat>, t: multiset<nat>, p: nat)
    ensures e + (multiset{p} + f) + h + i + t == (e + f + h + i + t) + multiset{p}
  {
  }

  lemma {:induction false} DpcTakeFull(full: Ring)
    requires RingOk(full) && !IsEmpty(full)
    ensures multiset(Window(full)) == multiset{full.arr[full.rd]} + multiset(Window(full.(rd := Inc(full.rd))))
  {
    TestsAreExact(full);
    TakeAdvances(full);
    FirstOut(Window(full));
  }

  lemma {:induction false} DpcTakeLists(x: Pool, y: Pool, p: nat)
    requires RingOk(x.empty) && RingOk(x.full) && RingOk(y.full)
    requires y.empty == x.empty && y.isrHold == x.isrHold && y.isrPut == x.isrPut && y.emptyPut == x.emptyPut
    requires multiset(Window(x.full)) == multiset{p} + multiset(Window(y.full))
    ensures InLists(x) == InLists(y) + multiset{p}
  {
    Fewer(multiset(Window(x.empty)), multiset(Window(y.full)), Opt(x.isrHold), Opt(x.isrPut), Opt(x.emptyPut), p);
  }

  lemma {:induction false} DpcTakeDpc(x: Pool, filtered: bool)
    requires RingOk(x.empty) && RingOk(x.full) && x.dpcTake.Some?
    ensures InDpc(Step(x, DpcTakeInc(filtered))) == InDpc(x) + multiset{x.dpcTake.value}
  {
    assert multiset(x.back + [x.dpcTake.value]) == multiset(x.back) + multiset{x.dpcTake.value};
    assert multiset(x.indicate + [x.dpcTake.value]) == multiset(x.indicate) + multiset{x.dpcTake.value};
  }

  lemma {:induction false} DpcTakeWhole(x: Pool, filtered: bool)
    requires Whole(x) && HalfDone(x) && x.dpcTake.Some?
    ensures Whole(Step(x, DpcTakeInc(filtered)))
  {
    var y := Step(x, DpcTakeInc(filtered));
    DpcTakeFull(x.full);
    DpcTakeLists(x, y, x.dpcTake.value);
    DpcTakeDpc(x, filtered);
    OneMoves(InLists(y), InDpc(x), x.ndis, x.dpcTake.value);
  }

  lemma {:induction false} DpcHalfDone(x: Pool, filtered: bool)
    requires RingOk(x.empty) && RingOk(x.full) && HalfDone(x)
    ensures HalfDone(Step(x, DpcTakeRead)) && HalfDone(Step(x, DpcTakeInc(filtered)))
  {
  }

  lemma {:induction false} DpcTakeReadKeeps(x: Pool)
    requires Inv(x)
    ensures Inv(Step(x, DpcTakeRead))
  {
    DpcHalfDone(x, false);
  }

  lemma {:induction false} DpcTakeIncKeeps(x: Pool, filtered: bool)
    requires Inv(x)
    ensures Inv(Step(x, DpcTakeInc(filtered)))
  {
    DpcHalfDone(x, filtered);
    if x.dpcTake.Some? {
      DpcTakeWhole(x, filtered);
    }
  }

  /** The indication array has a place for the packet the deferred handler is taking. */
  lemma {:induction false} IndicationHasRoom(x: Pool)
    requires Inv(x) && x.dpcTake.Some?
    ensures |x.indicate| < QUEUE
  {
    TotalCount(x);
    TestsAreExact(x.full);
  }

  lemma {:induction false} PickedIsAll(s: seq<nat>, kept: seq<bool>)
    ensures multiset(Picked(s, kept, false)) + multiset(Picked(s, kept, true)) == multiset(s)
    decreases |s|
  {
    if s != [] {
      FirstOut(s);
      PickedIsAll(s[1..], if kept == [] then [] else kept[1..]);
    }
  }

  lemma {:induction false} OwedIgnores(t: seq<nat>, n: multiset<nat>, n': multiset<nat>)
    requires forall p :: p in t ==> (p in n <==> p in n')
    ensures Owed(t, n) == Owed(t, n')
  {
    if t != [] {
      assert forall p :: p in t[1..] ==> p in t;
      OwedIgnores(t[1..], n, n');
    }
  }

  /** No packet is there twice. */
  predicate OnceEach(s: seq<nat>) { forall p :: p in s ==> multiset(s)[p] == 1 }

  lemma {:induction false} RestOnceEach(s: seq<nat>)
    requires s != [] && OnceEach(s)
    ensures s[0] !in s[1..] && OnceEach(s[1..])
  {
    FirstOut(s);
    forall p | p in s[1..]
      ensures p in s && multiset(s[1..])[p] == 1 && p != s[0]
    {
      assert p in multiset(s[1..]);
    }
  }

  /** Of packets that are all different and not with NDIS, those it does not keep are found not pending. */
  lemma {:induction false} PickedAreOwed(s: seq<nat>, kept: seq<bool>, n: multiset<nat>)
    requires OnceEach(s) && forall p :: p in s ==> p !in n
    ensures Owed(s, n + multiset(Picked(s, kept, true))) == Picked(s, kept, false)
    decreases |s|
  {
    if s != [] {
      var rest, kept' := s[1..], if kept == [] then [] else kept[1..];
      RestOnceEach(s);
      PickedAreOwed(rest, kept', n);
      FirstIsOwed(s, kept, n);
    }
  }

  lemma {:induction false} PickedIsSubset(s: seq<nat>, kept: seq<bool>, which: bool, p: nat)
    requires p in Picked(s, kept, which)
    ensures p in s
    decreases |s|
  {
    var kept' := if kept == [] then [] else kept[1..];
    if p in Picked(s[1..], kept', which) {
      PickedIsSubset(s[1..], kept', which, p);
    }
  }

  lemma {:induction false} FirstIsOwed(s: seq<nat>, kept: seq<bool>, n: multiset<nat>)
    requires s != [] && s[0] !in n && s[0] !in s[1..]
    ensures var rest, kept' := s[1..], if kept == [] then [] else kept[1..];
            Owed(s, n + multiset(Picked(s, kept, true)))
            == (if kept != [] && kept[0] then [] else [s[0]]) + Owed(rest, n + multiset(Picked(rest, kept', true)))
  {
    var rest, kept' := s[1..], if kept == [] then [] else kept[1..];
    var now, later := n + multiset(Picked(s, kept, true)), n + multiset(Picked(rest, kept', true));
    if s[0] in Picked(rest, kept', true) {
      PickedIsSubset(rest, kept', true, s[0]);
    }
    OwedIgnores(rest, now, later);
  }

  /** Each packet in the indication array is there once, and NDIS does not have it. */
  lemma {:induction false} IndicatedOnce(x: Pool, p: nat)
    requires Whole(x) && p in x.indicate
    ensures p !in x.ndis && multiset(x.indicate)[p] == 1
  {
    assert Everywhere(x)[p] >= multiset(x.indicate)[p] + x.ndis[p];
    IotaOnce(QUEUE, p);
  }

  /** NDIS keeps `k` of the indicated packets and is done with `d`. */
  lemma {:induction false} IndicationSplits(l: multiset<nat>, k: multiset<nat>, d: multiset<nat>, b: multiset<nat>, n: multiset<nat>)
    ensures l + (multiset{} + d + b) + (n + k) == l + ((d + k) + multiset{} + b) + n
  {
  }

  /** A step of the deferred handler and NDIS that leaves the lists alone. */
  lemma {:induction false} ListsStay(x: Pool, y: Pool)
    requires RingOk(x.empty) && RingOk(x.full) && y.empty == x.empty && y.full == x.full
    requires y.isrHold == x.isrHold && y.isrPut == x.isrPut && y.emptyPut == x.emptyPut
    ensures InLists(y) == InLists(x)
  {
  }

  lemma {:induction false} HandedOver(x: Pool, kept: seq<bool>, y: Pool)
    requires RingOk(x.empty) && RingOk(x.full) && x.testing == []
    requires OnceEach(x.indicate) && forall p :: p in x.indicate ==> p !in x.ndis
    requires y == x.(indicate := [], testing := x.indicate, ndis := x.ndis + multiset(Picked(x.indicate, kept, true)))
    ensures Everywhere(y) == Everywhere(x)
  {
    var k, d := Picked(x.indicate, kept, true), Picked(x.indicate, kept, false);
    PickedAreOwed(x.indicate, kept, x.ndis);
    PickedIsAll(x.indicate, kept);
    ListsStay(x, y);
    IndicationSplits(InLists(x), multiset(k), multiset(d), multiset(x.back), x.ndis);
  }

  lemma {:induction false} DpcIndicateWhole(x: Pool, kept: seq<bool>)
    requires Whole(x) && x.testing == [] && x.dpcTake.None?
    ensures Everywhere(Step(x, DpcIndicate(kept))) == Everywhere(x)
  {
    forall p | p in x.indicate
      ensures p !in x.ndis && multiset(x.indicate)[p] == 1
    {
      IndicatedOnce(x, p);
    }
    HandedOver(x, kept, Step(x, DpcIndicate(kept)));
  }

  /** A step that only moves packets about between the handlers' hands and NDIS. */
  lemma {:induction false} Inherits(x: Pool, y: Pool)
    requires Inv(x) && y.lost == x.lost && RingOk(y.empty) && RingOk(y.full) && HalfDone(y)
    requires Everywhere(y) == Everywhere(x)
    ensures Inv(y)
  {
  }

  lemma {:induction false} DpcIndicateKeeps(x: Pool, kept: seq<bool>)
    requires Inv(x)
    ensures Inv(Step(x, DpcIndicate(kept)))
  {
    if x.testing == [] && x.dpcTake.None? {
      DpcIndicateWhole(x, kept);
      Inherits(x, Step(x, DpcIndicate(kept)));
    }
  }

  lemma {:induction false} TestMoves(i: multiset<nat>, o: multiset<nat>, b: multiset<nat>, p: nat)
    ensures i + o + (b + multiset{p}) == i + (multiset{p} + o) + b
  {
  }

  lemma {:induction false} DpcTestDpc(x: Pool)
    requires RingOk(x.empty) && RingOk(x.full) && x.testing != []
    ensures InDpc(Step(x, DpcTest)) == InDpc(x)
  {
    var p, o := x.testing[0], Owed(x.testing[1..], x.ndis);
    if p in x.ndis {
      assert [] + o == o;
    } else {
      assert multiset([p] + o) == multiset{p} + multiset(o);
      assert multiset(x.back + [p]) == multiset(x.back) + multiset{p};
      TestMoves(multiset(x.indicate), multiset(o), multiset(x.back), p);
    }
  }

  lemma {:induction false} DpcTestWhole(x: Pool)
    requires RingOk(x.empty) && RingOk(x.full) && x.testing != []
    ensures Everywhere(Step(x, DpcTest)) == Everywhere(x)
  {
    DpcTestDpc(x);
    ListsStay(x, Step(x, DpcTest));
  }

  /** The same lists, and the same packets in other places of the deferred handler. */
  lemma {:induction false} OnlyDpcMoves(x: Pool, y: Pool)
    requires Inv(x) && y == x.(testing := y.testing, back := y.back) && Everywhere(y) == Everywhere(x)
    ensures Inv(y)
  {
  }

  lemma {:induction false} DpcTestMoves(x: Pool) returns (y: Pool)
    requires RingOk(x.empty) && RingOk(x.full) && x.testing != []
    ensures y == Step(x, DpcTest) && y == x.(testing := y.testing, back := y.back) && Everywhere(y) == Everywhere(x)
  {
    DpcTestWhole(x);
    y := Step(x, DpcTest);
  }

  lemma {:induction false} DpcTestKeeps(x: Pool)
    requires Inv(x)
    ensures Inv(Step(x, DpcTest))
  {
    if x.testing != [] {
      var y := DpcTestMoves(x);
      OnlyDpcMoves(x, y);
    }
  }

  // ---------------------------------------------------------------- back to the empty list

  /** The empty list always has room for a packet that comes back, from the deferred handler or from NDIS. */
  lemma {:induction false} EmptyHasRoom(x: Pool)
    requires Whole(x) && (x.back != [] || x.ndis != multiset{})
    ensures !IsFull(x.empty)
  {
    TotalCount(x);
    TestsAreExact(x.empty);
  }

  /** The first half of a put to a list with room; `y` has the packet already taken from where it was. */
  lemma {:induction false} PutWriteKeeps(y: Pool, p: nat)
    requires RingOk(y.empty) && RingOk(y.full) && HalfDone(y) && y.emptyPut.None? && !IsFull(y.empty)
    ensures RingOk(PutWrite(y, p).empty) && RingOk(PutWrite(y, p).full) && HalfDone(PutWrite(y, p))
    ensures Everywhere(PutWrite(y, p)) == Everywhere(y) + multiset{p} && PutWrite(y, p).lost == y.lost
  {
    WriteIsInvisible(y.empty, p);
  }

  lemma {:induction false} BackKeeps(x: Pool)
    requires Inv(x)
    ensures Inv(Step(x, BackWrite))
  {
    if x.emptyPut.None? && x.back != [] {
      EmptyHasRoom(x);
      FirstOut(x.back);
      PutWriteKeeps(x.(back := x.back[1..]), x.back[0]);
    }
  }

  lemma {:induction false} OneOfNdis(l: multiset<nat>, d: multiset<nat>, n: multiset<nat>, p: nat)
    requires p in n
    ensures l + d + (n - multiset{p}) + multiset{p} == l + d + n
  {
  }

  lemma {:induction false} LeavesNdis(x: Pool, p: nat)
    requires RingOk(x.empty) && RingOk(x.full) && p in x.ndis && p !in x.testing
    ensures Everywhere(x.(ndis := x.ndis - multiset{p})) + multiset{p} == Everywhere(x)
  {
    OwedIgnores(x.testing, x.ndis, x.ndis - multiset{p});
    OneOfNdis(InLists(x), InDpc(x), x.ndis, p);
  }

  lemma {:induction false} ReturnKeeps(x: Pool, p: nat)
    requires Inv(x)
    ensures Inv(Step(x, ReturnWrite(p)))
  {
    if x.emptyPut.None? && p in x.ndis && p !in x.testing {
      EmptyHasRoom(x);
      PutWriteKeeps(x.(ndis := x.ndis - multiset{p}), p);
      LeavesNdis(x, p);
    }
  }

  lemma {:induction false} FoundNotPending(t: seq<nat>, n: multiset<nat>, p: nat)
    requires p in t && p !in n
    ensures p in Owed(t, n)
  {
    if t[0] != p {
      FoundNotPending(t[1..], n, p);
    }
  }

  lemma {:induction false} WithNdisOnce(x: Pool, p: nat)
    requires Whole(x) && p in x.ndis
    ensures x.ndis[p] == 1
  {
    assert Everywhere(x)[p] >= x.ndis[p];
    IotaOnce(QUEUE, p);
  }

  /** NDIS may return a packet, whatever the deferred handler is doing, exactly if that has looked at the
      packet's status. Otherwise it finds success there and puts the packet a second time. */
  lemma {:induction false} ReturnIsSafeIff(x: Pool, p: nat)
    requires Inv(x) && x.emptyPut.None? && p in x.ndis
    ensures RingOk(PutReturned(x, p).empty) && RingOk(PutReturned(x, p).full)
    ensures Everywhere(PutReturned(x, p))[p] == 1 <==> p !in x.testing
    ensures Whole(PutReturned(x, p)) <==> p !in x.testing
  {
    EmptyHasRoom(x);
    var y := x.(ndis := x.ndis - multiset{p});
    PutWriteKeeps(y, p);
    IotaOnce(QUEUE, p);
    WithNdisOnce(x, p);
    assert Everywhere(x)[p] >= x.ndis[p];
    if p in x.testing {
      FoundNotPending(x.testing, y.ndis, p);
      assert Everywhere(y)[p] >= multiset(Owed(y.testing, y.ndis))[p] >= 1;
    } else {
      LeavesNdis(x, p);
    }
  }

  lemma {:induction false} EmptyIncKeeps(x: Pool)
    requires Inv(x)
    ensures Inv(Step(x, EmptyInc))
  {
    if x.emptyPut.Some? {
      PutAdvances(x.empty);
    }
  }

  // ---------------------------------------------------------------- runs

  lemma {:induction false} StepKeeps(x: Pool, a: Act)
    requires Inv(x)
    ensures Inv(Step(x, a))
  {
    match a
    case IsrTakeRead => IsrTakeKeeps(x, a);
    case IsrTakeInc => IsrTakeKeeps(x, a);
    case IsrPutWrite => IsrPutKeeps(x);
    case IsrPutInc => IsrPutIncKeeps(x);
    case DpcTakeRead => DpcTakeReadKeeps(x);
    case DpcTakeInc(filtered) => DpcTakeIncKeeps(x, filtered);
    case DpcIndicate(kept) => DpcIndicateKeeps(x, kept);
    case DpcTest => DpcTestKeeps(x);
    case BackWrite => BackKeeps(x);
    case ReturnWrite(p) => ReturnKeeps(x, p);
    case EmptyInc => EmptyIncKeeps(x);
  }

  ghost function Run(x: Pool, acts: seq<Act>): (y: Pool)
    requires Inv(x)
    ensures Inv(y)
    decreases |acts|
  {
    if acts == [] then x
    else
      StepKeeps(x, acts[0]);
      Run(Step(x, acts[0]), acts[1..])
  }

  /** In every interleaving each of the 256 packets is in exactly one place, no Put ever fails, and the
      indication array is never overrun. */
  lemma {:induction false} PacketsAreConserved(acts: seq<Act>)
    ensures Inv(NewPool())
    ensures var x := Run(NewPool(), acts);
            && Everywhere(x) == multiset(Iota(QUEUE)) && x.lost == multiset{}
            && (forall p :: 0 <= p < QUEUE ==> Everywhere(x)[p] == 1)
            && (x.dpcTake.Some? ==> |x.indicate| < QUEUE)
  {
    NewKeeps();
    var x := Run(NewPool(), acts);
    forall p | 0 <= p < QUEUE
      ensures multiset(Iota(QUEUE))[p] == 1
    {
      IotaOnce(QUEUE, p);
    }
    if x.dpcTake.Some? {
      IndicationHasRoom(x);
    }
  }

  /** A run after which NDIS has a packet whose status the deferred handler has not looked at. */
  lemma {:induction false} EarlyReturnIsReachable() returns (acts: seq<Act>)
    ensures Inv(NewPool())
    ensures var x := Run(NewPool(), acts);
            x.emptyPut.None? && 0 in x.ndis && 0 in x.testing && !Whole(PutReturned(x, 0))
  {
    acts := [IsrTakeRead, IsrTakeInc, IsrPutWrite, IsrPutInc, DpcTakeRead, DpcTakeInc(false), DpcIndicate([true])];
    NewKeeps();
    var x := IsrTakes(NewPool(), acts);
    x := IsrPuts(x, acts[1..][1..]);
    var more := acts[1..][1..][1..][1..];
    assert more == [DpcTakeRead, DpcTakeInc(false), DpcIndicate([true])];
    x := ThreeSteps(x, more);
    ReturnIsSafeIff(x, 0);
  }

  lemma {:induction false} RunNext(x: Pool, acts: seq<Act>) returns (y: Pool)
    requires Inv(x) && acts != []
    ensures y == Step(x, acts[0]) && Inv(y) && Run(x, acts) == Run(y, acts[1..])
  {
    StepKeeps(x, acts[0]);
    y := Step(x, acts[0]);
  }

  /** Nothing is in the deferred handler or on its way back. */
  predicate DpcEmpty(x: Pool) { x.dpcTake.None? && x.emptyPut.None? && x.indicate == x.testing == [] }

  /** The interrupt handler takes the first packet from `empty`. */
  lemma {:induction false} IsrTakes(x: Pool, acts: seq<Act>) returns (y: Pool)
    requires Inv(x) && x == NewPool() && |acts| >= 2 && acts[0] == IsrTakeRead && acts[1] == IsrTakeInc
    ensures Inv(y) && Run(x, acts) == Run(y, acts[1..][1..])
    ensures y.isrHold == Some(0) && y.full.rd == y.full.wr == 0 && DpcEmpty(y)
  {
    y := RunNext(x, acts);
    assert y == x.(isrTake := Some(0));
    y := RunNext(y, acts[1..]);
  }

  /** The interrupt handler puts the packet in hand into `full`. */
  lemma {:induction false} IsrPuts(x: Pool, acts: seq<Act>) returns (y: Pool)
    requires Inv(x) && |acts| >= 2 && acts[0] == IsrPutWrite && acts[1] == IsrPutInc
    requires x.isrHold == Some(0) && x.full.rd == x.full.wr == 0 && DpcEmpty(x)
    ensures Inv(y) && Run(x, acts) == Run(y, acts[1..][1..])
    ensures y.full.rd == 0 && y.full.wr == 1 && y.full.arr[0] == 0 && DpcEmpty(y)
  {
    IsrWrites(x);
    y := RunNext(x, acts);
    y := RunNext(y, acts[1..]);
  }

  lemma {:induction false} IsrWrites(x: Pool)
    requires RingOk(x.empty) && RingOk(x.full) && x.isrHold == Some(0) && x.full.rd == x.full.wr == 0
    ensures Step(x, IsrPutWrite)
         == x.(full := x.full.(arr := x.full.arr[0 := 0]), isrPut := Some(0), isrHold := None)
  {
  }

  lemma {:induction false} DpcReads(x: Pool)
    requires RingOk(x.empty) && RingOk(x.full) && x.dpcTake.None? && x.testing == []
    requires x.full.rd == 0 && x.full.wr == 1 && x.full.arr[0] == 0
    ensures Step(x, DpcTakeRead) == x.(dpcTake := Some(0))
  {
  }

  lemma {:induction false} DpcTakes(x: Pool)
    requires RingOk(x.empty) && RingOk(x.full) && x.dpcTake == Some(0) && x.indicate == []
    ensures var y := Step(x, DpcTakeInc(false));
            y == x.(full := y.full, dpcTake := None, indicate := [0])
  {
  }

  lemma {:induction false} DpcHandsOver(x: Pool)
    requires RingOk(x.empty) && RingOk(x.full) && x.dpcTake.None? && x.testing == [] && x.indicate == [0]
    ensures var y := Step(x, DpcIndicate([true]));
            y.testing == [0] && 0 in y.ndis && y.emptyPut == x.emptyPut
  {
    assert Picked([0], [true], true) == [0];
  }

  lemma {:induction false} ReadsNext(x: Pool, acts: seq<Act>) returns (y: Pool)
    requires Inv(x) && acts != [] && acts[0] == DpcTakeRead && x.dpcTake.None? && x.testing == []
    requires x.full.rd == 0 && x.full.wr == 1 && x.full.arr[0] == 0
    ensures Inv(y) && Run(x, acts) == Run(y, acts[1..]) && y == x.(dpcTake := Some(0))
  {
    DpcReads(x);
    y := RunNext(x, acts);
  }

  lemma {:induction false} TakesNext(x: Pool, acts: seq<Act>) returns (y: Pool)
    requires Inv(x) && acts != [] && acts[0] == DpcTakeInc(false) && x.dpcTake == Some(0) && x.indicate == []
    ensures Inv(y) && Run(x, acts) == Run(y, acts[1..]) && y == x.(full := y.full, dpcTake := None, indicate := [0])
  {
    DpcTakes(x);
    y := RunNext(x, acts);
  }

  lemma {:induction false} HandsOverNext(x: Pool, acts: seq<Act>) returns (y: Pool)
    requires Inv(x) && acts == [DpcIndicate([true])] && x.dpcTake.None? && x.testing == [] && x.indicate == [0]
    ensures Inv(y) && Run(x, acts) == y && y.testing == [0] && 0 in y.ndis && y.emptyPut == x.emptyPut
  {
    DpcHandsOver(x);
    y := RunNext(x, acts);
  }

  /** The deferred handler takes it and indicates it, and NDIS keeps it. */
  lemma {:induction false} ThreeSteps(x: Pool, acts: seq<Act>) returns (y: Pool)
    requires Inv(x) && acts == [DpcTakeRead, DpcTakeInc(false), DpcIndicate([true])]
    requires x.full.rd == 0 && x.full.wr == 1 && x.full.arr[0] == 0 && DpcEmpty(x)
    ensures Inv(y) && Run(x, acts) == y && y.emptyPut == None && y.testing == [0] && 0 in y.ndis
  {
    y := ReadsNext(x, acts);
    y := TakesNext(y, acts[1..]);
    y := HandsOverNext(y, acts[1..][1..]);
  }

  lemma {:induction false} IotaOnce(n: nat, p: nat)
    ensures multiset(Iota(n))[p] == if p < n then 1 else 0
    decreases n
  {
    if n > 0 {
      IotaOnce(n - 1, p);
      assert Iota(n) == Iota(n - 1) + [n - 1];
    }
  }
}
