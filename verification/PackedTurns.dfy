/** The driver's own add, word by word in the order of its loop, each word between any actions of the device:
    when the words are written, the write of the head's flags word is the add. */
module PackedTurns {
  import opened RingMath
  import opened Ledger
  import opened PackedRing
  import opened PackedInvariant
  import opened PackedRuns
  import opened PackedQueueClass
  import opened PackedPublish

  /** Whose turn it is: the driver writes its next word, or the device acts. */
  datatype Turn = Driver | Fetches | Completes(i: nat, len: nat, extra: Flags)

  /** The driver is about to write word `w` (address, length, id, flags) of slot `n` of the chain. */
  datatype Adder = Adder(x: Adding, n: nat, w: nat)

  // ---------------------------------------------------------------- words

  /** A slot after the first `w` words of `d`. */
  function Words(before: PDesc, d: PDesc, w: nat): PDesc {
    PDesc(if w >= 1 then d.addr else before.addr, if w >= 2 then d.len else before.len,
          if w >= 3 then d.id else before.id, if w >= 4 then d.flags else before.flags)
  }

  /** How many words of slot `o` are written. The head's flags word is not one of them. */
  function WordsAt(o: nat, n: nat, w: nat): nat {
    if o > n then 0 else if o == n then w else if o == 0 then 3 else 4
  }

  /** Memory when the driver has come this far and the device has left `r`. */
  ghost predicate PartFilled(r: Packed, b: Buf, mem: seq<PDesc>, n: nat, w: nat)
    requires WellFormed(r) && Shaped(b) && |b.ids| <= r.num
  {
    |mem| == r.num && forall at :: 0 <= at < r.num ==> SlotPart(r, b, mem[at], at, n, w)
  }

  ghost predicate SlotPart(r: Packed, b: Buf, d: PDesc, at: nat, n: nat, w: nat)
    requires WellFormed(r) && Shaped(b) && |b.ids| <= r.num && at < r.num
  {
    var o := Offset(r.num, r.nextIdx, at);
    d == if o < |b.ids| then Words(r.desc[at], DescOf(b, o, ParityAt(r.num, r.nextIdx, r.auAvail, o)), WordsAt(o, n, w))
         else r.desc[at]
  }

  ghost predicate Filling(a: Adder, b: Buf) {
    && Shaped(b) && Begun(a.x, |b.ids|) && |b.ids| <= a.x.s.r.num
    && a.n <= |b.ids| && a.w <= (if a.n == |b.ids| then 0 else if a.n == 0 then 2 else 3)
    && PartFilled(a.x.s.r, b, a.x.mem, a.n, a.w)
  }

  /** The descriptor in the slot under way after its next word. */
  ghost function NextWord(a: Adder, b: Buf): PDesc
    requires Filling(a, b) && a.n < |b.ids|
  {
    var r := a.x.s.r;
    var d := DescOf(b, a.n, ParityAt(r.num, r.nextIdx, r.auAvail, a.n));
    var now := a.x.mem[Slot(r.num, r.nextIdx, a.n)];
    if a.w == 0 then now.(addr := d.addr)
    else if a.w == 1 then now.(len := d.len)
    else if a.w == 2 then now.(id := d.id)
    else now.(flags := d.flags)
  }

  /** What a turn does to memory and to the queue. */
  ghost function AccessOf(a: Adder, b: Buf, t: Turn): Access
    requires Filling(a, b)
  {
    match t
    case Driver => if a.n < |b.ids| then Writes(a.n, NextWord(a, b)) else Writes(|b.ids|, ZeroDesc)
    case Fetches => Reads
    case Completes(i, len, extra) => Uses(i, len, extra)
  }

  /** The driver's next place: from the last word of a slot to the next slot, and no further than the end. */
  function Further(n: nat, w: nat, k: nat): (nat, nat) {
    if n >= k then (n, w) else if w == 3 || (w == 2 && n == 0) then (n + 1, 0) else (n, w + 1)
  }

  ghost function TurnStep(a: Adder, b: Buf, t: Turn): Adder
    requires Filling(a, b)
  {
    var x := AccessStep(a.x, AccessOf(a, b, t), |b.ids|);
    if t.Driver? then var (n, w) := Further(a.n, a.w, |b.ids|); Adder(x, n, w) else Adder(x, a.n, a.w)
  }

  // ---------------------------------------------------------------- each turn keeps what is filled

  lemma {:induction false} WordFills(r: Packed, b: Buf, mem: seq<PDesc>, n: nat, w: nat, d: PDesc)
    requires WellFormed(r) && Shaped(b) && |b.ids| <= r.num && n < |b.ids| && w <= (if n == 0 then 2 else 3)
    requires PartFilled(r, b, mem, n, w)
    requires var want := DescOf(b, n, ParityAt(r.num, r.nextIdx, r.auAvail, n));
             var now := mem[Slot(r.num, r.nextIdx, n)];
             d == if w == 0 then now.(addr := want.addr) else if w == 1 then now.(len := want.len)
                  else if w == 2 then now.(id := want.id) else now.(flags := want.flags)
    ensures var (n', w') := Further(n, w, |b.ids|);
            PartFilled(r, b, mem[Slot(r.num, r.nextIdx, n) := d], n', w')
  {
    var at := Slot(r.num, r.nextIdx, n);
    var (n', w') := Further(n, w, |b.ids|);
    SlotInjective(r.num, r.nextIdx, n, n);
    assert SlotPart(r, b, mem[at], at, n, w);
    var mem' := mem[at := d];
    forall i | 0 <= i < r.num
      ensures SlotPart(r, b, mem'[i], i, n', w')
    {
      assert SlotPart(r, b, mem[i], i, n, w);
    }
  }

  lemma {:induction false} WriteIs(x: Adding, k: nat, j: nat, d: PDesc)
    requires Begun(x, k) && j < k && (j == 0 ==> d.flags == x.mem[Slot(x.s.r.num, x.s.r.nextIdx, j)].flags)
    ensures AccessStep(x, Writes(j, d), k) == Adding(x.s, x.mem[Slot(x.s.r.num, x.s.r.nextIdx, j) := d])
  {
  }

  lemma {:induction false} WriteKeeps(x: Adding, k: nat, j: nat, d: PDesc)
    requires Begun(x, k) && j < k
    ensures Begun(AccessStep(x, Writes(j, d), k), k)
  {
    AccessKeeps(x, Writes(j, d), k);
  }

  lemma {:induction false} DriverDone(a: Adder, b: Buf)
    requires Filling(a, b) && a.n == |b.ids|
    ensures TurnStep(a, b, Driver) == a
  {
  }

  lemma {:induction false} DriverKeeps(a: Adder, b: Buf)
    requires Filling(a, b)
    ensures Filling(TurnStep(a, b, Driver), b) && TurnStep(a, b, Driver).x.s == a.x.s
  {
    if a.n < |b.ids| {
      var d := NextWord(a, b);
      WriteIs(a.x, |b.ids|, a.n, d);
      WriteKeeps(a.x, |b.ids|, a.n, d);
      WordFills(a.x.s.r, b, a.x.mem, a.n, a.w, d);
      var (n, w) := Further(a.n, a.w, |b.ids|);
      StillFilling(a, b, AccessStep(a.x, Writes(a.n, d), |b.ids|), n, w);
    } else {
      DriverDone(a, b);
    }
  }

  /** Other memory, another queue, another place. */
  lemma {:induction false} StillFilling(a: Adder, b: Buf, y: Adding, n: nat, w: nat)
    requires Filling(a, b) && Begun(y, |b.ids|) && y.s.r.num == a.x.s.r.num && PartFilled(y.s.r, b, y.mem, n, w)
    requires n <= |b.ids| && w <= (if n == |b.ids| then 0 else if n == 0 then 2 else 3)
    ensures Filling(Adder(y, n, w), b)
  {
  }

  /** A used element in a slot behind the chain. */
  lemma {:induction false} UseKeepsPart(r: Packed, r': Packed, b: Buf, mem: seq<PDesc>, mem': seq<PDesc>, at: nat, n: nat, w: nat)
    requires WellFormed(r) && WellFormed(r') && Shaped(b) && |b.ids| <= r.num && PartFilled(r, b, mem, n, w)
    requires SameDriver(r, r') && at < r.num && Offset(r.num, r.nextIdx, at) >= |b.ids|
    requires r'.desc == r.desc[at := r'.desc[at]] && mem' == mem[at := r'.desc[at]]
    ensures PartFilled(r', b, mem', n, w)
  {
    forall i | 0 <= i < r.num
      ensures SlotPart(r', b, mem'[i], i, n, w)
    {
      assert SlotPart(r, b, mem[i], i, n, w);
    }
  }

  lemma {:induction false} UseTurn(x: Adding, i: nat, len: nat, extra: Flags, k: nat)
    requires Begun(x, k) && i < |x.s.g.fetched|
    ensures var y := AccessStep(x, Uses(i, len, extra), k);
            var at := x.s.dev.usedIdx;
            && SameDriver(x.s.r, y.s.r) && WellFormed(y.s.r) && at < x.s.r.num
            && Offset(x.s.r.num, x.s.r.nextIdx, at) >= k
            && y.s.r.desc == x.s.r.desc[at := y.s.r.desc[at]] && y.mem == x.mem[at := y.s.r.desc[at]]
  {
    UsedSlotIsOutside(x.s, i, k);
    UseIsWrite(x.s, i, len, extra);
    UseLeavesDriver(x.s, i, len, extra);
    CompleteStepKeeps(x.s, i, len, extra);
    assert x.mem[x.s.dev.usedIdx] == x.s.r.desc[x.s.dev.usedIdx];
  }

  lemma {:induction false} CompletesKeeps(a: Adder, b: Buf, i: nat, len: nat, extra: Flags)
    requires Filling(a, b) && i < |a.x.s.g.fetched|
    ensures Filling(TurnStep(a, b, Completes(i, len, extra)), b)
  {
    var y := CompletesFill(a, b, i, len, extra);
    CompletesMoves(a, b, i, len, extra, y);
    SameFilling(Adder(y, a.n, a.w), TurnStep(a, b, Completes(i, len, extra)), b);
  }

  lemma {:induction false} CompletesMoves(a: Adder, b: Buf, i: nat, len: nat, extra: Flags, y: Adding)
    requires Filling(a, b) && y == AccessStep(a.x, Uses(i, len, extra), |b.ids|)
    ensures TurnStep(a, b, Completes(i, len, extra)) == Adder(y, a.n, a.w)
  {
  }

  lemma {:induction false} SameFilling(a: Adder, z: Adder, b: Buf)
    requires Filling(a, b) && z == a
    ensures Filling(z, b)
  {
  }

  lemma {:induction false} CompletesFill(a: Adder, b: Buf, i: nat, len: nat, extra: Flags) returns (y: Adding)
    requires Filling(a, b) && i < |a.x.s.g.fetched|
    ensures y == AccessStep(a.x, Uses(i, len, extra), |b.ids|) && Filling(Adder(y, a.n, a.w), b)
  {
    y := UseGives(a.x, i, len, extra, |b.ids|);
    AfterUse(a, b, y, a.x.s.dev.usedIdx);
  }

  lemma {:induction false} UseGives(x: Adding, i: nat, len: nat, extra: Flags, k: nat) returns (y: Adding)
    requires Begun(x, k) && i < |x.s.g.fetched|
    ensures y == AccessStep(x, Uses(i, len, extra), k) && Begun(y, k) && WellFormed(x.s.r)
    ensures var at := x.s.dev.usedIdx;
            && SameDriver(x.s.r, y.s.r) && WellFormed(y.s.r) && at < x.s.r.num
            && Offset(x.s.r.num, x.s.r.nextIdx, at) >= k
            && y.s.r.desc == x.s.r.desc[at := y.s.r.desc[at]] && y.mem == x.mem[at := y.s.r.desc[at]]
  {
    y := AccessStep(x, Uses(i, len, extra), k);
    AccessKeeps(x, Uses(i, len, extra), k);
    UseTurn(x, i, len, extra, k);
  }

  lemma {:induction false} AfterUse(a: Adder, b: Buf, y: Adding, at: nat)
    requires Filling(a, b) && Begun(y, |b.ids|) && SameDriver(a.x.s.r, y.s.r) && WellFormed(y.s.r) && at < a.x.s.r.num
    requires Offset(a.x.s.r.num, a.x.s.r.nextIdx, at) >= |b.ids|
    requires y.s.r.desc == a.x.s.r.desc[at := y.s.r.desc[at]] && y.mem == a.x.mem[at := y.s.r.desc[at]]
    ensures Filling(Adder(y, a.n, a.w), b)
  {
    UseKeepsPart(a.x.s.r, y.s.r, b, a.x.mem, y.mem, at, a.n, a.w);
    StillFilling(a, b, y, a.n, a.w);
  }

  lemma {:induction false} NothingToComplete(a: Adder, b: Buf, i: nat, len: nat, extra: Flags)
    requires Filling(a, b) && i >= |a.x.s.g.fetched|
    ensures TurnStep(a, b, Completes(i, len, extra)) == a
  {
  }

  lemma {:induction false} FetchesKeeps(a: Adder, b: Buf)
    requires Filling(a, b)
    ensures Filling(TurnStep(a, b, Fetches), b)
  {
    AccessKeeps(a.x, Reads, |b.ids|);
    FetchLeavesRing(a.x.s);
  }

  lemma {:induction false} FetchLeavesRing(s: System)
    requires Inv(s)
    ensures FetchStep(s).0.r == s.r
  {
  }

  lemma {:induction false} TurnKeeps(a: Adder, b: Buf, t: Turn)
    requires Filling(a, b)
    ensures Filling(TurnStep(a, b, t), b)
  {
    match t
    case Driver => DriverKeeps(a, b);
    case Fetches => FetchesKeeps(a, b);
    case Completes(i, len, extra) =>
      if i < |a.x.s.g.fetched| {
        CompletesKeeps(a, b, i, len, extra);
      } else {
        NothingToComplete(a, b, i, len, extra);
      }
  }

  // ---------------------------------------------------------------- any interleaving

  ghost function TurnRun(a: Adder, b: Buf, turns: seq<Turn>): (z: Adder)
    requires Filling(a, b)
    ensures Filling(z, b)
    decreases |turns|
  {
    if turns == [] then a
    else
      TurnKeeps(a, b, turns[0]);
      TurnRun(TurnStep(a, b, turns[0]), b, turns[1..])
  }

  /** The device's part of the turns, as operations on the queue. */
  function OpsOfTurn(t: Turn): seq<Op> {
    match t
    case Driver => []
    case Fetches => [Fetch]
    case Completes(i, len, extra) => [Complete(i, len, extra)]
  }

  function TurnOps(turns: seq<Turn>): (ops: seq<Op>)
    ensures AllAllowed(ops)
  {
    if turns == [] then [] else OpsOfTurn(turns[0]) + TurnOps(turns[1..])
  }

  function DriverTurns(turns: seq<Turn>): nat {
    if turns == [] then 0 else (if turns[0].Driver? then 1 else 0) + DriverTurns(turns[1..])
  }

  /** The words written before this place: three of the head and four of every other slot. */
  function Place(n: nat, w: nat): nat { if n == 0 then w else 4 * n - 1 + w }

  lemma {:induction false} TurnIsOps(a: Adder, b: Buf, t: Turn, ops: seq<Op>)
    requires Filling(a, b) && AllAllowed(ops)
    ensures AllAllowed(OpsOfTurn(t) + ops) && Inv(TurnStep(a, b, t).x.s)
    ensures Run(a.x.s, OpsOfTurn(t) + ops).0 == Run(TurnStep(a, b, t).x.s, ops).0
  {
    match t
    case Driver =>
      DriverKeeps(a, b);
      assert OpsOfTurn(t) + ops == ops;
    case Fetches =>
      AccessIsOp(a.x, Reads, |b.ids|, ops);
    case Completes(i, len, extra) =>
      AccessIsOp(a.x, Uses(i, len, extra), |b.ids|, ops);
  }

  /** The device's moves are those of a run without the add. */
  lemma {:induction false} TurnsAreOps(a: Adder, b: Buf, turns: seq<Turn>)
    requires Filling(a, b)
    ensures TurnRun(a, b, turns).x.s == Run(a.x.s, TurnOps(turns)).0
    decreases |turns|
  {
    if turns != [] {
      TurnKeeps(a, b, turns[0]);
      TurnIsOps(a, b, turns[0], TurnOps(turns[1..]));
      TurnsAreOps(TurnStep(a, b, turns[0]), b, turns[1..]);
    }
  }

  lemma {:induction false} TurnLeavesDriver(a: Adder, b: Buf, t: Turn)
    requires Filling(a, b)
    ensures SameDriver(a.x.s.r, TurnStep(a, b, t).x.s.r)
  {
    AccessLeavesDriver(a.x, AccessOf(a, b, t), |b.ids|);
  }

  lemma {:induction false} SameDriverTwice(r: Packed, r': Packed, r'': Packed)
    requires SameDriver(r, r') && SameDriver(r', r'')
    ensures SameDriver(r, r'')
  {
  }

  /** The driver's fields stay. */
  lemma {:induction false} TurnsLeaveDriver(a: Adder, b: Buf, turns: seq<Turn>) returns (r: Packed)
    requires Filling(a, b)
    ensures r == TurnRun(a, b, turns).x.s.r && SameDriver(a.x.s.r, r)
    decreases |turns|
  {
    if turns == [] {
      r := a.x.s.r;
    } else {
      TurnKeeps(a, b, turns[0]);
      var a' := TurnStep(a, b, turns[0]);
      r := TurnsLeaveDriver(a', b, turns[1..]);
      TurnLeavesDriver(a, b, turns[0]);
      SameDriverTwice(a.x.s.r, a'.x.s.r, r);
    }
  }

  lemma {:induction false} FurtherPlace(n: nat, w: nat, k: nat)
    requires 1 <= k && n <= k && w <= (if n == k then 0 else if n == 0 then 2 else 3)
    ensures var (n', w') := Further(n, w, k);
            Place(n', w') == if Place(n, w) < 4 * k - 1 then Place(n, w) + 1 else Place(n, w)
    ensures Place(n, w) <= 4 * k - 1
  {
  }

  /** How far the driver has come. */
  function PlaceOf(a: Adder): nat { Place(a.n, a.w) }

  lemma {:induction false} TurnPlace(a: Adder, b: Buf, t: Turn)
    requires Filling(a, b)
    ensures PlaceOf(a) <= 4 * |b.ids| - 1
    ensures PlaceOf(TurnStep(a, b, t))
         == if t.Driver? && PlaceOf(a) < 4 * |b.ids| - 1 then PlaceOf(a) + 1 else PlaceOf(a)
  {
    FurtherPlace(a.n, a.w, |b.ids|);
  }

  /** With as many turns of the driver as words are left, all words are written. */
  lemma {:induction false} TurnsWrite(a: Adder, b: Buf, turns: seq<Turn>)
    requires Filling(a, b) && PlaceOf(a) + DriverTurns(turns) >= 4 * |b.ids| - 1
    ensures PlaceOf(TurnRun(a, b, turns)) == 4 * |b.ids| - 1
    decreases |turns|
  {
    if turns == [] {
      TurnPlace(a, b, Fetches);
    } else {
      TurnKeeps(a, b, turns[0]);
      TurnPlace(a, b, turns[0]);
      TurnsWrite(TurnStep(a, b, turns[0]), b, turns[1..]);
    }
  }

  lemma {:induction false} FilledAtEnd(a: Adder, b: Buf)
    requires Filling(a, b) && PlaceOf(a) == 4 * |b.ids| - 1
    ensures Filled(a.x.s.r, b, a.x.mem, |b.ids|)
  {
    var r, k := a.x.s.r, |b.ids|;
    var ds := RingDescs(r.num, r.nextIdx, r.auAvail, b);
    forall i | 0 <= i < r.num
      ensures var o := Offset(r.num, r.nextIdx, i);
              a.x.mem[i] == if o >= k then r.desc[i] else if o == 0 then ds[0].(flags := r.desc[i].flags) else ds[o]
    {
      assert SlotPart(r, b, a.x.mem[i], i, a.n, a.w);
    }
  }

  lemma {:induction false} AddBegins(s: System, b: Buf)
    requires Inv(s) && Shaped(b) && |b.ids| <= s.r.numFree
    ensures Filling(Adder(Adding(s, s.r.desc), 0, 0), b)
  {
  }

  lemma {:induction false} TurnsEnd(a: Adder, b: Buf, turns: seq<Turn>) returns (z: Adder)
    requires Filling(a, b) && PlaceOf(a) == 0 && forall i :: 0 <= i < |b.ids| ==> b.ids[i] < a.x.s.r.num
    ensures z == TurnRun(a, b, turns) && z.x.s == Run(a.x.s, TurnOps(turns)).0 && SameDriver(a.x.s.r, z.x.s.r)
    ensures DriverTurns(turns) >= 4 * |b.ids| - 1 ==> HeadMakesAdd(z.x, b)
  {
    z := TurnRun(a, b, turns);
    TurnsAreOps(a, b, turns);
    var r := TurnsLeaveDriver(a, b, turns);
    if DriverTurns(turns) >= 4 * |b.ids| - 1 {
      TurnsWrite(a, b, turns);
      Publishes(z, b);
    }
  }

  /** The write of the head's flags word makes memory what an add makes of it. */
  ghost predicate HeadMakesAdd(y: Adding, b: Buf) {
    && WellFormed(y.s.r) && Shaped(b) && |b.ids| <= y.s.r.numFree && |y.mem| == y.s.r.num
    && (forall i :: 0 <= i < |b.ids| ==> b.ids[i] < y.s.r.num)
    && y.mem[y.s.r.nextIdx := y.mem[y.s.r.nextIdx].(flags := DescOf(b, 0, y.s.r.auAvail).flags)] == Accept(y.s.r, b).desc
  }

  lemma {:induction false} Publishes(z: Adder, b: Buf)
    requires Filling(z, b) && PlaceOf(z) == 4 * |b.ids| - 1 && forall i :: 0 <= i < |b.ids| ==> b.ids[i] < z.x.s.r.num
    ensures HeadMakesAdd(z.x, b)
  {
    FilledAtEnd(z, b);
    FillDone(z.x.s.r, b, z.x.mem);
  }

  /** An add takes effect at its last write. The driver writes its words in the order of its loop, and between
      any two of them the device does what it likes. The device moves exactly as if the add had not begun; and
      after the `4 * k - 1` words of a chain of `k` descriptors, the write of the head's flags word makes
      memory what an add makes of it that is done at once, then. */
  lemma {:induction false} AddTakesEffectAtLastWrite(s: System, b: Buf, turns: seq<Turn>)
    requires Inv(s) && Shaped(b) && |b.ids| <= s.r.numFree
    requires forall i :: 0 <= i < |b.ids| ==> b.ids[i] < s.r.num
    ensures Filling(Adder(Adding(s, s.r.desc), 0, 0), b)
    ensures var y := TurnRun(Adder(Adding(s, s.r.desc), 0, 0), b, turns).x;
            && y.s == Run(s, TurnOps(turns)).0 && SameDriver(s.r, y.s.r)
            && (DriverTurns(turns) >= 4 * |b.ids| - 1 ==> HeadMakesAdd(y, b))
  {
    AddBegins(s, b);
    var z := TurnsEnd(Adder(Adding(s, s.r.desc), 0, 0), b, turns);
  }

}
