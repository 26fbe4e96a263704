/** `DoDiskIO` on the driver's own data structures. */
module BlkDriver {
  import opened Integers
  import opened RingMath
  import opened EventIndex
  import opened Ledger
  import opened SplitRing
  import opened SplitSteps
  import opened BlkPlan
  import opened BlkDevice
  import opened BlkEngine

  /** The disk and its one virtqueue. The device side is `usedIdx`, `used`, the completion order of the
      current batch, and a record of what it executed and reported. */
  class BlkDisk {
    const num: nat
    const maxSg: nat
    const meta: nat
    const sectors: nat
    const readonly: bool
    const desc: array<BDesc>
    const headers: array<Header>
    const tails: array<nat>
    const avail: array<nat>
    const used: array<nat>
    var availIdx: nat
    var lastUsed: nat
    var usedIdx: nat
    var devBase: nat
    var devOrder: seq<nat>
    var devDone: nat
    ghost var log: seq<Report>

    /** Sizes that never change: the queue is a power of two and leaves room for one sector at least. */
    ghost predicate Shape() {
      && RingSize(num) && 2 * maxSg + 2 < num && sectors < U32
      && desc.Length == headers.Length == tails.Length == avail.Length == used.Length == num
      && tails != avail && tails != used && avail != used
    }

    ghost predicate For(x: Job) {
      x.num == num && x.meta == meta && |x.sgs| <= maxSg
    }

    /** A queue whose size is a power of two and holds a sector cut as small as it can be. */
    constructor (num: nat, maxSg: nat, meta: nat, sectors: nat, readonly: bool)
      requires RingSize(num) && 2 * maxSg + 2 < num && sectors < U32
      ensures Quiet() && this.num == num && this.maxSg == maxSg && this.meta == meta
      ensures this.sectors == sectors && this.readonly == readonly && log == []
    {
      this.num, this.maxSg, this.meta, this.sectors, this.readonly := num, maxSg, meta, sectors, readonly;
      desc := new BDesc[num](_ => BDesc(0, 0, false, false, 0));
      headers := new Header[num](_ => Header(0, 0, 0));
      tails := new nat[num](_ => 0);
      avail := new nat[num](_ => 0);
      used := new nat[num](_ => 0);
      availIdx, lastUsed, usedIdx, devBase, devOrder, devDone, log := 0, 0, 0, 0, [], 0, [];
    }

    // -------------------------------------------------------------- one sector

    method WriteHeader(x: Job, at: nat, sector: nat)
      requires at < desc.Length == headers.Length
      modifies desc, headers
      ensures desc[..] == old(desc[..])[at := BDesc(meta + 16 * at, 16, true, false, at + 1)]
      ensures headers[..] == old(headers[..])[at := Header(if x.out then T_OUT else T_IN, 0, sector)]
    {
      desc[at] := BDesc(meta + 16 * at, 16, true, false, at + 1);
      headers[at] := Header(if x.out then T_OUT else T_IN, 0, sector);
    }

    method WriteTail(at: nat)
      requires at < desc.Length == tails.Length
      modifies desc, tails
      ensures desc[..] == old(desc[..])[at := BDesc(meta + 16 * num + at, 1, false, true, 0)]
      ensures tails[..] == old(tails[..])[at := NO_STATUS]
    {
      desc[at] := BDesc(meta + 16 * num + at, 1, false, true, 0);
      tails[at] := NO_STATUS;
    }

    /** The physical address of a place; `index` is the entry of the page row it uses. */
    method DataAddr(x: Job, pfns: seq<nat>, m: nat, k: nat, pos: nat) returns (addr: nat, ghost index: nat)
      requires k < |x.sgs| && pos <= x.sgs[k].len && PagesReady(x, pfns, m)
      ensures Row(m, k) <= index < Row(m, k) + m <= |pfns|
      ensures pos < x.sgs[k].len ==> addr == Phys(x.frame, x.sgs[k].addr + pos)
    {
      var buf := x.sgs[k].addr;
      var startPg := buf - buf % PAGE;
      var ptr := buf + pos;
      var pg := ptr - ptr % PAGE;
      var j := (pg - startPg) / PAGE;
      PageIndex(x.sgs[k], pos);
      assert j == ptr / PAGE - buf / PAGE;
      RowNext(m, k, |x.sgs|);
      index := Row(m, k) + j;
      if pos < x.sgs[k].len {
        assert EntryOk(x.frame, x.sgs[k], pfns, m, k, j);
      }
      addr := pfns[k * m + j] + (ptr - pg);
    }

    /** One data descriptor. */
    method WriteData(x: Job, pfns: seq<nat>, m: nat, at: nat, n: nat, k: nat, pos: nat, ghost at0: nat, ghost done: seq<Piece>)
      requires PagesReady(x, pfns, m) && k < |x.sgs| && pos + n <= x.sgs[k].len
      requires at == at0 + |done| < desc.Length && DataLaid(x, desc[..], at0, done)
      modifies desc
      ensures DataLaid(x, desc[..], at0, done + [Piece(k, pos, n)])
      ensures desc[..] == old(desc[..])[at := desc[at]]
    {
      var addr, index := DataAddr(x, pfns, m, k, pos);
      ghost var before := desc[..];
      desc[at] := BDesc(addr, n, true, !x.out, at + 1);
      DataGrows(x, before, desc[..], at0, done, Piece(k, pos, n));
    }

    /** The loop that cuts one sector. The branch for buffers that are too small is never taken. */
    method FillData(x: Job, pfns: seq<nat>, m: nat, at0: nat, k0: nat, pos0: nat, isLast: bool)
      returns (at: nat, k: nat, pos: nat)
      requires PagesReady(x, pfns, m)
      requires IsPlace(x.sgs, Place(k0, pos0)) && SECTOR <= Left(x.sgs, Place(k0, pos0))
      requires isLast <==> SECTOR == Left(x.sgs, Place(k0, pos0))
      requires at0 + 2 * |x.sgs| <= desc.Length
      modifies desc
      ensures var ps := Pieces(x.sgs, Place(k0, pos0), SECTOR);
              at == at0 + |ps| && |ps| <= 2 * |x.sgs| && DataLaid(x, desc[..], at0, ps)
      ensures Place(k, pos) == After(x.sgs, Place(k0, pos0), SECTOR)
      ensures SameOutside(old(desc[..]), desc[..], at0, at)
    {
      at, k, pos := at0, k0, pos0;
      var left := SECTOR;
      ghost var c0, done := Place(k0, pos0), [];
      PiecesAreFew(x.sgs, c0, SECTOR);
      while left > 0
        invariant at == at0 + |done| && DataLaid(x, desc[..], at0, done)
        invariant Cutting(x.sgs, c0, Place(k, pos), left, done)
        invariant SameOutside(old(desc[..]), desc[..], at0, at)
        decreases |x.sgs| - k, left
      {
        CutStep(x.sgs, c0, Place(k, pos), left, done);
        var n := OpLen(x.sgs, Place(k, pos), left);
        WriteData(x, pfns, m, at, n, k, pos, at0, done);
        done := done + [Piece(k, pos, n)];
        ghost var next := Move(x.sgs, Place(k, pos), n);
        at, pos, left := at + 1, pos + n, left - n;
        if pos == x.sgs[k].len {
          k, pos := k + 1, 0;
          if k == |x.sgs| && (left != 0 || !isLast) {
            assert false;
            break;
          }
        }
        assert Place(k, pos) == next;
      }
      CutDone(x.sgs, c0, Place(k, pos), done);
    }

    /** One sector's chain: header, data, tail. */
    method FillSector(x: Job, pfns: seq<nat>, m: nat, at: nat, sector: nat, k0: nat, pos0: nat, isLast: bool)
      returns (next: nat, k: nat, pos: nat, ghost p: Plan)
      requires Shape() && For(x) && PagesReady(x, pfns, m)
      requires IsPlace(x.sgs, Place(k0, pos0)) && SECTOR <= Left(x.sgs, Place(k0, pos0))
      requires isLast <==> SECTOR == Left(x.sgs, Place(k0, pos0))
      requires at + 2 * |x.sgs| + 2 <= num
      modifies desc, headers, tails
      ensures p == Plan(sector, at, Pieces(x.sgs, Place(k0, pos0), SECTOR))
      ensures next == Tail(p) + 1 <= at + 2 * |x.sgs| + 2
      ensures Laid(x, desc[..], headers[..], p) && tails[Tail(p)] == NO_STATUS
      ensures Place(k, pos) == After(x.sgs, Place(k0, pos0), SECTOR)
      ensures SameOutside(old(desc[..]), desc[..], at, next) && SameOutside(old(headers[..]), headers[..], at, next)
    {
      WriteHeader(x, at, sector);
      next, k, pos := FillData(x, pfns, m, at + 1, k0, pos0, isLast);
      p := Plan(sector, at, Pieces(x.sgs, Place(k0, pos0), SECTOR));
      ghost var d := desc[..];
      WriteTail(next);
      SectorLaid(x, d, desc[..], headers[..], p);
      next := next + 1;
    }

    /** The chain of sector number `handled`. */
    method CutSector(x: Job, pfns: seq<nat>, m: nat, at: nat, handled: nat, numSec: nat, start: nat, k0: nat, pos0: nat,
                     ghost places: seq<Place>)
      returns (next: nat, k: nat, pos: nat, ghost p: Plan)
      requires Shape() && For(x) && PagesReady(x, pfns, m)
      requires handled < numSec == |places| - 1 && places[handled] == Place(k0, pos0) && GridStep(x.sgs, places, handled)
      requires at + 2 * |x.sgs| + 2 <= num
      modifies desc, headers, tails
      ensures p.head == at && next == Tail(p) + 1 <= at + 2 * |x.sgs| + 2
      ensures IsCut(x, places, start, p, handled) && places[handled + 1] == Place(k, pos)
      ensures Laid(x, desc[..], headers[..], p)
      ensures SameOutside(old(desc[..]), desc[..], at, next) && SameOutside(old(headers[..]), headers[..], at, next)
    {
      next, k, pos, p := FillSector(x, pfns, m, at, (start + handled) % U32, k0, pos0, handled + 1 == numSec);
    }

    /** One turn of the batch loop: the head in the available ring, and the sector's chain. */
    method PostSector(x: Job, pfns: seq<nat>, m: nat, at: nat, idx: nat, handled: nat, numSec: nat, start: nat,
                      k0: nat, pos0: nat, ghost places: seq<Place>, ghost first: nat, ghost plans: seq<Plan>, ghost base: nat)
      returns (next: nat, idx': nat, k: nat, pos: nat, ghost more: seq<Plan>)
      requires Shape() && For(x) && PagesReady(x, pfns, m) && Grid(x.sgs, places)
      requires handled < numSec == |places| - 1 && places[handled] == Place(k0, pos0)
      requires PostedNow(x, places, start, first, plans, base) && handled == first + |plans|
      requires at == EndOf(plans) && at + 2 * maxSg + 2 < num && idx == Low16(base + |plans|)
      modifies desc, headers, tails, avail
      ensures |more| == |plans| + 1 && next == EndOf(more) && idx' == Low16(base + |more|)
      ensures places[handled + 1] == Place(k, pos)
      ensures PostedNow(x, places, start, first, more, base)
    {
      ghost var d, h, ring := desc[..], headers[..], avail[..];
      assert GridStep(x.sgs, places, handled);
      idx' := WriteHead(at, idx, base, |plans|);
      ghost var p;
      next, k, pos, p := CutSector(x, pfns, m, at, handled, numSec, start, k0, pos0, places);
      more := plans + [p];
      assert base + |more| == base + |plans| + 1;
      PostOne(x, places, start, first, plans, p, base, d, h, ring, desc[..], headers[..]);
    }

    /** The head of the batch's chain number `n` in the available ring. */
    method WriteHead(at: nat, idx: nat, ghost base: nat, ghost n: nat) returns (idx': nat)
      requires RingSize(num) && avail.Length == num && n < num && idx == Low16(base + n)
      modifies avail
      ensures avail[..] == old(avail[..])[Slot(num, RingSlot(num, base), n) := at]
      ensures idx' == Low16(base + n + 1)
    {
      IndexSlot(num, base, n);
      NextLow16(base + n);
      avail[RingSlot(num, idx)] := at;
      idx' := Succ16(idx);
    }

    ghost predicate PostedNow(x: Job, places: seq<Place>, start: nat, first: nat, plans: seq<Plan>, base: nat)
      reads desc, headers, avail
    {
      Posted(x, places, start, first, plans, desc[..], headers[..], avail[..], base)
    }

    /** As many sectors as the table takes, with their heads in the available ring. */
    method FillBatch(x: Job, pfns: seq<nat>, m: nat, first: nat, numSec: nat, start: nat, k0: nat, pos0: nat,
                     ghost places: seq<Place>)
      returns (handled: nat, k: nat, pos: nat, idx: nat, ops: nat, ghost plans: seq<Plan>)
      requires Shape() && For(x) && PagesReady(x, pfns, m) && Grid(x.sgs, places) && availIdx < U16
      requires first < numSec == |places| - 1 && places[first] == Place(k0, pos0)
      modifies desc, headers, tails, avail
      ensures first < handled <= numSec && ops == |plans| == handled - first
      ensures places[handled] == Place(k, pos)
      ensures PostedNow(x, places, start, first, plans, availIdx)
      ensures idx == Low16(availIdx + |plans|)
    {
      handled, k, pos, idx, ops, plans := first, k0, pos0, availIdx, 0, [];
      ghost var base := availIdx;
      NothingPosted(x, places, start, first, desc[..], headers[..], avail[..], base);
      var at, full := 0, false;
      while handled < numSec && !full
        invariant first <= handled <= numSec && ops == |plans| == handled - first && (full ==> first < handled)
        invariant at == EndOf(plans) && (full || at + 2 * maxSg + 2 < num) && idx == Low16(base + |plans|)
        invariant places[handled] == Place(k, pos)
        invariant PostedNow(x, places, start, first, plans, base)
      {
        at, idx, k, pos, plans := PostSector(x, pfns, m, at, idx, handled, numSec, start, k, pos, places, first, plans, base);
        ops := ops + 1;
        handled := handled + 1;
        full := at >= num - (2 * maxSg + 2);
      }
    }

    // -------------------------------------------------------------- the device

    ghost predicate Stands(x: Job, plans: seq<Plan>, base: nat)
      reads desc, headers, avail
    {
      Standing(x, plans, desc[..], headers[..], avail[..], base)
    }

    ghost predicate Proceeds(plans: seq<Plan>, order: seq<nat>, base: nat, reaped: nat, done: nat, st: seq<nat>)
      reads tails, used
    {
      Progress(plans, order, tails[..], used[..], base, reaped, done, st)
    }

    /** The chains of `plans` are posted, the device has completed `devDone` of them in its order, and
        the driver has looked at the first `reaped` of those. */
    ghost predicate InFlight(x: Job, plans: seq<Plan>, base: nat, reaped: nat, log0: seq<Report>, st: seq<nat>)
      reads this, desc, headers, tails, avail, used
    {
      && devBase == base
      && Stands(x, plans, base) && Proceeds(plans, devOrder, base, reaped, devDone, st)
      && availIdx == Low16(base + |plans|) && usedIdx == Low16(base + devDone) && lastUsed == Low16(base + reaped)
      && Logged(x, plans, devOrder, st, log0, log)
    }

    /** The device picks the order in which it will complete the batch; callers know no more than that
        it is some order. */
    method PickOrder(n: nat)
      modifies this`devOrder, this`devDone, this`devBase
      ensures Permutes(devOrder, n) && devDone == 0 && devBase == usedIdx
    {
      devOrder := Iota(n);
      devDone, devBase := 0, usedIdx;
    }

    /** The device completes one request: it reads the head from the available ring and the chain from
        the table, does what the chain says, writes a status of its choice and a used entry. */
    method DeviceCompletes(ghost x: Job, ghost plans: seq<Plan>, ghost base: nat, ghost reaped: nat,
                           ghost log0: seq<Report>, ghost st: seq<nat>)
      returns (status: nat)
      requires Shape() && For(x) && InFlight(x, plans, base, reaped, log0, st) && devDone < |plans|
      modifies this`usedIdx, this`devDone, this`log, tails, used
      ensures devDone == old(devDone) + 1
      ensures InFlight(x, plans, base, reaped, log0, st + [status])
    {
      var head, tail, request := DeviceReadsOne(devOrder[devDone], x, plans, base);
      status := WriteStatus(tail, head, request, x, plans, base, reaped, log0, st);
    }

    /** The chain behind entry `i` of the batch: its head, its status byte, and what it asks for. */
    method DeviceReadsOne(i: nat, ghost x: Job, ghost plans: seq<Plan>, ghost base: nat)
      returns (head: nat, tail: nat, ghost request: Request)
      requires Shape() && For(x) && devBase == base && i < |plans|
      requires Stands(x, plans, base)
      ensures head == plans[i].head && tail == Tail(plans[i]) < num && request == PlanRequest(x, plans[i])
    {
      DeviceReads(x, plans, desc[..], headers[..], avail[..], base, i);
      head := avail[RingSlot(num, Low16(devBase + i))];
      tail := StatusByte(desc[..], num, meta, head);
      request := RequestOf(ReadChain(desc[..], head, num), headers[..], meta).value;
    }

    /** The status byte, the used entry, and the index that publishes it. */
    method WriteStatus(tail: nat, head: nat, ghost request: Request, ghost x: Job, ghost plans: seq<Plan>,
                       ghost base: nat, ghost reaped: nat, ghost log0: seq<Report>, ghost st: seq<nat>)
      returns (status: nat)
      requires tails != used && tails.Length == used.Length == num && RingSize(num)
      requires Proceeds(plans, devOrder, base, reaped, devDone, st) && Chained(plans) && devDone < |plans|
      requires usedIdx == Low16(base + devDone) && Logged(x, plans, devOrder, st, log0, log)
      requires var p := plans[devOrder[devDone]];
               head == p.head && tail == Tail(p) < num && request == PlanRequest(x, p)
      modifies this`usedIdx, this`devDone, this`log, tails, used
      ensures devDone == old(devDone) + 1 && Proceeds(plans, devOrder, base, reaped, devDone, st + [status])
      ensures usedIdx == Low16(base + devDone) && Logged(x, plans, devOrder, st + [status], log0, log)
    {
      status := WriteUsed(tail, head, plans, devOrder, base, reaped, devDone, st);
      LogGrows(x, plans, devOrder, st, log0, log, status);
      log := log + [Report(request, status)];
      devDone := devDone + 1;
    }

    method WriteUsed(tail: nat, head: nat, ghost plans: seq<Plan>, ghost order: seq<nat>, ghost base: nat,
                     ghost reaped: nat, ghost done: nat, ghost st: seq<nat>)
      returns (status: nat)
      requires tails != used && tails.Length == used.Length == num && RingSize(num)
      requires Proceeds(plans, order, base, reaped, done, st) && Chained(plans) && done < |plans|
      requires head == plans[order[done]].head && tail == Tail(plans[order[done]]) < num && usedIdx == Low16(base + done)
      modifies this`usedIdx, tails, used
      ensures Proceeds(plans, order, base, reaped, done + 1, st + [status]) && usedIdx == Low16(base + done + 1)
    {
      status :| status < 256;
      ghost var tails0, used0 := tails[..], used[..];
      IndexSlot(num, base, done);
      NextLow16(base + done);
      ProgressGrows(plans, order, tails0, used0, base, reaped, done, st, status);
      tails[tail] := status;
      used[RingSlot(num, usedIdx)] := head;
      usedIdx := Succ16(usedIdx);
      assert tails[..] == tails0[tail := status];
      assert used[..] == used0[Slot(num, RingSlot(num, base), done) := head];
    }

    /** The device completes some more requests, and at least one if `atLeastOne`. */
    method DeviceRuns(atLeastOne: bool, ghost x: Job, ghost plans: seq<Plan>, ghost base: nat, ghost reaped: nat,
                      ghost log0: seq<Report>, ghost st0: seq<nat>)
      returns (ghost st: seq<nat>)
      requires Shape() && For(x) && InFlight(x, plans, base, reaped, log0, st0)
      modifies this`usedIdx, this`devDone, this`log, tails, used
      ensures InFlight(x, plans, base, reaped, log0, st) && devDone >= old(devDone) && st0 <= st
      ensures atLeastOne && old(devDone) < |devOrder| ==> devDone > old(devDone)
    {
      st := st0;
      var more := atLeastOne;
      while devDone < |devOrder| && more
        invariant InFlight(x, plans, base, reaped, log0, st) && devDone >= old(devDone) && st0 <= st
        invariant devDone > old(devDone) || more == atLeastOne
        decreases |devOrder| - devDone
      {
        var status := DeviceCompletes(x, plans, base, reaped, log0, st);
        st := st + [status];
        if * {
          more := false;
        }
      }
    }

    // -------------------------------------------------------------- completion

    /** The walk from a head over 16 + 512 bytes of lengths ends at the status of the same request. */
    method FindTail(head: nat, ghost x: Job, ghost p: Plan) returns (pos: nat)
      requires Laid(x, desc[..], headers[..], p) && Fills(p.pieces, SECTOR) && head == p.head
      ensures pos == Tail(p)
    {
      pos := head;
      var bytesLeft := SECTOR + 16;
      while bytesLeft != 0
        invariant p.head <= pos <= Tail(p)
        invariant bytesLeft == if pos == p.head then SECTOR + 16 else SumFrom(p.pieces, pos - p.head - 1)
        decreases Tail(p) - pos
      {
        if pos > p.head {
          assert DataOk(x, desc[..][pos], p.pieces[pos - (p.head + 1)], pos);
        }
        bytesLeft := bytesLeft - desc[pos].len;
        pos := desc[pos].link;
      }
      if pos < Tail(p) {
        SumIsPositive(p.pieces, pos - p.head - 1);
      }
    }

    /** The driver takes one used entry and reads the status of that request. */
    method ReapOne(ghost x: Job, ghost plans: seq<Plan>, ghost base: nat, ghost reaped: nat,
                   ghost log0: seq<Report>, ghost st: seq<nat>)
      returns (status: nat)
      requires Shape() && For(x) && InFlight(x, plans, base, reaped, log0, st) && reaped < devDone
      modifies this`lastUsed
      ensures InFlight(x, plans, base, reaped + 1, log0, st)
      ensures reaped < |st| && status == st[reaped]
    {
      status := ReadStatus(x, plans, base, reaped, st);
      lastUsed := Succ16(lastUsed);
    }

    /** The status of the request that the next used entry names. */
    method ReadStatus(ghost x: Job, ghost plans: seq<Plan>, ghost base: nat, ghost reaped: nat, ghost st: seq<nat>)
      returns (status: nat)
      requires Shape() && For(x) && Stands(x, plans, base) && Proceeds(plans, devOrder, base, reaped, devDone, st)
      requires reaped < devDone && lastUsed == Low16(base + reaped)
      ensures Proceeds(plans, devOrder, base, reaped + 1, devDone, st) && Succ16(lastUsed) == Low16(base + reaped + 1)
      ensures reaped < |st| && status == st[reaped]
    {
      ReapNext(x, plans, devOrder, desc[..], headers[..], avail[..], tails[..], used[..], base, reaped, devDone, st);
      IndexSlot(num, base, reaped);
      NextLow16(base + reaped);
      var pos := used[RingSlot(num, lastUsed)];
      pos := FindTail(pos, x, plans[devOrder[reaped]]);
      status := tails[pos];
    }

    /** One turn of the inner completion loop, and what the device does meanwhile. */
    method ReapNextOne(failed0: bool, ghost x: Job, ghost plans: seq<Plan>, ghost base: nat, ghost reaped: nat,
                       ghost log0: seq<Report>, ghost st0: seq<nat>)
      returns (failed: bool, ghost st: seq<nat>)
      requires Shape() && For(x) && InFlight(x, plans, base, reaped, log0, st0) && reaped < devDone && reaped <= |st0| && (failed0 <==> !AllOk(st0, reaped))
      modifies this`lastUsed, this`usedIdx, this`devDone, this`log, tails, used
      ensures InFlight(x, plans, base, reaped + 1, log0, st) && reaped < |st| && (failed <==> !AllOk(st, reaped + 1))
    {
      var status := ReapOne(x, plans, base, reaped, log0, st0);
      failed := failed0 || status != S_OK;
      st := DeviceRuns(false, x, plans, base, reaped + 1, log0, st0);
      OkNext(st0, st, reaped);
    }

    /** Whether a used entry is waiting. */
    method HasUsed(ghost x: Job, ghost plans: seq<Plan>, ghost base: nat, ghost reaped: nat,
                   ghost log0: seq<Report>, ghost st: seq<nat>)
      returns (more: bool)
      requires Shape() && For(x) && InFlight(x, plans, base, reaped, log0, st)
      ensures more <==> reaped < devDone
      ensures reaped <= devDone <= |plans|
    {
      UnreadIsVisible(base, reaped, devDone, lastUsed, usedIdx);
      more := lastUsed != usedIdx;
    }

    /** The same, and whether a used entry is waiting then. */
    method ReapTurn(failed0: bool, ghost x: Job, ghost plans: seq<Plan>, ghost base: nat, ghost reaped: nat,
                    ghost log0: seq<Report>, ghost st0: seq<nat>)
      returns (failed: bool, more: bool, ghost st: seq<nat>)
      requires Shape() && For(x) && InFlight(x, plans, base, reaped, log0, st0) && reaped < devDone
      requires reaped <= |st0| && (failed0 <==> !AllOk(st0, reaped))
      modifies this`lastUsed, this`usedIdx, this`devDone, this`log, tails, used
      ensures InFlight(x, plans, base, reaped + 1, log0, st) && reaped + 1 <= devDone <= |plans|
      ensures reaped < |st| && (failed <==> !AllOk(st, reaped + 1)) && (more <==> reaped + 1 < devDone)
    {
      failed, st := ReapNextOne(failed0, x, plans, base, reaped, log0, st0);
      more := HasUsed(x, plans, base, reaped + 1, log0, st);
    }

    /** The inner completion loop: until the used ring looks empty. */
    method ReapWaiting(left0: nat, failed0: bool, ghost x: Job, ghost plans: seq<Plan>, ghost base: nat, ghost reaped0: nat,
                       ghost log0: seq<Report>, ghost st0: seq<nat>)
      returns (left: nat, failed: bool, ghost st: seq<nat>, ghost reaped: nat)
      requires Shape() && For(x) && InFlight(x, plans, base, reaped0, log0, st0) && reaped0 < devDone && left0 == |plans| - reaped0
      requires reaped0 <= |st0| && (failed0 <==> !AllOk(st0, reaped0))
      modifies this`lastUsed, this`usedIdx, this`devDone, this`log, tails, used
      ensures left < left0 && reaped == devDone <= |plans| && left == |plans| - reaped
      ensures InFlight(x, plans, base, reaped, log0, st)
      ensures reaped <= |st| && (failed <==> !AllOk(st, reaped))
    {
      left, failed, st, reaped := left0, failed0, st0, reaped0;
      var more := true;
      while more
        invariant reaped0 <= reaped <= devDone <= |plans| && left == |plans| - reaped && (more <==> reaped < devDone)
        invariant reaped == reaped0 ==> more
        invariant InFlight(x, plans, base, reaped, log0, st)
        invariant reaped <= |st| && (failed <==> !AllOk(st, reaped))
        decreases left
      {
        failed, more, st := ReapTurn(failed, x, plans, base, reaped, log0, st);
        left, reaped := left - 1, reaped + 1;
      }
    }

    /** The completion loop: until every posted request is reaped, whatever the device does meanwhile. */
    method ReapBatch(ops: nat, ghost x: Job, ghost plans: seq<Plan>, ghost base: nat, ghost log0: seq<Report>)
      returns (failed: bool, ghost st: seq<nat>)
      requires Shape() && For(x) && InFlight(x, plans, base, 0, log0, []) && ops == |plans| && devDone == 0
      modifies this`lastUsed, this`usedIdx, this`devDone, this`log, tails, used
      ensures InFlight(x, plans, base, |plans|, log0, st) && devDone == |plans|
      ensures |plans| == |st| && (failed <==> !AllOk(st, |plans|))
    {
      failed, st := false, [];
      var left := ops;
      ghost var reaped := 0;
      while left > 0
        invariant reaped <= |plans| && left == |plans| - reaped && devDone == reaped
        invariant InFlight(x, plans, base, reaped, log0, st)
        invariant reaped <= |st| && (failed <==> !AllOk(st, reaped))
        decreases left
      {
        st := WaitForOne(failed, x, plans, base, reaped, log0, st);
        left, failed, st, reaped := ReapWaiting(left, failed, x, plans, base, reaped, log0, st);
      }
    }

    /** The driver waits until the device has completed at least one more request. */
    method WaitForOne(failed: bool, ghost x: Job, ghost plans: seq<Plan>, ghost base: nat, ghost reaped: nat,
                      ghost log0: seq<Report>, ghost st0: seq<nat>)
      returns (ghost st: seq<nat>)
      requires Shape() && For(x) && InFlight(x, plans, base, reaped, log0, st0) && devDone == reaped < |plans|
      requires reaped <= |st0| && (failed <==> !AllOk(st0, reaped))
      modifies this`usedIdx, this`devDone, this`log, tails, used
      ensures InFlight(x, plans, base, reaped, log0, st) && reaped < devDone
      ensures reaped <= |st| && (failed <==> !AllOk(st, reaped))
    {
      st := DeviceRuns(true, x, plans, base, reaped, log0, st0);
      OkKept(st0, st, reaped);
    }

    /** No request is under way. */
    ghost predicate Quiet()
      reads this
    {
      Shape() && availIdx == usedIdx == lastUsed < U16
    }

    /** The index that publishes a filled batch; the device turns to it. */
    method Publish(idx: nat, ops: nat, ghost x: Job, ghost places: seq<Place>, ghost start: nat, ghost first: nat, ghost plans: seq<Plan>)
      requires Quiet() && For(x) && ops == |plans| && idx == Low16(availIdx + |plans|)
      requires PostedNow(x, places, start, first, plans, availIdx)
      modifies this`availIdx, this`devOrder, this`devDone, this`devBase
      ensures InFlight(x, plans, old(availIdx), 0, log, []) && devDone == 0 && Permutes(devOrder, |plans|)
    {
      Launch(x, places, start, first, plans, desc[..], headers[..], avail[..], tails[..], used[..], availIdx);
      PickOrder(ops);
      LaunchOrder(plans, devOrder, tails[..], used[..], availIdx);
      availIdx := idx;
      LogStarts(x, plans, devOrder, log);
    }

    /** One batch: filled, published, and reaped to the last request. `executed` is what the device has
        added to its log. */
    method RunBatch(x: Job, pfns: seq<nat>, m: nat, first: nat, numSec: nat, start: nat, k0: nat, pos0: nat,
                    ghost places: seq<Place>)
      returns (handled: nat, k: nat, pos: nat, failed: bool, ghost executed: seq<Report>)
      requires Quiet() && For(x) && PagesReady(x, pfns, m) && Grid(x.sgs, places)
      requires first < numSec == |places| - 1 && places[first] == Place(k0, pos0)
      modifies this, desc, headers, tails, avail, used
      ensures Quiet() && first < handled <= numSec && places[handled] == Place(k, pos)
      ensures log == old(log) + executed && (failed <==> !AllSucceeded(executed))
      ensures multiset(RequestsIn(executed)) == multiset(WantedFrom(x, start, first, handled))
    {
      ghost var log0 := log;
      var idx, ops;
      ghost var plans;
      handled, k, pos, idx, ops, plans := FillBatch(x, pfns, m, first, numSec, start, k0, pos0, places);
      ghost var base := availIdx;
      BatchIsWantedNow(x, places, start, first, plans, desc[..], headers[..], avail[..], base);
      Publish(idx, ops, x, places, start, first, plans);
      failed, executed := FinishBatch(ops, x, start, first, plans, base, log0);
    }

    /** What is left of a published batch. */
    method FinishBatch(ops: nat, ghost x: Job, ghost start: nat, ghost first: nat, ghost plans: seq<Plan>,
                       ghost base: nat, ghost log0: seq<Report>)
      returns (failed: bool, ghost executed: seq<Report>)
      requires Shape() && For(x) && InFlight(x, plans, base, 0, log0, []) && ops == |plans| && devDone == 0
      requires MovesAre(x, start, first, plans)
      modifies this`lastUsed, this`usedIdx, this`devDone, this`log, tails, used
      ensures Quiet() && log == log0 + executed && (failed <==> !AllSucceeded(executed))
      ensures multiset(RequestsIn(executed)) == multiset(WantedFrom(x, start, first, first + |plans|))
    {
      ghost var st;
      failed, st := ReapBatch(ops, x, plans, base, log0);
      executed := Executed(x, plans, base, log0, st, start, first);
    }

    /** When a batch is reaped, the device has executed its requests, each once, and reported the statuses
        the driver has read. */
    lemma Executed(x: Job, plans: seq<Plan>, base: nat, log0: seq<Report>, st: seq<nat>, start: nat, first: nat)
      returns (executed: seq<Report>)
      requires Shape() && For(x) && InFlight(x, plans, base, |plans|, log0, st) && devDone == |plans|
      requires MovesAre(x, start, first, plans)
      ensures log == log0 + executed && (AllSucceeded(executed) <==> AllOk(st, |st|))
      ensures multiset(RequestsIn(executed)) == multiset(WantedFrom(x, start, first, first + |plans|))
      ensures availIdx == usedIdx == lastUsed && |st| == |plans|
    {
      executed := ReportsOfBatch(x, start, first, plans, devOrder, st);
    }

    // -------------------------------------------------------------- the request

    /** How wide the page rows are. */
    method MaxPfns(sgs: seq<Sg>) returns (m: nat)
      ensures RowsFit(sgs, m)
    {
      m := 0;
      for i := 0 to |sgs|
        invariant forall k :: 0 <= k < i ==> PageSpan(sgs[k]) / PAGE + 1 <= m
      {
        var rows := PageSpan(sgs[i]) / PAGE + 1;
        if rows > m {
          m := rows;
        }
      }
    }

    /** `LockPages` for buffer `i`: the operating system writes the page numbers into the buffer's row. */
    method LockPages(x: Job, rows: array<nat>, m: nat, i: nat)
      requires i < |x.sgs| && RowsFit(x.sgs, m) && rows.Length == Row(m, |x.sgs|)
      requires Locked(x.frame, x.sgs, rows[..], m, i)
      modifies rows
      ensures Locked(x.frame, x.sgs, rows[..], m, i + 1)
    {
      var sg, pages := x.sgs[i], PagesOf(x.sgs[i]);
      PagesFit(sg);
      RowNext(m, i, |x.sgs|);
      var j := 0;
      while j < pages
        invariant j <= pages && Locked(x.frame, x.sgs, rows[..], m, i)
        invariant forall t: nat :: t < j ==> EntryOk(x.frame, sg, rows[..], m, i, t)
      {
        ghost var was := rows[..];
        rows[i * m + j] := x.frame(sg.addr / PAGE + j) * PAGE;
        RowKept(x, was, rows[..], m, i, j);
        j := j + 1;
      }
    }

    /** Locks the pages of every buffer, of which the first `lockable` can be locked, and adds up the
        lengths in 32 bits. */
    method LockBuffers(x: Job, m: nat, lockable: nat) returns (ok: bool, bytes: nat, pfns: seq<nat>)
      requires RowsFit(x.sgs, m)
      ensures ok <==> |x.sgs| <= lockable
      ensures ok ==> PagesReady(x, pfns, m) && bytes == BytesFrom(x.sgs, 0) % U32
    {
      var rows := new nat[|x.sgs| * m](_ => 0);
      ok, bytes, pfns := true, 0, [];
      for i := 0 to |x.sgs|
        invariant Locked(x.frame, x.sgs, rows[..], m, i) && i <= lockable
        invariant bytes == Sum32(x.sgs, i)
      {
        bytes := (bytes + x.sgs[i].len) % U32;
        if i >= lockable {
          ok := false;
          return;
        }
        LockPages(x, rows, m, i);
      }
      pfns := rows[..];
      Sum32IsBytes(x.sgs, |x.sgs|);
    }

    /** All batches of a request. */
    method RunRequest(x: Job, pfns: seq<nat>, m: nat, numSec: nat, start: nat)
      returns (failed: bool, ghost executed: seq<Report>)
      requires Quiet() && For(x) && PagesReady(x, pfns, m) && BytesFrom(x.sgs, 0) == SECTOR * numSec
      modifies this, desc, headers, tails, avail, used
      ensures Quiet() && log == old(log) + executed && (failed <==> !AllSucceeded(executed))
      ensures multiset(RequestsIn(executed)) == multiset(WantedFrom(x, start, 0, numSec))
    {
      ghost var places := MakeGrid(x.sgs, numSec);
      var handled, k, pos := 0, 0, 0;
      failed, executed := false, [];
      while handled < numSec
        invariant handled <= numSec && places[handled] == Place(k, pos)
        invariant Quiet() && log == old(log) + executed && (failed <==> !AllSucceeded(executed))
        invariant multiset(RequestsIn(executed)) == multiset(WantedFrom(x, start, 0, handled))
      {
        ghost var before := handled;
        var bad;
        ghost var more;
        handled, k, pos, bad, more := RunBatch(x, pfns, m, handled, numSec, start, k, pos, places);
        ReportsAppend(x, start, before, handled, executed, more);
        failed := failed || bad;
        executed := executed + more;
      }
    }

    /** `DoDiskIO`. `lockable` is how many of the buffers the operating system can lock. The first check that
        fails decides: too many buffers, sectors behind the end of the disk, a write to a read-only disk, pages
        that cannot be locked, or buffers that do not hold exactly the sectors. Then nothing is executed.
        Otherwise the device executes exactly one request per sector, in some order, and the result is
        success exactly when the device has reported success for every one of them: `executed` is what it
        has added to its log. */
    method DoDiskIO(out: bool, start: nat, numSec: nat, sgs: seq<Sg>, frame: nat -> nat, lockable: nat)
      returns (status: Status, ghost executed: seq<Report>)
      requires Quiet() && start < U32 && numSec < U32
      requires BytesFrom(sgs, 0) / U32 == numSec / 0x80_0000
      modifies this, desc, headers, tails, avail, used
      ensures Quiet() && log == old(log) + executed
      ensures if |sgs| > maxSg then status == InvalidParameter && executed == []
              else if (start + numSec) % U32 > sectors then status == SectorNotFound && executed == []
              else if out && readonly then status == WriteProtect && executed == []
              else if |sgs| > lockable then status == GeneralFailure && executed == []
              else if BytesFrom(sgs, 0) != 512 * numSec then status == InvalidParameter && executed == []
              else
                && multiset(RequestsIn(executed)) == multiset(WantedFrom(Job(num, meta, out, sgs, frame), start, 0, numSec))
                && status == if AllSucceeded(executed) then Success else if out then WriteFault else ReadFault
      ensures out && readonly ==> executed == []
      ensures executed != [] ==> |executed| == numSec
      ensures numSec > 0 ==>
                (executed != [] <==>
                   && |sgs| <= maxSg && (start + numSec) % U32 <= sectors && !(out && readonly) && |sgs| <= lockable
                   && BytesFrom(sgs, 0) == 512 * numSec)
    {
      executed := [];
      if |sgs| > maxSg {
        return InvalidParameter, [];
      }
      if (start + numSec) % U32 > sectors {
        return SectorNotFound, [];
      }
      if out && readonly {
        return WriteProtect, [];
      }
      status, executed := LockAndRun(out, start, numSec, sgs, frame, lockable);
      if |sgs| <= lockable && BytesFrom(sgs, 0) == 512 * numSec {
        OnePerSector(Job(num, meta, out, sgs, frame), start, numSec, executed);
      }
    }

    /** The rest of `DoDiskIO`, from locking the pages on. */
    method LockAndRun(out: bool, start: nat, numSec: nat, sgs: seq<Sg>, frame: nat -> nat, lockable: nat)
      returns (status: Status, ghost executed: seq<Report>)
      requires Quiet() && |sgs| <= maxSg && BytesFrom(sgs, 0) / U32 == numSec / 0x80_0000
      modifies this, desc, headers, tails, avail, used
      ensures Quiet() && log == old(log) + executed
      ensures |sgs| > lockable ==> status == GeneralFailure && executed == []
      ensures |sgs| <= lockable && BytesFrom(sgs, 0) != numSec * SECTOR ==> status == InvalidParameter && executed == []
      ensures |sgs| <= lockable && BytesFrom(sgs, 0) == numSec * SECTOR ==>
                && multiset(RequestsIn(executed)) == multiset(WantedFrom(Job(num, meta, out, sgs, frame), start, 0, numSec))
                && status == if AllSucceeded(executed) then Success else if out then WriteFault else ReadFault
    {
      var x := Job(num, meta, out, sgs, frame);
      var m := MaxPfns(sgs);
      var ok, bytes, pfns := LockBuffers(x, m, lockable);
      if !ok {
        return GeneralFailure, [];
      }
      SizeCheck(sgs, numSec);
      if bytes != (numSec * SECTOR) % U32 {
        return InvalidParameter, [];
      }
      var failed;
      failed, executed := RunRequest(x, pfns, m, numSec, start);
      status := if failed then (if out then WriteFault else ReadFault) else Success;
    }
  }

  lemma {:induction false} OnePerSector(x: Job, start: nat, numSec: nat, executed: seq<Report>)
    requires multiset(RequestsIn(executed)) == multiset(WantedFrom(x, start, 0, numSec))
    ensures |executed| == numSec
  {
    assert |multiset(RequestsIn(executed))| == |multiset(WantedFrom(x, start, 0, numSec))|;
  }

  lemma {:induction false} SizeCheck(sgs: seq<Sg>, numSec: nat)
    requires BytesFrom(sgs, 0) / U32 == numSec / 0x80_0000
    ensures BytesFrom(sgs, 0) % U32 == (numSec * SECTOR) % U32 <==> BytesFrom(sgs, 0) == numSec * SECTOR
  {
    if BytesFrom(sgs, 0) % U32 == (numSec * SECTOR) % U32 {
      SizeCheckIsExact(BytesFrom(sgs, 0), numSec);
    }
  }

  /** The 32-bit sum of the first `i` lengths. */
  function Sum32(sgs: seq<Sg>, i: nat): nat
    requires i <= |sgs|
  {
    if i == 0 then 0 else (Sum32(sgs, i - 1) + sgs[i - 1].len) % U32
  }

  lemma {:induction false} Sum32IsBytes(sgs: seq<Sg>, i: nat)
    requires i <= |sgs|
    ensures (Sum32(sgs, i) + BytesFrom(sgs, i)) % U32 == BytesFrom(sgs, 0) % U32
    ensures i == |sgs| ==> Sum32(sgs, i) == BytesFrom(sgs, 0) % U32
    decreases i
  {
    if i > 0 {
      Sum32IsBytes(sgs, i - 1);
    }
  }

  lemma {:induction false} RowKept(x: Job, was: seq<nat>, rows: seq<nat>, m: nat, i: nat, j: nat)
    requires i < |x.sgs| && RowsFit(x.sgs, m) && |was| == |rows| == Row(m, |x.sgs|) && j < PagesOf(x.sgs[i])
    requires Row(m, i) + j < |was| && rows == was[Row(m, i) + j := x.frame(x.sgs[i].addr / PAGE + j) * PAGE]
    requires Locked(x.frame, x.sgs, was, m, i)
    requires forall t: nat :: t < j ==> EntryOk(x.frame, x.sgs[i], was, m, i, t)
    ensures Locked(x.frame, x.sgs, rows, m, i)
    ensures forall t: nat :: t < j + 1 ==> EntryOk(x.frame, x.sgs[i], rows, m, i, t)
  {
    forall a: nat, b: nat | a < i && b < PagesOf(x.sgs[a])
      ensures EntryOk(x.frame, x.sgs[a], rows, m, a, b)
    {
      assert EntryOk(x.frame, x.sgs[a], was, m, a, b);
      PagesFit(x.sgs[a]);
      RowNext(m, a, i);
    }
    forall t: nat | t < j + 1
      ensures EntryOk(x.frame, x.sgs[i], rows, m, i, t)
    {
      if t < j {
        assert EntryOk(x.frame, x.sgs[i], was, m, i, t);
      }
    }
  }

  lemma {:induction false} ReportsAppend(x: Job, start: nat, mid: nat, last: nat, a: seq<Report>, b: seq<Report>)
    requires mid <= last
    requires multiset(RequestsIn(a)) == multiset(WantedFrom(x, start, 0, mid))
    requires multiset(RequestsIn(b)) == multiset(WantedFrom(x, start, mid, last))
    ensures multiset(RequestsIn(a + b)) == multiset(WantedFrom(x, start, 0, last))
    ensures AllSucceeded(a + b) <==> AllSucceeded(a) && AllSucceeded(b)
  {
    assert RequestsIn(a + b) == RequestsIn(a) + RequestsIn(b);
    assert WantedFrom(x, start, 0, last) == WantedFrom(x, start, 0, mid) + WantedFrom(x, start, mid, last);
    if AllSucceeded(a + b) {
      assert forall i :: 0 <= i < |a| ==> (a + b)[i] == a[i];
      assert forall i :: 0 <= i < |b| ==> (a + b)[|a| + i] == b[i];
    }
  }

  lemma {:induction false} Launch(x: Job, places: seq<Place>, start: nat, first: nat, plans: seq<Plan>, desc: seq<BDesc>,
                                  headers: seq<Header>, avail: seq<nat>, tails: seq<nat>, used: seq<nat>, base: nat)
    requires Posted(x, places, start, first, plans, desc, headers, avail, base)
    ensures Standing(x, plans, desc, headers, avail, base) && |plans| <= |desc|
  {
    BatchFits(x, places, start, first, plans, desc, headers, avail, base);
  }

  lemma {:induction false} LaunchOrder(plans: seq<Plan>, order: seq<nat>, tails: seq<nat>, used: seq<nat>, base: nat)
    requires Permutes(order, |plans|) && 0 < |used| && |plans| <= |used|
    ensures Progress(plans, order, tails, used, base, 0, 0, [])
  {
  }

  /** What the driver has posted and leaves alone until the batch is complete. */
  ghost predicate Standing(x: Job, plans: seq<Plan>, desc: seq<BDesc>, headers: seq<Header>, avail: seq<nat>, base: nat) {
    && 0 < |desc| == |avail|
    && Chained(plans) && AllFill(plans) && AllLaid(x, desc, headers, plans) && HeadsIn(avail, base, plans)
  }

  /** What changes while the device completes and the driver reaps. */
  ghost predicate Progress(plans: seq<Plan>, order: seq<nat>, tails: seq<nat>, used: seq<nat>, base: nat,
                           reaped: nat, done: nat, st: seq<nat>) {
    && 0 < |used| && |st| == done && Permutes(order, |plans|)
    && UsedNames(used, base, plans, order, reaped, done)
    && TailsHold(tails, plans, order, st, reaped)
  }

  /** Where the device finds the head of plan `i`, and what it makes of the chain. */
  lemma {:induction false} DeviceReads(x: Job, plans: seq<Plan>, desc: seq<BDesc>, headers: seq<Header>,
                                       avail: seq<nat>, base: nat, i: nat)
    requires Standing(x, plans, desc, headers, avail, base) && i < |plans| && RingSize(|desc|) && x.num == |desc|
    ensures avail[RingSlot(|desc|, Low16(base + i))] == plans[i].head
    ensures StatusByte(desc, x.num, x.meta, plans[i].head) == Tail(plans[i]) < |desc|
    ensures RequestOf(ReadChain(desc, plans[i].head, |desc|), headers, x.meta) == Some(PlanRequest(x, plans[i]))
  {
    assert LaidAt(x, desc, headers, plans, i) && HeadAt(avail, base, plans, i);
    DeviceReadsChain(x, plans[i], desc, headers);
    assert RingSlot(|desc|, Low16(base + i)) == Slot(|avail|, RingSlot(|avail|, base), i) by {
      IndexSlot(|desc|, base, i);
    }
  }

  lemma {:induction false} DeviceReadsChain(x: Job, p: Plan, desc: seq<BDesc>, headers: seq<Header>)
    requires Laid(x, desc, headers, p)
    ensures StatusByte(desc, x.num, x.meta, p.head) == Tail(p) < |desc|
    ensures RequestOf(ReadChain(desc, p.head, |desc|), headers, x.meta) == Some(PlanRequest(x, p))
  {
    ChainIsRequest(x, desc, headers, p);
  }

  /** The device has executed and reported the first requests of its order, with the statuses `st`. */
  ghost predicate Logged(x: Job, plans: seq<Plan>, order: seq<nat>, st: seq<nat>, log0: seq<Report>, log: seq<Report>) {
    && InRange(order, |plans|) && |st| <= |order|
    && log == log0 + Reports(Picked(x, plans, order[..|st|]), st)
  }

  lemma {:induction false} LogStarts(x: Job, plans: seq<Plan>, order: seq<nat>, log: seq<Report>)
    requires InRange(order, |plans|)
    ensures Logged(x, plans, order, [], log, log)
  {
    assert order[..0] == [];
  }

  lemma {:induction false} LogGrows(x: Job, plans: seq<Plan>, order: seq<nat>, st: seq<nat>, log0: seq<Report>,
                                    log: seq<Report>, status: nat)
    requires Logged(x, plans, order, st, log0, log) && |st| < |order|
    ensures Logged(x, plans, order, st + [status], log0, log + [Report(PlanRequest(x, plans[order[|st|]]), status)])
  {
    var n := |st|;
    assert Picked(x, plans, order[..n + 1]) == Picked(x, plans, order[..n]) + [PlanRequest(x, plans[order[n]])];
    assert Reports(Picked(x, plans, order[..n + 1]), st + [status])
        == Reports(Picked(x, plans, order[..n]), st) + [Report(PlanRequest(x, plans[order[n]]), status)];
  }

  /** Every request of a reaped batch is in the log with the status the driver has read for it. */
  lemma {:induction false} ReportsOfBatch(x: Job, start: nat, first: nat, plans: seq<Plan>, order: seq<nat>, st: seq<nat>)
    returns (executed: seq<Report>)
    requires MovesAre(x, start, first, plans) && Permutes(order, |plans|) && |st| == |plans|
    ensures executed == Reports(Picked(x, plans, order[..|st|]), st)
    ensures multiset(RequestsIn(executed)) == multiset(WantedFrom(x, start, first, first + |plans|))
    ensures AllSucceeded(executed) <==> AllOk(st, |st|)
  {
    assert order[..|st|] == order;
    executed := Reports(Picked(x, plans, order), st);
    BatchIsWanted(x, start, first, plans, order);
    assert RequestsIn(executed) == Picked(x, plans, order);
    assert forall i :: 0 <= i < |st| ==> (OkAt(st, i) <==> executed[i].status == S_OK);
  }

  /** The first `n` statuses are all success. */
  predicate AllOk(st: seq<nat>, n: nat)
    requires n <= |st|
  {
    forall i :: 0 <= i < n ==> OkAt(st, i)
  }

  predicate OkAt(st: seq<nat>, i: nat)
    requires i < |st|
  {
    st[i] == S_OK
  }

  lemma {:induction false} OkKept(st0: seq<nat>, st: seq<nat>, n: nat)
    requires st0 <= st && n <= |st0|
    ensures AllOk(st, n) <==> AllOk(st0, n)
  {
    assert forall i :: 0 <= i < n ==> OkAt(st0, i) == OkAt(st, i);
  }

  lemma {:induction false} OkNext(st0: seq<nat>, st: seq<nat>, n: nat)
    requires st0 <= st && n < |st0|
    ensures AllOk(st, n + 1) <==> AllOk(st0, n) && st0[n] == S_OK
  {
    OkKept(st0, st, n);
    assert OkAt(st, n) <==> st0[n] == S_OK;
  }

  /** The used index differs from the driver's exactly when something is unread. */
  lemma {:induction false} UnreadIsVisible(base: nat, reaped: nat, done: nat, lastUsed: nat, usedIdx: nat)
    requires reaped <= done && done - reaped < U16
    requires lastUsed == Low16(base + reaped) && usedIdx == Low16(base + done)
    ensures lastUsed != usedIdx <==> reaped != done
  {
    Low16Differs(base + reaped, done - reaped);
  }

  /** What the driver finds behind the next used entry. */
  lemma {:induction false} ReapNext(x: Job, plans: seq<Plan>, order: seq<nat>, desc: seq<BDesc>, headers: seq<Header>,
                                    avail: seq<nat>, tails: seq<nat>, used: seq<nat>,
                                    base: nat, reaped: nat, done: nat, st: seq<nat>)
    requires Standing(x, plans, desc, headers, avail, base)
    requires Progress(plans, order, tails, used, base, reaped, done, st) && reaped < done
    ensures order[reaped] < |plans|
    ensures var p := plans[order[reaped]];
            && Laid(x, desc, headers, p) && Fills(p.pieces, SECTOR)
            && used[Slot(|used|, RingSlot(|used|, base), reaped)] == p.head
            && HoldsStatus(tails, p, st[reaped])
    ensures Progress(plans, order, tails, used, base, reaped + 1, done, st)
  {
    var i := order[reaped];
    assert LaidAt(x, desc, headers, plans, i) && FillsAt(plans, i);
    assert NamedAt(used, base, plans, order, reaped) && StatusAt(tails, plans, order, st, reaped);
  }

  lemma {:induction false} ProgressGrows(plans: seq<Plan>, order: seq<nat>, tails: seq<nat>, used: seq<nat>, base: nat,
                                         reaped: nat, done: nat, st: seq<nat>, status: nat)
    requires Progress(plans, order, tails, used, base, reaped, done, st) && Chained(plans) && done < |plans|
    requires Tail(plans[order[done]]) < |tails|
    ensures var p := plans[order[done]];
            Progress(plans, order, tails[Tail(p) := status],
                     used[Slot(|used|, RingSlot(|used|, base), done) := p.head], base, reaped, done + 1, st + [status])
  {
    CompleteUsed(used, base, plans, order, reaped, done);
    CompleteTails(tails, plans, order, st, reaped, status);
  }

  /** Every page of every buffer of the request is in the page rows, which are `m` entries wide. */
  ghost predicate PagesReady(x: Job, pfns: seq<nat>, m: nat) {
    RowsFit(x.sgs, m) && |pfns| == Row(m, |x.sgs|) && Locked(x.frame, x.sgs, pfns, m, |x.sgs|)
  }

  lemma {:induction false} SectorLaid(x: Job, d: seq<BDesc>, desc: seq<BDesc>, headers: seq<Header>, p: Plan)
    requires Tail(p) < |d| == |desc| == |headers|
    requires HeaderOk(x, d[p.head], p.head) && DataLaid(x, d, p.head + 1, p.pieces)
    requires desc == d[Tail(p) := desc[Tail(p)]] && TailOk(x, desc[Tail(p)], Tail(p))
    requires headers[p.head] == Header(if x.out then T_OUT else T_IN, 0, p.sector)
    ensures Laid(x, desc, headers, p)
  {
    forall q | p.head + 1 <= q < p.head + 1 + |p.pieces|
      ensures DataOk(x, desc[q], p.pieces[q - (p.head + 1)], q)
    {
      assert DataOk(x, d[q], p.pieces[q - (p.head + 1)], q);
    }
  }

  /** Half-way through a sector: `done` is cut, `left` bytes are still to cut at `c`. */
  ghost predicate Cutting(sgs: seq<Sg>, c0: Place, c: Place, left: nat, done: seq<Piece>) {
    && IsPlace(sgs, c0) && SECTOR <= Left(sgs, c0)
    && IsPlace(sgs, c) && left <= Left(sgs, c) && Left(sgs, c) - left == Left(sgs, c0) - SECTOR
    && Pieces(sgs, c0, SECTOR) == done + Pieces(sgs, c, left)
    && After(sgs, c0, SECTOR) == After(sgs, c, left)
  }

  lemma {:induction false} CutStep(sgs: seq<Sg>, c0: Place, c: Place, left: nat, done: seq<Piece>)
    requires Cutting(sgs, c0, c, left, done) && left > 0
    ensures c.k < |sgs| && |done| < |Pieces(sgs, c0, SECTOR)|
    ensures var n := OpLen(sgs, c, left);
            && Cutting(sgs, c0, Move(sgs, c, n), left - n, done + [Piece(c.k, c.pos, n)])
            && (Move(sgs, c, n).k == |sgs| ==> left == n && Left(sgs, c0) == SECTOR)
  {
    var n := OpLen(sgs, c, left);
    FirstPiece(sgs, c, left);
    MoveKeepsBytes(sgs, c, n, 0);
    RegroupPieces(done, Piece(c.k, c.pos, n), Pieces(sgs, Move(sgs, c, n), left - n));
  }

  lemma {:induction false} RegroupPieces(a: seq<Piece>, p: Piece, b: seq<Piece>)
    ensures a + ([p] + b) == (a + [p]) + b
  {
  }

  lemma {:induction false} CutDone(sgs: seq<Sg>, c0: Place, c: Place, done: seq<Piece>)
    requires Cutting(sgs, c0, c, 0, done)
    ensures done == Pieces(sgs, c0, SECTOR) && c == After(sgs, c0, SECTOR)
  {
    assert done + [] == done;
  }

  lemma {:induction false} DataGrows(x: Job, desc: seq<BDesc>, desc': seq<BDesc>, at: nat, ps: seq<Piece>, p: Piece)
    requires DataLaid(x, desc, at, ps) && at + |ps| < |desc| == |desc'|
    requires desc' == desc[at + |ps| := desc'[at + |ps|]] && DataOk(x, desc'[at + |ps|], p, at + |ps|)
    ensures DataLaid(x, desc', at, ps + [p])
  {
    forall q | at <= q < at + |ps + [p]|
      ensures DataOk(x, desc'[q], (ps + [p])[q - at], q)
    {
      if q < at + |ps| {
        assert DataOk(x, desc[q], ps[q - at], q);
      }
    }
  }
}
