/** The packed virtqueue as the driver keeps it: fields and arrays changed in place. Every method is
    proved equal to the function of the same name in `PackedRing`. */
module PackedQueueClass {
  import opened Integers
  import opened RingMath
  import opened Ledger
  import opened PackedRing
  import opened PackedSteps
  import opened PackedTheorems
  import opened PackedEvents

  /** Each id of a chain is what the one before points at. */
  lemma {:induction false} ChainNext(st: seq<DescState>, id: nat, k: nat, n: nat)
    requires Closed(st) && id < |st| && n < k
    ensures var c := Chain(st, id, k);
            c[n] == if n == 0 then id else st[c[n - 1]].next
    decreases k
  {
    if n > 0 {
      ChainNext(st, st[id].next, k - 1, n - 1);
    }
  }

  /** Ring memory after the first `n` descriptors of `b`, the head's flags word still unwritten. */
  ghost predicate Filled(r: Packed, b: Buf, desc: seq<PDesc>, n: nat)
    requires WellFormed(r) && Shaped(b) && |b.ids| <= r.num && n <= |b.ids|
  {
    && |desc| == r.num
    && var ds := RingDescs(r.num, r.nextIdx, r.auAvail, b);
       forall x :: 0 <= x < r.num ==>
         var o := Offset(r.num, r.nextIdx, x);
         desc[x] == if o >= n then r.desc[x]
                    else if o == 0 then ds[0].(flags := r.desc[x].flags)
                    else ds[o]
  }

  lemma {:induction false} FillOne(r: Packed, b: Buf, desc: seq<PDesc>, n: nat, i: nat)
    requires WellFormed(r) && Shaped(b) && |b.ids| <= r.num && n < |b.ids|
    requires Filled(r, b, desc, n) && i == Slot(r.num, r.nextIdx, n)
    ensures var d := DescOf(b, n, ParityAt(r.num, r.nextIdx, r.auAvail, n));
            Filled(r, b, desc[i := if n == 0 then d.(flags := r.desc[i].flags) else d], n + 1)
  {
    SlotInjective(r.num, r.nextIdx, n, n);
  }

  lemma {:induction false} FillDone(r: Packed, b: Buf, desc: seq<PDesc>)
    requires WellFormed(r) && Shaped(b) && |b.ids| <= r.num && Filled(r, b, desc, |b.ids|)
    ensures var ds := RingDescs(r.num, r.nextIdx, r.auAvail, b);
            var head := desc[r.nextIdx].(flags := ds[0].flags);
            desc[r.nextIdx := head] == Overlay(r.desc, r.nextIdx, ds)
  {
  }

  /** Writing descriptor `n` keeps the add invisible, as long as the head's flags stay. */
  lemma {:induction false} StepsAreHalf(r: Packed, b: Buf, desc: seq<PDesc>, n: nat, i: nat, steps: seq<seq<PDesc>>)
    requires WellFormed(r) && Shaped(b) && |b.ids| <= r.num && n < |b.ids| && Filled(r, b, desc, n)
    requires i == Slot(r.num, r.nextIdx, n)
    requires forall j :: 0 <= j < |steps| ==>
               && |steps[j]| == r.num && steps[j] == desc[i := steps[j][i]]
               && (n == 0 ==> steps[j][i].flags == desc[i].flags)
    ensures forall j :: 0 <= j < |steps| ==> HalfWritten(r, steps[j], |b.ids|)
  {
    SlotInjective(r.num, r.nextIdx, n, n);
    forall j | 0 <= j < |steps|
      ensures HalfWritten(r, steps[j], |b.ids|)
    {
      var d := steps[j][i];
      assert steps[j] == desc[i := d];
    }
  }

  /** `trace` is ring memory after each write of an add except the last one, the head's flags word;
      `final` is ring memory after that one. */
  ghost predicate Published(r: Packed, trace: seq<seq<PDesc>>, k: nat, final: seq<PDesc>)
    requires WellFormed(r)
  {
    && trace != []
    && (forall i :: 0 <= i < |trace| ==> HalfWritten(r, trace[i], k))
    && |final| == r.num
    && |trace[|trace| - 1]| == r.num
    && final == trace[|trace| - 1][r.nextIdx := final[r.nextIdx]]
  }

  /** Every entry of `trace` is invisible to the device and the last one is what memory holds now. */
  ghost predicate TraceOk(r: Packed, k: nat, trace: seq<seq<PDesc>>, now: seq<PDesc>)
    requires WellFormed(r)
  {
    && trace != [] && trace[|trace| - 1] == now
    && (forall i :: 0 <= i < |trace| ==> HalfWritten(r, trace[i], k))
  }

  /** The trace after `n` descriptors of an add. */
  ghost predicate TraceSoFar(r: Packed, k: nat, n: nat, trace: seq<seq<PDesc>>, now: seq<PDesc>)
    requires WellFormed(r)
  {
    if n == 0 then trace == [] else TraceOk(r, k, trace, now)
  }

  lemma {:induction false} TraceGrows(r: Packed, k: nat, trace: seq<seq<PDesc>>, steps: seq<seq<PDesc>>, before: seq<PDesc>, now: seq<PDesc>)
    requires WellFormed(r) && TraceOk(r, k, steps, now) && (trace != [] ==> TraceOk(r, k, trace, before))
    ensures TraceOk(r, k, trace + steps, now)
  {
  }

  /** The last write of an add turns a half-written ring into the accepted one. */
  lemma {:induction false} LastWrite(r: Packed, b: Buf, trace: seq<seq<PDesc>>, now: seq<PDesc>, flags: Flags)
    requires WellFormed(r) && Shaped(b) && |b.ids| <= r.num && Filled(r, b, now, |b.ids|)
    requires TraceOk(r, |b.ids|, trace, now)
    requires flags == DescOf(b, 0, r.auAvail).flags
    ensures var final := now[r.nextIdx := now[r.nextIdx].(flags := flags)];
            && final == Overlay(r.desc, r.nextIdx, RingDescs(r.num, r.nextIdx, r.auAvail, b))
            && Published(r, trace, |b.ids|, final)
  {
    FillDone(r, b, now);
  }

  /** Where the loop of the direct path stands before descriptor `n`. */
  ghost predicate AtElement(r: Packed, b: Buf, n: nat, i: nat, curr: nat, prev: nat, avail: bool, used: bool)
    requires WellFormed(r) && n <= |b.ids| <= r.num
    requires forall j :: 0 <= j < |b.ids| ==> b.ids[j] < r.num
  {
    && i == Slot(r.num, r.nextIdx, n)
    && avail == ParityAt(r.num, r.nextIdx, r.auAvail, n) && used == !avail
    && curr == (if n == 0 then r.freeHead else r.st[b.ids[n - 1]].next)
    && (n > 0 ==> prev == b.ids[n - 1])
  }

  lemma {:induction false} NextElement(r: Packed, b: Buf, n: nat, i: nat, curr: nat, prev: nat, avail: bool, used: bool)
    requires WellFormed(r) && n < |b.ids| <= r.num && b.ids == Chain(r.st, r.freeHead, |b.ids|)
    requires AtElement(r, b, n, i, curr, prev, avail, used)
    ensures curr == b.ids[n]
    ensures var wraps := i + 1 >= r.num;
            AtElement(r, b, n + 1, if wraps then 0 else i + 1, r.st[curr].next, curr,
                      if wraps then !avail else avail, if wraps then !used else used)
  {
    ChainNext(r.st, r.freeHead, |b.ids|, n);
  }

  lemma {:induction false} AcceptFields(r: Packed, b: Buf, v: Packed)
    requires WellFormed(r) && Shaped(b) && |b.ids| <= r.numFree
    requires forall i :: 0 <= i < |b.ids| ==> b.ids[i] < r.num
    requires v.num == r.num && v.lastUsed == r.lastUsed && v.usedWrap == r.usedWrap
    requires v.shadow == r.shadow && v.drvOff == r.drvOff && v.drvFlags == r.drvFlags
    requires v.desc == Overlay(r.desc, r.nextIdx, RingDescs(r.num, r.nextIdx, r.auAvail, b))
    requires v.st == r.st[b.ids[0] := DescState(Ptr(b.token), |b.ids|, r.st[b.ids[0]].next, b.ids[|b.ids| - 1])]
    requires v.numAdded == (r.numAdded + |b.ids|) % U32 && v.numFree == r.numFree - |b.ids|
    requires v.freeHead == r.st[b.ids[|b.ids| - 1]].next
    requires v.nextIdx == Slot(r.num, r.nextIdx, |b.ids|)
    requires v.auAvail == ParityAt(r.num, r.nextIdx, r.auAvail, |b.ids|) && v.auUsed == !v.auAvail
    requires v.availWrap
          == if (if b.table.Some? then r.nextIdx + |b.ids| >= r.num else v.nextIdx < r.nextIdx) then !r.availWrap
             else r.availWrap
    ensures v == Accept(r, b)
  {
  }

  /** The direct path ends in the accepted state, and published the head last. */
  lemma {:induction false} AcceptDirect(r: Packed, b: Buf, now: seq<PDesc>, trace: seq<seq<PDesc>>, v: Packed)
    requires WellFormed(r) && Shaped(b) && b.table == None && |b.ids| <= r.numFree
    requires forall i :: 0 <= i < |b.ids| ==> b.ids[i] < r.num
    requires Filled(r, b, now, |b.ids|) && TraceOk(r, |b.ids|, trace, now)
    requires var (k, next, lap) := (|b.ids|, Slot(r.num, r.nextIdx, |b.ids|), ParityAt(r.num, r.nextIdx, r.auAvail, |b.ids|));
             v == r.(desc := now[r.nextIdx := now[r.nextIdx].(flags := DescOf(b, 0, r.auAvail).flags)],
                     st := r.st[b.ids[0] := DescState(Ptr(b.token), k, r.st[b.ids[0]].next, b.ids[k - 1])],
                     numAdded := (r.numAdded + k) % U32, numFree := r.numFree - k, freeHead := r.st[b.ids[k - 1]].next,
                     nextIdx := next, auAvail := lap, auUsed := !lap,
                     availWrap := if next < r.nextIdx then !r.availWrap else r.availWrap)
    ensures v == Accept(r, b) && Published(r, trace, |b.ids|, v.desc)
  {
    LastWrite(r, b, trace, now, DescOf(b, 0, r.auAvail).flags);
    AcceptFields(r, b, v);
  }

  /** The table in memory holds the caller's list. */
  predicate TableHolds(t: seq<PDesc>, sg: seq<Sg>, out: nat, n: nat)
    requires n <= |sg| && n <= |t|
  {
    forall i :: 0 <= i < n ==>
      && t[i].addr == sg[i].addr && t[i].len == sg[i].len
      && t[i].flags == Flags(false, false, false, i >= out, false)
  }

  class PackedQueue {
    const num: nat
    const eventSuppression: bool
    const desc: array<PDesc>
    const st: array<DescState>
    var numAdded: nat
    var freeHead: nat
    var numFree: nat
    var lastUsed: nat
    var nextIdx: nat
    var auAvail: bool
    var auUsed: bool
    var availWrap: bool
    var usedWrap: bool
    var shadow: nat
    var drvOff: nat
    var drvFlags: nat

    ghost function View(): Packed
      reads this, desc, st
    {
      Packed(num, desc[..], st[..], numAdded, freeHead, numFree, lastUsed, nextIdx,
             auAvail, auUsed, availWrap, usedWrap, shadow, drvOff, drvFlags)
    }

    ghost predicate Valid()
      reads this, desc, st
    {
      WellFormed(View())
    }

    /** `vring_new_virtqueue_packed` on zeroed pages. */
    constructor (num: nat, eventSuppression: bool)
      requires 0 < num <= MAX_RING
      ensures View() == Fresh(num) && fresh(desc) && fresh(st)
      ensures this.eventSuppression == eventSuppression
    {
      this.num := num;
      this.eventSuppression := eventSuppression;
      var pages := new PDesc[num](_ => ZeroDesc);
      var states := new DescState[num](_ => DescState(Null, 0, 0, 0));
      for i := 0 to num - 1
        modifies states
        invariant forall j :: 0 <= j < num ==> states[j] == DescState(Null, 0, if j < i then j + 1 else 0, 0)
      {
        states[i] := states[i].(next := i + 1);
      }
      desc, st := pages, states;
      numFree, freeHead, numAdded := num, 0, 0;
      availWrap, usedWrap, lastUsed := true, true, 0;
      auAvail, auUsed, nextIdx := true, false, 0;
      shadow, drvOff, drvFlags := FLAG_ENABLE, 0, FLAG_ENABLE;
      new;
      assert desc[..] == Fresh(num).desc;
      assert st[..] == Fresh(num).st;
    }

    /** `virtqueue_add_buf_packed`. `trace` is ring memory after each write to it that comes before
        the last one, the write of the head's flags word. */
    method AddBuf(sg: seq<Sg>, out: nat, token: nat, table: array?<PDesc>, phys: nat)
      returns (ret: int, ghost trace: seq<seq<PDesc>>)
      requires Valid()
      requires 1 <= |sg| < 0x1_0000 && out <= |sg|
      requires table != null ==> table != desc && |sg| <= table.Length
      modifies this, desc, st, if table == null then {} else {table}
      ensures var option := if table == null then None else Some(phys);
              var (after, accepted) := PackedRing.AddBuf(old(View()), sg, out, token, option);
              && View() == after
              && ret == (if accepted then 0 else -ENOSPC)
              && (UsesTable(old(View()), option) ==> TableHolds(table[..], sg, out, |sg|))
              && (!UsesTable(old(View()), option) && table != null ==> table[..] == old(table[..]))
              && (accepted ==>
                    Published(old(View()), trace, if UsesTable(old(View()), option) then 1 else |sg|, desc[..]))
    {
      trace := [];
      if table != null && numFree > 0 {
        ret, trace := AddIndirect(sg, out, token, table, phys);
      } else {
        ret, trace := AddDirect(sg, out, token);
      }
    }

    /** The writes to one ring descriptor, one word after the other; the flags word only if `all`.
        `steps` is ring memory after each of them. */
    method WriteDesc(i: nat, e: Sg, id: nat, flags: Flags, all: bool) returns (ghost steps: seq<seq<PDesc>>)
      requires i < desc.Length
      modifies desc
      ensures desc[..] == old(desc[..])[i := PDesc(e.addr, e.len, id, if all then flags else old(desc[i].flags))]
      ensures steps != [] && steps[|steps| - 1] == desc[..]
      ensures forall k :: 0 <= k < |steps| ==>
                && |steps[k]| == desc.Length && steps[k] == old(desc[..])[i := steps[k][i]]
                && (!all ==> steps[k][i].flags == old(desc[i].flags))
    {
      desc[i] := desc[i].(addr := e.addr);
      steps := [desc[..]];
      desc[i] := desc[i].(len := e.len);
      steps := steps + [desc[..]];
      desc[i] := desc[i].(id := id);
      steps := steps + [desc[..]];
      if all {
        desc[i] := desc[i].(flags := flags);
        steps := steps + [desc[..]];
      }
    }

    method FillTable(sg: seq<Sg>, out: nat, table: array<PDesc>)
      requires |sg| <= table.Length
      modifies table
      ensures TableHolds(table[..], sg, out, |sg|)
    {
      for i := 0 to |sg|
        invariant TableHolds(table[..], sg, out, i)
      {
        table[i] := table[i].(flags := Flags(false, false, false, i >= out, false));
        table[i] := table[i].(addr := sg[i].addr);
        table[i] := table[i].(len := sg[i].len);
      }
    }

    method StoreToken(id: nat, count: nat, token: nat, last: nat)
      requires id < st.Length
      modifies st
      ensures st[..] == old(st[..])[id := DescState(Ptr(token), count, old(st[id].next), last)]
    {
      st[id] := st[id].(num := count);
      st[id] := st[id].(data := Ptr(token));
      st[id] := st[id].(last := last);
    }

    /** The indirect path: one ring descriptor that points at the caller's table. */
    method AddIndirect(sg: seq<Sg>, out: nat, token: nat, table: array<PDesc>, phys: nat)
      returns (ret: int, ghost trace: seq<seq<PDesc>>)
      requires Valid() && numFree > 0
      requires 1 <= |sg| < 0x1_0000 && out <= |sg| && table != desc && |sg| <= table.Length
      modifies this, desc, st, table
      ensures var b := NewBuf(old(View()), sg, out, token, Some(phys));
              && ret == 0 && View() == Accept(old(View()), b)
              && TableHolds(table[..], sg, out, |sg|)
              && Published(old(View()), trace, 1, desc[..])
    {
      ghost var r0 := View();
      ghost var b := NewBuf(r0, sg, out, token, Some(phys));
      ChainNext(r0.st, r0.freeHead, 1, 0);
      assert b.ids == [freeHead];
      var head, id := nextIdx, freeHead;
      FillTable(sg, out, table);
      assert View() == r0;
      FillOne(r0, b, desc[..], 0, head);
      trace := WriteDesc(head, Sg(phys, |sg| * DESC_SIZE), id, desc[head].flags, false);
      assert Filled(r0, b, desc[..], 1);
      LastWrite(r0, b, trace, desc[..], Flags(auAvail, auUsed, false, false, true));
      PublishHead(head, Flags(auAvail, auUsed, false, false, true));
      TakeIndirect(id, token);
      AcceptFields(r0, b, View());
      ret := 0;
    }

    /** The bookkeeping of the indirect path. */
    method TakeIndirect(id: nat, token: nat)
      requires Valid() && id < num && numFree > 0
      modifies this, st
      ensures var wraps := old(nextIdx) + 1 >= num;
              View() == old(View()).(
                availWrap := if wraps then !old(availWrap) else old(availWrap),
                auAvail := if wraps then !old(auAvail) else old(auAvail),
                auUsed := if wraps then !old(auUsed) else old(auUsed),
                numFree := old(numFree) - 1, nextIdx := if wraps then 0 else old(nextIdx) + 1,
                numAdded := (old(numAdded) + 1) % U32, freeHead := old(st[id].next),
                st := old(st[..])[id := DescState(Ptr(token), 1, old(st[id].next), id)])
    {
      var head := nextIdx + 1;
      if head >= num {
        head := 0;
        availWrap := !availWrap;
        auAvail, auUsed := !auAvail, !auUsed;
      }
      nextIdx := head;
      numFree := numFree - 1;
      numAdded := (numAdded + 1) % U32;
      freeHead := st[id].next;
      StoreToken(id, 1, token, id);
    }

    /** One turn of the loop of the direct path: descriptor `n` of the chain. */
    method WriteElement(n: nat, i: nat, e: Sg, id: nat, flags: Flags,
                        ghost r0: Packed, ghost b: Buf, ghost trace: seq<seq<PDesc>>)
      returns (ghost longer: seq<seq<PDesc>>)
      requires WellFormed(r0) && Shaped(b) && |b.ids| <= r0.num && n < |b.ids| && Filled(r0, b, desc[..], n)
      requires TraceSoFar(r0, |b.ids|, n, trace, desc[..])
      requires i == Slot(r0.num, r0.nextIdx, n)
      requires PDesc(e.addr, e.len, id, flags) == DescOf(b, n, ParityAt(r0.num, r0.nextIdx, r0.auAvail, n))
      modifies desc
      ensures Filled(r0, b, desc[..], n + 1)
      ensures TraceSoFar(r0, |b.ids|, n + 1, longer, desc[..])
    {
      FillOne(r0, b, desc[..], n, i);
      ghost var before := desc[..];
      ghost var steps := WriteDesc(i, e, id, flags, n != 0);
      StepsAreHalf(r0, b, before, n, i, steps);
      TraceGrows(r0, |b.ids|, trace, steps, before, desc[..]);
      longer := trace + steps;
    }

    /** The slot after slot `i`; the lap bits flip at the end of the ring. */
    method NextSlot(i: nat) returns (next: nat)
      modifies this`auAvail, this`auUsed
      ensures var wraps := i + 1 >= num;
              && next == (if wraps then 0 else i + 1)
              && auAvail == (if wraps then !old(auAvail) else old(auAvail))
              && auUsed == (if wraps then !old(auUsed) else old(auUsed))
    {
      next := i + 1;
      if next >= num {
        next := 0;
        auAvail, auUsed := !auAvail, !auUsed;
      }
    }

    /** The last write of an add. */
    method PublishHead(head: nat, flags: Flags)
      requires head < desc.Length
      modifies desc
      ensures desc[..] == old(desc[..])[head := old(desc[head]).(flags := flags)]
    {
      desc[head] := desc[head].(flags := flags);
    }

    /** The loop of the direct path: every descriptor of the chain but the head's flags word. */
    method FillChain(sg: seq<Sg>, out: nat, ghost r0: Packed, ghost b: Buf)
      returns (i: nat, curr: nat, prev: nat, headFlags: Flags, ghost trace: seq<seq<PDesc>>)
      requires r0 == View() && WellFormed(r0) && Shaped(b) && b.table == None
      requires b.sg == sg && b.out == out && b.ids == Chain(r0.st, r0.freeHead, |sg|) && |sg| <= numFree
      modifies this`auAvail, this`auUsed, desc
      ensures i == Slot(num, nextIdx, |sg|)
      ensures auAvail == ParityAt(num, nextIdx, r0.auAvail, |sg|) && auUsed == !auAvail
      ensures prev == b.ids[|sg| - 1] < num && curr == st[prev].next
      ensures headFlags == DescOf(b, 0, r0.auAvail).flags
      ensures Filled(r0, b, desc[..], |sg|)
      ensures TraceOk(r0, |sg|, trace, desc[..])
    {
      ChainNext(r0.st, r0.freeHead, |sg|, 0);
      trace := [];
      var id := freeHead;
      i, curr, prev := nextIdx, id, id;
      headFlags := desc[i].flags;
      for n := 0 to |sg|
        modifies this`auAvail, this`auUsed, desc
        invariant AtElement(r0, b, n, i, curr, prev, auAvail, auUsed)
        invariant n > 0 ==> headFlags == DescOf(b, 0, r0.auAvail).flags
        invariant Filled(r0, b, desc[..], n)
        invariant TraceSoFar(r0, |sg|, n, trace, desc[..])
      {
        NextElement(r0, b, n, i, curr, prev, auAvail, auUsed);
        var flags := Flags(auAvail, auUsed, n != |sg| - 1, n >= out, false);
        trace := WriteElement(n, i, sg[n], id, flags, r0, b, trace);
        if n == 0 {
          headFlags := flags;
        }
        prev := curr;
        curr := st[curr].next;
        i := NextSlot(i);
      }
    }

    /** The bookkeeping of the direct path, and the write that publishes the buffer. */
    method TakeDirect(i: nat, curr: nat, prev: nat, id: nat, count: nat, token: nat, head: nat, headFlags: Flags)
      requires id < st.Length && count <= numFree && head < desc.Length
      modifies this`availWrap, this`numFree, this`nextIdx, this`freeHead, this`numAdded, st, desc
      ensures View() == old(View()).(
                availWrap := if i < old(nextIdx) then !old(availWrap) else old(availWrap),
                numFree := old(numFree) - count, nextIdx := i, freeHead := curr,
                numAdded := (old(numAdded) + count) % U32,
                desc := old(desc[..])[head := old(desc[head]).(flags := headFlags)],
                st := old(st[..])[id := DescState(Ptr(token), count, old(st[id].next), prev)])
    {
      if i < nextIdx {
        availWrap := !availWrap;
      }
      numFree := numFree - count;
      nextIdx := i;
      freeHead := curr;
      StoreToken(id, count, token, prev);
      PublishHead(head, headFlags);
      numAdded := (numAdded + count) % U32;
    }

    /** The direct path: one ring descriptor per element, the head's flags word last. */
    method AddDirect(sg: seq<Sg>, out: nat, token: nat)
      returns (ret: int, ghost trace: seq<seq<PDesc>>)
      requires Valid() && |sg| >= 1 && out <= |sg|
      modifies this, desc, st
      ensures old(numFree) < |sg| ==> ret == -ENOSPC && View() == old(View())
      ensures old(numFree) >= |sg| ==>
                var b := NewBuf(old(View()), sg, out, token, None);
                && ret == 0 && View() == Accept(old(View()), b)
                && Published(old(View()), trace, |sg|, desc[..])
                && forall i :: 0 <= i < |sg| ==> SaysCallers(desc[Slot(num, old(nextIdx), i)], b, i)
    {
      if numFree < |sg| {
        return -ENOSPC, [];
      }
      AcceptWritesList(View(), NewBuf(View(), sg, out, token, None));
      trace := PublishDirect(sg, out, token);
      ret := 0;
    }

    method PublishDirect(sg: seq<Sg>, out: nat, token: nat) returns (ghost trace: seq<seq<PDesc>>)
      requires Valid() && 1 <= |sg| <= numFree && out <= |sg|
      modifies this, desc, st
      ensures var b := NewBuf(old(View()), sg, out, token, None);
              View() == Accept(old(View()), b) && Published(old(View()), trace, |sg|, desc[..])
    {
      ghost var r0 := View();
      ghost var b := NewBuf(r0, sg, out, token, None);
      var head, id := nextIdx, freeHead;
      ChainNext(r0.st, r0.freeHead, |sg|, 0);
      var i, curr, prev, headFlags;
      i, curr, prev, headFlags, trace := FillChain(sg, out, r0, b);
      ghost var now := desc[..];
      assert View() == r0.(desc := now, auAvail := auAvail, auUsed := auUsed);
      TakeDirect(i, curr, prev, id, |sg|, token, head, headFlags);
      AcceptDirect(r0, b, now, trace, View());
    }

    /** `detach_buf_packed`. */
    method DetachBuf(id: nat)
      requires Valid() && id < num
      modifies this`freeHead, this`numFree, st
      ensures View() == Detach(old(View()), id)
    {
      st[id] := st[id].(data := Null);
      st[st[id].last] := st[st[id].last].(next := freeHead);
      freeHead := id;
      numFree := numFree + st[id].num;
    }

    /** `virtqueue_get_buf_packed`; the ring is only assumed to be memory, not a well-behaved device. */
    method GetBuf() returns (ret: Opaque, len: nat)
      requires Valid()
      modifies this, st
      ensures (View(), ret, len) == PackedRing.GetBuf(old(View()))
    {
      ret, len := Null, 0;
      var f := desc[lastUsed].flags;
      if !(f.avail == f.used && f.used == usedWrap) {
        return;
      }
      var id := desc[lastUsed].id;
      len := desc[lastUsed].len;
      if id >= num {
        return;
      }
      if st[id].data == Null {
        return;
      }
      ret := st[id].data;
      DetachBuf(id);
      lastUsed := lastUsed + st[id].num;
      if lastUsed >= num {
        lastUsed := lastUsed - num;
        usedWrap := !usedWrap;
      }
      if shadow == FLAG_DESC {
        drvOff := OffWrap(lastUsed, usedWrap);
      }
    }

    /** `virtqueue_detach_unused_buf_packed`. */
    method DetachUnusedBuf() returns (buf: Opaque)
      requires Valid()
      modifies this`freeHead, this`numFree, st
      ensures (View(), buf) == DetachUnused(old(View()))
    {
      for i := 0 to num
        invariant View() == old(View())
        invariant FirstData(st[..], 0) == FirstData(st[..], i)
      {
        if st[i].data != Null {
          buf := st[i].data;
          DetachBuf(i);
          return;
        }
      }
      buf := Null;
    }

    /** `virtqueue_has_buf_packed`. */
    method HasBuf() returns (has: bool)
      requires Valid()
      ensures has <==> MoreUsed(View())
    {
      OffWrapRoundTrip(lastUsed, usedWrap);
      has := Poll(OffWrap(lastUsed, usedWrap));
    }

    /** `virtqueue_poll_packed`: whether the descriptor at a position given as `off_wrap` is used. */
    method Poll(offWrap: nat) returns (isUsed: bool)
      requires Valid() && OffOf(offWrap) < num
      ensures isUsed <==> IsUsed(desc[OffOf(offWrap)].flags, WrapOf(offWrap))
    {
      var f := desc[OffOf(offWrap)].flags;
      isUsed := f.avail == f.used && f.used == WrapOf(offWrap);
    }

    /** `virtqueue_disable_cb_packed`. */
    method DisableCb()
      modifies this`shadow, this`drvFlags
      ensures shadow == FLAG_DISABLE && (old(shadow) != FLAG_DISABLE ==> drvFlags == FLAG_DISABLE)
      ensures old(shadow) == FLAG_DISABLE ==> drvFlags == old(drvFlags)
    {
      if shadow != FLAG_DISABLE {
        shadow := FLAG_DISABLE;
        drvFlags := shadow;
      }
    }

    /** `virtqueue_enable_cb_packed`: the position before the flags, and then a last look at the ring. */
    method EnableCb() returns (idle: bool)
      requires Valid()
      modifies this`shadow, this`drvFlags, this`drvOff
      ensures var r, on := old(View()), if eventSuppression then FLAG_DESC else FLAG_ENABLE;
              View() == r.(drvOff := if eventSuppression then OffWrap(r.lastUsed, r.usedWrap) else r.drvOff,
                           shadow := if r.shadow == FLAG_DISABLE then on else r.shadow,
                           drvFlags := if r.shadow == FLAG_DISABLE then on else r.drvFlags)
      ensures idle <==> !MoreUsed(old(View()))
    {
      OffWrapRoundTrip(lastUsed, usedWrap);
      if eventSuppression {
        drvOff := OffWrap(lastUsed, usedWrap);
      }
      if shadow == FLAG_DISABLE {
        shadow := if eventSuppression then FLAG_DESC else FLAG_ENABLE;
        drvFlags := shadow;
      }
      var used := Poll(OffWrap(lastUsed, usedWrap));
      idle := !used;
    }

    /** `virtqueue_kick_prepare_packed`, given what the device's event structure holds. */
    method KickPrepare(devFlags: nat, devOff: nat) returns (needsKick: bool)
      requires Valid()
      modifies this`numAdded
      ensures (View(), needsKick) == PackedEvents.KickPrepare(old(View()), devFlags, devOff)
    {
      var from, newIdx := (nextIdx as int - numAdded as int) % U16, nextIdx;
      numAdded := 0;
      if devFlags != FLAG_DESC {
        return devFlags != FLAG_DISABLE;
      }
      var event := OffOf(devOff) as int;
      if WrapOf(devOff) != availWrap {
        event := event - num;
      }
      needsKick := EventIndex.NeedEvent(event % U16, newIdx, from);
    }
  }
}
