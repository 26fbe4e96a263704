/** The split virtqueue as the driver keeps it: fields and arrays changed in place. Every method is
    proved equal to the function of the same name in `SplitRing`. */
module SplitQueueClass {
  import opened Integers
  import opened EventIndex
  import opened Ledger
  import opened PackedRing
  import opened SplitRing

  /** Each id of a chain is what the one before points at. */
  lemma {:induction false} SChainNext(desc: seq<SDesc>, id: nat, k: nat, n: nat)
    requires NextInRange(desc) && id < |desc| && n < k
    ensures var c := SChain(desc, id, k);
            c[n] == if n == 0 then id else desc[c[n - 1]].next
    decreases k
  {
    if n > 0 {
      SChainNext(desc, desc[id].next, k - 1, n - 1);
    }
  }

  ghost predicate IdsFit(b: Buf, desc: seq<SDesc>) {
    Shaped(b) && forall i :: 0 <= i < |b.ids| ==> b.ids[i] < |desc|
  }

  /** The descriptor table after `n` elements of `b`, the newest still marked NEXT. */
  ghost predicate Written(desc0: seq<SDesc>, b: Buf, n: nat, desc: seq<SDesc>)
    requires IdsFit(b, desc0) && b.table == None && 1 <= n <= |b.ids|
  {
    && |desc| == |desc0|
    && desc == WriteChain(desc0, b, n - 1)[b.ids[n - 1] := Continued(desc0, b, n - 1)]
  }

  /** Element `j` of `b` with NEXT set whatever follows. */
  ghost function Continued(desc0: seq<SDesc>, b: Buf, j: nat): SDesc
    requires IdsFit(b, desc0) && j < |b.ids|
  {
    var d := SDescOf(b, j, desc0[b.ids[j]].next);
    d.(flags := d.flags.(next := true))
  }

  lemma {:induction false} WrittenSoFar(desc0: seq<SDesc>, b: Buf, n: nat, desc: seq<SDesc>)
    requires IdsFit(b, desc0) && b.table == None && 1 <= n <= |b.ids| && Written(desc0, b, n, desc)
    ensures n < |b.ids| ==> desc == WriteChain(desc0, b, n)
    ensures n == |b.ids| ==>
              var d := desc[b.ids[n - 1]];
              desc[b.ids[n - 1] := d.(flags := d.flags.(next := false))] == WriteChain(desc0, b, n)
    ensures forall i :: 0 <= i < |desc| ==> desc[i].next == desc0[i].next
  {
  }

  lemma {:induction false} AcceptFields(r: Split, b: Buf, v: Split)
    requires SplitWellFormed(r) && Shaped(b) && |b.ids| <= r.numUnused
    requires forall i :: 0 <= i < |b.ids| ==> b.ids[i] < r.num
    requires v == r.(desc := v.desc, tokens := v.tokens, firstUnused := v.firstUnused, numUnused := v.numUnused,
                     avail := v.avail, availIdx := v.availIdx, numAdded := v.numAdded)
    requires v.desc == WriteChain(r.desc, b, |b.ids|) && v.tokens == r.tokens[b.ids[0] := Ptr(b.token)]
    requires v.firstUnused == r.desc[b.ids[|b.ids| - 1]].next && v.numUnused == r.numUnused - |b.ids|
    requires v.avail == r.avail[RingSlot(r.num, r.availIdx) := b.ids[0]] && v.availIdx == Succ16(r.availIdx)
    requires v.numAdded == (r.numAdded + 1) % U32
    ensures v == SAccept(r, b)
  {
  }

  class SplitQueue {
    const num: nat
    const eventSuppression: bool
    const desc: array<SDesc>
    const avail: array<nat>
    const used: array<UsedElem>
    const tokens: array<Opaque>
    var availIdx: nat
    var usedIdx: nat
    var firstUnused: nat
    var numUnused: nat
    var lastUsed: nat
    var numAdded: nat
    var interruptsOn: bool
    var usedEvent: nat

    ghost function View(): Split
      reads this, desc, avail, used, tokens
    {
      Split(num, desc[..], avail[..], availIdx, used[..], usedIdx, tokens[..],
            firstUnused, numUnused, lastUsed, numAdded, interruptsOn, usedEvent)
    }

    /** `desc`, `avail` and `used` are shared with the device; `tokens` is the driver's own. */
    ghost predicate Valid()
      reads this, desc, avail, used, tokens
    {
      SplitWellFormed(View())
    }

    /** `vring_new_virtqueue_split` on zeroed pages, for a size that is a power of two. */
    constructor (num: nat, eventSuppression: bool)
      requires RingSize(num)
      ensures View() == FreshSplit(num) && this.eventSuppression == eventSuppression
      ensures fresh(desc) && fresh(avail) && fresh(used) && fresh(tokens)
    {
      var pages := new SDesc[num](_ => ZeroSDesc);
      for i := 0 to num - 1
        modifies pages
        invariant forall j :: 0 <= j < num ==>
          pages[j] == if j < i then SDesc(0, 0, SFlags(true, false, false), j + 1) else ZeroSDesc
      {
        pages[i] := pages[i].(flags := SFlags(true, false, false));
        pages[i] := pages[i].(next := i + 1);
      }
      this.num, this.eventSuppression := num, eventSuppression;
      desc := pages;
      avail := new nat[num](_ => 0);
      used := new UsedElem[num](_ => UsedElem(0, 0));
      tokens := new Opaque[num](_ => Null);
      availIdx, usedIdx, firstUnused, numUnused := 0, 0, 0, num;
      lastUsed, numAdded, interruptsOn, usedEvent := 0, 0, true, 0;
      new;
      var f := FreshSplit(num);
      assert desc[..] == f.desc;
      assert avail[..] == f.avail && used[..] == f.used && tokens[..] == f.tokens;
    }

    /** `get_unused_desc`. */
    method GetUnusedDesc() returns (idx: nat)
      requires firstUnused < desc.Length && numUnused > 0
      modifies this`firstUnused, this`numUnused
      ensures idx == old(firstUnused) && firstUnused == desc[idx].next && numUnused == old(numUnused) - 1
    {
      idx := firstUnused;
      firstUnused := desc[idx].next;
      numUnused := numUnused - 1;
    }

    /** `virtqueue_add_buf_split`. */
    method AddBuf(sg: seq<Sg>, out: nat, token: nat, table: array?<SDesc>, phys: nat) returns (ret: int)
      requires Valid() && |sg| >= 1 && out <= |sg|
      requires table != null ==> table != desc && |sg| <= table.Length
      modifies this, desc, avail, tokens, if table == null then {} else {table}
      ensures var option := if table == null then None else Some(phys);
              var (after, accepted) := SAddBuf(old(View()), sg, out, token, option);
              && View() == after
              && ret == (if accepted then 0 else -ENOSPC)
              && (SUsesTable(old(View()), sg, option) ==> SplitTableHolds(table[..], sg, out, |sg|))
              && (!SUsesTable(old(View()), sg, option) && table != null ==> table[..] == old(table[..]))
    {
      if table != null && |sg| > 1 && numUnused > 0 {
        AddIndirect(sg, out, token, table, phys);
        ret := 0;
      } else {
        ret := AddDirect(sg, out, token);
      }
    }

    /** One ring descriptor for the whole list. */
    method AddIndirect(sg: seq<Sg>, out: nat, token: nat, table: array<SDesc>, phys: nat)
      requires Valid() && |sg| > 1 && out <= |sg| && numUnused > 0 && table != desc && |sg| <= table.Length
      modifies this, desc, avail, tokens, table
      ensures View() == SAccept(old(View()), SNewBuf(old(View()), sg, out, token, Some(phys)))
      ensures SplitTableHolds(table[..], sg, out, |sg|)
    {
      ghost var r0 := View();
      ghost var b := SNewBuf(r0, sg, out, token, Some(phys));
      SChainNext(r0.desc, r0.firstUnused, 1, 0);
      FillTable(sg, out, table);
      var head := TakeIndirect(|sg|, phys, token, b);
      MakeAvailable(head);
      AcceptFields(r0, b, View());
    }

    /** One ring descriptor per element. */
    method AddDirect(sg: seq<Sg>, out: nat, token: nat) returns (ret: int)
      requires Valid() && |sg| >= 1 && out <= |sg|
      modifies this, desc, avail, tokens
      ensures |sg| > old(numUnused) ==> ret == -ENOSPC && View() == old(View())
      ensures |sg| <= old(numUnused) ==>
                ret == 0 && View() == SAccept(old(View()), SNewBuf(old(View()), sg, out, token, None))
    {
      if |sg| > numUnused {
        return -ENOSPC;
      }
      ghost var r0 := View();
      ghost var b := SNewBuf(r0, sg, out, token, None);
      var head := TakeDirect(sg, out, token, b);
      MakeAvailable(head);
      AcceptFields(r0, b, View());
      ret := 0;
    }

    /** The elements of an indirect table, linked in order. */
    method FillTable(sg: seq<Sg>, out: nat, table: array<SDesc>)
      requires 1 <= |sg| <= table.Length
      modifies table
      ensures SplitTableHolds(table[..], sg, out, |sg|)
    {
      for i := 0 to |sg|
        invariant forall j :: 0 <= j < i ==>
          table[j] == SDesc(sg[j].addr, sg[j].len, SFlags(true, j >= out, false), NextLink(j))
      {
        table[i] := table[i].(flags := SFlags(true, i >= out, false));
        table[i] := table[i].(addr := sg[i].addr);
        table[i] := table[i].(len := sg[i].len);
        table[i] := table[i].(next := NextLink(i));
      }
      var last := |sg| - 1;
      table[last] := table[last].(flags := table[last].flags.(next := false));
    }

    /** One ring descriptor that points at the table. */
    method TakeIndirect(sgLen: nat, phys: nat, token: nat, ghost b: Buf) returns (idx: nat)
      requires Valid() && numUnused > 0 && Shaped(b) && b.table == Some(phys) && b.ids == [firstUnused]
      requires |b.sg| == sgLen && b.token == token
      modifies this`firstUnused, this`numUnused, desc, tokens
      ensures idx == b.ids[0]
      ensures desc[..] == WriteChain(old(desc[..]), b, 1) && tokens[..] == old(tokens[..])[idx := Ptr(token)]
      ensures firstUnused == old(desc[idx].next) && numUnused == old(numUnused) - 1
    {
      idx := GetUnusedDesc();
      desc[idx] := desc[idx].(flags := SFlags(false, false, true));
      desc[idx] := desc[idx].(addr := phys);
      desc[idx] := desc[idx].(len := (sgLen * DESC_SIZE) % U32);
      tokens[idx] := Ptr(token);
    }

    /** One descriptor of the direct path, linked to whatever is unused next. */
    method TakeElement(e: Sg, write: bool, n: nat, ghost b: Buf, ghost desc0: seq<SDesc>) returns (idx: nat)
      requires IdsFit(b, desc0) && b.table == None && n < |b.ids| && desc[..] == WriteChain(desc0, b, n)
      requires e == b.sg[n] && write == (n >= b.out) && firstUnused == b.ids[n] && numUnused > 0
      modifies this`firstUnused, this`numUnused, desc
      ensures idx == b.ids[n] && Written(desc0, b, n + 1, desc[..])
      ensures firstUnused == desc0[b.ids[n]].next && numUnused == old(numUnused) - 1
    {
      idx := GetUnusedDesc();
      desc[idx] := desc[idx].(addr := e.addr);
      desc[idx] := desc[idx].(len := e.len);
      desc[idx] := desc[idx].(flags := SFlags(true, false, false));
      if write {
        desc[idx] := desc[idx].(flags := SFlags(true, true, false));
      }
      desc[idx] := desc[idx].(next := firstUnused);
    }

    /** One ring descriptor per element. */
    method TakeDirect(sg: seq<Sg>, out: nat, token: nat, ghost b: Buf) returns (idx: nat)
      requires Valid() && 1 <= |sg| <= numUnused && out <= |sg|
      requires b == Buf(token, sg, out, None, SChain(desc[..], firstUnused, |sg|))
      modifies this`firstUnused, this`numUnused, desc, tokens
      ensures idx == b.ids[0]
      ensures desc[..] == WriteChain(old(desc[..]), b, |sg|) && tokens[..] == old(tokens[..])[idx := Ptr(token)]
      ensures firstUnused == old(desc[b.ids[|sg| - 1]].next) && numUnused == old(numUnused) - |sg|
    {
      ghost var desc0 := desc[..];
      ghost var first := firstUnused;
      SChainNext(desc0, first, |sg|, 0);
      idx := TakeElement(sg[0], out == 0, 0, b, desc0);
      tokens[idx] := Ptr(token);
      var last := idx;
      for i := 1 to |sg|
        modifies this`firstUnused, this`numUnused, desc
        invariant Written(desc0, b, i, desc[..]) && last == b.ids[i - 1]
        invariant firstUnused == desc0[last].next && numUnused == old(numUnused) - i
      {
        SChainNext(desc0, first, |sg|, i);
        WrittenSoFar(desc0, b, i, desc[..]);
        last := TakeElement(sg[i], i >= out, i, b, desc0);
      }
      WrittenSoFar(desc0, b, |sg|, desc[..]);
      desc[last] := desc[last].(flags := desc[last].flags.(next := false));
    }

    /** The head goes to the available ring and the index that publishes it is written last. */
    method MakeAvailable(head: nat)
      requires num > 0 && avail.Length == num
      modifies this`availIdx, this`numAdded, avail
      ensures avail[..] == old(avail[..])[RingSlot(num, old(availIdx)) := head]
      ensures availIdx == Succ16(old(availIdx)) && numAdded == (old(numAdded) + 1) % U32
    {
      avail[RingSlot(num, availIdx)] := head;
      availIdx := Succ16(availIdx);
      numAdded := (numAdded + 1) % U32;
    }

    /** `put_unused_desc_chain`: the chain from `start` along NEXT goes to the front of the free list. */
    method PutUnusedDescChain(start: nat)
      requires Valid() && start < num && Ends(desc[..], start, num)
      modifies this`firstUnused, this`numUnused, desc, tokens
      ensures View() == PutChain(old(View()), Follow(old(desc[..]), start, num))
    {
      tokens[start] := Null;
      var idx := LastOfChain(start);
      desc[idx] := desc[idx].(flags := SFlags(true, false, false));
      desc[idx] := desc[idx].(next := firstUnused);
      numUnused := numUnused + 1;
      firstUnused := start;
    }

    /** The loop of `put_unused_desc_chain`: counts every descriptor of the chain but its last one. */
    method LastOfChain(start: nat) returns (idx: nat)
      requires NextInRange(desc[..]) && Ends(desc[..], start, num)
      modifies this`numUnused
      ensures var chain := Follow(desc[..], start, num);
              idx == chain[|chain| - 1] && numUnused == old(numUnused) + |chain| - 1
    {
      ghost var d := desc[..];
      ghost var before, left := [], num as nat;
      idx := start;
      while desc[idx].flags.next
        invariant Ends(d, idx, left) && Follow(d, start, num) == before + Follow(d, idx, left)
        invariant numUnused == old(numUnused) + |before|
        decreases left
      {
        before := before + [idx];
        left := left - 1;
        idx := desc[idx].next;
        numUnused := numUnused + 1;
      }
    }

    /** `virtqueue_get_buf_split`. */
    method GetBuf() returns (ret: Opaque, len: nat)
      requires Valid() && ReapReady(View())
      modifies this, desc, tokens
      ensures (View(), ret, len) == SGetBuf(old(View()), eventSuppression)
    {
      ret, len := Null, 0;
      if lastUsed == usedIdx {
        return;
      }
      var idx := RingSlot(num, lastUsed);
      len := used[idx].len;
      idx := EventIndex.Low16(used[idx].id);
      ret := tokens[idx];
      PutUnusedDescChain(idx);
      lastUsed := Succ16(lastUsed);
      if eventSuppression && interruptsOn {
        usedEvent := lastUsed;
      }
    }

    /** `virtqueue_has_buf_split`. */
    method HasBuf() returns (has: bool)
      ensures has <==> lastUsed != usedIdx
    {
      has := lastUsed != usedIdx;
    }

    /** `virtqueue_enable_cb_split`: true when no returned buffer is waiting. */
    method EnableCb() returns (idle: bool)
      modifies this`interruptsOn, this`usedEvent
      ensures View() == old(View()).(interruptsOn := true, usedEvent := lastUsed)
      ensures idle <==> lastUsed == usedIdx
    {
      if !interruptsOn {
        interruptsOn := true;
      }
      usedEvent := lastUsed;
      idle := lastUsed == usedIdx;
    }

    /** `virtqueue_kick_prepare_split`, given what the device last wrote: its NO_NOTIFY flag and its
        event index. */
    method KickPrepare(noNotify: bool, availEvent: nat) returns (notify: bool)
      modifies this`numAdded
      ensures (View(), notify) == SKickPrepare(old(View()), eventSuppression, noNotify, availEvent)
    {
      var wrapAround := numAdded >= U16;
      var from := (availIdx as int - numAdded as int) % U16;
      numAdded := 0;
      if eventSuppression {
        notify := wrapAround || EventIndex.NeedEvent(availEvent, availIdx, from);
      } else {
        notify := !noNotify;
      }
    }

    /** `virtqueue_detach_unused_buf_split`. */
    method DetachUnusedBuf() returns (ret: Opaque)
      requires Valid() && DetachReady(View())
      modifies this, desc, tokens
      ensures (View(), ret) == SDetachUnused(old(View()))
    {
      for i := 0 to num
        invariant View() == old(View())
        invariant FirstOpaque(tokens[..], 0) == FirstOpaque(tokens[..], i)
      {
        if tokens[i] != Null {
          ret := tokens[i];
          PutUnusedDescChain(i);
          availIdx := Pred16(availIdx);
          return;
        }
      }
      ret := Null;
    }
  }
}
