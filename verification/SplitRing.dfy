/** The split virtqueue: its memory, the driver's bookkeeping, and what each driver call and each
    device action does to them, as functions on values. `SplitQueue` holds the same state in a class
    and is proved against these functions. */
module SplitRing {
  import opened Integers
  import opened Ledger
  import opened EventIndex
  import opened PackedRing

  /** The bits of a descriptor's flags word. */
  datatype SFlags = SFlags(next: bool, write: bool, indirect: bool)

  datatype SDesc = SDesc(addr: nat, len: nat, flags: SFlags, next: nat)

  datatype UsedElem = UsedElem(id: nat, len: nat)

  const ZeroSDesc: SDesc := SDesc(0, 0, SFlags(false, false, false), 0)

  /** Everything one split queue consists of. `availIdx` is the master copy of `avail->idx`, which
      every update writes through; `usedIdx` and `used` are the device's. */
  datatype Split = Split(
    num: nat, desc: seq<SDesc>, avail: seq<nat>, availIdx: nat, used: seq<UsedElem>, usedIdx: nat,
    tokens: seq<Opaque>, firstUnused: nat, numUnused: nat, lastUsed: nat, numAdded: nat,
    interruptsOn: bool, usedEvent: nat)

  /** Ring sizes are powers of two, which are the divisors of 2^16. */
  predicate RingSize(n: nat) {
    0 < n <= MAX_RING && RingSlot(n, U16) == 0
  }

  predicate NextInRange(desc: seq<SDesc>) {
    forall i :: 0 <= i < |desc| ==> desc[i].next < |desc|
  }

  predicate SplitWellFormed(r: Split) {
    && RingSize(r.num)
    && |r.desc| == |r.avail| == |r.used| == |r.tokens| == r.num
    && NextInRange(r.desc)
    && r.firstUnused < r.num && r.numUnused <= r.num
    && r.availIdx < U16 && r.usedIdx < U16 && r.lastUsed < U16
  }

  /** `DESC_INDEX`: masking with `num - 1` is the remainder by a power of two, written here as
      repeated subtraction. */
  function RingSlot(n: nat, idx: nat): (s: nat)
    requires n > 0
    ensures s < n
  {
    if idx < n then idx else RingSlot(n, idx - n)
  }

  function FreshSplit(num: nat): Split
    requires num > 0
  {
    Split(num,
          seq(num, i requires 0 <= i < num =>
            if i < num - 1 then SDesc(0, 0, SFlags(true, false, false), i + 1) else ZeroSDesc),
          seq(num, _ => 0), 0, seq(num, _ => UsedElem(0, 0)), 0, seq(num, _ => Null), 0, num, 0, 0, true, 0)
  }

  // ---------------------------------------------------------------- add_buf

  /** The first `k` descriptors reached from `id`. */
  function SChain(desc: seq<SDesc>, id: nat, k: nat): (ids: seq<nat>)
    requires NextInRange(desc) && id < |desc|
    ensures |ids| == k
    ensures forall i :: 0 <= i < k ==> ids[i] < |desc|
    decreases k
  {
    if k == 0 then [] else [id] + SChain(desc, desc[id].next, k - 1)
  }

  /** Descriptor `j` of a buffer's chain, keeping the `next` it already has. */
  function SDescOf(b: Buf, j: nat, next: nat): SDesc
    requires Shaped(b) && j < |b.ids|
  {
    match b.table
    case Some(table) => SDesc(table, (|b.sg| * DESC_SIZE) % U32, SFlags(false, false, true), next)
    case None => SDesc(b.sg[j].addr, b.sg[j].len, SFlags(j + 1 < |b.sg|, j >= b.out, false), next)
  }

  /** The 16-bit link of a table's element `i`. */
  function NextLink(i: nat): nat { (i + 1) % U16 }

  /** The table an indirect descriptor points at, from its first `n` elements; the links have 16 bits. */
  predicate SplitTableHolds(t: seq<SDesc>, sg: seq<Sg>, out: nat, n: nat)
    requires n <= |sg| && n <= |t|
  {
    forall i :: 0 <= i < n ==>
      t[i] == SDesc(sg[i].addr, sg[i].len, SFlags(i + 1 < |sg|, i >= out, false), NextLink(i))
  }

  /** A full table links every element to the one after it exactly when 16 bits are enough. */
  lemma {:induction false} TableLinksIff(t: seq<SDesc>, sg: seq<Sg>, out: nat)
    requires |sg| <= |t| && SplitTableHolds(t, sg, out, |sg|)
    ensures (forall i :: 0 <= i < |sg| - 1 ==> t[i].next == i + 1) <==> |sg| <= U16
  {
    if |sg| > U16 {
      assert t[U16 - 1].next == 0;
    }
  }

  /** What a device reads along NEXT in a table, giving up behind its end or after `fuel` descriptors. */
  function TableWalk(t: seq<SDesc>, i: nat, fuel: nat): (w: seq<SDesc>)
    ensures |w| <= fuel
    decreases fuel
  {
    if fuel == 0 || i >= |t| then []
    else if t[i].flags.next then [t[i]] + TableWalk(t, t[i].next, fuel - 1)
    else [t[i]]
  }

  /** The caller's list: `out` read-only elements and then write-only ones, in order, each but the last one
      followed by another. */
  predicate ReadsList(w: seq<SDesc>, sg: seq<Sg>, out: nat) {
    |w| == |sg| && forall i :: 0 <= i < |w| ==>
      w[i].addr == sg[i].addr && w[i].len == sg[i].len && w[i].flags == SFlags(i + 1 < |sg|, i >= out, false)
  }

  lemma {:induction false} WalkFrom(t: seq<SDesc>, sg: seq<Sg>, out: nat, i: nat)
    requires |t| == |sg| <= U16 && SplitTableHolds(t, sg, out, |sg|) && i < |sg|
    ensures TableWalk(t, i, |sg| - i) == t[i..]
    decreases |sg| - i
  {
    if i + 1 < |sg| {
      WalkFrom(t, sg, out, i + 1);
      assert NextLink(i) == i + 1;
    }
  }

  /** In a table with more elements than links the walk never comes to the last one. */
  lemma {:induction false} WalkLoops(t: seq<SDesc>, sg: seq<Sg>, out: nat, i: nat, fuel: nat)
    requires |t| == |sg| > U16 && SplitTableHolds(t, sg, out, |sg|) && i < U16
    ensures |TableWalk(t, i, fuel)| == fuel
    ensures forall k :: 0 <= k < fuel ==> TableWalk(t, i, fuel)[k].flags.next
    decreases fuel
  {
    if fuel > 0 {
      WalkLoops(t, sg, out, NextLink(i), fuel - 1);
      assert TableWalk(t, i, fuel) == [t[i]] + TableWalk(t, NextLink(i), fuel - 1);
    }
  }

  /** Walking a full table along NEXT reads the caller's list exactly when 16 bits are enough for its links. */
  lemma {:induction false} TableReadsIff(t: seq<SDesc>, sg: seq<Sg>, out: nat)
    requires |t| == |sg| >= 1 && SplitTableHolds(t, sg, out, |sg|)
    ensures ReadsList(TableWalk(t, 0, |sg|), sg, out) <==> |sg| <= U16
  {
    if |sg| <= U16 {
      WalkFrom(t, sg, out, 0);
      assert t[0..] == t;
    } else {
      WalkLoops(t, sg, out, 0, |sg|);
      assert TableWalk(t, 0, |sg|)[|sg| - 1].flags.next;
    }
  }

  predicate SUsesTable(r: Split, sg: seq<Sg>, table: Option<nat>) {
    table.Some? && |sg| > 1 && r.numUnused > 0
  }

  predicate SHasRoom(r: Split, sg: seq<Sg>, table: Option<nat>) {
    SUsesTable(r, sg, table) || |sg| <= r.numUnused
  }

  function SNewBuf(r: Split, sg: seq<Sg>, out: nat, token: nat, table: Option<nat>): Buf
    requires SplitWellFormed(r)
  {
    if SUsesTable(r, sg, table) then Buf(token, sg, out, table, SChain(r.desc, r.firstUnused, 1))
    else Buf(token, sg, out, None, SChain(r.desc, r.firstUnused, |sg|))
  }

  /** The descriptor table after the first `j` descriptors of `b` were written. */
  function WriteChain(desc: seq<SDesc>, b: Buf, j: nat): (d: seq<SDesc>)
    requires Shaped(b) && j <= |b.ids|
    requires forall i :: 0 <= i < |b.ids| ==> b.ids[i] < |desc|
    ensures |d| == |desc|
    ensures forall i :: 0 <= i < |desc| ==> d[i].next == desc[i].next
    decreases j
  {
    if j == 0 then desc
    else
      var d := WriteChain(desc, b, j - 1);
      d[b.ids[j - 1] := SDescOf(b, j - 1, desc[b.ids[j - 1]].next)]
  }

  function SAccept(r: Split, b: Buf): Split
    requires SplitWellFormed(r) && Shaped(b) && |b.ids| <= r.numUnused
    requires forall i :: 0 <= i < |b.ids| ==> b.ids[i] < r.num
  {
    var head := b.ids[0];
    r.(desc := WriteChain(r.desc, b, |b.ids|),
       tokens := r.tokens[head := Ptr(b.token)],
       firstUnused := r.desc[b.ids[|b.ids| - 1]].next,
       numUnused := r.numUnused - |b.ids|,
       avail := r.avail[RingSlot(r.num, r.availIdx) := head],
       availIdx := Succ16(r.availIdx),
       numAdded := (r.numAdded + 1) % U32)
  }

  /** `virtqueue_add_buf_split`: the new queue and whether the buffer was accepted. */
  function SAddBuf(r: Split, sg: seq<Sg>, out: nat, token: nat, table: Option<nat>): (Split, bool)
    requires SplitWellFormed(r) && |sg| >= 1 && out <= |sg|
  {
    if SHasRoom(r, sg, table) then (SAccept(r, SNewBuf(r, sg, out, token, table)), true) else (r, false)
  }

  // ---------------------------------------------------------------- get_buf

  /** Following NEXT from `id` ends within `fuel` descriptors. */
  predicate Ends(desc: seq<SDesc>, id: nat, fuel: nat)
    requires NextInRange(desc)
    decreases fuel
  {
    fuel > 0 && id < |desc| && (desc[id].flags.next ==> Ends(desc, desc[id].next, fuel - 1))
  }

  /** The chain from `id` along NEXT. */
  function Follow(desc: seq<SDesc>, id: nat, fuel: nat): (ids: seq<nat>)
    requires NextInRange(desc) && Ends(desc, id, fuel)
    ensures |ids| >= 1 && ids[0] == id
    ensures forall i :: 0 <= i < |ids| ==> ids[i] < |desc|
    decreases fuel
  {
    if desc[id].flags.next then [id] + Follow(desc, desc[id].next, fuel - 1) else [id]
  }

  /** `put_unused_desc_chain` for the chain `ids`. */
  function PutChain(r: Split, ids: seq<nat>): Split
    requires SplitWellFormed(r) && |ids| >= 1
    requires forall i :: 0 <= i < |ids| ==> ids[i] < r.num
  {
    var last := ids[|ids| - 1];
    r.(tokens := r.tokens[ids[0] := Null],
       desc := r.desc[last := r.desc[last].(flags := SFlags(true, false, false), next := r.firstUnused)],
       numUnused := r.numUnused + |ids|,
       firstUnused := ids[0])
  }

  /** The head the next used element names. */
  function UsedHead(r: Split): nat
    requires SplitWellFormed(r)
  {
    Low16(r.used[RingSlot(r.num, r.lastUsed)].id)
  }

  predicate ReapReady(r: Split)
    requires SplitWellFormed(r)
  {
    r.lastUsed != r.usedIdx ==> Ends(r.desc, UsedHead(r), r.num)
  }

  function SReap(r: Split, ids: seq<nat>, eventSuppression: bool): Split
    requires SplitWellFormed(r) && |ids| >= 1
    requires forall i :: 0 <= i < |ids| ==> ids[i] < r.num
  {
    var p, last := PutChain(r, ids), Succ16(r.lastUsed);
    p.(lastUsed := last,
       usedEvent := if eventSuppression && r.interruptsOn then last else r.usedEvent)
  }

  /** `virtqueue_get_buf_split`: the new queue, the token, and the length the device reported. */
  function SGetBuf(r: Split, eventSuppression: bool): (Split, Opaque, nat)
    requires SplitWellFormed(r) && ReapReady(r)
  {
    if r.lastUsed == r.usedIdx then (r, Null, 0)
    else
      (SReap(r, Follow(r.desc, UsedHead(r), r.num), eventSuppression),
       r.tokens[UsedHead(r)], r.used[RingSlot(r.num, r.lastUsed)].len)
  }

  // ---------------------------------------------------------------- kick_prepare

  /** `virtqueue_kick_prepare_split`, given what the device last wrote: its NO_NOTIFY flag and its event
      index. The new queue, and whether the device must be notified. */
  function SKickPrepare(r: Split, eventSuppression: bool, noNotify: bool, availEvent: nat): (Split, bool) {
    (r.(numAdded := 0),
     if eventSuppression then KickSplit(availEvent, r.availIdx, r.numAdded) else !noNotify)
  }

  // ---------------------------------------------------------------- teardown

  function FirstOpaque(tokens: seq<Opaque>, i: nat): (k: nat)
    requires i <= |tokens|
    ensures i <= k <= |tokens|
    ensures forall j :: i <= j < k ==> tokens[j] == Null
    ensures k < |tokens| ==> tokens[k] != Null
    decreases |tokens| - i
  {
    if i == |tokens| || tokens[i] != Null then i else FirstOpaque(tokens, i + 1)
  }

  predicate DetachReady(r: Split)
    requires SplitWellFormed(r)
  {
    var i := FirstOpaque(r.tokens, 0);
    i < r.num ==> Ends(r.desc, i, r.num)
  }

  /** `virtqueue_detach_unused_buf_split`. */
  function SDetachUnused(r: Split): (Split, Opaque)
    requires SplitWellFormed(r) && DetachReady(r)
  {
    var i := FirstOpaque(r.tokens, 0);
    if i == r.num then (r, Null)
    else (PutChain(r, Follow(r.desc, i, r.num)).(availIdx := Pred16(r.availIdx)), r.tokens[i])
  }

  // ---------------------------------------------------------------- the device

  /** The chain a device reads from `id` on, giving up after `fuel` descriptors. */
  function SWalk(desc: seq<SDesc>, id: nat, fuel: nat): seq<SDesc>
    requires NextInRange(desc) && id < |desc|
    decreases fuel
  {
    if fuel == 0 then []
    else if desc[id].flags.next then [desc[id]] + SWalk(desc, desc[id].next, fuel - 1)
    else [desc[id]]
  }

  /** The device writes a used element for `id` and moves the used index. */
  function SDeviceUse(r: Split, id: nat, len: nat): Split
    requires SplitWellFormed(r)
  {
    r.(used := r.used[RingSlot(r.num, r.usedIdx) := UsedElem(id, len)], usedIdx := Succ16(r.usedIdx))
  }
}
