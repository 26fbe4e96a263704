/** The packed virtqueue: its memory, the driver's bookkeeping, and what each driver call and each
    device action does to them, as functions on values. `PackedQueue` holds the same state in a
    class and is proved against these functions. */
module PackedRing {
  import opened Integers
  import opened RingMath
  import opened Ledger

  /** An opaque pointer of a caller; a real buffer's pointer is never null. */
  datatype Opaque = Null | Ptr(token: nat)

  /** The bits of a descriptor's 16-bit flags word. */
  datatype Flags = Flags(avail: bool, used: bool, next: bool, write: bool, indirect: bool)

  datatype PDesc = PDesc(addr: nat, len: nat, id: nat, flags: Flags)

  datatype DescState = DescState(data: Opaque, num: nat, next: nat, last: nat)

  const DESC_SIZE: nat := 16
  const MAX_RING: nat := 0x8000
  const ENOSPC: int := 28

  const FLAG_ENABLE: nat := 0
  const FLAG_DISABLE: nat := 1
  const FLAG_DESC: nat := 2

  const ZeroDesc: PDesc := PDesc(0, 0, 0, Flags(false, false, false, false, false))

  /** Everything one packed queue consists of. `auAvail` and `auUsed` are the two bits of
      `avail_used_flags`; `drvOff`, `drvFlags`, `devOff`, `devFlags` are the two event
      suppression structures. */
  datatype Packed = Packed(
    num: nat, desc: seq<PDesc>, st: seq<DescState>,
    numAdded: nat, freeHead: nat, numFree: nat,
    lastUsed: nat, nextIdx: nat,
    auAvail: bool, auUsed: bool, availWrap: bool, usedWrap: bool,
    shadow: nat, drvOff: nat, drvFlags: nat)

  predicate StatesInRange(st: seq<DescState>) {
    forall i :: 0 <= i < |st| ==> st[i].next < |st| && st[i].last < |st| && st[i].num <= |st|
  }

  predicate WellFormed(r: Packed) {
    && 0 < r.num <= MAX_RING
    && |r.desc| == |r.st| == r.num
    && r.auUsed == !r.auAvail
    && r.nextIdx < r.num && r.lastUsed < r.num && r.freeHead < r.num && r.numFree <= r.num
    && StatesInRange(r.st)
  }

  predicate Closed(st: seq<DescState>) {
    forall i :: 0 <= i < |st| ==> st[i].next < |st|
  }

  /** `vring_new_virtqueue_packed` on zeroed pages. */
  function Fresh(num: nat): Packed
    requires num > 0
  {
    Packed(num, seq(num, _ => ZeroDesc),
           seq(num, i requires 0 <= i < num => DescState(Null, 0, if i < num - 1 then i + 1 else 0, 0)),
           0, 0, num, 0, 0, true, false, true, true, FLAG_ENABLE, 0, 0)
  }

  // ---------------------------------------------------------------- add_buf

  /** The first `k` descriptor states reached from `id`. */
  function Chain(st: seq<DescState>, id: nat, k: nat): (ids: seq<nat>)
    requires Closed(st) && id < |st|
    ensures |ids| == k
    ensures forall i :: 0 <= i < k ==> ids[i] < |st|
    decreases k
  {
    if k == 0 then [] else [id] + Chain(st, st[id].next, k - 1)
  }

  /** The ring with `ds` written from slot `head` on. */
  function Overlay(desc: seq<PDesc>, head: nat, ds: seq<PDesc>): (d: seq<PDesc>)
    requires head < |desc| && |ds| <= |desc|
    ensures |d| == |desc|
  {
    seq(|desc|, s requires 0 <= s < |desc| =>
      var o := Offset(|desc|, head, s);
      if o < |ds| then ds[o] else desc[s])
  }

  /** Ring descriptor `i` of a buffer, carrying lap bit `avail`. */
  function DescOf(b: Buf, i: nat, avail: bool): PDesc
    requires Shaped(b) && i < |b.ids|
  {
    match b.table
    case Some(table) => PDesc(table, |b.sg| * DESC_SIZE, b.ids[0], Flags(avail, !avail, false, false, true))
    case None =>
      PDesc(b.sg[i].addr, b.sg[i].len, b.ids[0], Flags(avail, !avail, i + 1 < |b.sg|, i >= b.out, false))
  }

  /** The descriptors buffer `b` occupies when its head goes to slot `head` on lap `avail`. */
  function RingDescs(n: nat, head: nat, avail: bool, b: Buf): (ds: seq<PDesc>)
    requires head < n && Shaped(b) && |b.ids| <= n
    ensures |ds| == |b.ids|
  {
    seq(|b.ids|, i requires 0 <= i < |b.ids| => DescOf(b, i, ParityAt(n, head, avail, i)))
  }

  /** Whether add_buf takes the indirect path. */
  predicate UsesTable(r: Packed, table: Option<nat>) {
    table.Some? && r.numFree > 0
  }

  predicate HasRoom(r: Packed, sg: seq<Sg>, table: Option<nat>) {
    UsesTable(r, table) || |sg| <= r.numFree
  }

  /** The buffer add_buf makes of its arguments. */
  function NewBuf(r: Packed, sg: seq<Sg>, out: nat, token: nat, table: Option<nat>): Buf
    requires WellFormed(r)
  {
    if UsesTable(r, table) then Buf(token, sg, out, table, Chain(r.st, r.freeHead, 1))
    else Buf(token, sg, out, None, Chain(r.st, r.freeHead, |sg|))
  }

  /** The queue after `b` went in. */
  function Accept(r: Packed, b: Buf): Packed
    requires WellFormed(r) && Shaped(b) && |b.ids| <= r.numFree
    requires forall i :: 0 <= i < |b.ids| ==> b.ids[i] < r.num
  {
    var k, id, last := |b.ids|, b.ids[0], b.ids[|b.ids| - 1];
    var wraps := r.nextIdx + k >= r.num;
    var next := Slot(r.num, r.nextIdx, k);
    r.(desc := Overlay(r.desc, r.nextIdx, RingDescs(r.num, r.nextIdx, r.auAvail, b)),
       st := r.st[id := DescState(Ptr(b.token), k, r.st[id].next, last)],
       numAdded := (r.numAdded + k) % U32,
       freeHead := r.st[last].next,
       numFree := r.numFree - k,
       nextIdx := next,
       auAvail := if wraps then !r.auAvail else r.auAvail,
       auUsed := if wraps then !r.auUsed else r.auUsed,
       availWrap := if (if b.table.Some? then wraps else next < r.nextIdx) then !r.availWrap else r.availWrap)
  }

  /** `virtqueue_add_buf_packed`: the new queue and whether the buffer was accepted. */
  function AddBuf(r: Packed, sg: seq<Sg>, out: nat, token: nat, table: Option<nat>): (Packed, bool)
    requires WellFormed(r) && |sg| >= 1 && out <= |sg|
  {
    if HasRoom(r, sg, table) then (Accept(r, NewBuf(r, sg, out, token, table)), true) else (r, false)
  }

  // ---------------------------------------------------------------- get_buf

  predicate IsUsed(f: Flags, lap: bool) {
    f.avail == f.used && f.used == lap
  }

  predicate MoreUsed(r: Packed)
    requires WellFormed(r)
  {
    IsUsed(r.desc[r.lastUsed].flags, r.usedWrap)
  }

  function Detach(r: Packed, id: nat): Packed
    requires WellFormed(r) && id < r.num
  {
    var s := r.st[id].(data := Null);
    var st := r.st[id := s];
    r.(st := st[s.last := st[s.last].(next := r.freeHead)],
       freeHead := id,
       numFree := r.numFree + s.num)
  }

  /** `off | wrap << 15`. */
  function OffWrap(off: nat, wrap: bool): nat {
    if wrap then off + MAX_RING else off
  }

  /** The queue after the used element for `id` was taken. */
  function Reap(r: Packed, id: nat): Packed
    requires WellFormed(r) && id < r.num
  {
    var k := r.st[id].num;
    var d := Detach(r, id);
    var used := Slot(r.num, r.lastUsed, k);
    var wrap := if r.lastUsed + k >= r.num then !r.usedWrap else r.usedWrap;
    d.(lastUsed := used, usedWrap := wrap,
       drvOff := if r.shadow == FLAG_DESC then OffWrap(used, wrap) else r.drvOff)
  }

  /** `virtqueue_get_buf_packed`: the new queue, the token, and the length the device reported. */
  function GetBuf(r: Packed): (Packed, Opaque, nat)
    requires WellFormed(r)
  {
    var d := r.desc[r.lastUsed];
    if !MoreUsed(r) then (r, Null, 0)
    else if d.id >= r.num || r.st[d.id].data == Null then (r, Null, d.len)
    else (Reap(r, d.id), r.st[d.id].data, d.len)
  }

  // ---------------------------------------------------------------- teardown

  /** The smallest id at or after `i` whose state holds a token, or the number of ids. */
  function FirstData(st: seq<DescState>, i: nat): (k: nat)
    requires i <= |st|
    ensures i <= k <= |st|
    ensures forall j :: i <= j < k ==> st[j].data == Null
    ensures k < |st| ==> st[k].data != Null
    decreases |st| - i
  {
    if i == |st| || st[i].data != Null then i else FirstData(st, i + 1)
  }

  /** `virtqueue_detach_unused_buf_packed`. */
  function DetachUnused(r: Packed): (Packed, Opaque)
    requires WellFormed(r)
  {
    var i := FirstData(r.st, 0);
    if i == r.num then (r, Null) else (Detach(r, i), r.st[i].data)
  }

  // ---------------------------------------------------------------- the device

  /** Where the device reads its next available and writes its next used element. */
  datatype Device = Device(availIdx: nat, availWrap: bool, usedIdx: nat, usedWrap: bool)

  const FreshDevice: Device := Device(0, true, 0, true)

  predicate IsAvailable(f: Flags, lap: bool) {
    f.avail == lap && f.used != lap
  }

  predicate DeviceSees(r: Packed, dev: Device)
    requires dev.availIdx < |r.desc|
  {
    IsAvailable(r.desc[dev.availIdx].flags, dev.availWrap)
  }

  /** The chain a device reads from slot `pos` on, giving up after `fuel` descriptors. */
  function Walk(desc: seq<PDesc>, pos: nat, fuel: nat): seq<PDesc>
    requires pos < |desc|
    decreases fuel
  {
    if fuel == 0 then []
    else if desc[pos].flags.next then [desc[pos]] + Walk(desc, Slot(|desc|, pos, 1), fuel - 1)
    else [desc[pos]]
  }

  /** The device moves past `k` available descriptors. */
  function DeviceTake(n: nat, dev: Device, k: nat): Device
    requires dev.availIdx < n && k <= n
  {
    dev.(availIdx := Slot(n, dev.availIdx, k), availWrap := ParityAt(n, dev.availIdx, dev.availWrap, k))
  }

  /** The device writes a used element for `id` over `k` slots; `extra` gives the flag bits that
      section 2.7 of VIRTIO 1.1 leaves to the device. */
  function DeviceUse(r: Packed, dev: Device, id: nat, k: nat, len: nat, extra: Flags): (Packed, Device)
    requires dev.usedIdx < |r.desc| && k <= |r.desc|
  {
    var w := dev.usedWrap;
    var d := PDesc(r.desc[dev.usedIdx].addr, len, id, Flags(w, w, extra.next, extra.write, extra.indirect));
    (r.(desc := r.desc[dev.usedIdx := d]),
     dev.(usedIdx := Slot(|r.desc|, dev.usedIdx, k), usedWrap := ParityAt(|r.desc|, dev.usedIdx, w, k)))
  }
}
