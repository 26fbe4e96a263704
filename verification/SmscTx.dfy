/** How the SMSC9118 driver hands one packet to the transmit FIFO by programmed I/O: a command per
    buffer, with short middle buffers merged into the next one. */
module SmscTx {

  /** One buffer of a packet: where it is, and how long. */
  datatype TxBuf = TxBuf(addr: nat, len: nat)

  /** What the chip reads of one command: the fields of its two command words, and the data bytes that follow.
      `skip` is the data start offset, `align` the end alignment, `length` the length of the whole packet. */
  datatype Cmd = Cmd(first: bool, last: bool, size: nat, skip: nat, align: nat, length: nat, tag: nat, data: seq<nat>)

  const FIRST_SEG: nat := 0x2000
  const LAST_SEG: nat := 0x1000
  const SIZE_LIMIT: nat := 0x800
  const MAX_DIRECT: nat := 86

  // ---------------------------------------------------------------- command words

  /** The first command word as the driver builds it from a pointer, flags and a length. */
  function WordA(ptr: nat, first: bool, last: bool, len: nat): nat {
    (ptr % 0x1_0000) * 0x1_0000 + (if first then FIRST_SEG else 0) + (if last then LAST_SEG else 0) + len
  }

  /** Low five bits, written as repeated subtraction. */
  function Low5(n: nat): (r: nat)
    ensures r < 32
  {
    if n < 32 then n else Low5(n - 32)
  }

  /** Low two bits, written as repeated subtraction. */
  function Low2(n: nat): (r: nat)
    ensures r < 4 && r <= n
  {
    if n < 4 then n else Low2(n - 4)
  }

  /** Up to the next multiple of `unit`. */
  function RoundUp(n: nat, unit: nat): (r: nat)
    requires unit > 0
    ensures n <= r < n + unit
  {
    if n == 0 then 0 else if n <= unit then unit else unit + RoundUp(n - unit, unit)
  }

  lemma {:induction false} LowFive(n: nat)
    ensures Low5(n) == n % 32
  {
    if n >= 32 {
      LowFive(n - 32);
    }
  }

  lemma {:induction false} LowTwo(n: nat)
    ensures Low2(n) == n % 4
  {
    if n >= 4 {
      LowTwo(n - 4);
    }
  }

  /** Fields of a word below its upper half. */
  lemma {:induction false} LowerFields(p: nat, low: nat)
    requires low < 0x1_0000
    ensures (p * 0x1_0000 + low) / 0x1_0000 == p
    ensures (p * 0x1_0000 + low) / LAST_SEG == p * 16 + low / LAST_SEG
  {
  }

  lemma {:induction false} FirstField(p: nat, low: nat)
    requires low < 0x1_0000
    ensures (p * 0x1_0000 + low) / FIRST_SEG == p * 8 + low / FIRST_SEG
  {
  }

  lemma {:induction false} SizeField(p: nat, low: nat)
    requires low < 0x1_0000
    ensures (p * 0x1_0000 + low) % SIZE_LIMIT == low % SIZE_LIMIT
  {
  }

  lemma {:induction false} WordFlags(p: nat, first: bool, last: bool, len: nat)
    requires len < SIZE_LIMIT
    ensures var low := (if first then FIRST_SEG else 0) + (if last then LAST_SEG else 0) + len;
            && ((p * 8 + low / FIRST_SEG) % 2 == 1 <==> first) && ((p * 16 + low / LAST_SEG) % 2 == 1 <==> last)
            && low % SIZE_LIMIT == len && low < 0x1_0000
  {
  }

  /** The field of two bits above the data start offset that says to what the data is padded. */
  function EndAlign(ptr: nat): nat { ptr / 0x100 % 4 }

  /** What the chip reads from the first command word: the flags, the size, as data start offset the low five
      bits of the pointer, and as end alignment its bits 8 and 9. */
  lemma {:induction false} WordMeans(ptr: nat, first: bool, last: bool, len: nat)
    requires len < SIZE_LIMIT
    ensures var a := WordA(ptr, first, last, len);
            && ((a / FIRST_SEG) % 2 == 1 <==> first) && ((a / LAST_SEG) % 2 == 1 <==> last)
            && a % SIZE_LIMIT == len && (a / 0x1_0000) % 32 == Low5(ptr)
            && (a / 0x100_0000) % 4 == EndAlign(ptr)
  {
    var p, low := ptr % 0x1_0000, (if first then FIRST_SEG else 0) + (if last then LAST_SEG else 0) + len;
    var a := WordA(ptr, first, last, len);
    WordFlags(p, first, last, len);
    assert a == p * 0x1_0000 + low;
    LowerFields(p, low);
    FirstField(p, low);
    SizeField(p, low);
    LowerBits(ptr);
    AlignField(p, low);
    MiddleOfLow(ptr / 0x1_0000, p);
  }

  lemma {:induction false} AlignField(p: nat, low: nat)
    requires low < 0x1_0000
    ensures (p * 0x1_0000 + low) / 0x100_0000 == p / 0x100
  {
  }

  lemma {:induction false} MiddleOfLow(q: nat, r: nat)
    ensures (q * 0x1_0000 + r) / 0x100 % 4 == r / 0x100 % 4
  {
    assert (q * 0x1_0000 + r) / 0x100 == q * 0x100 + r / 0x100;
  }

  lemma {:induction false} LowerBits(ptr: nat)
    ensures (ptr % 0x1_0000) % 32 == Low5(ptr)
  {
    LowFive(ptr);
    LowOfLow(ptr / 0x1_0000, ptr % 0x1_0000);
  }

  lemma {:induction false} LowOfLow(q: nat, r: nat)
    ensures (q * 0x1_0000 + r) % 32 == r % 32
  {
  }

  /** The second command word: the packet's length as length and as tag. */
  function WordB(total: nat): nat { total * 0x1_0000 + total }

  /** What the chip reads from the second command word: the packet's length, the tag, and that it is to pad the
      packet and to add its checksum. */
  lemma {:induction false} WordBMeans(total: nat)
    requires total < SIZE_LIMIT
    ensures var b := WordB(total);
            b % SIZE_LIMIT == total && b / 0x1_0000 == total && (b / 0x2000) % 2 == 0 && (b / 0x1000) % 2 == 0
  {
    LowerFields(total, total);
    FirstField(total, total);
    SizeField(total, total);
  }

  /** The chip takes two command words apart. */
  function ReadByChip(a: nat, b: nat, data: seq<nat>): Cmd {
    Cmd((a / 0x2000) % 2 == 1, (a / 0x1000) % 2 == 1, a % 0x800, (a / 0x1_0000) % 32, (a / 0x100_0000) % 4,
        b % 0x800, b / 0x1_0000, data)
  }

  /** The command for `len` bytes at `ptr` of a packet of `total` bytes. */
  function Command(ptr: nat, first: bool, last: bool, len: nat, total: nat, data: seq<nat>): Cmd {
    Cmd(first, last, len, Low5(ptr), EndAlign(ptr), total, total, data)
  }

  /** The two words and the data are written to the FIFO. */
  method Issue(ptr: nat, first: bool, last: bool, len: nat, total: nat, data: seq<nat>) returns (c: Cmd)
    requires len < SIZE_LIMIT && total < SIZE_LIMIT
    ensures c == Command(ptr, first, last, len, total, data)
  {
    var a, b := WordA(ptr, first, last, len), WordB(total);
    WordMeans(ptr, first, last, len);
    WordBMeans(total);
    c := ReadByChip(a, b, data);
  }

  // ---------------------------------------------------------------- what the chip sends

  /** To how many bytes the chip expects the data to be padded; the fourth value is reserved. */
  function Unit(align: nat): (u: nat)
    ensures u > 0
  {
    if align == 1 then 16 else if align == 2 then 32 else 4
  }

  /** The chip takes as much data as was written for the command. Otherwise it reads the words that follow
      wrongly. */
  predicate IsRead(c: Cmd) {
    c.align != 3 && |c.data| == RoundUp(c.skip + c.size, Unit(c.align))
  }

  predicate AllRead(cmds: seq<Cmd>) {
    forall k :: 0 <= k < |cmds| ==> IsRead(cmds[k])
  }

  /** The chip reads all commands of the packet, and each says how long the packet is. */
  predicate Accepted(cmds: seq<Cmd>) {
    AllRead(cmds) && forall k :: 0 <= k < |cmds| ==> cmds[k].length == Sizes(cmds)
  }

  /** Every command says that the packet has `total` bytes. */
  predicate AllSay(cmds: seq<Cmd>, total: nat) {
    forall k :: 0 <= k < |cmds| ==> cmds[k].length == total && cmds[k].tag == total
  }

  /** The bytes the chip sends: it skips the data start offset and takes as many as the command says. */
  function Payload(c: Cmd): seq<nat> {
    if c.skip + c.size <= |c.data| then c.data[c.skip..c.skip + c.size] else []
  }

  function AllPayloads(cmds: seq<Cmd>): seq<nat> {
    if cmds == [] then [] else AllPayloads(cmds[..|cmds| - 1]) + Payload(cmds[|cmds| - 1])
  }

  /** The bytes the commands say they carry. */
  function Sizes(cmds: seq<Cmd>): nat {
    if cmds == [] then 0 else Sizes(cmds[..|cmds| - 1]) + cmds[|cmds| - 1].size
  }

  /** FIFO bytes taken: two words of command and the data. */
  function Cost(cmds: seq<Cmd>): nat {
    if cmds == [] then 0 else Cost(cmds[..|cmds| - 1]) + 8 + |cmds[|cmds| - 1].data|
  }

  // ---------------------------------------------------------------- memory

  function Bytes(mem: nat -> nat, addr: nat, n: nat): (r: seq<nat>)
    ensures |r| == n && forall i :: 0 <= i < n ==> r[i] == mem(addr + i)
  {
    seq(n, i requires 0 <= i < n => mem(addr + i))
  }

  /** The bytes of a packet. */
  function PacketBytes(mem: nat -> nat, bufs: seq<TxBuf>): seq<nat> {
    if bufs == [] then []
    else PacketBytes(mem, bufs[..|bufs| - 1]) + Bytes(mem, bufs[|bufs| - 1].addr, bufs[|bufs| - 1].len)
  }

  /** Whole words covering `len` bytes that start `off` bytes into the first word. */
  function WordBytes(len: nat, off: nat): nat { RoundUp(len + off, 4) }

  /** What `Lan_WriteTxFifo` writes for a buffer: the words that cover it. */
  function Written(mem: nat -> nat, b: TxBuf): seq<nat> {
    Bytes(mem, b.addr - Low2(b.addr), WordBytes(b.len, Low2(b.addr)))
  }

  // ---------------------------------------------------------------- a well-formed packet

  /** FIRST on exactly the first command and LAST on exactly the last, and every command between them
      carries at least four bytes. */
  predicate Framed(cmds: seq<Cmd>) {
    && (forall k :: 0 <= k < |cmds| ==> (cmds[k].first <==> k == 0))
    && (forall k :: 0 <= k < |cmds| ==> (cmds[k].last <==> k == |cmds| - 1))
    && (forall k :: 0 < k < |cmds| - 1 ==> cmds[k].size >= 4)
  }

  /** The space estimate the send path compares with the free space of the FIFO. */
  function SpaceNeeded(len: nat, buffers: nat): nat { RoundUp(len, 4) + 16 * buffers }

  /** What the loop keeps: what was sent, if the chip reads it, and `pending` together are the bytes so far;
      nothing after the first command is short or carries FIRST; LAST is there once the last buffer is done. */
  ghost predicate Sending(cmds: seq<Cmd>, pending: seq<nat>, bytes: seq<nat>, done: nat, finished: bool) {
    && (AllRead(cmds) ==> AllPayloads(cmds) + pending == bytes) && Sizes(cmds) + |pending| == |bytes|
    && |cmds| <= done && Cost(cmds) <= Sizes(cmds) + 14 * |cmds|
    && (pending != [] ==> cmds != [] && |pending| < 4 && !finished)
    && (forall k :: 0 <= k < |cmds| ==> (cmds[k].first <==> k == 0))
    && (forall k :: 0 <= k < |cmds| ==> (cmds[k].last <==> finished && k == |cmds| - 1))
    && (forall k :: 0 < k < |cmds| - (if finished then 1 else 0) ==> cmds[k].size >= 4)
  }

  lemma {:induction false} SentBytes(cmds: seq<Cmd>, c: Cmd)
    ensures AllPayloads(cmds + [c]) == AllPayloads(cmds) + Payload(c)
    ensures Cost(cmds + [c]) == Cost(cmds) + 8 + |c.data| && Sizes(cmds + [c]) == Sizes(cmds) + c.size
    ensures AllRead(cmds + [c]) <==> AllRead(cmds) && IsRead(c)
  {
    var all := cmds + [c];
    assert all[..|all| - 1] == cmds;
    assert all[|cmds|] == c;
    assert forall k :: 0 <= k < |cmds| ==> all[k] == cmds[k];
  }

  lemma {:induction false} Associate(a: seq<nat>, b: seq<nat>, c: seq<nat>)
    ensures a + (b + c) + [] == (a + b) + c
  {
  }

  /** Flags and sizes of one more command. */
  lemma {:induction false} StillFramed(cmds: seq<Cmd>, pending: seq<nat>, bytes: seq<nat>, done: nat, c: Cmd)
    requires Sending(cmds, pending, bytes, done, false)
    requires (c.first <==> cmds == []) && (c.last || cmds == [] || c.size >= 4)
    ensures var all := cmds + [c];
            && (forall k :: 0 <= k < |all| ==> (all[k].first <==> k == 0))
            && (forall k :: 0 <= k < |all| ==> (all[k].last <==> c.last && k == |all| - 1))
            && (forall k :: 0 < k < |all| - (if c.last then 1 else 0) ==> all[k].size >= 4)
  {
  }

  /** One more command. */
  lemma {:induction false} Sent(cmds: seq<Cmd>, pending: seq<nat>, bytes: seq<nat>, done: nat, c: Cmd, next: seq<nat>)
    requires Sending(cmds, pending, bytes, done, false)
    requires (IsRead(c) ==> Payload(c) == pending + next) && c.size == |pending + next| && |c.data| <= c.size + 6
    requires (c.first <==> cmds == []) && (c.last || cmds == [] || c.size >= 4)
    ensures Sending(cmds + [c], [], bytes + next, done + 1, c.last)
  {
    SentBytes(cmds, c);
    StillFramed(cmds, pending, bytes, done, c);
    if AllRead(cmds + [c]) {
      Associate(AllPayloads(cmds), pending, next);
    }
  }

  lemma {:induction false} PacketGrows(mem: nat -> nat, bufs: seq<TxBuf>, i: nat)
    requires i < |bufs|
    ensures PacketBytes(mem, bufs[..i + 1]) == PacketBytes(mem, bufs[..i]) + Bytes(mem, bufs[i].addr, bufs[i].len)
  {
    assert bufs[..i + 1][..i] == bufs[..i];
  }

  function TotalLen(bufs: seq<TxBuf>): nat {
    if bufs == [] then 0 else TotalLen(bufs[..|bufs| - 1]) + bufs[|bufs| - 1].len
  }

  lemma {:induction false} PacketLength(mem: nat -> nat, bufs: seq<TxBuf>)
    ensures |PacketBytes(mem, bufs)| == TotalLen(bufs)
    decreases |bufs|
  {
    if bufs != [] {
      PacketLength(mem, bufs[..|bufs| - 1]);
    }
  }

  lemma {:induction false} PrefixLength(bufs: seq<TxBuf>, i: nat)
    requires i <= |bufs|
    ensures TotalLen(bufs[..i]) <= TotalLen(bufs)
    decreases |bufs| - i
  {
    if i < |bufs| {
      PrefixLength(bufs, i + 1);
      assert bufs[..i + 1][..i] == bufs[..i];
    } else {
      assert bufs[..i] == bufs;
    }
  }

  /** The command for a buffer sent from where it lies. */
  lemma {:induction false} DirectCommand(mem: nat -> nat, b: TxBuf, first: bool, last: bool, total: nat)
    ensures var c := Command(Low2(b.addr), first, last, b.len, total, Written(mem, b));
            && IsRead(c) && Payload(c) == Bytes(mem, b.addr, b.len) && |c.data| <= b.len + 6
  {
    var d, off := Written(mem, b), Low2(b.addr);
    assert off + b.len <= |d|;
    assert d[off..off + b.len] == Bytes(mem, b.addr, b.len);
  }

  /** The pointers and lengths for which the driver's padding to four bytes is what the command announces. */
  predicate Fits(ptr: nat, len: nat) {
    Low5(ptr) == 0 && EndAlign(ptr) != 3
    && (EndAlign(ptr) == 1 ==> len % 16 == 0 || len % 16 > 12)
    && (EndAlign(ptr) == 2 ==> len % 32 == 0 || len % 32 > 28)
  }

  lemma {:induction false} SixteenMore(n: nat)
    requires n > 16
    ensures RoundUp(n, 4) == 16 + RoundUp(n - 16, 4)
  {
    OneMore(n, 4);
    OneMore(n - 4, 4);
    OneMore(n - 8, 4);
    OneMore(n - 12, 4);
  }

  lemma {:induction false} OneMore(n: nat, unit: nat)
    requires n > unit > 0
    ensures RoundUp(n, unit) == unit + RoundUp(n - unit, unit)
  {
  }

  lemma {:induction false} OneUnit(n: nat, unit: nat)
    requires 0 < n <= unit
    ensures RoundUp(n, unit) == unit
  {
  }

  /** Padding to four bytes reaches 16 for lengths above 12, and is at most 12 for others. */
  lemma {:induction false} UpToSixteen(n: nat)
    requires 0 < n <= 16
    ensures RoundUp(n, 4) == 16 <==> n > 12
  {
    if n > 12 {
      OneMore(n, 4);
      OneMore(n - 4, 4);
      OneMore(n - 8, 4);
      OneUnit(n - 12, 4);
    } else if n > 8 {
      OneMore(n, 4);
      OneMore(n - 4, 4);
      OneUnit(n - 8, 4);
    }
  }

  /** Padding to four bytes is padding to 16 for these lengths. */
  lemma {:induction false} PaddedToSixteen(n: nat)
    ensures RoundUp(n, 4) == RoundUp(n, 16) <==> n % 16 == 0 || n % 16 > 12
  {
    if n > 16 {
      PaddedToSixteen(n - 16);
      SixteenMore(n);
      OneMore(n, 16);
      SameRemainder(n - 16, 16);
    } else if n > 0 {
      UpToSixteen(n);
      OneUnit(n, 16);
    }
  }

  lemma {:induction false} PaddedToThirtyTwo(n: nat)
    ensures RoundUp(n, 4) == RoundUp(n, 32) <==> n % 32 == 0 || n % 32 > 28
  {
    if n > 32 {
      PaddedToThirtyTwo(n - 32);
      SixteenMore(n);
      SixteenMore(n - 16);
      OneMore(n, 32);
      SameRemainder(n - 32, 32);
    } else if n > 16 {
      SixteenMore(n);
      UpToSixteen(n - 16);
      OneUnit(n, 32);
    } else if n > 0 {
      OneUnit(n, 32);
    }
  }

  lemma {:induction false} SameRemainder(n: nat, unit: nat)
    requires unit == 16 || unit == 32
    ensures (n + unit) % unit == n % unit
  {
  }

  /** The command for merged bytes, sent from the temporary buffer, whose address is a multiple of four: the
      chip reads it, and then right, exactly for the pointers and lengths that fit. */
  lemma {:induction false} MergedIsReadIff(ptr: nat, temp: seq<nat>, len: nat, first: bool, last: bool, total: nat)
    requires Low2(ptr) == 0 && 0 < len && WordBytes(len, 0) <= |temp|
    ensures var c := Command(ptr, first, last, len, total, temp[..WordBytes(len, 0)]);
            && (IsRead(c) <==> Fits(ptr, len)) && (IsRead(c) ==> Payload(c) == temp[..len]) && |c.data| <= len + 6
  {
    OffsetIsWords(ptr);
    PaddedToSixteen(len);
    PaddedToThirtyTwo(len);
    assert temp[..WordBytes(len, 0)][0..len] == temp[..len];
  }

  lemma {:induction false} OffsetIsWords(ptr: nat)
    requires Low2(ptr) == 0
    ensures Low5(ptr) == 0 || Low5(ptr) >= 4
  {
    LowFive(ptr);
    LowTwo(ptr);
    LowOfWords(ptr / 32, ptr % 32);
  }

  lemma {:induction false} LowOfWords(q: nat, r: nat)
    ensures (q * 32 + r) % 4 == r % 4
  {
  }

  /** An address that is a multiple of 32 is not enough. */
  lemma {:induction false} AlignedButMisread(temp: seq<nat>, total: nat)
    requires |temp| == 12
    ensures Low5(0x100) == 0 && !IsRead(Command(0x100, false, true, 10, total, temp))
  {
    LowFive(0x100);
  }

  // ---------------------------------------------------------------- which commands are merged

  /** The index behind the last buffer that is not empty. */
  function LastFull(bufs: seq<TxBuf>): (last: nat)
    ensures last <= |bufs| && (last > 0 ==> bufs[last - 1].len > 0)
    ensures forall k :: last <= k < |bufs| ==> bufs[k].len == 0
  {
    if bufs == [] then 0
    else if bufs[|bufs| - 1].len > 0 then |bufs|
    else LastFull(bufs[..|bufs| - 1])
  }

  /** How long the commands sent from the temporary buffer are, from buffer `i` on, when `waiting` bytes wait
      there: a buffer in the middle waits while it and what waits already are shorter than four bytes. */
  function MergedFrom(bufs: seq<TxBuf>, last: nat, i: nat, waiting: nat, first: bool): seq<nat>
    decreases |bufs| - i
  {
    if i >= |bufs| then []
    else
      var len := waiting + bufs[i].len;
      if bufs[i].len == 0 then MergedFrom(bufs, last, i + 1, waiting, first)
      else if i + 1 != last && !first && len < 4 then MergedFrom(bufs, last, i + 1, len, first)
      else (if waiting > 0 then [len] else []) + MergedFrom(bufs, last, i + 1, 0, false)
  }

  function Merged(bufs: seq<TxBuf>): seq<nat> { MergedFrom(bufs, LastFull(bufs), 0, 0, true) }

  predicate AllFit(ptr: nat, lens: seq<nat>) {
    forall k :: 0 <= k < |lens| ==> Fits(ptr, lens[k])
  }

  /** The temporary buffer serves every packet exactly if its address sets neither field, as that of a page
      does. */
  lemma {:induction false} ServesAllIff(ptr: nat)
    ensures (forall bufs: seq<TxBuf> :: AllFit(ptr, Merged(bufs))) <==> Low5(ptr) == 0 && EndAlign(ptr) == 0
  {
    if !(Low5(ptr) == 0 && EndAlign(ptr) == 0) {
      var bufs := [TxBuf(0, 4), TxBuf(0, 1), TxBuf(0, 4)];
      MergedExample(bufs);
      assert !Fits(ptr, Merged(bufs)[0]);
    }
  }

  lemma {:induction false} MergedExample(bufs: seq<TxBuf>)
    requires bufs == [TxBuf(0, 4), TxBuf(0, 1), TxBuf(0, 4)]
    ensures Merged(bufs) == [5]
  {
    assert LastFull(bufs) == 3;
    assert MergedFrom(bufs, 3, 3, 0, false) == [];
    assert MergedFrom(bufs, 3, 2, 1, false) == [5];
    assert MergedFrom(bufs, 3, 1, 0, false) == [5];
  }

  // ---------------------------------------------------------------- the driver

  /** `NdisMoveMemory` behind the first `at` bytes of a buffer of the driver. */
  method MoveMemory(dst: array<nat>, at: nat, mem: nat -> nat, addr: nat, len: nat)
    requires at + len <= dst.Length
    modifies dst
    ensures dst[..at + len] == old(dst[..at]) + Bytes(mem, addr, len)
  {
    for i := 0 to len
      invariant dst[..at + i] == old(dst[..at]) + Bytes(mem, addr, i)
    {
      dst[at + i] := mem(addr + i);
    }
  }

  method FindLast(bufs: seq<TxBuf>) returns (last: nat)
    ensures last == LastFull(bufs)
  {
    last := 0;
    for i := 0 to |bufs|
      invariant last == LastFull(bufs[..i])
    {
      assert bufs[..i + 1][..i] == bufs[..i];
      if bufs[i].len != 0 {
        last := i + 1;
      }
    }
    assert bufs[..|bufs|] == bufs;
  }

  /** Bytes that wait for more. */
  lemma {:induction false} Waits(cmds: seq<Cmd>, pending: seq<nat>, bytes: seq<nat>, done: nat, next: seq<nat>)
    requires Sending(cmds, pending, bytes, done, false) && cmds != [] && |pending + next| < 4
    ensures Sending(cmds, pending + next, bytes + next, done + 1, false)
  {
    assert AllPayloads(cmds) + (pending + next) == (AllPayloads(cmds) + pending) + next;
  }

  lemma {:induction false} EmptyBuffer(mem: nat -> nat, bufs: seq<TxBuf>, i: nat, cmds: seq<Cmd>, pending: seq<nat>, finished: bool)
    requires i < |bufs| && bufs[i].len == 0 && Sending(cmds, pending, PacketBytes(mem, bufs[..i]), i, finished)
    ensures Sending(cmds, pending, PacketBytes(mem, bufs[..i + 1]), i + 1, finished)
  {
    PacketGrows(mem, bufs, i);
    assert PacketBytes(mem, bufs[..i + 1]) == PacketBytes(mem, bufs[..i]);
  }

  /** A buffer that is sent where it lies. */
  lemma {:induction false} SendDirect(mem: nat -> nat, bufs: seq<TxBuf>, i: nat, cmds: seq<Cmd>, last: bool, total: nat)
    requires i < |bufs| && Sending(cmds, [], PacketBytes(mem, bufs[..i]), i, false)
    requires last || cmds == [] || bufs[i].len >= 4
    ensures var b := bufs[i];
            var c := Command(Low2(b.addr), cmds == [], last, b.len, total, Written(mem, b));
            && Sending(cmds + [c], [], PacketBytes(mem, bufs[..i + 1]), i + 1, last)
            && (AllRead(cmds + [c]) <==> AllRead(cmds))
  {
    var b := bufs[i];
    var c := Command(Low2(b.addr), cmds == [], last, b.len, total, Written(mem, b));
    DirectCommand(mem, b, cmds == [], last, total);
    PacketGrows(mem, bufs, i);
    Sent(cmds, [], PacketBytes(mem, bufs[..i]), i, c, Bytes(mem, b.addr, b.len));
    SentBytes(cmds, c);
  }

  /** Merged bytes that are sent from the temporary buffer. */
  lemma {:induction false} SendMerged(mem: nat -> nat, bufs: seq<TxBuf>, i: nat, cmds: seq<Cmd>, pending: seq<nat>,
                                      ptr: nat, temp: seq<nat>, last: bool, total: nat)
    requires i < |bufs| && Sending(cmds, pending, PacketBytes(mem, bufs[..i]), i, false) && pending != []
    requires var len := |pending| + bufs[i].len;
             && Low2(ptr) == 0 && WordBytes(len, 0) <= |temp| && (last || len >= 4)
             && temp[..len] == pending + Bytes(mem, bufs[i].addr, bufs[i].len)
    ensures var len := |pending| + bufs[i].len;
            var c := Command(ptr, false, last, len, total, temp[..WordBytes(len, 0)]);
            && Sending(cmds + [c], [], PacketBytes(mem, bufs[..i + 1]), i + 1, last)
            && (AllRead(cmds + [c]) <==> AllRead(cmds) && Fits(ptr, len))
  {
    var len := |pending| + bufs[i].len;
    var c := Command(ptr, false, last, len, total, temp[..WordBytes(len, 0)]);
    MergedIsReadIff(ptr, temp, len, false, last, total);
    PacketGrows(mem, bufs, i);
    Sent(cmds, pending, PacketBytes(mem, bufs[..i]), i, c, Bytes(mem, bufs[i].addr, bufs[i].len));
    SentBytes(cmds, c);
  }

  lemma {:induction false} WaitMore(mem: nat -> nat, bufs: seq<TxBuf>, i: nat, cmds: seq<Cmd>, pending: seq<nat>)
    requires i < |bufs| && Sending(cmds, pending, PacketBytes(mem, bufs[..i]), i, false) && cmds != []
    requires |pending| + bufs[i].len < 4
    ensures Sending(cmds, pending + Bytes(mem, bufs[i].addr, bufs[i].len), PacketBytes(mem, bufs[..i + 1]), i + 1, false)
  {
    PacketGrows(mem, bufs, i);
    Waits(cmds, pending, PacketBytes(mem, bufs[..i]), i, Bytes(mem, bufs[i].addr, bufs[i].len));
  }

  /** The chip reads what was sent, and will read what is still to be sent, exactly if all merged lengths of
      the packet fit. */
  ghost predicate ReadSoFar(bufs: seq<TxBuf>, ptr: nat, cmds: seq<Cmd>, i: nat, waiting: nat) {
    AllFit(ptr, Merged(bufs)) <==>
      AllRead(cmds) && AllFit(ptr, MergedFrom(bufs, LastFull(bufs), i, waiting, cmds == []))
  }

  lemma {:induction false} FitsFirst(ptr: nat, len: nat, lens: seq<nat>)
    ensures AllFit(ptr, [len] + lens) <==> Fits(ptr, len) && AllFit(ptr, lens)
  {
    assert ([len] + lens)[0] == len;
    assert forall k :: 0 <= k < |lens| ==> ([len] + lens)[k + 1] == lens[k];
  }

  lemma {:induction false} PassedOver(bufs: seq<TxBuf>, ptr: nat, cmds: seq<Cmd>, i: nat, waiting: nat)
    requires i < |bufs| && bufs[i].len == 0 && ReadSoFar(bufs, ptr, cmds, i, waiting)
    ensures ReadSoFar(bufs, ptr, cmds, i + 1, waiting)
  {
  }

  predicate WaitsHere(bufs: seq<TxBuf>, i: nat, waiting: nat, first: bool)
    requires i < |bufs|
  {
    i + 1 != LastFull(bufs) && !first && waiting + bufs[i].len < 4
  }

  lemma {:induction false} HasWaited(bufs: seq<TxBuf>, ptr: nat, cmds: seq<Cmd>, i: nat, waiting: nat)
    requires i < |bufs| && bufs[i].len > 0 && ReadSoFar(bufs, ptr, cmds, i, waiting)
    requires WaitsHere(bufs, i, waiting, cmds == [])
    ensures ReadSoFar(bufs, ptr, cmds, i + 1, waiting + bufs[i].len)
  {
  }

  lemma {:induction false} MergedGoes(bufs: seq<TxBuf>, i: nat, waiting: nat, first: bool)
    requires i < |bufs| && bufs[i].len > 0 && !WaitsHere(bufs, i, waiting, first)
    ensures var rest := MergedFrom(bufs, LastFull(bufs), i + 1, 0, false);
            MergedFrom(bufs, LastFull(bufs), i, waiting, first)
            == if waiting > 0 then [waiting + bufs[i].len] + rest else rest
  {
    var rest := MergedFrom(bufs, LastFull(bufs), i + 1, 0, false);
    assert [] + rest == rest;
  }

  lemma {:induction false} HasGone(bufs: seq<TxBuf>, ptr: nat, cmds0: seq<Cmd>, i: nat, waiting: nat, cmds: seq<Cmd>)
    requires i < |bufs| && bufs[i].len > 0 && ReadSoFar(bufs, ptr, cmds0, i, waiting)
    requires !WaitsHere(bufs, i, waiting, cmds0 == []) && cmds != []
    requires AllRead(cmds) <==> AllRead(cmds0) && (waiting > 0 ==> Fits(ptr, waiting + bufs[i].len))
    ensures ReadSoFar(bufs, ptr, cmds, i + 1, 0)
  {
    MergedGoes(bufs, i, waiting, cmds0 == []);
    FitsFirst(ptr, waiting + bufs[i].len, MergedFrom(bufs, LastFull(bufs), i + 1, 0, false));
  }

  /** A buffer behind bytes that wait: everything is sent from the temporary buffer, or waits on. */
  method SendPending(bufs: seq<TxBuf>, i: nat, isLast: bool, first0: bool, mem: nat -> nat, temp: array<nat>, ptr: nat,
                     total: nat, cmds0: seq<Cmd>, pktLen0: nat)
    returns (cmds: seq<Cmd>, pktLen: nat, first: bool)
    requires i < |bufs| && bufs[i].len > 0 && (isLast <==> i + 1 == LastFull(bufs)) && ReadSoFar(bufs, ptr, cmds0, i, pktLen0)
    requires Low2(ptr) == 0 && 0 < pktLen0 && pktLen0 + bufs[i].len + 4 <= temp.Length
    requires pktLen0 + bufs[i].len <= total < SIZE_LIMIT && AllSay(cmds0, total)
    requires Sending(cmds0, temp[..pktLen0], PacketBytes(mem, bufs[..i]), i, false) && (first0 <==> cmds0 == [])
    modifies temp
    ensures pktLen <= temp.Length && (first <==> cmds == []) && cmds != []
    ensures Sending(cmds, temp[..pktLen], PacketBytes(mem, bufs[..i + 1]), i + 1, isLast)
    ensures ReadSoFar(bufs, ptr, cmds, i + 1, pktLen) && AllSay(cmds, total)
    ensures pktLen == if !isLast && !first0 && pktLen0 + bufs[i].len < 4 then pktLen0 + bufs[i].len else 0
  {
    var b := bufs[i];
    ghost var pending := temp[..pktLen0];
    MoveMemory(temp, pktLen0, mem, b.addr, b.len);
    cmds, pktLen, first := cmds0, pktLen0 + b.len, first0;
    if !isLast && !first && pktLen < 4 {
      WaitMore(mem, bufs, i, cmds, pending);
      HasWaited(bufs, ptr, cmds, i, pktLen0);
      return;
    }
    ghost var t := temp[..];
    assert t[..pktLen] == temp[..pktLen];
    SendMerged(mem, bufs, i, cmds, pending, ptr, t, isLast, total);
    assert t[..WordBytes(pktLen, 0)] == temp[..WordBytes(pktLen, 0)];
    var c := Issue(ptr, first, isLast, pktLen, total, temp[..WordBytes(pktLen, 0)]);
    cmds := cmds + [c];
    HasGone(bufs, ptr, cmds0, i, pktLen0, cmds);
    pktLen, first := 0, false;
  }

  /** A buffer with nothing waiting that is short and in the middle. */
  lemma {:induction false} FreshWaits(mem: nat -> nat, bufs: seq<TxBuf>, i: nat, cmds: seq<Cmd>, ptr: nat)
    requires i < |bufs| && bufs[i].len > 0 && WaitsHere(bufs, i, 0, cmds == []) && ReadSoFar(bufs, ptr, cmds, i, 0)
    requires Sending(cmds, [], PacketBytes(mem, bufs[..i]), i, false)
    ensures Sending(cmds, Bytes(mem, bufs[i].addr, bufs[i].len), PacketBytes(mem, bufs[..i + 1]), i + 1, false)
    ensures ReadSoFar(bufs, ptr, cmds, i + 1, bufs[i].len)
  {
    WaitMore(mem, bufs, i, cmds, []);
    assert [] + Bytes(mem, bufs[i].addr, bufs[i].len) == Bytes(mem, bufs[i].addr, bufs[i].len);
    HasWaited(bufs, ptr, cmds, i, 0);
  }

  /** Any other buffer with nothing waiting. */
  lemma {:induction false} FreshGoes(mem: nat -> nat, bufs: seq<TxBuf>, i: nat, cmds0: seq<Cmd>, ptr: nat, last: bool,
                                     total: nat, cmds: seq<Cmd>)
    requires i < |bufs| && bufs[i].len > 0 && !WaitsHere(bufs, i, 0, cmds0 == []) && ReadSoFar(bufs, ptr, cmds0, i, 0)
    requires Sending(cmds0, [], PacketBytes(mem, bufs[..i]), i, false) && (last <==> i + 1 == LastFull(bufs))
    requires var b := bufs[i];
             cmds == cmds0 + [Command(Low2(b.addr), cmds0 == [], last, b.len, total, Written(mem, b))]
    ensures Sending(cmds, [], PacketBytes(mem, bufs[..i + 1]), i + 1, last) && ReadSoFar(bufs, ptr, cmds, i + 1, 0)
  {
    SendDirect(mem, bufs, i, cmds0, last, total);
    HasGone(bufs, ptr, cmds0, i, 0, cmds);
  }

  /** A buffer with nothing waiting: sent where it lies, unless it is short and in the middle. */
  method SendFresh(bufs: seq<TxBuf>, i: nat, isLast: bool, first0: bool, mem: nat -> nat, temp: array<nat>,
                   ghost ptr: nat, total: nat, cmds0: seq<Cmd>)
    returns (cmds: seq<Cmd>, pktLen: nat, first: bool)
    requires i < |bufs| && bufs[i].len > 0 && (isLast <==> i + 1 == LastFull(bufs)) && ReadSoFar(bufs, ptr, cmds0, i, 0)
    requires bufs[i].len <= temp.Length && bufs[i].len <= total < SIZE_LIMIT && AllSay(cmds0, total)
    requires Sending(cmds0, [], PacketBytes(mem, bufs[..i]), i, false) && (first0 <==> cmds0 == [])
    modifies temp
    ensures pktLen <= temp.Length && (first <==> cmds == []) && cmds != []
    ensures Sending(cmds, temp[..pktLen], PacketBytes(mem, bufs[..i + 1]), i + 1, isLast)
    ensures ReadSoFar(bufs, ptr, cmds, i + 1, pktLen) && AllSay(cmds, total)
    ensures pktLen == if !isLast && !first0 && bufs[i].len < 4 then bufs[i].len else 0
  {
    var b := bufs[i];
    cmds, pktLen, first := cmds0, 0, first0;
    if !isLast && !first && b.len < 4 {
      MoveMemory(temp, 0, mem, b.addr, b.len);
      pktLen := b.len;
      FreshWaits(mem, bufs, i, cmds, ptr);
      assert temp[..pktLen] == Bytes(mem, b.addr, b.len);
    } else {
      var c := Issue(Low2(b.addr), first, isLast, b.len, total, Written(mem, b));
      cmds := cmds + [c];
      FreshGoes(mem, bufs, i, cmds0, ptr, isLast, total, cmds);
      first := false;
      assert temp[..0] == [];
    }
  }

  /** One turn of the loop; empty buffers are passed over. */
  method NextBuffer(bufs: seq<TxBuf>, i: nat, last: nat, first0: bool, mem: nat -> nat, temp: array<nat>, ptr: nat,
                    total: nat, cmds0: seq<Cmd>, pktLen0: nat)
    returns (cmds: seq<Cmd>, pktLen: nat, first: bool)
    requires i < |bufs| && last == LastFull(bufs) && Low2(ptr) == 0
    requires total == TotalLen(bufs) < SIZE_LIMIT && total + 4 <= temp.Length && pktLen0 <= temp.Length
    requires Sending(cmds0, temp[..pktLen0], PacketBytes(mem, bufs[..i]), i, 0 < last <= i) && (first0 <==> cmds0 == [])
    requires ReadSoFar(bufs, ptr, cmds0, i, pktLen0) && AllSay(cmds0, total)
    modifies temp
    ensures pktLen <= temp.Length && (first <==> cmds == []) && (last == 0 && cmds0 == [] ==> cmds == [])
    ensures Sending(cmds, temp[..pktLen], PacketBytes(mem, bufs[..i + 1]), i + 1, 0 < last <= i + 1)
    ensures ReadSoFar(bufs, ptr, cmds, i + 1, pktLen) && AllSay(cmds, total)
  {
    if bufs[i].len == 0 {
      EmptyBuffer(mem, bufs, i, cmds0, temp[..pktLen0], 0 < last <= i);
      PassedOver(bufs, ptr, cmds0, i, pktLen0);
      cmds, pktLen, first := cmds0, pktLen0, first0;
    } else {
      PendingFits(mem, bufs, i, cmds0, temp[..pktLen0]);
      if pktLen0 > 0 {
        cmds, pktLen, first := SendPending(bufs, i, i + 1 == last, first0, mem, temp, ptr, total, cmds0, pktLen0);
      } else {
        assert temp[..0] == [];
        cmds, pktLen, first := SendFresh(bufs, i, i + 1 == last, first0, mem, temp, ptr, total, cmds0);
      }
    }
  }

  /** The loop of `Smsc9118XmitOnePacket` for packets of few buffers. */
  method Coalesce(bufs: seq<TxBuf>, mem: nat -> nat, temp: array<nat>, ptr: nat, total: nat) returns (cmds: seq<Cmd>)
    requires total == TotalLen(bufs) < SIZE_LIMIT && total + 4 <= temp.Length && Low2(ptr) == 0
    modifies temp
    ensures Accepted(cmds) <==> AllFit(ptr, Merged(bufs))
    ensures Accepted(cmds) ==> AllPayloads(cmds) == PacketBytes(mem, bufs)
    ensures Framed(cmds) && |cmds| <= |bufs| && Sizes(cmds) == total && Cost(cmds) <= total + 14 * |cmds|
    ensures forall k :: 0 <= k < |cmds| ==> cmds[k].length == cmds[k].tag == total
  {
    var last := FindLast(bufs);
    var i: nat, first, pktLen: nat := 0, true, 0;
    cmds := [];
    LoopStarts(bufs, mem, ptr, temp[..0]);
    while i < |bufs|
      invariant i <= |bufs| && pktLen <= temp.Length && (first <==> cmds == []) && (last == 0 ==> cmds == [])
      invariant Sending(cmds, temp[..pktLen], PacketBytes(mem, bufs[..i]), i, 0 < last <= i)
      invariant ReadSoFar(bufs, ptr, cmds, i, pktLen) && AllSay(cmds, total)
    {
      cmds, pktLen, first := NextBuffer(bufs, i, last, first, mem, temp, ptr, total, cmds, pktLen);
      i := i + 1;
    }
    assert bufs[..i] == bufs;
    LoopDone(bufs, mem, ptr, cmds, temp[..pktLen]);
  }

  lemma {:induction false} LoopStarts(bufs: seq<TxBuf>, mem: nat -> nat, ptr: nat, pending: seq<nat>)
    requires pending == []
    ensures Sending([], pending, PacketBytes(mem, bufs[..0]), 0, false) && ReadSoFar(bufs, ptr, [], 0, 0)
  {
  }

  lemma {:induction false} LoopDone(bufs: seq<TxBuf>, mem: nat -> nat, ptr: nat, cmds: seq<Cmd>, pending: seq<nat>)
    requires Sending(cmds, pending, PacketBytes(mem, bufs), |bufs|, 0 < LastFull(bufs))
    requires ReadSoFar(bufs, ptr, cmds, |bufs|, |pending|) && (LastFull(bufs) == 0 ==> cmds == [])
    ensures AllRead(cmds) <==> AllFit(ptr, Merged(bufs))
    ensures AllRead(cmds) ==> AllPayloads(cmds) == PacketBytes(mem, bufs)
    ensures Framed(cmds) && |cmds| <= |bufs| && Sizes(cmds) == TotalLen(bufs)
    ensures Cost(cmds) <= TotalLen(bufs) + 14 * |cmds|
  {
    PacketLength(mem, bufs);
    AllSent(cmds, pending, PacketBytes(mem, bufs), |bufs|, 0 < LastFull(bufs));
  }

  lemma {:induction false} AllSent(cmds: seq<Cmd>, pending: seq<nat>, bytes: seq<nat>, done: nat, finished: bool)
    requires Sending(cmds, pending, bytes, done, finished) && (finished || cmds == [])
    ensures (AllRead(cmds) ==> AllPayloads(cmds) == bytes) && Framed(cmds) && Sizes(cmds) == |bytes|
  {
    if AllRead(cmds) {
      assert pending == [] && AllPayloads(cmds) + [] == AllPayloads(cmds);
    }
  }

  lemma {:induction false} PendingFits(mem: nat -> nat, bufs: seq<TxBuf>, i: nat, cmds: seq<Cmd>, pending: seq<nat>)
    requires i < |bufs| && Sending(cmds, pending, PacketBytes(mem, bufs[..i]), i, false)
    ensures |pending| + bufs[i].len <= TotalLen(bufs)
  {
    PacketLength(mem, bufs[..i]);
    PrefixLength(bufs, i + 1);
    assert bufs[..i + 1][..i] == bufs[..i];
  }

  /** A highly fragmented packet is copied into one buffer and sent as one command. The inner loop passes
      over empty buffers; behind an empty last one it asks for the address of a buffer that is not there. */
  method CopyAll(bufs: seq<TxBuf>, mem: nat -> nat, copy: array<nat>, ptr: nat, total: nat)
    returns (behind: bool, cmds: seq<Cmd>)
    requires total == TotalLen(bufs) < SIZE_LIMIT && total + 8 <= copy.Length && bufs != []
    modifies copy
    ensures behind <==> bufs[|bufs| - 1].len == 0
    ensures !behind ==> Accepted(cmds) && AllPayloads(cmds) == PacketBytes(mem, bufs) && Framed(cmds)
    ensures !behind ==> |cmds| == 1 && cmds[0].length == cmds[0].tag == total && Cost(cmds) <= total + 14
  {
    PacketLength(mem, bufs);
    var off := Low2(ptr);
    var i, pktLen: nat := 0, 0;
    ghost var lead := copy[..off];
    behind, cmds := false, [];
    while i < |bufs|
      invariant i <= |bufs| && (i > 0 ==> bufs[i - 1].len > 0)
      invariant off + pktLen <= copy.Length && pktLen == TotalLen(bufs[..i])
      invariant copy[..off + pktLen] == lead + PacketBytes(mem, bufs[..i])
    {
      i, pktLen := CopyNext(bufs, mem, copy, off, i, pktLen, lead);
      if i > |bufs| {
        return true, [];
      }
    }
    assert bufs[..i] == bufs;
    ghost var data := copy[..WordBytes(pktLen, off)];
    assert data[..off + pktLen] == copy[..off + pktLen];
    OneCommand(off, pktLen, total, lead, PacketBytes(mem, bufs), data);
    var c := Issue(off, true, true, pktLen, total, copy[..WordBytes(pktLen, off)]);
    cmds := [c];
  }

  /** One turn of the outer loop; `i` is past the end of the list if it has looked behind it. */
  method CopyNext(bufs: seq<TxBuf>, mem: nat -> nat, copy: array<nat>, off: nat, i0: nat, pktLen0: nat, ghost lead: seq<nat>)
    returns (i: nat, pktLen: nat)
    requires i0 < |bufs| && off + TotalLen(bufs) <= copy.Length && pktLen0 == TotalLen(bufs[..i0])
    requires off + pktLen0 <= copy.Length && copy[..off + pktLen0] == lead + PacketBytes(mem, bufs[..i0])
    modifies copy
    ensures i == |bufs| + 1 || i0 < i <= |bufs|
    ensures if i > |bufs| then bufs[|bufs| - 1].len == 0 else bufs[i - 1].len > 0
    ensures i <= |bufs| ==> off + pktLen <= copy.Length && pktLen == TotalLen(bufs[..i])
    ensures i <= |bufs| ==> copy[..off + pktLen] == lead + PacketBytes(mem, bufs[..i])
  {
    i := SkipEmpty(bufs, mem, i0);
    pktLen := pktLen0;
    if i < |bufs| {
      CopyGrows(mem, bufs, i, lead);
      MoveMemory(copy, off + pktLen, mem, bufs[i].addr, bufs[i].len);
      pktLen := pktLen + bufs[i].len;
    }
    i := i + 1;
  }

  /** The inner loop. */
  method SkipEmpty(bufs: seq<TxBuf>, ghost mem: nat -> nat, i0: nat) returns (i: nat)
    requires i0 < |bufs|
    ensures i0 <= i <= |bufs| && (forall k :: i0 <= k < i ==> bufs[k].len == 0) && (i < |bufs| ==> bufs[i].len > 0)
    ensures PacketBytes(mem, bufs[..i]) == PacketBytes(mem, bufs[..i0]) && TotalLen(bufs[..i]) == TotalLen(bufs[..i0])
  {
    i := i0;
    while i < |bufs| && bufs[i].len == 0
      invariant i0 <= i <= |bufs| && (forall k :: i0 <= k < i ==> bufs[k].len == 0)
      invariant PacketBytes(mem, bufs[..i]) == PacketBytes(mem, bufs[..i0]) && TotalLen(bufs[..i]) == TotalLen(bufs[..i0])
    {
      CopyGrows(mem, bufs, i, []);
      PacketGrows(mem, bufs, i);
      i := i + 1;
    }
  }

  lemma {:induction false} CopyGrows(mem: nat -> nat, bufs: seq<TxBuf>, i: nat, lead: seq<nat>)
    requires i < |bufs|
    ensures lead + PacketBytes(mem, bufs[..i + 1])
         == lead + PacketBytes(mem, bufs[..i]) + Bytes(mem, bufs[i].addr, bufs[i].len)
    ensures TotalLen(bufs[..i + 1]) == TotalLen(bufs[..i]) + bufs[i].len <= TotalLen(bufs)
  {
    PacketGrows(mem, bufs, i);
    PrefixLength(bufs, i + 1);
    assert bufs[..i + 1][..i] == bufs[..i];
  }

  lemma {:induction false} OneCommand(off: nat, len: nat, total: nat, lead: seq<nat>, bytes: seq<nat>, data: seq<nat>)
    requires off == |lead| < 4 && len == |bytes| == total && |data| == WordBytes(len, off)
    requires data[..off + len] == lead + bytes
    ensures var cmds := [Command(off, true, true, len, total, data)];
            Accepted(cmds) && AllPayloads(cmds) == bytes && Framed(cmds) && Cost(cmds) <= len + 14
  {
    OnlyCommand(Command(off, true, true, len, total, data));
    InCopy(off, len, lead, bytes, data);
  }

  lemma {:induction false} InCopy(off: nat, len: nat, lead: seq<nat>, bytes: seq<nat>, data: seq<nat>)
    requires off == |lead| && len == |bytes| && off + len <= |data| && data[..off + len] == lead + bytes
    ensures data[off..off + len] == bytes
  {
    assert data[off..off + len] == data[..off + len][off..];
  }

  lemma {:induction false} OnlyCommand(c: Cmd)
    requires c.first && c.last
    ensures AllPayloads([c]) == Payload(c) && Cost([c]) == 8 + |c.data| && Sizes([c]) == c.size && Framed([c])
    ensures AllRead([c]) <==> IsRead(c)
  {
    assert [c][..0] == [];
    assert [c][0] == c;
  }

  /** `Smsc9118XmitOnePacket` returns false, asks for a buffer behind the end of the list, or hands the
      commands to the chip and returns true. */
  datatype Outcome = Refused | LookedBehind | Transmitted(cmds: seq<Cmd>)

  /** The list has no buffer at all, or too many for single commands and an empty one at its end. */
  predicate LooksBehind(bufs: seq<TxBuf>) {
    bufs == [] || (|bufs| > 86 && bufs[|bufs| - 1].len == 0)
  }

  /** `Smsc9118XmitOnePacket` by programmed I/O. Refused exactly when the list of buffers ends before the
      count the packet claims. What goes to the FIFO is well framed, says how long the packet is, and takes no more than the estimate; the
      chip reads it exactly if the packet is copied or every merged command fits, and then gets the
      packet's bytes. */
  method XmitOnePacket(bufs: seq<TxBuf>, count: nat, mem: nat -> nat, temp: array<nat>, tempPtr: nat,
                       copy: array<nat>, copyPtr: nat)
    returns (out: Outcome)
    requires |bufs| <= count && TotalLen(bufs) < SIZE_LIMIT && temp != copy && Low2(tempPtr) == 0
    requires TotalLen(bufs) + 4 <= temp.Length && TotalLen(bufs) + 8 <= copy.Length
    modifies temp, copy
    ensures out == Refused <==> |bufs| < count
    ensures out == LookedBehind <==> |bufs| == count && LooksBehind(bufs)
    ensures out.Transmitted? ==>
              Framed(out.cmds) && Sizes(out.cmds) == TotalLen(bufs) && Cost(out.cmds) <= SpaceNeeded(TotalLen(bufs), count)
    ensures out.Transmitted? ==> forall k :: 0 <= k < |out.cmds| ==> out.cmds[k].length == out.cmds[k].tag == TotalLen(bufs)
    ensures out.Transmitted? ==> (Accepted(out.cmds) <==> count > 86 || AllFit(tempPtr, Merged(bufs)))
    ensures out.Transmitted? && Accepted(out.cmds) ==> AllPayloads(out.cmds) == PacketBytes(mem, bufs)
  {
    if |bufs| < count {
      return Refused;
    }
    if bufs == [] {
      return LookedBehind;
    }
    var total := PacketSize(bufs);
    PacketLength(mem, bufs);
    if count <= MAX_DIRECT {
      var cmds := Coalesce(bufs, mem, temp, tempPtr, total);
      out := Transmitted(cmds);
    } else {
      var behind, cmds := CopyAll(bufs, mem, copy, copyPtr, total);
      out := if behind then LookedBehind else Transmitted(cmds);
    }
  }

  /** 86 buffers of one byte and an empty one. */
  lemma {:induction false} EmptyLastLooksBehind(bufs: seq<TxBuf>)
    requires bufs == seq(87, i => TxBuf(0, if i < 86 then 1 else 0))
    ensures LooksBehind(bufs) && TotalLen(bufs) == 86 < SIZE_LIMIT
  {
    OnesLength(bufs, 86);
    assert bufs[..86] == bufs[..|bufs| - 1];
  }

  lemma {:induction false} OnesLength(bufs: seq<TxBuf>, i: nat)
    requires i <= |bufs| && forall k :: 0 <= k < i ==> bufs[k].len == 1
    ensures TotalLen(bufs[..i]) == i
    decreases i
  {
    if i > 0 {
      OnesLength(bufs, i - 1);
      assert bufs[..i][..i - 1] == bufs[..i - 1];
    }
  }

  /** The length NDIS reports for the packet. */
  method PacketSize(bufs: seq<TxBuf>) returns (total: nat)
    ensures total == TotalLen(bufs)
  {
    total := 0;
    for i := 0 to |bufs|
      invariant total == TotalLen(bufs[..i])
    {
      assert bufs[..i + 1][..i] == bufs[..i];
      total := total + bufs[i].len;
    }
    assert bufs[..|bufs|] == bufs;
  }
}
