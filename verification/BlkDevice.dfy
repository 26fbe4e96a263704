/** What a block device makes of a descriptor chain, when a table holds the chains of a plan, and why the
    order in which a device runs the requests does not matter. */
module BlkDevice {
  import opened Ledger
  import opened BlkPlan

  datatype BDesc = BDesc(addr: nat, len: nat, next: bool, write: bool, link: nat)

  const T_IN: nat := 0
  const T_OUT: nat := 1
  const S_OK: nat := 0

  /** What a status byte holds until the device writes it. */
  const NO_STATUS: nat := 0xFF

  datatype Header = Header(kind: nat, reserved: nat, sector: nat)

  /** What a request is about: the queue size, the physical address of the headers, the direction, the
      buffers, and the page table. */
  datatype Job = Job(num: nat, meta: nat, out: bool, sgs: seq<Sg>, frame: nat -> nat)

  /** One sector's chain: where its head goes in the descriptor table, and its data elements. */
  datatype Plan = Plan(sector: nat, head: nat, pieces: seq<Piece>)

  /** The status descriptor of the chain. */
  function Tail(p: Plan): nat { p.head + |p.pieces| + 1 }

  // ---------------------------------------------------------------- the device

  /** What the device does for one chain: move 512 bytes between a sector and memory addresses. */
  datatype Request = Request(out: bool, sector: nat, bytes: seq<nat>)

  function ReadChain(desc: seq<BDesc>, at: nat, fuel: nat): seq<BDesc>
    decreases fuel
  {
    if fuel == 0 || at >= |desc| then []
    else if desc[at].next then [desc[at]] + ReadChain(desc, desc[at].link, fuel - 1)
    else [desc[at]]
  }

  function DataBytes(ds: seq<BDesc>): seq<nat> {
    if ds == [] then [] else Range(ds[0].addr, ds[0].len) + DataBytes(ds[1..])
  }

  predicate AllWritable(ds: seq<BDesc>, write: bool) {
    forall i :: 0 <= i < |ds| ==> ds[i].write == write
  }

  /** Section 5.2.6 of VIRTIO 1.1: a 16-byte header the device reads, data it reads or writes as the
      header says, and one status byte it writes. `None` for any other chain. */
  function RequestOf(chain: seq<BDesc>, headers: seq<Header>, meta: nat): Option<Request> {
    if |chain| < 2 || chain[0].write || chain[0].len != 16 || chain[0].addr < meta then None
    else if (chain[0].addr - meta) / 16 >= |headers| then None
    else
      var h, data, last := headers[(chain[0].addr - meta) / 16], chain[1..|chain| - 1], chain[|chain| - 1];
      if !last.write || last.len != 1 || !AllWritable(data, h.kind != T_OUT) then None
      else Some(Request(h.kind == T_OUT, h.sector, DataBytes(data)))
  }

  /** The status byte the device writes when it is done with the chain from `head`. */
  function StatusByte(desc: seq<BDesc>, num: nat, meta: nat, head: nat): int {
    var chain := ReadChain(desc, head, |desc|);
    if chain == [] then -1 else chain[|chain| - 1].addr - meta - 16 * num
  }

  // ---------------------------------------------------------------- a laid-out chain

  predicate HeaderOk(x: Job, d: BDesc, at: nat) {
    d == BDesc(x.meta + 16 * at, 16, true, false, at + 1)
  }

  /** The descriptor of a data element; an element of no bytes may point anywhere. */
  predicate DataOk(x: Job, d: BDesc, p: Piece, at: nat) {
    && d.len == p.len && d.next && d.write == !x.out && d.link == at + 1
    && p.sg < |x.sgs|
    && (p.len > 0 ==> d.addr == Phys(x.frame, x.sgs[p.sg].addr + p.pos))
  }

  predicate TailOk(x: Job, d: BDesc, at: nat) {
    d == BDesc(x.meta + 16 * x.num + at, 1, false, true, 0)
  }

  /** The data descriptors of `ps` lie in the table from `at` on. */
  predicate DataLaid(x: Job, desc: seq<BDesc>, at: nat, ps: seq<Piece>) {
    && at + |ps| <= |desc|
    && (forall q :: at <= q < at + |ps| ==> DataOk(x, desc[q], ps[q - at], q))
  }

  predicate Laid(x: Job, desc: seq<BDesc>, headers: seq<Header>, p: Plan) {
    && Tail(p) < |desc| == |headers|
    && HeaderOk(x, desc[p.head], p.head)
    && headers[p.head] == Header(if x.out then T_OUT else T_IN, 0, p.sector)
    && DataLaid(x, desc, p.head + 1, p.pieces)
    && TailOk(x, desc[Tail(p)], Tail(p))
  }

  /** A run of linked descriptors is read as it lies. */
  lemma {:induction false} ReadsRun(desc: seq<BDesc>, at: nat, last: nat, fuel: nat)
    requires at <= last < |desc| && last - at < fuel
    requires forall q :: at <= q < last ==> desc[q].next && desc[q].link == q + 1
    requires !desc[last].next
    ensures ReadChain(desc, at, fuel) == desc[at..last + 1]
    decreases last - at
  {
    if at < last {
      ReadsRun(desc, at + 1, last, fuel - 1);
    }
  }

  lemma {:induction false} ReadsPlan(x: Job, desc: seq<BDesc>, headers: seq<Header>, p: Plan)
    requires Laid(x, desc, headers, p)
    ensures ReadChain(desc, p.head, |desc|) == desc[p.head..Tail(p) + 1]
  {
    forall q | p.head <= q < Tail(p)
      ensures desc[q].next && desc[q].link == q + 1
    {
      if q > p.head {
        assert DataOk(x, desc[q], p.pieces[q - (p.head + 1)], q);
      }
    }
    ReadsRun(desc, p.head, Tail(p), |desc|);
  }

  /** The data descriptors carry the bytes of the pieces. */
  lemma {:induction false} DataCarriesPieces(x: Job, desc: seq<BDesc>, at: nat, ps: seq<Piece>)
    requires DataLaid(x, desc, at, ps)
    ensures DataBytes(desc[at..at + |ps|]) == AllBytes(x.frame, x.sgs, ps)
    decreases |ps|
  {
    if ps != [] {
      var ds := desc[at..at + |ps|];
      assert DataOk(x, desc[at], ps[at - at], at);
      forall q | at + 1 <= q < at + 1 + |ps[1..]|
        ensures DataOk(x, desc[q], ps[1..][q - (at + 1)], q)
      {
        assert DataOk(x, desc[q], ps[q - at], q);
      }
      DataCarriesPieces(x, desc, at + 1, ps[1..]);
      assert ds[1..] == desc[at + 1..at + 1 + |ps[1..]|];
      assert Range(ds[0].addr, ds[0].len) == PieceBytes(x.frame, x.sgs, ps[0]);
    }
  }

  lemma {:induction false} DataIsWritable(x: Job, desc: seq<BDesc>, at: nat, ps: seq<Piece>)
    requires DataLaid(x, desc, at, ps)
    ensures AllWritable(desc[at..at + |ps|], !x.out)
  {
    var ds := desc[at..at + |ps|];
    forall i | 0 <= i < |ds|
      ensures ds[i].write == !x.out
    {
      assert DataOk(x, desc[at + i], ps[at + i - at], at + i);
    }
  }

  lemma {:induction false} Inside(desc: seq<BDesc>, lo: nat, hi: nat)
    requires lo < hi < |desc|
    ensures desc[lo..hi + 1][1..hi - lo] == desc[lo + 1..hi]
  {
    var a, b := desc[lo..hi + 1][1..hi - lo], desc[lo + 1..hi];
    forall i | 0 <= i < |b|
      ensures a[i] == b[i]
    {
      assert a[i] == desc[lo..hi + 1][i + 1] == desc[lo + (i + 1)];
    }
  }

  lemma {:induction false} HeaderIndex(meta: nat, at: nat)
    ensures (meta + 16 * at - meta) / 16 == at
  {
  }

  /** What the device makes of a chain in the form of the plan. */
  lemma {:induction false} ChainMeans(x: Job, headers: seq<Header>, p: Plan, chain: seq<BDesc>, bytes: seq<nat>)
    requires p.head < |headers| && |chain| == |p.pieces| + 2
    requires HeaderOk(x, chain[0], p.head) && TailOk(x, chain[|chain| - 1], Tail(p))
    requires headers[p.head] == Header(if x.out then T_OUT else T_IN, 0, p.sector)
    requires DataBytes(chain[1..|chain| - 1]) == bytes && AllWritable(chain[1..|chain| - 1], !x.out)
    ensures RequestOf(chain, headers, x.meta) == Some(Request(x.out, p.sector, bytes))
  {
    HeaderIndex(x.meta, p.head);
  }

  /** The device reads a laid-out chain as the request it stands for, and will report in its tail. */
  lemma {:induction false} ChainIsRequest(x: Job, desc: seq<BDesc>, headers: seq<Header>, p: Plan)
    requires Laid(x, desc, headers, p)
    ensures RequestOf(ReadChain(desc, p.head, |desc|), headers, x.meta)
         == Some(Request(x.out, p.sector, AllBytes(x.frame, x.sgs, p.pieces)))
    ensures StatusByte(desc, x.num, x.meta, p.head) == Tail(p)
  {
    ReadsPlan(x, desc, headers, p);
    var chain := desc[p.head..Tail(p) + 1];
    Inside(desc, p.head, Tail(p));
    DataCarriesPieces(x, desc, p.head + 1, p.pieces);
    DataIsWritable(x, desc, p.head + 1, p.pieces);
    ChainMeans(x, headers, p, chain, AllBytes(x.frame, x.sgs, p.pieces));
  }
}
