/** How the block driver cuts a scatter/gather request: one chain per sector, whose data elements end
    where the sector, the buffer or the page ends. Bytes are named by their virtual addresses. */
module BlkPlan {
  import opened Ledger

  const SECTOR: nat := 512
  const PAGE: nat := 0x1000

  // ---------------------------------------------------------------- bytes and places

  /** How many bytes the buffers from number `k` on hold. */
  function BytesFrom(sgs: seq<Sg>, k: nat): nat
    requires k <= |sgs|
    decreases |sgs| - k
  {
    if k == |sgs| then 0 else sgs[k].len + BytesFrom(sgs, k + 1)
  }

  /** The address of byte `i` of the buffers from number `k` on. */
  function ByteAt(sgs: seq<Sg>, k: nat, i: nat): nat
    requires k <= |sgs|
    decreases |sgs| - k
  {
    if k == |sgs| then 0
    else if i < sgs[k].len then sgs[k].addr + i
    else ByteAt(sgs, k + 1, i - sgs[k].len)
  }

  /** A place in the list: buffer `k`, `pos` bytes in; behind the last buffer it is `(|sgs|, 0)`. */
  datatype Place = Place(k: nat, pos: nat)

  predicate IsPlace(sgs: seq<Sg>, c: Place) {
    && c.k <= |sgs|
    && (if c.k == |sgs| then c.pos == 0 else c.pos <= sgs[c.k].len)
  }

  /** How many bytes follow a place. */
  function Left(sgs: seq<Sg>, c: Place): nat
    requires IsPlace(sgs, c)
  {
    if c.k == |sgs| then 0 else sgs[c.k].len - c.pos + BytesFrom(sgs, c.k + 1)
  }

  /** The place `n` bytes further in the same buffer; its end is the start of the next buffer. */
  function Move(sgs: seq<Sg>, c: Place, n: nat): Place
    requires c.k < |sgs|
  {
    if c.pos + n == sgs[c.k].len then Place(c.k + 1, 0) else Place(c.k, c.pos + n)
  }

  /** Byte `i` after the moved place is byte `n + i` after the place. */
  lemma {:induction false} MoveKeepsBytes(sgs: seq<Sg>, c: Place, n: nat, i: nat)
    requires IsPlace(sgs, c) && c.k < |sgs| && c.pos + n <= sgs[c.k].len
    ensures var d := Move(sgs, c, n);
            && IsPlace(sgs, d) && Left(sgs, d) == Left(sgs, c) - n
            && ByteAt(sgs, d.k, d.pos + i) == ByteAt(sgs, c.k, c.pos + n + i)
  {
  }

  // ---------------------------------------------------------------- pieces

  /** From `v` to the next page: the page size less the remainder of `v`, written here as repeated
      subtraction. */
  function PageLeft(v: nat): (n: nat)
    ensures 0 < n <= PAGE
  {
    if v < PAGE then PAGE - v else PageLeft(v - PAGE)
  }

  lemma {:induction false} PageLeftIsRemainder(v: nat)
    ensures PageLeft(v) == PAGE - v % PAGE
  {
    if v >= PAGE {
      PageLeftIsRemainder(v - PAGE);
    }
  }

  lemma {:induction false} NextPageLeft(v: nat, n: nat)
    ensures n < PageLeft(v) ==> PageLeft(v + n) == PageLeft(v) - n
    ensures n == PageLeft(v) ==> PageLeft(v + n) == PAGE
  {
    if v >= PAGE {
      NextPageLeft(v - PAGE, n);
    }
  }

  function Min(a: nat, b: nat): nat { if a < b then a else b }

  /** How many bytes the next data descriptor carries. */
  function OpLen(sgs: seq<Sg>, c: Place, left: nat): (n: nat)
    requires IsPlace(sgs, c) && c.k < |sgs|
    ensures n <= left && c.pos + n <= sgs[c.k].len && n <= PageLeft(sgs[c.k].addr + c.pos)
    ensures n == left || c.pos + n == sgs[c.k].len || n == PageLeft(sgs[c.k].addr + c.pos)
  {
    Min(left, Min(sgs[c.k].len - c.pos, PageLeft(sgs[c.k].addr + c.pos)))
  }

  /** One data element: `len` bytes from a place on. */
  datatype Piece = Piece(sg: nat, pos: nat, len: nat)

  /** A piece lies inside its buffer and inside one page. */
  predicate PieceOk(sgs: seq<Sg>, p: Piece) {
    && p.sg < |sgs| && p.pos + p.len <= sgs[p.sg].len
    && p.len <= PageLeft(sgs[p.sg].addr + p.pos)
  }

  /** The data elements for the next `left` bytes. */
  function Pieces(sgs: seq<Sg>, c: Place, left: nat): seq<Piece>
    requires IsPlace(sgs, c) && left <= Left(sgs, c)
    decreases |sgs| - c.k, left
  {
    if left == 0 then []
    else
      var n := OpLen(sgs, c, left);
      MoveKeepsBytes(sgs, c, n, 0);
      [Piece(c.k, c.pos, n)] + Pieces(sgs, Move(sgs, c, n), left - n)
  }

  /** The place behind the next `left` bytes. */
  function After(sgs: seq<Sg>, c: Place, left: nat): (d: Place)
    requires IsPlace(sgs, c) && left <= Left(sgs, c)
    ensures IsPlace(sgs, d) && Left(sgs, d) == Left(sgs, c) - left
    decreases |sgs| - c.k, left
  {
    if left == 0 then c
    else
      var n := OpLen(sgs, c, left);
      MoveKeepsBytes(sgs, c, n, 0);
      After(sgs, Move(sgs, c, n), left - n)
  }

  lemma {:induction false} AfterKeepsBytes(sgs: seq<Sg>, c: Place, left: nat, i: nat)
    requires IsPlace(sgs, c) && left <= Left(sgs, c)
    ensures var d := After(sgs, c, left);
            ByteAt(sgs, d.k, d.pos + i) == ByteAt(sgs, c.k, c.pos + left + i)
    decreases |sgs| - c.k, left
  {
    if left > 0 {
      var n := OpLen(sgs, c, left);
      MoveKeepsBytes(sgs, c, n, left - n + i);
      AfterKeepsBytes(sgs, Move(sgs, c, n), left - n, i);
    }
  }

  lemma {:induction false} FirstPiece(sgs: seq<Sg>, c: Place, left: nat)
    requires IsPlace(sgs, c) && 0 < left <= Left(sgs, c)
    ensures var n := OpLen(sgs, c, left);
            var d := Move(sgs, c, n);
            && IsPlace(sgs, d) && left - n <= Left(sgs, d) && PieceOk(sgs, Piece(c.k, c.pos, n))
            && Pieces(sgs, c, left) == [Piece(c.k, c.pos, n)] + Pieces(sgs, d, left - n)
            && After(sgs, c, left) == After(sgs, d, left - n)
  {
    MoveKeepsBytes(sgs, c, OpLen(sgs, c, left), 0);
  }

  lemma {:induction false} PiecesAreOk(sgs: seq<Sg>, c: Place, left: nat, i: nat)
    requires IsPlace(sgs, c) && left <= Left(sgs, c) && i < |Pieces(sgs, c, left)|
    ensures PieceOk(sgs, Pieces(sgs, c, left)[i])
    decreases |sgs| - c.k, left
  {
    var n := OpLen(sgs, c, left);
    FirstPiece(sgs, c, left);
    if i > 0 {
      PiecesAreOk(sgs, Move(sgs, c, n), left - n, i - 1);
    }
  }

  /** After a piece either the buffer is done, or a page has ended and the rest of the sector fits into the
      next one. */
  lemma {:induction false} MoveInPage(sgs: seq<Sg>, c: Place, left: nat)
    requires IsPlace(sgs, c) && 0 < left <= Left(sgs, c) && left <= SECTOR
    ensures var n := OpLen(sgs, c, left);
            var d := Move(sgs, c, n);
            && c.k < |sgs| && (d.k > c.k || left == n
                || (d.k == c.k && left > PageLeft(sgs[c.k].addr + c.pos) && left - n <= PageLeft(sgs[d.k].addr + d.pos)))
  {
    NextPageLeft(sgs[c.k].addr + c.pos, OpLen(sgs, c, left));
  }

  /** Every buffer contributes at most two pieces to a sector, one when no page ends before the sector
      does; so a sector takes at most two pieces per buffer. */
  lemma {:induction false} PiecesAreFew(sgs: seq<Sg>, c: Place, left: nat)
    requires IsPlace(sgs, c) && left <= Left(sgs, c) && left <= SECTOR
    ensures |Pieces(sgs, c, left)| <= 2 * (|sgs| - c.k)
    ensures c.k < |sgs| && left <= PageLeft(sgs[c.k].addr + c.pos) ==> |Pieces(sgs, c, left)| < 2 * (|sgs| - c.k)
    decreases |sgs| - c.k, left
  {
    if left > 0 {
      var n := OpLen(sgs, c, left);
      FirstPiece(sgs, c, left);
      PiecesAreFew(sgs, Move(sgs, c, n), left - n);
      MoveInPage(sgs, c, left);
    }
  }

  /** The bytes of the pieces from number `i` on. */
  function SumFrom(ps: seq<Piece>, i: nat): nat
    requires i <= |ps|
    decreases |ps| - i
  {
    if i == |ps| then 0 else ps[i].len + SumFrom(ps, i + 1)
  }

  lemma {:induction false} SumCons(p: Piece, ps: seq<Piece>, i: nat)
    requires i <= |ps|
    ensures SumFrom([p] + ps, i + 1) == SumFrom(ps, i)
    decreases |ps| - i
  {
    if i < |ps| {
      SumCons(p, ps, i + 1);
    }
  }

  /** The pieces hold the bytes asked for, and stop with the piece that completes them. */
  predicate Fills(ps: seq<Piece>, left: nat) {
    && SumFrom(ps, 0) == left
    && (ps != [] ==> ps[|ps| - 1].len > 0)
  }

  lemma {:induction false} PiecesFill(sgs: seq<Sg>, c: Place, left: nat)
    requires IsPlace(sgs, c) && left <= Left(sgs, c)
    ensures Fills(Pieces(sgs, c, left), left)
    decreases |sgs| - c.k, left
  {
    if left > 0 {
      var n := OpLen(sgs, c, left);
      FirstPiece(sgs, c, left);
      PiecesFill(sgs, Move(sgs, c, n), left - n);
      SumCons(Piece(c.k, c.pos, n), Pieces(sgs, Move(sgs, c, n), left - n), 0);
    }
  }

  lemma {:induction false} SumIsPositive(ps: seq<Piece>, i: nat)
    requires i < |ps| && ps[|ps| - 1].len > 0
    ensures SumFrom(ps, i) > 0
    decreases |ps| - i
  {
    if i < |ps| - 1 {
      SumIsPositive(ps, i + 1);
    }
  }

  // ---------------------------------------------------------------- physical addresses

  /** The page table: `frame` gives the physical page of a virtual page. */
  function Phys(frame: nat -> nat, v: nat): nat {
    frame(v / PAGE) * PAGE + v % PAGE
  }

  /** `n` addresses from `a` on. */
  function Range(a: nat, n: nat): seq<nat> {
    seq(n, i requires 0 <= i < n => a + i)
  }

  /** Where byte `i` after a place is in physical memory. */
  function PhysAt(frame: nat -> nat, sgs: seq<Sg>, c: Place, i: nat): nat
    requires c.k <= |sgs|
  {
    Phys(frame, ByteAt(sgs, c.k, c.pos + i))
  }

  /** Where the next `n` bytes after a place are in physical memory. */
  function PhysBytes(frame: nat -> nat, sgs: seq<Sg>, c: Place, n: nat): (r: seq<nat>)
    requires c.k <= |sgs|
    ensures |r| == n && forall i :: 0 <= i < n ==> r[i] == PhysAt(frame, sgs, c, i)
  {
    seq(n, i requires 0 <= i < n => PhysAt(frame, sgs, c, i))
  }

  /** Where a piece is in physical memory. */
  function PieceBytes(frame: nat -> nat, sgs: seq<Sg>, p: Piece): seq<nat> {
    if p.sg < |sgs| then Range(Phys(frame, sgs[p.sg].addr + p.pos), p.len) else []
  }

  function AllBytes(frame: nat -> nat, sgs: seq<Sg>, ps: seq<Piece>): seq<nat> {
    if ps == [] then [] else PieceBytes(frame, sgs, ps[0]) + AllBytes(frame, sgs, ps[1..])
  }

  lemma {:induction false} SamePage(frame: nat -> nat, v: nat, i: nat)
    requires i < PageLeft(v)
    ensures Phys(frame, v + i) == Phys(frame, v) + i
  {
    PageLeftIsRemainder(v);
    assert (v + i) / PAGE == v / PAGE;
  }

  /** A piece, which does not leave its page, is physically contiguous. */
  lemma {:induction false} PieceIsContiguous(frame: nat -> nat, sgs: seq<Sg>, c: Place, n: nat)
    requires IsPlace(sgs, c) && c.k < |sgs| && PieceOk(sgs, Piece(c.k, c.pos, n))
    ensures PhysBytes(frame, sgs, c, n) == PieceBytes(frame, sgs, Piece(c.k, c.pos, n))
  {
    forall i: nat | i < n
      ensures PhysAt(frame, sgs, c, i) == Phys(frame, sgs[c.k].addr + c.pos) + i
    {
      SamePage(frame, sgs[c.k].addr + c.pos, i);
    }
  }

  lemma {:induction false} PhysSplit(frame: nat -> nat, sgs: seq<Sg>, c: Place, n: nat, left: nat)
    requires IsPlace(sgs, c) && c.k < |sgs| && c.pos + n <= sgs[c.k].len && n <= left
    ensures PhysBytes(frame, sgs, c, left)
         == PhysBytes(frame, sgs, c, n) + PhysBytes(frame, sgs, Move(sgs, c, n), left - n)
  {
    var d := Move(sgs, c, n);
    var first, next, all := PhysBytes(frame, sgs, c, n), PhysBytes(frame, sgs, d, left - n), PhysBytes(frame, sgs, c, left);
    forall i: nat | i < left - n
      ensures PhysAt(frame, sgs, d, i) == all[n + i]
    {
      MoveKeepsBytes(sgs, c, n, i);
    }
  }

  lemma {:induction false} BytesCons(frame: nat -> nat, sgs: seq<Sg>, p: Piece, ps: seq<Piece>)
    ensures AllBytes(frame, sgs, [p] + ps) == PieceBytes(frame, sgs, p) + AllBytes(frame, sgs, ps)
  {
    assert ([p] + ps)[1..] == ps;
  }

  /** The pieces are exactly the next bytes of the request, in order, at their physical addresses. */
  lemma {:induction false} PiecesCarryBytes(frame: nat -> nat, sgs: seq<Sg>, c: Place, left: nat)
    requires IsPlace(sgs, c) && left <= Left(sgs, c)
    ensures AllBytes(frame, sgs, Pieces(sgs, c, left)) == PhysBytes(frame, sgs, c, left)
    decreases |sgs| - c.k, left
  {
    if left > 0 {
      var n := OpLen(sgs, c, left);
      var d := Move(sgs, c, n);
      FirstPiece(sgs, c, left);
      PiecesCarryBytes(frame, sgs, d, left - n);
      var rest := Pieces(sgs, d, left - n);
      assert Pieces(sgs, c, left) == [Piece(c.k, c.pos, n)] + rest;
      FirstThenRest(frame, sgs, c, n, left, rest);
    }
  }

  lemma {:induction false} FirstThenRest(frame: nat -> nat, sgs: seq<Sg>, c: Place, n: nat, left: nat, rest: seq<Piece>)
    requires IsPlace(sgs, c) && c.k < |sgs| && PieceOk(sgs, Piece(c.k, c.pos, n)) && n <= left
    requires AllBytes(frame, sgs, rest) == PhysBytes(frame, sgs, Move(sgs, c, n), left - n)
    ensures AllBytes(frame, sgs, [Piece(c.k, c.pos, n)] + rest) == PhysBytes(frame, sgs, c, left)
  {
    BytesCons(frame, sgs, Piece(c.k, c.pos, n), rest);
    PieceIsContiguous(frame, sgs, c, n);
    PhysSplit(frame, sgs, c, n, left);
  }
}
