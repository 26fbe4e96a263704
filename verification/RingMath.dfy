/** Arithmetic on ring positions, free of multiplication and remainders by the ring size. */
module RingMath {

  /** The slot `k` places after slot `u` in a ring of `n` slots. */
  function Slot(n: nat, u: nat, k: nat): (s: nat)
    requires u < n && k <= n
    ensures s < n
  {
    if u + k >= n then u + k - n else u + k
  }

  /** How many places slot `s` lies after slot `u`. */
  function Offset(n: nat, u: nat, s: nat): (k: nat)
    requires u < n && s < n
    ensures k < n && Slot(n, u, k) == s
  {
    if s >= u then s - u else s + n - u
  }

  /** The lap parity `k` places after a position whose slot is `u` and whose parity is `w`. */
  function ParityAt(n: nat, u: nat, w: bool, k: nat): bool
    requires u < n && k <= n
  {
    if u + k >= n then !w else w
  }

  lemma {:induction false} SlotPlus(n: nat, u: nat, w: bool, j: nat, k: nat)
    requires u < n && j + k <= n
    ensures Slot(n, Slot(n, u, j), k) == Slot(n, u, j + k)
    ensures ParityAt(n, Slot(n, u, j), ParityAt(n, u, w, j), k) == ParityAt(n, u, w, j + k)
  {
  }

  /** Offsets from `u` and from the position `p` places later. */
  lemma {:induction false} OffsetShift(n: nat, u: nat, p: nat, s: nat)
    requires u < n && p <= n && s < n
    ensures var o := Offset(n, Slot(n, u, p), s);
            Offset(n, u, s) == if p + o < n then p + o else p + o - n
  {
  }

  lemma {:induction false} SlotInjective(n: nat, u: nat, j: nat, k: nat)
    requires u < n && j < n && k < n
    ensures Slot(n, u, j) == Slot(n, u, k) <==> j == k
    ensures Offset(n, u, Slot(n, u, j)) == j
  {
  }

  lemma {:induction false} Multiples(a: nat, b: nat, n: nat)
    ensures a < b ==> a * n + n <= b * n
    decreases b
  {
    if a < b {
      Multiples(a, b - 1, n);
      assert b * n == (b - 1) * n + n;
    }
  }

  lemma {:induction false} DivisionIsUnique(n: nat, lap: nat, i: nat)
    requires i < n
    ensures (lap * n + i) / n == lap && (lap * n + i) % n == i
  {
    var q := (lap * n + i) / n;
    assert q * n + (lap * n + i) % n == lap * n + i;
    Multiples(q, lap, n);
    Multiples(lap, q, n);
  }

  lemma {:induction false} AddMultiple(n: nat, x: nat, k: nat)
    requires n > 0
    ensures (x + k * n) % n == x % n
  {
    var q, m := x / n, x % n;
    assert x == q * n + m;
    assert x + k * n == (q + k) * n + m;
    DivisionIsUnique(n, q + k, m);
  }

  /** The numbers below `n`, in order. */
  function Iota(n: nat): (s: seq<nat>)
    ensures |s| == n && forall i :: 0 <= i < n ==> s[i] == i
  {
    seq(n, i requires 0 <= i < n => i)
  }
}
