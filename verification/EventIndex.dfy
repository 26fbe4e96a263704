/** The 16-bit event test both ring formats and both sides of a queue use. */
module EventIndex {
  import opened Integers

  /** `vring_need_event`, on 16-bit values. */
  predicate NeedEvent(event: nat, newIdx: nat, oldIdx: nat) {
    (newIdx as int - event as int - 1) % U16 < (newIdx as int - oldIdx as int) % U16
  }

  /** The test asks whether the event lies in the circular interval from `oldIdx` to `newIdx`. */
  lemma {:induction false} NeedEventIsInterval(event: nat, newIdx: nat, oldIdx: nat)
    requires event < U16 && newIdx < U16 && oldIdx < U16
    ensures NeedEvent(event, newIdx, oldIdx)
       <==> (event as int - oldIdx as int) % U16 < (newIdx as int - oldIdx as int) % U16
  {
  }

  /** Position `p` never wraps; the rings hold its low 16 bits, written here as repeated subtraction. */
  function Low16(p: nat): (i: nat)
    ensures i < U16
  {
    if p < U16 then p else Low16(p - U16)
  }

  lemma {:induction false} Low16IsRemainder(p: nat)
    ensures Low16(p) == p % U16
    decreases p
  {
    if p >= U16 {
      Low16IsRemainder(p - U16);
    }
  }

  /** A 16-bit counter plus one, wrapping. */
  function Succ16(i: nat): nat {
    if i + 1 == U16 then 0 else i + 1
  }

  /** A 16-bit counter minus one, wrapping. */
  function Pred16(i: nat): nat {
    if i == 0 then U16 - 1 else i - 1
  }

  /** The 16-bit difference of two 16-bit counters. */
  function Distance16(a: nat, b: nat): nat
    requires b < U16
  {
    if a >= b then a - b else a + U16 - b
  }

  lemma {:induction false} DistanceOfLow16(p: nat, k: nat)
    requires k < U16
    ensures Distance16(Low16(p + k), Low16(p)) == k
  {
    Low16IsRemainder(p);
    Low16IsRemainder(p + k);
  }

  lemma {:induction false} SmallRemainder(x: int, r: nat)
    requires r < U16 && (x == r || x == r - U16)
    ensures x % U16 == r
  {
  }

  lemma {:induction false} NextLow16(p: nat)
    ensures Succ16(Low16(p)) == Low16(p + 1)
  {
    Low16IsRemainder(p);
    Low16IsRemainder(p + 1);
  }

  lemma {:induction false} Low16Differs(p: nat, k: nat)
    requires k < U16
    ensures Low16(p) != Low16(p + k) <==> k != 0
  {
    Low16IsRemainder(p);
    Low16IsRemainder(p + k);
  }

  /** Between `from` and `from + added`, a position whose low 16 bits are `event`. */
  ghost predicate Passed(event: nat, from: nat, added: nat) {
    exists p: nat :: from <= p < from + added && Low16(p) == event
  }

  /** `virtqueue_kick_prepare_split` with event suppression: the 32-bit count of buffers added since
      the last kick and the two 16-bit indices. */
  predicate KickSplit(event: nat, newIdx: nat, added: nat) {
    added >= U16 || NeedEvent(event, newIdx, (newIdx as int - added as int) % U16)
  }

  /** The first position at or after `from` whose low 16 bits are `event`. */
  function FirstAt(event: nat, from: nat): nat {
    from + ((event as int - from as int) % U16)
  }

  lemma {:induction false} FirstAtIsFirst(event: nat, from: nat, p: nat)
    requires event < U16
    ensures Low16(FirstAt(event, from)) == event && from <= FirstAt(event, from) < from + U16
    ensures from <= p && Low16(p) == event ==> FirstAt(event, from) <= p
  {
    Low16IsRemainder(FirstAt(event, from));
    Low16IsRemainder(p);
  }

  lemma {:induction false} PassedIffFirst(event: nat, from: nat, added: nat)
    requires event < U16
    ensures Passed(event, from, added) <==> FirstAt(event, from) < from + added
  {
    FirstAtIsFirst(event, from, from);
    if FirstAt(event, from) < from + added {
      assert from <= FirstAt(event, from) < from + added;
    }
    if Passed(event, from, added) {
      var p: nat :| from <= p < from + added && Low16(p) == event;
      FirstAtIsFirst(event, from, p);
    }
  }

  lemma {:induction false} KickTest(event: nat, from: nat, added: nat)
    requires event < U16 && added < U16
    ensures NeedEvent(event, (from + added) % U16, ((from + added) % U16 as int - added as int) % U16)
       <==> (event as int - from as int) % U16 < added
  {
    var newIdx, oldIdx := (from + added) % U16, from % U16;
    assert (newIdx as int - added as int) % U16 == oldIdx;
    NeedEventIsInterval(event, newIdx, oldIdx);
    assert (newIdx as int - oldIdx as int) % U16 == added;
    SameDistance(event, from);
  }

  lemma {:induction false} SameDistance(event: nat, from: nat)
    ensures (event as int - (from % U16) as int) % U16 == (event as int - from as int) % U16
  {
  }

  /** The split kick notifies exactly when the device's event position was passed since the last
      kick, however many buffers were added. */
  lemma {:induction false} KickSplitIsExact(event: nat, from: nat, added: nat)
    requires event < U16
    ensures KickSplit(event, Low16(from + added), added) <==> Passed(event, from, added)
  {
    PassedIffFirst(event, from, added);
    Low16IsRemainder(from + added);
    if added < U16 {
      KickTest(event, from, added);
    } else {
      FirstAtIsFirst(event, from, from);
    }
  }
}
