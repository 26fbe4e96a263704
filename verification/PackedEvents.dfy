/** Event suppression of a packed queue: when the driver kicks, and what it tells the device. */
module PackedEvents {
  import opened Integers
  import opened EventIndex
  import opened PackedRing
  import opened PackedInvariant
  import opened PackedTheorems

  /** `off_wrap` taken apart. */
  function OffOf(offWrap: nat): nat { offWrap % MAX_RING }
  predicate WrapOf(offWrap: nat) { offWrap / MAX_RING == 1 }

  lemma {:induction false} OffWrapRoundTrip(off: nat, wrap: bool)
    requires off < MAX_RING
    ensures OffOf(OffWrap(off, wrap)) == off && WrapOf(OffWrap(off, wrap)) == wrap
    ensures OffWrap(off, wrap) < 0x1_0000
  {
  }

  /** `virtqueue_kick_prepare_packed`: the new queue and whether the device must be notified, given
      the device's event structure. */
  function KickPrepare(r: Packed, devFlags: nat, devOff: nat): (Packed, bool) {
    var needs :=
      if devFlags != FLAG_DESC then devFlags != FLAG_DISABLE
      else
        var event := if WrapOf(devOff) != r.availWrap then OffOf(devOff) - r.num as int else OffOf(devOff) as int;
        NeedEvent(event % U16, r.nextIdx, (r.nextIdx as int - r.numAdded as int) % U16);
    (r.(numAdded := 0), needs)
  }

  /** The event test on positions counted from the driver's current lap: `e` may lie in this lap or
      in the one before. It never misses an event that was passed, and it notifies without need only
      for a future event when the count comes within one lap of 2^16. */
  lemma {:induction false} PackedTest(n: nat, next: nat, added: nat, e: int)
    requires 0 < n <= MAX_RING && next < n && added < U16 && -(n as int) <= e < n as int
    ensures var passed := next as int - added as int <= e < next as int;
            var spurious := e >= next && added + (e - next) >= U16;
            NeedEvent(e % U16, next, (next as int - added as int) % U16) <==> passed || spurious
  {
    var newIdx, from := next, (next as int - added as int) % U16;
    assert (newIdx as int - from as int) % U16 == added;
    assert (newIdx as int - (e % U16) as int - 1) % U16 == (next as int - e - 1) % U16;
  }

  /** The absolute position an `off_wrap` of the device names, in the driver's lap or the one before. */
  ghost function EventAbs(s: System, devOff: nat): int {
    var lap: int := if WrapOf(devOff) == s.r.auAvail then s.g.availLap else s.g.availLap as int - 1;
    lap * s.r.num as int + OffOf(devOff) as int
  }

  lemma {:induction false} EventBehind(s: System, devOff: nat)
    ensures EventAbs(s, devOff) - NextAvailAbs(s)
         == (if WrapOf(devOff) == s.r.auAvail then OffOf(devOff) as int else OffOf(devOff) as int - s.r.num as int)
            - s.r.nextIdx as int
  {
    assert (s.g.availLap as int - 1) * s.r.num as int == s.g.availLap * s.r.num - s.r.num;
  }
}
