/** The single steps of the interrupt protocol that both ring formats share: what the device does
    around a used element, and where the driver is in get_buf or enable_cb. */
module Interrupts {

  /** The device has published used elements worth `count` since it last looked at the driver's event
      fields; has read flags that ask for the event position (packed rings only); or knows whether it
      will raise an interrupt. */
  datatype DevicePc = Idle | Wrote(count: nat) | SawDesc(count: nat) | Decided(raise: bool)

  /** Between calls; in get_buf after an element was taken; in enable_cb with the flag written or with
      the event position written; or waiting for an interrupt because the used ring looked empty with
      interrupts enabled. */
  datatype DriverPc = Running | Reaped | FlagSet | EventSet | Waiting

  predicate Free(drv: DriverPc) {
    drv == Running || drv == Waiting
  }

  function Published(dev: DevicePc): nat {
    if dev.Wrote? then dev.count else 0
  }

  /** While the driver waits and something lies in the used ring, an interrupt was raised since, or the
      device is still on its way to raise one. */
  predicate WakeUpComing(nDone: nat, dev: DevicePc, woken: bool) {
    || nDone == 0
    || woken
    || ((dev.Wrote? || dev.SawDesc?) && nDone <= dev.count)
    || dev == Decided(true)
  }
}
