/** The start/stop/drain protocol of the network driver's flow state machines: one counter that carries a
    mask bit, a state, an event, one controlling thread and any number of others, each step one access to
    shared memory. The build modelled has no lock around `CompleteStopping`. */
module FlowMachine {

  const STOPPED_MASK: nat := 0x4000_0000

  datatype FlowState = Running | Stopping | Stopped

  /** Where the controlling thread is: outside; in Start before it adds its reference, sets the state,
      clears the mask; in Stop before it sets the state, clears the event, sets the mask, drops its
      reference (or, if it never started, looks at the counter); in `CompleteStopping`; waiting; or just
      past the release of a reference that is not its own, where the model ends. */
  datatype Pc =
    | Idle
    | Adding | Marking | Unmasking
    | Entering(started: bool) | Clearing(started: bool) | Masking(started: bool) | Dropping(started: bool)
    | Checking | Storing | Notifying
    | Waiting
    | Overdrawn

  /** The shared fields, and what is in flight: the references that Start has taken and Stop has not dropped
      (`own`), items registered and not yet released (`held`), references of registrations that were refused
      and not yet taken back (`bounced`), and the threads in `CompleteStopping` before each of its three
      accesses. */
  datatype Flow = Flow(
    config: bool, state: FlowState, mask: bool, refs: nat, event: bool,
    pc: Pc, own: nat, held: nat, bounced: nat, checking: nat, storing: nat, notifying: nat)

  /** The counter's value as the atomic operations return it. */
  function Value(x: Flow): nat { x.refs + if x.mask then STOPPED_MASK else 0 }

  /** As long as there are fewer than 2^30 references the two tests the code makes of a returned value are
      exact: its mask bit is the mask, and it equals the mask when nothing but the mask is left. */
  lemma {:induction false} MaskTests(x: Flow)
    requires x.refs < STOPPED_MASK
    ensures (Value(x) / STOPPED_MASK) % 2 == 1 <==> x.mask
    ensures Value(x) == STOPPED_MASK <==> x.mask && x.refs == 0
  {
  }

  function New(config: bool): Flow {
    Flow(config, Stopped, true, 0, false, Idle, 0, 0, 0, 0, 0, 0)
  }

  // ---------------------------------------------------------------- steps

  datatype Act =
    | StartCall | StopCall | Control
    | Register(n: nat) | TakeBack(n: nat) | Unregister(n: nat)
    | Check | Store | Notify

  predicate Drained(x: Flow) { x.mask && x.refs == 0 }

  /** A release: whoever brings the counter to the bare mask goes on to `CompleteStopping`. */
  function Release(x: Flow, n: nat): Flow
    requires n <= x.refs
  {
    var y := x.(refs := x.refs - n);
    if Drained(y) then y.(checking := y.checking + 1) else y
  }

  /** The controlling thread's next step inside a call. */
  function ControlStep(x: Flow): Flow {
    match x.pc
    case Idle => x
    case Adding => x.(refs := x.refs + 1, own := x.own + 1, pc := Marking)
    case Marking => x.(state := Running, pc := Unmasking)
    case Unmasking => x.(mask := false, pc := Idle)
    case Entering(s) => x.(state := Stopping, pc := Clearing(s))
    case Clearing(s) => x.(event := false, pc := Masking(s))
    case Masking(s) => x.(mask := true, pc := Dropping(s))
    case Dropping(s) =>
      if s && (x.own == 0 || x.refs == 0) then x.(pc := Overdrawn)
      else
        var y := if s then x.(refs := x.refs - 1, own := x.own - 1) else x;
        y.(pc := if Drained(y) then Checking else Waiting)
    case Checking => x.(pc := if x.state == Stopping then Storing else Waiting)
    case Storing => x.(state := Stopped, pc := Notifying)
    case Notifying => x.(event := true, pc := Waiting)
    case Waiting => if x.event then x.(pc := Idle) else x
    case Overdrawn => x
  }

  /** Which way a Stop goes. */
  predicate TakesStarted(x: Flow) { if x.config then x.state != Stopped else x.state == Running }

  function Step(x: Flow, a: Act): Flow {
    if x.pc == Overdrawn then x else AnyStep(x, a)
  }

  function AnyStep(x: Flow, a: Act): Flow {
    match a
    case StartCall => if x.pc == Idle && x.state == Stopped then x.(pc := Adding) else x
    case StopCall =>
      if x.pc != Idle then x
      else if x.config || x.state == Running then x.(pc := Entering(TakesStarted(x)))
      else x
    case Control => ControlStep(x)
    case Register(n) =>
      if n == 0 then x
      else if x.mask then x.(refs := x.refs + n, bounced := x.bounced + n)
      else x.(refs := x.refs + n, held := x.held + n)
    case TakeBack(n) =>
      if 0 < n <= x.bounced && n <= x.refs then Release(x, n).(bounced := x.bounced - n) else x
    case Unregister(n) =>
      if 0 < n <= x.held && n <= x.refs then Release(x, n).(held := x.held - n) else x
    case Check =>
      if x.checking == 0 then x
      else x.(checking := x.checking - 1, storing := if x.state == Stopping then x.storing + 1 else x.storing)
    case Store =>
      if x.storing == 0 then x else x.(storing := x.storing - 1, state := Stopped, notifying := x.notifying + 1)
    case Notify =>
      if x.notifying == 0 then x else x.(notifying := x.notifying - 1, event := true)
  }

  function Run(x: Flow, acts: seq<Act>): Flow
    decreases |acts|
  {
    if acts == [] then x else Run(Step(x, acts[0]), acts[1..])
  }

  /** No further call to Start or Stop: the run ends with the Stop under way, whatever others do. */
  predicate OneStop(acts: seq<Act>) {
    forall i :: 0 <= i < |acts| ==> !acts[i].StartCall? && !acts[i].StopCall?
  }

  // ---------------------------------------------------------------- one stop

  /** Each reference is accounted for. */
  predicate Balanced(x: Flow) {
    x.refs == x.held + x.bounced + x.own
  }

  /** Nobody is in `CompleteStopping`. */
  predicate NoCompleter(x: Flow) {
    x.checking == 0 && x.storing == 0 && x.notifying == 0
  }

  /** What holds in every run: the counter is right, and the mask is only off after a Start. */
  predicate Accounted(x: Flow) {
    && Balanced(x) && (x.mask || x.own > 0)
    && (x.pc == Marking || x.pc == Unmasking ==> x.own > 0)
    && (x.pc.Dropping? ==> x.mask)
  }

  lemma {:induction false} ControlAccounted(x: Flow)
    requires Accounted(x)
    ensures Accounted(ControlStep(x))
  {
  }

  lemma {:induction false} StepAccounted(x: Flow, a: Act)
    requires Accounted(x)
    ensures Accounted(Step(x, a))
  {
    if a.Control? {
      ControlAccounted(x);
    }
  }

  lemma {:induction false} RunAccounted(x: Flow, acts: seq<Act>)
    requires Accounted(x)
    ensures Accounted(Run(x, acts))
    decreases |acts|
  {
    if acts != [] {
      StepAccounted(x, acts[0]);
      RunAccounted(Step(x, acts[0]), acts[1..]);
    }
  }

  // ---------------------------------------------------------------- a clean stop

  /** Stop has just been called on a machine that was started once. */
  predicate StopEntered(x: Flow) {
    Balanced(x) && x.pc == Entering(true) && x.own == 1
  }

  /** The controlling thread has yet to look whether the counter is drained, or has seen that it is. */
  predicate StillToCheck(pc: Pc) {
    pc.Masking? || pc.Dropping? || pc == Checking || pc == Storing
  }

  predicate Completing(pc: Pc) { pc == Checking || pc == Storing || pc == Notifying }

  /** From the moment the mask is set and the controlling thread holds no reference. */
  predicate Draining(x: Flow) {
    && x.mask && x.own == 0 && x.state != Running
    && (x.checking > 0 || x.storing > 0 || x.notifying > 0 || x.event || x.state == Stopped || Completing(x.pc) ==>
          x.held == 0)
    && (x.state == Stopping ==>
          !x.event && x.notifying == 0 && x.pc != Notifying
          && (x.refs > 0 || x.checking > 0 || x.storing > 0 || StillToCheck(x.pc)))
    && (x.state == Stopped ==> x.event || x.notifying > 0 || x.pc == Notifying)
  }

  /** What holds at every point of a Stop that began with nobody in `CompleteStopping`. */
  predicate StopInv(x: Flow) {
    && Balanced(x)
    && match x.pc
       case Entering(s) => s && x.own == 1 && NoCompleter(x)
       case Clearing(s) => s && x.own == 1 && NoCompleter(x) && x.state == Stopping
       case Masking(s) =>
         if s then x.own == 1 && NoCompleter(x) && x.state == Stopping && !x.event else Draining(x)
       case Dropping(s) =>
         if s then x.own == 1 && NoCompleter(x) && x.state == Stopping && !x.event && x.mask else Draining(x)
       case Checking => Draining(x)
       case Storing => Draining(x)
       case Notifying => Draining(x)
       case Waiting => Draining(x)
       case Idle => Draining(x) && x.event && x.state == Stopped
       case _ => false
  }

  lemma {:induction false} ReferencesKeepStop(x: Flow, a: Act)
    requires StopInv(x) && (a.Register? || a.TakeBack? || a.Unregister?)
    ensures StopInv(Step(x, a))
  {
  }

  lemma {:induction false} CompletersKeepStop(x: Flow, a: Act)
    requires StopInv(x) && (a.Check? || a.Store? || a.Notify?)
    ensures StopInv(Step(x, a))
  {
  }

  predicate Entered(pc: Pc) { pc.Entering? || pc.Clearing? || pc.Masking? || pc.Dropping? }

  lemma {:induction false} EnteredKeepsStop(x: Flow)
    requires StopInv(x) && Entered(x.pc)
    ensures StopInv(ControlStep(x))
  {
  }

  lemma {:induction false} EndingKeepsStop(x: Flow)
    requires StopInv(x) && !Entered(x.pc)
    ensures StopInv(ControlStep(x))
  {
  }

  lemma {:induction false} ControlKeepsStop(x: Flow)
    requires StopInv(x)
    ensures StopInv(ControlStep(x))
  {
    if Entered(x.pc) {
      EnteredKeepsStop(x);
    } else {
      EndingKeepsStop(x);
    }
  }

  lemma {:induction false} StopRunKeeps(x: Flow, acts: seq<Act>)
    requires StopInv(x) && OneStop(acts)
    ensures StopInv(Run(x, acts))
    decreases |acts|
  {
    if acts != [] {
      var a := acts[0];
      if a.Control? {
        ControlKeepsStop(x);
      } else if a.Check? || a.Store? || a.Notify? {
        CompletersKeepStop(x, a);
      } else {
        ReferencesKeepStop(x, a);
      }
      StopRunKeeps(Step(x, acts[0]), acts[1..]);
    }
  }

  /** Between clearing the event and the next call, the event is only set when nothing is registered. */
  predicate Safe(x: Flow) {
    (x.pc.Masking? || x.pc.Dropping? || Completing(x.pc) || x.pc == Waiting) && x.event ==> x.held == 0
  }

  /** A waiting Stop with nothing left to release, and nobody on the way to wake it, has been woken. */
  predicate NotLost(x: Flow) {
    x.pc == Waiting && x.held == 0 && x.bounced == 0 && NoCompleter(x) ==> x.state == Stopped && x.event
  }

  lemma {:induction false} StopInvMeans(x: Flow)
    requires StopInv(x)
    ensures Safe(x) && NotLost(x)
    ensures x.pc == Idle ==> x.held == 0 && x.state == Stopped
  {
  }

  /** The Stop of a machine that was started once and has nobody in `CompleteStopping`: in every
      interleaving the event means that everything was released, no wake-up is lost, and when Stop has
      returned nothing is registered and the state is Stopped. */
  lemma {:induction false} CleanStopIsSafe(x: Flow, acts: seq<Act>)
    requires StopEntered(x) && NoCompleter(x) && OneStop(acts)
    ensures Safe(Run(x, acts)) && NotLost(Run(x, acts))
    ensures Run(x, acts).pc == Idle ==> Run(x, acts).held == 0 && Run(x, acts).state == Stopped
  {
    StopRunKeeps(x, acts);
    StopInvMeans(Run(x, acts));
  }
}
