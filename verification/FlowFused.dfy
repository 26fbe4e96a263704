/** The flow state machines if each release and its completion check were one step. */
module FlowFused {
  import opened FlowMachine

  /** A thread that enters `CompleteStopping` goes through it at once. */
  function Settle(x: Flow): Flow {
    if x.checking > 0 && x.state == Stopping then x.(checking := 0, state := Stopped, event := true)
    else x.(checking := 0)
  }

  function FusedRun(x: Flow, acts: seq<Act>): Flow
    decreases |acts|
  {
    if acts == [] then x else FusedRun(Settle(Step(x, acts[0])), acts[1..])
  }

  /** Stop is called on a config machine that is not running. */
  predicate StopsUnstarted(x: Flow, a: Act) {
    a.StopCall? && x.config && x.pc == Idle && x.state != Running
  }

  /** No such call in a run. */
  predicate StartedStops(x: Flow, acts: seq<Act>)
    decreases |acts|
  {
    acts == [] || (!StopsUnstarted(x, acts[0]) && StartedStops(Settle(Step(x, acts[0])), acts[1..]))
  }

  predicate Outside(x: Flow) {
    || (x.state == Running && !x.mask && x.own == 1)
    || (x.state == Stopped && x.mask && x.own == 0 && x.held == 0)
  }

  // ---------------------------------------------------------------- safety

  /** Draining, with nobody else in `CompleteStopping`. */
  predicate FusedDraining(x: Flow) {
    && x.mask && x.own == 0 && x.state != Running
    && (x.event || x.state == Stopped || Completing(x.pc) ==> x.held == 0)
    && (x.state == Stopping ==> !x.event && x.pc != Notifying)
  }

  /** Stop of a machine that never ran, up to its check. */
  predicate FusedUnstarted(x: Flow) {
    x.mask && x.own == 0 && x.state != Running && x.held == 0
  }

  predicate FusedSafeInv(x: Flow) {
    && Balanced(x) && NoCompleter(x)
    && match x.pc
       case Idle => Outside(x)
       case Adding => x.state == Stopped && x.mask && x.own == 0 && x.held == 0
       case Marking => x.state == Stopped && x.mask && x.own == 1 && x.held == 0
       case Unmasking => x.state == Running && x.mask && x.own == 1 && x.held == 0
       case Entering(s) => if s then x.state == Running && !x.mask && x.own == 1 else FusedUnstarted(x)
       case Clearing(s) => if s then x.state == Stopping && !x.mask && x.own == 1 else FusedUnstarted(x)
       case Masking(s) =>
         if s then x.state == Stopping && !x.mask && x.own == 1 && !x.event
         else FusedUnstarted(x) && (x.state == Stopping ==> !x.event)
       case Dropping(s) =>
         if s then x.state == Stopping && x.mask && x.own == 1 && !x.event
         else FusedUnstarted(x) && (x.state == Stopping ==> !x.event)
       case Overdrawn => false
       case _ => FusedDraining(x)
  }

  lemma {:induction false} FusedRegisterKeeps(x: Flow, n: nat)
    requires FusedSafeInv(x)
    ensures FusedSafeInv(Settle(Step(x, Register(n))))
  {
  }

  /** Fewer references, and some are left or the mask is off. */
  lemma {:induction false} FusedFewer(x: Flow, y: Flow)
    requires FusedSafeInv(x) && Balanced(y) && !Drained(y) && y.held <= x.held
    requires y == x.(refs := y.refs, held := y.held, bounced := y.bounced)
    ensures FusedSafeInv(y)
  {
  }

  /** The last reference is released: who releases it ends the stop, if there is one under way. */
  lemma {:induction false} FusedLast(x: Flow, y: Flow)
    requires FusedSafeInv(x) && Balanced(y) && Drained(y)
    requires y == x.(refs := 0, held := 0, bounced := 0, own := 0) && x.own == 0
    ensures FusedSafeInv(Settle(y.(checking := 1)))
  {
  }

  lemma {:induction false} FusedTakeBackKeeps(x: Flow, n: nat)
    requires FusedSafeInv(x)
    ensures FusedSafeInv(Settle(Step(x, TakeBack(n))))
  {
    if 0 < n <= x.bounced && x.pc != Overdrawn {
      TakeBackIs(x, n);
      FusedReleased(x, Step(x, TakeBack(n)), x.(refs := x.refs - n, bounced := x.bounced - n));
    }
  }

  lemma {:induction false} TakeBackIs(x: Flow, n: nat)
    requires Balanced(x) && NoCompleter(x) && 0 < n <= x.bounced && x.pc != Overdrawn
    ensures var y := x.(refs := x.refs - n, bounced := x.bounced - n);
            Balanced(y) && Step(x, TakeBack(n)) == if Drained(y) then y.(checking := 1) else y
  {
  }

  lemma {:induction false} FusedUnregisterKeeps(x: Flow, n: nat)
    requires FusedSafeInv(x)
    ensures FusedSafeInv(Settle(Step(x, Unregister(n))))
  {
    if 0 < n <= x.held && x.pc != Overdrawn {
      UnregisterIs(x, n);
      FusedReleased(x, Step(x, Unregister(n)), x.(refs := x.refs - n, held := x.held - n));
    }
  }

  lemma {:induction false} UnregisterIs(x: Flow, n: nat)
    requires Balanced(x) && NoCompleter(x) && 0 < n <= x.held && x.pc != Overdrawn
    ensures var y := x.(refs := x.refs - n, held := x.held - n);
            Balanced(y) && Step(x, Unregister(n)) == if Drained(y) then y.(checking := 1) else y
  {
  }

  lemma {:induction false} FusedReleased(x: Flow, z: Flow, y: Flow)
    requires FusedSafeInv(x) && Balanced(y) && y.held <= x.held
    requires y == x.(refs := y.refs, held := y.held, bounced := y.bounced)
    requires z == if Drained(y) then y.(checking := 1) else y
    ensures FusedSafeInv(Settle(z))
  {
    if Drained(y) {
      FusedLast(x, y);
    } else {
      FusedFewer(x, y);
    }
  }

  lemma {:induction false} FusedCompletersIdle(x: Flow, a: Act)
    requires NoCompleter(x) && (a.Check? || a.Store? || a.Notify?)
    ensures Settle(Step(x, a)) == x
  {
  }

  lemma {:induction false} FusedStopKeeps(x: Flow)
    requires FusedSafeInv(x) && Entered(x.pc)
    ensures FusedSafeInv(Settle(ControlStep(x)))
  {
  }

  lemma {:induction false} FusedOthersKeep(x: Flow)
    requires FusedSafeInv(x) && !Entered(x.pc)
    ensures FusedSafeInv(Settle(ControlStep(x)))
  {
  }

  lemma {:induction false} FusedControlKeeps(x: Flow)
    requires FusedSafeInv(x)
    ensures FusedSafeInv(Settle(ControlStep(x)))
  {
    if Entered(x.pc) {
      FusedStopKeeps(x);
    } else {
      FusedOthersKeep(x);
    }
  }

  lemma {:induction false} FusedStepKeeps(x: Flow, a: Act)
    requires FusedSafeInv(x)
    ensures FusedSafeInv(Settle(Step(x, a)))
  {
    match a
    case StartCall =>
    case StopCall =>
    case Control => FusedControlKeeps(x);
    case Check => FusedCompletersIdle(x, a);
    case Store => FusedCompletersIdle(x, a);
    case Notify => FusedCompletersIdle(x, a);
    case Register(n) => FusedRegisterKeeps(x, n);
    case TakeBack(n) => FusedTakeBackKeeps(x, n);
    case Unregister(n) => FusedUnregisterKeeps(x, n);
  }

  lemma {:induction false} FusedRunKeeps(x: Flow, acts: seq<Act>)
    requires FusedSafeInv(x)
    ensures FusedSafeInv(FusedRun(x, acts))
    decreases |acts|
  {
    if acts != [] {
      FusedStepKeeps(x, acts[0]);
      FusedRunKeeps(Settle(Step(x, acts[0])), acts[1..]);
    }
  }

  // ---------------------------------------------------------------- wake-ups

  /** Somebody will end the stop, or has ended it and set the event. */
  predicate FusedWakes(x: Flow) {
    && (x.state == Stopping ==> x.refs > 0 || x.pc == Checking || x.pc == Storing)
    && (x.state == Stopped ==> x.event || x.pc == Notifying)
  }

  predicate FusedWakeInv(x: Flow) {
    match x.pc
    case Entering(s) => s
    case Clearing(s) => s
    case Masking(s) => s
    case Dropping(s) => s
    case Checking => FusedWakes(x)
    case Storing => FusedWakes(x)
    case Notifying => FusedWakes(x)
    case Waiting => FusedWakes(x)
    case _ => true
  }

  lemma {:induction false} FusedReferencesWake(x: Flow, a: Act)
    requires FusedSafeInv(x) && FusedWakeInv(x) && (a.Register? || a.TakeBack? || a.Unregister?)
    ensures FusedWakeInv(Settle(Step(x, a)))
  {
  }

  lemma {:induction false} FusedControlWakes(x: Flow)
    requires FusedSafeInv(x) && FusedWakeInv(x)
    ensures FusedWakeInv(Settle(ControlStep(x)))
  {
  }

  lemma {:induction false} FusedStepWakes(x: Flow, a: Act)
    requires FusedSafeInv(x) && FusedWakeInv(x) && !StopsUnstarted(x, a)
    ensures FusedWakeInv(Settle(Step(x, a)))
  {
    match a
    case StartCall =>
    case StopCall =>
    case Control => FusedControlWakes(x);
    case Check => FusedCompletersIdle(x, a);
    case Store => FusedCompletersIdle(x, a);
    case Notify => FusedCompletersIdle(x, a);
    case _ => FusedReferencesWake(x, a);
  }

  lemma {:induction false} FusedRunWakes(x: Flow, acts: seq<Act>)
    requires FusedSafeInv(x) && FusedWakeInv(x) && StartedStops(x, acts)
    ensures FusedWakeInv(FusedRun(x, acts))
    decreases |acts|
  {
    if acts != [] {
      FusedStepKeeps(x, acts[0]);
      FusedStepWakes(x, acts[0]);
      FusedRunWakes(Settle(Step(x, acts[0])), acts[1..]);
    }
  }

  /** Over any number of starts and stops, of either machine: every Stop would be safe, would leave nothing
      registered when it has returned, and would release no reference but its own; and none would lose its
      wake-up as long as no config machine is stopped that does not run. */
  lemma {:induction false} FusedRunsAreSafe(config: bool, acts: seq<Act>)
    ensures FusedRunIsSafe(New(config), acts)
  {
    NewIsSafe(config);
    FusedRunFrom(New(config), acts);
  }

  predicate FusedRunIsSafe(c: Flow, acts: seq<Act>) {
    FusedSafe(FusedRun(c, acts)) && (StartedStops(c, acts) ==> NotLost(FusedRun(c, acts)))
  }

  lemma {:induction false} FusedRunFrom(c: Flow, acts: seq<Act>)
    requires FusedSafeInv(c) && FusedWakeInv(c)
    ensures FusedRunIsSafe(c, acts)
  {
    FusedSafeRun(c, acts);
    if StartedStops(c, acts) {
      FusedWakeRun(c, acts);
    }
  }

  /** The event is only set when nothing is registered, nothing is when Stop has returned, and no reference
      has been released by a Stop that does not own it. */
  predicate FusedSafe(x: Flow) {
    Safe(x) && (x.pc == Idle && x.state != Running ==> x.held == 0) && x.pc != Overdrawn
  }

  lemma {:induction false} NewIsSafe(config: bool)
    ensures FusedSafeInv(New(config)) && FusedWakeInv(New(config))
  {
  }

  lemma {:induction false} FusedSafeRun(c: Flow, acts: seq<Act>)
    requires FusedSafeInv(c)
    ensures FusedSafe(FusedRun(c, acts))
  {
    FusedRunKeeps(c, acts);
    FusedInvIsSafe(FusedRun(c, acts));
  }

  lemma {:induction false} FusedWakeRun(c: Flow, acts: seq<Act>)
    requires FusedSafeInv(c) && FusedWakeInv(c) && StartedStops(c, acts)
    ensures NotLost(FusedRun(c, acts))
  {
    FusedRunKeeps(c, acts);
    FusedRunWakes(c, acts);
    FusedInvWakes(FusedRun(c, acts));
  }

  lemma {:induction false} FusedInvIsSafe(x: Flow)
    requires FusedSafeInv(x)
    ensures FusedSafe(x)
  {
  }

  lemma {:induction false} FusedInvWakes(x: Flow)
    requires FusedSafeInv(x) && FusedWakeInv(x)
    ensures NotLost(x)
  {
  }

  lemma {:induction false} PlainStopsAreStarted(x: Flow, acts: seq<Act>)
    requires !x.config
    ensures StartedStops(x, acts)
    decreases |acts|
  {
    if acts != [] {
      StepKeepsConfig(x, acts[0]);
      PlainStopsAreStarted(Settle(Step(x, acts[0])), acts[1..]);
    }
  }

  /** For the plain machine that is no condition. */
  lemma {:induction false} FusedPlainRunsWake(acts: seq<Act>)
    ensures RunWakes(New(false), acts)
  {
    NewIsSafe(false);
    PlainRunFrom(New(false), acts);
  }

  predicate RunWakes(c: Flow, acts: seq<Act>) { NotLost(FusedRun(c, acts)) }

  lemma {:induction false} PlainRunFrom(c: Flow, acts: seq<Act>)
    requires FusedSafeInv(c) && FusedWakeInv(c) && !c.config
    ensures RunWakes(c, acts)
  {
    PlainStopsAreStarted(c, acts);
    FusedWakeRun(c, acts);
  }

  // ---------------------------------------------------------------- the exception

  lemma {:induction false} FusedAppend(x: Flow, acts: seq<Act>, a: Act)
    ensures FusedRun(x, acts + [a]) == Settle(Step(FusedRun(x, acts), a))
    decreases |acts|
  {
    if acts == [] {
      assert acts + [a] == [a] && [a][1..] == [];
    } else {
      assert (acts + [a])[1..] == acts[1..] + [a];
      FusedAppend(Settle(Step(x, acts[0])), acts[1..], a);
    }
  }

  ghost predicate FusedLeads(x: Flow, y: Flow) {
    exists acts: seq<Act> :: OneStop(acts) && FusedRun(x, acts) == y
  }

  lemma {:induction false} FusedNoSteps(x: Flow, acts: seq<Act>)
    requires acts == []
    ensures FusedLeads(x, x)
  {
    assert FusedRun(x, acts) == x;
  }

  lemma {:induction false} FusedThen(x: Flow, y: Flow, a: Act)
    requires FusedLeads(x, y) && !a.StartCall? && !a.StopCall?
    ensures FusedLeads(x, Settle(Step(y, a)))
  {
    var acts: seq<Act> :| OneStop(acts) && FusedRun(x, acts) == y;
    FusedAppend(x, acts, a);
    assert OneStop(acts + [a]);
  }

  lemma {:induction false} FusedEnters(x: Flow, y: Flow) returns (z: Flow)
    requires FusedLeads(x, y) && y.pc == Entering(false) && y.checking == 0
    ensures FusedLeads(x, z) && z == y.(pc := Clearing(false), state := Stopping)
  {
    FusedThen(x, y, Control);
    z := Settle(Step(y, Control));
  }

  lemma {:induction false} FusedRefused(x: Flow, y: Flow) returns (z: Flow)
    requires FusedLeads(x, y) && y.mask && y.checking == 0 && y.pc != Overdrawn
    ensures FusedLeads(x, z) && z == y.(refs := y.refs + 1, bounced := y.bounced + 1)
  {
    FusedThen(x, y, Register(1));
    z := Settle(Step(y, Register(1)));
  }

  lemma {:induction false} FusedTakenBack(x: Flow, y: Flow) returns (z: Flow)
    requires FusedLeads(x, y) && y.mask && y.state == Stopping && 0 < y.bounced == y.refs && y.checking == 0 && y.pc != Overdrawn
    ensures FusedLeads(x, z) && z == y.(state := Stopped, event := true, refs := 0, bounced := 0)
  {
    FusedThen(x, y, TakeBack(y.bounced));
    z := Settle(Step(y, TakeBack(y.bounced)));
  }

  /** A refused registration ends the Stop of a machine that does not run before the event is cleared. */
  lemma {:induction false} FusedEndedEarly(x: Flow) returns (y: Flow)
    requires Balanced(x) && NoCompleter(x) && x.pc == Entering(false) && FusedUnstarted(x)
    ensures FusedLeads(x, y) && y == x.(pc := Clearing(false), state := Stopped, event := true, refs := 0, bounced := 0)
  {
    FusedNoSteps(x, []);
    y := FusedEnters(x, x);
    y := FusedRefused(x, y);
    y := FusedTakenBack(x, y);
  }

  lemma {:induction false} FusedControl(x: Flow, y: Flow) returns (z: Flow)
    requires FusedLeads(x, y) && y.checking == 0 && y.pc != Overdrawn
    ensures FusedLeads(x, z) && z == Settle(ControlStep(y))
  {
    FusedThen(x, y, Control);
    z := Settle(ControlStep(y));
  }

  lemma {:induction false} FusedClearsAndMasks(x: Flow, y: Flow) returns (z: Flow)
    requires FusedLeads(x, y) && y.pc == Clearing(false) && y.checking == 0
    ensures FusedLeads(x, z) && z == y.(pc := Dropping(false), event := false, mask := true)
  {
    z := FusedControl(x, y);
    assert z == y.(pc := Masking(false), event := false);
    z := FusedControl(x, z);
  }

  lemma {:induction false} FusedLooksAndWaits(x: Flow, y: Flow) returns (z: Flow)
    requires FusedLeads(x, y) && y.pc == Dropping(false) && y.checking == 0 && Drained(y) && y.state == Stopped
    ensures FusedLeads(x, z) && z == y.(pc := Waiting)
  {
    z := FusedControl(x, y);
    assert z == y.(pc := Checking);
    z := FusedControl(x, z);
  }

  lemma {:induction false} FusedUnstartedHangs(x: Flow) returns (y: Flow)
    requires Balanced(x) && NoCompleter(x) && x.pc == Entering(false) && FusedUnstarted(x)
    ensures FusedLeads(x, y) && !NotLost(y)
  {
    y := FusedEndedEarly(x);
    y := FusedClearsAndMasks(x, y);
    y := FusedLooksAndWaits(x, y);
  }

  lemma {:induction false} FusedStartedWakes(x: Flow, acts: seq<Act>)
    requires FusedSafeInv(x) && x.pc == Entering(true) && OneStop(acts)
    ensures NotLost(FusedRun(x, acts))
  {
    OneStopIsStarted(x, acts);
    FusedWakeRun(x, acts);
  }

  lemma {:induction false} OneStopIsStarted(x: Flow, acts: seq<Act>)
    requires OneStop(acts)
    ensures StartedStops(x, acts)
    decreases |acts|
  {
    if acts != [] {
      OneStopIsStarted(Settle(Step(x, acts[0])), acts[1..]);
    }
  }

  /** Even then, a config machine's Stop, called in whatever state a run has reached, could not lose its
      wake-up exactly when the machine runs. */
  lemma {:induction false} FusedConfigStopWakesIff(acts: seq<Act>)
    ensures FusedStopIsExact(FusedRun(New(true), acts))
  {
    NewIsSafe(true);
    FusedRunStopIsExact(New(true), acts);
  }

  /** A Stop called here cannot lose its wake-up exactly when the machine runs. */
  ghost predicate FusedStopIsExact(x: Flow) {
    x.pc == Idle ==> (FusedAlwaysWakes(Settle(Step(x, StopCall))) <==> x.state == Running)
  }

  ghost predicate FusedAlwaysWakes(x: Flow) {
    forall acts: seq<Act> :: OneStop(acts) ==> NotLost(FusedRun(x, acts))
  }

  lemma {:induction false} FusedRunStopIsExact(c: Flow, acts: seq<Act>)
    requires FusedSafeInv(c) && c.config
    ensures FusedStopIsExact(FusedRun(c, acts))
  {
    FusedRunKeeps(c, acts);
    KeepsConfig(c, acts);
    var x := FusedRun(c, acts);
    if x.pc == Idle {
      FusedStopWakesIff(x);
    }
  }

  lemma {:induction false} FusedStopWakesIff(x: Flow)
    requires FusedSafeInv(x) && x.config && x.pc == Idle
    ensures FusedAlwaysWakes(Settle(Step(x, StopCall))) <==> x.state == Running
  {
    FusedStepKeeps(x, StopCall);
    FusedCalled(x);
    var y := Settle(Step(x, StopCall));
    if x.state == Running {
      forall acts: seq<Act> | OneStop(acts)
        ensures NotLost(FusedRun(y, acts))
      {
        FusedStartedWakes(y, acts);
      }
    } else {
      var z := FusedUnstartedHangs(y);
    }
  }

  lemma {:induction false} FusedCalled(x: Flow)
    requires FusedSafeInv(x) && x.config && x.pc == Idle
    ensures var y := Settle(Step(x, StopCall));
            y.pc == Entering(x.state == Running) && Balanced(y) && NoCompleter(y)
            && (x.state != Running ==> FusedUnstarted(y))
  {
  }

  lemma {:induction false} StepKeepsConfig(x: Flow, a: Act)
    ensures Settle(Step(x, a)).config == x.config
  {
  }

  lemma {:induction false} KeepsConfig(x: Flow, acts: seq<Act>)
    ensures FusedRun(x, acts).config == x.config
    decreases |acts|
  {
    if acts != [] {
      StepKeepsConfig(x, acts[0]);
      KeepsConfig(Settle(Step(x, acts[0])), acts[1..]);
    }
  }
}
