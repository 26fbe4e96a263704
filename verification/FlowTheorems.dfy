/** Exactly when a Stop of a flow state machine is safe, exactly when it cannot lose its wake-up, and exactly
    when it drops its own reference: for either machine, from every state in which Stop can be called. */
module FlowTheorems {
  import opened FlowMachine

  // ---------------------------------------------------------------- building runs

  lemma {:induction false} RunAppend(x: Flow, acts: seq<Act>, a: Act)
    ensures Run(x, acts + [a]) == Step(Run(x, acts), a)
    decreases |acts|
  {
    if acts == [] {
      assert acts + [a] == [a] && [a][1..] == [];
    } else {
      assert (acts + [a])[1..] == acts[1..] + [a];
      RunAppend(Step(x, acts[0]), acts[1..], a);
    }
  }

  /** Some run of one Stop leads from `x` to `y`. */
  ghost predicate Leads(x: Flow, y: Flow) {
    exists acts: seq<Act> :: OneStop(acts) && Run(x, acts) == y
  }

  lemma {:induction false} NoSteps(x: Flow, acts: seq<Act>)
    requires acts == []
    ensures Leads(x, x)
  {
    assert Run(x, acts) == x;
  }

  /** One more step. */
  lemma {:induction false} Then(x: Flow, y: Flow, a: Act)
    requires Leads(x, y) && !a.StartCall? && !a.StopCall?
    ensures Leads(x, Step(y, a))
  {
    var acts: seq<Act> :| OneStop(acts) && Run(x, acts) == y;
    RunAppend(x, acts, a);
    assert OneStop(acts + [a]);
  }

  /** The controlling thread is outside, in a state that satisfies what every run keeps. */
  predicate Callable(x: Flow) { Accounted(x) && x.pc == Idle }

  /** Stop has just been called in such a state. */
  function Called(x: Flow): Flow { Step(x, StopCall) }

  // ---------------------------------------------------------------- safety

  /** The event is only set when nothing is registered, and nothing is when Stop has returned. */
  predicate SafeAndDone(x: Flow) { Safe(x) && (x.pc == Idle ==> x.held == 0) }

  /** Nothing is registered, and nothing can be. */
  predicate NothingHeld(x: Flow) {
    x.held == 0 && x.mask && !x.pc.Adding? && !x.pc.Marking? && !x.pc.Unmasking?
  }

  /** A Stop under way while nobody is in `CompleteStopping`: nobody sets the event. */
  predicate Undisturbed(x: Flow) {
    && Balanced(x) && NoCompleter(x)
    && (Entered(x.pc) || x.pc == Waiting || x.pc == Overdrawn)
    && (x.pc.Masking? || x.pc.Dropping? || x.pc == Waiting ==> !x.event)
    && (x.pc.Dropping? || x.pc == Waiting ==> x.mask)
  }

  lemma {:induction false} SafeStep(x: Flow, a: Act)
    requires (NothingHeld(x) || Undisturbed(x)) && !a.StartCall? && !a.StopCall?
    ensures NothingHeld(Step(x, a)) || Undisturbed(Step(x, a))
  {
    if a.Control? && Undisturbed(x) {
      SafeControl(x);
    }
  }

  lemma {:induction false} SafeControl(x: Flow)
    requires Undisturbed(x)
    ensures NothingHeld(ControlStep(x)) || Undisturbed(ControlStep(x))
  {
  }

  lemma {:induction false} SafeRun(x: Flow, acts: seq<Act>)
    requires (NothingHeld(x) || Undisturbed(x)) && OneStop(acts)
    ensures SafeAndDone(Run(x, acts))
    decreases |acts|
  {
    if acts != [] {
      SafeStep(x, acts[0]);
      SafeRun(Step(x, acts[0]), acts[1..]);
    }
  }

  /** A thread in `CompleteStopping`, up to the notification. */
  lemma {:induction false} StaleStores(x: Flow, y: Flow) returns (z: Flow)
    requires Leads(x, y) && y.state == Stopping && (y.checking > 0 || y.storing > 0) && y.pc != Overdrawn
    ensures Leads(x, z) && z == y.(state := Stopped, checking := z.checking, storing := z.storing, notifying := z.notifying)
    ensures z.notifying > 0
  {
    z := y;
    if z.storing == 0 {
      Then(x, z, Check);
      z := Step(z, Check);
    }
    Then(x, z, Store);
    z := Step(z, Store);
  }

  /** A Stop up to its cleared event, while an item is registered. */
  lemma {:induction false} CountedAndCleared(x: Flow) returns (y: Flow)
    requires x.pc.Entering? && (x.held > 0 || !x.mask)
    ensures Leads(x, y) && y.pc.Masking? && y.state == Stopping && y.held > 0
    ensures y.checking == x.checking && y.storing == x.storing && y.notifying == x.notifying
  {
    NoSteps(x, []);
    y := x;
    if x.held == 0 {
      Then(x, x, Register(1));
      y := Step(x, Register(1));
    }
    Then(x, y, Control);
    y := Step(y, Control);
    Then(x, y, Control);
    y := Step(y, Control);
  }

  /** The interleaving in which a thread left over in `CompleteStopping` ends the new Stop. */
  lemma {:induction false} StaleCompleterEndsStop(x: Flow) returns (y: Flow)
    requires x.pc.Entering? && (x.held > 0 || !x.mask) && !NoCompleter(x)
    ensures Leads(x, y) && !Safe(y)
  {
    y := CountedAndCleared(x);
    if y.notifying == 0 {
      y := StaleStores(x, y);
    }
    Then(x, y, Notify);
    y := Step(y, Notify);
  }

  /** A Stop that returns at once, because the state is not Running. */
  lemma {:induction false} ReturnsWithItem(x: Flow) returns (y: Flow)
    requires x.pc == Idle && (x.held > 0 || !x.mask)
    ensures Leads(x, y) && !SafeAndDone(y)
  {
    NoSteps(x, []);
    y := x;
    if x.held == 0 {
      Then(x, x, Register(1));
      y := Step(x, Register(1));
    }
  }

  /** A Stop is safe in every interleaving exactly when nothing is registered or can be, or nobody is left
      in `CompleteStopping` and, in the plain machine, the state is Running. */
  lemma {:induction false} StopIsSafeIff(x: Flow)
    requires Callable(x)
    ensures (forall acts: seq<Act> :: OneStop(acts) ==> SafeAndDone(Run(Called(x), acts)))
       <==> (x.mask && x.held == 0) || (NoCompleter(x) && (x.config || x.state == Running))
  {
    if (x.mask && x.held == 0) || (NoCompleter(x) && (x.config || x.state == Running)) {
      forall acts: seq<Act> | OneStop(acts)
        ensures SafeAndDone(Run(Called(x), acts))
      {
        SafeRun(Called(x), acts);
      }
    } else {
      var y := UnsafeStop(x);
    }
  }

  lemma {:induction false} UnsafeStop(x: Flow) returns (y: Flow)
    requires Callable(x) && (x.held > 0 || !x.mask) && (NoCompleter(x) ==> !x.config && x.state != Running)
    ensures Leads(Called(x), y) && !SafeAndDone(y)
  {
    if x.config || x.state == Running {
      y := StaleCompleterEndsStop(Called(x));
    } else {
      y := ReturnsWithItem(x);
    }
  }

  // ---------------------------------------------------------------- wake-ups

  /** From the moment the mask is set and the controlling thread holds no reference: somebody will end the
      stop, or has ended it and will set the event. */
  predicate WakeDraining(x: Flow) {
    && x.mask && x.own == 0 && x.state != Running
    && (x.state == Stopping ==>
          x.pc != Notifying
          && (x.refs > 0 || x.checking > 0 || x.storing > 0 || x.pc == Checking || x.pc == Storing))
    && (x.state == Stopped ==> x.event || x.notifying > 0 || x.pc == Notifying)
  }

  /** What holds at every point of the Stop of a machine that was started once, if it began with nobody
      before the last access of `CompleteStopping`. A late event may end the wait early. */
  predicate WakeInv(x: Flow) {
    && Balanced(x)
    && match x.pc
       case Entering(s) => s && x.own == 1 && x.checking == 0 && x.storing == 0
       case Clearing(s) => s && x.own == 1 && x.checking == 0 && x.storing == 0 && x.state == Stopping
       case Masking(s) => s && x.own == 1 && x.checking == 0 && x.storing == 0 && x.state == Stopping
       case Dropping(s) => s && x.own == 1 && x.checking == 0 && x.storing == 0 && x.state == Stopping && x.mask
       case Checking => WakeDraining(x)
       case Storing => WakeDraining(x)
       case Notifying => WakeDraining(x)
       case Waiting => WakeDraining(x)
       case Idle => true
       case _ => false
  }

  lemma {:induction false} ReferencesKeepWake(x: Flow, a: Act)
    requires WakeInv(x) && (a.Register? || a.TakeBack? || a.Unregister?)
    ensures WakeInv(Step(x, a))
  {
  }

  lemma {:induction false} CompletersKeepWake(x: Flow, a: Act)
    requires WakeInv(x) && (a.Check? || a.Store? || a.Notify?)
    ensures WakeInv(Step(x, a))
  {
  }

  lemma {:induction false} ControlKeepsWake(x: Flow)
    requires WakeInv(x)
    ensures WakeInv(ControlStep(x))
  {
  }

  lemma {:induction false} WakeRunKeeps(x: Flow, acts: seq<Act>)
    requires WakeInv(x) && OneStop(acts)
    ensures WakeInv(Run(x, acts))
    decreases |acts|
  {
    if acts != [] {
      var a := acts[0];
      if a.Control? {
        ControlKeepsWake(x);
      } else if a.Check? || a.Store? || a.Notify? {
        CompletersKeepWake(x, a);
      } else {
        ReferencesKeepWake(x, a);
      }
      WakeRunKeeps(Step(x, acts[0]), acts[1..]);
    }
  }

  /** All threads go through `CompleteStopping`. */
  lemma {:induction false} AllLeave(x: Flow, y: Flow) returns (z: Flow)
    requires Leads(x, y) && y.pc != Overdrawn
    ensures Leads(x, z) && NoCompleter(z)
    ensures z == y.(event := z.event, state := z.state, checking := 0, storing := 0, notifying := 0)
    ensures y.state == Stopped ==> z.state == Stopped
    decreases 3 * y.checking + 2 * y.storing + y.notifying
  {
    if NoCompleter(y) {
      z := y;
    } else {
      var a := if y.storing > 0 then Store else if y.checking > 0 then Check else Notify;
      Then(x, y, a);
      z := AllLeave(x, Step(y, a));
    }
  }

  /** Everything registered is released while the controlling thread still holds a reference. */
  lemma {:induction false} AllReleased(x: Flow, y: Flow) returns (z: Flow)
    requires Leads(x, y) && Balanced(y) && y.pc != Overdrawn && (y.own > 0 || (y.held == 0 && y.bounced == 0))
    ensures Leads(x, z) && z == y.(held := 0, bounced := 0, refs := y.own)
  {
    z := y;
    if z.held > 0 {
      Then(x, z, Unregister(z.held));
      z := Step(z, Unregister(z.held));
    }
    if z.bounced > 0 {
      Then(x, z, TakeBack(z.bounced));
      z := Step(z, TakeBack(z.bounced));
    }
  }

  lemma {:induction false} ClearsAndMasks(x: Flow, y: Flow) returns (z: Flow)
    requires Leads(x, y) && y.pc.Clearing?
    ensures Leads(x, z) && z == y.(pc := Dropping(y.pc.started), event := false, mask := true)
  {
    Then(x, y, Control);
    z := Step(y, Control);
    Then(x, z, Control);
    z := Step(z, Control);
  }

  lemma {:induction false} DropsAndWaits(x: Flow, y: Flow) returns (z: Flow)
    requires Leads(x, y) && y.pc.Dropping? && y.mask && y.state == Stopped && y.refs == y.own == if y.pc.started then 1 else 0
    ensures Leads(x, z) && z == y.(pc := Waiting, refs := 0, own := 0)
  {
    Then(x, y, Control);
    z := Step(y, Control);
    Then(x, z, Control);
    z := Step(z, Control);
  }

  /** A Stop that somebody ends before it clears the event. */
  lemma {:induction false} EndedTooEarly(x: Flow, y: Flow) returns (z: Flow)
    requires Leads(x, y) && Balanced(y) && y.state == Stopped && y.pc.Clearing?
    requires if y.pc.started then y.own == 1 else y.own == y.held == y.bounced == 0
    ensures Leads(x, z) && !NotLost(z)
  {
    z := AllLeave(x, y);
    z := ClearsAndMasks(x, z);
    z := AllReleased(x, z);
    z := DropsAndWaits(x, z);
  }

  /** The interleaving in which a thread left over in `CompleteStopping` ends the Stop of a machine that
      was started once before Stop clears the event. */
  lemma {:induction false} StaleCompleterLosesWakeUp(x: Flow) returns (y: Flow)
    requires StopEntered(x) && (x.checking > 0 || x.storing > 0)
    ensures Leads(x, y) && !NotLost(y)
  {
    NoSteps(x, []);
    Then(x, x, Control);
    y := StaleStores(x, Step(x, Control));
    y := EndedTooEarly(x, y);
  }

  /** A Stop that leaves a reference of Start behind waits for ever, with nothing left to release. */
  lemma {:induction false} KeptReferenceHangs(x: Flow) returns (y: Flow)
    requires Balanced(x) && x.pc.Entering? && x.own > if x.pc.started then 1 else 0
    ensures Leads(x, y) && !NotLost(y)
  {
    NoSteps(x, []);
    Then(x, x, Control);
    y := AllLeave(x, Step(x, Control));
    y := ClearsAndMasks(x, y);
    y := AllReleased(x, y);
    Then(x, y, Control);
    y := Step(y, Control);
  }

  /** The interleaving in which a refused registration ends the Stop of a machine that owns no reference. */
  lemma {:induction false} UnstartedStopHangs(x: Flow) returns (y: Flow)
    requires Balanced(x) && x.pc == Entering(false) && x.mask && x.own == 0
    ensures Leads(x, y) && !NotLost(y)
  {
    y := RefusedWhileStopping(x);
    y := StaleStores(x, y);
    y := EndedTooEarly(x, y);
  }

  /** Items still registered are released on the way. */
  lemma {:induction false} RefusedWhileStopping(x: Flow) returns (y: Flow)
    requires Balanced(x) && x.pc == Entering(false) && x.mask && x.own == 0
    ensures Leads(x, y) && y.checking > 0
    ensures y == x.(state := Stopping, pc := Clearing(false), refs := 0, held := 0, bounced := 0, checking := y.checking)
  {
    NoSteps(x, []);
    Then(x, x, Control);
    y := HeldReleased(x, Step(x, Control));
    Then(x, y, Register(1));
    y := Step(y, Register(1));
    Then(x, y, TakeBack(y.bounced));
    y := Step(y, TakeBack(y.bounced));
  }

  lemma {:induction false} HeldReleased(x: Flow, y: Flow) returns (z: Flow)
    requires Leads(x, y) && Balanced(y) && y.pc != Overdrawn
    ensures Leads(x, z) && z == y.(held := 0, refs := y.refs - y.held, checking := z.checking)
  {
    z := y;
    if z.held > 0 {
      Then(x, z, Unregister(z.held));
      z := Step(z, Unregister(z.held));
    }
  }

  /** The references and threads with which a Stop cannot lose its wake-up. */
  predicate Wakes(x: Flow) {
    if !TakesStarted(x) then !x.config
    else x.own == 0 || (x.own == 1 && x.checking == 0 && x.storing == 0)
  }

  /** A Stop never loses its wake-up, in any interleaving, exactly when it goes the way of a started machine
      that was started once and no thread is left in `CompleteStopping` before its last access, or does not
      come to wait: because it returns at once, or releases a reference that is not its own. */
  lemma {:induction false} StopWakesIff(x: Flow)
    requires Callable(x)
    ensures (forall acts: seq<Act> :: OneStop(acts) ==> NotLost(Run(Called(x), acts))) <==> Wakes(x)
  {
    if Wakes(x) {
      forall acts: seq<Act> | OneStop(acts)
        ensures NotLost(Run(Called(x), acts))
      {
        WakesAlways(x, acts);
      }
    } else {
      var y := LosesWakeUp(x);
    }
  }

  lemma {:induction false} LosesWakeUp(x: Flow) returns (y: Flow)
    requires Callable(x) && !Wakes(x)
    ensures Leads(Called(x), y) && !NotLost(y)
  {
    if x.own > if TakesStarted(x) then 1 else 0 {
      y := KeptReferenceHangs(Called(x));
    } else if TakesStarted(x) {
      y := StaleCompleterLosesWakeUp(Called(x));
    } else {
      y := UnstartedStopHangs(Called(x));
    }
  }

  lemma {:induction false} WakesAlways(x: Flow, acts: seq<Act>)
    requires Callable(x) && Wakes(x) && OneStop(acts)
    ensures NotLost(Run(Called(x), acts))
  {
    if !TakesStarted(x) {
      StaysIdle(x, acts);
    } else if x.own == 0 {
      BorrowedRun(Called(x), acts);
    } else {
      WakeRunKeeps(Called(x), acts);
    }
  }

  lemma {:induction false} StaysIdle(x: Flow, acts: seq<Act>)
    requires x.pc == Idle && OneStop(acts)
    ensures Run(x, acts).pc == Idle
    decreases |acts|
  {
    if acts != [] {
      StaysIdle(Step(x, acts[0]), acts[1..]);
    }
  }

  // ---------------------------------------------------------------- the counter

  /** A Stop on its way to drop a reference although it owns none. */
  predicate Borrowed(x: Flow) {
    x.own == 0 && ((Entered(x.pc) && x.pc.started) || x.pc == Overdrawn)
  }

  lemma {:induction false} BorrowedStep(x: Flow, a: Act)
    requires Borrowed(x) && !a.StartCall? && !a.StopCall?
    ensures Borrowed(Step(x, a))
  {
  }

  lemma {:induction false} BorrowedRun(x: Flow, acts: seq<Act>)
    requires Borrowed(x) && OneStop(acts)
    ensures Borrowed(Run(x, acts))
    decreases |acts|
  {
    if acts != [] {
      BorrowedStep(x, acts[0]);
      BorrowedRun(Step(x, acts[0]), acts[1..]);
    }
  }

  /** A Stop that drops a reference of its own, or none. */
  predicate Paid(x: Flow) {
    Balanced(x) && x.pc != Overdrawn && (Entered(x.pc) && x.pc.started ==> x.own > 0)
  }

  lemma {:induction false} PaidRun(x: Flow, acts: seq<Act>)
    requires Paid(x) && OneStop(acts)
    ensures Paid(Run(x, acts))
    decreases |acts|
  {
    if acts != [] {
      PaidStep(x, acts[0]);
      PaidRun(Step(x, acts[0]), acts[1..]);
    }
  }

  lemma {:induction false} PaidStep(x: Flow, a: Act)
    requires Paid(x) && !a.StartCall? && !a.StopCall?
    ensures Paid(Step(x, a))
  {
  }

  /** The interleaving, with no other thread in it, in which a Stop releases a reference that is not its own. */
  lemma {:induction false} Overdraws(x: Flow) returns (y: Flow)
    requires x.pc == Entering(true) && x.own == 0
    ensures Leads(x, y) && y.pc == Overdrawn
  {
    NoSteps(x, []);
    Then(x, x, Control);
    y := ClearsAndMasks(x, Step(x, Control));
    Then(x, y, Control);
    y := Step(y, Control);
  }

  /** A Stop never releases a reference that is not its own exactly when it owns one or does not go the way
      of a started machine. */
  lemma {:induction false} StopPaysIff(x: Flow)
    requires Callable(x)
    ensures (forall acts: seq<Act> :: OneStop(acts) ==> Run(Called(x), acts).pc != Overdrawn)
       <==> x.own > 0 || !TakesStarted(x)
  {
    if x.own > 0 || !TakesStarted(x) {
      forall acts: seq<Act> | OneStop(acts)
        ensures Run(Called(x), acts).pc != Overdrawn
      {
        PaidRun(Called(x), acts);
      }
    } else {
      var y := Overdraws(Called(x));
    }
  }

  // ---------------------------------------------------------------- all of it, in every reachable state

  /** What a Stop is for. */
  predicate Good(x: Flow) { x.pc != Overdrawn && SafeAndDone(x) && NotLost(x) }

  /** Stop takes the way of a started machine that was started once, with nobody left over before the last
      access of `CompleteStopping`, and at that access only if nothing is registered or can be; or it is
      the plain machine's Stop with nothing to do. */
  predicate StopIsGood(x: Flow) {
    if TakesStarted(x) then
      x.own == 1 && x.checking == 0 && x.storing == 0 && (x.notifying == 0 || (x.mask && x.held == 0))
    else
      !x.config && x.mask && x.held == 0
  }

  ghost predicate AlwaysGood(x: Flow) {
    forall acts: seq<Act> :: OneStop(acts) ==> Good(Run(x, acts))
  }

  /** After any run of either machine, a Stop called there does what it is for, whatever the others do,
      exactly in these states. */
  lemma {:induction false} EveryStopIsGoodIff(config: bool, acts: seq<Act>)
    ensures var x := Run(New(config), acts);
            x.pc == Idle ==> (AlwaysGood(Called(x)) <==> StopIsGood(x))
  {
    RunAccounted(New(config), acts);
    var x := Run(New(config), acts);
    if x.pc == Idle {
      StopIsSafeIff(x);
      StopWakesIff(x);
      StopPaysIff(x);
    }
  }

  /** A config machine stopped by a Stop that owns no reference, from the moment its event is cleared. */
  lemma {:induction false} UnstartedAfterClear(x: Flow, acts: seq<Act>)
    requires Balanced(x) && x.pc == Masking(false) && x.state == Stopping && x.mask && x.own == 0
    requires NoCompleter(x) && !x.event && OneStop(acts)
    ensures Safe(Run(x, acts)) && NotLost(Run(x, acts))
  {
    StopRunKeeps(x, acts);
    StopInvMeans(Run(x, acts));
  }
}
