/** The flow state machine as the driver keeps it. Each method, when no other thread comes between its
    accesses, takes exactly the steps of `FlowMachine` one after the other; `flow` records them. */
module FlowObject {
  import opened FlowMachine

  /** How many steps of the controlling thread are left before it is outside or waits. */
  function StepsLeft(pc: Pc): nat {
    match pc
    case Idle => 0
    case Waiting => 0
    case Overdrawn => 0
    case Notifying => 1
    case Storing => 2
    case Checking => 3
    case Dropping(_) => 4
    case Masking(_) => 5
    case Clearing(_) => 6
    case Entering(_) => 7
    case Unmasking => 1
    case Marking => 2
    case Adding => 3
  }

  /** The controlling thread alone, until its call returns or waits for the event. */
  function UntilWaiting(x: Flow): Flow
    decreases StepsLeft(x.pc)
  {
    if StepsLeft(x.pc) == 0 then x else UntilWaiting(ControlStep(x))
  }

  lemma {:induction false} OneStepOn(x: Flow)
    requires StepsLeft(x.pc) > 0
    ensures UntilWaiting(x) == UntilWaiting(ControlStep(x))
  {
  }

  /** One other thread, through all of `CompleteStopping`. */
  function ThroughCompletion(x: Flow): Flow {
    var y := Step(x, Check);
    if x.checking > 0 && x.state == Stopping then Step(Step(y, Store), Notify) else y
  }

  /** `CompleteStopping` by the controlling thread, or by another one. */
  function Through(x: Flow, control: bool): Flow {
    if control then UntilWaiting(x) else ThroughCompletion(x)
  }

  /** The next access of the thread in `CompleteStopping`. */
  function AccessOf(x: Flow, control: bool, a: Act): Flow {
    if control then ControlStep(x) else Step(x, a)
  }

  /** Other fields than the state, the event and the places of threads stay. */
  predicate SameCounter(x: Flow, y: Flow) {
    y.config == x.config && y.refs == x.refs && y.mask == x.mask && y.pc != Overdrawn
  }

  lemma {:induction false} CheckAccess(x: Flow, control: bool)
    requires x.pc != Overdrawn && if control then x.pc == Checking else x.checking > 0
    ensures var y := AccessOf(x, control, Check);
            && SameCounter(x, y) && y.state == x.state && y.event == x.event
            && (x.state == Stopping ==> if control then y.pc == Storing else y.storing > 0)
            && (x.state != Stopping ==> y == Through(x, control))
  {
    if control {
      OneStepOn(x);
    }
  }

  lemma {:induction false} StoreAccess(y: Flow, control: bool)
    requires y.pc != Overdrawn && if control then y.pc == Storing else y.storing > 0
    ensures var z := AccessOf(y, control, Store);
            SameCounter(y, z) && z.state == Stopped && z.event == y.event
            && if control then z.pc == Notifying else z.notifying > 0
  {
  }

  lemma {:induction false} NotifyAccess(z: Flow, control: bool)
    requires z.pc != Overdrawn && if control then z.pc == Notifying else z.notifying > 0
    ensures var w := AccessOf(z, control, Notify);
            SameCounter(z, w) && w.state == z.state && w.event
  {
  }

  lemma {:induction false} ThreeAccesses(x: Flow, control: bool)
    requires x.pc != Overdrawn && x.state == Stopping && if control then x.pc == Checking else x.checking > 0
    ensures AccessOf(AccessOf(AccessOf(x, control, Check), control, Store), control, Notify) == Through(x, control)
  {
    if control {
      OneStepOn(x);
      OneStepOn(ControlStep(x));
      OneStepOn(ControlStep(ControlStep(x)));
    }
  }

  /** A release and what follows it in the same thread. */
  function Followed(x: Flow): Flow {
    if Drained(x) then ThroughCompletion(x) else x
  }

  // ---------------------------------------------------------------- each call, with nothing in between

  /** Start takes a reference, lets items in and makes the machine run, if it is stopped. */
  lemma {:induction false} StartAlone(x: Flow)
    requires x.pc == Idle
    ensures UntilWaiting(Step(x, StartCall))
         == if x.state == Stopped then x.(refs := x.refs + 1, own := x.own + 1, state := Running, mask := false) else x
  {
    var y := Step(x, StartCall);
    if x.state == Stopped {
      OneStepOn(y);
      OneStepOn(ControlStep(y));
      OneStepOn(ControlStep(ControlStep(y)));
    }
  }

  /** The controlling thread sees the counter: it ends the stop if only the mask is left, and waits. */
  function SeesCounter(x: Flow): Flow {
    if x.mask && x.refs == 0 && x.state == Stopping then x.(state := Stopped, event := true, pc := Waiting)
    else x.(pc := Waiting)
  }

  lemma {:induction false} ChecksAlone(x: Flow)
    requires x.pc == Checking
    ensures UntilWaiting(x) == if x.state == Stopping then x.(state := Stopped, event := true, pc := Waiting) else x.(pc := Waiting)
  {
    OneStepOn(x);
    if x.state == Stopping {
      OneStepOn(ControlStep(x));
      OneStepOn(ControlStep(ControlStep(x)));
    }
  }

  lemma {:induction false} DropsAlone(x: Flow)
    requires x.pc.Dropping? && (x.pc.started ==> x.own > 0 && x.refs > 0)
    ensures UntilWaiting(x) == SeesCounter(if x.pc.started then x.(refs := x.refs - 1, own := x.own - 1) else x)
  {
    OneStepOn(x);
    if ControlStep(x).pc == Checking {
      ChecksAlone(ControlStep(x));
    }
  }

  /** Stop of a plain machine that does not run does nothing. Otherwise it clears the event, lets no items in,
      drops the reference of Start unless the config machine is stopped, and sees the counter. */
  lemma {:induction false} StopAlone(x: Flow)
    requires x.pc == Idle && (TakesStarted(x) ==> x.own > 0 && x.refs > 0)
    ensures UntilWaiting(Step(x, StopCall))
         == if !x.config && x.state != Running then x
            else
              var y := x.(state := Stopping, event := false, mask := true);
              SeesCounter(if x.state != Stopped then y.(refs := x.refs - 1, own := x.own - 1) else y)
  {
    if x.config || x.state == Running {
      var y := Step(x, StopCall);
      OneStepOn(y);
      OneStepOn(ControlStep(y));
      OneStepOn(ControlStep(ControlStep(y)));
      DropsAlone(ControlStep(ControlStep(ControlStep(y))));
    }
  }

  /** A registration is taken unless the mask is set; then nothing is left of it, except that it ends a stop
      under way if it sees only the mask. */
  lemma {:induction false} RegisterAlone(x: Flow, n: nat)
    requires n > 0 && x.pc != Overdrawn && NoCompleter(x)
    ensures !x.mask ==> Step(x, Register(n)) == x.(refs := x.refs + n, held := x.held + n)
    ensures x.mask ==>
              Followed(Step(Step(x, Register(n)), TakeBack(n)))
              == if x.refs == 0 && x.state == Stopping then x.(state := Stopped, event := true) else x
  {
  }

  /** A release of registered items ends a stop under way exactly if it leaves only the mask. */
  lemma {:induction false} UnregisterAlone(x: Flow, n: nat)
    requires 0 < n <= x.held && n <= x.refs && x.pc != Overdrawn && NoCompleter(x)
    ensures var y := x.(refs := x.refs - n, held := x.held - n);
            Followed(Step(x, Unregister(n)))
            == if x.mask && x.refs == n && x.state == Stopping then y.(state := Stopped, event := true) else y
  {
  }

  /** `CFlowStateMachine`, or `CConfigFlowStateMachine` if `config`. `counter` is `m_Counter` with its mask
      bit, `event` is `m_NoOutstandingItems`. */
  class FlowStateMachine {
    const config: bool
    var counter: nat
    var state: FlowState
    var event: bool
    ghost var flow: Flow

    ghost predicate Valid()
      reads this
    {
      && counter == Value(flow) && flow.refs < STOPPED_MASK
      && state == flow.state && event == flow.event && config == flow.config
      && flow.pc != Overdrawn
    }

    constructor (config: bool)
      ensures Valid() && flow == New(config)
    {
      this.config := config;
      counter, state, event := STOPPED_MASK, Stopped, false;
      flow := New(config);
    }

    /** The next access of the controlling thread. */
    ghost method Advance()
      requires StepsLeft(flow.pc) > 0
      modifies this`flow
      ensures flow == ControlStep(old(flow)) && UntilWaiting(flow) == UntilWaiting(old(flow))
    {
      OneStepOn(flow);
      flow := ControlStep(flow);
    }

    /** `Start`. */
    method Start()
      requires Valid() && flow.pc == Idle && flow.refs + 1 < STOPPED_MASK
      modifies this
      ensures Valid() && flow == UntilWaiting(Step(old(flow), StartCall))
    {
      flow := Step(flow, StartCall);
      if state != Stopped {
        return;
      }
      counter := counter + 1;
      Advance();
      state := Running;
      Advance();
      counter := counter % STOPPED_MASK;
      Advance();
    }

    /** `Stop` of either machine, up to its wait. */
    method Stop()
      requires Valid() && flow.pc == Idle && Balanced(flow) && (TakesStarted(flow) ==> flow.own > 0)
      modifies this
      ensures Valid() && flow == UntilWaiting(Step(old(flow), StopCall))
    {
      flow := Step(flow, StopCall);
      if !config && state != Running {
        return;
      }
      var started := state != Stopped;
      state := Stopping;
      Advance();
      event := false;
      Advance();
      MaskAndDrop(started);
    }

    /** The second half of `Stop`: the mask, and the reference that `Start` took. */
    method MaskAndDrop(started: bool)
      requires Valid() && flow.pc == Masking(started) && (started ==> flow.refs > 0 && flow.own > 0)
      modifies this
      ensures Valid() && flow == UntilWaiting(old(flow))
    {
      SetMask();
      Advance();
      if started {
        counter := counter - 1;
      }
      Advance();
      MaskTests(flow);
      if counter == STOPPED_MASK {
        CompleteStopping(true);
      }
    }

    method SetMask()
      requires counter < 2 * STOPPED_MASK
      modifies this`counter
      ensures counter == old(counter) % STOPPED_MASK + STOPPED_MASK
    {
      if counter / STOPPED_MASK == 0 {
        counter := counter + STOPPED_MASK;
      }
    }

    /** `CompleteStopping`, by the controlling thread or by another one that has just brought the counter
        to the bare mask. */
    method CompleteStopping(ghost control: bool)
      requires Valid() && if control then flow.pc == Checking else flow.checking > 0
      modifies this`state, this`event, this`flow
      ensures Valid() && flow == Through(old(flow), control)
    {
      ghost var x := flow;
      CheckAccess(x, control);
      flow := AccessOf(flow, control, Check);
      if state == Stopping {
        ThreeAccesses(x, control);
        StoreAccess(flow, control);
        state := Stopped;
        flow := AccessOf(flow, control, Store);
        NotifyAccess(flow, control);
        event := true;
        flow := AccessOf(flow, control, Notify);
      }
    }

    /** `RegisterOutstandingItems`: refused exactly when the mask is set. */
    method RegisterOutstandingItems(n: nat) returns (ok: bool)
      requires Valid() && n > 0 && flow.refs + n < STOPPED_MASK
      modifies this
      ensures Valid() && (ok <==> !old(flow).mask)
      ensures var y := Step(old(flow), Register(n));
              flow == if ok then y else Followed(Step(y, TakeBack(n)))
    {
      counter := counter + n;
      flow := Step(flow, Register(n));
      MaskTests(flow);
      if (counter / STOPPED_MASK) % 2 == 1 {
        counter := counter - n;
        flow := Step(flow, TakeBack(n));
        MaskTests(flow);
        if counter == STOPPED_MASK {
          CompleteStopping(false);
        }
        return false;
      }
      ok := true;
    }

    /** `UnregisterOutstandingItems` with `CheckCompletion`. */
    method UnregisterOutstandingItems(n: nat)
      requires Valid() && 0 < n <= flow.held && Balanced(flow)
      modifies this
      ensures Valid() && flow == Followed(Step(old(flow), Unregister(n)))
    {
      counter := counter - n;
      flow := Step(flow, Unregister(n));
      MaskTests(flow);
      if counter == STOPPED_MASK {
        CompleteStopping(false);
      }
    }
  }
}
