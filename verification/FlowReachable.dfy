/** Runs from the initial state of a flow state machine to states in which a Stop must not be called. */
module FlowReachable {
  import opened FlowMachine
  import opened FlowTheorems

  ghost predicate Reaches(c: Flow, x: Flow) {
    exists acts: seq<Act> :: Run(c, acts) == x
  }

  lemma {:induction false} EmptyRun(c: Flow, acts: seq<Act>)
    requires acts == []
    ensures Reaches(c, c)
  {
    assert Run(c, acts) == c;
  }

  lemma {:induction false} ReachesNext(c: Flow, x: Flow, a: Act) returns (y: Flow)
    requires Reaches(c, x)
    ensures y == Step(x, a) && Reaches(c, y)
  {
    var acts: seq<Act> :| Run(c, acts) == x;
    RunAppend(c, acts, a);
    y := Step(x, a);
    assert Run(c, acts + [a]) == y;
  }

  // ---------------------------------------------------------------- stretches of a run

  /** A registration that is refused takes its reference back and sees the bare mask. */
  lemma {:induction false} Refused(c: Flow, x: Flow) returns (y: Flow)
    requires Reaches(c, x) && x.mask && x.refs == 0 && x.bounced == 0 && x.pc != Overdrawn
    ensures Reaches(c, y) && y == x.(checking := x.checking + 1)
  {
    y := ReachesNext(c, x, Register(1));
    y := ReachesNext(c, y, TakeBack(1));
  }

  lemma {:induction false} Controls(c: Flow, x: Flow) returns (y: Flow)
    requires Reaches(c, x) && x.pc != Overdrawn
    ensures Reaches(c, y) && y == ControlStep(x)
  {
    y := ReachesNext(c, x, Control);
  }

  lemma {:induction false} Starts(c: Flow, x: Flow) returns (y: Flow)
    requires Reaches(c, x) && x.pc == Idle && x.state == Stopped
    ensures Reaches(c, y) && y == x.(state := Running, mask := false, refs := x.refs + 1, own := x.own + 1)
  {
    y := ReachesNext(c, x, StartCall);
    y := Controls(c, y);
    y := Controls(c, y);
    y := Controls(c, y);
  }

  /** A Stop up to the place where it sees the counter. */
  lemma {:induction false} Drops(c: Flow, x: Flow) returns (y: Flow)
    requires Reaches(c, x) && x.pc == Entering(true) && x.own == 1 && x.refs > 0
    ensures Reaches(c, y)
    ensures y == x.(state := Stopping, event := false, mask := true, refs := x.refs - 1, own := 0,
                    pc := if x.refs == 1 then Checking else Waiting)
  {
    y := Controls(c, x);
    y := Controls(c, y);
    y := Controls(c, y);
    y := Controls(c, y);
  }

  /** A thread in `CompleteStopping` sees the state Stopping. */
  lemma {:induction false} Checks(c: Flow, x: Flow) returns (y: Flow)
    requires Reaches(c, x) && x.state == Stopping && x.checking > 0 && x.pc != Overdrawn
    ensures Reaches(c, y) && y == x.(checking := x.checking - 1, storing := x.storing + 1)
  {
    y := ReachesNext(c, x, Check);
  }

  lemma {:induction false} Stores(c: Flow, x: Flow) returns (y: Flow)
    requires Reaches(c, x) && x.storing > 0 && x.pc != Overdrawn
    ensures Reaches(c, y) && y == x.(state := Stopped, storing := x.storing - 1, notifying := x.notifying + 1)
  {
    y := ReachesNext(c, x, Store);
  }

  /** The controlling thread completes the stop itself. */
  lemma {:induction false} Completes(c: Flow, x: Flow) returns (y: Flow)
    requires Reaches(c, x) && x.pc == Checking && x.state == Stopping
    ensures Reaches(c, y) && y == x.(state := Stopped, event := true, pc := Idle)
  {
    y := Controls(c, x);
    y := Controls(c, y);
    assert y == x.(state := Stopped, pc := Notifying);
    y := Controls(c, y);
    y := Controls(c, y);
  }

  /** Another thread sets the event, and Stop returns. */
  lemma {:induction false} Notified(c: Flow, x: Flow) returns (y: Flow)
    requires Reaches(c, x) && x.pc == Waiting && x.notifying > 0
    ensures Reaches(c, y) && y == x.(event := true, notifying := x.notifying - 1, pc := Idle)
  {
    y := ReachesNext(c, x, Notify);
    y := ReachesNext(c, y, Control);
  }

  // ---------------------------------------------------------------- states in which a Stop goes wrong

  /** A registration refused before the first Start is held up in `CompleteStopping`; Start and a registration
      follow. */
  lemma {:induction false} StaleCompleterIsReachable(c: Flow) returns (x: Flow)
    requires c == New(c.config)
    ensures Reaches(c, x) && x == Flow(c.config, Running, false, 2, false, Idle, 1, 1, 0, 1, 0, 0)
    ensures !StopIsGood(x)
  {
    EmptyRun(c, []);
    x := Refused(c, c);
    x := Starts(c, x);
    x := ReachesNext(c, x, Register(1));
  }

  /** A Stop completes while another thread is between its test and its store. */
  lemma {:induction false} StoppedWhileStoring(c: Flow) returns (x: Flow)
    requires c == New(c.config)
    ensures Reaches(c, x) && x == Flow(c.config, Stopped, true, 0, true, Idle, 0, 0, 0, 0, 1, 0)
  {
    EmptyRun(c, []);
    x := Starts(c, c);
    x := ReachesNext(c, x, StopCall);
    x := Drops(c, x);
    x := Refused(c, x);
    x := Checks(c, x);
    x := Completes(c, x);
  }

  /** The store comes after the next Start: the machine is started, an item is registered, nobody is in
      `CompleteStopping`, and the state says Stopped. The plain machine's Stop returns at once, the config
      machine's waits without dropping its reference. */
  lemma {:induction false} StoredOverIsReachable(c: Flow) returns (x: Flow)
    requires c == New(c.config)
    ensures Reaches(c, x) && x == Flow(c.config, Stopped, false, 2, true, Idle, 1, 1, 0, 0, 0, 0)
    ensures NoCompleter(x) && !StopIsGood(x)
  {
    x := StoppedWhileStoring(c);
    x := Starts(c, x);
    x := ReachesNext(c, x, Register(1));
    x := Stores(c, x);
    x := ReachesNext(c, x, Notify);
  }

  /** From there the machine can be started again, so that one Stop does not drop all references. */
  lemma {:induction false} StartedTwiceIsReachable(c: Flow) returns (x: Flow)
    requires c == New(c.config)
    ensures Reaches(c, x) && x == Flow(c.config, Running, false, 3, true, Idle, 2, 1, 0, 0, 0, 0)
    ensures NoCompleter(x) && !StopIsGood(x)
  {
    x := StoredOverIsReachable(c);
    x := Starts(c, x);
  }

  /** Two refused registrations end the first Stop; one of them has not set the event yet. */
  lemma {:induction false} NotifiedLate(c: Flow) returns (x: Flow)
    requires c == New(c.config)
    ensures Reaches(c, x) && x == Flow(c.config, Stopped, true, 0, true, Idle, 0, 0, 0, 0, 0, 1)
  {
    x := BothStored(c);
    x := ReachesNext(c, x, Control);
    x := Notified(c, x);
  }

  lemma {:induction false} BothStored(c: Flow) returns (x: Flow)
    requires c == New(c.config)
    ensures Reaches(c, x) && x == Flow(c.config, Stopped, true, 0, false, Checking, 0, 0, 0, 0, 0, 2)
  {
    x := BothChecking(c);
    x := Checks(c, x);
    x := Checks(c, x);
    x := Stores(c, x);
    x := Stores(c, x);
  }

  lemma {:induction false} BothChecking(c: Flow) returns (x: Flow)
    requires c == New(c.config)
    ensures Reaches(c, x) && x == Flow(c.config, Stopping, true, 0, false, Checking, 0, 0, 0, 2, 0, 0)
  {
    EmptyRun(c, []);
    x := Starts(c, c);
    x := ReachesNext(c, x, StopCall);
    x := Drops(c, x);
    x := Refused(c, x);
    x := Refused(c, x);
  }

  /** It sets the event during the second Stop, which returns early: its reference is gone, an item is
      registered, and the state says Stopping. A config machine's Stop then releases a reference that is not
      its own. */
  lemma {:induction false} ReturnedEarlyIsReachable(c: Flow) returns (x: Flow)
    requires c == New(c.config)
    ensures Reaches(c, x) && x == Flow(c.config, Stopping, true, 1, true, Idle, 0, 1, 0, 0, 0, 0)
    ensures c.config ==> TakesStarted(x) && !StopIsGood(x)
  {
    x := NotifiedLate(c);
    x := Starts(c, x);
    x := ReachesNext(c, x, Register(1));
    x := ReachesNext(c, x, StopCall);
    x := Drops(c, x);
    x := Notified(c, x);
  }

  /** The state in which a config machine is created: its Stop can lose its wake-up. */
  lemma {:induction false} UnstartedIsReachable(c: Flow)
    requires c == New(true)
    ensures Reaches(c, c) && c.pc == Idle && !Wakes(c) && !AlwaysGood(Called(c))
  {
    EmptyRun(c, []);
    EveryStopIsGoodIff(true, []);
  }
}
