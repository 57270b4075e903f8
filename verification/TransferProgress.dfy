/** Whether a transfer comes to an end. The driver waits for some of the interrupts, and clears
  * the error bits of the others.
  */
module TransferProgress {
  import opened Machine
  import opened Packets
  import opened TransferProtocol
  import opened TransferSafety
  import opened TransferResults

  predicate Over(pc: Pc) {
    pc == Done || pc.Failed?
  }

  /** The hardware has stopped on an error that does not wake the driver, and nothing else will. */
  predicate Unheard(c: Config, s: State) {
    s.error.Some? && !Rousing(s.error.value) && s.done == 0 && !c.others
  }

  /** A waiting driver that the hardware, having stopped on an error, will never tell: the error
    * has been cleared unseen, or is going to be.
    */
  predicate Stuck(c: Config, s: State) {
    s.halted && !s.complete && (s.error == None || Unheard(c, s))
  }

  // ---- what ends a wait ----

  /** Which errors are reported, by name. A stall or a timeout ends the wait with that error,
    * whatever else is shown; so does any other error if a completed buffer happens to be shown
    * as well; and if none is, the error is cleared and the driver waits on.
    */
  lemma ErrorsReported(c: Config, s: State)
    requires s.pc == Await && !s.complete && s.error.Some?
    ensures s.error.value == Timeout || s.error.value == Stall || s.done > 0 || s.stray ==>
      DriverStep(c, DriverStep(c, DriverStep(c, s))).pc == Failed(s.error.value)
    ensures s.error.value in {Overflow, BitStuffError, CrcError, DataSeqError} && s.done == 0 && !s.stray ==>
      DriverStep(c, DriverStep(c, s)) == s.(error := None)
  {
    hide TryPrepare, TryRetire;
  }

  /** A completed transfer ends the wait; with nothing to show for itself it does not end; and a
    * completed buffer takes the driver once round its loop.
    */
  lemma WaitEnds(c: Config, s: State)
    requires s.pc == Await
    ensures s.complete ==> DriverStep(c, DriverStep(c, DriverStep(c, s))).pc == Finish1
    ensures !s.complete && s.error == None && s.done == 0 && !s.stray ==> DriverStep(c, DriverStep(c, s)) == s
    ensures !s.complete && s.error == None && (s.done > 0 || s.stray) ==>
      DriverStep(c, DriverStep(c, DriverStep(c, s))).pc == Retire1
  {
    hide TryPrepare, TryRetire;
  }

  // ---- stuck for good ----

  /** What being stuck looks like wherever the driver is in its loop. */
  predicate Doomed(c: Config, s: State) {
    && s.halted && !s.complete && (s.stray ==> c.others)
    && match s.pc
       case Await => Stuck(c, s)
       case Polled(complete, status) => !complete && ((s.error == None && status == None) || Unheard(c, s))
       case Woken(complete, status) => !complete && status == None && s.error == None
       case Finish1 => false
       case Finish2 => false
       case Done => false
       case Failed(_) => false
       case _ => s.error == None
  }

  /** What the driver's steps leave alone, and where they lead. */
  lemma PrepareFrame(c: Config, s: State, next: Pc)
    ensures var s' := TryPrepare(c, s, next); Framed(s, s') && (s'.pc == Panicked || s'.pc == next)
  {
    hide Prepare, TryPrepare;
    TryPrepareIs(c, s, next);
  }

  lemma DoomedStep(c: Config, s: State)
    requires Doomed(c, s)
    ensures Doomed(c, DriverStep(c, s))
  {
    hide TryPrepare, TryRetire;
    match s.pc
    case Prepare1 => PrepareFrame(c, s, Prepare2);
    case Prepare2 => PrepareFrame(c, s, Pc.Arm);
    case Retire1 => RetireFrame(c, s, Retire2, 1);
    case Retire2 => RetireFrame(c, s, Prepare1, 1);
    case _ =>
  }

  lemma DoomedStays(c: Config, s: State, s': State)
    requires Doomed(c, s) && Next(c, s, s')
    ensures Doomed(c, s')
  {
    hide DriverStep, Receive, Transmit;
    if s' == DriverStep(c, s) {
      DoomedStep(c, s);
    }
  }

  lemma NextAt(c: Config, run: seq<State>, i: nat)
    requires Run(c, c.toggle, run) && i + 1 < |run|
    ensures Next(c, run[i], run[i + 1])
  {
    hide Next, Init;
  }

  lemma {:induction false} DoomedForever(c: Config, run: seq<State>, i: nat, j: nat)
    requires Run(c, c.toggle, run) && i <= j < |run| && Doomed(c, run[i])
    ensures Doomed(c, run[j])
  {
    hide Next, Run, Doomed;
    if i < j {
      DoomedForever(c, run, i, j - 1);
      NextAt(c, run, j - 1);
      DoomedStays(c, run[j - 1], run[j]);
    }
  }

  // ---- what every run keeps ----

  /** An error is shown only once the hardware has stopped, and other endpoints only if any. */
  predicate Plausible(c: Config, s: State) {
    && (s.error.Some? ==> s.halted)
    && (s.stray ==> c.others)
  }

  lemma DriverPlausible(c: Config, s: State)
    requires Plausible(c, s)
    ensures Plausible(c, DriverStep(c, s))
  {
    hide TryPrepare, TryRetire;
    match s.pc
    case Prepare1 => PrepareFrame(c, s, Prepare2);
    case Prepare2 => PrepareFrame(c, s, Pc.Arm);
    case Retire1 => RetireFrame(c, s, Retire2, 1);
    case Retire2 => RetireFrame(c, s, Prepare1, 1);
    case Finish1 => RetireFrame(c, s, Finish2, 1);
    case Finish2 => RetireFrame(c, s, Done, 0);
    case _ =>
  }

  lemma HardwarePlausible(c: Config, s: State, s': State)
    requires Plausible(c, s) && HardwareNext(c, s, s')
    ensures Plausible(c, s')
  {
    hide Slot.Received, Slot.Sent, Completed;
  }

  lemma {:induction false} RunPlausible(c: Config, run: seq<State>, i: nat)
    requires Run(c, c.toggle, run) && i < |run|
    ensures Plausible(c, run[i])
  {
    if i > 0 {
      hide Run, Next, Plausible;
      RunPlausible(c, run, i - 1);
      NextAt(c, run, i - 1);
      NextPlausible(c, run[i - 1], run[i]);
    }
  }

  lemma NextPlausible(c: Config, s: State, s': State)
    requires Plausible(c, s) && Next(c, s, s')
    ensures Plausible(c, s')
  {
    hide DriverStep, HardwareNext;
    if s' == DriverStep(c, s) {
      DriverPlausible(c, s);
    } else if HardwareNext(c, s, s') {
      HardwarePlausible(c, s, s');
    }
  }

  // ---- continuations ----

  ghost predicate Continues(c: Config, run: seq<State>, run': seq<State>) {
    Run(c, c.toggle, run') && run <= run' && |run'| > 0
  }

  ghost function Last(run: seq<State>): State
    requires |run| > 0
  {
    run[|run| - 1]
  }

  /** A run with one more driver step. */
  lemma Stepped(c: Config, run: seq<State>) returns (run': seq<State>)
    requires Runnable(c) && Run(c, c.toggle, run) && |run| > 0 && !IndexesPastEnd(c)
    ensures Continues(c, run, run')
    ensures Last(run') == DriverStep(c, Last(run)) && Last(run').pc != Panicked
  {
    hide DriverStep, Run;
    run' := run + [DriverStep(c, run[|run| - 1])];
    RunExtends(c, c.toggle, run, DriverStep(c, run[|run| - 1]));
    PanicsOnly(c, run', |run'| - 1);
  }

  /** A run in which the hardware then fails. */
  lemma Faulted(c: Config, run: seq<State>, e: UsbError) returns (run': seq<State>)
    requires Run(c, c.toggle, run) && |run| > 0 && Ready(Last(run)) && e != DataSeqError
    ensures Continues(c, run, run')
    ensures Last(run') == Last(run).(error := Some(e), halted := true)
  {
    hide Run, DriverStep, Receive, Transmit;
    var s' := Last(run).(error := Some(e), halted := true);
    assert HardwareNext(c, run[|run| - 1], s');
    RunExtends(c, c.toggle, run, s');
    run' := run + [s'];
  }

  /** A run in which another endpoint's completion then shows, or no longer does. */
  lemma Strayed(c: Config, run: seq<State>, stray: bool) returns (run': seq<State>)
    requires Run(c, c.toggle, run) && |run| > 0 && c.others
    ensures Continues(c, run, run') && Last(run') == Last(run).(stray := stray)
  {
    hide Run, DriverStep, HardwareNext;
    var s' := Last(run).(stray := stray);
    assert OthersNext(c, run[|run| - 1], s');
    RunExtends(c, c.toggle, run, s');
    run' := run + [s'];
  }

  /** A run in which the device then takes, or fills, the slot the hardware is on. */
  lemma Processes(c: Config, run: seq<State>) returns (run': seq<State>)
    requires Runnable(c) && Run(c, c.toggle, run) && |run| > 0 && Ready(Last(run))
    ensures Continues(c, run, run')
    ensures var s, s' := Last(run), Last(run');
      && s'.pc == s.pc && !s'.halted && s'.error == s.error
      && |s'.sent| == |s.sent| + 1 && s'.retired == s.retired
  {
    var s := Last(run);
    PidsInStep(c, run, |run| - 1);
    hide Run, DriverStep, Slot.Received, Slot.Sent, Slot.Payload, Completed;
    var data := seq(s.regs.Get(s.hwSlot).length, _ => 0);
    var s' := if c.dir == In then Receive(c, s, data) else Transmit(c, s);
    assert HardwareNext(c, s, s');
    RunExtends(c, c.toggle, run, s');
    run' := run + [s'];
  }

  /** From the wait to the end of it, once something rouses the driver. */
  lemma WakesUp(c: Config, run: seq<State>) returns (run': seq<State>)
    requires Runnable(c) && Run(c, c.toggle, run) && |run| > 0 && !IndexesPastEnd(c)
    requires Last(run).pc == Await && Roused(Last(run))
    ensures Continues(c, run, run')
    ensures var s := Last(run);
      Last(run') == s.(pc := After(s.complete, s.error), error := None, done := Acknowledged(s.done))
  {
    hide Run, Runnable, IndexesPastEnd, DriverStep;
    var s := Last(run);
    WakeSteps(c, s);
    run' := Stepped(c, run);
    run' := Stepped(c, run');
    run' := Stepped(c, run');
  }

  lemma WakeSteps(c: Config, s: State)
    requires s.pc == Await && Roused(s)
    ensures DriverStep(c, DriverStep(c, DriverStep(c, s)))
         == s.(pc := After(s.complete, s.error), error := None, done := Acknowledged(s.done))
  {
    hide TryPrepare, TryRetire;
  }

  /** A driver that finds the transfer complete ends it. */
  lemma Finishes(c: Config, run: seq<State>) returns (run': seq<State>)
    requires Runnable(c) && Run(c, c.toggle, run) && |run| > 0 && !IndexesPastEnd(c)
    requires Last(run).pc == Await && Last(run).complete
    ensures Continues(c, run, run') && Last(run').pc == Done
  {
    hide Run, Runnable, IndexesPastEnd, DriverStep;
    run' := WakesUp(c, run);
    FinishStep(c, Last(run'));
    run' := Stepped(c, run');
    FinishStep(c, Last(run'));
    run' := Stepped(c, run');
  }

  lemma FinishStep(c: Config, s: State)
    ensures s.pc == Finish1 ==> DriverStep(c, s).pc == Finish2 || DriverStep(c, s).pc == Panicked
    ensures s.pc == Finish2 ==> DriverStep(c, s).pc == Done || DriverStep(c, s).pc == Panicked
  {
    hide TryPrepare, TryRetire;
    if s.pc == Finish1 {
      RetireFrame(c, s, Finish2, 1);
    } else if s.pc == Finish2 {
      RetireFrame(c, s, Done, 0);
    }
  }

  /** The rest of the loop, and back to the wait. */
  lemma Rounds(c: Config, run: seq<State>) returns (run': seq<State>)
    requires Runnable(c) && Run(c, c.toggle, run) && |run| > 0 && !IndexesPastEnd(c)
    requires Last(run).pc == Retire1 && Last(run).error == None
    ensures Continues(c, run, run')
    ensures var s, s' := Last(run), Last(run');
      && s'.pc == Await && s'.error == None && s'.halted == s.halted && s'.complete == s.complete
      && s'.sent == s.sent && s'.stray == s.stray && s'.done == Acknowledged(s.done)
      && |s'.retired| >= |s.retired| + (if |s.retired| < |s.sent| then 1 else 0)
  {
    hide Run, Runnable, IndexesPastEnd, DriverStep;
    RetireSucceeds(c, run);
    RoundStep(c, Last(run));
    run' := Stepped(c, run);
    RoundStep(c, Last(run'));
    run' := Stepped(c, run');
    RoundStep(c, Last(run'));
    run' := Stepped(c, run');
    RoundStep(c, Last(run'));
    run' := Stepped(c, run');
    RoundStep(c, Last(run'));
    run' := Stepped(c, run');
  }

  /** What the steps outside the wait do. */
  lemma RoundStep(c: Config, s: State)
    ensures var s' := DriverStep(c, s);
      && (s.pc in {Retire1, Retire2, Prepare1, Prepare2} ==> Framed(s, s'))
      && (s.pc == Retire1 ==> s'.pc == Retire2 || s'.pc == Panicked)
      && (s.pc == Retire2 ==> s'.pc == Prepare1 || s'.pc == Panicked)
      && (s.pc == Prepare1 ==> s'.pc == Prepare2 || s'.pc == Panicked)
      && (s.pc == Prepare2 ==> s'.pc == Pc.Arm || s'.pc == Panicked)
      && (s.pc == Pc.Arm ==> s' == s.(pc := Await, started := true, error := None, done := Acknowledged(s.done)))
  {
    hide TryPrepare, TryRetire;
    match s.pc
    case Prepare1 => PrepareFrame(c, s, Prepare2);
    case Prepare2 => PrepareFrame(c, s, Pc.Arm);
    case Retire1 => RetireFrame(c, s, Retire2, 1);
    case Retire2 => RetireFrame(c, s, Prepare1, 1);
    case _ =>
  }

  /** A packet that has been processed is retired by the next step that tries to. */
  lemma RetireSucceeds(c: Config, run: seq<State>)
    requires Runnable(c) && Run(c, c.toggle, run) && |run| > 0 && Last(run).pc == Retire1
    ensures var s := Last(run);
      |s.retired| < |s.sent| ==> |DriverStep(c, s).retired| == |s.retired| + 1
  {
    var s := Last(run);
    RunKeeps(c, run, |run| - 1);
    hide Run, Inv, TryRetire, TryPrepare;
    if |s.retired| < |s.sent| {
      RetireTakes(c, PlanOf(c), s, Retire2, 1);
    }
  }

  // ---- the end ----

  /** From any wait in which the hardware has not stopped, the transfer can still succeed: the
    * hardware works on, or what it has done is seen and retired.
    */
  lemma {:induction false} CanSucceed(c: Config, run: seq<State>) returns (run': seq<State>)
    requires Runnable(c) && Run(c, c.toggle, run) && |run| > 0 && !IndexesPastEnd(c)
    requires Last(run).pc == Await && (Last(run).complete || !Last(run).halted)
    ensures Continues(c, run, run') && Last(run').pc == Done
    decreases |PlanOf(c)| - |Last(run).sent|, |Last(run).sent| - |Last(run).retired|
  {
    var s := Last(run);
    hide Run, Runnable, IndexesPastEnd, DriverStep, PlanOf;
    SentBound(c, run);
    if s.complete {
      run' := Finishes(c, run);
    } else {
      NeverStuck(c, run, |run| - 1);
      RunPlausible(c, run, |run| - 1);
      if Ready(s) {
        run' := Processes(c, run);
      } else {
        run' := WakesUp(c, run);
        run' := Rounds(c, run');
      }
      SentBound(c, run');
      run' := CanSucceed(c, run');
    }
  }

  lemma SentBound(c: Config, run: seq<State>)
    requires Runnable(c) && Run(c, c.toggle, run) && |run| > 0
    ensures |Last(run).retired| <= |Last(run).sent| <= |PlanOf(c)|
  {
    RunKeeps(c, run, |run| - 1);
    hide Run, PlanOf, Window, Moved, Retired, Completes, Tracks, Control;
  }

  /** A driver that sees an error fails. */
  lemma Fails(c: Config, run: seq<State>) returns (run': seq<State>)
    requires Runnable(c) && Run(c, c.toggle, run) && |run| > 0 && !IndexesPastEnd(c)
    requires var s := Last(run);
      s.pc == Await && !s.complete && s.error.Some? && (Roused(s) || c.others)
    ensures Continues(c, run, run') && Last(run').pc == Failed(Last(run).error.value)
  {
    hide Run, Runnable, IndexesPastEnd, DriverStep;
    run' := run;
    if !Roused(Last(run)) {
      run' := Strayed(c, run, true);
    }
    run' := WakesUp(c, run');
  }

  /** A waiting driver is stuck for good if and only if the hardware has stopped on an error
    * that has been cleared unseen, or that `poll` ignores with nothing else to wake it. In any
    * other wait the transfer can still end: with success if the hardware has not stopped.
    */
  lemma StuckExactly(c: Config, run: seq<State>)
    requires Runnable(c) && Run(c, c.toggle, run) && |run| > 0 && !IndexesPastEnd(c)
    requires Last(run).pc == Await
    ensures Stuck(c, Last(run))
      <==> forall run': seq<State> :: Continues(c, run, run') ==> !Over(Last(run').pc)
  {
    var s := Last(run);
    RunPlausible(c, run, |run| - 1);
    hide Run, Runnable, IndexesPastEnd;
    if Stuck(c, s) {
      forall run': seq<State> | Continues(c, run, run')
        ensures !Over(Last(run').pc)
      {
        DoomedForever(c, run', |run| - 1, |run'| - 1);
      }
    } else if s.complete || !s.halted {
      var run' := CanSucceed(c, run);
      assert Over(Last(run').pc);
    } else {
      var run' := Fails(c, run);
      assert Over(Last(run').pc);
    }
  }

  // ---- getting stuck ----

  /** With nothing sent yet, a driver woken for nothing comes back to wait, until nothing wakes it. */
  lemma {:induction false} Settles(c: Config, run: seq<State>) returns (run': seq<State>)
    requires Runnable(c) && Run(c, c.toggle, run) && |run| > 0 && !IndexesPastEnd(c)
    requires var s := Last(run);
      s.pc == Await && !s.complete && !s.halted && s.error == None && s.sent == [] && !s.stray
    ensures Continues(c, run, run')
    ensures var s' := Last(run');
      s'.pc == Await && !s'.complete && !s'.halted && s'.error == None && s'.sent == [] && !s'.stray && s'.done == 0
    decreases Last(run).done
  {
    hide Run, Runnable, IndexesPastEnd, DriverStep;
    if Last(run).done == 0 {
      run' := run;
    } else {
      run' := WakesUp(c, run);
      run' := Rounds(c, run');
      run' := Settles(c, run');
    }
  }

  /** Any transfer that can be indexed can get stuck: its first packet fails with a CRC error,
    * which `poll` then clears away.
    */
  lemma CanHang(c: Config, s: State) returns (run: seq<State>)
    requires Runnable(c) && Init(c, c.toggle, s) && !IndexesPastEnd(c)
    ensures Run(c, c.toggle, run) && |run| > 0
    ensures Last(run).pc == Await && Stuck(c, Last(run)) && Last(run).error == None
  {
    run := [s];
    assert Run(c, c.toggle, run);
    assert s.pc == Prepare1 && s.sent == [] && !s.halted && !s.complete && s.error == None;
    assert s.stray ==> c.others;
    hide Run, Runnable, IndexesPastEnd, DriverStep, Init;
    if s.stray {
      run := Strayed(c, run, false);
    }
    RoundStep(c, Last(run));
    run := Stepped(c, run);
    RoundStep(c, Last(run));
    run := Stepped(c, run);
    RoundStep(c, Last(run));
    run := Stepped(c, run);
    run := Settles(c, run);
    NeverStuck(c, run, |run| - 1);
    run := Faulted(c, run, CrcError);
    PollClears(c, Last(run));
    run := Stepped(c, run);
    run := Stepped(c, run);
  }

  lemma PollClears(c: Config, s: State)
    requires s.pc == Await && !Roused(s)
    ensures DriverStep(c, DriverStep(c, s)) == s.(error := None)
  {
    hide TryPrepare, TryRetire;
  }
}
