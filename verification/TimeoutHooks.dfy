/** The hooks of e2e/src/tai42_e2e/timeout_failures.py in their own form, around pytest's protocol of
    one test, with the signal free to come at every program point the timer says.  `steps` is the
    run so far, in the steps of module TimeoutFailures. */
module TimeoutHooks {
  import opened Outcome
  import opened TimeoutFailures

  class Item {
    /** How each phase's own work ends. */
    const work: Phase -> Ending
    /** Program points left until the signal; None where the timer is never due. */
    var timer: Option<nat>
    ghost var steps: seq<Step>

    // The two stash entries.
    var phaseRunning: bool
    var heldTimeout: bool

    // Where the test's run stands and what came of it.
    var place: Place
    var firedAt: Option<Place>
    var raised: bool
    var ending: Ending
    var worked: set<Phase>
    var reports: seq<Report>

    ghost function Value(): Test
      reads this
    {
      Test(place, phaseRunning, heldTimeout, firedAt, raised, ending, worked, reports)
    }

    /** The item is where its steps lead, and only work that ends the run took such a step. */
    ghost predicate Valid()
      reads this
    {
      && Run(steps) == Some(Value())
      && (Advance(EndsRun) in steps ==> exists phase :: work(phase) == EndsRun)
    }

    constructor (work: Phase -> Ending, timer: Option<nat>)
      ensures Valid() && Value() == START && this.work == work && this.timer == timer
    {
      this.work, this.timer, steps := work, timer, [];
      place, phaseRunning, heldTimeout, firedAt, raised, ending, worked, reports :=
        Before(SETUP), false, false, None, false, Passes, {}, [];
    }

    // ---- The signal ------------------------------------------------------------------------

    /** The handler: raised while a phase of the test runs, held for the next report otherwise.  What
        it raises skips whatever of the hook is still to come up to the `finally`, or past it. */
    method Handler()
      requires firedAt.None?
      modifies `firedAt, `raised, `heldTimeout, `place, `ending
      ensures Value() == old(Fired(Value()))
    {
      firedAt := Some(place);
      if !phaseRunning {
        heldTimeout := true;
        return;
      }
      raised := true;
      match place {
        case Flagging(phase) => place := Left(phase);
        case Starting(phase) => place := Leaving(phase);
        case Working(phase) => place := Leaving(phase);
        case Leaving(phase) =>
          ending := Fails;
          place := Left(phase);
        case _ =>
      }
    }

    /** A program point: the signal comes here if it is due, once, and not after the timer has been
        cancelled. */
    method Point()
      requires Valid()
      modifies this
      ensures Valid()
      ensures Value() == old(Value()) || Some(Value()) == old(Next(Value(), Fire))
      ensures place == old(place) || place == old(Interrupted(place))
      ensures old(firedAt).Some? ==> firedAt == old(firedAt)
    {
      hide Run;
      if firedAt.Some? || place.Outermost? || place.Done? || place.Ended? || timer.None? {
        return;
      }
      if timer.value > 0 {
        timer := Some(timer.value - 1);
        return;
      }
      OneMore(steps, Fire);
      steps := steps + [Fire];
      Handler();
    }

    /** The same, where only the way out of a hook matters. */
    method PointInHook()
      requires Valid()
      modifies this
      ensures Valid() && (place == old(place) || place == old(Interrupted(place)))
      ensures old(firedAt).Some? ==> firedAt == old(firedAt)
    {
      Point();
    }

    // ---- The hooks -------------------------------------------------------------------------

    /** `_raise_held_timeout`. */
    method RaiseHeldTimeout() returns (raises: bool)
      modifies `heldTimeout, `raised
      ensures Value() == old(HeldRaised(Value())) && raises == old(heldTimeout)
    {
      raises := heldTimeout;
      if heldTimeout {
        heldTimeout := false;
        raised := true;
      }
    }

    /** `_phase`: the flag is up while the work runs and cleared behind it, unless the signal cut the
        clearing itself short.  The work is left undone exactly when the signal came between the
        raising of the flag and the work. */
    method RunPhase(phase: Phase)
      requires Valid() && place == Entering(phase)
      modifies this
      ensures Valid() && place == Left(phase)
      ensures phase !in worked <==> firedAt in {Some(Flagging(phase)), Some(Starting(phase))}
      ensures phase !in worked <==> Skips(firedAt, phase)
      ensures old(firedAt).Some? ==> firedAt == old(firedAt)
    {
      hide Run, Next, Skips;
      PointInHook();
      RaiseFlag(phase);
      PointInHook();
      if place.Flagging? {
        EnterTry(phase);
        Try(phase);
      }
      PointInHook();
      if place.Leaving? {
        ClearFlag(phase);
      }
      WorkOnTheWayOut(steps, phase);
    }

    /** What stands inside the `try`. */
    method Try(phase: Phase)
      requires Valid() && place == Starting(phase)
      modifies this
      ensures Valid() && place == Leaving(phase)
      ensures old(firedAt).Some? ==> firedAt == old(firedAt)
    {
      hide Run, Next;
      PointInHook();
      if place.Starting? {
        BeginWork(phase);
        PointInHook();
        if place.Working? {
          DoWork(phase);
        }
      }
    }

    method RaiseFlag(phase: Phase)
      requires Valid() && place == Entering(phase)
      modifies `steps, `phaseRunning, `place
      ensures Valid() && place == Flagging(phase) && phaseRunning
    {
      hide Run;
      OneMore(steps, Advance(Passes));
      steps := steps + [Advance(Passes)];
      phaseRunning := true;
      place := Flagging(phase);
    }

    method EnterTry(phase: Phase)
      requires Valid() && place == Flagging(phase)
      modifies `steps, `place
      ensures Valid() && place == Starting(phase)
    {
      hide Run;
      OneMore(steps, Advance(Passes));
      steps := steps + [Advance(Passes)];
      place := Starting(phase);
    }

    method BeginWork(phase: Phase)
      requires Valid() && place == Starting(phase)
      modifies `steps, `worked, `place
      ensures Valid() && place == Working(phase) && phase in worked
    {
      hide Run;
      OneMore(steps, Advance(Passes));
      steps := steps + [Advance(Passes)];
      worked := worked + {phase};
      place := Working(phase);
    }

    method DoWork(phase: Phase)
      requires Valid() && place == Working(phase)
      modifies `steps, `ending, `place
      ensures Valid() && place == Leaving(phase) && ending == work(phase)
    {
      hide Run;
      OneMore(steps, Advance(work(phase)));
      steps := steps + [Advance(work(phase))];
      ending := work(phase);
      place := Leaving(phase);
    }

    method ClearFlag(phase: Phase)
      requires Valid() && place == Leaving(phase)
      modifies `steps, `phaseRunning, `place
      ensures Valid() && place == Left(phase) && !phaseRunning
    {
      hide Run;
      OneMore(steps, Advance(Passes));
      steps := steps + [Advance(Passes)];
      phaseRunning := false;
      place := Left(phase);
    }

    /** `pytest_runtest_setup` and `pytest_runtest_call`: a held timeout is raised instead of the
        work, which is left undone then and when the signal comes right before it. */
    method SetupOrCall(phase: Phase)
      requires Valid() && place == Before(phase) && phase != TEARDOWN
      modifies this
      ensures Valid() && (place == Caught(phase) || place.Ended?)
      ensures old(heldTimeout) ==> place == Caught(phase) && raised && !heldTimeout && worked == old(worked)
      ensures phase !in worked <==> Skips(firedAt, phase)
    {
      hide Run, Skips, Next;
      if heldTimeout {
        HeldHasFired(steps);
      }
      Point();
      CheckHeldTimeout(phase);
      if place == Caught(phase) {
        WorkAtTheCatch(steps, phase);
      } else {
        RunAndLeave(phase);
      }
    }

    /** The check on the way into a setup or a call. */
    method CheckHeldTimeout(phase: Phase)
      requires Valid() && place == Before(phase) && phase != TEARDOWN
      modifies `steps, `heldTimeout, `raised, `place
      ensures Valid() && !heldTimeout && place == if old(heldTimeout) then Caught(phase) else Entering(phase)
      ensures old(heldTimeout) ==> raised
    {
      hide Run;
      OneMore(steps, Advance(Passes));
      steps := steps + [Advance(Passes)];
      var raises := RaiseHeldTimeout();
      place := if raises then Caught(phase) else Entering(phase);
    }

    /** The rest of a setup or a call, with nothing held on the way in. */
    method RunAndLeave(phase: Phase)
      requires Valid() && place == Entering(phase) && phase != TEARDOWN
      modifies this
      ensures Valid() && (place == Caught(phase) || place.Ended?)
      ensures phase !in worked <==> Skips(firedAt, phase)
    {
      hide Run, Next, Skips;
      RunPhase(phase);
      PointInHook();
      WorkOnTheWayOut(steps, phase);
      LeaveHook(phase);
    }

    /** Pytest catches what a setup or a call raised, unless it ends the run. */
    method LeaveHook(phase: Phase)
      requires Valid() && place == Left(phase) && phase != TEARDOWN
      modifies `steps, `place
      ensures Valid() && place == if ending == EndsRun then Ended else Caught(phase)
    {
      hide Run;
      OneMore(steps, Advance(Passes));
      steps := steps + [Advance(Passes)];
      place := if ending == EndsRun then Ended else Caught(phase);
    }

    /** `pytest_runtest_teardown`: it runs whatever is held, and what ends the run still ends it.  Only
        a signal between its flag and its work leaves the work undone. */
    method Teardown()
      requires Valid() && place == Before(TEARDOWN)
      modifies this
      ensures Valid() && (place == Caught(TEARDOWN) || place.Ended?)
      ensures TEARDOWN !in worked <==> firedAt in {Some(Flagging(TEARDOWN)), Some(Starting(TEARDOWN))}
      ensures old(heldTimeout) ==> TEARDOWN in worked
      ensures place == Caught(TEARDOWN) ==> !heldTimeout
    {
      hide Run;
      HeldFromBehind(steps);
      Point();
      OneMore(steps, Advance(Passes));
      steps := steps + [Advance(Passes)];
      place := Entering(TEARDOWN);
      FinishTeardown();
    }

    /** The rest of a teardown. */
    method FinishTeardown()
      requires Valid() && place == Entering(TEARDOWN)
      modifies this
      ensures Valid() && (place == Caught(TEARDOWN) || place.Ended?)
      ensures TEARDOWN !in worked <==> firedAt in {Some(Flagging(TEARDOWN)), Some(Starting(TEARDOWN))}
      ensures old(firedAt).Some? ==> firedAt == old(firedAt)
      ensures place == Caught(TEARDOWN) ==> !heldTimeout
    {
      hide Run;
      RunPhase(TEARDOWN);
      PointInHook();
      WorkOnTheWayOut(steps, TEARDOWN);
      OneMore(steps, Advance(Passes));
      steps := steps + [Advance(Passes)];
      if ending == EndsRun {
        place := Ended;
        return;
      }
      var raises := RaiseHeldTimeout();
      place := Caught(TEARDOWN);
    }

    /** Pytest's report of the phase it has just caught. */
    method Report(phase: Phase)
      requires Valid() && place == Caught(phase)
      modifies this
      ensures Valid() && |reports| > 0
      ensures place == match phase
                       case SETUP => Before(if reports[|reports| - 1].failed then TEARDOWN else CALL)
                       case CALL => Before(TEARDOWN)
                       case TEARDOWN => AfterTeardown
    {
      hide Run;
      Point();
      OneMore(steps, Advance(Passes));
      steps := steps + [Advance(Passes)];
      var report := TimeoutFailures.Report.Report(phase, raised, raised || ending != Passes);
      reports := reports + [report];
      raised := false;
      ending := Passes;
      place := match phase
               case SETUP => Before(if report.failed then TEARDOWN else CALL)
               case CALL => Before(TEARDOWN)
               case TEARDOWN => AfterTeardown;
    }

    /** One test's run inside `pytest_runtest_protocol`.  Wherever the timer is due: if the run ends
        normally, exactly one report carries the timeout that fired, none is held any more, and the
        teardown was run unless the signal came between its flag and its work; it ends otherwise
        only by work that ends the whole run. */
    method RunProtocol()
      requires Valid() && Value() == START
      modifies this
      ensures Valid() && (place.Done? || place.Ended?)
      ensures place.Done? ==> Carried(reports) == Count(firedAt.Some?) && !heldTimeout && !raised
      ensures place.Done? ==> (TEARDOWN !in worked <==> firedAt in {Some(Flagging(TEARDOWN)), Some(Starting(TEARDOWN))})
      ensures place.Ended? ==> exists phase :: work(phase) == EndsRun
    {
      hide Run, Next, Carried, FiresAt;
      SetupOrCall(SETUP);
      if place.Ended? {
        EndedByWork();
        return;
      }
      Report(SETUP);
      if place == Before(CALL) {
        SetupOrCall(CALL);
        if place.Ended? {
          EndedByWork();
          return;
        }
        Report(CALL);
      }
      Teardown();
      if place.Ended? {
        EndedByWork();
        return;
      }
      Report(TEARDOWN);
      Point();
      ReportHeldTimeout();
      TimeoutLandsOnce(steps);
      WorkLeftUndone(steps);
      FiredAtIsWhere(steps, Flagging(TEARDOWN));
      FiredAtIsWhere(steps, Starting(TEARDOWN));
    }

    /** The end of `pytest_runtest_protocol`, with the timer cancelled. */
    method ReportHeldTimeout()
      requires Valid() && place.AfterTeardown?
      modifies this
      ensures Valid() && place.Done? && !heldTimeout
      ensures reports == old(reports + if heldTimeout then [TimeoutFailures.Report.Report(TEARDOWN, true, true)] else [])
    {
      hide Run;
      OneMore(steps, Advance(Passes));
      steps := steps + [Advance(Passes)];
      place := Outermost;
      OneMore(steps, Advance(Passes));
      steps := steps + [Advance(Passes)];
      if heldTimeout {
        heldTimeout := false;
        reports := reports + [TimeoutFailures.Report.Report(TEARDOWN, true, true)];
      }
      place := Done;
    }

    lemma EndedByWork()
      requires Valid() && place.Ended?
      ensures exists phase :: work(phase) == EndsRun
    {
      if Advance(EndsRun) !in steps {
        TimeoutNeverEndsTheRun(steps);
      }
    }
  }

  /** Where a failure raised inside a phase's hook leaves it. */
  function Interrupted(place: Place): Place {
    match place
    case Flagging(phase) => Left(phase)
    case Starting(phase) => Leaving(phase)
    case Working(phase) => Leaving(phase)
    case Leaving(phase) => Left(phase)
    case _ => place
  }

  lemma {:induction false} OneMore(steps: seq<Step>, step: Step)
    ensures Run(steps + [step]) == match Run(steps) case None => None case Some(s) => Next(s, step)
  {
    assert (steps + [step])[..|steps|] == steps;
  }
}
