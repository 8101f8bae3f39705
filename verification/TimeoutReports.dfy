/** Which report of a test carries its timeout and which are failures, on where the timer fired and how
    the phases' work ended alone. */
module TimeoutReports {
  import opened Outcome
  import opened TimeoutFailures

  // ---- Where each timeout lands ----------------------------------------------------------

  /** The report that is to carry a timeout: that of a phase, or one of its own after the teardown's. */
  datatype Carrier = OfPhase(phase: Phase) | ItsOwn

  /** The phase that comes after. */
  function After(phase: Phase, setupFailed: bool): Phase { if phase == SETUP && !setupFailed then CALL else TEARDOWN }

  /** Fired on the way into a phase or in it, the timer is that phase's; fired between its hook's check
      and its flag, or behind the flag, it is the next phase's, and behind the last one's its own. */
  function CarrierOf(fired: Place, setupFailed: bool): Carrier {
    match fired
    case Before(phase) => OfPhase(phase)
    case Entering(phase) => OfPhase(After(phase, setupFailed))
    case Flagging(phase) => OfPhase(phase)
    case Starting(phase) => OfPhase(phase)
    case Working(phase) => OfPhase(phase)
    case Leaving(phase) => OfPhase(phase)
    case Left(phase) => OfPhase(After(phase, setupFailed))
    case Caught(phase) => if phase == TEARDOWN then ItsOwn else OfPhase(After(phase, setupFailed))
    case _ => ItsOwn
  }

  /** The setup's report, the call's if the setup passed, and the teardown's. */
  function Regular(reports: seq<Report>): nat { if SetupFailed(reports) then 2 else 3 }

  function Due(s: Test): Carrier
    requires s.Fired()
  {
    CarrierOf(s.firedAt.value, SetupFailed(s.reports))
  }

  /** A held timeout waits for a report still to come, one on its way is that of the phase it is in, and one
      on a report is on the one it was to be on. */
  predicate Awaited(s: Test) {
    s.held ==>
      s.Fired() && match s.place
                   case Before(phase) => Due(s) == OfPhase(phase)
                   case AfterTeardown => Due(s) == ItsOwn
                   case Outermost => Due(s) == ItsOwn
                   case Done => true
                   case Ended => true
                   case _ =>
                     if s.place.phase == SETUP then s.firedAt.value in {Entering(SETUP), Left(SETUP), Caught(SETUP)}
                     else Due(s) == if s.place == Caught(TEARDOWN) then ItsOwn else OfPhase(TEARDOWN)
  }

  predicate Flying(s: Test) { s.inFlight ==> s.Fired() && HasPhase(s.place) && Due(s) == OfPhase(s.place.phase) }

  predicate OnTheRightReport(s: Test) {
    forall i :: 0 <= i < |s.reports| && s.reports[i].carriesTimeout ==>
      s.Fired() && Due(s) == if i < Regular(s.reports) then OfPhase(s.reports[i].phase) else ItsOwn
  }

  predicate Landing(s: Test) { Awaited(s) && Flying(s) && OnTheRightReport(s) }

  lemma FireLands(s: Test)
    requires Inv(s) && Landing(s) && Next(s, Fire).Some?
    ensures Landing(Next(s, Fire).value)
  {
    hide InOnePlace, Worked, FiredBehind, HeldSince, Carriers, Whole;
    NoneCarriesYet(s);
  }

  lemma NoneCarriesYet(s: Test)
    requires Inv(s) && OnTheRightReport(s) && !s.Fired()
    ensures !s.held && !s.inFlight && forall i :: 0 <= i < |s.reports| ==> !s.reports[i].carriesTimeout
  {
    hide Flagged, ReportsSoFar, Worked, FiredBehind, HeldSince, Carriers, Carried;
  }

  lemma ReportLands(s: Test)
    requires Inv(s) && Landing(s) && s.place.Caught?
    ensures Landing(Reported(s, s.place.phase))
  {
    hide InOnePlace, Worked, FiredBehind, HeldSince, Carriers, Whole;
  }

  lemma LastReportLands(s: Test, ending: Ending)
    requires Inv(s) && Landing(s) && s.place.Outermost?
    ensures Landing(Advanced(s, ending).value)
  {
    hide InOnePlace, Worked, FiredBehind, HeldSince, Carriers;
  }

  lemma AdvanceLands(s: Test, ending: Ending)
    requires Inv(s) && Landing(s) && Advanced(s, ending).Some? && !s.place.Caught? && !s.place.Outermost?
    ensures Landing(Advanced(s, ending).value)
  {
    hide InOnePlace, Worked, FiredBehind, Carriers, Whole;
  }

  lemma {:induction false} EveryRunLands(steps: seq<Step>)
    requires Run(steps).Some?
    ensures Landing(Run(steps).value)
    decreases |steps|
  {
    hide Inv, Landing, Advanced, Fired;
    if steps == [] {
      StartLands();
    } else {
      var before, step := steps[..|steps| - 1], steps[|steps| - 1];
      var s := Run(before).value;
      EveryRunLands(before);
      EveryRunKeeps(before);
      match step
      case Fire => FireLands(s);
      case Advance(ending) =>
        AdvancesBy(s, ending);
        if s.place.Caught? {
          ReportLands(s);
        } else if s.place.Outermost? {
          LastReportLands(s, ending);
        } else {
          AdvanceLands(s, ending);
        }
    }
  }

  lemma AdvancesBy(s: Test, ending: Ending)
    ensures s.place.Caught? ==> Advanced(s, ending) == Some(Reported(s, s.place.phase))
  {
    hide Reported;
  }

  lemma StartLands()
    ensures Landing(START)
  {
  }

  lemma {:induction false} SomeCarries(reports: seq<Report>)
    ensures Carried(reports) > 0 <==> exists i :: 0 <= i < |reports| && reports[i].carriesTimeout
  {
    if reports != [] {
      var before := reports[..|reports| - 1];
      SomeCarries(before);
      assert forall i :: 0 <= i < |before| ==> before[i] == reports[i];
    }
  }

  /** Of a run that ends normally the timeout's report is told by where the timer fired alone: in a phase
      or on the way into it, it is that phase's; held behind a phase, the next one's that comes to a
      report; and one more report of its own only behind the teardown's hook. */
  lemma {:induction false} WhereItLands(steps: seq<Step>)
    requires Run(steps).Some? && Run(steps).value.place.Done?
    ensures var s := Run(steps).value;
      && |s.reports| == Regular(s.reports) + Count(s.Fired() && Due(s) == ItsOwn)
      && forall i :: 0 <= i < |s.reports| ==>
           (s.reports[i].carriesTimeout <==>
              s.Fired() && Due(s) == if i < Regular(s.reports) then OfPhase(s.reports[i].phase) else ItsOwn)
  {
    EveryRunLands(steps);
    TimeoutLandsOnce(steps);
    ReportsOfATest(steps);
    var s := Run(steps).value;
    SomeCarries(s.reports);
    WhichReports(s.reports);
    hide Run, Carried, Whole, CarrierOf;
  }

  /** The reports' phases. */
  lemma WhichReports(reports: seq<Report>)
    requires Whole(reports)
      || (|reports| > 1 && Whole(reports[..|reports| - 1]) && reports[|reports| - 1] == Report(TEARDOWN, true, true))
    ensures Regular(reports) <= |reports| <= Regular(reports) + 1 && reports[0].phase == SETUP
    ensures if SetupFailed(reports) then reports[1].phase == TEARDOWN else reports[1].phase == CALL && reports[2].phase == TEARDOWN
    ensures |reports| > Regular(reports) ==> reports[|reports| - 1].carriesTimeout
  {
  }

  // ---- Which reports are failures --------------------------------------------------------

  /** The phase's own work ended at step `n`, and not well. */
  ghost predicate FailedAt(steps: seq<Step>, phase: Phase, n: nat) {
    && n < |steps| && steps[n].Advance? && steps[n].ending != Passes
    && Run(steps[..n]).Some? && Run(steps[..n]).value.place == Working(phase)
  }

  ghost predicate WorkFailed(steps: seq<Step>, phase: Phase) { exists n: nat :: FailedAt(steps, phase, n) }

  lemma {:induction false} WorkFailedOn(steps: seq<Step>, step: Step, phase: Phase)
    requires Run(steps).Some?
    ensures WorkFailed(steps + [step], phase) <==>
      WorkFailed(steps, phase) || (Run(steps).value.place == Working(phase) && step.Advance? && step.ending != Passes)
  {
    hide Run;
    var all := steps + [step];
    assert forall n :: 0 <= n <= |steps| ==> all[..n] == steps[..n];
    assert steps[..|steps|] == steps;
    if n: nat :| FailedAt(steps, phase, n) {
      assert FailedAt(all, phase, n);
    }
    if Run(steps).value.place == Working(phase) && step.Advance? && step.ending != Passes {
      assert FailedAt(all, phase, |steps|);
    }
    if n: nat :| FailedAt(all, phase, n) {
      if n < |steps| {
        assert FailedAt(steps, phase, n);
      }
    }
  }

  /** The phase's work is over. */
  predicate Over(place: Place, phase: Phase) { Past(place, phase) && place != Working(phase) }

  /** `failed` are the phases whose work failed: each is over, the one the run is in shows by its ending,
      and a report is a failure where it carries the timeout or its phase's work failed. */
  ghost predicate Telling(s: Test, failed: set<Phase>) {
    s.place.Ended?
    || ((forall phase :: phase in failed ==> Over(s.place, phase))
        && (HasPhase(s.place) && !s.inFlight ==> (s.ending != Passes <==> s.place.phase in failed && Over(s.place, s.place.phase)))
        && (s.inFlight && s.ending != Passes ==> HasPhase(s.place))
        && forall i :: 0 <= i < |s.reports| ==>
             (s.reports[i].failed <==> s.reports[i].carriesTimeout || (i < Regular(s.reports) && s.reports[i].phase in failed)))
  }

  lemma FireTells(s: Test, failed: set<Phase>)
    requires Inv(s) && Telling(s, failed) && Next(s, Fire).Some?
    ensures Telling(Next(s, Fire).value, failed)
  {
    hide InOnePlace, Worked, FiredBehind, HeldSince, Carriers, Whole;
  }

  lemma ReportTells(s: Test, failed: set<Phase>)
    requires Inv(s) && Telling(s, failed) && s.place.Caught?
    ensures Telling(Reported(s, s.place.phase), failed)
  {
    hide InOnePlace, Worked, FiredBehind, HeldSince, Carriers, Whole;
  }

  lemma LastReportTells(s: Test, failed: set<Phase>, ending: Ending)
    requires Inv(s) && Telling(s, failed) && s.place.Outermost?
    ensures Telling(Advanced(s, ending).value, failed)
  {
    hide InOnePlace, Worked, FiredBehind, HeldSince, Carriers;
  }

  lemma AdvanceTells(s: Test, failed: set<Phase>, ending: Ending)
    requires Inv(s) && Telling(s, failed) && Advanced(s, ending).Some? && !s.place.Caught? && !s.place.Outermost?
    ensures Telling(Advanced(s, ending).value, if s.place.Working? && ending != Passes then failed + {s.place.phase} else failed)
  {
    hide InOnePlace, Worked, FiredBehind, HeldSince, Carriers, Whole;
  }

  ghost function Failed(steps: seq<Step>): set<Phase> { set phase | phase in {SETUP, CALL, TEARDOWN} && WorkFailed(steps, phase) }

  lemma {:induction false} FailedIs(steps: seq<Step>, step: Step)
    requires Run(steps).Some?
    ensures var s := Run(steps).value;
      Failed(steps + [step]) ==
        if step.Advance? && s.place.Working? && step.ending != Passes then Failed(steps) + {s.place.phase} else Failed(steps)
  {
    hide WorkFailed, Run;
    forall phase: Phase
      ensures phase in Failed(steps + [step]) <==> WorkFailed(steps + [step], phase)
      ensures phase in Failed(steps) <==> WorkFailed(steps, phase)
      ensures WorkFailed(steps + [step], phase) <==>
        WorkFailed(steps, phase) || (Run(steps).value.place == Working(phase) && step.Advance? && step.ending != Passes)
    {
      FailedHas(steps, phase);
      FailedHas(steps + [step], phase);
      WorkFailedOn(steps, step, phase);
    }
    hide Failed;
  }

  lemma FailedHas(steps: seq<Step>, phase: Phase)
    ensures phase in Failed(steps) <==> WorkFailed(steps, phase)
  {
    hide WorkFailed;
    assert phase == SETUP || phase == CALL || phase == TEARDOWN;
  }

  lemma {:induction false} EveryRunTells(steps: seq<Step>)
    requires Run(steps).Some?
    ensures Telling(Run(steps).value, Failed(steps))
    decreases |steps|
  {
    hide Inv, Telling, Advanced, Fired, WorkFailed, Failed;
    if steps == [] {
      StartTells();
    } else {
      var before, step := steps[..|steps| - 1], steps[|steps| - 1];
      var s := Run(before).value;
      EveryRunTells(before);
      EveryRunKeeps(before);
      FailedIs(before, step);
      assert before + [step] == steps;
      match step
      case Fire => FireTells(s, Failed(before));
      case Advance(ending) =>
        AdvancesBy(s, ending);
        if s.place.Caught? {
          ReportTells(s, Failed(before));
        } else if s.place.Outermost? {
          LastReportTells(s, Failed(before), ending);
        } else {
          AdvanceTells(s, Failed(before), ending);
        }
    }
  }

  lemma StartTells()
    ensures Telling(START, Failed([]))
  {
  }

  /** Of a run that ends normally a phase's report is a failure exactly if it carries the timeout or the
      phase's own work failed; an exit the timeout overtook is reported with it. */
  lemma {:induction false} FailuresAre(steps: seq<Step>)
    requires Run(steps).Some? && Run(steps).value.place.Done?
    ensures var s := Run(steps).value;
      forall i :: 0 <= i < Regular(s.reports) <= |s.reports| ==>
        (s.reports[i].failed <==> s.reports[i].carriesTimeout || WorkFailed(steps, s.reports[i].phase))
  {
    hide Run, WorkFailed, Failed;
    EveryRunTells(steps);
    forall phase: Phase
      ensures phase in Failed(steps) <==> WorkFailed(steps, phase)
    {
      FailedHas(steps, phase);
    }
  }

  /** An undisturbed test: no timer, no timeout, and each phase reports its own work, the call only after a
      setup that passed. */
  lemma {:induction false} UndisturbedTest(steps: seq<Step>)
    requires Run(steps).Some? && Run(steps).value.place.Done? && Fire !in steps
    ensures var reports := Run(steps).value.reports;
      reports == [Report(SETUP, false, WorkFailed(steps, SETUP))]
                 + (if WorkFailed(steps, SETUP) then [] else [Report(CALL, false, WorkFailed(steps, CALL))])
                 + [Report(TEARDOWN, false, WorkFailed(steps, TEARDOWN))]
  {
    hide Run, WorkFailed, Next;
    NeverFired(steps);
    WhereItLands(steps);
    FailuresAre(steps);
    ReportsOfATest(steps);
    WhichReports(Run(steps).value.reports);
    hide Whole;
  }

  lemma {:induction false} NeverFired(steps: seq<Step>)
    requires Run(steps).Some? && Fire !in steps
    ensures !Run(steps).value.Fired()
    decreases |steps|
  {
    hide Next;
    if steps != [] {
      var last := |steps| - 1;
      assert steps[last] in steps && forall x :: x in steps[..last] ==> x in steps;
      NeverFired(steps[..last]);
      OnlyFireFires(Run(steps[..last]).value, steps[last]);
    }
  }
}
