/** Where a test's timeout lands, as e2e/src/tai42_e2e/timeout_failures.py arranges it: one test's
    run in steps, with the timer's signal free to come between any two of them. */
module TimeoutFailures {
  import opened Outcome

  datatype Phase = SETUP | CALL | TEARDOWN

  /** How a phase's own work ends; `EndsRun` is a keyboard interrupt or `pytest.exit`. */
  datatype Ending = Passes | Fails | EndsRun

  datatype Report = Report(phase: Phase, carriesTimeout: bool, failed: bool)

  /** `Entering` is past the check for a held timeout, `Flagging` past the raising of the flag but
      not yet inside the `try`, `Starting` inside it with the phase's own work not yet begun,
      `Leaving` inside the `finally` that clears the flag, `Left` past it, `Caught` where pytest
      has what the phase raised; `Outermost` is the protocol wrapper after its `yield`, with the
      timer cancelled. */
  datatype Place =
    | Before(phase: Phase) | Entering(phase: Phase) | Flagging(phase: Phase) | Starting(phase: Phase) | Working(phase: Phase)
    | Leaving(phase: Phase) | Left(phase: Phase) | Caught(phase: Phase) | AfterTeardown | Outermost | Done | Ended

  /** `running` and `held` are the two stash entries; `inFlight` is a timeout failure raised and
      not yet caught; `firedAt` is where the run stood when the timer fired, `worked` the phases
      whose work began. */
  datatype Test = Test(place: Place, running: bool, held: bool, firedAt: Option<Place>, inFlight: bool, ending: Ending,
                       worked: set<Phase>, reports: seq<Report>)
  {
    predicate Fired() { firedAt.Some? }
  }

  const START := Test(Before(SETUP), false, false, None, false, Passes, {}, [])

  /** The next step of the run, with how the work ends where it is the work's step. */
  datatype Step = Advance(ending: Ending) | Fire

  // ---- The steps -------------------------------------------------------------------------

  /** The signal handler: raise while the phase flag is up, hold otherwise.  Raised outside the
      `try`, the failure leaves the flag up; raised inside it, it leaves by way of the `finally`. */
  function Fired(s: Test): Test
    requires !s.Fired()
  {
    if !s.running then s.(firedAt := Some(s.place), held := true)
    else
      var raised := s.(firedAt := Some(s.place), inFlight := true);
      match s.place
      case Flagging(phase) => raised.(place := Left(phase))
      case Starting(phase) => raised.(place := Leaving(phase))
      case Working(phase) => raised.(place := Leaving(phase))
      case Leaving(phase) => raised.(place := Left(phase), ending := Fails)
      case _ => raised
  }

  /** `_raise_held_timeout`. */
  function HeldRaised(s: Test): Test { if s.held then s.(held := false, inFlight := true) else s }

  /** Pytest's report of a phase, and where the run goes from there. */
  function Reported(s: Test, phase: Phase): Test {
    var report := Report(phase, s.inFlight, s.inFlight || s.ending != Passes);
    s.(reports := s.reports + [report], inFlight := false, ending := Passes,
       place := match phase
                case SETUP => Before(if report.failed then TEARDOWN else CALL)
                case CALL => Before(TEARDOWN)
                case TEARDOWN => AfterTeardown)
  }

  /** The run's own next step; None at its end. */
  function Advanced(s: Test, ending: Ending): Option<Test> {
    match s.place
    case Before(phase) =>
      if phase == TEARDOWN then Some(s.(place := Entering(phase)))
      else Some(HeldRaised(s).(place := if s.held then Caught(phase) else Entering(phase)))
    case Entering(phase) => Some(s.(running := true, place := Flagging(phase)))
    case Flagging(phase) => Some(s.(place := Starting(phase)))
    case Starting(phase) => Some(s.(worked := s.worked + {phase}, place := Working(phase)))
    case Working(phase) => Some(s.(ending := ending, place := Leaving(phase)))
    case Leaving(phase) => Some(s.(running := false, place := Left(phase)))
    case Left(phase) =>
      if s.ending == EndsRun then Some(s.(place := Ended))
      else if phase == TEARDOWN then Some(HeldRaised(s).(place := Caught(phase)))
      else Some(s.(place := Caught(phase)))
    case Caught(phase) => Some(Reported(s, phase))
    case AfterTeardown => Some(s.(place := Outermost))
    case Outermost =>
      Some(s.(held := false, place := Done,
              reports := if s.held then s.reports + [Report(TEARDOWN, true, true)] else s.reports))
    case Done => None
    case Ended => None
  }

  function Next(s: Test, step: Step): Option<Test> {
    match step
    case Advance(ending) => Advanced(s, ending)
    case Fire => if s.Fired() || s.place in {Outermost, Done, Ended} then None else Some(Fired(s))
  }

  function Run(steps: seq<Step>): Option<Test>
    decreases |steps|
  {
    if steps == [] then Some(START) else
    match Run(steps[..|steps| - 1])
    case None => None
    case Some(s) => Next(s, steps[|steps| - 1])
  }

  // ---- What every step keeps -------------------------------------------------------------

  function Carried(reports: seq<Report>): nat
    decreases |reports|
  {
    if reports == [] then 0
    else Carried(reports[..|reports| - 1]) + if reports[|reports| - 1].carriesTimeout then 1 else 0
  }

  function Count(b: bool): nat { if b then 1 else 0 }

  /** How far the run is from its end. */
  function Rank(place: Place): nat {
    match place
    case Before(phase) => 10 * Later(phase) + 10
    case Entering(phase) => 10 * Later(phase) + 9
    case Flagging(phase) => 10 * Later(phase) + 8
    case Starting(phase) => 10 * Later(phase) + 7
    case Working(phase) => 10 * Later(phase) + 6
    case Leaving(phase) => 10 * Later(phase) + 5
    case Left(phase) => 10 * Later(phase) + 4
    case Caught(phase) => 10 * Later(phase) + 3
    case AfterTeardown => 2
    case Outermost => 1
    case Done => 0
    case Ended => 0
  }

  function Later(phase: Phase): nat { match phase case SETUP => 2 case CALL => 1 case TEARDOWN => 0 }

  predicate InPhase(place: Place) { place.Flagging? || place.Starting? || place.Working? || place.Leaving? }

  /** A timeout that fired is in one place only: held, on its way, or on one report. */
  predicate InOnePlace(s: Test) {
    Carried(s.reports) + Count(s.held) + Count(s.inFlight) == Count(s.Fired())
  }

  /** The flag is up just where a phase's work runs, and a raised failure is only ever inside the
      phase's hook, where pytest catches it. */
  predicate Flagged(s: Test) {
    && (InPhase(s.place) ==> s.running)
    && (s.running && !s.Fired() ==> InPhase(s.place))
    && (s.inFlight ==> s.place.Leaving? || s.place.Left? || s.place.Caught?)
    && (s.ending == EndsRun ==> !s.inFlight && (s.place.Leaving? || s.place.Left? || s.place.Ended?))
    && (s.ending != Passes ==> s.place.Leaving? || s.place.Left? || s.place.Caught? || s.place.Ended?)
  }

  /** The phases reported so far, in order: the call's report exactly when the setup's passed. */
  predicate ReportsSoFar(s: Test) {
    var n := |s.reports|;
    var passed := n > 0 && !s.reports[0].failed;
    && (n > 0 ==> s.reports[0].phase == SETUP)
    && (n > 1 ==> s.reports[1].phase == if passed then CALL else TEARDOWN)
    && match s.place
       case AfterTeardown => Whole(s.reports)
       case Outermost => Whole(s.reports)
       case Done => Whole(s.reports) || (n > 1 && s.reports[n - 1] == Report(TEARDOWN, true, true) && Whole(s.reports[..n - 1]))
       case Ended => n <= 2
       case _ =>
         && n == (match s.place.phase case SETUP => 0 case CALL => 1 case TEARDOWN => if passed then 2 else 1)
         && (s.place.phase == CALL ==> passed)
  }

  predicate Whole(reports: seq<Report>) {
    || (|reports| == 2 && reports[0].phase == SETUP && reports[0].failed && reports[1].phase == TEARDOWN)
    || (|reports| == 3 && reports[0].phase == SETUP && !reports[0].failed && reports[1].phase == CALL
        && reports[2].phase == TEARDOWN)
  }

  /** Where the timer is held and raised instead of the phase's work; a teardown is never raised
      into so. */
  function HeldBefore(phase: Phase): set<Place> {
    match phase
    case SETUP => {Before(SETUP)}
    case CALL => {Entering(SETUP), Left(SETUP), Caught(SETUP), Before(CALL)}
    case TEARDOWN => {}
  }

  /** Where the flag is up and the phase's work has not begun. */
  function Gap(phase: Phase): set<Place> { {Flagging(phase), Starting(phase)} }

  /** The timer kept the phase's work from beginning. */
  predicate Skips(firedAt: Option<Place>, phase: Phase) {
    firedAt.Some? && (firedAt.value in HeldBefore(phase) || firedAt.value in Gap(phase))
  }

  predicate SetupFailed(reports: seq<Report>) { |reports| > 0 && reports[0].failed }

  /** Whether the run is past the moment the phase's work would begin. */
  predicate Past(place: Place, phase: Phase) {
    match place
    case AfterTeardown => true
    case Outermost => true
    case Done => true
    case Ended => false
    case _ =>
      || Later(place.phase) < Later(phase)
      || (place.phase == phase && (place.Working? || place.Leaving? || place.Left? || place.Caught?))
  }

  predicate InHook(place: Place) { place.Entering? || InPhase(place) || place.Left? }

  /** A phase past its beginning worked unless the timer skipped it or, for the call, the setup
      failed. */
  predicate Worked(s: Test) { s.place.Ended? || (WorkedIn(s, SETUP) && WorkedIn(s, CALL) && WorkedIn(s, TEARDOWN)) }

  predicate WorkedIn(s: Test, phase: Phase) {
    phase in s.worked <==> Past(s.place, phase) && !Skips(s.firedAt, phase) && !(phase == CALL && SetupFailed(s.reports))
  }

  /** The timer fired where the run has been, and no phase is begun that it skips. */
  predicate FiredBehind(s: Test) {
    && (s.firedAt.Some? ==> Rank(s.place) <= Rank(s.firedAt.value))
    && (s.place.Flagging? || s.place.Starting? || s.place.Working? ==> !Skips(s.firedAt, s.place.phase))
    && (InHook(s.place) ==> s.firedAt.None? || s.firedAt.value !in HeldBefore(s.place.phase))
  }

  /** What is held up to the check on the way into a setup or a call is what fired, with the flag
      down, since the check before. */
  predicate HeldSince(s: Test) {
    && (s.place == Before(SETUP) ==> (s.held <==> s.firedAt == Some(Before(SETUP))))
    && (HasPhase(s.place) && s.place.phase == SETUP && !s.place.Before? ==>
          (s.held <==> s.firedAt in {Some(Entering(SETUP)), Some(Left(SETUP)), Some(Caught(SETUP))}))
    && (s.place == Before(CALL) ==> (s.held <==> s.firedAt.Some? && s.firedAt.value in HeldBefore(CALL)))
  }

  predicate HasPhase(place: Place) {
    !place.AfterTeardown? && !place.Outermost? && !place.Done? && !place.Ended?
  }

  /** A phase the timer skipped has its report carry the timeout. */
  predicate Carriers(s: Test) {
    var n := |s.reports|;
    && (s.place.Leaving? || s.place.Left? || s.place.Caught? ==> Skips(s.firedAt, s.place.phase) ==> s.inFlight)
    && (n > 0 && Skips(s.firedAt, SETUP) ==> s.reports[0].carriesTimeout)
    && (n > 1 && s.reports[1].phase == CALL && Skips(s.firedAt, CALL) ==> s.reports[1].carriesTimeout)
    && (s.place in {AfterTeardown, Outermost, Done} && Skips(s.firedAt, TEARDOWN) ==>
          Whole(s.reports) && s.reports[n - 1].carriesTimeout && !s.held)
  }

  predicate Inv(s: Test) {
    InOnePlace(s) && Flagged(s) && ReportsSoFar(s) && Worked(s) && FiredBehind(s) && HeldSince(s) && Carriers(s)
  }

  lemma {:induction false} CarriedMore(reports: seq<Report>, report: Report)
    ensures Carried(reports + [report]) == Carried(reports) + Count(report.carriesTimeout)
  {
    assert (reports + [report])[..|reports|] == reports;
  }

  /** Whenever the timer fires, the run goes on to its end: each step of the run brings it nearer,
      and one can be taken until it is there. */
  lemma TheRunGoesOn(s: Test, ending: Ending)
    ensures Advanced(s, ending).None? <==> Rank(s.place) == 0
    ensures Advanced(s, ending).Some? ==> Rank(Advanced(s, ending).value.place) < Rank(s.place)
    ensures Next(s, Fire).Some? ==> Rank(Next(s, Fire).value.place) <= Rank(s.place)
  {
    FireLosesNoGround(s);
    if s.place.Caught? {
      ReportGoesOn(s, s.place.phase);
    }
    hide Reported;
  }

  lemma ReportGoesOn(s: Test, phase: Phase)
    ensures Rank(Reported(s, phase).place) < Rank(Caught(phase))
  {
  }

  lemma FireLosesNoGround(s: Test)
    ensures Next(s, Fire).Some? ==> Rank(Next(s, Fire).value.place) <= Rank(s.place)
  {
    hide Advanced;
  }

  lemma FireKeepsFlags(s: Test)
    requires Inv(s) && Next(s, Fire).Some?
    ensures InOnePlace(Next(s, Fire).value) && Flagged(Next(s, Fire).value)
  {
    hide ReportsSoFar, Worked, FiredBehind, HeldSince, Carriers, Carried;
  }

  lemma FireKeepsWorked(s: Test)
    requires Inv(s) && Next(s, Fire).Some?
    ensures Worked(Next(s, Fire).value)
  {
    hide InOnePlace, ReportsSoFar, Carriers, HeldSince, Rank;
  }

  lemma FireKeepsTimer(s: Test)
    requires Inv(s) && Next(s, Fire).Some?
    ensures FiredBehind(Next(s, Fire).value) && HeldSince(Next(s, Fire).value)
  {
    hide InOnePlace, ReportsSoFar, Carriers, Worked;
  }

  lemma FireKeepsReports(s: Test)
    requires Inv(s) && Next(s, Fire).Some?
    ensures ReportsSoFar(Next(s, Fire).value) && Carriers(Next(s, Fire).value)
  {
    hide Worked, Carried, Whole, Rank;
  }

  lemma FireKeeps(s: Test)
    requires Inv(s) && Next(s, Fire).Some?
    ensures Inv(Next(s, Fire).value)
  {
    hide InOnePlace, Flagged, ReportsSoFar, Worked, FiredBehind, HeldSince, Carriers;
    FireKeepsFlags(s);
    FireKeepsWorked(s);
    FireKeepsTimer(s);
    FireKeepsReports(s);
  }

  lemma ReportKeepsPlace(s: Test)
    requires Inv(s) && s.place.Caught?
    ensures InOnePlace(Reported(s, s.place.phase))
  {
    hide Flagged, ReportsSoFar, Worked, FiredBehind, HeldSince, Carriers, Carried;
    CarriedMore(s.reports, Report(s.place.phase, s.inFlight, s.inFlight || s.ending != Passes));
  }

  lemma ReportKeepsFlags(s: Test)
    requires Inv(s) && s.place.Caught?
    ensures Flagged(Reported(s, s.place.phase))
  {
    hide ReportsSoFar, Worked, FiredBehind, HeldSince, Carriers, Carried;
  }

  lemma ReportKeepsWorked(s: Test)
    requires Inv(s) && s.place.Caught?
    ensures Worked(Reported(s, s.place.phase))
  {
    hide InOnePlace, Flagged, FiredBehind, HeldSince, Carriers, Whole, Rank;
  }

  lemma ReportKeepsTimer(s: Test)
    requires Inv(s) && s.place.Caught?
    ensures FiredBehind(Reported(s, s.place.phase)) && HeldSince(Reported(s, s.place.phase))
  {
    hide InOnePlace, Flagged, ReportsSoFar, Worked, Carriers;
  }

  lemma ReportKeepsReports(s: Test)
    requires Inv(s) && s.place.Caught?
    ensures ReportsSoFar(Reported(s, s.place.phase))
  {
    hide InOnePlace, Flagged, Worked, FiredBehind, HeldSince, Carriers;
  }

  lemma ReportKeepsCarriers(s: Test)
    requires Inv(s) && s.place.Caught?
    ensures Carriers(Reported(s, s.place.phase))
  {
    ReportKeepsReports(s);
    hide Carried, Flagged, Worked, FiredBehind, HeldSince;
  }

  lemma ReportKeeps(s: Test)
    requires Inv(s) && s.place.Caught?
    ensures Inv(Reported(s, s.place.phase))
  {
    hide InOnePlace, Flagged, ReportsSoFar, Worked, FiredBehind, HeldSince, Carriers, Reported;
    ReportKeepsPlace(s);
    ReportKeepsFlags(s);
    ReportKeepsWorked(s);
    ReportKeepsTimer(s);
    ReportKeepsReports(s);
    ReportKeepsCarriers(s);
  }

  lemma LastReportKeeps(s: Test, ending: Ending)
    requires Inv(s) && s.place.Outermost?
    ensures Inv(Advanced(s, ending).value)
  {
    CarriedMore(s.reports, Report(TEARDOWN, true, true));
    hide Carried;
    assert (s.reports + [Report(TEARDOWN, true, true)])[..|s.reports|] == s.reports;
  }

  lemma AdvanceKeepsFlags(s: Test, ending: Ending)
    requires Inv(s) && Advanced(s, ending).Some? && !s.place.Caught? && !s.place.Outermost?
    ensures InOnePlace(Advanced(s, ending).value) && Flagged(Advanced(s, ending).value)
  {
    hide ReportsSoFar, Worked, FiredBehind, HeldSince, Carriers, Carried, Reported;
  }

  lemma AdvanceKeepsWorked(s: Test, ending: Ending)
    requires Inv(s) && Advanced(s, ending).Some? && !s.place.Caught? && !s.place.Outermost?
    ensures Worked(Advanced(s, ending).value)
  {
    hide InOnePlace, Flagged, ReportsSoFar, FiredBehind, HeldSince, Carriers, WorkedIn, Reported;
    AdvanceKeepsWorkIn(s, ending, SETUP);
    AdvanceKeepsWorkIn(s, ending, CALL);
    AdvanceKeepsWorkIn(s, ending, TEARDOWN);
  }

  /** A step of the run within a phase, as far as its work is concerned. */
  lemma AdvanceMoves(s: Test, ending: Ending)
    requires Advanced(s, ending).Some? && !s.place.Caught? && !s.place.Outermost?
    ensures var r := Advanced(s, ending).value;
      && r.firedAt == s.firedAt && r.reports == s.reports
      && r.worked == s.worked + (if s.place.Starting? then {s.place.phase} else {})
      && (s.place != Left(TEARDOWN) ==> r.held == (s.held && !(s.place.Before? && s.place.phase != TEARDOWN)))
      && (if s.place.AfterTeardown? then r.place.Outermost?
          else r.place.Ended? || (HasPhase(r.place) && r.place.phase == s.place.phase))
      && (s.place.Before? ==> if r.place.Caught? then s.held && s.place.phase != TEARDOWN else r.place.Entering?)
      && (s.place.Entering? ==> r.place.Flagging?) && (s.place.Flagging? ==> r.place.Starting?)
      && (s.place.Starting? ==> r.place.Working?) && (s.place.Working? ==> r.place.Leaving?)
      && (s.place.Leaving? ==> r.place.Left?) && (s.place.Left? ==> r.place.Caught? || r.place.Ended?)
  {
    hide Reported;
  }

  lemma AdvanceKeepsWorkIn(s: Test, ending: Ending, phase: Phase)
    requires Inv(s) && Advanced(s, ending).Some? && !s.place.Caught? && !s.place.Outermost?
    ensures Advanced(s, ending).value.place.Ended? || WorkedIn(Advanced(s, ending).value, phase)
  {
    AdvanceMoves(s, ending);
    hide InOnePlace, Flagged, Carriers, Whole, Advanced, Rank;
  }

  lemma AdvanceKeepsTimer(s: Test, ending: Ending)
    requires Inv(s) && Advanced(s, ending).Some? && !s.place.Caught? && !s.place.Outermost?
    ensures FiredBehind(Advanced(s, ending).value)
  {
    AdvanceMoves(s, ending);
    TheRunGoesOn(s, ending);
    hide InOnePlace, Flagged, ReportsSoFar, Carriers, Worked, Advanced;
  }

  lemma AdvanceKeepsHeld(s: Test, ending: Ending)
    requires Inv(s) && Advanced(s, ending).Some? && !s.place.Caught? && !s.place.Outermost?
    ensures HeldSince(Advanced(s, ending).value)
  {
    AdvanceMoves(s, ending);
    hide InOnePlace, Flagged, ReportsSoFar, Carriers, Worked, Advanced;
  }

  lemma AdvanceKeepsReports(s: Test, ending: Ending)
    requires Inv(s) && Advanced(s, ending).Some? && !s.place.Caught? && !s.place.Outermost?
    ensures ReportsSoFar(Advanced(s, ending).value)
  {
    hide InOnePlace, Worked, FiredBehind, HeldSince, Carriers, Whole, Reported;
  }

  lemma AdvanceKeepsCarriers(s: Test, ending: Ending)
    requires Inv(s) && Advanced(s, ending).Some? && !s.place.Caught? && !s.place.Outermost?
    ensures Carriers(Advanced(s, ending).value)
  {
    hide ReportsSoFar, Worked, Carried, Whole, Reported, Rank;
  }

  lemma StepKeeps(s: Test, step: Step)
    requires Inv(s) && Next(s, step).Some?
    ensures Inv(Next(s, step).value)
  {
    hide InOnePlace, Flagged, ReportsSoFar, Worked, FiredBehind, HeldSince, Carriers;
    match step
    case Fire => FireKeeps(s);
    case Advance(ending) =>
      if s.place.Caught? {
        ReportKeeps(s);
      } else if s.place.Outermost? {
        LastReportKeeps(s, ending);
      } else {
        AdvanceKeepsFlags(s, ending);
        AdvanceKeepsWorked(s, ending);
        AdvanceKeepsTimer(s, ending);
        AdvanceKeepsHeld(s, ending);
        AdvanceKeepsReports(s, ending);
        AdvanceKeepsCarriers(s, ending);
      }
  }

  lemma {:induction false} EveryRunKeeps(steps: seq<Step>)
    requires Run(steps).Some?
    ensures Inv(Run(steps).value)
    decreases |steps|
  {
    hide InOnePlace, Flagged, ReportsSoFar, Worked, FiredBehind, HeldSince, Carriers, Next;
    if steps == [] {
      StartIsFine();
    } else {
      var before := steps[..|steps| - 1];
      EveryRunKeeps(before);
      StepKeeps(Run(before).value, steps[|steps| - 1]);
    }
  }

  lemma StartIsFine()
    ensures Inv(START)
  {
  }

  // ---- Where a timeout lands -------------------------------------------------------------

  /** A run that ends normally: exactly one report carries the timeout if the timer fired and
      none if it did not, wherever in the run it fired, and none is held any more. */
  lemma {:induction false} TimeoutLandsOnce(steps: seq<Step>)
    requires Run(steps).Some? && Run(steps).value.place.Done?
    ensures var s := Run(steps).value;
      !s.held && !s.inFlight && Carried(s.reports) == Count(s.Fired())
  {
    EveryRunKeeps(steps);
    hide Carried;
    DoneHoldsNothing(steps);
  }

  lemma {:induction false} DoneHoldsNothing(steps: seq<Step>)
    requires Run(steps).Some? && Run(steps).value.place.Done?
    ensures !Run(steps).value.held
  {
    var before := Run(steps[..|steps| - 1]).value;
    assert Next(before, steps[|steps| - 1]) == Run(steps);
  }

  /** The handler raises exactly while a phase's flag is up, into that phase, and holds at every
      other moment. */
  lemma {:induction false} RaisedOnlyInAPhase(steps: seq<Step>)
    requires Run(steps).Some? && Next(Run(steps).value, Fire).Some?
    ensures var s, r := Run(steps).value, Next(Run(steps).value, Fire).value;
      if InPhase(s.place) then r.inFlight && !r.held && r.place.phase == s.place.phase
      else r.held && !r.inFlight && r.place == s.place
  {
    EveryRunKeeps(steps);
    hide Carried, ReportsSoFar, Worked, Carriers;
  }

  /** The timer fired when the run stood at `place`. */
  ghost predicate FiresAt(steps: seq<Step>, place: Place) {
    exists n :: 0 <= n < |steps| && FireAt(steps, n, place)
  }

  ghost predicate FireAt(steps: seq<Step>, n: nat, place: Place)
    requires n < |steps|
  {
    steps[n] == Fire && Run(steps[..n]).Some? && Run(steps[..n]).value.place == place
  }

  lemma OnlyFireFires(s: Test, step: Step)
    requires Next(s, step).Some?
    ensures Next(s, step).value.firedAt == if step == Fire then Some(s.place) else s.firedAt
    ensures step == Fire ==> s.firedAt == None
  {
  }

  lemma {:induction false} FiredAtIsWhere(steps: seq<Step>, place: Place)
    requires Run(steps).Some?
    ensures Run(steps).value.firedAt == Some(place) <==> FiresAt(steps, place)
    decreases |steps|
  {
    hide Next;
    if steps != [] {
      var last := |steps| - 1;
      var before := steps[..last];
      FiredAtIsWhere(before, place);
      OnlyFireFires(Run(before).value, steps[last]);
      assert before == steps[..last];
      if steps[last] == Fire && Run(before).value.place == place {
        assert FireAt(steps, last, place);
      }
      if FiresAt(before, place) {
        var n :| 0 <= n < |before| && FireAt(before, n, place);
        assert before[..n] == steps[..n];
        assert FireAt(steps, n, place);
      }
      if FiresAt(steps, place) {
        var n :| 0 <= n < |steps| && FireAt(steps, n, place);
        if n < last {
          assert before[..n] == steps[..n];
          assert FireAt(before, n, place);
        }
      }
    }
  }

  /** Which work a run that ends normally left undone, exactly: a teardown's when the timer fired
      with the flag up and the work not begun, and at no other moment; a setup's then or held right
      before it; a call's then, held since the setup's own check, or with the setup failed. */
  lemma {:induction false} WorkLeftUndone(steps: seq<Step>)
    requires Run(steps).Some? && Run(steps).value.place.Done?
    ensures var s := Run(steps).value;
      && (TEARDOWN !in s.worked <==> FiresAt(steps, Flagging(TEARDOWN)) || FiresAt(steps, Starting(TEARDOWN)))
      && (SETUP !in s.worked <==>
            FiresAt(steps, Before(SETUP)) || FiresAt(steps, Flagging(SETUP)) || FiresAt(steps, Starting(SETUP)))
      && (CALL !in s.worked <==>
            || SetupFailed(s.reports) || FiresAt(steps, Flagging(CALL)) || FiresAt(steps, Starting(CALL))
            || FiresAt(steps, Entering(SETUP)) || FiresAt(steps, Left(SETUP)) || FiresAt(steps, Caught(SETUP))
            || FiresAt(steps, Before(CALL)))
  {
    EveryRunKeeps(steps);
    hide Run, FiresAt, InOnePlace, Flagged, Carriers;
    forall place: Place
      ensures Run(steps).value.firedAt == Some(place) <==> FiresAt(steps, place)
    {
      FiredAtIsWhere(steps, place);
    }
  }

  /** The reports of a run that ends normally: setup, the call exactly when the setup passed, and
      the teardown; then one more only to carry a timeout.  A phase whose work was left undone has
      the timeout on its report, or is the call of a failed setup. */
  lemma {:induction false} ReportsOfATest(steps: seq<Step>)
    requires Run(steps).Some? && Run(steps).value.place.Done?
    ensures var s := Run(steps).value; var n := |s.reports|;
      && (Whole(s.reports) || (n > 1 && Whole(s.reports[..n - 1]) && s.reports[n - 1] == Report(TEARDOWN, true, true)))
      && (TEARDOWN !in s.worked ==> Whole(s.reports) && s.reports[n - 1].carriesTimeout)
      && (SETUP !in s.worked ==> s.reports[0].carriesTimeout)
      && (CALL !in s.worked ==> s.reports[0].failed || s.reports[1].carriesTimeout)
  {
    EveryRunKeeps(steps);
    hide Run, InOnePlace, Flagged;
  }

  /** Behind a hook its work is undone exactly when the timer fired between its flag and its work. */
  lemma {:induction false} WorkOnTheWayOut(steps: seq<Step>, phase: Phase)
    requires Run(steps).Some? && Run(steps).value.place == Left(phase)
    ensures var s := Run(steps).value;
      && (phase !in s.worked <==> s.firedAt in {Some(Flagging(phase)), Some(Starting(phase))})
      && (phase !in s.worked <==> Skips(s.firedAt, phase))
  {
    EveryRunKeeps(steps);
    hide Run, InOnePlace, Carriers, Rank;
  }

  /** What is held on the way into a teardown fired before the teardown's own hook. */
  lemma {:induction false} HeldFromBehind(steps: seq<Step>)
    requires Run(steps).Some? && Run(steps).value.place == Before(TEARDOWN)
    ensures var s := Run(steps).value;
      s.held ==> s.firedAt.Some? && s.firedAt !in {Some(Flagging(TEARDOWN)), Some(Starting(TEARDOWN))}
  {
    EveryRunKeeps(steps);
    hide Run, Carried, Flagged, ReportsSoFar, Worked, HeldSince, Carriers;
  }

  /** What is held has fired, and nothing fires again. */
  lemma {:induction false} HeldHasFired(steps: seq<Step>)
    requires Run(steps).Some? && Run(steps).value.held
    ensures Run(steps).value.Fired() && Next(Run(steps).value, Fire).None?
  {
    EveryRunKeeps(steps);
    hide Run, Carried, Flagged, ReportsSoFar, Worked, FiredBehind, HeldSince, Carriers;
  }

  /** And where pytest has what a setup or a call raised, when it was raised right before it too. */
  lemma {:induction false} WorkAtTheCatch(steps: seq<Step>, phase: Phase)
    requires Run(steps).Some? && Run(steps).value.place == Caught(phase)
    ensures phase !in Run(steps).value.worked <==> Skips(Run(steps).value.firedAt, phase)
  {
    EveryRunKeeps(steps);
    hide Run, InOnePlace, Carriers, Rank;
  }

  // ---- What ends the whole run -----------------------------------------------------------

  lemma EndingComesFrom(s: Test, step: Step)
    requires Next(s, step).Some? && (Next(s, step).value.ending == EndsRun || Next(s, step).value.place.Ended?)
    ensures s.ending == EndsRun || s.place.Ended? || step == Advance(EndsRun)
  {
  }

  lemma {:induction false} EndingIsTheWorks(steps: seq<Step>)
    requires Run(steps).Some? && (Run(steps).value.ending == EndsRun || Run(steps).value.place.Ended?)
    ensures Advance(EndsRun) in steps
    decreases |steps|
  {
    hide Next;
    var last := |steps| - 1;
    assert steps != [];
    EndingComesFrom(Run(steps[..last]).value, steps[last]);
    if steps[last] != Advance(EndsRun) {
      EndingIsTheWorks(steps[..last]);
    }
  }

  /** A timeout never ends the pytest run: only work that raises an interrupt or an exit does. */
  lemma {:induction false} TimeoutNeverEndsTheRun(steps: seq<Step>)
    requires Run(steps).Some? && Advance(EndsRun) !in steps
    ensures !Run(steps).value.place.Ended?
  {
    hide Run;
    if Run(steps).value.place.Ended? {
      EndingIsTheWorks(steps);
    }
  }

  /** A timer that fires between work that raised an exit and the clearing of the flag overtakes
      the exit: the phase is reported failed and the run goes on.  One step later it does not. */
  lemma {:induction false} ExitOvertaken(steps: seq<Step>, ending: Ending)
    requires Run(steps).Some? && Run(steps).value.place.Leaving? && Run(steps).value.ending == EndsRun && !Run(steps).value.Fired()
    ensures var s := Run(steps).value; var cleared := Next(s, Advance(ending)).value;
      && Next(Next(s, Fire).value, Advance(ending)).value.place.Caught?
      && cleared.place.Left? && Next(Next(cleared, Fire).value, Advance(ending)).value.place.Ended?
  {
    EveryRunKeeps(steps);
    hide Carried, ReportsSoFar, Worked, Carriers;
  }
}
