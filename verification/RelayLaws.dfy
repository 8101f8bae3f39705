/** What the relay's invariant gives its callers: a stop that leaves nothing open, exactly what an
    outage leaves to the pumps, joins that end, a leak check that misses nothing. */
module RelayLaws {
  import opened Outcome
  import opened TcpRelay

  lemma {:induction false} RunOn(steps: seq<Step>, step: Step)
    ensures Run(steps + [step]) == match Run(steps) case None => None case Some(s) => Next(s, step)
  {
    assert (steps + [step])[..|steps|] == steps;
  }

  ghost predicate AllDone(s: Relay) {
    && (forall t :: t in s.accepts ==> s.accepts[t].Done())
    && (forall p :: p in s.pumps ==> s.pumps[p].Finished?)
  }

  // ---- Stop ------------------------------------------------------------------------------

  lemma NothingOwnedIsOpen(s: Relay)
    requires Inv(s) && s.live == {} && s.ctl.Conns() == {} && HeldNow(s) == {}
    requires forall p :: p in s.pumps ==> s.pumps[p].Finished?
    ensures s.open == {}
  {
    hide Lists, Phases, Ports, ActingOk, ThreadsOk, PumpsOk, DistinctSources, HeldNow;
  }

  lemma ListedPumpsAreAll(s: Relay)
    requires Inv(s) && forall p :: p in s.pumpThreads && p in s.pumps ==> !s.pumps[p].Alive()
    ensures forall p :: p in s.pumps ==> s.pumps[p].Finished?
  {
    hide Lists, Phases, Ports, ActingOk, ThreadsOk, DistinctSources, SocketsOk;
    forall p | p in s.pumps
      ensures s.pumps[p].Finished?
    {
      assert PumpOk(s, p);
    }
  }

  lemma NoneActs(s: Relay)
    requires Inv(s) && s.acceptThread.None?
    ensures HeldNow(s) == {} && forall t :: t in s.accepts ==> s.accepts[t].Done()
  {
    hide Lists, Phases, Ports, PumpsOk, DistinctSources, SocketsOk;
    forall t | t in s.accepts
      ensures s.accepts[t].Done()
    {
      assert ThreadOk(s, t);
    }
  }

  /** Whatever ran before and in between, once a stop returns every thread is done, no socket and
      no listener is open, the leak check passes, and the port is free, unless the relay was
      first started after an earlier stop. */
  lemma {:induction false} StopLeavesNothing(steps: seq<Step>)
    requires Run(steps + [OfOwner(EndStop)]).Some?
    ensures var s := Run(steps + [OfOwner(EndStop)]).value;
      && s.open == {} && s.openListeners == {} && AllDone(s) && !IsLeaked(s) && !s.failure
      && (s.reserved <==> s.port.Some? && s.lateStart)
  {
    RunOn(steps, OfOwner(EndStop));
    EveryRunKeeps(steps);
    EveryRunKeeps(steps + [OfOwner(EndStop)]);
    var before := Run(steps).value;
    ListedPumpsAreAll(before);
    NoneActs(before);
    NothingOwnedIsOpen(before);
    hide ActingOk, ThreadsOk, PumpsOk, DistinctSources, SocketsOk;
  }

  /** The leak check, between the owner's calls, finds exactly what is still held. */
  lemma {:induction false} LeakCheckIsExact(steps: seq<Step>)
    requires Run(steps).Some? && Run(steps).value.ctl.Idle?
    ensures var s := Run(steps).value;
      IsLeaked(s) <==> s.open != {} || s.openListeners != {} || (Acting(s).Some? && Acting(s).value.Alive())
                       || exists p :: p in s.pumps && s.pumps[p].Alive()
  {
    var s := Run(steps).value;
    EveryRunKeeps(steps);
    if !IsLeaked(s) {
      ListedPumpsAreAll(s);
      assert HeldNow(s) == {};
      NothingOwnedIsOpen(s);
    }
    hide ActingOk, ThreadsOk, DistinctSources, SocketsOk, Ports, Phases;
  }

  // ---- The port of a relay started after a stop --------------------------------------------

  const LATE_START: seq<Step> :=
    [OfOwner(BeginStop), OfOwner(TakeConns), OfOwner(JoinAccept), OfOwner(EndSever), OfOwner(EndStop),
     OfOwner(Start(7000, false)),
     OfOwner(BeginStop), OfOwner(TakeConns), OfOwner(JoinAccept), OfOwner(EndSever), OfOwner(EndStop)]

  lemma RunPrefix(steps: seq<Step>, n: nat)
    requires 0 < n <= |steps|
    ensures Run(steps[..n]) == match Run(steps[..n - 1]) case None => None case Some(s) => Next(s, steps[n - 1])
  {
    assert steps[..n][..n - 1] == steps[..n - 1];
  }

  /** Stopped, started, stopped: the second stop has nothing left to release the port with. */
  lemma LateStartKeepsItsPort()
    ensures Run(LATE_START).Some? && Run(LATE_START).value.reserved
  {
    for n := 1 to 12
      invariant 1 <= n <= 12 && Run(LATE_START[..n - 1]).Some?
      invariant var s := Run(LATE_START[..n - 1]).value;
        s == FRESH.(ctl := s.ctl, stopped := n > 1, port := if n > 6 then Some(7000) else None, reserved := n > 6,
                    lateStart := n > 6)
        && s.ctl == match if n > 6 then n - 6 else n
                    case 1 => Idle case 2 => StopEntered(n > 6) case 3 => Joining({}, Stop(n > 6))
                    case 4 => Dropping({}, Stop(n > 6)) case 5 => StopJoining(n > 6) case _ => Idle
    {
      RunPrefix(LATE_START, n);
    }
    assert LATE_START[..11] == LATE_START;
  }

  // ---- Sever -----------------------------------------------------------------------------

  /** Nothing listens, nothing is adopted, no pump can read, and what is still open a pump is about
      to close. */
  ghost predicate Outage(s: Relay) {
    && s.listener.None? && s.openListeners == {} && s.live == {}
    && (forall t :: t in s.accepts ==> s.accepts[t].Done())
    && (forall p :: p in s.pumps && s.pumps[p].Registered() ==> s.pumps[p].way.src !in s.open)
    && (forall o :: o in s.open ==> ClosedByPump(s.pumps, o))
  }

  /** What is left to the pumps: none receives, and one sends exactly where it holds a chunk and the
      other way's pump has yet to close the socket it goes to. */
  ghost predicate OnlyLateChunks(s: Relay) {
    forall p :: p in s.pumps ==>
      && PumpDoes(s, p, Receive).None?
      && (PumpDoes(s, p, Forward).Some? <==> s.pumps[p].Sending? && s.pumps[p].way.dst in s.open)
      && (PumpDoes(s, p, Forward).Some? ==> ClosedByPump(s.pumps, s.pumps[p].way.dst))
  }

  lemma OutageLeavesLateChunks(s: Relay)
    requires Outage(s)
    ensures OnlyLateChunks(s)
  {
    hide ClosedByPump;
  }

  /** Once a sever is over every connection it found is closed, and no pump forwards but the chunk it
      holds, to a socket its peer has yet to close. */
  lemma {:induction false} SeverIsTotal(steps: seq<Step>)
    requires Run(steps + [OfOwner(EndSever)]).Some?
    ensures var s := Run(steps + [OfOwner(EndSever)]).value; Outage(s) && s.acceptThread.None? && OnlyLateChunks(s)
  {
    RunOn(steps, OfOwner(EndSever));
    EveryRunKeeps(steps);
    var s := Run(steps).value;
    SeveredIsOut(s);
    OutageLeavesLateChunks(Next(s, OfOwner(EndSever)).value);
    hide Inv, Outage, OnlyLateChunks;
  }

  lemma SeveredIsOut(s: Relay)
    requires Inv(s) && OwnerDoes(s, EndSever).Some?
    ensures Outage(OwnerDoes(s, EndSever).value) && OwnerDoes(s, EndSever).value.acceptThread.None?
  {
    NoneActs(s);
    hide ActingOk, ThreadsOk, DistinctSources, ClosedByPump, HeldNow;
    assert forall p :: p in s.pumps ==> PumpOk(s, p);
    assert forall o :: o in s.open ==> Owned(s, o);
  }

  predicate Reopens(step: Step) { step.OfOwner? && ((step.owner.Start? && step.owner.binds) || step.owner == Restore(true)) }

  lemma OutageOverAccept(s: Relay, t: nat, step: AcceptStep)
    requires Outage(s) && t in s.accepts && AcceptDoes(s, t, step).Some?
    ensures Outage(AcceptDoes(s, t, step).value)
  {
    hide Took, Dropped, Adopted, Pumped, ListenerFailed;
    assert step.Leave?;
  }

  /** A pump moves on with its sockets, or takes its source off the live list, or closes it. */
  lemma PumpOnlyCloses(s: Relay, p: nat, step: PumpStep)
    requires p in s.pumps && PumpDoes(s, p, step).Some?
    ensures var r := PumpDoes(s, p, step).value;
      && r.listener == s.listener && r.openListeners == s.openListeners && r.accepts == s.accepts
      && r.live <= s.live && r.open == (if s.pumps[p].Closing? then s.open - {s.pumps[p].source} else s.open)
      && p in r.pumps && r.pumps == s.pumps[p := r.pumps[p]]
      && (r.pumps[p].Registered() ==> s.pumps[p].Registered() && r.pumps[p].way == s.pumps[p].way)
  {
    var r := PumpDoes(s, p, step).value;
    match step
    case Receive => assert r.pumps[p].Showing? || r.pumps[p].Sending?;
    case ObserverPasses => assert r.pumps[p].Sending?;
    case ObserverRaises => assert r.pumps[p].Unwinding?;
    case Forward => assert r.pumps[p].Reading?;
    case End => assert r.pumps[p].Unwinding?;
    case Deregister => assert r.pumps[p].Closing?;
    case CloseSource => assert r.pumps[p].Finished?;
  }

  lemma OutagePumpFalls(s: Relay, p: nat, step: PumpStep)
    requires p in s.pumps && PumpDoes(s, p, step).Some? && (s.pumps[p].Registered() ==> s.pumps[p].way.src !in s.open)
    ensures PumpFalls(s, p, step)
  {
  }

  lemma OutageOverPump(s: Relay, p: nat, step: PumpStep)
    requires Outage(s) && p in s.pumps && PumpDoes(s, p, step).Some?
    ensures Outage(PumpDoes(s, p, step).value) && PumpFalls(s, p, step)
  {
    PumpOnlyCloses(s, p, step);
    OutagePumpFalls(s, p, step);
    hide PumpDoes, PumpFalls;
    var r := PumpDoes(s, p, step).value;
    forall o | o in r.open
      ensures ClosedByPump(r.pumps, o)
    {
      var k :| k in s.pumps && s.pumps[k] == Closing(o);
      assert r.pumps[k] == Closing(o);
    }
  }

  lemma OutageOverOwner(s: Relay, step: OwnerStep)
    requires Outage(s) && OwnerDoes(s, step).Some? && !Reopens(OfOwner(step))
    ensures Outage(OwnerDoes(s, step).value)
  {
    OwnerOnlyCloses(s, step);
    hide OwnerDoes;
  }

  lemma OwnerOnlyCloses(s: Relay, step: OwnerStep)
    requires OwnerDoes(s, step).Some? && !Reopens(OfOwner(step))
    ensures var r := OwnerDoes(s, step).value;
      && r.accepts == s.accepts && r.pumps == s.pumps && r.open <= s.open
      && (r.listener == s.listener || r.listener.None?) && r.openListeners <= s.openListeners && r.live <= s.live
  {
    hide Opened, Severed;
    SeveredOnlyCloses(s, Sever);
    if s.ctl.StopEntered? {
      SeveredOnlyCloses(s, Stop(s.ctl.again));
    }
  }

  lemma SeveredOnlyCloses(s: Relay, goal: Goal)
    ensures var r := Severed(s, goal);
      && r.accepts == s.accepts && r.pumps == s.pumps && r.open == s.open
      && r.listener.None? && r.openListeners <= s.openListeners && r.live == {}
  {
  }

  /** And it lasts until the owner re-opens the listener; each pump step in it brings the pump nearer
      its end, so a pump sends at most the chunk it holds. */
  lemma OutageLasts(s: Relay, step: Step)
    requires Outage(s) && Next(s, step).Some? && !Reopens(step)
    ensures Outage(Next(s, step).value) && OnlyLateChunks(Next(s, step).value)
    ensures step.OfPump? ==> PumpFalls(s, step.thread, step.pump)
  {
    hide Outage, OnlyLateChunks, Next, PumpFalls;
    OutageStays(s, step);
    OutageLeavesLateChunks(Next(s, step).value);
  }

  lemma OutageStays(s: Relay, step: Step)
    requires Outage(s) && Next(s, step).Some? && !Reopens(step)
    ensures Outage(Next(s, step).value)
    ensures step.OfPump? ==> PumpFalls(s, step.thread, step.pump)
  {
    hide AcceptDoes, OwnerDoes, PumpDoes, Outage, PumpFalls;
    match step
    case OfAccept(t, a) => OutageOverAccept(s, t, a);
    case OfPump(p, a) => OutageOverPump(s, p, a);
    case OfOwner(a) => OutageOverOwner(s, a);
  }

  // ---- Joins end -------------------------------------------------------------------------

  /** How far an accept thread that has lost its listener is from its end. */
  function AcceptRank(pc: Accept): nat {
    match pc
    case Exited(_) => 0
    case Died(_) => 0
    case Leaving(_) => 1
    case Failing(_) => 2
    case Checking(_) => 2
    case Erring(_, _) => 3
    case Accepting(_) => 4
    case StartingBack(_, _, _) => 5
    case StartingBoth(_, _, _, _) => 6
    case Observing(_, _, _) => 7
    case Pairing(_, _, _) => 8
    case Connecting(_, _) => 9
  }

  function PumpRank(pc: Pump): nat {
    match pc
    case Finished => 0
    case Closing(_) => 1
    case Unwinding(_) => 2
    case Reading(_) => 3
    case Sending(_) => 4
    case Showing(_) => 5
  }

  /** The step brings the thread nearer its end. */
  predicate AcceptFalls(s: Relay, t: nat, step: AcceptStep)
    requires t in s.accepts
  {
    var r := AcceptDoes(s, t, step);
    r.Some? && t in r.value.accepts && AcceptRank(r.value.accepts[t]) < AcceptRank(s.accepts[t])
  }

  predicate PumpFalls(s: Relay, p: nat, step: PumpStep)
    requires p in s.pumps
  {
    var r := PumpDoes(s, p, step);
    r.Some? && p in r.value.pumps && PumpRank(r.value.pumps[p]) < PumpRank(s.pumps[p])
  }

  lemma WithoutListenerFalls(s: Relay, t: nat, step: AcceptStep)
    requires s.listener.None? && s.openListeners == {} && t in s.accepts && AcceptDoes(s, t, step).Some?
    ensures AcceptFalls(s, t, step)
  {
    hide AcceptDoes, AcceptFalls;
    match step
    case StartPump => ActingFalls(s, t, step);
    case FailListener => ActingFalls(s, t, step);
    case StartPair => ActingFalls(s, t, step);
    case GetClient => ActingFalls(s, t, step);
    case Connect => ActingFalls(s, t, step);
    case ConnectError => ActingFalls(s, t, step);
    case _ => MovingFalls(s, t, step);
  }

  /** The steps that only move the thread on. */
  lemma MovingFalls(s: Relay, t: nat, step: AcceptStep)
    requires s.listener.None? && s.openListeners == {} && t in s.accepts && AcceptDoes(s, t, step).Some?
    requires step in {Check, TimeOut, AcceptError, Recheck, FactoryRaises, Leave} || step.Observe?
    ensures AcceptFalls(s, t, step)
  {
    hide Took, Dropped, Adopted, Pumped, ListenerFailed;
  }

  lemma ActingFalls(s: Relay, t: nat, step: AcceptStep)
    requires s.listener.None? && s.openListeners == {} && t in s.accepts && AcceptDoes(s, t, step).Some?
    requires step in {StartPump, FailListener, StartPair, GetClient, Connect, ConnectError}
    ensures AcceptFalls(s, t, step)
  {
    match step
    case StartPump =>
    case FailListener =>
    case StartPair =>
    case GetClient =>
    case Connect =>
    case ConnectError =>
  }

  lemma AliveCanStep(s: Relay, t: nat)
    requires t in s.accepts && s.accepts[t].Alive()
    ensures exists a :: AcceptDoes(s, t, a).Some?
  {
    hide Moved, Took, Dropped, Adopted, Pumped, ListenerFailed;
    match s.accepts[t]
    case Checking(_) => assert AcceptDoes(s, t, Check).Some?;
    case Accepting(_) => assert AcceptDoes(s, t, TimeOut).Some?;
    case Erring(_, _) => assert AcceptDoes(s, t, Recheck).Some?;
    case Connecting(_, _) => assert AcceptDoes(s, t, Connect).Some?;
    case Pairing(_, _, _) => assert AcceptDoes(s, t, StartPair).Some?;
    case Observing(_, _, _) => assert AcceptDoes(s, t, Observe(false)).Some?;
    case StartingBoth(_, _, _, _) => assert AcceptDoes(s, t, StartPump).Some?;
    case StartingBack(_, _, _) => assert AcceptDoes(s, t, StartPump).Some?;
    case Failing(_) => assert AcceptDoes(s, t, FailListener).Some?;
    case Leaving(_) => assert AcceptDoes(s, t, Leave).Some?;
  }

  /** While a sever waits for the accept thread, each step of the thread brings it nearer its
      end, and until then it has a step to take. */
  lemma {:induction false} AcceptJoinEnds(steps: seq<Step>, t: nat)
    requires Run(steps).Some? && Run(steps).value.ctl.Joining? && t in Run(steps).value.accepts
    ensures var s := Run(steps).value;
      && (forall a :: AcceptDoes(s, t, a).Some? ==> AcceptFalls(s, t, a))
      && (s.accepts[t].Alive() ==> exists a :: AcceptDoes(s, t, a).Some?)
  {
    EveryRunKeeps(steps);
    var s := Run(steps).value;
    assert s.listener.None? && s.openListeners == {};
    hide AcceptDoes, AcceptFalls, Inv;
    forall a | AcceptDoes(s, t, a).Some?
      ensures AcceptFalls(s, t, a)
    {
      WithoutListenerFalls(s, t, a);
    }
    if s.accepts[t].Alive() {
      AliveCanStep(s, t);
    }
  }

  /** While a stop waits for the pumps, each pump step brings its pump nearer its end, and until
      then it has one to take: no pump can go on reading. */
  lemma {:induction false} PumpJoinEnds(steps: seq<Step>, p: nat)
    requires Run(steps).Some? && Run(steps).value.ctl.StopJoining? && p in Run(steps).value.pumps
    ensures var s := Run(steps).value;
      && (forall a :: PumpDoes(s, p, a).Some? ==> PumpFalls(s, p, a))
      && (s.pumps[p].Alive() ==> exists a :: PumpDoes(s, p, a).Some?)
  {
    EveryRunKeeps(steps);
    var s := Run(steps).value;
    assert PumpOk(s, p);
    assert s.pumps[p].Registered() ==> s.pumps[p].way.src !in s.open;
    hide Inv, PumpFalls;
    forall a | PumpDoes(s, p, a).Some?
      ensures PumpFalls(s, p, a)
    {
      OutagePumpFalls(s, p, a);
    }
    match s.pumps[p]
    case Reading(_) => assert PumpDoes(s, p, End).Some?;
    case Showing(_) => assert PumpDoes(s, p, ObserverPasses).Some?;
    case Sending(_) => assert PumpDoes(s, p, End).Some?;
    case Unwinding(_) => assert PumpDoes(s, p, Deregister).Some?;
    case Closing(_) => assert PumpDoes(s, p, CloseSource).Some?;
    case Finished =>
  }

  // ---- Failures --------------------------------------------------------------------------

  /** A step that meets a fault of its own: an upstream that refuses, an observer that raises, an
      accept that fails on a listener still open. */
  predicate IsFault(s: Relay, step: Step) {
    match step
    case OfAccept(t, ConnectError) => true
    case OfAccept(t, AcceptError) => t in s.accepts && s.accepts[t].l in s.openListeners
    case OfPump(_, ObserverRaises) => true
    case _ => false
  }

  ghost predicate FaultAt(steps: seq<Step>, n: nat) {
    n < |steps| && Run(steps[..n]).Some? && IsFault(Run(steps[..n]).value, steps[n])
  }

  lemma AcceptFaultIsRecorded(s: Relay, t: nat, step: AcceptStep)
    requires t in s.accepts && AcceptDoes(s, t, step).Some? && AcceptDoes(s, t, step).value.faulted
    ensures s.faulted || IsFault(s, OfAccept(t, step))
  {
  }

  lemma FaultIsRecorded(s: Relay, step: Step)
    requires Next(s, step).Some? && Next(s, step).value.faulted
    ensures s.faulted || IsFault(s, step)
  {
    hide AcceptDoes, PumpDoes, OwnerDoes;
    match step
    case OfAccept(t, a) => AcceptFaultIsRecorded(s, t, a);
    case OfPump(p, a) => PumpFaultIsRecorded(s, p, a);
    case OfOwner(a) => OwnerRecordsNone(s, a);
  }

  lemma PumpFaultIsRecorded(s: Relay, p: nat, step: PumpStep)
    requires p in s.pumps && PumpDoes(s, p, step).Some? && PumpDoes(s, p, step).value.faulted
    ensures s.faulted || step.ObserverRaises?
  {
  }

  lemma OwnerRecordsNone(s: Relay, step: OwnerStep)
    requires OwnerDoes(s, step).Some?
    ensures OwnerDoes(s, step).value.faulted == s.faulted
  {
  }

  /** No failure is ever on record but for such a step: a sever's own close is not one. */
  lemma {:induction false} FailureHasACause(steps: seq<Step>)
    requires Run(steps).Some? && (Run(steps).value.failure || Run(steps).value.faulted)
    ensures exists n: nat :: FaultAt(steps, n)
    decreases |steps|
  {
    hide Next, IsFault;
    EveryRunKeeps(steps);
    var last := |steps| - 1;
    assert steps != [];
    var s := Run(steps[..last]).value;
    FaultIsRecorded(s, steps[last]);
    if s.faulted {
      FailureHasACause(steps[..last]);
      var n: nat :| FaultAt(steps[..last], n);
      assert steps[..last][..n] == steps[..n];
      assert FaultAt(steps, n);
    } else {
      assert FaultAt(steps, last);
    }
  }

  /** A listener still open with its accept thread gone: only an observer factory that raised
      leaves that. */
  lemma {:induction false} DeadListenerMeansFactory(steps: seq<Step>, t: nat)
    requires Run(steps).Some? && t in Run(steps).value.accepts && !Run(steps).value.accepts[t].Alive()
    requires Run(steps).value.listener == Some(Run(steps).value.accepts[t].l)
    ensures Run(steps).value.accepts[t].Died?
  {
    EveryRunKeeps(steps);
    assert ThreadOk(Run(steps).value, t);
  }

  const SILENT: seq<Step> :=
    [OfOwner(Start(7000, true)), OfAccept(1, Check), OfAccept(1, GetClient), OfAccept(1, Connect), OfAccept(1, StartPair),
     OfAccept(1, FactoryRaises)]

  /** The relay of `SILENT` with its accept thread at `pc`. */
  function ServingAt(pc: Accept, live: set<nat>, open: set<nat>, next: nat): Relay {
    FRESH.(port := Some(7000), reserved := true, listener := Some(0), openListeners := {0}, acceptThread := Some(1),
           accepts := map[1 := pc], live := live, open := open, next := next)
  }

  /** And such a thread dies with no failure on record, its listener still open and its pair on
      the live list. */
  lemma FactoryRaiseIsSilent()
    ensures Run(SILENT) == Some(ServingAt(Died(0), {2, 3}, {2, 3}, 4))
  {
    FactoryAsked(SILENT);
    SilentEnds();
    hide Next, Run;
    Then(SILENT, 6, ServingAt(Observing(0, 2, 3), {2, 3}, {2, 3}, 4), ServingAt(Died(0), {2, 3}, {2, 3}, 4));
    assert SILENT[..6] == SILENT;
  }

  lemma Then(steps: seq<Step>, n: nat, s: Relay, r: Relay)
    requires 0 < n <= |steps| && Run(steps[..n - 1]) == Some(s) && Next(s, steps[n - 1]) == Some(r)
    ensures Run(steps[..n]) == Some(r)
  {
    hide Next;
    RunPrefix(steps, n);
  }

  /** Any run that begins as `SILENT` does up to the factory's call. */
  lemma FactoryAsked(steps: seq<Step>)
    requires |steps| >= 5 && steps[..5] == SILENT[..5]
    ensures Run(steps[..5]) == Some(ServingAt(Observing(0, 2, 3), {2, 3}, {2, 3}, 4))
  {
    assert forall i :: 0 <= i < 5 ==> steps[i] == steps[..5][i] == SILENT[i];
    SilentStarts();
    SilentSteps();
    SilentEnds();
    assert Run(steps[..0]) == Some(FRESH);
    hide Next, Run, ServingAt;
    Then(steps, 1, FRESH, ServingAt(Checking(0), {}, {}, 2));
    Then(steps, 2, ServingAt(Checking(0), {}, {}, 2), ServingAt(Accepting(0), {}, {}, 2));
    Then(steps, 3, ServingAt(Accepting(0), {}, {}, 2), ServingAt(Connecting(0, 2), {}, {2}, 3));
    Then(steps, 4, ServingAt(Connecting(0, 2), {}, {2}, 3), ServingAt(Pairing(0, 2, 3), {}, {2, 3}, 4));
    Then(steps, 5, ServingAt(Pairing(0, 2, 3), {}, {2, 3}, 4), ServingAt(Observing(0, 2, 3), {2, 3}, {2, 3}, 4));
  }

  lemma SilentStarts()
    ensures Next(FRESH, SILENT[0]) == Some(ServingAt(Checking(0), {}, {}, 2))
  {
    var none: map<nat, Accept> := map[];
    assert none[1 := Checking(0)] == map[1 := Checking(0)];
    var empty: set<nat> := {};
    assert empty + {0} == {0};
  }

  lemma OneThread(a: Accept, b: Accept)
    ensures map[1 := a][1 := b] == map[1 := b]
  {
  }

  lemma SilentSteps()
    ensures Next(ServingAt(Checking(0), {}, {}, 2), SILENT[1]) == Some(ServingAt(Accepting(0), {}, {}, 2))
    ensures Next(ServingAt(Accepting(0), {}, {}, 2), SILENT[2]) == Some(ServingAt(Connecting(0, 2), {}, {2}, 3))
    ensures Next(ServingAt(Connecting(0, 2), {}, {2}, 3), SILENT[3]) == Some(ServingAt(Pairing(0, 2, 3), {}, {2, 3}, 4))
  {
    OneThread(Checking(0), Accepting(0));
    OneThread(Accepting(0), Connecting(0, 2));
    OneThread(Connecting(0, 2), Pairing(0, 2, 3));
    assert {} + {2} == {2} && {2} + {3} == {2, 3};
  }

  lemma SilentEnds()
    ensures Next(ServingAt(Pairing(0, 2, 3), {}, {2, 3}, 4), SILENT[4]) == Some(ServingAt(Observing(0, 2, 3), {2, 3}, {2, 3}, 4))
    ensures Next(ServingAt(Observing(0, 2, 3), {2, 3}, {2, 3}, 4), SILENT[5]) == Some(ServingAt(Died(0), {2, 3}, {2, 3}, 4))
  {
    OneThread(Pairing(0, 2, 3), Observing(0, 2, 3));
    OneThread(Observing(0, 2, 3), Died(0));
    assert {} + {2, 3} == {2, 3};
  }

  // ---- A chunk sent after a sever ----------------------------------------------------------

  /** One pump holds a chunk and the other has taken the upstream off the live list when the sever comes. */
  const LATE_CHUNK: seq<Step> :=
    [OfOwner(Start(7000, true)), OfAccept(1, Check), OfAccept(1, GetClient), OfAccept(1, Connect), OfAccept(1, StartPair),
     OfAccept(1, Observe(false)), OfAccept(1, StartPump), OfAccept(1, StartPump),
     OfPump(4, Receive), OfPump(5, End), OfPump(5, Deregister),
     OfOwner(BeginSever), OfAccept(1, Check), OfAccept(1, Leave), OfOwner(JoinAccept), OfOwner(Drop(2)), OfOwner(EndSever)]

  const OUT := Direction(2, 3, false)

  const BACK := Direction(3, 2, false)

  /** The relay of `LATE_CHUNK` with both pumps started. */
  function PumpingAt(pc: Accept, out: Pump, back: Pump, live: set<nat>): Relay {
    ServingAt(pc, live, {2, 3}, 6).(pumps := map[4 := out, 5 := back], pumpThreads := {4, 5})
  }

  /** And with the sever under way. */
  function SeveringAt(pc: Accept, open: set<nat>, ctl: Controller): Relay {
    PumpingAt(pc, Sending(OUT), Closing(3), {}).(listener := None, openListeners := {}, open := open, ctl := ctl,
                                                 acceptThread := if ctl.Joining? then Some(1) else None)
  }

  /** The sever has returned, the client is closed, and its last chunk can still go out. */
  lemma LateChunkIsSent()
    ensures Run(LATE_CHUNK) == Some(SeveringAt(Exited(0), {3}, Idle))
    ensures Next(SeveringAt(Exited(0), {3}, Idle), OfPump(4, Forward)).Some?
  {
    var steps := LATE_CHUNK;
    assert steps[..5] == SILENT[..5];
    FactoryAsked(steps);
    LatePumps(steps);
    LateSever(steps);
    SeverReturns();
    assert steps[..17] == steps;
  }

  /** The relay of `LATE_CHUNK` with one pump started. */
  function OnePump(): Relay {
    ServingAt(StartingBack(0, 2, 3), {2, 3}, {2, 3}, 5).(pumps := map[4 := Reading(OUT)], pumpThreads := {4})
  }

  lemma LatePumps(steps: seq<Step>)
    requires steps == LATE_CHUNK && Run(steps[..5]) == Some(ServingAt(Observing(0, 2, 3), {2, 3}, {2, 3}, 4))
    ensures Run(steps[..11]) == Some(PumpingAt(Checking(0), Sending(OUT), Closing(3), {2}))
  {
    PumpsStart();
    var asked, both := ServingAt(Observing(0, 2, 3), {2, 3}, {2, 3}, 4), ServingAt(StartingBoth(0, 2, 3, false), {2, 3}, {2, 3}, 4);
    assert steps[5..8] == [OfAccept(1, Observe(false)), OfAccept(1, StartPump), OfAccept(1, StartPump)];
    assert steps[8] == OfPump(4, Receive) && steps[9] == OfPump(5, End) && steps[10] == OfPump(5, Deregister);
    hide Next, Run, PumpingAt, ServingAt, OnePump;
    Then(steps, 6, asked, both);
    Then(steps, 7, both, OnePump());
    Then(steps, 8, OnePump(), PumpingAt(Checking(0), Reading(OUT), Reading(BACK), {2, 3}));
    LateReceive(steps);
  }

  lemma LateReceive(steps: seq<Step>)
    requires |steps| > 10 && steps[8] == OfPump(4, Receive) && steps[9] == OfPump(5, End) && steps[10] == OfPump(5, Deregister)
    requires Run(steps[..8]) == Some(PumpingAt(Checking(0), Reading(OUT), Reading(BACK), {2, 3}))
    ensures Run(steps[..11]) == Some(PumpingAt(Checking(0), Sending(OUT), Closing(3), {2}))
  {
    PumpsMove();
    hide Next, Run, PumpingAt;
    Then(steps, 9, PumpingAt(Checking(0), Reading(OUT), Reading(BACK), {2, 3}), PumpingAt(Checking(0), Sending(OUT), Reading(BACK), {2, 3}));
    Then(steps, 10, PumpingAt(Checking(0), Sending(OUT), Reading(BACK), {2, 3}), PumpingAt(Checking(0), Sending(OUT), Unwinding(BACK), {2, 3}));
    Then(steps, 11, PumpingAt(Checking(0), Sending(OUT), Unwinding(BACK), {2, 3}), PumpingAt(Checking(0), Sending(OUT), Closing(3), {2}));
  }

  lemma PumpsStart()
    ensures var asked, both := ServingAt(Observing(0, 2, 3), {2, 3}, {2, 3}, 4), ServingAt(StartingBoth(0, 2, 3, false), {2, 3}, {2, 3}, 4);
      && Next(asked, OfAccept(1, Observe(false))) == Some(both) && Next(both, OfAccept(1, StartPump)) == Some(OnePump())
      && Next(OnePump(), OfAccept(1, StartPump)) == Some(PumpingAt(Checking(0), Reading(OUT), Reading(BACK), {2, 3}))
  {
    OneThread(Observing(0, 2, 3), StartingBoth(0, 2, 3, false));
    OneThread(StartingBoth(0, 2, 3, false), StartingBack(0, 2, 3));
    OneThread(StartingBack(0, 2, 3), Checking(0));
    var none: map<nat, Pump>, nobody: set<nat> := map[], {};
    assert none[4 := Reading(OUT)] == map[4 := Reading(OUT)] && nobody + {4} == {4} && {4} + {5} == {4, 5};
    assert map[4 := Reading(OUT)][5 := Reading(BACK)] == map[4 := Reading(OUT), 5 := Reading(BACK)];
  }

  lemma PumpsMove()
    ensures Next(PumpingAt(Checking(0), Reading(OUT), Reading(BACK), {2, 3}), OfPump(4, Receive))
         == Some(PumpingAt(Checking(0), Sending(OUT), Reading(BACK), {2, 3}))
    ensures Next(PumpingAt(Checking(0), Sending(OUT), Reading(BACK), {2, 3}), OfPump(5, End))
         == Some(PumpingAt(Checking(0), Sending(OUT), Unwinding(BACK), {2, 3}))
    ensures Next(PumpingAt(Checking(0), Sending(OUT), Unwinding(BACK), {2, 3}), OfPump(5, Deregister))
         == Some(PumpingAt(Checking(0), Sending(OUT), Closing(3), {2}))
  {
    TwoPumps(Reading(OUT), Reading(BACK), Sending(OUT), Reading(BACK));
    TwoPumps(Sending(OUT), Reading(BACK), Sending(OUT), Unwinding(BACK));
    TwoPumps(Sending(OUT), Unwinding(BACK), Sending(OUT), Closing(3));
    assert {2, 3} - {3} == {2};
  }

  lemma TwoPumps(a: Pump, b: Pump, c: Pump, d: Pump)
    ensures map[4 := a, 5 := b][4 := c] == map[4 := c, 5 := b] && map[4 := a, 5 := b][5 := d] == map[4 := a, 5 := d]
  {
  }

  lemma LateSever(steps: seq<Step>)
    requires |steps| > 16 && Run(steps[..11]) == Some(PumpingAt(Checking(0), Sending(OUT), Closing(3), {2}))
    requires steps[11] == OfOwner(BeginSever) && steps[12] == OfAccept(1, Check) && steps[13] == OfAccept(1, Leave)
    requires steps[14] == OfOwner(JoinAccept) && steps[15] == OfOwner(Drop(2)) && steps[16] == OfOwner(EndSever)
    ensures Run(steps[..17]) == Some(SeveringAt(Exited(0), {3}, Idle))
  {
    SeverRuns();
    var joining := Joining({2}, Sever);
    hide Next, Run, PumpingAt, SeveringAt;
    Then(steps, 12, PumpingAt(Checking(0), Sending(OUT), Closing(3), {2}), SeveringAt(Checking(0), {2, 3}, joining));
    Then(steps, 13, SeveringAt(Checking(0), {2, 3}, joining), SeveringAt(Leaving(0), {2, 3}, joining));
    Then(steps, 14, SeveringAt(Leaving(0), {2, 3}, joining), SeveringAt(Exited(0), {2, 3}, joining));
    LateReturn(steps);
  }

  lemma LateReturn(steps: seq<Step>)
    requires |steps| > 16 && Run(steps[..14]) == Some(SeveringAt(Exited(0), {2, 3}, Joining({2}, Sever)))
    requires steps[14] == OfOwner(JoinAccept) && steps[15] == OfOwner(Drop(2)) && steps[16] == OfOwner(EndSever)
    ensures Run(steps[..17]) == Some(SeveringAt(Exited(0), {3}, Idle))
  {
    SeverReturns();
    hide Next, Run, SeveringAt;
    Then(steps, 15, SeveringAt(Exited(0), {2, 3}, Joining({2}, Sever)), SeveringAt(Exited(0), {2, 3}, Dropping({2}, Sever)));
    Then(steps, 16, SeveringAt(Exited(0), {2, 3}, Dropping({2}, Sever)), SeveringAt(Exited(0), {3}, Dropping({}, Sever)));
    Then(steps, 17, SeveringAt(Exited(0), {3}, Dropping({}, Sever)), SeveringAt(Exited(0), {3}, Idle));
  }

  lemma SeverRuns()
    ensures var joining := Joining({2}, Sever);
      && Next(PumpingAt(Checking(0), Sending(OUT), Closing(3), {2}), OfOwner(BeginSever)) == Some(SeveringAt(Checking(0), {2, 3}, joining))
      && Next(SeveringAt(Checking(0), {2, 3}, joining), OfAccept(1, Check)) == Some(SeveringAt(Leaving(0), {2, 3}, joining))
      && Next(SeveringAt(Leaving(0), {2, 3}, joining), OfAccept(1, Leave)) == Some(SeveringAt(Exited(0), {2, 3}, joining))
  {
    OneThread(Checking(0), Leaving(0));
    OneThread(Leaving(0), Exited(0));
    assert {0 as nat} - {0} == {};
  }

  lemma SeverReturns()
    ensures Next(SeveringAt(Exited(0), {2, 3}, Joining({2}, Sever)), OfOwner(JoinAccept))
         == Some(SeveringAt(Exited(0), {2, 3}, Dropping({2}, Sever)))
    ensures Next(SeveringAt(Exited(0), {2, 3}, Dropping({2}, Sever)), OfOwner(Drop(2)))
         == Some(SeveringAt(Exited(0), {3}, Dropping({}, Sever)))
    ensures Next(SeveringAt(Exited(0), {3}, Dropping({}, Sever)), OfOwner(EndSever)) == Some(SeveringAt(Exited(0), {3}, Idle))
    ensures Next(SeveringAt(Exited(0), {3}, Idle), OfPump(4, Forward)).Some?
  {
    assert {2, 3} - {2} == {3} && {2 as nat} - {2} == {};
  }
}
