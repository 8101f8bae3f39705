/** The relay as the object its owner holds: `start`, `sever`, `restore`, `stop` and the leak check in
    their own form, the lock regions of the relay threads beside them, and the threads running on
    in every gap as an arbitrary schedule has it.  `trace` is the run so far, in the steps of
    module TcpRelay. */
module RelayObject {
  import opened Outcome
  import opened Threads = TcpRelay
  import opened RelayLaws

  /** What the relay threads do in the n-th gap of the owning thread; a step that is not enabled
      when its turn comes is passed over. */
  type Schedule = nat -> seq<Step>

  datatype RestoreResult = Reopened | AlreadyOpen | BindFailed | NeverStarted | WasStopped

  /** What lies outside the object: its reservation, the open sockets and listeners, the threads, the
      numbers handed out and the history. */
  datatype Outside = Outside(reserved: bool, openListeners: set<nat>, open: set<nat>, accepts: map<nat, Accept>,
                             pumps: map<nat, Pump>, next: nat, faulted: bool, lateStart: bool)

  class SeverableRelay {
    const schedule: Schedule
    var clock: nat
    ghost var trace: seq<Step>

    var port: Option<nat>
    var listener: Option<nat>
    var acceptThread: Option<nat>
    var pumpThreads: set<nat>
    var live: set<nat>
    var stopped: bool
    var failure: bool

    var ctl: Controller
    var outside: Outside

    function Value(): Relay
      reads this
    {
      Relay(port, outside.reserved, listener, outside.openListeners, acceptThread, outside.accepts, pumpThreads,
            outside.pumps, live, outside.open, stopped, failure, ctl, outside.next, outside.faulted, outside.lateStart)
    }

    ghost predicate Valid()
      reads this
    {
      Run(trace) == Some(Value())
    }

    constructor (schedule: Schedule)
      ensures Valid() && Value() == FRESH && this.schedule == schedule
    {
      this.schedule, clock, trace := schedule, 0, [];
      port, listener, acceptThread, pumpThreads, live, stopped, failure := None, None, None, {}, {}, false, false;
      ctl, outside := Idle, Outside(false, {}, {}, map[], map[], 0, false, false);
    }

    // ---- The lock regions of the relay threads ---------------------------------------------

    /** The locked part of `_start_pair`: a pair accepted before a sever is not adopted after it. */
    method AdoptPair(t: nat)
      requires t in outside.accepts && outside.accepts[t].Pairing?
      modifies `live, `outside
      ensures Some(Value()) == old(AcceptDoes(Value(), t, StartPair))
    {
      var pc := outside.accepts[t];
      if stopped || listener.None? {
        outside := outside.(open := outside.open - {pc.client, pc.upstream}, accepts := outside.accepts[t := Checking(pc.l)]);
        return;
      }
      live := live + {pc.client, pc.upstream};
      outside := outside.(accepts := outside.accepts[t := Observing(pc.l, pc.client, pc.upstream)]);
    }

    /** `_fail_listener`: the failure is recorded, and the listener closed if it is still the one. */
    method CloseFailedListener(t: nat)
      requires t in outside.accepts && outside.accepts[t].Failing?
      modifies `failure, `listener, `outside
      ensures Some(Value()) == old(AcceptDoes(Value(), t, FailListener))
    {
      var l := outside.accepts[t].l;
      failure := true;
      if listener == Some(l) {
        outside := outside.(openListeners := outside.openListeners - {l});
        listener := None;
      }
      outside := outside.(accepts := outside.accepts[t := Leaving(l)]);
    }

    /** The locked part of a pump's unwinding. */
    method DeregisterSource(p: nat)
      requires p in outside.pumps && outside.pumps[p].Unwinding?
      modifies `live, `outside
      ensures Some(Value()) == old(PumpDoes(Value(), p, Deregister))
    {
      var source := outside.pumps[p].way.src;
      if source in live {
        live := live - {source};
      }
      assert live == old(live) - {source};
      outside := outside.(pumps := outside.pumps[p := Closing(source)]);
    }

    /** One step of a relay thread. */
    method Take(step: Step)
      requires Valid() && !step.OfOwner? && Next(Value(), step).Some?
      modifies this
      ensures Valid() && Some(Value()) == old(Next(Value(), step)) && clock == old(clock)
    {
      hide Run, AcceptDoes, PumpDoes, Next;
      RunOn(trace, step);
      trace := trace + [step];
      EnabledMeans(Value(), step);
      if step.OfAccept? && step.accept.StartPair? {
        AdoptPair(step.thread);
      } else if step.OfAccept? && step.accept.FailListener? {
        CloseFailedListener(step.thread);
      } else if step.OfPump? && step.pump.Deregister? {
        DeregisterSource(step.thread);
      } else {
        ThreadsLeaveOwner(Value(), step);
        Become(Next(Value(), step).value);
      }
    }

    method Become(r: Relay)
      requires SameOwner(Value(), r)
      modifies `listener, `pumpThreads, `live, `failure, `outside
      ensures Value() == r
    {
      listener, pumpThreads, live, failure := r.listener, r.pumpThreads, r.live, r.failure;
      outside := Outside(r.reserved, r.openListeners, r.open, r.accepts, r.pumps, r.next, r.faulted, r.lateStart);
    }

    /** A gap: the relay threads run as scheduled. */
    method Others()
      requires Valid()
      modifies this
      ensures Valid() && Beside(old(Value()), Value())
    {
      hide Run, Next;
      var steps := schedule(clock);
      clock := clock + 1;
      BesideItself(Value());
      for i := 0 to |steps|
        invariant Valid() && Beside(old(Value()), Value())
      {
        if !steps[i].OfOwner? && Next(Value(), steps[i]).Some? {
          ghost var before := Value();
          EveryRunKeeps(trace);
          Take(steps[i]);
          StepsBeside(before, steps[i]);
          BesideTwice(old(Value()), before, Value());
        }
      }
    }

    // ---- The owning thread -----------------------------------------------------------------

    /** `_open_listener`. */
    method OpenListener()
      modifies `listener, `acceptThread, `outside
      ensures Value() == old(Opened(Value()))
    {
      var l := outside.next;
      outside := outside.(openListeners := outside.openListeners + {l}, next := l + 2);
      listener := Some(l);
      acceptThread := Some(l + 1);
      outside := outside.(accepts := outside.accepts[l + 1 := Checking(l)]);
    }

    /** False where the relay was started already; a bind that fails leaves the port reserved. */
    method Start(newPort: nat, binds: bool) returns (ok: bool)
      requires Valid() && ctl.Idle?
      modifies this
      ensures Valid() && ctl.Idle? && ok == old(port.None?)
      ensures Value() == if ok then old(OwnerDoes(Value(), Threads.Start(newPort, binds)).value) else old(Value())
    {
      if port.Some? {
        return false;
      }
      hide Run, AcceptDoes, PumpDoes;
      RunOn(trace, OfOwner(Threads.Start(newPort, binds)));
      trace := trace + [OfOwner(Threads.Start(newPort, binds))];
      port, outside := Some(newPort), outside.(reserved := true, lateStart := stopped);
      if binds {
        OpenListener();
      }
      ok := true;
    }

    /** `sever`: whatever the relay threads do meanwhile, when it returns nothing listens, every
        connection it found is closed, and a pump can still send only the chunk it holds, to a socket
        the other way's pump has yet to close. */
    method Sever()
      requires Valid() && ctl.Idle?
      modifies this
      ensures Valid() && ctl.Idle? && Outage(Value()) && OnlyLateChunks(Value()) && acceptThread.None?
      ensures SamePort(old(Value()), Value())
    {
      hide Run, Next, Outage, OnlyLateChunks;
      SeverOnTheWay(Threads.Sever);
      SeverIsTotal(trace[..|trace| - 1]);
    }

    /** The body of `sever`, which `stop` runs too. */
    method SeverOnTheWay(goal: Goal)
      requires Valid() && if goal.Sever? then ctl.Idle? else ctl == StopEntered(goal.again)
      modifies this
      ensures Valid() && trace != [] && trace == trace[..|trace| - 1] + [OfOwner(EndSever)]
      ensures ctl == if goal.Sever? then Idle else StopJoining(goal.again)
      ensures SamePort(old(Value()), Value())
    {
      hide Run, Next;
      CloseListenerAndTakeConns(goal);
      Others();
      JoinAcceptThread();
      DropConns();
      SeverEnds(Value());
      RunOn(trace, OfOwner(EndSever));
      trace := trace + [OfOwner(EndSever)];
      ctl := match goal case Sever => Idle case Stop(again) => StopJoining(again);
    }

    /** The locked part of `sever`. */
    method CloseListenerAndTakeConns(goal: Goal)
      requires Valid() && if goal.Sever? then ctl.Idle? else ctl == StopEntered(goal.again)
      modifies this
      ensures Valid() && Value() == old(Severed(Value(), goal))
    {
      hide Run, Next;
      ghost var first := OfOwner(if goal.Sever? then BeginSever else TakeConns);
      SeverBegins(Value(), goal);
      RunOn(trace, first);
      trace := trace + [first];
      if listener.Some? {
        outside := outside.(openListeners := outside.openListeners - {listener.value});
        listener := None;
      }
      var conns := live;
      live := {};
      ctl := Joining(conns, goal);
    }

    /** The join of the accept thread: the thread gets a turn while it is waited for, and is done
        after finitely many. */
    method JoinAcceptThread()
      requires Valid() && ctl.Joining?
      modifies this
      ensures Valid() && ctl == old(Dropping(ctl.conns, ctl.goal))
      ensures SamePort(old(Value()), Value())
    {
      hide Run, AcceptDoes, PumpDoes, Opened, Severed;
      BesideItself(Value());
      if acceptThread.Some? {
        AwaitThread(acceptThread.value);
      }
      RunOn(trace, OfOwner(JoinAccept));
      trace := trace + [OfOwner(JoinAccept)];
      acceptThread := None;
      ctl := Dropping(ctl.conns, ctl.goal);
    }

    method AwaitThread(t: nat)
      requires Valid() && ctl.Joining? && acceptThread == Some(t)
      modifies this
      ensures Valid() && Beside(old(Value()), Value()) && t in outside.accepts && !outside.accepts[t].Alive()
    {
      hide Run, Next, Beside;
      EveryRunKeeps(trace);
      OnRecord(Value());
      BesideItself(Value());
      while outside.accepts[t].Alive()
        invariant Valid() && Beside(old(Value()), Value()) && t in outside.accepts && ctl.Joining?
        decreases AcceptRank(outside.accepts[t])
      {
        ghost var s0 := Value();
        Others();
        BesideTwice(old(Value()), s0, Value());
        StillJoining(s0, Value(), t);
        if outside.accepts[t].Alive() {
          ghost var s1 := Value();
          AcceptJoinEnds(trace, t);
          EveryRunKeeps(trace);
          ItsTurn(Value(), t);
          EnabledMeans(Value(), OfAccept(t, Turn(outside.accepts[t])));
          assert AcceptFalls(s1, t, Turn(s1.accepts[t]));
          Take(OfAccept(t, Turn(outside.accepts[t])));
          StepsBeside(s1, OfAccept(t, Turn(s1.accepts[t])));
          BesideTwice(old(Value()), s1, Value());
          StillJoining(s1, Value(), t);
        }
      }
    }

    /** The connections a sever took over, closed one by one. */
    method DropConns()
      requires Valid() && ctl.Dropping?
      modifies this
      ensures Valid() && ctl == Dropping({}, old(ctl.goal))
      ensures SamePort(old(Value()), Value())
    {
      hide Run, AcceptDoes, PumpDoes, Opened, Severed;
      while ctl.conns != {}
        invariant Valid() && ctl.Dropping? && ctl.goal == old(ctl.goal)
        invariant SamePort(old(Value()), Value())
        decreases |ctl.conns|
      {
        var conn :| conn in ctl.conns;
        Others();
        RunOn(trace, OfOwner(Drop(conn)));
        trace := trace + [OfOwner(Drop(conn))];
        outside := outside.(open := outside.open - {conn});
        ctl := Dropping(ctl.conns - {conn}, ctl.goal);
      }
    }

    /** `restore`. */
    method Restore(binds: bool) returns (r: RestoreResult)
      requires Valid() && ctl.Idle?
      modifies this
      ensures Valid() && ctl.Idle?
      ensures r == if old(port.None?) then NeverStarted else if old(stopped) then WasStopped
                   else if old(listener.Some?) then AlreadyOpen else if binds then Reopened else BindFailed
      ensures Value() == if r.Reopened? then old(Opened(Value())) else old(Value())
    {
      hide Run, AcceptDoes, PumpDoes, Severed;
      if port.None? {
        return NeverStarted;
      }
      if stopped {
        return WasStopped;
      }
      if listener.Some? {
        return AlreadyOpen;
      }
      if !binds {
        return BindFailed;
      }
      RunOn(trace, OfOwner(Threads.Restore(true)));
      trace := trace + [OfOwner(Threads.Restore(true))];
      OpenListener();
      r := Reopened;
    }

    /** `stop`: whatever the relay threads do meanwhile, when it returns every thread is past its last
        effect, nothing is open, the leak check passes and the port is released, unless the relay was
        first started after an earlier stop.  It raises exactly where a relay thread left a failure on record. */
    method Stop() returns (failed: bool)
      requires Valid() && ctl.Idle?
      modifies this
      ensures Valid() && ctl.Idle? && stopped && port == old(port) && outside.lateStart == old(outside.lateStart)
      ensures AllDone(Value()) && outside.open == {} && outside.openListeners == {} && !IsLeaked(Value())
      ensures outside.reserved <==> port.Some? && outside.lateStart
      ensures failed ==> exists n: nat :: FaultAt(trace, n)
      ensures trace != [] && Run(trace[..|trace| - 1]).Some? && failed == Run(trace[..|trace| - 1]).value.failure
    {
      hide Run, Next, Outage, IsLeaked, FaultAt, AllDone;
      var again := stopped;
      StopBegins(Value());
      RunOn(trace, OfOwner(BeginStop));
      trace := trace + [OfOwner(BeginStop)];
      stopped := true;
      ctl := StopEntered(again);
      Others();
      SeverOnTheWay(Threads.Stop(again));
      JoinPumps();
      failed := ReleasePort(again);
    }

    /** The end of `stop`, with every thread joined. */
    method ReleasePort(again: bool) returns (failed: bool)
      requires Valid() && ctl == StopJoining(again)
      requires forall p :: p in pumpThreads && p in outside.pumps ==> outside.pumps[p].Finished?
      modifies this
      ensures Valid() && ctl.Idle? && stopped == old(stopped) && port == old(port) && outside.lateStart == old(outside.lateStart)
      ensures AllDone(Value()) && outside.open == {} && outside.openListeners == {} && !IsLeaked(Value())
      ensures outside.reserved <==> port.Some? && outside.lateStart
      ensures failed ==> exists n: nat :: FaultAt(trace, n)
      ensures trace == old(trace) + [OfOwner(EndStop)] && failed == old(failure)
    {
      hide Run, Next, Outage, IsLeaked, FaultAt, AllDone;
      StopEnds(Value());
      RunOn(trace, OfOwner(EndStop));
      EveryRunKeeps(trace);
      PortOnRecord(Value());
      StopLeavesNothing(trace);
      if failure {
        FailureHasACause(trace);
        FaultStays(trace, OfOwner(EndStop));
      }
      trace := trace + [OfOwner(EndStop)];
      pumpThreads := {};
      if port.Some? && !again {
        outside := outside.(reserved := false);
      }
      failed := RaiseIfFailed();
      ctl := Idle;
    }

    /** The joins of the pumps, each given its turns while it is waited for. */
    method JoinPumps()
      requires Valid() && ctl.StopJoining?
      modifies this
      ensures Valid() && Beside(old(Value()), Value())
      ensures forall p :: p in pumpThreads && p in outside.pumps ==> outside.pumps[p].Finished?
    {
      hide Run, Next, Beside;
      var pending := pumpThreads;
      BesideItself(Value());
      while pending != {}
        invariant Valid() && Beside(old(Value()), Value()) && ctl.StopJoining? && pending <= pumpThreads
        invariant forall p :: p in pumpThreads && p !in pending && p in outside.pumps ==> outside.pumps[p].Finished?
        decreases |pending|
      {
        var p :| p in pending;
        ghost var s0 := Value();
        EveryRunKeeps(trace);
        JoinPump(p);
        BesideTwice(old(Value()), s0, Value());
        StillFinished(s0, Value());
        pending := pending - {p};
      }
    }

    method JoinPump(p: nat)
      requires Valid() && ctl.StopJoining? && p in outside.pumps
      modifies this
      ensures Valid() && Beside(old(Value()), Value()) && p in outside.pumps && outside.pumps[p].Finished?
    {
      hide Run, Next;
      BesideItself(Value());
      while outside.pumps[p].Alive()
        invariant Valid() && Beside(old(Value()), Value()) && p in outside.pumps
        decreases PumpRank(outside.pumps[p])
      {
        ghost var s0 := Value();
        Others();
        BesideTwice(old(Value()), s0, Value());
        if outside.pumps[p].Alive() {
          ghost var s1 := Value();
          PumpJoinEnds(trace, p);
          EveryRunKeeps(trace);
          PumpsTurn(Value(), p);
          EnabledMeans(Value(), OfPump(p, PumpTurn(outside.pumps[p])));
          assert PumpFalls(s1, p, PumpTurn(s1.pumps[p]));
          Take(OfPump(p, PumpTurn(outside.pumps[p])));
          StepsBeside(s1, OfPump(p, PumpTurn(s1.pumps[p])));
          BesideTwice(old(Value()), s1, Value());
        }
      }
    }

    method RaiseIfFailed() returns (raised: bool)
      modifies `failure
      ensures raised == old(failure) && !failure
    {
      raised := failure;
      failure := false;
    }

    /** `is_leaked`, exact between the owner's calls. */
    method Leaked() returns (leaked: bool)
      requires Valid() && ctl.Idle?
      ensures leaked == IsLeaked(Value())
      ensures leaked <==> outside.open != {} || outside.openListeners != {} || (Acting(Value()).Some? && Acting(Value()).value.Alive())
                          || exists p :: p in outside.pumps && outside.pumps[p].Alive()
    {
      hide Run;
      LeakCheckIsExact(trace);
      if listener.Some? || live != {} {
        return true;
      }
      if acceptThread.Some? && acceptThread.value in outside.accepts && outside.accepts[acceptThread.value].Alive() {
        return true;
      }
      leaked := exists p :: p in pumpThreads && p in outside.pumps && outside.pumps[p].Alive();
    }
  }

  // ---- The threads beside the owner --------------------------------------------------------

  /** What the relay threads may not change, and how near their ends they may only come. */
  ghost predicate Beside(s: Relay, r: Relay) {
    && r.ctl == s.ctl && r.port == s.port && r.stopped == s.stopped && r.reserved == s.reserved && r.lateStart == s.lateStart
    && r.acceptThread == s.acceptThread
    && (forall p :: p in s.pumps ==> p in r.pumps && (s.ctl.StopJoining? ==> PumpRank(r.pumps[p]) <= PumpRank(s.pumps[p])))
    && (forall t :: t in s.accepts ==> t in r.accepts && (s.ctl.Joining? ==> AcceptRank(r.accepts[t]) <= AcceptRank(s.accepts[t])))
    && (s.ctl.StopJoining? ==> r.pumpThreads == s.pumpThreads)
  }

  /** What only the owner's own calls change. */
  predicate SamePort(s: Relay, r: Relay) {
    r.port == s.port && r.reserved == s.reserved && r.stopped == s.stopped && r.lateStart == s.lateStart
  }

  lemma SeverBegins(s: Relay, goal: Goal)
    requires if goal.Sever? then s.ctl.Idle? else s.ctl == StopEntered(goal.again)
    ensures Next(s, OfOwner(if goal.Sever? then BeginSever else TakeConns)) == Some(Severed(s, goal))
  {
    hide AcceptDoes, PumpDoes, Severed;
  }

  lemma SeverEnds(s: Relay)
    requires s.ctl.Dropping? && s.ctl.conns == {}
    ensures Next(s, OfOwner(EndSever)) ==
      Some(s.(ctl := match s.ctl.goal case Sever => Idle case Stop(again) => StopJoining(again)))
  {
    hide AcceptDoes, PumpDoes;
  }

  lemma StopBegins(s: Relay)
    requires s.ctl.Idle?
    ensures Next(s, OfOwner(BeginStop)) == Some(s.(stopped := true, ctl := StopEntered(s.stopped)))
  {
    hide AcceptDoes, PumpDoes;
  }

  lemma StopEnds(s: Relay)
    requires s.ctl.StopJoining? && forall p :: p in s.pumpThreads && p in s.pumps ==> s.pumps[p].Finished?
    ensures Next(s, OfOwner(EndStop)) ==
      Some(s.(pumpThreads := {}, reserved := s.reserved && s.ctl.again, failure := false, ctl := Idle))
  {
    hide AcceptDoes, PumpDoes;
  }

  lemma PortOnRecord(s: Relay)
    requires Inv(s)
    ensures s.reserved ==> s.port.Some?
  {
    hide ActingOk, ThreadsOk, PumpsOk, SocketsOk, DistinctSources, Lists, Phases;
  }

  lemma BesideItself(s: Relay)
    ensures Beside(s, s)
  {
    hide PumpRank, AcceptRank;
  }

  lemma BesideTwice(a: Relay, b: Relay, c: Relay)
    requires Beside(a, b) && Beside(b, c)
    ensures Beside(a, c)
  {
    hide PumpRank, AcceptRank;
  }

  lemma AcceptStepsBeside(s: Relay, t: nat, step: AcceptStep)
    requires Inv(s) && t in s.accepts && AcceptDoes(s, t, step).Some?
    ensures Beside(s, AcceptDoes(s, t, step).value)
  {
    AcceptLeavesOwner(s, t, step);
    AcceptLeavesPumps(s, t, step);
    if s.ctl.Joining? {
      WithoutListenerFalls(s, t, step);
    }
    forall k | k in s.accepts
      ensures var r := AcceptDoes(s, t, step).value; k in r.accepts && (k != t ==> r.accepts[k] == s.accepts[k])
    {
      AcceptLeavesOther(s, t, step, k);
    }
    hide Inv, AcceptDoes, PumpRank, AcceptRank;
  }

  /** The other accept threads stay where they are. */
  lemma AcceptLeavesOther(s: Relay, t: nat, step: AcceptStep, other: nat)
    requires t in s.accepts && AcceptDoes(s, t, step).Some? && other in s.accepts
    ensures var r := AcceptDoes(s, t, step).value;
      t in r.accepts && other in r.accepts && (other != t ==> r.accepts[other] == s.accepts[other])
  {
    match step
    case StartPump =>
    case FailListener =>
    case StartPair =>
    case GetClient =>
    case Connect =>
    case ConnectError =>
    case _ =>
      hide Took, Dropped, Adopted, Pumped, ListenerFailed;
  }

  /** A thread starts a pump under a number no pump has, and none at all once it is joined. */
  lemma AcceptLeavesPumps(s: Relay, t: nat, step: AcceptStep)
    requires Inv(s) && t in s.accepts && AcceptDoes(s, t, step).Some?
    ensures var r := AcceptDoes(s, t, step).value;
      && (forall p :: p in s.pumps ==> p in r.pumps && r.pumps[p] == s.pumps[p])
      && (s.ctl.StopJoining? ==> r.pumpThreads == s.pumpThreads)
  {
    NextIsNew(s);
    assert s.ctl.StopJoining? ==> s.acceptThread.None?;
    if s.acceptThread.None? {
      NoneActs(s);
    }
    hide Inv;
  }

  lemma PumpStepsBeside(s: Relay, p: nat, step: PumpStep)
    requires Inv(s) && p in s.pumps && PumpDoes(s, p, step).Some?
    ensures Beside(s, PumpDoes(s, p, step).value)
  {
    assert PumpOk(s, p);
    hide AcceptRank, ActingOk, ThreadsOk, DistinctSources, SocketsOk, PumpsOk, Ports;
  }

  lemma StepsBeside(s: Relay, step: Step)
    requires Inv(s) && !step.OfOwner? && Next(s, step).Some?
    ensures Beside(s, Next(s, step).value)
  {
    hide Beside, AcceptDoes, PumpDoes;
    match step
    case OfAccept(t, a) => AcceptStepsBeside(s, t, a);
    case OfPump(p, a) => PumpStepsBeside(s, p, a);
  }

  lemma OnRecord(s: Relay)
    requires Inv(s)
    ensures s.acceptThread.Some? ==> s.acceptThread.value in s.accepts
  {
    hide ActingOk, ThreadsOk, PumpsOk, SocketsOk, DistinctSources, Ports, Phases;
  }

  lemma StillJoining(s: Relay, r: Relay, t: nat)
    requires Beside(s, r) && s.ctl.Joining? && t in s.accepts
    ensures r.ctl == s.ctl && t in r.accepts && AcceptRank(r.accepts[t]) <= AcceptRank(s.accepts[t])
  {
    hide PumpRank, AcceptRank;
  }

  lemma StillFinished(s: Relay, r: Relay)
    requires Beside(s, r) && s.ctl.StopJoining?
    ensures forall p :: p in s.pumps && s.pumps[p].Finished? ==> p in r.pumps && r.pumps[p].Finished?
    ensures r.pumpThreads == s.pumpThreads && r.ctl == s.ctl
  {
    hide AcceptRank;
  }

  /** The step an accept thread takes when nothing but its own progress is asked of it. */
  function Turn(pc: Accept): AcceptStep {
    match pc
    case Checking(_) => Check
    case Accepting(_) => TimeOut
    case Erring(_, _) => Recheck
    case Connecting(_, _) => Connect
    case Pairing(_, _, _) => StartPair
    case Observing(_, _, _) => Observe(false)
    case StartingBoth(_, _, _, _) => StartPump
    case StartingBack(_, _, _) => StartPump
    case Failing(_) => FailListener
    case _ => Leave
  }

  function PumpTurn(pc: Pump): PumpStep {
    match pc
    case Reading(_) => End
    case Showing(_) => ObserverPasses
    case Sending(_) => End
    case Unwinding(_) => Deregister
    case _ => CloseSource
  }

  lemma ItsTurn(s: Relay, t: nat)
    requires t in s.accepts && s.accepts[t].Alive()
    ensures Next(s, OfAccept(t, Turn(s.accepts[t]))).Some?
  {
    hide Moved, Took, Dropped, Adopted, Pumped, ListenerFailed;
  }

  lemma PumpsTurn(s: Relay, p: nat)
    requires p in s.pumps && s.pumps[p].Alive()
    ensures Next(s, OfPump(p, PumpTurn(s.pumps[p]))).Some?
  {
  }

  /** What a step's lock region finds, and that the step is that region. */
  lemma EnabledMeans(s: Relay, step: Step)
    requires Next(s, step).Some?
    ensures step.OfAccept? ==> step.thread in s.accepts && Next(s, step) == AcceptDoes(s, step.thread, step.accept)
    ensures step.OfPump? ==> step.thread in s.pumps && Next(s, step) == PumpDoes(s, step.thread, step.pump)
    ensures step.OfAccept? && step.accept.StartPair? ==> s.accepts[step.thread].Pairing?
    ensures step.OfAccept? && step.accept.FailListener? ==> s.accepts[step.thread].Failing?
    ensures step.OfPump? && step.pump.Deregister? ==> s.pumps[step.thread].Unwinding?
  {
    hide Dropped, Adopted, ListenerFailed;
  }

  /** What only the owner writes. */
  predicate SameOwner(s: Relay, r: Relay) {
    && r.port == s.port && r.reserved == s.reserved && r.acceptThread == s.acceptThread && r.stopped == s.stopped
    && r.ctl == s.ctl && r.lateStart == s.lateStart
  }

  lemma AcceptLeavesOwner(s: Relay, t: nat, step: AcceptStep)
    requires t in s.accepts && AcceptDoes(s, t, step).Some?
    ensures SameOwner(s, AcceptDoes(s, t, step).value)
  {
    match step
    case StartPump =>
    case FailListener =>
    case StartPair =>
    case GetClient =>
    case Connect =>
    case ConnectError =>
    case _ =>
      hide Took, Dropped, Adopted, Pumped, ListenerFailed;
  }

  lemma ThreadsLeaveOwner(s: Relay, step: Step)
    requires !step.OfOwner? && Next(s, step).Some?
    ensures SameOwner(s, Next(s, step).value)
  {
    hide AcceptDoes, PumpDoes, SameOwner;
    match step
    case OfAccept(t, a) => AcceptLeavesOwner(s, t, a);
    case OfPump(p, a) => PumpLeavesOwner(s, p, a);
  }

  lemma PumpLeavesOwner(s: Relay, p: nat, step: PumpStep)
    requires p in s.pumps && PumpDoes(s, p, step).Some?
    ensures SameOwner(s, PumpDoes(s, p, step).value)
  {
  }

  lemma FaultStays(steps: seq<Step>, step: Step)
    requires exists n: nat :: FaultAt(steps, n)
    ensures exists n: nat :: FaultAt(steps + [step], n)
  {
    hide Run, IsFault;
    var n: nat :| FaultAt(steps, n);
    assert (steps + [step])[..n] == steps[..n];
    assert FaultAt(steps + [step], n);
  }
}
