/** The severable relay of e2e/src/tai42_e2e/tcprelay.py as interleaved atomic steps: what each
    thread does between two points where another may run, the lock regions whole.

    Sockets, listeners and threads are numbered by one counter, so a new one is never an old
    one.  A join completes: its step is enabled once the joined thread is done. */
module TcpRelay {
  import opened Outcome

  // ---- The threads -----------------------------------------------------------------------

  datatype Direction = Direction(src: nat, dst: nat, observed: bool)

  /** Where an accept thread of listener `l` stands. */
  datatype Accept =
    | Checking(l: nat)
    | Accepting(l: nat)
    | Erring(l: nat, genuine: bool)
    | Connecting(l: nat, client: nat)
    | Pairing(l: nat, client: nat, upstream: nat)
    | Observing(l: nat, client: nat, upstream: nat)
    | StartingBoth(l: nat, client: nat, upstream: nat, observed: bool)
    | StartingBack(l: nat, client: nat, upstream: nat)
    | Failing(l: nat)
    | Leaving(l: nat)
    | Exited(l: nat)
    | Died(l: nat)
  {
    predicate Alive() { !Exited? && !Died? }

    /** Past its last effect. */
    predicate Done() { Leaving? || Exited? || Died? }

    /** The open sockets only this thread knows of. */
    function Held(): set<nat> {
      match this
      case Connecting(_, client) => {client}
      case Pairing(_, client, upstream) => {client, upstream}
      case _ => {}
    }

    /** The adopted sockets it has yet to start a pump for. */
    function Unpumped(): set<nat> {
      match this
      case Observing(_, client, upstream) => {client, upstream}
      case StartingBoth(_, client, upstream, _) => {client, upstream}
      case StartingBack(_, _, upstream) => {upstream}
      case _ => {}
    }
  }

  /** Where a pump stands: between a chunk received and the chunk sent another thread may run. */
  datatype Pump =
    | Reading(way: Direction)
    | Showing(way: Direction)
    | Sending(way: Direction)
    | Unwinding(way: Direction)
    | Closing(source: nat)
    | Finished
  {
    predicate Alive() { !Finished? }

    /** It has yet to take its source off the live list. */
    predicate Registered() { !Closing? && !Finished? }

    function Source(): Option<nat> {
      if Registered() then Some(way.src) else if Closing? then Some(source) else None
    }
  }

  /** What a sever is part of; a stop remembers whether one came before it. */
  datatype Goal = Sever | Stop(again: bool)

  /** Where the owning thread stands: `conns` are the connections a sever took over. */
  datatype Controller =
    | Idle
    | StopEntered(again: bool)
    | Joining(conns: set<nat>, goal: Goal)
    | Dropping(conns: set<nat>, goal: Goal)
    | StopJoining(again: bool)
  {
    function Conns(): set<nat> { if Joining? || Dropping? then conns else {} }

    predicate Stopping() { StopEntered? || StopJoining? || ((Joining? || Dropping?) && goal.Stop?) }

    predicate FirstStop() {
      ((StopEntered? || StopJoining?) && !again) || ((Joining? || Dropping?) && goal == Stop(false))
    }
  }

  /** `faulted` and `lateStart` are history: some thread met a fault no sever caused; the relay
      was first started after a stop. */
  datatype Relay = Relay(
    port: Option<nat>, reserved: bool,
    listener: Option<nat>, openListeners: set<nat>,
    acceptThread: Option<nat>, accepts: map<nat, Accept>,
    pumpThreads: set<nat>, pumps: map<nat, Pump>,
    live: set<nat>, open: set<nat>,
    stopped: bool, failure: bool, ctl: Controller, next: nat,
    faulted: bool, lateStart: bool)

  const FRESH := Relay(None, false, None, {}, None, map[], {}, map[], {}, {}, false, false, Idle, 0, false, false)

  /** `is_leaked`. */
  predicate IsLeaked(s: Relay) {
    || s.listener.Some? || s.live != {}
    || (s.acceptThread.Some? && s.acceptThread.value in s.accepts && s.accepts[s.acceptThread.value].Alive())
    || exists p :: p in s.pumpThreads && p in s.pumps && s.pumps[p].Alive()
  }

  // ---- The accept loop -------------------------------------------------------------------

  datatype AcceptStep =
    | Check | TimeOut | GetClient | AcceptError | Recheck | Connect | ConnectError | FailListener | StartPair
    | Observe(observed: bool) | FactoryRaises | StartPump | Leave

  function Moved(s: Relay, t: nat, pc: Accept, fault: bool): Relay {
    s.(accepts := s.accepts[t := pc], faulted := s.faulted || fault)
  }

  /** The thread moves on with a socket just opened. */
  function Took(s: Relay, t: nat, pc: Accept): Relay {
    s.(accepts := s.accepts[t := pc], open := s.open + {s.next}, next := s.next + 1)
  }

  /** The thread moves on without the sockets it held. */
  function Dropped(s: Relay, t: nat, pc: Accept, fault: bool): Relay
    requires t in s.accepts
  {
    s.(accepts := s.accepts[t := pc], open := s.open - s.accepts[t].Held(), faulted := s.faulted || fault)
  }

  /** The thread puts the sockets it held on the live list. */
  function Adopted(s: Relay, t: nat, pc: Accept): Relay
    requires t in s.accepts
  {
    s.(accepts := s.accepts[t := pc], live := s.live + s.accepts[t].Held())
  }

  /** The thread starts a pump and moves on. */
  function Pumped(s: Relay, t: nat, pc: Accept, way: Direction): Relay {
    s.(accepts := s.accepts[t := pc],
       pumps := s.pumps[s.next := Reading(way)], pumpThreads := s.pumpThreads + {s.next}, next := s.next + 1)
  }

  /** `_fail_listener`, on the way out. */
  function ListenerFailed(s: Relay, t: nat, l: nat): Relay {
    var failed := s.(accepts := s.accepts[t := Leaving(l)], failure := true);
    if s.listener == Some(l) then failed.(listener := None, openListeners := s.openListeners - {l}) else failed
  }

  function AcceptDoes(s: Relay, t: nat, step: AcceptStep): Option<Relay>
    requires t in s.accepts
  {
    var pc := s.accepts[t];
    match step
    case Check =>
      if !pc.Checking? then None
      else Some(Moved(s, t, if s.listener == Some(pc.l) then Accepting(pc.l) else Leaving(pc.l), false))
    case TimeOut => if !pc.Accepting? then None else Some(Moved(s, t, Checking(pc.l), false))
    case GetClient =>
      if !pc.Accepting? || pc.l !in s.openListeners then None else Some(Took(s, t, Connecting(pc.l, s.next)))
    case AcceptError =>
      if !pc.Accepting? then None
      else Some(Moved(s, t, Erring(pc.l, pc.l in s.openListeners), pc.l in s.openListeners))
    case Recheck =>
      if !pc.Erring? then None
      else Some(Moved(s, t, if s.listener == Some(pc.l) then Failing(pc.l) else Leaving(pc.l), false))
    case Connect => if !pc.Connecting? then None else Some(Took(s, t, Pairing(pc.l, pc.client, s.next)))
    case ConnectError => if !pc.Connecting? then None else Some(Dropped(s, t, Failing(pc.l), true))
    case FailListener => if !pc.Failing? then None else Some(ListenerFailed(s, t, pc.l))
    case StartPair =>
      if !pc.Pairing? then None
      else if s.stopped || s.listener.None? then Some(Dropped(s, t, Checking(pc.l), false))
      else Some(Adopted(s, t, Observing(pc.l, pc.client, pc.upstream)))
    case Observe(observed) =>
      if !pc.Observing? then None else Some(Moved(s, t, StartingBoth(pc.l, pc.client, pc.upstream, observed), false))
    case FactoryRaises => if !pc.Observing? then None else Some(Moved(s, t, Died(pc.l), false))
    case StartPump =>
      if pc.StartingBoth? then
        Some(Pumped(s, t, StartingBack(pc.l, pc.client, pc.upstream), Direction(pc.client, pc.upstream, pc.observed)))
      else if pc.StartingBack? then Some(Pumped(s, t, Checking(pc.l), Direction(pc.upstream, pc.client, false)))
      else None
    case Leave => if !pc.Leaving? then None else Some(Moved(s, t, Exited(pc.l), false))
  }

  // ---- The pumps -------------------------------------------------------------------------

  datatype PumpStep = Receive | ObserverPasses | ObserverRaises | Forward | End | Deregister | CloseSource

  /** Pump `p` moves on with its sockets. */
  function PumpAt(s: Relay, p: nat, pc: Pump, fault: bool): Relay {
    s.(pumps := s.pumps[p := pc], failure := s.failure || fault, faulted := s.faulted || fault)
  }

  /** A read or a write on a closed socket raises; `End` is a read that found the end or a read or
      write that raised.  A chunk in hand is shown and sent whatever became of its source. */
  function PumpDoes(s: Relay, p: nat, step: PumpStep): Option<Relay>
    requires p in s.pumps
  {
    var pc := s.pumps[p];
    match step
    case Receive =>
      if !pc.Reading? || pc.way.src !in s.open then None
      else Some(PumpAt(s, p, if pc.way.observed then Showing(pc.way) else Sending(pc.way), false))
    case ObserverPasses => if !pc.Showing? then None else Some(PumpAt(s, p, Sending(pc.way), false))
    case ObserverRaises => if !pc.Showing? then None else Some(PumpAt(s, p, Unwinding(pc.way), true))
    case Forward => if !pc.Sending? || pc.way.dst !in s.open then None else Some(PumpAt(s, p, Reading(pc.way), false))
    case End => if !pc.Reading? && !pc.Sending? then None else Some(PumpAt(s, p, Unwinding(pc.way), false))
    case Deregister =>
      if !pc.Unwinding? then None
      else Some(s.(pumps := s.pumps[p := Closing(pc.way.src)], live := s.live - {pc.way.src}))
    case CloseSource =>
      if !pc.Closing? then None else Some(s.(pumps := s.pumps[p := Finished], open := s.open - {pc.source}))
  }

  // ---- The owning thread -----------------------------------------------------------------

  datatype OwnerStep =
    | Start(newPort: nat, binds: bool) | BeginSever | BeginStop | TakeConns | JoinAccept | Drop(conn: nat) | EndSever | EndStop
    | Restore(binds: bool) | RaiseIfFailed

  /** `_open_listener`. */
  function Opened(s: Relay): Relay {
    s.(listener := Some(s.next), openListeners := s.openListeners + {s.next},
       acceptThread := Some(s.next + 1), accepts := s.accepts[s.next + 1 := Checking(s.next)], next := s.next + 2)
  }

  /** The locked part of `sever`. */
  function Severed(s: Relay, goal: Goal): Relay {
    s.(openListeners := if s.listener.Some? then s.openListeners - {s.listener.value} else s.openListeners,
       listener := None, live := {}, ctl := Joining(s.live, goal))
  }

  function OwnerDoes(s: Relay, step: OwnerStep): Option<Relay> {
    match step
    case Start(newPort, binds) =>
      if s.ctl != Idle || s.port.Some? then None
      else
        var reserved := s.(port := Some(newPort), reserved := true, lateStart := s.stopped);
        Some(if binds then Opened(reserved) else reserved)
    case BeginSever => if s.ctl != Idle then None else Some(Severed(s, Sever))
    case BeginStop => if s.ctl != Idle then None else Some(s.(stopped := true, ctl := StopEntered(s.stopped)))
    case TakeConns => if !s.ctl.StopEntered? then None else Some(Severed(s, Stop(s.ctl.again)))
    case JoinAccept =>
      if !s.ctl.Joining? then None
      else if s.acceptThread.Some? && s.acceptThread.value in s.accepts && s.accepts[s.acceptThread.value].Alive() then None
      else Some(s.(acceptThread := None, ctl := Dropping(s.ctl.conns, s.ctl.goal)))
    case Drop(conn) =>
      if !s.ctl.Dropping? || conn !in s.ctl.conns then None
      else Some(s.(open := s.open - {conn}, ctl := Dropping(s.ctl.conns - {conn}, s.ctl.goal)))
    case EndSever =>
      if !s.ctl.Dropping? || s.ctl.conns != {} then None
      else Some(s.(ctl := match s.ctl.goal case Sever => Idle case Stop(again) => StopJoining(again)))
    case EndStop =>
      if !s.ctl.StopJoining? || exists p :: p in s.pumpThreads && p in s.pumps && s.pumps[p].Alive() then None
      else Some(s.(pumpThreads := {}, reserved := s.reserved && s.ctl.again, failure := false, ctl := Idle))
    case Restore(binds) =>
      if s.ctl != Idle || s.port.None? || s.stopped || s.listener.Some? then None
      else Some(if binds then Opened(s) else s)
    case RaiseIfFailed => if s.ctl != Idle then None else Some(s.(failure := false))
  }

  // ---- Runs ------------------------------------------------------------------------------

  datatype Step = OfAccept(thread: nat, accept: AcceptStep) | OfPump(thread: nat, pump: PumpStep) | OfOwner(owner: OwnerStep)

  /** One step, or None where it is not enabled. */
  function Next(s: Relay, step: Step): Option<Relay> {
    match step
    case OfAccept(t, a) => if t in s.accepts then AcceptDoes(s, t, a) else None
    case OfPump(p, a) => if p in s.pumps then PumpDoes(s, p, a) else None
    case OfOwner(a) => OwnerDoes(s, a)
  }

  function Run(steps: seq<Step>): Option<Relay>
    decreases |steps|
  {
    if steps == [] then Some(FRESH) else
    match Run(steps[..|steps| - 1])
    case None => None
    case Some(s) => Next(s, steps[|steps| - 1])
  }

  // ---- What every step keeps -------------------------------------------------------------

  /** The accept thread on record, the only one that may still act. */
  function Acting(s: Relay): Option<Accept> {
    if s.acceptThread.Some? && s.acceptThread.value in s.accepts then Some(s.accepts[s.acceptThread.value]) else None
  }

  function HeldNow(s: Relay): set<nat> { match Acting(s) case Some(pc) => pc.Held() case None => {} }

  /** A pump's source is on the live list, in a sever's hands, or closed. */
  predicate Accounted(s: Relay, o: nat) { o in s.live || o in s.ctl.Conns() || o !in s.open }

  ghost predicate NoSource(pumps: map<nat, Pump>, o: nat) { forall p :: p in pumps ==> pumps[p].Source() != Some(o) }

  /** No two pumps read the same socket. */
  ghost predicate DistinctSources(pumps: map<nat, Pump>) {
    forall p, k :: p in pumps && k in pumps && p != k && pumps[p].Source().Some? ==> pumps[p].Source() != pumps[k].Source()
  }

  /** An accept thread off the record is past its last effect, and one that returned has lost
      its listener. */
  predicate ThreadOk(s: Relay, t: nat)
    requires t in s.accepts
  {
    var pc := s.accepts[t];
    && t < s.next && pc.l < s.next
    && (pc.Done() || s.acceptThread == Some(t))
    && (pc.Leaving? || pc.Exited? ==> s.listener != Some(pc.l))
  }

  /** The acting thread serves the current listener or is being joined; it fails its listener
      only after a fault; nothing else knows the sockets it holds. */
  ghost predicate ActingOk(s: Relay, pc: Accept) {
    && (pc.Done() || s.listener == Some(pc.l) || s.ctl.Joining?)
    && (pc.Erring? && !pc.genuine ==> s.listener != Some(pc.l))
    && (pc.Failing? || (pc.Erring? && pc.genuine) ==> s.faulted)
    && (pc.Pairing? || pc.Observing? || pc.StartingBoth? ==> pc.client != pc.upstream)
    && (forall o :: o in pc.Unpumped() ==> o < s.next && Accounted(s, o) && NoSource(s.pumps, o))
    && (forall o :: o in pc.Held() ==>
          o < s.next && o in s.open && o !in s.live && o !in s.ctl.Conns() && NoSource(s.pumps, o))
  }

  /** What holds of pump `p`: on the list while it runs, and its source accounted for until it
      takes it off the live list. */
  predicate PumpOk(s: Relay, p: nat)
    requires p in s.pumps
  {
    var pc := s.pumps[p];
    && p < s.next && (pc.Source().Some? ==> pc.Source().value < s.next)
    && (p in s.pumpThreads || pc.Finished?)
    && (pc.Registered() ==> Accounted(s, pc.way.src))
    && (pc.Closing? ==> pc.source !in s.live)
  }

  ghost predicate ClosedByPump(pumps: map<nat, Pump>, o: nat) { exists p :: p in pumps && pumps[p] == Closing(o) }

  /** An open socket has an owner: the live list, the sever that took it over, the accept thread
      that has yet to adopt it, or the pump that took it off the list to close it. */
  ghost predicate Owned(s: Relay, o: nat) {
    o < s.next && (o in s.live || o in s.ctl.Conns() || o in HeldNow(s) || ClosedByPump(s.pumps, o))
  }

  /** The listener fields and the thread lists. */
  predicate Lists(s: Relay) {
    && s.openListeners == (if s.listener.Some? then {s.listener.value} else {})
    && (s.listener.Some? ==> s.listener.value < s.next && s.port.Some?)
    && (s.acceptThread.Some? ==> s.acceptThread.value in s.accepts)
    && s.pumpThreads <= s.pumps.Keys
    && s.live <= s.open && (forall o :: o in s.ctl.Conns() ==> o < s.next)
    && (s.failure ==> s.faulted)
  }

  /** Within a sever nothing listens and nothing is adopted. */
  predicate Phases(s: Relay) {
    && (s.ctl.Joining? || s.ctl.Dropping? || s.ctl.StopJoining? ==> s.listener.None? && s.live == {})
    && (s.ctl.Dropping? || s.ctl.StopJoining? ==> s.acceptThread.None?)
    && (s.ctl.Stopping() ==> s.stopped)
  }

  predicate Ports(s: Relay) {
    && (s.port.None? ==> !s.reserved)
    && (s.port.Some? ==> (s.reserved <==> !s.stopped || s.lateStart || s.ctl.FirstStop()))
    && (s.lateStart ==> s.stopped && !s.ctl.FirstStop() && s.port.Some?)
  }

  ghost predicate ThreadsOk(s: Relay) { forall t :: t in s.accepts ==> ThreadOk(s, t) }

  ghost predicate PumpsOk(s: Relay) { forall p :: p in s.pumps ==> PumpOk(s, p) }

  ghost predicate SocketsOk(s: Relay) { forall o :: o in s.open ==> Owned(s, o) }

  ghost predicate Inv(s: Relay) {
    && Lists(s) && Phases(s) && Ports(s) && DistinctSources(s.pumps)
    && (Acting(s).Some? ==> ActingOk(s, Acting(s).value))
    && ThreadsOk(s) && PumpsOk(s) && SocketsOk(s)
  }

  // ---- Accept steps keep it --------------------------------------------------------------

  /** Only the thread on record takes a step other than its last. */
  lemma ItActs(s: Relay, t: nat)
    requires Inv(s) && t in s.accepts && !s.accepts[t].Done()
    ensures s.acceptThread == Some(t) && Acting(s) == Some(s.accepts[t]) && ActingOk(s, s.accepts[t])
  {
    assert ThreadOk(s, t);
  }

  /** The acting thread moves on with the sockets it held. */
  lemma MovedKeeps(s: Relay, t: nat, pc: Accept, fault: bool)
    requires Inv(s) && s.acceptThread == Some(t) && t in s.accepts && pc.l == s.accepts[t].l && pc.Held() == s.accepts[t].Held()
    requires pc.Unpumped() <= s.accepts[t].Unpumped() && !s.accepts[t].Done()
    requires pc.Leaving? || (pc.Erring? && !pc.genuine) ==> s.listener != Some(pc.l)
    requires !pc.Exited?
    requires pc.Failing? || (pc.Erring? && pc.genuine) ==> s.faulted || fault
    requires pc.Pairing? || pc.Observing? || pc.StartingBoth? ==> pc.client != pc.upstream
    ensures Inv(Moved(s, t, pc, fault))
  {
    hide NoSource, ClosedByPump, DistinctSources;
    var r := Moved(s, t, pc, fault);
    assert forall k :: k in r.accepts ==> ThreadOk(s, k);
    assert PumpsOk(r) by {
      assert forall p :: p in r.pumps ==> PumpOk(s, p);
    }
    assert SocketsOk(r) by {
      assert forall o :: o in r.open ==> Owned(s, o);
    }
  }

  /** A thread past its last effect exits. */
  lemma LeaveKeeps(s: Relay, t: nat)
    requires Inv(s) && t in s.accepts && s.accepts[t].Leaving?
    ensures Inv(Moved(s, t, Exited(s.accepts[t].l), false))
  {
    hide NoSource, ClosedByPump, DistinctSources;
    var r := Moved(s, t, Exited(s.accepts[t].l), false);
    assert ThreadOk(s, t);
    assert forall k :: k in r.accepts ==> ThreadOk(s, k);
    assert PumpsOk(r) by {
      assert forall p :: p in r.pumps ==> PumpOk(s, p);
    }
    assert SocketsOk(r) by {
      assert forall o :: o in r.open ==> Owned(s, o);
    }
  }

  lemma NextIsNew(s: Relay)
    requires Inv(s)
    ensures NoSource(s.pumps, s.next) && s.next !in s.open && s.next !in s.live && s.next !in s.ctl.Conns()
    ensures s.next !in s.pumps
  {
    hide ActingOk, ThreadsOk, Ports, Phases, DistinctSources;
    forall p | p in s.pumps
      ensures s.pumps[p].Source() != Some(s.next) && p < s.next
    {
      assert PumpOk(s, p);
    }
    assert s.next in s.open ==> Owned(s, s.next);
  }

  lemma TookKeeps(s: Relay, t: nat, pc: Accept)
    requires Inv(s) && t in s.accepts
    requires (s.accepts[t].Accepting? && pc == Connecting(s.accepts[t].l, s.next))
             || (s.accepts[t].Connecting? && pc == Pairing(s.accepts[t].l, s.accepts[t].client, s.next))
    ensures Inv(Took(s, t, pc))
  {
    hide NoSource, ClosedByPump, DistinctSources;
    var r := Took(s, t, pc);
    NextIsNew(s);
    ItActs(s, t);
    assert forall k :: k in r.accepts ==> ThreadOk(s, k);
    assert PumpsOk(r) by {
      assert forall p :: p in r.pumps ==> PumpOk(s, p);
    }
    assert SocketsOk(r) by {
      assert forall o :: o in s.open ==> Owned(s, o);
    }
  }

  /** The acting thread closes what it held. */
  lemma DroppedKeeps(s: Relay, t: nat, pc: Accept, fault: bool)
    requires Inv(s) && t in s.accepts && (s.accepts[t].Connecting? || s.accepts[t].Pairing?)
    requires pc.l == s.accepts[t].l && (pc.Checking? || (pc.Failing? && fault))
    ensures Inv(Dropped(s, t, pc, fault))
  {
    hide NoSource, ClosedByPump, DistinctSources;
    var r := Dropped(s, t, pc, fault);
    ItActs(s, t);
    assert forall k :: k in r.accepts ==> ThreadOk(s, k);
    assert PumpsOk(r) by {
      assert forall p :: p in r.pumps ==> PumpOk(s, p);
    }
    assert SocketsOk(r) by {
      assert forall o :: o in r.open ==> Owned(s, o);
    }
  }

  lemma AdoptedPumps(s: Relay, t: nat, pc: Accept)
    requires Inv(s) && t in s.accepts && s.accepts[t].Pairing?
    ensures PumpsOk(Adopted(s, t, pc))
  {
    hide ClosedByPump, DistinctSources;
    var r, c, u := Adopted(s, t, pc), s.accepts[t].client, s.accepts[t].upstream;
    ItActs(s, t);
    assert NoSource(s.pumps, c) && NoSource(s.pumps, u);
    forall p | p in r.pumps
      ensures PumpOk(r, p)
    {
      assert PumpOk(s, p) && s.pumps[p].Source() != Some(c) && s.pumps[p].Source() != Some(u);
    }
  }

  lemma AdoptedKeeps(s: Relay, t: nat, pc: Accept)
    requires Inv(s) && t in s.accepts && s.accepts[t].Pairing? && !s.stopped && s.listener.Some?
    requires pc == Observing(s.accepts[t].l, s.accepts[t].client, s.accepts[t].upstream)
    ensures Inv(Adopted(s, t, pc))
  {
    var r := Adopted(s, t, pc);
    AdoptedPumps(s, t, pc);
    hide NoSource, ClosedByPump, DistinctSources, PumpsOk;
    ItActs(s, t);
    assert forall k :: k in r.accepts ==> ThreadOk(s, k);
    assert SocketsOk(r) by {
      assert forall o :: o in r.open ==> Owned(s, o);
    }
  }

  /** Starting a pump on a socket no pump reads. */
  lemma NewPump(s: Relay, way: Direction)
    requires Inv(s) && NoSource(s.pumps, way.src)
    ensures var pumps := s.pumps[s.next := Reading(way)];
      && DistinctSources(pumps)
      && (forall o :: ClosedByPump(s.pumps, o) ==> ClosedByPump(pumps, o))
      && (forall o :: o != way.src && NoSource(s.pumps, o) ==> NoSource(pumps, o))
  {
    hide ActingOk, ThreadsOk, SocketsOk, Lists, Phases, Ports;
    NextIsNew(s);
    var pumps := s.pumps[s.next := Reading(way)];
    forall o | ClosedByPump(s.pumps, o)
      ensures ClosedByPump(pumps, o)
    {
      var p :| p in s.pumps && s.pumps[p] == Closing(o);
      assert pumps[p] == Closing(o);
    }
  }

  lemma PumpedPumps(s: Relay, t: nat, pc: Accept, way: Direction)
    requires PumpsOk(s) && way.src < s.next && Accounted(s, way.src)
    ensures PumpsOk(Pumped(s, t, pc, way))
  {
    assert forall p :: p in s.pumps ==> PumpOk(s, p);
  }

  lemma PumpedKeeps(s: Relay, t: nat, pc: Accept, way: Direction)
    requires Inv(s) && t in s.accepts && pc.l == s.accepts[t].l
    requires s.accepts[t].StartingBoth? || s.accepts[t].StartingBack?
    requires pc.Unpumped() == s.accepts[t].Unpumped() - {way.src}
    requires way.src in s.accepts[t].Unpumped() && (pc.StartingBack? || pc.Checking?)
    ensures Inv(Pumped(s, t, pc, way))
  {
    var r := Pumped(s, t, pc, way);
    ItActs(s, t);
    NewPump(s, way);
    PumpedPumps(s, t, pc, way);
    hide NoSource, ClosedByPump, DistinctSources, PumpsOk;
    assert forall k :: k in r.accepts ==> ThreadOk(s, k);
    assert SocketsOk(r) by {
      assert forall o :: o in r.open ==> Owned(s, o);
    }
  }

  lemma ListenerFailedKeeps(s: Relay, t: nat)
    requires Inv(s) && t in s.accepts && s.accepts[t].Failing?
    ensures Inv(ListenerFailed(s, t, s.accepts[t].l))
  {
    hide NoSource, ClosedByPump, DistinctSources;
    var r := ListenerFailed(s, t, s.accepts[t].l);
    ItActs(s, t);
    assert forall k :: k in r.accepts ==> ThreadOk(s, k);
    assert PumpsOk(r) by {
      assert forall p :: p in r.pumps ==> PumpOk(s, p);
    }
    assert SocketsOk(r) by {
      assert forall o :: o in r.open ==> Owned(s, o);
    }
  }

  /** The steps that only move the acting thread on. */
  lemma AcceptMoves(s: Relay, t: nat, step: AcceptStep)
    requires Inv(s) && t in s.accepts && AcceptDoes(s, t, step).Some?
    requires step in {Check, TimeOut, AcceptError, Recheck, FactoryRaises} || step.Observe?
    ensures Inv(AcceptDoes(s, t, step).value)
  {
    ItActs(s, t);
    var fault := step.AcceptError? && s.accepts[t].l in s.openListeners;
    assert step.AcceptError? && s.listener == Some(s.accepts[t].l) ==> s.accepts[t].l in s.openListeners;
    hide Inv, Owned, PumpOk, Ports, Phases, Lists, NoSource, Accounted, Took, Dropped, Adopted, Pumped, ListenerFailed;
    MovedKeeps(s, t, AcceptDoes(s, t, step).value.accepts[t], fault);
  }

  lemma AcceptKeeps(s: Relay, t: nat, step: AcceptStep)
    requires Inv(s) && t in s.accepts && AcceptDoes(s, t, step).Some?
    ensures Inv(AcceptDoes(s, t, step).value)
  {
    if !s.accepts[t].Done() {
      ItActs(s, t);
    }
    var pc := s.accepts[t];
    hide Inv, NoSource, Moved, Took, Adopted, Pumped, ListenerFailed, Accounted;
    match step
    case GetClient => TookKeeps(s, t, Connecting(pc.l, s.next));
    case Connect => TookKeeps(s, t, Pairing(pc.l, pc.client, s.next));
    case ConnectError => DroppedKeeps(s, t, Failing(pc.l), true);
    case FailListener => ListenerFailedKeeps(s, t);
    case StartPair =>
      if s.stopped || s.listener.None? {
        DroppedKeeps(s, t, Checking(pc.l), false);
      } else {
        AdoptedKeeps(s, t, Observing(pc.l, pc.client, pc.upstream));
      }
    case StartPump =>
      if pc.StartingBoth? {
        PumpedKeeps(s, t, StartingBack(pc.l, pc.client, pc.upstream), Direction(pc.client, pc.upstream, pc.observed));
      } else {
        PumpedKeeps(s, t, Checking(pc.l), Direction(pc.upstream, pc.client, false));
      }
    case Leave => LeaveKeeps(s, t);
    case _ => AcceptMoves(s, t, step);
  }

  // ---- Pump steps keep it ----------------------------------------------------------------

  /** One pump moving on keeps its source or gives it up. */
  lemma PumpMoved(pumps: map<nat, Pump>, p: nat, pc: Pump)
    requires p in pumps && DistinctSources(pumps) && (pc.Source() == pumps[p].Source() || pc.Finished?)
    ensures DistinctSources(pumps[p := pc])
    ensures forall o: nat :: NoSource(pumps, o) ==> NoSource(pumps[p := pc], o) && pumps[p].Source() != Some(o)
    ensures forall o :: ClosedByPump(pumps, o) && pumps[p] != Closing(o) ==> ClosedByPump(pumps[p := pc], o)
    ensures pc.Closing? ==> ClosedByPump(pumps[p := pc], pc.source)
  {
    var after := pumps[p := pc];
    forall o | ClosedByPump(pumps, o) && pumps[p] != Closing(o)
      ensures ClosedByPump(after, o)
    {
      var k :| k in pumps && pumps[k] == Closing(o);
      assert after[k] == Closing(o);
    }
    assert pc.Closing? ==> after[p] == Closing(pc.source);
  }

  lemma PumpKeepsPumps(s: Relay, p: nat, step: PumpStep)
    requires Inv(s) && p in s.pumps && PumpDoes(s, p, step).Some? && step in {Deregister, CloseSource}
    ensures PumpsOk(PumpDoes(s, p, step).value)
  {
    hide SocketsOk, ThreadsOk, ActingOk, Ports, Phases, Lists;
    var r := PumpDoes(s, p, step).value;
    assert PumpOk(s, p);
    forall k | k in r.pumps
      ensures PumpOk(r, k)
    {
      assert PumpOk(s, k);
      assert k != p && s.pumps[p].Source().Some? ==> s.pumps[p].Source() != s.pumps[k].Source();
    }
  }

  lemma PumpKeepsActing(s: Relay, p: nat, step: PumpStep)
    requires Inv(s) && p in s.pumps && PumpDoes(s, p, step).Some? && step in {Deregister, CloseSource}
    ensures var r := PumpDoes(s, p, step).value; Acting(r).Some? ==> ActingOk(r, Acting(r).value)
  {
    hide SocketsOk, ThreadsOk, PumpsOk, Ports, Phases, Lists;
    var r := PumpDoes(s, p, step).value;
    PumpMoved(s.pumps, p, r.pumps[p]);
    hide NoSource, DistinctSources;
  }

  /** A pump that moves on with its sockets. */
  lemma PumpAtKeeps(s: Relay, p: nat, pc: Pump, fault: bool)
    requires Inv(s) && p in s.pumps && s.pumps[p].Registered() && pc.Registered() && pc.way == s.pumps[p].way
    ensures Inv(PumpAt(s, p, pc, fault))
  {
    var r := PumpAt(s, p, pc, fault);
    PumpMoved(s.pumps, p, r.pumps[p]);
    hide NoSource, ClosedByPump, DistinctSources;
    assert forall k :: k in r.accepts ==> ThreadOk(s, k);
    assert PumpsOk(r) by {
      assert forall k :: k in s.pumps ==> PumpOk(s, k);
    }
    assert SocketsOk(r) by {
      assert forall o :: o in s.open ==> Owned(s, o);
    }
  }

  lemma DeregisteredKeeps(s: Relay, p: nat)
    requires Inv(s) && p in s.pumps && s.pumps[p].Unwinding?
    ensures Inv(PumpDoes(s, p, Deregister).value)
  {
    var r := PumpDoes(s, p, Deregister).value;
    PumpMoved(s.pumps, p, r.pumps[p]);
    PumpKeepsPumps(s, p, Deregister);
    PumpKeepsActing(s, p, Deregister);
    hide ActingOk, Ports, Phases, NoSource, ClosedByPump, DistinctSources, PumpsOk;
    assert forall k :: k in r.accepts ==> ThreadOk(s, k);
    assert SocketsOk(r) by {
      assert forall o :: o in s.open ==> Owned(s, o);
    }
  }

  lemma SourceClosedKeeps(s: Relay, p: nat)
    requires Inv(s) && p in s.pumps && s.pumps[p].Closing?
    ensures Inv(PumpDoes(s, p, CloseSource).value)
  {
    var r := PumpDoes(s, p, CloseSource).value;
    PumpMoved(s.pumps, p, r.pumps[p]);
    PumpKeepsPumps(s, p, CloseSource);
    assert PumpOk(s, p);
    PumpKeepsActing(s, p, CloseSource);
    hide ActingOk, Ports, Phases, NoSource, ClosedByPump, DistinctSources, PumpsOk;
    assert forall k :: k in r.accepts ==> ThreadOk(s, k);
    assert SocketsOk(r) by {
      assert forall o :: o in r.open ==> Owned(s, o);
    }
  }

  lemma PumpKeeps(s: Relay, p: nat, step: PumpStep)
    requires Inv(s) && p in s.pumps && PumpDoes(s, p, step).Some?
    ensures Inv(PumpDoes(s, p, step).value)
  {
    hide Inv, PumpAt;
    var pc := s.pumps[p];
    match step
    case Receive => PumpAtKeeps(s, p, if pc.way.observed then Showing(pc.way) else Sending(pc.way), false);
    case ObserverPasses => PumpAtKeeps(s, p, Sending(pc.way), false);
    case ObserverRaises => PumpAtKeeps(s, p, Unwinding(pc.way), true);
    case Forward => PumpAtKeeps(s, p, Reading(pc.way), false);
    case End => PumpAtKeeps(s, p, Unwinding(pc.way), false);
    case Deregister => DeregisteredKeeps(s, p);
    case CloseSource => SourceClosedKeeps(s, p);
  }

  // ---- Owner steps keep it ---------------------------------------------------------------

  lemma OpenedKeeps(s: Relay)
    requires Inv(s) && s.ctl.Idle? && s.port.Some? && s.listener.None?
    ensures Inv(Opened(s)) && HeldNow(s) == {}
  {
    hide NoSource, ClosedByPump, DistinctSources;
    var r := Opened(s);
    assert forall t :: t in s.accepts ==> ThreadOk(s, t);
    assert PumpsOk(r) by {
      assert forall p :: p in r.pumps ==> PumpOk(s, p);
    }
    assert SocketsOk(r) by {
      assert forall o :: o in r.open ==> Owned(s, o);
    }
  }

  lemma SeveredKeeps(s: Relay, goal: Goal)
    requires Inv(s) && ((s.ctl.Idle? && goal.Sever?) || (s.ctl.StopEntered? && goal == Stop(s.ctl.again)))
    ensures Inv(Severed(s, goal))
  {
    hide NoSource, ClosedByPump, DistinctSources;
    var r := Severed(s, goal);
    assert forall o :: o in s.open ==> Owned(s, o);
    assert forall t :: t in r.accepts ==> ThreadOk(s, t);
    assert PumpsOk(r) by {
      assert forall p :: p in r.pumps ==> PumpOk(s, p);
    }
  }

  lemma JoinedKeeps(s: Relay)
    requires Inv(s) && OwnerDoes(s, JoinAccept).Some?
    ensures Inv(OwnerDoes(s, JoinAccept).value)
  {
    hide NoSource, ClosedByPump, DistinctSources;
    var r := OwnerDoes(s, JoinAccept).value;
    assert HeldNow(s) == {} && r.ctl.Conns() == s.ctl.Conns();
    assert forall t :: t in r.accepts ==> ThreadOk(s, t);
    assert PumpsOk(r) by {
      assert forall p :: p in r.pumps ==> PumpOk(s, p);
    }
    assert SocketsOk(r) by {
      assert forall o :: o in r.open ==> Owned(s, o);
    }
  }

  lemma ConnClosedKeeps(s: Relay, conn: nat)
    requires Inv(s) && OwnerDoes(s, Drop(conn)).Some?
    ensures Inv(OwnerDoes(s, Drop(conn)).value)
  {
    hide NoSource, ClosedByPump, DistinctSources;
    var r := OwnerDoes(s, Drop(conn)).value;
    assert r.ctl.Conns() == s.ctl.Conns() - {conn};
    assert forall t :: t in r.accepts ==> ThreadOk(s, t);
    assert PumpsOk(r) by {
      assert forall p :: p in r.pumps ==> PumpOk(s, p);
    }
    assert SocketsOk(r) by {
      assert forall o :: o in r.open ==> Owned(s, o);
    }
  }

  /** Sockets and threads stay as they are; the owner and what it keeps on record move on. */
  lemma QuietKeeps(s: Relay, r: Relay)
    requires Inv(s) && Lists(r) && Phases(r) && Ports(r) && !s.ctl.Joining? && s.ctl.Conns() == r.ctl.Conns() == {}
    requires r == s.(port := r.port, reserved := r.reserved, stopped := r.stopped, failure := r.failure, ctl := r.ctl,
                     lateStart := r.lateStart, pumpThreads := r.pumpThreads)
    requires r.pumpThreads == s.pumpThreads || forall p :: p in s.pumpThreads ==> s.pumps[p].Finished?
    ensures Inv(r)
  {
    hide NoSource, ClosedByPump, DistinctSources, Ports, Phases;
    assert forall t :: t in r.accepts ==> ThreadOk(s, t);
    assert PumpsOk(r) by {
      assert forall p :: p in r.pumps ==> PumpOk(s, p);
    }
    assert SocketsOk(r) by {
      assert forall o :: o in r.open ==> Owned(s, o);
    }
  }

  /** A stop begins, a sever or a stop is over, a failure is raised, or a bind fails. */
  lemma OwnerKeepsRest(s: Relay, step: OwnerStep)
    requires Inv(s) && OwnerDoes(s, step).Some?
    requires step in {BeginStop, EndSever, EndStop, Restore(false), RaiseIfFailed} || (step.Start? && !step.binds)
    ensures Inv(OwnerDoes(s, step).value)
  {
    hide ActingOk, ThreadsOk, PumpsOk, SocketsOk, DistinctSources;
    QuietKeeps(s, OwnerDoes(s, step).value);
  }

  lemma OwnerKeeps(s: Relay, step: OwnerStep)
    requires Inv(s) && OwnerDoes(s, step).Some?
    ensures Inv(OwnerDoes(s, step).value)
  {
    hide ActingOk, ThreadsOk, PumpsOk, SocketsOk, Phases, Ports, Opened, Severed, DistinctSources;
    match step
    case Start(newPort, binds) =>
      OwnerKeepsRest(s, Start(newPort, false));
      if binds {
        OpenedKeeps(OwnerDoes(s, Start(newPort, false)).value);
      }
    case BeginSever => SeveredKeeps(s, Sever);
    case TakeConns => SeveredKeeps(s, Stop(s.ctl.again));
    case JoinAccept => JoinedKeeps(s);
    case Drop(conn) => ConnClosedKeeps(s, conn);
    case Restore(true) => OpenedKeeps(s);
    case _ => OwnerKeepsRest(s, step);
  }

  /** Every run, under every interleaving, keeps the invariant. */
  lemma {:induction false} EveryRunKeeps(steps: seq<Step>)
    requires Run(steps).Some?
    ensures Inv(Run(steps).value)
    decreases |steps|
  {
    hide Inv, AcceptDoes, PumpDoes, OwnerDoes;
    if steps == [] {
      FreshIsFine();
    } else {
      EveryRunKeeps(steps[..|steps| - 1]);
      var s := Run(steps[..|steps| - 1]).value;
      match steps[|steps| - 1]
      case OfAccept(t, a) => AcceptKeeps(s, t, a);
      case OfPump(p, a) => PumpKeeps(s, p, a);
      case OfOwner(a) => OwnerKeeps(s, a);
    }
  }

  lemma FreshIsFine()
    ensures Inv(FRESH)
  {
  }
}
