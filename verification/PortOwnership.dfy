/** The port heal of e2e/src/tai42_e2e/port_ownership.py: a process that lost its port gets a new
    one, and every spec and running process that named the old one is brought up to date. */
module PortOwnership {
  import opened Outcome
  import opened Text

  const PORT_OWNERSHIP_ATTEMPTS := 6
  const ALLOCATION_TRIES := 100

  /** What the kernel offers in the tries of one allocation. */
  type Offers = s: seq<nat> | |s| == ALLOCATION_TRIES witness seq(ALLOCATION_TRIES, _ => 0)

  datatype Spec = Spec(argv: seq<string>, env: map<string, string>)

  /** A spawned process and the spec it was started from. */
  datatype Process = Process(running: bool, startedFrom: Spec)

  /** The port-derived env as a function of the app ports, whatever the profile names. */
  type DynamicEnv = seq<nat> -> map<string, string>

  /** A booted stack, with the run's port reservations. */
  datatype Stack = Stack(appPorts: seq<nat>, metricsPort: Option<nat>, allocatedPorts: seq<nat>, reserved: set<nat>,
                         specs: map<string, Spec>, procs: map<string, Process>)

  // ---- Port records ----------------------------------------------------------------------

  /** The record a process binds: an app port, the metrics port, or none. */
  datatype Record = App(index: nat) | Metrics

  function RecordOf(name: string): Option<Record> {
    if At(name, 0, "serve") then Some(App(if name == "serve" || name == "serve-a" then 0 else 1))
    else if name == "embed" then Some(App(0))
    else if name == "metrics" then Some(Metrics)
    else None
  }

  /** `ports_for`: the port a process binds, if it binds one. */
  function PortFor(s: Stack, name: string): Option<nat> {
    match RecordOf(name)
    case Some(App(i)) => if i < |s.appPorts| then Some(s.appPorts[i]) else None
    case Some(Metrics) => s.metricsPort
    case None => None
  }

  /** `set_port`. */
  function WithPort(s: Stack, name: string, port: nat): Stack {
    if name == "metrics" then s.(metricsPort := Some(port))
    else
      var i := if name == "serve" || name == "serve-a" || name == "embed" then 0 else 1;
      if i < |s.appPorts| then s.(appPorts := s.appPorts[i := port]) else s
  }

  // ---- Arguments -------------------------------------------------------------------------

  /** Where the value of the first `--port` stands. */
  function PortArgAt(argv: seq<string>, from: nat): (i: Option<nat>)
    requires from <= |argv|
    ensures i.Some? ==> from < i.value < |argv| && argv[i.value - 1] == "--port"
    decreases |argv| - from
  {
    if from + 1 >= |argv| then None
    else if argv[from] == "--port" then Some(from + 1)
    else PortArgAt(argv, from + 1)
  }

  function PortArg(argv: seq<string>): Option<string> {
    match PortArgAt(argv, 0) case Some(i) => Some(argv[i]) case None => None
  }

  function WithPortArg(argv: seq<string>, port: nat): seq<string> {
    match PortArgAt(argv, 0) case Some(i) => argv[i := Decimal(port)] case None => argv
  }

  // ---- The heal --------------------------------------------------------------------------

  /** Whether an env already has every port-derived value. */
  predicate UpToDate(env: map<string, string>, current: map<string, string>) {
    forall key :: key in current ==> key in env && env[key] == current[key]
  }

  function RefreshedSpec(spec: Spec, current: map<string, string>): Spec {
    if UpToDate(spec.env, current) then spec else spec.(env := spec.env + current)
  }

  function RefreshedProcess(process: Process, spec: Spec, current: map<string, string>, isTarget: bool): Process {
    if !isTarget && !UpToDate(spec.env, current) && process.running then Process(true, RefreshedSpec(spec, current)) else process
  }

  /** `_refresh_port_derived_env`. */
  function Refreshed(s: Stack, dynamic: DynamicEnv, target: string): Stack {
    var current := dynamic(s.appPorts);
    s.(specs := map n | n in s.specs :: RefreshedSpec(s.specs[n], current),
       procs := map n | n in s.procs ::
         if n in s.specs then RefreshedProcess(s.procs[n], s.specs[n], current, n == target) else s.procs[n])
  }

  /** The child reaped and its lost port given up. */
  function GivenUp(s: Stack, name: string, oldPort: nat): Stack
    requires name in s.procs
  {
    s.(procs := s.procs[name := s.procs[name].(running := false)],
       allocatedPorts := Without(s.allocatedPorts, oldPort), reserved := s.reserved - {oldPort})
  }

  /** `list.remove`: the first occurrence goes. */
  function Without(ports: seq<nat>, port: nat): seq<nat> {
    if ports == [] then [] else if ports[0] == port then ports[1..] else [ports[0]] + Without(ports[1..], port)
  }

  /** A fresh port put on record, in the target's spec and in every port-derived env, and the
      target respawned. */
  function Rehomed(s: Stack, dynamic: DynamicEnv, name: string, newPort: nat): Stack
    requires name in s.specs && name in s.procs
  {
    var s1 := WithPort(s.(reserved := s.reserved + {newPort}, allocatedPorts := s.allocatedPorts + [newPort]), name, newPort);
    var spec := s1.specs[name];
    var s2 := Refreshed(s1.(specs := s1.specs[name := spec.(argv := WithPortArg(spec.argv, newPort))]), dynamic, name);
    s2.(procs := s2.procs[name := Process(true, s2.specs[name])])
  }

  /** `allocate_port`: the first offer nothing has reserved; None when every try was. */
  function FirstFree(offers: seq<nat>, reserved: set<nat>): (r: Option<nat>)
    ensures r.Some? ==> r.value in offers && r.value !in reserved
    ensures r.None? <==> forall port :: port in offers ==> port in reserved
  {
    if offers == [] then None
    else if offers[0] !in reserved then Some(offers[0])
    else
      var r := FirstFree(offers[1..], reserved);
      assert offers == [offers[0]] + offers[1..];
      r
  }

  /** `_reallocate_and_respawn`; None where no unreserved port was to be had. */
  function Reallocated(s: Stack, dynamic: DynamicEnv, name: string, oldPort: nat, offers: Offers): Option<Stack>
    requires name in s.specs && name in s.procs
  {
    var given := GivenUp(s, name, oldPort);
    match FirstFree(offers, given.reserved)
    case None => None
    case Some(newPort) => Some(Rehomed(given, dynamic, name, newPort))
  }

  /** What watching a process's port comes to: its own listener, a collision, an exit of its own,
      or nothing within the boot timeout. */
  datatype Fate = Owned | Collision | Released | NeverListens

  /** One attempt: the processes that exit meanwhile, the fate, and the ports the kernel offers. */
  datatype Round = Round(exits: set<string>, fate: Fate, offers: Offers)

  datatype Healing = Holds | LeftAlone | Spent | TimedOut | NoPort

  function Exited(s: Stack, exits: set<string>): Stack {
    s.(procs := map n | n in s.procs :: if n in exits then s.procs[n].(running := false) else s.procs[n])
  }

  /** A collision: a new port, or no port to be had. */
  function Collided(s: Stack, dynamic: DynamicEnv, name: string, offers: Offers): (r: (Stack, Option<Healing>))
    requires name in s.specs && name in s.procs && PortFor(s, name).Some?
    ensures r.1.None? ==> PortFor(r.0, name).Some?
    ensures r.0.specs.Keys == s.specs.Keys && r.0.procs.Keys == s.procs.Keys
  {
    StillBinds(s, dynamic, name, offers);
    match Reallocated(s, dynamic, name, PortFor(s, name).value, offers)
    case None => (GivenUp(s, name, PortFor(s, name).value), Some(NoPort))
    case Some(next) => (next, None)
  }

  /** One attempt: how the heal ends, or the stack to try again with. */
  function HealOnce(s: Stack, dynamic: DynamicEnv, name: string, round: Round): (r: (Stack, Option<Healing>))
    requires name in s.specs && name in s.procs && PortFor(s, name).Some?
    ensures r.1.None? ==> name in r.0.specs && name in r.0.procs && PortFor(r.0, name).Some?
    ensures r.0.specs.Keys == s.specs.Keys && r.0.procs.Keys == s.procs.Keys
  {
    var now := Exited(s, round.exits);
    SamePortFor(s, round.exits, name);
    match round.fate
    case Owned => (now, Some(Holds))
    case Released => (now, Some(LeftAlone))
    case NeverListens => (now, Some(TimedOut))
    case Collision => Collided(now, dynamic, name, round.offers)
  }

  /** `_heal_process_port`, with `tries` attempts left. */
  function Heal(s: Stack, dynamic: DynamicEnv, name: string, rounds: seq<Round>, tries: nat): (r: (Stack, Healing))
    requires name in s.specs && name in s.procs && PortFor(s, name).Some?
    ensures r.0.specs.Keys == s.specs.Keys && r.0.procs.Keys == s.procs.Keys
    decreases tries
  {
    if tries == 0 then (s, Spent)
    else if rounds == [] then (s, TimedOut)
    else
      var (next, healing) := HealOnce(s, dynamic, name, rounds[0]);
      match healing
      case Some(h) => (next, h)
      case None => Heal(next, dynamic, name, rounds[1..], tries - 1)
  }

  /** `ensure_own_ports`: the processes that bind a port, one after the other, up to the first that
      cannot be healed. */
  function HealAll(s: Stack, dynamic: DynamicEnv, order: seq<string>, rounds: map<string, seq<Round>>):
    (Stack, Option<(string, Healing)>)
    requires forall n :: n in order ==> n in s.specs && n in s.procs
    decreases |order|
  {
    if order == [] then (s, None)
    else if PortFor(s, order[0]).None? then HealAll(s, dynamic, order[1..], rounds)
    else
      var (next, healing) := Heal(s, dynamic, order[0], RoundsFor(rounds, order[0]), PORT_OWNERSHIP_ATTEMPTS);
      if healing == Holds || healing == LeftAlone then HealAll(next, dynamic, order[1..], rounds)
      else (next, Some((order[0], healing)))
  }

  function RoundsFor(rounds: map<string, seq<Round>>, name: string): seq<Round> {
    if name in rounds then rounds[name] else []
  }

  /** An attempt leaves it to the next exactly when the port collided and another was to be had,
      which is then the process's port. */
  lemma TriesAgain(s: Stack, dynamic: DynamicEnv, name: string, round: Round)
    requires name in s.specs && name in s.procs && PortFor(s, name).Some?
    ensures var (next, healing) := HealOnce(s, dynamic, name, round);
      var free := FirstFree(round.offers, s.reserved - {PortFor(s, name).value});
      && (healing.None? <==> round.fate == Collision && free.Some?) && (healing.None? ==> PortFor(next, name) == free)
  {
    hide Rehomed, FirstFree;
    SamePortFor(s, round.exits, name);
    StillBinds(Exited(s, round.exits), dynamic, name, round.offers);
    hide PortFor;
  }

  /** A process keeps its record, with the new port on it. */
  lemma {:induction false} StillBinds(s: Stack, dynamic: DynamicEnv, name: string, offers: Offers)
    requires name in s.specs && name in s.procs && PortFor(s, name).Some?
    ensures var next := Reallocated(s, dynamic, name, PortFor(s, name).value, offers);
      next.Some? ==> && PortFor(next.value, name) == FirstFree(offers, s.reserved - {PortFor(s, name).value})
                     && next.value.specs.Keys == s.specs.Keys && next.value.procs.Keys == s.procs.Keys
  {
    assert "serve"[..5] == "serve";
    assert !At("embed", 0, "serve") && !At("metrics", 0, "serve") by { NotServe(); }
  }

  lemma NotServe()
    ensures !At("embed", 0, "serve") && !At("metrics", 0, "serve")
  {
    assert "embed"[0..5][0] == 'e' && "metrics"[0..5][0] == 'm' && "serve"[0] == 's';
  }

  // ---- What a heal keeps -----------------------------------------------------------------

  ghost predicate Unrepeated(ports: seq<nat>) { forall i, j :: 0 <= i < j < |ports| ==> ports[i] != ports[j] }

  /** The ports on record are allocated, the allocated ones reserved, and none is there twice. */
  ghost predicate PortsOk(s: Stack) {
    && Unrepeated(s.allocatedPorts) && (forall p :: p in s.allocatedPorts ==> p in s.reserved)
    && Unrepeated(s.appPorts) && (forall p :: p in s.appPorts ==> p in s.allocatedPorts)
    && (s.metricsPort.Some? ==> s.metricsPort.value in s.allocatedPorts && s.metricsPort.value !in s.appPorts)
  }

  /** Each spec's `--port` is the port on record and its env holds the port-derived values of the
      current app ports. */
  predicate SpecOk(s: Stack, dynamic: DynamicEnv, name: string)
    requires name in s.specs
  {
    && (PortFor(s, name).Some? ==> PortArg(s.specs[name].argv) == Some(Decimal(PortFor(s, name).value)))
    && UpToDate(s.specs[name].env, dynamic(s.appPorts))
  }

  /** A running process was started from its current spec. */
  predicate ProcessOk(s: Stack, name: string)
    requires name in s.specs && name in s.procs
  {
    s.procs[name].running ==> s.procs[name].startedFrom == s.specs[name]
  }

  /** No two processes bind one record, as the boot spawns them. */
  ghost predicate OnePerRecord(specs: map<string, Spec>) {
    forall a, b :: a in specs && b in specs && a != b && RecordOf(a).Some? ==> RecordOf(a) != RecordOf(b)
  }

  ghost predicate Consistent(s: Stack, dynamic: DynamicEnv) {
    && PortsOk(s) && OnePerRecord(s.specs) && s.procs.Keys == s.specs.Keys
    && (forall n :: n in s.specs ==> SpecOk(s, dynamic, n) && ProcessOk(s, n))
  }

  lemma {:induction false} WithoutDrops(ports: seq<nat>, port: nat)
    requires Unrepeated(ports)
    ensures Unrepeated(Without(ports, port))
    ensures forall p :: p in Without(ports, port) <==> p in ports && p != port
    decreases |ports|
  {
    if ports != [] {
      WithoutDrops(ports[1..], port);
      assert ports == [ports[0]] + ports[1..];
      assert ports[0] !in ports[1..];
    }
  }

  lemma {:induction false} PortArgStays(argv: seq<string>, from: nat, value: string)
    requires from <= |argv| && PortArgAt(argv, from).Some?
    ensures PortArgAt(argv[PortArgAt(argv, from).value := value], from) == PortArgAt(argv, from)
    decreases |argv| - from
  {
    if argv[from] != "--port" {
      PortArgStays(argv, from + 1, value);
    }
  }

  /** What moves when a record gets a new port. */
  lemma RecordMoves(s: Stack, name: string, port: nat, other: string)
    requires PortFor(s, name).Some?
    ensures PortFor(WithPort(s, name, port), name) == Some(port)
    ensures RecordOf(other) != RecordOf(name) ==> PortFor(WithPort(s, name, port), other) == PortFor(s, other)
    ensures WithPort(s, name, port).appPorts ==
      (if RecordOf(name).value.App? then s.appPorts[RecordOf(name).value.index := port] else s.appPorts)
    ensures WithPort(s, name, port).metricsPort ==
      (if RecordOf(name).value.Metrics? then Some(port) else s.metricsPort)
  {
    NotServe();
    assert "serve"[0..5] == "serve";
  }

  lemma GivenUpPorts(s: Stack, name: string)
    requires PortsOk(s) && name in s.procs && PortFor(s, name).Some?
    ensures var given := GivenUp(s, name, PortFor(s, name).value);
      && Unrepeated(given.allocatedPorts) && (forall p :: p in given.allocatedPorts ==> p in given.reserved)
      && (forall p :: p in s.allocatedPorts && p != PortFor(s, name).value ==> p in given.allocatedPorts)
  {
    WithoutDrops(s.allocatedPorts, PortFor(s, name).value);
  }

  lemma RehomedPorts(s: Stack, given: Stack, dynamic: DynamicEnv, name: string, newPort: nat)
    requires PortsOk(s) && name in s.specs && name in s.procs && PortFor(s, name).Some?
    requires given == GivenUp(s, name, PortFor(s, name).value) && newPort !in given.reserved
    ensures PortsOk(Rehomed(given, dynamic, name, newPort))
  {
    hide Refreshed, RecordOf, RefreshedSpec, WithPort;
    GivenUpPorts(s, name);
    var on := given.(reserved := given.reserved + {newPort}, allocatedPorts := given.allocatedPorts + [newPort]);
    RecordMoves(on, name, newPort, name);
    RefreshedKeepsPorts(on, dynamic, name, newPort);
    NewPortsApart(s.appPorts, s.metricsPort, RecordOf(name).value, given.allocatedPorts, newPort);
  }

  lemma RefreshedKeepsPorts(s: Stack, dynamic: DynamicEnv, name: string, newPort: nat)
    requires name in s.specs && name in s.procs
    ensures var s1 := WithPort(s, name, newPort); var spec := s1.specs[name];
      var r := Refreshed(s1.(specs := s1.specs[name := spec.(argv := WithPortArg(spec.argv, newPort))]), dynamic, name);
      && r.appPorts == s1.appPorts && r.metricsPort == s1.metricsPort
      && r.allocatedPorts == s.allocatedPorts && r.reserved == s.reserved
  {
  }

  /** The ports on record stay apart and allocated when one of them is replaced by a fresh one. */
  lemma NewPortsApart(appPorts: seq<nat>, metricsPort: Option<nat>, record: Record, rest: seq<nat>, port: nat)
    requires Unrepeated(appPorts) && port !in rest && (metricsPort.Some? ==> metricsPort.value !in appPorts)
    requires match record
             case App(i) =>
               && i < |appPorts| && (forall k :: 0 <= k < |appPorts| && k != i ==> appPorts[k] in rest)
               && (metricsPort.Some? ==> metricsPort.value in rest)
             case Metrics => forall p :: p in appPorts ==> p in rest
    ensures var apps := if record.App? then appPorts[record.index := port] else appPorts;
      var metrics := if record.Metrics? then Some(port) else metricsPort;
      && Unrepeated(apps) && (forall p :: p in apps ==> p in rest + [port])
      && (metrics.Some? ==> metrics.value in rest + [port] && metrics.value !in apps)
  {
  }

  /** The spec a process has once the target is rehomed. */
  lemma RehomedSpecs(s: Stack, dynamic: DynamicEnv, name: string, newPort: nat, n: string)
    requires name in s.specs && name in s.procs && n in s.specs
    ensures var next := Rehomed(s, dynamic, name, newPort);
      && next.specs.Keys == s.specs.Keys && next.procs.Keys == s.procs.Keys
      && next.appPorts == WithPort(s, name, newPort).appPorts && next.metricsPort == WithPort(s, name, newPort).metricsPort
      && UpToDate(next.specs[n].env, dynamic(next.appPorts))
      && next.specs[n].argv == (if n == name then WithPortArg(s.specs[n].argv, newPort) else s.specs[n].argv)
      && (n in s.procs ==>
            next.procs[n] == (if n == name then Process(true, next.specs[n])
                              else if s.procs[n].running && next.specs[n] != s.specs[n] then Process(true, next.specs[n])
                              else s.procs[n]))
  {
    hide WithPortArg, RecordOf;
  }

  lemma RehomedSpec(s: Stack, dynamic: DynamicEnv, name: string, newPort: nat, n: string)
    requires name in s.specs && name in s.procs && PortFor(s, name).Some? && n in s.specs && OnePerRecord(s.specs)
    requires PortFor(s, n).Some? ==>
      PortArgAt(s.specs[n].argv, 0).Some? && (n != name ==> PortArg(s.specs[n].argv) == Some(Decimal(PortFor(s, n).value)))
    ensures n in Rehomed(s, dynamic, name, newPort).specs && SpecOk(Rehomed(s, dynamic, name, newPort), dynamic, n)
  {
    hide RecordOf, Decimal, Rehomed, WithPort, UpToDate;
    RecordMoves(s, name, newPort, n);
    RehomedSpecs(s, dynamic, name, newPort, n);
    if n == name {
      PortArgStays(s.specs[n].argv, 0, Decimal(newPort));
    }
  }

  lemma RehomedProcess(s: Stack, given: Stack, dynamic: DynamicEnv, name: string, newPort: nat, n: string)
    requires name in s.specs && name in s.procs && n in s.specs && n in s.procs && ProcessOk(s, n)
    requires PortFor(s, name).Some? && given == GivenUp(s, name, PortFor(s, name).value)
    ensures var next := Rehomed(given, dynamic, name, newPort); n in next.specs && n in next.procs && ProcessOk(next, n)
  {
    hide Rehomed, UpToDate, PortFor, WithPort;
    RehomedSpecs(given, dynamic, name, newPort, n);
  }

  /** A reallocation leaves a consistent stack: the target runs again from a spec with the new
      port, every other running process either had nothing to change or runs again from its
      refreshed spec. */
  lemma {:induction false} ReallocatedKeeps(s: Stack, dynamic: DynamicEnv, name: string, offers: Offers)
    requires Consistent(s, dynamic) && name in s.specs && PortFor(s, name).Some?
    ensures var next := Reallocated(s, dynamic, name, PortFor(s, name).value, offers);
      next.Some? ==> && Consistent(next.value, dynamic) && next.value.procs[name].running
                     && PortFor(next.value, name) == FirstFree(offers, s.reserved - {PortFor(s, name).value})
                     && next.value.specs.Keys == s.specs.Keys
  {
    hide PortsOk, OnePerRecord, PortFor, WithPort, UpToDate, Rehomed, WithPortArg;
    var given := GivenUp(s, name, PortFor(s, name).value);
    StillBinds(s, dynamic, name, offers);
    var free := FirstFree(offers, given.reserved);
    if free.Some? {
      var newPort := free.value;
      RehomedPorts(s, given, dynamic, name, newPort);
      RehomedSpecs(given, dynamic, name, newPort, name);
      SameRecords(s, given);
      var next := Rehomed(given, dynamic, name, newPort);
      forall n | n in s.specs
        ensures SpecOk(next, dynamic, n) && ProcessOk(next, n)
      {
        assert SpecOk(s, dynamic, n) && ProcessOk(s, n);
        RehomedSpec(given, dynamic, name, newPort, n);
        RehomedProcess(s, given, dynamic, name, newPort, n);
      }
      SameNames(s.specs, next.specs);
    }
  }

  lemma SameRecords(s: Stack, r: Stack)
    requires r.appPorts == s.appPorts && r.metricsPort == s.metricsPort
    ensures forall n :: PortFor(r, n) == PortFor(s, n)
  {
  }

  lemma SameNames(a: map<string, Spec>, b: map<string, Spec>)
    requires OnePerRecord(a) && a.Keys == b.Keys
    ensures OnePerRecord(b)
  {
    hide RecordOf;
    assert forall n :: n in b ==> n in a;
  }

  lemma ExitsKeep(s: Stack, dynamic: DynamicEnv, exits: set<string>)
    requires Consistent(s, dynamic)
    ensures Consistent(Exited(s, exits), dynamic)
  {
    hide PortsOk, OnePerRecord;
    var r := Exited(s, exits);
    assert PortsOk(r) by { SamePorts(s, r); }
    forall n | n in r.specs
      ensures SpecOk(r, dynamic, n) && ProcessOk(r, n)
    {
      assert SpecOk(s, dynamic, n) && ProcessOk(s, n);
    }
  }

  lemma SamePorts(s: Stack, r: Stack)
    requires PortsOk(s) && r == s.(specs := r.specs, procs := r.procs)
    ensures PortsOk(r)
  {
  }

  lemma AttemptKeeps(s: Stack, dynamic: DynamicEnv, name: string, round: Round)
    requires Consistent(s, dynamic) && name in s.specs && name in s.procs && PortFor(s, name).Some?
    ensures var (next, healing) := HealOnce(s, dynamic, name, round);
      && (healing != Some(NoPort) ==> Consistent(next, dynamic) && next.specs.Keys == s.specs.Keys)
      && (healing.None? ==> next.procs[name].running)
  {
    hide Consistent, Reallocated;
    ExitsKeep(s, dynamic, round.exits);
    SamePortFor(s, round.exits, name);
    hide PortFor;
    ReallocatedKeeps(Exited(s, round.exits), dynamic, name, round.offers);
  }

  lemma SamePortFor(s: Stack, exits: set<string>, name: string)
    ensures PortFor(Exited(s, exits), name) == PortFor(s, name)
  {
  }

  lemma HealOf(s: Stack, dynamic: DynamicEnv, name: string, rounds: seq<Round>, tries: nat)
    requires name in s.specs && name in s.procs && PortFor(s, name).Some?
    ensures tries == 0 ==> Heal(s, dynamic, name, rounds, tries) == (s, Spent)
    ensures tries > 0 && rounds == [] ==> Heal(s, dynamic, name, rounds, tries) == (s, TimedOut)
    ensures tries > 0 && rounds != [] ==>
      var (next, once) := HealOnce(s, dynamic, name, rounds[0]);
      if once.Some? then Heal(s, dynamic, name, rounds, tries) == (next, once.value)
      else name in next.specs && name in next.procs && PortFor(next, name).Some?
           && Heal(s, dynamic, name, rounds, tries) == Heal(next, dynamic, name, rounds[1..], tries - 1)
  {
    hide HealOnce, PortFor;
  }

  /** Whatever the foreign processes do and whoever exits meanwhile, a heal that does not run out
      of ports leaves a consistent stack. */
  lemma {:induction false} HealKeeps(s: Stack, dynamic: DynamicEnv, name: string, rounds: seq<Round>, tries: nat)
    requires Consistent(s, dynamic) && name in s.specs && name in s.procs && PortFor(s, name).Some?
    ensures var (end, healing) := Heal(s, dynamic, name, rounds, tries);
      healing != NoPort ==> Consistent(end, dynamic) && end.specs.Keys == s.specs.Keys
    decreases tries
  {
    hide Consistent, Heal, HealOnce, PortFor;
    HealOf(s, dynamic, name, rounds, tries);
    if tries > 0 && rounds != [] {
      var (next, once) := HealOnce(s, dynamic, name, rounds[0]);
      AttemptKeeps(s, dynamic, name, rounds[0]);
      if once.None? {
        HealKeeps(next, dynamic, name, rounds[1..], tries - 1);
      }
    }
  }

  /** Healing the whole fleet leaves a consistent stack unless it ran out of ports, and gives up
      only at a process that binds a port and could not be given one. */
  lemma {:induction false} HealAllKeeps(s: Stack, dynamic: DynamicEnv, order: seq<string>, rounds: map<string, seq<Round>>)
    requires Consistent(s, dynamic) && forall n :: n in order ==> n in s.specs && n in s.procs
    ensures var (end, failed) := HealAll(s, dynamic, order, rounds);
      && (failed.Some? ==> failed.value.0 in order && failed.value.1 in {Spent, TimedOut, NoPort})
      && (failed.None? || failed.value.1 != NoPort ==> Consistent(end, dynamic) && end.specs.Keys == s.specs.Keys)
    decreases |order|
  {
    hide Consistent, Heal, PortFor;
    if order != [] {
      if PortFor(s, order[0]).None? {
        HealAllKeeps(s, dynamic, order[1..], rounds);
      } else {
        HealKeeps(s, dynamic, order[0], RoundsFor(rounds, order[0]), PORT_OWNERSHIP_ATTEMPTS);
        var (next, healing) := Heal(s, dynamic, order[0], RoundsFor(rounds, order[0]), PORT_OWNERSHIP_ATTEMPTS);
        if healing == Holds || healing == LeftAlone {
          HealAllKeeps(next, dynamic, order[1..], rounds);
        }
      }
    }
  }

  /** How many collisions come first, `tries` at most. */
  function Collisions(rounds: seq<Round>, tries: nat): (n: nat)
    ensures n <= tries && n <= |rounds| && forall i :: 0 <= i < n ==> rounds[i].fate == Collision
    ensures n < tries && n < |rounds| ==> rounds[n].fate != Collision
    decreases tries
  {
    if tries == 0 || rounds == [] || rounds[0].fate != Collision then 0 else 1 + Collisions(rounds[1..], tries - 1)
  }

  /** A heal with ports to be had ends by the first attempt that is no collision: the process owns
      its port or is left to its own exit; it declares the bind failed exactly when every attempt
      collided. */
  lemma {:induction false} HealEndsBy(s: Stack, dynamic: DynamicEnv, name: string, rounds: seq<Round>, tries: nat)
    requires name in s.specs && name in s.procs && PortFor(s, name).Some?
    ensures var healing, n := Heal(s, dynamic, name, rounds, tries).1, Collisions(rounds, tries);
      healing == NoPort
      || healing == (if n == tries then Spent else if n == |rounds| then TimedOut
                     else match rounds[n].fate case Owned => Holds case Released => LeftAlone case _ => TimedOut)
    decreases tries
  {
    hide Consistent, Heal, HealOnce, PortFor;
    HealOf(s, dynamic, name, rounds, tries);
    if tries > 0 && rounds != [] {
      var (next, once) := HealOnce(s, dynamic, name, rounds[0]);
      EndOf(s, dynamic, name, rounds[0]);
      if once.None? {
        HealEndsBy(next, dynamic, name, rounds[1..], tries - 1);
      }
    }
  }

  lemma EndOf(s: Stack, dynamic: DynamicEnv, name: string, round: Round)
    requires name in s.specs && name in s.procs && PortFor(s, name).Some?
    ensures HealOnce(s, dynamic, name, round).1 in
      match round.fate
      case Owned => {Some(Holds)}
      case Released => {Some(LeftAlone)}
      case NeverListens => {Some(TimedOut)}
      case Collision => {None, Some(NoPort)}
  {
    hide Reallocated, PortFor;
  }

  /** A child that died for a reason of its own is left as it is. */
  lemma {:induction false} OwnExitIsLeftAlone(s: Stack, dynamic: DynamicEnv, name: string, rounds: seq<Round>)
    requires name in s.specs && name in s.procs && PortFor(s, name).Some? && rounds != [] && rounds[0].fate != Collision
    ensures Heal(s, dynamic, name, rounds, PORT_OWNERSHIP_ATTEMPTS).0 == Exited(s, rounds[0].exits)
  {
  }
}
