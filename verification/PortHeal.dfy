/** The heal in its own form: the stack's port records, specs and process table rewritten in
    place, against the reservations every stack of the run shares. */
module PortHeal {
  import opened Outcome
  import opened PortOwnership

  /** The module-level reservation set of e2e/src/tai42_e2e/ports.py. */
  class PortRegistry {
    var reserved: set<nat>

    constructor ()
      ensures reserved == {}
    {
      reserved := {};
    }

    /** The first offer nothing has reserved; it fails only when all of the tries were reserved. */
    method AllocatePort(offers: Offers) returns (port: Option<nat>)
      modifies this
      ensures port == FirstFree(offers, old(reserved))
      ensures port.None? <==> forall i :: 0 <= i < ALLOCATION_TRIES ==> offers[i] in old(reserved)
      ensures reserved == old(reserved) + if port.Some? then {port.value} else {}
    {
      for tried := 0 to ALLOCATION_TRIES
        invariant reserved == old(reserved) && FirstFree(offers[tried..], reserved) == FirstFree(offers, reserved)
      {
        assert offers[tried..][0] == offers[tried] && offers[tried..][1..] == offers[tried + 1..];
        if offers[tried] !in reserved {
          reserved := reserved + {offers[tried]};
          return Some(offers[tried]);
        }
      }
      port := None;
    }

    method ReleasePort(port: nat)
      modifies this
      ensures reserved == old(reserved) - {port}
    {
      reserved := reserved - {port};
    }
  }

  class TaiStack {
    const ports: PortRegistry
    const dynamic: DynamicEnv
    var appPorts: seq<nat>
    var metricsPort: Option<nat>
    var allocatedPorts: seq<nat>
    var specs: map<string, Spec>
    var procs: map<string, Process>

    ghost function Value(): Stack
      reads this, ports
    {
      Stack(appPorts, metricsPort, allocatedPorts, ports.reserved, specs, procs)
    }

    constructor (ports: PortRegistry, dynamic: DynamicEnv, s: Stack)
      requires ports.reserved == s.reserved
      ensures this.ports == ports && this.dynamic == dynamic && Value() == s
    {
      this.ports, this.dynamic := ports, dynamic;
      appPorts, metricsPort, allocatedPorts, specs, procs := s.appPorts, s.metricsPort, s.allocatedPorts, s.specs, s.procs;
    }

    function PortsFor(name: string): Option<nat>
      reads this
    {
      PortFor(Stack(appPorts, metricsPort, [], {}, map[], map[]), name)
    }

    method SetPort(name: string, newPort: nat)
      modifies this`appPorts, this`metricsPort
      ensures Value() == old(WithPort(Value(), name, newPort))
    {
      if name == "metrics" {
        metricsPort := Some(newPort);
        return;
      }
      var idx := if name == "serve" || name == "serve-a" || name == "embed" then 0 else 1;
      if idx < |appPorts| {
        appPorts := appPorts[idx := newPort];
      }
    }

    /** Every other running process with an outdated port-derived value gets the current ones and
        runs again; the target is its caller's to respawn. */
    method RefreshPortDerivedEnv(target: string)
      modifies this`specs, this`procs
      ensures Value() == old(Refreshed(Value(), dynamic, target))
    {
      hide RefreshedSpec, RefreshedProcess, RefreshedSoFar;
      var current := dynamic(appPorts);
      ghost var was := Value();
      var names := specs.Keys;
      NoneRefreshed(was, current, target);
      while names != {}
        invariant names <= was.specs.Keys && specs.Keys == was.specs.Keys
        invariant appPorts == was.appPorts && metricsPort == was.metricsPort && allocatedPorts == was.allocatedPorts
        invariant RefreshedSoFar(was, current, target, specs, procs, names)
        decreases |names|
      {
        var n :| n in names;
        ghost var specs0, procs0 := specs, procs;
        RefreshOne(n, target, current);
        OneMoreRefreshed(was, current, target, specs0, procs0, specs, procs, names, n);
        names := names - {n};
      }
      AllRefreshed(was, dynamic, target, specs, procs);
    }

    method RefreshOne(n: string, target: string, current: map<string, string>)
      requires n in specs
      modifies this`specs, this`procs
      ensures specs == old(specs)[n := old(RefreshedSpec(specs[n], current))]
      ensures procs == if n in old(procs) then old(procs[n := RefreshedProcess(procs[n], specs[n], current, n == target)])
                       else old(procs)
    {
      var spec := specs[n];
      if UpToDate(spec.env, current) {
        return;
      }
      specs := specs[n := spec.(env := spec.env + current)];
      if n != target && n in procs && procs[n].running {
        procs := procs[n := Process(true, specs[n])];
      }
    }

    /** None where no unreserved port was to be had: the child is reaped and its port given up. */
    method ReallocateAndRespawn(name: string, oldPort: nat, offers: Offers) returns (ok: bool)
      requires name in specs && name in procs
      modifies this, ports
      ensures match old(Reallocated(Value(), dynamic, name, oldPort, offers))
              case None => !ok && Value() == old(GivenUp(Value(), name, oldPort))
              case Some(next) => ok && Value() == next
    {
      hide Refreshed, WithPort, WithPortArg, Without;
      procs := procs[name := procs[name].(running := false)];
      allocatedPorts := Without(allocatedPorts, oldPort);
      ports.ReleasePort(oldPort);
      var port := ports.AllocatePort(offers);
      if port.None? {
        return false;
      }
      var newPort := port.value;
      allocatedPorts := allocatedPorts + [newPort];
      SetPort(name, newPort);
      SpecsKeepPorts(Value(), name, newPort);
      specs := specs[name := specs[name].(argv := WithPortArg(specs[name].argv, newPort))];
      RefreshPortDerivedEnv(name);
      RefreshKeepsNames(old(Value()), dynamic, name, oldPort, newPort);
      procs := procs[name := Process(true, specs[name])];
      ok := true;
    }

    /** One attempt at the port: None to try again. */
    method Attempt(name: string, round: Round) returns (healing: Option<Healing>)
      requires name in specs && name in procs && PortFor(Value(), name).Some?
      modifies this, ports
      ensures (Value(), healing) == old(HealOnce(Value(), dynamic, name, round))
    {
      hide Reallocated, GivenUp, PortFor;
      ghost var before := Value();
      procs := map n | n in procs :: if n in round.exits then procs[n].(running := false) else procs[n];
      SamePortRecords(before, Value());
      SamePortRecords(Stack(appPorts, metricsPort, [], {}, map[], map[]), Value());
      match round.fate {
        case Owned => healing := Some(Holds);
        case Released => healing := Some(LeftAlone);
        case NeverListens => healing := Some(TimedOut);
        case Collision =>
          var ok := ReallocateAndRespawn(name, PortsFor(name).value, round.offers);
          healing := if ok then None else Some(NoPort);
      }
    }

    /** `_heal_process_port`: watch the port, heal a collision, six times at most. */
    method HealProcessPort(name: string, rounds: seq<Round>) returns (healing: Healing)
      requires name in specs && name in procs && PortFor(Value(), name).Some?
      modifies this, ports
      ensures (Value(), healing) == old(Heal(Value(), dynamic, name, rounds, PORT_OWNERSHIP_ATTEMPTS))
      ensures old(Consistent(Value(), dynamic)) && healing != NoPort ==> Consistent(Value(), dynamic)
    {
      hide HealOnce, PortFor;
      if Consistent(Value(), dynamic) {
        HealKeeps(Value(), dynamic, name, rounds, PORT_OWNERSHIP_ATTEMPTS);
      }
      hide Consistent;
      for attempt := 0 to PORT_OWNERSHIP_ATTEMPTS
        invariant attempt <= |rounds|
        invariant name in specs && name in procs && PortFor(Value(), name).Some?
        invariant Heal(Value(), dynamic, name, rounds[attempt..], PORT_OWNERSHIP_ATTEMPTS - attempt)
               == old(Heal(Value(), dynamic, name, rounds, PORT_OWNERSHIP_ATTEMPTS))
      {
        if attempt == |rounds| {
          return TimedOut;
        }
        assert rounds[attempt..][0] == rounds[attempt] && rounds[attempt..][1..] == rounds[attempt + 1..];
        var once := Attempt(name, rounds[attempt]);
        if once.Some? {
          return once.value;
        }
      }
      healing := Spent;
    }

    /** `ensure_own_ports`: every process that binds a port, one after the other, up to the first
        that cannot be healed. */
    method EnsureOwnPorts(order: seq<string>, rounds: map<string, seq<Round>>) returns (failed: Option<(string, Healing)>)
      requires forall n :: n in order ==> n in specs && n in procs
      modifies this, ports
      ensures (Value(), failed) == old(HealAll(Value(), dynamic, order, rounds))
      ensures old(Consistent(Value(), dynamic)) && (failed.Some? ==> failed.value.1 != NoPort) ==>
        Consistent(Value(), dynamic)
    {
      hide Heal, PortFor;
      if Consistent(Value(), dynamic) {
        HealAllKeeps(Value(), dynamic, order, rounds);
      }
      hide Consistent;
      for i := 0 to |order|
        invariant specs.Keys == old(specs.Keys) && procs.Keys == old(procs.Keys)
        invariant HealAll(Value(), dynamic, order[i..], rounds) == old(HealAll(Value(), dynamic, order, rounds))
      {
        var name := order[i];
        assert order[i..][0] == name && order[i..][1..] == order[i + 1..];
        SamePortRecords(Stack(appPorts, metricsPort, [], {}, map[], map[]), Value());
        if PortsFor(name).Some? {
          var healing := HealProcessPort(name, RoundsFor(rounds, name));
          if healing != Holds && healing != LeftAlone {
            return Some((name, healing));
          }
        }
      }
      failed := None;
    }
  }

  /** The refresh with the specs in `names` still to do. */
  ghost predicate RefreshedSoFar(was: Stack, current: map<string, string>, target: string, specs: map<string, Spec>,
                                 procs: map<string, Process>, names: set<string>) {
    && specs.Keys == was.specs.Keys && procs.Keys == was.procs.Keys
    && (forall n :: n in was.specs ==>
          specs[n] == if n in names then was.specs[n] else RefreshedSpec(was.specs[n], current))
    && (forall n :: n in was.procs ==>
          procs[n] == if n in was.specs && n !in names then RefreshedProcess(was.procs[n], was.specs[n], current, n == target)
                      else was.procs[n])
  }

  lemma NoneRefreshed(was: Stack, current: map<string, string>, target: string)
    ensures RefreshedSoFar(was, current, target, was.specs, was.procs, was.specs.Keys)
  {
  }

  lemma OneMoreRefreshed(was: Stack, current: map<string, string>, target: string, specs0: map<string, Spec>,
                         procs0: map<string, Process>, specs: map<string, Spec>, procs: map<string, Process>, names: set<string>,
                         n: string)
    requires n in names && n in was.specs && RefreshedSoFar(was, current, target, specs0, procs0, names)
    requires specs == specs0[n := RefreshedSpec(specs0[n], current)]
    requires procs == if n in procs0 then procs0[n := RefreshedProcess(procs0[n], specs0[n], current, n == target)] else procs0
    ensures RefreshedSoFar(was, current, target, specs, procs, names - {n})
  {
    hide RefreshedSpec, RefreshedProcess;
  }

  lemma AllRefreshed(was: Stack, dynamic: DynamicEnv, target: string, specs: map<string, Spec>, procs: map<string, Process>)
    requires RefreshedSoFar(was, dynamic(was.appPorts), target, specs, procs, {})
    ensures Refreshed(was, dynamic, target) == was.(specs := specs, procs := procs)
  {
    hide RefreshedSpec, RefreshedProcess;
    assert Refreshed(was, dynamic, target).specs == specs;
    assert Refreshed(was, dynamic, target).procs == procs;
  }

  lemma SpecsKeepPorts(s: Stack, name: string, port: nat)
    ensures WithPort(s, name, port).specs == s.specs && WithPort(s, name, port).procs == s.procs
  {
  }

  lemma RefreshKeepsNames(s: Stack, dynamic: DynamicEnv, name: string, oldPort: nat, offered: nat)
    requires name in s.specs && name in s.procs
    ensures var r := Rehomed(GivenUp(s, name, oldPort), dynamic, name, offered); name in r.specs && name in r.procs
  {
  }

  lemma SamePortRecords(s: Stack, r: Stack)
    requires r.appPorts == s.appPorts && r.metricsPort == s.metricsPort
    ensures forall n :: PortFor(r, n) == PortFor(s, n)
  {
  }
}
