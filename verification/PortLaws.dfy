/** What the port heal reads and writes in the open: command lines, records and environments. */
module PortLaws {
  import opened Outcome
  import opened Text
  import opened PortOwnership

  // ---- Command lines ---------------------------------------------------------------------

  /** A command line with a port: what stands before the flag, and what behind its value. */
  function CommandLine(before: seq<string>, value: string, behind: seq<string>): seq<string> {
    before + ["--port", value] + behind
  }

  lemma {:induction false} FlagFound(argv: seq<string>, from: nat, at: nat)
    requires from <= at && at + 1 < |argv| && argv[at] == "--port" && forall k :: from <= k < at ==> argv[k] != "--port"
    ensures PortArgAt(argv, from) == Some(at + 1)
    decreases at - from
  {
    if from < at {
      FlagFound(argv, from + 1, at);
    }
  }

  lemma {:induction false} NoFlagFound(argv: seq<string>, from: nat)
    requires from <= |argv| && forall k :: from <= k < |argv| - 1 ==> argv[k] != "--port"
    ensures PortArgAt(argv, from) == None
    decreases |argv| - from
  {
    if from + 1 < |argv| {
      NoFlagFound(argv, from + 1);
    }
  }

  /** The port of a command line is the value behind its first flag, and a new port takes its place
      and no other. */
  lemma {:induction false} PortIsBehindTheFlag(before: seq<string>, value: string, behind: seq<string>, port: nat)
    requires "--port" !in before
    ensures PortArg(CommandLine(before, value, behind)) == Some(value)
    ensures WithPortArg(CommandLine(before, value, behind), port) == CommandLine(before, Decimal(port), behind)
  {
    var argv := CommandLine(before, value, behind);
    assert argv[|before|] == "--port" && argv[|before| + 1] == value;
    FlagFound(argv, 0, |before|);
    hide PortArgAt;
  }

  /** A flag at the very end has no value, and a command line without one is left as it is. */
  lemma NoFlagNoPort(argv: seq<string>, port: nat)
    requires forall k :: 0 <= k < |argv| - 1 ==> argv[k] != "--port"
    ensures PortArg(argv) == None && WithPortArg(argv, port) == argv
  {
    NoFlagFound(argv, 0);
  }

  // ---- Records ---------------------------------------------------------------------------

  /** Which process binds which port: a fleet's first server and an embedding host the first app port,
      every other server the second, the metrics server its own, and nothing else any. */
  lemma PortsOfAFleet(s: Stack, name: string, suffix: string)
    requires |s.appPorts| > 0
    ensures PortFor(s, "serve") == PortFor(s, "serve-a") == PortFor(s, "embed") == Some(s.appPorts[0])
    ensures suffix != "" && suffix != "-a" ==>
      PortFor(s, "serve" + suffix) == if |s.appPorts| > 1 then Some(s.appPorts[1]) else None
    ensures PortFor(s, "metrics") == s.metricsPort
    ensures !At(name, 0, "serve") && name != "embed" && name != "metrics" ==> PortFor(s, name) == None
  {
    NotServe();
    assert "serve"[0..5] == "serve" && "serve-a"[0..5] == "serve" && ("serve" + suffix)[0..5] == "serve";
    if suffix != "" && suffix != "-a" {
      assert ("serve" + suffix)[5..] == suffix && "serve"[5..] == "" && "serve-a"[5..] == "-a";
    }
  }

  // ---- Environments ----------------------------------------------------------------------

  /** A refreshed spec has every current value, everything else of its environment as it was, and the
      same command line. */
  lemma RefreshedSpecIs(spec: Spec, current: map<string, string>, key: string)
    ensures RefreshedSpec(spec, current).argv == spec.argv
    ensures key in RefreshedSpec(spec, current).env <==> key in spec.env || key in current
    ensures key in RefreshedSpec(spec, current).env ==>
      RefreshedSpec(spec, current).env[key] == if key in current then current[key] else spec.env[key]
  {
  }

  /** A process runs again exactly if it ran, is not the target, and a value of its environment moved. */
  lemma RestartedWhereMoved(s: Stack, dynamic: DynamicEnv, target: string, n: string)
    requires n in s.specs && n in s.procs
    ensures var r, current := Refreshed(s, dynamic, target), dynamic(s.appPorts);
      && n in r.procs && n in r.specs && r.specs[n] == RefreshedSpec(s.specs[n], current)
      && r.procs[n] ==
           if n != target && s.procs[n].running
              && exists key :: key in current && (key !in s.specs[n].env || s.specs[n].env[key] != current[key])
           then Process(true, r.specs[n]) else s.procs[n]
  {
  }

  // ---- One collision ---------------------------------------------------------------------

  /** What a collision with a port to be had makes of a consistent stack: the process runs on the first
      free offer, its command line says so, the lost port is given up, and every other process keeps its
      command line. */
  lemma {:induction false} CollisionRehomes(s: Stack, dynamic: DynamicEnv, name: string, offers: Offers, before: seq<string>, behind: seq<string>)
    requires Consistent(s, dynamic) && name in s.specs && PortFor(s, name).Some? && "--port" !in before
    requires s.specs[name].argv == CommandLine(before, Decimal(PortFor(s, name).value), behind)
    requires exists port :: port in offers && (port !in s.reserved || port == PortFor(s, name).value)
    ensures var lost, r := PortFor(s, name).value, Collided(s, dynamic, name, offers);
      && r.1 == None && PortFor(r.0, name) == FirstFree(offers, s.reserved - {lost}) && PortFor(r.0, name).Some?
      && var port := PortFor(r.0, name).value;
         && r.0.specs[name].argv == CommandLine(before, Decimal(port), behind)
         && r.0.procs[name] == Process(true, r.0.specs[name])
         && r.0.reserved == s.reserved - {lost} + {port}
         && (forall p :: p in r.0.allocatedPorts <==> p == port || (p in s.allocatedPorts && p != lost))
         && forall n :: n in s.specs && n != name ==> n in r.0.specs && r.0.specs[n].argv == s.specs[n].argv
  {
    hide Rehomed, FirstFree, PortFor, WithPortArg, UpToDate;
    var lost := PortFor(s, name).value;
    StillBinds(s, dynamic, name, offers);
    var given := GivenUp(s, name, lost);
    var port := FirstFree(offers, given.reserved).value;
    WithoutDrops(s.allocatedPorts, lost);
    PortIsBehindTheFlag(before, Decimal(lost), behind, port);
    RehomedRecords(given, dynamic, name, port);
    forall n | n in s.specs
      ensures n in Rehomed(given, dynamic, name, port).specs
      ensures Rehomed(given, dynamic, name, port).specs[n].argv ==
        if n == name then WithPortArg(s.specs[n].argv, port) else s.specs[n].argv
    {
      RehomedSpecs(given, dynamic, name, port, n);
    }
    RehomedSpecs(given, dynamic, name, port, name);
  }

  /** Where every offer is taken, the process is down, its port is given up, and nothing else changed. */
  lemma CollisionWithoutPort(s: Stack, dynamic: DynamicEnv, name: string, offers: Offers)
    requires Consistent(s, dynamic) && name in s.specs && PortFor(s, name).Some?
    requires forall port :: port in offers ==> port in s.reserved && port != PortFor(s, name).value
    ensures var lost, r := PortFor(s, name).value, Collided(s, dynamic, name, offers);
      && r.1 == Some(NoPort) && (forall p :: p in r.0.allocatedPorts <==> p in s.allocatedPorts && p != lost)
      && r.0 == s.(procs := s.procs[name := s.procs[name].(running := false)],
                   allocatedPorts := r.0.allocatedPorts, reserved := s.reserved - {lost})
  {
    hide Rehomed, FirstFree, PortFor;
    WithoutDrops(s.allocatedPorts, PortFor(s, name).value);
  }

  lemma RehomedRecords(s: Stack, dynamic: DynamicEnv, name: string, port: nat)
    requires name in s.specs && name in s.procs
    ensures var r := Rehomed(s, dynamic, name, port);
      r.reserved == s.reserved + {port} && r.allocatedPorts == s.allocatedPorts + [port]
  {
  }

  // ---- One attempt and the fleet ---------------------------------------------------------

  /** An attempt that is no collision changes nothing but which processes have exited meanwhile, and ends
      the heal as its fate says. */
  lemma AttemptLeaves(s: Stack, dynamic: DynamicEnv, name: string, round: Round, n: string)
    requires name in s.specs && name in s.procs && PortFor(s, name).Some? && round.fate != Collision
    ensures var (next, healing) := HealOnce(s, dynamic, name, round);
      && next == s.(procs := next.procs)
      && (n in next.procs <==> n in s.procs)
      && (n in s.procs ==>
            && next.procs[n].startedFrom == s.procs[n].startedFrom
            && (next.procs[n].running <==> s.procs[n].running && n !in round.exits))
      && healing == Some(match round.fate case Owned => Holds case Released => LeftAlone case _ => TimedOut)
  {
    hide PortFor, Collided;
  }

  /** The fleet is healed one process after the other: what comes after a process that could not be healed
      is not tried, and everything else is. */
  lemma {:induction false} OneAfterTheOther(s: Stack, dynamic: DynamicEnv, a: seq<string>, b: seq<string>,
                                            rounds: map<string, seq<Round>>)
    requires forall n :: n in a || n in b ==> n in s.specs && n in s.procs
    ensures (forall n :: n in a + b ==> n in s.specs && n in s.procs)
    ensures var (next, failed) := HealAll(s, dynamic, a, rounds);
      && next.specs.Keys == s.specs.Keys && next.procs.Keys == s.procs.Keys
      && HealAll(s, dynamic, a + b, rounds) == if failed.Some? then (next, failed) else HealAll(next, dynamic, b, rounds)
    decreases |a|
  {
    hide Heal, PortFor;
    if a == [] {
      assert a + b == b;
    } else {
      assert (a + b)[1..] == a[1..] + b && a == [a[0]] + a[1..];
      var next := if PortFor(s, a[0]).None? then s
                  else Heal(s, dynamic, a[0], RoundsFor(rounds, a[0]), PORT_OWNERSHIP_ATTEMPTS).0;
      OneAfterTheOther(next, dynamic, a[1..], b, rounds);
    }
  }

  /** One process of the fleet: nothing if it binds no port, and otherwise its heal, on the attempts it is
      given, which the fleet goes on from exactly where the process holds its port or died by itself. */
  lemma {:induction false} OneOfTheFleet(s: Stack, dynamic: DynamicEnv, name: string, rounds: map<string, seq<Round>>)
    requires name in s.specs && name in s.procs
    ensures PortFor(s, name).None? ==> HealAll(s, dynamic, [name], rounds) == (s, None)
    ensures PortFor(s, name).Some? && name in rounds ==>
      var (next, healing) := Heal(s, dynamic, name, rounds[name], 6);
      HealAll(s, dynamic, [name], rounds) == (next, if healing == Holds || healing == LeftAlone then None else Some((name, healing)))
  {
    hide Heal, PortFor;
    assert [name][1..] == [];
  }
}
