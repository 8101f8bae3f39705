/** The switch of conftest.py in its own form: live logger objects rewritten in place, the app
    handle rebound, and the fields that say which partition is live and what the others hold. */
module PartitionSwitch {
  import opened Outcome
  import opened MemberPartitions

  class AppHandle {
    var impl: Option<nat>

    constructor ()
      ensures impl == None
    {
      impl := None;
    }

    method Bind(impl: Option<nat>)
      modifies this
      ensures this.impl == impl
    {
      this.impl := impl;
    }
  }

  class Logger {
    var level: int
    var filters: seq<nat>
    var handlers: seq<nat>
    var propagate: bool
    var disabled: bool

    /** A logger as `getLogger` hands out a new one. */
    constructor ()
      ensures Config() == UNCONFIGURED
    {
      level, filters, handlers, propagate, disabled := 0, [], [], true, false;
    }

    function Config(): LoggerConfig
      reads this
    {
      LoggerConfig(level, filters, handlers, propagate, disabled)
    }

    method Install(wanted: LoggerConfig)
      modifies this
      ensures Config() == wanted
    {
      if Config() == wanted {
        return;
      }
      if level != wanted.level {
        level := wanted.level;
      }
      filters, handlers := wanted.filters, wanted.handlers;
      propagate, disabled := wanted.propagate, wanted.disabled;
    }
  }

  /** `logging.Logger.manager`: one logger object for each name. */
  class Manager {
    var loggerDict: map<string, Logger>

    ghost predicate Valid()
      reads this
    {
      forall a, b :: a in loggerDict && b in loggerDict && a != b ==> loggerDict[a] != loggerDict[b]
    }

    ghost function Objects(): set<Logger>
      reads this
    {
      set name | name in loggerDict :: loggerDict[name]
    }

    ghost function Configs(): map<string, LoggerConfig>
      reads this, Objects()
    {
      map name | name in loggerDict :: loggerDict[name].Config()
    }

    method Read() returns (configs: map<string, LoggerConfig>)
      ensures configs == Configured(Configs())
    {
      configs := map name | name in loggerDict && loggerDict[name].Config() != UNCONFIGURED :: loggerDict[name].Config();
    }

    method Write(configs: map<string, LoggerConfig>)
      requires Valid()
      modifies Objects()
      ensures Configs() == Installed(old(Configs()), configs)
    {
      hide Logger.Config;
      ghost var was, wanted := Configs(), Installed(Configs(), configs);
      var names, dict := loggerDict.Keys, loggerDict;
      while names != {}
        invariant names <= dict.Keys
        invariant forall name :: name in dict ==> dict[name].Config() == if name in names then was[name] else wanted[name]
        decreases |names|
      {
        var name :| name in names;
        dict[name].Install(if name in configs then configs[name] else UNCONFIGURED);
        names := names - {name};
      }
    }
  }

  class Partitions {
    const members: seq<Path>
    const app: AppHandle
    const manager: Manager
    const initial: View
    var active: Key
    var saved: map<Key, View>

    ghost predicate Ok()
      reads this, manager
    {
      manager.Valid()
    }

    /** The process as the slots read and write it. */
    ghost function Process(): Live
      reads app, manager, manager.Objects()
    {
      Live(app.impl, manager.Configs())
    }

    ghost function Value(): State
      reads this, app, manager, manager.Objects()
    {
      State(active, saved, Process())
    }

    constructor (members: seq<Path>, app: AppHandle, manager: Manager, initial: View)
      requires manager.Valid()
      ensures this.members == members && this.app == app && this.manager == manager && this.initial == initial
      ensures Ok() && active == None && saved == map[]
    {
      this.members, this.app, this.manager, this.initial := members, app, manager, initial;
      active, saved := None, map[];
    }

    /** Every slot's `read`. */
    method ReadSlots() returns (view: View)
      ensures view == Read(Process())
    {
      var configured := manager.Read();
      view := View(app.impl, configured);
    }

    /** Every slot's `write`. */
    method WriteSlots(view: View)
      requires manager.Valid()
      modifies app, manager.Objects()
      ensures Process() == old(Write(Process(), view))
    {
      hide Installed;
      app.Bind(view.binding);
      manager.Write(view.configured);
    }

    method SwitchTo(target: Key)
      requires Ok()
      modifies this, app, manager.Objects()
      ensures Ok() && Value() == old(Switch(Value(), target, initial))
    {
      hide Read, Write, Process;
      if target == active {
        return;
      }
      var leaving := ReadSlots();
      saved := saved[active := leaving];
      WriteSlots(if target in saved then saved[target] else initial);
      active := target;
    }

    method Enter(path: Path)
      requires Ok()
      modifies this, app, manager.Objects()
      ensures Ok() && Value() == old(Switch(Value(), MemberOf(members, path), initial))
    {
      SwitchTo(MemberOf(members, path));
    }

    /** `scope`, up to its block: the partition to go back to. */
    method ScopeBegin(path: Path) returns (previous: Key)
      requires Ok()
      modifies this, app, manager.Objects()
      ensures Ok() && previous == old(active) && Value() == old(Switch(Value(), MemberOf(members, path), initial))
    {
      previous := active;
      SwitchTo(MemberOf(members, path));
    }

    /** `scope`, once its block has ended or raised. */
    method ScopeEnd(previous: Key)
      requires Ok()
      modifies this, app, manager.Objects()
      ensures Ok() && Value() == old(Switch(Value(), previous, initial))
    {
      SwitchTo(previous);
    }
  }
}
