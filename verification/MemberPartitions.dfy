/** The per-member copies of process-global state of conftest.py: one live copy, swapped whenever
    code of another member comes up, against a world for each member of its own. */
module MemberPartitions {
  import opened Outcome

  /** A resolved path, as its components; a member is one. */
  type Path = seq<string>

  /** A partition: a member's, or the one every other suite shares. */
  type Key = Option<Path>

  datatype LoggerConfig = LoggerConfig(level: int, filters: seq<nat>, handlers: seq<nat>, propagate: bool, disabled: bool)

  const UNCONFIGURED := LoggerConfig(0, [], [], true, false)

  /** The process: the app binding and every named logger there is. */
  datatype Live = Live(binding: Option<nat>, loggers: map<string, LoggerConfig>)

  /** What code can observe of it: the binding and the loggers that are configured. */
  datatype View = View(binding: Option<nat>, configured: map<string, LoggerConfig>)

  // ---- The slots -------------------------------------------------------------------------

  function Configured(loggers: map<string, LoggerConfig>): map<string, LoggerConfig> {
    map name | name in loggers && loggers[name] != UNCONFIGURED :: loggers[name]
  }

  /** The slot's `write` of a snapshot: every logger there is, configured or not. */
  function Installed(loggers: map<string, LoggerConfig>, configs: map<string, LoggerConfig>): map<string, LoggerConfig> {
    map name | name in loggers :: if name in configs then configs[name] else UNCONFIGURED
  }

  function Read(live: Live): View { View(live.binding, Configured(live.loggers)) }

  function Write(live: Live, view: View): Live { Live(view.binding, Installed(live.loggers, view.configured)) }

  /** A snapshot as `read` takes one: it names no logger that is not configured. */
  ghost predicate Snapshot(view: View) { Configured(view.configured) == view.configured }

  /** Writing a snapshot and reading gives it back exactly when it names existing loggers only;
      every other logger reads unconfigured afterwards, whoever created it. */
  lemma ReadAfterWrite(live: Live, view: View)
    requires Snapshot(view)
    ensures Read(Write(live, view)) == view <==> view.configured.Keys <= live.loggers.Keys
    ensures forall name :: name in live.loggers && name !in view.configured ==> Write(live, view).loggers[name] == UNCONFIGURED
    ensures Write(live, view).loggers.Keys == live.loggers.Keys
  {
  }

  lemma ReadIsSnapshot(live: Live)
    ensures Snapshot(Read(live)) && Read(live).configured.Keys <= live.loggers.Keys
  {
    var c := Configured(live.loggers);
    assert Configured(c) == c;
  }

  // ---- Partitions ------------------------------------------------------------------------

  /** `member_of`: the first member that is the path or holds it. */
  function MemberOf(members: seq<Path>, path: Path): (r: Key)
    ensures r.Some? ==> r.value in members && r.value <= path
    ensures r.None? <==> forall m :: m in members ==> !(m <= path)
  {
    if members == [] then None else
    assert members == [members[0]] + members[1..];
    if members[0] <= path then Some(members[0]) else MemberOf(members[1..], path)
  }

  datatype State = State(active: Key, saved: map<Key, View>, live: Live)

  /** `_switch`; `initial` is what a member entered for the first time starts from. */
  function Switch(s: State, target: Key, initial: View): State {
    if target == s.active then s
    else
      var saved := s.saved[s.active := Read(s.live)];
      State(target, saved, Write(s.live, if target in saved then saved[target] else initial))
  }

  /** What member code does: anything that depends on what it observes. */
  type Act = View -> View

  /** The view an act leaves, a logger left unconfigured being none. */
  function Acted(view: View, act: Act): View {
    var next := act(view);
    View(next.binding, Configured(next.configured))
  }

  /** An act on the process: loggers come into being, and none goes away. */
  function Performed(live: Live, act: Act): Live {
    var next := Acted(Read(live), act);
    Live(next.binding, map name | name in live.loggers.Keys + next.configured.Keys ::
                         if name in next.configured then next.configured[name] else UNCONFIGURED)
  }

  // ---- What runs -------------------------------------------------------------------------

  /** A session's actions; `Try` is code that catches what its block raises. */
  datatype Action = Do(act: Act) | Enter(path: Path) | Scope(path: Path, body: seq<Action>) | Raise | Try(body: seq<Action>)

  /** The acts and the switches an action comes to. */
  datatype Step = Perform(act: Act) | SwitchTo(target: Key)

  /** Where control ends up: the partition live then, and whether an exception is on its way. */
  datatype Flow = Flow(steps: seq<Step>, active: Key, raised: bool)

  /** What one action runs; a scope switches back however its block ends. */
  function FlowOf(members: seq<Path>, action: Action, active: Key): Flow
    decreases action, 0
  {
    match action
    case Do(act) => Flow([Perform(act)], active, false)
    case Enter(path) => Flow([SwitchTo(MemberOf(members, path))], MemberOf(members, path), false)
    case Scope(path, body) =>
      var inner := FlowOfAll(members, body, MemberOf(members, path));
      Flow([SwitchTo(MemberOf(members, path))] + inner.steps + [SwitchTo(active)], active, inner.raised)
    case Raise => Flow([], active, true)
    case Try(body) => FlowOfAll(members, body, active).(raised := false)
  }

  function FlowOfAll(members: seq<Path>, actions: seq<Action>, active: Key): Flow
    decreases actions, 1
  {
    if actions == [] then Flow([], active, false) else
    var first := FlowOf(members, actions[0], active);
    if first.raised then first else
    var rest := FlowOfAll(members, actions[1..], first.active);
    rest.(steps := first.steps + rest.steps)
  }

  /** The swapped process over a run of steps, and what each act observed, with its partition. */
  function Run(s: State, steps: seq<Step>, initial: View): (State, seq<(Key, View)>)
    decreases |steps|
  {
    if steps == [] then (s, []) else
    var (before, seen) := Run(s, steps[..|steps| - 1], initial);
    match steps[|steps| - 1]
    case SwitchTo(target) => (Switch(before, target, initial), seen)
    case Perform(act) =>
      (before.(live := Performed(before.live, act)), seen + [(before.active, Read(before.live))])
  }

  // ---- Worlds apart ----------------------------------------------------------------------

  /** What code running alone observes at each of its acts, and the view it ends with. */
  function Alone(view: View, acts: seq<Act>): (View, seq<View>)
    decreases |acts|
  {
    if acts == [] then (view, []) else
    var (before, seen) := Alone(view, acts[..|acts| - 1]);
    (Acted(before, acts[|acts| - 1]), seen + [before])
  }

  /** The partition live after the steps. */
  function LastKey(active: Key, steps: seq<Step>): Key
    decreases |steps|
  {
    if steps == [] then active else
    match steps[|steps| - 1]
    case SwitchTo(target) => target
    case Perform(_) => LastKey(active, steps[..|steps| - 1])
  }

  /** The acts that run in partition `key`. */
  function ActsOf(active: Key, steps: seq<Step>, key: Key): seq<Act>
    decreases |steps|
  {
    if steps == [] then [] else
    var before := ActsOf(active, steps[..|steps| - 1], key);
    match steps[|steps| - 1]
    case SwitchTo(_) => before
    case Perform(act) => if LastKey(active, steps[..|steps| - 1]) == key then before + [act] else before
  }

  function SeenIn(seen: seq<(Key, View)>, key: Key): seq<View>
    decreases |seen|
  {
    if seen == [] then [] else
    SeenIn(seen[..|seen| - 1], key) + if seen[|seen| - 1].0 == key then [seen[|seen| - 1].1] else []
  }

  /** The view of partition `key`: the live one, a saved one, or the one members start from. */
  function World(s: State, key: Key, initial: View): View {
    if key == s.active then Read(s.live) else if key in s.saved then s.saved[key] else initial
  }

  /** Every view a switch may install is a snapshot of loggers that exist. */
  ghost predicate Installable(s: State, view: View) { Snapshot(view) && view.configured.Keys <= s.live.loggers.Keys }

  ghost predicate Valid(s: State, initial: View) {
    Installable(s, initial) && forall key :: key in s.saved ==> Installable(s, s.saved[key])
  }

  lemma SwitchKeepsWorlds(s: State, target: Key, initial: View)
    requires Valid(s, initial)
    ensures Valid(Switch(s, target, initial), initial) && Switch(s, target, initial).active == target
    ensures forall key :: World(Switch(s, target, initial), key, initial) == World(s, key, initial)
    ensures target == s.active ==> Switch(s, target, initial) == s
  {
    hide Snapshot, Read, Write;
    var saved := s.saved[s.active := Read(s.live)];
    ReadIsSnapshot(s.live);
    ReadAfterWrite(s.live, if target in saved then saved[target] else initial);
  }

  lemma ReadPerformed(live: Live, act: Act)
    ensures Read(Performed(live, act)) == Acted(Read(live), act)
    ensures live.loggers.Keys <= Performed(live, act).loggers.Keys
  {
    var next := Acted(Read(live), act);
    assert Configured(next.configured) == next.configured;
    assert Configured(Performed(live, act).loggers) == next.configured;
  }

  lemma ActStaysInItsWorld(s: State, act: Act, initial: View)
    requires Valid(s, initial)
    ensures var r := s.(live := Performed(s.live, act));
      && Valid(r, initial) && World(r, s.active, initial) == Acted(World(s, s.active, initial), act)
      && forall key :: key != s.active ==> World(r, key, initial) == World(s, key, initial)
  {
    hide Snapshot, Performed;
    ReadPerformed(s.live, act);
  }

  /** Noninterference: over any run of switches and acts, every partition's view, and everything
      its acts observed on the way, is what it would be had its own acts run alone. */
  lemma {:induction false} EachMemberRunsAlone(s: State, steps: seq<Step>, initial: View, key: Key)
    requires Valid(s, initial)
    ensures var (r, seen) := Run(s, steps, initial);
      && Valid(r, initial) && r.active == LastKey(s.active, steps)
      && (World(r, key, initial), SeenIn(seen, key)) == Alone(World(s, key, initial), ActsOf(s.active, steps, key))
    decreases |steps|
  {
    hide Valid, World, Switch, Performed, Acted;
    if steps != [] {
      var before := steps[..|steps| - 1];
      var (b, seen) := Run(s, before, initial);
      EachMemberRunsAlone(s, before, initial, key);
      match steps[|steps| - 1]
      case SwitchTo(target) =>
        SwitchKeepsWorlds(b, target, initial);
      case Perform(act) =>
        ActStaysInItsWorld(b, act, initial);
        LiveWorld(b, initial);
        AloneMore(World(s, key, initial), ActsOf(s.active, before, key), act);
        SeenMore(seen, b.active, Read(b.live), key);
        assert steps[..|steps| - 1] == before;
    }
  }

  lemma {:induction false} AloneMore(view: View, acts: seq<Act>, act: Act)
    ensures var (before, seen) := Alone(view, acts);
      Alone(view, acts + [act]) == (Acted(before, act), seen + [before])
  {
    assert (acts + [act])[..|acts|] == acts;
  }

  lemma {:induction false} SeenMore(seen: seq<(Key, View)>, at: Key, view: View, key: Key)
    ensures SeenIn(seen + [(at, view)], key) == if at == key then SeenIn(seen, key) + [view] else SeenIn(seen, key)
  {
    assert (seen + [(at, view)])[..|seen|] == seen;
  }

  lemma LiveWorld(s: State, initial: View)
    ensures World(s, s.active, initial) == Read(s.live)
  {
  }

  /** A session from its start: the shared partition live, nothing saved yet, and every member to
      start with no app bound and the loggers as they were. */
  lemma {:induction false} SessionsAreApart(startup: Live, members: seq<Path>, actions: seq<Action>, key: Key)
    ensures var initial, flow := View(None, Configured(startup.loggers)), FlowOfAll(members, actions, None);
      var (end, seen) := Run(State(None, map[], startup), flow.steps, initial);
      && (World(end, key, initial), SeenIn(seen, key)) ==
           Alone(if key.None? then Read(startup) else initial, ActsOf(None, flow.steps, key))
      && end.active == flow.active
  {
    hide Run, Alone, ActsOf, SeenIn;
    var initial := View(None, Configured(startup.loggers));
    ReadIsSnapshot(startup);
    EachMemberRunsAlone(State(None, map[], startup), FlowOfAll(members, actions, None).steps, initial, key);
    FlowEndsWhereItSays(members, actions, None);
  }

  // ---- Control flow ----------------------------------------------------------------------

  /** The action ends by an exception. */
  predicate Raises(action: Action) {
    match action
    case Do(_) => false
    case Enter(_) => false
    case Scope(_, body) => exists i :: 0 <= i < |body| && Raises(body[i])
    case Raise => true
    case Try(_) => false
  }

  /** An exception is on its way exactly out of actions one of which raises. */
  lemma {:induction false} OneRaises(members: seq<Path>, action: Action, active: Key)
    ensures FlowOf(members, action, active).raised <==> Raises(action)
    decreases action, 0
  {
    if action.Scope? {
      SomeRaises(members, action.body, MemberOf(members, action.path));
    }
  }

  lemma {:induction false} SomeRaises(members: seq<Path>, actions: seq<Action>, active: Key)
    ensures FlowOfAll(members, actions, active).raised <==> exists i :: 0 <= i < |actions| && Raises(actions[i])
    decreases actions, 1
  {
    if actions != [] {
      OneRaises(members, actions[0], active);
      SomeRaises(members, actions[1..], FlowOf(members, actions[0], active).active);
      assert forall i :: 0 < i < |actions| ==> actions[i] == actions[1..][i - 1];
    }
  }

  /** One part of a session after the other: what stands behind a raise does not run, everything else does. */
  lemma {:induction false} OnePartAfterTheOther(members: seq<Path>, a: seq<Action>, b: seq<Action>, active: Key)
    ensures var first, both := FlowOfAll(members, a, active), FlowOfAll(members, a + b, active);
      var rest := FlowOfAll(members, b, first.active);
      both == if exists i :: 0 <= i < |a| && Raises(a[i]) then first else Flow(first.steps + rest.steps, rest.active, rest.raised)
    decreases |a|
  {
    SomeRaises(members, a, active);
    if a == [] {
      assert a + b == b;
    } else {
      assert (a + b)[1..] == a[1..] + b;
      var first := FlowOf(members, a[0], active);
      OneRaises(members, a[0], active);
      OnePartAfterTheOther(members, a[1..], b, first.active);
      SomeRaises(members, a[1..], first.active);
    }
  }

  /** What a single action comes to: an act in place, a switch to the member of a path, a block between
      the switch to its member and the one back, a block whose exception goes no further. */
  lemma {:induction false} SingleActions(members: seq<Path>, act: Act, path: Path, body: seq<Action>, active: Key)
    ensures FlowOfAll(members, [Do(act)], active).steps == [Perform(act)]
    ensures FlowOfAll(members, [Enter(path)], active).steps == [SwitchTo(MemberOf(members, path))]
    ensures FlowOfAll(members, [Scope(path, body)], active).steps ==
            [SwitchTo(MemberOf(members, path))] + FlowOfAll(members, body, MemberOf(members, path)).steps + [SwitchTo(active)]
    ensures FlowOfAll(members, [Try(body)], active).steps == FlowOfAll(members, body, active).steps
  {
    Single(members, Do(act), active);
    Single(members, Enter(path), active);
    Single(members, Scope(path, body), active);
    Single(members, Try(body), active);
  }

  lemma {:induction false} Single(members: seq<Path>, action: Action, active: Key)
    ensures FlowOfAll(members, [action], active) == FlowOf(members, action, active)
  {
    var first := FlowOf(members, action, active);
    assert FlowOfAll(members, [action][1..], first.active).steps == [];
    hide FlowOf;
  }

  // ---- Scopes ----------------------------------------------------------------------------

  lemma {:induction false} LastKeyOfBoth(active: Key, a: seq<Step>, b: seq<Step>)
    ensures LastKey(active, a + b) == LastKey(LastKey(active, a), b)
    decreases |b|
  {
    if b == [] {
      assert a + b == a;
    } else {
      assert (a + b)[..|a + b| - 1] == a + b[..|b| - 1];
      LastKeyOfBoth(active, a, b[..|b| - 1]);
    }
  }

  lemma {:induction false} FlowOneEnds(members: seq<Path>, action: Action, active: Key)
    ensures LastKey(active, FlowOf(members, action, active).steps) == FlowOf(members, action, active).active
    decreases action, 0
  {
    match action
    case Do(act) =>
      assert [Perform(act)][..0] == [];
    case Enter(path) =>
    case Scope(path, body) =>
    case Raise =>
    case Try(body) => FlowEndsWhereItSays(members, body, active);
  }

  /** The partition live at the end is the one control flow says. */
  lemma {:induction false} FlowEndsWhereItSays(members: seq<Path>, actions: seq<Action>, active: Key)
    ensures LastKey(active, FlowOfAll(members, actions, active).steps) == FlowOfAll(members, actions, active).active
    decreases actions, 1
  {
    if actions != [] {
      var first := FlowOf(members, actions[0], active);
      FlowOneEnds(members, actions[0], active);
      if !first.raised {
        FlowEndsWhereItSays(members, actions[1..], first.active);
        LastKeyOfBoth(active, first.steps, FlowOfAll(members, actions[1..], first.active).steps);
      }
    }
  }

  /** A scope, entered from partition `key` and left by an exception or not, goes back to it, and
      unless code of `key` itself ran inside finds it as it was. */
  lemma {:induction false} ScopeGoesBack(s: State, members: seq<Path>, path: Path, body: seq<Action>, initial: View)
    requires Valid(s, initial)
    requires ActsOf(s.active, FlowOf(members, Scope(path, body), s.active).steps, s.active) == []
    ensures var (r, _) := Run(s, FlowOf(members, Scope(path, body), s.active).steps, initial);
      r.active == s.active && Read(r.live) == Read(s.live)
  {
    hide Run, ActsOf, Valid, Read, FlowOf;
    var steps := FlowOf(members, Scope(path, body), s.active).steps;
    EachMemberRunsAlone(s, steps, initial, s.active);
    FlowOneEnds(members, Scope(path, body), s.active);
    ScopeFlowStays(members, path, body, s.active);
    LiveWorld(s, initial);
    LiveWorld(Run(s, steps, initial).0, initial);
  }

  lemma {:induction false} ScopeFlowStays(members: seq<Path>, path: Path, body: seq<Action>, active: Key)
    ensures FlowOf(members, Scope(path, body), active).active == active
  {
  }
}
