/** The release set of scripts/release-please/python-workspace.js: the candidates and every
    unit whose ranges their versions move, asked again until no new unit appears.

    `query` answers for a set of versions, `bump` is the strategy's bump of a release made for
    its ranges alone; both are the library's and are left arbitrary here. */
module ReleaseLoop {
  import opened Outcome
  import opened PyprojectSpecs
  import opened Query

  datatype Candidate = Candidate(path: string, version: string)

  datatype Package = Package(name: string, path: string, version: string)

  datatype LoopError = NotConfigured(path: string) | NoRelease(path: string) | QueryFailed(error: Error)

  type Ask = map<string, string> -> Result<seq<Move>, Error>

  type Bump = (string, string) -> string

  /** The release-please configuration: a component name by configured path, and the version of
      the latest release by path. */
  datatype Config = Config(components: map<string, string>, releases: map<string, string>)

  /** The versions and packages gathered so far. */
  datatype Gathered = Gathered(versions: map<string, string>, packages: map<string, Package>)

  datatype Settled = Settled(release: Gathered, moves: seq<Move>)

  function PackageAt(config: Config, path: string, version: string): Result<Package, LoopError> {
    if path !in config.components then Failure(NotConfigured(path))
    else Success(Package(config.components[path], path, version))
  }

  /** `releasedPackageAt`: a unit released for its ranges alone, at its latest release. */
  function ReleasedPackageAt(config: Config, path: string): Result<Package, LoopError> {
    if path !in config.components then Failure(NotConfigured(path))
    else if path !in config.releases then Failure(NoRelease(path))
    else PackageAt(config, path, config.releases[path])
  }

  function GatherCandidates(config: Config, candidates: seq<Candidate>): Result<Gathered, LoopError>
    decreases |candidates|
  {
    if candidates == [] then Success(Gathered(map[], map[])) else
    var last := candidates[|candidates| - 1];
    var g :- GatherCandidates(config, candidates[..|candidates| - 1]);
    var pkg :- PackageAt(config, last.path, last.version);
    Success(Gathered(g.versions[last.path := last.version], g.packages[last.path := pkg]))
  }

  /** The moved units not in the release yet. */
  function Added(moves: seq<Move>, versions: map<string, string>): (added: seq<Move>)
    ensures forall m :: m in added <==> m in moves && m.path !in versions
    ensures added == [] <==> forall m :: m in moves ==> m.path in versions
  {
    if moves == [] then [] else
    var last := moves[|moves| - 1];
    assert moves == moves[..|moves| - 1] + [last];
    Added(moves[..|moves| - 1], versions) + if last.path in versions then [] else [last]
  }

  /** The release once every added unit is forced into it. */
  function Force(config: Config, bump: Bump, g: Gathered, added: seq<Move>): (r: Result<Gathered, LoopError>)
    ensures r.Success? ==> r.value.versions.Keys == g.versions.Keys + set m | m in added :: m.path
    ensures r.Success? ==> forall m :: m in added ==> m.path in config.components
    decreases |added|
  {
    if added == [] then Success(g) else
    var last := added[|added| - 1];
    assert added == added[..|added| - 1] + [last];
    var before :- Force(config, bump, g, added[..|added| - 1]);
    var pkg :- ReleasedPackageAt(config, last.path);
    Success(Gathered(before.versions[last.path := bump(last.path, pkg.version)], before.packages[last.path := pkg]))
  }

  /** Rounds of asking and forcing; each one that goes on adds a configured unit. */
  function Settle(config: Config, ask: Ask, bump: Bump, g: Gathered): Result<Settled, LoopError>
    decreases config.components.Keys - g.versions.Keys
  {
    match ask(g.versions)
    case Failure(e) => Failure(QueryFailed(e))
    case Success(moves) =>
      var added := Added(moves, g.versions);
      if added == [] then Success(Settled(g, moves)) else
      var forced :- Force(config, bump, g, added);
      assert added[0].path in config.components.Keys - g.versions.Keys;
      Settle(config, ask, bump, forced)
  }

  /** The range changes on record after those rounds: the last answer's, if there was one. */
  function ChangesLeft(config: Config, ask: Ask, bump: Bump, g: Gathered, was: map<string, seq<RangeChange>>):
    map<string, seq<RangeChange>>
    decreases config.components.Keys - g.versions.Keys
  {
    match ask(g.versions)
    case Failure(_) => was
    case Success(moves) =>
      var added := Added(moves, g.versions);
      if added == [] then ChangesByPath(moves) else
      match Force(config, bump, g, added)
      case Failure(_) => ChangesByPath(moves)
      case Success(forced) =>
        assert added[0].path in config.components.Keys - g.versions.Keys;
        ChangesLeft(config, ask, bump, forced, ChangesByPath(moves))
  }

  class PythonWorkspace {
    const config: Config
    const ask: Ask
    const bump: Bump
    var rangeChanges: map<string, seq<RangeChange>>

    constructor (config: Config, ask: Ask, bump: Bump)
      ensures this.config == config && this.ask == ask && this.bump == bump && rangeChanges == map[]
    {
      this.config, this.ask, this.bump, rangeChanges := config, ask, bump, map[];
    }

    /** `buildAllPackages`: it ends, whatever the query answers, with the settled release or the
        first error, and keeps the range changes of the last answer either way. */
    method BuildAllPackages(candidates: seq<Candidate>) returns (r: Result<Gathered, LoopError>)
      modifies this
      ensures match GatherCandidates(config, candidates)
              case Failure(e) => r == Failure(e) && rangeChanges == old(rangeChanges)
              case Success(g) =>
                && rangeChanges == ChangesLeft(config, ask, bump, g, old(rangeChanges))
                && match Settle(config, ask, bump, g)
                   case Failure(e) => r == Failure(e)
                   case Success(settled) => r == Success(settled.release) && rangeChanges == ChangesByPath(settled.moves)
    {
      var versions, packages: map<string, Package> := map[], map[];
      for i := 0 to |candidates|
        invariant GatherCandidates(config, candidates[..i]) == Success(Gathered(versions, packages))
        invariant rangeChanges == old(rangeChanges)
      {
        var pkg := PackageAt(config, candidates[i].path, candidates[i].version);
        assert candidates[..i + 1][..i] == candidates[..i];
        if pkg.Failure? {
          UnconfiguredStays(config, candidates, i + 1);
          return Failure(pkg.error);
        }
        versions, packages := versions[candidates[i].path := candidates[i].version], packages[candidates[i].path := pkg.value];
      }
      assert candidates[..|candidates|] == candidates;
      ghost var first := Gathered(versions, packages);
      while true
        invariant GatherCandidates(config, candidates) == Success(first)
        invariant Settle(config, ask, bump, first) == Settle(config, ask, bump, Gathered(versions, packages))
        invariant ChangesLeft(config, ask, bump, first, old(rangeChanges))
               == ChangesLeft(config, ask, bump, Gathered(versions, packages), rangeChanges)
        decreases config.components.Keys - versions.Keys
      {
        var answer := ask(versions);
        if answer.Failure? {
          return Failure(QueryFailed(answer.error));
        }
        rangeChanges := ChangesByPath(answer.value);
        var added := Added(answer.value, versions);
        if added == [] {
          return Success(Gathered(versions, packages));
        }
        var forced := ForceAdded(config, bump, Gathered(versions, packages), added);
        if forced.Failure? {
          return Failure(forced.error);
        }
        assert added[0].path in config.components.Keys - versions.Keys;
        versions, packages := forced.value.versions, forced.value.packages;
      }
    }
  }

  function ChangesByPath(moves: seq<Move>): map<string, seq<RangeChange>>
    decreases |moves|
  {
    if moves == [] then map[] else
    var last := moves[|moves| - 1];
    ChangesByPath(moves[..|moves| - 1])[last.path := last.changes]
  }

  lemma {:induction false} UnconfiguredStays(config: Config, candidates: seq<Candidate>, n: nat)
    requires n <= |candidates| && GatherCandidates(config, candidates[..n]).Failure?
    ensures GatherCandidates(config, candidates) == GatherCandidates(config, candidates[..n])
    decreases |candidates|
  {
    if n < |candidates| {
      var before := candidates[..|candidates| - 1];
      assert before[..n] == candidates[..n];
      UnconfiguredStays(config, before, n);
    } else {
      assert candidates[..n] == candidates;
    }
  }

  method ForceAdded(config: Config, bump: Bump, g: Gathered, added: seq<Move>) returns (r: Result<Gathered, LoopError>)
    ensures r == Force(config, bump, g, added)
  {
    var now := g;
    for i := 0 to |added|
      invariant Force(config, bump, g, added[..i]) == Success(now)
    {
      var pkg := ReleasedPackageAt(config, added[i].path);
      assert added[..i + 1][..i] == added[..i];
      if pkg.Failure? {
        UnforcedStays(config, bump, g, added, i + 1);
        return Failure(pkg.error);
      }
      now := Gathered(now.versions[added[i].path := bump(added[i].path, pkg.value.version)],
                      now.packages[added[i].path := pkg.value]);
    }
    assert added[..|added|] == added;
    r := Success(now);
  }

  lemma {:induction false} UnforcedStays(config: Config, bump: Bump, g: Gathered, added: seq<Move>, n: nat)
    requires n <= |added| && Force(config, bump, g, added[..n]).Failure?
    ensures Force(config, bump, g, added) == Force(config, bump, g, added[..n])
    decreases |added|
  {
    if n < |added| {
      var before := added[..|added| - 1];
      assert before[..n] == added[..n];
      UnforcedStays(config, bump, g, before, n);
    } else {
      assert added[..n] == added;
    }
  }

  // ---- What the candidates come to -------------------------------------------------------

  /** `buildAllPackages` as a value: the settled release and the last answer, or the first error. */
  function Build(config: Config, ask: Ask, bump: Bump, candidates: seq<Candidate>): Result<Settled, LoopError> {
    var g :- GatherCandidates(config, candidates);
    Settle(config, ask, bump, g)
  }

  /** No later candidate releases the same unit. */
  ghost predicate LastOfItsPath(candidates: seq<Candidate>, i: nat) {
    i < |candidates| && forall j :: i < j < |candidates| ==> candidates[j].path != candidates[i].path
  }

  /** The candidates' own versions: exactly their paths, each at its last candidate's version. */
  ghost predicate ReleasesOf(candidates: seq<Candidate>, versions: map<string, string>) {
    && (forall path :: path in versions <==> exists i :: 0 <= i < |candidates| && candidates[i].path == path)
    && (forall i: nat :: LastOfItsPath(candidates, i) ==>
          candidates[i].path in versions && versions[candidates[i].path] == candidates[i].version)
  }

  /** The packages of those versions, under their configured component names. */
  ghost predicate PackagesOf(config: Config, versions: map<string, string>, packages: map<string, Package>) {
    && packages.Keys == versions.Keys
    && (forall path :: path in versions ==>
          path in config.components && packages[path] == Package(config.components[path], path, versions[path]))
  }

  lemma {:induction false} LastOfSome(candidates: seq<Candidate>, i: nat) returns (k: nat)
    requires i < |candidates|
    ensures LastOfItsPath(candidates, k) && candidates[k].path == candidates[i].path
    decreases |candidates| - i
  {
    k := i;
    if j :| i < j < |candidates| && candidates[j].path == candidates[i].path {
      k := LastOfSome(candidates, j);
    }
  }

  lemma {:induction false} ReleasesGrow(before: seq<Candidate>, last: Candidate, versions: map<string, string>)
    requires ReleasesOf(before, versions)
    ensures ReleasesOf(before + [last], versions[last.path := last.version])
  {
    var candidates, more := before + [last], versions[last.path := last.version];
    assert candidates[|before|] == last && forall i :: 0 <= i < |before| ==> candidates[i] == before[i];
    forall path
      ensures path in more <==> exists i :: 0 <= i < |candidates| && candidates[i].path == path
    {
      if i :| 0 <= i < |before| && before[i].path == path {
        assert candidates[i].path == path;
      }
    }
    forall i: nat | LastOfItsPath(candidates, i)
      ensures candidates[i].path in more && more[candidates[i].path] == candidates[i].version
    {
      if i < |before| {
        assert candidates[|before|].path != candidates[i].path;
        assert LastOfItsPath(before, i);
      }
    }
  }

  ghost predicate Configured(config: Config, candidates: seq<Candidate>) {
    forall i :: 0 <= i < |candidates| ==> candidates[i].path in config.components
  }

  /** The first candidate whose path is not configured. */
  ghost predicate FirstUnconfigured(config: Config, candidates: seq<Candidate>, n: nat) {
    n < |candidates| && candidates[n].path !in config.components && Configured(config, candidates[..n])
  }

  /** The gathering stops at the first candidate that is not configured, and only there. */
  lemma {:induction false} GatheringStops(config: Config, candidates: seq<Candidate>)
    ensures GatherCandidates(config, candidates).Success? <==> Configured(config, candidates)
    ensures forall n: nat :: FirstUnconfigured(config, candidates, n) ==>
      GatherCandidates(config, candidates) == Failure(NotConfigured(candidates[n].path))
    decreases |candidates|
  {
    if candidates != [] {
      var before := candidates[..|candidates| - 1];
      GatheringStops(config, before);
      forall n: nat | FirstUnconfigured(config, candidates, n)
        ensures GatherCandidates(config, candidates) == Failure(NotConfigured(candidates[n].path))
      {
        if n < |before| {
          assert before[..n] == candidates[..n];
          assert FirstUnconfigured(config, before, n);
        } else {
          assert before == candidates[..n];
        }
      }
    }
  }

  /** What is gathered, from any candidate list: the candidates' versions and packages where every path
      is configured, and otherwise the first path that is not. */
  lemma {:induction false} CandidatesGathered(config: Config, candidates: seq<Candidate>)
    ensures var r := GatherCandidates(config, candidates);
      && (r.Success? <==> Configured(config, candidates))
      && (r.Success? ==> ReleasesOf(candidates, r.value.versions) && PackagesOf(config, r.value.versions, r.value.packages))
      && forall n: nat :: FirstUnconfigured(config, candidates, n) ==> r == Failure(NotConfigured(candidates[n].path))
    decreases |candidates|
  {
    hide ReleasesOf, Configured, FirstUnconfigured;
    GatheringStops(config, candidates);
    if candidates == [] {
      NothingGathered();
    } else if GatherCandidates(config, candidates).Success? {
      var before, last := candidates[..|candidates| - 1], candidates[|candidates| - 1];
      assert candidates == before + [last];
      CandidatesGathered(config, before);
      ReleasesGrow(before, last, GatherCandidates(config, before).value.versions);
    }
  }

  lemma NothingGathered()
    ensures ReleasesOf([], map[])
  {
  }

  /** Why an added unit cannot be forced in. */
  function ForceError(config: Config, path: string): Option<LoopError> {
    if path !in config.components then Some(NotConfigured(path))
    else if path !in config.releases then Some(NoRelease(path))
    else None
  }

  /** Forcing stops at the first added unit that is not configured or was never released, and only there. */
  lemma {:induction false} ForcingStops(config: Config, bump: Bump, g: Gathered, added: seq<Move>)
    ensures Force(config, bump, g, added).Success? <==> forall i :: 0 <= i < |added| ==> ForceError(config, added[i].path) == None
    ensures forall n :: 0 <= n < |added| && ForceError(config, added[n].path).Some?
                        && (forall i :: 0 <= i < n ==> ForceError(config, added[i].path) == None) ==>
      Force(config, bump, g, added) == Failure(ForceError(config, added[n].path).value)
    decreases |added|
  {
    if added != [] {
      var before := added[..|added| - 1];
      ForcingStops(config, bump, g, before);
      assert forall i :: 0 <= i < |before| ==> before[i] == added[i];
    }
  }

  /** A loop that ends with an error met it at a stage it had reached: its query failed, or a unit the query
      named could not be forced in. */
  ghost predicate Stuck(config: Config, ask: Ask, stage: map<string, string>, error: LoopError) {
    match ask(stage)
    case Failure(e) => error == QueryFailed(e)
    case Success(moves) => exists m :: m in moves && m.path !in stage && ForceError(config, m.path) == Some(error)
  }

  /** The changes on record are those of the last answer, or the ones from before where none came. */
  ghost predicate LastAnswer(ask: Ask, first: map<string, string>, stage: map<string, string>,
                             was: map<string, seq<RangeChange>>, now: map<string, seq<RangeChange>>)
  {
    match ask(stage)
    case Success(moves) => now == ChangesByPath(moves)
    case Failure(_) =>
      if stage == first then now == was
      else exists before :: Within(first, before) && ask(before).Success? && now == ChangesByPath(ask(before).value)
  }

  /** What a loop leaves on record: the answer to the release it settled on, or the last answer there was
      when it met its error. */
  lemma {:induction false} ChangesAreTheLast(config: Config, ask: Ask, bump: Bump, g: Gathered, was: map<string, seq<RangeChange>>)
    ensures var r, now := Settle(config, ask, bump, g), ChangesLeft(config, ask, bump, g, was);
      match r
      case Success(settled) => now == ChangesByPath(settled.moves)
      case Failure(e) =>
        exists stage :: Within(g.versions, stage) && Stuck(config, ask, stage, e) && LastAnswer(ask, g.versions, stage, was, now)
    decreases config.components.Keys - g.versions.Keys
  {
    hide Force, ChangesByPath;
    var now := ChangesLeft(config, ask, bump, g, was);
    if ask(g.versions).Failure? {
      assert Stuck(config, ask, g.versions, Settle(config, ask, bump, g).error) && LastAnswer(ask, g.versions, g.versions, was, now);
    } else {
      var moves := ask(g.versions).value;
      var added := Added(moves, g.versions);
      var forced := Force(config, bump, g, added);
      ForcingStops(config, bump, g, added);
      if forced.Failure? {
        FirstOfThem(config, added);
        assert Stuck(config, ask, g.versions, Settle(config, ask, bump, g).error) && LastAnswer(ask, g.versions, g.versions, was, now);
      } else if added != [] {
        assert added[0].path in config.components.Keys - g.versions.Keys;
        ForceKeeps(config, bump, g, added);
        ChangesAreTheLast(config, ask, bump, forced.value, ChangesByPath(moves));
        if Settle(config, ask, bump, g).Failure? {
          LaterStage(config, ask, g.versions, forced.value.versions, Settle(config, ask, bump, g).error, was, now);
        }
      }
    }
  }

  lemma LaterStage(config: Config, ask: Ask, first: map<string, string>, next: map<string, string>, error: LoopError,
                   was: map<string, seq<RangeChange>>, now: map<string, seq<RangeChange>>)
    requires Within(first, next) && next.Keys != first.Keys && ask(first).Success?
    requires exists stage :: Within(next, stage) && Stuck(config, ask, stage, error)
                             && LastAnswer(ask, next, stage, ChangesByPath(ask(first).value), now)
    ensures exists stage :: Within(first, stage) && Stuck(config, ask, stage, error) && LastAnswer(ask, first, stage, was, now)
  {
    hide ChangesByPath, Stuck;
    var stage :| Within(next, stage) && Stuck(config, ask, stage, error)
                 && LastAnswer(ask, next, stage, ChangesByPath(ask(first).value), now);
    assert Within(first, stage) && stage.Keys != first.Keys;
    if ask(stage).Failure? {
      if stage == next {
        assert Within(first, first);
      } else {
        var before :| Within(next, before) && ask(before).Success? && now == ChangesByPath(ask(before).value);
        assert Within(first, before);
      }
    }
    assert LastAnswer(ask, first, stage, was, now);
  }

  /** There is a first one that cannot be forced in. */
  lemma {:induction false} FirstOfThem(config: Config, added: seq<Move>)
    requires exists i :: 0 <= i < |added| && ForceError(config, added[i].path).Some?
    ensures exists n :: 0 <= n < |added| && ForceError(config, added[n].path).Some?
                        && forall i :: 0 <= i < n ==> ForceError(config, added[i].path) == None
    decreases |added|
  {
    var before := added[..|added| - 1];
    if i :| 0 <= i < |before| && ForceError(config, before[i].path).Some? {
      FirstOfThem(config, before);
      var n :| 0 <= n < |before| && ForceError(config, before[n].path).Some?
               && forall i :: 0 <= i < n ==> ForceError(config, before[i].path) == None;
      assert added[n] == before[n] && forall i :: 0 <= i < n ==> added[i] == before[i];
    } else {
      assert forall i :: 0 <= i < |before| ==> before[i] == added[i];
    }
  }

  /** The versions of a candidate list are one map. */
  lemma ReleasesAreOne(candidates: seq<Candidate>, v: map<string, string>, w: map<string, string>)
    requires ReleasesOf(candidates, v) && ReleasesOf(candidates, w)
    ensures v == w
  {
    assert v.Keys == w.Keys;
    forall path | path in v
      ensures v[path] == w[path]
    {
      var i :| 0 <= i < |candidates| && candidates[i].path == path;
      var k := LastOfSome(candidates, i);
    }
  }

  /** Each moved unit's range changes on record are those of its last move. */
  lemma {:induction false} ChangesByPathIs(moves: seq<Move>)
    ensures forall path :: path in ChangesByPath(moves) <==> exists i :: 0 <= i < |moves| && moves[i].path == path
    ensures forall i :: 0 <= i < |moves| && (forall j :: i < j < |moves| ==> moves[j].path != moves[i].path) ==>
      ChangesByPath(moves)[moves[i].path] == moves[i].changes
    decreases |moves|
  {
    if moves != [] {
      var before, last := moves[..|moves| - 1], moves[|moves| - 1];
      ChangesByPathIs(before);
      assert forall i :: 0 <= i < |before| ==> before[i] == moves[i];
      forall path
        ensures path in ChangesByPath(moves) <==> exists i :: 0 <= i < |moves| && moves[i].path == path
      {
        if i :| 0 <= i < |before| && before[i].path == path {
          assert moves[i].path == path;
        }
        if i :| 0 <= i < |moves| && moves[i].path == path && path != last.path {
          assert before[i].path == path;
        }
      }
    }
  }

  // ---- What the settled release is -------------------------------------------------------

  /** `small` is part of `large`. */
  ghost predicate Within(small: map<string, string>, large: map<string, string>) {
    forall path :: path in small ==> path in large && large[path] == small[path]
  }

  /** Why a unit is in the release: forced, from its latest release to the bump of it, because
      some stage of the release moved its ranges. */
  ghost predicate Forced(config: Config, ask: Ask, bump: Bump, release: Gathered, path: string) {
    && AtItsBump(config, bump, release, path)
    && exists stage :: Within(stage, release.versions) && NamedBy(ask, stage, path)
  }

  ghost predicate AtItsBump(config: Config, bump: Bump, release: Gathered, path: string) {
    && path in config.components && path in config.releases && path in release.versions && path in release.packages
    && release.versions[path] == bump(path, config.releases[path])
    && release.packages[path] == Package(config.components[path], path, config.releases[path])
  }

  ghost predicate NamedBy(ask: Ask, versions: map<string, string>, path: string) {
    ask(versions).Success? && exists m :: m in ask(versions).value && m.path == path
  }

  /** The release keeps what it held and adds only units at their bumps. */
  ghost predicate Grown(config: Config, bump: Bump, g: Gathered, release: Gathered) {
    && Within(g.versions, release.versions)
    && (forall path :: path in g.versions && path in g.packages ==>
          path in release.packages && release.packages[path] == g.packages[path])
    && (forall path :: path in release.versions && path !in g.versions ==> AtItsBump(config, bump, release, path))
  }

  /** One more unit forced in at its bump. */
  lemma OneMoreForced(config: Config, bump: Bump, g: Gathered, before: Gathered, path: string, pkg: Package)
    requires Grown(config, bump, g, before) && path !in g.versions
    requires ReleasedPackageAt(config, path) == Success(pkg)
    ensures Grown(config, bump, g,
                  Gathered(before.versions[path := bump(path, pkg.version)], before.packages[path := pkg]))
  {
    var after := Gathered(before.versions[path := bump(path, pkg.version)], before.packages[path := pkg]);
    forall other | other in after.versions && other !in g.versions
      ensures AtItsBump(config, bump, after, other)
    {
      if other != path {
        assert AtItsBump(config, bump, before, other);
      }
    }
  }

  lemma {:induction false} ForceKeeps(config: Config, bump: Bump, g: Gathered, added: seq<Move>)
    requires Force(config, bump, g, added).Success?
    requires forall m :: m in added ==> m.path !in g.versions
    ensures Grown(config, bump, g, Force(config, bump, g, added).value)
    decreases |added|
  {
    if added != [] {
      var last := added[|added| - 1];
      assert added == added[..|added| - 1] + [last];
      ForceKeeps(config, bump, g, added[..|added| - 1]);
      hide Grown, ReleasedPackageAt;
      OneMoreForced(config, bump, g, Force(config, bump, g, added[..|added| - 1]).value, last.path,
                    ReleasedPackageAt(config, last.path).value);
    }
  }

  lemma GrownTwice(config: Config, bump: Bump, a: Gathered, b: Gathered, c: Gathered)
    requires Grown(config, bump, a, b) && Grown(config, bump, b, c)
    ensures Grown(config, bump, a, c)
  {
    forall path | path in c.versions && path !in a.versions
      ensures AtItsBump(config, bump, c, path)
    {
      if path in b.versions {
        assert AtItsBump(config, bump, b, path);
      }
    }
  }

  /** The settled release contains the one it started from, is closed under the query, and holds
      besides only units the query called for, each at the bump of its latest release. */
  lemma {:induction false} SettledIsClosedAndCalledFor(config: Config, ask: Ask, bump: Bump, g: Gathered)
    requires Settle(config, ask, bump, g).Success?
    ensures var settled := Settle(config, ask, bump, g).value; var release := settled.release;
      && Grown(config, bump, g, release)
      && ask(release.versions) == Success(settled.moves)
      && (forall m :: m in settled.moves ==> m.path in release.versions)
      && (forall path :: path in release.versions && path !in g.versions ==> Forced(config, ask, bump, release, path))
    decreases config.components.Keys - g.versions.Keys
  {
    var moves := ask(g.versions).value;
    var added := Added(moves, g.versions);
    if added != [] {
      hide AtItsBump;
      var forced := Force(config, bump, g, added).value;
      assert added[0].path in config.components.Keys - g.versions.Keys;
      ForceKeeps(config, bump, g, added);
      SettledIsClosedAndCalledFor(config, ask, bump, forced);
      var release := Settle(config, ask, bump, g).value.release;
      GrownTwice(config, bump, g, forced, release);
      forall path | path in release.versions && path !in g.versions
        ensures Forced(config, ask, bump, release, path)
      {
        if path in forced.versions {
          assert Within(g.versions, release.versions) && NamedBy(ask, g.versions, path);
        }
      }
    }
  }
}
