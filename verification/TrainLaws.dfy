/** The two sides of a release joined: the set the release loop settles on is one the train
    check accepts, and it is reached in one round of forcing. */
module TrainLaws {
  import opened Outcome
  import opened Text
  import opened VersionRanges
  import opened RangeAlgebra
  import opened PyprojectSpecs
  import opened Sync
  import opened Query
  import opened ReleaseLoop

  // ---- What discovery guarantees ---------------------------------------------------------

  /** Member paths are distinct release units, and so are component paths; no two members share
      a normalized name (uv refuses a workspace in which they do). */
  ghost predicate Discovered(tree: Tree) {
    && (forall i :: 0 <= i < |tree.members| ==> tree.members[i].path in tree.units)
    && (forall i, j :: 0 <= i < j < |tree.members| ==> tree.members[i].path != tree.members[j].path)
    && DistinctNames(tree.members)
    && (forall i, j :: 0 <= i < j < |tree.components| ==> tree.components[i].path != tree.components[j].path)
    && (forall unit :: unit in tree.units ==>
          IsMember(tree, unit) || exists i :: 0 <= i < |tree.components| && tree.components[i].path == unit)
  }

  ghost predicate IsMember(tree: Tree, unit: string) { exists m :: m in tree.members && m.path == unit }

  ghost predicate DistinctNames(members: seq<Member>) {
    forall i, j :: 0 <= i < j < |members| && members[i].py.name != "" && members[j].py.name != "" ==>
      NormalizeName(members[i].py.name) != NormalizeName(members[j].py.name)
  }

  // ---- The released tree -----------------------------------------------------------------

  function Versioned(member: Member, versions: map<string, string>): Member {
    if member.path in versions then member.(py := member.py.(version := versions[member.path])) else member
  }

  function VersionedAll(members: seq<Member>, versions: map<string, string>): (r: seq<Member>)
    ensures |r| == |members|
  {
    seq(|members|, i requires 0 <= i < |members| => Versioned(members[i], versions))
  }

  /** The tree once each released unit declares its new version. */
  function WithVersions(tree: Tree, versions: map<string, string>): (r: Tree)
    ensures |r.members| == |tree.members| && |r.components| == |tree.components|
  {
    tree.(
      members := VersionedAll(tree.members, versions),
      components := seq(|tree.components|, i requires 0 <= i < |tree.components| =>
        var c := tree.components[i];
        if c.path in versions then c.(version := versions[c.path]) else c))
  }

  // ---- Candidate versions are the released tree's versions -------------------------------

  ghost predicate Maps(firstParty: Versions, key: string, version: string) {
    key in firstParty && firstParty[key] == version
  }

  lemma SameMaps(f: Versions, g: Versions)
    requires forall key, version :: Maps(f, key, version) <==> Maps(g, key, version)
    ensures f == g
  {
    assert forall key :: key in f ==> Maps(f, key, f[key]);
    assert forall key :: key in g ==> Maps(g, key, g[key]);
  }

  /** Some member named `key` declares this version. */
  ghost predicate Declares(members: seq<Member>, key: string, version: string) {
    exists i :: 0 <= i < |members| && DeclaresAt(members[i], key, version)
  }

  ghost predicate DeclaresAt(member: Member, key: string, version: string) {
    member.py.name != "" && version != "" && member.py.version == version && NormalizeName(member.py.name) == key
  }

  lemma {:induction false} FirstPartyLookup(members: seq<Member>)
    requires DistinctNames(members)
    ensures forall key, version :: Maps(FirstPartyVersions(members), key, version) <==> Declares(members, key, version)
    decreases |members|
  {
    hide NormalizeName;
    if members != [] {
      var before, last := members[..|members| - 1], members[|members| - 1];
      FirstPartyLookup(before);
      forall key, version
        ensures Declares(members, key, version) <==> Declares(before, key, version) || DeclaresAt(last, key, version)
      {
        if Declares(before, key, version) {
          var i :| 0 <= i < |before| && DeclaresAt(before[i], key, version);
          assert DeclaresAt(members[i], key, version);
        }
        if Declares(members, key, version) && !DeclaresAt(last, key, version) {
          var i :| 0 <= i < |members| && DeclaresAt(members[i], key, version);
          assert DeclaresAt(before[i], key, version);
        }
      }
    }
  }

  /** A candidate member of this name and version. */
  ghost predicate Puts(members: seq<Member>, versions: map<string, string>, key: string, version: string) {
    exists i :: 0 <= i < |members| && PutsAt(members[i], versions, key, version)
  }

  ghost predicate PutsAt(member: Member, versions: map<string, string>, key: string, version: string) {
    member.path in versions && versions[member.path] == version && member.py.name != ""
    && NormalizeName(member.py.name) == key
  }

  ghost predicate PutsSome(members: seq<Member>, versions: map<string, string>, key: string) {
    exists i :: 0 <= i < |members| && members[i].path in versions && PutsAt(members[i], versions, key, versions[members[i].path])
  }

  ghost predicate PutOrKept(members: seq<Member>, versions: map<string, string>, firstParty: Versions, key: string,
                            version: string) {
    Puts(members, versions, key, version) || (!PutsSome(members, versions, key) && Maps(firstParty, key, version))
  }

  /** One more candidate: its own name takes its version, every other name keeps its own. */
  lemma PutStep(before: seq<Member>, last: Member, versions: map<string, string>, firstParty: Versions, put: Versions,
                key: string, version: string)
    requires DistinctNames(before + [last]) && (last.path in versions ==> last.py.name != "")
    requires Maps(put, key, version) <==> PutOrKept(before, versions, firstParty, key, version)
    ensures var now := if last.path in versions then put[NormalizeName(last.py.name) := versions[last.path]] else put;
      Maps(now, key, version) <==> PutOrKept(before + [last], versions, firstParty, key, version)
  {
    hide NormalizeName;
    PutsLast(before, last, versions, key, version);
    var members := before + [last];
    assert members[|before|] == last;
    if last.path in versions && key == NormalizeName(last.py.name) {
      forall i | 0 <= i < |before|
        ensures !PutsAt(before[i], versions, key, version)
      {
        assert members[i] == before[i];
      }
    }
  }

  lemma {:induction false} PutLookup(members: seq<Member>, versions: map<string, string>, firstParty: Versions)
    requires DistinctNames(members) && PutCandidates(members, versions, firstParty).Success?
    ensures forall key, version :: Maps(PutCandidates(members, versions, firstParty).value, key, version) <==>
      PutOrKept(members, versions, firstParty, key, version)
    ensures forall i :: 0 <= i < |members| && members[i].path in versions ==> members[i].py.name != ""
    decreases |members|
  {
    hide NormalizeName, Maps;
    if members == [] {
      forall key, version
        ensures Maps(firstParty, key, version) <==> PutOrKept(members, versions, firstParty, key, version)
      {
      }
    } else {
      var before, last := members[..|members| - 1], members[|members| - 1];
      PutLookup(before, versions, firstParty);
      hide PutOrKept;
      assert members == before + [last];
      forall key, version
        ensures Maps(PutCandidates(members, versions, firstParty).value, key, version) <==>
          PutOrKept(members, versions, firstParty, key, version)
      {
        PutStep(before, last, versions, firstParty, PutCandidates(before, versions, firstParty).value, key, version);
      }
    }
  }

  lemma PutsLast(before: seq<Member>, last: Member, versions: map<string, string>, key: string, version: string)
    ensures Puts(before + [last], versions, key, version) <==>
      Puts(before, versions, key, version) || PutsAt(last, versions, key, version)
    ensures PutsSome(before + [last], versions, key) <==>
      PutsSome(before, versions, key) || (last.path in versions && PutsAt(last, versions, key, versions[last.path]))
  {
    hide PutsAt;
    var members := before + [last];
    assert members[|before|] == last && forall i :: 0 <= i < |before| ==> members[i] == before[i];
  }

  lemma PutsHere(members: seq<Member>, versions: map<string, string>, key: string, i: nat)
    requires i < |members| && members[i].path in versions && members[i].py.name != ""
    requires NormalizeName(members[i].py.name) == key
    ensures PutsSome(members, versions, key)
  {
    hide NormalizeName;
    assert PutsAt(members[i], versions, key, versions[members[i].path]);
  }

  lemma CandidatesAreReleases(tree: Tree, versions: map<string, string>)
    requires CandidateFirstParty(tree, versions).Success?
    ensures forall path :: path in versions ==> path in tree.units && ReleaseVersion(versions[path]) && versions[path] != ""
  {
    hide ReleaseVersion;
    EmptyIsNoRelease();
    var unknown := set path | path in versions && path !in tree.units;
    var malformed := set path | path in versions && !ReleaseVersion(versions[path]);
    assert forall path :: path in versions ==> path !in unknown && path !in malformed;
  }

  lemma EmptyIsNoRelease()
    ensures !ReleaseVersion("")
  {
  }

  /** The released tree declares what was put or kept. */
  lemma ReleasedDeclares(members: seq<Member>, versions: map<string, string>, key: string, version: string)
    requires DistinctNames(members)
    requires forall i :: 0 <= i < |members| && members[i].path in versions ==>
      members[i].py.name != "" && versions[members[i].path] != ""
    ensures Declares(VersionedAll(members, versions), key, version) <==>
      Puts(members, versions, key, version) || (!PutsSome(members, versions, key) && Declares(members, key, version))
  {
    hide NormalizeName;
    var after := VersionedAll(members, versions);
    if Puts(members, versions, key, version) {
      var i :| 0 <= i < |members| && PutsAt(members[i], versions, key, version);
      assert DeclaresAt(after[i], key, version);
    } else if !PutsSome(members, versions, key) && Declares(members, key, version) {
      var i :| 0 <= i < |members| && DeclaresAt(members[i], key, version);
      if members[i].path in versions {
        PutsHere(members, versions, key, i);
        assert false;
      }
      assert DeclaresAt(after[i], key, version);
    }
    if Declares(after, key, version) {
      var i :| 0 <= i < |members| && DeclaresAt(after[i], key, version);
      if members[i].path in versions {
        assert PutsAt(members[i], versions, key, version);
      } else {
        assert DeclaresAt(members[i], key, version);
      }
    }
  }

  /** The versions the query derives from are those the released tree declares. */
  lemma CandidatesAreOnDisk(tree: Tree, versions: map<string, string>)
    requires Discovered(tree) && CandidateFirstParty(tree, versions).Success?
    ensures FirstPartyVersions(WithVersions(tree, versions).members) == CandidateFirstParty(tree, versions).value
  {
    hide NormalizeName, FirstPartyVersions, PutCandidates, Declares, Puts, PutsSome, Maps;
    var members, after := tree.members, VersionedAll(tree.members, versions);
    var onDisk := FirstPartyVersions(members);
    CandidatesAreReleases(tree, versions);
    FirstPartyLookup(members);
    PutLookup(members, versions, onDisk);
    assert DistinctNames(after);
    FirstPartyLookup(after);
    forall key, version
      ensures Maps(PutCandidates(members, versions, onDisk).value, key, version) <==>
        Maps(FirstPartyVersions(after), key, version)
    {
      ReleasedDeclares(members, versions, key, version);
    }
    SameMaps(PutCandidates(members, versions, onDisk).value, FirstPartyVersions(after));
  }

  // ---- The query is the released tree's check ----------------------------------------------

  lemma AnalyzeIgnoresVersion(member: Member, versions: map<string, string>, firstParty: Versions)
    ensures Analyze(Versioned(member, versions).py, firstParty) == Analyze(member.py, firstParty)
  {
  }

  /** Analysis and reports do not read the versions the members declare. */
  lemma {:induction false} AnalysesIgnoreVersions(members: seq<Member>, versions: map<string, string>, firstParty: Versions)
    ensures AnalyzeAll(VersionedAll(members, versions), firstParty) == AnalyzeAll(members, firstParty)
    decreases |members|
  {
    hide Analyze, Versioned;
    if members != [] {
      var last := |members| - 1;
      AnalyzeIgnoresVersion(members[last], versions, firstParty);
      AnalysesIgnoreVersions(members[..last], versions, firstParty);
      assert VersionedAll(members, versions)[..last] == VersionedAll(members[..last], versions);
    }
  }

  lemma {:induction false} RowsIgnoreVersions(members: seq<Member>, versions: map<string, string>, analyses: seq<Analysis>)
    requires |analyses| == |members|
    ensures MemberRows(VersionedAll(members, versions), analyses) == MemberRows(members, analyses)
    ensures PreservedRanges(VersionedAll(members, versions), analyses) == PreservedRanges(members, analyses)
    decreases |members|
  {
    if members != [] {
      var last := |members| - 1;
      RowsIgnoreVersions(members[..last], versions, analyses[..last]);
      assert VersionedAll(members, versions)[..last] == VersionedAll(members[..last], versions);
    }
  }

  lemma DriftIgnoresVersions(tree: Tree, versions: map<string, string>, firstParty: Versions)
    ensures DriftUnder(WithVersions(tree, versions), firstParty) == DriftUnder(tree, firstParty)
  {
    hide AnalyzeAll, MemberRows, PreservedRanges, DescriptorRows, VersionedAll, ContractRange, Joined;
    AnalysesIgnoreVersions(tree.members, versions, firstParty);
    if AnalyzeAll(tree.members, firstParty).Success? {
      RowsIgnoreVersions(tree.members, versions, AnalyzeAll(tree.members, firstParty).value);
    }
  }

  /** Asking under candidate versions and checking the tree that declares them is one question. */
  lemma QueryIsCheck(tree: Tree, versions: map<string, string>)
    requires Discovered(tree) && CandidateFirstParty(tree, versions).Success?
    ensures Query.Query(tree, versions) ==
      match Check(WithVersions(tree, versions))
      case Failure(e) => Failure(e)
      case Success(report) => ChangesByUnit(report, tree.units)
  {
    hide CandidateFirstParty, DriftUnder, FirstPartyVersions, ChangesByUnit;
    CandidatesAreOnDisk(tree, versions);
    DriftIgnoresVersions(tree, versions, CandidateFirstParty(tree, versions).value);
  }

  // ---- What the train check finds --------------------------------------------------------

  lemma {:induction false} MemberVersionAfter(members: seq<Member>, versions: map<string, string>, unit: string)
    ensures MemberVersion(VersionedAll(members, versions), unit) ==
      if unit in versions && exists m :: m in members && m.path == unit then versions[unit]
      else MemberVersion(members, unit)
    decreases |members|
  {
    if members != [] {
      MemberVersionAfter(members[1..], versions, unit);
      assert VersionedAll(members, versions)[1..] == VersionedAll(members[1..], versions);
      assert members == [members[0]] + members[1..];
    }
  }

  function ComponentsAfter(components: seq<Component>, versions: map<string, string>): (r: seq<Component>)
    ensures |r| == |components|
  {
    seq(|components|, i requires 0 <= i < |components| =>
      if components[i].path in versions then components[i].(version := versions[components[i].path]) else components[i])
  }

  lemma {:induction false} ComponentVersionAfter(components: seq<Component>, versions: map<string, string>, unit: string)
    ensures ComponentVersion(ComponentsAfter(components, versions), unit) ==
      if unit in versions && exists c :: c in components && c.path == unit then versions[unit]
      else ComponentVersion(components, unit)
    decreases |components|
  {
    if components != [] {
      ComponentVersionAfter(components[1..], versions, unit);
      assert ComponentsAfter(components, versions)[1..] == ComponentsAfter(components[1..], versions);
      assert components == [components[0]] + components[1..];
    }
  }

  /** A released unit declares its release; every other unit what it declared before. */
  lemma WorkingVersionAfter(tree: Tree, versions: map<string, string>, unit: string)
    requires Discovered(tree) && unit in tree.units && (unit in versions ==> versions[unit] != "")
    ensures WorkingVersion(WithVersions(tree, versions), unit) ==
      if unit in versions then Success(versions[unit]) else WorkingVersion(tree, unit)
  {
    hide MemberVersion, ComponentVersion;
    var after := WithVersions(tree, versions);
    MemberVersionAfter(tree.members, versions, unit);
    ComponentVersionAfter(tree.components, versions, unit);
    assert after.components == ComponentsAfter(tree.components, versions);
    SameMemberPaths(tree.members, versions, unit);
    if !IsMember(tree, unit) {
      var i :| 0 <= i < |tree.components| && tree.components[i].path == unit;
      assert tree.components[i] in tree.components;
    }
  }

  lemma SameMemberPaths(members: seq<Member>, versions: map<string, string>, unit: string)
    ensures (exists m :: m in VersionedAll(members, versions) && m.path == unit) <==> exists m :: m in members && m.path == unit
  {
    var after := VersionedAll(members, versions);
    if m :| m in members && m.path == unit {
      var i :| 0 <= i < |members| && members[i] == m;
      assert after[i] in after && after[i].path == unit;
    }
    if m :| m in after && m.path == unit {
      var i :| 0 <= i < |after| && after[i] == m;
      assert members[i] in members && members[i].path == unit;
    }
  }

  /** How a moved unit stands towards the base: released and changed, or left where the base has
      it, or unknown there. */
  ghost predicate StandsClearly(tree: Tree, versions: map<string, string>, base: map<string, string>, unit: string) {
    && unit in tree.units
    && if unit in versions then unit in base && base[unit] != versions[unit] && versions[unit] != ""
       else unit in base ==> WorkingVersion(tree, unit) == Success(base[unit])
  }

  lemma {:induction false} UncoveredAreUnreleased(tree: Tree, versions: map<string, string>, base: map<string, string>,
                                                  moves: seq<Move>)
    requires Discovered(tree) && forall m :: m in moves ==> StandsClearly(tree, versions, base, m.path)
    ensures var u := UncoveredAmong(WithVersions(tree, versions), moves, base);
      && u.Success? && u.value.Keys == set m | m in moves && m.path !in versions :: m.path
    decreases |moves|
  {
    hide WorkingVersion;
    if moves != [] {
      var before, last := moves[..|moves| - 1], moves[|moves| - 1];
      assert moves == before + [last];
      UncoveredAreUnreleased(tree, versions, base, before);
      WorkingVersionAfter(tree, versions, last.path);
    }
  }

  /** The train check, over the tree a release writes, reports exactly the units the query moves
      and the release leaves out: it accepts a release exactly when the query finds it closed. */
  lemma AcceptedIffClosed(tree: Tree, versions: map<string, string>, base: map<string, string>)
    requires Discovered(tree) && Query.Query(tree, versions).Success?
    requires forall m :: m in Query.Query(tree, versions).value ==> StandsClearly(tree, versions, base, m.path)
    ensures var found, moves := UncoveredMoves(WithVersions(tree, versions), base), Query.Query(tree, versions).value;
      && found.Success?
      && found.value.Keys == (set m | m in moves && m.path !in versions :: m.path)
      && (found.value == map[] <==> forall m :: m in moves ==> m.path in versions)
  {
    hide Discovered, UncoveredAmong, StandsClearly, DriftUnder, FirstPartyVersions, CandidateFirstParty, ChangesByUnit;
    QueryIsCheck(tree, versions);
    var moves := Query.Query(tree, versions).value;
    UncoveredAreUnreleased(tree, versions, base, moves);
    var missing := set m | m in moves && m.path !in versions :: m.path;
    if found :| found in moves && found.path !in versions {
      assert found.path in missing;
    }
  }

  function AskOf(tree: Tree): Ask { versions => Query.Query(tree, versions) }

  lemma {:induction false} MovesAreUnits(report: Report, among: seq<string>, units: seq<string>)
    ensures forall m :: m in NonemptyMoves(report, among, units) ==> m.path in among
    decreases |among|
  {
    if among != [] {
      MovesAreUnits(report, among[1..], units);
    }
  }

  /** The train check finds nothing on the tree of a settled release, when every released unit stands
      at the base with another version. */
  lemma {:induction false} SettledTrainIsAccepted(tree: Tree, config: Config, bump: Bump, g: Gathered, base: map<string, string>)
    requires Discovered(tree) && Settle(config, AskOf(tree), bump, g).Success?
    requires var release := Settle(config, AskOf(tree), bump, g).value.release.versions;
      forall unit :: unit in release ==> unit in base && base[unit] != release[unit]
    ensures var release := Settle(config, AskOf(tree), bump, g).value.release.versions;
      UncoveredMoves(WithVersions(tree, release), base) == Success(map[])
  {
    hide Settle, DriftUnder, ChangesByUnit, CandidateFirstParty, Discovered, UncoveredMoves;
    var settled := Settle(config, AskOf(tree), bump, g).value;
    var release := settled.release.versions;
    SettledIsClosedAndCalledFor(config, AskOf(tree), bump, g);
    CandidatesAreReleases(tree, release);
    AcceptedIffClosed(tree, release, base);
  }

  /** End to end, from the candidates a release begins with: the loop's release holds every candidate at
      its version and each forced unit at the bump of its latest release, and the train check finds
      nothing on the tree it writes when every released unit stands at the base with another version. */
  lemma {:induction false} LoopTrainIsAccepted(tree: Tree, config: Config, bump: Bump, candidates: seq<Candidate>,
                                               versions: map<string, string>, base: map<string, string>)
    requires Discovered(tree) && ReleasesOf(candidates, versions) && Build(config, AskOf(tree), bump, candidates).Success?
    requires var release := Build(config, AskOf(tree), bump, candidates).value.release.versions;
      forall unit :: unit in release ==> unit in base && base[unit] != release[unit]
    ensures var release := Build(config, AskOf(tree), bump, candidates).value.release;
      && Within(versions, release.versions)
      && (forall path :: path in release.versions && path !in versions ==> Forced(config, AskOf(tree), bump, release, path))
      && UncoveredMoves(WithVersions(tree, release.versions), base) == Success(map[])
  {
    hide Settle, UncoveredMoves, Discovered, ReleasesOf, PackagesOf, Forced, WithVersions;
    CandidatesGathered(config, candidates);
    var g := GatherCandidates(config, candidates).value;
    ReleasesAreOne(candidates, versions, g.versions);
    SettledIsClosedAndCalledFor(config, AskOf(tree), bump, g);
    SettledTrainIsAccepted(tree, config, bump, g, base);
  }

  // ---- One round is enough ---------------------------------------------------------------

  /** First-party versions no range can tell apart. */
  ghost predicate SameRanges(f: Versions, g: Versions) {
    f.Keys == g.Keys && forall key :: key in f ==> f[key] == g[key] || SameMinor(f[key], g[key])
  }

  predicate SameMinor(v: string, w: string) { MajorMinor(v).Some? && MajorMinor(v) == MajorMinor(w) }

  lemma JudgedAlike(raw: string, f: Versions, g: Versions, pinned: set<string>)
    requires SameRanges(f, g)
    ensures Judge(raw, f, pinned) == Judge(raw, g, pinned) && FirstPartyKey(raw, f) == FirstPartyKey(raw, g)
  {
    hide MajorMinor, ParseRequirement, NormalizeName, PinGuarded;
  }

  lemma {:induction false} VerdictsAlike(raws: seq<string>, f: Versions, g: Versions, pinned: set<string>)
    requires SameRanges(f, g)
    ensures Verdicts(raws, f, pinned) == Verdicts(raws, g, pinned) && FirstPartyDeps(raws, f) == FirstPartyDeps(raws, g)
    decreases |raws|
  {
    hide Judge, FirstPartyKey;
    forall raw
      ensures Judge(raw, f, pinned) == Judge(raw, g, pinned) && FirstPartyKey(raw, f) == FirstPartyKey(raw, g)
    {
      JudgedAlike(raw, f, g, pinned);
    }
    if raws != [] {
      VerdictsAlike(raws[..|raws| - 1], f, g, pinned);
    }
  }

  lemma {:induction false} AnalysesAlike(members: seq<Member>, f: Versions, g: Versions)
    requires SameRanges(f, g)
    ensures AnalyzeAll(members, f) == AnalyzeAll(members, g)
    decreases |members|
  {
    hide Verdicts, FirstPartyDeps;
    if members != [] {
      var last := members[|members| - 1].py;
      AnalysesAlike(members[..|members| - 1], f, g);
      VerdictsAlike(Scanned(last.literals), f, g, PinnedDeps(last));
    }
  }

  lemma DriftAlike(tree: Tree, f: Versions, g: Versions)
    requires SameRanges(f, g)
    ensures DriftUnder(tree, f) == DriftUnder(tree, g)
  {
    hide AnalyzeAll, MajorMinor, MemberRows, DescriptorRows, PreservedRanges;
    AnalysesAlike(tree.members, f, g);
  }

  /** `more` adds to `versions` only patch bumps of what the units declare on disk. */
  ghost predicate PatchBumps(tree: Tree, versions: map<string, string>, more: map<string, string>) {
    && Within(versions, more)
    && (forall path :: path in more && path !in versions ==> path in tree.units && ReleaseVersion(more[path]))
    && (forall i :: 0 <= i < |tree.members| && tree.members[i].path in more && tree.members[i].path !in versions ==>
          var m := tree.members[i];
          m.py.name != "" && m.py.version != "" && SameMinor(m.py.version, more[m.path]))
  }

  lemma {:induction false} PutSucceeds(members: seq<Member>, versions: map<string, string>, firstParty: Versions)
    requires forall i :: 0 <= i < |members| && members[i].path in versions ==> members[i].py.name != ""
    ensures PutCandidates(members, versions, firstParty).Success?
    decreases |members|
  {
    if members != [] {
      PutSucceeds(members[..|members| - 1], versions, firstParty);
    }
  }

  /** Where the two sets of candidates put different versions, the minor is the same. */
  lemma PutAlike(tree: Tree, versions: map<string, string>, more: map<string, string>, key: string, version: string)
    requires Discovered(tree) && PatchBumps(tree, versions, more)
    requires PutOrKept(tree.members, versions, FirstPartyVersions(tree.members), key, version)
    ensures exists now :: PutOrKept(tree.members, more, FirstPartyVersions(tree.members), key, now)
                          && (now == version || SameMinor(version, now))
  {
    hide NormalizeName, FirstPartyVersions, ReleaseVersion, MajorMinor;
    var members, onDisk := tree.members, FirstPartyVersions(tree.members);
    FirstPartyLookup(members);
    if Puts(members, versions, key, version) {
      var i :| 0 <= i < |members| && PutsAt(members[i], versions, key, version);
      assert PutsAt(members[i], more, key, version);
      assert PutOrKept(members, more, onDisk, key, version);
    } else if PutsSome(members, more, key) {
      var i :| 0 <= i < |members| && members[i].path in more && PutsAt(members[i], more, key, more[members[i].path]);
      var now := more[members[i].path];
      assert PutOrKept(members, more, onDisk, key, now);
      if members[i].path in versions {
        PutsHere(members, versions, key, i);
        assert false;
      }
      var j :| 0 <= j < |members| && DeclaresAt(members[j], key, version);
      assert i == j;
    } else {
      assert PutOrKept(members, more, onDisk, key, version);
    }
  }

  lemma PutAlikeBack(tree: Tree, versions: map<string, string>, more: map<string, string>, key: string, now: string)
    requires Discovered(tree) && PatchBumps(tree, versions, more)
    requires PutOrKept(tree.members, more, FirstPartyVersions(tree.members), key, now)
    ensures exists version :: PutOrKept(tree.members, versions, FirstPartyVersions(tree.members), key, version)
  {
    hide NormalizeName, FirstPartyVersions, ReleaseVersion, SameMinor;
    var members, onDisk := tree.members, FirstPartyVersions(tree.members);
    FirstPartyLookup(members);
    if PutsSome(members, versions, key) {
      var i :| 0 <= i < |members| && members[i].path in versions && PutsAt(members[i], versions, key, versions[members[i].path]);
      assert PutOrKept(members, versions, onDisk, key, versions[members[i].path]);
    } else if Puts(members, more, key, now) {
      var i :| 0 <= i < |members| && PutsAt(members[i], more, key, now);
      if members[i].path in versions {
        PutsHere(members, versions, key, i);
        assert false;
      }
      assert DeclaresAt(members[i], key, members[i].py.version);
      assert PutOrKept(members, versions, onDisk, key, members[i].py.version);
    } else {
      assert PutOrKept(members, versions, onDisk, key, now);
    }
  }

  lemma CandidatesAlike(tree: Tree, versions: map<string, string>, more: map<string, string>)
    requires Discovered(tree) && CandidateFirstParty(tree, versions).Success? && PatchBumps(tree, versions, more)
    ensures CandidateFirstParty(tree, more).Success?
    ensures SameRanges(CandidateFirstParty(tree, versions).value, CandidateFirstParty(tree, more).value)
  {
    hide NormalizeName, FirstPartyVersions, ReleaseVersion, PutCandidates, PutOrKept, SameMinor;
    var members, onDisk := tree.members, FirstPartyVersions(tree.members);
    CandidatesAreReleases(tree, versions);
    PutLookup(members, versions, onDisk);
    PutSucceeds(members, more, onDisk);
    PutLookup(members, more, onDisk);
    var f, g := PutCandidates(members, versions, onDisk).value, PutCandidates(members, more, onDisk).value;
    assert (set path | path in more && path !in tree.units) == {};
    assert (set path | path in more && !ReleaseVersion(more[path])) == {};
    forall key | key in f
      ensures key in g && (f[key] == g[key] || SameMinor(f[key], g[key]))
    {
      assert Maps(f, key, f[key]);
      PutAlike(tree, versions, more, key, f[key]);
      var now :| PutOrKept(members, more, onDisk, key, now) && (now == f[key] || SameMinor(f[key], now));
      assert Maps(g, key, now);
    }
    forall key | key in g
      ensures key in f
    {
      assert Maps(g, key, g[key]);
      PutAlikeBack(tree, versions, more, key, g[key]);
      var version :| PutOrKept(members, versions, onDisk, key, version);
      assert Maps(f, key, version);
    }
  }

  /** Adding patch bumps changes no answer. */
  lemma PatchBumpsMoveNothing(tree: Tree, versions: map<string, string>, more: map<string, string>)
    requires Discovered(tree) && Query.Query(tree, versions).Success? && PatchBumps(tree, versions, more)
    ensures Query.Query(tree, more) == Query.Query(tree, versions)
  {
    hide Discovered, CandidateFirstParty, PatchBumps, DriftUnder, ChangesByUnit, SameRanges;
    CandidatesAlike(tree, versions, more);
    DriftAlike(tree, CandidateFirstParty(tree, versions).value, CandidateFirstParty(tree, more).value);
  }

  /** The second query is the last. */
  lemma {:induction false} SettlesInOneRound(tree: Tree, config: Config, bump: Bump, g: Gathered)
    requires Discovered(tree) && Query.Query(tree, g.versions).Success?
    requires var forced := Force(config, bump, g, Added(Query.Query(tree, g.versions).value, g.versions));
      forced.Success? && PatchBumps(tree, g.versions, forced.value.versions)
    ensures var moves := Query.Query(tree, g.versions).value;
      var forced := Force(config, bump, g, Added(moves, g.versions)).value;
      && Settle(config, AskOf(tree), bump, g) == Success(Settled(forced, moves))
      && forced.versions.Keys == g.versions.Keys + set m | m in moves :: m.path
  {
    hide Query.Query, PatchBumps, Discovered, Force;
    var ask, moves := AskOf(tree), Query.Query(tree, g.versions).value;
    var added := Added(moves, g.versions);
    var forced := Force(config, bump, g, added).value;
    PatchBumpsMoveNothing(tree, g.versions, forced.versions);
    assert ask(g.versions) == Success(moves) && ask(forced.versions) == Success(moves);
    assert Added(moves, forced.versions) == [];
    if added == [] {
      NothingForced(config, bump, g);
    }
  }

  /** The loop settles on the candidates and the units the query for their versions names, when those
      are forced in by patch bumps. */
  lemma {:induction false} OneRoundSettles(tree: Tree, config: Config, bump: Bump, candidates: seq<Candidate>,
                                           versions: map<string, string>)
    requires Discovered(tree) && ReleasesOf(candidates, versions) && Query.Query(tree, versions).Success?
    requires GatherCandidates(config, candidates).Success?
    requires var forced := Force(config, bump, GatherCandidates(config, candidates).value,
                                 Added(Query.Query(tree, versions).value, versions));
      forced.Success? && PatchBumps(tree, versions, forced.value.versions)
    ensures var moves, built := Query.Query(tree, versions).value, Build(config, AskOf(tree), bump, candidates);
      && built.Success? && built.value.moves == moves && Within(versions, built.value.release.versions)
      && built.value.release.versions.Keys == versions.Keys + set m | m in moves :: m.path
  {
    hide Query.Query, PatchBumps, Discovered, Force, ReleasesOf, PackagesOf, Settle;
    CandidatesGathered(config, candidates);
    var g := GatherCandidates(config, candidates).value;
    ReleasesAreOne(candidates, versions, g.versions);
    SettlesInOneRound(tree, config, bump, g);
    SettledIsClosedAndCalledFor(config, AskOf(tree), bump, g);
  }

  lemma {:induction false} NothingForced(config: Config, bump: Bump, g: Gathered)
    ensures Force(config, bump, g, []) == Success(g)
  {
  }

  /** And it is the least release the train check accepts: any other that extends the candidates
      by patch bumps and is accepted contains it. */
  lemma {:induction false} LeastAcceptedRelease(tree: Tree, config: Config, bump: Bump, candidates: seq<Candidate>,
                             versions: map<string, string>, other: map<string, string>, base: map<string, string>)
    requires Discovered(tree) && ReleasesOf(candidates, versions) && Query.Query(tree, versions).Success?
    requires GatherCandidates(config, candidates).Success?
    requires var forced := Force(config, bump, GatherCandidates(config, candidates).value,
                                 Added(Query.Query(tree, versions).value, versions));
      forced.Success? && PatchBumps(tree, versions, forced.value.versions)
    requires PatchBumps(tree, versions, other)
    requires forall m :: m in Query.Query(tree, versions).value ==> StandsClearly(tree, other, base, m.path)
    requires UncoveredMoves(WithVersions(tree, other), base) == Success(map[])
    ensures Build(config, AskOf(tree), bump, candidates).Success?
    ensures Build(config, AskOf(tree), bump, candidates).value.release.versions.Keys <= other.Keys
  {
    hide Query.Query, Discovered, Force, Build, GatherCandidates, UncoveredMoves, StandsClearly, ReleaseVersion, SameMinor, ReleasesOf;
    OneRoundSettles(tree, config, bump, candidates, versions);
    PatchBumpsMoveNothing(tree, versions, other);
    AcceptedIffClosed(tree, other, base);
  }

  function ReleaseOf(major: nat, minor: nat, patch: nat): string {
    Decimal(major) + "." + Decimal(minor) + "." + Decimal(patch)
  }

  lemma RangeOfRelease(major: nat, minor: nat, patch: nat)
    ensures MajorMinor(ReleaseOf(major, minor, patch)) == Some((major, minor))
    ensures DeriveRange(ReleaseOf(major, minor, patch)) == Some(RangeOf(major, minor))
  {
    hide Decimal, Number, RangeOf, MajorMinor, Digit;
    var v, tail := ReleaseOf(major, minor, patch), "." + Decimal(patch);
    assert v == Decimal(major) + "." + Decimal(minor) + tail;
    DotIsNoDigit();
    assert ReleaseText(v, major, minor, tail);
    DeriveOfRelease(v, major, minor);
  }

  lemma DotIsNoDigit()
    ensures !Digit('.')
  {
  }

  /** A patch bump of a release is one: same major and minor, hence the same derived range. */
  lemma PatchBumpKeepsTheRange(major: nat, minor: nat, patch: nat, bumped: nat)
    ensures SameMinor(ReleaseOf(major, minor, patch), ReleaseOf(major, minor, bumped))
    ensures DeriveRange(ReleaseOf(major, minor, patch)) == DeriveRange(ReleaseOf(major, minor, bumped))
  {
    hide ReleaseOf, MajorMinor, RangeOf, DeriveRange;
    RangeOfRelease(major, minor, patch);
    RangeOfRelease(major, minor, bumped);
  }
}
