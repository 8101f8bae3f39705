/** The workspace-wide sync of scripts/_range_sync/sync.py: what `check` reports, what `apply`
    writes.  Discovery results (which members, components and descriptors there are) are given. */
module Sync {
  import opened Outcome
  import opened VersionRanges
  import opened PyprojectSpecs
  import opened ContractPins

  datatype Member = Member(path: string, py: Pyproject)

  /** A directory with a descriptor and no pyproject. */
  datatype Component = Component(path: string, version: string)

  /** A governed descriptor; `plugin` is the plugin member that ships it, and a scaffold or a
      component's descriptor has none. */
  datatype Descriptor = Descriptor(path: string, plugin: Option<string>, lines: seq<Line>)

  /** `units` is every member and component path, in path order. */
  datatype Tree = Tree(members: seq<Member>, components: seq<Component>, descriptors: seq<Descriptor>,
                       units: seq<string>, strayPinTable: bool)

  datatype Report = Report(
    specChanges: seq<(string, SpecChange)>,
    contractChanges: seq<(string, string, string)>,
    preserved: seq<(string, Kept)>,
    warnings: seq<(string, SpecChange)>,
    untouched: seq<(string, string)>)
  {
    predicate Dirty() { specChanges != [] || contractChanges != [] }
  }

  const CONTRACT_PACKAGE := "tai42-contract"

  // ---- What the surfaces must say ----------------------------------------------------------

  /** `first_party_versions`: a later member takes a name over from an earlier one. */
  function FirstPartyVersions(members: seq<Member>): Versions
    decreases |members|
  {
    if members == [] then map[] else
    var last := members[|members| - 1].py;
    var versions := FirstPartyVersions(members[..|members| - 1]);
    if last.name != "" && last.version != "" then versions[NormalizeName(last.name) := last.version] else versions
  }

  function ContractRange(firstParty: Versions): Result<string, Error> {
    if CONTRACT_PACKAGE !in firstParty then Failure(NoContractPackage) else
    match DeriveRange(firstParty[CONTRACT_PACKAGE])
    case Some(range) => Success(range)
    case None => Failure(BadVersion(firstParty[CONTRACT_PACKAGE]))
  }

  function AnalyzeAll(members: seq<Member>, firstParty: Versions): (r: Result<seq<Analysis>, Error>)
    ensures r.Success? ==> |r.value| == |members|
    ensures r.Success? ==> forall i :: 0 <= i < |members| ==> Analyze(members[i].py, firstParty) == Success(r.value[i])
    decreases |members|
  {
    if members == [] then Success([]) else
    var before :- AnalyzeAll(members[..|members| - 1], firstParty);
    var last :- Analyze(members[|members| - 1].py, firstParty);
    Success(before + [last])
  }

  /** The range a member's preserved `tai42-contract` pin dictates: None when no pin of it is
      preserved, Some(None) when its descriptors are to be left alone. */
  function PreservedRange(preserved: seq<Kept>): Option<Option<string>>
    decreases |preserved|
  {
    if preserved == [] then None else
    var last := preserved[|preserved| - 1];
    if NormalizeName(last.depName) == CONTRACT_PACKAGE then Some(DescriptorRangeFromSpec(last.keptRange))
    else PreservedRange(preserved[..|preserved| - 1])
  }

  function PreservedRanges(members: seq<Member>, analyses: seq<Analysis>): map<string, Option<string>>
    requires |members| == |analyses|
    decreases |members|
  {
    if members == [] then map[] else
    var last := |members| - 1;
    var before := PreservedRanges(members[..last], analyses[..last]);
    match PreservedRange(analyses[last].preserved)
    case None => before
    case Some(range) => before[members[last].path := range]
  }

  /** What every surface is held against. */
  datatype Plan = Plan(contractRange: string, analyses: seq<Analysis>, preserved: map<string, Option<string>>)

  function MakePlan(tree: Tree, firstParty: Versions): (r: Result<Plan, Error>)
    ensures r.Success? ==> |r.value.analyses| == |tree.members|
  {
    if tree.strayPinTable then Failure(StrayPinTable) else
    var range :- ContractRange(firstParty);
    var analyses :- AnalyzeAll(tree.members, firstParty);
    Success(Plan(range, analyses, PreservedRanges(tree.members, analyses)))
  }

  /** `_resolve_descriptor_target`. */
  function Target(d: Descriptor, plan: Plan): Option<string> {
    if d.plugin.Some? && d.plugin.value in plan.preserved then plan.preserved[d.plugin.value]
    else Some(plan.contractRange)
  }

  // ---- Reports ---------------------------------------------------------------------------

  function Tagged<T>(path: string, rows: seq<T>): (r: seq<(string, T)>)
    ensures |r| == |rows| && forall i :: 0 <= i < |rows| ==> r[i] == (path, rows[i])
  {
    seq(|rows|, i requires 0 <= i < |rows| => (path, rows[i]))
  }

  /** The members' rows of a report. */
  function MemberRows(members: seq<Member>, analyses: seq<Analysis>): Report
    requires |members| == |analyses|
    decreases |members|
  {
    if members == [] then Report([], [], [], [], []) else
    var last := |members| - 1;
    var r, path, a := MemberRows(members[..last], analyses[..last]), members[last].path, analyses[last];
    r.(specChanges := r.specChanges + Tagged(path, a.changes),
       preserved := r.preserved + Tagged(path, a.preserved),
       warnings := r.warnings + Tagged(path, a.warnings))
  }

  function ValueOrEmpty(lines: seq<Line>): string {
    match ContractValue(lines) case Some(v) => v case None => ""
  }

  /** The descriptors' rows: a change row where `drifted` says so. */
  function DescriptorRows(descriptors: seq<Descriptor>, plan: Plan, drifted: (seq<Line>, string) -> bool): Report
    decreases |descriptors|
  {
    if descriptors == [] then Report([], [], [], [], []) else
    var d := descriptors[|descriptors| - 1];
    var r := DescriptorRows(descriptors[..|descriptors| - 1], plan, drifted);
    match Target(d, plan)
    case None => r.(untouched := r.untouched + [(d.path, ValueOrEmpty(d.lines))])
    case Some(target) =>
      if drifted(d.lines, target)
      then r.(contractChanges := r.contractChanges + [(d.path, ValueOrEmpty(d.lines), target)]) else r
  }

  function Joined(a: Report, b: Report): Report {
    Report(a.specChanges + b.specChanges, a.contractChanges + b.contractChanges, a.preserved + b.preserved,
           a.warnings + b.warnings, a.untouched + b.untouched)
  }

  /** `drift_under`: the report when the ranges derive from `firstParty`. */
  function DriftUnder(tree: Tree, firstParty: Versions): Result<Report, Error> {
    var plan :- MakePlan(tree, firstParty);
    Success(Joined(MemberRows(tree.members, plan.analyses), DescriptorRows(tree.descriptors, plan, Drifts)))
  }

  function Check(tree: Tree): Result<Report, Error> { DriftUnder(tree, FirstPartyVersions(tree.members)) }

  // ---- Writes ----------------------------------------------------------------------------

  function RewriteMembers(members: seq<Member>, analyses: seq<Analysis>): (r: Result<seq<Member>, Error>)
    requires |members| == |analyses|
    ensures r.Success? ==> |r.value| == |members|
    decreases |members|
  {
    if members == [] then Success([]) else
    var last := |members| - 1;
    var before :- RewriteMembers(members[..last], analyses[..last]);
    var literals :- RewriteText(members[last].py.literals, analyses[last].changes);
    Success(before + [members[last].(py := members[last].py.(literals := literals))])
  }

  function RewriteDescriptor(d: Descriptor, plan: Plan): Descriptor {
    match Target(d, plan)
    case None => d
    case Some(target) => d.(lines := RewriteContract(d.lines, target))
  }

  function RewriteDescriptors(descriptors: seq<Descriptor>, plan: Plan): (r: seq<Descriptor>)
    ensures |r| == |descriptors|
  {
    seq(|descriptors|, i requires 0 <= i < |descriptors| => RewriteDescriptor(descriptors[i], plan))
  }

  /** The tree `apply` writes and its report, when nothing is refused. */
  function Applied(tree: Tree): Result<(Tree, Report), Error> {
    var plan :- MakePlan(tree, FirstPartyVersions(tree.members));
    var members :- RewriteMembers(tree.members, plan.analyses);
    Success((tree.(members := members, descriptors := RewriteDescriptors(tree.descriptors, plan)),
             Joined(MemberRows(tree.members, plan.analyses), DescriptorRows(tree.descriptors, plan, AnyStale))))
  }

  // ---- The loops, as the code runs them --------------------------------------------------

  method CollectVersions(members: seq<Member>) returns (versions: Versions)
    ensures versions == FirstPartyVersions(members)
  {
    versions := map[];
    for i := 0 to |members|
      invariant versions == FirstPartyVersions(members[..i])
    {
      var py := members[i].py;
      assert members[..i + 1][..i] == members[..i];
      if py.name != "" && py.version != "" {
        versions := versions[NormalizeName(py.name) := py.version];
      }
    }
    assert members[..|members|] == members;
  }

  /** A member's last preserved pin of the contract package decides. */
  method CollectPreservedRanges(members: seq<Member>, analyses: seq<Analysis>) returns (ranges: map<string, Option<string>>)
    requires |members| == |analyses|
    ensures ranges == PreservedRanges(members, analyses)
  {
    hide NormalizeName, DescriptorRangeFromSpec;
    ranges := map[];
    for i := 0 to |members|
      invariant ranges == PreservedRanges(members[..i], analyses[..i])
    {
      var path, preserved := members[i].path, analyses[i].preserved;
      ghost var before := ranges;
      for j := 0 to |preserved|
        invariant ranges == match PreservedRange(preserved[..j]) case None => before case Some(range) => before[path := range]
      {
        assert preserved[..j + 1][..j] == preserved[..j];
        if NormalizeName(preserved[j].depName) == CONTRACT_PACKAGE {
          ranges := ranges[path := DescriptorRangeFromSpec(preserved[j].keptRange)];
        }
      }
      assert preserved[..|preserved|] == preserved;
      assert members[..i + 1][..i] == members[..i] && analyses[..i + 1][..i] == analyses[..i];
    }
    assert members[..|members|] == members && analyses[..|analyses|] == analyses;
  }

  method CollectAnalyses(members: seq<Member>, firstParty: Versions) returns (r: Result<seq<Analysis>, Error>)
    ensures r == AnalyzeAll(members, firstParty)
  {
    hide Analyze;
    var analyses := [];
    for i := 0 to |members|
      invariant AnalyzeAll(members[..i], firstParty) == Success(analyses)
    {
      var a := AnalyzePyproject(members[i].py, firstParty);
      assert members[..i + 1][..i] == members[..i];
      if a.Failure? {
        RefusalStays(members, firstParty, i + 1);
        return Failure(a.error);
      }
      analyses := analyses + [a.value];
    }
    assert members[..|members|] == members;
    r := Success(analyses);
  }

  lemma {:induction false} RefusalStays(members: seq<Member>, firstParty: Versions, n: nat)
    requires n <= |members| && AnalyzeAll(members[..n], firstParty).Failure?
    ensures AnalyzeAll(members, firstParty) == AnalyzeAll(members[..n], firstParty)
    decreases |members|
  {
    if n < |members| {
      var before := members[..|members| - 1];
      assert before[..n] == members[..n];
      RefusalStays(before, firstParty, n);
    } else {
      assert members[..n] == members;
    }
  }

  /** Queue every member's rewritten text and its report rows; nothing is written here. */
  method PyprojectWrites(members: seq<Member>, plan: Plan)
    returns (writes: Result<seq<Member>, Error>, report: Report)
    requires |members| == |plan.analyses|
    ensures writes == RewriteMembers(members, plan.analyses)
    ensures writes.Success? ==> report == MemberRows(members, plan.analyses)
  {
    hide RewriteText;
    var queued, analyses := [], plan.analyses;
    report := Report([], [], [], [], []);
    for i := 0 to |members|
      invariant RewriteMembers(members[..i], analyses[..i]) == Success(queued)
      invariant report == MemberRows(members[..i], analyses[..i])
    {
      var path, a := members[i].path, analyses[i];
      assert members[..i + 1][..i] == members[..i] && analyses[..i + 1][..i] == analyses[..i];
      report := report.(preserved := report.preserved + Tagged(path, a.preserved),
                        warnings := report.warnings + Tagged(path, a.warnings),
                        specChanges := report.specChanges + Tagged(path, a.changes));
      var text := RewritePyprojectText(members[i].py.literals, a.changes);
      if text.Failure? {
        RewriteRefusalStays(members, analyses, i + 1);
        return Failure(text.error), report;
      }
      queued := queued + [members[i].(py := members[i].py.(literals := text.value))];
    }
    assert members[..|members|] == members && analyses[..|analyses|] == analyses;
    writes := Success(queued);
  }

  lemma {:induction false} RewriteRefusalStays(members: seq<Member>, analyses: seq<Analysis>, n: nat)
    requires |members| == |analyses| && n <= |members| && RewriteMembers(members[..n], analyses[..n]).Failure?
    ensures RewriteMembers(members, analyses) == RewriteMembers(members[..n], analyses[..n])
    decreases |members|
  {
    if n < |members| {
      var m, a := members[..|members| - 1], analyses[..|members| - 1];
      assert m[..n] == members[..n] && a[..n] == analyses[..n];
      RewriteRefusalStays(m, a, n);
    } else {
      assert members[..n] == members && analyses[..n] == analyses;
    }
  }

  /** Queue every governed descriptor's text; nothing is written here. */
  method DescriptorWrites(descriptors: seq<Descriptor>, plan: Plan) returns (writes: seq<Descriptor>, report: Report)
    ensures writes == RewriteDescriptors(descriptors, plan)
    ensures report == DescriptorRows(descriptors, plan, AnyStale)
  {
    hide ContractValue, RewriteContract, AnyStale;
    writes, report := [], Report([], [], [], [], []);
    for i := 0 to |descriptors|
      invariant writes == RewriteDescriptors(descriptors[..i], plan)
      invariant report == DescriptorRows(descriptors[..i], plan, AnyStale)
    {
      var d := descriptors[i];
      assert descriptors[..i + 1][..i] == descriptors[..i];
      match Target(d, plan) {
        case None =>
          report := report.(untouched := report.untouched + [(d.path, ValueOrEmpty(d.lines))]);
          writes := writes + [d];
        case Some(target) =>
          var lines, changed := RewriteContractYaml(d.lines, target);
          if changed {
            report := report.(contractChanges := report.contractChanges + [(d.path, ValueOrEmpty(d.lines), target)]);
          }
          writes := writes + [d.(lines := lines)];
      }
    }
    assert descriptors[..|descriptors|] == descriptors;
  }

  /** The members' rows of a check. */
  method MemberDrift(members: seq<Member>, plan: Plan) returns (report: Report)
    requires |members| == |plan.analyses|
    ensures report == MemberRows(members, plan.analyses)
  {
    var analyses := plan.analyses;
    report := Report([], [], [], [], []);
    for i := 0 to |members|
      invariant report == MemberRows(members[..i], analyses[..i])
    {
      var path, a := members[i].path, analyses[i];
      assert members[..i + 1][..i] == members[..i] && analyses[..i + 1][..i] == analyses[..i];
      report := report.(specChanges := report.specChanges + Tagged(path, a.changes),
                        preserved := report.preserved + Tagged(path, a.preserved),
                        warnings := report.warnings + Tagged(path, a.warnings));
    }
    assert members[..|members|] == members && analyses[..|analyses|] == analyses;
  }

  /** `_check_descriptors`. */
  method DescriptorDrift(descriptors: seq<Descriptor>, plan: Plan) returns (report: Report)
    ensures report == DescriptorRows(descriptors, plan, Drifts)
  {
    hide ContractValue, Drifts;
    report := Report([], [], [], [], []);
    for i := 0 to |descriptors|
      invariant report == DescriptorRows(descriptors[..i], plan, Drifts)
    {
      var d := descriptors[i];
      assert descriptors[..i + 1][..i] == descriptors[..i];
      match Target(d, plan) {
        case None =>
          report := report.(untouched := report.untouched + [(d.path, ValueOrEmpty(d.lines))]);
        case Some(target) =>
          if Drifts(d.lines, target) {
            report := report.(contractChanges := report.contractChanges + [(d.path, ValueOrEmpty(d.lines), target)]);
          }
      }
    }
    assert descriptors[..|descriptors|] == descriptors;
  }

  /** `drift_under`, which writes nothing. */
  method FindDrift(tree: Tree, firstParty: Versions) returns (r: Result<Report, Error>)
    ensures r == DriftUnder(tree, firstParty)
  {
    hide AnalyzeAll, MemberRows, DescriptorRows, PreservedRanges;
    if tree.strayPinTable {
      return Failure(StrayPinTable);
    }
    var range := ContractRange(firstParty);
    if range.Failure? {
      return Failure(range.error);
    }
    var analyses := CollectAnalyses(tree.members, firstParty);
    if analyses.Failure? {
      return Failure(analyses.error);
    }
    var preserved := CollectPreservedRanges(tree.members, analyses.value);
    var plan := Plan(range.value, analyses.value, preserved);
    var members := MemberDrift(tree.members, plan);
    var descriptors := DescriptorDrift(tree.descriptors, plan);
    r := Success(Joined(members, descriptors));
  }

  // ---- The workspace on disk ---------------------------------------------------------------

  datatype ApplyError = Refused(error: Error) | SelfAssert(drift: Report)

  /** The files, rewritten in place. */
  class Workspace {
    var members: seq<Member>
    var descriptors: seq<Descriptor>
    const components: seq<Component>
    const units: seq<string>
    const strayPinTable: bool

    constructor (tree: Tree)
      ensures Value() == tree
    {
      members, descriptors := tree.members, tree.descriptors;
      components, units, strayPinTable := tree.components, tree.units, tree.strayPinTable;
    }

    function Value(): Tree
      reads this
    {
      Tree(members, components, descriptors, units, strayPinTable)
    }

    /** Everything is derived before the first write, so a refused surface leaves every file
        as it was; the self-assert comes after the writes. */
    method Apply() returns (r: Result<Report, ApplyError>)
      modifies this
      ensures match old(Applied(Value()))
              case Failure(e) => r == Failure(Refused(e)) && Value() == old(Value())
              case Success((written, report)) =>
                && Value() == written
                && (match Check(written)
                    case Failure(e) => r == Failure(Refused(e))
                    case Success(drift) => r == if drift.Dirty() then Failure(SelfAssert(drift)) else Success(report))
    {
      hide AnalyzeAll, RewriteMembers, RewriteDescriptors, MemberRows, DescriptorRows, FirstPartyVersions, DriftUnder, PreservedRanges;
      var firstParty := CollectVersions(members);
      if strayPinTable {
        return Failure(Refused(StrayPinTable));
      }
      var range := ContractRange(firstParty);
      if range.Failure? {
        return Failure(Refused(range.error));
      }
      var analyses := CollectAnalyses(members, firstParty);
      if analyses.Failure? {
        return Failure(Refused(analyses.error));
      }
      var preserved := CollectPreservedRanges(members, analyses.value);
      var plan := Plan(range.value, analyses.value, preserved);
      var newMembers, memberRows := PyprojectWrites(members, plan);
      if newMembers.Failure? {
        return Failure(Refused(newMembers.error));
      }
      var newDescriptors, descriptorRows := DescriptorWrites(descriptors, plan);
      members, descriptors := newMembers.value, newDescriptors;
      var written := CollectVersions(members);
      var drift := FindDrift(Value(), written);
      if drift.Failure? {
        return Failure(Refused(drift.error));
      }
      r := if drift.value.Dirty() then Failure(SelfAssert(drift.value)) else Success(Joined(memberRows, descriptorRows));
    }
  }
}
