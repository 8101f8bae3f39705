/** One train worked through: the contract package goes from 1.2.0 to 1.3.0, a component's
    descriptor still pins the 1.2 range.  It meets every hypothesis of the general theorems of
    module TrainLaws, and shows what they say of it. */
module TrainExample {
  import opened Outcome
  import opened Text
  import opened VersionRanges
  import opened RangeAlgebra
  import opened ContractPins
  import opened PyprojectSpecs
  import opened Sync
  import opened Query
  import opened QueryLaws
  import opened ReleaseLoop
  import opened TrainLaws

  const CONTRACT := "core/contract"
  const CONNECTOR := "plugins/connector-slack"
  const DESCRIPTOR := "plugins/connector-slack/tai-plugin.yml"

  const TREE := Tree(
    [Member(CONTRACT, Pyproject(CONTRACT_PACKAGE, "1.2.0", [], []))],
    [Component(CONNECTOR, "0.4.1")],
    [Descriptor(DESCRIPTOR, None, [Line(Rebuilt(Pin("", '\'', "", ""), RangeOf(1, 2)), "\n")])],
    [CONTRACT, CONNECTOR], false)

  const CANDIDATES := map[CONTRACT := "1.3.0"]

  const RELEASED := map[CONTRACT := "1.3.0", CONNECTOR := "0.4.2"]

  const BASE := map[CONNECTOR := "0.4.1", CONTRACT := "1.2.0"]

  const CONFIG := Config(map[CONNECTOR := "tai42-connector-slack", CONTRACT := "tai42-contract"], map[CONNECTOR := "0.4.1"])

  /** What the release-please strategy makes of a forced release. */
  function BumpedTo(path: string, version: string): string { "0.4.2" }

  const FIRST := [Candidate(CONTRACT, "1.3.0")]

  const START := Gathered(CANDIDATES, map[CONTRACT := Package("tai42-contract", CONTRACT, "1.3.0")])

  const MOVED := [Move(CONNECTOR, [RangeChange(DESCRIPTOR, "contract", RangeOf(1, 2), RangeOf(1, 3))])]

  lemma {:induction false} PlainName(name: string)
    requires forall i :: 0 <= i < |name| ==> ('a' <= name[i] <= 'z' || Digit(name[i]) || name[i] == '-')
    requires forall i :: 0 < i < |name| ==> name[i - 1] != '-' || name[i] != '-'
    ensures LowerCollapsed(name) == name
  {
    if name != "" {
      PlainName(name[1..]);
      assert name == [name[0]] + name[1..];
    }
  }

  lemma ContractName()
    ensures NormalizeName(CONTRACT_PACKAGE) == CONTRACT_PACKAGE
  {
    StripKeeps(CONTRACT_PACKAGE, Space);
    PlainName(CONTRACT_PACKAGE);
  }

  lemma ThreeDigits(v: string)
    requires |v| == 5 && Digit(v[0]) && v[1] == '.' && Digit(v[2]) && v[3] == '.' && Digit(v[4])
    ensures ReleaseVersion(v)
  {
    SkipWhileIs(v, 0, Digit, 1);
    SkipWhileIs(v, 2, Digit, 3);
    SkipWhileIs(v, 4, Digit, 5);
  }

  lemma ReleaseTexts()
    ensures IsRelease("1.2.0", 1, 2) && IsRelease("1.3.0", 1, 3) && ReleaseVersion("1.3.0") && ReleaseVersion("0.4.2")
  {
    hide ReleaseVersion;
    assert Decimal(1) == "1" && Decimal(2) == "2" && Decimal(3) == "3";
    assert ReleaseText("1.2.0", 1, 2, ".0") && ReleaseText("1.3.0", 1, 3, ".0");
    ThreeDigits("1.3.0");
    ThreeDigits("0.4.2");
  }

  lemma CandidatesAre()
    ensures CandidateFirstParty(TREE, CANDIDATES) == Success(map[CONTRACT_PACKAGE := "1.3.0"])
  {
    hide ReleaseVersion, NormalizeName;
    ContractName();
    ReleaseTexts();
    var members := TREE.members;
    assert members[..0] == [];
    assert FirstPartyVersions(members[..0]) == map[];
    assert FirstPartyVersions(members) == map[CONTRACT_PACKAGE := "1.2.0"];
    assert PutCandidates(members[..0], CANDIDATES, FirstPartyVersions(members)) == Success(FirstPartyVersions(members));
    assert FirstPartyVersions(members)[CONTRACT_PACKAGE := "1.3.0"] == map[CONTRACT_PACKAGE := "1.3.0"];
  }

  lemma NothingToAnalyze(py: Pyproject, firstParty: Versions)
    requires py.pinned == [] && py.literals == []
    ensures Analyze(py, firstParty) == Success(Analysis([], [], []))
  {
    hide NormalizeName;
    assert PinnedDeps(py) == {};
  }

  lemma OneMemberPlan(tree: Tree, firstParty: Versions, range: string)
    requires !tree.strayPinTable && |tree.members| == 1 && tree.members[0].py.pinned == [] && tree.members[0].py.literals == []
    requires CONTRACT_PACKAGE in firstParty && DeriveRange(firstParty[CONTRACT_PACKAGE]) == Some(range)
    ensures MakePlan(tree, firstParty) == Success(Plan(range, [Analysis([], [], [])], map[]))
  {
    hide NormalizeName, DeriveRange, Analyze;
    var members, analyses := tree.members, [Analysis([], [], [])];
    NothingToAnalyze(members[0].py, firstParty);
    assert members[..0] == [] && analyses[..0] == [];
    assert AnalyzeAll(members[..0], firstParty) == Success([]);
    assert PreservedRanges(members[..0], analyses[..0]) == map[];
    assert [] + analyses == analyses;
  }

  lemma PlanIs()
    ensures MakePlan(TREE, map[CONTRACT_PACKAGE := "1.3.0"]) == Success(Plan(RangeOf(1, 3), [Analysis([], [], [])], map[]))
  {
    hide RangeOf, DeriveRange, MakePlan, ReleaseVersion;
    ReleaseTexts();
    DeriveOfRelease("1.3.0", 1, 3);
    OneMemberPlan(TREE, map[CONTRACT_PACKAGE := "1.3.0"], RangeOf(1, 3));
  }

  lemma DriftIs()
    ensures DriftUnder(TREE, map[CONTRACT_PACKAGE := "1.3.0"])
         == Success(Report([], [(DESCRIPTOR, RangeOf(1, 2), RangeOf(1, 3))], [], [], []))
  {
    hide RangeOf, ContractPin, Rebuilt, MakePlan;
    PlanIs();
    var plan := Plan(RangeOf(1, 3), [Analysis([], [], [])], map[]);
    var d := TREE.descriptors[0];
    RebuiltReads(Pin("", '\'', "", ""), RangeOf(1, 2));
    RangeDeterminesRelease(1, 2, 1, 3);
    assert ContractValue(d.lines) == Some(RangeOf(1, 2));
    assert TREE.members[..0] == [] && TREE.descriptors[..0] == [];
    assert MemberRows(TREE.members[..0], plan.analyses[..0]) == Report([], [], [], [], []);
    assert MemberRows(TREE.members, plan.analyses) == Report([], [], [], [], []);
    assert DescriptorRows(TREE.descriptors[..0], plan, Drifts) == Report([], [], [], [], []);
    assert Target(d, plan) == Some(RangeOf(1, 3));
    assert DescriptorRows(TREE.descriptors, plan, Drifts) == Report([], [(DESCRIPTOR, RangeOf(1, 2), RangeOf(1, 3))], [], [], []);
  }

  lemma TheConnectorOwnsIt()
    ensures OwningUnit(DESCRIPTOR, TREE.units) == Some(CONNECTOR)
  {
    assert DESCRIPTOR == (CONNECTOR + "/") + "tai-plugin.yml" && Houses(CONNECTOR, DESCRIPTOR);
    assert DESCRIPTOR[0] == 'p' && CONTRACT[0] == 'c' && !Houses(CONTRACT, DESCRIPTOR);
    OwnerIsFirst(DESCRIPTOR, TREE.units, 1);
  }

  /** The query names the component, and nothing else. */
  lemma QueryNamesTheComponent()
    ensures Query.Query(TREE, CANDIDATES) == Success(MOVED)
  {
    hide RangeOf, CandidateFirstParty, DriftUnder;
    CandidatesAre();
    DriftIs();
    var rows := [(DESCRIPTOR, RangeOf(1, 2), RangeOf(1, 3))];
    var report := Report([], rows, [], [], []);
    TheConnectorOwnsIt();
    hide OwningUnit;
    assert rows[1..] == [] && rows[..0] == [];
    assert Ownerless(rows, TREE.units) == None;
    assert ContractMoves(rows[..0], CONNECTOR, TREE.units) == [] && ContractMoves(rows[..0], CONTRACT, TREE.units) == [];
    assert MovesIn(report, CONNECTOR, TREE.units) == MOVED[0].changes && MovesIn(report, CONTRACT, TREE.units) == [];
    hide MovesIn, Ownerless;
    assert TREE.units[1..] == [CONNECTOR] && TREE.units[1..][1..] == [];
    assert NonemptyMoves(report, TREE.units[1..], TREE.units) == MOVED;
    assert NonemptyMoves(report, TREE.units, TREE.units) == MOVED;
    assert ChangesByUnit(report, TREE.units) == Success(MOVED);
  }

  /** The loop forces the component in at its patch bump and stops. */
  lemma TheLoopReleasesBoth()
    ensures Discovered(TREE) && OnePinEach(TREE.descriptors) && Build(CONFIG, AskOf(TREE), BumpedTo, FIRST).Success?
    ensures Build(CONFIG, AskOf(TREE), BumpedTo, FIRST).value.release.versions == RELEASED
  {
    hide Query.Query, Settle, ReleaseVersion, Added, Force, PatchBumps, GatherCandidates;
    QueryNamesTheComponent();
    ItIsDiscovered();
    ForcedIs();
    CandidatesAreGathered();
    SettlesInOneRound(TREE, CONFIG, BumpedTo, START);
  }

  lemma CandidatesAreGathered()
    ensures GatherCandidates(CONFIG, FIRST) == Success(START) && ReleasesOf(FIRST, CANDIDATES)
  {
    assert FIRST[..0] == [];
    CandidatesGathered(CONFIG, FIRST);
    var none: map<string, string>, nothing: map<string, Package> := map[], map[];
    assert none[CONTRACT := "1.3.0"] == CANDIDATES;
    assert nothing[CONTRACT := Package("tai42-contract", CONTRACT, "1.3.0")] == START.packages;
  }

  /** The train check accepts that release. */
  lemma TheCheckAccepts()
    ensures UncoveredMoves(WithVersions(TREE, RELEASED), BASE) == Success(map[])
  {
    hide Query.Query, Build, UncoveredMoves, WithVersions, ReleasesOf;
    TheLoopReleasesBoth();
    CandidatesAreGathered();
    LoopTrainIsAccepted(TREE, CONFIG, BumpedTo, FIRST, CANDIDATES, BASE);
  }

  /** The candidates alone it does not accept: it reports the component. */
  lemma TheCheckReports()
    ensures UncoveredMoves(WithVersions(TREE, CANDIDATES), BASE).Success?
    ensures UncoveredMoves(WithVersions(TREE, CANDIDATES), BASE).value.Keys == {CONNECTOR}
  {
    hide Query.Query, UncoveredMoves, WithVersions;
    QueryNamesTheComponent();
    ComponentStands();
    AcceptedIffClosed(TREE, CANDIDATES, BASE);
  }

  lemma ItIsDiscovered()
    ensures Discovered(TREE) && OnePinEach(TREE.descriptors)
  {
    assert TREE.members[0].path == CONTRACT && TREE.components[0].path == CONNECTOR;
    assert TREE.members[0] in TREE.members;
  }

  lemma {:induction false} OneForced(g: Gathered, m: Move)
    requires m.path in CONFIG.components && m.path in CONFIG.releases && m.path !in g.versions
    ensures Added([m], g.versions) == [m]
    ensures Force(CONFIG, BumpedTo, g, [m]).Success?
    ensures Force(CONFIG, BumpedTo, g, [m]).value.versions == g.versions[m.path := "0.4.2"]
  {
    assert [m][..0] == [];
    assert Added([m][..0], g.versions) == [] && Force(CONFIG, BumpedTo, g, [m][..0]) == Success(g);
  }

  lemma ForcedIs()
    ensures Added(MOVED, START.versions) == MOVED && Force(CONFIG, BumpedTo, START, MOVED).Success?
    ensures Force(CONFIG, BumpedTo, START, MOVED).value.versions == RELEASED
    ensures PatchBumps(TREE, CANDIDATES, RELEASED)
  {
    hide RangeOf, ReleaseVersion, Force, Added;
    ReleaseTexts();
    OneForced(START, MOVED[0]);
    assert CANDIDATES[CONNECTOR := "0.4.2"] == RELEASED;
  }

  lemma ComponentStands()
    ensures StandsClearly(TREE, CANDIDATES, BASE, CONNECTOR)
  {
    assert forall m :: m in TREE.members ==> m.path != CONNECTOR;
  }
}
