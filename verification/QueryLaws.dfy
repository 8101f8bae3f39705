/** What the release query promises: it names the units, with the values, that an apply rewrites
    once the candidate versions are on disk. */
module QueryLaws {
  import opened Outcome
  import opened PyprojectSpecs
  import opened RewriteLaws
  import opened ContractPins
  import opened Sync
  import opened SyncLaws
  import opened Query
  import opened TrainLaws

  /** Every descriptor has at most one `contract:` line. */
  ghost predicate OnePinEach(descriptors: seq<Descriptor>) {
    forall j :: 0 <= j < |descriptors| ==> OnePin(descriptors[j].lines)
  }

  // ---- The check's rows are the apply's ----------------------------------------------------

  /** With one pin a descriptor the check reports the rows the apply writes. */
  lemma {:induction false} OnePinRows(descriptors: seq<Descriptor>, plan: Plan)
    requires OnePinEach(descriptors)
    ensures DescriptorRows(descriptors, plan, Drifts) == DescriptorRows(descriptors, plan, AnyStale)
    decreases |descriptors|
  {
    hide Drifts, AnyStale, OnePin;
    if descriptors != [] {
      var last := |descriptors| - 1;
      OnePinRows(descriptors[..last], plan);
      if Target(descriptors[last], plan).Some? {
        CheckSeesRewrites(descriptors[last].lines, Target(descriptors[last], plan).value);
      }
    }
  }

  lemma CheckIsApplied(tree: Tree)
    requires OnePinEach(tree.descriptors) && Check(tree).Success?
    ensures Applied(tree).Success? && Applied(tree).value.1 == Check(tree).value
  {
    hide OnePinEach, RewriteMembers, MemberRows, DescriptorRows, AnalyzeAll;
    ApplyRefusesWhatCheckRefuses(tree);
    OnePinRows(tree.descriptors, MakePlan(tree, FirstPartyVersions(tree.members)).value);
  }

  // ---- A row is a rewritten file -----------------------------------------------------------

  lemma ChangesRewriteTheFile(py: Pyproject, firstParty: Versions)
    requires Analyze(py, firstParty).Success?
    ensures var a := Analyze(py, firstParty).value; Synced(py, a) == py <==> a.changes == []
  {
    hide Analyze, ChangeMap, Judge, FirstPartyKey;
    var a := Analyze(py, firstParty).value;
    if a.changes == [] {
      assert ChangeMap(a.changes) == map[] by { EmptyChangeMap(); }
      assert Replaced(py.literals, map[]) == py.literals;
    } else {
      var c := a.changes[0];
      AnalysisApplies(py, firstParty);
      ChangeMapLookup(a.changes);
      var i :| 0 <= i < |py.literals| && py.literals[i].text == c.oldReq && py.literals[i].style == StyleOf(py.literals, c.oldReq);
      assert Replaced(py.literals, ChangeMap(a.changes))[i].text == c.newReq;
      assert c.newReq != c.oldReq;
    }
  }

  lemma EmptyChangeMap()
    ensures ChangeMap([]) == map[]
  {
  }

  lemma StaleRewritesTheFile(lines: seq<Line>, newRange: string)
    ensures RewriteContract(lines, newRange) == lines <==> !AnyStale(lines, newRange)
  {
    hide ContractPin, Rebuilt;
    RewriteSettles(lines, newRange);
    if AnyStale(lines, newRange) {
      var i :| 0 <= i < |lines| && Stale(lines[i], newRange);
      assert RewriteContract(lines, newRange)[i] == RewriteLine(lines[i], newRange);
      assert !Stale(RewriteContract(lines, newRange)[i], newRange);
    }
  }

  // ---- Rows by unit ------------------------------------------------------------------------

  lemma {:induction false} SpecMovesHas(rows: seq<(string, SpecChange)>, unit: string)
    ensures SpecMoves(rows, unit) != [] <==> exists k :: 0 <= k < |rows| && rows[k].0 == unit
    decreases |rows|
  {
    if rows != [] {
      var before := rows[..|rows| - 1];
      SpecMovesHas(before, unit);
      assert forall k :: 0 <= k < |before| ==> before[k] == rows[k];
    }
  }

  lemma {:induction false} ContractMovesHas(rows: seq<(string, string, string)>, unit: string, units: seq<string>)
    ensures ContractMoves(rows, unit, units) != [] <==>
      exists k :: 0 <= k < |rows| && OwningUnit(rows[k].0, units) == Some(unit)
    decreases |rows|
  {
    hide OwningUnit;
    if rows != [] {
      var before := rows[..|rows| - 1];
      ContractMovesHas(before, unit, units);
      assert forall k :: 0 <= k < |before| ==> before[k] == rows[k];
    }
  }

  ghost predicate MemberChanges(members: seq<Member>, analyses: seq<Analysis>, unit: string)
    requires |members| == |analyses|
  {
    exists i :: 0 <= i < |members| && members[i].path == unit && analyses[i].changes != []
  }

  lemma MemberChangesLast(members: seq<Member>, analyses: seq<Analysis>, unit: string)
    requires members != [] && |members| == |analyses|
    ensures var last := |members| - 1;
      MemberChanges(members, analyses, unit) <==>
        MemberChanges(members[..last], analyses[..last], unit) || (members[last].path == unit && analyses[last].changes != [])
  {
    var last := |members| - 1;
    if i :| 0 <= i < last && members[..last][i].path == unit && analyses[..last][i].changes != [] {
      assert members[i].path == unit && analyses[i].changes != [];
    }
    if i :| 0 <= i < last && members[i].path == unit && analyses[i].changes != [] {
      assert members[..last][i].path == unit && analyses[..last][i].changes != [];
    }
  }

  ghost predicate HasSpecRow(rows: seq<(string, SpecChange)>, unit: string) {
    exists k :: 0 <= k < |rows| && rows[k].0 == unit
  }

  lemma HasSpecRowEither(a: seq<(string, SpecChange)>, b: seq<(string, SpecChange)>, unit: string)
    ensures HasSpecRow(a + b, unit) <==> HasSpecRow(a, unit) || HasSpecRow(b, unit)
  {
    if k :| 0 <= k < |a| && a[k].0 == unit {
      assert (a + b)[k].0 == unit;
    }
    if k :| 0 <= k < |b| && b[k].0 == unit {
      assert (a + b)[|a| + k].0 == unit;
    }
  }

  lemma {:induction false} MemberRowsHas(members: seq<Member>, analyses: seq<Analysis>, unit: string)
    requires |members| == |analyses|
    ensures HasSpecRow(MemberRows(members, analyses).specChanges, unit) <==> MemberChanges(members, analyses, unit)
    decreases |members|
  {
    if members != [] {
      var last := |members| - 1;
      var tagged := Tagged(members[last].path, analyses[last].changes);
      MemberRowsHas(members[..last], analyses[..last], unit);
      HasSpecRowEither(MemberRows(members[..last], analyses[..last]).specChanges, tagged, unit);
      MemberChangesLast(members, analyses, unit);
      if analyses[last].changes != [] {
        assert tagged[0].0 == members[last].path;
      }
    }
  }

  ghost predicate DescriptorChanges(descriptors: seq<Descriptor>, plan: Plan, unit: string, units: seq<string>) {
    exists j :: 0 <= j < |descriptors| && OwningUnit(descriptors[j].path, units) == Some(unit)
                && RewriteDescriptor(descriptors[j], plan) != descriptors[j]
  }

  lemma {:induction false} DescriptorChangesLast(descriptors: seq<Descriptor>, plan: Plan, unit: string, units: seq<string>)
    requires descriptors != []
    ensures var last := |descriptors| - 1; var d := descriptors[last];
      DescriptorChanges(descriptors, plan, unit, units) <==>
        DescriptorChanges(descriptors[..last], plan, unit, units)
        || (OwningUnit(d.path, units) == Some(unit) && RewriteDescriptor(d, plan) != d)
  {
    hide OwningUnit, RewriteDescriptor;
    var last := |descriptors| - 1;
    var before := descriptors[..last];
    if j :| 0 <= j < last && OwningUnit(before[j].path, units) == Some(unit) && RewriteDescriptor(before[j], plan) != before[j] {
      assert descriptors[j] == before[j];
    }
    if j :| 0 <= j < last && OwningUnit(descriptors[j].path, units) == Some(unit)
            && RewriteDescriptor(descriptors[j], plan) != descriptors[j] {
      assert before[j] == descriptors[j];
    }
  }

  ghost predicate HasContractRow(rows: seq<(string, string, string)>, unit: string, units: seq<string>) {
    exists k :: 0 <= k < |rows| && OwningUnit(rows[k].0, units) == Some(unit)
  }

  lemma {:induction false} HasContractRowLast(before: seq<(string, string, string)>, row: (string, string, string), unit: string,
                                              units: seq<string>)
    ensures HasContractRow(before + [row], unit, units) <==>
      HasContractRow(before, unit, units) || OwningUnit(row.0, units) == Some(unit)
  {
    hide OwningUnit;
    var rows := before + [row];
    assert rows[|before|] == row;
    if k :| 0 <= k < |before| && OwningUnit(before[k].0, units) == Some(unit) {
      assert rows[k] == before[k];
    }
  }

  lemma {:induction false} DescriptorRowsHas(descriptors: seq<Descriptor>, plan: Plan, unit: string, units: seq<string>)
    ensures HasContractRow(DescriptorRows(descriptors, plan, AnyStale).contractChanges, unit, units) <==>
      DescriptorChanges(descriptors, plan, unit, units)
    decreases |descriptors|
  {
    hide AnyStale, OwningUnit, RewriteContract;
    if descriptors != [] {
      var last := |descriptors| - 1;
      var d := descriptors[last];
      var before := DescriptorRows(descriptors[..last], plan, AnyStale).contractChanges;
      DescriptorRowsHas(descriptors[..last], plan, unit, units);
      DescriptorChangesLast(descriptors, plan, unit, units);
      hide HasContractRow, DescriptorChanges;
      match Target(d, plan)
      case None =>
      case Some(target) =>
        StaleRewritesTheFile(d.lines, target);
        HasContractRowLast(before, (d.path, ValueOrEmpty(d.lines), target), unit, units);
    }
  }

  lemma {:induction false} NonemptyMovesHas(report: Report, among: seq<string>, units: seq<string>, unit: string)
    ensures (exists m :: m in NonemptyMoves(report, among, units) && m.path == unit) <==>
      unit in among && MovesIn(report, unit, units) != []
    ensures forall m :: m in NonemptyMoves(report, among, units) ==> m.changes == MovesIn(report, m.path, units)
  {
    hide MovesIn;
    if among != [] {
      NonemptyMovesHas(report, among[1..], units, unit);
      if unit == among[0] && MovesIn(report, unit, units) != [] {
        assert Move(unit, MovesIn(report, unit, units)) in NonemptyMoves(report, among, units);
      }
      assert among == [among[0]] + among[1..];
    }
  }

  // ---- The query and the apply -------------------------------------------------------------

  /** The apply changes a file of the unit: its pyproject, or a descriptor under its directory. */
  ghost predicate Rewrites(was: Tree, now: Tree, unit: string) {
    || (exists i :: 0 <= i < |was.members| && i < |now.members| && was.members[i].path == unit && now.members[i] != was.members[i])
    || (exists j :: 0 <= j < |was.descriptors| && j < |now.descriptors| && OwningUnit(was.descriptors[j].path, was.units) == Some(unit)
                    && now.descriptors[j] != was.descriptors[j])
  }

  lemma MembersDiffer(tree: Tree, unit: string)
    requires Applied(tree).Success?
    ensures var plan := MakePlan(tree, FirstPartyVersions(tree.members)).value;
      (exists i :: 0 <= i < |tree.members| && tree.members[i].path == unit && Applied(tree).value.0.members[i] != tree.members[i])
      <==> MemberChanges(tree.members, plan.analyses, unit)
  {
    hide Analyze, MemberRows, DescriptorRows, FirstPartyVersions, PreservedRanges, AnalyzeAll, Replaced, ChangeMap, RewriteMembers,
      RewriteDescriptors;
    var firstParty := FirstPartyVersions(tree.members);
    var plan := MakePlan(tree, firstParty).value;
    MembersRewritten(tree.members, plan.analyses, firstParty);
    var now := Applied(tree).value.0.members;
    forall i | 0 <= i < |tree.members|
      ensures now[i] != tree.members[i] <==> plan.analyses[i].changes != []
    {
      ChangesRewriteTheFile(tree.members[i].py, firstParty);
    }
  }

  lemma MovedIsRewritten(tree: Tree, unit: string)
    requires Applied(tree).Success?
    ensures MovesIn(Applied(tree).value.1, unit, tree.units) != [] <==> Rewrites(tree, Applied(tree).value.0, unit)
  {
    hide MemberRows, DescriptorRows, FirstPartyVersions, RewriteMembers, OwningUnit, MakePlan, RewriteDescriptor, MemberChanges;
    var (now, report) := Applied(tree).value;
    var plan := MakePlan(tree, FirstPartyVersions(tree.members)).value;
    var m, d := MemberRows(tree.members, plan.analyses), DescriptorRows(tree.descriptors, plan, AnyStale);
    MembersDiffer(tree, unit);
    MemberRowsHas(tree.members, plan.analyses, unit);
    SpecMovesHas(m.specChanges, unit);
    DescriptorRowsHas(tree.descriptors, plan, unit, tree.units);
    ContractMovesHas(d.contractChanges, unit, tree.units);
    OneSided(tree.members, plan.analyses, tree.descriptors, plan);
    assert report.specChanges == m.specChanges && report.contractChanges == d.contractChanges;
  }

  /** Members' rows hold no descriptor changes and the other way round. */
  lemma {:induction false} OneSided(members: seq<Member>, analyses: seq<Analysis>, descriptors: seq<Descriptor>, plan: Plan)
    requires |members| == |analyses|
    ensures MemberRows(members, analyses).contractChanges == []
    ensures DescriptorRows(descriptors, plan, AnyStale).specChanges == []
    decreases |members|, |descriptors|
  {
    hide Target, AnyStale;
    if members != [] {
      var last := |members| - 1;
      OneSided(members[..last], analyses[..last], descriptors, plan);
    } else if descriptors != [] {
      OneSided(members, analyses, descriptors[..|descriptors| - 1], plan);
    }
  }

  /** The query names exactly the units, with exactly the old and new values, that an apply
      rewrites and reports once the candidate versions are on disk. */
  lemma QueryForetellsApply(tree: Tree, versions: map<string, string>)
    requires Discovered(tree) && OnePinEach(tree.descriptors) && Query.Query(tree, versions).Success?
    ensures var after := WithVersions(tree, versions); var moves := Query.Query(tree, versions).value;
      && Applied(after).Success?
      && ChangesByUnit(Applied(after).value.1, tree.units) == Success(moves)
      && (forall m :: m in moves ==> m.changes == MovesIn(Applied(after).value.1, m.path, tree.units))
      && (forall unit :: unit in tree.units ==>
            ((exists m :: m in moves && m.path == unit) <==> Rewrites(after, Applied(after).value.0, unit)))
  {
    hide CandidateFirstParty, Discovered, Check, Applied, Rewrites, MovesIn;
    QueryIsCheck(tree, versions);
    var after := WithVersions(tree, versions);
    CheckIsApplied(after);
    forall unit | unit in tree.units
      ensures (exists m :: m in Query.Query(tree, versions).value && m.path == unit) <==>
        Rewrites(after, Applied(after).value.0, unit)
    {
      MovedIsRewritten(after, unit);
      NonemptyMovesHas(Applied(after).value.1, tree.units, tree.units, unit);
    }
    forall m | m in Query.Query(tree, versions).value
      ensures m.changes == MovesIn(Applied(after).value.1, m.path, tree.units)
    {
      NonemptyMovesHas(Applied(after).value.1, tree.units, tree.units, m.path);
    }
  }
}
