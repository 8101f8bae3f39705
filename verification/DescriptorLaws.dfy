/** What a sync makes of the workspace on the tree, the analyses and the written lines alone: the
    version each name stands for, the range each descriptor ends with, the rows of the reports. */
module DescriptorLaws {
  import opened Outcome
  import opened VersionRanges
  import opened PyprojectSpecs
  import opened ContractPins
  import opened Sync
  import opened SyncLaws

  // ---- The versions names stand for ------------------------------------------------------

  /** The member declares a version under this name. */
  predicate Declares(member: Member, key: string) {
    member.py.name != "" && member.py.version != "" && NormalizeName(member.py.name) == key
  }

  /** No later member declares one. */
  ghost predicate DeclaresLast(members: seq<Member>, key: string, i: nat) {
    i < |members| && Declares(members[i], key) && forall j :: i < j < |members| ==> !Declares(members[j], key)
  }

  /** One more member: its own name takes its version, every other name keeps its own. */
  lemma {:induction false} VersionsStep(members: seq<Member>, key: string)
    requires members != []
    ensures var last := members[|members| - 1];
      var before, now := FirstPartyVersions(members[..|members| - 1]), FirstPartyVersions(members);
      && (Declares(last, key) ==> key in now && now[key] == last.py.version)
      && (!Declares(last, key) ==> (key in now <==> key in before) && (key in before ==> now[key] == before[key]))
  {
    hide NormalizeName;
  }

  /** A name stands for the version of the last member that declares one under it. */
  lemma {:induction false} LastDeclarationDecides(members: seq<Member>, key: string)
    ensures key in FirstPartyVersions(members) <==> exists i :: 0 <= i < |members| && Declares(members[i], key)
    ensures forall i: nat :: DeclaresLast(members, key, i) ==>
      key in FirstPartyVersions(members) && FirstPartyVersions(members)[key] == members[i].py.version
    decreases |members|
  {
    hide Declares;
    if members == [] {
      assert FirstPartyVersions(members) == map[];
    } else {
      var before := members[..|members| - 1];
      LastDeclarationDecides(before, key);
      VersionsStep(members, key);
      hide FirstPartyVersions;
      assert forall i :: 0 <= i < |before| ==> before[i] == members[i];
      forall i: nat | DeclaresLast(members, key, i)
        ensures key in FirstPartyVersions(members) && FirstPartyVersions(members)[key] == members[i].py.version
      {
        if i < |before| {
          assert DeclaresLast(before, key, i);
        }
      }
    }
  }

  // ---- The range a descriptor must advertise ---------------------------------------------

  /** The member's analysis kept this pin of the contract package. */
  predicate Keeps(analyses: seq<Analysis>, j: nat, k: nat) {
    j < |analyses| && k < |analyses[j].preserved| && NormalizeName(analyses[j].preserved[k].depName) == CONTRACT_PACKAGE
  }

  /** And it is the last such pin of the members at `path`. */
  ghost predicate KeepsLast(members: seq<Member>, analyses: seq<Analysis>, path: string, j: nat, k: nat) {
    && j < |members| && members[j].path == path && Keeps(analyses, j, k)
    && (forall m: nat, n: nat :: m < |members| && members[m].path == path && Keeps(analyses, m, n) ==> m < j || (m == j && n <= k))
  }

  ghost predicate NoneAt(analyses: seq<Analysis>, m: nat) { forall n: nat :: !Keeps(analyses, m, n) }

  ghost predicate KeepsNone(members: seq<Member>, analyses: seq<Analysis>, path: string) {
    forall m: nat, n: nat :: m < |members| && members[m].path == path ==> !Keeps(analyses, m, n)
  }

  /** The range a member's last kept pin of the contract package dictates to its descriptors. */
  ghost predicate Dictates(members: seq<Member>, analyses: seq<Analysis>, path: string, range: Option<string>) {
    exists j: nat, k: nat :: KeepsLast(members, analyses, path, j, k)
                             && range == DescriptorRangeFromSpec(analyses[j].preserved[k].keptRange)
  }

  lemma {:induction false} LastKeptDecides(preserved: seq<Kept>, k: nat)
    requires k < |preserved| && NormalizeName(preserved[k].depName) == CONTRACT_PACKAGE
    requires forall n :: k < n < |preserved| ==> NormalizeName(preserved[n].depName) != CONTRACT_PACKAGE
    ensures PreservedRange(preserved) == Some(DescriptorRangeFromSpec(preserved[k].keptRange))
    decreases |preserved|
  {
    hide NormalizeName, DescriptorRangeFromSpec;
    if k < |preserved| - 1 {
      LastKeptDecides(preserved[..|preserved| - 1], k);
    }
  }

  lemma {:induction false} NoneKeptDecides(preserved: seq<Kept>)
    requires forall n :: 0 <= n < |preserved| ==> NormalizeName(preserved[n].depName) != CONTRACT_PACKAGE
    ensures PreservedRange(preserved) == None
    decreases |preserved|
  {
    hide NormalizeName, DescriptorRangeFromSpec;
    if preserved != [] {
      NoneKeptDecides(preserved[..|preserved| - 1]);
    }
  }

  /** Some pin is the last one kept, or none is. */
  lemma {:induction false} SomeLastKept(preserved: seq<Kept>) returns (k: nat)
    requires exists n :: 0 <= n < |preserved| && NormalizeName(preserved[n].depName) == CONTRACT_PACKAGE
    ensures k < |preserved| && NormalizeName(preserved[k].depName) == CONTRACT_PACKAGE
    ensures forall n :: k < n < |preserved| ==> NormalizeName(preserved[n].depName) != CONTRACT_PACKAGE
    decreases |preserved|
  {
    hide NormalizeName;
    k := |preserved| - 1;
    if NormalizeName(preserved[k].depName) != CONTRACT_PACKAGE {
      k := SomeLastKept(preserved[..k]);
    }
  }

  /** The collected ranges are what the last kept pins dictate. */
  lemma {:induction false} RangesAreDictated(members: seq<Member>, analyses: seq<Analysis>, path: string)
    requires |members| == |analyses|
    ensures var ranges := PreservedRanges(members, analyses);
      if path in ranges then Dictates(members, analyses, path, ranges[path]) else KeepsNone(members, analyses, path)
    decreases |members|
  {
    hide PreservedRange, DescriptorRangeFromSpec, Dictates;
    if members == [] {
    } else {
      var last := |members| - 1;
      RangesAreDictated(members[..last], analyses[..last], path);
      if members[last].path == path {
        DictatesHere(members, analyses, path);
      } else {
        DictatesStill(members, analyses, path);
      }
      if PreservedRange(analyses[last].preserved).None? && members[last].path == path {
        DictatesStill(members, analyses, path);
      }
    }
  }

  lemma DictatesHere(members: seq<Member>, analyses: seq<Analysis>, path: string)
    requires members != [] && |members| == |analyses| && members[|members| - 1].path == path
    ensures var r := PreservedRange(analyses[|members| - 1].preserved);
      if r.Some? then Dictates(members, analyses, path, r.value) else NoneAt(analyses, |members| - 1)
  {
    hide NormalizeName, DescriptorRangeFromSpec;
    var last := |members| - 1;
    var preserved := analyses[last].preserved;
    if exists n :: 0 <= n < |preserved| && NormalizeName(preserved[n].depName) == CONTRACT_PACKAGE {
      var k := SomeLastKept(preserved);
      LastKeptDecides(preserved, k);
      assert KeepsLast(members, analyses, path, last, k);
    } else {
      NoneKeptDecides(preserved);
    }
  }

  /** Where the last member has no say, what the others dictate stands. */
  lemma DictatesStill(members: seq<Member>, analyses: seq<Analysis>, path: string)
    requires members != [] && |members| == |analyses|
    requires members[|members| - 1].path == path ==> NoneAt(analyses, |members| - 1)
    ensures var last := |members| - 1;
      && (forall range :: Dictates(members[..last], analyses[..last], path, range) ==> Dictates(members, analyses, path, range))
      && (KeepsNone(members[..last], analyses[..last], path) ==> KeepsNone(members, analyses, path))
  {
    hide NormalizeName, DescriptorRangeFromSpec;
    var last := |members| - 1;
    assert forall m: nat, n: nat :: m < last ==> (Keeps(analyses, m, n) <==> Keeps(analyses[..last], m, n));
    forall range | Dictates(members[..last], analyses[..last], path, range)
      ensures Dictates(members, analyses, path, range)
    {
      var j: nat, k: nat :| KeepsLast(members[..last], analyses[..last], path, j, k)
                            && range == DescriptorRangeFromSpec(analyses[..last][j].preserved[k].keptRange);
      assert KeepsLast(members, analyses, path, j, k);
    }
  }

  /** The range a descriptor must advertise: what its plugin's last kept pin of the contract package
      dictates, None where that pin names no floor, and without such a pin the range derived from the
      contract package's version. */
  ghost predicate Advertises(tree: Tree, analyses: seq<Analysis>, d: Descriptor, range: Option<string>) {
    if d.plugin.None? || KeepsNone(tree.members, analyses, d.plugin.value) then
      var versions := FirstPartyVersions(tree.members);
      CONTRACT_PACKAGE in versions && range.Some? && range == DeriveRange(versions[CONTRACT_PACKAGE])
    else Dictates(tree.members, analyses, d.plugin.value, range)
  }

  /** Every member's analysis. */
  ghost predicate Analyzed(tree: Tree, analyses: seq<Analysis>) {
    && |analyses| == |tree.members|
    && forall i :: 0 <= i < |tree.members| ==> Analyze(tree.members[i].py, FirstPartyVersions(tree.members)) == Success(analyses[i])
  }

  lemma DictatedOnce(members: seq<Member>, analyses: seq<Analysis>, path: string, r: Option<string>)
    requires Dictates(members, analyses, path, r)
    ensures !KeepsNone(members, analyses, path)
    ensures forall other :: Dictates(members, analyses, path, other) ==> other == r
  {
    hide Keeps, DescriptorRangeFromSpec;
  }

  /** The target of a sync is the range the descriptor must advertise. */
  lemma TargetIsAdvertised(tree: Tree, analyses: seq<Analysis>, d: Descriptor)
    requires Analyzed(tree, analyses) && MakePlan(tree, FirstPartyVersions(tree.members)).Success?
    ensures var plan := MakePlan(tree, FirstPartyVersions(tree.members)).value;
      && plan.analyses == analyses && Advertises(tree, analyses, d, Target(d, plan))
      && forall range :: Advertises(tree, analyses, d, range) ==> range == Target(d, plan)
  {
    hide Analyze, FirstPartyVersions, PreservedRanges, Dictates, KeepsNone, DeriveRange, AnalyzeAll;
    AnalyzeAllIs(tree.members, FirstPartyVersions(tree.members), analyses);
    if d.plugin.Some? {
      var ranges := PreservedRanges(tree.members, analyses);
      RangesAreDictated(tree.members, analyses, d.plugin.value);
      if d.plugin.value in ranges {
        DictatedOnce(tree.members, analyses, d.plugin.value, ranges[d.plugin.value]);
      }
    }
  }

  // ---- What an apply writes --------------------------------------------------------------

  /** Every pin of the descriptor is at the range. */
  predicate PinsAt(lines: seq<Line>, range: string) {
    forall i :: 0 <= i < |lines| && HasPin(lines[i]) ==> ContractPin(lines[i].content).value.value == range
  }

  lemma RewrittenPins(lines: seq<Line>, range: string)
    ensures PinsAt(RewriteContract(lines, range), range)
  {
    hide ContractPin, RewriteContract;
    RewriteSettles(lines, range);
    var out := RewriteContract(lines, range);
    forall i | 0 <= i < |out| && HasPin(out[i])
      ensures ContractPin(out[i].content).value.value == range
    {
      assert !Stale(out[i], range);
    }
  }

  /** After an apply every pin of a descriptor is at the range it must advertise, and one without such a
      range is as it was. */
  lemma AppliedDescriptors(tree: Tree, analyses: seq<Analysis>, i: nat, range: Option<string>)
    requires Applied(tree).Success? && Analyzed(tree, analyses) && i < |tree.descriptors|
    requires Advertises(tree, analyses, tree.descriptors[i], range)
    ensures |Applied(tree).value.0.descriptors| == |tree.descriptors|
    ensures var was, now := tree.descriptors[i], Applied(tree).value.0.descriptors[i];
      if range.None? then now == was else now.path == was.path && PinsAt(now.lines, range.value)
  {
    hide Analyzed, Advertises, MakePlan, RewriteMembers, FirstPartyVersions, RewriteContract, PinsAt, MemberRows, DescriptorRows;
    var d := tree.descriptors[i];
    TargetIsAdvertised(tree, analyses, d);
    if range.Some? {
      RewrittenPins(d.lines, range.value);
    }
  }

  /** And every member's file is the rewrite of what its analysis calls for, its name, version and pins as
      they were. */
  lemma AppliedMembers(tree: Tree, analyses: seq<Analysis>, i: nat)
    requires Applied(tree).Success? && Analyzed(tree, analyses) && i < |tree.members|
    ensures |Applied(tree).value.0.members| == |tree.members|
    ensures var was, now := tree.members[i], Applied(tree).value.0.members[i];
      && RewriteText(was.py.literals, analyses[i].changes) == Success(now.py.literals)
      && now == was.(py := was.py.(literals := now.py.literals))
  {
    hide Analyze, FirstPartyVersions, RewriteText, MemberRows, DescriptorRows, RewriteDescriptors, PreservedRanges;
    AnalyzeAllIs(tree.members, FirstPartyVersions(tree.members), analyses);
    MembersRewritten(tree.members, analyses, i);
  }

  lemma {:induction false} MembersRewritten(members: seq<Member>, analyses: seq<Analysis>, i: nat)
    requires |members| == |analyses| && RewriteMembers(members, analyses).Success? && i < |members|
    ensures var was, now := members[i], RewriteMembers(members, analyses).value[i];
      && RewriteText(was.py.literals, analyses[i].changes) == Success(now.py.literals)
      && now == was.(py := was.py.(literals := now.py.literals))
    decreases |members|
  {
    hide RewriteText;
    if i < |members| - 1 {
      MembersRewritten(members[..|members| - 1], analyses[..|members| - 1], i);
    }
  }

  // ---- What the reports say --------------------------------------------------------------

  /** The rows of the descriptors: those left alone, and those with something to change. */
  ghost predicate LeftAlone(descriptors: seq<Descriptor>, plan: Plan, row: (string, string)) {
    exists i :: 0 <= i < |descriptors| && Target(descriptors[i], plan) == None
                && row == (descriptors[i].path, ValueOrEmpty(descriptors[i].lines))
  }

  ghost predicate ChangeDue(descriptors: seq<Descriptor>, plan: Plan, drifted: (seq<Line>, string) -> bool,
                            row: (string, string, string))
  {
    exists i :: 0 <= i < |descriptors| && Target(descriptors[i], plan) == Some(row.2) && drifted(descriptors[i].lines, row.2)
                && row.0 == descriptors[i].path && row.1 == ValueOrEmpty(descriptors[i].lines)
  }

  lemma LeftAloneLast(before: seq<Descriptor>, d: Descriptor, plan: Plan, row: (string, string))
    ensures LeftAlone(before + [d], plan, row) <==>
      LeftAlone(before, plan, row) || (Target(d, plan) == None && row == (d.path, ValueOrEmpty(d.lines)))
  {
    hide Target, ValueOrEmpty;
    var all := before + [d];
    assert all[|before|] == d && forall i :: 0 <= i < |before| ==> all[i] == before[i];
  }

  lemma ChangeDueLast(before: seq<Descriptor>, d: Descriptor, plan: Plan, drifted: (seq<Line>, string) -> bool,
                      row: (string, string, string))
    ensures ChangeDue(before + [d], plan, drifted, row) <==>
      || ChangeDue(before, plan, drifted, row)
      || (Target(d, plan) == Some(row.2) && drifted(d.lines, row.2) && row.0 == d.path && row.1 == ValueOrEmpty(d.lines))
  {
    hide Target, ValueOrEmpty;
    var all := before + [d];
    assert all[|before|] == d && forall i :: 0 <= i < |before| ==> all[i] == before[i];
  }

  lemma {:induction false} DescriptorRowsAre(descriptors: seq<Descriptor>, plan: Plan, drifted: (seq<Line>, string) -> bool)
    ensures var r := DescriptorRows(descriptors, plan, drifted);
      && (forall row :: row in r.untouched <==> LeftAlone(descriptors, plan, row))
      && (forall row :: row in r.contractChanges <==> ChangeDue(descriptors, plan, drifted, row))
    decreases |descriptors|
  {
    hide Target, ValueOrEmpty, LeftAlone, ChangeDue;
    if descriptors == [] {
      NoRows(plan, drifted);
    } else {
      var before, d := descriptors[..|descriptors| - 1], descriptors[|descriptors| - 1];
      assert descriptors == before + [d];
      DescriptorRowsAre(before, plan, drifted);
      var r := DescriptorRows(descriptors, plan, drifted);
      forall row
        ensures row in r.untouched <==> LeftAlone(descriptors, plan, row)
      {
        LeftAloneLast(before, d, plan, row);
      }
      forall row
        ensures row in r.contractChanges <==> ChangeDue(descriptors, plan, drifted, row)
      {
        ChangeDueLast(before, d, plan, drifted, row);
      }
    }
  }

  lemma NoRows(plan: Plan, drifted: (seq<Line>, string) -> bool)
    ensures forall row :: !LeftAlone([], plan, row)
    ensures forall row :: !ChangeDue([], plan, drifted, row)
  {
  }

  /** Some member at `path` whose analysis has this row. */
  ghost predicate MemberHas<T>(members: seq<Member>, rows: seq<seq<T>>, path: string, row: T)
    requires |members| == |rows|
  {
    exists i :: 0 <= i < |members| && members[i].path == path && row in rows[i]
  }

  lemma MemberHasLast<T>(members: seq<Member>, rows: seq<seq<T>>, path: string, row: T)
    requires members != [] && |members| == |rows|
    ensures var last := |members| - 1;
      MemberHas(members, rows, path, row) <==>
        MemberHas(members[..last], rows[..last], path, row) || (members[last].path == path && row in rows[last])
  {
    var last := |members| - 1;
    assert forall i :: 0 <= i < last ==> members[..last][i] == members[i] && rows[..last][i] == rows[i];
  }

  lemma TaggedHas<T>(at: string, rows: seq<T>, path: string, row: T)
    ensures (path, row) in Tagged(at, rows) <==> path == at && row in rows
  {
    if row in rows {
      var i :| 0 <= i < |rows| && rows[i] == row;
      assert Tagged(at, rows)[i] == (at, row);
    }
  }

  function ChangesIn(analyses: seq<Analysis>): (r: seq<seq<SpecChange>>)
    ensures |r| == |analyses|
  {
    seq(|analyses|, i requires 0 <= i < |analyses| => analyses[i].changes)
  }

  function WarningsIn(analyses: seq<Analysis>): (r: seq<seq<SpecChange>>)
    ensures |r| == |analyses|
  {
    seq(|analyses|, i requires 0 <= i < |analyses| => analyses[i].warnings)
  }

  function KeptIn(analyses: seq<Analysis>): (r: seq<seq<Kept>>)
    ensures |r| == |analyses|
  {
    seq(|analyses|, i requires 0 <= i < |analyses| => analyses[i].preserved)
  }

  /** A report shows exactly its members' changes, warnings and preserved pins, each under its member. */
  lemma {:induction false} MemberRowsAre(members: seq<Member>, analyses: seq<Analysis>, path: string)
    requires |members| == |analyses|
    ensures var r := MemberRows(members, analyses);
      && (forall c :: (path, c) in r.specChanges <==> MemberHas(members, ChangesIn(analyses), path, c))
      && (forall c :: (path, c) in r.warnings <==> MemberHas(members, WarningsIn(analyses), path, c))
      && (forall kept :: (path, kept) in r.preserved <==> MemberHas(members, KeptIn(analyses), path, kept))
    decreases |members|
  {
    hide MemberHas, Tagged;
    if members == [] {
      NoMembers(path);
    } else {
      var last := |members| - 1;
      MemberRowsAre(members[..last], analyses[..last], path);
      assert ChangesIn(analyses)[..last] == ChangesIn(analyses[..last]) && WarningsIn(analyses)[..last] == WarningsIn(analyses[..last]);
      assert KeptIn(analyses)[..last] == KeptIn(analyses[..last]);
      forall c: SpecChange
        ensures (path, c) in MemberRows(members, analyses).specChanges <==> MemberHas(members, ChangesIn(analyses), path, c)
        ensures (path, c) in MemberRows(members, analyses).warnings <==> MemberHas(members, WarningsIn(analyses), path, c)
      {
        MemberHasLast(members, ChangesIn(analyses), path, c);
        MemberHasLast(members, WarningsIn(analyses), path, c);
        TaggedHas(members[last].path, analyses[last].changes, path, c);
        TaggedHas(members[last].path, analyses[last].warnings, path, c);
      }
      forall kept: Kept
        ensures (path, kept) in MemberRows(members, analyses).preserved <==> MemberHas(members, KeptIn(analyses), path, kept)
      {
        MemberHasLast(members, KeptIn(analyses), path, kept);
        TaggedHas(members[last].path, analyses[last].preserved, path, kept);
      }
    }
  }

  lemma NoMembers(path: string)
    ensures forall c: SpecChange :: !MemberHas([], [], path, c)
    ensures forall kept: Kept :: !MemberHas([], [], path, kept)
  {
  }

  // ---- The reports of a check and of an apply --------------------------------------------

  ghost predicate ReportedAlone(tree: Tree, analyses: seq<Analysis>, row: (string, string)) {
    exists i :: 0 <= i < |tree.descriptors| && Advertises(tree, analyses, tree.descriptors[i], None)
                && row == (tree.descriptors[i].path, ValueOrEmpty(tree.descriptors[i].lines))
  }

  /** A descriptor whose first pin is at another range than it must advertise. */
  ghost predicate ReportedDrift(tree: Tree, analyses: seq<Analysis>, row: (string, string, string)) {
    exists i :: 0 <= i < |tree.descriptors| && Advertises(tree, analyses, tree.descriptors[i], Some(row.2))
                && ContractValue(tree.descriptors[i].lines) == Some(row.1) && row.1 != row.2 && row.0 == tree.descriptors[i].path
  }

  /** One with any pin at another range. */
  ghost predicate ReportedWrite(tree: Tree, analyses: seq<Analysis>, row: (string, string, string)) {
    exists i :: 0 <= i < |tree.descriptors| && Advertises(tree, analyses, tree.descriptors[i], Some(row.2))
                && !PinsAt(tree.descriptors[i].lines, row.2)
                && row.0 == tree.descriptors[i].path && row.1 == ValueOrEmpty(tree.descriptors[i].lines)
  }

  lemma AloneIsReported(tree: Tree, analyses: seq<Analysis>, plan: Plan, row: (string, string))
    requires Analyzed(tree, analyses) && MakePlan(tree, FirstPartyVersions(tree.members)) == Success(plan)
    ensures LeftAlone(tree.descriptors, plan, row) <==> ReportedAlone(tree, analyses, row)
  {
    hide Analyzed, Advertises, MakePlan, FirstPartyVersions, Target, ValueOrEmpty;
    forall i | 0 <= i < |tree.descriptors|
      ensures Advertises(tree, analyses, tree.descriptors[i], None) <==> Target(tree.descriptors[i], plan) == None
    {
      TargetIsAdvertised(tree, analyses, tree.descriptors[i]);
    }
  }

  lemma DriftIsReported(tree: Tree, analyses: seq<Analysis>, plan: Plan, row: (string, string, string))
    requires Analyzed(tree, analyses) && MakePlan(tree, FirstPartyVersions(tree.members)) == Success(plan)
    ensures ChangeDue(tree.descriptors, plan, Drifts, row) <==> ReportedDrift(tree, analyses, row)
    ensures ChangeDue(tree.descriptors, plan, AnyStale, row) <==> ReportedWrite(tree, analyses, row)
  {
    hide Analyzed, Advertises, MakePlan, FirstPartyVersions, Target, ContractValue, AnyStale, PinsAt;
    forall i | 0 <= i < |tree.descriptors|
      ensures Advertises(tree, analyses, tree.descriptors[i], Some(row.2)) <==> Target(tree.descriptors[i], plan) == Some(row.2)
      ensures AnyStale(tree.descriptors[i].lines, row.2) <==> !PinsAt(tree.descriptors[i].lines, row.2)
    {
      TargetIsAdvertised(tree, analyses, tree.descriptors[i]);
      StaleIsOff(tree.descriptors[i].lines, row.2);
    }
  }

  lemma StaleIsOff(lines: seq<Line>, range: string)
    ensures AnyStale(lines, range) <==> !PinsAt(lines, range)
  {
    hide ContractPin;
  }

  /** A check reports exactly the descriptors whose first pin is off the range they must advertise, and
      those left alone; an apply those with any pin off it. */
  lemma DescriptorsReported(tree: Tree, analyses: seq<Analysis>)
    requires Analyzed(tree, analyses) && Check(tree).Success?
    ensures Applied(tree).Success?
    ensures forall row :: row in Check(tree).value.untouched <==> ReportedAlone(tree, analyses, row)
    ensures forall row :: row in Applied(tree).value.1.untouched <==> ReportedAlone(tree, analyses, row)
    ensures forall row :: row in Check(tree).value.contractChanges <==> ReportedDrift(tree, analyses, row)
    ensures forall row :: row in Applied(tree).value.1.contractChanges <==> ReportedWrite(tree, analyses, row)
  {
    hide Analyzed, MakePlan, RewriteMembers, FirstPartyVersions, RewriteDescriptors, MemberRows, DescriptorRows, LeftAlone, ChangeDue,
      ReportedAlone, ReportedDrift, ReportedWrite, AnyStale, Drifts;
    ApplyRefusesWhatCheckRefuses(tree);
    var plan := MakePlan(tree, FirstPartyVersions(tree.members)).value;
    DescriptorRowsAre(tree.descriptors, plan, Drifts);
    DescriptorRowsAre(tree.descriptors, plan, AnyStale);
    NoChangesNoRows(tree.members, plan.analyses);
    forall row
      ensures LeftAlone(tree.descriptors, plan, row) <==> ReportedAlone(tree, analyses, row)
    {
      AloneIsReported(tree, analyses, plan, row);
    }
    forall row
      ensures ChangeDue(tree.descriptors, plan, Drifts, row) <==> ReportedDrift(tree, analyses, row)
      ensures ChangeDue(tree.descriptors, plan, AnyStale, row) <==> ReportedWrite(tree, analyses, row)
    {
      DriftIsReported(tree, analyses, plan, row);
    }
  }

  /** And exactly the members' changes, warnings and preserved pins, each under its member. */
  lemma MembersReported(tree: Tree, analyses: seq<Analysis>, path: string)
    requires Analyzed(tree, analyses) && Check(tree).Success?
    ensures var r := Check(tree).value;
      && (forall c :: (path, c) in r.specChanges <==> MemberHas(tree.members, ChangesIn(analyses), path, c))
      && (forall c :: (path, c) in r.warnings <==> MemberHas(tree.members, WarningsIn(analyses), path, c))
      && (forall kept :: (path, kept) in r.preserved <==> MemberHas(tree.members, KeptIn(analyses), path, kept))
  {
    hide Analyze, FirstPartyVersions, MemberRows, DescriptorRows, MemberHas, AnalyzeAll, PreservedRanges;
    AnalyzeAllIs(tree.members, FirstPartyVersions(tree.members), analyses);
    var plan := MakePlan(tree, FirstPartyVersions(tree.members)).value;
    MemberRowsAre(tree.members, analyses, path);
    OnlyDescriptorRows(tree.descriptors, plan, Drifts);
  }

  /** The rows stand in the order of the members, and of each member's own tables. */
  lemma {:induction false} MembersInOrder(a: seq<Member>, b: seq<Member>, x: seq<Analysis>, y: seq<Analysis>)
    requires |a| == |x| && |b| == |y|
    ensures MemberRows(a + b, x + y) == Joined(MemberRows(a, x), MemberRows(b, y))
    decreases |b|
  {
    if b == [] {
      assert a + b == a && x + y == x;
    } else {
      hide MemberRows, Joined, Tagged;
      var last := |b| - 1;
      assert (a + b)[..|a + b| - 1] == a + b[..last] && (x + y)[..|a + b| - 1] == x + y[..last];
      assert (a + b)[|a + b| - 1] == b[last] && (x + y)[|a + b| - 1] == y[last];
      MembersInOrder(a, b[..last], x, y[..last]);
      OneMoreMember(a + b, x + y);
      OneMoreMember(b, y);
      JoinedInThree(MemberRows(a, x), MemberRows(b[..last], y[..last]), RowsOf(b[last], y[last]));
    }
  }

  lemma JoinedInThree(a: Report, b: Report, c: Report)
    ensures Joined(Joined(a, b), c) == Joined(a, Joined(b, c))
  {
  }

  /** One member's rows. */
  function RowsOf(member: Member, a: Analysis): Report {
    Report(Tagged(member.path, a.changes), [], Tagged(member.path, a.preserved), Tagged(member.path, a.warnings), [])
  }

  lemma {:induction false} OneMoreMember(members: seq<Member>, analyses: seq<Analysis>)
    requires |members| == |analyses| && members != []
    ensures var last := |members| - 1;
      MemberRows(members, analyses) == Joined(MemberRows(members[..last], analyses[..last]), RowsOf(members[last], analyses[last]))
  {
    hide Tagged;
    var last := |members| - 1;
    OnlyMemberRows(members[..last], analyses[..last]);
  }

  lemma {:induction false} OnlyMemberRows(members: seq<Member>, analyses: seq<Analysis>)
    requires |members| == |analyses|
    ensures MemberRows(members, analyses).contractChanges == [] && MemberRows(members, analyses).untouched == []
    decreases |members|
  {
    if members != [] {
      OnlyMemberRows(members[..|members| - 1], analyses[..|members| - 1]);
    }
  }

  /** And those of the descriptors in theirs. */
  lemma {:induction false} DescriptorsInOrder(a: seq<Descriptor>, b: seq<Descriptor>, plan: Plan, drifted: (seq<Line>, string) -> bool)
    ensures DescriptorRows(a + b, plan, drifted) == Joined(DescriptorRows(a, plan, drifted), DescriptorRows(b, plan, drifted))
    decreases |b|
  {
    hide Target, ValueOrEmpty;
    if b == [] {
      assert a + b == a;
    } else {
      assert (a + b)[..|a + b| - 1] == a + b[..|b| - 1];
      DescriptorsInOrder(a, b[..|b| - 1], plan, drifted);
    }
  }

  /** What a check refuses: a stray pin table first, then a contract package without a version or with one
      no range derives from, then the first member whose analysis fails. */
  lemma CheckRefuses(tree: Tree)
    ensures var versions, r := FirstPartyVersions(tree.members), Check(tree);
      && (tree.strayPinTable ==> r == Failure(StrayPinTable))
      && (!tree.strayPinTable && CONTRACT_PACKAGE !in versions ==> r == Failure(NoContractPackage))
      && (!tree.strayPinTable && CONTRACT_PACKAGE in versions && DeriveRange(versions[CONTRACT_PACKAGE]) == None ==>
            r == Failure(BadVersion(versions[CONTRACT_PACKAGE])))
      && (!tree.strayPinTable && CONTRACT_PACKAGE in versions && DeriveRange(versions[CONTRACT_PACKAGE]).Some? ==>
            (r.Success? <==> forall i :: 0 <= i < |tree.members| ==> Analyze(tree.members[i].py, versions).Success?)
            && forall n :: 0 <= n < |tree.members| && Analyze(tree.members[n].py, versions).Failure?
                           && (forall i :: 0 <= i < n ==> Analyze(tree.members[i].py, versions).Success?) ==>
                 r == Failure(Analyze(tree.members[n].py, versions).error))
  {
    hide Analyze, FirstPartyVersions, MemberRows, DescriptorRows, DeriveRange, PreservedRanges;
    FirstFailureStops(tree.members, FirstPartyVersions(tree.members));
    hide AnalyzeAll;
  }

  lemma {:induction false} FirstFailureStops(members: seq<Member>, versions: Versions)
    ensures AnalyzeAll(members, versions).Success? <==> forall i :: 0 <= i < |members| ==> Analyze(members[i].py, versions).Success?
    ensures forall n :: 0 <= n < |members| && Analyze(members[n].py, versions).Failure?
                        && (forall i :: 0 <= i < n ==> Analyze(members[i].py, versions).Success?) ==>
      AnalyzeAll(members, versions) == Failure(Analyze(members[n].py, versions).error)
    decreases |members|
  {
    hide Analyze;
    if members != [] {
      var before := members[..|members| - 1];
      FirstFailureStops(before, versions);
      assert forall i :: 0 <= i < |before| ==> before[i] == members[i];
    }
  }
}
