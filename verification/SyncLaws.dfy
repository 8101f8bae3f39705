/** What `apply` leaves behind: a tree its own check accepts, that a second run does not touch. */
module SyncLaws {
  import opened Outcome
  import opened PyprojectSpecs
  import opened RewriteLaws
  import opened ContractPins
  import opened Sync

  /** Some changed requirement is scanned in single quotes in a file that also holds it in
      double quotes, the one style a pass replaces. */
  ghost predicate Mixed(tree: Tree) {
    exists i :: 0 <= i < |tree.members| && MixedMember(tree.members[i], FirstPartyVersions(tree.members))
  }

  ghost predicate MixedMember(member: Member, firstParty: Versions) {
    && Analyze(member.py, firstParty).Success?
    && MixedStyles(member.py.literals, Analyze(member.py, firstParty).value.changes)
  }

  // ---- Members ---------------------------------------------------------------------------

  function SyncedMember(member: Member, a: Analysis): Member { member.(py := Synced(member.py, a)) }

  function SyncedMembers(members: seq<Member>, analyses: seq<Analysis>): (r: seq<Member>)
    requires |members| == |analyses|
    ensures |r| == |members|
  {
    seq(|members|, i requires 0 <= i < |members| => SyncedMember(members[i], analyses[i]))
  }

  lemma {:induction false} RewritesSync(members: seq<Member>, analyses: seq<Analysis>, firstParty: Versions)
    requires |analyses| == |members|
    requires forall i :: 0 <= i < |members| ==> Analyze(members[i].py, firstParty) == Success(analyses[i])
    ensures RewriteMembers(members, analyses) == Success(SyncedMembers(members, analyses))
    decreases |members|
  {
    hide Analyze, RewriteText, Replaced, MixedStyles, ChangeMap;
    if members != [] {
      var last := |members| - 1;
      RewritesSync(members[..last], analyses[..last], firstParty);
      SyncedIsClean(members[last].py, firstParty);
      assert SyncedMembers(members, analyses)
          == SyncedMembers(members[..last], analyses[..last]) + [SyncedMember(members[last], analyses[last])];
    }
  }

  lemma {:induction false} SyncKeepsVersions(members: seq<Member>, analyses: seq<Analysis>)
    requires |analyses| == |members|
    ensures FirstPartyVersions(SyncedMembers(members, analyses)) == FirstPartyVersions(members)
    decreases |members|
  {
    hide NormalizeName, Replaced, ChangeMap;
    if members != [] {
      var last := |members| - 1;
      SyncKeepsVersions(members[..last], analyses[..last]);
      assert SyncedMembers(members, analyses)[..last] == SyncedMembers(members[..last], analyses[..last]);
    }
  }

  lemma {:induction false} MembersRewritten(members: seq<Member>, analyses: seq<Analysis>, firstParty: Versions)
    requires |analyses| == |members|
    requires forall i :: 0 <= i < |members| ==> Analyze(members[i].py, firstParty) == Success(analyses[i])
    ensures var r := RewriteMembers(members, analyses);
      && r.Success?
      && (forall i :: 0 <= i < |members| ==> r.value[i] == SyncedMember(members[i], analyses[i]))
      && FirstPartyVersions(r.value) == FirstPartyVersions(members)
  {
    hide RewriteMembers, FirstPartyVersions, SyncedMember;
    RewritesSync(members, analyses, firstParty);
    SyncKeepsVersions(members, analyses);
  }

  lemma {:induction false} AnalyzeAllIs(members: seq<Member>, firstParty: Versions, analyses: seq<Analysis>)
    requires |members| == |analyses|
    requires forall i :: 0 <= i < |members| ==> Analyze(members[i].py, firstParty) == Success(analyses[i])
    ensures AnalyzeAll(members, firstParty) == Success(analyses)
    decreases |members|
  {
    hide Analyze;
    if members != [] {
      var last := |members| - 1;
      AnalyzeAllIs(members[..last], firstParty, analyses[..last]);
      assert analyses == analyses[..last] + [analyses[last]];
    }
  }

  ghost predicate SamePreserved(a: seq<Analysis>, b: seq<Analysis>) {
    |a| == |b| && forall i :: 0 <= i < |a| ==> a[i].preserved == b[i].preserved
  }

  ghost predicate SamePaths(a: seq<Member>, b: seq<Member>) {
    |a| == |b| && forall i :: 0 <= i < |a| ==> a[i].path == b[i].path
  }

  lemma {:induction false} PreservedRangesSame(members: seq<Member>, analyses: seq<Analysis>,
                                               members2: seq<Member>, analyses2: seq<Analysis>)
    requires |members| == |analyses| && SamePaths(members, members2) && SamePreserved(analyses, analyses2)
    ensures PreservedRanges(members, analyses) == PreservedRanges(members2, analyses2)
    ensures MemberRows(members, analyses).preserved == MemberRows(members2, analyses2).preserved
    decreases |members|
  {
    if members != [] {
      var last := |members| - 1;
      PreservedRangesSame(members[..last], analyses[..last], members2[..last], analyses2[..last]);
      assert Tagged(members[last].path, analyses[last].preserved) == Tagged(members2[last].path, analyses2[last].preserved);
    }
  }

  lemma {:induction false} NoChangesNoRows(members: seq<Member>, analyses: seq<Analysis>)
    requires |members| == |analyses|
    ensures MemberRows(members, analyses).specChanges == [] <==>
      forall i :: 0 <= i < |analyses| ==> analyses[i].changes == []
    ensures MemberRows(members, analyses).contractChanges == [] && MemberRows(members, analyses).untouched == []
    decreases |members|
  {
    if members != [] {
      var last := |members| - 1;
      NoChangesNoRows(members[..last], analyses[..last]);
      assert forall i :: 0 <= i < last ==> analyses[..last][i] == analyses[i];
      if analyses[last].changes != [] {
        assert |MemberRows(members, analyses).specChanges| > 0;
      }
    }
  }

  // ---- Descriptors -----------------------------------------------------------------------

  /** Two plans that put the same target on every descriptor. */
  ghost predicate SameTargets(a: Plan, b: Plan) { a.contractRange == b.contractRange && a.preserved == b.preserved }

  /** A rewritten descriptor is not rewritten again. */
  lemma RewrittenStays(descriptors: seq<Descriptor>, plan: Plan, again: Plan)
    requires SameTargets(plan, again)
    ensures RewriteDescriptors(RewriteDescriptors(descriptors, plan), again) == RewriteDescriptors(descriptors, plan)
  {
    hide RewriteContract;
    var out := RewriteDescriptors(descriptors, plan);
    forall i | 0 <= i < |out|
      ensures RewriteDescriptor(out[i], again) == out[i]
    {
      if Target(descriptors[i], plan).Some? {
        RewriteSettles(descriptors[i].lines, Target(descriptors[i], plan).value);
      }
    }
  }

  /** Descriptors report changes and what is left alone, and nothing else. */
  lemma {:induction false} OnlyDescriptorRows(descriptors: seq<Descriptor>, plan: Plan, drifted: (seq<Line>, string) -> bool)
    ensures var r := DescriptorRows(descriptors, plan, drifted); r.specChanges == [] && r.preserved == [] && r.warnings == []
    decreases |descriptors|
  {
    if descriptors != [] {
      OnlyDescriptorRows(descriptors[..|descriptors| - 1], plan, drifted);
    }
  }

  lemma SettledOne(d: Descriptor, plan: Plan, again: Plan)
    requires SameTargets(plan, again) && Target(d, plan).Some?
    ensures var now := RewriteDescriptor(d, plan); var target := Target(d, plan).value;
      Target(now, again) == Some(target) && !Drifts(now.lines, target) && !AnyStale(now.lines, target)
  {
    hide RewriteContract, AnyStale, Drifts;
    RewriteSettles(d.lines, Target(d, plan).value);
    CheckSeesRewrites(d.lines, Target(d, plan).value);
  }

  lemma {:induction false} NoneDrifts(descriptors: seq<Descriptor>, plan: Plan, again: Plan)
    requires SameTargets(plan, again)
    ensures var out := RewriteDescriptors(descriptors, plan);
      && DescriptorRows(out, again, Drifts).contractChanges == []
      && DescriptorRows(out, again, AnyStale).contractChanges == []
      && DescriptorRows(out, again, Drifts).untouched == DescriptorRows(descriptors, plan, AnyStale).untouched
    decreases |descriptors|
  {
    hide ContractValue, RewriteContract, AnyStale, Drifts, ValueOrEmpty;
    if descriptors != [] {
      var out, last := RewriteDescriptors(descriptors, plan), |descriptors| - 1;
      NoneDrifts(descriptors[..last], plan, again);
      assert out[..last] == RewriteDescriptors(descriptors[..last], plan);
      assert out[last] == RewriteDescriptor(descriptors[last], plan);
      if Target(descriptors[last], plan).Some? {
        SettledOne(descriptors[last], plan, again);
      }
      hide RewriteDescriptors;
    }
  }

  /** Rewritten descriptors neither drift nor hold a stale pin, and the ones left alone stay so. */
  lemma {:induction false} DescriptorsSettled(descriptors: seq<Descriptor>, plan: Plan, again: Plan)
    requires SameTargets(plan, again)
    ensures var out := RewriteDescriptors(descriptors, plan);
      && DescriptorRows(out, again, Drifts).contractChanges == []
      && DescriptorRows(out, again, AnyStale).contractChanges == []
      && DescriptorRows(out, again, Drifts).untouched == DescriptorRows(descriptors, plan, AnyStale).untouched
      && DescriptorRows(descriptors, plan, AnyStale).specChanges == []
      && DescriptorRows(descriptors, plan, AnyStale).preserved == []
      && DescriptorRows(out, again, Drifts).specChanges == [] && DescriptorRows(out, again, Drifts).preserved == []
      && DescriptorRows(out, again, AnyStale).specChanges == []
      && RewriteDescriptors(out, again) == out
  {
    hide DescriptorRows, RewriteDescriptors;
    var out := RewriteDescriptors(descriptors, plan);
    RewrittenStays(descriptors, plan, again);
    NoneDrifts(descriptors, plan, again);
    OnlyDescriptorRows(descriptors, plan, AnyStale);
    OnlyDescriptorRows(out, again, Drifts);
    OnlyDescriptorRows(out, again, AnyStale);
  }

  // ---- The whole tree --------------------------------------------------------------------

  /** `apply` refuses exactly the trees `check` refuses, for the same reason. */
  lemma ApplyRefusesWhatCheckRefuses(tree: Tree)
    ensures Applied(tree).Failure? <==> Check(tree).Failure?
    ensures Applied(tree).Failure? ==> Applied(tree).error == Check(tree).error
  {
    hide AnalyzeAll, RewriteMembers, FirstPartyVersions, RewriteDescriptors, MemberRows, DescriptorRows;
    var firstParty := FirstPartyVersions(tree.members);
    var plan := MakePlan(tree, firstParty);
    if plan.Success? {
      MembersRewritten(tree.members, plan.value.analyses, firstParty);
    }
  }

  /** The plan over the written tree puts every surface where the first plan put it. */
  lemma Replanned(tree: Tree)
    requires Applied(tree).Success?
    ensures var firstParty := FirstPartyVersions(tree.members);
      var written, plan := Applied(tree).value.0, MakePlan(tree, firstParty).value;
      var again := MakePlan(written, FirstPartyVersions(written.members));
      && FirstPartyVersions(written.members) == firstParty
      && again.Success? && SameTargets(plan, again.value) && SamePreserved(plan.analyses, again.value.analyses)
      && SamePaths(tree.members, written.members)
      && (forall i :: 0 <= i < |tree.members| ==>
            && written.members[i].py == Synced(tree.members[i].py, plan.analyses[i])
            && Analyze(tree.members[i].py, firstParty) == Success(plan.analyses[i])
            && Analyze(written.members[i].py, firstParty) == Success(again.value.analyses[i]))
  {
    hide Analyze, RewriteMembers, RewriteDescriptors, MemberRows, DescriptorRows, Replaced, MixedStyles,
      FirstPartyVersions, PreservedRanges, AnalyzeAll;
    var firstParty := FirstPartyVersions(tree.members);
    var plan := MakePlan(tree, firstParty).value;
    MembersRewritten(tree.members, plan.analyses, firstParty);
    var written := Applied(tree).value.0;
    forall i | 0 <= i < |tree.members|
      ensures Analyze(written.members[i].py, firstParty).Success?
      ensures Analyze(written.members[i].py, firstParty).value.preserved == plan.analyses[i].preserved
    {
      SyncedIsClean(tree.members[i].py, firstParty);
    }
    var again := seq(|tree.members|, i requires 0 <= i < |tree.members| => Analyze(written.members[i].py, firstParty).value);
    AnalyzeAllIs(written.members, firstParty, again);
    PreservedRangesSame(tree.members, plan.analyses, written.members, again);
  }

  /** The check after an apply keeps every preserved pin and every descriptor left alone, finds
      no descriptor out of sync, and finds a requirement out of sync exactly when the tree
      mixed its quote styles: otherwise the self-assert cannot fire. */
  lemma ApplyThenCheck(tree: Tree)
    requires Applied(tree).Success?
    ensures var (written, report) := Applied(tree).value; var drift := Check(written);
      && drift.Success? && drift.value.contractChanges == []
      && drift.value.preserved == report.preserved && drift.value.untouched == report.untouched
      && (drift.value.Dirty() <==> Mixed(tree))
  {
    hide Analyze, RewriteMembers, RewriteDescriptors, MemberRows, DescriptorRows, FirstPartyVersions, PreservedRanges,
      AnalyzeAll, MixedStyles, MixedMember, SamePaths, SamePreserved, SameTargets, Synced;
    var firstParty := FirstPartyVersions(tree.members);
    var written, plan := Applied(tree).value.0, MakePlan(tree, firstParty).value;
    Replanned(tree);
    var again := MakePlan(written, firstParty).value;
    PreservedRangesSame(tree.members, plan.analyses, written.members, again.analyses);
    DescriptorsSettled(tree.descriptors, plan, again);
    NoChangesNoRows(written.members, again.analyses);
    NoChangesNoRows(tree.members, plan.analyses);
    ChangesSurviveMixing(tree);
    JoinedRows(MemberRows(tree.members, plan.analyses), DescriptorRows(tree.descriptors, plan, AnyStale));
    JoinedRows(MemberRows(written.members, again.analyses), DescriptorRows(written.descriptors, again, Drifts));
    hide Joined;
  }

  lemma JoinedRows(m: Report, d: Report)
    requires m.contractChanges == [] && m.untouched == [] && d.specChanges == [] && d.preserved == []
    ensures var r := Joined(m, d);
      && r.specChanges == m.specChanges && r.contractChanges == d.contractChanges
      && r.preserved == m.preserved && r.untouched == d.untouched
  {
  }

  lemma ChangesSurviveMixing(tree: Tree)
    requires Applied(tree).Success?
    ensures var written := Applied(tree).value.0;
      var again := MakePlan(written, FirstPartyVersions(written.members));
      again.Success? && (Mixed(tree) <==> exists i :: 0 <= i < |again.value.analyses| && again.value.analyses[i].changes != [])
  {
    hide Analyze, RewriteMembers, RewriteDescriptors, FirstPartyVersions, MixedStyles, SamePaths, SamePreserved, SameTargets, MakePlan;
    var firstParty := FirstPartyVersions(tree.members);
    Replanned(tree);
    forall i | 0 <= i < |tree.members|
      ensures Analyze(Applied(tree).value.0.members[i].py, firstParty).value.changes == [] <==>
        !MixedMember(tree.members[i], firstParty)
    {
      SyncedIsClean(tree.members[i].py, firstParty);
    }
  }

  /** A second apply writes nothing when the first one's check was clean. */
  lemma ApplyTwice(tree: Tree)
    requires Applied(tree).Success? && !Mixed(tree)
    ensures var written := Applied(tree).value.0;
      Applied(written).Success? && Applied(written).value.0 == written && !Applied(written).value.1.Dirty()
  {
    hide Analyze, RewriteMembers, RewriteDescriptors, MemberRows, DescriptorRows, FirstPartyVersions, PreservedRanges,
      AnalyzeAll, MixedStyles, Replaced;
    var firstParty := FirstPartyVersions(tree.members);
    var written, plan := Applied(tree).value.0, MakePlan(tree, firstParty).value;
    Replanned(tree);
    var again := MakePlan(written, firstParty).value;
    DescriptorsSettled(tree.descriptors, plan, again);
    NoChangesNoRows(written.members, again.analyses);
    MembersRewritten(written.members, again.analyses, firstParty);
    forall i | 0 <= i < |tree.members|
      ensures again.analyses[i].changes == []
      ensures Synced(written.members[i].py, again.analyses[i]) == written.members[i].py
    {
      assert !MixedMember(tree.members[i], firstParty);
      SyncedIsClean(tree.members[i].py, firstParty);
      NothingApplied(written.members[i].py.literals);
    }
    assert RewriteMembers(written.members, again.analyses).value == written.members;
  }

  lemma NothingApplied(literals: seq<Literal>)
    ensures Replaced(literals, map[]) == literals
  {
  }

  /** Even where the self-assert fires, the next apply settles the tree. */
  lemma SecondApplySettles(tree: Tree)
    requires Applied(tree).Success?
    ensures var written := Applied(tree).value.0;
      && Applied(written).Success? && !Mixed(written)
      && Check(Applied(written).value.0).Success? && !Check(Applied(written).value.0).value.Dirty()
  {
    hide Analyze, RewriteMembers, RewriteDescriptors, MemberRows, DescriptorRows, FirstPartyVersions, PreservedRanges,
      AnalyzeAll, MixedStyles, Replaced;
    var firstParty := FirstPartyVersions(tree.members);
    var written := Applied(tree).value.0;
    Replanned(tree);
    ApplyRefusesWhatCheckRefuses(written);
    forall i | 0 <= i < |written.members|
      ensures !MixedMember(written.members[i], firstParty)
    {
      SyncedIsUnmixed(tree.members[i].py, firstParty);
    }
    ApplyThenCheck(written);
  }

  /** What an apply leaves alone: every name, version and pin list, every literal that is not
      the old text of one of its file's changes, every line without a stale pin. */
  lemma ApplyTouchesNothingElse(tree: Tree)
    requires Applied(tree).Success?
    ensures var written := Applied(tree).value.0; var plan := MakePlan(tree, FirstPartyVersions(tree.members)).value;
      && written.components == tree.components && written.units == tree.units
      && |written.members| == |tree.members| && |written.descriptors| == |tree.descriptors|
      && (forall i :: 0 <= i < |tree.members| ==>
            var was, now := tree.members[i], written.members[i];
            && now == was.(py := was.py.(literals := now.py.literals)) && |now.py.literals| == |was.py.literals|
            && forall k :: 0 <= k < |was.py.literals|
                           && (forall c :: c in plan.analyses[i].changes ==> c.oldReq != was.py.literals[k].text) ==>
                 now.py.literals[k] == was.py.literals[k])
      && (forall i :: 0 <= i < |tree.descriptors| ==>
            var was, now := tree.descriptors[i], written.descriptors[i];
            && now == was.(lines := now.lines) && |now.lines| == |was.lines|
            && forall k :: 0 <= k < |was.lines| && !HasPin(was.lines[k]) ==> now.lines[k] == was.lines[k])
  {
    hide Analyze, MemberRows, DescriptorRows, FirstPartyVersions, PreservedRanges, AnalyzeAll, MixedStyles, ContractPin, Synced,
      RewriteDescriptor, HasPin;
    var firstParty := FirstPartyVersions(tree.members);
    var plan := MakePlan(tree, firstParty).value;
    MembersRewritten(tree.members, plan.analyses, firstParty);
    forall i | 0 <= i < |tree.members|
      ensures LiteralsKept(tree.members[i].py, Synced(tree.members[i].py, plan.analyses[i]), plan.analyses[i])
    {
      SyncKeepsLiterals(tree.members[i].py, firstParty);
    }
    forall i | 0 <= i < |tree.descriptors|
      ensures LinesKept(tree.descriptors[i], RewriteDescriptor(tree.descriptors[i], plan))
    {
      RewriteKeepsLines(tree.descriptors[i], plan);
    }
  }

  /** Only literals that a change names may differ. */
  ghost predicate LiteralsKept(was: Pyproject, now: Pyproject, a: Analysis) {
    && now == was.(literals := now.literals) && |now.literals| == |was.literals|
    && forall k :: 0 <= k < |was.literals| && (forall c :: c in a.changes ==> c.oldReq != was.literals[k].text) ==>
         now.literals[k] == was.literals[k]
  }

  lemma SyncKeepsLiterals(py: Pyproject, firstParty: Versions)
    requires Analyze(py, firstParty).Success?
    ensures var a := Analyze(py, firstParty).value; LiteralsKept(py, Synced(py, a), a)
  {
    var a := Analyze(py, firstParty).value;
    AnalysisApplies(py, firstParty);
    ChangeMapLookup(a.changes);
    hide Analyze;
  }

  /** Only lines with a pin may differ. */
  predicate LinesKept(was: Descriptor, now: Descriptor) {
    && now == was.(lines := now.lines) && |now.lines| == |was.lines|
    && forall k :: 0 <= k < |was.lines| && !HasPin(was.lines[k]) ==> now.lines[k] == was.lines[k]
  }

  lemma RewriteKeepsLines(d: Descriptor, plan: Plan)
    ensures LinesKept(d, RewriteDescriptor(d, plan))
  {
    hide ContractPin;
  }
}
