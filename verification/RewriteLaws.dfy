/** What a pyproject rewrite achieves: it settles its own analysis, touches nothing else and
    does not depend on the order of its changes. */
module RewriteLaws {
  import opened Outcome
  import opened VersionRanges
  import opened RangeAlgebra
  import opened PyprojectSpecs

  // ---- One requirement -------------------------------------------------------------------

  /** A rewritten requirement names the same dependency and calls for nothing more. */
  lemma RewrittenIsSettled(raw: string, firstParty: Versions, pinned: set<string>)
    requires Judge(raw, firstParty, pinned).Rewrite?
    ensures var c := Judge(raw, firstParty, pinned).change;
      && c.oldReq == raw && FirstPartyKey(c.newReq, firstParty) == FirstPartyKey(raw, firstParty)
      && Judge(c.newReq, firstParty, pinned) == Leave
  {
    hide RangeOf, MajorMinor, PinGuarded, NormalizeName, NameShape, ExtrasShape, MarkerShape, SpecifierShape, ParseRequirement;
    var p, key := ParseRequirement(raw).value, FirstPartyKey(raw, firstParty).value;
    var (major, minor) := MajorMinor(firstParty[key]).value;
    ParsedShape(raw);
    DerivedSpecifierShape(major, minor);
    RebuiltParses(p, RangeOf(major, minor));
  }

  /** What a requirement on the range of one release calls for once another is declared: nothing
      when the ranges are equal; across majors a pinned one is kept and any other rewritten with
      a warning; within a major it is rewritten.  A rewrite keeps name, extras and marker. */
  lemma JudgeOfDerived(raw: string, firstParty: Versions, pinned: set<string>, major1: nat, minor1: nat, major2: nat,
                       minor2: nat)
    requires FirstPartyKey(raw, firstParty).Some? && ParseRequirement(raw).value.specifier == RangeOf(major1, minor1)
    requires IsRelease(firstParty[FirstPartyKey(raw, firstParty).value], major2, minor2)
    ensures var p, key := ParseRequirement(raw).value, FirstPartyKey(raw, firstParty).value;
      match Judge(raw, firstParty, pinned)
      case Leave => major1 == major2 && minor1 == minor2
      case Preserve(kept) => major1 != major2 && key in pinned && kept == Kept(p.name, p.specifier)
      case Rewrite(c, guarded) =>
        && (major1, minor1) != (major2, minor2) && (guarded <==> major1 != major2)
        && (major1 != major2 ==> key !in pinned)
        && c.oldReq == raw && ParseRequirement(c.newReq) == Some(p.(specifier := RangeOf(major2, minor2)))
      case Raise(_) => false
  {
    hide RangeOf, MajorMinor, PinGuarded, NormalizeName, NameShape, ExtrasShape, MarkerShape, SpecifierShape, ParseRequirement,
      IsRelease;
    ParsedShape(raw);
    DerivedSpecifierShape(major1, minor1);
    DerivedSpecifierShape(major2, minor2);
    RebuiltParses(ParseRequirement(raw).value, RangeOf(major2, minor2));
    DeriveOfRelease(firstParty[FirstPartyKey(raw, firstParty).value], major2, minor2);
    RangeDeterminesRelease(major1, minor1, major2, minor2);
    CrossMajorOfDerived(major1, minor1, major2, minor2);
    RangeNotEmpty(major1, minor1);
  }

  lemma RangeNotEmpty(major: nat, minor: nat)
    ensures RangeOf(major, minor) != ""
  {
  }

  // ---- What the analysis collects --------------------------------------------------------

  ghost predicate DistinctOlds(changes: seq<SpecChange>) {
    forall i, j :: 0 <= i < j < |changes| ==> changes[i].oldReq != changes[j].oldReq
  }

  /** `changes` holds exactly what the requirements call for. */
  ghost predicate Collected(raws: seq<string>, changes: seq<SpecChange>, firstParty: Versions, pinned: set<string>) {
    && (forall raw :: raw in raws && Judge(raw, firstParty, pinned).Rewrite? ==>
          Judge(raw, firstParty, pinned).change in changes)
    && (forall c :: c in changes ==>
          c.oldReq in raws && Judge(c.oldReq, firstParty, pinned).Rewrite?
          && Judge(c.oldReq, firstParty, pinned).change == c)
  }

  ghost predicate NoneRaises(raws: seq<string>, firstParty: Versions, pinned: set<string>) {
    forall raw :: raw in raws ==> !Judge(raw, firstParty, pinned).Raise?
  }

  lemma CollectedGrows(before: seq<string>, raw: string, changes: seq<SpecChange>, firstParty: Versions, pinned: set<string>)
    requires Collected(before, changes, firstParty, pinned) && DistinctOlds(changes) && raw !in before
    requires Judge(raw, firstParty, pinned).Rewrite? && Judge(raw, firstParty, pinned).change.oldReq == raw
    ensures var grown := changes + [Judge(raw, firstParty, pinned).change];
      Collected(before + [raw], grown, firstParty, pinned) && DistinctOlds(grown)
  {
    hide Judge;
  }

  lemma CollectedKeeps(before: seq<string>, raw: string, changes: seq<SpecChange>, firstParty: Versions, pinned: set<string>)
    requires Collected(before, changes, firstParty, pinned)
    requires raw in before || !Judge(raw, firstParty, pinned).Rewrite?
    ensures Collected(before + [raw], changes, firstParty, pinned)
  {
    hide Judge;
  }

  ghost predicate Faithful(raws: seq<string>, changes: seq<SpecChange>, firstParty: Versions, pinned: set<string>) {
    NoneRaises(raws, firstParty, pinned) && Collected(raws, changes, firstParty, pinned) && DistinctOlds(changes)
  }

  lemma FaithfulStep(before: seq<string>, raw: string, a: Analysis, firstParty: Versions, pinned: set<string>)
    requires Faithful(before, a.changes, firstParty, pinned)
    ensures var entered := Entered(a, Judge(raw, firstParty, pinned), raw in before);
      entered.Success? ==> Faithful(before + [raw], entered.value.changes, firstParty, pinned)
  {
    hide Judge, FirstPartyKey, Collected, DistinctOlds;
    if Judge(raw, firstParty, pinned).Rewrite? && raw !in before {
      RewrittenIsSettled(raw, firstParty, pinned);
      CollectedGrows(before, raw, a.changes, firstParty, pinned);
    } else {
      CollectedKeeps(before, raw, a.changes, firstParty, pinned);
    }
  }

  /** The changes are exactly the rewrites the requirements call for, each listed once. */
  lemma {:induction false} VerdictsCollect(raws: seq<string>, firstParty: Versions, pinned: set<string>)
    requires Verdicts(raws, firstParty, pinned).Success?
    ensures Faithful(raws, Verdicts(raws, firstParty, pinned).value.changes, firstParty, pinned)
    decreases |raws|
  {
    hide Judge, FirstPartyKey, Entered;
    if raws != [] {
      var raw, before := raws[|raws| - 1], raws[..|raws| - 1];
      VerdictsCollect(before, firstParty, pinned);
      hide Faithful;
      FaithfulStep(before, raw, Verdicts(before, firstParty, pinned).value, firstParty, pinned);
      assert before + [raw] == raws;
    }
  }

  // ---- The rewrite, literal by literal ---------------------------------------------------

  /** New requirement by old one. */
  function ChangeMap(changes: seq<SpecChange>): map<string, string> {
    if changes == [] then map[] else ChangeMap(changes[1..])[changes[0].oldReq := changes[0].newReq]
  }

  lemma {:induction false} ChangeMapLookup(changes: seq<SpecChange>)
    requires DistinctOlds(changes)
    ensures forall c :: c in changes ==> c.oldReq in ChangeMap(changes) && ChangeMap(changes)[c.oldReq] == c.newReq
    ensures forall key :: key in ChangeMap(changes) ==> exists c :: c in changes && c.oldReq == key
    decreases |changes|
  {
    if changes != [] {
      ChangeMapLookup(changes[1..]);
      assert changes == [changes[0]] + changes[1..];
    }
  }

  /** Every literal the changes name in its file's style replaced, every other literal kept. */
  function Replaced(literals: seq<Literal>, news: map<string, string>): (r: seq<Literal>)
    ensures |r| == |literals|
  {
    seq(|literals|, i requires 0 <= i < |literals| =>
      var l := literals[i];
      if l.text in news && l.style == StyleOf(literals, l.text) then l.(text := news[l.text]) else l)
  }

  ghost predicate Applicable(literals: seq<Literal>, changes: seq<SpecChange>) {
    && DistinctOlds(changes)
    && (forall c, d :: c in changes && d in changes ==> c.newReq != d.oldReq)
    && (forall c :: c in changes ==> Occurs(literals, c.oldReq, StyleOf(literals, c.oldReq)))
  }

  /** One replacement leaves every other requirement's occurrences alone. */
  lemma ReplaceKeepsOccurrences(literals: seq<Literal>, was: string, now: string, text: string, style: Style)
    requires text != was && text != now
    ensures Occurs(ReplaceQuoted(literals, was, now), text, style) <==> Occurs(literals, text, style)
  {
    var r := ReplaceQuoted(literals, was, now);
    if Occurs(literals, text, style) {
      var i :| 0 <= i < |literals| && literals[i].text == text && literals[i].style == style;
      assert r[i] == literals[i];
    }
    if Occurs(r, text, style) {
      var i :| 0 <= i < |r| && r[i].text == text && r[i].style == style;
      assert r[i] == literals[i];
    }
  }

  /** Replacing one requirement first changes neither what occurs nor the style of the others. */
  lemma RestStaysApplicable(literals: seq<Literal>, changes: seq<SpecChange>)
    requires changes != [] && Applicable(literals, changes)
    ensures var once := ReplaceQuoted(literals, changes[0].oldReq, changes[0].newReq);
      && Applicable(once, changes[1..])
      && forall d :: d in changes[1..] ==> StyleOf(once, d.oldReq) == StyleOf(literals, d.oldReq)
  {
    var c, rest := changes[0], changes[1..];
    var once := ReplaceQuoted(literals, c.oldReq, c.newReq);
    hide ReplaceQuoted, Occurs;
    forall d | d in rest
      ensures StyleOf(once, d.oldReq) == StyleOf(literals, d.oldReq)
      ensures Occurs(once, d.oldReq, StyleOf(once, d.oldReq))
    {
      assert d in changes && c in changes && d.oldReq != c.oldReq;
      ReplaceKeepsOccurrences(literals, c.oldReq, c.newReq, d.oldReq, DOUBLE);
      ReplaceKeepsOccurrences(literals, c.oldReq, c.newReq, d.oldReq, SINGLE);
    }
  }

  lemma {:induction false} RewriteIsPointwise(literals: seq<Literal>, changes: seq<SpecChange>)
    requires Applicable(literals, changes)
    ensures RewriteText(literals, changes) == Success(Replaced(literals, ChangeMap(changes)))
    decreases |changes|
  {
    hide Occurs, StyleOf;
    if changes == [] {
      assert Replaced(literals, map[]) == literals;
    } else {
      var c, rest := changes[0], changes[1..];
      var once := ReplaceQuoted(literals, c.oldReq, c.newReq);
      RestStaysApplicable(literals, changes);
      RewriteIsPointwise(once, rest);
      ChangeMapLookup(rest);
      forall i | 0 <= i < |literals|
        ensures Replaced(once, ChangeMap(rest))[i] == Replaced(literals, ChangeMap(changes))[i]
      {
        assert c.newReq !in ChangeMap(rest) && c.oldReq !in ChangeMap(rest);
      }
      assert Replaced(once, ChangeMap(rest)) == Replaced(literals, ChangeMap(changes));
    }
  }

  /** The order of the changes does not matter. */
  lemma {:induction false} OrderDoesNotMatter(literals: seq<Literal>, changes: seq<SpecChange>, reordered: seq<SpecChange>)
    requires Applicable(literals, changes) && DistinctOlds(reordered)
    requires forall c :: c in changes <==> c in reordered
    ensures RewriteText(literals, reordered) == RewriteText(literals, changes)
  {
    RewriteIsPointwise(literals, changes);
    RewriteIsPointwise(literals, reordered);
    ChangeMapLookup(changes);
    ChangeMapLookup(reordered);
    assert ChangeMap(changes) == ChangeMap(reordered);
  }

  /** The analysis of a pyproject can always be applied to it. */
  lemma AnalysisApplies(py: Pyproject, firstParty: Versions)
    requires Analyze(py, firstParty).Success?
    ensures Applicable(py.literals, Analyze(py, firstParty).value.changes)
  {
    hide Judge, FirstPartyKey;
    var raws, pinned := Scanned(py.literals), PinnedDeps(py);
    var changes := Analyze(py, firstParty).value.changes;
    VerdictsCollect(raws, firstParty, pinned);
    forall c | c in changes
      ensures Occurs(py.literals, c.oldReq, StyleOf(py.literals, c.oldReq))
      ensures Judge(c.newReq, firstParty, pinned) == Leave
    {
      RewrittenIsSettled(c.oldReq, firstParty, pinned);
      var i :| 0 <= i < |py.literals| && py.literals[i].scanned && py.literals[i].text == c.oldReq;
      assert Occurs(py.literals, c.oldReq, py.literals[i].style);
    }
  }

  // ---- The rewritten file's own analysis -------------------------------------------------

  /** A changed requirement scanned in single quotes while double-quoted copies exist. */
  ghost predicate MixedStyles(literals: seq<Literal>, changes: seq<SpecChange>) {
    exists i :: 0 <= i < |literals| && literals[i].scanned && literals[i].style == SINGLE
                && literals[i].text in ChangeMap(changes) && Occurs(literals, literals[i].text, DOUBLE)
  }

  /** `after` is `before` with some of the entries of `news`, all of them if `fully`, put in. */
  ghost predicate Follows(before: seq<string>, after: seq<string>, news: map<string, string>, fully: bool) {
    && |before| == |after|
    && forall j :: 0 <= j < |before| ==>
         if before[j] !in news then after[j] == before[j]
         else after[j] == news[before[j]] || (!fully && after[j] == before[j])
  }

  lemma {:induction false} ScannedFollows(literals: seq<Literal>, after: seq<Literal>, news: map<string, string>, fully: bool)
    requires |after| == |literals|
    requires forall i :: 0 <= i < |literals| ==> literals[i].scanned == after[i].scanned
    requires forall i :: 0 <= i < |literals| && literals[i].scanned ==>
               if literals[i].text !in news then after[i].text == literals[i].text
               else after[i].text == news[literals[i].text] || (!fully && after[i].text == literals[i].text)
    ensures Follows(Scanned(literals), Scanned(after), news, fully)
    decreases |literals|
  {
    if literals != [] {
      ScannedFollows(literals[..|literals| - 1], after[..|after| - 1], news, fully);
    }
  }

  /** What the new values of a change map have in common. */
  ghost predicate Settles(news: map<string, string>, raws: seq<string>, firstParty: Versions, pinned: set<string>) {
    && (forall raw :: raw in raws ==> (raw in news <==> Judge(raw, firstParty, pinned).Rewrite?))
    && NoneRaises(raws, firstParty, pinned)
    && (forall raw :: raw in news ==> Judge(news[raw], firstParty, pinned) == Leave
                                      && FirstPartyKey(news[raw], firstParty) == FirstPartyKey(raw, firstParty))
  }

  lemma FollowsLast(before: seq<string>, after: seq<string>, news: map<string, string>, fully: bool,
                    firstParty: Versions, pinned: set<string>)
    requires before != [] && Follows(before, after, news, fully) && Settles(news, before, firstParty, pinned)
    ensures after != [] && var n := |before| - 1;
      && Follows(before[..n], after[..n], news, fully) && Settles(news, before[..n], firstParty, pinned)
      && (after[n] == before[n] || Judge(after[n], firstParty, pinned) == Leave)
      && (Judge(before[n], firstParty, pinned).Rewrite? <==> before[n] in news)
      && !Judge(before[n], firstParty, pinned).Raise?
      && (before[n] !in news ==> after[n] == before[n])
      && (fully && before[n] in news ==> Judge(after[n], firstParty, pinned) == Leave)
  {
    hide Judge, FirstPartyKey;
    var n := |before| - 1;
    assert before[n] in before && forall raw :: raw in before[..n] ==> raw in before;
  }

  lemma {:induction false} FollowersAnalyzed(
    before: seq<string>, after: seq<string>, news: map<string, string>, fully: bool, firstParty: Versions, pinned: set<string>)
    requires Follows(before, after, news, fully) && Settles(news, before, firstParty, pinned)
    requires Verdicts(before, firstParty, pinned).Success?
    ensures Verdicts(after, firstParty, pinned).Success?
    ensures var a := Verdicts(after, firstParty, pinned).value;
      && a.preserved == Verdicts(before, firstParty, pinned).value.preserved
      && (fully ==> a.changes == [] && a.warnings == [])
    decreases |before|
  {
    hide Judge, FirstPartyKey;
    if before == [] {
      assert after == [];
    } else {
      var n := |before| - 1;
      FollowsLast(before, after, news, fully, firstParty, pinned);
      FollowersAnalyzed(before[..n], after[..n], news, fully, firstParty, pinned);
      hide Follows, Settles;
      if Judge(before[n], firstParty, pinned).Preserve? {
        KeptStaysSeen(before[..n], after[..n], news, fully, firstParty, pinned, before[n]);
      }
    }
  }

  /** A preserved requirement was seen before exactly when it still is. */
  lemma KeptStaysSeen(before: seq<string>, after: seq<string>, news: map<string, string>, fully: bool,
                      firstParty: Versions, pinned: set<string>, raw: string)
    requires Follows(before, after, news, fully) && Settles(news, before, firstParty, pinned)
    requires Judge(raw, firstParty, pinned).Preserve?
    ensures raw in before <==> raw in after
  {
    hide Judge, FirstPartyKey;
    if raw in before {
      var j :| 0 <= j < |before| && before[j] == raw;
      assert after[j] == raw;
    }
    if raw in after {
      var j :| 0 <= j < |after| && after[j] == raw;
      assert before[j] in before;
      assert before[j] in news ==> Judge(news[before[j]], firstParty, pinned) == Leave;
    }
  }

  lemma SameDeps(before: seq<string>, after: seq<string>, news: map<string, string>, fully: bool,
                 firstParty: Versions, pinned: set<string>)
    requires Follows(before, after, news, fully) && Settles(news, before, firstParty, pinned)
    ensures FirstPartyDeps(before, firstParty) == FirstPartyDeps(after, firstParty)
  {
    hide Judge, FirstPartyKey;
    forall key
      ensures key in FirstPartyDeps(before, firstParty) <==> key in FirstPartyDeps(after, firstParty)
    {
      if key in FirstPartyDeps(before, firstParty) {
        var j :| 0 <= j < |before| && FirstPartyKey(before[j], firstParty) == Some(key);
        assert after[j] in after && FirstPartyKey(after[j], firstParty) == Some(key);
      }
      if key in FirstPartyDeps(after, firstParty) {
        var j :| 0 <= j < |after| && FirstPartyKey(after[j], firstParty) == Some(key);
        assert before[j] in before && FirstPartyKey(before[j], firstParty) == Some(key);
      }
    }
  }

  /** The file `apply` writes for a pyproject. */
  function Synced(py: Pyproject, a: Analysis): Pyproject {
    py.(literals := Replaced(py.literals, ChangeMap(a.changes)))
  }

  /** The change map of an analysis settles every requirement it names. */
  lemma AnalysisSettles(py: Pyproject, firstParty: Versions)
    requires Analyze(py, firstParty).Success?
    ensures Settles(ChangeMap(Analyze(py, firstParty).value.changes), Scanned(py.literals), firstParty, PinnedDeps(py))
  {
    hide Judge, FirstPartyKey;
    var raws, pinned, changes := Scanned(py.literals), PinnedDeps(py), Analyze(py, firstParty).value.changes;
    var news := ChangeMap(changes);
    VerdictsCollect(raws, firstParty, pinned);
    ChangeMapLookup(changes);
    forall raw | raw in news
      ensures Judge(news[raw], firstParty, pinned) == Leave
      ensures FirstPartyKey(news[raw], firstParty) == FirstPartyKey(raw, firstParty)
      ensures Judge(raw, firstParty, pinned).Rewrite?
    {
      var c :| c in changes && c.oldReq == raw;
      RewrittenIsSettled(raw, firstParty, pinned);
    }
    forall raw | raw in raws && Judge(raw, firstParty, pinned).Rewrite?
      ensures raw in news
    {
      RewrittenIsSettled(raw, firstParty, pinned);
    }
  }

  /** A requirement still calling for a rewrite shows up as a change. */
  lemma {:induction false} StaleIsSeen(before: seq<string>, after: seq<string>, news: map<string, string>,
                    firstParty: Versions, pinned: set<string>, raw: string)
    requires Settles(news, before, firstParty, pinned) && Verdicts(after, firstParty, pinned).Success?
    requires raw in before && raw in after && raw in news
    ensures Verdicts(after, firstParty, pinned).value.changes != []
  {
    hide Judge;
    VerdictsCollect(after, firstParty, pinned);
  }

  /** A synced pyproject keeps its preserved pins, and calls for no further rewrite exactly when
      no changed requirement is scanned in the style its file's replacement passed over. */
  lemma SyncedIsClean(py: Pyproject, firstParty: Versions)
    requires Analyze(py, firstParty).Success?
    ensures var a := Analyze(py, firstParty).value; var again := Analyze(Synced(py, a), firstParty);
      && RewriteText(py.literals, a.changes) == Success(Synced(py, a).literals)
      && again.Success? && again.value.preserved == a.preserved
      && (again.value.changes == [] <==> !MixedStyles(py.literals, a.changes))
      && (again.value.changes == [] ==> again.value.warnings == [])
  {
    hide Judge, FirstPartyKey, Verdicts, ChangeMap, Settles, Follows, FirstPartyDeps, RewriteText;
    var a, raws, pinned := Analyze(py, firstParty).value, Scanned(py.literals), PinnedDeps(py);
    AnalysisApplies(py, firstParty);
    RewriteIsPointwise(py.literals, a.changes);
    AnalysisSettles(py, firstParty);
    var news, after := ChangeMap(a.changes), Synced(py, a).literals;
    var fully := !MixedStyles(py.literals, a.changes);
    ScannedFollows(py.literals, after, news, fully);
    FollowersAnalyzed(raws, Scanned(after), news, fully, firstParty, pinned);
    SameDeps(raws, Scanned(after), news, fully, firstParty, pinned);
    if !fully {
      var i :| 0 <= i < |py.literals| && py.literals[i].scanned && py.literals[i].style == SINGLE
               && py.literals[i].text in news && Occurs(py.literals, py.literals[i].text, DOUBLE);
      assert after[i] == py.literals[i];
      StaleIsSeen(raws, Scanned(after), news, firstParty, pinned, after[i].text);
    }
  }

  /** A second pass has nothing left to pass over: whatever a synced pyproject still calls for,
      it holds in one style. */
  lemma SyncedIsUnmixed(py: Pyproject, firstParty: Versions)
    requires Analyze(py, firstParty).Success?
    requires Analyze(Synced(py, Analyze(py, firstParty).value), firstParty).Success?
    ensures var synced := Synced(py, Analyze(py, firstParty).value);
      !MixedStyles(synced.literals, Analyze(synced, firstParty).value.changes)
  {
    hide Judge, FirstPartyKey, Verdicts, Replaced;
    var a := Analyze(py, firstParty).value;
    var synced, pinned, news := Synced(py, a), PinnedDeps(py), ChangeMap(a.changes);
    var again := Analyze(synced, firstParty).value.changes;
    AnalysisSettles(py, firstParty);
    AnalysisSettles(synced, firstParty);
    if MixedStyles(synced.literals, again) {
      var i :| 0 <= i < |synced.literals| && synced.literals[i].scanned && synced.literals[i].style == SINGLE
               && synced.literals[i].text in ChangeMap(again) && Occurs(synced.literals, synced.literals[i].text, DOUBLE);
      var text := synced.literals[i].text;
      assert text in Scanned(synced.literals);
      UnreplacedStays(py.literals, news, i, firstParty, pinned, Scanned(py.literals));
      assert text in Scanned(py.literals);
      var k :| 0 <= k < |synced.literals| && synced.literals[k].text == text && synced.literals[k].style == DOUBLE;
      UnreplacedStays(py.literals, news, k, firstParty, pinned, Scanned(py.literals));
      assert false;
    }
  }

  /** A literal that calls for a rewrite after the sync was there before it, and passed over. */
  lemma UnreplacedStays(literals: seq<Literal>, news: map<string, string>, i: nat,
                        firstParty: Versions, pinned: set<string>, raws: seq<string>)
    requires i < |literals| && Settles(news, raws, firstParty, pinned)
    requires Judge(Replaced(literals, news)[i].text, firstParty, pinned).Rewrite?
    ensures Replaced(literals, news)[i] == literals[i]
    ensures literals[i].text in news ==> literals[i].style != StyleOf(literals, literals[i].text)
  {
    hide Judge, FirstPartyKey;
  }
}
