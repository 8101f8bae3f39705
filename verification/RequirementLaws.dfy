/** What becomes of one requirement as it is written, whatever its specifier, and what an analysis
    collects from all of a pyproject's. */
module RequirementLaws {
  import opened Outcome
  import opened Text
  import opened VersionRanges
  import opened RangeAlgebra
  import opened PyprojectSpecs

  // ---- Names -----------------------------------------------------------------------------

  predicate NotSeparator(c: char) { !Separator(c) }

  /** `r` is `w` in lower case. */
  ghost predicate InLowerCase(w: string, r: string) {
    |r| == |w| && forall i :: 0 <= i < |w| ==> r[i] as int == if 'A' <= w[i] <= 'Z' then w[i] as int + 32 else w[i] as int
  }

  /** A word without separators is put in lower case. */
  lemma {:induction false} WordsAreLowered(w: string)
    requires forall i :: 0 <= i < |w| ==> NotSeparator(w[i])
    ensures InLowerCase(w, LowerCollapsed(w))
    decreases |w|
  {
    if w != "" {
      WordsAreLowered(w[1..]);
    }
  }

  /** A run of separators between two texts that do not touch it becomes one dash. */
  lemma {:induction false} RunsCollapse(a: string, run: string, b: string)
    requires run != "" && (forall i :: 0 <= i < |run| ==> Separator(run[i]))
    requires (a != "" ==> NotSeparator(a[|a| - 1])) && (b != "" ==> NotSeparator(b[0]))
    ensures LowerCollapsed(a + run + b) == LowerCollapsed(a) + "-" + LowerCollapsed(b)
    decreases |a|, |run|
  {
    var s := a + run + b;
    if a == "" {
      assert s == run + b;
      if |run| > 1 {
        assert s[1..] == "" + run[1..] + b;
        RunsCollapse("", run[1..], b);
      } else {
        assert s[1..] == b && s[0] == run[0];
        assert |s| > 1 ==> s[1] == b[0];
      }
    } else {
      var rest := a[1..];
      assert s[1..] == rest + run + b && s[0] == a[0];
      if Separator(a[0]) {
        assert |a| > 1 && s[1] == a[1];
      }
      RunsCollapse(rest, run, b);
      assert a[1..] == rest;
      RestCollapses(a, LowerCollapsed(rest), b);
    }
  }

  /** The text around a run collapses as it would alone. */
  lemma {:induction false} RestCollapses(a: string, rest: string, b: string)
    requires a != "" && rest == LowerCollapsed(a[1..])
    ensures !Separator(a[0]) ==> LowerCollapsed(a) + "-" + LowerCollapsed(b) == [LowerChar(a[0])] + (rest + "-" + LowerCollapsed(b))
    ensures Separator(a[0]) && |a| > 1 && Separator(a[1]) ==> LowerCollapsed(a) == rest
    ensures Separator(a[0]) && |a| > 1 && !Separator(a[1]) ==>
      LowerCollapsed(a) + "-" + LowerCollapsed(b) == "-" + (rest + "-" + LowerCollapsed(b))
  {
    Regrouped([LowerChar(a[0])], rest, "-", LowerCollapsed(b));
    Regrouped("-", rest, "-", LowerCollapsed(b));
    assert !Separator(a[0]) ==> LowerCollapsed(a) == [LowerChar(a[0])] + rest;
    assert Separator(a[0]) && |a| > 1 && !Separator(a[1]) ==> LowerCollapsed(a) == "-" + rest;
    hide LowerCollapsed, LowerChar, Separator;
  }

  lemma Regrouped(a: string, b: string, c: string, d: string)
    ensures a + b + c + d == a + (b + c + d)
  {
  }

  // ---- Requirements with white space -----------------------------------------------------

  predicate Blank(s: string) { forall i :: 0 <= i < |s| ==> Space(s[i]) }

  lemma AtChars(s: string, i: nat, part: string)
    requires At(s, i, part)
    ensures forall k :: i <= k < i + |part| ==> s[k] == part[k - i]
  {
    assert forall k :: i <= k < i + |part| ==> s[k] == s[i..i + |part|][k - i];
  }

  lemma {:induction false} NameFound(raw: string, start: nat, end: nat)
    requires start < end < |raw| && Alnum(raw[start]) && Alnum(raw[end - 1]) && !NameChar(raw[end])
    requires forall k :: start <= k < end ==> NameChar(raw[k])
    ensures NameEnd(raw, start) == end
  {
    hide Alnum, NameChar;
    SkipWhileIs(raw, start, NameChar, end);
    assert raw[..end][end - 1] == raw[end - 1] && !NotAlnum(raw[end - 1]);
  }

  /** The extras where they stand, behind white space or none, and where the specifier starts. */
  lemma {:induction false} ExtrasFound(raw: string, nameEnd: nat, at: nat, spec: nat, extras: string)
    requires nameEnd <= at && at + |extras| <= spec < |raw| && ExtrasShape(extras) && At(raw, at, extras)
    requires (forall k :: nameEnd <= k < at ==> Space(raw[k])) && (forall k :: at + |extras| <= k < spec ==> Space(raw[k]))
    requires !Space(raw[spec]) && raw[spec] != '[' && !Space('[')
    ensures var x := SkipWhile(raw, nameEnd, Space);
      raw[x..ExtrasEnd(raw, x)] == extras && SkipWhile(raw, ExtrasEnd(raw, x), Space) == spec
  {
    hide Space;
    if extras == "" {
      SkipWhileIs(raw, nameEnd, Space, spec);
      ExtrasEndAfter(raw, spec, extras);
      SkipWhileIs(raw, spec, Space, spec);
    } else {
      AtChars(raw, at, extras);
      SkipWhileIs(raw, nameEnd, Space, at);
      ExtrasEndAfter(raw, at, extras);
      SkipWhileIs(raw, at + |extras|, Space, spec);
    }
  }

  lemma {:induction false} TrailingDropped(spec: string, blank: string)
    requires spec != "" && !Space(spec[0]) && !Space(spec[|spec| - 1]) && Blank(blank)
    ensures Strip(spec + blank) == spec
    decreases |blank|
  {
    hide Space;
    var s := spec + blank;
    SkipWhileIs(s, 0, Space, 0);
    if blank == "" {
      assert s == spec;
    } else {
      var less := blank[..|blank| - 1];
      assert s[..|s| - 1] == spec + less && Space(s[|s| - 1]);
      SkipWhileIs(spec + less, 0, Space, 0);
      TrailingDropped(spec, less);
    }
  }

  lemma RestSplits(spec: string, blank: string, marker: string)
    requires SpecifierShape(spec) && MarkerShape(marker) && Blank(blank)
    ensures SplitMarker(spec + blank + marker) == (spec, marker)
  {
    var rest, n := spec + blank + marker, |spec| + |blank|;
    SemicolonIsNoSpace();
    SkipWhileIs(rest, 0, NotSemicolon, n);
    assert rest[..n] == spec + blank && rest[n..] == marker;
    TrailingDropped(spec, blank);
    hide Space;
  }

  lemma SemicolonIsNoSpace()
    ensures !Space(';') && !Space('[')
  {
  }

  lemma SpaceIsNoName(c: char)
    requires Space(c)
    ensures !NameChar(c)
  {
  }

  /** A requirement as people write it: white space before it, around the extras and behind the
      specifier is dropped, and the parts are what is left. */
  lemma SpacedParses(p: Requirement, w0: string, w1: string, w2: string, w3: string)
    requires NameShape(p.name) && ExtrasShape(p.extras) && MarkerShape(p.marker) && SpecifierShape(p.specifier)
    requires Blank(w0) && Blank(w1) && Blank(w2) && Blank(w3)
    ensures ParseRequirement(w0 + p.name + w1 + p.extras + w2 + p.specifier + w3 + p.marker) == Some(p)
  {
    assert p.specifier != "";
    hide *;
    PiecesOf(w0, p.name, w1, p.extras, w2, p.specifier, w3, p.marker);
    PiecesParse(w0 + p.name + w1 + p.extras + w2 + p.specifier + w3 + p.marker, p, w0, w1, w2, w3);
  }

  /** Where the parts stand, one behind the other. */
  ghost predicate Pieces(raw: string, w0: string, name: string, w1: string, extras: string, w2: string, spec: string, w3: string,
                         marker: string)
  {
    var b := |w0| + |name|; var c := b + |w1|; var d := c + |extras|; var e := d + |w2|;
    && At(raw, 0, w0) && At(raw, |w0|, name) && At(raw, b, w1) && At(raw, c, extras) && At(raw, d, w2)
    && e < |raw| && raw[|w0|..b] == name && raw[e..] == spec + w3 + marker && spec != "" && raw[e] == spec[0]
  }

  lemma PiecesStand(raw: string, w0: string, name: string, w1: string, extras: string, w2: string, spec: string, w3: string,
                    marker: string)
    requires Pieces(raw, w0, name, w1, extras, w2, spec, w3, marker)
    ensures spec != "" && var b := |w0| + |name|; var c := b + |w1|; var d := c + |extras|; var e := d + |w2|;
      && At(raw, 0, w0) && At(raw, |w0|, name) && At(raw, b, w1) && At(raw, c, extras) && At(raw, d, w2)
      && e < |raw| && raw[|w0|..b] == name && raw[e..] == spec + w3 + marker && raw[e] == spec[0]
  {
  }

  lemma PiecesParse(raw: string, p: Requirement, w0: string, w1: string, w2: string, w3: string)
    requires NameShape(p.name) && ExtrasShape(p.extras) && MarkerShape(p.marker) && SpecifierShape(p.specifier)
    requires Blank(w0) && Blank(w1) && Blank(w2) && Blank(w3)
    requires Pieces(raw, w0, p.name, w1, p.extras, w2, p.specifier, w3, p.marker)
    ensures ParseRequirement(raw) == Some(p)
  {
    hide *;
    var start := |w0|;
    var nameEnd := start + |p.name|;
    var spec := nameEnd + |w1| + |p.extras| + |w2|;
    PiecesStand(raw, w0, p.name, w1, p.extras, w2, p.specifier, w3, p.marker);
    SpacedChars(raw, p, w0, w1, w2, spec);
    SkipWhileIs(raw, 0, Space, start);
    NameFound(raw, start, nameEnd);
    ExtrasFound(raw, nameEnd, nameEnd + |w1|, spec, p.extras);
    RestSplits(p.specifier, w3, p.marker);
    ParsedInto(raw, start, nameEnd, spec, p);
  }

  /** The parser's cuts, one after the other. */
  lemma {:induction false} ParsedInto(raw: string, start: nat, nameEnd: nat, spec: nat, p: Requirement)
    requires start < nameEnd <= spec < |raw| && SkipWhile(raw, 0, Space) == start && Alnum(raw[start])
    requires NameEnd(raw, start) == nameEnd && raw[start..nameEnd] == p.name
    requires var x := SkipWhile(raw, nameEnd, Space);
      raw[x..ExtrasEnd(raw, x)] == p.extras && SkipWhile(raw, ExtrasEnd(raw, x), Space) == spec
    requires SplitMarker(raw[spec..]) == (p.specifier, p.marker)
    ensures ParseRequirement(raw) == Some(p)
  {
    hide NameEnd, ExtrasEnd, SplitMarker, Alnum, SkipWhile;
  }

  lemma SpacedChars(raw: string, p: Requirement, w0: string, w1: string, w2: string, spec: nat)
    requires NameShape(p.name) && ExtrasShape(p.extras) && SpecifierShape(p.specifier) && Blank(w0) && Blank(w1) && Blank(w2)
    requires var nameEnd := |w0| + |p.name|;
      && spec == nameEnd + |w1| + |p.extras| + |w2| && spec < |raw| && raw[spec] == p.specifier[0]
      && At(raw, 0, w0) && At(raw, |w0|, p.name) && At(raw, nameEnd, w1) && At(raw, nameEnd + |w1|, p.extras)
      && At(raw, nameEnd + |w1| + |p.extras|, w2)
    ensures var start, nameEnd := |w0|, |w0| + |p.name|; var at := nameEnd + |w1|;
      && (forall k :: 0 <= k < start ==> Space(raw[k])) && start < nameEnd < |raw| && !Space(raw[start])
      && Alnum(raw[start]) && Alnum(raw[nameEnd - 1]) && !NameChar(raw[nameEnd])
      && (forall k :: start <= k < nameEnd ==> NameChar(raw[k]))
      && (forall k :: nameEnd <= k < at ==> Space(raw[k])) && (forall k :: at + |p.extras| <= k < spec ==> Space(raw[k]))
      && !Space(raw[spec]) && raw[spec] != '[' && !Space('[')
  {
    var nameEnd := |w0| + |p.name|;
    HeadIsPlain(p, p.specifier);
    SemicolonIsNoSpace();
    AtChars(raw, 0, w0);
    AtChars(raw, |w0|, p.name);
    AtChars(raw, nameEnd, w1);
    AtChars(raw, nameEnd + |w1|, p.extras);
    AtChars(raw, nameEnd + |w1| + |p.extras|, w2);
    if Space(raw[nameEnd]) {
      SpaceIsNoName(raw[nameEnd]);
    }
    hide Alnum, NameChar, Space, At;
  }

  lemma PiecesOf(w0: string, name: string, w1: string, extras: string, w2: string, spec: string, w3: string, marker: string)
    requires spec != ""
    ensures Pieces(w0 + name + w1 + extras + w2 + spec + w3 + marker, w0, name, w1, extras, w2, spec, w3, marker)
  {
    var raw := w0 + name + w1 + extras + w2 + spec + w3 + marker;
    assert raw == w0 + (name + (w1 + (extras + (w2 + (spec + w3 + marker)))));
  }

  // ---- What one requirement calls for ----------------------------------------------------

  /** What is no first-party requirement, or names no version, is left alone; a first-party version no
      range derives from raises; and under a release every requirement on another specifier than its
      range is rewritten to it, name, extras and marker kept, but for a pinned one whose rewrite would
      cross a major or whose majors nobody can read, which is kept. */
  lemma JudgeOfRelease(raw: string, firstParty: Versions, pinned: set<string>, major: nat, minor: nat)
    requires FirstPartyKey(raw, firstParty).Some? && IsRelease(firstParty[FirstPartyKey(raw, firstParty).value], major, minor)
    ensures var p, key, derived := ParseRequirement(raw).value, FirstPartyKey(raw, firstParty).value, RangeOf(major, minor);
      var guarded := PinGuarded(p.specifier, derived);
      match Judge(raw, firstParty, pinned)
      case Leave => p.specifier == "" || p.specifier == derived
      case Preserve(kept) => p.specifier != "" && p.specifier != derived && guarded && key in pinned && kept == Kept(p.name, p.specifier)
      case Rewrite(c, warned) =>
        && p.specifier != "" && p.specifier != derived && (guarded ==> key !in pinned) && warned == guarded
        && c.depName == p.name && c.oldReq == raw && ParseRequirement(c.newReq) == Some(p.(specifier := derived))
      case Raise(_) => false
  {
    hide RangeOf, MajorMinor, PinGuarded, NormalizeName, NameShape, ExtrasShape, MarkerShape, SpecifierShape, ParseRequirement,
      IsRelease;
    DeriveOfRelease(firstParty[FirstPartyKey(raw, firstParty).value], major, minor);
    DerivedReadsBack(raw, major, minor);
  }

  lemma JudgeOfOthers(raw: string, firstParty: Versions, pinned: set<string>)
    ensures FirstPartyKey(raw, firstParty) == None ==> Judge(raw, firstParty, pinned) == Leave
    ensures FirstPartyKey(raw, firstParty).Some? ==>
      var p, version := ParseRequirement(raw).value, firstParty[FirstPartyKey(raw, firstParty).value];
      && (p.specifier == "" ==> Judge(raw, firstParty, pinned) == Leave)
      && (p.specifier != "" && DeriveRange(version) == None ==> Judge(raw, firstParty, pinned) == Raise(BadVersion(version)))
  {
    hide ParseRequirement, DeriveRange, NormalizeName;
  }

  /** Whether a requirement is first-party is a matter of its normalized name. */
  lemma FirstPartyByName(raw: string, firstParty: Versions, key: string)
    ensures FirstPartyKey(raw, firstParty) == Some(key) <==>
      ParseRequirement(raw).Some? && NormalizeName(ParseRequirement(raw).value.name) == key && key in firstParty
  {
    hide ParseRequirement, NormalizeName;
  }

  // ---- What an analysis collects ---------------------------------------------------------

  /** A requirement judged so. */
  ghost predicate Judged(raws: seq<string>, firstParty: Versions, pinned: set<string>, verdict: Verdict) {
    exists raw :: raw in raws && Judge(raw, firstParty, pinned) == verdict
  }

  lemma {:induction false} JudgedLast(before: seq<string>, raw: string, firstParty: Versions, pinned: set<string>, verdict: Verdict)
    ensures Judged(before + [raw], firstParty, pinned, verdict) <==>
      Judged(before, firstParty, pinned, verdict) || Judge(raw, firstParty, pinned) == verdict
  {
    hide Judge;
    if other :| other in before && Judge(other, firstParty, pinned) == verdict {
      assert other in before + [raw];
    }
    assert raw in before + [raw];
  }

  /** The tables hold every verdict and nothing else: the rewrites, among them the guarded ones once more
      as warnings, and the preserved pins. */
  ghost predicate Tables(raws: seq<string>, firstParty: Versions, pinned: set<string>, a: Analysis) {
    && (forall c :: c in a.changes <==>
          Judged(raws, firstParty, pinned, Rewrite(c, true)) || Judged(raws, firstParty, pinned, Rewrite(c, false)))
    && (forall c :: c in a.warnings <==> Judged(raws, firstParty, pinned, Rewrite(c, true)))
    && (forall kept :: kept in a.preserved <==> Judged(raws, firstParty, pinned, Preserve(kept)))
  }

  lemma {:induction false} TablesGrow(before: seq<string>, raw: string, firstParty: Versions, pinned: set<string>, a: Analysis)
    requires Tables(before, firstParty, pinned, a)
    ensures var entered := Entered(a, Judge(raw, firstParty, pinned), raw in before);
      entered.Success? ==> Tables(before + [raw], firstParty, pinned, entered.value)
  {
    hide Judge, Judged;
    forall verdict
      ensures Judged(before + [raw], firstParty, pinned, verdict) <==>
        Judged(before, firstParty, pinned, verdict) || Judge(raw, firstParty, pinned) == verdict
    {
      JudgedLast(before, raw, firstParty, pinned, verdict);
    }
    if raw in before {
      SeenIsJudged(before, raw, firstParty, pinned);
    }
  }

  lemma SeenIsJudged(before: seq<string>, raw: string, firstParty: Versions, pinned: set<string>)
    requires raw in before
    ensures Judged(before, firstParty, pinned, Judge(raw, firstParty, pinned))
  {
    hide Judge;
  }

  /** An analysis fails with the first requirement that raises, and otherwise collects every verdict. */
  lemma {:induction false} VerdictsAre(raws: seq<string>, firstParty: Versions, pinned: set<string>)
    ensures Verdicts(raws, firstParty, pinned).Success? ==> Tables(raws, firstParty, pinned, Verdicts(raws, firstParty, pinned).value)
    ensures Verdicts(raws, firstParty, pinned).Failure? <==> exists n :: 0 <= n < |raws| && Judge(raws[n], firstParty, pinned).Raise?
    ensures forall n :: 0 <= n < |raws| && Judge(raws[n], firstParty, pinned).Raise?
                        && (forall i :: 0 <= i < n ==> !Judge(raws[i], firstParty, pinned).Raise?) ==>
      Verdicts(raws, firstParty, pinned) == Failure(Judge(raws[n], firstParty, pinned).error)
    decreases |raws|
  {
    hide Judge, Judged, Tables;
    if raws == [] {
      NothingJudged(firstParty, pinned);
    } else {
      var before, raw := raws[..|raws| - 1], raws[|raws| - 1];
      assert raws == before + [raw] && forall i :: 0 <= i < |before| ==> before[i] == raws[i];
      VerdictsAre(before, firstParty, pinned);
      if Verdicts(before, firstParty, pinned).Success? {
        TablesGrow(before, raw, firstParty, pinned, Verdicts(before, firstParty, pinned).value);
      }
    }
  }

  lemma NothingJudged(firstParty: Versions, pinned: set<string>)
    ensures Tables([], firstParty, pinned, Analysis([], [], []))
  {
    hide Judge;
  }

  // ---- Once each, in order ---------------------------------------------------------------

  /** Each requirement where it first stands. */
  function Once(raws: seq<string>): (r: seq<string>)
    ensures forall raw :: raw in r <==> raw in raws
  {
    if raws == [] then [] else
    var before, raw := raws[..|raws| - 1], raws[|raws| - 1];
    assert raws == before + [raw];
    Once(before) + if raw in before then [] else [raw]
  }

  lemma {:induction false} OnceIsOnce(raws: seq<string>)
    ensures forall i, j :: 0 <= i < j < |Once(raws)| ==> Once(raws)[i] != Once(raws)[j]
  {
    if raws != [] {
      OnceIsOnce(raws[..|raws| - 1]);
    }
  }

  /** What the requirements call for, one after the other. */
  function Called(raws: seq<string>, firstParty: Versions, pinned: set<string>): Analysis {
    if raws == [] then Analysis([], [], []) else
    var before := Called(raws[..|raws| - 1], firstParty, pinned);
    match Judge(raws[|raws| - 1], firstParty, pinned)
    case Preserve(kept) => before.(preserved := before.preserved + [kept])
    case Rewrite(change, guarded) =>
      before.(changes := before.changes + [change], warnings := if guarded then before.warnings + [change] else before.warnings)
    case _ => before
  }

  lemma {:induction false} CalledOn(before: seq<string>, raw: string, firstParty: Versions, pinned: set<string>)
    ensures Judge(raw, firstParty, pinned).Raise? || Called(before + [raw], firstParty, pinned) ==
      Entered(Called(before, firstParty, pinned), Judge(raw, firstParty, pinned), false).value
  {
    hide Judge;
    assert (before + [raw])[..|before|] == before;
  }

  /** Each table has one entry for each distinct requirement that calls for it, in the order in which they
      first stand. */
  lemma {:induction false} TablesInOrder(raws: seq<string>, firstParty: Versions, pinned: set<string>)
    requires Verdicts(raws, firstParty, pinned).Success?
    ensures Verdicts(raws, firstParty, pinned).value == Called(Once(raws), firstParty, pinned)
  {
    hide Judge;
    if raws != [] {
      var before, raw := raws[..|raws| - 1], raws[|raws| - 1];
      TablesInOrder(before, firstParty, pinned);
      CalledOn(Once(before), raw, firstParty, pinned);
      assert Once(raws) == if raw in before then Once(before) else Once(before) + [raw];
      hide Called, Once;
    }
  }

  /** A pinned name no scanned requirement bears. */
  ghost predicate Stray(py: Pyproject, firstParty: Versions, name: string) {
    && (exists p :: p in py.pinned && NormalizeName(p) == name)
    && !exists i :: 0 <= i < |py.literals| && py.literals[i].scanned && FirstPartyKey(py.literals[i].text, firstParty) == Some(name)
  }

  lemma StrayIs(py: Pyproject, firstParty: Versions, name: string)
    ensures name in PinnedDeps(py) - FirstPartyDeps(Scanned(py.literals), firstParty) <==> Stray(py, firstParty, name)
  {
    hide FirstPartyKey, NormalizeName;
    var raws := Scanned(py.literals);
    if i :| 0 <= i < |py.literals| && py.literals[i].scanned && FirstPartyKey(py.literals[i].text, firstParty) == Some(name) {
      assert py.literals[i].text in raws;
    }
  }

  lemma {:induction false} OnlyVersionsRaise(raws: seq<string>, firstParty: Versions, pinned: set<string>)
    ensures Verdicts(raws, firstParty, pinned).Failure? ==> Verdicts(raws, firstParty, pinned).error.BadVersion?
    decreases |raws|
  {
    hide FirstPartyKey, ParseRequirement, DeriveRange;
    if raws != [] {
      OnlyVersionsRaise(raws[..|raws| - 1], firstParty, pinned);
    }
  }

  /** A pinned name no scanned requirement bears fails the analysis, with all such names. */
  lemma UnknownPinsAre(py: Pyproject, firstParty: Versions)
    ensures var r := Analyze(py, firstParty);
      if r.Failure? && r.error.UnknownPins? then
        r.error.names != {} && forall name :: name in r.error.names <==> Stray(py, firstParty, name)
      else forall name :: !Stray(py, firstParty, name)
  {
    hide Stray, Verdicts, PinnedDeps, FirstPartyDeps, Scanned;
    OnlyVersionsRaise(Scanned(py.literals), firstParty, PinnedDeps(py));
    forall name
      ensures name in PinnedDeps(py) - FirstPartyDeps(Scanned(py.literals), firstParty) <==> Stray(py, firstParty, name)
    {
      StrayIs(py, firstParty, name);
    }
  }

  // ---- What a rewrite refuses ------------------------------------------------------------

  /** The file holds the requirement, in one quote style or the other. */
  ghost predicate Holds(literals: seq<Literal>, text: string) { exists i :: 0 <= i < |literals| && literals[i].text == text }

  lemma {:induction false} RewriteInTwo(literals: seq<Literal>, changes: seq<SpecChange>, n: nat)
    requires n <= |changes|
    ensures var first := RewriteText(literals, changes[..n]);
      RewriteText(literals, changes) == if first.Failure? then first else RewriteText(first.value, changes[n..])
    decreases n
  {
    hide Occurs, ReplaceQuoted;
    if n > 0 {
      var c := changes[0];
      assert changes[..n][0] == c && changes[..n][1..] == changes[1..][..n - 1] && changes[1..][n - 1..] == changes[n..];
      if Occurs(literals, c.oldReq, StyleOf(literals, c.oldReq)) {
        RewriteInTwo(ReplaceQuoted(literals, c.oldReq, c.newReq), changes[1..], n - 1);
      }
    } else {
      assert changes[0..] == changes;
    }
  }

  /** A rewrite goes on to a further change exactly if the text written so far still holds its requirement,
      and otherwise raises with it. */
  lemma {:induction false} RewriteStops(literals: seq<Literal>, changes: seq<SpecChange>, n: nat)
    requires n < |changes| && RewriteText(literals, changes[..n]).Success?
    ensures var on := RewriteText(literals, changes[..n]).value;
      && (RewriteText(literals, changes[..n + 1]).Success? <==> Holds(on, changes[n].oldReq))
      && (!Holds(on, changes[n].oldReq) ==> RewriteText(literals, changes) == Failure(LiteralNotFound(changes[n].oldReq)))
  {
    var on, c := RewriteText(literals, changes[..n]).value, changes[n];
    assert changes[..n + 1][..n] == changes[..n] && changes[..n + 1][n..] == [c] && changes[n..][0] == c;
    RewriteInTwo(literals, changes, n);
    RewriteInTwo(literals, changes[..n + 1], n);
    hide ReplaceQuoted;
    if i :| 0 <= i < |on| && on[i].text == c.oldReq {
      assert Occurs(on, c.oldReq, on[i].style);
    }
    assert RewriteText(ReplaceQuoted(on, c.oldReq, c.newReq), [c][1..]).Success?;
  }
}
