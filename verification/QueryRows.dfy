/** What the release query takes in and gives out, value by value: which texts are release versions, what
    it refuses, what each range change names, and what the train check says of a unit. */
module QueryRows {
  import opened Outcome
  import opened Text
  import opened PyprojectSpecs
  import opened Sync
  import opened Query

  // ---- Release versions ------------------------------------------------------------------

  /** Three numbers, a suffix or none, and at the very end a line feed or none. */
  datatype ReleaseText = ReleaseText(major: string, minor: string, patch: string, suffix: string, end: string) {
    function Text(): string { major + "." + minor + "." + patch + suffix + end }
  }

  predicate Suffix(s: string) {
    s == "" || (s[0] in "-+." && |s| > 1 && forall i :: 1 <= i < |s| ==> SuffixChar(s[i]))
  }

  predicate WellFormedRelease(v: ReleaseText) {
    Numeral(v.major) && Numeral(v.minor) && Numeral(v.patch) && Suffix(v.suffix) && (v.end == "" || v.end == "\n")
  }

  lemma PiecesOf(a: string, b: string, c: string, suffix: string)
    ensures var s := a + "." + b + "." + c + suffix; var i := |a|; var j := i + 1 + |b|; var k := j + 1 + |c|;
      && |s| == k + |suffix| && At(s, 0, a) && s[i] == '.' && At(s, i + 1, b) && s[j] == '.' && At(s, j + 1, c) && At(s, k, suffix)
  {
    var s := a + "." + b + "." + c + suffix;
    assert s == a + ("." + (b + ("." + (c + suffix))));
  }

  lemma Digits(s: string, i: nat, part: string)
    requires At(s, i, part) && Numeral(part) && (i + |part| < |s| ==> !Digit(s[i + |part|]))
    ensures DigitsEnd(s, i) == i + |part|
  {
    assert forall k :: i <= k < i + |part| ==> s[k] == s[i..i + |part|][k - i];
    SkipWhileIs(s, i, Digit, i + |part|);
  }

  lemma SuffixPlain(suffix: string)
    requires Suffix(suffix) && suffix != ""
    ensures !Digit(suffix[0]) && suffix[|suffix| - 1] != '\n'
  {
  }

  lemma NumeralPlain(n: string)
    requires Numeral(n)
    ensures n[|n| - 1] != '\n' && n != ""
  {
  }

  /** Without its final line feed a spelled version is read as one. */
  lemma ReleaseIsRead(a: string, b: string, c: string, suffix: string)
    requires Numeral(a) && Numeral(b) && Numeral(c) && Suffix(suffix)
    ensures var s := a + "." + b + "." + c + suffix; s != "" && s[|s| - 1] != '\n' && ReleaseVersion(s) && ReleaseVersion(s + "\n")
  {
    var s := a + "." + b + "." + c + suffix;
    PiecesOf(a, b, c, suffix);
    NumeralPlain(c);
    if suffix != "" {
      SuffixPlain(suffix);
    }
    LastChar(s, |a| + |b| + 2, c, suffix);
    ReadsAt(s, a, b, c, suffix);
    hide ReleaseVersion, ThreeNumbers;
    FeedIsStripped(s);
  }

  lemma FeedIsStripped(s: string)
    requires s != "" && s[|s| - 1] != '\n'
    ensures ReleaseVersion(s) == ThreeNumbers(s) == ReleaseVersion(s + "\n")
  {
    hide ThreeNumbers;
    assert (s + "\n")[..|s + "\n"| - 1] == s;
  }

  lemma LastChar(s: string, i: nat, c: string, suffix: string)
    requires At(s, i, c) && At(s, i + |c|, suffix) && |s| == i + |c| + |suffix| && c != ""
    ensures s[|s| - 1] == if suffix == "" then c[|c| - 1] else suffix[|suffix| - 1]
  {
    assert s[i..i + |c|][|c| - 1] == s[i + |c| - 1];
    if suffix != "" {
      assert s[i + |c|..i + |c| + |suffix|][|suffix| - 1] == s[|s| - 1];
    }
  }

  lemma ReadsAt(s: string, a: string, b: string, c: string, suffix: string)
    requires Numeral(a) && Numeral(b) && Numeral(c) && Suffix(suffix)
    requires var i := |a|; var j := i + 1 + |b|; var k := j + 1 + |c|;
      && |s| == k + |suffix| && At(s, 0, a) && s[i] == '.' && At(s, i + 1, b) && s[j] == '.' && At(s, j + 1, c) && At(s, k, suffix)
    ensures ThreeNumbers(s)
  {
    var i := |a|;
    var j := i + 1 + |b|;
    var k := j + 1 + |c|;
    SuffixStands(s, k, suffix);
    Digits(s, 0, a);
    Digits(s, i + 1, b);
    Digits(s, j + 1, c);
    hide Digit, At, DigitsEnd, SuffixChar;
    CutsAgree(s, i, j, k);
  }

  lemma SuffixStands(s: string, k: nat, suffix: string)
    requires Suffix(suffix) && At(s, k, suffix) && |s| == k + |suffix|
    ensures k < |s| ==> !Digit(s[k]) && s[k] in "-+." && k + 1 < |s| && forall i :: k < i < |s| ==> SuffixChar(s[i])
  {
    hide SuffixChar;
    if suffix != "" {
      SuffixPlain(suffix);
      assert s[k] == s[k..k + |suffix|][0];
      assert forall n :: k < n < |s| ==> s[n] == s[k..k + |suffix|][n - k];
    }
  }

  lemma CutsAgree(s: string, i: nat, j: nat, k: nat)
    requires 0 < i && i + 1 < j && j + 1 < k <= |s| && s[i] == '.' && s[j] == '.'
    requires DigitsEnd(s, 0) == i && DigitsEnd(s, i + 1) == j && DigitsEnd(s, j + 1) == k
    requires k < |s| ==> s[k] in "-+." && k + 1 < |s| && forall n :: k < n < |s| ==> SuffixChar(s[n])
    ensures ThreeNumbers(s)
  {
    hide DigitsEnd, SuffixChar;
  }

  lemma NumbersAreSpelled(s: string) returns (i: nat, j: nat, k: nat)
    requires ThreeNumbers(s)
    ensures i < j < k <= |s| && s[i] == '.' && s[j] == '.'
    ensures Numeral(s[..i]) && Numeral(s[i + 1..j]) && Numeral(s[j + 1..k]) && Suffix(s[k..])
  {
    i := DigitsEnd(s, 0);
    j := DigitsEnd(s, i + 1);
    k := DigitsEnd(s, j + 1);
    hide Digit, SuffixChar;
  }

  lemma ReadIsRelease(version: string) returns (v: ReleaseText)
    requires ReleaseVersion(version)
    ensures WellFormedRelease(v) && v.Text() == version
  {
    var end := if version != "" && version[|version| - 1] == '\n' then "\n" else "";
    var s := version[..|version| - |end|];
    assert s + end == version;
    var i, j, k := NumbersAreSpelled(s);
    v := ReleaseText(s[..i], s[i + 1..j], s[j + 1..k], s[k..], end);
    hide ThreeNumbers, ReleaseVersion;
    Rejoined(s, i, j, k);
  }

  lemma Rejoined(s: string, i: nat, j: nat, k: nat)
    requires i < j < k <= |s| && s[i] == '.' && s[j] == '.'
    ensures s[..i] + "." + s[i + 1..j] + "." + s[j + 1..k] + s[k..] == s
  {
    assert s == s[..i] + s[i..i + 1] + s[i + 1..j] + s[j..j + 1] + s[j + 1..k] + s[k..];
    assert s[i..i + 1] == "." && s[j..j + 1] == ".";
  }

  /** A text is a release version if and only if it is spelled as one, whatever the length of its numbers. */
  lemma {:induction false} ReleaseVersionIs(version: string)
    ensures ReleaseVersion(version) <==> exists v: ReleaseText :: WellFormedRelease(v) && v.Text() == version
  {
    hide ReleaseVersion;
    if ReleaseVersion(version) {
      var v := ReadIsRelease(version);
    }
    if v: ReleaseText :| WellFormedRelease(v) && v.Text() == version {
      ReleaseIsRead(v.major, v.minor, v.patch, v.suffix);
      var s := v.major + "." + v.minor + "." + v.patch + v.suffix;
      assert v.Text() == if v.end == "" then s else s + "\n" by {
        assert s + "" == s;
      }
    }
  }

  // ---- What a query refuses --------------------------------------------------------------

  /** A candidate unit that is a member without a name. */
  predicate Unnamed(member: Member, versions: map<string, string>) { member.path in versions && member.py.name == "" }

  lemma {:induction false} PutStops(members: seq<Member>, versions: map<string, string>, firstParty: Versions)
    ensures PutCandidates(members, versions, firstParty).Success? <==>
      forall i :: 0 <= i < |members| ==> !Unnamed(members[i], versions)
    ensures forall n :: 0 <= n < |members| && Unnamed(members[n], versions)
                        && (forall i :: 0 <= i < n ==> !Unnamed(members[i], versions)) ==>
      PutCandidates(members, versions, firstParty) == Failure(UnnamedMember(members[n].path))
    decreases |members|
  {
    hide NormalizeName;
    if members != [] {
      var before := members[..|members| - 1];
      PutStops(before, versions, firstParty);
      assert forall i :: 0 <= i < |before| ==> before[i] == members[i];
    }
  }

  /** Candidates are refused for units the tree does not have, then for versions that are no releases, with
      all of them, and then for the first of the members without a name. */
  lemma CandidatesRefused(tree: Tree, versions: map<string, string>)
    ensures var r := CandidateFirstParty(tree, versions);
      if exists path :: path in versions && path !in tree.units then
        r.Failure? && r.error.UnknownUnits? && forall path :: path in r.error.paths <==> path in versions && path !in tree.units
      else if exists path :: path in versions && !ReleaseVersion(versions[path]) then
        r.Failure? && r.error.MalformedVersions?
        && forall path :: path in r.error.paths <==> path in versions && !ReleaseVersion(versions[path])
      else
        (r.Success? <==> forall i :: 0 <= i < |tree.members| ==> !Unnamed(tree.members[i], versions))
        && forall n :: 0 <= n < |tree.members| && Unnamed(tree.members[n], versions)
                       && (forall i :: 0 <= i < n ==> !Unnamed(tree.members[i], versions)) ==>
             r == Failure(UnnamedMember(tree.members[n].path))
  {
    hide ReleaseVersion, FirstPartyVersions, Unnamed;
    PutStops(tree.members, versions, FirstPartyVersions(tree.members));
    hide PutCandidates;
    var unknown := set path | path in versions && path !in tree.units;
    var malformed := set path | path in versions && !ReleaseVersion(versions[path]);
    if path :| path in versions && path !in tree.units {
      assert path in unknown;
    } else {
      assert unknown == {};
      if path :| path in versions && !ReleaseVersion(versions[path]) {
        assert path in malformed;
      } else {
        assert malformed == {};
      }
    }
  }

  // ---- Owners ----------------------------------------------------------------------------

  /** A unit houses the files below its directory, and not those of a unit whose name it begins. */
  lemma HousesIs(unit: string, file: string)
    ensures Houses(unit, file) <==> exists rest :: file == unit + "/" + rest
  {
    if Houses(unit, file) {
      assert file == unit + "/" + file[|unit| + 1..];
    }
    if rest :| file == unit + "/" + rest {
      assert file[..|unit| + 1] == unit + "/";
    }
  }

  /** A report is refused exactly for the first pin row no unit houses. */
  lemma {:induction false} UnownedRefused(report: Report, units: seq<string>)
    ensures ChangesByUnit(report, units).Success? <==>
      forall i :: 0 <= i < |report.contractChanges| ==> OwningUnit(report.contractChanges[i].0, units).Some?
    ensures forall n :: 0 <= n < |report.contractChanges| && OwningUnit(report.contractChanges[n].0, units).None?
                        && (forall i :: 0 <= i < n ==> OwningUnit(report.contractChanges[i].0, units).Some?) ==>
      ChangesByUnit(report, units) == Failure(NoOwner(report.contractChanges[n].0))
  {
    FirstOwnerless(report.contractChanges, units);
    hide OwningUnit, Ownerless;
  }

  lemma {:induction false} FirstOwnerless(rows: seq<(string, string, string)>, units: seq<string>)
    ensures Ownerless(rows, units).None? <==> forall i :: 0 <= i < |rows| ==> OwningUnit(rows[i].0, units).Some?
    ensures forall n :: 0 <= n < |rows| && OwningUnit(rows[n].0, units).None?
                        && (forall i :: 0 <= i < n ==> OwningUnit(rows[i].0, units).Some?) ==>
      Ownerless(rows, units) == Some(rows[n].0)
  {
    hide OwningUnit;
    if rows != [] {
      FirstOwnerless(rows[1..], units);
      assert forall i :: 0 < i < |rows| ==> rows[i] == rows[1..][i - 1];
      forall n | 0 < n < |rows| && OwningUnit(rows[n].0, units).None?
                 && (forall i :: 0 <= i < n ==> OwningUnit(rows[i].0, units).Some?)
        ensures Ownerless(rows, units) == Some(rows[n].0)
      {
        assert forall i :: 0 <= i < n - 1 ==> rows[1..][i] == rows[i + 1];
        assert rows[1..][n - 1] == rows[n];
      }
    }
  }

  // ---- What the range changes name -------------------------------------------------------

  /** A requirement row of the unit. */
  ghost predicate FromSpec(rows: seq<(string, SpecChange)>, unit: string, c: RangeChange) {
    exists i :: 0 <= i < |rows| && rows[i].0 == unit && c.file == unit + "/pyproject.toml" && c.subject == rows[i].1.depName
                && c.was == rows[i].1.oldReq && c.now == rows[i].1.newReq
  }

  /** A contract row of a descriptor the unit owns. */
  ghost predicate FromContract(rows: seq<(string, string, string)>, unit: string, units: seq<string>, c: RangeChange) {
    exists i :: 0 <= i < |rows| && OwningUnit(rows[i].0, units) == Some(unit)
                && c == RangeChange(rows[i].0, "contract", rows[i].1, rows[i].2)
  }

  lemma {:induction false} SpecMovesAre(rows: seq<(string, SpecChange)>, unit: string, c: RangeChange)
    ensures c in SpecMoves(rows, unit) <==> FromSpec(rows, unit, c)
    decreases |rows|
  {
    if rows != [] {
      var before := rows[..|rows| - 1];
      SpecMovesAre(before, unit, c);
      assert forall i :: 0 <= i < |before| ==> before[i] == rows[i];
      if FromSpec(before, unit, c) {
        var i :| 0 <= i < |before| && before[i].0 == unit && c.file == unit + "/pyproject.toml" && c.subject == before[i].1.depName
                 && c.was == before[i].1.oldReq && c.now == before[i].1.newReq;
        assert rows[i] == before[i];
      }
    }
  }

  lemma {:induction false} ContractMovesAre(rows: seq<(string, string, string)>, unit: string, units: seq<string>, c: RangeChange)
    ensures c in ContractMoves(rows, unit, units) <==> FromContract(rows, unit, units, c)
    decreases |rows|
  {
    hide OwningUnit;
    if rows != [] {
      var before := rows[..|rows| - 1];
      ContractMovesAre(before, unit, units, c);
      assert forall i :: 0 <= i < |before| ==> before[i] == rows[i];
    }
  }

  /** A unit's range changes are exactly its requirement rows, in its pyproject under the dependency's name,
      and the contract rows of its descriptors, each from the old text to the new. */
  lemma MovesAre(report: Report, unit: string, units: seq<string>, c: RangeChange)
    ensures c in MovesIn(report, unit, units) <==>
      FromSpec(report.specChanges, unit, c) || FromContract(report.contractChanges, unit, units, c)
  {
    hide FromSpec, FromContract;
    SpecMovesAre(report.specChanges, unit, c);
    ContractMovesAre(report.contractChanges, unit, units, c);
  }

  /** Both kinds of rows keep their order, and so do the units. */
  lemma {:induction false} RowsInOrder(a: seq<(string, SpecChange)>, b: seq<(string, SpecChange)>, unit: string)
    ensures SpecMoves(a + b, unit) == SpecMoves(a, unit) + SpecMoves(b, unit)
    decreases |b|
  {
    if b == [] {
      assert a + b == a;
    } else {
      assert (a + b)[..|a + b| - 1] == a + b[..|b| - 1];
      RowsInOrder(a, b[..|b| - 1], unit);
    }
  }

  lemma {:induction false} PinsInOrder(a: seq<(string, string, string)>, b: seq<(string, string, string)>, unit: string,
                                       units: seq<string>)
    ensures ContractMoves(a + b, unit, units) == ContractMoves(a, unit, units) + ContractMoves(b, unit, units)
    decreases |b|
  {
    hide OwningUnit;
    if b == [] {
      assert a + b == a;
    } else {
      assert (a + b)[..|a + b| - 1] == a + b[..|b| - 1];
      PinsInOrder(a, b[..|b| - 1], unit, units);
    }
  }

  lemma {:induction false} UnitsInOrder(report: Report, a: seq<string>, b: seq<string>, units: seq<string>)
    ensures NonemptyMoves(report, a + b, units) == NonemptyMoves(report, a, units) + NonemptyMoves(report, b, units)
  {
    hide MovesIn;
    if a == [] {
      assert a + b == b;
    } else {
      assert (a + b)[1..] == a[1..] + b;
      UnitsInOrder(report, a[1..], b, units);
    }
  }

  // ---- The train check, unit by unit -----------------------------------------------------

  /** The unit's first member, and its first component. */
  predicate MemberAt(members: seq<Member>, unit: string, n: nat) {
    n < |members| && members[n].path == unit && forall i :: 0 <= i < n ==> members[i].path != unit
  }

  predicate ComponentAt(components: seq<Component>, unit: string, n: nat) {
    n < |components| && components[n].path == unit && forall i :: 0 <= i < n ==> components[i].path != unit
  }

  function Declared(unit: string, version: string): Result<string, Error> {
    if version == "" then Failure(NoVersion(unit)) else Success(version)
  }

  /** A unit stands at the version of its first member, of its first component if it is no member, and is an
      error without either or where that declares none. */
  lemma WorkingVersionIs(tree: Tree, unit: string, n: nat)
    ensures MemberAt(tree.members, unit, n) ==> WorkingVersion(tree, unit) == Declared(unit, tree.members[n].py.version)
    ensures (forall m :: m in tree.members ==> m.path != unit) && ComponentAt(tree.components, unit, n) ==>
      WorkingVersion(tree, unit) == Declared(unit, tree.components[n].version)
    ensures (forall m :: m in tree.members ==> m.path != unit) && (forall c :: c in tree.components ==> c.path != unit) ==>
      WorkingVersion(tree, unit) == Failure(NoVersion(unit))
  {
    if MemberAt(tree.members, unit, n) {
      assert tree.members[n] in tree.members;
      MemberVersionIs(tree.members, unit, n);
    } else if ComponentAt(tree.components, unit, n) {
      ComponentVersionIs(tree.components, unit, n);
    } else if forall c :: c in tree.components ==> c.path != unit {
      NoComponentVersion(tree.components, unit);
    }
    hide MemberVersion, ComponentVersion, MemberAt, ComponentAt;
  }

  lemma {:induction false} MemberVersionIs(members: seq<Member>, unit: string, n: nat)
    requires MemberAt(members, unit, n)
    ensures MemberVersion(members, unit) == members[n].py.version
  {
    if n > 0 {
      assert forall i :: 0 <= i < |members[1..]| ==> members[1..][i] == members[i + 1];
      MemberVersionIs(members[1..], unit, n - 1);
    }
  }

  lemma {:induction false} ComponentVersionIs(components: seq<Component>, unit: string, n: nat)
    requires ComponentAt(components, unit, n)
    ensures ComponentVersion(components, unit) == components[n].version
  {
    if n > 0 {
      assert forall i :: 0 <= i < |components[1..]| ==> components[1..][i] == components[i + 1];
      ComponentVersionIs(components[1..], unit, n - 1);
    }
  }

  lemma {:induction false} NoComponentVersion(components: seq<Component>, unit: string)
    requires forall c :: c in components ==> c.path != unit
    ensures ComponentVersion(components, unit) == ""
  {
    if components != [] {
      assert components[0] in components && components == [components[0]] + components[1..];
      NoComponentVersion(components[1..], unit);
    }
  }

  /** A move the train check cannot judge: its unit is at the base, and declares no version now. */
  predicate Unjudged(tree: Tree, move: Move, base: map<string, string>) {
    move.path in base && WorkingVersion(tree, move.path).Failure?
  }

  /** The check fails exactly at the first of them. */
  lemma {:induction false} UncoveredFails(tree: Tree, moves: seq<Move>, base: map<string, string>)
    ensures UncoveredAmong(tree, moves, base).Success? <==> forall i :: 0 <= i < |moves| ==> !Unjudged(tree, moves[i], base)
    ensures forall n :: 0 <= n < |moves| && Unjudged(tree, moves[n], base)
                        && (forall i :: 0 <= i < n ==> !Unjudged(tree, moves[i], base)) ==>
      UncoveredAmong(tree, moves, base) == Failure(NoVersion(moves[n].path))
    decreases |moves|
  {
    if moves != [] {
      var before := moves[..|moves| - 1];
      UncoveredFails(tree, before, base);
      assert forall i :: 0 <= i < |before| ==> before[i] == moves[i];
      assert WorkingVersion(tree, moves[|moves| - 1].path).Failure? ==>
        WorkingVersion(tree, moves[|moves| - 1].path).error == NoVersion(moves[|moves| - 1].path);
      hide WorkingVersion;
    }
  }

  /** The move that decides for a unit, the last of its path. */
  ghost predicate LastMove(moves: seq<Move>, n: nat) {
    n < |moves| && forall k :: n < k < |moves| ==> moves[k].path != moves[n].path
  }

  /** How the check judges one move. */
  lemma {:induction false} UncoveredStep(tree: Tree, moves: seq<Move>, base: map<string, string>)
    requires moves != [] && UncoveredAmong(tree, moves, base).Success?
    ensures UncoveredAmong(tree, moves[..|moves| - 1], base).Success?
    ensures var last := moves[|moves| - 1];
      var before, found := UncoveredAmong(tree, moves[..|moves| - 1], base).value, UncoveredAmong(tree, moves, base).value;
      && (forall path :: path != last.path ==> (path in found <==> path in before) && (path in before ==> found[path] == before[path]))
      && (last.path !in base || WorkingVersion(tree, last.path) == Success(base[last.path]) ==>
            last.path in found
            && found[last.path] == Uncovered(if last.path in base then Some(base[last.path]) else None, last.changes))
      && (last.path in base && WorkingVersion(tree, last.path) != Success(base[last.path]) ==> found == before)
  {
    hide WorkingVersion;
  }

  /** What the train check says of a moved unit: nothing where the train changes its version, and otherwise
      its version at the base, if it is there, and what moves in it. */
  lemma {:induction false} UncoveredIs(tree: Tree, moves: seq<Move>, base: map<string, string>, n: nat)
    requires UncoveredAmong(tree, moves, base).Success? && LastMove(moves, n)
    ensures var path, found := moves[n].path, UncoveredAmong(tree, moves, base).value;
      && (path in found <==> path !in base || WorkingVersion(tree, path) == Success(base[path]))
      && (path in found ==> found[path] == Uncovered(if path in base then Some(base[path]) else None, moves[n].changes))
    decreases |moves|
  {
    hide WorkingVersion, UncoveredAmong;
    UncoveredStep(tree, moves, base);
    var before := moves[..|moves| - 1];
    if n < |before| {
      assert LastMove(before, n) && before[n] == moves[n];
      UncoveredIs(tree, before, base, n);
      assert moves[|moves| - 1].path != moves[n].path;
    } else {
      StillCovered(tree, before, base, moves[n].path);
    }
  }

  /** An earlier move of the same unit was judged alike. */
  lemma {:induction false} StillCovered(tree: Tree, moves: seq<Move>, base: map<string, string>, path: string)
    requires UncoveredAmong(tree, moves, base).Success?
    ensures path in UncoveredAmong(tree, moves, base).value ==> path !in base || WorkingVersion(tree, path) == Success(base[path])
    decreases |moves|
  {
    hide WorkingVersion;
    if moves != [] {
      StillCovered(tree, moves[..|moves| - 1], base, path);
    }
  }
}
