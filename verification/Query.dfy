/** The release query of scripts/_range_sync/query.py and the train check of
    scripts/_release_train_check/membership.py. */
module Query {
  import opened Outcome
  import opened Text
  import opened PyprojectSpecs
  import opened Sync

  // ---- Candidate versions ----------------------------------------------------------------

  predicate SuffixChar(c: char) { Alnum(c) || c == '.' || c == '+' || c == '-' }

  /** `major.minor.patch` and an optional suffix. */
  predicate ThreeNumbers(v: string) {
    var a := DigitsEnd(v, 0);
    && 0 < a < |v| && v[a] == '.'
    && var b := DigitsEnd(v, a + 1);
    && a + 1 < b < |v| && v[b] == '.'
    && var c := DigitsEnd(v, b + 1);
    && b + 1 < c
    && (c == |v| || (v[c] in "-+." && c + 1 < |v| && forall i :: c < i < |v| ==> SuffixChar(v[i])))
  }

  /** A final line feed is let through. */
  predicate ReleaseVersion(version: string) {
    ThreeNumbers(if version != "" && version[|version| - 1] == '\n' then version[..|version| - 1] else version)
  }

  /** Each candidate member's version put in the place of its on-disk one. */
  function PutCandidates(members: seq<Member>, versions: map<string, string>, firstParty: Versions): Result<Versions, Error>
    decreases |members|
  {
    if members == [] then Success(firstParty) else
    var last := members[|members| - 1];
    var put :- PutCandidates(members[..|members| - 1], versions, firstParty);
    if last.path !in versions then Success(put)
    else if last.py.name == "" then Failure(UnnamedMember(last.path))
    else Success(put[NormalizeName(last.py.name) := versions[last.path]])
  }

  function CandidateFirstParty(tree: Tree, versions: map<string, string>): Result<Versions, Error> {
    var unknown := set path | path in versions && path !in tree.units;
    if unknown != {} then Failure(UnknownUnits(unknown)) else
    var malformed := set path | path in versions && !ReleaseVersion(versions[path]);
    if malformed != {} then Failure(MalformedVersions(malformed)) else
    PutCandidates(tree.members, versions, FirstPartyVersions(tree.members))
  }

  // ---- Moves by unit ---------------------------------------------------------------------

  datatype RangeChange = RangeChange(file: string, subject: string, was: string, now: string)

  /** A unit and what moves in it. */
  datatype Move = Move(path: string, changes: seq<RangeChange>)

  /** Whether a unit's directory holds `file`. */
  predicate Houses(unit: string, file: string) { At(file, 0, unit + "/") }

  /** The first unit whose directory holds `file`. */
  function OwningUnit(file: string, units: seq<string>): (r: Option<string>)
    ensures r.Some? ==> r.value in units && Houses(r.value, file)
    ensures r.None? <==> forall unit :: unit in units ==> !Houses(unit, file)
  {
    if units == [] then None
    else if Houses(units[0], file) then Some(units[0])
    else
      var r := OwningUnit(file, units[1..]);
      assert units == [units[0]] + units[1..];
      r
  }

  /** No unit before the owner holds the file. */
  lemma {:induction false} OwnerIsFirst(file: string, units: seq<string>, i: nat)
    requires i < |units| && Houses(units[i], file) && forall j :: 0 <= j < i ==> !Houses(units[j], file)
    ensures OwningUnit(file, units) == Some(units[i])
  {
    if i > 0 {
      OwnerIsFirst(file, units[1..], i - 1);
    }
  }

  function SpecMoves(rows: seq<(string, SpecChange)>, unit: string): seq<RangeChange>
    decreases |rows|
  {
    if rows == [] then [] else
    var (path, c) := rows[|rows| - 1];
    SpecMoves(rows[..|rows| - 1], unit)
    + if path == unit then [RangeChange(path + "/pyproject.toml", c.depName, c.oldReq, c.newReq)] else []
  }

  function ContractMoves(rows: seq<(string, string, string)>, unit: string, units: seq<string>): seq<RangeChange>
    decreases |rows|
  {
    if rows == [] then [] else
    var (yaml, was, now) := rows[|rows| - 1];
    ContractMoves(rows[..|rows| - 1], unit, units)
    + if OwningUnit(yaml, units) == Some(unit) then [RangeChange(yaml, "contract", was, now)] else []
  }

  function MovesIn(report: Report, unit: string, units: seq<string>): seq<RangeChange> {
    SpecMoves(report.specChanges, unit) + ContractMoves(report.contractChanges, unit, units)
  }

  function NonemptyMoves(report: Report, among: seq<string>, units: seq<string>): seq<Move> {
    if among == [] then [] else
    var changes := MovesIn(report, among[0], units);
    (if changes == [] then [] else [Move(among[0], changes)]) + NonemptyMoves(report, among[1..], units)
  }

  function Ownerless(rows: seq<(string, string, string)>, units: seq<string>): Option<string> {
    if rows == [] then None
    else if OwningUnit(rows[0].0, units).None? then Some(rows[0].0)
    else Ownerless(rows[1..], units)
  }

  /** `changes_by_unit`: the touched units in path order. */
  function ChangesByUnit(report: Report, units: seq<string>): Result<seq<Move>, Error> {
    match Ownerless(report.contractChanges, units)
    case Some(file) => Failure(NoOwner(file))
    case None => Success(NonemptyMoves(report, units, units))
  }

  function Query(tree: Tree, versions: map<string, string>): Result<seq<Move>, Error> {
    var firstParty :- CandidateFirstParty(tree, versions);
    var report :- DriftUnder(tree, firstParty);
    ChangesByUnit(report, tree.units)
  }

  // ---- The train check -------------------------------------------------------------------

  /** The version a unit declares in the working tree; a unit that declares none is an error. */
  function WorkingVersion(tree: Tree, unit: string): Result<string, Error> {
    var version := if exists m :: m in tree.members && m.path == unit
                   then MemberVersion(tree.members, unit) else ComponentVersion(tree.components, unit);
    if version == "" then Failure(NoVersion(unit)) else Success(version)
  }

  function MemberVersion(members: seq<Member>, unit: string): string {
    if members == [] then "" else if members[0].path == unit then members[0].py.version else MemberVersion(members[1..], unit)
  }

  function ComponentVersion(components: seq<Component>, unit: string): string {
    if components == [] then ""
    else if components[0].path == unit then components[0].version
    else ComponentVersion(components[1..], unit)
  }

  /** A moved unit the train does not release, and its version at the base. */
  datatype Uncovered = Uncovered(baseVersion: Option<string>, changes: seq<RangeChange>)

  function UncoveredAmong(tree: Tree, moves: seq<Move>, base: map<string, string>): Result<map<string, Uncovered>, Error>
    decreases |moves|
  {
    if moves == [] then Success(map[]) else
    var last := moves[|moves| - 1];
    var found :- UncoveredAmong(tree, moves[..|moves| - 1], base);
    if last.path !in base then Success(found[last.path := Uncovered(None, last.changes)]) else
    var working :- WorkingVersion(tree, last.path);
    if base[last.path] != working then Success(found)
    else Success(found[last.path := Uncovered(Some(working), last.changes)])
  }

  /** `uncovered_moves`, with the versions declared at the base revision given. */
  function UncoveredMoves(tree: Tree, base: map<string, string>): Result<map<string, Uncovered>, Error> {
    var report :- Check(tree);
    var moves :- ChangesByUnit(report, tree.units);
    UncoveredAmong(tree, moves, base)
  }

  /** The loops of `_candidate_first_party` and `uncovered_moves`, as the code runs them. */
  method CandidateVersions(tree: Tree, versions: map<string, string>) returns (r: Result<Versions, Error>)
    ensures r == CandidateFirstParty(tree, versions)
  {
    hide NormalizeName, FirstPartyVersions, ReleaseVersion;
    var unknown := set path | path in versions && path !in tree.units;
    if unknown != {} {
      return Failure(UnknownUnits(unknown));
    }
    var malformed := set path | path in versions && !ReleaseVersion(versions[path]);
    if malformed != {} {
      return Failure(MalformedVersions(malformed));
    }
    var onDisk := CollectVersions(tree.members);
    var firstParty := onDisk;
    for i := 0 to |tree.members|
      invariant PutCandidates(tree.members[..i], versions, onDisk) == Success(firstParty)
    {
      var member := tree.members[i];
      assert tree.members[..i + 1][..i] == tree.members[..i];
      if member.path in versions {
        if member.py.name == "" {
          UnnamedStays(tree.members, versions, onDisk, i + 1);
          return Failure(UnnamedMember(member.path));
        }
        firstParty := firstParty[NormalizeName(member.py.name) := versions[member.path]];
      }
    }
    assert tree.members[..|tree.members|] == tree.members;
    r := Success(firstParty);
  }

  /** The groups of `changes_by_unit`: every row under the unit that owns it. */
  method GroupByUnit(report: Report, units: seq<string>) returns (r: Result<map<string, seq<RangeChange>>, Error>)
    ensures match Ownerless(report.contractChanges, units)
            case Some(file) => r == Failure(NoOwner(file))
            case None => r.Success? && Grouped(r.value, report.specChanges, report.contractChanges, units)
  {
    hide OwningUnit, Grouped;
    var changed: map<string, seq<RangeChange>> := map[];
    var specs, pins := report.specChanges, report.contractChanges;
    NothingGrouped(units);
    for i := 0 to |specs|
      invariant Grouped(changed, specs[..i], [], units)
    {
      var (path, c) := specs[i];
      assert specs[..i + 1] == specs[..i] + [specs[i]];
      OneMoreSpec(changed, specs[..i], specs[i], units);
      changed := changed[path := ChangesOf(changed, path) + [RangeChange(path + "/pyproject.toml", c.depName, c.oldReq, c.newReq)]];
    }
    assert specs[..|specs|] == specs;
    for i := 0 to |pins|
      invariant Ownerless(pins, units) == Ownerless(pins[i..], units)
      invariant Grouped(changed, specs, pins[..i], units)
    {
      var (yaml, was, now) := pins[i];
      var owner := OwningUnit(yaml, units);
      assert pins[i..][1..] == pins[i + 1..] && pins[..i + 1] == pins[..i] + [pins[i]];
      if owner.None? {
        return Failure(NoOwner(yaml));
      }
      OneMorePin(changed, specs, pins[..i], pins[i], units);
      changed := changed[owner.value := ChangesOf(changed, owner.value) + [RangeChange(yaml, "contract", was, now)]];
    }
    assert pins[..|pins|] == pins;
    r := Success(changed);
  }

  /** Each unit's group is its rows, in order. */
  ghost predicate Grouped(changed: map<string, seq<RangeChange>>, specs: seq<(string, SpecChange)>,
                          pins: seq<(string, string, string)>, units: seq<string>) {
    forall unit :: ChangesOf(changed, unit) == SpecMoves(specs, unit) + ContractMoves(pins, unit, units)
  }

  lemma NothingGrouped(units: seq<string>)
    ensures Grouped(map[], [], [], units)
  {
  }

  lemma OneMoreSpec(changed: map<string, seq<RangeChange>>, specs: seq<(string, SpecChange)>, row: (string, SpecChange),
                    units: seq<string>)
    requires Grouped(changed, specs, [], units)
    ensures var c := row.1;
      Grouped(changed[row.0 := ChangesOf(changed, row.0) + [RangeChange(row.0 + "/pyproject.toml", c.depName, c.oldReq, c.newReq)]],
              specs + [row], [], units)
  {
    assert (specs + [row])[..|specs|] == specs;
  }

  lemma {:induction false} OneMorePin(changed: map<string, seq<RangeChange>>, specs: seq<(string, SpecChange)>,
                                      pins: seq<(string, string, string)>, row: (string, string, string), units: seq<string>)
    requires Grouped(changed, specs, pins, units) && OwningUnit(row.0, units).Some?
    ensures var owner := OwningUnit(row.0, units).value;
      Grouped(changed[owner := ChangesOf(changed, owner) + [RangeChange(row.0, "contract", row.1, row.2)]], specs, pins + [row], units)
  {
    hide OwningUnit;
    assert (pins + [row])[..|pins|] == pins;
  }

  function ChangesOf(changed: map<string, seq<RangeChange>>, unit: string): seq<RangeChange> {
    if unit in changed then changed[unit] else []
  }

  /** `changes_by_unit`, the touched units in path order. */
  method GroupChanges(report: Report, units: seq<string>) returns (r: Result<seq<Move>, Error>)
    ensures r == ChangesByUnit(report, units)
  {
    hide Ownerless, SpecMoves, ContractMoves, NonemptyMoves;
    var grouped := GroupByUnit(report, units);
    if grouped.Failure? {
      return Failure(grouped.error);
    }
    var moves := [];
    AllMoves(report, units);
    for i := 0 to |units|
      invariant moves + NonemptyMoves(report, units[i..], units) == NonemptyMoves(report, units, units)
    {
      NextMoves(report, units, i, moves);
      var changes := ChangesOf(grouped.value, units[i]);
      if changes != [] {
        moves := moves + [Move(units[i], changes)];
      }
    }
    AllMoves(report, units);
    assert moves + [] == moves;
    r := Success(moves);
  }

  lemma {:induction false} AllMoves(report: Report, units: seq<string>)
    ensures units[0..] == units && NonemptyMoves(report, units[|units|..], units) == []
  {
  }

  lemma {:induction false} NextMoves(report: Report, units: seq<string>, i: nat, moves: seq<Move>)
    requires i < |units|
    ensures var changes, rest := MovesIn(report, units[i], units), NonemptyMoves(report, units[i + 1..], units);
      moves + NonemptyMoves(report, units[i..], units) ==
        if changes == [] then moves + rest else moves + [Move(units[i], changes)] + rest
  {
    hide MovesIn;
    assert units[i..][1..] == units[i + 1..];
    var changes, rest := MovesIn(report, units[i], units), NonemptyMoves(report, units[i + 1..], units);
    assert [] + rest == rest && moves + ([Move(units[i], changes)] + rest) == moves + [Move(units[i], changes)] + rest;
  }

  /** The loop of `uncovered_moves`. */
  method CollectUncovered(tree: Tree, moves: seq<Move>, base: map<string, string>) returns (r: Result<map<string, Uncovered>, Error>)
    ensures r == UncoveredAmong(tree, moves, base)
  {
    hide WorkingVersion;
    var found: map<string, Uncovered> := map[];
    for i := 0 to |moves|
      invariant UncoveredAmong(tree, moves[..i], base) == Success(found)
    {
      var move := moves[i];
      assert moves[..i + 1][..i] == moves[..i];
      if move.path !in base {
        found := found[move.path := Uncovered(None, move.changes)];
      } else {
        var working := WorkingVersion(tree, move.path);
        if working.Failure? {
          VersionlessStays(tree, moves, base, i + 1);
          return Failure(working.error);
        }
        if base[move.path] == working.value {
          found := found[move.path := Uncovered(Some(working.value), move.changes)];
        }
      }
    }
    assert moves[..|moves|] == moves;
    r := Success(found);
  }

  lemma {:induction false} VersionlessStays(tree: Tree, moves: seq<Move>, base: map<string, string>, n: nat)
    requires n <= |moves| && UncoveredAmong(tree, moves[..n], base).Failure?
    ensures UncoveredAmong(tree, moves, base) == UncoveredAmong(tree, moves[..n], base)
    decreases |moves|
  {
    if n < |moves| {
      var before := moves[..|moves| - 1];
      assert before[..n] == moves[..n];
      VersionlessStays(tree, before, base, n);
    } else {
      assert moves[..n] == moves;
    }
  }

  /** `query`, which writes nothing. */
  method AskMoves(tree: Tree, versions: map<string, string>) returns (r: Result<seq<Move>, Error>)
    ensures r == Query(tree, versions)
  {
    hide CandidateFirstParty, DriftUnder, ChangesByUnit;
    var firstParty := CandidateVersions(tree, versions);
    if firstParty.Failure? {
      return Failure(firstParty.error);
    }
    var report := FindDrift(tree, firstParty.value);
    if report.Failure? {
      return Failure(report.error);
    }
    r := GroupChanges(report.value, tree.units);
  }

  /** `uncovered_moves`. */
  method FindUncovered(tree: Tree, base: map<string, string>) returns (r: Result<map<string, Uncovered>, Error>)
    ensures r == UncoveredMoves(tree, base)
  {
    hide DriftUnder, ChangesByUnit, UncoveredAmong, FirstPartyVersions;
    var versions := CollectVersions(tree.members);
    var report := FindDrift(tree, versions);
    if report.Failure? {
      return Failure(report.error);
    }
    var moves := GroupChanges(report.value, tree.units);
    if moves.Failure? {
      return Failure(moves.error);
    }
    r := CollectUncovered(tree, moves.value, base);
  }

  lemma {:induction false} UnnamedStays(members: seq<Member>, versions: map<string, string>, firstParty: Versions, n: nat)
    requires n <= |members| && PutCandidates(members[..n], versions, firstParty).Failure?
    ensures PutCandidates(members, versions, firstParty) == PutCandidates(members[..n], versions, firstParty)
    decreases |members|
  {
    if n < |members| {
      var before := members[..|members| - 1];
      assert before[..n] == members[..n];
      UnnamedStays(before, versions, firstParty, n);
    } else {
      assert members[..n] == members;
    }
  }
}
