/** The pyproject analysis and rewrite of scripts/_range_sync/pyproject_specs.py and the name
    normalization of scripts/_range_sync/members.py.

    A pyproject is its parsed values and its quoted literals, in file order; the literals of the
    two scanned dependency tables are marked. */
module PyprojectSpecs {
  import opened Outcome
  import opened Text
  import opened VersionRanges

  datatype Style = DOUBLE | SINGLE

  datatype Literal = Literal(text: string, style: Style, scanned: bool)

  /** An absent name or version is the empty string, which the code treats alike. */
  datatype Pyproject = Pyproject(name: string, version: string, pinned: seq<string>, literals: seq<Literal>)

  datatype SpecChange = SpecChange(depName: string, oldReq: string, newReq: string)

  datatype Kept = Kept(depName: string, keptRange: string)

  datatype Analysis = Analysis(changes: seq<SpecChange>, preserved: seq<Kept>, warnings: seq<SpecChange>)

  datatype Error =
    | StrayPinTable
    | NoContractPackage
    | BadVersion(version: string)
    | UnknownPins(names: set<string>)
    | LiteralNotFound(literal: string)
    | NoOwner(file: string)
    | UnknownUnits(paths: set<string>)
    | MalformedVersions(paths: set<string>)
    | UnnamedMember(path: string)
    | NoVersion(path: string)

  // ---- Names -----------------------------------------------------------------------------

  predicate Separator(c: char) { c == '-' || c == '_' || c == '.' }

  function LowerChar(c: char): char { if 'A' <= c <= 'Z' then (c as int + 32) as char else c }

  function LowerCollapsed(s: string): string {
    if s == "" then ""
    else if !Separator(s[0]) then [LowerChar(s[0])] + LowerCollapsed(s[1..])
    else if |s| > 1 && Separator(s[1]) then LowerCollapsed(s[1..])
    else "-" + LowerCollapsed(s[1..])
  }

  /** `_normalize_name`: lower case, each run of separators one `-`. */
  function NormalizeName(name: string): string { LowerCollapsed(Strip(name)) }

  /** First-party versions by normalized name. */
  type Versions = map<string, string>

  // ---- What one requirement calls for ----------------------------------------------------

  datatype Verdict =
    | Leave
    | Rewrite(change: SpecChange, guarded: bool)
    | Preserve(kept: Kept)
    | Raise(error: Error)

  /** The name of a first-party requirement. */
  function FirstPartyKey(raw: string, firstParty: Versions): Option<string> {
    match ParseRequirement(raw)
    case None => None
    case Some(p) => if NormalizeName(p.name) in firstParty then Some(NormalizeName(p.name)) else None
  }

  /** The body of the loop of `analyze_pyproject`. */
  function Judge(raw: string, firstParty: Versions, pinned: set<string>): Verdict {
    match FirstPartyKey(raw, firstParty)
    case None => Leave
    case Some(key) =>
      var p := ParseRequirement(raw).value;
      if p.specifier == "" then Leave else
      match DeriveRange(firstParty[key])
      case None => Raise(BadVersion(firstParty[key]))
      case Some(derived) =>
        var newReq := p.WithSpecifier(derived);
        if p.specifier == derived || newReq == raw then Leave
        else if PinGuarded(p.specifier, derived) && key in pinned then Preserve(Kept(p.name, p.specifier))
        else Rewrite(SpecChange(p.name, raw, newReq), PinGuarded(p.specifier, derived))
  }

  function PinnedDeps(py: Pyproject): set<string> {
    set name | name in py.pinned :: NormalizeName(name)
  }

  function Scanned(literals: seq<Literal>): (raws: seq<string>)
    ensures forall raw :: raw in raws <==> exists i :: 0 <= i < |literals| && literals[i].scanned && literals[i].text == raw
  {
    if literals == [] then [] else
    var last := literals[|literals| - 1];
    Scanned(literals[..|literals| - 1]) + if last.scanned then [last.text] else []
  }

  function FirstPartyDeps(raws: seq<string>, firstParty: Versions): set<string> {
    set raw | raw in raws && FirstPartyKey(raw, firstParty).Some? :: FirstPartyKey(raw, firstParty).value
  }

  /** The three tables the loop fills, each keyed by requirement and listed by first occurrence. */
  function Verdicts(raws: seq<string>, firstParty: Versions, pinned: set<string>): Result<Analysis, Error>
    decreases |raws|
  {
    if raws == [] then Success(Analysis([], [], [])) else
    var raw, before := raws[|raws| - 1], raws[..|raws| - 1];
    var a :- Verdicts(before, firstParty, pinned);
    Entered(a, Judge(raw, firstParty, pinned), raw in before)
  }

  /** The tables once a requirement is judged; one judged before is in them already. */
  function Entered(a: Analysis, verdict: Verdict, seen: bool): Result<Analysis, Error> {
    match verdict
    case Raise(e) => Failure(e)
    case Leave => Success(a)
    case Preserve(kept) => Success(if seen then a else a.(preserved := a.preserved + [kept]))
    case Rewrite(change, guarded) =>
      Success(if seen then a
              else Analysis(a.changes + [change], a.preserved, if guarded then a.warnings + [change] else a.warnings))
  }

  function Analyze(py: Pyproject, firstParty: Versions): Result<Analysis, Error> {
    var raws := Scanned(py.literals);
    var unknown := PinnedDeps(py) - FirstPartyDeps(raws, firstParty);
    if unknown != {} then Failure(UnknownPins(unknown)) else Verdicts(raws, firstParty, PinnedDeps(py))
  }

  // ---- Rewriting the text ----------------------------------------------------------------

  predicate Occurs(literals: seq<Literal>, text: string, style: Style) {
    exists i :: 0 <= i < |literals| && literals[i].text == text && literals[i].style == style
  }

  /** The quote style whose occurrences of `was` are replaced: double when there is one. */
  function StyleOf(literals: seq<Literal>, was: string): Style {
    if Occurs(literals, was, DOUBLE) then DOUBLE else SINGLE
  }

  function ReplaceQuoted(literals: seq<Literal>, was: string, now: string): (r: seq<Literal>)
    ensures |r| == |literals|
  {
    var style := StyleOf(literals, was);
    seq(|literals|, i requires 0 <= i < |literals| =>
      if literals[i].text == was && literals[i].style == style then literals[i].(text := now) else literals[i])
  }

  function RewriteText(literals: seq<Literal>, changes: seq<SpecChange>): (r: Result<seq<Literal>, Error>)
    ensures r.Success? ==> |r.value| == |literals|
    decreases |changes|
  {
    if changes == [] then Success(literals) else
    var c := changes[0];
    if !Occurs(literals, c.oldReq, StyleOf(literals, c.oldReq)) then Failure(LiteralNotFound(c.oldReq))
    else RewriteText(ReplaceQuoted(literals, c.oldReq, c.newReq), changes[1..])
  }

  // ---- The loops, as the code runs them --------------------------------------------------

  method AnalyzePyproject(py: Pyproject, firstParty: Versions) returns (r: Result<Analysis, Error>)
    ensures r == Analyze(py, firstParty)
  {
    hide Judge, FirstPartyKey;
    var raws, pinned := Scanned(py.literals), PinnedDeps(py);
    var present := {};
    for i := 0 to |raws|
      invariant present == FirstPartyDeps(raws[..i], firstParty)
    {
      assert raws[..i + 1] == raws[..i] + [raws[i]];
      var key := FirstPartyKey(raws[i], firstParty);
      if key.Some? {
        present := present + {key.value};
      }
    }
    assert raws[..|raws|] == raws;
    if pinned - present != {} {
      return Failure(UnknownPins(pinned - present));
    }
    var changes, preserved, warnings: seq<SpecChange>, seen: set<string> := [], [], [], {};
    for i := 0 to |raws|
      invariant seen == set raw | raw in raws[..i]
      invariant Verdicts(raws[..i], firstParty, pinned) == Success(Analysis(changes, preserved, warnings))
    {
      var raw := raws[i];
      assert raws[..i + 1][..i] == raws[..i] && raws[..i + 1][i] == raw;
      match Judge(raw, firstParty, pinned) {
        case Raise(e) =>
          RaisingStays(raws, firstParty, pinned, i + 1);
          return Failure(e);
        case Leave =>
        case Preserve(kept) =>
          if raw !in seen {
            preserved := preserved + [kept];
          }
        case Rewrite(change, guarded) =>
          if raw !in seen {
            changes := changes + [change];
            if guarded {
              warnings := warnings + [change];
            }
          }
      }
      seen := seen + {raw};
    }
    r := Success(Analysis(changes, preserved, warnings));
  }

  lemma {:induction false} RaisingStays(raws: seq<string>, firstParty: Versions, pinned: set<string>, n: nat)
    requires n <= |raws| && Verdicts(raws[..n], firstParty, pinned).Failure?
    ensures Verdicts(raws, firstParty, pinned) == Verdicts(raws[..n], firstParty, pinned)
    decreases |raws|
  {
    if n < |raws| {
      var before := raws[..|raws| - 1];
      assert before[..n] == raws[..n];
      RaisingStays(before, firstParty, pinned, n);
    } else {
      assert raws[..n] == raws;
    }
  }

  method RewritePyprojectText(literals: seq<Literal>, changes: seq<SpecChange>) returns (r: Result<seq<Literal>, Error>)
    ensures r == RewriteText(literals, changes)
  {
    var text := literals;
    for i := 0 to |changes|
      invariant RewriteText(text, changes[i..]) == RewriteText(literals, changes)
    {
      var c := changes[i];
      if !Occurs(text, c.oldReq, StyleOf(text, c.oldReq)) {
        return Failure(LiteralNotFound(c.oldReq));
      }
      text := ReplaceQuoted(text, c.oldReq, c.newReq);
    }
    r := Success(text);
  }
}
