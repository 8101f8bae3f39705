/** The floor and cap rule and the requirement parser of scripts/_range_sync/version_ranges.py.
    Each regular expression there is a scanner here, with the leftmost match `search` finds. */
module VersionRanges {
  import opened Outcome
  import opened Text

  // ---- The derived range -----------------------------------------------------------------

  predicate Quote(c: char) { c == '"' || c == '\'' }

  /** The `>=floor,<cap` range of a release `major.minor`. */
  function RangeOf(major: nat, minor: nat): string {
    ">=" + Decimal(major) + "." + Decimal(minor) + ",<" + CapOf(major, minor)
  }

  function CapOf(major: nat, minor: nat): string {
    if major == 0 then "0." + Decimal(minor + 1) else Decimal(major + 1)
  }

  /** The major and minor numbers `derive_range` reads: the first two dot-separated runs of
      digits, the second 0 when missing; None where the first is empty and `int()` raises. */
  function MajorMinor(version: string): Option<(nat, nat)> {
    var v := StripWhere(Strip(version), Quote);
    var i := DigitsEnd(v, 0);
    if i == 0 then None else
    var j := if i < |v| && v[i] == '.' then DigitsEnd(v, i + 1) else i;
    Some((Number(v[..i]), if j > i + 1 then Number(v[i + 1..j]) else 0))
  }

  /** `derive_range`; None where it raises. */
  function DeriveRange(version: string): Option<string> {
    match MajorMinor(version)
    case None => None
    case Some((major, minor)) => Some(RangeOf(major, minor))
  }

  // ---- The majors a specifier names ------------------------------------------------------

  /** The operators a number is looked for after. */
  datatype Operator = FLOOR | CAP | COMPAT | FLOOR_VERSION

  /** Whether `op` stands at index `i`, and how long it is. */
  function OperatorAt(s: string, i: nat, op: Operator): Option<nat> {
    match op
    case FLOOR => if At(s, i, ">=") then Some(2) else None
    case CAP => if At(s, i, "<") then Some(1) else None
    case COMPAT => if At(s, i, "~=") || At(s, i, "==") then Some(2) else None
    case FLOOR_VERSION => if At(s, i, ">=") || At(s, i, "~=") || At(s, i, "==") then Some(2) else None
  }

  /** Where the leftmost number after `op` starts: the operator, white space, a digit. */
  function Search(s: string, i: nat, op: Operator): (r: Option<nat>)
    requires i <= |s|
    ensures r.Some? ==> r.value < |s| && Digit(s[r.value])
    decreases |s| - i
  {
    if i == |s| then None else
    var found := OperatorAt(s, i, op);
    if found.Some? && i + found.value <= |s|
       && var k := SkipWhile(s, i + found.value, Space); k < |s| && Digit(s[k])
    then Some(SkipWhile(s, i + found.value, Space))
    else Search(s, i + 1, op)
  }

  /** The whole number that starts at `i`. */
  function NumberFrom(s: string, i: nat): nat
    requires i < |s| && Digit(s[i])
  {
    Number(s[i..DigitsEnd(s, i)])
  }

  function SearchMajor(s: string, op: Operator): Option<nat> {
    match Search(s, 0, op)
    case None => None
    case Some(i) => Some(NumberFrom(s, i))
  }

  datatype Majors = Majors(floor: Option<nat>, cap: Option<nat>)

  /** `_major_structure`. */
  function MajorStructure(spec: string): Majors {
    var s := Strip(spec);
    if s == "" then Majors(None, None) else
    match SearchMajor(s, COMPAT)
    case Some(major) => Majors(Some(major), Some(major))
    case None => Majors(SearchMajor(s, FLOOR), SearchMajor(s, CAP))
  }

  predicate Differ(a: Option<nat>, b: Option<nat>) { a.Some? && b.Some? && a != b }

  predicate IsCrossMajor(oldSpec: string, newSpec: string) {
    var was, now := MajorStructure(oldSpec), MajorStructure(newSpec);
    Differ(was.floor, now.floor) || Differ(was.cap, now.cap)
  }

  predicate PinGuarded(oldSpec: string, derived: string) {
    IsCrossMajor(oldSpec, derived) || (Strip(oldSpec) != "" && MajorStructure(oldSpec) == Majors(None, None))
  }

  /** The end of the dotted number (`\d+(\.\d+)*`) whose current run starts at `i`. */
  function DottedEnd(s: string, i: nat): (j: nat)
    requires i < |s| && Digit(s[i])
    ensures i < j <= |s|
    decreases |s| - i
  {
    var j := DigitsEnd(s, i);
    assert j > i;
    if j + 1 < |s| && s[j] == '.' && Digit(s[j + 1]) then DottedEnd(s, j + 1) else j
  }

  /** `_descriptor_range_from_spec`: the range of the version a preserved spec starts from. */
  function DescriptorRangeFromSpec(spec: string): Option<string> {
    match Search(spec, 0, FLOOR_VERSION)
    case None => None
    case Some(i) => DeriveRange(spec[i..DottedEnd(spec, i)])
  }

  // ---- Requirements ----------------------------------------------------------------------

  datatype Requirement = Requirement(name: string, extras: string, specifier: string, marker: string) {
    function WithSpecifier(spec: string): string { name + extras + spec + marker }
  }

  predicate NameChar(c: char) { Alnum(c) || c == '.' || c == '_' || c == '-' }

  predicate NotAlnum(c: char) { !Alnum(c) }

  predicate NotSemicolon(c: char) { c != ';' }

  predicate NotBracket(c: char) { c != ']' }

  /** The end of the name at `i`: the longest run of name characters that ends in a letter or digit. */
  function NameEnd(s: string, i: nat): (e: nat)
    requires i < |s| && Alnum(s[i])
    ensures i < e <= |s| && Alnum(s[e - 1])
  {
    var run := SkipWhile(s, i, NameChar);
    TrimEnd(s[..run], i + 1, NotAlnum)
  }

  /** The end of the extras at `i`, or `i` when no closed bracket starts there. */
  function ExtrasEnd(s: string, i: nat): (e: nat)
    requires i <= |s|
    ensures i <= e <= |s|
  {
    if i < |s| && s[i] == '[' then
      var close := SkipWhile(s, i, NotBracket);
      if close < |s| then close + 1 else i
    else i
  }

  function ParseRequirement(raw: string): Option<Requirement> {
    var start := SkipWhile(raw, 0, Space);
    if start == |raw| || !Alnum(raw[start]) then None else
    var nameEnd := NameEnd(raw, start);
    var extrasStart := SkipWhile(raw, nameEnd, Space);
    var extrasEnd := ExtrasEnd(raw, extrasStart);
    var (specifier, marker) := SplitMarker(raw[SkipWhile(raw, extrasEnd, Space)..]);
    Some(Requirement(raw[start..nameEnd], raw[extrasStart..extrasEnd], specifier, marker))
  }

  /** What follows the name and extras, cut at its first semicolon. */
  function SplitMarker(rest: string): (string, string) {
    var semicolon := SkipWhile(rest, 0, NotSemicolon);
    (Strip(rest[..semicolon]), rest[semicolon..])
  }

  // ---- What a parsed requirement looks like ----------------------------------------------

  /** A name as the parser cuts it out: name characters, the first and last a letter or digit. */
  predicate NameShape(name: string) {
    && name != "" && Alnum(name[0]) && Alnum(name[|name| - 1])
    && forall i :: 0 <= i < |name| ==> NameChar(name[i])
  }

  predicate ExtrasShape(extras: string) {
    extras == "" || (&& |extras| >= 2 && extras[0] == '[' && extras[|extras| - 1] == ']'
                     && forall i :: 0 <= i < |extras| - 1 ==> extras[i] != ']')
  }

  predicate MarkerShape(marker: string) { marker == "" || marker[0] == ';' }

  /** A specifier that cannot run into what stands on either side of it. */
  predicate SpecifierShape(spec: string) {
    && spec != "" && !Space(spec[0]) && !Space(spec[|spec| - 1])
    && !NameChar(spec[0]) && spec[0] != '['
    && forall i :: 0 <= i < |spec| ==> spec[i] != ';'
  }

  lemma NameCutShape(raw: string, i: nat)
    requires i < |raw| && Alnum(raw[i])
    ensures NameShape(raw[i..NameEnd(raw, i)])
  {
    var e := NameEnd(raw, i);
    assert e <= SkipWhile(raw, i, NameChar);
    assert raw[i..e][|raw[i..e]| - 1] == raw[e - 1];
  }

  lemma ParsedShape(raw: string)
    ensures var p := ParseRequirement(raw);
      p.Some? ==> NameShape(p.value.name) && ExtrasShape(p.value.extras) && MarkerShape(p.value.marker)
  {
    hide NameEnd, NameShape, NameChar, Space, Alnum;
    var start := SkipWhile(raw, 0, Space);
    if start < |raw| && Alnum(raw[start]) {
      NameCutShape(raw, start);
    }
  }

  lemma NameEndAfter(name: string, tail: string)
    requires NameShape(name) && tail != "" && !NameChar(tail[0])
    ensures NameEnd(name + tail, 0) == |name|
  {
    var raw := name + tail;
    SkipWhileIs(raw, 0, NameChar, |name|);
    assert raw[..|name|] == name;
  }

  lemma ExtrasEndAfter(raw: string, i: nat, extras: string)
    requires ExtrasShape(extras) && At(raw, i, extras)
    requires extras == "" ==> i < |raw| && raw[i] != '['
    ensures ExtrasEnd(raw, i) == i + |extras|
  {
    if extras != "" {
      var piece := raw[i..i + |extras|];
      assert forall k :: i <= k < i + |extras| ==> raw[k] == piece[k - i];
      SkipWhileIs(raw, i, NotBracket, i + |extras| - 1);
    }
  }

  lemma MarkerSplits(spec: string, marker: string)
    requires SpecifierShape(spec) && MarkerShape(marker)
    ensures SplitMarker(spec + marker) == (spec, marker)
  {
    var rest := spec + marker;
    SkipWhileIs(rest, 0, NotSemicolon, |spec|);
    assert rest[..|spec|] == spec && rest[|spec|..] == marker;
    StripKeeps(spec, Space);
  }

  /** Re-parsing a rebuilt requirement gives back its name, extras and marker, and the new specifier. */
  lemma RebuiltParses(p: Requirement, spec: string)
    requires NameShape(p.name) && ExtrasShape(p.extras) && MarkerShape(p.marker) && SpecifierShape(spec)
    ensures ParseRequirement(p.WithSpecifier(spec)) == Some(p.(specifier := spec))
  {
    hide NameEnd, NameChar, Alnum, Space, ExtrasEnd, SplitMarker, NameShape, ExtrasShape, MarkerShape, SpecifierShape;
    var raw, rest := p.WithSpecifier(spec), spec + p.marker;
    var n, e := |p.name|, |p.name| + |p.extras|;
    HeadIsPlain(p, spec);
    assert raw == p.name + (p.extras + rest);
    assert raw[..n] == p.name && raw[n..e] == p.extras && raw[e..] == rest;
    assert SkipWhile(raw, 0, Space) == 0 by { SkipWhileIs(raw, 0, Space, 0); }
    assert NameEnd(raw, 0) == n by { NameEndAfter(p.name, p.extras + rest); }
    assert SkipWhile(raw, n, Space) == n by { SkipWhileIs(raw, n, Space, n); }
    assert ExtrasEnd(raw, n) == e by { ExtrasEndAfter(raw, n, p.extras); }
    assert SkipWhile(raw, e, Space) == e by { SkipWhileIs(raw, e, Space, e); }
    MarkerSplits(spec, p.marker);
  }

  lemma HeadIsPlain(p: Requirement, spec: string)
    requires NameShape(p.name) && ExtrasShape(p.extras) && SpecifierShape(spec)
    ensures p.name != "" && Alnum(p.name[0]) && !Space(p.name[0])
    ensures spec != "" && spec[0] != '[' && !NameChar(spec[0]) && !Space(spec[0])
    ensures p.extras != "" ==> !NameChar(p.extras[0]) && !Space(p.extras[0])
  {
  }
}
