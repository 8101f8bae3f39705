/** What the specifier scanners make of specifiers as people write them, beside the derived ones: the
    majors of each form, when a pin counts as crossing a major, the range a descriptor follows. */
module SpecifierLaws {
  import opened Outcome
  import opened Text
  import opened VersionRanges
  import opened RangeAlgebra

  // ---- Written versions ------------------------------------------------------------------

  /** Digits and dots, a digit first. */
  predicate Dotted(v: string) {
    v != "" && Digit(v[0]) && forall i :: 0 <= i < |v| ==> Digit(v[i]) || v[i] == '.'
  }

  /** A dotted version whose first number is `n`. */
  ghost predicate Leads(v: string, n: nat) {
    && Dotted(v) && |Decimal(n)| <= |v| && v[..|Decimal(n)|] == Decimal(n)
    && (|Decimal(n)| < |v| ==> !Digit(v[|Decimal(n)|]))
  }

  lemma LeadAt(s: string, i: nat, v: string, n: nat)
    requires Leads(v, n) && At(s, i, v) && (i + |v| < |s| ==> !Digit(s[i + |v|]))
    ensures i < |s| && Digit(s[i]) && NumberFrom(s, i) == n
  {
    hide Decimal, Number, NumberFrom;
    var d := |Decimal(n)|;
    assert s[i..i + |v|][..d] == s[i..i + d] && s[i..i + |v|][0] == s[i];
    assert d < |v| ==> s[i + d] == s[i..i + |v|][d];
    DecimalEndsAt(s, i, n);
  }

  /** No operator starts at a digit, a dot or a comma. */
  predicate Plain(c: char) { Digit(c) || c == '.' || c == ',' }

  lemma NoOperatorAt(s: string, k: nat, op: Operator)
    requires k < |s| && Plain(s[k])
    ensures OperatorAt(s, k, op) == None
  {
    assert k + 2 <= |s| ==> s[k..k + 2][0] == s[k];
    assert s[k..k + 1][0] == s[k];
  }

  lemma {:induction false} PlainSkips(s: string, i: nat, j: nat, op: Operator)
    requires i <= j <= |s| && forall k :: i <= k < j ==> Plain(s[k])
    ensures Search(s, i, op) == Search(s, j, op)
  {
    hide Search, OperatorAt, Plain;
    forall k | i <= k < j
      ensures OperatorAt(s, k, op) == None
    {
      NoOperatorAt(s, k, op);
    }
    SearchSkips(s, i, j, op);
  }

  lemma PieceIsPlain(s: string, i: nat, v: string)
    requires At(s, i, v) && Dotted(v)
    ensures forall k :: i <= k < i + |v| ==> Plain(s[k])
    ensures Digit(s[i])
  {
    assert forall k :: i <= k < i + |v| ==> s[k] == s[i..i + |v|][k - i];
  }

  // ---- The forms -------------------------------------------------------------------------

  function TwoSided(low: string, high: string): string { ">=" + low + ",<" + high }

  lemma TwoSidedAt(low: string, high: string)
    requires Dotted(low) && Dotted(high)
    ensures var s, n := TwoSided(low, high), |low|;
      && |s| == 4 + n + |high| && s[0] == '>' && s[1] == '=' && At(s, 2, low) && s[2 + n] == ',' && s[3 + n] == '<'
      && At(s, 4 + n, high) && Strip(s) == s
  {
    var s, n := TwoSided(low, high), |low|;
    assert s[2..2 + n] == low && s[4 + n..] == high;
    PieceIsPlain(s, 4 + n, high);
    hide Dotted;
    assert s[|s| - 1] == '.' || Digit(s[|s| - 1]);
    assert !Space(s[|s| - 1]);
    StripKeeps(s, Space);
    hide Space, StripWhere;
  }

  /** `s` is `>=` and `n` plain characters, a comma and `<`, and plain characters to the end. */
  ghost predicate Sides(s: string, n: nat) {
    && 4 + n < |s| && n > 0 && s[0] == '>' && s[1] == '=' && s[3 + n] == '<' && Digit(s[2]) && Digit(s[4 + n])
    && (forall k :: 2 <= k < 3 + n ==> Plain(s[k])) && (forall k :: 4 + n <= k < |s| ==> Plain(s[k]))
  }

  lemma TwoSidedSides(low: string, high: string)
    requires Dotted(low) && Dotted(high)
    ensures Sides(TwoSided(low, high), |low|)
  {
    var s, n := TwoSided(low, high), |low|;
    TwoSidedAt(low, high);
    PieceIsPlain(s, 2, low);
    PieceIsPlain(s, 4 + n, high);
    hide TwoSided, At;
  }

  /** An operator, character by character. */
  predicate Reading(s: string, k: nat, op: Operator)
    requires k < |s|
  {
    match op
    case FLOOR => k + 1 < |s| && s[k] == '>' && s[k + 1] == '='
    case CAP => s[k] == '<'
    case COMPAT => k + 1 < |s| && (s[k] == '~' || s[k] == '=') && s[k + 1] == '='
    case FLOOR_VERSION => k + 1 < |s| && (s[k] == '>' || s[k] == '~' || s[k] == '=') && s[k + 1] == '='
  }

  lemma OperatorReads(s: string, k: nat, op: Operator)
    requires k < |s|
    ensures OperatorAt(s, k, op) == if Reading(s, k, op) then Some(if op.CAP? then 1 else 2) else None
  {
    assert s[k..k + 1] == [s[k]];
    if k + 1 < |s| {
      assert s[k..k + 2] == [s[k], s[k + 1]];
    }
  }

  lemma {:induction false} SidesFloor(s: string, n: nat)
    requires Sides(s, n)
    ensures Search(s, 0, FLOOR) == Some(2) && Search(s, 0, FLOOR_VERSION) == Some(2)
  {
    hide Search, Plain, OperatorAt;
    OperatorReads(s, 0, FLOOR);
    OperatorReads(s, 0, FLOOR_VERSION);
    SearchHit(s, 0, FLOOR, 2);
    SearchHit(s, 0, FLOOR_VERSION, 2);
  }

  lemma {:induction false} SidesCap(s: string, n: nat)
    requires Sides(s, n)
    ensures Search(s, 0, CAP) == Some(4 + n)
  {
    hide Search, Plain, OperatorAt;
    OperatorReads(s, 0, CAP);
    OperatorReads(s, 1, CAP);
    OperatorReads(s, 3 + n, CAP);
    SearchSkips(s, 0, 2, CAP);
    PlainSkips(s, 2, 3 + n, CAP);
    SearchHit(s, 3 + n, CAP, 1);
  }

  lemma {:induction false} SidesCompat(s: string, n: nat)
    requires Sides(s, n)
    ensures Search(s, 0, COMPAT) == None
  {
    NothingBehind(s, COMPAT);
    hide Search, Plain, OperatorAt;
    OperatorReads(s, 0, COMPAT);
    OperatorReads(s, 1, COMPAT);
    OperatorReads(s, 3 + n, COMPAT);
    SearchSkips(s, 0, 2, COMPAT);
    PlainSkips(s, 2, 3 + n, COMPAT);
    SearchSkips(s, 3 + n, 4 + n, COMPAT);
    PlainSkips(s, 4 + n, |s|, COMPAT);
  }

  lemma {:induction false} NothingBehind(s: string, op: Operator)
    ensures Search(s, |s|, op) == None
  {
  }

  /** A floor and a cap: the majors of both. */
  lemma TwoSidedMajors(low: string, high: string, a: nat, b: nat)
    requires Leads(low, a) && Leads(high, b)
    ensures MajorStructure(TwoSided(low, high)) == Majors(Some(a), Some(b))
  {
    var s, n := TwoSided(low, high), |low|;
    TwoSidedAt(low, high);
    TwoSidedSides(low, high);
    SidesFloor(s, n);
    SidesCap(s, n);
    SidesCompat(s, n);
    hide TwoSided, Sides, Search, Strip, NumberFrom;
    LeadAt(s, 2, low, a);
    LeadAt(s, 4 + n, high, b);
  }

  /** One clause: an operator and a version. */
  function OneSided(op: string, v: string): string { op + v }

  lemma OneSidedAt(op: string, v: string)
    requires Dotted(v) && op in {">=", "<", "~=", "=="}
    ensures var s, n := OneSided(op, v), |op|;
      && n < |s| == n + |v| && At(s, n, v) && At(s, 0, op) && Strip(s) == s && 0 < n <= 2
      && Digit(s[n]) && (forall k :: n <= k < |s| ==> Plain(s[k])) && (forall k :: 0 <= k < n ==> s[k] == op[k])
  {
    var s, n := OneSided(op, v), |op|;
    assert s[n..n + |v|] == v && s[0..n] == op;
    PieceIsPlain(s, n, v);
    assert s[|s| - 1] == '.' || Digit(s[|s| - 1]);
    assert s[0] == op[0];
    StripKeeps(s, Space);
  }

  /** Whether the scanner of `scan` looks behind the operator. */
  predicate Reads(scan: Operator, op: string) {
    match scan
    case FLOOR => op == ">="
    case CAP => op == "<"
    case COMPAT => op == "~=" || op == "=="
    case FLOOR_VERSION => op != "<"
  }

  /** What a scanner reads at a clause's operator, and inside it. */
  lemma OperatorOf(op: string, v: string, scan: Operator)
    requires Dotted(v) && op in {">=", "<", "~=", "=="}
    ensures var s := OneSided(op, v);
      && OperatorAt(s, 0, scan) == (if Reads(scan, op) then Some(|op|) else None)
      && (|op| == 2 ==> OperatorAt(s, 1, scan) == None)
  {
    var s := OneSided(op, v);
    OneSidedAt(op, v);
    OperatorReads(s, 0, scan);
    if |op| == 2 {
      OperatorReads(s, 1, scan);
    }
    hide OneSided, OperatorAt, Strip, At, Plain;
  }

  /** Where the scanner of `scan` finds the version of a clause: behind its own operator. */
  lemma {:induction false} OneSidedSearch(op: string, v: string, scan: Operator)
    requires Dotted(v) && op in {">=", "<", "~=", "=="}
    ensures Search(OneSided(op, v), 0, scan) == if Reads(scan, op) then Some(|op|) else None
  {
    hide *;
    var s, n := OneSided(op, v), |op|;
    OneSidedAt(op, v);
    NothingBehind(s, scan);
    OperatorOf(op, v, scan);
    if Reads(scan, op) {
      SearchHit(s, 0, scan, n);
    } else {
      SearchSkips(s, 0, n, scan);
      PlainSkips(s, n, |s|, scan);
    }
  }

  /** A floor alone, a cap alone, or a pin to one version or its compatible ones, which counts as both. */
  lemma OneSidedMajors(op: string, v: string, a: nat)
    requires Leads(v, a) && op in {">=", "<", "~=", "=="}
    ensures MajorStructure(OneSided(op, v)) == Majors(if op == "<" then None else Some(a), if op == ">=" then None else Some(a))
  {
    var s, n := OneSided(op, v), |op|;
    OneSidedAt(op, v);
    OneSidedSearch(op, v, FLOOR);
    OneSidedSearch(op, v, CAP);
    OneSidedSearch(op, v, COMPAT);
    hide OneSided, Search, Strip, NumberFrom;
    LeadAt(s, n, v, a);
  }

  // ---- Crossing a major ------------------------------------------------------------------

  /** A pin with a floor and a cap crosses a major if and only if either side names another major than
      the derived range does, the cap as much as the floor. */
  lemma TwoSidedCrosses(low: string, high: string, a: nat, b: nat, major: nat, minor: nat)
    requires Leads(low, a) && Leads(high, b)
    ensures var was, derived := TwoSided(low, high), RangeOf(major, minor);
      && (IsCrossMajor(was, derived) <==> a != major || b != CapMajor(major))
      && (PinGuarded(was, derived) <==> IsCrossMajor(was, derived))
  {
    hide RangeOf, MajorStructure, TwoSided, CapMajor;
    TwoSidedMajors(low, high, a, b);
    MajorsOfRange(major, minor);
  }

  /** A side that is missing cannot cross. */
  lemma OneSidedCrosses(op: string, v: string, a: nat, major: nat, minor: nat)
    requires Leads(v, a) && op in {">=", "<", "~=", "=="}
    ensures var was, derived := OneSided(op, v), RangeOf(major, minor);
      && (IsCrossMajor(was, derived) <==> (op != "<" && a != major) || (op != ">=" && a != CapMajor(major)))
      && (PinGuarded(was, derived) <==> IsCrossMajor(was, derived))
  {
    hide RangeOf, MajorStructure, OneSided, CapMajor;
    OneSidedMajors(op, v, a);
    MajorsOfRange(major, minor);
  }

  /** A side one of the two specifiers leaves open is not crossed, whichever of them it is. */
  lemma CrossingIsMutual(a: string, b: string)
    ensures IsCrossMajor(a, b) <==> IsCrossMajor(b, a)
    ensures var was, now := MajorStructure(a), MajorStructure(b);
      (was.floor.None? || now.floor.None?) && (was.cap.None? || now.cap.None?) ==> !IsCrossMajor(a, b)
  {
    hide MajorStructure;
  }

  /** No version stands behind an operator. */
  ghost predicate Unreadable(spec: string) {
    forall k: nat :: k < |spec| ==> spec[k] != '<' && (k + 1 < |spec| ==> spec[k..k + 2] !in {">=", "~=", "=="})
  }

  lemma {:induction false} UnreadableSearch(s: string, op: Operator)
    requires Unreadable(s)
    ensures Search(s, 0, op) == None
  {
    assert Search(s, |s|, op) == None;
    forall k | 0 <= k < |s|
      ensures OperatorAt(s, k, op) == None
    {
      assert s[k..k + 1][0] == s[k];
    }
    hide Search, OperatorAt, Unreadable;
    SearchSkips(s, 0, |s|, op);
  }

  /** A specifier no major can be read from is guarded whatever the derived range, a blank one never. */
  lemma UnreadableIsGuarded(spec: string, major: nat, minor: nat)
    requires Unreadable(Strip(spec))
    ensures PinGuarded(spec, RangeOf(major, minor)) <==> Strip(spec) != ""
  {
    hide Search, RangeOf, Strip, Unreadable, OperatorAt;
    var s := Strip(spec);
    UnreadableSearch(s, COMPAT);
    UnreadableSearch(s, FLOOR);
    UnreadableSearch(s, CAP);
  }

  // ---- The range a descriptor follows ----------------------------------------------------

  lemma {:induction false} DottedCovers(s: string, i: nat, a: string, b: string)
    requires Numeral(a) && Numeral(b) && At(s, i, a + "." + b)
    ensures Digit(s[i]) && DottedEnd(s, i) >= i + |a| + 1 + |b|
  {
    var piece, dot := s[i..i + |a| + 1 + |b|], i + |a|;
    assert forall k :: i <= k < i + |piece| ==> s[k] == piece[k - i];
    SkipWhileIs(s, i, Digit, dot);
    var end := DigitsEnd(s, dot + 1);
    assert end >= dot + 1 + |b|;
  }

  lemma {:induction false} VersionIsRelease(s: string, i: nat, end: nat, major: nat, minor: nat)
    requires i <= end <= |s| && At(s, i, Decimal(major) + "." + Decimal(minor))
    requires var n := i + |Decimal(major)| + 1 + |Decimal(minor)|; n <= end && (n < |s| ==> !Digit(s[n]))
    ensures DeriveRange(s[i..end]) == Some(RangeOf(major, minor))
  {
    hide Decimal, Number, RangeOf, MajorMinor, DeriveRange;
    var v := Decimal(major) + "." + Decimal(minor);
    var tail := s[i + |v|..end];
    assert s[i..end] == v + tail by {
      assert s[i..i + |v|] == v;
    }
    assert ReleaseText(s[i..end], major, minor, tail);
    DeriveOfRelease(s[i..end], major, minor);
  }

  lemma {:induction false} FloorAt(spec: string, op: string)
    requires op in {">=", "~=", "=="} && |spec| > 2 && spec[0..2] == op && Digit(spec[2])
    ensures Search(spec, 0, FLOOR_VERSION) == Some(2)
  {
    SearchHit(spec, 0, FLOOR_VERSION, 2);
  }

  /** A pin with a floor gives its descriptors the range of the floor's release, whichever of `>=`, `~=`
      and `==` names it and whatever follows; one with a cap alone gives none. */
  lemma {:induction false} FloorGivesTheRange(op: string, major: nat, minor: nat, tail: string)
    requires op in {">=", "~=", "=="} && (tail == "" || !Digit(tail[0]))
    ensures DescriptorRangeFromSpec(op + (Decimal(major) + "." + Decimal(minor)) + tail) == Some(RangeOf(major, minor))
  {
    var a, b := Decimal(major), Decimal(minor);
    var spec, n := op + (a + "." + b) + tail, |a| + 1 + |b|;
    hide Number, RangeOf, DeriveRange, DottedEnd, Search, MajorMinor;
    FloorPieces(op, a + "." + b, tail);
    FloorAt(spec, op);
    DottedCovers(spec, 2, a, b);
    hide Decimal, At;
    VersionIsRelease(spec, 2, DottedEnd(spec, 2), major, minor);
  }

  lemma FloorPieces(op: string, v: string, tail: string)
    requires |op| == 2 && v != ""
    ensures var spec := op + v + tail;
      && spec[0..2] == op && At(spec, 2, v) && spec[2] == v[0] && |spec| == 2 + |v| + |tail|
      && (tail != "" ==> spec[2 + |v|] == tail[0])
  {
    var spec := op + v + tail;
    assert spec == op + (v + tail);
  }

  lemma CapGivesNone(v: string)
    requires Dotted(v)
    ensures DescriptorRangeFromSpec(OneSided("<", v)) == None
  {
    OneSidedSearch("<", v, FLOOR_VERSION);
  }

  // ---- Versions as they are written ------------------------------------------------------

  /** A version without the white space and the quotes around it. */
  function Bare(version: string): string { StripWhere(Strip(version), Quote) }

  predicate AllOf(s: string, p: char -> bool) { forall i :: 0 <= i < |s| ==> p(s[i]) }

  lemma StripsBothEnds(before: string, text: string, behind: string, p: char -> bool)
    requires AllOf(before, p) && AllOf(behind, p) && text != "" && !p(text[0]) && !p(text[|text| - 1])
    ensures StripWhere(before + text + behind, p) == text
  {
    var s := before + text + behind;
    assert s[|before|] == text[0] && s[|before| + |text| - 1] == text[|text| - 1];
    assert forall k :: |before| + |text| <= k < |s| ==> s[k] == behind[k - |before| - |text|];
    SkipWhileIs(s, 0, p, |before|);
    assert TrimEnd(s, |before|, p) == |before| + |text|;
  }

  /** White space goes first, then quotes. */
  lemma BareIs(space: string, quotes: string, text: string, others: string, more: string)
    requires AllOf(space, Space) && AllOf(more, Space) && AllOf(quotes, Quote) && AllOf(others, Quote)
    requires text != "" && !Quote(text[0]) && !Quote(text[|text| - 1]) && !Space(text[0]) && !Space(text[|text| - 1])
    ensures Bare(space + (quotes + text + others) + more) == text
  {
    var quoted := quotes + text + others;
    assert quoted[0] == (if quotes == "" then text[0] else quotes[0]);
    assert quoted[|quoted| - 1] == (if others == "" then text[|text| - 1] else others[|others| - 1]);
    QuotesAreNoSpace();
    StripsBothEnds(space, quoted, more, Space);
    StripsBothEnds(quotes, text, others, Quote);
  }

  lemma QuotesAreNoSpace()
    ensures forall c :: Quote(c) ==> !Space(c)
  {
  }

  /** A range derives from a version if and only if its bare text starts with a digit. */
  lemma DerivesFromDigits(version: string)
    ensures DeriveRange(version).Some? <==> Bare(version) != "" && Digit(Bare(version)[0])
  {
    hide Number, Strip, StripWhere, RangeOf;
  }

  /** The major is the number it starts with, and the minor the one behind a dot right after it, or 0. */
  lemma {:induction false} DerivesFromNumbers(version: string, major: string, rest: string, minor: string, tail: string)
    requires Bare(version) == major + rest && Numeral(major) && (rest == "" || !Digit(rest[0]))
    ensures rest == "" || rest[0] != '.' || |rest| == 1 || !Digit(rest[1]) ==> DeriveRange(version) == Some(RangeOf(Number(major), 0))
    ensures rest == "." + minor + tail && Numeral(minor) && (tail == "" || !Digit(tail[0])) ==>
      DeriveRange(version) == Some(RangeOf(Number(major), Number(minor)))
  {
    hide Number, Strip, StripWhere, RangeOf;
    var v, i := major + rest, |major|;
    assert v[..i] == major && forall k :: 0 <= k < i ==> v[k] == major[k];
    assert rest != "" ==> v[i] == rest[0];
    SkipWhileIs(v, 0, Digit, i);
    if rest == "." + minor + tail && Numeral(minor) && (tail == "" || !Digit(tail[0])) {
      assert v == major + "." + minor + tail;
      var j := i + 1 + |minor|;
      assert v[i + 1..j] == minor && forall k :: i + 1 <= k < j ==> v[k] == minor[k - i - 1];
      SkipWhileIs(v, i + 1, Digit, j);
    } else if |rest| > 1 && rest[0] == '.' && !Digit(rest[1]) {
      assert v[i + 1] == rest[1];
      SkipWhileIs(v, i + 1, Digit, i + 1);
    }
  }
}
