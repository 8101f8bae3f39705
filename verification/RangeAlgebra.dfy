/** What the derived ranges mean, as the strings `derive_range` prints and the regular
    expressions read back. */
module RangeAlgebra {
  import opened Outcome
  import opened Text
  import opened VersionRanges

  /** A release version: `major.minor` and whatever follows, which is no digit. */
  ghost predicate IsRelease(version: string, major: nat, minor: nat) {
    exists tail :: ReleaseText(version, major, minor, tail)
  }

  ghost predicate ReleaseText(version: string, major: nat, minor: nat, tail: string) {
    version == Decimal(major) + "." + Decimal(minor) + tail && (tail != "" ==> !Digit(tail[0]))
  }

  // ---- Deriving --------------------------------------------------------------------------

  lemma StripsOnlyTheTail(head: string, tail: string, p: char -> bool)
    requires head != "" && !p(head[0]) && !p(head[|head| - 1])
    ensures exists k :: 0 <= k <= |tail| && StripWhere(head + tail, p) == head + tail[..k]
  {
    var s := head + tail;
    SkipWhileIs(s, 0, p, 0);
    var end := TrimEnd(s, 0, p);
    assert s[|head| - 1] == head[|head| - 1];
    assert end >= |head|;
    assert s[..end] == head + tail[..end - |head|];
  }

  lemma {:induction false} MajorMinorOfText(v: string, major: nat, minor: nat, tail: string)
    requires ReleaseText(v, major, minor, tail)
    ensures DigitsEnd(v, 0) == |Decimal(major)| && Number(v[..|Decimal(major)|]) == major
    ensures var i := |Decimal(major)|;
      && v[i] == '.' && DigitsEnd(v, i + 1) == i + 1 + |Decimal(minor)|
      && Number(v[i + 1..i + 1 + |Decimal(minor)|]) == minor
  {
    var i := |Decimal(major)|;
    assert v[..i] == Decimal(major) && v[i] == '.';
    assert v[i + 1..i + 1 + |Decimal(minor)|] == Decimal(minor);
    assert i + 1 + |Decimal(minor)| < |v| ==> v[i + 1 + |Decimal(minor)|] == tail[0];
    NumeralRun(v, 0, major);
    NumeralRun(v, i + 1, minor);
  }

  /** Stripping white space and then quotes leaves the two numbers at the front alone. */
  lemma ReleaseSurvivesStripping(version: string, major: nat, minor: nat)
    requires IsRelease(version, major, minor)
    ensures IsRelease(StripWhere(Strip(version), Quote), major, minor)
  {
    hide Decimal, Number, StripWhere;
    var tail :| ReleaseText(version, major, minor, tail);
    var head := Decimal(major) + "." + Decimal(minor);
    assert Digit(head[0]) && Digit(head[|head| - 1]);
    StripsOnlyTheTail(head, tail, Space);
    var k :| 0 <= k <= |tail| && Strip(version) == head + tail[..k];
    StripsOnlyTheTail(head, tail[..k], Quote);
    var l :| 0 <= l <= k && StripWhere(Strip(version), Quote) == head + tail[..k][..l];
    assert ReleaseText(head + tail[..k][..l], major, minor, tail[..k][..l]);
  }

  /** The derived range depends on the major and minor numbers alone. */
  lemma DeriveOfRelease(version: string, major: nat, minor: nat)
    requires IsRelease(version, major, minor)
    ensures MajorMinor(version) == Some((major, minor))
    ensures DeriveRange(version) == Some(RangeOf(major, minor))
  {
    hide Decimal, Number, StripWhere, Strip, RangeOf;
    ReleaseSurvivesStripping(version, major, minor);
    var v := StripWhere(Strip(version), Quote);
    var tail :| ReleaseText(v, major, minor, tail);
    MajorMinorOfText(v, major, minor, tail);
  }

  // ---- Reading a derived range -----------------------------------------------------------

  /** `s` is `>=a.b,<c` with `a` and `b` numerals and `c` digits and dots. */
  ghost predicate Layout(s: string, a: string, b: string, c: string) {
    && Numeral(a) && Numeral(b) && c != "" && Digit(c[0])
    && (forall k :: 0 <= k < |c| ==> Digit(c[k]) || c[k] == '.')
    && |s| == |a| + |b| + |c| + 5
    && s[0] == '>' && s[1] == '='
    && At(s, 2, a) && s[2 + |a|] == '.' && At(s, 3 + |a|, b)
    && s[3 + |a| + |b|] == ',' && s[4 + |a| + |b|] == '<' && At(s, 5 + |a| + |b|, c)
  }

  lemma LayoutOf(a: string, b: string, c: string)
    requires Numeral(a) && Numeral(b) && c != "" && Digit(c[0])
    requires forall k :: 0 <= k < |c| ==> Digit(c[k]) || c[k] == '.'
    ensures Layout(">=" + a + "." + b + ",<" + c, a, b, c)
  {
    var s := ">=" + a + "." + b + ",<" + c;
    assert s[2..2 + |a|] == a && s[3 + |a|..3 + |a| + |b|] == b && s[5 + |a| + |b|..] == c;
  }

  lemma {:induction false} RangeLayout(major: nat, minor: nat)
    ensures Layout(RangeOf(major, minor), Decimal(major), Decimal(minor), CapOf(major, minor))
  {
    hide Decimal, Number;
    LayoutOf(Decimal(major), Decimal(minor), CapOf(major, minor));
  }

  lemma LayoutChars(s: string, a: string, b: string, c: string)
    requires Layout(s, a, b, c)
    ensures forall k :: 2 <= k < |s| && k != 3 + |a| + |b| && k != 4 + |a| + |b| ==> Digit(s[k]) || s[k] == '.'
    ensures Digit(s[2]) && Digit(s[5 + |a| + |b|]) && s[|s| - 1] == c[|c| - 1]
  {
    forall k | 2 <= k < |s| && k != 3 + |a| + |b| && k != 4 + |a| + |b|
      ensures Digit(s[k]) || s[k] == '.'
    {
      if k < 2 + |a| {
        assert s[k] == s[2..2 + |a|][k - 2];
      } else if 3 + |a| <= k < 3 + |a| + |b| {
        assert s[k] == s[3 + |a|..3 + |a| + |b|][k - 3 - |a|];
      } else if k > 4 + |a| + |b| {
        assert s[k] == s[5 + |a| + |b|..][k - 5 - |a| - |b|];
      }
    }
    assert s[2] == s[2..2 + |a|][0] && s[5 + |a| + |b|] == s[5 + |a| + |b|..][0];
    assert s[|s| - 1] == s[5 + |a| + |b|..][|c| - 1];
  }

  lemma DerivedSpecifierShape(major: nat, minor: nat)
    ensures SpecifierShape(RangeOf(major, minor))
  {
    hide Decimal, Number, RangeOf;
    RangeLayout(major, minor);
    LayoutChars(RangeOf(major, minor), Decimal(major), Decimal(minor), CapOf(major, minor));
  }

  /** A requirement rebuilt with a derived range reads back: the name, extras and marker it had, and
      that range. */
  lemma DerivedReadsBack(raw: string, major: nat, minor: nat)
    requires ParseRequirement(raw).Some?
    ensures var p := ParseRequirement(raw).value;
      ParseRequirement(p.WithSpecifier(RangeOf(major, minor))) == Some(p.(specifier := RangeOf(major, minor)))
  {
    hide RangeOf, ParseRequirement, NameShape, ExtrasShape, MarkerShape, SpecifierShape;
    ParsedShape(raw);
    DerivedSpecifierShape(major, minor);
    RebuiltParses(ParseRequirement(raw).value, RangeOf(major, minor));
  }

  lemma {:induction false} SearchSkips(s: string, i: nat, j: nat, op: Operator)
    requires i <= j <= |s| && forall k :: i <= k < j ==> OperatorAt(s, k, op) == None
    ensures Search(s, i, op) == Search(s, j, op)
    decreases j - i
  {
    if i < j {
      SearchSkips(s, i + 1, j, op);
    }
  }

  lemma {:induction false} SearchHit(s: string, i: nat, op: Operator, length: nat)
    requires i < |s| && OperatorAt(s, i, op) == Some(length) && i + length < |s| && Digit(s[i + length])
    ensures Search(s, i, op) == Some(i + length)
  {
    hide OperatorAt;
    SkipWhileIs(s, i + length, Space, i + length);
  }

  lemma {:induction false} FloorSearch(s: string, a: string, b: string, c: string)
    requires Layout(s, a, b, c)
    ensures Search(s, 0, FLOOR) == Some(2) && Search(s, 0, FLOOR_VERSION) == Some(2)
  {
    LayoutChars(s, a, b, c);
    assert s[0..2] == ">=";
    hide Search;
    SearchHit(s, 0, FLOOR, 2);
    SearchHit(s, 0, FLOOR_VERSION, 2);
  }

  lemma {:induction false} CapSearch(s: string, a: string, b: string, c: string)
    requires Layout(s, a, b, c)
    ensures Search(s, 0, CAP) == Some(|s| - |c|)
  {
    hide Search;
    LayoutChars(s, a, b, c);
    var capAt := |s| - |c|;
    forall k | 0 <= k < capAt - 1
      ensures OperatorAt(s, k, CAP) == None
    {
      assert s[k..k + 1] == [s[k]];
    }
    SearchSkips(s, 0, capAt - 1, CAP);
    assert s[capAt - 1..capAt] == "<";
    SearchHit(s, capAt - 1, CAP, 1);
  }

  lemma {:induction false} CompatSearch(s: string, a: string, b: string, c: string)
    requires Layout(s, a, b, c)
    ensures Search(s, 0, COMPAT) == None
  {
    LayoutChars(s, a, b, c);
    forall k | 0 <= k < |s|
      ensures OperatorAt(s, k, COMPAT) == None
    {
      if k + 2 <= |s| {
        assert s[k..k + 2] == [s[k], s[k + 1]];
      }
    }
    SearchSkips(s, 0, |s|, COMPAT);
  }

  /** The floor number starts at 2, the cap number after the comma, and no `~=` or `==` is there. */
  lemma {:induction false} RangeSearches(major: nat, minor: nat)
    ensures var s := RangeOf(major, minor); var capAt := |s| - |CapOf(major, minor)|;
      && Search(s, 0, FLOOR) == Some(2) && Search(s, 0, FLOOR_VERSION) == Some(2)
      && Search(s, 0, CAP) == Some(capAt) && Search(s, 0, COMPAT) == None
      && Layout(s, Decimal(major), Decimal(minor), CapOf(major, minor))
  {
    hide *;
    RangeLayout(major, minor);
    FloorSearch(RangeOf(major, minor), Decimal(major), Decimal(minor), CapOf(major, minor));
    CapSearch(RangeOf(major, minor), Decimal(major), Decimal(minor), CapOf(major, minor));
    CompatSearch(RangeOf(major, minor), Decimal(major), Decimal(minor), CapOf(major, minor));
  }

  lemma {:induction false} DecimalEndsAt(s: string, i: nat, n: nat)
    requires At(s, i, Decimal(n)) && (i + |Decimal(n)| < |s| ==> !Digit(s[i + |Decimal(n)|]))
    ensures i < |s| && Digit(s[i]) && NumberFrom(s, i) == n
  {
    hide Decimal, Number;
    NumeralRun(s, i, n);
    assert s[i] == s[i..i + |Decimal(n)|][0];
  }

  lemma DecimalZero()
    ensures Decimal(0) == "0"
  {
  }

  function CapMajor(major: nat): nat { if major == 0 then 0 else major + 1 }

  lemma CapNumber(major: nat, minor: nat)
    ensures var s := RangeOf(major, minor); var capAt := |s| - |CapOf(major, minor)|;
      && capAt < |s| && Digit(s[capAt]) && NumberFrom(s, capAt) == CapMajor(major)
  {
    hide Decimal, Number, RangeOf;
    var s := RangeOf(major, minor);
    RangeLayout(major, minor);
    var capAt := |s| - |CapOf(major, minor)|;
    var cap := s[capAt..];
    assert cap == CapOf(major, minor);
    if major == 0 {
      DecimalZero();
      assert cap[0] == '0' && cap[1] == '.' && s[capAt..capAt + 1] == [cap[0]];
      DecimalEndsAt(s, capAt, 0);
    } else {
      DecimalEndsAt(s, capAt, major + 1);
    }
  }

  lemma MajorsOfRange(major: nat, minor: nat)
    ensures MajorStructure(RangeOf(major, minor)) == Majors(Some(major), Some(CapMajor(major)))
  {
    hide Decimal, Number, RangeOf, CapOf, Search, NumberFrom, StripWhere, CapMajor;
    var s := RangeOf(major, minor);
    RangeSearches(major, minor);
    DerivedSpecifierShape(major, minor);
    StripKeeps(s, Space);
    DecimalEndsAt(s, 2, major);
    CapNumber(major, minor);
  }

  /** A rewrite between derived ranges crosses a major exactly when the releases' majors differ. */
  lemma CrossMajorOfDerived(major1: nat, minor1: nat, major2: nat, minor2: nat)
    ensures IsCrossMajor(RangeOf(major1, minor1), RangeOf(major2, minor2)) <==> major1 != major2
    ensures PinGuarded(RangeOf(major1, minor1), RangeOf(major2, minor2)) <==> major1 != major2
  {
    hide RangeOf, MajorStructure;
    DerivedSpecifierShape(major1, minor1);
    StripKeeps(RangeOf(major1, minor1), Space);
    MajorsOfRange(major1, minor1);
    MajorsOfRange(major2, minor2);
  }

  /** The dotted number that starts at `i`, as a major and a minor. */
  function DottedAt(s: string, i: nat): Option<(nat, nat)>
    requires i < |s| && Digit(s[i])
  {
    MajorMinor(s[i..DottedEnd(s, i)])
  }

  lemma DottedEndIs(s: string, i: nat, a: string, b: string)
    requires Numeral(a) && Numeral(b) && At(s, i, a + "." + b)
    requires var end := i + |a| + 1 + |b|; end < |s| ==> !Digit(s[end]) && s[end] != '.'
    ensures Digit(s[i]) && DottedEnd(s, i) == i + |a| + 1 + |b|
  {
    var piece, dot := s[i..i + |a| + 1 + |b|], i + |a|;
    assert forall k :: i <= k < i + |piece| ==> s[k] == piece[k - i];
    SkipWhileIs(s, i, Digit, dot);
    SkipWhileIs(s, dot + 1, Digit, dot + 1 + |b|);
  }

  lemma TwoNumbersAt(s: string, i: nat, major: nat, minor: nat)
    requires At(s, i, Decimal(major) + "." + Decimal(minor))
    requires var end := i + |Decimal(major)| + 1 + |Decimal(minor)|; end < |s| ==> !Digit(s[end]) && s[end] != '.'
    ensures i < |s| && Digit(s[i]) && DottedAt(s, i) == Some((major, minor))
    ensures DeriveRange(s[i..DottedEnd(s, i)]) == Some(RangeOf(major, minor))
  {
    hide Decimal, Number, RangeOf, MajorMinor;
    DottedEndIs(s, i, Decimal(major), Decimal(minor));
    var both := s[i..DottedEnd(s, i)];
    assert ReleaseText(both, major, minor, "");
    DeriveOfRelease(both, major, minor);
  }

  lemma FloorOfRange(major: nat, minor: nat)
    ensures Digit(RangeOf(major, minor)[2]) && DottedAt(RangeOf(major, minor), 2) == Some((major, minor))
    ensures DescriptorRangeFromSpec(RangeOf(major, minor)) == Some(RangeOf(major, minor))
  {
    hide Decimal, Number, RangeOf, CapOf, Search, DeriveRange, DottedAt;
    var s, a, b := RangeOf(major, minor), Decimal(major), Decimal(minor);
    RangeSearches(major, minor);
    assert s[2..2 + |a| + 1 + |b|] == s[2..2 + |a|] + [s[2 + |a|]] + s[3 + |a|..3 + |a| + |b|];
    TwoNumbersAt(s, 2, major, minor);
  }

  /** Equal ranges come from equal majors and minors: the range is exactly as fine as they are. */
  lemma RangeDeterminesRelease(major1: nat, minor1: nat, major2: nat, minor2: nat)
    ensures RangeOf(major1, minor1) == RangeOf(major2, minor2) <==> major1 == major2 && minor1 == minor2
  {
    hide RangeOf, DottedAt;
    FloorOfRange(major1, minor1);
    FloorOfRange(major2, minor2);
  }

  predicate Before(a: (nat, nat), b: (nat, nat)) { a.0 < b.0 || (a.0 == b.0 && a.1 < b.1) }

  /** Whether a specifier with a `>=` floor and a `<` cap, neither finer than a minor, admits
      every patch of the final release `major.minor`. */
  predicate Admits(spec: string, major: nat, minor: nat) {
    match (Search(spec, 0, FLOOR), Search(spec, 0, CAP))
    case (Some(floor), Some(cap)) =>
      (match (DottedAt(spec, floor), DottedAt(spec, cap))
       case (Some(low), Some(high)) => !Before((major, minor), low) && Before((major, minor), high)
       case _ => false)
    case _ => false
  }

  lemma CapOfRange(major: nat, minor: nat)
    ensures var s := RangeOf(major, minor); var capAt := |s| - |CapOf(major, minor)|;
      && capAt < |s| && Digit(s[capAt])
      && DottedAt(s, capAt) == Some(if major == 0 then (0, minor + 1) else (major + 1, 0))
  {
    hide RangeOf, CapOf, MajorMinor, DottedAt, DottedEnd, Decimal, Number, Layout, At;
    var s, cap := RangeOf(major, minor), CapOf(major, minor);
    RangeLayout(major, minor);
    CapStands(s, Decimal(major), Decimal(minor), cap);
    CapDigits(major, minor);
    if major == 0 {
      TwoNumbersAt(s, |s| - |cap|, 0, minor + 1);
    } else {
      LoneNumberAt(s, |s| - |cap|, major + 1);
    }
  }

  lemma {:induction false} CapDigits(major: nat, minor: nat)
    ensures CapOf(major, minor) == if major == 0 then Decimal(0) + "." + Decimal(minor + 1) else Decimal(major + 1)
  {
    DecimalZero();
    hide Decimal;
    assert "0" + "." == "0.";
  }

  lemma CapStands(s: string, a: string, b: string, cap: string)
    requires Layout(s, a, b, cap)
    ensures 0 < |cap| <= |s| && At(s, |s| - |cap|, cap)
  {
  }

  lemma {:induction false} LoneNumberAt(s: string, i: nat, n: nat)
    requires At(s, i, Decimal(n)) && i + |Decimal(n)| == |s|
    ensures i < |s| && Digit(s[i]) && DottedAt(s, i) == Some((n, 0))
  {
    hide Decimal, Number, MajorMinor;
    assert s[i..|s|] == Decimal(n) && s[i..|s|][0] == s[i];
    NumeralRun(s, i, n);
    LoneNumber(s[i..|s|], n);
  }

  /** The derived range admits its own release and its later minors, up to the next breaking one. */
  lemma DerivedRangeAdmits(major: nat, minor: nat, otherMajor: nat, otherMinor: nat)
    ensures Admits(RangeOf(major, minor), otherMajor, otherMinor) <==>
      otherMajor == major && (if major == 0 then otherMinor == minor else otherMinor >= minor)
  {
    hide RangeOf, CapOf, Search, DottedAt, Decimal, Number, Layout, DescriptorRangeFromSpec;
    var s := RangeOf(major, minor);
    var low, high := (major, minor), if major == 0 then (0, minor + 1) else (major + 1, 0);
    assert Search(s, 0, FLOOR) == Some(2) && DottedAt(s, 2) == Some(low) by {
      RangeSearches(major, minor);
      FloorOfRange(major, minor);
    }
    assert exists capAt: nat ::
        capAt < |s| && Digit(s[capAt]) && Search(s, 0, CAP) == Some(capAt) && DottedAt(s, capAt) == Some(high) by {
      RangeSearches(major, minor);
      CapOfRange(major, minor);
    }
  }

  lemma {:induction false} LoneNumber(v: string, n: nat)
    requires v == Decimal(n)
    ensures MajorMinor(v) == Some((n, 0))
  {
    hide Decimal, Number;
    StripKeeps(v, Space);
    StripKeeps(v, Quote);
    NumeralRun(v, 0, n);
    assert v[..|v|] == v;
  }
}
