/** The keys of the lines the range engine rewrites: where the classifier finds the parts of a
    requirement line, and when a rewritten requirement or pin keeps its key. */
module BookkeepingKeys {
  import opened DiffText
  import opened Outcome
  import opened Text
  import opened VersionRanges
  import opened RangeAlgebra
  import opened ContractPins
  import opened Bookkeeping

  // ---- Requirements ----------------------------------------------------------------------

  /** What the parts of a line say of its characters; `x` starts the specifier right after name
      and extras. */
  ghost predicate Spelled(s: string, o: nat, b: nat, x: nat, m: nat, c: nat, e: nat) {
    && o + 1 + |PREFIX| < b <= x < m <= c < e <= |s|
    && (forall k :: 0 <= k < o ==> Space(s[k])) && s[o] == '"' && At(s, o + 1, PREFIX)
    && (forall k :: o + 1 + |PREFIX| <= k < b ==> NameChar(s[k]))
    && (if b == x then true else s[b] == '[' && s[x - 1] == ']' && forall k :: b <= k < x - 1 ==> s[k] != ']')
    && SpecOp(s[x]) && (forall k :: x <= k < m ==> SpecChar(s[k]))
    && (m < c ==> s[m] == ';') && (forall k :: m <= k < c ==> NotQuote(s[k])) && s[c] == '"'
    && (if e == c + 1 then e < |s| ==> s[e] != ',' else e == c + 2 && s[c + 1] == ',')
    && (forall k :: e <= k < |s| ==> Space(s[k]))
  }

  lemma OpIsPlain(c: char)
    requires SpecOp(c)
    ensures !Space(c) && !NameChar(c) && c != '[' && c != ';' && c != '"'
  {
  }

  lemma Marks()
    ensures !Space('"') && !NameChar('"') && !SpecChar('"') && !SpecChar(';') && !NotQuote('"') && NotQuote(';')
    ensures !NameChar(';') && !NameChar('[') && !Space('[') && NotBracket('[') && !NotBracket(']')
  {
  }

  lemma ExtrasEndIs(s: string, b: nat, x: nat)
    requires b <= x < |s|
    requires if b == x then s[b] != '[' else s[b] == '[' && s[x - 1] == ']' && forall k :: b <= k < x - 1 ==> s[k] != ']'
    ensures ExtrasEnd(s, b) == x
  {
    if b < x {
      SkipWhileIs(s, b, NotBracket, x - 1);
    }
  }

  ghost predicate HeadRead(s: string, o: nat, b: nat, x: nat, k: nat)
    requires o + 1 + |PREFIX| < b <= x <= k < |s|
  {
    && (forall i :: 0 <= i < o ==> Space(s[i])) && s[o] == '"' && At(s, o + 1, PREFIX)
    && (forall i :: o + 1 + |PREFIX| <= i < b ==> NameChar(s[i])) && !NameChar(s[b])
    && (if b == x then s[b] != '[' else s[b] == '[' && s[x - 1] == ']' && forall i :: b <= i < x - 1 ==> s[i] != ']')
    && (forall i :: x <= i < k ==> Space(s[i])) && SpecOp(s[k])
  }

  ghost predicate TailRead(s: string, k: nat, m: nat, c: nat, e: nat)
    requires k < m <= c < e <= |s|
  {
    && (forall i :: k <= i < m ==> SpecChar(s[i])) && (m < c ==> s[m] == ';') && (forall i :: m <= i < c ==> NotQuote(s[i]))
    && s[c] == '"' && (if e == c + 1 then e < |s| ==> s[e] != ',' else e == c + 2 && s[c + 1] == ',')
    && (forall i :: e <= i < |s| ==> Space(s[i]))
  }

  /** What a matched line's characters are, part by part. */
  ghost predicate Read(s: string, p: Parts) {
    && Parsed(s, p) && HeadRead(s, p.open, p.base, p.extras, p.spec) && TailRead(s, p.spec, p.marker, p.close, p.end)
  }

  /** The parts are where they read to be. */
  lemma ReadIsParts(s: string, p: Parts)
    requires Read(s, p)
    ensures RequirementParts(s) == Some(p)
  {
    hide HeadParts, TailParts;
    ReadIsHead(s, p);
    ReadIsTail(s, p);
  }

  lemma ReadIsHead(s: string, p: Parts)
    requires Read(s, p)
    ensures HeadParts(s) == Some((p.open, p.base, p.extras, p.spec))
  {
    OpIsPlain(s[p.spec]);
    Marks();
    hide Space, NameChar, SpecChar, SpecOp, NotQuote, Alnum, ExtrasEnd, TailRead;
    SkipWhileIs(s, 0, Space, p.open);
    SkipWhileIs(s, p.open + 1 + |PREFIX|, NameChar, p.base);
    ExtrasEndIs(s, p.base, p.extras);
    SkipWhileIs(s, p.extras, Space, p.spec);
  }

  lemma ReadIsTail(s: string, p: Parts)
    requires Read(s, p)
    ensures TailParts(s, p.spec) == Some((p.marker, p.close, p.end))
  {
    Marks();
    hide Space, NameChar, SpecChar, SpecOp, NotQuote, Alnum, At, HeadRead;
    SkipWhileIs(s, p.spec + 1, SpecChar, p.marker);
    if p.marker < p.close {
      SkipWhileIs(s, p.marker, NotQuote, p.close);
    }
    SkipWhileIs(s, p.end, Space, |s|);
  }

  lemma SpelledParts(s: string, o: nat, b: nat, x: nat, m: nat, c: nat, e: nat)
    requires Spelled(s, o, b, x, m, c, e)
    ensures RequirementParts(s) == Some(Parts(o, b, x, x, m, c, e))
  {
    OpIsPlain(s[x]);
    assert SpecChar(s[x]);
    Marks();
    hide Space, NameChar, SpecChar, SpecOp, NotQuote, Alnum, At, RequirementParts;
    ReadIsParts(s, Parts(o, b, x, x, m, c, e));
  }

  lemma ReadHead(s: string)
    requires HeadParts(s).Some?
    ensures var (o, b, x, k) := HeadParts(s).value; HeadRead(s, o, b, x, k)
  {
    hide Space, NameChar, Alnum, At;
    var (o, b, x, k) := HeadParts(s).value;
    ReadExtras(s, b);
    if b == x && s[b] == '[' {
      Marks();
      OpIsPlain(s[k]);
      assert false;
    }
  }

  lemma ReadExtras(s: string, b: nat)
    requires b < |s|
    ensures var x := ExtrasEnd(s, b);
      x > b ==> s[b] == '[' && s[x - 1] == ']' && forall i :: b <= i < x - 1 ==> s[i] != ']'
  {
  }

  lemma ReadTail(s: string, k: nat)
    requires k < |s| && SpecOp(s[k]) && TailParts(s, k).Some?
    ensures var (m, c, e) := TailParts(s, k).value; TailRead(s, k, m, c, e)
  {
    assert SpecChar(s[k]);
    hide Space, SpecChar, SpecOp, NotQuote;
  }

  lemma PartsRead(s: string)
    requires RequirementParts(s).Some?
    ensures Read(s, RequirementParts(s).value)
  {
    hide HeadParts, TailParts, HeadRead, TailRead;
    ReadHead(s);
    ReadTail(s, HeadParts(s).value.3);
  }

  lemma RangeIsSpec(major: nat, minor: nat)
    ensures var r := RangeOf(major, minor);
      |r| > 2 && SpecOp(r[0]) && Unbroken(r, |r|) && forall k :: 0 <= k < |r| ==> SpecChar(r[k])
  {
    hide RangeOf, Decimal, Number, Space, CapOf;
    RangeLayout(major, minor);
    LayoutChars(RangeOf(major, minor), Decimal(major), Decimal(minor), CapOf(major, minor));
  }

  // ---- The rewritten line ----------------------------------------------------------------

  /** The line with another specifier right after its name and extras. */
  function Respecified(s: string, p: Parts, spec: string): string
    requires Parsed(s, p)
  {
    s[..p.extras] + spec + s[p.marker..]
  }

  lemma RespecifiedAt(s: string, p: Parts, spec: string)
    requires Parsed(s, p)
    ensures var r := Respecified(s, p, spec); var m := p.extras + |spec|;
      && |r| == m + |s| - p.marker
      && (forall k :: 0 <= k < p.extras ==> r[k] == s[k])
      && (forall k :: p.extras <= k < m ==> r[k] == spec[k - p.extras])
      && (forall k :: m <= k < |r| ==> r[k] == s[k - m + p.marker])
  {
  }

  lemma RespecifiedSpelled(s: string, p: Parts, spec: string)
    requires Read(s, p) && |spec| > 0 && SpecOp(spec[0]) && forall k :: 0 <= k < |spec| ==> SpecChar(spec[k])
    ensures var m := p.extras + |spec|;
      Spelled(Respecified(s, p, spec), p.open, p.base, p.extras, m, m + p.close - p.marker, m + p.end - p.marker)
  {
    var r, m := Respecified(s, p, spec), p.extras + |spec|;
    RespecifiedAt(s, p, spec);
    hide Respecified, Space, NameChar, SpecChar, SpecOp, NotQuote, Alnum, Spelled, TailRead;
    assert At(r, p.open + 1, PREFIX) by {
      assert r[p.open + 1..p.open + 1 + |PREFIX|] == s[p.open + 1..p.open + 1 + |PREFIX|];
    }
    SpelledShifted(s, r, p, m, spec);
  }

  lemma SpelledShifted(s: string, r: string, p: Parts, m: nat, spec: string)
    requires Read(s, p) && |spec| > 0 && SpecOp(spec[0]) && forall k :: 0 <= k < |spec| ==> SpecChar(spec[k])
    requires m == p.extras + |spec| && |r| == m + |s| - p.marker && At(r, p.open + 1, PREFIX)
    requires forall k :: 0 <= k < p.extras ==> r[k] == s[k]
    requires forall k :: p.extras <= k < m ==> r[k] == spec[k - p.extras]
    requires forall k :: m <= k < |r| ==> r[k] == s[k - m + p.marker]
    ensures Spelled(r, p.open, p.base, p.extras, m, m + p.close - p.marker, m + p.end - p.marker)
  {
    hide Space, NameChar, SpecChar, SpecOp, NotQuote, At, Alnum;
  }

  lemma StartsNoVersion(s: string, p: Parts)
    requires Read(s, p)
    ensures !VersionLine(s)
  {
    assert s[0] == '"' || Space(s[0]);
    if At(s, 0, "version") {
      AtStart(s, "version");
    }
  }

  /** Where the parts of the rewritten line stand. */
  function Shifted(p: Parts, spec: string): Parts
    requires p.extras + |spec| + p.close >= p.marker && p.extras + |spec| + p.end >= p.marker
  {
    var m := p.extras + |spec|;
    Parts(p.open, p.base, p.extras, p.extras, m, m + p.close - p.marker, m + p.end - p.marker)
  }

  lemma ShiftedKey(s: string, p: Parts, spec: string)
    requires Parsed(s, p) && spec != ""
    ensures Parsed(Respecified(s, p, spec), Shifted(p, spec))
    ensures PartsKey(Respecified(s, p, spec), Shifted(p, spec)) == PartsKey(s, p)
  {
    var r, q, m := Respecified(s, p, spec), Shifted(p, spec), p.extras + |spec|;
    assert r == s[..p.extras] + spec + s[p.marker..];
    CutsAround(s[..p.extras], spec, s[p.marker..]);
    CutAgain(s, p.marker, 0, p.close - p.marker);
    CutAgain(s, p.marker, p.close + 1 - p.marker, p.end - p.marker);
    CutAgain(r, m, 0, p.close - p.marker);
    CutAgain(r, m, p.close + 1 - p.marker, p.end - p.marker);
    FrontCut(s, p.extras, p.open);
    FrontCut(r, p.extras, p.open);
  }

  lemma CutsAround(a: string, b: string, c: string)
    ensures (a + b + c)[..|a|] == a && (a + b + c)[|a + b|..] == c
  {
  }

  lemma CutAgain(s: string, m: nat, a: nat, b: nat)
    requires a <= b && m + b <= |s|
    ensures s[m..][a..b] == s[m + a..m + b]
  {
  }

  lemma FrontCut(s: string, x: nat, o: nat)
    requires o < x <= |s|
    ensures s[..x][..o] == s[..o] && s[..x][o + 1..] == s[o + 1..x]
  {
  }

  /** A line rewritten to a derived range right after its name and extras keeps its key. */
  lemma RespecifiedKeepsKey(s: string, major: nat, minor: nat)
    requires RequirementParts(s).Some?
    ensures PyprojectKey(Respecified(s, RequirementParts(s).value, RangeOf(major, minor))) == PyprojectKey(s) != None
  {
    hide RequirementParts, VersionLine, RangeOf, Space, SpecOp, SpecChar, Read, Spelled, PartsKey, Respecified;
    var p, spec := RequirementParts(s).value, RangeOf(major, minor);
    var r, q := Respecified(s, p, spec), Shifted(p, spec);
    PartsRead(s);
    RangeIsSpec(major, minor);
    RespecifiedSpelled(s, p, spec);
    SpelledParts(r, p.open, p.base, p.extras, q.marker, q.close, q.end);
    PartsRead(r);
    StartsNoVersion(s, p);
    StartsNoVersion(r, q);
    ShiftedKey(s, p, spec);
  }

  // ---- The requirement the range engine reads --------------------------------------------

  /** The literal between the quotes. */
  function Literal(s: string, p: Parts): string
    requires Parsed(s, p)
  {
    s[p.open + 1..p.close]
  }

  /** The line with the literal the range engine writes for a new specifier. */
  function Resynced(s: string, p: Parts, spec: string): string
    requires Parsed(s, p) && ParseRequirement(Literal(s, p)).Some?
  {
    s[..p.open + 1] + ParseRequirement(Literal(s, p)).value.WithSpecifier(spec) + s[p.close..]
  }

  lemma PrefixIsName(s: string, at: nat)
    requires At(s, at, PREFIX)
    ensures forall k :: at <= k < at + |PREFIX| ==> NameChar(s[k])
    ensures s[at] == 't' && Alnum(s[at]) && !Space(s[at])
  {
    assert forall k :: at <= k < at + |PREFIX| ==> s[k] == PREFIX[k - at];
  }

  lemma LiteralName(s: string, p: Parts)
    requires Read(s, p)
    ensures var raw, n := Literal(s, p), p.base - p.open - 1;
      && n < |raw| && SkipWhile(raw, 0, Space) == 0 && Alnum(raw[0]) && SkipWhile(raw, 0, NameChar) == n
      && (forall k :: 0 <= k < |raw| ==> raw[k] == s[p.open + 1 + k])
  {
    var raw, n := Literal(s, p), p.base - p.open - 1;
    PrefixIsName(s, p.open + 1);
    hide Space, NameChar, Alnum, SpecChar, SpecOp, NotQuote, At;
    SkipWhileIs(raw, 0, Space, 0);
    SkipWhileIs(raw, 0, NameChar, n);
  }

  lemma LiteralNameEnd(s: string, p: Parts)
    requires Read(s, p) && Alnum(s[p.base - 1])
    ensures var raw := Literal(s, p); raw != "" && Alnum(raw[0]) && NameEnd(raw, 0) == p.base - p.open - 1
  {
    hide Space, NameChar, Alnum, SpecChar, SpecOp, NotQuote, At, HeadRead, TailRead;
    LiteralName(s, p);
    var raw, n := Literal(s, p), p.base - p.open - 1;
    assert raw[..n][n - 1] == s[p.base - 1];
  }

  /** Where the parser finds the extras when they run from `n` to `x` and the specifier starts at `k`. */
  lemma {:induction false} ExtrasScanned(raw: string, n: nat, x: nat, k: nat)
    requires n <= x <= k < |raw| && !Space(raw[k]) && raw[k] != '[' && forall i :: x <= i < k ==> Space(raw[i])
    requires n < x ==> raw[n] == '[' && raw[x - 1] == ']' && forall i :: n <= i < x - 1 ==> raw[i] != ']'
    ensures var start := SkipWhile(raw, n, Space);
      && raw[start..ExtrasEnd(raw, start)] == raw[n..x] && SkipWhile(raw, ExtrasEnd(raw, start), Space) == k
  {
    hide ExtrasEnd;
    if n == x {
      SkipWhileIs(raw, n, Space, k);
      ExtrasEndIs(raw, k, k);
      SkipWhileIs(raw, k, Space, k);
    } else {
      SkipWhileIs(raw, n, Space, n);
      ExtrasEndIs(raw, n, x);
      SkipWhileIs(raw, x, Space, k);
    }
  }

  lemma LiteralExtras(s: string, p: Parts)
    requires Read(s, p)
    ensures var raw, a := Literal(s, p), p.open + 1; var start := SkipWhile(raw, p.base - a, Space);
      && raw[start..ExtrasEnd(raw, start)] == s[p.base..p.extras] && SkipWhile(raw, ExtrasEnd(raw, start), Space) == p.spec - a
  {
    hide HeadRead, TailRead, Space, ExtrasEnd, SkipWhile;
    var raw, a := Literal(s, p), p.open + 1;
    LiteralAt(s, p);
    hide Literal;
    ExtrasShow(s, p, raw);
    ExtrasScanned(raw, p.base - a, p.extras - a, p.spec - a);
  }

  /** The literal's extras and what stands around them, as the parser will look at them. */
  lemma ExtrasShow(s: string, p: Parts, raw: string)
    requires Read(s, p) && |raw| == p.close - (p.open + 1) && forall k :: 0 <= k < |raw| ==> raw[k] == s[p.open + 1 + k]
    ensures var a := p.open + 1; var n, x, k := p.base - a, p.extras - a, p.spec - a;
      && 0 <= n <= x <= k < |raw| && !Space(raw[k]) && raw[k] != '[' && (forall i :: x <= i < k ==> Space(raw[i]))
      && (n < x ==> raw[n] == '[' && raw[x - 1] == ']' && forall i :: n <= i < x - 1 ==> raw[i] != ']')
  {
    OpIsPlain(s[p.spec]);
    hide Space, NameChar, Alnum, SpecChar, SpecOp, NotQuote, At, TailRead;
  }

  lemma LiteralAt(s: string, p: Parts)
    requires Parsed(s, p)
    ensures var raw, a := Literal(s, p), p.open + 1;
      && |raw| == p.close - a && (forall k :: 0 <= k < |raw| ==> raw[k] == s[a + k])
      && raw[p.base - a..p.extras - a] == s[p.base..p.extras]
  {
    CutAgain(s[..p.close], p.open + 1, p.base - p.open - 1, p.extras - p.open - 1);
  }

  /** With a base name that ends in a letter or digit the parser cuts the literal as the key does. */
  lemma LiteralParses(s: string, p: Parts)
    requires Read(s, p) && Alnum(s[p.base - 1])
    ensures var r := ParseRequirement(Literal(s, p));
      r.Some? && r.value.name == s[p.open + 1..p.base] && r.value.extras == s[p.base..p.extras]
      && r.value.marker == s[p.marker..p.close]
  {
    hide NameEnd, SkipWhile, ExtrasEnd, SplitMarker, HeadRead, TailRead, Space, Alnum, NameChar, At, Digit, Strip;
    var raw, a := Literal(s, p), p.open + 1;
    assert raw[0..p.base - a] == s[p.open + 1..p.base];
    LiteralName(s, p);
    LiteralNameEnd(s, p);
    LiteralExtras(s, p);
    LiteralMarker(s, p);
    hide Literal;
  }

  lemma LiteralMarker(s: string, p: Parts)
    requires Read(s, p)
    ensures SplitMarker(Literal(s, p)[p.spec - p.open - 1..]).1 == s[p.marker..p.close]
  {
    hide SplitMarker, At, SpecOp, Space, Digit, NotQuote, NameChar, HeadRead;
    var rest, n := s[p.spec..p.close], p.marker - p.spec;
    CutBack(s, p.open + 1, p.close, p.spec - p.open - 1);
    CutBack(s, p.spec, p.close, n);
    assert forall k :: 0 <= k < n ==> NotSemicolon(rest[k]) by {
      assert forall k :: 0 <= k < n ==> rest[k] == s[p.spec + k];
      SpecIsNoSemicolon(s, p);
    }
    MarkerAt(rest, n);
  }

  lemma SpecIsNoSemicolon(s: string, p: Parts)
    requires Read(s, p)
    ensures forall k :: p.spec <= k < p.marker ==> NotSemicolon(s[k])
  {
    hide HeadRead, At, NotQuote;
  }

  lemma CutBack(s: string, a: nat, c: nat, k: nat)
    requires a + k <= c <= |s|
    ensures s[a..c][k..] == s[a + k..c]
  {
  }

  lemma MarkerAt(rest: string, n: nat)
    requires n <= |rest| && (forall k :: 0 <= k < n ==> NotSemicolon(rest[k])) && (n < |rest| ==> rest[n] == ';')
    ensures SplitMarker(rest).1 == rest[n..]
  {
    SkipWhileIs(rest, 0, NotSemicolon, n);
  }

  lemma ResyncedIsRespecified(s: string, p: Parts, spec: string)
    requires Read(s, p) && Alnum(s[p.base - 1])
    ensures ParseRequirement(Literal(s, p)).Some? && Resynced(s, p, spec) == Respecified(s, p, spec)
  {
    hide ParseRequirement, HeadRead, TailRead, Alnum;
    LiteralParses(s, p);
    Spliced(s, p, spec, ParseRequirement(Literal(s, p)).value);
  }

  lemma Spliced(s: string, p: Parts, spec: string, r: Requirement)
    requires Parsed(s, p)
    requires r.name == s[p.open + 1..p.base] && r.extras == s[p.base..p.extras] && r.marker == s[p.marker..p.close]
    ensures s[..p.open + 1] + r.WithSpecifier(spec) + s[p.close..] == Respecified(s, p, spec)
  {
    assert s[..p.extras] == s[..p.open + 1] + r.name + r.extras;
    assert s[p.marker..] == r.marker + s[p.close..];
  }

  // ---- When a rewritten requirement keeps its key ----------------------------------------

  /** A key repeats its line up to the end of the extras, where it goes on with the marker or ends. */
  lemma KeyFollowsLine(s: string, p: Parts)
    requires Read(s, p)
    ensures var k := PartsKey(s, p);
      p.extras < |k| && (forall i :: 0 <= i < p.extras ==> k[i] == s[i]) && (k[p.extras] == ';' || k[p.extras] == '"')
  {
    hide Space, NameChar, SpecChar, SpecOp, NotQuote, At;
  }

  /** A base name that ends in a separator is cut short by the parser, the extras with it. */
  lemma CutShort(s: string, p: Parts)
    requires Read(s, p) && !Alnum(s[p.base - 1])
    ensures var r := ParseRequirement(Literal(s, p)); var end := p.open + 1 + if r.Some? then |r.value.name| else 0;
      && r.Some? && r.value.extras == "" && p.open + 1 < end < p.base
      && r.value.name == s[p.open + 1..end] && NameChar(s[end])
  {
    hide HeadRead, TailRead, Space, At, NameEnd, SkipWhile, ExtrasEnd, Alnum, NameChar, ParseRequirement;
    LiteralName(s, p);
    LiteralAt(s, p);
    hide Literal;
    var raw, n, a := Literal(s, p), p.base - p.open - 1, p.open + 1;
    assert raw[n - 1] == s[p.base - 1];
    TrimmedName(raw, n);
    var e := NameEnd(raw, 0);
    assert raw[e] == s[a + e];
    SeparatorStops(raw, e);
    ParsedUpTo(raw, e);
    SameStretch(raw, s, a, e);
  }

  lemma SameStretch(raw: string, s: string, a: nat, e: nat)
    requires e <= |raw| && a + e <= |s| && forall k :: 0 <= k < e ==> raw[k] == s[a + k]
    ensures raw[0..e] == s[a..a + e]
  {
  }

  lemma {:induction false} ParsedUpTo(raw: string, e: nat)
    requires raw != "" && Alnum(raw[0]) && SkipWhile(raw, 0, Space) == 0 && NameEnd(raw, 0) == e
    requires SkipWhile(raw, e, Space) == e && ExtrasEnd(raw, e) == e
    ensures var r := ParseRequirement(raw); r.Some? && r.value.name == raw[0..e] && r.value.extras == ""
  {
    hide NameEnd, SkipWhile, ExtrasEnd, SplitMarker;
  }

  lemma {:induction false} TrimmedName(raw: string, n: nat)
    requires 1 < n < |raw| && Alnum(raw[0]) && SkipWhile(raw, 0, NameChar) == n && !Alnum(raw[n - 1])
    ensures var e := NameEnd(raw, 0); 0 < e < n && NameChar(raw[e]) && !Alnum(raw[e])
  {
    var e := NameEnd(raw, 0);
    assert e < n by { assert raw[..n][n - 1] == raw[n - 1]; }
    assert NotAlnum(raw[..n][e]);
  }

  lemma {:induction false} SeparatorStops(raw: string, e: nat)
    requires e < |raw| && NameChar(raw[e]) && !Alnum(raw[e])
    ensures SkipWhile(raw, e, Space) == e && ExtrasEnd(raw, e) == e
  {
  }

  /** Where the parts of a line start that runs `end` characters along with a matched one and
      goes on with an operator. */
  lemma CutParts(s: string, p: Parts, r: string, q: Parts, end: nat)
    requires Read(s, p) && Read(r, q) && p.open + 1 < end < p.base
    requires end < |r| && SpecOp(r[end]) && forall i :: 0 <= i < end ==> r[i] == s[i]
    ensures q.extras == end
  {
    Marks();
    OpIsPlain(r[end]);
    PrefixIsName(s, p.open + 1);
    PrefixIsName(r, q.open + 1);
    hide Space, NameChar, Alnum, SpecChar, SpecOp, NotQuote, At, TailRead;
    assert q.open == p.open;
    assert q.base == end;
  }

  lemma KeysApart(s: string, p: Parts, r: string, end: nat)
    requires RequirementParts(s) == Some(p) && p.open + 1 < end < p.base && NameChar(s[end])
    requires end < |r| && SpecOp(r[end]) && forall i :: 0 <= i < end ==> r[i] == s[i]
    ensures PyprojectKey(r) != PyprojectKey(s)
  {
    hide Space, NameChar, SpecOp, HeadRead, TailRead, RequirementParts, PartsKey, VersionLine;
    PartsRead(s);
    StartsNoVersion(s, p);
    KeyFollowsLine(s, p);
    OpensQuoted(s, p);
    Marks();
    if RequirementParts(r).Some? {
      var q := RequirementParts(r).value;
      PartsRead(r);
      KeyFollowsLine(r, q);
      CutParts(s, p, r, q, end);
    }
  }

  lemma OpensQuoted(s: string, p: Parts)
    requires Read(s, p)
    ensures PartsKey(s, p) != "version"
  {
    hide HeadRead, TailRead, PartsKey;
    KeyFollowsLine(s, p);
    QuoteIn(s, p);
    assert PartsKey(s, p)[p.open] == '"';
    assert forall i :: 0 <= i < 7 ==> "version"[i] != '"';
  }

  lemma QuoteIn(s: string, p: Parts)
    requires Read(s, p)
    ensures s[p.open] == '"'
  {
  }

  /** The range engine's rewrite of an accepted requirement line keeps its key if and only if the
      name, as the classifier spells it, ends in a letter or digit. */
  lemma ResyncedKeepsKey(s: string, major: nat, minor: nat)
    requires RequirementParts(s).Some?
    ensures var p := RequirementParts(s).value;
      && ParseRequirement(Literal(s, p)).Some?
      && (PyprojectKey(Resynced(s, p, RangeOf(major, minor))) == PyprojectKey(s) <==> Alnum(s[p.base - 1]))
  {
    hide RangeOf, ParseRequirement, RequirementParts, PyprojectKey, Alnum, NameChar, SpecOp, HeadRead, TailRead;
    var p, spec := RequirementParts(s).value, RangeOf(major, minor);
    PartsRead(s);
    if Alnum(s[p.base - 1]) {
      ResyncedIsRespecified(s, p, spec);
      RespecifiedKeepsKey(s, major, minor);
    } else {
      CutShort(s, p);
      RangeIsSpec(major, minor);
      var q := ParseRequirement(Literal(s, p)).value;
      var r, end := Resynced(s, p, spec), p.open + 1 + |q.name|;
      assert r == s[..p.open + 1] + q.name + spec + (q.marker + s[p.close..]);
      assert s[..p.open + 1] + q.name == s[..end];
      KeysApart(s, p, r, end);
    }
  }

  // ---- Pins ------------------------------------------------------------------------------

  /** A rewritten pin keeps its line's key, and has one exactly when the line is not indented. */
  lemma RebuiltKeepsKey(content: string, newRange: string)
    requires ContractPin(content).Some?
    ensures var pin := ContractPin(content).value;
      && DescriptorKey(Rebuilt(pin, newRange)) == DescriptorKey(content)
      && DescriptorKey(content) == if pin.indent == "" then Some("contract") else None
  {
    var pin := ContractPin(content).value;
    PinShape(content);
    RebuiltReads(pin, newRange);
    hide ContractPin, Rebuilt;
    PinnedKey(content);
    PinnedKey(Rebuilt(pin, newRange));
  }

  lemma PinnedKey(content: string)
    requires ContractPin(content).Some?
    ensures DescriptorKey(content) == if ContractPin(content).value.indent == "" then Some("contract") else None
  {
    var i := SkipWhile(content, 0, Space);
    AtStart(content[i..], KEY);
    if At(content, 0, "version:") {
      AtStart(content, "version:");
    }
    if At(content, 0, "contract:") {
      AtStart(content, "contract:");
    }
  }
}
