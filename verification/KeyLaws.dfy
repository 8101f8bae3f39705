/** What the keys of the diff classifier leave of a line: of a requirement its indentation, its name with
    extras, its marker and its comma; of a version line that it is one. */
module KeyLaws {
  import opened Outcome
  import opened Text
  import opened VersionRanges
  import opened RequirementLaws
  import opened Bookkeeping
  import opened BookkeepingKeys

  // ---- A requirement line as it is written -----------------------------------------------

  /** The parts of a first-party requirement line; `base` is the name behind its prefix. */
  datatype Written = Written(indent: string, base: string, extras: string, gap: string, spec: string, marker: string, comma: string,
                             tail: string)
  {
    function Name(): string { PREFIX + base }

    function Head(): string { indent + "\"" + Name() + extras + gap }

    function Tail(): string { spec + marker + "\"" + comma + tail }

    function Line(): string { Head() + Tail() }

    /** What the key is to leave. */
    function Key(): string { indent + "\"" + Name() + extras + marker + "\"" + comma }
  }

  predicate Names(s: string) { forall i :: 0 <= i < |s| ==> NameChar(s[i]) }

  predicate Unquoted(s: string) { forall i :: 0 <= i < |s| ==> NotQuote(s[i]) }

  predicate Specs(s: string) { s != "" && SpecOp(s[0]) && forall i :: 0 <= i < |s| ==> SpecChar(s[i]) }

  predicate WellWritten(w: Written) {
    && Blank(w.indent) && w.base != "" && Names(w.base) && ExtrasShape(w.extras) && Blank(w.gap) && Specs(w.spec)
    && MarkerShape(w.marker) && Unquoted(w.marker) && (w.comma == "" || w.comma == ",") && Blank(w.tail)
  }

  /** Where its parts stand. */
  function PartsOf(w: Written): Parts {
    var open := |w.indent|;
    var base := open + 1 + |w.Name()|;
    var extras := base + |w.extras|;
    var spec := extras + |w.gap|;
    var marker := spec + |w.spec|;
    var close := marker + |w.marker|;
    Parts(open, base, extras, spec, marker, close, close + 1 + |w.comma|)
  }

  lemma HeadPieces(indent: string, name: string, extras: string, gap: string, rest: string)
    ensures var s := indent + "\"" + name + extras + gap + rest; var o := |indent|; var b := o + 1 + |name|; var x := b + |extras|;
      && At(s, 0, indent) && s[o] == '"' && At(s, o + 1, name) && At(s, b, extras) && At(s, x, gap) && At(s, x + |gap|, rest)
      && |s| == x + |gap| + |rest|
  {
    var s := indent + "\"" + name + extras + gap + rest;
    assert s == indent + ("\"" + (name + (extras + (gap + rest))));
  }

  lemma TailPieces(head: string, spec: string, marker: string, comma: string, tail: string)
    ensures var s := head + (spec + marker + "\"" + comma + tail); var m := |head| + |spec|; var c := m + |marker|;
      && At(s, |head|, spec) && At(s, m, marker) && s[c] == '"' && At(s, c + 1, comma) && At(s, c + 1 + |comma|, tail)
      && |s| == c + 1 + |comma| + |tail|
  {
    var s := head + (spec + marker + "\"" + comma + tail);
    assert s == head + (spec + (marker + ("\"" + (comma + tail))));
  }

  lemma NamePieces(base: string)
    ensures At(PREFIX + base, 0, PREFIX) && (PREFIX + base)[|PREFIX|..] == base
  {
  }

  lemma PrefixNames(base: string)
    requires Names(base)
    ensures Names(PREFIX + base)
  {
    hide Alnum;
    assert At(PREFIX + base, 0, PREFIX) by { NamePieces(base); }
    PrefixIsName(PREFIX + base, 0);
    assert forall k :: |PREFIX| <= k < |PREFIX + base| ==> (PREFIX + base)[k] == base[k - |PREFIX|];
  }

  /** The pieces where they stand. */
  ghost predicate Stands(s: string, w: Written) {
    var p := PartsOf(w);
    && |s| == p.end + |w.tail| && At(s, 0, w.indent) && s[p.open] == '"' && At(s, p.open + 1, w.Name()) && At(s, p.base, w.extras)
    && At(s, p.extras, w.gap) && At(s, p.spec, w.spec) && At(s, p.marker, w.marker) && s[p.close] == '"' && At(s, p.close + 1, w.comma)
    && At(s, p.end, w.tail)
  }

  lemma LineStands(w: Written)
    ensures Stands(w.Line(), w)
  {
    HeadPieces(w.indent, w.Name(), w.extras, w.gap, w.Tail());
    TailPieces(w.Head(), w.spec, w.marker, w.comma, w.tail);
    assert |w.Head()| == PartsOf(w).spec;
    hide At;
  }

  lemma NameStands(s: string, w: Written)
    requires WellWritten(w) && Stands(s, w)
    ensures var p := PartsOf(w);
      && (forall k :: 0 <= k < p.open ==> Space(s[k])) && s[p.open] == '"' && At(s, p.open + 1, PREFIX)
      && (forall k :: p.open + 1 + |PREFIX| <= k < p.base ==> NameChar(s[k])) && p.open + 1 + |PREFIX| < p.base
  {
    var p := PartsOf(w);
    hide Space, NameChar;
    AtChars(s, 0, w.indent);
    AtChars(s, p.open + 1, w.Name());
    PrefixNames(w.base);
    assert s[p.open + 1..p.open + 1 + |PREFIX|] == PREFIX by {
      assert forall k :: 0 <= k < |PREFIX| ==> s[p.open + 1 + k] == w.Name()[k] == PREFIX[k];
    }
  }

  lemma ExtrasStand(s: string, w: Written)
    requires WellWritten(w) && Stands(s, w)
    ensures var p := PartsOf(w);
      && p.spec < |s| && SpecOp(s[p.spec]) && (forall k :: p.extras <= k < p.spec ==> Space(s[k])) && !NameChar(s[p.base])
      && (if p.base == p.extras then s[p.base] != '['
          else s[p.base] == '[' && s[p.extras - 1] == ']' && forall k :: p.base <= k < p.extras - 1 ==> s[k] != ']')
  {
    hide *;
    BehindTheName(s, w);
    Marks();
    FirstBehindTheName(w);
  }

  /** The extras, the gap and the specifier, character by character. */
  lemma BehindTheName(s: string, w: Written)
    requires Stands(s, w)
    ensures var p := PartsOf(w);
      && p.base + |w.extras| == p.extras && p.extras + |w.gap| == p.spec && p.spec + |w.spec| < |s|
      && (forall k :: p.base <= k < p.extras ==> s[k] == w.extras[k - p.base])
      && (forall k :: p.extras <= k < p.spec ==> s[k] == w.gap[k - p.extras])
      && (forall k :: p.spec <= k < p.spec + |w.spec| ==> s[k] == w.spec[k - p.spec])
  {
    var p := PartsOf(w);
    AtChars(s, p.base, w.extras);
    AtChars(s, p.extras, w.gap);
    AtChars(s, p.spec, w.spec);
    hide At;
  }

  /** What stands right behind a name is no part of it. */
  lemma FirstBehindTheName(w: Written)
    requires WellWritten(w)
    ensures w.spec != "" && SpecOp(w.spec[0]) && !NameChar(w.spec[0]) && w.spec[0] != '['
    ensures w.gap != "" ==> Space(w.gap[0]) && !NameChar(w.gap[0]) && w.gap[0] != '['
    ensures forall k :: 0 <= k < |w.gap| ==> Space(w.gap[k])
    ensures w.extras != "" ==>
      && |w.extras| >= 2 && w.extras[0] == '[' && w.extras[|w.extras| - 1] == ']'
      && forall k :: 0 <= k < |w.extras| - 1 ==> w.extras[k] != ']'
  {
    Marks();
    OpIsPlain(w.spec[0]);
    if w.gap != "" {
      SpaceIsNoName(w.gap[0]);
    }
    hide Space, NameChar, SpecOp, SpecChar;
  }

  lemma TailStands(s: string, w: Written)
    requires WellWritten(w) && Stands(s, w)
    ensures var p := PartsOf(w); p.spec < p.marker <= p.close < p.end <= |s| && TailRead(s, p.spec, p.marker, p.close, p.end)
  {
    var p := PartsOf(w);
    CommaIsNoSpace();
    hide Space, NameChar, SpecOp, SpecChar, NotQuote;
    AtChars(s, p.spec, w.spec);
    AtChars(s, p.marker, w.marker);
    AtChars(s, p.close + 1, w.comma);
    AtChars(s, p.end, w.tail);
    if w.comma == "" && w.tail != "" {
      assert s[p.end] == w.tail[0] && Space(w.tail[0]);
    }
  }

  lemma CommaIsNoSpace()
    ensures !Space(',')
  {
  }

  /** A well-written line reads as what it was written from. */
  lemma WrittenReads(w: Written)
    requires WellWritten(w)
    ensures RequirementParts(w.Line()) == Some(PartsOf(w)) && Read(w.Line(), PartsOf(w)) && Stands(w.Line(), w)
  {
    hide *;
    LineStands(w);
    StandsReads(w.Line(), w);
    ReadIsParts(w.Line(), PartsOf(w));
  }

  lemma StandsReads(s: string, w: Written)
    requires WellWritten(w) && Stands(s, w)
    ensures Read(s, PartsOf(w))
  {
    var p := PartsOf(w);
    NameStands(s, w);
    ExtrasStand(s, w);
    TailStands(s, w);
    hide WellWritten, Stands, At, Space, NameChar, SpecOp, TailRead, PartsOf;
  }

  /** Its key is indentation, quoted name with extras and marker, and comma. */
  lemma KeyOfWritten(w: Written)
    requires WellWritten(w)
    ensures PyprojectKey(w.Line()) == Some(w.Key())
  {
    WrittenReads(w);
    var s, p := w.Line(), PartsOf(w);
    StartsNoVersion(s, p);
    hide RequirementParts, VersionLine, WellWritten, Read;
    KeyCuts(s, w);
  }

  lemma KeyCuts(s: string, w: Written)
    requires Stands(s, w) && Parsed(s, PartsOf(w))
    ensures PartsKey(s, PartsOf(w)) == w.Key()
  {
    var p := PartsOf(w);
    assert s[..p.open] == w.indent && s[p.marker..p.close] == w.marker && s[p.close + 1..p.end] == w.comma;
    NameAndExtras(s, p.open + 1, w.Name(), w.extras);
    hide Stands, At;
    KeyRegrouped(w.indent, w.Name(), w.extras, w.marker, w.comma);
  }

  lemma NameAndExtras(s: string, i: nat, name: string, extras: string)
    requires At(s, i, name) && At(s, i + |name|, extras)
    ensures s[i..i + |name| + |extras|] == name + extras
  {
  }

  lemma KeyRegrouped(indent: string, name: string, extras: string, marker: string, comma: string)
    ensures indent + "\"" + (name + extras) + marker + "\"" + comma == indent + "\"" + name + extras + marker + "\"" + comma
  {
    assert indent + "\"" + (name + extras) == indent + "\"" + name + extras;
  }

  // ---- Keys tell the parts apart ---------------------------------------------------------

  /** A key, cut where its own characters say. */
  ghost predicate KeyStands(k: string, w: Written) {
    var o := |w.indent|; var b := o + 1 + |w.Name()|; var x := b + |w.extras|; var c := x + |w.marker|;
    && |k| == c + 1 + |w.comma| && At(k, 0, w.indent) && k[o] == '"' && At(k, o + 1, w.Name()) && At(k, b, w.extras)
    && At(k, x, w.marker) && k[c] == '"' && At(k, c + 1, w.comma)
  }

  lemma KeyPieces(w: Written)
    ensures KeyStands(w.Key(), w)
  {
    var k := w.Key();
    assert k == w.indent + ("\"" + (w.Name() + (w.extras + (w.marker + ("\"" + w.comma)))));
  }

  /** The name and the marker, character by character. */
  lemma KeyRuns(k: string, w: Written)
    requires WellWritten(w) && KeyStands(k, w)
    ensures var o := |w.indent|; var b := o + 1 + |w.Name()|; var x := b + |w.extras|; var c := x + |w.marker|;
      && (forall i :: 0 <= i < o ==> Space(k[i])) && (forall i :: o + 1 <= i < b ==> NameChar(k[i]))
      && (forall i :: x <= i < c ==> NotQuote(k[i]))
  {
    PrefixNames(w.base);
    hide Space, NameChar, Alnum, NotQuote;
    AtChars(k, 0, w.indent);
    AtChars(k, |w.indent| + 1, w.Name());
    AtChars(k, |w.indent| + 1 + |w.Name()| + |w.extras|, w.marker);
  }

  /** The extras in between, where there are any. */
  lemma KeyMarks(k: string, w: Written)
    requires WellWritten(w) && KeyStands(k, w)
    ensures var o := |w.indent|; var b := o + 1 + |w.Name()|; var x := b + |w.extras|; var c := x + |w.marker|;
      && c < |k| && k[o] == '"' && k[c] == '"' && (k[b] == '[' || k[b] == ';' || k[b] == '"')
      && if b == x then k[b] != '[' else k[b] == '[' && k[x - 1] == ']' && forall i :: b <= i < x - 1 ==> k[i] != ']'
  {
    hide Space, NameChar, Alnum, NotQuote;
    AtChars(k, |w.indent| + 1 + |w.Name()|, w.extras);
    AtChars(k, |w.indent| + 1 + |w.Name()| + |w.extras|, w.marker);
  }

  lemma {:induction false} KeyCutOff(k: string, w: Written)
    requires WellWritten(w) && KeyStands(k, w)
    ensures var o := |w.indent|; var b := o + 1 + |w.Name()|; var x := b + |w.extras|;
      && o < |k| && b < |k| && x <= |k| && SkipWhile(k, 0, Space) == o && SkipWhile(k, o + 1, NameChar) == b && ExtrasEnd(k, b) == x
      && SkipWhile(k, x, NotQuote) == x + |w.marker|
  {
    var o := |w.indent|;
    var b := o + 1 + |w.Name()|;
    var x := b + |w.extras|;
    hide *;
    KeyRuns(k, w);
    KeyMarks(k, w);
    CutsFall(k, o, b, x, x + |w.marker|);
  }

  lemma CutsFall(k: string, o: nat, b: nat, x: nat, c: nat)
    requires o < b <= x <= c < |k| && k[o] == '"' && k[c] == '"' && (forall i :: 0 <= i < o ==> Space(k[i]))
    requires (forall i :: o + 1 <= i < b ==> NameChar(k[i])) && (k[b] == '[' || k[b] == ';' || k[b] == '"')
    requires if b == x then k[b] != '[' else k[b] == '[' && k[x - 1] == ']' && forall i :: b <= i < x - 1 ==> k[i] != ']'
    requires forall i :: x <= i < c ==> NotQuote(k[i])
    ensures SkipWhile(k, 0, Space) == o && SkipWhile(k, o + 1, NameChar) == b && ExtrasEnd(k, b) == x && SkipWhile(k, x, NotQuote) == c
  {
    Marks();
    hide Space, NameChar, NotQuote, ExtrasEnd;
    SkipWhileIs(k, 0, Space, o);
    SkipWhileIs(k, o + 1, NameChar, b);
    ExtrasEndIs(k, b, x);
    SkipWhileIs(k, x, NotQuote, c);
  }

  lemma SameKeySameParts(v: Written, w: Written)
    requires WellWritten(v) && WellWritten(w) && v.Key() == w.Key()
    ensures v.indent == w.indent && v.Name() + v.extras == w.Name() + w.extras && v.marker == w.marker && v.comma == w.comma
  {
    hide *;
    KeyPieces(v);
    KeyPieces(w);
    KeyCutOff(v.Key(), v);
    KeyCutOff(v.Key(), w);
    SameCuts(v.Key(), v, w);
  }

  /** Two requirement lines have one key if and only if indentation, name with extras, marker and comma
      are the same: specifiers and white space are all a key leaves out. */
  lemma KeysTellPartsApart(v: Written, w: Written)
    requires WellWritten(v) && WellWritten(w)
    ensures PyprojectKey(v.Line()).Some? && PyprojectKey(v.Line()) != Some("version")
    ensures PyprojectKey(v.Line()) == PyprojectKey(w.Line()) <==>
      v.indent == w.indent && v.Name() + v.extras == w.Name() + w.extras && v.marker == w.marker && v.comma == w.comma
  {
    KeyOfWritten(v);
    KeyOfWritten(w);
    QuoteInKey(v);
    KeyRegrouped(v.indent, v.Name(), v.extras, v.marker, v.comma);
    KeyRegrouped(w.indent, w.Name(), w.extras, w.marker, w.comma);
    hide PyprojectKey, WellWritten;
    if v.Key() == w.Key() {
      SameKeySameParts(v, w);
    }
  }

  lemma SameCuts(k: string, v: Written, w: Written)
    requires KeyStands(k, v) && KeyStands(k, w) && |v.indent| == |w.indent| && |v.Name()| == |w.Name()|
    requires |v.extras| == |w.extras| && |v.marker| == |w.marker|
    ensures v.indent == w.indent && v.Name() == w.Name() && v.extras == w.extras && v.marker == w.marker && v.comma == w.comma
  {
  }

  lemma QuoteInKey(w: Written)
    ensures w.Key() != "version"
  {
    KeyPieces(w);
    assert w.Key()[|w.indent|] == '"';
    assert forall i :: 0 <= i < 7 ==> "version"[i] != '"';
  }

  // ---- Exactly the lines that have keys --------------------------------------------------

  /** The parts cut out of a matched line. */
  function CutOut(s: string, p: Parts): Written
    requires Parsed(s, p)
  {
    Written(s[..p.open], s[p.open + 1 + |PREFIX|..p.base], s[p.base..p.extras], s[p.extras..p.spec], s[p.spec..p.marker],
            s[p.marker..p.close], s[p.close + 1..p.end], s[p.end..])
  }

  lemma CutOutWell(s: string, p: Parts)
    requires Read(s, p)
    ensures WellWritten(CutOut(s, p))
  {
    hide Space, NameChar, SpecOp, SpecChar, NotQuote, Alnum, At;
  }

  lemma CutOutLine(s: string, p: Parts)
    requires Read(s, p)
    ensures CutOut(s, p).Line() == s
  {
    ReadIsParsed(s, p);
    QuotesAt(s, p);
    hide *;
    var w := CutOut(s, p);
    NameRejoins(s, p, w);
    HeadRejoins(s, p, w);
    TailRejoins(s, p, w);
    LineInTwo(s, p.spec, w);
  }

  lemma ReadIsParsed(s: string, p: Parts)
    requires Read(s, p)
    ensures Parsed(s, p)
  {
  }

  lemma NameRejoins(s: string, p: Parts, w: Written)
    requires Parsed(s, p) && s[p.open + 1..p.open + 1 + |PREFIX|] == PREFIX && w == CutOut(s, p)
    ensures s[p.open + 1..p.base] == w.Name()
  {
    assert s[p.open + 1..p.base] == s[p.open + 1..p.open + 1 + |PREFIX|] + s[p.open + 1 + |PREFIX|..p.base];
  }

  lemma LineInTwo(s: string, spec: nat, w: Written)
    requires spec <= |s| && s[..spec] == w.Head() && s[spec..] == w.Tail()
    ensures w.Line() == s
  {
    assert s == s[..spec] + s[spec..];
  }

  lemma QuotesAt(s: string, p: Parts)
    requires Read(s, p)
    ensures s[p.open..p.open + 1] == "\"" && s[p.close..p.close + 1] == "\"" && s[p.open + 1..p.open + 1 + |PREFIX|] == PREFIX
  {
  }

  lemma HeadRejoins(s: string, p: Parts, w: Written)
    requires Parsed(s, p) && s[p.open..p.open + 1] == "\"" && w == CutOut(s, p) && s[p.open + 1..p.base] == w.Name()
    ensures s[..p.spec] == w.Head()
  {
    assert s[..p.spec] == s[..p.open] + s[p.open..p.open + 1] + s[p.open + 1..p.base] + s[p.base..p.extras] + s[p.extras..p.spec];
  }

  lemma TailRejoins(s: string, p: Parts, w: Written)
    requires Parsed(s, p) && s[p.close..p.close + 1] == "\"" && w == CutOut(s, p)
    ensures s[p.spec..] == w.Tail()
  {
    assert s[p.spec..] == s[p.spec..p.marker] + s[p.marker..p.close] + s[p.close..p.close + 1] + s[p.close + 1..p.end] + s[p.end..];
  }

  /** A top-level version line: blanks around the equals sign and behind the quoted value. */
  datatype VersionWritten = VersionWritten(gap: string, space: string, value: string, tail: string) {
    function Line(): string { "version" + gap + "=" + space + "\"" + value + "\"" + tail }
  }

  predicate WellVersioned(v: VersionWritten) { Blank(v.gap) && Blank(v.space) && Unquoted(v.value) && Blank(v.tail) }

  lemma VersionPieces(v: VersionWritten)
    ensures var s := v.Line(); var i := 7 + |v.gap|; var j := i + 1 + |v.space|; var k := j + 1 + |v.value|;
      && |s| == k + 1 + |v.tail| && At(s, 0, "version") && At(s, 7, v.gap) && s[i] == '=' && At(s, i + 1, v.space) && s[j] == '"'
      && At(s, j + 1, v.value) && s[k] == '"' && At(s, k + 1, v.tail)
  {
    var s := v.Line();
    assert s == "version" + (v.gap + ("=" + (v.space + ("\"" + (v.value + ("\"" + v.tail))))));
  }

  lemma VersionIsRead(v: VersionWritten)
    requires WellVersioned(v)
    ensures VersionLine(v.Line())
  {
    var s, i := v.Line(), 7 + |v.gap|;
    var j := i + 1 + |v.space|;
    var k := j + 1 + |v.value|;
    VersionPieces(v);
    Marks();
    EqualsIsNoSpace();
    AtChars(s, 7, v.gap);
    AtChars(s, i + 1, v.space);
    AtChars(s, j + 1, v.value);
    AtChars(s, k + 1, v.tail);
    hide Space, NotQuote, At;
    SkipWhileIs(s, 7, Space, i);
    SkipWhileIs(s, i + 1, Space, j);
    SkipWhileIs(s, j + 1, NotQuote, k);
    SkipWhileIs(s, k + 1, Space, |s|);
  }

  lemma EqualsIsNoSpace()
    ensures !Space('=')
  {
  }

  /** Where the parts of a version line stand. */
  lemma VersionParts(s: string) returns (i: nat, j: nat, k: nat)
    requires VersionLine(s)
    ensures 7 <= i < j < k < |s| && At(s, 0, "version") && s[i] == '=' && s[j] == '"' && s[k] == '"'
    ensures (forall n :: 7 <= n < i ==> Space(s[n])) && (forall n :: i < n < j ==> Space(s[n]))
    ensures (forall n :: j < n < k ==> NotQuote(s[n])) && (forall n :: k < n < |s| ==> Space(s[n]))
  {
    i := SkipWhile(s, 7, Space);
    j := SkipWhile(s, i + 1, Space);
    k := SkipWhile(s, j + 1, NotQuote);
    hide Space;
    assert k < |s| && SkipWhile(s, k + 1, Space) == |s|;
    hide SkipWhile;
  }

  lemma VersionCutOut(s: string) returns (v: VersionWritten)
    requires VersionLine(s)
    ensures WellVersioned(v) && v.Line() == s
  {
    hide VersionLine, Space, NotQuote;
    var i, j, k := VersionParts(s);
    v := VersionWritten(s[7..i], s[i + 1..j], s[j + 1..k], s[k + 1..]);
    VersionRejoins(s, i, j, k);
  }

  lemma VersionRejoins(s: string, i: nat, j: nat, k: nat)
    requires 7 <= i < j < k < |s| && At(s, 0, "version") && s[i] == '=' && s[j] == '"' && s[k] == '"'
    ensures VersionWritten(s[7..i], s[i + 1..j], s[j + 1..k], s[k + 1..]).Line() == s
  {
    assert s[k..k + 1] == "\"" && s[j..j + 1] == "\"" && s[i..i + 1] == "=" && s[..7] == "version";
    assert s == s[..7] + s[7..i] + s[i..i + 1] + s[i + 1..j] + s[j..j + 1] + s[j + 1..k] + s[k..k + 1] + s[k + 1..];
  }

  /** A pyproject line has the key "version" if and only if it is a top-level version line, and any other
      key if and only if it is a first-party requirement line. */
  lemma {:induction false} KeyedLines(s: string)
    ensures PyprojectKey(s) == Some("version") <==> exists v: VersionWritten :: WellVersioned(v) && v.Line() == s
    ensures PyprojectKey(s).Some? && PyprojectKey(s) != Some("version") <==> exists w: Written :: WellWritten(w) && w.Line() == s
  {
    hide WellWritten, WellVersioned;
    if VersionLine(s) {
      var v := VersionCutOut(s);
    } else if RequirementParts(s).Some? {
      var p := RequirementParts(s).value;
      PartsRead(s);
      CutOutWell(s, p);
      CutOutLine(s, p);
    }
    hide VersionLine, RequirementParts;
    if v: VersionWritten :| WellVersioned(v) && v.Line() == s {
      VersionIsRead(v);
    }
    if w: Written :| WellWritten(w) && w.Line() == s {
      KeysTellPartsApart(w, w);
    } else {
      NoOtherKey(s);
    }
  }

  lemma NoOtherKey(s: string)
    ensures PyprojectKey(s).Some? ==> VersionLine(s) || RequirementParts(s).Some?
    ensures VersionLine(s) ==> PyprojectKey(s) == Some("version")
  {
  }

  /** A descriptor line has a key if and only if it begins with `version:` or `contract:` and holds
      something more behind it, and which one it begins with is the key. */
  lemma DescriptorKeyed(s: string)
    ensures DescriptorKey(s) == Some("version") <==> At(s, 0, "version:") && exists i :: 8 <= i < |s| && !Space(s[i])
    ensures DescriptorKey(s) == Some("contract") <==> At(s, 0, "contract:") && exists i :: 9 <= i < |s| && !Space(s[i])
    ensures DescriptorKey(s).Some? ==> DescriptorKey(s) == Some("version") || DescriptorKey(s) == Some("contract")
  {
    hide Space;
    if At(s, 0, "version:") {
      AtStart(s, "version:");
    }
    if At(s, 0, "contract:") {
      AtStart(s, "contract:");
    }
  }

  // ---- What an accepted diff keeps -------------------------------------------------------

  /** What a pyproject line says, its version or specifier left out. */
  datatype Meaning = Version | Requires(indent: string, name: string, marker: string, comma: string) | Other(line: string)

  ghost function MeaningOf(s: string): Meaning {
    if exists v: VersionWritten :: WellVersioned(v) && v.Line() == s then Version
    else if exists w: Written :: WellWritten(w) && w.Line() == s then
      var w: Written :| WellWritten(w) && w.Line() == s;
      Requires(w.indent, w.Name() + w.extras, w.marker, w.comma)
    else Other(s)
  }

  /** Lines say the same exactly when they are erased alike. */
  lemma MeaningIsErased(a: string, b: string)
    ensures MeaningOf(a) == MeaningOf(b) <==> Erase(PyprojectKey, a) == Erase(PyprojectKey, b)
  {
    hide PyprojectKey, WellWritten, WellVersioned;
    KeyedLines(a);
    KeyedLines(b);
    MeaningCases(a);
    MeaningCases(b);
    hide MeaningOf;
    if MeaningOf(a).Requires? && MeaningOf(b).Requires? {
      var v: Written :| WellWritten(v) && v.Line() == a && MeaningOf(a) == Requires(v.indent, v.Name() + v.extras, v.marker, v.comma);
      var w: Written :| WellWritten(w) && w.Line() == b && MeaningOf(b) == Requires(w.indent, w.Name() + w.extras, w.marker, w.comma);
      KeysTellPartsApart(v, w);
    }
  }

  lemma MeaningCases(s: string)
    ensures MeaningOf(s).Version? <==> exists v: VersionWritten :: WellVersioned(v) && v.Line() == s
    ensures !MeaningOf(s).Version? ==> (MeaningOf(s).Requires? <==> exists w: Written :: WellWritten(w) && w.Line() == s)
    ensures MeaningOf(s).Requires? ==> exists w: Written ::
      WellWritten(w) && w.Line() == s && MeaningOf(s) == Requires(w.indent, w.Name() + w.extras, w.marker, w.comma)
    ensures MeaningOf(s).Other? ==> MeaningOf(s).line == s
  {
    hide WellWritten, WellVersioned;
  }

  ghost function MeaningIf(here: bool, edit: Edit): multiset<Meaning> {
    if here && !edit.Header? then multiset{MeaningOf(edit.line)} else multiset{}
  }

  /** What the lines of the file before the diff say, and after it. */
  ghost function SaidBefore(edits: seq<Edit>): multiset<Meaning>
    decreases |edits|
  {
    if edits == [] then multiset{} else
    SaidBefore(edits[..|edits| - 1]) + MeaningIf(!edits[|edits| - 1].Add?, edits[|edits| - 1])
  }

  ghost function SaidAfter(edits: seq<Edit>): multiset<Meaning>
    decreases |edits|
  {
    if edits == [] then multiset{} else
    SaidAfter(edits[..|edits| - 1]) + MeaningIf(!edits[|edits| - 1].Remove?, edits[|edits| - 1])
  }

  lemma SaidOnce(here: bool, edit: Edit, line: string)
    ensures MeaningIf(here, edit)[MeaningOf(line)] == LineIf(here, edit, PyprojectKey)[Erase(PyprojectKey, line)]
  {
    hide MeaningOf, PyprojectKey;
    if here && !edit.Header? {
      MeaningIsErased(edit.line, line);
    }
  }

  lemma {:induction false} SaidAsOften(edits: seq<Edit>, line: string)
    ensures SaidBefore(edits)[MeaningOf(line)] == Before(edits, PyprojectKey)[Erase(PyprojectKey, line)]
    ensures SaidAfter(edits)[MeaningOf(line)] == After(edits, PyprojectKey)[Erase(PyprojectKey, line)]
    decreases |edits|
  {
    hide MeaningOf, PyprojectKey, MeaningIf, LineIf;
    if edits != [] {
      var last := edits[|edits| - 1];
      SaidAsOften(edits[..|edits| - 1], line);
      SaidOnce(!last.Add?, last, line);
      SaidOnce(!last.Remove?, last, line);
    }
  }

  lemma {:induction false} SaidByALine(edits: seq<Edit>, said: Meaning)
    ensures said in SaidBefore(edits) + SaidAfter(edits) ==> exists line :: said == MeaningOf(line)
    decreases |edits|
  {
    hide MeaningOf;
    if edits != [] {
      SaidByALine(edits[..|edits| - 1], said);
    }
  }

  /** An accepted pyproject diff read as what it is leaves the file saying what it said: the same lines of
      every other kind, as many version lines, and the same first-party requirements by indentation, name
      with extras, marker and comma. */
  lemma {:induction false} AcceptedKeepsRequirements(edits: seq<Edit>)
    requires Accepts(edits, PyprojectKey) && forall i :: 0 <= i < |edits| ==> ReadRight(edits[i], PyprojectKey)
    ensures SaidBefore(edits) == SaidAfter(edits)
  {
    hide MeaningOf, PyprojectKey, Before, After, SaidBefore, SaidAfter, Accepts, ReadRight, Erase;
    AcceptedKeepsEveryLine(edits, PyprojectKey);
    forall said: Meaning
      ensures SaidBefore(edits)[said] == SaidAfter(edits)[said]
    {
      SaidByALine(edits, said);
      if line :| said == MeaningOf(line) {
        SaidAsOften(edits, line);
      }
    }
  }
}
