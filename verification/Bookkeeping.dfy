/** The release-bookkeeping classifier of scripts/release_bookkeeping_diff.py: which diffs of a
    pyproject or a descriptor it accepts, and what an accepted diff leaves of the file. */
module Bookkeeping {
  import opened DiffText
  import opened Outcome
  import opened Text
  import opened VersionRanges

  // ---- Keys ------------------------------------------------------------------------------

  /** What a changed line's content normalizes to; None outside the bookkeeping shapes. */
  type Key = string -> Option<string>

  predicate NotQuote(c: char) { c != '"' }

  predicate SpecOp(c: char) { c in "<>=!~" }

  predicate SpecChar(c: char) { SpecOp(c) || Digit(c) || c == '.' || c == ',' || c == '*' || Space(c) }

  /** A `version = "..."` line at the top level. */
  predicate VersionLine(s: string) {
    && At(s, 0, "version")
    && var i := SkipWhile(s, 7, Space);
    && i < |s| && s[i] == '='
    && var j := SkipWhile(s, i + 1, Space);
    && j < |s| && s[j] == '"'
    && var k := SkipWhile(s, j + 1, NotQuote);
    k < |s| && SkipWhile(s, k + 1, Space) == |s|
  }

  /** Where the parts of a first-party requirement line stand: `indent "base extras spec marker" comma`. */
  datatype Parts = Parts(open: nat, base: nat, extras: nat, spec: nat, marker: nat, close: nat, end: nat)

  const PREFIX := "tai42-"

  /** The start of the literal, the end of the base name, that of the extras, and the start of the
      specifier. */
  function HeadParts(s: string): (r: Option<(nat, nat, nat, nat)>)
    ensures r.Some? ==> r.value.0 + 1 + |PREFIX| < r.value.1 <= r.value.2 <= r.value.3 < |s| && SpecOp(s[r.value.3])
  {
    var open := SkipWhile(s, 0, Space);
    if open == |s| || s[open] != '"' || !At(s, open + 1, PREFIX) then None else
    var base := SkipWhile(s, open + 1 + |PREFIX|, NameChar);
    if base == open + 1 + |PREFIX| then None else
    var extras := ExtrasEnd(s, base);
    var spec := SkipWhile(s, extras, Space);
    if spec < |s| && SpecOp(s[spec]) then Some((open, base, extras, spec)) else None
  }

  /** The end of the specifier that starts at `spec`, the closing quote, and the end of the comma. */
  function TailParts(s: string, spec: nat): (r: Option<(nat, nat, nat)>)
    requires spec < |s|
    ensures r.Some? ==> spec < r.value.0 <= r.value.1 < r.value.2 <= |s|
  {
    var marker := SkipWhile(s, spec + 1, SpecChar);
    var close := if marker < |s| && s[marker] == ';' then SkipWhile(s, marker, NotQuote) else marker;
    if close == |s| || s[close] != '"' then None else
    var end := if close + 1 < |s| && s[close + 1] == ',' then close + 2 else close + 1;
    if SkipWhile(s, end, Space) == |s| then Some((marker, close, end)) else None
  }

  predicate Parsed(s: string, p: Parts) {
    && p.open + 1 + |PREFIX| < p.base <= p.extras <= p.spec < p.marker <= p.close < p.end <= |s|
  }

  function RequirementParts(s: string): (r: Option<Parts>)
    ensures r.Some? ==> Parsed(s, r.value)
  {
    match HeadParts(s)
    case None => None
    case Some((open, base, extras, spec)) =>
      match TailParts(s, spec)
      case None => None
      case Some((marker, close, end)) => Some(Parts(open, base, extras, spec, marker, close, end))
  }

  /** What a requirement line is without its specifier and the white space around it. */
  function PartsKey(s: string, p: Parts): string
    requires Parsed(s, p)
  {
    s[..p.open] + "\"" + s[p.open + 1..p.extras] + s[p.marker..p.close] + "\"" + s[p.close + 1..p.end]
  }

  /** `_pyproject_key`. */
  function PyprojectKey(s: string): Option<string> {
    if VersionLine(s) then Some("version") else
    match RequirementParts(s)
    case None => None
    case Some(p) => Some(PartsKey(s, p))
  }

  /** `_descriptor_key`. */
  function DescriptorKey(s: string): Option<string> {
    if At(s, 0, "version:") && SkipWhile(s, 8, Space) < |s| then Some("version")
    else if At(s, 0, "contract:") && SkipWhile(s, 9, Space) < |s| then Some("contract")
    else None
  }

  // ---- The classifier --------------------------------------------------------------------

  predicate StartsWith(line: string, prefix: string) { At(line, 0, prefix) }

  predicate IsChange(line: string) {
    (StartsWith(line, "+") || StartsWith(line, "-")) && !StartsWith(line, "+++") && !StartsWith(line, "---")
  }

  /** `_changed_lines`. */
  function ChangedLines(diff: seq<string>): seq<string>
    decreases |diff|
  {
    if diff == [] then [] else
    var last := diff[|diff| - 1];
    ChangedLines(diff[..|diff| - 1]) + if IsChange(last) then [last] else []
  }

  /** The counters of removed and added keys. */
  type Counters = (multiset<string>, multiset<string>)

  /** They after one more line; None when it has no key. */
  function Counted(counters: Counters, line: string, key: Key): Option<Counters> {
    match key(if line == "" then "" else line[1..])
    case None => None
    case Some(k) =>
      Some(if StartsWith(line, "-") then (counters.0 + multiset{k}, counters.1) else (counters.0, counters.1 + multiset{k}))
  }

  /** The removed and the added keys; None once some line has none. */
  function Tally(lines: seq<string>, key: Key): Option<Counters>
    decreases |lines|
  {
    if lines == [] then Some((multiset{}, multiset{})) else
    match Tally(lines[..|lines| - 1], key)
    case None => None
    case Some(counters) => Counted(counters, lines[|lines| - 1], key)
  }

  predicate RewritesOnly(lines: seq<string>, key: Key) {
    lines != [] && Tally(lines, key).Some? && Tally(lines, key).value.0 == Tally(lines, key).value.1
  }

  /** The loop of `_rewrites_only`. */
  method ClassifyRewrites(lines: seq<string>, key: Key) returns (accepted: bool)
    ensures accepted <==> RewritesOnly(lines, key)
  {
    var removed, added: multiset<string> := multiset{}, multiset{};
    for i := 0 to |lines|
      invariant Tally(lines[..i], key) == Some((removed, added))
    {
      var line := lines[i];
      assert lines[..i + 1][..i] == lines[..i];
      match key(if line == "" then "" else line[1..]) {
        case None =>
          UnkeyedStays(lines, key, i + 1);
          return false;
        case Some(k) =>
          if StartsWith(line, "-") {
            removed := removed + multiset{k};
          } else {
            added := added + multiset{k};
          }
      }
    }
    assert lines[..|lines|] == lines;
    accepted := lines != [] && removed == added;
  }

  lemma {:induction false} UnkeyedStays(lines: seq<string>, key: Key, n: nat)
    requires n <= |lines| && Tally(lines[..n], key).None?
    ensures Tally(lines, key).None?
    decreases |lines|
  {
    if n < |lines| {
      assert lines[..|lines| - 1][..n] == lines[..n];
      UnkeyedStays(lines[..|lines| - 1], key, n);
    } else {
      assert lines[..n] == lines;
    }
  }

  // ---- Diffs of a file -------------------------------------------------------------------

  /** One entry of a unified diff: a line kept, removed or added, or a header line of its own. */
  datatype Edit = Keep(line: string) | Remove(line: string) | Add(line: string) | Header(text: string)

  function Render(edit: Edit): string {
    match edit
    case Keep(line) => " " + line
    case Remove(line) => "-" + line
    case Add(line) => "+" + line
    case Header(text) => text
  }

  /** The diff as git prints it. */
  function Printed(edits: seq<Edit>): string
    decreases |edits|
  {
    if edits == [] then "" else Printed(edits[..|edits| - 1]) + Render(edits[|edits| - 1]) + "\n"
  }

  /** The changed lines the classifier finds in it. */
  function Heard(edits: seq<Edit>): seq<string> { ChangedLines(SplitLines(Translated(Printed(edits)))) }

  predicate Accepts(edits: seq<Edit>, key: Key) { RewritesOnly(Heard(edits), key) }

  /** Those it finds in one entry: more or fewer than one where the text holds a boundary or
      reads as a file header. */
  function HeardOf(edit: Edit): seq<string> { ChangedLines(SplitLines(Render(edit) + "\n")) }

  function HeardInEach(edits: seq<Edit>): seq<string>
    decreases |edits|
  {
    if edits == [] then [] else HeardInEach(edits[..|edits| - 1]) + HeardOf(edits[|edits| - 1])
  }

  lemma {:induction false} ChangesSplit(a: seq<string>, b: seq<string>)
    ensures ChangedLines(a + b) == ChangedLines(a) + ChangedLines(b)
    decreases |b|
  {
    hide IsChange;
    if b == [] {
      assert a + b == a;
    } else {
      assert (a + b)[..|a + b| - 1] == a + b[..|b| - 1];
      ChangesSplit(a, b[..|b| - 1]);
    }
  }

  lemma {:induction false} PrintedSplit(edits: seq<Edit>)
    requires edits != []
    ensures SplitLines(Printed(edits)) == SplitLines(Printed(edits[..|edits| - 1])) + SplitLines(Render(edits[|edits| - 1]) + "\n")
  {
    hide Render;
    var before, text := edits[..|edits| - 1], Render(edits[|edits| - 1]);
    if before == [] {
      assert SplitLines("") == [];
      hide SplitLines;
      assert "" + text == text;
    } else {
      var front := Printed(before[..|before| - 1]) + Render(before[|before| - 1]);
      assert Printed(before) == front + "\n";
      hide SplitLines, Printed;
      SplitAtFeed(front, text + "\n");
      assert front + "\n" + (text + "\n") == front + "\n" + text + "\n";
    }
  }

  /** The diff is read entry by entry, the newline translation notwithstanding. */
  lemma {:induction false} ReadEntryByEntry(edits: seq<Edit>)
    ensures Heard(edits) == HeardInEach(edits)
    decreases |edits|
  {
    hide SplitLines, Translated, Render;
    TranslationKeepsLines(Printed(edits));
    if edits == [] {
      NothingPrinted();
    } else {
      var before := edits[..|edits| - 1];
      TranslationKeepsLines(Printed(before));
      ReadEntryByEntry(before);
      PrintedSplit(edits);
      hide Printed, ChangedLines;
      ChangesSplit(SplitLines(Printed(before)), SplitLines(Render(edits[|edits| - 1]) + "\n"));
    }
  }

  lemma NothingPrinted()
    ensures ChangedLines(SplitLines(Printed([]))) == []
  {
  }

  /** A line with its version or range erased. */
  datatype Erased = Keyed(key: string) | Exact(line: string)

  function Erase(key: Key, line: string): Erased {
    match key(line) case Some(k) => Keyed(k) case None => Exact(line)
  }

  function LineIf(here: bool, edit: Edit, key: Key): multiset<Erased> {
    if here && !edit.Header? then multiset{Erase(key, edit.line)} else multiset{}
  }

  /** The lines of the file before the diff, or after it, erased. */
  function Before(edits: seq<Edit>, key: Key): multiset<Erased>
    decreases |edits|
  {
    if edits == [] then multiset{} else
    var last := edits[|edits| - 1];
    Before(edits[..|edits| - 1], key) + LineIf(!last.Add?, last, key)
  }

  function After(edits: seq<Edit>, key: Key): multiset<Erased>
    decreases |edits|
  {
    if edits == [] then multiset{} else
    var last := edits[|edits| - 1];
    After(edits[..|edits| - 1], key) + LineIf(!last.Remove?, last, key)
  }

  // ---- What a tally says of the file -----------------------------------------------------

  /** The classifier takes the entry for what it is: a changed line for one on its side with its
      key, anything else for nothing. */
  predicate ReadRight(edit: Edit, key: Key) {
    var heard := HeardOf(edit);
    if edit.Remove? || edit.Add? then
      |heard| == 1 && StartsWith(heard[0], if edit.Remove? then "-" else "+") && key(heard[0][1..]) == key(edit.line)
    else heard == []
  }

  /** What is heard in the entries read wrong. */
  function Misheard(edits: seq<Edit>, key: Key): seq<string>
    decreases |edits|
  {
    if edits == [] then [] else
    var last := edits[|edits| - 1];
    Misheard(edits[..|edits| - 1], key) + if ReadRight(last, key) then [] else HeardOf(last)
  }

  /** The removed lines read wrong, and the added ones. */
  function Lost(edits: seq<Edit>, key: Key): multiset<Erased>
    decreases |edits|
  {
    if edits == [] then multiset{} else
    var last := edits[|edits| - 1];
    Lost(edits[..|edits| - 1], key) + LineIf(last.Remove? && !ReadRight(last, key), last, key)
  }

  function Gained(edits: seq<Edit>, key: Key): multiset<Erased>
    decreases |edits|
  {
    if edits == [] then multiset{} else
    var last := edits[|edits| - 1];
    Gained(edits[..|edits| - 1], key) + LineIf(last.Add? && !ReadRight(last, key), last, key)
  }

  /** How often a counter says a line moved. */
  function Told(counter: multiset<string>, line: Erased): nat { if line.Keyed? then counter[line.key] else 0 }

  lemma CountedSplit(front: Counters, back: Counters, line: string, key: Key)
    ensures var both := Counted((front.0 + back.0, front.1 + back.1), line, key);
      if Counted(back, line, key).Some? then
        both == Some((front.0 + Counted(back, line, key).value.0, front.1 + Counted(back, line, key).value.1))
      else both == None
  {
    var k := key(if line == "" then "" else line[1..]);
    if k.Some? {
      var one := multiset{k.value};
      assert front.0 + back.0 + one == front.0 + (back.0 + one) && front.1 + back.1 + one == front.1 + (back.1 + one);
    }
    hide StartsWith;
  }

  lemma {:induction false} TallySplit(a: seq<string>, b: seq<string>, key: Key)
    ensures Tally(a + b, key).Some? <==> Tally(a, key).Some? && Tally(b, key).Some?
    ensures Tally(a + b, key).Some? ==>
      var (r, s) := (Tally(a, key).value, Tally(b, key).value); Tally(a + b, key).value == (r.0 + s.0, r.1 + s.1)
    decreases |b|
  {
    hide Counted;
    if b == [] {
      assert a + b == a;
      if Tally(a, key).Some? {
        var (removed, added) := Tally(a, key).value;
        assert removed + multiset{} == removed && added + multiset{} == added;
      }
    } else {
      var front, last := b[..|b| - 1], b[|b| - 1];
      assert (a + b)[..|a + b| - 1] == a + front && (a + b)[|a + b| - 1] == last;
      TallySplit(a, front, key);
      if Tally(a, key).Some? && Tally(front, key).Some? {
        CountedSplit(Tally(a, key).value, Tally(front, key).value, last, key);
      }
    }
  }

  /** An entry read right is told as the line it is. */
  lemma {:induction false} ToldRight(edit: Edit, key: Key, line: Erased)
    requires ReadRight(edit, key) && Tally(HeardOf(edit), key).Some?
    ensures var (removed, added) := Tally(HeardOf(edit), key).value;
      Told(removed, line) == LineIf(edit.Remove?, edit, key)[line] && Told(added, line) == LineIf(edit.Add?, edit, key)[line]
  {
    hide HeardOf;
    var heard := HeardOf(edit);
    if edit.Remove? || edit.Add? {
      assert heard[..0] == [];
      assert heard[0][0..1][0] == heard[0][0];
    }
  }

  ghost predicate BalanceAt(edits: seq<Edit>, key: Key, line: Erased)
    requires Tally(HeardInEach(edits), key).Some? && Tally(Misheard(edits, key), key).Some?
  {
    var (removed, added) := Tally(HeardInEach(edits), key).value;
    var (wronglyRemoved, wronglyAdded) := Tally(Misheard(edits, key), key).value;
    Before(edits, key)[line] + Gained(edits, key)[line] + Told(added, line) + Told(wronglyRemoved, line)
    == After(edits, key)[line] + Lost(edits, key)[line] + Told(removed, line) + Told(wronglyAdded, line)
  }

  lemma {:induction false} Balances(edits: seq<Edit>, key: Key, line: Erased)
    requires Tally(HeardInEach(edits), key).Some?
    ensures Tally(Misheard(edits, key), key).Some? && BalanceAt(edits, key, line)
    decreases |edits|
  {
    NothingTallied(key);
    if edits != [] {
      hide Tally, HeardOf;
      var before, last := edits[..|edits| - 1], edits[|edits| - 1];
      TallySplit(HeardInEach(before), HeardOf(last), key);
      Balances(before, key, line);
      TallySplit(Misheard(before, key), if ReadRight(last, key) then [] else HeardOf(last), key);
      BalancesOn(edits, key, line);
    }
  }

  /** What `counters` and one more entry's make together. */
  predicate Sum(all: Counters, front: Counters, more: Counters) { all == (front.0 + more.0, front.1 + more.1) }

  lemma ToldSum(all: Counters, front: Counters, more: Counters, line: Erased)
    requires Sum(all, front, more)
    ensures Told(all.0, line) == Told(front.0, line) + Told(more.0, line)
    ensures Told(all.1, line) == Told(front.1, line) + Told(more.1, line)
  {
  }

  lemma {:induction false} BalancesOn(edits: seq<Edit>, key: Key, line: Erased)
    requires edits != [] && Tally(HeardInEach(edits), key).Some? && Tally(Misheard(edits, key), key).Some?
    requires var before, heard := edits[..|edits| - 1], HeardOf(edits[|edits| - 1]);
      var wrong := if ReadRight(edits[|edits| - 1], key) then [] else heard;
      && Tally(HeardInEach(before), key).Some? && Tally(Misheard(before, key), key).Some? && BalanceAt(before, key, line)
      && Tally(heard, key).Some? && Tally(wrong, key).Some?
      && Sum(Tally(HeardInEach(edits), key).value, Tally(HeardInEach(before), key).value, Tally(heard, key).value)
      && Sum(Tally(Misheard(edits, key), key).value, Tally(Misheard(before, key), key).value, Tally(wrong, key).value)
    ensures BalanceAt(edits, key, line)
  {
    hide HeardInEach, HeardOf, Misheard, Tally, LineIf, ReadRight, Before, After, Lost, Gained, Sum, Told;
    var before, last := edits[..|edits| - 1], edits[|edits| - 1];
    var heard := Tally(HeardOf(last), key).value;
    LinesMove(edits, key, line);
    BothOrOne(last, key, line);
    ToldSum(Tally(HeardInEach(edits), key).value, Tally(HeardInEach(before), key).value, heard, line);
    if ReadRight(last, key) {
      NothingTallied(key);
      ToldSum(Tally(Misheard(edits, key), key).value, Tally(Misheard(before, key), key).value, (multiset{}, multiset{}), line);
      NothingTold(line);
      ToldRight(last, key, line);
    } else {
      ToldSum(Tally(Misheard(edits, key), key).value, Tally(Misheard(before, key), key).value, heard, line);
    }
  }

  lemma NothingTold(line: Erased)
    ensures Told(multiset{}, line) == 0
  {
  }

  lemma LinesMove(edits: seq<Edit>, key: Key, line: Erased)
    requires edits != []
    ensures var before, last := edits[..|edits| - 1], edits[|edits| - 1]; var wrong := !ReadRight(last, key);
      && Before(edits, key)[line] == Before(before, key)[line] + LineIf(!last.Add?, last, key)[line]
      && After(edits, key)[line] == After(before, key)[line] + LineIf(!last.Remove?, last, key)[line]
      && Lost(edits, key)[line] == Lost(before, key)[line] + LineIf(last.Remove? && wrong, last, key)[line]
      && Gained(edits, key)[line] == Gained(before, key)[line] + LineIf(last.Add? && wrong, last, key)[line]
  {
    hide ReadRight, LineIf;
  }

  lemma NothingTallied(key: Key)
    ensures Tally([], key) == Some((multiset{}, multiset{}))
  {
  }

  /** A kept line is one of both files. */
  lemma BothOrOne(edit: Edit, key: Key, line: Erased)
    ensures LineIf(!edit.Add?, edit, key)[line] == LineIf(edit.Keep?, edit, key)[line] + LineIf(edit.Remove?, edit, key)[line]
    ensures LineIf(!edit.Remove?, edit, key)[line] == LineIf(edit.Keep?, edit, key)[line] + LineIf(edit.Add?, edit, key)[line]
    ensures LineIf(false, edit, key)[line] == 0
  {
  }

  /** The counters are what the edits take away and add, line by line, once the entries read wrong
      are set off against what was heard in them. */
  lemma {:induction false} TallyBalances(edits: seq<Edit>, key: Key, line: Erased)
    requires Tally(Heard(edits), key).Some?
    ensures Tally(Misheard(edits, key), key).Some?
    ensures var (removed, added) := Tally(Heard(edits), key).value; var (wronglyRemoved, wronglyAdded) := Tally(Misheard(edits, key), key).value;
      Before(edits, key)[line] + Gained(edits, key)[line] + Told(added, line) + Told(wronglyRemoved, line)
      == After(edits, key)[line] + Lost(edits, key)[line] + Told(removed, line) + Told(wronglyAdded, line)
  {
    hide Heard, HeardInEach, Tally, Misheard, Before, After, Lost, Gained;
    ReadEntryByEntry(edits);
    Balances(edits, key, line);
  }

  /** What the entries read wrong take from the file and give it is what was heard in them. */
  ghost predicate MisreadingsCancel(edits: seq<Edit>, key: Key)
    requires Tally(Misheard(edits, key), key).Some?
  {
    var (wronglyRemoved, wronglyAdded) := Tally(Misheard(edits, key), key).value;
    forall line :: Gained(edits, key)[line] + Told(wronglyRemoved, line) == Lost(edits, key)[line] + Told(wronglyAdded, line)
  }

  /** An accepted diff leaves the file's lines, versions and ranges erased, as they were (as a
      multiset) if and only if the entries the classifier reads wrong cancel; with none it does. */
  lemma {:induction false} AcceptedKeepsEveryLine(edits: seq<Edit>, key: Key)
    requires Accepts(edits, key)
    ensures Tally(Misheard(edits, key), key).Some?
    ensures Before(edits, key) == After(edits, key) <==> MisreadingsCancel(edits, key)
    ensures (forall i :: 0 <= i < |edits| ==> ReadRight(edits[i], key)) ==> Before(edits, key) == After(edits, key)
  {
    hide Heard, Tally, Misheard, Before, After, Lost, Gained, ReadRight;
    var (removed, added) := Tally(Heard(edits), key).value;
    TallyBalances(edits, key, Keyed(""));
    var (wronglyRemoved, wronglyAdded) := Tally(Misheard(edits, key), key).value;
    forall line
      ensures Before(edits, key)[line] + Gained(edits, key)[line] + Told(wronglyRemoved, line)
           == After(edits, key)[line] + Lost(edits, key)[line] + Told(wronglyAdded, line)
    {
      TallyBalances(edits, key, line);
    }
    if forall i :: 0 <= i < |edits| ==> ReadRight(edits[i], key) {
      NoneMisread(edits, key);
    }
    assert Before(edits, key) == After(edits, key) <==> forall line :: Before(edits, key)[line] == After(edits, key)[line];
  }

  lemma {:induction false} NoneMisread(edits: seq<Edit>, key: Key)
    requires forall i :: 0 <= i < |edits| ==> ReadRight(edits[i], key)
    ensures Misheard(edits, key) == [] && Tally([], key) == Some((multiset{}, multiset{}))
    ensures Lost(edits, key) == Gained(edits, key) == multiset{}
    decreases |edits|
  {
    hide ReadRight;
    if edits != [] {
      NoneMisread(edits[..|edits| - 1], key);
    }
  }

  // ---- Diffs without other boundaries ----------------------------------------------------

  predicate HeaderOk(edit: Edit) { edit.Header? ==> !IsChange(edit.text) }

  /** One line for the classifier too. */
  predicate Plain(edit: Edit) { Unbroken(Render(edit), |Render(edit)|) && HeaderOk(edit) }

  /** A changed line that reads as a file header in the diff. */
  predicate Overlooked(edit: Edit) { (edit.Remove? && StartsWith(edit.line, "--")) || (edit.Add? && StartsWith(edit.line, "++")) }

  /** No line a file header could hide has a key. */
  ghost predicate KeysNoHeader(key: Key) { forall line :: StartsWith(line, "--") || StartsWith(line, "++") ==> key(line) == None }

  lemma StartsBehind(c: char, line: string, d: char, prefix: string)
    ensures StartsWith([c] + line, [d] + prefix) <==> c == d && StartsWith(line, prefix)
  {
    if |prefix| <= |line| {
      assert ([c] + line)[0..1 + |prefix|] == [c] + line[0..|prefix|];
      assert ([d] + prefix)[0] == d && ([d] + prefix)[1..] == prefix && ([c] + line[0..|prefix|])[1..] == line[0..|prefix|];
    }
  }

  lemma RenderedChange(edit: Edit)
    requires HeaderOk(edit)
    ensures IsChange(Render(edit)) <==> (edit.Remove? || edit.Add?) && !Overlooked(edit)
    ensures edit.Remove? || edit.Add? ==>
      && Render(edit) != "" && Render(edit)[1..] == edit.line
      && StartsWith(Render(edit), if edit.Remove? then "-" else "+")
  {
    if !edit.Header? {
      var mark := Render(edit)[0];
      assert Render(edit) == [mark] + edit.line && Render(edit)[1..] == edit.line;
      StartsBehind(mark, edit.line, '+', "");
      StartsBehind(mark, edit.line, '-', "");
      StartsBehind(mark, edit.line, '+', "++");
      StartsBehind(mark, edit.line, '-', "--");
      assert ['+'] + "" == "+" && ['-'] + "" == "-" && ['+'] + "++" == "+++" && ['-'] + "--" == "---";
      assert edit.line[0..0] == "";
      hide StartsWith;
    }
  }

  lemma {:induction false} OneHeard(text: string)
    requires Unbroken(text, |text|)
    ensures ChangedLines(SplitLines(text + "\n")) == if IsChange(text) then [text] else []
  {
    hide IsChange;
    assert SplitLines("") == [] && [text][..0] == [];
    SplitCut(text, "\n", "");
    assert text + "\n" + "" == text + "\n" && [text] + [] == [text];
  }

  lemma PlainReadRight(edit: Edit, key: Key)
    requires Plain(edit)
    ensures ReadRight(edit, key) <==> !Overlooked(edit)
    ensures Overlooked(edit) ==> HeardOf(edit) == []
  {
    hide IsChange, SplitLines, ChangedLines, Render, Unbroken, StartsWith;
    OneHeard(Render(edit));
    RenderedChange(edit);
  }

  lemma {:induction false} PlainMishears(edits: seq<Edit>, key: Key)
    requires KeysNoHeader(key) && forall i :: 0 <= i < |edits| ==> Plain(edits[i])
    ensures Misheard(edits, key) == []
    ensures forall line :: line in Lost(edits, key) ==> line.Exact? && StartsWith(line.line, "--")
    ensures forall line :: line in Gained(edits, key) ==> line.Exact? && StartsWith(line.line, "++")
    ensures (exists i :: 0 <= i < |edits| && Overlooked(edits[i])) <==> Lost(edits, key) + Gained(edits, key) != multiset{}
    decreases |edits|
  {
    hide Plain, ReadRight, HeardOf;
    if edits != [] {
      var before, last := edits[..|edits| - 1], edits[|edits| - 1];
      PlainMishears(before, key);
      PlainReadRight(last, key);
      OverlookedLast(edits);
    }
  }

  lemma OverlookedLast(edits: seq<Edit>)
    requires edits != []
    ensures var before := edits[..|edits| - 1];
      (exists i :: 0 <= i < |edits| && Overlooked(edits[i]))
      <==> Overlooked(edits[|edits| - 1]) || exists i :: 0 <= i < |before| && Overlooked(before[i])
  {
    hide Overlooked;
    if i :| 0 <= i < |edits| - 1 && Overlooked(edits[i]) {
      assert edits[..|edits| - 1][i] == edits[i];
    }
  }

  /** With no boundary inside an entry, an accepted diff leaves the erased lines as they were if and
      only if no changed line reads as a file header. */
  lemma {:induction false} PlainKeepsEveryLine(edits: seq<Edit>, key: Key)
    requires KeysNoHeader(key) && forall i :: 0 <= i < |edits| ==> Plain(edits[i])
    requires Accepts(edits, key)
    ensures Before(edits, key) == After(edits, key) <==> forall i :: 0 <= i < |edits| ==> !Overlooked(edits[i])
  {
    hide Plain, Overlooked, Before, After, Lost, Gained, Misheard, KeysNoHeader, Accepts, ReadRight;
    AcceptedKeepsEveryLine(edits, key);
    PlainMishears(edits, key);
    NothingTallied(key);
    var lost, gained := Lost(edits, key), Gained(edits, key);
    if lost + gained != multiset{} {
      NoLineIsBoth(lost, gained);
      var line :| lost[line] != gained[line];
      assert gained[line] + Told(multiset{}, line) != lost[line] + Told(multiset{}, line);
    } else {
      assert forall line :: (lost + gained)[line] == 0;
    }
  }

  lemma NoLineIsBoth(lost: multiset<Erased>, gained: multiset<Erased>)
    requires lost + gained != multiset{}
    requires forall line :: line in lost ==> line.Exact? && StartsWith(line.line, "--")
    requires forall line :: line in gained ==> line.Exact? && StartsWith(line.line, "++")
    ensures exists line :: lost[line] != gained[line]
  {
    var line :| line in lost + gained;
    if line in lost {
      assert line.line[0..2][0] == '-';
      assert line !in gained;
    } else {
      assert line in gained;
    }
  }

  lemma AtStart(line: string, prefix: string)
    requires prefix != "" && At(line, 0, prefix)
    ensures line[0] == prefix[0]
  {
    assert line[0..|prefix|][0] == line[0];
  }

  lemma NoKeyOff(line: string)
    requires line != "" && (line[0] == '-' || line[0] == '+')
    ensures PyprojectKey(line) == None && DescriptorKey(line) == None
  {
    hide RequirementParts;
    assert !At(line, 0, "version") by { if At(line, 0, "version") { AtStart(line, "version"); } }
    assert !At(line, 0, "version:") by { if At(line, 0, "version:") { AtStart(line, "version:"); } }
    assert !At(line, 0, "contract:") by { if At(line, 0, "contract:") { AtStart(line, "contract:"); } }
    NoPartsOff(line);
  }

  lemma NoPartsOff(line: string)
    requires line != "" && (line[0] == '-' || line[0] == '+')
    ensures RequirementParts(line) == None
  {
    SkipWhileIs(line, 0, Space, 0);
  }

  /** Neither key reads a line that starts like the rest of a file header. */
  lemma KeysPassHeaders()
    ensures KeysNoHeader(PyprojectKey) && KeysNoHeader(DescriptorKey)
  {
    hide PyprojectKey, DescriptorKey;
    forall line: string | StartsWith(line, "--") || StartsWith(line, "++")
      ensures PyprojectKey(line) == None && DescriptorKey(line) == None
    {
      if StartsWith(line, "--") {
        AtStart(line, "--");
      } else {
        AtStart(line, "++");
      }
      NoKeyOff(line);
    }
  }

  // ---- What a boundary hides -------------------------------------------------------------

  lemma {:induction false} ChangedPair(text: string, more: string, c: char)
    requires Unbroken(text, |text|) && Unbroken(more, |more|) && Boundary(c) && (c == '\r' ==> more != "") && IsChange(text) && IsChange(more)
    ensures ChangedLines(SplitLines(text + [c] + more + "\n")) == [text] + [more]
  {
    assert Ends([c], more + "\n");
    hide IsChange, SplitLines, Unbroken, Ends, Boundary;
    assert text + [c] + more + "\n" == text + [c] + (more + "\n");
    SplitCut(text, [c], more + "\n");
    OneHeard(more);
    assert [text][..0] == [] && ChangedLines([text]) == [text];
    ChangesSplit([text], SplitLines(more + "\n"));
  }

  /** Two lines with one key: behind a boundary inside an added line the second counts as removed,
      so the line is accepted though the file gained it. */
  lemma {:induction false} BoundaryHidesALine(key: Key, line: string, c: char, hidden: string)
    requires Boundary(c) && c != '\n' && Unbroken(line, |line|) && Unbroken(hidden, |hidden|)
    requires KeysNoHeader(key) && key(line).Some? && hidden != "" && hidden[0] == '-' && key(hidden[1..]) == key(line)
    ensures var edits := [Add(line + [c] + hidden)];
      Accepts(edits, key) && Before(edits, key) != After(edits, key) && !Overlooked(edits[0])
  {
    var edit := Add(line + [c] + hidden);
    RenderedChange(Add(line));
    RenderedChange(Remove(hidden[1..]));
    assert "-" + hidden[1..] == hidden;
    NotOverlooked(line, c, hidden);
    hide IsChange, Heard, Overlooked, RewritesOnly, KeysNoHeader, Before, After, StartsWith;
    HeardAsTwo(line, c, hidden);
    TwoTallied("+" + line, hidden, key);
    OneAdded(edit, key);
  }

  lemma OneAdded(edit: Edit, key: Key)
    requires edit.Add?
    ensures Before([edit], key) != After([edit], key)
  {
    assert [edit][..0] == [];
    assert Erase(key, edit.line) in After([edit], key);
  }

  lemma {:induction false} HeardAsTwo(line: string, c: char, hidden: string)
    requires Boundary(c) && c != '\n' && Unbroken(line, |line|) && Unbroken(hidden, |hidden|) && hidden != ""
    requires IsChange("+" + line) && IsChange(hidden)
    ensures Heard([Add(line + [c] + hidden)]) == ["+" + line] + [hidden]
  {
    var edit := Add(line + [c] + hidden);
    assert Unbroken("+" + line, |line| + 1);
    hide IsChange, Heard, HeardInEach, SplitLines, Unbroken, ChangedLines, Boundary;
    ReadEntryByEntry([edit]);
    OneEntry(edit);
    MarkMoves("+", line, [c], hidden);
    ChangedPair("+" + line, hidden, c);
  }

  lemma MarkMoves(mark: string, line: string, c: string, hidden: string)
    ensures mark + (line + c + hidden) == mark + line + c + hidden
  {
  }

  lemma OneEntry(edit: Edit)
    ensures HeardInEach([edit]) == ChangedLines(SplitLines(Render(edit) + "\n"))
  {
    hide ChangedLines, SplitLines, Render;
    assert [edit][..0] == [];
    assert [] + HeardOf(edit) == HeardOf(edit);
  }

  lemma NotOverlooked(line: string, c: char, more: string)
    requires Boundary(c) && !StartsWith(line, "++")
    ensures !StartsWith(line + [c] + more, "++")
  {
    var whole := line + [c] + more;
    assert whole[|line|] == c;
    assert |line| >= 2 ==> whole[0..2] == line[0..2];
    assert |whole| >= 2 ==> whole[0..2][0] == whole[0] && whole[0..2][1] == whole[1];
  }

  lemma TwoTallied(first: string, second: string, key: Key)
    requires first != "" && second != "" && first[0] == '+' && second[0] == '-'
    requires key(first[1..]).Some? && key(second[1..]) == key(first[1..])
    ensures RewritesOnly([first] + [second], key)
  {
    var lines, one := [first] + [second], multiset{key(first[1..]).value};
    assert first[0..1] == "+" && second[0..1] == "-";
    assert first[0..1][0] != '-';
    assert multiset{} + one == one;
    assert Counted((multiset{}, multiset{}), first, key) == Some((multiset{}, one));
    assert Counted((multiset{}, one), second, key) == Some((one, one));
    hide Counted;
    NothingTallied(key);
    assert [first][..0] == [];
    assert Tally([first], key) == Some((multiset{}, one));
    assert lines[..1] == [first] && lines[1] == second;
  }

  /** A descriptor line with a form feed in it. */
  lemma {:induction false} FormFeedHidesALine()
    ensures var edits := [Add("contract: a" + ['\U{C}'] + "-contract: b")];
      Accepts(edits, DescriptorKey) && Before(edits, DescriptorKey) != After(edits, DescriptorKey) && !Overlooked(edits[0])
  {
    ContractKey("contract: a");
    ContractKey("contract: b");
    assert "-contract: b"[1..] == "contract: b" && Unbroken("-contract: b", 12);
    KeysPassHeaders();
    hide DescriptorKey, Accepts, Before, After, Overlooked, KeysNoHeader, Unbroken;
    BoundaryHidesALine(DescriptorKey, "contract: a", '\U{C}', "-contract: b");
  }

  lemma ContractKey(line: string)
    requires line == "contract: a" || line == "contract: b"
    ensures DescriptorKey(line) == Some("contract") && Unbroken(line, |line|)
  {
    assert line[0..9] == "contract:" && line[9] == ' ';
    SkipWhileIs(line, 9, Space, 10);
    if At(line, 0, "version:") {
      AtStart(line, "version:");
    }
  }
}
