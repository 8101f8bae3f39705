/** The classifier against the range engine: which diffs of its rewrites are bookkeeping, and what a
    boundary of `str.splitlines` inside a line does to that. */
module BookkeepingLaws {
  import opened DiffText
  import opened Outcome
  import opened Text
  import opened VersionRanges
  import opened RangeAlgebra
  import opened ContractPins
  import opened Bookkeeping
  import opened BookkeepingKeys

  // ---- The diff of a rewrite -------------------------------------------------------------

  /** The diff of a file whose lines went from the first of each pair to the second, with every kept
      line as context. */
  function DiffOf(lines: seq<(string, string)>): seq<Edit>
    decreases |lines|
  {
    if lines == [] then [] else
    var (was, now) := lines[|lines| - 1];
    DiffOf(lines[..|lines| - 1]) + if was == now then [Keep(was)] else [Remove(was), Add(now)]
  }

  /** Every rewritten line keeps its key. */
  predicate KeysKept(lines: seq<(string, string)>, key: Key) {
    forall i :: 0 <= i < |lines| && lines[i].0 != lines[i].1 ==> key(lines[i].0).Some? && key(lines[i].1) == key(lines[i].0)
  }

  predicate PairReadRight(was: string, now: string, key: Key) {
    if was == now then ReadRight(Keep(was), key) else ReadRight(Remove(was), key) && ReadRight(Add(now), key)
  }

  /** The classifier takes every entry for what it is. */
  predicate DiffReadRight(lines: seq<(string, string)>, key: Key) {
    forall i :: 0 <= i < |lines| ==> PairReadRight(lines[i].0, lines[i].1, key)
  }

  function PairHeard(was: string, now: string): seq<string> {
    if was == now then HeardOf(Keep(was)) else HeardOf(Remove(was)) + HeardOf(Add(now))
  }

  lemma {:induction false} OneMoreLine(lines: seq<(string, string)>)
    requires lines != []
    ensures var (was, now) := lines[|lines| - 1];
      HeardInEach(DiffOf(lines)) == HeardInEach(DiffOf(lines[..|lines| - 1])) + PairHeard(was, now)
  {
    hide HeardOf;
    var before := DiffOf(lines[..|lines| - 1]);
    var (was, now) := lines[|lines| - 1];
    if was == now {
      assert (before + [Keep(was)])[..|before|] == before;
    } else {
      var both := before + [Remove(was), Add(now)];
      var one := before + [Remove(was)];
      assert both[..|both| - 1] == one && one[..|one| - 1] == before;
      assert HeardInEach(both) == HeardInEach(before) + HeardOf(Remove(was)) + HeardOf(Add(now));
      assert HeardInEach(before) + HeardOf(Remove(was)) + HeardOf(Add(now))
          == HeardInEach(before) + (HeardOf(Remove(was)) + HeardOf(Add(now)));
    }
  }

  lemma {:induction false} OneTallied(edit: Edit, key: Key)
    requires ReadRight(edit, key) && (edit.Remove? || edit.Add?) && key(edit.line).Some?
    ensures var one := multiset{key(edit.line).value};
      Tally(HeardOf(edit), key) == Some(if edit.Remove? then (one, multiset{}) else (multiset{}, one))
  {
    hide HeardOf;
    var heard, one := HeardOf(edit), multiset{key(edit.line).value};
    NothingTallied(key);
    assert heard[..0] == [] && multiset{} + one == one;
    assert heard[0][0..1][0] == heard[0][0];
  }

  /** A pair that keeps its key counts on both sides. */
  lemma {:induction false} PairTallied(was: string, now: string, key: Key)
    requires was != now && PairReadRight(was, now, key) && key(was).Some? && key(now) == key(was)
    ensures PairHeard(was, now) != []
    ensures var one := multiset{key(was).value}; Tally(PairHeard(was, now), key) == Some((one, one))
  {
    OneTallied(Remove(was), key);
    OneTallied(Add(now), key);
    hide HeardOf, Tally;
    TallySplit(HeardOf(Remove(was)), HeardOf(Add(now)), key);
    var one := multiset{key(was).value};
    assert one + multiset{} == one && multiset{} + one == one;
  }

  lemma {:induction false} PairsBalance(lines: seq<(string, string)>, key: Key)
    requires KeysKept(lines, key) && DiffReadRight(lines, key)
    ensures var changed := HeardInEach(DiffOf(lines));
      && Tally(changed, key).Some? && Tally(changed, key).value.0 == Tally(changed, key).value.1
      && (changed == [] <==> forall i :: 0 <= i < |lines| ==> lines[i].0 == lines[i].1)
    decreases |lines|
  {
    hide Tally, ReadRight, PairHeard, HeardOf;
    NothingTallied(key);
    if lines != [] {
      var before := lines[..|lines| - 1];
      var (was, now) := lines[|lines| - 1];
      assert forall i :: 0 <= i < |before| ==> lines[i] == before[i];
      PairsBalance(before, key);
      OneMoreLine(lines);
      hide HeardInEach, DiffOf;
      var changed := HeardInEach(DiffOf(before));
      assert PairReadRight(was, now, key);
      if was == now {
        NothingMore(was, key);
        assert changed + [] == changed;
      } else {
        PairTallied(was, now, key);
        TallySplit(changed, PairHeard(was, now), key);
      }
    }
  }

  lemma NothingMore(was: string, key: Key)
    requires PairReadRight(was, was, key)
    ensures PairHeard(was, was) == []
  {
  }

  /** A diff of lines that keep their keys, read as it is, is bookkeeping as soon as one line moved. */
  lemma {:induction false} RewritesAreBookkeeping(lines: seq<(string, string)>, key: Key)
    requires KeysKept(lines, key) && DiffReadRight(lines, key)
    ensures Accepts(DiffOf(lines), key) <==> exists i :: 0 <= i < |lines| && lines[i].0 != lines[i].1
  {
    hide Heard, HeardInEach, Tally, DiffOf, DiffReadRight;
    PairsBalance(lines, key);
    ReadEntryByEntry(DiffOf(lines));
  }

  // ---- Lines with another boundary in them -----------------------------------------------

  /** Where the classifier stops reading a line. */
  function FirstBreak(line: string): (j: nat)
    ensures j <= |line|
  {
    SkipWhile(line, 0, Inside)
  }

  lemma BreakSplits(line: string)
    ensures var j := FirstBreak(line);
      Unbroken(line, j) && (j < |line| ==> Boundary(line[j])) && forall end :: 0 <= end <= |line| ==> (Unbroken(line, end) <==> end <= j)
  {
    var j := FirstBreak(line);
    assert forall k :: 0 <= k < j ==> Inside(line[k]);
  }

  lemma {:induction false} BlankUnheard(lines: seq<string>)
    requires AllBlank(lines)
    ensures ChangedLines(lines) == []
    decreases |lines|
  {
    hide Space;
    if lines != [] {
      var last := lines[|lines| - 1];
      BlankUnheard(lines[..|lines| - 1]);
      MarkIsNoSpace();
      assert Blank(last);
      assert last != "" ==> last[0..1][0] == last[0];
    }
  }

  lemma MarkIsNoSpace()
    ensures !Space('+') && !Space('-')
  {
  }

  predicate OwnMark(line: string) { line == "" || (line[0] != '+' && line[0] != '-') }

  lemma MarkedChange(mark: char, line: string)
    requires (mark == '+' || mark == '-') && OwnMark(line)
    ensures IsChange([mark] + line) && StartsWith([mark] + line, [mark])
  {
    var marked := [mark] + line;
    assert marked[0..1] == [mark];
    assert |marked| >= 3 ==> marked[0..3][1] == line[0];
    assert "+++"[1] == '+' && "---"[1] == '-' && ['+'] == "+" && ['-'] == "-";
  }

  /** A change is heard up to its first boundary; what follows is not heard when it is blank. */
  lemma {:induction false} HeardFront(front: string, tail: string)
    requires Unbroken(front, |front|) && (tail != "" ==> Boundary(tail[0])) && IsChange(front)
    ensures var heard := ChangedLines(SplitLines(front + tail + "\n"));
      heard != [] && heard[0] == front && (Blank(tail) ==> heard == [front])
  {
    hide IsChange, SplitLines, Unbroken, Blank, AllBlank, Boundary;
    SplitBegins(front, tail);
    var lines := SplitLines(front + tail + "\n");
    assert lines == [front] + lines[1..];
    ChangesSplit([front], lines[1..]);
    assert [front][..0] == [] && ChangedLines([front]) == [front];
    if Blank(tail) {
      BlankUnheard(lines[1..]);
    }
  }

  lemma {:induction false} HeardUpToBreak(mark: char, line: string)
    requires (mark == '+' || mark == '-') && OwnMark(line)
    ensures var j, heard := FirstBreak(line), ChangedLines(SplitLines([mark] + line + "\n"));
      && heard != [] && heard[0] == [mark] + line[..j]
      && (Blank(line[j..]) ==> heard == [[mark] + line[..j]])
  {
    var j := FirstBreak(line);
    BreakSplits(line);
    MarkedChange(mark, line[..j]);
    MarkedUnbroken(mark, line[..j]);
    hide IsChange, SplitLines, Unbroken, Blank, FirstBreak, Boundary, ChangedLines, StartsWith;
    Rejoined(mark, line, j);
    HeardFront([mark] + line[..j], line[j..]);
  }

  lemma MarkedUnbroken(mark: char, line: string)
    requires Unbroken(line, |line|) && (mark == '+' || mark == '-')
    ensures Unbroken([mark] + line, |line| + 1)
  {
  }

  lemma Rejoined(mark: char, line: string, j: nat)
    requires j <= |line|
    ensures [mark] + line[..j] + line[j..] == [mark] + line
  {
  }

  /** With the key of what is heard and nothing but white space behind it a line is read right. */
  lemma {:induction false} CutReadRight(line: string, key: Key)
    requires OwnMark(line) && Blank(line[FirstBreak(line)..]) && key(line[..FirstBreak(line)]) == key(line)
    ensures ReadRight(Remove(line), key) && ReadRight(Add(line), key)
  {
    var j := FirstBreak(line);
    HeardUpToBreak('-', line);
    HeardUpToBreak('+', line);
    if line[..j] == "" || OwnMark(line[..j]) {
      MarkedChange('-', line[..j]);
      MarkedChange('+', line[..j]);
    }
    assert ['-'] == "-" && ['+'] == "+";
    hide ChangedLines, SplitLines, StartsWith, Blank, FirstBreak;
    assert (['-'] + line[..j])[1..] == line[..j] && (['+'] + line[..j])[1..] == line[..j];
  }

  // ---- Requirements with another boundary ------------------------------------------------

  lemma CutRead(s: string, p: Parts, j: nat)
    requires Read(s, p) && p.end <= j <= |s|
    ensures Read(s[..j], p)
  {
    hide Space, NameChar, SpecChar, SpecOp, NotQuote, HeadRead, TailRead;
    CutHead(s, p, j);
    CutTail(s, p, j);
  }

  lemma CutHead(s: string, p: Parts, j: nat)
    requires Read(s, p) && p.end <= j <= |s|
    ensures HeadRead(s[..j], p.open, p.base, p.extras, p.spec)
  {
    hide Space, NameChar, SpecOp, TailRead;
    var t := s[..j];
    assert t[p.open + 1..p.open + 1 + |PREFIX|] == s[p.open + 1..p.open + 1 + |PREFIX|];
  }

  lemma CutTail(s: string, p: Parts, j: nat)
    requires Read(s, p) && p.end <= j <= |s|
    ensures TailRead(s[..j], p.spec, p.marker, p.close, p.end)
  {
    hide Space, SpecChar, NotQuote, HeadRead;
  }

  /** Cut behind its comma a requirement line keeps its key. */
  lemma CutKeepsKey(s: string, p: Parts, j: nat)
    requires RequirementParts(s) == Some(p) && p.end <= j <= |s|
    ensures PyprojectKey(s[..j]) == PyprojectKey(s) != None && OwnMark(s) && Blank(s[j..])
  {
    hide RequirementParts, VersionLine, Space;
    PartsRead(s);
    CutRead(s, p, j);
    ReadIsParts(s[..j], p);
    StartsNoVersion(s, p);
    StartsNoVersion(s[..j], p);
    CutSameKey(s, p, j);
    OpensUnmarked(s, p);
    hide HeadRead;
  }

  lemma CutSameKey(s: string, p: Parts, j: nat)
    requires Parsed(s, p) && p.end <= j <= |s|
    ensures PartsKey(s[..j], p) == PartsKey(s, p)
  {
    var t := s[..j];
    assert t[..p.open] == s[..p.open] && t[p.open + 1..p.extras] == s[p.open + 1..p.extras];
    assert t[p.marker..p.close] == s[p.marker..p.close] && t[p.close + 1..p.end] == s[p.close + 1..p.end];
  }

  lemma OpensUnmarked(s: string, p: Parts)
    requires Read(s, p)
    ensures OwnMark(s)
  {
    MarkIsNoSpace();
    hide Space, TailRead;
    assert s[0] == '"' || Space(s[0]);
  }

  /** Cut at a boundary inside its parts it has none. */
  lemma {:induction false} CutInside(s: string, p: Parts, j: nat)
    requires RequirementParts(s) == Some(p) && j < p.end && Boundary(s[j])
    ensures PyprojectKey(s[..j]) == None && OwnMark(s)
  {
    hide RequirementParts, VersionLine, Space, Boundary;
    PartsRead(s);
    OpensUnmarked(s, p);
    var t := s[..j];
    CutNoVersion(s, p, j);
    if RequirementParts(t).Some? {
      var q := RequirementParts(t).value;
      PartsRead(t);
      SameHead(s, p, t, q);
      SameTail(s, p, t, q);
      CommaIsInside();
      assert false;
    }
  }

  lemma CommaIsInside()
    ensures !Boundary(',')
  {
  }

  lemma CutNoVersion(s: string, p: Parts, j: nat)
    requires Read(s, p) && j <= |s|
    ensures !VersionLine(s[..j])
  {
    assert s[0] == '"' || Space(s[0]);
    if At(s[..j], 0, "version") {
      AtStart(s[..j], "version");
    }
  }

  /** A line that starts another has its parts where that has them. */
  lemma {:induction false} SameHead(s: string, p: Parts, t: string, q: Parts)
    requires Read(s, p) && Read(t, q) && |t| <= |s| && t == s[..|t|]
    ensures q.open == p.open && q.base == p.base && q.extras == p.extras && q.spec == p.spec
  {
    hide HeadRead, TailRead;
    SameName(s, p, t, q);
    SameExtras(s, p, t, q);
  }

  lemma NameRun(s: string, p: Parts)
    requires Read(s, p)
    ensures var name := p.open + 1 + |PREFIX|;
      && (forall n :: 0 <= n < p.open ==> Space(s[n])) && !Space(s[p.open])
      && (forall n :: name <= n < p.base ==> NameChar(s[n])) && !NameChar(s[p.base])
  {
    Marks();
    hide Space, NameChar, SpecOp, At, TailRead;
  }

  lemma {:induction false} SameName(s: string, p: Parts, t: string, q: Parts)
    requires Read(s, p) && Read(t, q) && |t| <= |s| && t == s[..|t|]
    ensures q.open == p.open && q.base == p.base
  {
    hide Space, NameChar, HeadRead, TailRead;
    NameRun(s, p);
    NameRun(t, q);
    SameStop(s, t, 0, p.open, q.open, Space);
    SameStop(s, t, p.open + 1 + |PREFIX|, p.base, q.base, NameChar);
  }

  /** Two runs of one kind of character end at the same place. */
  lemma SameStop(s: string, t: string, a: nat, i: nat, k: nat, p: char -> bool)
    requires |t| <= |s| && t == s[..|t|] && a <= i < |s| && a <= k < |t|
    requires (forall n :: a <= n < i ==> p(s[n])) && (forall n :: a <= n < k ==> p(t[n])) && !p(s[i]) && !p(t[k])
    ensures i == k
  {
    assert forall n :: 0 <= n < |t| ==> t[n] == s[n];
  }

  lemma {:induction false} SameExtras(s: string, p: Parts, t: string, q: Parts)
    requires Read(s, p) && Read(t, q) && |t| <= |s| && t == s[..|t|] && q.base == p.base
    ensures q.extras == p.extras && q.spec == p.spec
  {
    OpIsPlain(s[p.spec]);
    OpIsPlain(t[q.spec]);
    hide Space, NameChar, Alnum, SpecChar, SpecOp, NotQuote, At, TailRead;
    assert forall k :: 0 <= k < |t| ==> t[k] == s[k];
    assert q.extras == p.extras;
  }

  lemma {:induction false} SameTail(s: string, p: Parts, t: string, q: Parts)
    requires Read(s, p) && Read(t, q) && |t| <= |s| && t == s[..|t|] && q.spec == p.spec
    ensures q.marker == p.marker && q.close == p.close && (q.end == p.end || (q.end == |t| && p.end == |t| + 1 && s[|t|] == ','))
  {
    Marks();
    hide Space, NameChar, Alnum, SpecChar, SpecOp, At, HeadRead;
    assert forall k :: 0 <= k < |t| ==> t[k] == s[k];
    assert q.marker == p.marker;
    assert q.close == p.close;
  }

  /** A requirement line is read right if and only if no boundary stands before the end of its parts. */
  lemma {:induction false} RequirementReadRight(s: string)
    requires RequirementParts(s).Some?
    ensures PyprojectKey(s).Some?
    ensures var end := RequirementParts(s).value.end;
      if Unbroken(s, end) then ReadRight(Remove(s), PyprojectKey) && ReadRight(Add(s), PyprojectKey)
      else Tally(HeardOf(Remove(s)), PyprojectKey) == None
  {
    hide RequirementParts, Unbroken, PyprojectKey, ReadRight, Boundary, FirstBreak;
    var p, j := RequirementParts(s).value, FirstBreak(s);
    BreakSplits(s);
    CutKeepsKey(s, p, |s|);
    if p.end <= j {
      CutKeepsKey(s, p, j);
      CutReadRight(s, PyprojectKey);
    } else {
      CutInside(s, p, j);
      HeardUpToBreak('-', s);
      FirstUnkeyed(HeardOf(Remove(s)), PyprojectKey);
    }
  }

  lemma {:induction false} FirstUnkeyed(lines: seq<string>, key: Key)
    requires lines != [] && lines[0] != "" && key(lines[0][1..]) == None
    ensures Tally(lines, key) == None
  {
    assert lines[..1][..0] == [];
    assert lines == lines[..1] + lines[1..];
    assert Tally(lines[..1], key) == None;
    hide Tally;
    TallySplit(lines[..1], lines[1..], key);
  }

  /** What the range engine makes of a pyproject's lines: some requirement lines, with names that
      end in a letter or digit, moved to derived ranges. */
  ghost predicate ResyncedLines(lines: seq<(string, string)>) {
    forall i :: 0 <= i < |lines| && lines[i].0 != lines[i].1 ==> IsResync(lines[i].0, lines[i].1)
  }

  ghost predicate IsResync(was: string, now: string) {
    && RequirementParts(was).Some? && Alnum(was[RequirementParts(was).value.base - 1])
    && ParseRequirement(Literal(was, RequirementParts(was).value)).Some?
    && exists major, minor :: now == Resynced(was, RequirementParts(was).value, RangeOf(major, minor))
  }

  /** No kept line is heard as a change. */
  predicate QuietContext(lines: seq<(string, string)>) {
    forall i :: 0 <= i < |lines| && lines[i].0 == lines[i].1 ==> HeardOf(Keep(lines[i].0)) == []
  }

  /** No boundary inside the parts of a requirement line that moved. */
  predicate PartsUnbroken(lines: seq<(string, string)>) {
    forall i :: 0 <= i < |lines| && lines[i].0 != lines[i].1 && RequirementParts(lines[i].0).Some? ==>
      Unbroken(lines[i].0, RequirementParts(lines[i].0).value.end)
  }

  /** The parts of a resynced line, without boundary where there was none before. */
  lemma {:induction false} ResyncedParts(was: string, major: nat, minor: nat)
    requires RequirementParts(was).Some? && Alnum(was[RequirementParts(was).value.base - 1])
    requires ParseRequirement(Literal(was, RequirementParts(was).value)).Some?
    ensures var p := RequirementParts(was).value; var now := Resynced(was, p, RangeOf(major, minor));
      && RequirementParts(now).Some?
      && (Unbroken(was, p.end) ==> Unbroken(now, RequirementParts(now).value.end))
  {
    hide RequirementParts, RangeOf, SpecOp, SpecChar, Spelled, Read, Resynced, Alnum, ParseRequirement, Boundary;
    var p, spec := RequirementParts(was).value, RangeOf(major, minor);
    PartsRead(was);
    ResyncedIsRespecified(was, p, spec);
    RangeIsSpec(major, minor);
    RespecifiedSpelled(was, p, spec);
    var q := Shifted(p, spec);
    SpelledParts(Respecified(was, p, spec), p.open, p.base, p.extras, q.marker, q.close, q.end);
    RespecifiedAt(was, p, spec);
    hide Respecified;
  }

  lemma {:induction false} ResyncedPair(was: string, now: string)
    requires IsResync(was, now) && was != now
    ensures PyprojectKey(was).Some? && PyprojectKey(now) == PyprojectKey(was)
    ensures if Unbroken(was, RequirementParts(was).value.end) then PairReadRight(was, now, PyprojectKey)
            else Tally(PairHeard(was, now), PyprojectKey) == None
  {
    hide RequirementParts, RangeOf, Resynced, ParseRequirement, PyprojectKey, Alnum, Unbroken, Tally, HeardOf, ReadRight;
    var major, minor :| now == Resynced(was, RequirementParts(was).value, RangeOf(major, minor));
    ResyncedKeepsKey(was, major, minor);
    RequirementReadRight(was);
    ResyncedParts(was, major, minor);
    RequirementReadRight(now);
    TallySplit(HeardOf(Remove(was)), HeardOf(Add(now)), PyprojectKey);
  }

  /** A tally has a key for all that is heard of any line. */
  lemma {:induction false} EveryPairTallied(lines: seq<(string, string)>, key: Key, i: nat)
    requires i < |lines| && Tally(HeardInEach(DiffOf(lines)), key).Some?
    ensures Tally(PairHeard(lines[i].0, lines[i].1), key).Some?
    decreases |lines|
  {
    hide Tally, PairHeard, HeardInEach, DiffOf;
    OneMoreLine(lines);
    var before, last := lines[..|lines| - 1], lines[|lines| - 1];
    TallySplit(HeardInEach(DiffOf(before)), PairHeard(last.0, last.1), key);
    if i < |before| {
      EveryPairTallied(before, key, i);
      assert before[i] == lines[i];
    }
  }

  /** The classifier accepts the requirements the range engine rewrites if and only if none holds a
      boundary before the end of its parts. */
  lemma {:induction false} ResyncIsBookkeeping(lines: seq<(string, string)>)
    requires ResyncedLines(lines) && QuietContext(lines) && exists i :: 0 <= i < |lines| && lines[i].0 != lines[i].1
    ensures Accepts(DiffOf(lines), PyprojectKey) <==> PartsUnbroken(lines)
  {
    hide RequirementParts, PyprojectKey, IsResync, Unbroken, PairReadRight, PairHeard, DiffOf, Heard, HeardInEach, HeardOf, Tally;
    forall i | 0 <= i < |lines| && lines[i].0 != lines[i].1
      ensures RequirementParts(lines[i].0).Some?
      ensures PyprojectKey(lines[i].0).Some? && PyprojectKey(lines[i].1) == PyprojectKey(lines[i].0)
      ensures Unbroken(lines[i].0, RequirementParts(lines[i].0).value.end) ==> PairReadRight(lines[i].0, lines[i].1, PyprojectKey)
      ensures !Unbroken(lines[i].0, RequirementParts(lines[i].0).value.end) ==> Tally(HeardInEach(DiffOf(lines)), PyprojectKey).None?
    {
      assert IsResync(lines[i].0, lines[i].1);
      ResyncHasParts(lines[i].0, lines[i].1);
      ResyncedPair(lines[i].0, lines[i].1);
      if Tally(HeardInEach(DiffOf(lines)), PyprojectKey).Some? {
        EveryPairTallied(lines, PyprojectKey, i);
      }
    }
    ReadEntryByEntry(DiffOf(lines));
    if PartsUnbroken(lines) {
      QuietReadsRight(lines, PyprojectKey);
      RewritesAreBookkeeping(lines, PyprojectKey);
    }
  }

  lemma ResyncHasParts(was: string, now: string)
    requires IsResync(was, now)
    ensures RequirementParts(was).Some?
  {
  }

  lemma QuietReadsRight(lines: seq<(string, string)>, key: Key)
    requires QuietContext(lines)
    requires forall i :: 0 <= i < |lines| && lines[i].0 != lines[i].1 ==> PairReadRight(lines[i].0, lines[i].1, key)
    ensures DiffReadRight(lines, key)
  {
    hide HeardOf;
  }

  // ---- Pins with another boundary --------------------------------------------------------

  /** What `rewrite_contract_yaml` makes of a descriptor's lines: some pins, not indented, moved.  It
      splits at the same boundaries, so there is none before the white space a pin ends in. */
  ghost predicate RepinnedLines(lines: seq<(string, string)>, newRange: string) {
    forall i :: 0 <= i < |lines| && lines[i].0 != lines[i].1 ==> IsRepin(lines[i].0, lines[i].1, newRange)
  }

  ghost predicate IsRepin(was: string, now: string, newRange: string) {
    && ContractPin(was).Some? && ContractPin(was).value.indent == ""
    && PinUnbroken(was, ContractPin(was).value) && now == Rebuilt(ContractPin(was).value, newRange)
  }

  predicate PinUnbroken(content: string, pin: Pin) { |pin.trail| <= |content| && Unbroken(content, |content| - |pin.trail|) }

  /** Where the white space a pin ends in starts, behind `contract:` and a quote. */
  lemma {:induction false} PinEnd(content: string)
    requires ContractPin(content).Some? && ContractPin(content).value.indent == ""
    ensures var trail := ContractPin(content).value.trail; var k := if |content| > 9 then SkipWhile(content, 9, Space) else 9;
      && |trail| <= |content| && 9 <= k < |content| - |trail| && Blank(trail) && content[|content| - |trail|..] == trail
      && At(content, 0, KEY) && content[0] == 'c' && OwnMark(content)
  {
    var i := SkipWhile(content, 0, Space);
    assert i == 0;
    AtStart(content, KEY);
  }

  lemma {:induction false} PinReadRight(content: string)
    requires ContractPin(content).Some? && ContractPin(content).value.indent == "" && PinUnbroken(content, ContractPin(content).value)
    ensures ReadRight(Remove(content), DescriptorKey) && ReadRight(Add(content), DescriptorKey)
  {
    PinEnd(content);
    PinnedKey(content);
    BreakSplits(content);
    hide ContractPin, Space, ReadRight, FirstBreak, Unbroken, Boundary;
    var j, k, end := FirstBreak(content), SkipWhile(content, 9, Space), |content| - |ContractPin(content).value.trail|;
    assert end <= j;
    var t := content[..j];
    assert forall i :: end <= i < |content| ==> content[i] == content[end..][i - end];
    assert Blank(content[j..]);
    SkipWhileIs(t, 9, Space, k);
    assert t[0..9] == content[0..9];
    assert DescriptorKey(t) == Some("contract") by {
      if At(t, 0, "version:") {
        AtStart(t, "version:");
      }
    }
    hide DescriptorKey;
    CutReadRight(content, DescriptorKey);
  }

  /** A rebuilt pin has no boundary where the pin and the new range have none. */
  lemma {:induction false} RebuiltUnbroken(pin: Pin, newRange: string)
    requires pin.indent == "" && Quote(pin.quote) && Unbroken(newRange, |newRange|)
    ensures PinUnbroken(Rebuilt(pin, newRange), pin)
  {
    RebuiltLayout(pin, newRange);
    hide Rebuilt;
    var s := Rebuilt(pin, newRange);
    assert forall i :: 0 <= i < 9 ==> s[i] == s[0..9][i];
    var value := s[11..11 + |newRange|];
    assert forall i :: 0 <= i < |newRange| ==> value[i] == s[11 + i];
  }

  /** And the pins it rewrites, to a range without boundary. */
  lemma {:induction false} RepinIsBookkeeping(lines: seq<(string, string)>, newRange: string)
    requires RepinnedLines(lines, newRange) && QuietContext(lines) && Unbroken(newRange, |newRange|)
    requires exists i :: 0 <= i < |lines| && lines[i].0 != lines[i].1
    ensures Accepts(DiffOf(lines), DescriptorKey)
  {
    hide DescriptorKey, ContractPin, Rebuilt, Accepts, PairReadRight, PinUnbroken, HeardOf;
    forall i | 0 <= i < |lines| && lines[i].0 != lines[i].1
      ensures DescriptorKey(lines[i].0).Some? && DescriptorKey(lines[i].1) == DescriptorKey(lines[i].0)
      ensures PairReadRight(lines[i].0, lines[i].1, DescriptorKey)
    {
      RepinnedPair(lines[i].0, lines[i].1, newRange);
    }
    QuietReadsRight(lines, DescriptorKey);
    RewritesAreBookkeeping(lines, DescriptorKey);
  }

  lemma {:induction false} RepinnedPair(was: string, now: string, newRange: string)
    requires IsRepin(was, now, newRange) && Unbroken(newRange, |newRange|) && was != now
    ensures DescriptorKey(was).Some? && DescriptorKey(now) == DescriptorKey(was) && PairReadRight(was, now, DescriptorKey)
  {
    hide ContractPin, Rebuilt, DescriptorKey, ReadRight, PinUnbroken, Unbroken;
    var pin := ContractPin(was).value;
    PinShape(was);
    RebuiltKeepsKey(was, newRange);
    RebuiltReads(pin, newRange);
    RebuiltUnbroken(pin, newRange);
    SameTrail(now, pin, newRange);
    PinReadRight(was);
    PinReadRight(now);
  }

  lemma SameTrail(content: string, pin: Pin, newRange: string)
    ensures PinUnbroken(content, pin) <==> PinUnbroken(content, pin.(value := newRange))
  {
  }
}
