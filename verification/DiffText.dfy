/** A unified diff as scripts/release_bookkeeping_diff.py reads it: text with its newlines translated,
    split as `str.splitlines` splits, which is at more characters than git ends a line with. */
module DiffText {
  import opened Text

  // ---- Lines -----------------------------------------------------------------------------

  /** Where `str.splitlines` ends a line. */
  predicate Boundary(c: char) {
    || '\n' <= c <= '\r' || '\U{1C}' <= c <= '\U{1E}' || c == '\U{85}' || c == '\U{2028}' || c == '\U{2029}'
  }

  predicate Inside(c: char) { !Boundary(c) }

  /** No boundary before index `end`. */
  predicate Unbroken(s: string, end: nat)
    requires end <= |s|
  {
    forall i :: 0 <= i < end ==> !Boundary(s[i])
  }

  /** How many characters end the line at `i`. */
  function BreakWidth(s: string, i: nat): (w: nat)
    requires i < |s|
    ensures 1 <= w <= 2 && i + w <= |s|
  {
    if s[i] == '\r' && i + 1 < |s| && s[i + 1] == '\n' then 2 else 1
  }

  /** `str.splitlines`. */
  function SplitLines(s: string): seq<string>
    decreases |s|
  {
    if s == "" then [] else
    var end := SkipWhile(s, 0, Inside);
    if end == |s| then [s] else [s[..end]] + SplitLines(s[end + BreakWidth(s, end)..])
  }

  /** What reading as text makes of carriage returns. */
  function Translated(s: string): string
    decreases |s|
  {
    if s == "" then ""
    else if s[0] == '\r' then "\n" + Translated(s[BreakWidth(s, 0)..])
    else [s[0]] + Translated(s[1..])
  }

  /** `sep` is the whole of what ends a line that `rest` goes on from. */
  predicate Ends(sep: string, rest: string) {
    sep == "\r\n" || (|sep| == 1 && Boundary(sep[0]) && !(sep[0] == '\r' && rest != "" && rest[0] == '\n'))
  }

  /** The first line, what ends it, and the rest. */
  lemma CutOf(s: string) returns (front: string, sep: string, rest: string)
    requires !Unbroken(s, |s|)
    ensures s == front + sep + rest && Unbroken(front, |front|) && Ends(sep, rest) && |rest| < |s|
  {
    var end := SkipWhile(s, 0, Inside);
    assert end < |s| by {
      assert forall i :: 0 <= i < end ==> Inside(s[i]);
    }
    front, sep, rest := s[..end], s[end..end + BreakWidth(s, end)], s[end + BreakWidth(s, end)..];
  }

  lemma PartsOf(front: string, sep: string, rest: string)
    requires sep != ""
    ensures var s := front + sep + rest;
      && s[..|front|] == front && s[|front| + |sep|..] == rest && s[|front|] == sep[0]
      && (forall i :: 0 <= i < |front| ==> s[i] == front[i])
      && (|front| + 1 < |s| ==> s[|front| + 1] == if |sep| > 1 then sep[1] else rest[0])
  {
  }

  lemma {:induction false} SplitCut(front: string, sep: string, rest: string)
    requires Unbroken(front, |front|) && Ends(sep, rest)
    ensures SplitLines(front + sep + rest) == [front] + SplitLines(rest)
  {
    var s := front + sep + rest;
    PartsOf(front, sep, rest);
    SkipWhileIs(s, 0, Inside, |front|);
    assert BreakWidth(s, |front|) == |sep|;
  }

  lemma {:induction false} SplitUnbroken(s: string)
    requires Unbroken(s, |s|) && s != ""
    ensures SplitLines(s) == [s]
  {
    SkipWhileIs(s, 0, Inside, |s|);
  }

  lemma Regroup(a: string, b: string, c: string, d: string)
    ensures a + b + c + d == a + b + (c + d)
  {
  }

  lemma FeedIsEnd(sep: string, rest: string, b: string)
    requires Ends(sep, rest) && !(sep == "\r" && rest == "")
    ensures Ends(sep, rest + "\n" + b) && Ends(sep, rest + "\n")
  {
    if sep != "\r\n" && sep[0] == '\r' {
      assert sep == "\r" && (rest + "\n" + b)[0] == rest[0] == (rest + "\n")[0];
    }
  }

  /** Two texts with the same first line, the rest of one split as the rest of the other and more. */
  lemma {:induction false} SameFirst(front: string, sep: string, whole: string, part: string, more: seq<string>)
    requires Unbroken(front, |front|) && Ends(sep, whole) && Ends(sep, part)
    requires SplitLines(whole) == SplitLines(part) + more
    ensures SplitLines(front + sep + whole) == SplitLines(front + sep + part) + more
  {
    hide SplitLines, Unbroken, Ends;
    SplitCut(front, sep, whole);
    SplitCut(front, sep, part);
    assert [front] + (SplitLines(part) + more) == [front] + SplitLines(part) + more;
  }

  lemma {:induction false} FeedBehind(front: string, sep: string, rest: string, b: string)
    requires Unbroken(front, |front|) && Ends(sep, rest) && !(sep == "\r" && rest == "")
    requires SplitLines(rest + "\n" + b) == SplitLines(rest + "\n") + SplitLines(b)
    ensures var a := front + sep + rest; SplitLines(a + "\n" + b) == SplitLines(a + "\n") + SplitLines(b)
  {
    hide SplitLines, Boundary, Unbroken;
    FeedIsEnd(sep, rest, b);
    hide Ends;
    SameFirst(front, sep, rest + "\n" + b, rest + "\n", SplitLines(b));
    Regroup(front, sep, rest, "\n");
    Regroup(front, sep, rest + "\n", b);
  }

  lemma {:induction false} FeedAt(front: string, sep: string, b: string)
    requires Unbroken(front, |front|) && (sep == "\n" || sep == "\r\n")
    ensures SplitLines(front + sep + b) == SplitLines(front + sep) + SplitLines(b)
  {
    assert SplitLines("") == [] && Ends(sep, b) && Ends(sep, "");
    hide SplitLines, Unbroken, Ends;
    SplitCut(front, sep, "");
    SplitCut(front, sep, b);
    SplitEmpty(front + sep);
  }

  lemma SplitEmpty(s: string)
    ensures s + "" == s
  {
  }

  /** Where a line feed ends the text before it the split falls apart. */
  lemma {:induction false} SplitAtFeed(a: string, b: string)
    ensures SplitLines(a + "\n" + b) == SplitLines(a + "\n") + SplitLines(b)
    decreases |a|
  {
    hide SplitLines, Boundary, Unbroken, Ends;
    if Unbroken(a, |a|) {
      FeedAt(a, "\n", b);
    } else {
      var front, sep, rest := CutOf(a);
      if sep == "\r" && rest == "" {
        ReturnFeed(front, b);
        FeedAt(front, "\r\n", b);
        assert a == front + "\r" by {
          assert front + sep + rest == front + sep;
        }
      } else {
        SplitAtFeed(rest, b);
        FeedBehind(front, sep, rest, b);
      }
    }
  }

  lemma ReturnFeed(front: string, b: string)
    ensures front + "\r" + "\n" == front + "\r\n" && front + "\r" + "\n" + b == front + "\r\n" + b
  {
    assert "\r" + "\n" == "\r\n";
  }

  lemma {:induction false} TranslatedFront(front: string, rest: string)
    requires Unbroken(front, |front|)
    ensures Translated(front + rest) == front + Translated(rest)
    decreases |front|
  {
    if front == "" {
      assert front + rest == rest;
    } else {
      assert (front + rest)[1..] == front[1..] + rest && front == [front[0]] + front[1..];
      TranslatedFront(front[1..], rest);
    }
  }

  lemma TranslatedEnd(sep: string, rest: string)
    requires Ends(sep, rest)
    ensures Translated(sep + rest) == (if sep[0] == '\r' then "\n" else sep) + Translated(rest)
  {
    PartsOf("", sep, rest);
    assert "" + sep + rest == sep + rest;
    assert sep[0] == '\r' ==> BreakWidth(sep + rest, 0) == |sep|;
    assert sep[0] != '\r' ==> sep == [sep[0]];
  }

  lemma {:induction false} TranslatedCut(front: string, sep: string, rest: string)
    requires Unbroken(front, |front|) && Ends(sep, rest)
    ensures Translated(front + sep + rest) == front + (if sep[0] == '\r' then "\n" else sep) + Translated(rest)
  {
    hide Translated;
    TranslatedFront(front, sep + rest);
    TranslatedEnd(sep, rest);
    hide Ends, Unbroken;
    var now := if sep[0] == '\r' then "\n" else sep;
    assert front + (sep + rest) == front + sep + rest && front + (now + Translated(rest)) == front + now + Translated(rest);
  }

  /** The translation changes no line: a carriage return ends one with or without it. */
  lemma {:induction false} TranslationKeepsLines(s: string)
    ensures SplitLines(Translated(s)) == SplitLines(s)
    decreases |s|
  {
    hide SplitLines, Unbroken;
    if Unbroken(s, |s|) {
      TranslatedFront(s, "");
      assert s + "" == s;
    } else {
      hide Translated;
      var front, sep, rest := CutOf(s);
      TranslationKeepsLines(rest);
      SplitCut(front, sep, rest);
      TranslatedCut(front, sep, rest);
      SplitCut(front, if sep[0] == '\r' then "\n" else sep, Translated(rest));
    }
  }

  /** Lines that hold nothing but white space. */
  ghost predicate Blank(s: string) { forall i :: 0 <= i < |s| ==> Space(s[i]) }

  ghost predicate AllBlank(lines: seq<string>) { forall n :: 0 <= n < |lines| ==> Blank(lines[n]) }

  lemma {:induction false} BlankLines(s: string)
    requires Blank(s)
    ensures AllBlank(SplitLines(s))
    decreases |s|
  {
    if Unbroken(s, |s|) {
      if s != "" {
        SplitUnbroken(s);
      }
    } else {
      var front, sep, rest := CutOf(s);
      assert forall i :: 0 <= i < |front| ==> front[i] == s[i];
      assert forall i :: 0 <= i < |rest| ==> rest[i] == s[|s| - |rest| + i];
      BlankLines(rest);
      SplitCut(front, sep, rest);
      hide SplitLines, Unbroken, Space;
    }
  }

  /** What ends the line where `tail` starts. */
  lemma {:induction false} TailCut(tail: string) returns (sep: string, rest: string)
    requires tail != "" && Boundary(tail[0])
    ensures tail == sep + rest && Ends(sep, rest) && (Blank(tail) ==> Blank(rest))
  {
    var w := BreakWidth(tail, 0);
    sep, rest := tail[..w], tail[w..];
  }

  /** A text is read up to its first boundary; where only white space follows that is all of it. */
  lemma {:induction false} SplitBegins(front: string, tail: string)
    requires Unbroken(front, |front|) && (tail != "" ==> Boundary(tail[0]))
    ensures var lines := SplitLines(front + tail + "\n");
      lines != [] && lines[0] == front && (Blank(tail) ==> AllBlank(lines[1..]))
  {
    var t := tail + "\n";
    assert Boundary(t[0]);
    assert Blank(tail) ==> Blank(t);
    var sep, rest := TailCut(t);
    hide Unbroken, Ends, Boundary, SplitLines, Blank, AllBlank;
    assert front + tail + "\n" == front + sep + rest by {
      assert front + (tail + "\n") == front + tail + "\n" && front + (sep + rest) == front + sep + rest;
    }
    SplitCut(front, sep, rest);
    if Blank(tail) {
      BlankLines(rest);
    }
  }
}
