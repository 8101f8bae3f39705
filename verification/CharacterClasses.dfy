/** The character classes of the patterns, code point by code point. */
module CharacterClasses {
  import opened Text
  import VersionRanges
  import PyprojectSpecs
  import Query
  import Bookkeeping
  import DiffText

  const DIGITS: set<int> := {48, 49, 50, 51, 52, 53, 54, 55, 56, 57}
  const UPPER: set<int> :=
    {65, 66, 67, 68, 69, 70, 71, 72, 73, 74, 75, 76, 77, 78, 79, 80, 81, 82, 83, 84, 85, 86, 87, 88, 89, 90}
  const LOWER: set<int> :=
    {97, 98, 99, 100, 101, 102, 103, 104, 105, 106, 107, 108, 109, 110, 111, 112, 113, 114, 115, 116, 117, 118, 119,
     120, 121, 122}

  /** The code points for which `str.isspace` holds. */
  const BLANKS: set<int> :=
    {9, 10, 11, 12, 13, 28, 29, 30, 31, 32, 133, 160, 5760, 8192, 8193, 8194, 8195, 8196, 8197, 8198, 8199, 8200, 8201, 8202,
     8232, 8233, 8239, 8287, 12288}

  /** Those at which `str.splitlines` splits. */
  const BREAKS: set<int> := {10, 11, 12, 13, 28, 29, 30, 133, 8232, 8233}

  lemma TextClasses(c: char)
    ensures Digit(c) <==> c as int in DIGITS
    ensures 'A' <= c <= 'Z' <==> c as int in UPPER
    ensures 'a' <= c <= 'z' <==> c as int in LOWER
    ensures Space(c) <==> c as int in BLANKS
    ensures DiffText.Boundary(c) <==> c as int in BREAKS
  {
  }

  /** Names and what separates their words, quotes, and the specifiers and suffixes of versions. */
  lemma PatternClasses(c: char)
    ensures VersionRanges.NameChar(c) <==> c as int in UPPER || c as int in LOWER || c as int in DIGITS || c in "._-"
    ensures PyprojectSpecs.Separator(c) <==> c in "-_."
    ensures VersionRanges.Quote(c) <==> c in "\"'"
    ensures Bookkeeping.SpecOp(c) <==> c in "<>=!~"
    ensures Bookkeeping.SpecChar(c) <==> c in "<>=!~.,*" || c as int in DIGITS || c as int in BLANKS
    ensures Query.SuffixChar(c) <==> c as int in UPPER || c as int in LOWER || c as int in DIGITS || c in ".+-"
  {
    TextClasses(c);
    hide Digit, Space;
  }
}
