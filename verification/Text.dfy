/** The string operations the range engine is written in: white space, digit runs and the
    decimal numerals `int()` reads and an f-string prints. */
module Text {
  /** What `str.strip()` drops and `\s` matches. */
  predicate Space(c: char) {
    || '\t' <= c <= '\r' || '\U{1C}' <= c <= ' ' || c == '\U{85}' || c == '\U{A0}' || c == '\U{1680}'
    || '\U{2000}' <= c <= '\U{200A}' || c == '\U{2028}' || c == '\U{2029}' || c == '\U{202F}' || c == '\U{205F}'
    || c == '\U{3000}'
  }

  predicate Digit(c: char) { '0' <= c <= '9' }

  predicate Letter(c: char) { 'a' <= c <= 'z' || 'A' <= c <= 'Z' }

  predicate Alnum(c: char) { Letter(c) || Digit(c) }

  // ---- Scanning --------------------------------------------------------------------------

  /** The index of the first character at or after `i` that `p` rejects, or |s|. */
  function SkipWhile(s: string, i: nat, p: char -> bool): (j: nat)
    requires i <= |s|
    ensures i <= j <= |s|
    ensures forall k :: i <= k < j ==> p(s[k])
    ensures j < |s| ==> !p(s[j])
    decreases |s| - i
  {
    if i < |s| && p(s[i]) then SkipWhile(s, i + 1, p) else i
  }

  lemma {:induction false} SkipWhileIs(s: string, i: nat, p: char -> bool, j: nat)
    requires i <= j <= |s| && (forall k :: i <= k < j ==> p(s[k])) && (j < |s| ==> !p(s[j]))
    ensures SkipWhile(s, i, p) == j
    decreases j - i
  {
    if i < j {
      SkipWhileIs(s, i + 1, p, j);
    }
  }

  /** The end of `s` once trailing characters that satisfy `p` are dropped, not below `i`. */
  function TrimEnd(s: string, i: nat, p: char -> bool): (j: nat)
    requires i <= |s|
    ensures i <= j <= |s|
    ensures forall k :: j <= k < |s| ==> p(s[k])
    ensures j > i ==> !p(s[j - 1])
    decreases |s|
  {
    if |s| > i && p(s[|s| - 1]) then TrimEnd(s[..|s| - 1], i, p) else |s|
  }

  /** `str.strip()`, with `p` the characters to drop. */
  function StripWhere(s: string, p: char -> bool): (r: string)
    ensures r != "" ==> !p(r[0]) && !p(r[|r| - 1])
  {
    var i := SkipWhile(s, 0, p);
    s[i..TrimEnd(s, i, p)]
  }

  function Strip(s: string): string { StripWhere(s, Space) }

  lemma StripKeeps(s: string, p: char -> bool)
    requires s != "" ==> !p(s[0]) && !p(s[|s| - 1])
    ensures StripWhere(s, p) == s
  {
    SkipWhileIs(s, 0, p, 0);
  }

  /** Whether `s` has `part` at index `i`. */
  predicate At(s: string, i: nat, part: string) {
    i + |part| <= |s| && s[i..i + |part|] == part
  }

  // ---- Decimal numerals ------------------------------------------------------------------

  predicate Numeral(s: string) { s != "" && forall i :: 0 <= i < |s| ==> Digit(s[i]) }

  /** `int()` of a run of digits. */
  function Number(s: string): nat
    requires Numeral(s)
  {
    var last := s[|s| - 1] as int - '0' as int;
    if |s| == 1 then last else 10 * Number(s[..|s| - 1]) + last
  }

  /** A number as an f-string prints it. */
  function Decimal(n: nat): (s: string)
    ensures Numeral(s) && Number(s) == n
  {
    var last := [(n % 10 + '0' as int) as char];
    if n < 10 then last else
    assert (Decimal(n / 10) + last)[..|Decimal(n / 10)|] == Decimal(n / 10);
    Decimal(n / 10) + last
  }

  /** The end of the run of digits that starts at `i`. */
  function DigitsEnd(s: string, i: nat): nat
    requires i <= |s|
  {
    SkipWhile(s, i, Digit)
  }

  lemma {:induction false} NumeralRun(s: string, i: nat, n: nat)
    requires At(s, i, Decimal(n))
    requires i + |Decimal(n)| < |s| ==> !Digit(s[i + |Decimal(n)|])
    ensures DigitsEnd(s, i) == i + |Decimal(n)| && s[i..DigitsEnd(s, i)] == Decimal(n)
  {
    var piece := s[i..i + |Decimal(n)|];
    assert forall k :: i <= k < i + |Decimal(n)| ==> s[k] == piece[k - i];
    SkipWhileIs(s, i, Digit, i + |Decimal(n)|);
  }
}
