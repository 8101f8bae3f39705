/** The `contract:` pin of a descriptor, as scripts/_range_sync/contract_pins.py reads and
    rewrites it.  A descriptor is its lines, each with the line break that ends it. */
module ContractPins {
  import opened Outcome
  import opened Text
  import opened VersionRanges

  datatype Line = Line(content: string, newline: string)

  /** A line `indent contract: q val q trail`, the value ending at the line's last quote. */
  datatype Pin = Pin(indent: string, quote: char, value: string, trail: string)

  const KEY := "contract:"

  function ContractPin(content: string): Option<Pin> {
    var i := SkipWhile(content, 0, Space);
    if !At(content, i, KEY) then None else
    var j := SkipWhile(content, i + |KEY|, Space);
    if j == |content| || !Quote(content[j]) then None else
    var end := TrimEnd(content, j + 1, Space);
    if end < j + 2 || content[end - 1] != content[j] then None
    else Some(Pin(content[..i], content[j], content[j + 1..end - 1], content[end..]))
  }

  function Rebuilt(pin: Pin, newRange: string): string {
    pin.indent + "contract: " + [pin.quote] + newRange + [pin.quote] + pin.trail
  }

  /** `contract_yaml_value`: the first pin's value. */
  function ContractValue(lines: seq<Line>): Option<string> {
    if lines == [] then None else
    match ContractPin(lines[0].content)
    case Some(pin) => Some(pin.value)
    case None => ContractValue(lines[1..])
  }

  predicate Stale(line: Line, newRange: string) {
    ContractPin(line.content).Some? && ContractPin(line.content).value.value != newRange
  }

  function RewriteLine(line: Line, newRange: string): Line {
    if Stale(line, newRange) then line.(content := Rebuilt(ContractPin(line.content).value, newRange)) else line
  }

  /** `rewrite_contract_yaml`: every stale pin line, not just the first. */
  function RewriteContract(lines: seq<Line>, newRange: string): (r: seq<Line>)
    ensures |r| == |lines|
  {
    seq(|lines|, i requires 0 <= i < |lines| => RewriteLine(lines[i], newRange))
  }

  predicate AnyStale(lines: seq<Line>, newRange: string) {
    exists i :: 0 <= i < |lines| && Stale(lines[i], newRange)
  }

  method RewriteContractYaml(lines: seq<Line>, newRange: string) returns (out: seq<Line>, changed: bool)
    ensures out == RewriteContract(lines, newRange) && changed == AnyStale(lines, newRange)
  {
    hide ContractPin;
    out, changed := [], false;
    for i := 0 to |lines|
      invariant out == RewriteContract(lines[..i], newRange)
      invariant changed == AnyStale(lines[..i], newRange)
    {
      if Stale(lines[i], newRange) {
        changed := true;
        assert lines[..i + 1][i] == lines[i];
      }
      assert forall k :: 0 <= k < i ==> lines[..i + 1][k] == lines[..i][k];
      out := out + [RewriteLine(lines[i], newRange)];
    }
    assert lines[..|lines|] == lines;
  }

  // ---- Laws ------------------------------------------------------------------------------

  lemma PinShape(content: string)
    ensures var pin := ContractPin(content);
      pin.Some? ==> && Quote(pin.value.quote)
                    && (forall k :: 0 <= k < |pin.value.indent| ==> Space(pin.value.indent[k]))
                    && (forall k :: 0 <= k < |pin.value.trail| ==> Space(pin.value.trail[k]))
  {
  }

  lemma {:induction false} TrimEndIs(s: string, i: nat, p: char -> bool, j: nat)
    requires i < j <= |s| && (forall k :: j <= k < |s| ==> p(s[k])) && !p(s[j - 1])
    ensures TrimEnd(s, i, p) == j
    decreases |s|
  {
    if j < |s| {
      TrimEndIs(s[..|s| - 1], i, p, j);
    }
  }

  /** Where the parts of a rebuilt line stand. */
  lemma RebuiltLayout(pin: Pin, newRange: string)
    ensures var s, i := Rebuilt(pin, newRange), |pin.indent|;
      var j := i + |KEY| + 1; var end := j + |newRange| + 2;
      && |s| == end + |pin.trail| && s[..i] == pin.indent && At(s, i, KEY) && s[i] == 'c' && s[j - 1] == ' '
      && s[j] == pin.quote && s[j + 1..end - 1] == newRange && s[end - 1] == pin.quote && s[end..] == pin.trail
  {
    var s, i := Rebuilt(pin, newRange), |pin.indent|;
    assert s == pin.indent + (KEY + " " + [pin.quote] + newRange + [pin.quote] + pin.trail);
    assert s[i..i + |KEY|] == KEY;
    assert s[i + |KEY|..] == " " + [pin.quote] + newRange + [pin.quote] + pin.trail;
  }

  lemma NotBlank(c: char)
    requires c == 'c' || Quote(c)
    ensures !Space(c)
  {
  }

  /** Where the scanner finds the parts of a pin. */
  lemma {:induction false} PinAt(s: string, i: nat, j: nat, end: nat)
    requires i + |KEY| <= j && j + 2 <= end <= |s| && At(s, i, KEY) && s[i] == 'c'
    requires (forall k :: 0 <= k < i ==> Space(s[k])) && (forall k :: i + |KEY| <= k < j ==> Space(s[k]))
    requires Quote(s[j]) && s[end - 1] == s[j] && forall k :: end <= k < |s| ==> Space(s[k])
    ensures ContractPin(s) == Some(Pin(s[..i], s[j], s[j + 1..end - 1], s[end..]))
  {
    hide Space, Quote, SkipWhile, TrimEnd, At;
    NotBlank(s[i]);
    NotBlank(s[j]);
    SkipWhileIs(s, 0, Space, i);
    SkipWhileIs(s, i + |KEY|, Space, j);
    TrimEndIs(s, j + 1, Space, end);
  }

  /** A rebuilt line is the same pin with the new value, whatever that value holds. */
  lemma RebuiltReads(pin: Pin, newRange: string)
    requires Quote(pin.quote)
    requires forall k :: 0 <= k < |pin.indent| ==> Space(pin.indent[k])
    requires forall k :: 0 <= k < |pin.trail| ==> Space(pin.trail[k])
    ensures ContractPin(Rebuilt(pin, newRange)) == Some(pin.(value := newRange))
  {
    hide Rebuilt, ContractPin, Quote;
    var s, i := Rebuilt(pin, newRange), |pin.indent|;
    var j := i + |KEY| + 1;
    var end := j + |newRange| + 2;
    RebuiltLayout(pin, newRange);
    assert Space(' ');
    hide Space;
    assert forall k :: 0 <= k < i ==> s[k] == s[..i][k];
    assert forall k :: end <= k < |s| ==> s[k] == s[end..][k - end];
    PinAt(s, i, j, end);
  }

  /** A line is not stale once rewritten, and one that was not is as it was. */
  lemma RewrittenLine(line: Line, newRange: string)
    ensures !Stale(RewriteLine(line, newRange), newRange) && RewriteLine(line, newRange).newline == line.newline
    ensures !Stale(line, newRange) ==> RewriteLine(line, newRange) == line
  {
    hide Rebuilt;
    if Stale(line, newRange) {
      PinShape(line.content);
      RebuiltReads(ContractPin(line.content).value, newRange);
    }
    hide ContractPin;
  }

  /** Rewriting leaves no stale pin, and only stale pin lines change. */
  lemma RewriteSettles(lines: seq<Line>, newRange: string)
    ensures var out := RewriteContract(lines, newRange);
      && !AnyStale(out, newRange) && RewriteContract(out, newRange) == out
      && (forall i :: 0 <= i < |lines| && !Stale(lines[i], newRange) ==> out[i] == lines[i])
      && (forall i :: 0 <= i < |lines| ==> out[i].newline == lines[i].newline)
  {
    hide Stale, RewriteLine;
    var out := RewriteContract(lines, newRange);
    forall i | 0 <= i < |lines|
      ensures !Stale(out[i], newRange) && RewriteLine(out[i], newRange) == out[i] && out[i].newline == lines[i].newline
      ensures !Stale(lines[i], newRange) ==> out[i] == lines[i]
    {
      RewrittenLine(lines[i], newRange);
      RewrittenLine(out[i], newRange);
    }
    assert RewriteContract(out, newRange) == out;
  }

  predicate HasPin(line: Line) { ContractPin(line.content).Some? }

  ghost predicate OnePin(lines: seq<Line>) {
    forall i, j :: 0 <= i < j < |lines| ==> !(HasPin(lines[i]) && HasPin(lines[j]))
  }

  /** Whether `check` finds the descriptor out of sync. */
  predicate Drifts(lines: seq<Line>, newRange: string) {
    ContractValue(lines).Some? && ContractValue(lines).value != newRange
  }

  /** The first pin decides what the check sees. */
  lemma {:induction false} FirstPinDecides(lines: seq<Line>, newRange: string)
    ensures ContractValue(lines).Some? <==> exists i :: 0 <= i < |lines| && HasPin(lines[i])
    ensures Drifts(lines, newRange) <==>
      exists i :: 0 <= i < |lines| && Stale(lines[i], newRange) && forall j :: 0 <= j < i ==> !HasPin(lines[j])
    decreases |lines|
  {
    hide ContractPin;
    if lines != [] {
      var rest := lines[1..];
      FirstPinDecides(rest, newRange);
      if i :| 0 <= i < |lines| && HasPin(lines[i]) && !HasPin(lines[0]) {
        assert rest[i - 1] == lines[i];
      }
      if i :| 0 <= i < |lines| && Stale(lines[i], newRange) && forall j :: 0 <= j < i ==> !HasPin(lines[j]) {
        if i > 0 {
          assert rest[i - 1] == lines[i];
          assert forall j :: 0 <= j < i - 1 ==> rest[j] == lines[j + 1];
        }
      }
    }
  }

  /** A check after a rewrite is clean, and with one pin a line the check sees what the rewrite
      would change; with more it sees less. */
  lemma CheckSeesRewrites(lines: seq<Line>, newRange: string)
    ensures !Drifts(RewriteContract(lines, newRange), newRange)
    ensures Drifts(lines, newRange) ==> AnyStale(lines, newRange)
    ensures OnePin(lines) ==> (Drifts(lines, newRange) <==> AnyStale(lines, newRange))
  {
    hide ContractPin;
    RewriteSettles(lines, newRange);
    FirstPinDecides(lines, newRange);
    FirstPinDecides(RewriteContract(lines, newRange), newRange);
  }

  /** Two pins, the first in sync: the check is clean and the rewrite still changes the file. */
  lemma TwoPinsDisagree(newRange: string, other: string)
    requires newRange != other
    ensures var lines := [Line(Rebuilt(Pin("", '\'', "", ""), newRange), "\n"), Line(Rebuilt(Pin("", '\'', "", ""), other), "\n")];
      !Drifts(lines, newRange) && AnyStale(lines, newRange)
  {
    hide Rebuilt, ContractPin;
    var lines := [Line(Rebuilt(Pin("", '\'', "", ""), newRange), "\n"), Line(Rebuilt(Pin("", '\'', "", ""), other), "\n")];
    RebuiltReads(Pin("", '\'', "", ""), newRange);
    RebuiltReads(Pin("", '\'', "", ""), other);
    assert Stale(lines[1], newRange);
  }

  // ---- Which lines are pins --------------------------------------------------------------

  /** A pin as it is written, with white space behind the key. */
  function LineOf(pin: Pin, gap: string): string { pin.indent + KEY + gap + [pin.quote] + pin.value + [pin.quote] + pin.trail }

  predicate WellFormedLine(pin: Pin, gap: string) {
    && Quote(pin.quote) && (forall k :: 0 <= k < |pin.indent| ==> Space(pin.indent[k]))
    && (forall k :: 0 <= k < |gap| ==> Space(gap[k])) && (forall k :: 0 <= k < |pin.trail| ==> Space(pin.trail[k]))
  }

  lemma LinePieces(pin: Pin, gap: string)
    ensures var s, i := LineOf(pin, gap), |pin.indent|;
      var j := i + |KEY| + |gap|; var end := j + |pin.value| + 2;
      && |s| == end + |pin.trail| && s[..i] == pin.indent && At(s, i, KEY) && s[i] == 'c' && s[i + |KEY|..j] == gap
      && s[j] == pin.quote && s[j + 1..end - 1] == pin.value && s[end - 1] == pin.quote && s[end..] == pin.trail
  {
    var s, i := LineOf(pin, gap), |pin.indent|;
    assert s == pin.indent + (KEY + (gap + ([pin.quote] + (pin.value + ([pin.quote] + pin.trail)))));
    assert s[i..i + |KEY|] == KEY;
  }

  lemma LineReads(pin: Pin, gap: string)
    requires WellFormedLine(pin, gap)
    ensures ContractPin(LineOf(pin, gap)) == Some(pin)
  {
    hide LineOf, ContractPin, Quote;
    var s, i := LineOf(pin, gap), |pin.indent|;
    var j := i + |KEY| + |gap|;
    var end := j + |pin.value| + 2;
    LinePieces(pin, gap);
    hide Space;
    assert forall k :: 0 <= k < i ==> s[k] == s[..i][k];
    assert forall k :: i + |KEY| <= k < j ==> s[k] == s[i + |KEY|..j][k - i - |KEY|];
    assert forall k :: end <= k < |s| ==> s[k] == s[end..][k - end];
    PinAt(s, i, j, end);
  }

  lemma ReadIsLine(content: string) returns (gap: string)
    requires ContractPin(content).Some?
    ensures WellFormedLine(ContractPin(content).value, gap) && LineOf(ContractPin(content).value, gap) == content
  {
    var pin := ContractPin(content).value;
    PinShape(content);
    var i := |pin.indent|;
    var j := SkipWhile(content, i + |KEY|, Space);
    var end := |content| - |pin.trail|;
    gap := content[i + |KEY|..j];
    hide Space, SkipWhile, TrimEnd;
    Rejoined(content, i, j, end);
  }

  lemma Rejoined(s: string, i: nat, j: nat, end: nat)
    requires i + |KEY| <= j && j + 2 <= end <= |s| && At(s, i, KEY) && s[end - 1] == s[j]
    ensures s[..i] + KEY + s[i + |KEY|..j] + [s[j]] + s[j + 1..end - 1] + [s[j]] + s[end..] == s
  {
    assert s == s[..i] + s[i..i + |KEY|] + s[i + |KEY|..j] + s[j..j + 1] + s[j + 1..end - 1] + s[end - 1..end] + s[end..];
    assert s[j..j + 1] == [s[j]] && s[end - 1..end] == [s[j]] && s[i..i + |KEY|] == KEY;
  }

  /** A line is a pin if and only if it is spelled as one, and its value is all that stands between the
      first quote behind the key and the same quote at the line's end. */
  lemma {:induction false} PinIsSpelled(content: string, pin: Pin)
    ensures ContractPin(content) == Some(pin) <==> exists gap :: WellFormedLine(pin, gap) && LineOf(pin, gap) == content
  {
    hide ContractPin, WellFormedLine, LineOf;
    if ContractPin(content) == Some(pin) {
      var gap := ReadIsLine(content);
    }
    if gap :| WellFormedLine(pin, gap) && LineOf(pin, gap) == content {
      LineReads(pin, gap);
    }
  }
}
