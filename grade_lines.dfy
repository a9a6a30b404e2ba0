/** The pure part of `AssignmentParser` in the 2016 marking format: reading a
    grade from a line, the student number and the marker name from a path,
    and one pass over a report's lines. */
module GradeLines {
  import opened Options
  import opened Strings
  import Numbers

  /** A list of six grades; the parser's part lists always have six slots. */
  type SixParts = s: seq<real> | |s| == 6 witness [-1.0, -1.0, -1.0, -1.0, -1.0, -1.0]

  /** The grade of a slot that no line has filled, and of a grade text that
      is not a number. */
  const Sentinel: real := -1.0

  const Unset: SixParts := [Sentinel, Sentinel, Sentinel, Sentinel, Sentinel, Sentinel]

  /** Line prefixes that announce the six testing parts, in slot order. */
  const TestingIndicators: seq<string> := [
    "Scenario 1 [0,1]", "Scenario 2 [0,1]", "Scenario 3 [0,1]",
    "Scenario 4 [0,1]", "Scenario 5 [0,1]", "Scenario 6 [0,1]"]

  /** Line prefixes that announce the six quality parts, in slot order. The
      trailing ". " keeps "i. " from matching an "ii. " line. */
  const QualityIndicators: seq<string> := ["i. ", "ii. ", "iii. ", "iv. ", "v. ", "vi. "]

  /** A line starting with this text ends the pass over a report. */
  const TerminatorText: string := "Code Quality Mark"

  // ---------------------------------------------------------------------
  // Grades, student numbers and marker names

  /** `line.split(sep)[-1]`: the text after the last separator. */
  function LastField(line: string, sep: char): (r: string)
    ensures sep !in r
    ensures sep !in line ==> r == line
  {
    var fields := Split(line, sep);
    assert sep !in line ==> fields == [line] by {
      if sep !in line { SplitAbsent(line, sep); }
    }
    fields[|fields| - 1]
  }

  lemma LastFieldAfter(a: string, b: string, sep: char)
    requires sep !in b
    ensures LastField(a + [sep] + b, sep) == b
  {
    SplitConcat(a, b, sep);
    SplitAbsent(b, sep);
  }

  /** `getGradeFromLine`: the number after the last colon, or the sentinel
      when that text is not a number. Any other result is the value of a
      decimal literal written there. */
  function GradeFromLine(line: string): (r: real)
    ensures r != Sentinel ==>
      exists lit :: Numbers.WellFormed(lit) && Numbers.Render(lit) == Numbers.FloatStrip(LastField(line, ':')) && r == Numbers.Value(lit)
  {
    match Numbers.ParseFloat(LastField(line, ':'))
    case Some(v) => v
    case None => Sentinel
  }

  /** A line "<heading>:<number>" yields the number, whitespace around the
      number notwithstanding and whatever the heading holds. */
  lemma GradeOfLabelledLine(heading: string, lead: string, lit: Numbers.Literal, trail: string)
    requires Numbers.WellFormed(lit) && Numbers.AllFloatSpace(lead) && Numbers.AllFloatSpace(trail)
    ensures GradeFromLine(heading + ":" + lead + Numbers.Render(lit) + trail) == Numbers.Value(lit)
  {
    var number := lead + Numbers.Render(lit) + trail;
    Numbers.RenderChars(lit);
    assert ':' !in number by {
      forall i | 0 <= i < |number| ensures number[i] != ':' {
        if i < |lead| {
          assert Numbers.FloatSpace(lead[i]);
        } else if i < |lead| + |Numbers.Render(lit)| {
          assert Numbers.NumberChar(Numbers.Render(lit)[i - |lead|]);
        } else {
          assert Numbers.FloatSpace(trail[i - |lead| - |Numbers.Render(lit)|]);
        }
      }
    }
    assert heading + ":" + lead + Numbers.Render(lit) + trail == heading + [':'] + number;
    LastFieldAfter(heading, number, ':');
    Numbers.ParseFloatPadded(lead, lit, trail);
  }

  /** A separator U+001C to U+001F right after the last colon makes the
      grade the sentinel: `float()` does not skip it as whitespace. */
  lemma SeparatorAfterColon(heading: string, rest: string)
    requires ':' !in rest && |rest| > 0 && 0x1C <= rest[0] as int <= 0x1F
    ensures GradeFromLine(heading + ":" + rest) == Sentinel
  {
    assert heading + ":" + rest == heading + [':'] + rest;
    LastFieldAfter(heading, rest, ':');
    Numbers.SeparatorIsNoSpace(rest);
  }

  /** A part line without a colon yields the sentinel, however it goes on:
      the whole line is converted, and it starts with a letter. */
  lemma PartLineWithoutColon(line: string, k: nat)
    requires k < 6
    requires StartsWith(line, TestingIndicators[k]) || StartsWith(line, QualityIndicators[k])
    requires ':' !in line
    ensures GradeFromLine(line) == Sentinel
  {
    assert line[0] == 'S' || line[0] == 'i' || line[0] == 'v' by {
      if StartsWith(line, TestingIndicators[k]) {
        assert line[0] == TestingIndicators[k][0];
      } else {
        assert line[0] == QualityIndicators[k][0];
      }
    }
    Numbers.NotANumber(line);
  }

  /** `getStudentNumberForFile`: the slice `filename[-12:-4]`, the eight
      characters before a four-character extension; shorter names give a
      shorter or empty text and never an error. */
  function StudentNumberForFile(filename: string): (r: string)
    ensures |filename| >= 12 ==> r == filename[|filename| - 12..|filename| - 4]
    ensures 4 < |filename| < 12 ==> r == filename[..|filename| - 4]
    ensures |filename| <= 4 ==> r == []
  {
    Slice(filename, -12, -4)
  }

  lemma StudentNumberOfName(prefix: string, number: string, extension: string)
    requires |number| == 8 && |extension| == 4
    ensures StudentNumberForFile(prefix + number + extension) == number
  {
    var f := prefix + number + extension;
    assert f[|f| - 12..|f| - 4] == number;
  }

  /** `ST_NUM.match(s)`: "s" and seven digits at the start of `s`. */
  predicate MatchesStudentNumber(s: string) {
    |s| >= 8 && s[0] == 's' && Numbers.AllDigits(s[1..8])
  }

  /** A file name passes the student-number filter only when it is long
      enough to hold the whole number, which then is exactly 's' and seven
      digits. */
  lemma StudentFileName(filename: string)
    requires MatchesStudentNumber(StudentNumberForFile(filename))
    ensures |filename| >= 12
    ensures filename[|filename| - 12] == 's'
    ensures Numbers.AllDigits(filename[|filename| - 11..|filename| - 4])
  {
    var r := StudentNumberForFile(filename);
    assert r[1..8] == filename[|filename| - 11..|filename| - 4];
  }

  datatype PathError = NoMarkerDirectory(path: string)

  /** `getMarkerForFile`: the third-from-last "/"-separated segment. It fails
      exactly when the path has fewer than two "/". */
  function MarkerForFile(path: string): (r: Result<string, PathError>)
    ensures r.Err? <==> Count(path, '/') < 2
    ensures r.Err? ==> r.error == NoMarkerDirectory(path)
    ensures r.Ok? ==> '/' !in r.value
  {
    var segments := Split(path, '/');
    if |segments| >= 3 then Ok(segments[|segments| - 3]) else Err(NoMarkerDirectory(path))
  }

  /** The marker of ".../<marker>/<dir>/<file>" is `<marker>`. */
  lemma MarkerOfPath(segments: seq<string>)
    requires |segments| >= 3
    requires forall i :: 0 <= i < |segments| ==> '/' !in segments[i]
    ensures MarkerForFile(Join(segments, '/')) == Ok(segments[|segments| - 3])
  {
    SplitJoin(segments, '/');
  }

  // ---------------------------------------------------------------------
  // Header indicators

  /** The `for indicator in ...: if line.startswith(indicator): ... break`
      loop: the first indicator the line starts with. */
  function FirstIndicator(line: string, indicators: seq<string>): (r: Option<nat>)
    ensures r.Some? ==> r.value < |indicators| && StartsWith(line, indicators[r.value])
    ensures r.Some? ==> forall j :: 0 <= j < r.value ==> !StartsWith(line, indicators[j])
    ensures r.None? ==> forall j :: 0 <= j < |indicators| ==> !StartsWith(line, indicators[j])
  {
    if indicators == [] then None
    else if StartsWith(line, indicators[0]) then Some(0)
    else
      match FirstIndicator(line, indicators[1..])
      case None => None
      case Some(i) => Some(i + 1)
  }

  /** The indicator loop itself: tries the indicators in order and stops at
      the first one the line starts with. */
  method FindIndicator(line: string, indicators: seq<string>) returns (r: Option<nat>)
    ensures r == FirstIndicator(line, indicators)
  {
    var i := 0;
    while i < |indicators|
      invariant 0 <= i <= |indicators|
      invariant forall j :: 0 <= j < i ==> !StartsWith(line, indicators[j])
    {
      if StartsWith(line, indicators[i]) {
        return Some(i);
      }
      i := i + 1;
    }
    return None;
  }

  /** No indicator of the list is a prefix of another. */
  predicate PrefixFree(indicators: seq<string>) {
    forall i, j :: 0 <= i < |indicators| && 0 <= j < |indicators| && i != j ==> !StartsWith(indicators[i], indicators[j])
  }

  /** In a prefix-free list, the indicator a line starts with is found
      whatever its position. */
  lemma OnlyIndicator(line: string, indicators: seq<string>, k: nat)
    requires PrefixFree(indicators) && k < |indicators| && StartsWith(line, indicators[k])
    ensures FirstIndicator(line, indicators) == Some(k)
  {
    forall j | 0 <= j < |indicators| && j != k ensures !StartsWith(line, indicators[j]) {
      if StartsWith(line, indicators[j]) {
        if |indicators[j]| <= |indicators[k]| {
          PrefixesAgree(line, indicators[j], indicators[k]);
        } else {
          PrefixesAgree(line, indicators[k], indicators[j]);
        }
      }
    }
  }

  lemma IndicatorsPrefixFree()
    ensures PrefixFree(TestingIndicators)
    ensures PrefixFree(QualityIndicators)
  {
    forall i, j | 0 <= i < 6 && 0 <= j < 6 && i != j
      ensures !StartsWith(TestingIndicators[i], TestingIndicators[j])
    {
      assert i == 0 || i == 1 || i == 2 || i == 3 || i == 4 || i == 5;
      assert j == 0 || j == 1 || j == 2 || j == 3 || j == 4 || j == 5;
      assert TestingIndicators[i][9] != TestingIndicators[j][9];
    }
    forall i, j | 0 <= i < 6 && 0 <= j < 6 && i != j
      ensures !StartsWith(QualityIndicators[i], QualityIndicators[j])
    {
      assert i == 0 || i == 1 || i == 2 || i == 3 || i == 4 || i == 5;
      assert j == 0 || j == 1 || j == 2 || j == 3 || j == 4 || j == 5;
      var p, q := QualityIndicators[i], QualityIndicators[j];
      var k := if p[0] != q[0] then 0 else if p[1] != q[1] then 1 else 2;
      assert p[k] != q[k];
    }
  }

  /** The first character of a line fixes which headers it can start with. */
  lemma FirstCharacter(line: string, p: string)
    requires StartsWith(line, p) && |p| > 0
    ensures line[0] == p[0]
  {
  }

  /** Whether a line starts with one of the three overall headings. */
  predicate IsHeading(line: string) {
    StartsWith(line, "Testing:") || StartsWith(line, "Usability:") || StartsWith(line, "Quality:")
  }

  /** The first character of a line that a header matches: `S` for a
      testing indicator, `i` or `v` for a quality one, `T`, `U` or `Q` for an
      overall heading. */
  lemma HeaderInitials(line: string)
    ensures FirstIndicator(line, TestingIndicators).Some? ==> |line| > 0 && line[0] == 'S'
    ensures FirstIndicator(line, QualityIndicators).Some? ==> |line| > 0 && (line[0] == 'i' || line[0] == 'v')
    ensures IsHeading(line) ==> |line| > 0 && (line[0] == 'T' || line[0] == 'U' || line[0] == 'Q')
  {
    TestingInitial(line);
    QualityInitial(line);
    HeadingInitial(line);
  }

  lemma TestingInitial(line: string)
    ensures FirstIndicator(line, TestingIndicators).Some? ==> |line| > 0 && line[0] == 'S'
  {
    IndicatorListInitials();
    IndicatorInitial(line, TestingIndicators, 'S', 'S');
  }

  lemma QualityInitial(line: string)
    ensures FirstIndicator(line, QualityIndicators).Some? ==> |line| > 0 && (line[0] == 'i' || line[0] == 'v')
  {
    IndicatorListInitials();
    IndicatorInitial(line, QualityIndicators, 'i', 'v');
  }

  lemma HeadingInitial(line: string)
    ensures IsHeading(line) ==> |line| > 0 && (line[0] == 'T' || line[0] == 'U' || line[0] == 'Q')
  {
    if StartsWith(line, "Testing:") { FirstCharacter(line, "Testing:"); }
    if StartsWith(line, "Usability:") { FirstCharacter(line, "Usability:"); }
    if StartsWith(line, "Quality:") { FirstCharacter(line, "Quality:"); }
  }

  lemma IndicatorListInitials()
    ensures forall j :: 0 <= j < |TestingIndicators| ==> |TestingIndicators[j]| > 0 && TestingIndicators[j][0] == 'S'
    ensures forall j :: 0 <= j < |QualityIndicators| ==> |QualityIndicators[j]| > 0 && (QualityIndicators[j][0] == 'i' || QualityIndicators[j][0] == 'v')
  {
    forall j | 0 <= j < 6 ensures |TestingIndicators[j]| > 0 && TestingIndicators[j][0] == 'S' {
      assert j == 0 || j == 1 || j == 2 || j == 3 || j == 4 || j == 5;
    }
    forall j | 0 <= j < 6 ensures |QualityIndicators[j]| > 0 && (QualityIndicators[j][0] == 'i' || QualityIndicators[j][0] == 'v') {
      assert j == 0 || j == 1 || j == 2 || j == 3 || j == 4 || j == 5;
    }
  }

  /** When every indicator begins with `a` or `b`, so does a line that the
      indicator loop matches. */
  lemma IndicatorInitial(line: string, indicators: seq<string>, a: char, b: char)
    requires forall j :: 0 <= j < |indicators| ==> |indicators[j]| > 0 && (indicators[j][0] == a || indicators[j][0] == b)
    ensures FirstIndicator(line, indicators).Some? ==> |line| > 0 && (line[0] == a || line[0] == b)
  {
    var t := FirstIndicator(line, indicators);
    if t.Some? {
      FirstCharacter(line, indicators[t.value]);
    }
  }

  /** A line starting with a testing indicator starts with no quality
      indicator and no overall heading, and the other way round. */
  lemma IndicatorsDisjoint(line: string)
    ensures FirstIndicator(line, TestingIndicators).Some? ==> FirstIndicator(line, QualityIndicators).None?
    ensures FirstIndicator(line, TestingIndicators).Some? || FirstIndicator(line, QualityIndicators).Some? ==> !IsHeading(line)
  {
    HeaderInitials(line);
  }

  // ---------------------------------------------------------------------
  // One pass over a report

  /** The local state of `parseAssignment`: the three overall grades and the
      two part lists. */
  datatype Grades = Grades(testing: real, usability: real, quality: real, testingParts: SixParts, qualityParts: SixParts)

  /** Nothing read yet: overall grades 0.0, every part slot the sentinel. */
  const Initial: Grades := Grades(0.0, 0.0, 0.0, Unset, Unset)

  /** The body of the loop of `parseAssignment` for one stripped line. An
      overall heading sets its grade only; any other line goes through both
      indicator loops. */
  function Step(g: Grades, line: string): Grades {
    if StartsWith(line, "Testing:") then g.(testing := GradeFromLine(line))
    else if StartsWith(line, "Usability:") then g.(usability := GradeFromLine(line))
    else if StartsWith(line, "Quality:") then g.(quality := GradeFromLine(line))
    else
      g.(testingParts := SetSlot(g.testingParts, FirstIndicator(line, TestingIndicators), GradeFromLine(line)),
         qualityParts := SetSlot(g.qualityParts, FirstIndicator(line, QualityIndicators), GradeFromLine(line)))
  }

  /** `parts[i] = value` for the slot an indicator loop found, if any. */
  function SetSlot(parts: SixParts, slot: Option<nat>, value: real): SixParts
    requires slot.Some? ==> slot.value < 6
  {
    match slot
    case Some(i) => parts[i := value]
    case None => parts
  }

  /** A raw line that ends the pass once stripped. */
  predicate IsTerminator(rawLine: string) {
    StartsWith(Strip(rawLine), TerminatorText)
  }

  /** The position of the first terminator line, or the number of lines. */
  function StopIndex(lines: seq<string>): (r: nat)
    ensures r <= |lines|
    ensures forall j :: 0 <= j < r ==> !IsTerminator(lines[j])
    ensures r < |lines| ==> IsTerminator(lines[r])
  {
    StopFrom(lines, 0)
  }

  /** The position of the first terminator line at or after `i`. */
  function StopFrom(lines: seq<string>, i: nat): (r: nat)
    requires i <= |lines|
    ensures i <= r <= |lines|
    ensures forall j :: i <= j < r ==> !IsTerminator(lines[j])
    ensures r < |lines| ==> IsTerminator(lines[r])
    decreases |lines| - i
  {
    if i == |lines| || IsTerminator(lines[i]) then i else StopFrom(lines, i + 1)
  }

  function StripAll(lines: seq<string>): (r: seq<string>)
    ensures |r| == |lines|
    ensures forall i :: 0 <= i < |lines| ==> r[i] == Strip(lines[i])
  {
    seq(|lines|, i requires 0 <= i < |lines| => Strip(lines[i]))
  }

  /** The stripped lines the pass reads before it stops. */
  function Processed(lines: seq<string>): seq<string> {
    StripAll(lines[..StopIndex(lines)])
  }

  /** The state after the loop body has run on each of `ls` in turn. */
  function Apply(ls: seq<string>): Grades {
    if ls == [] then Initial else Step(Apply(ls[..|ls| - 1]), ls[|ls| - 1])
  }

  /** Reading one more line extends the pass by one step. */
  lemma ApplyExtend(lines: seq<string>, i: nat)
    requires i < |lines|
    ensures Apply(StripAll(lines[..i + 1])) == Step(Apply(StripAll(lines[..i])), Strip(lines[i]))
  {
    var ls := StripAll(lines[..i + 1]);
    assert ls[..i] == StripAll(lines[..i]);
  }

  /** The grades `parseAssignment` reads from a report's lines. */
  function ParseLines(lines: seq<string>): Grades {
    Apply(Processed(lines))
  }

  // ---------------------------------------------------------------------
  // What a line means

  /** What a stripped line announces, by the priority of `parseAssignment`:
      the overall headings, then a testing indicator, then a quality one. */
  datatype LineKind =
    | TestingTotal | UsabilityTotal | QualityTotal
    | TestingPart(index: nat) | QualityPart(index: nat)
    | Unrecognised

  function Classify(line: string): (k: LineKind)
    ensures k.TestingPart? ==> k.index < 6
    ensures k.QualityPart? ==> k.index < 6
  {
    if StartsWith(line, "Testing:") then TestingTotal
    else if StartsWith(line, "Usability:") then UsabilityTotal
    else if StartsWith(line, "Quality:") then QualityTotal
    else KindOfSlots(FirstIndicator(line, TestingIndicators), FirstIndicator(line, QualityIndicators))
  }

  /** The kind of a line that is no heading, from what the two indicator
      loops found: a testing indicator takes precedence. */
  function KindOfSlots(t: Option<nat>, q: Option<nat>): LineKind {
    match t
    case Some(i) => TestingPart(i)
    case None =>
      match q
      case Some(i) => QualityPart(i)
      case None => Unrecognised
  }

  /** The kinds that name a grade of `Grades`. */
  predicate IsField(k: LineKind) {
    match k
    case TestingPart(i) => i < 6
    case QualityPart(i) => i < 6
    case Unrecognised => false
    case _ => true
  }

  function FieldOf(g: Grades, k: LineKind): real
    requires IsField(k)
  {
    match k
    case TestingTotal => g.testing
    case UsabilityTotal => g.usability
    case QualityTotal => g.quality
    case TestingPart(i) => g.testingParts[i]
    case QualityPart(i) => g.qualityParts[i]
  }

  /** The value a grade keeps when no line sets it. */
  function Default(k: LineKind): real
    requires IsField(k)
  {
    if k.TestingPart? || k.QualityPart? then Sentinel else 0.0
  }

  /** The position of the last line of `ls` announcing `k`, if any: a line
      of kind `k` after which no line announces `k`. */
  function LastOfKind(ls: seq<string>, k: LineKind): (r: Option<nat>)
    ensures r.Some? ==> r.value < |ls| && Classify(ls[r.value]) == k
    ensures r.Some? ==> forall j :: r.value < j < |ls| ==> Classify(ls[j]) != k
    ensures r.None? ==> forall i :: 0 <= i < |ls| ==> Classify(ls[i]) != k
  {
    if ls == [] then None
    else if Classify(ls[|ls| - 1]) == k then Some(|ls| - 1)
    else
      var prefix := ls[..|ls| - 1];
      assert forall i :: 0 <= i < |prefix| ==> prefix[i] == ls[i];
      LastOfKind(prefix, k)
  }

  /** A grade of `g` replaced by `v`, the one `k` names; `g` itself when
      `k` names none. */
  function Update(g: Grades, k: LineKind, v: real): Grades
    requires k.TestingPart? ==> k.index < 6
    requires k.QualityPart? ==> k.index < 6
  {
    match k
    case TestingTotal => g.(testing := v)
    case UsabilityTotal => g.(usability := v)
    case QualityTotal => g.(quality := v)
    case TestingPart(i) => g.(testingParts := g.testingParts[i := v])
    case QualityPart(i) => g.(qualityParts := g.qualityParts[i := v])
    case Unrecognised => g
  }

  /** The loop body writes exactly the grade the line's kind names: the
      heading tests and the two indicator loops never both fire. */
  lemma StepIsUpdate(g: Grades, line: string)
    ensures Step(g, line) == Update(g, Classify(line), GradeFromLine(line))
  {
    if IsHeading(line) {
      HeadingStepIsUpdate(g, line);
    } else {
      PartStepIsUpdate(g, line);
    }
  }

  lemma HeadingStepIsUpdate(g: Grades, line: string)
    requires IsHeading(line)
    ensures Step(g, line) == Update(g, Classify(line), GradeFromLine(line))
  {
    if StartsWith(line, "Testing:") {
      TestingHeadingStep(g, line);
    } else if StartsWith(line, "Usability:") {
      UsabilityHeadingStep(g, line);
    } else {
      QualityHeadingStep(g, line);
    }
  }

  lemma TestingHeadingStep(g: Grades, line: string)
    requires StartsWith(line, "Testing:")
    ensures Classify(line) == TestingTotal && Step(g, line) == g.(testing := GradeFromLine(line))
  {
  }

  lemma UsabilityHeadingStep(g: Grades, line: string)
    requires !StartsWith(line, "Testing:") && StartsWith(line, "Usability:")
    ensures Classify(line) == UsabilityTotal && Step(g, line) == g.(usability := GradeFromLine(line))
  {
  }

  lemma QualityHeadingStep(g: Grades, line: string)
    requires !StartsWith(line, "Testing:") && !StartsWith(line, "Usability:") && StartsWith(line, "Quality:")
    ensures Classify(line) == QualityTotal && Step(g, line) == g.(quality := GradeFromLine(line))
  {
  }

  lemma PartStepIsUpdate(g: Grades, line: string)
    requires !IsHeading(line)
    ensures Step(g, line) == Update(g, Classify(line), GradeFromLine(line))
  {
    IndicatorsDisjoint(line);
    SlotsAreUpdate(g, FirstIndicator(line, TestingIndicators), FirstIndicator(line, QualityIndicators), GradeFromLine(line));
  }

  /** Running both indicator loops writes the one slot their findings name,
      provided they do not both find an indicator. */
  lemma SlotsAreUpdate(g: Grades, t: Option<nat>, q: Option<nat>, v: real)
    requires t.Some? ==> t.value < 6 && q.None?
    requires q.Some? ==> q.value < 6
    ensures g.(testingParts := SetSlot(g.testingParts, t, v), qualityParts := SetSlot(g.qualityParts, q, v))
         == Update(g, KindOfSlots(t, q), v)
  {
  }

  /** One line sets the grade its kind names, to the number it carries, and
      leaves every other grade alone: a line sets at most one grade. */
  lemma StepSetsOnlyItsField(g: Grades, line: string, k: LineKind)
    requires IsField(k)
    ensures FieldOf(Step(g, line), k) == if Classify(line) == k then GradeFromLine(line) else FieldOf(g, k)
  {
    StepIsUpdate(g, line);
    UpdateSetsOnlyItsField(g, Classify(line), GradeFromLine(line), k);
  }

  lemma UpdateSetsOnlyItsField(g: Grades, c: LineKind, v: real, k: LineKind)
    requires c.TestingPart? ==> c.index < 6
    requires c.QualityPart? ==> c.index < 6
    requires IsField(k)
    ensures FieldOf(Update(g, c, v), k) == if c == k then v else FieldOf(g, k)
  {
  }

  /** A line of no kind changes nothing. */
  lemma UnrecognisedLineChangesNothing(g: Grades, line: string)
    requires Classify(line) == Unrecognised
    ensures Step(g, line) == g
  {
    StepIsUpdate(g, line);
  }

  /** Each grade is the number on the last line announcing it, and keeps its
      default when no line does: later lines overwrite earlier ones. */
  lemma {:induction false} ApplyLastWriteWins(ls: seq<string>, k: LineKind)
    requires IsField(k)
    ensures FieldOf(Apply(ls), k) == match LastOfKind(ls, k) case None => Default(k) case Some(i) => GradeFromLine(ls[i])
  {
    if ls != [] {
      ApplyLastWriteWins(ls[..|ls| - 1], k);
      StepSetsOnlyItsField(Apply(ls[..|ls| - 1]), ls[|ls| - 1], k);
    }
  }

  /** The same for a whole report: only lines before the terminator count. */
  lemma ParseLinesLastWriteWins(lines: seq<string>, k: LineKind)
    requires IsField(k)
    ensures FieldOf(ParseLines(lines), k) == match LastOfKind(Processed(lines), k) case None => Default(k) case Some(i) => GradeFromLine(Processed(lines)[i])
  {
    ApplyLastWriteWins(Processed(lines), k);
  }

  /** A terminator line sets no grade. */
  lemma TerminatorChangesNothing(g: Grades, line: string)
    requires StartsWith(line, TerminatorText)
    ensures Classify(line) == Unrecognised
    ensures Step(g, line) == g
  {
    FirstCharacter(line, TerminatorText);
    HeaderInitials(line);
    UnrecognisedLineChangesNothing(g, line);
  }

  /** The pass stops at the first terminator line, wherever it is. */
  lemma StopIndexAt(lines: seq<string>, n: nat)
    requires n <= |lines|
    requires forall j :: 0 <= j < n ==> !IsTerminator(lines[j])
    requires n < |lines| ==> IsTerminator(lines[n])
    ensures StopIndex(lines) == n
  {
  }

  /** Nothing after the first terminator line affects the result. */
  lemma TerminatorEndsParse(before: seq<string>, terminator: string, after: seq<string>)
    requires forall j :: 0 <= j < |before| ==> !IsTerminator(before[j])
    requires IsTerminator(terminator)
    ensures ParseLines(before + [terminator] + after) == ParseLines(before)
  {
    TerminatorEndsProcessing(before, terminator, after);
  }

  /** The lines read before the first terminator are the lines before it. */
  lemma TerminatorEndsProcessing(before: seq<string>, terminator: string, after: seq<string>)
    requires forall j :: 0 <= j < |before| ==> !IsTerminator(before[j])
    requires IsTerminator(terminator)
    ensures Processed(before + [terminator] + after) == Processed(before)
  {
    var rest := [terminator] + after;
    var lines := before + rest;
    assert before + [terminator] + after == lines;
    assert forall j :: 0 <= j < |before| ==> lines[j] == before[j];
    assert lines[|before|] == rest[0] == terminator;
    StopIndexAt(lines, |before|);
    StopIndexAt(before, |before|);
    assert lines[..|before|] == before == before[..|before|];
  }

  /** A line starting with a quality indicator fills that indicator's slot:
      no earlier indicator captures it, and no heading comes first. */
  lemma QualityHeaderSelectsItsSlot(line: string, k: nat)
    requires k < 6 && StartsWith(line, QualityIndicators[k])
    ensures Classify(line) == QualityPart(k)
  {
    IndicatorsPrefixFree();
    OnlyIndicator(line, QualityIndicators, k);
    HeaderInitials(line);
  }

  /** A line starting with a testing indicator fills that indicator's slot. */
  lemma TestingHeaderSelectsItsSlot(line: string, k: nat)
    requires k < 6 && StartsWith(line, TestingIndicators[k])
    ensures Classify(line) == TestingPart(k)
  {
    IndicatorsPrefixFree();
    OnlyIndicator(line, TestingIndicators, k);
    IndicatorsDisjoint(line);
  }
}
