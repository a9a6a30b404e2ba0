/** `parseFile` of the earlier marking script: one pass over a report's
    stripped lines that keeps the section opened last and files every line
    of free text under it. */
module ScriptParser {
  import opened Options
  import opened Strings
  import opened Counting
  import opened GradeLines

  /** The headers of the seven sections, in the order the pass tests them. */
  const SectionHeaders: seq<string> := ["i.", "ii.", "iii.", "iv.", "v.", "vi.", "vii."]

  /** A section number: the script's `partCounter`. */
  type Section = k: int | 0 <= k < 7

  /** A list of seven grades; the record's `partGrades` always has seven. */
  type SevenGrades = s: seq<real> | |s| == 7 witness [-1.0, -1.0, -1.0, -1.0, -1.0, -1.0, -1.0]

  /** Seven lists of comment lines; the record's `partComments` always has seven. */
  type SevenLists = s: seq<seq<string>> | |s| == 7 witness [[], [], [], [], [], [], []]

  const NoGrades: SevenGrades := [Sentinel, Sentinel, Sentinel, Sentinel, Sentinel, Sentinel, Sentinel]
  const NoComments: SevenLists := [[], [], [], [], [], [], []]

  // ---------------------------------------------------------------------
  // What a line is

  /** What a stripped line is to the pass, by the order of its tests. */
  datatype ScriptLine = TestingLine | QualityLine | Header(section: Section) | Blank | End | Comment

  /** The whole `if`/`elif` chain of `parseFile`: the overall headings, the
      section headers, the empty line, the terminator, and free text. */
  function ClassifyScript(line: string): (c: ScriptLine)
    ensures c.Header? ==> StartsWith(line, SectionHeaders[c.section])
    ensures c == End <==> StartsWith(line, TerminatorText)
    ensures c == Blank <==> line == ""
  {
    ScriptInitials(line);
    SectionInitial(line);
    if StartsWith(line, "Testing:") then TestingLine
    else if StartsWith(line, "Quality:") then QualityLine
    else
      match FirstIndicator(line, SectionHeaders)
      case Some(k) => Header(k)
      case None =>
        if line == "" then Blank
        else if StartsWith(line, TerminatorText) then End
        else Comment
  }

  /** The first character of a line fixes which of the overall headings and
      the terminator it can start with: `T`, `Q` and `C`. */
  lemma ScriptInitials(line: string)
    ensures StartsWith(line, "Testing:") ==> line[0] == 'T'
    ensures StartsWith(line, "Quality:") ==> line[0] == 'Q'
    ensures StartsWith(line, TerminatorText) ==> |line| > 0 && line[0] == 'C'
  {
    if StartsWith(line, "Testing:") { FirstCharacter(line, "Testing:"); }
    if StartsWith(line, "Quality:") { FirstCharacter(line, "Quality:"); }
    if StartsWith(line, TerminatorText) { FirstCharacter(line, TerminatorText); }
  }

  /** A line that a section header matches starts with `i` or `v`. */
  lemma SectionInitial(line: string)
    ensures FirstIndicator(line, SectionHeaders).Some? ==> |line| > 0 && (line[0] == 'i' || line[0] == 'v')
  {
    SectionHeaderInitials();
    IndicatorInitial(line, SectionHeaders, 'i', 'v');
  }

  lemma SectionHeaderInitials()
    ensures forall j :: 0 <= j < |SectionHeaders| ==> |SectionHeaders[j]| > 0 && (SectionHeaders[j][0] == 'i' || SectionHeaders[j][0] == 'v')
  {
    forall j | 0 <= j < 7 ensures |SectionHeaders[j]| > 0 && (SectionHeaders[j][0] == 'i' || SectionHeaders[j][0] == 'v') {
      assert j == 0 || j == 1 || j == 2 || j == 3 || j == 4 || j == 5 || j == 6;
    }
  }

  /** No section header is a prefix of another: after a shared start, the
      shorter header has `.` where the longer has `i`. */
  lemma SectionHeadersPrefixFree()
    ensures PrefixFree(SectionHeaders)
  {
    forall i, j | 0 <= i < 7 && 0 <= j < 7 && i != j
      ensures !StartsWith(SectionHeaders[i], SectionHeaders[j])
    {
      assert i == 0 || i == 1 || i == 2 || i == 3 || i == 4 || i == 5 || i == 6;
      assert j == 0 || j == 1 || j == 2 || j == 3 || j == 4 || j == 5 || j == 6;
      var p, q := SectionHeaders[i], SectionHeaders[j];
      var k := if p[0] != q[0] then 0 else if p[1] != q[1] then 1 else if p[2] != q[2] then 2 else 3;
      assert k < |p| && k < |q| && p[k] != q[k];
    }
  }

  /** A line starting with the header of section `k` opens section `k`,
      whatever follows the header: `i.e. ...` opens section 0, and no
      `ii.`, `iii.`, `iv.`, `vi.` or `vii.` line is taken by a shorter
      header tested before it. */
  lemma HeaderSelectsItsSection(line: string, k: Section)
    requires StartsWith(line, SectionHeaders[k])
    ensures ClassifyScript(line) == Header(k)
  {
    SectionHeadersPrefixFree();
    OnlyIndicator(line, SectionHeaders, k);
    ScriptInitials(line);
    SectionInitial(line);
    FirstCharacter(line, SectionHeaders[k]);
  }

  // ---------------------------------------------------------------------
  // The pass

  /** The state of `parseFile`: the record's grades and comment lists, and
      `partCounter`, the section opened last. */
  datatype Sheet = Sheet(testing: real, quality: real, partGrades: SevenGrades, partComments: SevenLists, open: Section)
  {
    /** A section header: records its grade and opens it. */
    function OpenWith(k: Section, grade: real): Sheet {
      this.(partGrades := partGrades[k := grade], open := k)
    }

    /** A line of free text: filed under the open section. */
    function Note(line: string): Sheet {
      this.(partComments := partComments[open := partComments[open] + [line]])
    }
  }

  /** A new record, with section 0 open. */
  const Start: Sheet := Sheet(0.0, 0.0, NoGrades, NoComments, 0)

  /** The loop body of `parseFile` on a stripped line before the terminator. */
  function ScriptStep(s: Sheet, line: string): Sheet {
    match ClassifyScript(line)
    case TestingLine => s.(testing := GradeFromLine(line))
    case QualityLine => s.(quality := GradeFromLine(line))
    case Header(k) => s.OpenWith(k, GradeFromLine(line))
    case Comment => s.Note(line)
    case Blank => s
    case End => s
  }

  /** The state after the loop body has run on each of `ls` in turn. */
  function ScriptApply(ls: seq<string>): Sheet {
    if ls == [] then Start else ScriptStep(ScriptApply(ls[..|ls| - 1]), ls[|ls| - 1])
  }

  /** What `parseFile` reads from a report's lines: the stripped lines
      before the first terminator, in order. */
  function ParseScript(lines: seq<string>): Sheet {
    ScriptApply(Processed(lines))
  }

  lemma ScriptApplyExtend(lines: seq<string>, i: nat)
    requires i < |lines|
    ensures ScriptApply(StripAll(lines[..i + 1])) == ScriptStep(ScriptApply(StripAll(lines[..i])), Strip(lines[i]))
  {
    var ls := StripAll(lines[..i + 1]);
    assert ls[..i] == StripAll(lines[..i]);
  }

  // ---------------------------------------------------------------------
  // The record and `parseFile`

  class ScriptAssignment {
    const studentNumber: string
    var testingGrade: real
    var qualityGrade: real
    var totalGrade: real
    const partGrades: array<real>
    const partComments: array<seq<string>>

    /** A new record: grades 0.0, every section grade the sentinel and every
        comment list empty. */
    constructor (studentNumber: string)
      ensures this.studentNumber == studentNumber
      ensures testingGrade == 0.0 && qualityGrade == 0.0 && totalGrade == 0.0
      ensures fresh(partGrades) && fresh(partComments)
      ensures partGrades[..] == NoGrades && partComments[..] == NoComments
    {
      this.studentNumber := studentNumber;
      testingGrade, qualityGrade, totalGrade := 0.0, 0.0, 0.0;
      partGrades := new real[7](_ => Sentinel);
      partComments := new seq<string>[7](_ => []);
      new;
      assert partGrades[..] == NoGrades && partComments[..] == NoComments;
    }

    ghost predicate Valid()
      reads this
    {
      partGrades.Length == 7 && partComments.Length == 7
    }

    /** The record's grades and comments, with section `open` open. */
    function Contents(open: Section): Sheet
      reads this, partGrades, partComments
      requires Valid()
    {
      Sheet(testingGrade, qualityGrade, partGrades[..], partComments[..], open)
    }
  }

  /** The loop body of `parseFile` on a stripped line: the `elif` chain picks
      the line's kind, and the branch of that kind updates the record. Returns
      the new `partCounter` and whether the pass stops here. */
  method ReadScriptLine(a: ScriptAssignment, line: string, partCounter: Section) returns (counter: Section, stop: bool)
    requires a.Valid()
    modifies a`testingGrade, a`qualityGrade, a.partGrades, a.partComments
    ensures stop <==> StartsWith(line, TerminatorText)
    ensures a.Contents(counter) == ScriptStep(old(a.Contents(partCounter)), line)
  {
    counter, stop := partCounter, false;
    match ClassifyScript(line)
    case TestingLine =>
      a.testingGrade := GradeFromLine(line);
    case QualityLine =>
      a.qualityGrade := GradeFromLine(line);
    case Header(k) =>
      a.partGrades[k] := GradeFromLine(line);
      counter := k;
    case Blank =>
    case End =>
      stop := true;
    case Comment =>
      a.partComments[partCounter] := a.partComments[partCounter] + [line];
  }

  /** One iteration of the loop of `parseFile` on the `i`-th raw line: strips
      it and reads it, and tells whether the pass stops there. */
  method ReadRawScriptLine(a: ScriptAssignment, lines: seq<string>, i: nat, partCounter: Section) returns (counter: Section, stop: bool)
    requires i <= StopIndex(lines) && i < |lines| && a.Valid()
    requires a.Contents(partCounter) == ScriptApply(StripAll(lines[..i]))
    modifies a`testingGrade, a`qualityGrade, a.partGrades, a.partComments
    ensures stop <==> StopIndex(lines) == i
    ensures stop ==> a.Contents(counter) == ScriptApply(StripAll(lines[..i]))
    ensures !stop ==> a.Contents(counter) == ScriptApply(StripAll(lines[..i + 1]))
  {
    ghost var before := a.Contents(partCounter);
    counter, stop := ReadScriptLine(a, Strip(lines[i]), partCounter);
    if stop {
      StopIndexAt(lines, i);
    } else {
      ScriptApplyExtend(lines, i);
    }
  }

  /** The loop of `parseFile` over a report's lines, on a new record: leaves
      in it what the pass reads from the lines before the first terminator,
      and returns the final `partCounter`. */
  method ReadScript(a: ScriptAssignment, lines: seq<string>) returns (partCounter: Section)
    requires a.Valid() && a.Contents(0) == Start
    modifies a`testingGrade, a`qualityGrade, a.partGrades, a.partComments
    ensures a.Contents(partCounter) == ParseScript(lines)
  {
    partCounter := 0;
    var i := 0;
    while i < |lines|
      invariant 0 <= i <= StopIndex(lines)
      invariant a.Contents(partCounter) == ScriptApply(StripAll(lines[..i]))
    {
      var stop;
      partCounter, stop := ReadRawScriptLine(a, lines, i, partCounter);
      if stop {
        break;
      }
      i := i + 1;
    }
    assert StripAll(lines[..i]) == Processed(lines);
  }

  /** `parseFile` on a report's path and lines: a new record holding what
      the pass reads from the lines before the first terminator. */
  method ParseFile(filename: string, lines: seq<string>) returns (a: ScriptAssignment)
    ensures fresh(a) && a.Valid()
    ensures a.studentNumber == StudentNumberForFile(filename) && a.totalGrade == 0.0
    ensures var s := ParseScript(lines);
      && a.testingGrade == s.testing && a.qualityGrade == s.quality
      && a.partGrades[..] == s.partGrades && a.partComments[..] == s.partComments
  {
    a := new ScriptAssignment(StudentNumberForFile(filename));
    var partCounter := ReadScript(a, lines);
  }

  // ---------------------------------------------------------------------
  // What the pass promises

  /** A header line of section `k` records its grade in slot `k` and makes
      `k` the open section; nothing else changes. */
  lemma HeaderOpensSection(s: Sheet, line: string, k: Section)
    requires StartsWith(line, SectionHeaders[k])
    ensures ScriptStep(s, line).partGrades == s.partGrades[k := GradeFromLine(line)]
    ensures ScriptStep(s, line).open == k
    ensures ScriptStep(s, line).partComments == s.partComments
    ensures ScriptStep(s, line).testing == s.testing && ScriptStep(s, line).quality == s.quality
  {
    HeaderSelectsItsSection(line, k);
  }

  /** A `Testing:` or `Quality:` line sets that grade only: the open section,
      the part grades and the comments stay as they were. */
  lemma OverallLineKeepsSection(s: Sheet, line: string)
    requires StartsWith(line, "Testing:") || StartsWith(line, "Quality:")
    ensures StartsWith(line, "Testing:") ==> ScriptStep(s, line) == s.(testing := GradeFromLine(line))
    ensures !StartsWith(line, "Testing:") ==> ScriptStep(s, line) == s.(quality := GradeFromLine(line))
  {
  }

  /** The section of the last header among `ls`, or section 0 before any. */
  function OpenSection(ls: seq<string>): Section {
    if ls == [] then 0
    else match ClassifyScript(ls[|ls| - 1])
      case Header(k) => k
      case _ => OpenSection(ls[..|ls| - 1])
  }

  /** The free-text lines of `ls` that come while section `k` is open, in
      order. */
  function CommentsUnder(ls: seq<string>, k: Section): seq<string> {
    if ls == [] then []
    else
      var prefix, line := ls[..|ls| - 1], ls[|ls| - 1];
      CommentsUnder(prefix, k) + (if ClassifyScript(line) == Comment && OpenSection(prefix) == k then [line] else [])
  }

  /** The free-text lines of `ls`, in order. */
  function CommentLines(ls: seq<string>): seq<string> {
    if ls == [] then []
    else
      var line := ls[|ls| - 1];
      CommentLines(ls[..|ls| - 1]) + (if ClassifyScript(line) == Comment then [line] else [])
  }

  /** `partCounter` is the section of the last header seen, and each
      section's list holds, in file order, exactly the free-text lines read
      while that section was open. */
  lemma {:induction false} CommentsFollowHeaders(ls: seq<string>)
    ensures ScriptApply(ls).open == OpenSection(ls)
    ensures forall k: Section :: ScriptApply(ls).partComments[k] == CommentsUnder(ls, k)
  {
    if ls != [] {
      CommentsFollowHeaders(ls[..|ls| - 1]);
    }
  }

  /** Every free-text line is kept, once: the lists hold as many lines in
      all as there are free-text lines, and no header, blank or terminator
      line is stored. */
  lemma {:induction false} CommentsAllKept(ls: seq<string>)
    ensures SumLengths(ScriptApply(ls).partComments) == |CommentLines(ls)|
  {
    if ls == [] {
      SumLengthsEmpty<string>(7);
      assert NoComments == seq<seq<string>>(7, _ => []);
    } else {
      var prefix, line := ls[..|ls| - 1], ls[|ls| - 1];
      CommentsAllKept(prefix);
      var s := ScriptApply(prefix);
      if ClassifyScript(line) == Comment {
        SumLengthsAppend(s.partComments, s.open, line);
      }
    }
  }

  /** A line that is not the header of section `k` leaves its grade alone,
      and, while another section is open, its comments too. */
  lemma StepKeepsSection(s: Sheet, line: string, k: Section)
    requires ClassifyScript(line) != Header(k)
    ensures ScriptStep(s, line).partGrades[k] == s.partGrades[k]
    ensures s.open != k ==> ScriptStep(s, line).open != k && ScriptStep(s, line).partComments[k] == s.partComments[k]
  {
  }

  /** A section no header opens keeps the sentinel grade, and, unless it is
      section 0, an empty comment list. */
  lemma {:induction false} UnopenedSection(ls: seq<string>, k: Section)
    requires forall j :: 0 <= j < |ls| ==> ClassifyScript(ls[j]) != Header(k)
    ensures ScriptApply(ls).partGrades[k] == Sentinel
    ensures k != 0 ==> ScriptApply(ls).open != k && ScriptApply(ls).partComments[k] == []
  {
    if ls != [] {
      var prefix := ls[..|ls| - 1];
      assert forall j :: 0 <= j < |prefix| ==> prefix[j] == ls[j];
      UnopenedSection(prefix, k);
      StepKeepsSection(ScriptApply(prefix), ls[|ls| - 1], k);
    }
  }

  /** Running the pass on one more line is one more loop body. */
  lemma ScriptApplySnoc(ls: seq<string>, line: string)
    ensures ScriptApply(ls + [line]) == ScriptStep(ScriptApply(ls), line)
  {
    assert (ls + [line])[..|ls|] == ls;
  }

  /** A blank line anywhere in the pass changes nothing. */
  lemma {:induction false} BlankLineIgnored(ls: seq<string>, more: seq<string>)
    ensures ScriptApply(ls + [""] + more) == ScriptApply(ls + more)
  {
    if more == [] {
      ScriptApplySnoc(ls, "");
      assert ClassifyScript("") == Blank;
      assert ls + [""] + more == ls + [""];
      assert ls + more == ls;
    } else {
      var init, last := more[..|more| - 1], more[|more| - 1];
      BlankLineIgnored(ls, init);
      ScriptApplySnoc(ls + [""] + init, last);
      ScriptApplySnoc(ls + init, last);
      AppendLast(ls + [""], more);
      AppendLast(ls, more);
    }
  }

  /** Nothing after the first terminator line affects the record. */
  lemma ScriptTerminatorEndsParse(before: seq<string>, terminator: string, after: seq<string>)
    requires forall j :: 0 <= j < |before| ==> !IsTerminator(before[j])
    requires IsTerminator(terminator)
    ensures ParseScript(before + [terminator] + after) == ParseScript(before)
  {
    TerminatorEndsProcessing(before, terminator, after);
  }
}
