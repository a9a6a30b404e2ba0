# Grade-report parser and marking analysis

This project models the grade-report core of a course-marking tool. Two
revisions of the marking format are covered.

- `grade_analysis_a3.py` (2016 format):
  - `AssignmentParser.parseAssignment` reads the stripped lines of one report.
    A line starting with a heading prefix is read in a fixed priority: `Testing:`,
    `Usability:`, `Quality:`, then a `Scenario k [0,1]` testing part, then a
    `i. ` … `vi. ` quality part. The grade on the line goes into the three
    overall grades or one of two six-slot part lists. The pass stops at the
    first line starting with `Code Quality Mark`.
  - `Assignment` holds the arithmetic: the parts' sums, the half-step rounding
    of the quality grade, and the validity test against `maxMarks = (6, 3, 6)`.
  - The grouping loop of `parseDirectoryStructure` builds a list of markers
    with distinct names. It files every record under exactly one marker.
  - `AssignmentAnalyser` provides the valid and erroneous filters, the
    frequency dictionaries and the least and greatest totals.
  - Also modelled: the path helpers (the student-number slice `[-12:-4]`, the
    marker directory, the `ST_NUM` filter), `parseArgument` and
    `dispHeadingUnderline`.
- `assignment_script.py` (earlier format): `parseFile` keeps `partCounter`,
  the section opened last of seven (`i.` … `vii.`). It files every line of
  free text under that section. Blank lines are skipped, and
  `Code Quality Mark` ends the pass.

Modules:

| file | module | contents |
|---|---|---|
| `options.dfy` | `Options` | `Option`, `Result` and `Outcome` |
| `strings.dfy` | `Strings` | `str.isspace`, `strip`, `startswith`, `split`/`join`, slicing |
| `numbers.dfy` | `Numbers` | the decimal subset of `float()` on text |
| `counting.dfy` | `Counting` | the `d[k] = d.get(k, 0) + 1` idiom, lengths of lists of lists |
| `grade_lines.dfy` | `GradeLines` | the pure helpers of `AssignmentParser`, the loop body of `parseAssignment` as a function, and its properties |
| `grading.dfy` | `Grading` | the `Marker`, `Assignment` and `AssignmentParser` classes, the `parseAssignment` loop, the grouping loop |
| `analysis.dfy` | `Analysis` | `AssignmentAnalyser`, `parseArgument`, `dispHeadingUnderline` |
| `script.dfy` | `ScriptParser` | `parseFile` of the earlier script, with its record class |

How the model is built:

- Each parse loop is an imperative `method` over the source's own state.
  - `parseAssignment` works on local grade variables and two `array<real>`
    part lists.
  - `parseFile` works on a `ScriptAssignment` object whose `partGrades` and
    `partComments` are arrays.
  - The grouping loop works on an `AssignmentParser` object that appends to
    `assignments`, `markers` and each `Marker`'s `markedAssignments`.
- Each loop is proved against a function: `ParseLines`, `ParseScript`, or
  `Filings` with `Partition`.
- The properties are proved as lemmas about those functions.
- A report is given as its path and its lines; grades are `real`.

Two behaviours of the code are worth stating on their own.

- `parseDirectoryStructure` does not skip a path that names no marker
  directory. `getMarkerForFile` raises there and ends the whole loop. The
  records filed before that path stay filed, and no later report is read.
  `ParseDirectoryStructure` returns `Fail` with the offending path.
- In `parseFile`, the prefix `i.` is tested before any comment. A line of free
  text starting with `i.` (`i.e. …`) therefore counts as the header of
  section `i.` and is not stored as a comment. `HeaderSelectsItsSection`
  states this.

## Model

| member | source | states |
|---|---|---|
| Strings.Strip | grade_analysis_a3.py:154 | `str.strip()`: no whitespace at either end, no longer than the input, and empty exactly when the input is all whitespace. |
| Strings.Split | grade_analysis_a3.py:134 | `str.split(sep)`: one more field than separators, no field holds the separator, and the fields joined with it give the text back. |
| Strings.Slice | grade_analysis_a3.py:122 | Python slicing, which never raises: at most the input's length, and the ordinary slice for indexes in range from either end. |
| Numbers.ParseFloat | grade_analysis_a3.py:134 | `float(text)` succeeds only when the text, without `float()`'s whitespace at its ends, is a well-formed decimal literal. The value is that literal's value. |
| Numbers.FloatStrip | grade_analysis_a3.py:134 | The text `float()` converts: no `float()` whitespace at either end, and empty exactly when the whole text is such whitespace. That whitespace is the `str.isspace` set without U+001C to U+001F. |
| Numbers.FloatStripPadded | grade_analysis_a3.py:134 | `float()` whitespace on either side of a text with none at its ends is exactly what is removed. |
| Numbers.SeparatorIsNoSpace | grade_analysis_a3.py:134-136 | A text starting with U+001C to U+001F does not convert, although `str.isspace` holds for those characters. |
| Numbers.RenderRecognise | grade_analysis_a3.py:134 | Every well-formed literal is read back as itself, so the number recogniser is the inverse of rendering. |
| Numbers.ParseFloatPadded | grade_analysis_a3.py:134 | A literal with whitespace on either side converts to its own value. |
| Numbers.NotANumber | grade_analysis_a3.py:133-136 | A text starting with a character that is neither `float()` whitespace nor part of a number does not convert. |
| GradeLines.LastField | grade_analysis_a3.py:134 | `line.split(sep)[-1]` holds no separator. It is the whole line when the line has none. |
| GradeLines.LastFieldAfter | grade_analysis_a3.py:134 | The last field of `a + sep + b` is `b` when `b` holds no separator. |
| GradeLines.GradeFromLine | grade_analysis_a3.py:132-136 | `getGradeFromLine`, and the identical one of `assignment_script.py` (lines 39-43), never fails. A result other than -1.0 is the value of the literal that the text after the last colon strips to. |
| GradeLines.SeparatorAfterColon | grade_analysis_a3.py:132-136 | A line whose text after the last colon starts with U+001C to U+001F yields -1.0. |
| GradeLines.GradeOfLabelledLine | grade_analysis_a3.py:132-136 | A line `<heading>:<number>`, with whitespace around the number, yields the number. |
| GradeLines.PartLineWithoutColon | grade_analysis_a3.py:132-141 | A testing or quality part line without a colon yields -1.0, whatever follows the indicator. |
| GradeLines.StudentNumberForFile | grade_analysis_a3.py:120-124 | Python slice `[-12:-4]`, the same as the script's `getStudentNumber` (`assignment_script.py` lines 36-37), which never raises. A name of 12 or more characters gives the 8 characters ending 4 before the end. A name of 5 to 11 gives all but the last 4. A shorter name gives the empty text. |
| GradeLines.StudentNumberOfName | grade_analysis_a3.py:120-122 | The student number of `prefix + number + extension`, with an 8-character number and a 4-character extension, is `number`. |
| GradeLines.MatchesStudentNumber | grade_analysis_a3.py:11 | `ST_NUM.match`: `s` and seven digits at the start of the text. `StudentFileName` states what it implies for a file name. |
| GradeLines.StudentFileName | grade_analysis_a3.py:189 | A file name passes the `ST_NUM` filter only if it has at least 12 characters, with `s` and seven digits 12 to 5 places from the end. |
| GradeLines.MarkerForFile | grade_analysis_a3.py:126-130 | `getMarkerForFile` fails exactly when the path has fewer than two `/`, that is fewer than three segments. Otherwise it returns a segment without `/`. |
| GradeLines.MarkerOfPath | grade_analysis_a3.py:126-128 | The marker of a path of three or more segments is its third-from-last segment. |
| GradeLines.FirstIndicator | grade_analysis_a3.py:163-173 | The indicator loop finds the first indicator the line starts with, and none before it starts the line. `None` means no indicator starts the line. |
| GradeLines.FindIndicator | grade_analysis_a3.py:163-173 | The `for … break` loop returns exactly what `FirstIndicator` specifies. |
| GradeLines.OnlyIndicator | grade_analysis_a3.py:163-173 | In a prefix-free list, the indicator a line starts with is the one found. |
| GradeLines.IndicatorsPrefixFree | grade_analysis_a3.py:139-141 | No testing or quality indicator is a prefix of another in its list, so `i. ` never captures an `ii. ` line. |
| GradeLines.IndicatorsDisjoint | grade_analysis_a3.py:139-173 | A line with a testing indicator has no quality indicator. A line with either indicator starts with no overall heading. |
| GradeLines.TestingHeaderSelectsItsSlot | grade_analysis_a3.py:163-167 | A line starting with testing indicator `k` is a testing-part line for slot `k`. |
| GradeLines.QualityHeaderSelectsItsSlot | grade_analysis_a3.py:169-173 | A line starting with quality indicator `k` is a quality-part line for slot `k`. |
| GradeLines.Classify | grade_analysis_a3.py:156-173 | The kind of a line, in the priority of the `if`/`elif` chain. Part kinds carry a slot below 6. |
| GradeLines.StepIsUpdate | grade_analysis_a3.py:156-173 | The loop body writes exactly the one grade the line's kind names, and writes the line's grade there. |
| GradeLines.TestingHeadingStep | grade_analysis_a3.py:156-157 | A `Testing:` line sets only the overall testing grade. |
| GradeLines.UsabilityHeadingStep | grade_analysis_a3.py:158-159 | A `Usability:` line that is not a `Testing:` line sets only the usability grade. |
| GradeLines.QualityHeadingStep | grade_analysis_a3.py:160-161 | A `Quality:` line that matches neither earlier heading sets only the quality grade. |
| GradeLines.PartStepIsUpdate | grade_analysis_a3.py:162-173 | A line with no heading sets at most one part slot: the one at its indicator's index. |
| GradeLines.SlotsAreUpdate | grade_analysis_a3.py:163-173 | Running both indicator loops writes only the slot their findings name. |
| GradeLines.StepSetsOnlyItsField | grade_analysis_a3.py:156-173 | After one line, each grade is the line's grade if the line announces that grade, and is unchanged otherwise. |
| GradeLines.UpdateSetsOnlyItsField | grade_analysis_a3.py:156-173 | Updating one grade leaves every other grade as it was. |
| GradeLines.UnrecognisedLineChangesNothing | grade_analysis_a3.py:156-173 | A line that matches no heading and no indicator changes nothing. |
| GradeLines.LastOfKind | grade_analysis_a3.py:153-173 | The position of the last line announcing a kind: that line has the kind and no later line has it. `None` means no line has it. |
| GradeLines.ApplyLastWriteWins | grade_analysis_a3.py:143-173 | Each grade is the grade on the last line announcing it. With no such line it keeps its default: 0.0 for an overall grade, -1.0 for a part slot. |
| GradeLines.Step | grade_analysis_a3.py:156-173 | The loop body on one stripped line: the heading chain, then both indicator loops. `StepIsUpdate` and the heading lemmas state what it writes. |
| GradeLines.Apply | grade_analysis_a3.py:153-173 | The loop body run on each line in turn from the defaults. `ApplyLastWriteWins` states its result. |
| GradeLines.ParseLines | grade_analysis_a3.py:143-180 | The grades of a report: `Apply` on the stripped lines before the first terminator. `ParseLinesLastWriteWins` and `TerminatorEndsParse` state its result. |
| GradeLines.ParseLinesLastWriteWins | grade_analysis_a3.py:143-180 | The same holds for a whole report, counting only the lines before the first terminator. |
| GradeLines.StripAll | grade_analysis_a3.py:154 | Each line is stripped, and no line is added or dropped. |
| GradeLines.StopIndex | grade_analysis_a3.py:175-176 | The position of the first terminator line, or the number of lines if there is none. |
| GradeLines.ApplyExtend | grade_analysis_a3.py:153-173 | Reading one more raw line is one more loop body on its stripped text. |
| GradeLines.TerminatorChangesNothing | grade_analysis_a3.py:175-176 | A `Code Quality Mark` line sets no grade. |
| GradeLines.StopIndexAt | grade_analysis_a3.py:175-176 | The pass stops at the first terminator, wherever it is. |
| GradeLines.TerminatorEndsProcessing | grade_analysis_a3.py:175-176 | The lines read are exactly the lines before the first terminator. |
| GradeLines.TerminatorEndsParse | grade_analysis_a3.py:175-176 | No line after the first terminator affects the grades. |
| Grading.Ceil | grade_analysis_a3.py:86 | `math.ceil(x)` is an integer in `[x, x + 1)`. |
| Grading.HalfStepCeil | grade_analysis_a3.py:86 | `ceil(2x)/2` is a multiple of 0.5 in `[x, x + 0.5)`. |
| Grading.HalfStepCeilIsLeast | grade_analysis_a3.py:86 | `ceil(2x)/2` is the least multiple of 0.5 not below `x`. |
| Grading.Marker.constructor | grade_analysis_a3.py:23-25 | A new marker has its name and an empty list. |
| Grading.Marker.AddAssignment | grade_analysis_a3.py:30-31 | Appends the record to the marker's list. |
| Grading.Assignment.constructor | grade_analysis_a3.py:42-48 | A new record has overall grades 0.0 and six -1.0 slots in each part list. |
| Grading.Assignment.SetMarker | grade_analysis_a3.py:50-51 | Sets the record's marker and nothing else. |
| Grading.Assignment.SetOverallGrade | grade_analysis_a3.py:56-59 | Sets the three overall grades and nothing else. |
| Grading.Sum | grade_analysis_a3.py:83 | Python's `sum`, added from the left. `SumOfSame` states its value on equal parts. |
| Grading.Assignment.CalcTotalGrade | grade_analysis_a3.py:73-74 | The sum of the three overall grades. `ValidAssignment` bounds it. |
| Grading.Assignment.CalcOverallTesting | grade_analysis_a3.py:82-83 | The sum of the six testing parts. `ValidAssignment` and `UnreadTestingPartsInvalid` state it. |
| Grading.Assignment.DoPartsMatchOverall | grade_analysis_a3.py:88-90 | Both sums of parts equal their overall grades. |
| Grading.Assignment.IsAssignmentValid | grade_analysis_a3.py:92-96 | The parts match and each overall grade lies within `maxMarks`. `ValidAssignment` states its consequences. |
| Grading.Assignment.CalcOverallQuality | grade_analysis_a3.py:85-86 | The quality grade from the parts is a multiple of 0.5 in `[p, p + 0.5)`, where `p` is the sum of the first five parts times the sixth. |
| Grading.ValidAssignment | grade_analysis_a3.py:88-96 | A valid record's parts add up to its testing and quality grades. Its total lies in `[0, 15]`, and its quality grade is a multiple of 0.5. |
| Grading.UnreadTestingPartsInvalid | grade_analysis_a3.py:82-96 | A record none of whose testing parts was read sums to -6.0 and is never valid. |
| Grading.ReadLine | grade_analysis_a3.py:156-173 | The loop body over the local grades and the two part arrays does what `Step` specifies. |
| Grading.ReadRawLine | grade_analysis_a3.py:153-176 | One iteration strips the raw line and applies `Step`. It reports a stop exactly on a terminator line, which leaves the grades as they were. |
| Grading.ReadReport | grade_analysis_a3.py:143-176 | The loop, from the defaults, leaves exactly `ParseLines(lines)` in its variables and arrays. |
| Grading.ParseAssignment | grade_analysis_a3.py:138-182 | `parseAssignment` returns a new record with the file's student number, no marker, and the grades `ParseLines` gives. |
| Grading.FirstBadPath | grade_analysis_a3.py:192-194 | The position of the first report whose path names no marker; every earlier path names one. |
| Grading.Partition | grade_analysis_a3.py:192-207 | The marker lists built when each record goes to the list of its owner. There is one list per marker. |
| Grading.PartitionMember | grade_analysis_a3.py:195-207 | A record is in a list exactly when it was sent to that list. |
| Grading.PartitionSum | grade_analysis_a3.py:192-207 | The list lengths add up to the number of records. |
| Grading.FilingOf | grade_analysis_a3.py:193-194 | A report yields a filing exactly when its path names a marker. The filing has the report's student number, its grades and that marker. |
| Grading.Filings | grade_analysis_a3.py:192-195 | The filings of the reports, one per report, in file order. |
| Grading.AssignmentParser.constructor | grade_analysis_a3.py:110-112 | A new parser has no records and no markers. |
| Grading.AssignmentParser.Groups | grade_analysis_a3.py:197-207 | The markers' lists, one per marker, in marker order. |
| Grading.AssignmentParser.FindMarker | grade_analysis_a3.py:197-199 | Finds the first marker with the name. `None` means no marker has it. |
| Grading.AssignmentParser.JoinedValid | grade_analysis_a3.py:197-201 | Filing a record under a known marker keeps names distinct and lists non-empty. Each record stays in exactly the list of its marker. |
| Grading.AssignmentParser.AddedValid | grade_analysis_a3.py:202-207 | Filing a record under a new marker keeps the same invariant. |
| Grading.AssignmentParser.JoinMarker | grade_analysis_a3.py:197-201 | The record is appended, named by and added to the list of the existing marker of its name. No marker is added. |
| Grading.AssignmentParser.AddMarker | grade_analysis_a3.py:202-207 | A fresh marker with the filed name is appended, with the record as its one list entry and the record naming it. |
| Grading.AssignmentParser.Attach | grade_analysis_a3.py:195-207 | Appends the record and its filing and keeps the grouping invariant. Either the markers are unchanged or one fresh marker is appended. |
| Grading.AssignmentParser.FileReport | grade_analysis_a3.py:193-207 | If the path names a marker, one pass appends one fresh record to `assignments` and its filing, and returns `Pass`. Otherwise it returns `Fail` and changes nothing. Existing records and markers keep their places. |
| Grading.AssignmentParser.FileNext | grade_analysis_a3.py:192-207 | Pass `i` extends the filings by report `i`'s filing, or fails exactly at the first bad path and changes no record. Earlier records keep their places, and new records and markers are fresh. |
| Grading.AssignmentParser.ParseDirectoryStructure | grade_analysis_a3.py:192-207 | The loop files the reports before the first bad path in file order and keeps the grouping invariant. It appends one fresh record per report and keeps earlier records and markers in place; new markers are fresh. It fails exactly when a bad path exists. |
| Grading.ExactlyOneMarker | grade_analysis_a3.py:195-207 | After grouping, a record is in a marker's list exactly when that marker is the record's `marker`. |
| Grading.CountConserved | grade_analysis_a3.py:192-207 | After grouping, the markers' list lengths add up to the number of records. |
| Counting.Tally | grade_analysis_a3.py:229-236 | The counting dictionary has exactly the keys seen. Each count is at least 1 and is the number of occurrences of its key. |
| Counting.Get | grade_analysis_a3.py:234 | `d.get(k, default)` is `d[k]` when `k` is present, and the default otherwise. |
| Counting.TallyStep | grade_analysis_a3.py:234 | One more key adds one to its count, from 0 if it is new. |
| Counting.TallySum | grade_analysis_a3.py:229-245 | The counts add up to the number of keys seen. |
| Analysis.ValidOnly | grade_analysis_a3.py:217 | The valid-only filter keeps records of the pool that are valid. |
| Analysis.Erroneous | grade_analysis_a3.py:247-248 | `getErroneousAssignments` keeps records of the pool that are not valid. |
| Analysis.FiltersSelect | grade_analysis_a3.py:216-248 | A record is kept by the valid filter if and only if it is valid, and by the erroneous filter if and only if it is not. |
| Analysis.FiltersPartitionPool | grade_analysis_a3.py:216-248 | The two filters' lengths add up to the pool's. |
| Analysis.TotalGrades | grade_analysis_a3.py:216-217 | One total per valid record, in pool order, each within `[0, 15]`. |
| Analysis.TestingGrades | grade_analysis_a3.py:219-220 | One testing grade per valid record, each within `[0, 6]`. |
| Analysis.UsabilityGrades | grade_analysis_a3.py:222-223 | One usability grade per valid record, each within `[0, 3]`. |
| Analysis.QualityGrades | grade_analysis_a3.py:225-226 | One quality grade per valid record, each a multiple of 0.5 within `[0, 6]`. |
| Analysis.TotalsAndErrorsCoverPool | grade_analysis_a3.py:216-248 | `len(totalGrades(pool)) + len(getErroneousAssignments(pool)) == len(pool)`. |
| Analysis.TotalsOfValid | grade_analysis_a3.py:216-217 | The totals are exactly the totals of the pool's valid records. |
| Analysis.Min | grade_analysis_a3.py:251 | `min` fails exactly on an empty list. Otherwise it returns an element no greater than any other. |
| Analysis.Max | grade_analysis_a3.py:254 | `max` fails exactly on an empty list. Otherwise it returns an element no smaller than any other. |
| Analysis.AssignmentAnalyser.constructor | grade_analysis_a3.py:212-214 | The analyser holds the records and markers it is given. |
| Analysis.AssignmentAnalyser.GetOverallMin | grade_analysis_a3.py:250-251 | Fails exactly when no record is valid. Otherwise it returns a valid record's total, no greater than any valid record's total. |
| Analysis.AssignmentAnalyser.GetOverallMax | grade_analysis_a3.py:253-254 | Fails exactly when no record is valid. Otherwise it returns a valid record's total, no smaller than any valid record's total. |
| Analysis.Keys3D | grade_analysis_a3.py:233 | The `(testing, usability, quality)` key of each record, in pool order. |
| Analysis.KeysTestQuality | grade_analysis_a3.py:242 | The `(testing, quality)` key of each record, in pool order. |
| Analysis.Grade3DCountDict | grade_analysis_a3.py:229-236 | The loop builds the tally of the keys of all records, valid or not. Every record's key is present, and the counts add up to the pool's size. |
| Analysis.GradeTestQualityDict | grade_analysis_a3.py:238-245 | The same for the `(testing, quality)` keys. |
| Analysis.ParseArgument | grade_analysis_a3.py:412-417 | The stripped `index`-th space-separated word, or the empty text if there are too few words. |
| Analysis.CommandWords | grade_analysis_a3.py:412-417 | On a command made of words joined by single spaces, the argument is the `index`-th word, or the empty text past the end. |
| Analysis.DispHeadingUnderline | grade_analysis_a3.py:15-16 | A row of `=` exactly as long as the heading. |
| ScriptParser.ClassifyScript | assignment_script.py:54-95 | The `elif` chain: a header kind starts with its section's header. The kind is the end exactly on a `Code Quality Mark` line, and blank exactly on the empty line. |
| ScriptParser.SectionHeadersPrefixFree | assignment_script.py:60-86 | No section header is a prefix of another. |
| ScriptParser.HeaderSelectsItsSection | assignment_script.py:60-86 | A line starting with section `k`'s header opens section `k`. No longer header is captured by a shorter one tested earlier, and `i.e. …` opens section `i.`. |
| ScriptParser.HeaderOpensSection | assignment_script.py:60-86 | A header line records its grade in slot `k` and sets `partCounter` to `k`. The comments and overall grades are unchanged. |
| ScriptParser.OverallLineKeepsSection | assignment_script.py:54-58 | A `Testing:` or `Quality:` line sets that grade only. `partCounter`, part grades and comments are unchanged. |
| ScriptParser.StepKeepsSection | assignment_script.py:60-95 | A line other than section `k`'s header leaves slot `k`'s grade. While another section is open, it leaves `k`'s comments and keeps `k` closed. |
| ScriptParser.ScriptStep | assignment_script.py:54-95 | The loop body on one stripped line, by the kind `ClassifyScript` gives. `HeaderOpensSection`, `OverallLineKeepsSection` and `StepKeepsSection` state what it changes. |
| ScriptParser.ScriptApply | assignment_script.py:51-95 | The loop body run on each line in turn from a new record. `CommentsFollowHeaders`, `CommentsAllKept` and `UnopenedSection` state its result. |
| ScriptParser.ParseScript | assignment_script.py:50-96 | What the pass reads: `ScriptApply` on the stripped lines before the first terminator. `ScriptTerminatorEndsParse` states that later lines do not count. |
| ScriptParser.ScriptApplyExtend | assignment_script.py:51-95 | Reading one more raw line is one more loop body on its stripped text. |
| ScriptParser.ScriptAssignment.constructor | assignment_script.py:12-20 | A new record: grades 0.0, seven section grades of -1.0 and seven empty comment lists. |
| ScriptParser.ReadScriptLine | assignment_script.py:54-95 | The loop body on the record's arrays does what `ScriptStep` specifies. It reports a stop exactly on a `Code Quality Mark` line. |
| ScriptParser.ReadRawScriptLine | assignment_script.py:51-95 | One iteration strips line `i` and applies it. It stops exactly at the first terminator. |
| ScriptParser.ReadScript | assignment_script.py:50-96 | The loop leaves in the record exactly what `ParseScript` reads from the lines. |
| ScriptParser.ParseFile | assignment_script.py:47-98 | `parseFile` returns a new record with the file's student number and total 0.0. Its grades and comment lists are those `ParseScript` gives. |
| ScriptParser.CommentsFollowHeaders | assignment_script.py:60-95 | `partCounter` is the section of the last header, or 0 before any. Each section's list holds, in file order, exactly the free-text lines read while it was open. |
| ScriptParser.CommentsAllKept | assignment_script.py:94-95 | The comment lists hold as many lines in all as there are free-text lines. No header, blank or terminator line is stored. |
| ScriptParser.UnopenedSection | assignment_script.py:19-20 | A section no header opens keeps grade -1.0. Unless it is section 0, it keeps an empty comment list. |
| ScriptParser.BlankLineIgnored | assignment_script.py:88-89 | A blank line anywhere changes nothing: no grade, no comment, no `partCounter`. |
| ScriptParser.ScriptTerminatorEndsParse | assignment_script.py:91-92 | Nothing at or after the first `Code Quality Mark` line affects the record. |

## Left out

- Reading files and walking directories (`open`, file iteration, `os.walk`, `os.path.join`). A report is given as its path and its lines, and the walk's result is a sequence of reports.
- The interactive command loop (`input`, `print`), apart from `parseArgument`.
- Plotting (`dataGraph` and the matplotlib code) and the numpy statistics (`mean`, `var`, `median`, `roundValue`). These are presentation and floating-point library numerics.
- The display methods (`overallStatDisplay`, `markerStatDisplay`, `markingErrorDisplay`, `__str__`, `__repr__`). They depend on Python's float and list formatting.
- The trivial getters (`getName`, `getMarker`, `getStudentNumber`, `getOverall*`, `getAssignments`, `getMarkers`). The model reads the fields directly.
- `setTestingPart`/`setQualityPart`: they have no `self` parameter, would fail if called, and are never called.
- `pickle`, which appears only in commented-out code.
- Numbers.ParseFloat: covers only the decimal subset of `float()` (optional sign, ASCII digits, optional fraction, surrounding whitespace). Exponents, `inf`/`nan`, digit underscores and non-ASCII decimal digits (`float("５")` is 5.0) are read as not a number.
- Grades are exact `real` numbers, not IEEE doubles. The sums of `calcOverallTesting` and `calcOverallQuality` are exact, so an `==` in `doPartsMatchOverall` that rounding would make fail holds in the model.
- Python's `str.isspace` set is modelled by code point; Unicode normalisation is not modelled.
- Counting.Tally: the dictionary's insertion order is not modelled; a `map` has none.
