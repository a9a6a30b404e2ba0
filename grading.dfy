/** The records of the 2016 marking format: `Assignment` with its grade
    arithmetic and validity check, `Marker`, and the two parsing passes of
    `AssignmentParser` (one report, then the grouping of reports by marker). */
module Grading {
  import opened Options
  import opened Strings
  import opened GradeLines
  import opened Counting

  /** `maxMarks`: the most each overall grade can be. */
  const MaxTesting: real := 6.0
  const MaxUsability: real := 3.0
  const MaxQuality: real := 6.0

  /** Python's `sum`, added from the left. */
  function Sum(xs: seq<real>): real {
    if xs == [] then 0.0 else Sum(xs[..|xs| - 1]) + xs[|xs| - 1]
  }

  /** `math.ceil`: the least integer not below `x`. */
  function Ceil(x: real): (n: int)
    ensures x <= n as real < x + 1.0
  {
    -((-x).Floor)
  }

  /** A multiple of one half. */
  predicate IsHalfStep(r: real) {
    (2.0 * r).Floor as real == 2.0 * r
  }

  /** `math.ceil(2 * x) / 2.0`: `x` rounded up to a multiple of one half. */
  function HalfStepCeil(x: real): (r: real)
    ensures IsHalfStep(r)
    ensures x <= r < x + 0.5
  {
    Ceil(2.0 * x) as real / 2.0
  }

  /** The rounding is the least multiple of one half not below `x`. */
  lemma HalfStepCeilIsLeast(x: real, h: real)
    requires IsHalfStep(h) && x <= h
    ensures HalfStepCeil(x) <= h
  {
    var n, m := Ceil(2.0 * x), (2.0 * h).Floor;
    assert HalfStepCeil(x) == n as real / 2.0;
    assert m as real == 2.0 * h;
    assert n as real < m as real + 1.0;
    assert n <= m;
  }

  class Marker {
    const name: string
    var markedAssignments: seq<Assignment>

    constructor (name: string)
      ensures this.name == name && markedAssignments == []
    {
      this.name := name;
      markedAssignments := [];
    }

    method AddAssignment(a: Assignment)
      modifies this`markedAssignments
      ensures markedAssignments == old(markedAssignments) + [a]
    {
      markedAssignments := markedAssignments + [a];
    }
  }

  class Assignment {
    const studentNumber: string
    var marker: Marker?
    var testingGrade: real
    var usabilityGrade: real
    var qualityGrade: real
    var testingParts: SixParts
    var qualityParts: SixParts

    /** A new record: overall grades 0.0 and every part slot the sentinel. */
    constructor (studentNumber: string, marker: Marker?)
      ensures this.studentNumber == studentNumber && this.marker == marker
      ensures Record() == Initial
    {
      this.studentNumber := studentNumber;
      testingGrade, usabilityGrade, qualityGrade := 0.0, 0.0, 0.0;
      this.marker := marker;
      testingParts, qualityParts := Unset, Unset;
    }

    /** The grades of the record, as one value. */
    function Record(): Grades
      reads this`testingGrade, this`usabilityGrade, this`qualityGrade, this`testingParts, this`qualityParts
    {
      Grades(testingGrade, usabilityGrade, qualityGrade, testingParts, qualityParts)
    }

    method SetMarker(marker: Marker?)
      modifies this`marker
      ensures this.marker == marker
    {
      this.marker := marker;
    }

    method SetOverallGrade(testingGrade: real, usabilityGrade: real, qualityGrade: real)
      modifies this`testingGrade, this`usabilityGrade, this`qualityGrade
      ensures this.testingGrade == testingGrade && this.usabilityGrade == usabilityGrade && this.qualityGrade == qualityGrade
    {
      this.testingGrade, this.usabilityGrade, this.qualityGrade := testingGrade, usabilityGrade, qualityGrade;
    }

    function CalcTotalGrade(): real
      reads this
    {
      testingGrade + usabilityGrade + qualityGrade
    }

    function CalcOverallTesting(): real
      reads this
    {
      Sum(testingParts)
    }

    /** The sum of the first five quality parts scaled by the sixth, rounded
        up to a multiple of one half. */
    function CalcOverallQuality(): (r: real)
      reads this
      ensures var p := Sum(qualityParts[..5]) * qualityParts[5]; IsHalfStep(r) && p <= r < p + 0.5
    {
      HalfStepCeil(Sum(qualityParts[..5]) * qualityParts[5])
    }

    predicate DoPartsMatchOverall()
      reads this
    {
      CalcOverallTesting() == testingGrade && CalcOverallQuality() == qualityGrade
    }

    predicate IsAssignmentValid()
      reads this
    {
      && DoPartsMatchOverall()
      && 0.0 <= testingGrade <= MaxTesting
      && 0.0 <= usabilityGrade <= MaxUsability
      && 0.0 <= qualityGrade <= MaxQuality
    }
  }

  /** A valid record's parts add up to its overall grades, its total lies
      between 0 and 15, and its quality grade is a multiple of one half. */
  lemma ValidAssignment(a: Assignment)
    requires a.IsAssignmentValid()
    ensures a.CalcOverallTesting() == a.testingGrade
    ensures a.CalcOverallQuality() == a.qualityGrade
    ensures 0.0 <= a.CalcTotalGrade() <= MaxTesting + MaxUsability + MaxQuality
    ensures IsHalfStep(a.qualityGrade)
  {
  }

  /** A record none of whose testing parts was read is never valid: the six
      sentinels add up to -6. */
  lemma UnreadTestingPartsInvalid(a: Assignment)
    requires a.testingParts == Unset
    ensures a.CalcOverallTesting() == -6.0
    ensures !a.IsAssignmentValid()
  {
    SumOfSame(Unset, Sentinel);
  }

  /** A list of equal grades adds up to their number times the grade. */
  lemma {:induction false} SumOfSame(xs: seq<real>, c: real)
    requires forall i :: 0 <= i < |xs| ==> xs[i] == c
    ensures Sum(xs) == |xs| as real * c
  {
    if xs != [] {
      SumOfSame(xs[..|xs| - 1], c);
    }
  }

  // ---------------------------------------------------------------------
  // `parseAssignment`

  /** The loop body of `parseAssignment` on a stripped line, over its local
      grades and the two part lists. */
  method ReadLine(line: string, testingGrade: real, usabilityGrade: real, qualityGrade: real, testingParts: array<real>, qualityParts: array<real>)
    returns (testing: real, usability: real, quality: real)
    requires testingParts.Length == 6 && qualityParts.Length == 6 && testingParts != qualityParts
    modifies testingParts, qualityParts
    ensures Grades(testing, usability, quality, testingParts[..], qualityParts[..])
         == Step(Grades(testingGrade, usabilityGrade, qualityGrade, old(testingParts[..]), old(qualityParts[..])), line)
  {
    testing, usability, quality := testingGrade, usabilityGrade, qualityGrade;
    if StartsWith(line, "Testing:") {
      testing := GradeFromLine(line);
    } else if StartsWith(line, "Usability:") {
      usability := GradeFromLine(line);
    } else if StartsWith(line, "Quality:") {
      quality := GradeFromLine(line);
    } else {
      var t := FindIndicator(line, TestingIndicators);
      if t.Some? {
        testingParts[t.value] := GradeFromLine(line);
      }
      var q := FindIndicator(line, QualityIndicators);
      if q.Some? {
        qualityParts[q.value] := GradeFromLine(line);
      }
    }
  }

  /** One iteration of the loop of `parseAssignment`: strips a raw line,
      reads it, and tells whether the pass stops after it. A terminator line
      leaves the grades as they were. */
  method ReadRawLine(raw: string, testingGrade: real, usabilityGrade: real, qualityGrade: real, testingParts: array<real>, qualityParts: array<real>)
    returns (testing: real, usability: real, quality: real, stop: bool)
    requires testingParts.Length == 6 && qualityParts.Length == 6 && testingParts != qualityParts
    modifies testingParts, qualityParts
    ensures stop == IsTerminator(raw)
    ensures stop ==>
      Grades(testing, usability, quality, testingParts[..], qualityParts[..])
      == Grades(testingGrade, usabilityGrade, qualityGrade, old(testingParts[..]), old(qualityParts[..]))
    ensures !stop ==>
      Grades(testing, usability, quality, testingParts[..], qualityParts[..])
      == Step(Grades(testingGrade, usabilityGrade, qualityGrade, old(testingParts[..]), old(qualityParts[..])), Strip(raw))
  {
    var line := Strip(raw);
    ghost var before := Grades(testingGrade, usabilityGrade, qualityGrade, testingParts[..], qualityParts[..]);
    testing, usability, quality := ReadLine(line, testingGrade, usabilityGrade, qualityGrade, testingParts, qualityParts);
    stop := StartsWith(line, TerminatorText);
    if stop {
      TerminatorChangesNothing(before, line);
    }
  }

  /** The local state and loop of `parseAssignment`: the grades the pass
      over a report's lines leaves in its variables and part lists. */
  method ReadReport(lines: seq<string>) returns (g: Grades)
    ensures g == ParseLines(lines)
  {
    var testingGrade, usabilityGrade, qualityGrade := 0.0, 0.0, 0.0;
    var testingParts := new real[6](_ => Sentinel);
    var qualityParts := new real[6](_ => Sentinel);
    assert testingParts[..] == Unset && qualityParts[..] == Unset;
    var i := 0;
    while i < |lines|
      invariant 0 <= i <= StopIndex(lines)
      invariant Grades(testingGrade, usabilityGrade, qualityGrade, testingParts[..], qualityParts[..]) == Apply(StripAll(lines[..i]))
      modifies testingParts, qualityParts
    {
      var stop;
      testingGrade, usabilityGrade, qualityGrade, stop := ReadRawLine(lines[i], testingGrade, usabilityGrade, qualityGrade, testingParts, qualityParts);
      if stop {
        break;
      }
      assert StopIndex(lines) != i;
      ApplyExtend(lines, i);
      i := i + 1;
    }
    assert StopIndex(lines) == i;
    g := Grades(testingGrade, usabilityGrade, qualityGrade, testingParts[..], qualityParts[..]);
  }

  /** `parseAssignment` on a report's path and lines: a new record, with no
      marker yet, whose grades are those the pass over the lines yields. */
  method ParseAssignment(filename: string, lines: seq<string>) returns (a: Assignment)
    ensures fresh(a)
    ensures a.studentNumber == StudentNumberForFile(filename) && a.marker == null
    ensures a.Record() == ParseLines(lines)
  {
    a := new Assignment(StudentNumberForFile(filename), null);
    var g := ReadReport(lines);
    a.SetOverallGrade(g.testing, g.usability, g.quality);
    a.testingParts := g.testingParts;
    a.qualityParts := g.qualityParts;
    assert a.Record() == Grades(g.testing, g.usability, g.quality, g.testingParts, g.qualityParts) == g;
  }

  // ---------------------------------------------------------------------
  // `parseDirectoryStructure`

  /** A report file: its path, with "/" separators, and its lines. */
  datatype Report = Report(path: string, lines: seq<string>)

  /** How far the grouping loop gets: the position of the first report
      whose path names no marker, or the number of reports. */
  function FirstBadPath(files: seq<Report>): (n: nat)
    ensures n <= |files|
    ensures forall j :: 0 <= j < n ==> MarkerForFile(files[j].path).Ok?
    ensures n < |files| ==> MarkerForFile(files[n].path).Err?
  {
    BadPathFrom(files, 0)
  }

  function BadPathFrom(files: seq<Report>, i: nat): (n: nat)
    requires i <= |files|
    ensures i <= n <= |files|
    ensures forall j :: i <= j < n ==> MarkerForFile(files[j].path).Ok?
    ensures n < |files| ==> MarkerForFile(files[n].path).Err?
    decreases |files| - i
  {
    if i == |files| || MarkerForFile(files[i].path).Err? then i else BadPathFrom(files, i + 1)
  }

  /** No two markers share a name. */
  predicate NamesDistinct(markers: seq<Marker>) {
    forall i, j :: 0 <= i < j < |markers| ==> markers[i].name != markers[j].name
  }

  /** No record occurs twice. */
  predicate Distinct(xs: seq<Assignment>) {
    forall i, j :: 0 <= i < j < |xs| ==> xs[i] != xs[j]
  }

  /** The `n` lists the grouping builds when item `xs[j]` goes to list
      `owner[j]`, each list in the order of `xs`. */
  function Partition<T>(xs: seq<T>, owner: seq<nat>, n: nat): (groups: seq<seq<T>>)
    requires |owner| == |xs|
    ensures |groups| == n
  {
    if xs == [] then seq(n, _ => [])
    else
      var groups := Partition(xs[..|xs| - 1], owner[..|xs| - 1], n);
      var k := owner[|xs| - 1];
      if k < n then groups[k := groups[k] + [xs[|xs| - 1]]] else groups
  }

  /** A further, empty, list changes none of the others. */
  lemma {:induction false} PartitionWiden<T>(xs: seq<T>, owner: seq<nat>, n: nat)
    requires |owner| == |xs|
    requires forall j :: 0 <= j < |xs| ==> owner[j] < n
    ensures Partition(xs, owner, n + 1) == Partition(xs, owner, n) + [[]]
  {
    if xs != [] {
      PartitionWiden(xs[..|xs| - 1], owner[..|xs| - 1], n);
    }
  }

  /** An item is in list `i` exactly when it was sent there. */
  lemma {:induction false} PartitionMember<T>(xs: seq<T>, owner: seq<nat>, n: nat, i: nat, x: T)
    requires |owner| == |xs| && i < n
    ensures x in Partition(xs, owner, n)[i] <==> exists j :: 0 <= j < |xs| && xs[j] == x && owner[j] == i
  {
    if xs != [] {
      var last := |xs| - 1;
      PartitionMember(xs[..last], owner[..last], n, i, x);
      if x in Partition(xs, owner, n)[i] && !(xs[last] == x && owner[last] == i) {
        var j :| 0 <= j < last && xs[..last][j] == x && owner[..last][j] == i;
        assert xs[j] == x && owner[j] == i;
      }
      if exists j :: 0 <= j < |xs| && xs[j] == x && owner[j] == i {
        var j :| 0 <= j < |xs| && xs[j] == x && owner[j] == i;
        if j < last {
          assert xs[..last][j] == x && owner[..last][j] == i;
        }
      }
    }
  }

  /** The lists hold every item once: their lengths add up to the count. */
  lemma {:induction false} PartitionSum<T>(xs: seq<T>, owner: seq<nat>, n: nat)
    requires |owner| == |xs|
    requires forall j :: 0 <= j < |xs| ==> owner[j] < n
    ensures SumLengths(Partition(xs, owner, n)) == |xs|
  {
    if xs == [] {
      SumLengthsEmpty<T>(n);
    } else {
      var last := |xs| - 1;
      PartitionSum(xs[..last], owner[..last], n);
      SumLengthsAppend(Partition(xs[..last], owner[..last], n), owner[last], xs[last]);
    }
  }

  /** Appending one item to the input appends it to the list it is sent to. */
  lemma PartitionSnoc<T>(xs: seq<T>, owner: seq<nat>, n: nat, x: T, k: nat)
    requires |owner| == |xs|
    ensures var groups := Partition(xs, owner, n);
      Partition(xs + [x], owner + [k], n) == if k < n then groups[k := groups[k] + [x]] else groups
  {
    assert (xs + [x])[..|xs|] == xs;
    assert (owner + [k])[..|xs|] == owner;
  }

  /** An item sent to a list of its own adds that list at the end. */
  lemma PartitionNewGroup<T>(xs: seq<T>, owner: seq<nat>, n: nat, x: T)
    requires |owner| == |xs|
    requires forall j :: 0 <= j < |xs| ==> owner[j] < n
    ensures Partition(xs + [x], owner + [n], n + 1) == Partition(xs, owner, n) + [[x]]
  {
    PartitionWiden(xs, owner, n);
    PartitionSnoc(xs, owner, n + 1, x, n);
    var groups := Partition(xs, owner, n);
    assert (groups + [[]])[n := [] + [x]] == groups + [[x]];
  }

  /** What the grouping files for one report: the student number and the
      grades read from it, and the name of the marker it goes to. */
  datatype Filing = Filing(studentNumber: string, grades: Grades, marker: string)

  /** The filing of report `file`, or `None` when its path names no marker. */
  function FilingOf(file: Report): (r: Option<Filing>)
    ensures r.None? <==> MarkerForFile(file.path).Err?
    ensures r.Some? ==>
      && r.value.grades == ParseLines(file.lines)
      && r.value.studentNumber == StudentNumberForFile(file.path)
      && MarkerForFile(file.path) == Ok(r.value.marker)
  {
    match MarkerForFile(file.path)
    case Ok(name) => Some(Filing(StudentNumberForFile(file.path), ParseLines(file.lines), name))
    case Err(_) => None
  }

  /** The filings of reports whose paths all name a marker, in order. */
  function Filings(files: seq<Report>): (r: seq<Filing>)
    requires forall j :: 0 <= j < |files| ==> MarkerForFile(files[j].path).Ok?
    ensures |r| == |files|
  {
    if files == [] then []
    else Filings(files[..|files| - 1]) + [FilingOf(files[|files| - 1]).value]
  }

  /** Filing one more report extends the filings by its filing. */
  lemma FilingsExtend(files: seq<Report>, i: nat, base: seq<Filing>)
    requires i < |files| && forall j :: 0 <= j <= i ==> MarkerForFile(files[j].path).Ok?
    ensures base + Filings(files[..i + 1]) == base + Filings(files[..i]) + [FilingOf(files[i]).value]
  {
    assert files[..i + 1][..i] == files[..i];
  }

  /** `a` holds the student number and grades of `f`. */
  ghost predicate ReadAs(a: Assignment, f: Filing)
    reads a`testingGrade, a`usabilityGrade, a`qualityGrade, a`testingParts, a`qualityParts
  {
    a.studentNumber == f.studentNumber && a.Record() == f.grades
  }

  class AssignmentParser {
    var assignments: seq<Assignment>
    var markers: seq<Marker>
    /** For each record, the position of its marker in `markers`. */
    ghost var owners: seq<nat>
    /** For each record, what was filed for it. */
    ghost var filed: seq<Filing>
    /** The markers' lists, as the grouping builds them. */
    ghost var groups: seq<seq<Assignment>>

    /** The invariant of the grouping: markers have distinct names and
        non-empty lists; each record holds what was filed for it and names
        the marker at its owner position, whose name was filed for it; and
        each marker's list holds exactly the records it owns, in order. */
    ghost predicate Valid()
      reads this, markers, assignments
    {
      && NamesDistinct(markers)
      && Distinct(assignments)
      && |owners| == |assignments| == |filed|
      && (forall j :: 0 <= j < |assignments| ==> owners[j] < |markers| && assignments[j].marker == markers[owners[j]])
      && (forall j :: 0 <= j < |assignments| ==> ReadAs(assignments[j], filed[j]) && markers[owners[j]].name == filed[j].marker)
      && groups == Partition(assignments, owners, |markers|)
      && (forall i :: 0 <= i < |markers| ==> markers[i].markedAssignments == groups[i] != [])
    }

    /** The markers' lists, in the order of the markers. */
    ghost function Groups(): (groups: seq<seq<Assignment>>)
      reads this, markers
      ensures |groups| == |markers|
      ensures forall i :: 0 <= i < |markers| ==> groups[i] == markers[i].markedAssignments
    {
      seq(|markers|, i requires 0 <= i < |markers| reads this, markers => markers[i].markedAssignments)
    }

    constructor ()
      ensures Valid() && assignments == [] && markers == [] && filed == []
    {
      assignments, markers, owners, filed, groups := [], [], [], [], [];
    }

    /** The first marker called `name`, if any. */
    method FindMarker(name: string) returns (r: Option<nat>)
      ensures r.Some? ==> r.value < |markers| && markers[r.value].name == name
      ensures r.Some? ==> forall j :: 0 <= j < r.value ==> markers[j].name != name
      ensures r.None? ==> forall j :: 0 <= j < |markers| ==> markers[j].name != name
    {
      var i := 0;
      while i < |markers|
        invariant 0 <= i <= |markers|
        invariant forall j :: 0 <= j < i ==> markers[j].name != name
      {
        if markers[i].name == name {
          return Some(i);
        }
        i := i + 1;
      }
      return None;
    }

    /** Filing one more record under the known marker `markers[k]`, and
        changing nothing else, keeps the invariant. */
    twostate lemma JoinedValid()
      requires old(Valid()) && markers == old(markers)
      requires |assignments| == |owners| == |filed| == |old(assignments)| + 1
      requires var n := |old(assignments)|;
        var a, f, k := assignments[n], filed[n], owners[n];
        && a !in old(assignments) && k < |markers|
        && assignments == old(assignments) + [a] && owners == old(owners) + [k] && filed == old(filed) + [f]
        && groups == old(groups)[k := old(groups)[k] + [a]]
        && (forall j :: 0 <= j < n ==> unchanged(old(assignments)[j]))
        && (forall i :: 0 <= i < |markers| && i != k ==> unchanged(markers[i]))
        && markers[k].markedAssignments == groups[k]
        && ReadAs(a, f) && a.marker == markers[k] && markers[k].name == f.marker
      ensures Valid()
    {
      var n := |old(assignments)|;
      PartitionSnoc(old(assignments), old(owners), |markers|, assignments[n], owners[n]);
    }

    /** Filing one more record under a new marker at the end of the list,
        and changing nothing else, keeps the invariant. */
    twostate lemma AddedValid()
      requires old(Valid())
      requires |markers| == |old(markers)| + 1 && forall i :: 0 <= i < |old(markers)| ==> markers[i] == old(markers)[i]
      requires |assignments| == |owners| == |filed| == |old(assignments)| + 1
      requires var n, k := |old(assignments)|, |old(markers)|;
        var a, f := assignments[n], filed[n];
        && a !in old(assignments)
        && (forall i :: 0 <= i < k ==> markers[i].name != markers[k].name)
        && assignments == old(assignments) + [a] && owners == old(owners) + [k] && filed == old(filed) + [f]
        && groups == old(groups) + [[a]]
        && (forall j :: 0 <= j < n ==> unchanged(old(assignments)[j]))
        && (forall i :: 0 <= i < k ==> unchanged(old(markers)[i]))
        && markers[k].markedAssignments == [a]
        && ReadAs(a, f) && a.marker == markers[k] && markers[k].name == f.marker
      ensures Valid()
    {
      PartitionNewGroup(old(assignments), old(owners), |old(markers)|, assignments[|old(assignments)|]);
    }

    /** One iteration of the grouping loop for the record `a`, filed as
        `f`: the record joins the known marker called `f.marker`, or a new
        marker of that name that joins the end of the list. */
    method Attach(a: Assignment, f: Filing)
      requires Valid() && a !in assignments && ReadAs(a, f)
      modifies this, a`marker, markers
      ensures Valid()
      ensures assignments == old(assignments) + [a] && filed == old(filed) + [f]
      ensures markers == old(markers) || (markers == old(markers) + [a.marker] && fresh(a.marker))
    {
      var found := FindMarker(f.marker);
      if found.Some? {
        JoinMarker(a, f, found.value);
      } else {
        AddMarker(a, f);
      }
    }

    /** The record joins the list of the known marker `markers[k]`. */
    method JoinMarker(a: Assignment, f: Filing, k: nat)
      requires Valid() && a !in assignments && k < |markers|
      requires ReadAs(a, f) && markers[k].name == f.marker
      modifies this, a`marker, markers[k]
      ensures Valid()
      ensures assignments == old(assignments) + [a] && filed == old(filed) + [f]
      ensures markers == old(markers) && a.marker == markers[k]
    {
      var existing := markers[k];
      assignments := assignments + [a];
      owners := owners + [k];
      filed := filed + [f];
      groups := groups[k := groups[k] + [a]];
      a.SetMarker(existing);
      existing.AddAssignment(a);
      JoinedValid();
    }

    /** The record starts the list of a new marker called `f.marker`, which
        joins the end of the list of markers. */
    method AddMarker(a: Assignment, f: Filing)
      requires Valid() && a !in assignments && ReadAs(a, f)
      requires forall j :: 0 <= j < |markers| ==> markers[j].name != f.marker
      modifies this, a`marker
      ensures Valid()
      ensures assignments == old(assignments) + [a] && filed == old(filed) + [f]
      ensures markers == old(markers) + [a.marker] && fresh(a.marker) && a.marker.name == f.marker
    {
      var n := |markers|;
      var newMarker := new Marker(f.marker);
      newMarker.AddAssignment(a);
      a.SetMarker(newMarker);
      assignments := assignments + [a];
      owners := owners + [n];
      filed := filed + [f];
      markers := markers + [newMarker];
      groups := groups + [[a]];
      AddedValid();
    }

    /** One pass of the grouping loop: the report becomes a record, filed
        under the marker its path names; a path that names no marker is
        reported and changes nothing. */
    method FileReport(file: Report) returns (outcome: Outcome<PathError>)
      requires Valid()
      modifies this, markers
      ensures Valid()
      ensures outcome == (match MarkerForFile(file.path) case Ok(_) => Pass case Err(e) => Fail(e))
      ensures outcome.Fail? ==> assignments == old(assignments) && filed == old(filed) && markers == old(markers)
      ensures outcome.Pass? ==> filed == old(filed) + [FilingOf(file).value]
      ensures outcome.Pass? ==>
        |assignments| == |old(assignments)| + 1
        && assignments == old(assignments) + [assignments[|old(assignments)|]]
        && fresh(assignments[|old(assignments)|])
      ensures |old(markers)| <= |markers|
      ensures forall k :: 0 <= k < |old(markers)| ==> markers[k] == old(markers)[k]
      ensures forall k :: |old(markers)| <= k < |markers| ==> fresh(markers[k])
    {
      var name := MarkerForFile(file.path);
      if name.Err? {
        return Fail(name.error);
      }
      var a := ParseAssignment(file.path, file.lines);
      Attach(a, Filing(a.studentNumber, a.Record(), name.value));
      return Pass;
    }

    /** The pass of the grouping loop over report `i`, in terms of the
        filings of the reports before it. */
    method FileNext(files: seq<Report>, i: nat, ghost base: seq<Filing>) returns (outcome: Outcome<PathError>)
      requires Valid() && i < |files| && i <= FirstBadPath(files)
      requires filed == base + Filings(files[..i])
      modifies this, markers
      ensures Valid()
      ensures outcome.Fail? ==> i == FirstBadPath(files) && outcome == Fail(NoMarkerDirectory(files[i].path))
      ensures outcome.Fail? ==> filed == old(filed) && assignments == old(assignments)
      ensures outcome.Pass? ==> i < FirstBadPath(files) && filed == base + Filings(files[..i + 1])
      ensures |old(assignments)| <= |assignments|
      ensures forall j :: 0 <= j < |old(assignments)| ==> assignments[j] == old(assignments)[j]
      ensures forall j :: |old(assignments)| <= j < |assignments| ==> fresh(assignments[j])
      ensures |old(markers)| <= |markers|
      ensures forall k :: 0 <= k < |old(markers)| ==> markers[k] == old(markers)[k]
      ensures forall k :: |old(markers)| <= k < |markers| ==> fresh(markers[k])
    {
      outcome := FileReport(files[i]);
      if outcome.Pass? {
        assert FirstBadPath(files) != i;
        FilingsExtend(files, i, base);
      }
    }

    /** The grouping loop of `parseDirectoryStructure` over the reports the
        directory walk found. Each report becomes a record appended to
        `assignments` and filed under its marker; the first path that names
        no marker aborts the loop with that error, the records before it
        kept. */
    method ParseDirectoryStructure(files: seq<Report>) returns (outcome: Outcome<PathError>)
      requires Valid()
      modifies this, markers
      ensures Valid()
      ensures var n := FirstBadPath(files);
        && outcome == (if n < |files| then Fail(NoMarkerDirectory(files[n].path)) else Pass)
        && filed == old(filed) + Filings(files[..n])
        && |assignments| == |old(assignments)| + n
      ensures forall j :: 0 <= j < |old(assignments)| ==> assignments[j] == old(assignments)[j]
      ensures forall j :: |old(assignments)| <= j < |assignments| ==> fresh(assignments[j])
      ensures |old(markers)| <= |markers|
      ensures forall k :: 0 <= k < |old(markers)| ==> markers[k] == old(markers)[k]
      ensures forall k :: |old(markers)| <= k < |markers| ==> fresh(markers[k])
    {
      var i := 0;
      while i < |files|
        invariant 0 <= i <= FirstBadPath(files)
        invariant Valid()
        invariant filed == old(filed) + Filings(files[..i])
        invariant |old(assignments)| <= |assignments|
        invariant forall j :: 0 <= j < |old(assignments)| ==> assignments[j] == old(assignments)[j]
        invariant forall j :: |old(assignments)| <= j < |assignments| ==> fresh(assignments[j])
        invariant |old(markers)| <= |markers|
        invariant forall k :: 0 <= k < |old(markers)| ==> markers[k] == old(markers)[k]
        invariant forall k :: |old(markers)| <= k < |markers| ==> fresh(markers[k])
      {
        ghost var known, records := markers, assignments;
        outcome := FileNext(files, i, old(filed));
        if outcome.Fail? {
          assert files[..FirstBadPath(files)] == files[..i];
          return;
        }
        forall j | |old(assignments)| <= j < |assignments|
          ensures fresh(assignments[j])
        {
          if j < |records| {
            assert assignments[j] == records[j];
          }
        }
        forall j | 0 <= j < |old(assignments)|
          ensures assignments[j] == old(assignments)[j]
        {
          assert assignments[j] == records[j];
        }
        forall k | |old(markers)| <= k < |markers|
          ensures fresh(markers[k])
        {
          if k < |known| {
            assert markers[k] == known[k];
          }
        }
        forall k | 0 <= k < |old(markers)|
          ensures markers[k] == old(markers)[k]
        {
          assert markers[k] == known[k];
        }
        i := i + 1;
      }
      assert files[..FirstBadPath(files)] == files[..i];
      return Pass;
    }
  }

  /** After grouping, each record is in exactly one marker's list: the list
      of the marker it names. */
  lemma ExactlyOneMarker(parser: AssignmentParser, j: nat, i: nat)
    requires parser.Valid() && j < |parser.assignments| && i < |parser.markers|
    ensures parser.assignments[j] in parser.markers[i].markedAssignments <==> parser.markers[i] == parser.assignments[j].marker
  {
    var xs, owners, n := parser.assignments, parser.owners, |parser.markers|;
    PartitionMember(xs, owners, n, i, xs[j]);
    if parser.markers[i] == xs[j].marker {
      assert owners[j] == i;
    }
  }

  /** After grouping, the lists hold as many records as there are. */
  lemma CountConserved(parser: AssignmentParser)
    requires parser.Valid()
    ensures SumLengths(parser.Groups()) == |parser.assignments|
  {
    assert parser.Groups() == parser.groups;
    PartitionSum(parser.assignments, parser.owners, |parser.markers|);
  }
}
