/** `AssignmentAnalyser` and the small helpers of the command loop: the
    filters that keep the valid or the erroneous records of a pool, the
    lists of grades of the valid records, their least and greatest totals,
    and the two frequency-count dictionaries. */
module Analysis {
  import opened Options
  import opened Strings
  import opened Counting
  import opened Grading

  // ---------------------------------------------------------------------
  // Filters over a pool of records

  /** `[a for a in pool if a.isAssignmentValid()]`. */
  function ValidOnly(pool: seq<Assignment>): (r: seq<Assignment>)
    reads pool
    ensures |r| <= |pool|
    ensures forall i :: 0 <= i < |r| ==> r[i] in pool && r[i].IsAssignmentValid()
  {
    if pool == [] then []
    else
      var a := pool[|pool| - 1];
      ValidOnly(pool[..|pool| - 1]) + (if a.IsAssignmentValid() then [a] else [])
  }

  /** `getErroneousAssignments`: `[a for a in pool if not a.isAssignmentValid()]`. */
  function Erroneous(pool: seq<Assignment>): (r: seq<Assignment>)
    reads pool
    ensures |r| <= |pool|
    ensures forall i :: 0 <= i < |r| ==> r[i] in pool && !r[i].IsAssignmentValid()
  {
    if pool == [] then []
    else
      var a := pool[|pool| - 1];
      Erroneous(pool[..|pool| - 1]) + (if a.IsAssignmentValid() then [] else [a])
  }

  /** A record of the pool is kept by the valid filter exactly when it is
      valid, and by the erroneous filter exactly when it is not. */
  lemma {:induction false} FiltersSelect(pool: seq<Assignment>, i: nat)
    requires i < |pool|
    ensures pool[i] in ValidOnly(pool) <==> pool[i].IsAssignmentValid()
    ensures pool[i] in Erroneous(pool) <==> !pool[i].IsAssignmentValid()
  {
    var prefix := pool[..|pool| - 1];
    if i < |prefix| {
      FiltersSelect(prefix, i);
      assert pool[i] == prefix[i];
    }
  }

  /** Every record of the pool lands in exactly one of the two filters. */
  lemma {:induction false} FiltersPartitionPool(pool: seq<Assignment>)
    ensures |ValidOnly(pool)| + |Erroneous(pool)| == |pool|
  {
    if pool != [] {
      FiltersPartitionPool(pool[..|pool| - 1]);
    }
  }

  // ---------------------------------------------------------------------
  // Grade lists of the valid records

  /** `totalGrades`: the total grade of each valid record, in pool order. */
  function TotalGrades(pool: seq<Assignment>): (r: seq<real>)
    reads pool
    ensures |r| == |ValidOnly(pool)|
    ensures forall i :: 0 <= i < |r| ==> r[i] == ValidOnly(pool)[i].CalcTotalGrade()
    ensures forall i :: 0 <= i < |r| ==> 0.0 <= r[i] <= MaxTesting + MaxUsability + MaxQuality
  {
    if pool == [] then []
    else
      var a := pool[|pool| - 1];
      TotalGrades(pool[..|pool| - 1]) + (if a.IsAssignmentValid() then [a.CalcTotalGrade()] else [])
  }

  /** `testingGrades`: the overall testing grade of each valid record. */
  function TestingGrades(pool: seq<Assignment>): (r: seq<real>)
    reads pool
    ensures |r| == |ValidOnly(pool)|
    ensures forall i :: 0 <= i < |r| ==> r[i] == ValidOnly(pool)[i].testingGrade
    ensures forall i :: 0 <= i < |r| ==> 0.0 <= r[i] <= MaxTesting
  {
    if pool == [] then []
    else
      var a := pool[|pool| - 1];
      TestingGrades(pool[..|pool| - 1]) + (if a.IsAssignmentValid() then [a.testingGrade] else [])
  }

  /** `usabilityGrades`: the overall usability grade of each valid record. */
  function UsabilityGrades(pool: seq<Assignment>): (r: seq<real>)
    reads pool
    ensures |r| == |ValidOnly(pool)|
    ensures forall i :: 0 <= i < |r| ==> r[i] == ValidOnly(pool)[i].usabilityGrade
    ensures forall i :: 0 <= i < |r| ==> 0.0 <= r[i] <= MaxUsability
  {
    if pool == [] then []
    else
      var a := pool[|pool| - 1];
      UsabilityGrades(pool[..|pool| - 1]) + (if a.IsAssignmentValid() then [a.usabilityGrade] else [])
  }

  /** `qualityGrades`: the overall quality grade of each valid record, each
      a multiple of one half. */
  function QualityGrades(pool: seq<Assignment>): (r: seq<real>)
    reads pool
    ensures |r| == |ValidOnly(pool)|
    ensures forall i :: 0 <= i < |r| ==> r[i] == ValidOnly(pool)[i].qualityGrade
    ensures forall i :: 0 <= i < |r| ==> 0.0 <= r[i] <= MaxQuality && IsHalfStep(r[i])
  {
    if pool == [] then []
    else
      var a := pool[|pool| - 1];
      QualityGrades(pool[..|pool| - 1]) + (if a.IsAssignmentValid() then [a.qualityGrade] else [])
  }

  /** Each record either contributes a total or is reported erroneous. */
  lemma {:induction false} TotalsAndErrorsCoverPool(pool: seq<Assignment>)
    ensures |TotalGrades(pool)| + |Erroneous(pool)| == |pool|
  {
    FiltersPartitionPool(pool);
  }

  // ---------------------------------------------------------------------
  // Least and greatest totals

  /** Python's `min`; `None` stands for the `ValueError` it raises on an
      empty list. */
  function Min(xs: seq<real>): (r: Option<real>)
    ensures r.None? <==> xs == []
    ensures r.Some? ==> r.value in xs && forall x :: x in xs ==> r.value <= x
  {
    if xs == [] then None
    else
      var prefix, last := xs[..|xs| - 1], xs[|xs| - 1];
      assert xs == prefix + [last];
      match Min(prefix)
      case None => Some(last)
      case Some(m) => Some(if last < m then last else m)
  }

  /** Python's `max`; `None` stands for the `ValueError` it raises on an
      empty list. */
  function Max(xs: seq<real>): (r: Option<real>)
    ensures r.None? <==> xs == []
    ensures r.Some? ==> r.value in xs && forall x :: x in xs ==> x <= r.value
  {
    if xs == [] then None
    else
      var prefix, last := xs[..|xs| - 1], xs[|xs| - 1];
      assert xs == prefix + [last];
      match Max(prefix)
      case None => Some(last)
      case Some(m) => Some(if last > m then last else m)
  }

  /** The analyser over the records and markers of one grouping pass. */
  class AssignmentAnalyser {
    const assignments: seq<Assignment>
    const markers: seq<Marker>

    constructor (assignments: seq<Assignment>, markers: seq<Marker>)
      ensures this.assignments == assignments && this.markers == markers
    {
      this.assignments := assignments;
      this.markers := markers;
    }

    /** `getOverallMin`: the least total of a valid record; `None` when no
        record is valid. */
    function GetOverallMin(): (r: Option<real>)
      reads assignments
      ensures r.None? <==> forall i :: 0 <= i < |assignments| ==> !assignments[i].IsAssignmentValid()
      ensures r.Some? ==> exists i :: 0 <= i < |assignments| && assignments[i].IsAssignmentValid() && assignments[i].CalcTotalGrade() == r.value
      ensures r.Some? ==> forall i :: 0 <= i < |assignments| && assignments[i].IsAssignmentValid() ==> r.value <= assignments[i].CalcTotalGrade()
    {
      var totals := TotalGrades(assignments);
      var r := Min(totals);
      TotalsOfValid(assignments);
      r
    }

    /** `getOverallMax`: the greatest total of a valid record; `None` when no
        record is valid. */
    function GetOverallMax(): (r: Option<real>)
      reads assignments
      ensures r.None? <==> forall i :: 0 <= i < |assignments| ==> !assignments[i].IsAssignmentValid()
      ensures r.Some? ==> exists i :: 0 <= i < |assignments| && assignments[i].IsAssignmentValid() && assignments[i].CalcTotalGrade() == r.value
      ensures r.Some? ==> forall i :: 0 <= i < |assignments| && assignments[i].IsAssignmentValid() ==> assignments[i].CalcTotalGrade() <= r.value
    {
      var totals := TotalGrades(assignments);
      var r := Max(totals);
      TotalsOfValid(assignments);
      r
    }
  }

  /** The totals are exactly the totals of the valid records of the pool. */
  lemma TotalsOfValid(pool: seq<Assignment>)
    ensures forall x :: x in TotalGrades(pool) ==>
      exists i :: 0 <= i < |pool| && pool[i].IsAssignmentValid() && pool[i].CalcTotalGrade() == x
    ensures forall i :: 0 <= i < |pool| && pool[i].IsAssignmentValid() ==> pool[i].CalcTotalGrade() in TotalGrades(pool)
  {
    var totals, valid := TotalGrades(pool), ValidOnly(pool);
    forall x | x in totals
      ensures exists i :: 0 <= i < |pool| && pool[i].IsAssignmentValid() && pool[i].CalcTotalGrade() == x
    {
      var k :| 0 <= k < |totals| && totals[k] == x;
      var i :| 0 <= i < |pool| && pool[i] == valid[k];
    }
    forall i | 0 <= i < |pool| && pool[i].IsAssignmentValid()
      ensures pool[i].CalcTotalGrade() in totals
    {
      FiltersSelect(pool, i);
      var k :| 0 <= k < |valid| && valid[k] == pool[i];
      assert totals[k] == pool[i].CalcTotalGrade();
    }
  }

  // ---------------------------------------------------------------------
  // Frequency counts

  /** The `(testing, usability, quality)` key of each record, in pool order. */
  function Keys3D(pool: seq<Assignment>): (keys: seq<(real, real, real)>)
    reads pool
    ensures |keys| == |pool|
    ensures forall i :: 0 <= i < |pool| ==> keys[i] == (pool[i].testingGrade, pool[i].usabilityGrade, pool[i].qualityGrade)
  {
    seq(|pool|, i requires 0 <= i < |pool| reads pool => (pool[i].testingGrade, pool[i].usabilityGrade, pool[i].qualityGrade))
  }

  /** The `(testing, quality)` key of each record, in pool order. */
  function KeysTestQuality(pool: seq<Assignment>): (keys: seq<(real, real)>)
    reads pool
    ensures |keys| == |pool|
    ensures forall i :: 0 <= i < |pool| ==> keys[i] == (pool[i].testingGrade, pool[i].qualityGrade)
  {
    seq(|pool|, i requires 0 <= i < |pool| reads pool => (pool[i].testingGrade, pool[i].qualityGrade))
  }

  /** `grade3DCountDict`: how many records of the pool, valid or not, carry
      each `(testing, usability, quality)` triple. */
  method Grade3DCountDict(pool: seq<Assignment>) returns (grades: map<(real, real, real), nat>)
    ensures grades == Tally(Keys3D(pool))
    ensures forall i :: 0 <= i < |pool| ==> (pool[i].testingGrade, pool[i].usabilityGrade, pool[i].qualityGrade) in grades
    ensures SumValues(grades) == |pool|
  {
    ghost var keys := Keys3D(pool);
    grades := map[];
    for i := 0 to |pool|
      invariant grades == Tally(keys[..i])
    {
      var a := pool[i];
      var key := (a.testingGrade, a.usabilityGrade, a.qualityGrade);
      assert keys[i] == key;
      TallyStep(keys, i);
      grades := grades[key := Get(grades, key, 0) + 1];
    }
    assert keys[..|pool|] == keys;
    TallySum(keys);
  }

  /** `gradeTestQualityDict`: how many records of the pool, valid or not,
      carry each `(testing, quality)` pair. */
  method GradeTestQualityDict(pool: seq<Assignment>) returns (grades: map<(real, real), nat>)
    ensures grades == Tally(KeysTestQuality(pool))
    ensures forall i :: 0 <= i < |pool| ==> (pool[i].testingGrade, pool[i].qualityGrade) in grades
    ensures SumValues(grades) == |pool|
  {
    ghost var keys := KeysTestQuality(pool);
    grades := map[];
    for i := 0 to |pool|
      invariant grades == Tally(keys[..i])
    {
      var a := pool[i];
      var key := (a.testingGrade, a.qualityGrade);
      assert keys[i] == key;
      TallyStep(keys, i);
      grades := grades[key := Get(grades, key, 0) + 1];
    }
    assert keys[..|pool|] == keys;
    TallySum(keys);
  }

  // ---------------------------------------------------------------------
  // Command-line helpers

  /** `parseArgument`: the `index`-th space-separated word of the command,
      stripped, or the empty text past the last word. A negative index
      counts from the end, as Python does; `None` stands for the
      `IndexError` of a negative index before the first word. */
  function ParseArgument(userInput: string, index: int): (r: Option<string>)
    ensures var words := Split(userInput, ' ');
      && (index >= |words| ==> r == Some(""))
      && (0 <= index < |words| ==> r == Some(Strip(words[index])))
      && (-|words| <= index < 0 ==> r == Some(Strip(words[|words| + index])))
      && (r.None? <==> index < -|words|)
  {
    var words := Split(userInput, ' ');
    if |words| > index then
      if index >= 0 then Some(Strip(words[index]))
      else if -|words| <= index then Some(Strip(words[|words| + index]))
      else None
    else Some("")
  }

  /** A command made of words without spaces or surrounding white space
      gives each word back at its position, and the empty text after the
      last. */
  lemma CommandWords(words: seq<string>, index: nat)
    requires |words| > 0
    requires forall i :: 0 <= i < |words| ==> ' ' !in words[i] && Strip(words[i]) == words[i]
    ensures ParseArgument(Join(words, ' '), index) == if index < |words| then Some(words[index]) else Some("")
  {
    SplitJoin(words, ' ');
  }

  /** `dispHeadingUnderline`: a row of `=` as long as the heading. */
  function DispHeadingUnderline(line: string): (r: string)
    ensures |r| == |line|
    ensures forall i :: 0 <= i < |r| ==> r[i] == '='
  {
    seq(|line|, _ => '=')
  }
}
