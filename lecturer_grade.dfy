/** The lecturer's view of an assignment: the average grade over the grade
    reports filed for it. */
module LecturerGrades {
  import opened Grading
  import opened Submissions

  /** The grades of the reports filed for the assignment, in store order. */
  function GradesFor(reports: seq<GradeReport>, assignment: AssignmentId): seq<real>
  {
    if reports == [] then []
    else
      var r := reports[|reports| - 1];
      GradesFor(reports[..|reports| - 1], assignment)
        + (if r.assignment == assignment then [r.grade] else [])
  }

  /** Python's `sum` over a sequence of grades. */
  function Total(grades: seq<real>): real
  {
    if grades == [] then 0.0 else Total(grades[..|grades| - 1]) + grades[|grades| - 1]
  }

  /** The average grade of the assignment's reports, or 0 when it has none:
      with reports, the average times their count is their total. */
  function LecturerGrade(reports: seq<GradeReport>, assignment: AssignmentId): (r: real)
    ensures GradesFor(reports, assignment) == [] ==> r == 0.0
    ensures GradesFor(reports, assignment) != [] ==>
              r * (|GradesFor(reports, assignment)| as real) == Total(GradesFor(reports, assignment))
  {
    var grades := GradesFor(reports, assignment);
    if |grades| > 0 then
      var n := |grades| as real;
      assert Total(grades) / n * n == Total(grades);
      Total(grades) / n
    else 0.0
  }

  /** Some grade is at most the mean, stated without division: the index of
      a grade whose multiple by the count stays within the total. */
  lemma {:induction false} SomeGradeAtMostMean(grades: seq<real>) returns (lo: nat)
    requires |grades| > 0
    ensures lo < |grades| && grades[lo] * (|grades| as real) <= Total(grades)
  {
    var n := |grades| - 1;
    var init, x := grades[..n], grades[n];
    assert Total(grades) == Total(init) + x;
    if n == 0 {
      assert init == [];
      return 0;
    }
    var lo' := SomeGradeAtMostMean(init);
    var m := n as real;
    assert init[lo'] == grades[lo'];
    assert grades[lo'] * m <= Total(init);
    assert (|grades| as real) == m + 1.0;
    if x <= grades[lo'] {
      MultiplyMonotone(x, grades[lo'], m);
      assert x * (m + 1.0) == x * m + x;
      lo := n;
    } else {
      assert grades[lo'] * (m + 1.0) == grades[lo'] * m + grades[lo'];
      lo := lo';
    }
  }

  /** Some grade is at least the mean, stated without division. */
  lemma {:induction false} SomeGradeAtLeastMean(grades: seq<real>) returns (hi: nat)
    requires |grades| > 0
    ensures hi < |grades| && Total(grades) <= grades[hi] * (|grades| as real)
  {
    var n := |grades| - 1;
    var init, x := grades[..n], grades[n];
    assert Total(grades) == Total(init) + x;
    if n == 0 {
      assert init == [];
      return 0;
    }
    var hi' := SomeGradeAtLeastMean(init);
    var m := n as real;
    assert init[hi'] == grades[hi'];
    assert Total(init) <= grades[hi'] * m;
    assert (|grades| as real) == m + 1.0;
    if grades[hi'] <= x {
      MultiplyMonotone(grades[hi'], x, m);
      assert x * (m + 1.0) == x * m + x;
      hi := n;
    } else {
      assert grades[hi'] * (m + 1.0) == grades[hi'] * m + grades[hi'];
      hi := hi';
    }
  }

  lemma MultiplyMonotone(x: real, y: real, m: real)
    requires x <= y && 0.0 <= m
    ensures x * m <= y * m
  {
  }

  lemma BelowMean(a: real, total: real, n: real)
    requires n > 0.0 && a * n <= total
    ensures a <= total / n
  {
  }

  lemma AboveMean(a: real, total: real, n: real)
    requires n > 0.0 && total <= a * n
    ensures total / n <= a
  {
  }

  /** The average is 0 for an assignment without reports; otherwise it lies
      between the lowest and the highest of its grades. */
  lemma LecturerGradeWithinGrades(reports: seq<GradeReport>, assignment: AssignmentId)
    ensures GradesFor(reports, assignment) == [] ==> LecturerGrade(reports, assignment) == 0.0
    ensures GradesFor(reports, assignment) != [] ==>
              exists i :: 0 <= i < |GradesFor(reports, assignment)|
                && GradesFor(reports, assignment)[i] <= LecturerGrade(reports, assignment)
    ensures GradesFor(reports, assignment) != [] ==>
              exists j :: 0 <= j < |GradesFor(reports, assignment)|
                && LecturerGrade(reports, assignment) <= GradesFor(reports, assignment)[j]
  {
    var grades := GradesFor(reports, assignment);
    if grades != [] {
      var lo := SomeGradeAtMostMean(grades);
      var hi := SomeGradeAtLeastMean(grades);
      var n := |grades| as real;
      BelowMean(grades[lo], Total(grades), n);
      AboveMean(grades[hi], Total(grades), n);
    }
  }

  /** Filing a report changes the average of its own assignment only, by
      adding its grade to the total and one to the count. */
  lemma NewReportEntersAverage(reports: seq<GradeReport>, r: GradeReport, assignment: AssignmentId)
    ensures r.assignment != assignment ==>
              LecturerGrade(reports + [r], assignment) == LecturerGrade(reports, assignment)
    ensures r.assignment == assignment ==>
              LecturerGrade(reports + [r], assignment) ==
                (Total(GradesFor(reports, assignment)) + r.grade) / ((|GradesFor(reports, assignment)| + 1) as real)
  {
    GradesForSnoc(reports, r, assignment);
    var grades := GradesFor(reports, assignment);
    if r.assignment == assignment {
      TotalSnoc(grades, r.grade);
    } else {
      assert grades + [] == grades;
    }
  }

  lemma GradesForSnoc(reports: seq<GradeReport>, r: GradeReport, assignment: AssignmentId)
    ensures GradesFor(reports + [r], assignment) ==
              GradesFor(reports, assignment) + (if r.assignment == assignment then [r.grade] else [])
  {
  }

  lemma TotalSnoc(grades: seq<real>, g: real)
    ensures Total(grades + [g]) == Total(grades) + g
  {
  }

  /** The worked example: grades 80, 60 and 100 average to 80. */
  lemma ThreeReportsScenario(s1: StudentId, s2: StudentId, s3: StudentId, assignment: AssignmentId)
    ensures LecturerGrade([GradeReport(s1, assignment, 80.0), GradeReport(s2, assignment, 60.0),
                           GradeReport(s3, assignment, 100.0)], assignment) == 80.0
  {
    var rs := [GradeReport(s1, assignment, 80.0), GradeReport(s2, assignment, 60.0),
               GradeReport(s3, assignment, 100.0)];
    ThreeReportsAverage(rs, assignment);
  }

  /** Any three reports of one assignment, with grades 80, 60 and 100,
      average to 80. */
  lemma ThreeReportsAverage(rs: seq<GradeReport>, assignment: AssignmentId)
    requires |rs| == 3
    requires forall i :: 0 <= i < 3 ==> rs[i].assignment == assignment
    requires rs[0].grade == 80.0 && rs[1].grade == 60.0 && rs[2].grade == 100.0
    ensures LecturerGrade(rs, assignment) == 80.0
  {
    ThreeReportsGrades(rs, assignment);
    var grades := GradesFor(rs, assignment);
    TotalSnoc([], 80.0);
    TotalSnoc([80.0], 60.0);
    TotalSnoc([80.0, 60.0], 100.0);
    assert [] + [80.0] == [80.0];
    assert [80.0] + [60.0] == [80.0, 60.0];
    assert [80.0, 60.0] + [100.0] == grades;
    assert Total(grades) == 240.0;
  }

  lemma ThreeReportsGrades(rs: seq<GradeReport>, assignment: AssignmentId)
    requires |rs| == 3
    requires forall i :: 0 <= i < 3 ==> rs[i].assignment == assignment
    ensures GradesFor(rs, assignment) == [rs[0].grade, rs[1].grade, rs[2].grade]
  {
    var p1, p2 := rs[..1], rs[..2];
    GradesForSnoc([], rs[0], assignment);
    assert [] + [rs[0]] == p1;
    GradesForSnoc(p1, rs[1], assignment);
    assert p1 + [rs[1]] == p2;
    GradesForSnoc(p2, rs[2], assignment);
    assert p2 + [rs[2]] == rs;
  }
}
