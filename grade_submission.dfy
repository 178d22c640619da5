/** The grading orchestrator: totals the integer marks of the assignment's
    scheme, grades the submission (or forces 0 when there are no marks to
    earn), stores the score on the submission and files one grade report. */
module Submissions {
  import opened Outcomes
  import opened Grading

  type StudentId = nat

  /** `int(value)` for a value that `isinstance(value, int)` accepts. */
  function IntValue(w: Weight): int
    requires w.IsInt()
  {
    match w
    case IntW(n) => n
    case BoolW(b) => if b then 1 else 0
  }

  /** The total marks of a scheme: the sum of its integer-typed weights;
      floats and non-numbers are skipped. An empty scheme has no marks, and
      a scheme whose int weights are non-negative has non-negative marks. */
  function TotalMarks(scheme: MarkingScheme): (r: int)
    ensures scheme == [] ==> r == 0
    ensures (forall i :: 0 <= i < |scheme| && scheme[i].weight.IntW? ==> scheme[i].weight.n >= 0) ==> r >= 0
  {
    if scheme == [] then 0
    else
      var w := scheme[|scheme| - 1].weight;
      TotalMarks(scheme[..|scheme| - 1]) + (if w.IsInt() then IntValue(w) else 0)
  }

  /** The grade percentage: the score out of the total marks, scaled to 100,
      and 0 when there are no marks. A score between 0 and positive total
      marks gives a percentage in [0, 100]. */
  function Percentage(score: real, totalMarks: int): (r: real)
    ensures totalMarks == 0 ==> r == 0.0
    ensures 0 < totalMarks && 0.0 <= score <= totalMarks as real ==> 0.0 <= r <= 100.0
  {
    if totalMarks != 0 then
      var t := totalMarks as real;
      assert score / t * t == score;
      score / t * 100.0
    else 0.0
  }

  /** The score that grading a submission records: the keyword score against
      the assignment's scheme, or 0 without consulting the scoring function
      when the scheme carries no integer marks. It never raises
      AttributeError. */
  function SubmissionScore(content: string, scheme: MarkingScheme): (r: Outcome<real>)
    ensures r.Raised? ==> r == Raised(TypeError)
    ensures TotalMarks(scheme) == 0 ==> r == Ok(0.0)
  {
    if TotalMarks(scheme) != 0 then Score(content, scheme) else Ok(0.0)
  }

  /** The same score as `grade_submission` in polls/views.py computes it:
      `grader` is handed the marking-scheme dict instead of the assignment. */
  function SubmissionScoreAsWritten(content: string, scheme: MarkingScheme): Outcome<real>
  {
    if TotalMarks(scheme) != 0 then GraderOutcome(content, DictArg(scheme)) else Ok(0.0)
  }

  /** A persisted grade: student, assignment and the raw score. */
  datatype GradeReport = GradeReport(student: StudentId, assignment: AssignmentId, grade: real)

  /** A submission record; its score is unset until it is graded. */
  class Submission {
    const student: StudentId
    const assignment: AssignmentId
    var score: Option<real>

    constructor (student: StudentId, assignment: AssignmentId)
      ensures this.student == student && this.assignment == assignment
      ensures score == None
    {
      this.student := student;
      this.assignment := assignment;
      score := None;
    }
  }

  /** The grade reports held by the record store, in creation order. */
  class ReportStore {
    var reports: seq<GradeReport>

    constructor ()
      ensures reports == []
    {
      reports := [];
    }

    /** Creates and saves one report; no uniqueness is enforced. */
    method Create(report: GradeReport)
      modifies this
      ensures reports == old(reports) + [report]
    {
      reports := reports + [report];
    }
  }

  /** Grades a submission: stores the score on it and files one report with
      the raw score. `grade_submission` in polls/views.py computes the
      percentage, discards it and returns None; here the percentage is
      returned so that its bounds can be stated. When the scoring function raises, the exception propagates before
      anything is written. */
  method GradeSubmission(content: string, submission: Submission, student: StudentId,
                         assignment: Assignment, store: ReportStore)
    returns (percentage: Outcome<real>)
    modifies submission, store
    ensures match SubmissionScore(content, assignment.scheme)
            case Ok(s) =>
              && submission.score == Some(s)
              && store.reports == old(store.reports) + [GradeReport(student, assignment.id, s)]
              && percentage == Ok(Percentage(s, TotalMarks(assignment.scheme)))
            case Raised(e) =>
              && percentage == Raised(e)
              && submission.score == old(submission.score)
              && store.reports == old(store.reports)
    ensures TotalMarks(assignment.scheme) == 0 ==>
              submission.score == Some(0.0) && percentage == Ok(0.0)
  {
    var totalMarks := TotalMarks(assignment.scheme);
    var score := 0.0;
    if totalMarks != 0 {
      var graded := Grader(content, AssignmentArg(assignment));
      if graded.Raised? {
        return Raised(graded.error);
      }
      score := graded.value;
    }
    var gradePercentage := Percentage(score, totalMarks);
    submission.score := Some(score);
    store.Create(GradeReport(student, assignment.id, score));
    percentage := Ok(gradePercentage);
  }

  /** Grading the same submission twice files two identical reports: nothing
      de-duplicates them. */
  method GradeTwice(content: string, submission: Submission, student: StudentId,
                    assignment: Assignment, store: ReportStore)
    modifies submission, store
    ensures SubmissionScore(content, assignment.scheme).Ok? ==>
              var r := GradeReport(student, assignment.id, SubmissionScore(content, assignment.scheme).value);
              store.reports == old(store.reports) + [r, r]
  {
    var first := GradeSubmission(content, submission, student, assignment, store);
    var second := GradeSubmission(content, submission, student, assignment, store);
  }

  /** A scheme without integer-typed weights carries no marks, so every
      submission scores 0 without the scoring function being consulted, even when its
      keywords occur. */
  lemma {:induction false} NoIntegerWeightsNoMarks(content: string, scheme: MarkingScheme)
    requires forall i :: 0 <= i < |scheme| ==> !scheme[i].weight.IsInt()
    ensures TotalMarks(scheme) == 0
    ensures SubmissionScore(content, scheme) == Ok(0.0)
    ensures Percentage(SubmissionScore(content, scheme).value, TotalMarks(scheme)) == 0.0
  {
    if scheme != [] {
      NoIntegerWeightsNoMarks(content, scheme[..|scheme| - 1]);
    }
  }

  /** With non-negative integer weights and only integer weights among the
      keywords that occur, the score lies between 0 and the total marks. */
  lemma {:induction false} ScoreWithinMarks(content: string, scheme: MarkingScheme)
    requires forall i :: 0 <= i < |scheme| && scheme[i].weight.IntW? ==> scheme[i].weight.n >= 0
    requires forall i :: 0 <= i < |scheme| && Occurs(scheme[i].keyword, content) ==> scheme[i].weight.IsInt()
    ensures Score(content, scheme).Ok?
    ensures 0.0 <= Score(content, scheme).value <= TotalMarks(scheme) as real
  {
    if scheme != [] {
      var s' := scheme[..|scheme| - 1];
      var e := scheme[|scheme| - 1];
      ScoreWithinMarks(content, s');
      ScoreOfInsertion(content, s', e, []);
      assert s' + [e] + [] == scheme;
      assert s' + [] == s';
    }
  }

  /** Under the same conditions and with marks to earn, the recorded score
      is the keyword score and the percentage lies in [0, 100]. */
  lemma {:induction false} PercentageWithinRange(content: string, scheme: MarkingScheme)
    requires TotalMarks(scheme) > 0
    requires forall i :: 0 <= i < |scheme| && scheme[i].weight.IntW? ==> scheme[i].weight.n >= 0
    requires forall i :: 0 <= i < |scheme| && Occurs(scheme[i].keyword, content) ==> scheme[i].weight.IsInt()
    ensures SubmissionScore(content, scheme) == Score(content, scheme)
    ensures SubmissionScore(content, scheme).Ok?
    ensures 0.0 <= Percentage(SubmissionScore(content, scheme).value, TotalMarks(scheme)) <= 100.0
  {
    ScoreWithinMarks(content, scheme);
  }

  /** A float weight is summed into the score but not into the total marks,
      so the percentage can exceed 100: {"a": 1, "b": 1.0} gives 200 on any
      content holding both keywords, in either order. */
  lemma FloatWeightExceedsFullMarks(content: string)
    requires Occurs("a", content) && Occurs("b", content)
    ensures var scheme := [Criterion("a", IntW(1)), Criterion("b", FloatW(1.0))];
            && TotalMarks(scheme) == 1
            && SubmissionScore(content, scheme) == Ok(2.0)
            && Percentage(2.0, TotalMarks(scheme)) == 200.0
  {
    var a, b := Criterion("a", IntW(1)), Criterion("b", FloatW(1.0));
    var scheme := [a, b];
    assert scheme == [] + [a] + [b];
    assert [] + [a] == [a];
    assert scheme[..1] == [a];
    assert [a][..0] == [];
    assert TotalMarks([a]) == 1;
    assert TotalMarks(scheme) == 1;
    MatchedSnoc(content, [], a);
    MatchedSnoc(content, [a], b);
    SumSnoc([], IntW(1));
    SumSnoc([IntW(1)], FloatW(1.0));
    assert [] + [IntW(1)] == [IntW(1)];
  }

  /** The total marks of {"x": 10} are 10; on empty content the keyword does
      not occur, so the score and the percentage are 0. */
  lemma UnmatchedKeywordScenario()
    ensures TotalMarks([Criterion("x", IntW(10))]) == 10
    ensures SubmissionScore("", [Criterion("x", IntW(10))]) == Ok(0.0)
    ensures Percentage(0.0, 10) == 0.0
  {
  }

  /** As written, every scheme with marks makes grading raise; on
      {"x": 10} and content holding "x" the intended score is 10. */
  lemma AsWrittenLosesEveryScore(content: string, scheme: MarkingScheme, before: string, after: string)
    requires TotalMarks(scheme) != 0
    ensures SubmissionScoreAsWritten(content, scheme) == Raised(AttributeError)
    ensures SubmissionScore(content, scheme) != Raised(AttributeError)
    ensures SubmissionScoreAsWritten(before + "x" + after, [Criterion("x", IntW(10))]) == Raised(AttributeError)
    ensures SubmissionScore(before + "x" + after, [Criterion("x", IntW(10))]) == Ok(10.0)
  {
    var c := Criterion("x", IntW(10));
    var x := before + "x" + after;
    assert x[|before|..|before| + 1] == "x";
    assert OccursAt("x", x, |before|);
    assert [c] == [] + [c];
    assert [c][..0] == [];
    MatchedSnoc(x, [], c);
    SumSnoc([], IntW(10));
  }
}
