# Assignment grader: the keyword-weighted grading core

This project models the grading core of a course-assignment web application
(`polls/views.py`). A lecturer attaches a marking scheme to an assignment:
a JSON object mapping keywords to weights. When a student submits work:

- the scoring function (`grader`) adds up the weights of the keywords that occur in
  the submitted text as literal, case-sensitive substrings;
- the orchestrator (`grade_submission`) totals the integer-typed weights of
  the scheme (the "total marks"). When they total 0 it forces the score to 0.
  It also computes a percentage, which it never stores. It writes the score
  onto the submission and files one grade report carrying the raw score;
- `calculate_lecturer_grade` averages the grades of an assignment's reports,
  and gives 0 when there are none.

Files:

- `outcomes.dfy` (module `Outcomes`): `Option`, the Python exceptions that
  matter here (`TypeError`, `AttributeError`), and `Outcome`, a value or a
  raised exception.
- `grader.dfy` (module `Grading`):
  - the weight values and the marking scheme;
  - the substring test `Occurs`;
  - what `grader` is handed (`GraderArgument`: an assignment or a dict) and
    the attribute read of `.marking_scheme` on it;
  - the specification functions `Score` and `GraderOutcome`;
  - the imperative `Grader` loop, proved equal to `GraderOutcome`;
  - the lemmas about the score.
- `grade_submission.dfy` (module `Submissions`):
  - `TotalMarks`, `Percentage` and the zero guard (`SubmissionScore`);
  - the `Submission` and `ReportStore` records;
  - the `GradeSubmission` orchestrator and its lemmas;
  - the defect at line 138 (see Findings).
- `lecturer_grade.dfy` (module `LecturerGrades`): the average grade and its
  bounds.

Weights are modelled as the JSON values Python sees:

- `IntW`: an int.
- `BoolW`: a bool. `isinstance(True, int)` holds in Python, so a bool counts
  towards the total marks and adds 0 or 1 to the score.
- `FloatW`: a float, modelled as an exact real.
- `OtherW`: a string, null, list or object. Adding one to the score raises
  `TypeError`.

The scheme is the dict's entries in iteration order. Scores are reals, so
that float weights fit.

## Model

| member | source | states |
|---|---|---|
| `Grading.Occurs` | polls/views.py:127 | Defines `criterion in content` as a literal, case-sensitive substring test. The empty keyword always occurs, the content contains itself, and a keyword longer than the content never occurs. |
| `Grading.Score` | polls/views.py:124-129 | Defines the score of a scheme: the sum of the weights of the keywords occurring in the content, or TypeError when one of those weights is not a number. It raises nothing else, and an empty scheme scores 0. |
| `Grading.GraderOutcome` | polls/views.py:122-129 | Defines what `grader` returns for its argument. For an assignment it is the score of its scheme. For a dict, reading `.marking_scheme` raises AttributeError before any entry is read. |
| `Grading.Grader` | polls/views.py:122-129 | The method reads the argument's marking scheme, then loops over it. It returns exactly `GraderOutcome`: the score of an assignment's scheme, or AttributeError for a dict. |
| `Grading.ScoreOfInsertion` | polls/views.py:125-128 | Wherever an entry stands in the scheme: a keyword that does not occur contributes nothing; one that occurs adds its weight; one that occurs with a non-number weight makes the scoring function raise. |
| `Grading.ScoreOrderIndependent` | polls/views.py:125-128 | Any two orderings of the same entries (equal multisets) give the same score. |
| `Grading.ScoreRaisesIff` | polls/views.py:127-128 | The scoring function raises if and only if some keyword that occurs carries a weight that is not a number. |
| `Grading.NoMatchScoresZero` | polls/views.py:124-129 | When no keyword occurs in the content (in particular for an empty scheme), nothing is matched and the score is 0. |
| `Grading.ScoreBounds` | polls/views.py:124-129 | Suppose all weights are non-negative numbers. Then the scoring function does not raise, and the score lies between 0 and the sum of all weights. It equals that sum when every keyword occurs. |
| `Grading.EmptyKeywordAlwaysMatches` | polls/views.py:127-128 | The empty keyword occurs in every content, so its weight is always added. |
| `Grading.TwoKeywordsScenario` | polls/views.py:122-129 | The scheme {"recursion": 5, "pointer": 3} scores 8 on any content that holds both keywords, in either order. |
| `Submissions.TotalMarks` | polls/views.py:136 | Defines the total marks: the sum of the weights that are ints or bools. Floats and non-numbers are skipped. An empty scheme has 0 marks, and non-negative int weights give non-negative marks. |
| `Submissions.Percentage` | polls/views.py:139 | Defines the percentage: score / total × 100, or 0 when the total is 0. When 0 ≤ score ≤ total and the total is positive, it lies in [0, 100]. |
| `Submissions.SubmissionScore` | polls/views.py:136-138 | Defines the score that grading records: the scoring function's result on the assignment's scheme, or 0 without calling it when the total marks are 0. It raises TypeError at most, never AttributeError. |
| `Submissions.GradeSubmission` | polls/views.py:134-150 | When the score (keyword score, or 0 when the total marks are 0) is computed, the submission's score becomes that score. Exactly one report (student, assignment, score) is appended and earlier reports are untouched. When the scoring function raises, nothing is written. `grade_submission` computes the percentage, discards it and returns None. The method returns the percentage (score/total×100, or 0 when the total is 0) only so that its value can be stated. |
| `Submissions.ReportStore.Create` | polls/views.py:144-150 | Creating a report appends it to the store's reports and changes nothing else. |
| `Submissions.GradeTwice` | polls/views.py:141-150 | Grading the same submission twice files two identical reports. Nothing de-duplicates them. |
| `Submissions.NoIntegerWeightsNoMarks` | polls/views.py:136-139 | A scheme without int or bool weights (an empty one among them) has total marks 0. Its score is then 0 and its percentage 0, whatever the content, even when keywords occur. |
| `Submissions.ScoreWithinMarks` | polls/views.py:122-136 | Suppose int weights are non-negative and every matched weight is an int or a bool. Then the scoring function does not raise and 0 ≤ score ≤ total marks. |
| `Submissions.PercentageWithinRange` | polls/views.py:136-139 | Under the same conditions, with total marks > 0, the recorded score is the keyword score and the percentage lies in [0, 100]. |
| `Submissions.FloatWeightExceedsFullMarks` | polls/views.py:136-139 | A float weight enters the score but not the total marks. {"a": 1, "b": 1.0} gives total 1, score 2 and percentage 200 on any content holding both keywords, in either order. |
| `Submissions.UnmatchedKeywordScenario` | polls/views.py:136-139 | For {"x": 10} and empty content, the total marks are 10, and the score and the percentage are 0. |
| `Submissions.AsWrittenLosesEveryScore` | polls/views.py:122-138 | As written, `grader` is handed the dict, so every scheme with non-zero total marks raises AttributeError, which the intended score never raises. For {"x": 10} and content holding "x", the as-written code raises where the intended score is 10. |
| `LecturerGrades.LecturerGrade` | polls/views.py:206-219 | Defines the average grade of the assignment's reports, or 0 when it has none. With reports, the average times their count equals the sum of their grades. |
| `LecturerGrades.LecturerGradeWithinGrades` | polls/views.py:206-219 | The average is 0 for an assignment without reports. Otherwise some grade is ≤ the average and some grade is ≥ it, so the average lies between the minimum and the maximum grade. |
| `LecturerGrades.NewReportEntersAverage` | polls/views.py:206-219 | A new report leaves the average of other assignments unchanged. For its own assignment, its grade is added to the total and one to the count. |
| `LecturerGrades.ThreeReportsScenario` | polls/views.py:206-219 | Reports with grades 80, 60 and 100 average to 80. |
| `LecturerGrades.ThreeReportsAverage` | polls/views.py:206-219 | Any three reports of one assignment with grades 80, 60 and 100, whatever their students, average to 80. |

## Findings

| source | as written | input that shows it | evidently intended | confidence | as-written member | corrected member |
|---|---|---|---|---|---|---|
| polls/views.py:138 | `grader(content, marking_scheme)` hands `grader` the dict, which then reads `.marking_scheme` from it (line 123), which raises AttributeError whenever the total marks are non-zero. | scheme {"x": 10}, content "x" | grade against the assignment's scheme: score 10 | high; not executed | `Submissions.SubmissionScoreAsWritten` (calls `Grading.GraderOutcome` with a `DictArg`), shown by `Submissions.AsWrittenLosesEveryScore` | `Submissions.GradeSubmission` (calls `Grading.Grader` with an `AssignmentArg`), with `Submissions.PercentageWithinRange` |

The rest of the model uses the corrected call.

## Left out

- Registration, login, dashboards, listing and detail views (polls/views.py:12-121, 180-204): session plumbing, ORM queries and template rendering with no logic of their own.
- `create_assignment` and `submit_work` (polls/views.py:63-98, 153-178): form validation, file upload, redirects and flash messages. `submit_work` calls `grade_submission` once per valid submission, which is one call of `Submissions.GradeSubmission`.
- The return value: `grade_submission` returns None; `Submissions.GradeSubmission` returns the discarded percentage instead.
- The `@login_required` decorator on `grade_submission`: an authentication check that passes whenever `submit_work` calls it.
- Django ORM persistence (`save`, `objects.create`, `filter`, `exists`, `count`). The store is an in-memory sequence of reports, and `submission.save()` is the field write. Database failures and transactions are not modelled.
- A `None` content from `request.POST.get` (line 160): content is always a string here.
- Which Python type the score has (int or float) and how the database columns store it: scores and grades are reals.
- Grading.ScoreOrderIndependent: proved for exact sums. With float weights, Python's rounding can make the order of addition change the last bits of the score.
- Submissions.PercentageWithinRange: the percentage is an exact real. Python's float division and multiplication by 100 are not modelled.
- The type of the stored marking scheme: the whole model (`Grading.Score`, `Grading.Grader`, `Submissions.TotalMarks`, the finding) assumes the field holds a dict (a JSON object). A JSON string or list there would make `marking_scheme.values()` at polls/views.py:136 raise AttributeError on every call. polls/models.py, which declares the field, is not part of this model.
- Keys of the scheme: a dict has distinct keys. The model does not impose this, because no property needs it.
- Strings, nulls, lists and nested objects used as weights are one case (`OtherW`): each makes `score += weight` raise TypeError and is skipped by the total.
