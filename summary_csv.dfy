/** The CSV reports of a marked task: a summary row per student and a
    detailed row per module score. Rows are dictionaries from column names
    to cells, kept in the order the columns are added; the date is a
    parameter. */
module SummaryCsv {
  import opened Wrappers
  import opened Text
  import Dict
  import opened Json
  import opened ExcelSummaries

  // ---------------------------------------------------------------------
  // Column groups

  /** `{prefix + k: v for k, v in d.items()}`. */
  function Prefixed(prefix: string, d: Dict.Dict<Json>): (r: Dict.Dict<Json>)
    ensures |r| == |d| && forall i :: 0 <= i < |d| ==> r[i] == (prefix + d[i].0, d[i].1)
  {
    seq(|d|, i requires 0 <= i < |d| => (prefix + d[i].0, d[i].1))
  }

  /** A prefixed column holds the value of the column it was made from. */
  lemma {:induction false} GetPrefixed(prefix: string, d: Dict.Dict<Json>, k: string)
    ensures Dict.Get(Prefixed(prefix, d), prefix + k) == Dict.Get(d, k)
  {
    if |d| > 0 {
      var r := Prefixed(prefix, d);
      assert r[1..] == Prefixed(prefix, d[1..]);
      assert prefix + d[0].0 == prefix + k <==> d[0].0 == k by {
        if prefix + d[0].0 == prefix + k {
          assert d[0].0 == (prefix + d[0].0)[|prefix|..];
          assert k == (prefix + k)[|prefix|..];
        }
      }
      GetPrefixed(prefix, d[1..], k);
    }
  }

  /** The columns of `calculate_test_summary`. */
  function TestFields(t: TestSummary): (r: Dict.Dict<Json>)
    ensures Dict.Keys(r) == ["total_tests", "passed_tests", "failed_tests", "test_pass_rate", "test_score"]
  {
    [("total_tests", Num(t.total as real)),
     ("passed_tests", Num(t.passed as real)),
     ("failed_tests", Num(t.failed as real)),
     ("test_pass_rate", Num(t.passRate)),
     ("test_score", Num(t.passRate))]
  }

  /** `calculate_quality_summary`: four metrics of the quality results,
      each zero when missing, and all zero when there are no results. */
  function QualityFields(q: Json): (r: Dict.Dict<Json>)
    ensures Dict.Keys(r) == ["code_quality_score", "complexity_score", "documentation_score", "style_issues"]
    ensures !Truthy(q) ==> forall i :: 0 <= i < |r| ==> r[i].1 == Num(0.0)
    ensures Truthy(q) ==> r[0].1 == FieldOr(q, "overall_score", Num(0.0)) && r[3].1 == FieldOr(q, "style_issues_count", Num(0.0))
  {
    if !Truthy(q) then
      [("code_quality_score", Num(0.0)), ("complexity_score", Num(0.0)),
       ("documentation_score", Num(0.0)), ("style_issues", Num(0.0))]
    else
      [("code_quality_score", FieldOr(q, "overall_score", Num(0.0))),
       ("complexity_score", FieldOr(q, "complexity_score", Num(0.0))),
       ("documentation_score", FieldOr(q, "documentation_score", Num(0.0))),
       ("style_issues", FieldOr(q, "style_issues_count", Num(0.0)))]
  }

  /** A name as a cell: `None` is an empty cell. */
  function NameCell(name: Option<string>): Json
  {
    if name.Some? then Str(name.value) else Null
  }

  /** The columns before the test summary. */
  function StudentColumns(taskName: string, date: string, d: StudentData, feedback: Option<FeedbackInfo>): Dict.Dict<Json>
  {
    [("student_id", Str(d.studentId)),
     ("student_name", NameCell(RowName(d, feedback))),
     ("task_name", Str(taskName)),
     ("submission_date", Str(date)),
     ("total_score", Num(d.totalScore.GetOr(0.0))),
     ("max_total_score", Num(d.maxTotalScore.GetOr(0.0))),
     ("percentage_score", Num(d.percentage.GetOr(0.0))),
     ("module_count", Num(|d.moduleScores| as real)),
     ("extraction_errors", Num(|d.extractionErrors| as real))]
  }

  /** The columns after the quality summary. */
  function FeedbackColumns(feedback: Option<FeedbackInfo>): Dict.Dict<Json>
  {
    [("has_feedback", Bool(feedback.Some?)),
     ("feedback_length", Num(if feedback.Some? then |feedback.value.content| as real else 0.0)),
     ("feedback_file", Str(if feedback.Some? then feedback.value.file else ""))]
  }

  /** The summary row of a student; test results, quality results and
      feedback are looked up by the student's id, a missing one counting as
      empty. */
  function SummaryRow(taskName: string, date: string, d: StudentData, tests: Dict.Dict<Json>,
                      quality: Dict.Dict<Json>, feedback: Dict.Dict<FeedbackInfo>): Dict.Dict<Json>
  {
    var info := Dict.Get(feedback, d.studentId);
    StudentColumns(taskName, date, d, info) +
    Prefixed("test_", TestFields(TestSummaryOf(Dict.Get(tests, d.studentId).GetOr(Obj([]))))) +
    Prefixed("quality_", QualityFields(Dict.Get(quality, d.studentId).GetOr(Obj([])))) +
    FeedbackColumns(info)
  }

  /** The column names of the student part of a summary row. */
  lemma StudentColumnsKeys(taskName: string, date: string, d: StudentData, feedback: Option<FeedbackInfo>)
    ensures Dict.Keys(StudentColumns(taskName, date, d, feedback)) ==
      ["student_id", "student_name", "task_name", "submission_date", "total_score",
       "max_total_score", "percentage_score", "module_count", "extraction_errors"]
  {
  }

  /** `b` differs from every text starting with `p`. */
  lemma DiffersAt(b: string, p: string, k: string, i: nat)
    requires i < |p| && i < |b| && b[i] != p[i]
    ensures b != p + k
  {
    assert (p + k)[i] == p[i];
  }

  lemma NoTestColumnBefore(cols: Dict.Dict<Json>, k: string)
    requires Dict.Keys(cols) == ["student_id", "student_name", "task_name", "submission_date", "total_score",
                                 "max_total_score", "percentage_score", "module_count", "extraction_errors"]
    ensures !Dict.HasKey(cols, "test_" + k)
  {
    forall i | 0 <= i < |cols| ensures cols[i].0 != "test_" + k {
      assert cols[i].0 == Dict.Keys(cols)[i];
      if i == 2 || i == 4 {
        DiffersAt(cols[i].0, "test_", k, 1);
      } else {
        DiffersAt(cols[i].0, "test_", k, 0);
      }
    }
  }

  lemma NoQualityColumnBefore(cols: Dict.Dict<Json>, t: Dict.Dict<Json>, k: string)
    requires Dict.Keys(cols) == ["student_id", "student_name", "task_name", "submission_date", "total_score",
                                 "max_total_score", "percentage_score", "module_count", "extraction_errors"]
    ensures !Dict.HasKey(cols + Prefixed("test_", t), "quality_" + k)
  {
    var all := cols + Prefixed("test_", t);
    forall i | 0 <= i < |all| ensures all[i].0 != "quality_" + k {
      if i < |cols| {
        assert all[i].0 == Dict.Keys(cols)[i];
      } else {
        assert all[i].0 == "test_" + t[i - |cols|].0;
      }
      DiffersAt(all[i].0, "quality_", k, 0);
    }
  }

  /** No feedback column and no `quality_` column starts with `test_`. */
  lemma NoTestColumnAfter(q: Dict.Dict<Json>, info: Option<FeedbackInfo>, k: string)
    ensures !Dict.HasKey(Prefixed("quality_", q) + FeedbackColumns(info), "test_" + k)
  {
    var qp := Prefixed("quality_", q);
    var after := qp + FeedbackColumns(info);
    forall i | 0 <= i < |after| ensures after[i].0 != "test_" + k {
      if i < |qp| {
        assert after[i].0 == "quality_" + q[i].0;
      }
      DiffersAt(after[i].0, "test_", k, 0);
    }
  }

  /** The summary row's `test_` columns are the test summary's columns. */
  lemma SummaryRowTestColumns(taskName: string, date: string, d: StudentData, tests: Dict.Dict<Json>,
                              quality: Dict.Dict<Json>, feedback: Dict.Dict<FeedbackInfo>, k: string)
    ensures Dict.Get(SummaryRow(taskName, date, d, tests, quality, feedback), "test_" + k) ==
      Dict.Get(TestFields(TestSummaryOf(Dict.Get(tests, d.studentId).GetOr(Obj([])))), k)
  {
    var info := Dict.Get(feedback, d.studentId);
    var cols := StudentColumns(taskName, date, d, info);
    var t := TestFields(TestSummaryOf(Dict.Get(tests, d.studentId).GetOr(Obj([]))));
    var q := QualityFields(Dict.Get(quality, d.studentId).GetOr(Obj([])));
    var after := Prefixed("quality_", q) + FeedbackColumns(info);
    assert SummaryRow(taskName, date, d, tests, quality, feedback) == cols + Prefixed("test_", t) + after;
    StudentColumnsKeys(taskName, date, d, info);
    NoTestColumnBefore(cols, k);
    NoTestColumnAfter(q, info, k);
    Dict.GetMiddle(cols, Prefixed("test_", t), after, "test_" + k);
    GetPrefixed("test_", t, k);
  }

  /** No feedback column starts with `quality_`. */
  lemma NoQualityColumnAfter(info: Option<FeedbackInfo>, k: string)
    ensures !Dict.HasKey(FeedbackColumns(info), "quality_" + k)
  {
    var f := FeedbackColumns(info);
    forall i | 0 <= i < |f| ensures f[i].0 != "quality_" + k {
      DiffersAt(f[i].0, "quality_", k, 0);
    }
  }

  /** The summary row's `quality_` columns are the quality summary's
      columns. */
  lemma SummaryRowQualityColumns(taskName: string, date: string, d: StudentData, tests: Dict.Dict<Json>,
                                 quality: Dict.Dict<Json>, feedback: Dict.Dict<FeedbackInfo>, k: string)
    ensures Dict.Get(SummaryRow(taskName, date, d, tests, quality, feedback), "quality_" + k) ==
      Dict.Get(QualityFields(Dict.Get(quality, d.studentId).GetOr(Obj([]))), k)
  {
    var info := Dict.Get(feedback, d.studentId);
    var cols := StudentColumns(taskName, date, d, info);
    var t := TestFields(TestSummaryOf(Dict.Get(tests, d.studentId).GetOr(Obj([]))));
    var q := QualityFields(Dict.Get(quality, d.studentId).GetOr(Obj([])));
    var before := cols + Prefixed("test_", t);
    assert SummaryRow(taskName, date, d, tests, quality, feedback) == before + Prefixed("quality_", q) + FeedbackColumns(info);
    StudentColumnsKeys(taskName, date, d, info);
    NoQualityColumnBefore(cols, t, k);
    NoQualityColumnAfter(info, k);
    Dict.GetMiddle(before, Prefixed("quality_", q), FeedbackColumns(info), "quality_" + k);
    GetPrefixed("quality_", q, k);
  }

  /** The summary row's name is the scores file's, else the feedback
      file's, else `Unknown`. */
  lemma SummaryRowName(taskName: string, date: string, d: StudentData, tests: Dict.Dict<Json>,
                       quality: Dict.Dict<Json>, feedback: Dict.Dict<FeedbackInfo>)
    ensures Dict.Get(SummaryRow(taskName, date, d, tests, quality, feedback), "student_name") ==
      Some(NameCell(RowName(d, Dict.Get(feedback, d.studentId))))
  {
    var info := Dict.Get(feedback, d.studentId);
    var cols := StudentColumns(taskName, date, d, info);
    var rest := Prefixed("test_", TestFields(TestSummaryOf(Dict.Get(tests, d.studentId).GetOr(Obj([]))))) +
                Prefixed("quality_", QualityFields(Dict.Get(quality, d.studentId).GetOr(Obj([])))) +
                FeedbackColumns(info);
    assert SummaryRow(taskName, date, d, tests, quality, feedback) == cols + rest;
    Dict.GetFirst(cols, 1);
    Dict.GetAppend(cols, rest, "student_name");
  }

  /** `generate_summary_csv`'s rows: one per student, in file order. */
  method GenerateSummaryRows(taskName: string, date: string, students: seq<StudentData>, tests: Dict.Dict<Json>,
                             quality: Dict.Dict<Json>, feedback: Dict.Dict<FeedbackInfo>)
    returns (rows: seq<Dict.Dict<Json>>)
    ensures |rows| == |students|
    ensures forall i :: 0 <= i < |students| ==> rows[i] == SummaryRow(taskName, date, students[i], tests, quality, feedback)
  {
    rows := [];
    var i := 0;
    while i < |students|
      invariant 0 <= i <= |students| && |rows| == i
      invariant forall j :: 0 <= j < i ==> rows[j] == SummaryRow(taskName, date, students[j], tests, quality, feedback)
    {
      rows := rows + [SummaryRow(taskName, date, students[i], tests, quality, feedback)];
      i := i + 1;
    }
  }

  // ---------------------------------------------------------------------
  // Detailed scores

  /** Justifications are cut to this many characters. */
  const JustificationWidth: nat := 200

  datatype DetailedRow = DetailedRow(
    studentId: string,
    studentName: Option<string>,
    taskName: string,
    moduleId: string,
    moduleScore: real,
    moduleMaxScore: real,
    modulePercentage: real,
    moduleSuccess: bool,
    justification: string)

  /** The row of one module score: its percentage is zero when the maximum
      is not positive, and a justification over 200 characters keeps its
      first 200 followed by `...`. */
  function DetailedRowOf(taskName: string, studentId: string, name: Option<string>, e: ModuleEntry): (r: DetailedRow)
    ensures r.studentId == studentId && r.studentName == name && r.taskName == taskName && r.moduleId == e.moduleId
    ensures r.moduleScore == e.score && r.moduleMaxScore == e.maxScore && r.moduleSuccess == e.success
    ensures e.maxScore <= 0.0 ==> r.modulePercentage == 0.0
    ensures e.maxScore > 0.0 ==> r.modulePercentage * e.maxScore == e.score * 100.0
    ensures |e.justification| <= JustificationWidth ==> r.justification == e.justification
    ensures |e.justification| > JustificationWidth ==>
      r.justification == e.justification[..JustificationWidth] + "..."
  {
    var cell := CellOf(e);
    DetailedRow(studentId, name, taskName, e.moduleId, e.score, e.maxScore, cell.percentage, e.success,
                Ellipsize(e.justification, JustificationWidth))
  }

  /** The rows of one student, one per module score in order. */
  function StudentRows(taskName: string, d: StudentData, feedback: Dict.Dict<FeedbackInfo>): (rs: seq<DetailedRow>)
    ensures |rs| == |d.moduleScores|
    ensures forall k :: 0 <= k < |rs| ==>
      rs[k] == DetailedRowOf(taskName, d.studentId, RowName(d, Dict.Get(feedback, d.studentId)), d.moduleScores[k])
  {
    var name := RowName(d, Dict.Get(feedback, d.studentId));
    seq(|d.moduleScores|, k requires 0 <= k < |d.moduleScores| => DetailedRowOf(taskName, d.studentId, name, d.moduleScores[k]))
  }

  /** The rows of all students, student by student. */
  function DetailedRows(taskName: string, students: seq<StudentData>, feedback: Dict.Dict<FeedbackInfo>): seq<DetailedRow>
  {
    if |students| == 0 then []
    else DetailedRows(taskName, students[..|students| - 1], feedback) + StudentRows(taskName, students[|students| - 1], feedback)
  }

  /** The number of module scores of all students. */
  function ScoreCount(students: seq<StudentData>): nat
  {
    if |students| == 0 then 0 else ScoreCount(students[..|students| - 1]) + |students[|students| - 1].moduleScores|
  }

  /** Where a student's rows start: after the rows of the students before. */
  lemma {:induction false} DetailedRowsLayout(taskName: string, students: seq<StudentData>, feedback: Dict.Dict<FeedbackInfo>,
                                              i: nat, k: nat)
    requires i < |students| && k < |students[i].moduleScores|
    ensures |DetailedRows(taskName, students, feedback)| == ScoreCount(students)
    ensures ScoreCount(students[..i]) + k < ScoreCount(students)
    ensures DetailedRows(taskName, students, feedback)[ScoreCount(students[..i]) + k] ==
      DetailedRowOf(taskName, students[i].studentId, RowName(students[i], Dict.Get(feedback, students[i].studentId)),
                    students[i].moduleScores[k])
  {
    var n := |students| - 1;
    var init := students[..n];
    DetailedRowsCount(taskName, init, feedback);
    assert DetailedRows(taskName, students, feedback) == DetailedRows(taskName, init, feedback) + StudentRows(taskName, students[n], feedback);
    assert ScoreCount(students) == ScoreCount(init) + |students[n].moduleScores|;
    if i == n {
      assert students[..i] == init;
    } else {
      assert init[..i] == students[..i];
      assert init[i] == students[i];
      DetailedRowsLayout(taskName, init, feedback, i, k);
    }
  }

  /** There are as many detailed rows as module scores. */
  lemma {:induction false} DetailedRowsCount(taskName: string, students: seq<StudentData>, feedback: Dict.Dict<FeedbackInfo>)
    ensures |DetailedRows(taskName, students, feedback)| == ScoreCount(students)
  {
    if |students| > 0 {
      DetailedRowsCount(taskName, students[..|students| - 1], feedback);
    }
  }

  /** `generate_detailed_scores_csv`'s rows: for each student in order, one
      row per module score in order. */
  method GenerateDetailedRows(taskName: string, students: seq<StudentData>, feedback: Dict.Dict<FeedbackInfo>)
    returns (rows: seq<DetailedRow>)
    ensures rows == DetailedRows(taskName, students, feedback)
  {
    rows := [];
    var i := 0;
    while i < |students|
      invariant 0 <= i <= |students|
      invariant rows == DetailedRows(taskName, students[..i], feedback)
    {
      var d := students[i];
      var name := RowName(d, Dict.Get(feedback, d.studentId));
      var j := 0;
      ghost var before := rows;
      while j < |d.moduleScores|
        invariant 0 <= j <= |d.moduleScores|
        invariant rows == before + StudentRows(taskName, d, feedback)[..j]
      {
        rows := rows + [DetailedRowOf(taskName, d.studentId, name, d.moduleScores[j])];
        assert StudentRows(taskName, d, feedback)[..j + 1] == StudentRows(taskName, d, feedback)[..j] + [StudentRows(taskName, d, feedback)[j]];
        j := j + 1;
      }
      assert StudentRows(taskName, d, feedback)[..j] == StudentRows(taskName, d, feedback);
      assert students[..i + 1][..i] == students[..i];
      i := i + 1;
    }
    assert students[..i] == students;
  }

  // ---------------------------------------------------------------------
  // File names

  /** The task name as used in report file names: spaces become `_`, and
      parentheses are dropped. */
  function SafeTaskName(taskName: string): (r: string)
    ensures r == FileSafe(taskName, {'(', ')'})
    ensures ' ' !in r && '(' !in r && ')' !in r
    ensures |r| <= |taskName|
  {
    ParensDropped(taskName);
    Replace(Replace(Replace(taskName, " ", "_"), "(", ""), ")", "")
  }

  /** The three replacements, character by character. */
  lemma ParensDropped(t: string)
    ensures Replace(Replace(Replace(t, " ", "_"), "(", ""), ")", "") == FileSafe(t, {'(', ')'})
  {
    SpacesUnderscored(t);
    FileSafeDrop(t, {}, '(');
    assert {} + {'('} == {'('};
    FileSafeDrop(t, {'('}, ')');
    assert {'('} + {')'} == {'(', ')'};
  }

  /** A name without spaces or parentheses is its own safe name. */
  lemma SafeTaskNameKeeps(taskName: string)
    requires ' ' !in taskName && '(' !in taskName && ')' !in taskName
    ensures SafeTaskName(taskName) == taskName
  {
    NotContainsChar(taskName, ' ');
    NotContainsChar(taskName, '(');
    NotContainsChar(taskName, ')');
  }

}
