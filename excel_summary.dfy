/** The spreadsheet summary of a marked task: one row per student with the
    scores, the test counts, one group of columns per module and the five
    checks for a submission that may have gone wrong.

    The loaded files are given: the scores file as its student records, a
    test results file as its decoded JSON, and a feedback file as its name
    and its text (or nothing when it cannot be read). Floating-point
    rendering of a percentage (`{:.1f}`) is a parameter. */
module ExcelSummaries {
  import opened Wrappers
  import opened Text
  import opened Scan
  import Dict
  import opened Json
  import Loaders
  import Order

  // ---------------------------------------------------------------------
  // Names and ids in file names

  /** A hit of `s` whose group starts at `i` and is a `z` id. */
  predicate ZIdHit(s: string, i: nat, h: Hit) { HitIn(s, h) && h.gs == i && IsZId(s[h.gs..h.ge]) }

  /** `z\d+` at `i`; the group is the whole match. */
  function ZIdAt(s: string, i: nat): (r: Option<Hit>)
    ensures r.Some? ==> ZIdHit(s, i, r.value)
    ensures r.Some? <==> i + 1 < |s| && s[i] == 'z' && IsDigit(s[i + 1])
  {
    if i + 1 < |s| && s[i] == 'z' && IsDigit(s[i + 1]) then
      var e := DigitsEnd(s, i + 1);
      assert s[i..e][1..] == s[i + 1..e];
      Some(Hit(i, i, e, e))
    else None
  }

  /** The student id in a file name: the first `z` followed by digits,
      with all the digits that follow it. */
  function StudentIdFromFileName(name: string): (r: Option<string>)
    ensures r.Some? ==> IsZId(r.value) && Contains(name, r.value)
    ensures r.None? <==> forall i :: 0 <= i < |name| ==> ZIdAt(name, i).None?
  {
    match Search(name, ZIdAt)
    case None => None
    case Some(h) =>
      var j :| 0 <= j <= |name| && ZIdAt(name, j) == Some(h);
      assert OccursAt(name, name[h.gs..h.ge], h.gs);
      Some(name[h.gs..h.ge])
  }

  /** The first `_`-part that is a student id. */
  function FirstIdPart(parts: seq<string>): (r: Option<nat>)
    ensures r.Some? ==> r.value < |parts| && IsZId(parts[r.value])
    ensures r.Some? ==> forall k :: 0 <= k < r.value ==> !IsZId(parts[k])
    ensures r.None? ==> forall k :: 0 <= k < |parts| ==> !IsZId(parts[k])
  {
    if |parts| == 0 then None
    else if IsZId(parts[0]) then Some(0)
    else
      match FirstIdPart(parts[1..])
      case None => None
      case Some(k) => Some(k + 1)
  }

  /** The name in a feedback file's stem `Name_Name_zID_task_feedback`: the
      parts before the first id part, joined by spaces, when the stem has
      at least three parts and the id part is not the first. */
  function NameFromStem(stem: string): (r: Option<string>)
    ensures r.Some? ==> '_' !in r.value
    ensures r.None? <==> |Split(stem, "_")| < 3 || FirstIdPart(Split(stem, "_")) in {None, Some(0)}
  {
    var parts := Split(stem, "_");
    if |parts| < 3 then None
    else
      match FirstIdPart(parts)
      case None => None
      case Some(k) =>
        if k == 0 then None
        else
          ReplaceCharRemoves(Join(parts[..k], " "), '_', " ");
          Some(Replace(Join(parts[..k], " "), "_", " "))
  }

  /** A hit whose group is a non-empty text without `(`. */
  predicate LabelHit(s: string, h: Hit)
  {
    HitIn(s, h) && h.gs < h.ge && forall k :: h.gs <= k < h.ge ==> s[k] != '('
  }

  /** `Student:\s*([^(]+)` at `i`: the text after the label up to the first
      `(`. When the label is followed by white space and then `(`, the
      white space gives back its last character to the group. */
  function StudentLabelAt(s: string, i: nat): (r: Option<Hit>)
    ensures r.Some? ==> LabelHit(s, r.value)
  {
    if !Lit(s, i, "Student:") then None
    else
      var j := SpacesEnd(s, i + 8);
      var k := RunEnd(s, j, c => c != '(');
      if k > j then Some(Hit(i, j, k, k))
      else if j > i + 8 then
        assert IsSpace(s[j - 1]);
        Some(Hit(i, j - 1, j, j))
      else None
  }

  /** The student name of a feedback file: from its stem, otherwise from the
      `Student:` line of its text; nothing when neither gives one or the
      text cannot be read. */
  function NameFromFeedback(stem: string, content: Option<string>): (r: Option<string>)
    ensures NameFromStem(stem).Some? ==> r == NameFromStem(stem)
    ensures NameFromStem(stem).None? && content.None? ==> r.None?
    ensures r.Some? && NameFromStem(stem).None? ==> Stripped(r.value) && '(' !in r.value
  {
    match NameFromStem(stem)
    case Some(n) => Some(n)
    case None =>
      match content
      case None => None
      case Some(text) =>
        match Search(text, StudentLabelAt)
        case None => None
        case Some(h) =>
          var j :| 0 <= j <= |text| && StudentLabelAt(text, j) == Some(h);
          var g := text[h.gs..h.ge];
          assert '(' !in g;
          CharNotInInfix(g, Strip(g), '(');
          Some(Strip(g))
  }

  /** A stem whose parts contain no `_` gives the parts before its first id
      part joined by spaces, when there is a part before it. */
  lemma NameFromStemForm(parts: seq<string>, n: nat)
    requires |parts| >= 3 && 0 < n < |parts| && IsZId(parts[n])
    requires forall k :: 0 <= k < |parts| ==> '_' !in parts[k]
    requires forall k :: 0 <= k < n ==> !IsZId(parts[k])
    ensures NameFromStem(Join(parts, "_")) == Some(Join(parts[..n], " "))
  {
    var stem := Join(parts, "_");
    SplitJoinChar(parts, '_');
    FirstIdPartAt(parts, n);
    var names := parts[..n];
    assert NameFromStem(stem) == Some(Replace(Join(names, " "), "_", " "));
    forall k | 0 <= k < n ensures '_' !in names[k] {
      assert names[k] == parts[k];
    }
    JoinNoChar(names, " ", '_');
  }

  lemma {:induction false} FirstIdPartAt(parts: seq<string>, k: nat)
    requires k < |parts| && IsZId(parts[k]) && forall j :: 0 <= j < k ==> !IsZId(parts[j])
    ensures FirstIdPart(parts) == Some(k)
  {
    if k > 0 {
      var rest := parts[1..];
      assert !IsZId(parts[0]);
      assert rest[k - 1] == parts[k];
      forall j | 0 <= j < k - 1 ensures !IsZId(rest[j]) {
        assert rest[j] == parts[j + 1];
      }
      FirstIdPartAt(rest, k - 1);
    }
  }

  /** Joining parts without a character by a separator without it gives a
      text without it, which `replace` leaves alone. */
  lemma {:induction false} JoinNoChar(parts: seq<string>, sep: string, c: char)
    requires c !in sep && forall k :: 0 <= k < |parts| ==> c !in parts[k]
    ensures c !in Join(parts, sep) && Replace(Join(parts, sep), [c], sep) == Join(parts, sep)
  {
    if |parts| >= 2 {
      JoinNoChar(parts[1..], sep, c);
      assert Join(parts, sep) == parts[0] + sep + Join(parts[1..], sep);
    }
    NotContainsChar(Join(parts, sep), c);
  }

  // ---------------------------------------------------------------------
  // Test counts

  datatype TestSummary = TestSummary(total: nat, passed: nat, failed: int, passRate: real)

  /** `r.get('passed', False)`, as a truth value. */
  predicate Passed(r: Json)
  {
    Truthy(FieldOr(r, "passed", Bool(false)))
  }

  function CountPassed(rs: seq<Json>): (n: nat)
    ensures n <= |rs|
  {
    if |rs| == 0 then 0 else CountPassed(rs[..|rs| - 1]) + (if Passed(rs[|rs| - 1]) then 1 else 0)
  }

  /** Every result passed exactly when the count is the number of results,
      and none did exactly when it is zero. */
  lemma {:induction false} CountPassedBounds(rs: seq<Json>)
    ensures CountPassed(rs) == |rs| <==> forall k :: 0 <= k < |rs| ==> Passed(rs[k])
    ensures CountPassed(rs) == 0 <==> forall k :: 0 <= k < |rs| ==> !Passed(rs[k])
  {
    if |rs| > 0 {
      var init := rs[..|rs| - 1];
      CountPassedBounds(init);
      assert forall k :: 0 <= k < |rs| - 1 ==> init[k] == rs[k];
    }
  }

  /** The results of a test file: its `test_results` list or the values of
      its `test_results` object. */
  function TestResults(testData: Json): (r: Option<seq<Json>>)
  {
    var field := Field(testData, "test_results");
    if field.Some? && field.value.Arr? then Some(field.value.items)
    else if field.Some? && field.value.Obj? then Some(Dict.Values(field.value.fields))
    else None
  }

  /** The summary of `total` results of which `passed` passed. */
  function SummaryOfCounts(total: nat, passed: nat): (r: TestSummary)
    requires passed <= total
    ensures r.total == total && r.passed == passed && r.failed == total - passed
    ensures total > 0 ==> r.passRate * total as real == passed as real * 100.0
    ensures total == 0 ==> r.passRate == 0.0
    ensures 0.0 <= r.passRate <= 100.0
  {
    if total > 0 then
      ShareAtMostWhole(passed, total);
      TestSummary(total, passed, total - passed, passed as real / total as real * 100.0)
    else TestSummary(0, 0, 0, 0.0)
  }

  /** `calculate_test_summary`: the number of results, how many passed and
      failed, and the pass rate in per cent. */
  function TestSummaryOf(testData: Json): (r: TestSummary)
    ensures !Truthy(testData) ==> r == TestSummary(0, 0, 0, 0.0)
    ensures Truthy(testData) && TestResults(testData).Some? ==>
      r == SummaryOfCounts(|TestResults(testData).value|, CountPassed(TestResults(testData).value))
    ensures Truthy(testData) && TestResults(testData).None? ==> r == TestSummary(0, 0, 0, 0.0)
  {
    if !Truthy(testData) then TestSummary(0, 0, 0, 0.0)
    else
      match TestResults(testData)
      case Some(rs) => SummaryOfCounts(|rs|, CountPassed(rs))
      case None => SummaryOfCounts(0, 0)
  }

  lemma ShareAtMostWhole(p: nat, t: nat)
    requires p <= t && t > 0
    ensures 0.0 <= p as real / t as real * 100.0 <= 100.0
    ensures p as real / t as real * 100.0 * t as real == p as real * 100.0
  {
    var q := p as real / t as real;
    assert q * t as real == p as real;
  }

  // ---------------------------------------------------------------------
  // The submission checks

  /** A module score as stored in the scores file. */
  datatype ModuleEntry = ModuleEntry(moduleId: string, score: real, maxScore: real, success: bool, justification: string)

  /** A student record of the scores file; a missing entry is `None`. */
  datatype StudentData = StudentData(
    studentId: string,
    studentName: Option<string>,
    totalScore: Option<real>,
    maxTotalScore: Option<real>,
    percentage: Option<real>,
    moduleScores: seq<ModuleEntry>,
    extractionErrors: seq<string>)

  datatype Flags = Flags(
    lowTotalScore: bool,
    manyZeroScores: bool,
    noTestResults: bool,
    extractionErrors: bool,
    missingFeedback: bool)

  datatype QualityCheck = QualityCheck(
    hasProblems: bool,
    problemSummary: string,
    detailedWarnings: string,
    warningCount: nat,
    flags: Flags,
    warnings: seq<string>)

  const ProblemsText: string := "\U{26A0}\U{FE0F} POTENTIAL SUBMISSION PROBLEMS - Please check original submission file"
  const NoProblemsText: string := "\U{2705} No obvious submission problems detected"

  /** The total as a percentage of the maximum, which defaults to 1; zero
      when the maximum is not positive. */
  function TotalPercentage(d: StudentData): real
  {
    var total := d.totalScore.GetOr(0.0);
    var max := d.maxTotalScore.GetOr(1.0);
    if max > 0.0 then total / max * 100.0 else 0.0
  }

  function ZeroCount(ms: seq<ModuleEntry>): (n: nat)
    ensures n <= |ms|
  {
    if |ms| == 0 then 0 else ZeroCount(ms[..|ms| - 1]) + (if ms[|ms| - 1].score == 0.0 then 1 else 0)
  }

  function ZeroPercentage(ms: seq<ModuleEntry>): real
    requires |ms| > 0
  {
    ZeroCount(ms) as real / |ms| as real * 100.0
  }

  /** The five checks. */
  function FlagsOf(d: StudentData, tests: TestSummary): Flags
  {
    Flags(
      TotalPercentage(d) < 10.0,
      |d.moduleScores| > 0 && ZeroPercentage(d.moduleScores) >= 50.0,
      tests.total == 0 || tests.passed == 0,
      |d.extractionErrors| >= 3,
      d.studentName.None? || d.studentName.value == "" || d.studentName.value == "Unknown")
  }

  /** The flags in the order the checks run. */
  function FlagList(f: Flags): seq<bool>
  {
    [f.lowTotalScore, f.manyZeroScores, f.noTestResults, f.extractionErrors, f.missingFeedback]
  }

  function Trues(bs: seq<bool>): (n: nat)
    ensures n <= |bs|
  {
    if |bs| == 0 then 0 else (if bs[0] then 1 else 0) + Trues(bs[1..])
  }

  /** The number of flags set. */
  function FlagCount(f: Flags): nat
  {
    Trues(FlagList(f))
  }

  /** The low-score check without division: the total is under a tenth of
      a positive maximum, or the maximum is not positive. */
  lemma LowTotalScoreIff(d: StudentData, tests: TestSummary)
    ensures var total := d.totalScore.GetOr(0.0);
      var max := d.maxTotalScore.GetOr(1.0);
      FlagsOf(d, tests).lowTotalScore <==> max <= 0.0 || total * 10.0 < max
  {
    var max := d.maxTotalScore.GetOr(1.0);
    if max > 0.0 {
      ShareBelowTenth(d.totalScore.GetOr(0.0), max);
    }
  }

  lemma ShareBelowTenth(t: real, m: real)
    requires m > 0.0
    ensures t / m * 100.0 < 10.0 <==> t * 10.0 < m
  {
    var q := t / m;
    assert q * m == t;
    if q < 0.1 {
      assert q * m < 0.1 * m;
    } else {
      assert q * m >= 0.1 * m;
    }
  }

  /** The zero-score check without division: at least one module, and at
      least half of them scored zero. */
  lemma ManyZeroScoresIff(d: StudentData, tests: TestSummary)
    ensures FlagsOf(d, tests).manyZeroScores <==>
      |d.moduleScores| > 0 && 2 * ZeroCount(d.moduleScores) >= |d.moduleScores|
  {
    if |d.moduleScores| > 0 {
      ShareAtLeastHalf(ZeroCount(d.moduleScores) as real, |d.moduleScores| as real);
    }
  }

  lemma ShareAtLeastHalf(z: real, n: real)
    requires n > 0.0
    ensures z / n * 100.0 >= 50.0 <==> 2.0 * z >= n
  {
    var q := z / n;
    assert q * n == z;
    if q >= 0.5 {
      assert q * n >= 0.5 * n;
    } else {
      assert q * n < 0.5 * n;
    }
  }

  // The warning texts; `percent` is a percentage rendered with one decimal.

  function LowScoreWarning(percent: string): (w: string)
    ensures |w| > 0
  {
    "Very low total score (" + percent + "%)"
  }

  function ZeroScoresWarning(zeros: nat, modules: nat, percent: string): (w: string)
    ensures |w| > 0
  {
    NatToString(zeros) + "/" + NatToString(modules) + " modules scored zero (" + percent + "%)"
  }

  function NoTestsWarning(): (w: string)
    ensures |w| > 0
  {
    "No test results found"
  }

  function AllFailedWarning(total: nat): (w: string)
    ensures |w| > 0
  {
    "All " + NatToString(total) + " tests failed"
  }

  function ExtractionWarning(errors: nat): (w: string)
    ensures |w| > 0
  {
    NatToString(errors) + " score extraction errors"
  }

  function MissingInfoWarning(): (w: string)
    ensures |w| > 0
  {
    "Missing student information"
  }

  /** The texts whose check was raised, in order. */
  function Selected(raised: seq<bool>, texts: seq<string>): (r: seq<string>)
    requires |raised| == |texts|
    ensures |r| == Trues(raised)
    ensures forall k :: 0 <= k < |r| ==> r[k] in texts
  {
    if |raised| == 0 then []
    else
      var rest := Selected(raised[1..], texts[1..]);
      assert forall k :: 0 <= k < |rest| ==> rest[k] in texts by {
        forall k | 0 <= k < |rest| ensures rest[k] in texts {
          var j :| 0 <= j < |texts[1..]| && texts[1..][j] == rest[k];
          assert texts[j + 1] == rest[k];
        }
      }
      (if raised[0] then [texts[0]] else []) + rest
  }

  /** The text of each check, in the order they run. */
  function WarningTexts(d: StudentData, tests: TestSummary, percentText: real -> string): (ts: seq<string>)
    ensures |ts| == 5 && forall k :: 0 <= k < |ts| ==> |ts[k]| > 0
  {
    var ms := d.moduleScores;
    [LowScoreWarning(percentText(TotalPercentage(d))),
     ZeroScoresWarning(ZeroCount(ms), |ms|, percentText(if |ms| > 0 then ZeroPercentage(ms) else 0.0)),
     if tests.total == 0 then NoTestsWarning() else AllFailedWarning(tests.total),
     ExtractionWarning(|d.extractionErrors|),
     MissingInfoWarning()]
  }

  /** The warnings of the five checks, in the order they run: one per flag
      set, none of them empty. */
  function Warnings(d: StudentData, tests: TestSummary, percentText: real -> string): (ws: seq<string>)
    ensures |ws| == FlagCount(FlagsOf(d, tests))
    ensures forall k :: 0 <= k < |ws| ==> |ws[k]| > 0
  {
    Selected(FlagList(FlagsOf(d, tests)), WarningTexts(d, tests, percentText))
  }

  /** `check_submission_quality`: each check that fails sets its flag and
      adds its warning; the summary line says whether any did, and the
      detailed text lists the warnings. */
  function CheckSubmissionQuality(d: StudentData, tests: TestSummary, percentText: real -> string): (c: QualityCheck)
    ensures c.flags == FlagsOf(d, tests) && c.warnings == Warnings(d, tests, percentText)
    ensures c.warningCount == |c.warnings| == FlagCount(c.flags)
    ensures c.hasProblems <==> FlagCount(c.flags) > 0
    ensures c.hasProblems ==> c.problemSummary == ProblemsText && c.detailedWarnings == Join(c.warnings, "; ")
    ensures !c.hasProblems ==> c.problemSummary == NoProblemsText && c.detailedWarnings == ""
    ensures c.detailedWarnings == "" <==> !c.hasProblems
  {
    var flags := FlagsOf(d, tests);
    var warnings := Warnings(d, tests, percentText);
    var hasProblems := flags.lowTotalScore || flags.manyZeroScores || flags.noTestResults ||
                       flags.extractionErrors || flags.missingFeedback;
    DetailedWarningsEmptyIff(warnings);
    if hasProblems then QualityCheck(true, ProblemsText, Join(warnings, "; "), |warnings|, flags, warnings)
    else QualityCheck(false, NoProblemsText, "", |warnings|, flags, warnings)
  }

  /** The detailed text of non-empty warnings is empty exactly when there
      are none. */
  lemma DetailedWarningsEmptyIff(warnings: seq<string>)
    requires forall k :: 0 <= k < |warnings| ==> |warnings[k]| > 0
    ensures Join(warnings, "; ") == "" <==> |warnings| == 0
  {
    if |warnings| >= 2 {
      assert Join(warnings, "; ") == warnings[0] + "; " + Join(warnings[1..], "; ");
    }
  }

  // ---------------------------------------------------------------------
  // Module columns

  /** Every module id of every student. */
  function AllModuleIds(students: seq<StudentData>): set<string>
  {
    set i, k | 0 <= i < |students| && 0 <= k < |students[i].moduleScores| :: students[i].moduleScores[k].moduleId
  }

  /** `get_all_module_ids`: the ids of all students, sorted, each once. */
  method GetAllModuleIds(students: seq<StudentData>) returns (ids: seq<string>)
    ensures Order.StrictlySorted(ids)
    ensures forall x :: x in ids <==> x in AllModuleIds(students)
    ensures ids == Order.SortedOf(AllModuleIds(students))
  {
    var seen: set<string> := {};
    ids := [];
    var i := 0;
    while i < |students|
      invariant 0 <= i <= |students|
      invariant Order.StrictlySorted(ids)
      invariant seen == set p, k | 0 <= p < i && 0 <= k < |students[p].moduleScores| :: students[p].moduleScores[k].moduleId
      invariant forall x :: x in ids <==> x in seen
    {
      var ms := students[i].moduleScores;
      var j := 0;
      while j < |ms|
        invariant 0 <= j <= |ms|
        invariant Order.StrictlySorted(ids)
        invariant seen == (set p, k | 0 <= p < i && 0 <= k < |students[p].moduleScores| :: students[p].moduleScores[k].moduleId) +
                          (set k | 0 <= k < j :: ms[k].moduleId)
        invariant forall x :: x in ids <==> x in seen
      {
        seen := seen + {ms[j].moduleId};
        ids := Order.Insert(ms[j].moduleId, ids);
        j := j + 1;
      }
      i := i + 1;
    }
    Order.SortedUnique(ids, Order.SortedOf(AllModuleIds(students)));
  }

  /** The columns of one module. */
  datatype ModuleCell = ModuleCell(score: real, maxScore: real, percentage: real, success: bool, justification: string)

  const NotEvaluated: ModuleCell := ModuleCell(0.0, 0.0, 0.0, false, "Module not evaluated")

  /** The lookup of a student's module scores by id; a later score of the
      same module replaces an earlier one. */
  function Lookup(ms: seq<ModuleEntry>): Dict.Dict<ModuleEntry>
  {
    if |ms| == 0 then [] else Dict.Put(Lookup(ms[..|ms| - 1]), ms[|ms| - 1].moduleId, ms[|ms| - 1])
  }

  /** The position of the last score of a module. */
  function LastScore(ms: seq<ModuleEntry>, id: string): (r: Option<nat>)
    ensures r.Some? ==> r.value < |ms| && ms[r.value].moduleId == id
    ensures r.Some? ==> forall k :: r.value < k < |ms| ==> ms[k].moduleId != id
    ensures r.None? ==> forall k :: 0 <= k < |ms| ==> ms[k].moduleId != id
  {
    if |ms| == 0 then None
    else if ms[|ms| - 1].moduleId == id then Some(|ms| - 1)
    else
      assert forall k :: 0 <= k < |ms| - 1 ==> ms[..|ms| - 1][k] == ms[k];
      LastScore(ms[..|ms| - 1], id)
  }

  /** A module's entry in the lookup is its last score. */
  lemma {:induction false} LookupLast(ms: seq<ModuleEntry>, id: string)
    ensures LastScore(ms, id).None? ==> Dict.Get(Lookup(ms), id).None?
    ensures LastScore(ms, id).Some? ==> Dict.Get(Lookup(ms), id) == Some(ms[LastScore(ms, id).value])
  {
    if |ms| > 0 {
      var n := |ms| - 1;
      var init := ms[..n];
      var before := Lookup(init);
      assert Lookup(ms) == Dict.Put(before, ms[n].moduleId, ms[n]);
      Dict.GetPut(before, ms[n].moduleId, ms[n], id);
      if ms[n].moduleId == id {
        assert LastScore(ms, id) == Some(n);
      } else {
        LookupLast(init, id);
        assert LastScore(ms, id) == LastScore(init, id);
        assert Dict.Get(Lookup(ms), id) == Dict.Get(before, id);
        if LastScore(init, id).Some? {
          assert init[LastScore(init, id).value] == ms[LastScore(init, id).value];
        }
      }
    }
  }

  /** The columns of a module with a score: its percentage is zero when the
      maximum is not positive. */
  function CellOf(e: ModuleEntry): (c: ModuleCell)
    ensures c.score == e.score && c.maxScore == e.maxScore && c.success == e.success && c.justification == e.justification
    ensures e.maxScore <= 0.0 ==> c.percentage == 0.0
    ensures e.maxScore > 0.0 ==> c.percentage * e.maxScore == e.score * 100.0
  {
    ModuleCell(e.score, e.maxScore, if e.maxScore > 0.0 then e.score / e.maxScore * 100.0 else 0.0, e.success, e.justification)
  }

  /** The columns a module id should get: the student's last score of it,
      or the not-evaluated columns. */
  function ExpectedCell(ms: seq<ModuleEntry>, id: string): ModuleCell
  {
    if LastScore(ms, id).Some? then CellOf(ms[LastScore(ms, id).value]) else NotEvaluated
  }

  /** The loop that builds the lookup of a student's module scores. */
  method BuildLookup(ms: seq<ModuleEntry>) returns (lookup: Dict.Dict<ModuleEntry>)
    ensures lookup == Lookup(ms)
  {
    lookup := [];
    var i := 0;
    while i < |ms|
      invariant 0 <= i <= |ms|
      invariant lookup == Lookup(ms[..i])
    {
      assert ms[..i + 1][..i] == ms[..i];
      lookup := Dict.Put(lookup, ms[i].moduleId, ms[i]);
      i := i + 1;
    }
    assert ms[..i] == ms;
  }

  /** The module columns of a row, one group per module id of the task: the
      student's last score of that module, or the not-evaluated columns. */
  method FillModuleColumns(allModuleIds: seq<string>, ms: seq<ModuleEntry>) returns (cells: seq<ModuleCell>)
    ensures |cells| == |allModuleIds|
    ensures forall k :: 0 <= k < |cells| ==> cells[k] == ExpectedCell(ms, allModuleIds[k])
  {
    var lookup := BuildLookup(ms);
    cells := [];
    var j := 0;
    while j < |allModuleIds|
      invariant 0 <= j <= |allModuleIds| && |cells| == j
      invariant forall k :: 0 <= k < j ==> cells[k] == ExpectedCell(ms, allModuleIds[k])
    {
      LookupCell(ms, allModuleIds[j]);
      cells := cells + [CellIn(lookup, allModuleIds[j])];
      j := j + 1;
    }
  }

  /** The columns for one module id, read from the lookup. */
  function CellIn(lookup: Dict.Dict<ModuleEntry>, id: string): ModuleCell
  {
    match Dict.Get(lookup, id)
    case Some(e) => CellOf(e)
    case None => NotEvaluated
  }

  /** Reading the lookup gives the columns of the module's last score. */
  lemma LookupCell(ms: seq<ModuleEntry>, id: string)
    ensures CellIn(Lookup(ms), id) == ExpectedCell(ms, id)
  {
    LookupLast(ms, id);
  }

  /** A feedback file's details as loaded: the name found for the student
      (`None` when none was), the text and the file's path. */
  datatype FeedbackInfo = FeedbackInfo(studentName: Option<string>, content: string, file: string)

  /** The row's student name: the scores file's when it is non-empty,
      otherwise the feedback file's (which may be missing), otherwise
      `Unknown`. */
  function RowName(d: StudentData, feedback: Option<FeedbackInfo>): (r: Option<string>)
    ensures d.studentName.Some? && d.studentName.value != "" ==> r == d.studentName
    ensures (d.studentName.None? || d.studentName.value == "") && feedback.Some? ==> r == feedback.value.studentName
    ensures (d.studentName.None? || d.studentName.value == "") && feedback.None? ==> r == Some("Unknown")
  {
    if d.studentName.Some? && d.studentName.value != "" then d.studentName
    else if feedback.Some? then feedback.value.studentName
    else Some("Unknown")
  }
}
