/** The first-generation test runner. For one student it finds the
    submission folder, picks the Python files whose names give a problem
    number, runs each against the lab's test file, records the test counts
    and the quality checks, and writes the combined results when at least
    one problem was recorded.

    The directory listings, the reading of the student's files, pytest, the
    quality tools and the clock are given as parameters. */
module TestRunnerMain {
  import opened Wrappers
  import opened Text
  import opened Scan
  import Dict
  import Paths
  import QualityRunnerMain
  import TestRunning
  import TestResultAnalysis

  // ---------------------------------------------------------------------
  // Lab and problem numbers

  /** The index of the first part that contains `Lab`. */
  function LabPart(parts: seq<string>): (r: Option<nat>)
    ensures r.Some? ==> r.value < |parts| && Contains(parts[r.value], "Lab")
    ensures r.Some? ==> forall k :: 0 <= k < r.value ==> !Contains(parts[k], "Lab")
    ensures r.None? ==> forall k :: 0 <= k < |parts| ==> !Contains(parts[k], "Lab")
  {
    if |parts| == 0 then None
    else if Has(parts[0], "Lab") then Some(0)
    else
      var rest := LabPart(parts[1..]);
      assert forall k :: 1 <= k < |parts| ==> parts[k] == parts[1..][k - 1];
      if rest.None? then None else Some(rest.value + 1)
  }

  /** `get_lab_and_problem_info`: the first `_`-separated part of the lab
      folder that contains `Lab`, with every `Lab ` removed. A folder with
      no such part has no lab number (the source's `next` raises). */
  function LabNumber(labFolder: string): (r: Option<string>)
    ensures r.None? ==> forall k :: 0 <= k < |Split(labFolder, "_")| ==> !Contains(Split(labFolder, "_")[k], "Lab")
    ensures r.Some? ==> exists k :: 0 <= k < |Split(labFolder, "_")| && Contains(Split(labFolder, "_")[k], "Lab")
  {
    var parts := Split(labFolder, "_");
    match LabPart(parts)
    case None => None
    case Some(k) =>
      Some(Replace(parts[k], "Lab ", ""))
  }

  /** The first part containing `Lab` is found. */
  lemma {:induction false} LabPartAt(parts: seq<string>, i: nat)
    requires i < |parts| && Contains(parts[i], "Lab")
    requires forall k :: 0 <= k < i ==> !Contains(parts[k], "Lab")
    ensures LabPart(parts) == Some(i)
  {
    if i > 0 {
      assert parts[1..][i - 1] == parts[i];
      LabPartAt(parts[1..], i - 1);
    }
  }

  /** Removing `Lab ` from `Lab <n>` leaves `n` when `n` has no `Lab `. */
  lemma RemoveLabPrefix(n: string)
    requires !Contains(n, "Lab ")
    ensures Replace("Lab " + n, "Lab ", "") == n
  {
    var part := "Lab " + n;
    assert OccursAt(part, "Lab ", 0);
    assert Find(part, "Lab ") == Some(0);
    assert part[4..] == n;
  }

  /** A folder named by `_`-separated parts, the first of them naming the
      lab being `Lab <n>`, has lab number `n`. */
  lemma LabNumberOfFolder(before: seq<string>, n: string, after: seq<string>)
    requires forall k :: 0 <= k < |before| ==> '_' !in before[k] && !Contains(before[k], "Lab")
    requires '_' !in n && !Contains(n, "Lab ")
    requires forall k :: 0 <= k < |after| ==> '_' !in after[k]
    ensures LabNumber(Join(before + ["Lab " + n] + after, "_")) == Some(n)
  {
    var part := "Lab " + n;
    var parts := before + [part] + after;
    LabPartFree(n);
    PartsFree(before, part, after);
    FolderParts(parts);
    LabPartOf(before, part, after);
    RemoveLabPrefix(n);
  }

  /** `Lab <n>` contains `Lab` and no `_` when `n` has none. */
  lemma LabPartFree(n: string)
    requires '_' !in n
    ensures '_' !in "Lab " + n && Contains("Lab " + n, "Lab")
  {
    assert OccursAt("Lab " + n, "Lab", 0);
  }

  /** Parts without `_` around one more such part have none either. */
  lemma PartsFree(before: seq<string>, part: string, after: seq<string>)
    requires forall k :: 0 <= k < |before| ==> '_' !in before[k]
    requires '_' !in part
    requires forall k :: 0 <= k < |after| ==> '_' !in after[k]
    ensures forall k :: 0 <= k < |before + [part] + after| ==> '_' !in (before + [part] + after)[k]
  {
    var head := before + [part];
    forall k | 0 <= k < |head| ensures '_' !in head[k] {
      if k < |before| { assert head[k] == before[k]; }
    }
    var parts := head + after;
    forall k | 0 <= k < |parts| ensures '_' !in parts[k] {
      if k >= |head| { assert parts[k] == after[k - |head|]; } else { assert parts[k] == head[k]; }
    }
  }

  /** Parts without `_` are recovered by splitting their join. */
  lemma FolderParts(parts: seq<string>)
    requires |parts| >= 1 && forall k :: 0 <= k < |parts| ==> '_' !in parts[k]
    ensures Split(Join(parts, "_"), "_") == parts
  {
    SplitJoinChar(parts, '_');
  }

  /** The lab part follows parts that do not contain `Lab`. */
  lemma LabPartOf(before: seq<string>, part: string, after: seq<string>)
    requires forall k :: 0 <= k < |before| ==> !Contains(before[k], "Lab")
    requires Contains(part, "Lab")
    ensures LabPart(before + [part] + after) == Some(|before|)
  {
    var parts := before + [part] + after;
    assert parts[|before|] == part;
    forall k | 0 <= k < |before| ensures !Contains(parts[k], "Lab") {
      assert parts[k] == before[k];
    }
    LabPartAt(parts, |before|);
  }

  /** `_` or white space, what may stand between `Problem` and its number. */
  predicate IsSeparator(c: char)
  {
    c == '_' || IsSpace(c)
  }

  /** A hit at `i` of the word `problem` whose group is a problem number. */
  predicate ProblemWordHit(s: string, i: nat, h: Hit)
  {
    HitIn(s, h) && h.start == i && LitCI(s, i, "problem") && IsProblemId(s[h.gs..h.ge])
  }

  /** `Problem[_\s]*(\d+[a-zA-Z]?)`, ignoring case, at `i`. The separator
      run and the digit run are maximal, since their classes are disjoint;
      a letter right after the digits is taken. */
  function ProblemAt(s: string, i: nat): (r: Option<Hit>)
    ensures r.Some? ==> ProblemWordHit(s, i, r.value)
  {
    if !LitCI(s, i, "problem") then None
    else
      var k := RunEnd(s, i + 7, IsSeparator);
      var d := DigitsEnd(s, k);
      if d == k then None
      else
        DigitRun(s, k);
        if d < |s| && IsAsciiLetter(s[d]) then
          assert s[k..d + 1][..d - k] == s[k..d];
          assert s[k..d + 1][d - k] == s[d];
          Some(Hit(i, k, d + 1, d + 1))
        else Some(Hit(i, k, d, d))
  }

  /** The word `problem`, in any case, occurs in `s`. */
  predicate MentionsProblem(s: string)
  {
    exists i :: 0 <= i <= |s| && LitCI(s, i, "problem")
  }

  /** `get_problem_number`: the id captured by the leftmost match, if any. */
  function ProblemNumber(fileName: string): (r: Option<string>)
    ensures r.Some? ==> IsProblemId(r.value) && Contains(fileName, r.value)
    ensures r.Some? ==> MentionsProblem(fileName)
  {
    match SearchFrom(fileName, ProblemAt, 0)
    case None => None
    case Some(j) =>
      var h := ProblemAt(fileName, j).value;
      assert OccursAt(fileName, fileName[h.gs..h.ge], h.gs);
      Some(fileName[h.gs..h.ge])
  }

  /** A name that starts with `Problem` in any case, then separators, then
      a problem id not followed by a further digit (nor by a letter when
      the id has none) gives that id. */
  lemma ProblemNumberOfName(kw: string, sep: string, id: string, rest: string)
    requires |kw| == 7 && Lower(kw) == "problem"
    requires forall k :: 0 <= k < |sep| ==> IsSeparator(sep[k])
    requires IsProblemId(id)
    requires rest == [] || (!IsDigit(rest[0]) && (IsDigits(id) ==> !IsAsciiLetter(rest[0])))
    ensures ProblemNumber(kw + sep + id + rest) == Some(id)
  {
    var s := kw + sep + id + rest;
    var n := if IsDigits(id) then |id| else |id| - 1;
    IdShape(id);
    NameFacts(kw, sep, id, rest, n);
    assert LitCI(s, 0, "problem");
    ProblemAtStart(s, 7 + |sep|, 7 + |sep| + n);
  }

  /** A problem id is digits, then possibly one letter. */
  lemma IdShape(id: string)
    requires IsProblemId(id)
    ensures var n := if IsDigits(id) then |id| else |id| - 1;
      1 <= n && forall j :: 0 <= j < n ==> IsDigit(id[j])
    ensures !IsDigits(id) ==> IsAsciiLetter(id[|id| - 1]) && !IsDigit(id[|id| - 1])
  {
    if !IsDigits(id) {
      assert forall j :: 0 <= j < |id| - 1 ==> id[j] == id[..|id| - 1][j];
    }
  }

  /** Where the parts of such a name lie. */
  lemma NameFacts(kw: string, sep: string, id: string, rest: string, n: nat)
    requires |kw| == 7
    requires forall k :: 0 <= k < |sep| ==> IsSeparator(sep[k])
    requires n == (if IsDigits(id) then |id| else |id| - 1) && 1 <= n
    requires forall j :: 0 <= j < n ==> IsDigit(id[j])
    requires !IsDigits(id) ==> IsAsciiLetter(id[|id| - 1]) && !IsDigit(id[|id| - 1])
    requires rest == [] || (!IsDigit(rest[0]) && (IsDigits(id) ==> !IsAsciiLetter(rest[0])))
    ensures var s, k := kw + sep + id + rest, 7 + |sep|;
      s[..7] == kw && s[k..k + |id|] == id &&
      (forall j :: 7 <= j < k ==> IsSeparator(s[j])) &&
      (forall j :: k <= j < k + n ==> IsDigit(s[j])) &&
      (k + n == |s| || !IsDigit(s[k + n])) &&
      (if k + n < |s| && IsAsciiLetter(s[k + n]) then k + n + 1 else k + n) == k + |id|
  {
    var head := kw + sep;
    var tail := id + rest;
    assert kw + sep + id + rest == head + tail;
    forall j | 7 <= j < |head| ensures IsSeparator(head[j]) {
      assert head[j] == sep[j - 7];
    }
    forall j | 0 <= j < n ensures IsDigit(tail[j]) {
      assert tail[j] == id[j];
    }
    assert tail[..|id|] == id;
    if n < |tail| {
      if IsDigits(id) { assert tail[n] == rest[0]; } else { assert tail[n] == id[n]; }
    }
  }

  /** A name that starts with the keyword, separators up to `k` and digits
      from `k` up to `e` gives the digits, with the letter after them if
      there is one. */
  lemma ProblemAtStart(s: string, k: nat, e: nat)
    requires 7 <= k < e <= |s| && LitCI(s, 0, "problem")
    requires forall j :: 7 <= j < k ==> IsSeparator(s[j])
    requires forall j :: k <= j < e ==> IsDigit(s[j])
    requires e == |s| || !IsDigit(s[e])
    ensures ProblemNumber(s) == Some(s[k..if e < |s| && IsAsciiLetter(s[e]) then e + 1 else e])
  {
    assert !IsSeparator(s[k]);
    RunEndAt(s, 7, IsSeparator, k);
    RunEndAt(s, k, IsDigit, e);
    var g := if e < |s| && IsAsciiLetter(s[e]) then e + 1 else e;
    assert ProblemAt(s, 0) == Some(Hit(0, k, g, g));
  }

  /** A run that ends where `p` first fails is the longest run. */
  lemma RunEndAt(s: string, i: nat, p: char -> bool, e: nat)
    requires i <= e <= |s| && (forall k :: i <= k < e ==> p(s[k])) && (e == |s| || !p(s[e]))
    ensures RunEnd(s, i, p) == e
  {
  }

  // ---------------------------------------------------------------------
  // Test files

  /** `<rubric>/test_cases/Lab<lab>/test_problem<p>.py`. */
  function TestCasePath(rubricDir: string, problem: string, lab: string): (r: string)
    ensures r == rubricDir + "/test_cases/Lab" + lab + "/test_problem" + problem + ".py"
    ensures StartsWith(r, rubricDir) && EndsWith(r, "/test_problem" + problem + ".py")
  {
    var name := "/test_problem" + problem + ".py";
    var r := Paths.JoinPath(Paths.JoinPath(Paths.JoinPath(rubricDir, "test_cases"), "Lab" + lab), "test_problem" + problem + ".py");
    var labDir := rubricDir + "/test_cases/Lab" + lab;
    assert r == labDir + name;
    assert r[..|rubricDir|] == rubricDir;
    assert r[|r| - |name|..] == name;
    r
  }

  /** `find_test_cases`: the test file of a problem when it exists. */
  function FindTestCases(rubricDir: string, problem: string, lab: string, isFile: string -> bool): (r: Option<string>)
    ensures r.Some? <==> isFile(TestCasePath(rubricDir, problem, lab))
    ensures r.Some? ==> r.value == rubricDir + "/test_cases/Lab" + lab + "/test_problem" + problem + ".py"
    ensures r.Some? ==> StartsWith(r.value, rubricDir) && EndsWith(r.value, "/test_problem" + problem + ".py")
  {
    var path := TestCasePath(rubricDir, problem, lab);
    if isFile(path) then Some(path) else None
  }

  // ---------------------------------------------------------------------
  // pytest

  /** How pytest finished: its exit code, that code as `str` renders it,
      and what it wrote to standard output and standard error. */
  datatype PytestRun = PytestRun(exitCode: int, exitText: string, stdout: string, stderr: string)

  /** `run_pytest`'s summary. */
  datatype PytestSummary = PytestSummary(
    passed: bool, exitCode: string, testOutput: string, testError: Option<string>, testDetails: seq<string>)

  /** `\r\n`, then every remaining `\r`, turned into `\n`. */
  function Normalised(s: string): (r: string)
    ensures '\r' !in r
    ensures r == "" <==> s == ""
  {
    var a := Replace(s, "\r\n", "\n");
    ReplaceCharRemoves(a, '\r', "\n");
    ReplaceNonEmpty(s, "\r\n", "\n");
    ReplaceNonEmpty(a, "\r", "\n");
    Replace(a, "\r", "\n")
  }

  /** Universal newlines, one character at a time: `\r\n` and a lone `\r`
      each become `\n`, every other character stays. */
  function LineEndsAsLf(s: string): (r: string)
    decreases |s|
  {
    if |s| == 0 then ""
    else if s[0] == '\r' then "\n" + LineEndsAsLf(if 2 <= |s| && s[1] == '\n' then s[2..] else s[1..])
    else [s[0]] + LineEndsAsLf(s[1..])
  }

  /** The two replacements `run_pytest` chains are universal newlines. */
  lemma {:induction false} NormalisedIsLineEndsAsLf(s: string)
    ensures Normalised(s) == LineEndsAsLf(s)
    decreases |s|
  {
    if |s| == 0 {
      assert Normalised(s) == "";
    } else if OccursAt(s, "\r\n", 0) {
      NormalisedIsLineEndsAsLf(s[2..]);
      CrLfCase(s);
    } else {
      NormalisedIsLineEndsAsLf(s[1..]);
      OtherCase(s);
    }
  }

  lemma CrLfCase(s: string)
    requires OccursAt(s, "\r\n", 0) && Normalised(s[2..]) == LineEndsAsLf(s[2..])
    ensures Normalised(s) == LineEndsAsLf(s)
  {
    NormalisedCrLf(s);
    assert s[..2] == "\r\n";
    assert s[0] == '\r' && s[1] == '\n';
  }

  lemma OtherCase(s: string)
    requires |s| > 0 && !OccursAt(s, "\r\n", 0) && Normalised(s[1..]) == LineEndsAsLf(s[1..])
    ensures Normalised(s) == LineEndsAsLf(s)
  {
    NormalisedOther(s);
    if s[0] == '\r' && 2 <= |s| {
      LoneCr(s);
    }
  }

  /** A leading `\r\n` normalises to `\n`. */
  lemma NormalisedCrLf(s: string)
    requires OccursAt(s, "\r\n", 0)
    ensures Normalised(s) == "\n" + Normalised(s[2..])
  {
    var tail := Replace(s[2..], "\r\n", "\n");
    ReplaceStep(s, "\r\n", "\n");
    assert Replace(s, "\r\n", "\n") == "\n" + tail;
    ReplaceCharConcat("\n", tail, '\r', '\n');
    ReplaceCharMap("\n", '\r', '\n');
    assert Replace("\n", "\r", "\n") == "\n";
  }

  /** Any other first character normalises on its own. */
  lemma NormalisedOther(s: string)
    requires |s| > 0 && !OccursAt(s, "\r\n", 0)
    ensures s[0] == '\r' ==> Normalised(s) == "\n" + Normalised(s[1..])
    ensures s[0] != '\r' ==> Normalised(s) == [s[0]] + Normalised(s[1..])
  {
    var tail := Replace(s[1..], "\r\n", "\n");
    ReplaceStep(s, "\r\n", "\n");
    ReplaceCharCons(s[0], tail, '\r', "\n");
    NormalisedDef(s);
    NormalisedDef(s[1..]);
  }

  /** `Normalised` is the two replacements in turn. */
  lemma NormalisedDef(s: string)
    ensures Normalised(s) == Replace(Replace(s, "\r\n", "\n"), "\r", "\n")
  {
  }

  /** A `\r` that does not start `\r\n` is not followed by `\n`. */
  lemma LoneCr(s: string)
    requires 2 <= |s| && s[0] == '\r' && !OccursAt(s, "\r\n", 0)
    ensures s[1] != '\n'
  {
    assert s[0..2] == [s[0], s[1]];
  }

  /** Replacing by something non-empty leaves a non-empty text non-empty. */
  lemma ReplaceNonEmpty(s: string, pat: string, rep: string)
    requires |pat| > 0 && |rep| > 0
    ensures Replace(s, pat, rep) == "" <==> s == ""
  {
    match Find(s, pat)
    case None =>
    case Some(i) =>
  }

  /** Text without `\r` is already normalised. */
  lemma NormalisedKeeps(s: string)
    requires '\r' !in s
    ensures Normalised(s) == s
  {
    assert !Contains(s, "\r\n") by {
      forall i | 0 <= i <= |s| ensures !OccursAt(s, "\r\n", i) {
        if i + 2 <= |s| { assert s[i..i + 2][0] == s[i]; }
      }
    }
    NotContainsChar(s, '\r');
  }

  /** Normalising twice is normalising once. */
  lemma NormalisedIdempotent(s: string)
    ensures Normalised(Normalised(s)) == Normalised(s)
  {
    NormalisedKeeps(Normalised(s));
  }

  /** A line that names a test: it contains `test_` and `::`. */
  predicate IsDetail(line: string)
  {
    Contains(line, "test_") && Contains(line, "::")
  }

  /** The stripped lines that name a test, in order. */
  function Details(lines: seq<string>): (ds: seq<string>)
    ensures |ds| <= |lines|
  {
    if |lines| == 0 then []
    else
      var last := lines[|lines| - 1];
      Details(lines[..|lines| - 1]) + if IsDetail(last) then [Strip(last)] else []
  }

  /** The details of two runs of lines are those of the first, then those
      of the second. */
  lemma {:induction false} DetailsAppend(a: seq<string>, b: seq<string>)
    ensures Details(a + b) == Details(a) + Details(b)
    decreases |b|
  {
    if |b| > 0 {
      assert (a + b)[..|a + b| - 1] == a + b[..|b| - 1];
      DetailsAppend(a, b[..|b| - 1]);
    } else {
      assert a + b == a;
    }
  }

  /** One line gives its stripped self when it names a test, else nothing. */
  lemma DetailsSingle(line: string)
    ensures Details([line]) == if IsDetail(line) then [Strip(line)] else []
  {
    assert [line][..0] == [];
  }

  /** A pattern with no white space at its ends survives `strip`. */
  lemma StripKeeps(s: string, p: string)
    requires Contains(s, p) && |p| > 0 && !IsSpace(p[0]) && !IsSpace(p[|p| - 1])
    ensures Contains(Strip(s), p)
  {
    LStripKeeps(s, p);
    RStripKeeps(LStrip(s), p);
  }

  lemma LStripKeeps(s: string, p: string)
    requires Contains(s, p) && |p| > 0 && !IsSpace(p[0])
    ensures Contains(LStrip(s), p)
  {
    var i :| 0 <= i <= |s| && OccursAt(s, p, i);
    var l := LStrip(s);
    var off := |s| - |l|;
    assert s[i] == p[0];
    assert l[i - off..i - off + |p|] == s[i..i + |p|];
    assert OccursAt(l, p, i - off);
  }

  lemma RStripKeeps(s: string, p: string)
    requires Contains(s, p) && |p| > 0 && !IsSpace(p[|p| - 1])
    ensures Contains(RStrip(s), p)
  {
    var i :| 0 <= i <= |s| && OccursAt(s, p, i);
    var r := RStrip(s);
    assert s[i + |p| - 1] == p[|p| - 1];
    assert r[i..i + |p|] == s[i..i + |p|];
    assert OccursAt(r, p, i);
  }

  /** A line that names a test still does once stripped. */
  lemma StripDetail(line: string)
    requires IsDetail(line)
    ensures IsDetail(Strip(line))
  {
    assert !IsSpace('t') && !IsSpace('_') && !IsSpace(':');
    assert "test_"[0] == 't' && "test_"[4] == '_' && "::"[0] == ':' && "::"[1] == ':';
    StripKeeps(line, "test_");
    StripKeeps(line, "::");
  }

  /** Every detail is a stripped line that names a test. */
  lemma {:induction false} DetailsShape(lines: seq<string>)
    ensures forall k :: 0 <= k < |Details(lines)| ==> Stripped(Details(lines)[k]) && IsDetail(Details(lines)[k])
  {
    if |lines| > 0 {
      var last := lines[|lines| - 1];
      var init := Details(lines[..|lines| - 1]);
      DetailsShape(lines[..|lines| - 1]);
      if IsDetail(last) {
        StripDetail(last);
        assert Details(lines) == init + [Strip(last)];
      } else {
        assert Details(lines) == init;
      }
    }
  }

  /** There is one detail for each line that names a test. */
  lemma {:induction false} DetailsCount(lines: seq<string>)
    ensures |Details(lines)| == CountWhere(lines, IsDetail)
  {
    if |lines| > 0 {
      DetailsCount(lines[..|lines| - 1]);
    }
  }

  /** The number of lines satisfying `p`. */
  function CountWhere(lines: seq<string>, p: string -> bool): (n: nat)
    ensures n <= |lines|
  {
    if |lines| == 0 then 0
    else CountWhere(lines[..|lines| - 1], p) + if p(lines[|lines| - 1]) then 1 else 0
  }

  /** `run_pytest` from how pytest finished: passed exactly on exit code
      0, the output with its line endings normalised, the error only when
      standard error is not empty, and the details from the output's
      lines. */
  function PytestSummaryOf(run: PytestRun): (r: PytestSummary)
    ensures r.passed <==> run.exitCode == 0
    ensures r.exitCode == run.exitText
    ensures '\r' !in r.testOutput
    ensures r.testError.None? <==> run.stderr == ""
    ensures r.testError.Some? ==> '\r' !in r.testError.value
    ensures r.testOutput == LineEndsAsLf(run.stdout)
    ensures r.testError.Some? ==> r.testError.value == LineEndsAsLf(run.stderr)
    ensures r.testDetails == Details(Split(r.testOutput, "\n"))
  {
    NormalisedIsLineEndsAsLf(run.stdout);
    NormalisedIsLineEndsAsLf(run.stderr);
    var output := Normalised(run.stdout);
    var error := Normalised(run.stderr);
    PytestSummary(run.exitCode == 0, run.exitText, output, if error == "" then None else Some(error),
                  Details(Split(output, "\n")))
  }

  /** `run_pytest`: the details are gathered line by line. */
  method RunPytest(run: PytestRun) returns (r: PytestSummary)
    ensures r == PytestSummaryOf(run)
  {
    var output := Normalised(run.stdout);
    var error := Normalised(run.stderr);
    var lines := Split(output, "\n");
    var details: seq<string> := [];
    for i := 0 to |lines|
      invariant details == Details(lines[..i])
    {
      assert lines[..i + 1][..i] == lines[..i];
      if IsDetail(lines[i]) {
        details := details + [Strip(lines[i])];
      }
    }
    assert lines[..|lines|] == lines;
    r := PytestSummary(run.exitCode == 0, run.exitText, output, if error == "" then None else Some(error), details);
  }

  // ---------------------------------------------------------------------
  // Counts and quality

  predicate HasPassed(line: string) { Contains(line, "PASSED") }

  predicate HasFailed(line: string) { Contains(line, "FAILED") }

  /** The counts of one problem: all details, those that passed and those
      that failed. */
  datatype RunSummary = RunSummary(passed: bool, exitCode: string, totalTests: nat, passedTests: nat, failedTests: nat)

  function SummaryOf(s: PytestSummary): (r: RunSummary)
    ensures r.passed == s.passed && r.exitCode == s.exitCode && r.totalTests == |s.testDetails|
    ensures r.passedTests == CountWhere(s.testDetails, HasPassed)
    ensures r.failedTests == CountWhere(s.testDetails, HasFailed)
    ensures r.passedTests <= r.totalTests && r.failedTests <= r.totalTests
  {
    RunSummary(s.passed, s.exitCode, |s.testDetails|, CountWhere(s.testDetails, HasPassed),
               CountWhere(s.testDetails, HasFailed))
  }

  /** When no line both passed and failed, the two counts together are at
      most all lines. */
  lemma {:induction false} CountsDisjoint(lines: seq<string>)
    requires forall k :: 0 <= k < |lines| ==> !(HasPassed(lines[k]) && HasFailed(lines[k]))
    ensures CountWhere(lines, HasPassed) + CountWhere(lines, HasFailed) <= |lines|
  {
    if |lines| > 0 {
      CountsDisjoint(lines[..|lines| - 1]);
    }
  }

  /** Every line counts as passed or failed exactly when the two counts
      add up to all lines. */
  lemma {:induction false} CountsCover(lines: seq<string>)
    requires forall k :: 0 <= k < |lines| ==> HasPassed(lines[k]) != HasFailed(lines[k])
    ensures CountWhere(lines, HasPassed) + CountWhere(lines, HasFailed) == |lines|
  {
    if |lines| > 0 {
      CountsCover(lines[..|lines| - 1]);
    }
  }

  /** `has_quality_issues`: some tool reports issues, or there are no
      quality results at all. */
  function HasQualityIssues(quality: Dict.Dict<QualityRunnerMain.ToolRecord>): (b: bool)
    ensures b <==> |quality| == 0 || exists i :: 0 <= i < |quality| && quality[i].1.hasIssues
  {
    |quality| == 0 || AnyIssues(quality)
  }

  function AnyIssues(quality: Dict.Dict<QualityRunnerMain.ToolRecord>): (b: bool)
    ensures b <==> exists i :: 0 <= i < |quality| && quality[i].1.hasIssues
  {
    if |quality| == 0 then false
    else
      assert forall i :: 1 <= i < |quality| ==> quality[i] == quality[1..][i - 1];
      quality[0].1.hasIssues || AnyIssues(quality[1..])
  }

  /** With the quality checks as run, there are issues exactly when one of
      the two tools did not report its all-clear text. */
  lemma QualityIssuesOfChecks(flake8: QualityRunnerMain.ToolRun, black: QualityRunnerMain.ToolRun)
    ensures HasQualityIssues(QualityRunnerMain.RunQualityChecks(flake8, black)) <==>
      !(flake8.Output? && flake8.text == "No style issues found") ||
      !(black.Output? && black.text == "No formatting issues found")
  {
    var q := QualityRunnerMain.RunQualityChecks(flake8, black);
    assert |q| == 2;
  }

  // ---------------------------------------------------------------------
  // The student's files

  /** What the student list gives for one student. */
  datatype StudentInfo = StudentInfo(id: string, name: string, labFolder: string)

  /** A folder is the student's when it contains the id and, with spaces
      removed from both, the name. */
  predicate IsStudentFolder(folder: string, student: StudentInfo)
  {
    Contains(folder, student.id) && Contains(Replace(folder, " ", ""), Replace(student.name, " ", ""))
  }

  /** The index of the first entry that is the student's folder. */
  function StudentFolderIndex(entries: seq<string>, student: StudentInfo): (r: Option<nat>)
    ensures r.Some? ==> r.value < |entries| && IsStudentFolder(entries[r.value], student)
    ensures r.Some? ==> forall k :: 0 <= k < r.value ==> !IsStudentFolder(entries[k], student)
    ensures r.None? ==> forall k :: 0 <= k < |entries| ==> !IsStudentFolder(entries[k], student)
  {
    if |entries| == 0 then None
    else if IsStudentFolder(entries[0], student) then Some(0)
    else
      var rest := StudentFolderIndex(entries[1..], student);
      assert forall k :: 1 <= k < |entries| ==> entries[k] == entries[1..][k - 1];
      if rest.None? then None else Some(rest.value + 1)
  }

  /** The loop over the lab folder's listing that stops at the student's
      folder. */
  method FindStudentFolder(entries: seq<string>, labFolderPath: string, student: StudentInfo)
    returns (r: Option<string>)
    ensures r.None? <==> StudentFolderIndex(entries, student).None?
    ensures r.Some? ==> r.value == Paths.JoinPath(labFolderPath, entries[StudentFolderIndex(entries, student).value])
  {
    r := None;
    var i := 0;
    while i < |entries|
      invariant 0 <= i <= |entries|
      invariant forall j :: 0 <= j < i ==> !IsStudentFolder(entries[j], student)
    {
      if IsStudentFolder(entries[i], student) {
        StudentFolderAt(entries, student, i);
        r := Some(Paths.JoinPath(labFolderPath, entries[i]));
        return;
      }
      i := i + 1;
    }
  }

  /** The first matching entry is the one found. */
  lemma {:induction false} StudentFolderAt(entries: seq<string>, student: StudentInfo, i: nat)
    requires i < |entries| && IsStudentFolder(entries[i], student)
    requires forall k :: 0 <= k < i ==> !IsStudentFolder(entries[k], student)
    ensures StudentFolderIndex(entries, student) == Some(i)
  {
    if i > 0 {
      assert entries[1..][i - 1] == entries[i];
      StudentFolderAt(entries[1..], student, i - 1);
    }
  }

  /** A file `os.walk` yields: its directory and its name. */
  datatype WalkEntry = WalkEntry(root: string, name: string)

  /** A `.py` file whose name gives a problem number, with that number. */
  function PythonFile(e: WalkEntry): (r: Option<(string, string)>)
    ensures r.Some? ==> EndsWith(e.name, ".py") && ProblemNumber(e.name) == Some(r.value.1)
    ensures r.Some? ==> r.value.0 == Paths.JoinPath(e.root, e.name)
    ensures r.None? ==> !EndsWith(e.name, ".py") || ProblemNumber(e.name).None?
  {
    if EndsWith(e.name, ".py") && ProblemNumber(e.name).Some? then
      Some((Paths.JoinPath(e.root, e.name), ProblemNumber(e.name).value))
    else None
  }

  /** The results `f` gives for the elements of `xs`, in order, leaving
      out the elements it gives none for. */
  function Kept<T, U>(xs: seq<T>, f: T -> Option<U>): (ys: seq<U>)
    ensures |ys| <= |xs|
  {
    if |xs| == 0 then []
    else
      var y := f(xs[|xs| - 1]);
      Kept(xs[..|xs| - 1], f) + if y.Some? then [y.value] else []
  }

  /** A result is kept exactly when `f` gives it for some element. */
  lemma {:induction false} KeptExact<T, U>(xs: seq<T>, f: T -> Option<U>, y: U)
    ensures y in Kept(xs, f) <==> exists k :: 0 <= k < |xs| && f(xs[k]) == Some(y)
  {
    if |xs| > 0 {
      var init := xs[..|xs| - 1];
      KeptExact(init, f, y);
      if exists k :: 0 <= k < |xs| && f(xs[k]) == Some(y) {
        var k :| 0 <= k < |xs| && f(xs[k]) == Some(y);
        if k < |xs| - 1 {
          assert init[k] == xs[k];
        }
      }
      if exists k :: 0 <= k < |init| && f(init[k]) == Some(y) {
        var k :| 0 <= k < |init| && f(init[k]) == Some(y);
        assert xs[k] == init[k];
      }
    }
  }

  /** The Python files to test, in the order they were walked. */
  function PythonFiles(walk: seq<WalkEntry>): (files: seq<(string, string)>)
    ensures |files| <= |walk|
  {
    Kept(walk, PythonFile)
  }

  /** A file is tested under a number exactly when some walked `.py`
      file's name gives that number. */
  lemma PythonFilesExact(walk: seq<WalkEntry>, file: (string, string))
    ensures file in PythonFiles(walk) <==> exists k :: 0 <= k < |walk| && PythonFile(walk[k]) == Some(file)
  {
    KeptExact(walk, PythonFile, file);
  }

  /** The loop that gathers the Python files. */
  method CollectPythonFiles(walk: seq<WalkEntry>) returns (files: seq<(string, string)>)
    ensures files == PythonFiles(walk)
  {
    files := [];
    for i := 0 to |walk|
      invariant files == Kept(walk[..i], PythonFile)
    {
      assert walk[..i + 1][..i] == walk[..i];
      var e := walk[i];
      if EndsWith(e.name, ".py") {
        var problem := ProblemNumber(e.name);
        if problem.Some? {
          files := files + [(Paths.JoinPath(e.root, e.name), problem.value)];
        }
      }
    }
    assert walk[..|walk|] == walk;
  }

  // ---------------------------------------------------------------------
  // Problems

  /** One recorded problem, as the results file lays it out: the solution,
      the test summary and details, and the quality summary and results. */
  datatype ProblemEntry = ProblemEntry(
    solutionPath: string, summary: RunSummary, testCases: seq<string>, fullOutput: string,
    errorOutput: Option<string>, hasQualityIssues: bool, toolsRun: seq<string>,
    toolResults: Dict.Dict<QualityRunnerMain.ToolRecord>)

  /** The record of a problem from its pytest summary and quality results:
      the counts from the details, the error output only when there was
      one, and the tools that ran. */
  function EntryOf(path: string, s: PytestSummary, quality: Dict.Dict<QualityRunnerMain.ToolRecord>): (e: ProblemEntry)
    ensures e.summary.totalTests == |e.testCases| && e.testCases == s.testDetails
    ensures e.errorOutput == s.testError
    ensures e.toolsRun == Dict.Keys(e.toolResults)
    ensures e.solutionPath == path && e.fullOutput == s.testOutput
    ensures e.summary == SummaryOf(s) && e.summary.passed == s.passed
    ensures e.hasQualityIssues == HasQualityIssues(quality) && e.toolResults == quality
  {
    ProblemEntry(path, SummaryOf(s), s.testDetails, s.testOutput, s.testError, HasQualityIssues(quality),
                 Dict.Keys(quality), quality)
  }

  /** What happens around pytest and the quality tools. */
  datatype PytestOutcome = Ran(run: PytestRun) | Crashed(message: string)

  /** The world the runner sees: directory listings, the walk of a folder,
      which files exist, the code read from a file, pytest on a test file
      with the solution written to a temporary file, the quality tools on
      that file, and the clock. */
  datatype Env = Env(
    listDir: string -> seq<string>,
    walk: string -> seq<WalkEntry>,
    isFile: string -> bool,
    readCode: string -> Option<string>,
    pytest: (string, string, string) -> PytestOutcome,
    quality: (string, string) -> (QualityRunnerMain.ToolRun, QualityRunnerMain.ToolRun),
    timestamp: string)

  /** `<results>/temp/problem<p>.py`. */
  function TempFile(resultsDir: string, problem: string): (r: string)
    ensures EndsWith(r, "/problem" + problem + ".py")
  {
    Paths.JoinPath(Paths.JoinPath(resultsDir, "temp"), "problem" + problem + ".py")
  }

  /** What the loop over the files works with: the lab number, the
      rubric and results directories, and the world. */
  datatype Setup = Setup(lab: string, rubricDir: string, resultsDir: string, env: Env)

  /** The record of one Python file: none without a test file, without
      readable code or when the run raises; otherwise the entry built from
      the pytest summary of the test file on the copied code and from the
      quality checks of that copy. */
  function EntryFor(setup: Setup, file: (string, string)): (r: Option<ProblemEntry>)
    ensures r.Some? <==>
      setup.env.isFile(TestCasePath(setup.rubricDir, file.1, setup.lab)) && setup.env.readCode(file.0).Some? &&
      setup.env.pytest(TestCasePath(setup.rubricDir, file.1, setup.lab), TempFile(setup.resultsDir, file.1),
                       setup.env.readCode(file.0).value).Ran?
    ensures r.Some? ==>
      var code := setup.env.readCode(file.0).value;
      var temp := TempFile(setup.resultsDir, file.1);
      var tools := setup.env.quality(temp, code);
      r.value == EntryOf(file.0, PytestSummaryOf(setup.env.pytest(TestCasePath(setup.rubricDir, file.1, setup.lab), temp, code).run),
                         QualityRunnerMain.RunQualityChecks(tools.0, tools.1))
  {
    match FindTestCases(setup.rubricDir, file.1, setup.lab, setup.env.isFile)
    case None => None
    case Some(testFile) =>
      match setup.env.readCode(file.0)
      case None => None
      case Some(code) =>
        var temp := TempFile(setup.resultsDir, file.1);
        match setup.env.pytest(testFile, temp, code)
        case Crashed(_) => None
        case Ran(run) =>
          var tools := setup.env.quality(temp, code);
          Some(EntryOf(file.0, PytestSummaryOf(run), QualityRunnerMain.RunQualityChecks(tools.0, tools.1)))
  }

  /** The dictionary after storing, file by file, what `f` gives for the
      file under the file's key, a later value replacing an earlier one. */
  function Stored<C, V>(c: C, files: seq<(string, string)>, f: (C, (string, string)) -> Option<V>)
    : (d: Dict.Dict<V>)
    ensures |d| <= |files|
  {
    if |files| == 0 then []
    else
      var init := Stored(c, files[..|files| - 1], f);
      var last := files[|files| - 1];
      var v := f(c, last);
      if v.None? then init else Dict.Put(init, last.1, v.value)
  }

  /** A key is stored exactly when `f` gives something for a file with
      that key, and no key is stored twice. */
  lemma StoredKeys<C, V>(c: C, files: seq<(string, string)>, f: (C, (string, string)) -> Option<V>, p: string)
    ensures Dict.UniqueKeys(Stored(c, files, f))
    ensures Dict.HasKey(Stored(c, files, f), p) <==>
      exists i :: 0 <= i < |files| && files[i].1 == p && f(c, files[i]).Some?
  {
    StoredUnique(c, files, f);
    StoredHasKey(c, files, f, p);
  }

  lemma {:induction false} StoredUnique<C, V>(c: C, files: seq<(string, string)>, f: (C, (string, string)) -> Option<V>)
    ensures Dict.UniqueKeys(Stored(c, files, f))
    decreases |files|
  {
    if |files| > 0 {
      var init := files[..|files| - 1];
      var last := files[|files| - 1];
      StoredUnique(c, init, f);
      if f(c, last).Some? {
        Dict.PutUnique(Stored(c, init, f), last.1, f(c, last).value);
      }
    }
  }

  lemma {:induction false} StoredHasKey<C, V>(c: C, files: seq<(string, string)>, f: (C, (string, string)) -> Option<V>,
                                              p: string)
    ensures Dict.HasKey(Stored(c, files, f), p) <==>
      exists i :: 0 <= i < |files| && files[i].1 == p && f(c, files[i]).Some?
    decreases |files|
  {
    if |files| > 0 {
      var init := files[..|files| - 1];
      var last := files[|files| - 1];
      StoredHasKey(c, init, f, p);
      if f(c, last).Some? {
        KeysHasKey(Stored(c, init, f), Stored(c, files, f), last.1, p);
      }
      GivesInit(c, files, f, p);
    }
  }

  /** Some file gives a value for `p` exactly when one before the last
      does or the last one does. */
  lemma GivesInit<C, V>(c: C, files: seq<(string, string)>, f: (C, (string, string)) -> Option<V>, p: string)
    requires |files| > 0
    ensures var init := files[..|files| - 1];
      var last := files[|files| - 1];
      (exists i :: 0 <= i < |files| && files[i].1 == p && f(c, files[i]).Some?) <==>
        (exists i :: 0 <= i < |init| && init[i].1 == p && f(c, init[i]).Some?) || (last.1 == p && f(c, last).Some?)
  {
    var init := files[..|files| - 1];
    if exists i :: 0 <= i < |files| && files[i].1 == p && f(c, files[i]).Some? {
      var i :| 0 <= i < |files| && files[i].1 == p && f(c, files[i]).Some?;
      if i < |files| - 1 { assert init[i] == files[i]; }
    }
    if exists i :: 0 <= i < |init| && init[i].1 == p && f(c, init[i]).Some? {
      var i :| 0 <= i < |init| && init[i].1 == p && f(c, init[i]).Some?;
      assert files[i] == init[i];
    }
  }

  /** `j` is the last file with key `p` for which `f` gives something. */
  predicate LastGiving<C, V>(c: C, files: seq<(string, string)>, f: (C, (string, string)) -> Option<V>, p: string, j: int)
  {
    0 <= j < |files| && files[j].1 == p && f(c, files[j]).Some? &&
    forall i :: j < i < |files| ==> files[i].1 != p || f(c, files[i]).None?
  }

  /** A key holds what `f` gave for the last file with that key that gave
      something: later assignments overwrite earlier ones. */
  lemma {:induction false} StoredLast<C, V>(c: C, files: seq<(string, string)>, f: (C, (string, string)) -> Option<V>,
                                            p: string, j: int)
    requires LastGiving(c, files, f, p, j)
    ensures Dict.Get(Stored(c, files, f), p) == f(c, files[j])
    decreases |files|
  {
    var n := |files| - 1;
    if j < n {
      LastGivingInit(c, files, f, p, j);
      StoredMiss(c, files, f, p);
      StoredLast(c, files[..n], f, p, j);
    } else {
      StoredHit(c, files, f, p);
    }
  }

  /** A last file that gives a value under `p` decides the lookup of `p`. */
  lemma StoredHit<C, V>(c: C, files: seq<(string, string)>, f: (C, (string, string)) -> Option<V>, p: string)
    requires |files| > 0 && files[|files| - 1].1 == p && f(c, files[|files| - 1]).Some?
    ensures Dict.Get(Stored(c, files, f), p) == f(c, files[|files| - 1])
  {
    var n := |files| - 1;
    var v := f(c, files[n]);
    assert Stored(c, files, f) == Dict.Put(Stored(c, files[..n], f), p, v.value);
    Dict.GetPut(Stored(c, files[..n], f), p, v.value, p);
  }

  /** A last file that gives nothing under `p` leaves the lookup of `p` as
      it was before it. */
  lemma StoredMiss<C, V>(c: C, files: seq<(string, string)>, f: (C, (string, string)) -> Option<V>, p: string)
    requires |files| > 0 && (files[|files| - 1].1 != p || f(c, files[|files| - 1]).None?)
    ensures Dict.Get(Stored(c, files, f), p) == Dict.Get(Stored(c, files[..|files| - 1], f), p)
  {
    var n := |files| - 1;
    var before := Stored(c, files[..n], f);
    var v := f(c, files[n]);
    if v.Some? {
      assert Stored(c, files, f) == Dict.Put(before, files[n].1, v.value);
      Dict.GetPut(before, files[n].1, v.value, p);
    }
  }

  /** The last giving file before the end is also the last one among the
      files before the end. */
  lemma LastGivingInit<C, V>(c: C, files: seq<(string, string)>, f: (C, (string, string)) -> Option<V>, p: string, j: int)
    requires LastGiving(c, files, f, p, j) && j < |files| - 1
    ensures LastGiving(c, files[..|files| - 1], f, p, j) && files[..|files| - 1][j] == files[j]
    ensures files[|files| - 1].1 != p || f(c, files[|files| - 1]).None?
  {
    var init := files[..|files| - 1];
    forall i | j < i < |init| ensures init[i].1 != p || f(c, init[i]).None? {
      assert init[i] == files[i];
    }
  }

  /** Membership of a key after one more key is added to the keys. */
  lemma KeysHasKey<V>(before: Dict.Dict<V>, after: Dict.Dict<V>, k: string, p: string)
    requires Dict.Keys(after) == if Dict.HasKey(before, k) then Dict.Keys(before) else Dict.Keys(before) + [k]
    ensures Dict.HasKey(after, p) <==> Dict.HasKey(before, p) || p == k
  {
    if Dict.HasKey(after, p) {
      var i :| 0 <= i < |after| && after[i].0 == p;
      assert Dict.Keys(after)[i] == p;
      if i < |before| { assert Dict.Keys(before)[i] == p; }
    }
    if Dict.HasKey(before, p) {
      var i :| 0 <= i < |before| && before[i].0 == p;
      assert Dict.Keys(before)[i] == p;
      assert Dict.Keys(after)[i] == p;
    }
    if p == k && !Dict.HasKey(before, k) {
      assert Dict.Keys(after)[|before|] == k;
    }
  }

  /** `combined_results['problems']` after the files. */
  function Recorded(setup: Setup, files: seq<(string, string)>): (problems: Dict.Dict<ProblemEntry>)
    ensures |problems| <= |files|
  {
    Stored(setup, files, EntryFor)
  }

  /** Recording one more file: its entry, if it gave one, is put under its
      number. */
  lemma RecordedStep(setup: Setup, files: seq<(string, string)>, i: int)
    requires 0 <= i < |files|
    ensures var e := EntryFor(setup, files[i]);
      Recorded(setup, files[..i + 1]) ==
        if e.None? then Recorded(setup, files[..i]) else Dict.Put(Recorded(setup, files[..i]), files[i].1, e.value)
  {
    assert files[..i + 1][..i] == files[..i];
  }

  /** A problem is recorded exactly when some file with its number gave a
      record, and no number is recorded twice. */
  lemma RecordedKeys(setup: Setup, files: seq<(string, string)>, p: string)
    ensures Dict.UniqueKeys(Recorded(setup, files))
    ensures Dict.HasKey(Recorded(setup, files), p) <==>
      exists i :: 0 <= i < |files| && files[i].1 == p && EntryFor(setup, files[i]).Some?
  {
    StoredKeys(setup, files, EntryFor, p);
  }

  /** `combined_results['problems'][n]` holds the entry of the last file
      numbered `n` that gave one. */
  lemma RecordedLast(setup: Setup, files: seq<(string, string)>, p: string, j: int)
    requires LastGiving(setup, files, EntryFor, p, j)
    ensures Dict.Get(Recorded(setup, files), p) == EntryFor(setup, files[j])
    ensures EntryFor(setup, files[j]).Some?
  {
    StoredLast(setup, files, EntryFor, p, j);
  }

  // ---------------------------------------------------------------------
  // One student's run

  /** `<name>_<id>_Lab<lab>_results.json`. */
  function ResultsName(student: StudentInfo, lab: string): string
  {
    student.name + "_" + student.id + "_Lab" + lab + "_results.json"
  }

  /** `<results>/Lab<lab>/<name>_<id>_Lab<lab>_results.json`: the file
      sits in the lab's own directory under the results directory. */
  function ResultsPath(resultsDir: string, student: StudentInfo, lab: string): (r: string)
    ensures EndsWith(r, "/" + ResultsName(student, lab))
    ensures StartsWith(r, Paths.JoinPath(resultsDir, "Lab" + lab))
  {
    Paths.JoinPath(Paths.JoinPath(resultsDir, "Lab" + lab), ResultsName(student, lab))
  }

  /** The combined results written for a student: where, the metadata and
      the recorded problems. */
  datatype ResultsFile = ResultsFile(path: string, metadata: TestResultAnalysis.Metadata,
                                     problems: Dict.Dict<ProblemEntry>)

  /** How a run for one student ends: it stops early when the lab folder
      has no lab number, when no submission folder is the student's or when
      no Python file gives a problem number; otherwise it tested the files
      and wrote the results file exactly when some problem was recorded. */
  datatype Outcome =
    | NoLabNumber
    | NoStudentFolder
    | NoPythonFiles
    | Tested(lab: string, files: seq<(string, string)>, problems: Dict.Dict<ProblemEntry>,
             written: Option<ResultsFile>)

  /** The outcome once the files are known: every file tested, and the
      results file when some problem was recorded, carrying the student,
      the lab and the clock's time. */
  function Tests(student: StudentInfo, lab: string, files: seq<(string, string)>, rubricDir: string,
                 resultsDir: string, env: Env): (o: Outcome)
    ensures o.Tested? && o.lab == lab && o.files == files
    ensures o.written.Some? ==> o.written.value.problems == o.problems && 0 < |o.problems|
    ensures o.written.Some? ==>
      o.written.value.path == ResultsPath(resultsDir, student, lab) &&
      o.written.value.metadata == TestResultAnalysis.Metadata(student.name, student.id, lab, env.timestamp)
  {
    var problems := Recorded(Setup(lab, rubricDir, resultsDir, env), files);
    var metadata := TestResultAnalysis.Metadata(student.name, student.id, lab, env.timestamp);
    Tested(lab, files, problems,
           if |problems| == 0 then None else Some(ResultsFile(ResultsPath(resultsDir, student, lab), metadata, problems)))
  }

  /** `run_tests_for_student`, as a function of the world. */
  function RunOutcome(student: StudentInfo, submissionFolder: string, rubricDir: string, resultsDir: string,
                      env: Env): (o: Outcome)
    ensures o.NoLabNumber? <==> LabNumber(student.labFolder).None?
    ensures o.Tested? ==> LabNumber(student.labFolder) == Some(o.lab) && 0 < |o.files|
    ensures o.Tested? ==> o == Tests(student, o.lab, o.files, rubricDir, resultsDir, env)
  {
    match LabNumber(student.labFolder)
    case None => NoLabNumber
    case Some(lab) =>
      var labPath := Paths.JoinPath(submissionFolder, student.labFolder);
      var entries := env.listDir(labPath);
      var k := StudentFolderIndex(entries, student);
      if k.None? then NoStudentFolder
      else
        var files := PythonFiles(env.walk(Paths.JoinPath(labPath, entries[k.value])));
        if |files| == 0 then NoPythonFiles
        else Tests(student, lab, files, rubricDir, resultsDir, env)
  }

  /** One pass of the loop over the files: find the test file, read the
      code, run pytest on it and then the quality tools. */
  method TestFile(setup: Setup, file: (string, string)) returns (e: Option<ProblemEntry>)
    ensures e == EntryFor(setup, file)
  {
    var (path, p) := file;
    var testFile := FindTestCases(setup.rubricDir, p, setup.lab, setup.env.isFile);
    if testFile.None? {
      return None;
    }
    var code := setup.env.readCode(path);
    if code.None? {
      return None;
    }
    var temp := TempFile(setup.resultsDir, p);
    var outcome := setup.env.pytest(testFile.value, temp, code.value);
    if outcome.Crashed? {
      return None;
    }
    var summary := RunPytest(outcome.run);
    var tools := setup.env.quality(temp, code.value);
    var quality := QualityRunnerMain.RunQualityChecks(tools.0, tools.1);
    e := Some(EntryOf(path, summary, quality));
  }

  /** The loop over the files and the saving of the combined results. */
  method TestFiles(student: StudentInfo, lab: string, files: seq<(string, string)>, rubricDir: string,
                   resultsDir: string, env: Env) returns (o: Outcome)
    ensures o == Tests(student, lab, files, rubricDir, resultsDir, env)
  {
    var setup := Setup(lab, rubricDir, resultsDir, env);
    var problems: Dict.Dict<ProblemEntry> := [];
    for i := 0 to |files|
      invariant problems == Recorded(setup, files[..i])
    {
      RecordedStep(setup, files, i);
      var e := TestFile(setup, files[i]);
      if e.Some? {
        problems := Dict.Put(problems, files[i].1, e.value);
      }
    }
    assert files[..|files|] == files;
    var written := None;
    if |problems| > 0 {
      var metadata := TestResultAnalysis.Metadata(student.name, student.id, lab, env.timestamp);
      written := Some(ResultsFile(ResultsPath(resultsDir, student, lab), metadata, problems));
    }
    o := Tested(lab, files, problems, written);
  }

  /** The run: find the lab number, the student's folder and the Python
      files, then test them. */
  method RunTestsForStudent(student: StudentInfo, submissionFolder: string, rubricDir: string, resultsDir: string,
                            env: Env) returns (o: Outcome)
    ensures o == RunOutcome(student, submissionFolder, rubricDir, resultsDir, env)
  {
    var lab := LabNumber(student.labFolder);
    if lab.None? {
      return NoLabNumber;
    }
    var labPath := Paths.JoinPath(submissionFolder, student.labFolder);
    var folder := FindStudentFolder(env.listDir(labPath), labPath, student);
    if folder.None? {
      return NoStudentFolder;
    }
    var files := CollectPythonFiles(env.walk(folder.value));
    if |files| == 0 {
      return NoPythonFiles;
    }
    o := TestFiles(student, lab.value, files, rubricDir, resultsDir, env);
  }

  /** The results file is written exactly when some Python file gave a
      record, and it holds each problem number at most once. */
  lemma ResultsWrittenIff(student: StudentInfo, lab: string, files: seq<(string, string)>, rubricDir: string,
                          resultsDir: string, env: Env)
    ensures var o := Tests(student, lab, files, rubricDir, resultsDir, env);
      Dict.UniqueKeys(o.problems) &&
      (o.written.Some? <==> exists i :: 0 <= i < |files| && EntryFor(Setup(lab, rubricDir, resultsDir, env), files[i]).Some?)
  {
    var setup := Setup(lab, rubricDir, resultsDir, env);
    StoredUnique(setup, files, EntryFor);
    StoredNonEmpty(setup, files, EntryFor);
  }

  /** Something is stored exactly when `f` gives something for some file. */
  lemma StoredNonEmpty<C, V>(c: C, files: seq<(string, string)>, f: (C, (string, string)) -> Option<V>)
    ensures 0 < |Stored(c, files, f)| <==> exists i :: 0 <= i < |files| && f(c, files[i]).Some?
  {
    var d := Stored(c, files, f);
    if 0 < |d| {
      StoredHasKey(c, files, f, d[0].0);
      assert Dict.HasKey(d, d[0].0);
    }
    if exists i :: 0 <= i < |files| && f(c, files[i]).Some? {
      var i :| 0 <= i < |files| && f(c, files[i]).Some?;
      StoredHasKey(c, files, f, files[i].1);
    }
  }

  /** The recorded problems are the files' problem numbers that gave a
      record. */
  lemma ProblemsRecorded(student: StudentInfo, lab: string, files: seq<(string, string)>, rubricDir: string,
                         resultsDir: string, env: Env, p: string)
    ensures Dict.HasKey(Tests(student, lab, files, rubricDir, resultsDir, env).problems, p) <==>
      exists i :: 0 <= i < |files| && files[i].1 == p && EntryFor(Setup(lab, rubricDir, resultsDir, env), files[i]).Some?
  {
    RecordedKeys(Setup(lab, rubricDir, resultsDir, env), files, p);
  }
}
