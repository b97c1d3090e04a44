/** The test runner of the object-oriented marking assistant. For one
    submission it stages the files in a temporary directory, turns notebooks
    into scripts, installs the packages the code imports, and for every file
    that names a problem records a test outcome and the quality checks. The
    results maps are returned and saved, and the directory is removed
    whatever happened.

    The file system is the runner's state: `workspace` maps each file under
    the temporary directory to its text. The child processes (pip, pytest,
    flake8, black), the clock and the reading of submission files are given
    as parameters. */
module TestRunning {
  import opened Wrappers
  import opened Text
  import opened Scan
  import Dict
  import Json
  import Paths
  import ContentExtractor
  import QualityRunner
  import Loaders

  // ---------------------------------------------------------------------
  // Problem numbers

  /** The keyword alternatives, in the order the expression tries them. */
  const Keywords: seq<string> := ["problem", "q", "question", "task"]

  /** The bounds of a captured group. */
  datatype Span = Span(gs: nat, ge: nat)

  /** A span at or after `j` holding a problem id. */
  predicate IdSpan(s: string, j: nat, g: Span)
  {
    j <= g.gs < g.ge <= |s| && IsProblemId(s[g.gs..g.ge])
  }

  /** `[_\s]?(\d+[a-zA-Z]?)\b` at `j`: the bounds of the captured id. The
      separator is taken when present (without it the next character would
      have to be a digit); the digit run is maximal, and the word boundary
      then decides between taking a following letter and failing. */
  function NumberTail(s: string, j: nat): (r: Option<Span>)
    ensures r.Some? ==> IdSpan(s, j, r.value)
    ensures r.Some? ==> BoundaryAfterWord(s, r.value.ge)
  {
    if j > |s| then None
    else
      var k := if j < |s| && (s[j] == '_' || IsSpace(s[j])) then j + 1 else j;
      var d := DigitsEnd(s, k);
      if d == k then None
      else
        DigitRun(s, k);
        if d < |s| && IsAsciiLetter(s[d]) then
          if BoundaryAfterWord(s, d + 1) then
            assert s[k..d + 1][..d - k] == s[k..d];
            assert s[k..d + 1][d - k] == s[d];
            Some(Span(k, d + 1))
          else None
        else if BoundaryAfterWord(s, d) then Some(Span(k, d))
        else None
  }

  /** Keyword `kw` matches at `i` and its problem-id tail gives `r`. */
  predicate KeywordHit(s: string, i: nat, kw: string, r: Option<Span>)
  {
    LitCI(s, i, kw) && NumberTail(s, i + |kw|) == r
  }

  /** The first keyword alternative, in order, that matches at `i` and is
      followed by a problem id; a later alternative is tried when an earlier
      one matches but its tail does not. */
  function KeywordAt(s: string, i: nat, kws: seq<string>): (r: Option<Span>)
    ensures r.Some? ==> IdSpan(s, i, r.value)
    ensures r.Some? ==> exists k :: 0 <= k < |kws| && KeywordHit(s, i, kws[k], r)
    decreases |kws|
  {
    if |kws| == 0 then None
    else if LitCI(s, i, kws[0]) && NumberTail(s, i + |kws[0]|).Some? then
      var tail := NumberTail(s, i + |kws[0]|);
      assert KeywordHit(s, i, kws[0], tail);
      tail
    else
      var later := KeywordAt(s, i, kws[1..]);
      assert later.Some? ==> exists k :: 0 <= k < |kws| && KeywordHit(s, i, kws[k], later) by {
        if later.Some? {
          var k :| 0 <= k < |kws[1..]| && KeywordHit(s, i, kws[1..][k], later);
          assert kws[1..][k] == kws[k + 1];
        }
      }
      later
  }

  /** A hit whose group is a problem number. */
  predicate ProblemIdHit(s: string, h: Hit)
  {
    HitIn(s, h) && IsProblemId(s[h.gs..h.ge])
  }

  /** A problem-number hit that ends the text, up to trailing white space. */
  predicate TrailingIdHit(s: string, h: Hit)
  {
    ProblemIdHit(s, h) && AtEnd(s, h.ge)
  }

  /** `(?:problem|q|question|task)[_\s]?(\d+[a-zA-Z]?)\b`, ignoring case, at `i`. */
  function KeywordNumberAt(s: string, i: nat): (r: Option<Hit>)
    ensures r.Some? ==> ProblemIdHit(s, r.value)
  {
    match KeywordAt(s, i, Keywords)
    case None => None
    case Some(g) => Some(Hit(i, g.gs, g.ge, g.ge))
  }

  /** `(\d+[a-zA-Z]?)$` at `i`. */
  function TrailingNumberAt(s: string, i: nat): (r: Option<Hit>)
    ensures r.Some? ==> TrailingIdHit(s, r.value)
  {
    if i >= |s| || !IsDigit(s[i]) then None
    else
      var d := DigitsEnd(s, i);
      DigitRun(s, i);
      if d < |s| && IsAsciiLetter(s[d]) && AtEnd(s, d + 1) then
        assert s[i..d + 1][..d - i] == s[i..d] && s[i..d + 1][d - i] == s[d];
        Some(Hit(i, i, d + 1, d + 1))
      else if AtEnd(s, d) then Some(Hit(i, i, d, d))
      else None
  }

  /** The group of a problem-id hit is a problem id that occurs in `s`. */
  lemma HitOccurs(s: string, h: Hit)
    requires ProblemIdHit(s, h)
    ensures IsProblemId(s[h.gs..h.ge]) && Contains(s, s[h.gs..h.ge])
  {
    assert OccursAt(s, s[h.gs..h.ge], h.gs);
  }

  /** The id captured by the leftmost keyword match in `stem`. */
  function KeywordSearch(stem: string): (r: Option<string>)
    ensures r.Some? ==> IsProblemId(r.value) && Contains(stem, r.value)
  {
    match SearchFrom(stem, KeywordNumberAt, 0)
    case None => None
    case Some(j) =>
      var hit := KeywordNumberAt(stem, j);
      assert hit.Some?;
      HitOccurs(stem, hit.value);
      Some(stem[hit.value.gs..hit.value.ge])
  }

  /** The id captured by the leftmost trailing-number match in `stem`. */
  function TrailingSearch(stem: string): (r: Option<string>)
    ensures r.Some? ==> IsProblemId(r.value) && Contains(stem, r.value)
  {
    match SearchFrom(stem, TrailingNumberAt, 0)
    case None => None
    case Some(j) =>
      var hit := TrailingNumberAt(stem, j);
      assert hit.Some?;
      HitOccurs(stem, hit.value);
      Some(stem[hit.value.gs..hit.value.ge])
  }

  /** The stem of a path's last component. */
  function FileStem(fileName: string): string
  {
    Paths.Stem(Paths.Name(fileName))
  }

  /** The problem id of a file: from the stem, the first keyword form,
      otherwise the trailing number, otherwise none. */
  function ProblemNumber(fileName: string): (r: Option<string>)
    ensures r.Some? ==> IsProblemId(r.value) && Contains(FileStem(fileName), r.value)
  {
    var stem := FileStem(fileName);
    match KeywordSearch(stem)
    case Some(id) => Some(id)
    case None => TrailingSearch(stem)
  }

  /** A text holding a problem id holds a digit. */
  lemma IdHasDigit(stem: string, t: string)
    requires IsProblemId(t) && Contains(stem, t)
    ensures exists k :: 0 <= k < |stem| && IsDigit(stem[k])
  {
    var i :| 0 <= i <= |stem| && OccursAt(stem, t, i);
    assert |t| > 0;
    assert IsDigit(t[0]) by {
      if !IsDigits(t) { assert t[..|t| - 1][0] == t[0]; }
    }
    assert stem[i] == stem[i..i + |t|][0];
  }

  /** A file that names a problem has a digit in its stem: a stem without
      digits names no problem. */
  lemma ProblemNeedsDigit(fileName: string)
    requires ProblemNumber(fileName).Some?
    ensures exists k :: 0 <= k < |FileStem(fileName)| && IsDigit(FileStem(fileName)[k])
  {
    IdHasDigit(FileStem(fileName), ProblemNumber(fileName).value);
  }

  /** A stem ending in a digit always names a problem. */
  lemma TrailingDigitFound(fileName: string)
    requires |FileStem(fileName)| > 0 && IsDigit(FileStem(fileName)[|FileStem(fileName)| - 1])
    ensures ProblemNumber(fileName).Some?
  {
    var stem := FileStem(fileName);
    LastDigitHit(stem);
    assert SearchFrom(stem, TrailingNumberAt, 0).Some?;
    assert TrailingSearch(stem).Some?;
  }

  /** A final digit is a trailing number. */
  lemma LastDigitHit(stem: string)
    requires |stem| > 0 && IsDigit(stem[|stem| - 1])
    ensures TrailingNumberAt(stem, |stem| - 1).Some?
  {
    var d := DigitsEnd(stem, |stem| - 1);
  }

  /** A name without `/` and `.` has itself as its stem. */
  lemma PlainStem(stem: string, ext: string)
    requires '/' !in stem && '.' !in stem && |stem| > 0
    requires |ext| >= 2 && ext[0] == '.' && '.' !in ext[1..] && '/' !in ext
    ensures Paths.Stem(Paths.Name(stem + ext)) == stem
  {
    var n := stem + ext;
    assert '/' !in n by {
      forall k | 0 <= k < |n| ensures n[k] != '/' {
        if k < |stem| { assert n[k] == stem[k]; } else { assert n[k] == ext[k - |stem|]; }
      }
    }
    assert Paths.LastIndexOf(n, '/') == None;
    assert Paths.Name(n) == n;
    var li := Paths.LastIndexOf(n, '.');
    assert n[|stem|] == '.';
    assert li.Some? && li.value >= |stem|;
    assert li.value == |stem| by {
      forall k | |stem| < k < |n| ensures n[k] != '.' { assert n[k] == ext[1..][k - |stem| - 1]; }
    }
    assert n[..|stem|] == stem;
  }

  /** A digit run reaching the end of the text, at `j`, is the whole tail. */
  lemma DigitTail(s: string, j: nat)
    requires j < |s| && forall k :: j <= k < |s| ==> IsDigit(s[k])
    ensures NumberTail(s, j) == Some(Span(j, |s|))
  {
    assert s[j] != '_' && !IsSpace(s[j]) by { assert IsDigit(s[j]); }
    assert DigitsEnd(s, j) == |s|;
  }

  /** The keyword form matches `problem<digits>` at its start, capturing
      the digits. */
  lemma KeywordMatchAtStart(digits: string)
    requires IsDigits(digits)
    ensures KeywordNumberAt("problem" + digits, 0) == Some(Hit(0, 7, 7 + |digits|, 7 + |digits|))
  {
    var stem := "problem" + digits;
    assert LitCI(stem, 0, Keywords[0]) by { assert stem[0..7] == "problem"; }
    assert forall k :: 7 <= k < |stem| ==> IsDigit(stem[k]) by {
      forall k | 7 <= k < |stem| ensures IsDigit(stem[k]) { assert stem[k] == digits[k - 7]; }
    }
    DigitTail(stem, 7);
    assert KeywordAt(stem, 0, Keywords) == NumberTail(stem, 7);
  }

  /** The keyword search finds `problem<digits>` at the very start. */
  lemma KeywordAtStart(digits: string)
    requires IsDigits(digits)
    ensures KeywordSearch("problem" + digits) == Some(digits)
  {
    var stem := "problem" + digits;
    KeywordMatchAtStart(digits);
    assert SearchFrom(stem, KeywordNumberAt, 0) == Some(0);
    AfterKeyword(digits);
  }

  /** The digits after the keyword are the text that follows it. */
  lemma AfterKeyword(digits: string)
    ensures ("problem" + digits)[7..7 + |digits|] == digits
  {
    var stem := "problem" + digits;
    forall k | 0 <= k < |digits| ensures stem[7..7 + |digits|][k] == digits[k] {
      assert stem[7 + k] == digits[k];
    }
  }

  /** `problem<digits>.<ext>` (as in `problem1.py`, which gives `1`) names
      the problem `<digits>`: the keyword form matches at the start. */
  lemma ProblemKeywordForm(digits: string, ext: string)
    requires IsDigits(digits)
    requires |ext| >= 2 && ext[0] == '.' && '.' !in ext[1..] && '/' !in ext
    ensures ProblemNumber("problem" + digits + ext) == Some(digits)
  {
    var stem := "problem" + digits;
    assert forall k :: 0 <= k < |stem| ==> stem[k] != '/' && stem[k] != '.' by {
      forall k | 0 <= k < |stem| ensures stem[k] != '/' && stem[k] != '.' {
        if k >= 7 { assert stem[k] == digits[k - 7]; }
      }
    }
    assert "problem" + digits + ext == stem + ext;
    PlainStem(stem, ext);
    KeywordAtStart(digits);
  }

  // ---------------------------------------------------------------------
  // Imports

  /** The characters of `[a-zA-Z0-9_\.]`. */
  predicate IsModuleChar(c: char)
  {
    IsAsciiLetter(c) || IsDigit(c) || c == '_' || c == '.'
  }

  /** A hit at a line start `i` of an import keyword whose group is a
      non-empty dotted name. */
  predicate ImportHit(s: string, i: nat, h: Hit)
  {
    && HitIn(s, h) && h.gs < h.ge && h.start == i
    && (i == 0 || s[i - 1] == '\n')
    && (Lit(s, i, "from") || Lit(s, i, "import"))
    && forall k :: h.gs <= k < h.ge ==> IsModuleChar(s[k])
  }

  /** `^(?:from|import)\s+([a-zA-Z0-9_\.]+)` with MULTILINE at `i`: a line
      start, the keyword, white space (newlines included) and a dotted name. */
  function ImportAt(s: string, i: nat): (r: Option<Hit>)
    ensures r.Some? ==> ImportHit(s, i, r.value)
  {
    if i > |s| || !(i == 0 || s[i - 1] == '\n') then None
    else
      var kwEnd := if Lit(s, i, "from") then Some(i + 4) else if Lit(s, i, "import") then Some(i + 6) else None;
      match kwEnd
      case None => None
      case Some(j) =>
        var k := SpacesEnd(s, j);
        if k == j then None
        else
          var e := RunEnd(s, k, IsModuleChar);
          if e == k then None else Some(Hit(i, k, e, e))
  }

  /** The set of imported names `re.findall` gives. */
  function ImportNames(code: string): set<string>
  {
    var hs := FindAll(code, ImportAt);
    set n | 0 <= n < |hs| :: code[hs[n].gs..hs[n].ge]
  }

  /** The top-level package of each import, `imp.split('.')[0]`. */
  function TopLevel(imports: set<string>): set<string>
  {
    set imp | imp in imports :: Before(imp, ".")
  }

  /** The stems of the `.py` files directly in `dir`. */
  function LocalModules(ws: map<string, string>, dir: string): set<string>
  {
    set p | p in ws && Paths.Parent(p) == dir && Paths.Glob(Paths.Name(p), "*.py") :: Paths.Stem(Paths.Name(p))
  }

  /** The packages to install: top-level imported names that are neither in
      the standard library nor modules of the submission itself. */
  function InstallSet(code: string, stdlib: set<string>, local: set<string>): set<string>
  {
    TopLevel(ImportNames(code)) - stdlib - local
  }

  /** Every imported name is the dotted name of an import statement that
      starts a line. */
  lemma ImportNamesSound(code: string, n: string)
    requires n in ImportNames(code)
    ensures exists i :: ImportAt(code, i).Some? && n == code[ImportAt(code, i).value.gs..ImportAt(code, i).value.ge]
  {
    var hs := FindAll(code, ImportAt);
    ImportHitsIn(code, hs);
    var m :| 0 <= m < |hs| && n == code[hs[m].gs..hs[m].ge];
    HitOfImport(code, hs, m);
  }

  /** Every import hit lies within the code. */
  lemma ImportHitsIn(code: string, hs: seq<Hit>)
    requires hs == FindAll(code, ImportAt)
    ensures forall m :: 0 <= m < |hs| ==> HitIn(code, hs[m])
  {
    forall m | 0 <= m < |hs| ensures HitIn(code, hs[m]) {
      var k :| 0 <= k <= |code| && ImportAt(code, k) == Some(hs[m]);
    }
  }

  /** The group of each import hit is the group of the match at some
      position. */
  lemma HitOfImport(code: string, hs: seq<Hit>, m: nat)
    requires hs == FindAll(code, ImportAt) && m < |hs|
    ensures exists i :: ImportAt(code, i).Some? && code[hs[m].gs..hs[m].ge] == code[ImportAt(code, i).value.gs..ImportAt(code, i).value.ge]
  {
    var k :| 0 <= k <= |code| && ImportAt(code, k) == Some(hs[m]);
    assert ImportAt(code, k).Some?;
  }

  /** A local module is the stem of a `.py` file directly in the directory,
      and every such stem is a local module. */
  lemma LocalModulesIff(ws: map<string, string>, dir: string, m: string)
    ensures m in LocalModules(ws, dir) <==> exists p ::
      (p in ws && Paths.Parent(p) == dir && Paths.Glob(Paths.Name(p), "*.py") && Paths.Stem(Paths.Name(p)) == m)
  {
  }

  /** What is installed is neither standard nor local, comes from an import,
      and every import is installed, standard or local. */
  lemma InstallSetSpec(code: string, stdlib: set<string>, local: set<string>)
    ensures InstallSet(code, stdlib, local) !! stdlib && InstallSet(code, stdlib, local) !! local
    ensures forall p :: p in InstallSet(code, stdlib, local) ==>
      exists imp :: imp in ImportNames(code) && Before(imp, ".") == p
    ensures forall imp :: imp in ImportNames(code) ==>
      Before(imp, ".") in InstallSet(code, stdlib, local) || Before(imp, ".") in stdlib || Before(imp, ".") in local
  {
  }

  /** Code without imports has nothing to install. */
  lemma NoImportsNoPackages(code: string, stdlib: set<string>, local: set<string>)
    requires ImportNames(code) == {}
    ensures InstallSet(code, stdlib, local) == {}
  {
  }

  /** What pip is asked for: the set, unless it is empty. */
  function PipRequest(packages: set<string>): (r: seq<set<string>>)
    ensures |r| <= 1 && (r == [] <==> packages == {}) && forall k :: 0 <= k < |r| ==> r[k] == packages
  {
    if packages == {} then [] else [packages]
  }

  // ---------------------------------------------------------------------
  // Results

  /** How the pytest process ended. */
  datatype PytestRun =
    | Completed(returnCode: int, stdout: string, stderr: string)
    | TimedOut
    | Crashed(message: string)

  /** The `test_results` of one problem. */
  datatype TestOutcome =
    | Ran(passed: bool, exitCode: int, summaryLine: string, fullOutput: string, errorOutput: string)
    | Timeout
    | ExecutionError(errorOutput: string)
    | NoTestFile

  const NoTestFileError: string := "No test file found."

  /** The shaped pytest result: passed exactly on exit code 0, with the last
      line of the stripped output as the summary line. */
  function ShapePytest(run: PytestRun): (r: TestOutcome)
    ensures run.Completed? ==>
      r.Ran? && (r.passed <==> run.returnCode == 0) &&
      r.exitCode == run.returnCode && r.fullOutput == run.stdout && r.errorOutput == run.stderr
    ensures run.Completed? ==>
      EndsWith(Strip(run.stdout), r.summaryLine) && !Contains(r.summaryLine, "\n") &&
      (r.summaryLine == Strip(run.stdout) || EndsWith(Strip(run.stdout), "\n" + r.summaryLine))
    ensures run.TimedOut? ==> r == Timeout
    ensures run.Crashed? ==> r == ExecutionError(run.message)
  {
    match run
    case Completed(code, stdout, stderr) => Ran(code == 0, code, LastPart(Strip(stdout), "\n"), stdout, stderr)
    case TimedOut => Timeout
    case Crashed(message) => ExecutionError(message)
  }

  datatype Metadata = Metadata(studentName: string, studentId: string, taskName: string, timestamp: string, resultType: string)

  datatype TestEntry = TestEntry(solutionPath: string, testResults: TestOutcome)
  datatype QualityEntry = QualityEntry(solutionPath: string, qualityResults: Dict.Dict<QualityRunner.CheckResult>)

  /** A results document: its metadata and one entry per problem id. */
  datatype Results<E> = Results(metadata: Metadata, problems: Dict.Dict<E>)

  /** The outside world as the runner sees it: the text of each submission
      file, the JSON decoder, the standard-library names, which test files
      exist, and what the child processes give back. `copyFails` is a fault
      while staging, `pipFails` a fault that escapes the pip call. */
  datatype Env = Env(
    read: string -> string,
    decode: Json.Decoder,
    stdlib: set<string>,
    testExists: string -> bool,
    pytest: (string, string) -> PytestRun,
    tools: string -> (QualityRunner.ProcessRun, QualityRunner.ProcessRun),
    copyFails: bool,
    pipFails: bool)

  /** The results file name: the student's name with spaces made `_`, the
      id, the task and the result type. */
  function ResultsFileName(student: Loaders.Student, task: string, resultType: string): (r: string)
    ensures exists safe :: ' ' !in safe && r == safe + "_" + student.id + "_" + task + "_" + resultType + ".json"
    ensures ' ' !in student.name ==> r == student.name + "_" + student.id + "_" + task + "_" + resultType + ".json"
    ensures r == FileSafe(student.name, {}) + "_" + student.id + "_" + task + "_" + resultType + ".json"
  {
    SpacesUnderscored(student.name);
    var safe := Replace(student.name, " ", "_");
    ReplaceCharRemoves(student.name, ' ', "_");
    assert ' ' !in student.name ==> safe == student.name by {
      if ' ' !in student.name { NotContainsChar(student.name, ' '); }
    }
    safe + "_" + student.id + "_" + task + "_" + resultType + ".json"
  }

  // ---------------------------------------------------------------------
  // Staging, as functions of the workspace

  /** Where a submission file goes: its place under the submission folder,
      or just its name when it lies elsewhere. */
  function Destination(file: string, submissionPath: string, dir: string): (r: string)
    ensures StartsWith(r, dir + "/")
  {
    var rel := if StartsWith(file, submissionPath + "/") then file[|submissionPath| + 1..] else Paths.Name(file);
    var r := Paths.JoinPath(dir, rel);
    assert r[..|dir + "/"|] == dir + "/";
    r
  }

  /** The copy map (original to staged path) and the workspace after
      copying `files`. */
  function Stage(ws: map<string, string>, files: seq<string>, submissionPath: string, dir: string, read: string -> string)
    : (r: (Dict.Dict<string>, map<string, string>))
    ensures |r.0| <= |files| && Dict.UniqueKeys(r.0)
    ensures r.0 == Copies(files, submissionPath, dir)
  {
    if |files| == 0 then ([], ws)
    else
      var (copied, w) := Stage(ws, files[..|files| - 1], submissionPath, dir, read);
      var f := files[|files| - 1];
      var dest := Destination(f, submissionPath, dir);
      Dict.PutUnique(copied, f, dest);
      (Dict.Put(copied, f, dest), w[dest := read(f)])
  }

  /** Staging one more file puts its destination into the copy map and
      its text into the workspace. */
  lemma StageSnoc(ws: map<string, string>, files: seq<string>, submissionPath: string, dir: string,
                  read: string -> string, i: nat)
    requires i < |files|
    ensures Stage(ws, files[..i + 1], submissionPath, dir, read) ==
      (Dict.Put(Stage(ws, files[..i], submissionPath, dir, read).0, files[i], Destination(files[i], submissionPath, dir)),
       Stage(ws, files[..i], submissionPath, dir, read).1[Destination(files[i], submissionPath, dir) := read(files[i])])
  {
    assert files[..i + 1][..i] == files[..i];
  }

  /** The copy map has one entry per submission file, under its own path,
      holding its destination in the temporary directory; a path that is
      not a submission file has none. */
  lemma StageGet(ws: map<string, string>, files: seq<string>, submissionPath: string, dir: string,
                 read: string -> string, o: string)
    ensures Dict.Get(Stage(ws, files, submissionPath, dir, read).0, o) ==
      if o in files then Some(Destination(o, submissionPath, dir)) else None
  {
    CopiesGet(files, submissionPath, dir, o);
  }

  /** The copy map alone, as `Stage` builds it. */
  function Copies(files: seq<string>, submissionPath: string, dir: string): Dict.Dict<string>
  {
    if |files| == 0 then []
    else
      var f := files[|files| - 1];
      Dict.Put(Copies(files[..|files| - 1], submissionPath, dir), f, Destination(f, submissionPath, dir))
  }

  /** `StageGet` on the copy map alone. */
  lemma {:induction false} CopiesGet(files: seq<string>, submissionPath: string, dir: string, o: string)
    ensures Dict.Get(Copies(files, submissionPath, dir), o) ==
      if o in files then Some(Destination(o, submissionPath, dir)) else None
    decreases |files|
  {
    if |files| > 0 {
      var n := |files| - 1;
      CopiesGet(files[..n], submissionPath, dir, o);
      PutListed(Copies(files[..n], submissionPath, dir), files[..n], files[n], o,
                Destination(files[n], submissionPath, dir), Destination(o, submissionPath, dir));
      assert Copies(files, submissionPath, dir) ==
        Dict.Put(Copies(files[..n], submissionPath, dir), files[n], Destination(files[n], submissionPath, dir));
      InInit(files, o);
    }
  }

  /** Putting the entry of one more listed path. */
  lemma PutListed(copied: Dict.Dict<string>, listed: seq<string>, f: string, o: string, at: string, atO: string)
    requires Dict.Get(copied, o) == if o in listed then Some(atO) else None
    requires o == f ==> at == atO
    ensures Dict.Get(Dict.Put(copied, f, at), o) == if o in listed || o == f then Some(atO) else None
  {
    Dict.GetPut(copied, f, at, o);
  }

  /** Membership in a non-empty sequence: in all but the last, or the last. */
  lemma InInit(s: seq<string>, o: string)
    requires |s| > 0
    ensures o in s <==> o in s[..|s| - 1] || o == s[|s| - 1]
  {
    assert s == s[..|s| - 1] + [s[|s| - 1]];
  }

  /** The text of a workspace file, if it is there. */
  function FileText(ws: map<string, string>, p: string): Option<string>
  {
    if p in ws then Some(ws[p]) else None
  }

  /** What one copy entry becomes: a notebook with code is replaced by a
      script holding the code, a notebook without code is left in place and
      dropped from the map, anything else passes through. */
  function ConvertOne(acc: (Dict.Dict<string>, map<string, string>), original: string, staged: string, decode: Json.Decoder)
    : (r: (Dict.Dict<string>, map<string, string>))
  {
    var (processed, w) := acc;
    if Paths.PathSuffix(staged) == ".ipynb" then
      var code := ContentExtractor.ExtractCode(staged, FileText(w, staged), decode);
      if code.Some? && code.value != "" then
        var script := Paths.WithSuffix(staged, ".py");
        (Dict.Put(processed, original, script), w[script := code.value] - {staged})
      else (processed, w)
    else (Dict.Put(processed, original, staged), w)
  }

  /** Converts one copy entry, as `ConvertOne` describes. */
  method ConvertEntry(processed: Dict.Dict<string>, ws: map<string, string>, original: string, staged: string,
                      decode: Json.Decoder)
    returns (processedAfter: Dict.Dict<string>, wsAfter: map<string, string>)
    ensures (processedAfter, wsAfter) == ConvertOne((processed, ws), original, staged, decode)
  {
    processedAfter, wsAfter := processed, ws;
    if Paths.PathSuffix(staged) == ".ipynb" {
      var code := ContentExtractor.ExtractCode(staged, FileText(ws, staged), decode);
      if code.Some? && code.value != "" {
        var script := Paths.WithSuffix(staged, ".py");
        wsAfter := wsAfter[script := code.value];
        wsAfter := wsAfter - {staged};
        processedAfter := Dict.Put(processedAfter, original, script);
      }
    } else {
      processedAfter := Dict.Put(processedAfter, original, staged);
    }
  }

  function Convert(copied: Dict.Dict<string>, ws: map<string, string>, decode: Json.Decoder)
    : (r: (Dict.Dict<string>, map<string, string>))
  {
    if |copied| == 0 then ([], ws)
    else
      var (o, t) := copied[|copied| - 1];
      ConvertOne(Convert(copied[..|copied| - 1], ws, decode), o, t, decode)
  }

  /** Converts the copy entries one by one, as `Convert` describes. */
  method ConvertAll(copied: Dict.Dict<string>, ws: map<string, string>, decode: Json.Decoder)
    returns (processed: Dict.Dict<string>, wsAfter: map<string, string>)
    ensures (processed, wsAfter) == Convert(copied, ws, decode)
  {
    processed, wsAfter := [], ws;
    var i := 0;
    while i < |copied|
      invariant 0 <= i <= |copied|
      invariant (processed, wsAfter) == Convert(copied[..i], ws, decode)
    {
      ConvertStep(copied, ws, decode, i);
      processed, wsAfter := ConvertEntry(processed, wsAfter, copied[i].0, copied[i].1, decode);
      i := i + 1;
    }
    assert copied[..i] == copied;
  }

  /** One more copy entry is converted after the ones before it. */
  lemma ConvertStep(copied: Dict.Dict<string>, ws: map<string, string>, decode: Json.Decoder, i: nat)
    requires i < |copied|
    ensures Convert(copied[..i + 1], ws, decode) ==
      ConvertOne(Convert(copied[..i], ws, decode), copied[i].0, copied[i].1, decode)
  {
    assert copied[..i + 1][..i] == copied[..i];
  }

  /** What an original path maps to after conversion. */
  function Converted(staged: string, ws: map<string, string>, decode: Json.Decoder): Option<string>
  {
    if Paths.PathSuffix(staged) != ".ipynb" then Some(staged)
    else
      var code := ContentExtractor.ExtractCode(staged, FileText(ws, staged), decode);
      if code.Some? && code.value != "" then Some(Paths.WithSuffix(staged, ".py")) else None
  }

  /** The file at `script` is numbered `k`. */
  predicate NumberedAs(script: string, k: string)
  {
    ProblemNumber(Paths.Name(script)) == Some(k)
  }

  /** Entry `j` is the last processed file numbered `k`. */
  predicate LastNumbered(processed: Dict.Dict<string>, k: string, j: nat)
    decreases |processed|
  {
    |processed| > 0 &&
    var n := |processed| - 1;
    if j == n then NumberedAs(processed[n].1, k)
    else j < n && !NumberedAs(processed[n].1, k) && LastNumbered(processed[..n], k, j)
  }

  /** No processed file is numbered `k`. */
  predicate NoneNumbered(processed: Dict.Dict<string>, k: string)
    decreases |processed|
  {
    |processed| == 0 ||
    var n := |processed| - 1;
    !NumberedAs(processed[n].1, k) && NoneNumbered(processed[..n], k)
  }

  /** Either no processed file is numbered `k`, or one of them is the last
      so numbered. */
  lemma {:induction false} NumberedCases(processed: Dict.Dict<string>, k: string)
    ensures !NoneNumbered(processed, k) ==> exists j :: LastNumbered(processed, k, j)
    decreases |processed|
  {
    if |processed| > 0 {
      var n := |processed| - 1;
      var init := processed[..n];
      NumberedCases(init, k);
      if !NumberedAs(processed[n].1, k) && !NoneNumbered(init, k) {
        var j :| LastNumbered(init, k, j);
        assert LastNumbered(processed, k, j);
      } else if NumberedAs(processed[n].1, k) {
        assert LastNumbered(processed, k, n);
      }
    }
  }

  /** No two copy entries were staged at the same path. */
  predicate StagedDistinct(copied: Dict.Dict<string>)
  {
    forall i, j :: 0 <= i < j < |copied| ==> copied[i].1 != copied[j].1
  }

  /** Converting leaves alone a notebook that no entry was staged at: the
      scripts it writes end in `.py`, and it removes only staged files. */
  lemma {:induction false} ConvertKeeps(copied: Dict.Dict<string>, ws: map<string, string>, decode: Json.Decoder, p: string)
    requires EndsWith(p, ".ipynb") && forall i :: 0 <= i < |copied| ==> copied[i].1 != p
    ensures FileText(Convert(copied, ws, decode).1, p) == FileText(ws, p)
    decreases |copied|
  {
    if |copied| > 0 {
      var n := |copied| - 1;
      var (o, t) := copied[n];
      ConvertKeeps(copied[..n], ws, decode, p);
      ConvertOneKeeps(Convert(copied[..n], ws, decode), o, t, decode, p);
    }
  }

  lemma ConvertOneKeeps(acc: (Dict.Dict<string>, map<string, string>), o: string, t: string, decode: Json.Decoder,
                        p: string)
    requires EndsWith(p, ".ipynb") && t != p
    ensures FileText(ConvertOne(acc, o, t, decode).1, p) == FileText(acc.1, p)
  {
    if Paths.PathSuffix(t) == ".ipynb" {
      var code := ContentExtractor.ExtractCode(t, FileText(acc.1, t), decode);
      if code.Some? && code.value != "" {
        var script := Paths.WithSuffix(t, ".py");
        ScriptNotNotebook(script, p);
        SwapKeeps(acc.1, script, code.value, t, p);
      }
    }
  }

  /** Writing one file and removing another leaves a third one alone. */
  lemma SwapKeeps(w: map<string, string>, script: string, c: string, t: string, p: string)
    requires script != p && t != p
    ensures FileText(w[script := c] - {t}, p) == FileText(w, p)
  {
  }

  /** A `.py` path is never a `.ipynb` path. */
  lemma ScriptNotNotebook(script: string, p: string)
    requires EndsWith(script, ".py") && EndsWith(p, ".ipynb")
    ensures script != p
  {
    assert script[|script| - 1] == script[|script| - 3..][2] == 'y';
    assert p[|p| - 1] == p[|p| - 6..][5] == 'b';
  }

  /** After conversion an original path maps to what its staged file
      converts to: a notebook with code to its `.py` script, a notebook
      without code to nothing, any other file to itself; a path that was
      not copied maps to nothing. */
  lemma {:induction false} ConvertGet(copied: Dict.Dict<string>, ws: map<string, string>, decode: Json.Decoder, o: string)
    requires Dict.UniqueKeys(copied) && StagedDistinct(copied)
    ensures Dict.Get(Convert(copied, ws, decode).0, o) ==
      if Dict.HasKey(copied, o) then Converted(Dict.Get(copied, o).value, ws, decode) else None
    decreases |copied|
  {
    if |copied| > 0 {
      var n := |copied| - 1;
      var init := copied[..n];
      var (on, tn) := copied[n];
      assert copied == init + [(on, tn)];
      Dict.UniquePrefix(copied, n);
      assert StagedDistinct(init);
      ConvertGet(init, ws, decode, o);
      Dict.GetAppend(init, [(on, tn)], o);
      var acc := Convert(init, ws, decode);
      assert Convert(copied, ws, decode) == ConvertOne(acc, on, tn, decode);
      if Paths.PathSuffix(tn) == ".ipynb" {
        ConvertKeeps(init, ws, decode, tn);
      }
      if on == o {
        assert !Dict.HasKey(init, o);
        ConvertOneGet(acc, on, tn, decode, ws);
      } else {
        ConvertOneOther(acc, on, tn, decode, o);
        assert Dict.HasKey(copied, o) <==> Dict.HasKey(init, o);
      }
    }
  }

  /** The entry one conversion step writes. */
  lemma ConvertOneGet(acc: (Dict.Dict<string>, map<string, string>), o: string, t: string, decode: Json.Decoder,
                      ws: map<string, string>)
    requires Paths.PathSuffix(t) == ".ipynb" ==> FileText(acc.1, t) == FileText(ws, t)
    requires Dict.Get(acc.0, o).None?
    ensures Dict.Get(ConvertOne(acc, o, t, decode).0, o) == Converted(t, ws, decode)
  {
    var v := Converted(t, ws, decode);
    if v.Some? {
      Dict.GetPut(acc.0, o, v.value, o);
    }
  }

  /** One conversion step leaves every other original path alone. */
  lemma ConvertOneOther(acc: (Dict.Dict<string>, map<string, string>), o: string, t: string, decode: Json.Decoder,
                        other: string)
    requires other != o
    ensures Dict.Get(ConvertOne(acc, o, t, decode).0, other) == Dict.Get(acc.0, other)
  {
    if Paths.PathSuffix(t) == ".ipynb" {
      var code := ContentExtractor.ExtractCode(t, FileText(acc.1, t), decode);
      if code.Some? && code.value != "" {
        Dict.GetPut(acc.0, o, Paths.WithSuffix(t, ".py"), other);
      }
    } else {
      Dict.GetPut(acc.0, o, t, other);
    }
  }

  /** The code of all staged scripts in map order; None when one of them
      cannot be read. */
  function AllCode(processed: Dict.Dict<string>, ws: map<string, string>): Option<string>
  {
    if |processed| == 0 then Some("")
    else
      match AllCode(processed[..|processed| - 1], ws)
      case None => None
      case Some(code) =>
        var t := processed[|processed| - 1].1;
        if Paths.PathSuffix(t) != ".py" then Some(code)
        else if t in ws then Some(code + ws[t]) else None
  }

  /** The outcome a run reaches, as a value: whether it failed, the package
      sets passed to pip, and the two problem maps. */
  datatype Outcome = Outcome(failed: bool, pip: seq<set<string>>, tests: Dict.Dict<TestEntry>, quals: Dict.Dict<QualityEntry>)

  class TestRunner {
    const testCasesDir: string
    const resultsDir: string
    const taskName: string
    const timeout: nat

    /** The temporary directory of the run in progress. */
    var tempDir: Option<string>
    /** Whether that directory exists. */
    var tempExists: bool
    /** The files staged under the temporary directory, with their text. */
    var workspace: map<string, string>
    /** The package sets pip was asked to install, in order. */
    var pipRequests: seq<set<string>>
    /** The results files written, in order. */
    var saved: seq<string>

    constructor(testCasesDir: string, resultsDir: string, taskName: string, timeout: nat)
      ensures this.testCasesDir == testCasesDir && this.resultsDir == resultsDir
      ensures this.taskName == taskName && this.timeout == timeout
      ensures tempDir.None? && !tempExists && workspace == map[] && pipRequests == [] && saved == []
    {
      this.testCasesDir := testCasesDir;
      this.resultsDir := resultsDir;
      this.taskName := taskName;
      this.timeout := timeout;
      tempDir := None;
      tempExists := false;
      workspace := map[];
      pipRequests := [];
      saved := [];
    }

    /** `<test_cases_dir>/test_problem<id>.py`. */
    function TestCasePath(problemNumber: string): (r: string)
      ensures StartsWith(r, testCasesDir + "/") && EndsWith(r, "/test_problem" + problemNumber + ".py")
    {
      var name := "test_problem" + problemNumber + ".py";
      var r := Paths.JoinPath(testCasesDir, name);
      assert r[..|testCasesDir + "/"|] == testCasesDir + "/";
      assert "/" + name == "/test_problem" + problemNumber + ".py";
      r
    }

    /** The test file of a problem, when it exists. */
    function FindTestCase(problemNumber: string, testExists: string -> bool): (r: Option<string>)
      ensures r.Some? <==> testExists(TestCasePath(problemNumber))
      ensures r.Some? ==> r.value == TestCasePath(problemNumber)
    {
      var testFile := TestCasePath(problemNumber);
      if testExists(testFile) then Some(testFile) else None
    }

    /** The test outcome of one numbered script. */
    function TestOutcomeFor(problemNumber: string, script: string, env: Env): (r: TestOutcome)
      ensures r == NoTestFile <==> FindTestCase(problemNumber, env.testExists).None?
    {
      match FindTestCase(problemNumber, env.testExists)
      case None => NoTestFile
      case Some(testFile) => ShapePytest(env.pytest(testFile, script))
    }

    /** What one processed file adds to the two problem maps: nothing
        without a problem id, otherwise an entry in each under that id. */
    function Recorded(tests: Dict.Dict<TestEntry>, quals: Dict.Dict<QualityEntry>, original: string, script: string, env: Env): (r: (Dict.Dict<TestEntry>, Dict.Dict<QualityEntry>))
      ensures Dict.Keys(tests) == Dict.Keys(quals) ==> Dict.Keys(r.0) == Dict.Keys(r.1)
      ensures ProblemNumber(Paths.Name(script)).None? ==> r == (tests, quals)
      ensures ProblemNumber(Paths.Name(script)).Some? ==>
        var pn := ProblemNumber(Paths.Name(script)).value;
        var runs := env.tools(script);
        (forall k :: Dict.Get(r.0, k) ==
                     (if k == pn then Some(TestEntry(original, TestOutcomeFor(pn, script, env))) else Dict.Get(tests, k))) &&
        (forall k :: Dict.Get(r.1, k) ==
                     (if k == pn then Some(QualityEntry(original, QualityRunner.RunAllChecks(runs.0, runs.1)))
                      else Dict.Get(quals, k)))
    {
      match ProblemNumber(Paths.Name(script))
      case None => (tests, quals)
      case Some(pn) =>
        var runs := env.tools(script);
        var test := TestEntry(original, TestOutcomeFor(pn, script, env));
        var quality := QualityEntry(original, QualityRunner.RunAllChecks(runs.0, runs.1));
        var r := (Dict.Put(tests, pn, test), Dict.Put(quals, pn, quality));
        assert forall k :: Dict.Get(r.0, k) == (if k == pn then Some(test) else Dict.Get(tests, k)) by {
          forall k { Dict.GetPut(tests, pn, test, k); }
        }
        assert forall k :: Dict.Get(r.1, k) == (if k == pn then Some(quality) else Dict.Get(quals, k)) by {
          forall k { Dict.GetPut(quals, pn, quality, k); }
        }
        assert Dict.Keys(tests) == Dict.Keys(quals) ==> Dict.Keys(r.0) == Dict.Keys(r.1) by {
          if Dict.Keys(tests) == Dict.Keys(quals) {
            Dict.SameKeys(tests, quals, pn);
          }
        }
        r
    }

    /** The two problem maps built from the processed files, in map order;
        a later file with the same id replaces the entry. */
    function Problems(processed: Dict.Dict<string>, env: Env): (r: (Dict.Dict<TestEntry>, Dict.Dict<QualityEntry>))
      ensures Dict.Keys(r.0) == Dict.Keys(r.1)
    {
      if |processed| == 0 then ([], [])
      else
        var previous := Problems(processed[..|processed| - 1], env);
        var (original, script) := processed[|processed| - 1];
        Recorded(previous.0, previous.1, original, script, env)
    }

    /** The entries of a problem id come from the last processed file
        with that id. */
    lemma {:induction false} ProblemsLast(processed: Dict.Dict<string>, env: Env, k: string, j: nat)
      requires LastNumbered(processed, k, j)
      ensures j < |processed|
      ensures var runs := env.tools(processed[j].1);
        Dict.Get(Problems(processed, env).0, k) == Some(TestEntry(processed[j].0, TestOutcomeFor(k, processed[j].1, env))) &&
        Dict.Get(Problems(processed, env).1, k) ==
          Some(QualityEntry(processed[j].0, QualityRunner.RunAllChecks(runs.0, runs.1)))
      decreases |processed|
    {
      var n := |processed| - 1;
      var init := processed[..n];
      var previous := Problems(init, env);
      ProblemsStep(processed, env);
      if j < n {
        ProblemsLast(init, env, k, j);
        assert init[j] == processed[j];
        RecordedOther(previous.0, previous.1, processed[n].0, processed[n].1, env, k);
      }
    }

    /** A problem id no processed file has gets no entry. */
    lemma {:induction false} ProblemsAbsent(processed: Dict.Dict<string>, env: Env, k: string)
      requires NoneNumbered(processed, k)
      ensures Dict.Get(Problems(processed, env).0, k).None? && Dict.Get(Problems(processed, env).1, k).None?
      decreases |processed|
    {
      if |processed| > 0 {
        var n := |processed| - 1;
        var previous := Problems(processed[..n], env);
        assert !NumberedAs(processed[n].1, k) && NoneNumbered(processed[..n], k);
        ProblemsStep(processed, env);
        ProblemsAbsent(processed[..n], env, k);
        assert previous.0 == Problems(processed[..n], env).0;
        RecordedOther(previous.0, previous.1, processed[n].0, processed[n].1, env, k);
      }
    }

    /** An id has an entry in the problem maps exactly when some processed
        file is numbered with it. */
    lemma ProblemsHasKey(processed: Dict.Dict<string>, env: Env, k: string)
      ensures Dict.Get(Problems(processed, env).0, k).Some? <==> !NoneNumbered(processed, k)
      ensures Dict.Get(Problems(processed, env).0, k).Some? <==> Dict.Get(Problems(processed, env).1, k).Some?
    {
      NumberedCases(processed, k);
      if NoneNumbered(processed, k) {
        ProblemsAbsent(processed, env, k);
      } else {
        var j :| LastNumbered(processed, k, j);
        ProblemsLast(processed, env, k, j);
      }
    }

    /** The maps of all processed files are those of all but the last,
        with the last one recorded. */
    lemma ProblemsStep(processed: Dict.Dict<string>, env: Env)
      requires |processed| > 0
      ensures var n := |processed| - 1;
        var previous := Problems(processed[..n], env);
        Problems(processed, env) == Recorded(previous.0, previous.1, processed[n].0, processed[n].1, env)
    {
    }

    /** A file numbered otherwise leaves the entries of `k` alone. */
    lemma RecordedOther(tests: Dict.Dict<TestEntry>, quals: Dict.Dict<QualityEntry>, original: string, script: string,
                        env: Env, k: string)
      requires !NumberedAs(script, k)
      ensures var r := Recorded(tests, quals, original, script, env);
        Dict.Get(r.0, k) == Dict.Get(tests, k) && Dict.Get(r.1, k) == Dict.Get(quals, k)
    {
    }

    /** The temporary directory of a run: beside the results folder, under
        `temp/<task>/<id>_<stamp>`. */
    function TempDirFor(student: Loaders.Student, stamp: string): string
    {
      Paths.JoinPath(Paths.JoinPath(Paths.JoinPath(Paths.Parent(resultsDir), "temp"), taskName), student.id + "_" + stamp)
    }

    /** Where a results document of the student goes. */
    function ResultsPath(student: Loaders.Student, resultType: string): (r: string)
      ensures EndsWith(r, "/" + ResultsFileName(student, taskName, resultType))
    {
      Paths.JoinPath(Paths.JoinPath(resultsDir, taskName), ResultsFileName(student, taskName, resultType))
    }

    /** The processed map and the workspace after staging and conversion. */
    function Prepared(ws: map<string, string>, dir: string, files: seq<string>, submissionPath: string, env: Env)
      : (Dict.Dict<string>, map<string, string>)
    {
      var staged := Stage(ws, files, submissionPath, dir, env.read);
      Convert(staged.0, staged.1, env.decode)
    }

    /** The run after conversion: a script that cannot be read fails it;
        pip is asked only for a non-empty set, and a pip fault fails the
        run; otherwise every processed file is recorded. */
    function Finish(processed: Dict.Dict<string>, ws: map<string, string>, dir: string,
                    installPackages: bool, env: Env): (r: Outcome)
      ensures r.failed ==> r.tests == [] && r.quals == []
      ensures |r.pip| <= 1 && forall k :: 0 <= k < |r.pip| ==> r.pip[k] != {}
    {
      match AllCode(processed, ws)
      case None => Outcome(true, [], [], [])
      case Some(code) =>
        var packages := InstallSet(code, env.stdlib, LocalModules(ws, dir));
        var pip := if installPackages && code != "" then PipRequest(packages) else [];
        if pip != [] && env.pipFails then Outcome(true, pip, [], [])
        else
          var problems := Problems(processed, env);
          Outcome(false, pip, problems.0, problems.1)
    }

    /** The whole run, as a value: a copy fault fails it before anything is
        recorded. A failed run records no problem. */
    function RunOutcome(ws: map<string, string>, dir: string, files: seq<string>, submissionPath: string,
                        installPackages: bool, env: Env): (r: Outcome)
      ensures r.failed ==> r.tests == [] && r.quals == []
      ensures |r.pip| <= 1 && forall k :: 0 <= k < |r.pip| ==> r.pip[k] != {}
    {
      if env.copyFails then Outcome(true, [], [], [])
      else
        var prepared := Prepared(ws, dir, files, submissionPath, env);
        Finish(prepared.0, prepared.1, dir, installPackages, env)
    }

    /** Writing a results document of the student. */
    method SaveResults(student: Loaders.Student, resultType: string)
      modifies this
      ensures saved == old(saved) + [ResultsPath(student, resultType)]
      ensures tempDir == old(tempDir) && tempExists == old(tempExists) && workspace == old(workspace)
      ensures pipRequests == old(pipRequests)
    {
      saved := saved + [ResultsPath(student, resultType)];
    }

    /** Creates the temporary directory and copies the submission's files
        into it; fails when no directory is set, or on a copy fault. */
    method SetupTestEnvironment(files: seq<string>, submissionPath: string, read: string -> string, copyFails: bool)
      returns (copied: Dict.Dict<string>, ok: bool)
      modifies this
      ensures ok <==> tempDir.Some? && !copyFails
      ensures tempDir == old(tempDir) && pipRequests == old(pipRequests) && saved == old(saved)
      ensures tempExists == (old(tempExists) || tempDir.Some?)
      ensures ok ==> (copied, workspace) == Stage(old(workspace), files, submissionPath, tempDir.value, read)
      ensures !ok ==> workspace == old(workspace)
    {
      if tempDir.None? {
        return [], false;
      }
      var dir := tempDir.value;
      tempExists := true;
      if copyFails {
        return [], false;
      }
      copied := [];
      var start := workspace;
      var ws := start;
      var i := 0;
      while i < |files|
        invariant 0 <= i <= |files|
        invariant (copied, ws) == Stage(start, files[..i], submissionPath, dir, read)
        modifies {}
      {
        var file := files[i];
        StageSnoc(start, files, submissionPath, dir, read, i);
        var dest := Destination(file, submissionPath, dir);
        ws := ws[dest := read(file)];
        copied := Dict.Put(copied, file, dest);
        i := i + 1;
      }
      assert files[..i] == files;
      workspace := ws;
      ok := true;
    }

    /** Turns the staged notebooks into scripts; without a temporary
        directory the map is returned as it is. */
    method ConvertNotebooksToPy(copied: Dict.Dict<string>, decode: Json.Decoder) returns (processed: Dict.Dict<string>)
      modifies this
      ensures tempDir == old(tempDir) && tempExists == old(tempExists)
      ensures pipRequests == old(pipRequests) && saved == old(saved)
      ensures tempDir.None? ==> processed == copied && workspace == old(workspace)
      ensures tempDir.Some? ==> (processed, workspace) == Convert(copied, old(workspace), decode)
    {
      if tempDir.None? {
        return copied;
      }
      var ws;
      processed, ws := ConvertAll(copied, workspace, decode);
      workspace := ws;
    }

    /** The concatenated code of the staged scripts. */
    method ReadCode(processed: Dict.Dict<string>) returns (code: Option<string>)
      ensures code == AllCode(processed, workspace)
    {
      var all := "";
      var i := 0;
      while i < |processed|
        invariant 0 <= i <= |processed|
        invariant AllCode(processed[..i], workspace) == Some(all)
      {
        var staged := processed[i].1;
        assert processed[..i + 1][..i] == processed[..i];
        if Paths.PathSuffix(staged) == ".py" {
          if staged !in workspace {
            assert AllCode(processed[..i + 1], workspace) == None;
            AllCodeStaysNone(processed, workspace, i + 1);
            return None;
          }
          all := all + workspace[staged];
        }
        i := i + 1;
      }
      assert processed[..i] == processed;
      return Some(all);
    }

    /** Asks pip for the imported packages that are neither standard nor
        local; nothing happens without a temporary directory or when
        nothing is left to install. Code without imports is the case of an
        empty set (`NoImportsNoPackages`). */
    method InstallDependencies(code: string, stdlib: set<string>) returns (packages: set<string>)
      modifies this
      ensures tempDir == old(tempDir) && tempExists == old(tempExists) && workspace == old(workspace)
      ensures saved == old(saved)
      ensures packages == if tempDir.None? then {} else InstallSet(code, stdlib, LocalModules(workspace, tempDir.value))
      ensures pipRequests == old(pipRequests) + PipRequest(packages)
    {
      if tempDir.None? {
        return {};
      }
      packages := InstallSet(code, stdlib, LocalModules(workspace, tempDir.value));
      pipRequests := pipRequests + PipRequest(packages);
    }

    /** Removes the temporary directory when it exists, and forgets it in
        any case: a second call changes nothing. */
    method CleanupTestEnvironment()
      modifies this
      ensures tempDir.None?
      ensures old(tempDir).Some? && old(tempExists) ==> !tempExists && workspace == map[]
      ensures !(old(tempDir).Some? && old(tempExists)) ==> tempExists == old(tempExists) && workspace == old(workspace)
      ensures pipRequests == old(pipRequests) && saved == old(saved)
    {
      if tempDir.Some? && tempExists {
        workspace := map[];
        tempExists := false;
      }
      tempDir := None;
    }

    /** Recording one processed file: a file with a problem id runs the
        quality checks and, when its test file exists, pytest. */
    method RecordFile(tests: Dict.Dict<TestEntry>, quals: Dict.Dict<QualityEntry>, original: string, script: string, env: Env)
      returns (newTests: Dict.Dict<TestEntry>, newQuals: Dict.Dict<QualityEntry>)
      ensures (newTests, newQuals) == Recorded(tests, quals, original, script, env)
    {
      newTests, newQuals := tests, quals;
      var problemNumber := ProblemNumber(Paths.Name(script));
      if problemNumber.Some? {
        var pn := problemNumber.value;
        var runs := env.tools(script);
        newQuals := Dict.Put(quals, pn, QualityEntry(original, QualityRunner.RunAllChecks(runs.0, runs.1)));
        var testFile := FindTestCase(pn, env.testExists);
        var outcome := NoTestFile;
        if testFile.Some? {
          outcome := ShapePytest(env.pytest(testFile.value, script));
        }
        newTests := Dict.Put(tests, pn, TestEntry(original, outcome));
      }
    }

    /** The per-file recording: every file with a problem id gets an entry
        in both maps. */
    method RecordProblems(processed: Dict.Dict<string>, env: Env)
      returns (tests: Dict.Dict<TestEntry>, quals: Dict.Dict<QualityEntry>)
      ensures (tests, quals) == Problems(processed, env)
    {
      tests, quals := [], [];
      var i := 0;
      while i < |processed|
        invariant 0 <= i <= |processed|
        invariant (tests, quals) == Problems(processed[..i], env)
      {
        assert processed[..i + 1][..i] == processed[..i] && processed[..i + 1][i] == processed[i];
        assert Problems(processed[..i + 1], env) == Recorded(tests, quals, processed[i].0, processed[i].1, env);
        tests, quals := RecordFile(tests, quals, processed[i].0, processed[i].1, env);
        i := i + 1;
      }
      assert processed[..i] == processed;
    }

    /** The steps after staging: conversion, reading the code, installing
        the packages and recording every numbered file. A script that
        cannot be read, or a pip fault, fails the run before anything is
        recorded. */
    method RunStaged(copied: Dict.Dict<string>, installPackages: bool, env: Env)
      returns (failed: bool, tests: Dict.Dict<TestEntry>, quals: Dict.Dict<QualityEntry>)
      requires tempDir.Some?
      modifies this
      ensures tempDir == old(tempDir) && tempExists == old(tempExists) && saved == old(saved)
      ensures var p := Convert(copied, old(workspace), env.decode);
        var o := Finish(p.0, p.1, tempDir.value, installPackages, env);
        failed == o.failed && tests == o.tests && quals == o.quals &&
        pipRequests == old(pipRequests) + o.pip && workspace == p.1
    {
      var processed := ConvertNotebooksToPy(copied, env.decode);
      ghost var o := Finish(processed, workspace, tempDir.value, installPackages, env);
      var code := ReadCode(processed);
      tests, quals := [], [];
      if code.None? {
        assert o == Outcome(true, [], [], []);
        return true, tests, quals;
      }
      ghost var packages := InstallSet(code.value, env.stdlib, LocalModules(workspace, tempDir.value));
      assert o.pip == if installPackages && code.value != "" then PipRequest(packages) else [];
      if installPackages && code.value != "" {
        var installed := InstallDependencies(code.value, env.stdlib);
        assert installed == packages;
        if PipRequest(installed) != [] && env.pipFails {
          assert o == Outcome(true, PipRequest(packages), [], []);
          return true, tests, quals;
        }
      }
      assert o == Outcome(false, o.pip, Problems(processed, env).0, Problems(processed, env).1);
      tests, quals := RecordProblems(processed, env);
      failed := false;
    }

    /** Runs the tests and the quality checks of one submission. Both maps
        are returned whatever happens; the temporary directory is always
        removed; the test and quality documents are written after a run
        that did not fail, an error document after one that did. */
    method RunTestsForSubmission(student: Loaders.Student, files: seq<string>, submissionPath: string,
                                 stamp: string, now: string, installPackages: bool, env: Env)
      returns (testResults: Results<TestEntry>, qualityResults: Results<QualityEntry>)
      modifies this
      ensures var o := RunOutcome(old(workspace), TempDirFor(student, stamp), files, submissionPath, installPackages, env);
        testResults == Results(Metadata(student.name, student.id, taskName, now, "test_results"), o.tests) &&
        qualityResults == Results(Metadata(student.name, student.id, taskName, now, "quality_results"), o.quals) &&
        pipRequests == old(pipRequests) + o.pip &&
        saved == old(saved) + SavedFor(student, o.failed)
      ensures tempDir.None? && !tempExists && workspace == map[]
    {
      var dir := TempDirFor(student, stamp);
      tempDir := Some(dir);
      testResults := Results(Metadata(student.name, student.id, taskName, now, "test_results"), []);
      qualityResults := Results(Metadata(student.name, student.id, taskName, now, "quality_results"), []);
      var failed := true;
      var copied, ok := SetupTestEnvironment(files, submissionPath, env.read, env.copyFails);
      if ok {
        var tests, quals;
        failed, tests, quals := RunStaged(copied, installPackages, env);
        testResults := testResults.(problems := tests);
        qualityResults := qualityResults.(problems := quals);
      }
      SaveOutcome(student, failed);
      CleanupTestEnvironment();
    }

    /** The documents written after a run: the error document after one
        that failed, the test and quality documents otherwise. */
    function SavedFor(student: Loaders.Student, failed: bool): seq<string>
    {
      if failed then [ResultsPath(student, "error_results")]
      else [ResultsPath(student, "test_results"), ResultsPath(student, "quality_results")]
    }

    /** Writes the documents a run ends with. */
    method SaveOutcome(student: Loaders.Student, failed: bool)
      modifies this
      ensures saved == old(saved) + SavedFor(student, failed)
      ensures tempDir == old(tempDir) && tempExists == old(tempExists) && workspace == old(workspace)
      ensures pipRequests == old(pipRequests)
    {
      if failed {
        SaveResults(student, "error_results");
      } else {
        SaveResults(student, "test_results");
        SaveResults(student, "quality_results");
      }
    }
  }

  /** Once a script cannot be read, no later prefix reads either. */
  lemma {:induction false} AllCodeStaysNone(processed: Dict.Dict<string>, ws: map<string, string>, n: nat)
    requires n <= |processed| && AllCode(processed[..n], ws).None?
    ensures AllCode(processed, ws).None?
    decreases |processed| - n
  {
    if n < |processed| {
      assert processed[..n + 1][..n] == processed[..n];
      AllCodeStaysNone(processed, ws, n + 1);
    } else {
      assert processed[..n] == processed;
    }
  }
}
