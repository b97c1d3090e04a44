/** The marker report: a prompt assembled from the submission's test
    results, code-quality data, rubric, code, markdown and document text;
    the language model's reply written to a file named after the student
    and the task. Loading the configuration and result files, the model
    call and writing the file are inputs and outputs of the model: what
    was loaded, a reply function, and the file's path and content. */
module ReportGeneration {
  import opened Wrappers
  import opened Text
  import opened Scan
  import opened Json
  import Dict
  import Paths
  import TestResultAnalysis

  // ---------------------------------------------------------------------
  // Problem keys from file names

  /** A problem key: `1` or `2`, then at most one ASCII letter. */
  predicate IsKey(k: string)
  {
    1 <= |k| <= 2 && (k[0] == '1' || k[0] == '2') && (|k| == 2 ==> IsAsciiLetter(k[1]))
  }

  /** A problem key spans `s[i..e]`. */
  predicate KeyBetween(s: string, i: nat, e: nat)
  {
    i < e <= |s| && IsKey(s[i..e])
  }

  /** A hit of `s` whose group is a problem key. */
  predicate KeyHit(s: string, h: Hit)
  {
    HitIn(s, h) && IsKey(Group(s, h))
  }

  /** `[12][a-zA-Z]?` at `i`, greedy: the end of the key. (Whatever follows
      the key in either expression cannot start with a letter, so the greedy
      choice is the only one that can succeed.) */
  function KeyEnd(s: string, i: nat): (r: Option<nat>)
    ensures r.Some? ==> KeyBetween(s, i, r.value)
  {
    if i < |s| && (s[i] == '1' || s[i] == '2') then
      Some(if i + 1 < |s| && IsAsciiLetter(s[i + 1]) then i + 2 else i + 1)
    else None
  }

  /** `_([12][a-zA-Z]?)\.(?:ipynb|py)` at `i`. */
  function SuffixKeyAt(s: string, i: nat): (r: Option<Hit>)
    ensures r.Some? ==> KeyHit(s, r.value)
  {
    if Lit(s, i, "_") && KeyEnd(s, i + 1).Some? then
      var e := KeyEnd(s, i + 1).value;
      if Lit(s, e, ".ipynb") then Some(Hit(i, i + 1, e, e + 6))
      else if Lit(s, e, ".py") then Some(Hit(i, i + 1, e, e + 3))
      else None
    else None
  }

  /** `Problem([12][a-zA-Z]?)` at `i`, ignoring case. */
  function ProblemWordKeyAt(s: string, i: nat): (r: Option<Hit>)
    ensures r.Some? ==> KeyHit(s, r.value)
  {
    if LitCI(s, i, "problem") && KeyEnd(s, i + 7).Some? then
      Some(Hit(i, i + 7, KeyEnd(s, i + 7).value, KeyEnd(s, i + 7).value))
    else None
  }

  /** The captured key of a hit is found in the text. */
  lemma GroupContained(s: string, h: Hit)
    requires HitIn(s, h)
    ensures Contains(s, Group(s, h))
    ensures h.gs < h.ge ==> Contains(s, [s[h.gs]])
  {
    assert OccursAt(s, Group(s, h), h.gs);
    if h.gs < h.ge {
      assert OccursAt(s, [s[h.gs]], h.gs);
    }
  }

  const UnknownKey: string := "unknown"

  /** `problem_key_from_filename`: the key before a `.py`/`.ipynb`
      extension, else the key after the word `Problem`, else `1` or `2`
      when the name has that digit, else `unknown`. */
  function ProblemKey(fileName: string): (r: string)
    ensures r == UnknownKey <==> !Contains(fileName, "1") && !Contains(fileName, "2")
    ensures r != UnknownKey ==> IsKey(r) && Contains(fileName, r)
  {
    var suffix := Search(fileName, SuffixKeyAt);
    var word := Search(fileName, ProblemWordKeyAt);
    if suffix.Some? then
      GroupContained(fileName, suffix.value);
      Group(fileName, suffix.value)
    else if word.Some? then
      GroupContained(fileName, word.value);
      Group(fileName, word.value)
    else if Has(fileName, "1") then "1"
    else if Has(fileName, "2") then "2"
    else UnknownKey
  }

  // ---------------------------------------------------------------------
  // Prompt sections

  /** A criterion of the rubric; `points` and `description` as the
      configuration renders them, when given. */
  datatype Criterion = Criterion(points: Option<string>, description: Option<string>)

  /** One problem of the rubric. `standardTasks` is present when the
      configuration holds a list there, and `criteria` when it holds a
      mapping. */
  datatype ProblemConfig = ProblemConfig(
    name: Option<string>, weight: Option<string>, taskDescription: string,
    standardTasks: Option<seq<string>>, criteria: Option<Dict.Dict<Criterion>>)

  /** A failed test as the prompt lists it. */
  datatype FailedTest = FailedTest(name: Option<string>, errorMessage: Option<string>, context: Option<string>)

  /** The test figures the prompt reports. */
  datatype Totals = Totals(passed: bool, totalTests: int, passedTests: int, failedTests: int)

  /** Everything `format_report_prompt` is given. */
  datatype PromptInput = PromptInput(
    studentId: string, studentName: string, taskName: string, taskDescription: string,
    rubric: Dict.Dict<ProblemConfig>, totals: Totals, failed: seq<FailedTest>,
    flake8: Json, black: Json, snippets: Dict.Dict<string>, markdown: seq<string>,
    documents: Dict.Dict<string>, template: string)

  function OrElse(v: Option<string>, default: string): string
  {
    if v.Some? then v.value else default
  }

  // The fixed texts of the prompt.
  const HeaderTitle: string := "## Student Submission Details:"
  const NameLabel: string := "- **Student Name**: "
  const IdLabel: string := "- **Student ID**: "
  const TaskLabel: string := "- **Task Name**: "
  const TaskDescriptionLabel: string := "- **Task Description**: "
  const NoDescription: string := "No description."
  const ProblemHeading: string := "\n### Problem: "
  const MaxScore: string := " (Max Score: "
  const TaskFocus: string := "  _Task Focus: "
  const StandardRequirements: string := "  _Standard Requirements for "
  const CriteriaNote: string := "  - Note: Detailed criteria for "
  const CriteriaNoteEnd: string := " not found in expected dictionary format in config."
  const TestTitle: string := "\n## Test Results Summary:"
  const StatusLabel: string := "- Overall Status: "
  const TotalLabel: string := "- Total Tests: "
  const FailedTitle: string := "\n### Failed Tests Details (first 3):"
  const SnippetHeading: string := "### From file: "
  const SnippetsTitle: string := "\n## Relevant Source Code Snippets:"
  const OthersTitle: string := "\n#### Other Submitted Code Snippets:"
  const ExplanationLabel: string := "- Explanation Snippet "
  const MarkdownTitle: string := "\n## Student Explanations (from Markdown - first 2 snippets):"
  const DocumentsTitle: string := "\n## Student Explanations (from Documents - first document):"
  const FormatTitle: string := "\n\n## Required Output Format for Your Report:"
  const FormatInstruction: string := "Please fill in the details in the following markdown structure:"
  const QualityTitle: string := "\n## Code Quality Summary:"
  const NotProvided: string := " results not provided or file not found"
  const ReportSuffix: string := "_marker_report.md"

  function HeaderLines(p: PromptInput): seq<string>
  {
    [HeaderTitle,
     NameLabel + p.studentName,
     IdLabel + p.studentId,
     TaskLabel + p.taskName,
     TaskDescriptionLabel + p.taskDescription]
  }

  /** The standard requirements numbered from `from + 1`. */
  function Numbered(tasks: seq<string>, from: nat): (r: seq<string>)
    ensures |r| == |tasks|
    ensures forall i :: 0 <= i < |tasks| ==> r[i] == "    " + IntToString(from + i + 1) + ". " + tasks[i]
  {
    if |tasks| == 0 then [] else ["    " + IntToString(from + 1) + ". " + tasks[0]] + Numbered(tasks[1..], from + 1)
  }

  function CriterionLine(key: string, c: Criterion): string
  {
    "  - **" + Capitalize(Replace(key, "_", " ")) + " (" + OrElse(c.points, "N/A") + " pts)**: " +
      OrElse(c.description, NoDescription)
  }

  function CriterionLines(criteria: Dict.Dict<Criterion>): (r: seq<string>)
    ensures |r| == |criteria|
    ensures forall i :: 0 <= i < |criteria| ==> r[i] == CriterionLine(criteria[i].0, criteria[i].1)
  {
    if |criteria| == 0 then []
    else [CriterionLine(criteria[0].0, criteria[0].1)] + CriterionLines(criteria[1..])
  }

  /** The lines for one problem of the rubric. */
  function ProblemLines(key: string, c: ProblemConfig): seq<string>
  {
    var name := OrElse(c.name, Capitalize(key));
    [ProblemHeading + name + MaxScore + OrElse(c.weight, "N/A") + " pts)"] +
    (if c.taskDescription != "" then [TaskFocus + c.taskDescription + "_"] else []) +
    (if c.standardTasks.Some? && |c.standardTasks.value| > 0 then
       [StandardRequirements + name + ":_"] + Numbered(c.standardTasks.value, 0) + [""]
     else []) +
    (if c.criteria.Some? then CriterionLines(c.criteria.value)
     else [CriteriaNote + name + CriteriaNoteEnd])
  }

  /** The rubric section after its title, problem by problem. */
  function RubricLines(rubric: Dict.Dict<ProblemConfig>): seq<string>
  {
    if |rubric| == 0 then []
    else
      var last := rubric[|rubric| - 1];
      RubricLines(rubric[..|rubric| - 1]) + ProblemLines(last.0, last.1)
  }

  method RubricSection(rubric: Dict.Dict<ProblemConfig>) returns (lines: seq<string>)
    ensures lines == RubricLines(rubric)
  {
    lines := [];
    for i := 0 to |rubric|
      invariant lines == RubricLines(rubric[..i])
    {
      assert rubric[..i + 1][..i] == rubric[..i];
      var key := rubric[i].0;
      var config := rubric[i].1;
      lines := lines + ProblemLines(key, config);
    }
    assert rubric[..|rubric|] == rubric;
  }

  function TestLines(t: Totals): seq<string>
  {
    [TestTitle,
     StatusLabel + (if t.passed then "Passed" else "Failed"),
     TotalLabel + IntToString(t.totalTests) + ", Passed: " + IntToString(t.passedTests) +
       ", Failed: " + IntToString(t.failedTests)]
  }

  function FailedTestLines(t: FailedTest): (r: seq<string>)
    ensures 1 <= |r| <= 2
  {
    ["- Test: " + OrElse(t.name, "N/A") + "\n  Error: " + OrElse(t.errorMessage, "N/A")] +
    (if t.context.Some? && t.context.value != "" then ["  Context:\n" + t.context.value] else [])
  }

  function FailedTestsLines(tests: seq<FailedTest>): (r: seq<string>)
    ensures |tests| <= |r| <= 2 * |tests|
  {
    if |tests| == 0 then [] else FailedTestLines(tests[0]) + FailedTestsLines(tests[1..])
  }

  /** The failed tests: a title and the first three, only when there are
      any. */
  function FailedLines(tests: seq<FailedTest>): (r: seq<string>)
    ensures |tests| == 0 <==> r == []
    ensures |r| <= 7
  {
    if |tests| == 0 then []
    else [FailedTitle] + FailedTestsLines(if |tests| <= 3 then tests else tests[..3])
  }

  /** Tests after the third never change the prompt. */
  lemma FailedLinesFirstThree(tests: seq<FailedTest>)
    requires |tests| >= 3
    ensures FailedLines(tests) == FailedLines(tests[..3])
  {
    assert tests[..3][..3] == tests[..3];
    assert |tests| == 3 ==> tests[..3] == tests;
  }

  /** The texts of one quality tool's lines. */
  datatype ToolTexts = ToolTexts(issues: string, outputOnly: string, notRun: string)

  const Flake8Texts: ToolTexts := ToolTexts(
    "- Flake8 Issues: Yes. Output snippet:\n",
    "- Flake8: Output provided (may indicate no major issues or specific info):\n",
    "- Flake8: No specific issues reported or not run.")

  const BlackTexts: ToolTexts := ToolTexts(
    "- Black Formatting: Issues found. Output snippet:\n",
    "- Black: Output provided (may indicate well-formatted or specific info):\n",
    "- Black: No specific issues reported or not run.")

  const NotSliceable: string := "TypeError: output is not a text"

  /** The tool's line: an excerpt of 300 characters when it found issues,
      of 150 when it only has output, otherwise a fixed line. An output
      that is not a text (a failed tool's `None`) cannot be cut, and the
      prompt fails. */
  function ToolLine(texts: ToolTexts, data: Json): (r: Result<string>)
    ensures r.Ok? && data.Obj? && Truthy(FieldOr(data, "has_issues", Null)) ==>
      exists out :: |out| <= 300 && r.value == texts.issues + out + "..."
    ensures r.Err? ==> data.Obj? && (Truthy(FieldOr(data, "has_issues", Null)) || Field(data, "output").Some?)
  {
    var output := FieldOr(data, "output", Str(""));
    if data.Obj? && Truthy(FieldOr(data, "has_issues", Null)) then
      if output.Str? then Ok(texts.issues + Take(output.s, 300) + "...") else Err(NotSliceable)
    else if data.Obj? && Field(data, "output").Some? then
      if output.Str? then Ok(texts.outputOnly + Take(output.s, 150) + "...") else Err(NotSliceable)
    else Ok(texts.notRun)
  }

  /** The snippet of one file: its name and its first 700 characters. */
  function Snippet(path: string, code: string): string
  {
    SnippetHeading + Paths.Name(path) + "\n```python\n" + Take(code, 700) + "...\n```\n"
  }

  const Problem1Label: string := "\n#### Source Code for Problem 1 (or related):"
  const Problem2Label: string := "\n#### Source Code for Problem 2 (or related):"

  /** The label of problem 1 or problem 2. */
  function Label(n: nat): string
  {
    if n == 1 then Problem1Label else Problem2Label
  }

  /** Where the snippets went: the labelled snippets with their problem,
      the other snippets, and whether Problem 1 and Problem 2 each have
      their snippet. */
  datatype Placement = Placement(labelled: seq<(nat, string)>, others: seq<string>, has1: bool, has2: bool)

  /** One file's snippet placed: under the Problem 1 label if its key
      names problem 1 and that label is free, else under Problem 2 on the
      same terms, else with the others. */
  function Place(pl: Placement, path: string, code: string): Placement
  {
    var snippet := Snippet(path, code);
    var key := ProblemKey(Paths.Name(path));
    if Has(key, "1") && !pl.has1 then pl.(labelled := pl.labelled + [(1, snippet)], has1 := true)
    else if Has(key, "2") && !pl.has2 then pl.(labelled := pl.labelled + [(2, snippet)], has2 := true)
    else pl.(others := pl.others + [snippet])
  }

  function Placed(snippets: Dict.Dict<string>): Placement
  {
    if |snippets| == 0 then Placement([], [], false, false)
    else
      var last := snippets[|snippets| - 1];
      Place(Placed(snippets[..|snippets| - 1]), last.0, last.1)
  }

  function B2N(b: bool): nat { if b then 1 else 0 }

  /** `n` snippets placed once each: one labelled snippet for each of
      Problem 1 and Problem 2 that has one, never two under the same
      label, and every other snippet with the others. */
  predicate Accounted(pl: Placement, n: nat)
  {
    |pl.labelled| == B2N(pl.has1) + B2N(pl.has2) &&
    |pl.labelled| + |pl.others| == n &&
    (forall i :: 0 <= i < |pl.labelled| ==>
       (pl.labelled[i].0 == 1 && pl.has1) || (pl.labelled[i].0 == 2 && pl.has2)) &&
    (forall i, j :: 0 <= i < j < |pl.labelled| ==> pl.labelled[i].0 != pl.labelled[j].0)
  }

  lemma PlaceAccounted(pl: Placement, n: nat, path: string, code: string)
    requires Accounted(pl, n)
    ensures Accounted(Place(pl, path, code), n + 1)
  {
    var key := ProblemKey(Paths.Name(path));
    var snippet := Snippet(path, code);
    if Has(key, "1") && !pl.has1 {
      LabelAccounted(pl, n, 1, snippet, Place(pl, path, code));
    } else if Has(key, "2") && !pl.has2 {
      LabelAccounted(pl, n, 2, snippet, Place(pl, path, code));
    }
  }

  /** Labelling a snippet with a label not yet taken keeps the count. */
  lemma LabelAccounted(pl: Placement, n: nat, tag: nat, snippet: string, q: Placement)
    requires Accounted(pl, n) && ((tag == 1 && !pl.has1) || (tag == 2 && !pl.has2))
    requires q.labelled == pl.labelled + [(tag, snippet)] && q.others == pl.others
    requires q.has1 == (pl.has1 || tag == 1) && q.has2 == (pl.has2 || tag == 2)
    ensures Accounted(q, n + 1)
  {
    assert forall i :: 0 <= i < |pl.labelled| ==> pl.labelled[i].0 != tag;
    assert forall i :: 0 <= i < |pl.labelled| ==> q.labelled[i] == pl.labelled[i];
  }

  /** Every file's snippet is placed once. */
  lemma {:induction false} PlacedAccounts(snippets: Dict.Dict<string>)
    ensures Accounted(Placed(snippets), |snippets|)
  {
    if |snippets| > 0 {
      var last := snippets[|snippets| - 1];
      PlacedAccounts(snippets[..|snippets| - 1]);
      PlaceAccounted(Placed(snippets[..|snippets| - 1]), |snippets| - 1, last.0, last.1);
    }
  }

  method PlaceSnippets(snippets: Dict.Dict<string>) returns (pl: Placement)
    ensures pl == Placed(snippets)
  {
    var labelled: seq<(nat, string)> := [];
    var others: seq<string> := [];
    var has1 := false;
    var has2 := false;
    for i := 0 to |snippets|
      invariant Placement(labelled, others, has1, has2) == Placed(snippets[..i])
    {
      assert snippets[..i + 1][..i] == snippets[..i];
      var path := snippets[i].0;
      var snippet := Snippet(path, snippets[i].1);
      var key := ProblemKey(Paths.Name(path));
      if Has(key, "1") && !has1 {
        labelled := labelled + [(1, snippet)];
        has1 := true;
      } else if Has(key, "2") && !has2 {
        labelled := labelled + [(2, snippet)];
        has2 := true;
      } else {
        others := others + [snippet];
      }
    }
    assert snippets[..|snippets|] == snippets;
    pl := Placement(labelled, others, has1, has2);
  }

  /** The label and snippet lines of the labelled snippets, two per snippet. */
  function LabelledLines(labelled: seq<(nat, string)>): (r: seq<string>)
    ensures |r| == 2 * |labelled|
  {
    if |labelled| == 0 then []
    else [Label(labelled[0].0), labelled[0].1] + LabelledLines(labelled[1..])
  }

  /** Each labelled snippet comes right after its label. */
  lemma {:induction false} LabelledLinesAt(labelled: seq<(nat, string)>, i: nat)
    requires i < |labelled|
    ensures LabelledLines(labelled)[2 * i] == Label(labelled[i].0)
    ensures LabelledLines(labelled)[2 * i + 1] == labelled[i].1
    decreases i
  {
    if i > 0 {
      LabelledLinesAt(labelled[1..], i - 1);
      assert labelled[1..][i - 1] == labelled[i];
    }
  }

  function SnippetLines(snippets: Dict.Dict<string>): seq<string>
  {
    if |snippets| == 0 then []
    else
      var pl := Placed(snippets);
      [SnippetsTitle] + LabelledLines(pl.labelled) +
      (if |pl.others| > 0 then [OthersTitle] + pl.others else [])
  }

  method SnippetSection(snippets: Dict.Dict<string>) returns (lines: seq<string>)
    ensures lines == SnippetLines(snippets)
  {
    lines := [];
    if |snippets| > 0 {
      var pl := PlaceSnippets(snippets);
      lines := [SnippetsTitle] + LabelledLines(pl.labelled);
      if |pl.others| > 0 {
        lines := lines + [OthersTitle] + pl.others;
      }
    }
  }

  function Excerpt(s: string): (r: string)
    ensures |r| <= 303
  {
    Take(s, 300) + "..."
  }

  function MarkdownItems(markdown: seq<string>, from: nat): (r: seq<string>)
    ensures |r| == |markdown|
  {
    if |markdown| == 0 then []
    else [ExplanationLabel + IntToString(from + 1) + ": " + Excerpt(markdown[0])] + MarkdownItems(markdown[1..], from + 1)
  }

  /** The first two markdown excerpts, when there is any markdown. */
  function MarkdownLines(markdown: seq<string>): (r: seq<string>)
    ensures |markdown| == 0 <==> r == []
    ensures |r| <= 3
  {
    if |markdown| == 0 then []
    else
      [MarkdownTitle] +
      MarkdownItems(if |markdown| <= 2 then markdown else markdown[..2], 0)
  }

  /** The first document's excerpt, when there is any document. */
  function DocumentLines(documents: Dict.Dict<string>): (r: seq<string>)
    ensures |documents| == 0 <==> r == []
    ensures |r| <= 2
  {
    if |documents| == 0 then []
    else
      [DocumentsTitle,
       "- From " + documents[0].0 + ": " + Excerpt(documents[0].1)]
  }

  /** Markdown after the second excerpt and documents after the first never
      change the prompt. */
  lemma ExplanationsBounded(markdown: seq<string>, documents: Dict.Dict<string>)
    requires |markdown| >= 2 && |documents| >= 1
    ensures MarkdownLines(markdown) == MarkdownLines(markdown[..2])
    ensures DocumentLines(documents) == DocumentLines(documents[..1])
  {
    assert markdown[..2][..2] == markdown[..2];
    assert |markdown| == 2 ==> markdown[..2] == markdown;
  }

  function FooterLines(template: string): seq<string>
  {
    [FormatTitle,
     FormatInstruction,
     template]
  }

  const RubricTitle: string := "\n## Rubric Criteria for Assessment (from marking_config.yaml):"

  function QualityLines(flake8Line: string, blackLine: string): seq<string>
  {
    [QualityTitle, flake8Line, blackLine]
  }

  /** The sections between the header and the footer. */
  function BodyLines(p: PromptInput, flake8Line: string, blackLine: string): seq<string>
  {
    [RubricTitle] + RubricLines(p.rubric) + TestLines(p.totals) + FailedLines(p.failed) +
    QualityLines(flake8Line, blackLine) + SnippetLines(p.snippets) + MarkdownLines(p.markdown) +
    DocumentLines(p.documents)
  }

  /** The prompt's lines given the two quality lines. */
  function PromptLines(p: PromptInput, flake8Line: string, blackLine: string): (r: seq<string>)
    ensures |r| >= 2 && r[0] == HeaderTitle && r[|r| - 1] == p.template
  {
    HeaderLines(p) + BodyLines(p, flake8Line, blackLine) + FooterLines(p.template)
  }

  /** The lines joined by newlines: the header first, the template last. */
  function PromptText(p: PromptInput, flake8Line: string, blackLine: string): (r: string)
    ensures StartsWith(r, HeaderTitle + "\n")
    ensures EndsWith(r, "\n" + p.template)
  {
    var lines := PromptLines(p, flake8Line, blackLine);
    JoinEnds(lines, "\n");
    Join(lines, "\n")
  }

  /** `format_report_prompt`: it fails exactly when a tool's output has to
      be cut but is not a text. */
  function Prompt(p: PromptInput): (r: Result<string>)
    ensures r.Err? <==> ToolLine(Flake8Texts, p.flake8).Err? || ToolLine(BlackTexts, p.black).Err?
    ensures r.Ok? ==> StartsWith(r.value, HeaderTitle + "\n")
    ensures r.Ok? ==> EndsWith(r.value, "\n" + p.template)
  {
    var f := ToolLine(Flake8Texts, p.flake8);
    var b := ToolLine(BlackTexts, p.black);
    if f.Err? then Err(f.error)
    else if b.Err? then Err(b.error)
    else Ok(PromptText(p, f.value, b.value))
  }

  /** A join of at least two parts starts with the first and a separator
      and ends with a separator and the last. */
  lemma JoinEnds(parts: seq<string>, sep: string)
    requires |parts| >= 2
    ensures StartsWith(Join(parts, sep), parts[0] + sep)
    ensures EndsWith(Join(parts, sep), sep + parts[|parts| - 1])
  {
    var init := parts[..|parts| - 1];
    assert parts == init + [parts[|parts| - 1]];
    JoinSnoc(init, parts[|parts| - 1], sep);
    var r := Join(parts, sep);
    var tail := sep + parts[|parts| - 1];
    assert r == Join(init, sep) + tail;
    assert r[|r| - |tail|..] == tail;
    JoinCons(parts, sep);
    assert r == (parts[0] + sep) + Join(parts[1..], sep);
    assert r[..|parts[0] + sep|] == parts[0] + sep;
  }

  /** `format_report_prompt` as the source builds it: section by section,
      with the snippets placed one file at a time. */
  method FormatReportPrompt(p: PromptInput) returns (r: Result<string>)
    ensures r == Prompt(p)
  {
    var flake8 := ToolLine(Flake8Texts, p.flake8);
    var black := ToolLine(BlackTexts, p.black);
    if flake8.Err? {
      return Err(flake8.error);
    }
    if black.Err? {
      return Err(black.error);
    }
    var rubric := RubricSection(p.rubric);
    var snippets := SnippetSection(p.snippets);
    var body := [RubricTitle] + rubric + TestLines(p.totals) + FailedLines(p.failed) +
      QualityLines(flake8.value, black.value) + snippets + MarkdownLines(p.markdown) +
      DocumentLines(p.documents);
    var parts := HeaderLines(p) + body + FooterLines(p.template);
    assert parts == PromptLines(p, flake8.value, black.value);
    r := Ok(Join(parts, "\n"));
  }

  // ---------------------------------------------------------------------
  // Test totals

  function TotalFailed(ps: Dict.Dict<TestResultAnalysis.ProblemResult>): int
  {
    if |ps| == 0 then 0 else TotalFailed(ps[..|ps| - 1]) + ps[|ps| - 1].1.summary.failedTests
  }

  /** The totals over all problems; they pass when nothing failed and at
      least one test ran. */
  function TotalsOf(ps: Dict.Dict<TestResultAnalysis.ProblemResult>): Totals
  {
    var total := TestResultAnalysis.TotalTests(ps);
    var failed := TotalFailed(ps);
    Totals(failed == 0 && total > 0, total, TestResultAnalysis.TotalPassed(ps), failed)
  }

  method AggregateTotals(ps: Dict.Dict<TestResultAnalysis.ProblemResult>) returns (t: Totals)
    ensures t == TotalsOf(ps)
  {
    var total, passed, failed := 0, 0, 0;
    for i := 0 to |ps|
      invariant total == TestResultAnalysis.TotalTests(ps[..i])
      invariant passed == TestResultAnalysis.TotalPassed(ps[..i])
      invariant failed == TotalFailed(ps[..i])
    {
      assert ps[..i + 1][..i] == ps[..i];
      var s := ps[i].1.summary;
      total := total + s.totalTests;
      passed := passed + s.passedTests;
      failed := failed + s.failedTests;
    }
    assert ps[..|ps|] == ps;
    t := Totals(failed == 0 && total > 0, total, passed, failed);
  }

  /** Counts that are never negative. */
  predicate NonNegative(ps: Dict.Dict<TestResultAnalysis.ProblemResult>)
  {
    forall i :: 0 <= i < |ps| ==> ps[i].1.summary.totalTests >= 0 && ps[i].1.summary.failedTests >= 0
  }

  /** With counts that are never negative, the failed total is zero
      exactly when no problem has a failed test. */
  lemma {:induction false} NoFailuresIff(ps: Dict.Dict<TestResultAnalysis.ProblemResult>)
    requires NonNegative(ps)
    ensures TotalFailed(ps) >= 0
    ensures TotalFailed(ps) == 0 <==> forall i :: 0 <= i < |ps| ==> ps[i].1.summary.failedTests == 0
  {
    if |ps| > 0 {
      var init := ps[..|ps| - 1];
      assert forall i :: 0 <= i < |init| ==> init[i] == ps[i];
      NoFailuresIff(init);
    }
  }

  /** With counts that are never negative, the test total is positive
      exactly when some problem ran a test. */
  lemma {:induction false} SomeTestsIff(ps: Dict.Dict<TestResultAnalysis.ProblemResult>)
    requires NonNegative(ps)
    ensures TestResultAnalysis.TotalTests(ps) >= 0
    ensures TestResultAnalysis.TotalTests(ps) > 0 <==> exists i :: 0 <= i < |ps| && ps[i].1.summary.totalTests > 0
  {
    if |ps| > 0 {
      var init := ps[..|ps| - 1];
      assert forall i :: 0 <= i < |init| ==> init[i] == ps[i];
      SomeTestsIff(init);
      if TestResultAnalysis.TotalTests(init) > 0 {
        var k :| 0 <= k < |init| && init[k].1.summary.totalTests > 0;
        assert ps[k].1.summary.totalTests > 0;
      }
      if exists i :: 0 <= i < |ps| && ps[i].1.summary.totalTests > 0 {
        var k :| 0 <= k < |ps| && ps[k].1.summary.totalTests > 0;
        if k < |ps| - 1 {
          assert init[k].1.summary.totalTests > 0;
        }
      }
    }
  }

  /** With counts that are never negative, the totals pass exactly when no
      problem has a failed test and some problem ran a test. */
  lemma TotalsPassIff(ps: Dict.Dict<TestResultAnalysis.ProblemResult>)
    requires NonNegative(ps)
    ensures TotalsOf(ps).passed <==>
      (forall i :: 0 <= i < |ps| ==> ps[i].1.summary.failedTests == 0) &&
      (exists i :: 0 <= i < |ps| && ps[i].1.summary.totalTests > 0)
  {
    NoFailuresIff(ps);
    SomeTestsIff(ps);
  }

  // ---------------------------------------------------------------------
  // The report

  /** What was found for the test results: no path, a path to no file, or
      the outcome of loading the file into the analyzer. */
  datatype ResultsInput =
    | NoResultsPath
    | ResultsMissing(path: string)
    | ResultsLoaded(path: string, analysis: Result<TestResultAnalysis.Analysis>)

  /** The student's name and id and the totals the prompt reports. */
  datatype Student = Student(name: string, id: string)

  const UnknownStudent: Student := Student("UnknownName", "UnknownStudent")

  function OrDefault(s: string, default: string): string
  {
    if s != "" then s else default
  }

  /** The student from the results: the loaded metadata (empty fields keep
      the defaults), else the first two `_`-parts of a missing file's
      stem, else the defaults. */
  function StudentOf(results: ResultsInput): (r: Student)
    ensures results.NoResultsPath? ==> r == UnknownStudent
    ensures results.ResultsLoaded? && results.analysis.Err? ==> r == UnknownStudent
  {
    match results
    case NoResultsPath => UnknownStudent
    case ResultsMissing(path) =>
      var parts := Split(Paths.Stem(Paths.Name(path)), "_");
      if |parts| >= 2 then Student(parts[0], parts[1]) else UnknownStudent
    case ResultsLoaded(_, analysis) =>
      if analysis.Err? then UnknownStudent
      else
        var m := analysis.value.metadata;
        Student(OrDefault(m.studentName, UnknownStudent.name), OrDefault(m.studentId, UnknownStudent.id))
  }

  const NoTotals: Totals := Totals(false, 0, 0, 0)

  /** What one quality file gave: nothing, a load failure, or its data. */
  datatype QualityInput =
    | QualityMissing
    | QualityUnreadable(error: string)
    | QualityLoaded(data: Json)

  /** Python's `key in data` on a decoded file: a key of an object, a
      substring of a text, an element of a list; other values cannot be
      searched. */
  function KeyIn(key: string, data: Json): (r: Option<bool>)
    ensures data.Obj? ==> r == Some(Field(data, key).Some?)
    ensures r.None? <==> data.Null? || data.Bool? || data.Num?
  {
    match data
    case Obj(_) => Some(Field(data, key).Some?)
    case Str(s) => Some(Contains(s, key))
    case Arr(items) => Some(Str(key) in items)
    case _ => None
  }

  const NotIterable: string := "argument is not iterable"
  const NotIndexable: string := "indices must be integers"
  const NoKeys: string := "object has no attribute 'keys'"
  const NoGet: string := "object has no attribute 'get'"
  const LoadFailed: string := "Failed to load "
  const SplitIndexError: string := "IndexError: list index out of range"
  const ResultsSuffix: string := "_results"

  function LoadError(tool: string, reason: string): Json
  {
    Obj([("error", Str(LoadFailed + tool + " data: " + reason))])
  }

  /** The quality data for one tool: the file's `summary`; else the first
      problem's `<tool>_results` (an empty object when absent); else an
      empty object. A missing file gives a note, and a file that does not
      load or cannot be read that way gives an error entry. */
  function SelectQuality(tool: string, q: QualityInput): (r: Json)
    ensures q.QualityMissing? ==> r == Obj([("note", Str(tool + NotProvided))])
    ensures q.QualityUnreadable? ==> r == LoadError(tool, q.error)
    ensures q.QualityLoaded? && Field(q.data, "summary").Some? ==> r == Field(q.data, "summary").value
    ensures q.QualityLoaded? && KeyIn("summary", q.data) == Some(false) && KeyIn("problems", q.data) == Some(false) ==>
      r == Obj([])
    ensures q.QualityLoaded? && q.data.Obj? && Field(q.data, "summary").None? &&
            Field(q.data, "problems").Some? && Field(q.data, "problems").value.Obj? &&
            |Field(q.data, "problems").value.fields| > 0 &&
            Field(q.data, "problems").value.fields[0].1.Obj? ==>
      r == FieldOr(Field(q.data, "problems").value.fields[0].1, tool + ResultsSuffix, Obj([]))
  {
    match q
    case QualityMissing => Obj([("note", Str(tool + NotProvided))])
    case QualityUnreadable(e) => LoadError(tool, e)
    case QualityLoaded(data) =>
      match KeyIn("summary", data)
      case None => LoadError(tool, NotIterable)
      case Some(hasSummary) =>
        if hasSummary then
          if data.Obj? then Field(data, "summary").value else LoadError(tool, NotIndexable)
        else if KeyIn("problems", data) == Some(true) then
          if !data.Obj? then LoadError(tool, NotIndexable)
          else
            var problems := Field(data, "problems").value;
            if !Truthy(problems) then Obj([])
            else if !problems.Obj? then LoadError(tool, NoKeys)
            else if !problems.fields[0].1.Obj? then LoadError(tool, NoGet)
            else FieldOr(problems.fields[0].1, tool + ResultsSuffix, Obj([]))
        else Obj([])
  }

  /** A missing or unreadable quality file gives the tool's fixed line. */
  lemma NoDataNotRun(texts: ToolTexts, tool: string, q: QualityInput)
    requires q.QualityMissing? || q.QualityUnreadable?
    ensures ToolLine(texts, SelectQuality(tool, q)) == Ok(texts.notRun)
  {
    var j := SelectQuality(tool, q);
    var key := if q.QualityMissing? then "note" else "error";
    assert j.fields[0].0 == key;
    assert key != "has_issues" && key != "output";
    Dict.GetFirst(j.fields, 0);
    assert Dict.Get(j.fields, "has_issues") == None && Dict.Get(j.fields, "output") == None by {
      assert j.fields[1..] == [];
    }
  }

  /** What the task's configuration gives: its description and rubric. */
  datatype TaskConfig = TaskConfig(description: Option<string>, scoring: Dict.Dict<ProblemConfig>)

  const FallbackTemplate: string := "# Basic Marker Report\n## Score: [Score]\n## Justification: [Justification]"

  const FallbackSystemPrompt: string :=
    "You are an expert marker. Please review the student submission details and provide a marker report based on the provided output format template."

  /** The output template: the configured one, or a basic fallback. */
  function TemplateOf(configured: Option<string>): string
  {
    if configured.Some? then configured.value else FallbackTemplate
  }

  /** The system prompt: the configured one unless absent or empty. */
  function SystemPromptOf(configured: Option<string>): (r: string)
    ensures r != ""
  {
    if configured.Some? && configured.value != "" then configured.value else FallbackSystemPrompt
  }

  /** The model's reply: none, or a response. */
  datatype Reply = NoReply | Reply(success: bool, content: string, error: string)

  const ReplyFailure: string := "Error generating LLM response for marker report."

  /** The report's content: the reply's content on success, otherwise an
      error text, with the reported error when there is one. */
  function ResponseText(r: Reply): (t: string)
    ensures r.Reply? && r.success ==> t == r.content
    ensures !(r.Reply? && r.success) ==> StartsWith(t, ReplyFailure)
  {
    if r.Reply? && r.success then r.content
    else if r.Reply? then
      assert (ReplyFailure + " Error: " + r.error)[..|ReplyFailure|] == ReplyFailure;
      ReplyFailure + " Error: " + r.error
    else ReplyFailure
  }

  /** The base of the report's file name: name, id and the task's first
      two `_`-parts, with spaces made `_`, `(`, `)` and `:` dropped, cut
      to 100 characters. A task name without `_` has no second part. */
  function ReportFileBase(s: Student, taskName: string): (r: Result<string>)
    ensures r.Err? <==> !Contains(taskName, "_")
    ensures r.Ok? ==> |r.value| <= 100
    ensures r.Ok? ==> ' ' !in r.value && '(' !in r.value && ')' !in r.value && ':' !in r.value
    ensures r.Ok? ==> r.value == Take(FileSafe(s.name + "_" + s.id + "_" + Split(taskName, "_")[0] + "_" +
                                               Split(taskName, "_")[1], {'(', ')', ':'}), 100)
  {
    var parts := Split(taskName, "_");
    if |parts| < 2 then Err(SplitIndexError)
    else
      var base := Replace(s.name, " ", "_") + "_" + s.id + "_" + parts[0] + "_" + parts[1];
      ReportBaseSafe(s.name, s.id, parts[0], parts[1]);
      var d := Replace(Replace(Replace(Replace(base, " ", "_"), "(", ""), ")", ""), ":", "");
      var r := Take(d, 100);
      assert forall x :: x in r ==> x in d by {
        assert r == d[..|r|];
      }
      Ok(r)
  }

  /** The four replacements on the base, character by character: the
      name's spaces were already `_`, so the whole base is made safe once. */
  lemma ReportBaseSafe(name: string, id: string, first: string, second: string)
    ensures Replace(Replace(Replace(Replace(Replace(name, " ", "_") + "_" + id + "_" + first + "_" + second, " ", "_"),
                                    "(", ""), ")", ""), ":", "") ==
      FileSafe(name + "_" + id + "_" + first + "_" + second, {'(', ')', ':'})
  {
    var safeName := Replace(name, " ", "_");
    var rest := "_" + id + "_" + first + "_" + second;
    assert safeName + "_" + id + "_" + first + "_" + second == safeName + rest;
    assert name + "_" + id + "_" + first + "_" + second == name + rest;
    SpacesUnderscored(name);
    SpacesUnderscored(safeName + rest);
    FileSafeConcat(safeName, rest, {});
    FileSafeConcat(name, rest, {});
    assert FileSafe(safeName, {}) == safeName;
    FileSafeDrop(name + rest, {}, '(');
    assert {} + {'('} == {'('};
    FileSafeDrop(name + rest, {'('}, ')');
    assert {'('} + {')'} == {'(', ')'};
    FileSafeDrop(name + rest, {'(', ')'}, ':');
    assert {'(', ')'} + {':'} == {'(', ')', ':'};
  }

  /** The report's path: `<base>_marker_report.md` in the report
      directory. */
  function ReportPath(dir: string, base: string): (path: string)
    ensures StartsWith(path, dir) && EndsWith(path, ReportSuffix)
  {
    var name := base + ReportSuffix;
    var path := Paths.JoinPath(dir, name);
    assert path[|path| - |name|..][|name| - 17..] == ReportSuffix;
    path
  }

  /** The written report. */
  datatype ReportFile = ReportFile(path: string, content: string)

  /** Everything `generate_single_report` works from, loaded. */
  datatype ReportInput = ReportInput(
    results: ResultsInput, flake8: QualityInput, black: QualityInput, taskName: string, reportDir: string,
    snippets: Dict.Dict<string>, markdown: seq<string>, documents: Dict.Dict<string>,
    task: Option<TaskConfig>, systemPrompt: Option<string>, template: Option<string>)

  /** The prompt input for a student and totals. */
  function PromptInputOf(inp: ReportInput, s: Student, totals: Totals): PromptInput
  {
    var description := if inp.task.Some? && inp.task.value.description.Some? then inp.task.value.description.value else "N/A";
    var rubric := if inp.task.Some? then inp.task.value.scoring else [];
    PromptInput(s.id, s.name, inp.taskName, description, rubric, totals, [],
                SelectQuality("flake8", inp.flake8), SelectQuality("black", inp.black),
                inp.snippets, inp.markdown, inp.documents, TemplateOf(inp.template))
  }

  /** The totals of the results: those of the loaded problems, else none. */
  function TotalsFor(results: ResultsInput): Totals
  {
    if results.ResultsLoaded? && results.analysis.Ok? then TotalsOf(results.analysis.value.problems) else NoTotals
  }

  /** The report `generate_single_report` writes, or the error that stops
      it: a quality output that cannot be cut, or a task name without
      `_`. The failed-test list is empty because the analyzer's test cases
      are texts, never the mappings the filter looks for. */
  function Report(inp: ReportInput, llm: (string, string) -> Reply): (r: Result<ReportFile>)
    ensures r.Ok? <==>
      Prompt(PromptInputOf(inp, StudentOf(inp.results), TotalsFor(inp.results))).Ok? &&
      Contains(inp.taskName, "_")
    ensures r.Ok? ==> StartsWith(r.value.path, inp.reportDir) && EndsWith(r.value.path, ReportSuffix)
    ensures var prompt := Prompt(PromptInputOf(inp, StudentOf(inp.results), TotalsFor(inp.results)));
      r.Ok? ==> r.value.content == ResponseText(llm(prompt.value, SystemPromptOf(inp.systemPrompt))) &&
                r.value.path == ReportPath(inp.reportDir, ReportFileBase(StudentOf(inp.results), inp.taskName).value)
    ensures var prompt := Prompt(PromptInputOf(inp, StudentOf(inp.results), TotalsFor(inp.results)));
      r.Err? ==> r.error == if prompt.Err? then prompt.error else SplitIndexError
  {
    var student := StudentOf(inp.results);
    var prompt := Prompt(PromptInputOf(inp, student, TotalsFor(inp.results)));
    var base := ReportFileBase(student, inp.taskName);
    if prompt.Err? then Err(prompt.error)
    else if base.Err? then Err(base.error)
    else
      var content := ResponseText(llm(prompt.value, SystemPromptOf(inp.systemPrompt)));
      Ok(ReportFile(ReportPath(inp.reportDir, base.value), content))
  }

  /** `generate_single_report`: the totals summed problem by problem, the
      prompt built section by section, the model asked once. */
  method GenerateSingleReport(inp: ReportInput, llm: (string, string) -> Reply) returns (r: Result<ReportFile>)
    ensures r == Report(inp, llm)
  {
    var student := StudentOf(inp.results);
    var totals := NoTotals;
    if inp.results.ResultsLoaded? && inp.results.analysis.Ok? {
      totals := AggregateTotals(inp.results.analysis.value.problems);
    }
    var prompt := FormatReportPrompt(PromptInputOf(inp, student, totals));
    if prompt.Err? {
      return Err(prompt.error);
    }
    var content := ResponseText(llm(prompt.value, SystemPromptOf(inp.systemPrompt)));
    var base := ReportFileBase(student, inp.taskName);
    if base.Err? {
      return Err(base.error);
    }
    r := Ok(ReportFile(ReportPath(inp.reportDir, base.value), content));
  }
}
