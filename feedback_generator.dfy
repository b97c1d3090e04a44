/** Per-problem feedback from the language model: a request per problem
    of the loaded results, the reply formatted as HTML, markdown or plain
    text, and the successful feedback saved one file per problem plus a
    summary. Reading the solution file, the model calls and writing the
    files are parameters and results: a source reader, reply functions,
    and the list of files written with their content. */
module FeedbackGeneration {
  import opened Wrappers
  import opened Text
  import Dict
  import Paths
  import TestResultAnalysis

  /** The supported feedback formats. */
  datatype Format = Html | Markdown | PlainText

  /** `format.upper()`, as the prompts name the format. */
  function Upper(f: Format): string
  {
    match f
    case Html => "HTML"
    case Markdown => "MARKDOWN"
    case PlainText => "TEXT"
  }

  /** The file extension of a format. */
  function Extension(f: Format): (ext: string)
    ensures |ext| > 0 && ext[0] == '.'
  {
    match f
    case Html => ".html"
    case Markdown => ".md"
    case PlainText => ".txt"
  }

  /** The extensions tell the formats apart. */
  lemma ExtensionInjective(f: Format, g: Format)
    ensures Extension(f) == Extension(g) <==> f == g
  {
    if f != g {
      assert Extension(f)[1] != Extension(g)[1];
    }
  }

  // ---------------------------------------------------------------------
  // Formatting

  /** The page around HTML feedback, line by line as the source indents
      it; the content goes on the last line of the head. */
  const HtmlHeadLines: seq<string> := [
    "",
    "            <!DOCTYPE html>",
    "            <html>",
    "            <head>",
    "                <style>",
    "                    body { font-family: Arial, sans-serif; line-height: 1.6; max-width: 800px; margin: 0 auto; padding: 20px; }",
    "                    h1, h2, h3 { color: #2c3e50; }",
    "                    .feedback-section { margin-bottom: 20px; padding: 15px; border: 1px solid #eee; border-radius: 5px; }",
    "                    .success { color: #27ae60; }",
    "                    .warning { color: #e67e22; }",
    "                    .error { color: #c0392b; }",
    "                    code { background-color: #f8f9fa; padding: 2px 4px; border-radius: 4px; }",
    "                </style>",
    "            </head>",
    "            <body>",
    "                "]
  const HtmlTailLines: seq<string> := ["", "            </body>", "            </html>", "            "]
  const HtmlHead: string := Join(HtmlHeadLines, "\n")
  const HtmlTail: string := Join(HtmlTailLines, "\n")

  /** `s` with every `c` removed and everything else kept in order. */
  function Without(s: string, c: char): (r: string)
    ensures c !in r && |r| <= |s|
  {
    if |s| == 0 then ""
    else (if s[0] == c then "" else [s[0]]) + Without(s[1..], c)
  }

  /** Removing `c` keeps every other character as often as it was. */
  lemma {:induction false} WithoutKeepsCounts(s: string, c: char)
    ensures forall x :: x != c ==> multiset(Without(s, c))[x] == multiset(s)[x]
  {
    if |s| > 0 {
      WithoutKeepsCounts(s[1..], c);
      assert s == [s[0]] + s[1..];
    }
  }

  /** Python's `s.replace(c, "")` is removing `c`. */
  lemma {:induction false} ReplaceIsWithout(s: string, c: char)
    ensures Replace(s, [c], "") == Without(s, c)
    decreases |s|
  {
    match Find(s, [c])
    case None =>
      NoOccurrenceNoChar(s, c, |s|);
      WithoutAbsent(s, c);
    case Some(i) =>
      assert s[i..i + 1] == [c];
      assert Replace(s, [c], "") == s[..i] + Replace(s[i + 1..], [c], "");
      ReplaceIsWithout(s[i + 1..], c);
      NoOccurrenceNoChar(s, c, i);
      WithoutAbsent(s[..i], c);
      WithoutDropsHead(s, i, c);
  }

  /** Removing `c` from a text whose first `c` is at `i`. */
  lemma WithoutDropsHead(s: string, i: nat, c: char)
    requires i < |s| && s[i] == c && Without(s[..i], c) == s[..i]
    ensures Without(s, c) == s[..i] + Without(s[i + 1..], c)
  {
    assert s == s[..i] + s[i..];
    WithoutConcat(s[..i], s[i..], c);
    assert s[i..][1..] == s[i + 1..];
  }

  /** No occurrence of `[c]` before `n` is no `c` before `n`. */
  lemma NoOccurrenceNoChar(s: string, c: char, n: nat)
    requires n <= |s| && forall j :: 0 <= j < n ==> !OccursAt(s, [c], j)
    ensures c !in s[..n]
  {
    forall j | 0 <= j < n ensures s[j] != c {
      assert s[j..j + 1] == [s[j]] && !OccursAt(s, [c], j);
    }
  }

  /** Removing a character the text does not have changes nothing. */
  lemma {:induction false} WithoutAbsent(s: string, c: char)
    requires c !in s
    ensures Without(s, c) == s
  {
    if |s| > 0 {
      assert s[0] in s;
      assert forall x :: x in s[1..] ==> x in s;
      WithoutAbsent(s[1..], c);
    }
  }

  lemma {:induction false} WithoutConcat(a: string, b: string, c: char)
    ensures Without(a + b, c) == Without(a, c) + Without(b, c)
  {
    if |a| > 0 {
      assert (a + b)[1..] == a[1..] + b;
      WithoutConcat(a[1..], b, c);
    } else {
      assert a + b == b;
    }
  }

  /** `_format_feedback`: markdown as it is; plain text without `#`, `*`
      and backticks; HTML inside a fixed page. */
  function FormatFeedback(content: string, f: Format): (r: string)
    ensures f.Markdown? ==> r == content
    ensures f.PlainText? ==> '#' !in r && '*' !in r && '`' !in r
  {
    match f
    case Html => HtmlHead + content + HtmlTail
    case Markdown => content
    case PlainText =>
      var a := Replace(content, "#", "");
      var b := Replace(a, "*", "");
      ReplaceCharRemoves(content, '#', "");
      ReplaceCharRemoves(a, '*', "");
      ReplaceCharRemoves(b, '`', "");
      ReplaceKeepsOut(a, "*", "", '#');
      ReplaceKeepsOut(b, "`", "", '#');
      ReplaceKeepsOut(b, "`", "", '*');
      Replace(b, "`", "")
  }

  /** Plain text is the content with the three markup characters removed,
      every other character kept in order. */
  lemma PlainTextIsWithout(content: string)
    ensures FormatFeedback(content, PlainText) == Without(Without(Without(content, '#'), '*'), '`')
  {
    var a := Replace(content, "#", "");
    var b := Replace(a, "*", "");
    ReplaceIsWithout(content, '#');
    ReplaceIsWithout(a, '*');
    ReplaceIsWithout(b, '`');
  }

  /** HTML feedback is the fixed head, the content and the fixed tail, so
      the content can be cut out of the page again. */
  lemma HtmlRecoversContent(content: string)
    ensures var r := FormatFeedback(content, Html);
      |r| == |HtmlHead| + |content| + |HtmlTail| && r[..|HtmlHead|] == HtmlHead &&
      r[|HtmlHead|..|HtmlHead| + |content|] == content && r[|HtmlHead| + |content|..] == HtmlTail
  {
    var r := HtmlHead + content + HtmlTail;
    assert r[..|HtmlHead|] == HtmlHead;
    assert r[|HtmlHead|..|HtmlHead| + |content|] == content;
  }

  /** Text without markup characters is kept as plain text. */
  lemma PlainTextKeepsPlain(content: string)
    requires '#' !in content && '*' !in content && '`' !in content
    ensures FormatFeedback(content, PlainText) == content
  {
    PlainTextIsWithout(content);
    WithoutAbsent(content, '#');
    WithoutAbsent(content, '*');
    WithoutAbsent(content, '`');
  }

  // ---------------------------------------------------------------------
  // Feedback per problem

  /** The feedback for one problem. */
  datatype QuestionFeedback = QuestionFeedback(
    problemId: string, content: string, format: Format, success: bool, error: Option<string>)

  /** What the model is given for one problem. */
  datatype FeedbackRequest = FeedbackRequest(
    problemId: string, testResults: TestResultAnalysis.ProblemView, sourceCode: Option<string>,
    codeQuality: TestResultAnalysis.CodeQuality, student: TestResultAnalysis.Metadata)

  /** The model's answer: an exception, or a response. */
  datatype LlmReply = Raised(message: string) | Response(success: bool, content: string, error: string)

  const QuestionPromptHead: string :=
    "You are an expert programming instructor providing detailed feedback for a student's code submission.\n            Generate feedback in "
  const QuestionPromptTail: string :=
    " format.\n            Focus on:\n            1. Test results analysis and specific test cases\n            2. Code quality and style issues\n            3. Specific suggestions for improvement\n            4. Positive aspects of the implementation\n            "
  const AnalysisFailed: string := "LLM analysis failed: "

  function QuestionPrompt(f: Format): string
  {
    QuestionPromptHead + Upper(f) + QuestionPromptTail
  }

  /** The model's reply for a problem the results have, or nothing for one
      they do not have. */
  function ReplyFor(a: TestResultAnalysis.Analysis, problemId: string, f: Format,
                    readSource: string -> Option<string>,
                    llm: (FeedbackRequest, string) -> LlmReply): (r: Option<LlmReply>)
    ensures r.Some? <==> Dict.HasKey(a.problems, problemId)
  {
    match TestResultAnalysis.ProblemAnalysis(a, problemId)
    case Err(_) => None
    case Ok(view) =>
      var p := Dict.Get(a.problems, problemId).value;
      Some(llm(FeedbackRequest(problemId, view, readSource(p.solutionPath), p.quality, a.metadata), QuestionPrompt(f)))
  }

  function Failed(problemId: string, f: Format, error: string): QuestionFeedback
  {
    QuestionFeedback(problemId, "", f, false, Some(error))
  }

  /** `generate_question_feedback`: no content and an error unless the
      model answers successfully; for an unknown problem the error is the
      analyzer's. */
  function QuestionFeedbackFor(a: TestResultAnalysis.Analysis, problemId: string, f: Format,
                               readSource: string -> Option<string>,
                               llm: (FeedbackRequest, string) -> LlmReply): (q: QuestionFeedback)
    ensures q.problemId == problemId && q.format == f
    ensures !q.success ==> q.content == "" && q.error.Some?
    ensures !Dict.HasKey(a.problems, problemId) ==> q.error == Some(TestResultAnalysis.NotFound(problemId))
  {
    match TestResultAnalysis.ProblemAnalysis(a, problemId)
    case Err(e) => Failed(problemId, f, e)
    case Ok(_) =>
      match ReplyFor(a, problemId, f, readSource, llm).value
      case Raised(e) => Failed(problemId, f, e)
      case Response(ok, content, e) =>
        if ok then QuestionFeedback(problemId, FormatFeedback(content, f), f, true, None)
        else Failed(problemId, f, AnalysisFailed + e)
  }

  /** The feedback succeeds exactly when the problem is known and the
      model answers successfully, and then it is the formatted answer with
      no error. */
  lemma QuestionFeedbackSucceeds(a: TestResultAnalysis.Analysis, problemId: string, f: Format,
                                 readSource: string -> Option<string>,
                                 llm: (FeedbackRequest, string) -> LlmReply)
    ensures var q, reply := QuestionFeedbackFor(a, problemId, f, readSource, llm), ReplyFor(a, problemId, f, readSource, llm);
      (q.success <==> reply.Some? && reply.value.Response? && reply.value.success) &&
      (q.success ==> q.content == FormatFeedback(reply.value.content, f) && q.error.None?)
  {
  }

  /** One entry per problem of `problems`, in their order, each about its
      problem. */
  function AllFeedback(a: TestResultAnalysis.Analysis, problems: Dict.Dict<TestResultAnalysis.ProblemResult>, f: Format,
                       readSource: string -> Option<string>,
                       llm: (FeedbackRequest, string) -> LlmReply): (all: Dict.Dict<QuestionFeedback>)
    ensures |all| == |problems|
    ensures forall i :: 0 <= i < |all| ==> all[i].0 == problems[i].0 && all[i].1.problemId == all[i].0
  {
    if |problems| == 0 then []
    else
      var id := problems[|problems| - 1].0;
      AllFeedback(a, problems[..|problems| - 1], f, readSource, llm) + [(id, QuestionFeedbackFor(a, id, f, readSource, llm))]
  }

  /** Each entry is the feedback for its problem. */
  lemma {:induction false} AllFeedbackEntries(a: TestResultAnalysis.Analysis, problems: Dict.Dict<TestResultAnalysis.ProblemResult>,
                                              f: Format, readSource: string -> Option<string>,
                                              llm: (FeedbackRequest, string) -> LlmReply, i: nat)
    requires i < |problems|
    ensures AllFeedback(a, problems, f, readSource, llm)[i].1 == QuestionFeedbackFor(a, problems[i].0, f, readSource, llm)
    decreases |problems|
  {
    if i < |problems| - 1 {
      AllFeedbackEntries(a, problems[..|problems| - 1], f, readSource, llm, i);
    }
  }

  /** The feedback has exactly the problems' keys, in their order. */
  lemma AllFeedbackKeys(a: TestResultAnalysis.Analysis, f: Format, readSource: string -> Option<string>,
                        llm: (FeedbackRequest, string) -> LlmReply)
    ensures Dict.Keys(AllFeedback(a, a.problems, f, readSource, llm)) == Dict.Keys(a.problems)
  {
    var all := AllFeedback(a, a.problems, f, readSource, llm);
    assert forall i :: 0 <= i < |all| ==> Dict.Keys(all)[i] == Dict.Keys(a.problems)[i];
  }

  /** `generate_all_feedback`: the problems' feedback, one by one. */
  method GenerateAllFeedback(a: TestResultAnalysis.Analysis, f: Format,
                             readSource: string -> Option<string>,
                             llm: (FeedbackRequest, string) -> LlmReply)
    returns (all: Dict.Dict<QuestionFeedback>)
    ensures all == AllFeedback(a, a.problems, f, readSource, llm)
  {
    all := [];
    for i := 0 to |a.problems|
      invariant all == AllFeedback(a, a.problems[..i], f, readSource, llm)
    {
      AllFeedbackStep(a, a.problems, f, readSource, llm, i);
      var problemId := a.problems[i].0;
      all := all + [(problemId, QuestionFeedbackFor(a, problemId, f, readSource, llm))];
    }
    assert a.problems[..|a.problems|] == a.problems;
  }

  /** One more problem adds its own feedback at the end. */
  lemma AllFeedbackStep(a: TestResultAnalysis.Analysis, problems: Dict.Dict<TestResultAnalysis.ProblemResult>, f: Format,
                        readSource: string -> Option<string>,
                        llm: (FeedbackRequest, string) -> LlmReply, i: nat)
    requires i < |problems|
    ensures AllFeedback(a, problems[..i + 1], f, readSource, llm) ==
      AllFeedback(a, problems[..i], f, readSource, llm) + [(problems[i].0, QuestionFeedbackFor(a, problems[i].0, f, readSource, llm))]
  {
    assert problems[..i + 1][..i] == problems[..i];
  }

  // ---------------------------------------------------------------------
  // Saving

  /** A written file: its path and its content. */
  type File = (string, string)

  /** The student's directory: `<id>_<lab>` in the feedback directory. */
  function StudentDir(feedbackDir: string, m: TestResultAnalysis.Metadata): string
  {
    Paths.JoinPath(feedbackDir, m.studentId + "_" + m.labNumber)
  }

  /** The file of one problem's feedback: `problem_<id>` with its format's
      extension. */
  function ProblemFile(studentDir: string, q: QuestionFeedback): (file: File)
    ensures StartsWith(file.0, studentDir) && EndsWith(file.0, "/problem_" + q.problemId + Extension(q.format))
    ensures file.1 == q.content
  {
    (Paths.JoinPath(studentDir, "problem_" + q.problemId + Extension(q.format)), q.content)
  }

  /** The files of the successful feedback, in order. */
  function ProblemFiles(studentDir: string, feedback: Dict.Dict<QuestionFeedback>): seq<File>
  {
    if |feedback| == 0 then []
    else
      var q := feedback[|feedback| - 1].1;
      ProblemFiles(studentDir, feedback[..|feedback| - 1]) + (if q.success then [ProblemFile(studentDir, q)] else [])
  }

  /** The extension of the last successful feedback, if any succeeded. */
  function LastExtension(feedback: Dict.Dict<QuestionFeedback>): Option<string>
  {
    if |feedback| == 0 then None
    else if feedback[|feedback| - 1].1.success then Some(Extension(feedback[|feedback| - 1].1.format))
    else LastExtension(feedback[..|feedback| - 1])
  }

  const SummaryPromptHead: string :=
    "Generate a summary of the student's overall performance in "
  const SummaryPromptTail: string :=
    " format.\n                Include links to individual problem feedback files and highlight key areas of strength and improvement."

  function SummaryPrompt(f: Format): string
  {
    SummaryPromptHead + Upper(f) + SummaryPromptTail
  }

  /** The summary file: written only after some feedback was saved (the
      extension comes from the last one saved; without one the summary step
      fails on an unbound name) and when the model answers successfully. */
  function SummaryFiles(studentDir: string, ext: Option<string>, f: Format, reply: LlmReply): (files: seq<File>)
    ensures |files| <= 1
    ensures |files| == 1 <==> ext.Some? && reply.Response? && reply.success
  {
    if ext.Some? && reply.Response? && reply.success then
      [(Paths.JoinPath(studentDir, "summary" + ext.value), FormatFeedback(reply.content, f))]
    else []
  }

  /** Everything `save_feedback` writes. */
  function SavedFiles(feedbackDir: string, m: TestResultAnalysis.Metadata, feedback: Dict.Dict<QuestionFeedback>,
                      f: Format, summary: string -> LlmReply): seq<File>
  {
    var dir := StudentDir(feedbackDir, m);
    ProblemFiles(dir, feedback) + SummaryFiles(dir, LastExtension(feedback), f, summary(SummaryPrompt(f)))
  }

  /** Only successful feedback is saved, each to its own file, and all of
      it is. */
  lemma {:induction false} ProblemFilesExact(studentDir: string, feedback: Dict.Dict<QuestionFeedback>)
    ensures forall i :: 0 <= i < |feedback| && feedback[i].1.success ==>
      ProblemFile(studentDir, feedback[i].1) in ProblemFiles(studentDir, feedback)
    ensures forall file :: file in ProblemFiles(studentDir, feedback) ==>
      exists i :: 0 <= i < |feedback| && feedback[i].1.success && file == ProblemFile(studentDir, feedback[i].1)
  {
    if |feedback| > 0 {
      var init := feedback[..|feedback| - 1];
      ProblemFilesExact(studentDir, init);
      assert forall i :: 0 <= i < |init| ==> init[i] == feedback[i];
    }
  }

  /** Some feedback was saved exactly when some feedback succeeded. */
  lemma {:induction false} LastExtensionIff(feedback: Dict.Dict<QuestionFeedback>)
    ensures LastExtension(feedback).Some? <==> exists i :: 0 <= i < |feedback| && feedback[i].1.success
  {
    if |feedback| > 0 {
      var init := feedback[..|feedback| - 1];
      LastExtensionIff(init);
      if exists i :: 0 <= i < |feedback| && feedback[i].1.success {
        var i :| 0 <= i < |feedback| && feedback[i].1.success;
        if i < |init| {
          assert init[i] == feedback[i];
        }
      }
      if exists i :: 0 <= i < |init| && init[i].1.success {
        var i :| 0 <= i < |init| && init[i].1.success;
        assert feedback[i] == init[i];
      }
    }
  }

  /** A summary is written exactly when some feedback succeeded and the
      model answered the summary request successfully. */
  lemma SummaryWrittenIff(feedbackDir: string, m: TestResultAnalysis.Metadata, feedback: Dict.Dict<QuestionFeedback>,
                          f: Format, summary: string -> LlmReply)
    ensures var dir := StudentDir(feedbackDir, m);
      |SavedFiles(feedbackDir, m, feedback, f, summary)| == |ProblemFiles(dir, feedback)| + 1 <==>
      (exists i :: 0 <= i < |feedback| && feedback[i].1.success) &&
      summary(SummaryPrompt(f)).Response? && summary(SummaryPrompt(f)).success
  {
    LastExtensionIff(feedback);
  }

  /** `save_feedback`: the successful feedback one file per problem, then
      the summary. */
  method SaveFeedback(a: TestResultAnalysis.Analysis, feedback: Dict.Dict<QuestionFeedback>, f: Format,
                      feedbackDir: string, summary: string -> LlmReply)
    returns (files: seq<File>)
    ensures files == SavedFiles(feedbackDir, a.metadata, feedback, f, summary)
  {
    var dir := StudentDir(feedbackDir, a.metadata);
    var ext: Option<string> := None;
    files := [];
    for i := 0 to |feedback|
      invariant files == ProblemFiles(dir, feedback[..i])
      invariant ext == LastExtension(feedback[..i])
    {
      assert feedback[..i + 1][..i] == feedback[..i];
      var q := feedback[i].1;
      if !q.success {
        continue;
      }
      ext := Some(Extension(q.format));
      files := files + [(Paths.JoinPath(dir, "problem_" + q.problemId + ext.value), q.content)];
    }
    assert feedback[..|feedback|] == feedback;
    if ext.Some? {
      var reply := summary(SummaryPrompt(f));
      if reply.Response? && reply.success {
        files := files + [(Paths.JoinPath(dir, "summary" + ext.value), FormatFeedback(reply.content, f))];
      }
    }
  }
}
