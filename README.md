# MarkingAssistant bookkeeping in Dafny

This project models the deterministic bookkeeping that MarkingAssistant runs around the automated marking of student code. MarkingAssistant works on student submissions downloaded from Moodle. For each one it:

- stages the student's scripts and notebooks;
- runs pytest, flake8 and black;
- asks a large language model for per-module feedback and scores;
- writes reports, spreadsheets and CSV summaries.

The model keeps the steps that do not depend on the world outside, and takes everything else as a parameter:

- **Given as inputs.** Child process outcomes (pytest, flake8, black, pip), filesystem listings and file contents, JSON and YAML decoding, and the model's replies. Each is a function or a value passed in.
- **Kept as deterministic steps.**
  - Parsing submission folder and file names.
  - Discovering and filtering files.
  - Extracting notebook code and markdown.
  - Classifying tool output.
  - Resolving `type:key` prompt specifiers.
  - Running the module chain in configuration order.
  - Cleaning responses and producing the fixed error texts.
  - Assembling reports.
  - Extracting and aggregating scores.
  - The quality flags and summaries for the spreadsheets and CSVs.
  - The result-record dictionaries of the legacy feedback code and their round trips.

Layout:

- **One file per source file.** Each core source file has its own `.dfy` file and module. For example, `test_runner.dfy` is `TestRunning` and `report_generator.dfy` is `ReportGeneration`.
- **Shared helpers.**
  - `wrappers.dfy`: `Option` and `Result`.
  - `text.dfy`: Python's `strip`, `split`, `replace`, `join` and `find`.
  - `scan.dfy`: the digit and word scanners that stand in for the source's regular expressions.
  - `json.dfy`: JSON values, with objects kept in insertion order.
  - `dict.dfy`: insertion-ordered dictionaries.
  - `paths.dfy`: name, stem and suffix.
  - `template.dfy`: the subset of `str.format` the prompts use.
  - `order.dfy`: string ordering and sorting.
- **Imperative code stays imperative.** Classes whose methods update their fields are classes here: `Submission`, `DataCollector`, `TestRunner` and `MarkingPipeline`. Loops in the source are methods with loop invariants. Each of them is proved against a specification function. The contracts of that function, or the lemmas beside it, state what the source promises: for example `TestRunning.ConvertGet` for notebook conversion, `TestRunning.TestRunner.ProblemsLast` and `TestRunnerMain.RecordedLast` for per-file recording and `MarkingPipelines.PromptSeesEarlierOutputs` for the module chain.

## Model
| member | source | states |
|---|---|---|
| CoreUtils.SolutionsSubdir | core/utils/utils.py:5 | the user's own folder, the id as `str()` renders it, when the id is truthy; `bulk` for `None`, `0` or an empty text |
| CoreUtils.MakeSolutionFilePath | core/utils/utils.py:4-6 | the storage key starts with `courses/<course>/tasks/` and ends with `/<file>` |
| CoreUtils.SolutionPathIsJoin | core/utils/utils.py:6 | the key is exactly the seven components joined by `/` |
| CoreUtils.SolutionPathComponents | core/utils/utils.py:4-6 | with no `/` inside the components (a numeric id never has one), splitting the key on `/` gives the seven components back |
| StaticAnalysisReports.GenerateReport | code_testing/static_analysis_reports.py:1-6 | the report is the title line, 30 `=` and a newline, then the quality results unchanged |
| StaticAnalysisReports.ReportInjective | code_testing/static_analysis_reports.py:1-6 | two reports are equal only when they were made from the same results |
| TestResultsCollector.CountZero | code_testing/test_results_collector.py:7 | the passed count never exceeds the number of results |
| TestResultsCollector.CountNonZero | code_testing/test_results_collector.py:8 | the failed count never exceeds the number of results |
| TestResultsCollector.CountsPartition | code_testing/test_results_collector.py:7-9 | passed plus failed is the total: each result is counted exactly once |
| TestResultsCollector.SummarizeResults | code_testing/test_results_collector.py:4-11 | `total` is the number of results, `passed + failed == total`, all passed exactly when every result is 0, and no results give all zeros |
| TestResultsCollector.NoFailures | code_testing/test_results_collector.py:7-8 | nothing fails exactly when every result is 0 |
| QualityRunnerMain.FormatToolOutput | code_testing/quality_runner_main.py:4-8 | None exactly for empty output; otherwise the output with `\r\n` and then `\r` turned into newlines and surrounding white space stripped, so no `\r` and no surrounding white space remain |
| QualityRunnerMain.FormatWithoutCarriageReturn | code_testing/quality_runner_main.py:4-8 | a non-empty output without `\r` comes back stripped and otherwise unchanged |
| QualityRunnerMain.FormatIdempotent | code_testing/quality_runner_main.py:4-8 | formatting already formatted (non-empty) output changes nothing |
| QualityRunnerMain.ToolResult | code_testing/quality_runner_main.py:15-31 | a tool that ran reports issues exactly when its raw output differs from the all-clear text, with the formatted output and no error; a tool that raised gives the fixed failure record with its error text |
| QualityRunnerMain.RunQualityChecks | code_testing/quality_runner_main.py:10-71 | the results hold exactly `flake8` then `black`; each has issues unless it ran and printed its all-clear text, and carries an error exactly when it raised |
| Loaders.CleanName | marking_assistant_oop/src/marking_assistant/assignments/loaders.py:78 | the display name holds no `_` and has no surrounding white space |
| Loaders.IdAndName | marking_assistant_oop/src/marking_assistant/assignments/loaders.py:66-72 | with `_submission_` present the text is id + marker + name split at the first marker; otherwise it is id + `_` + name with a z-number id; no parts without the marker means no z-number split was possible |
| Loaders.ExtractUserInfo | marking_assistant_oop/src/marking_assistant/assignments/loaders.py:53-80 | an id is only returned together with a name and starts with `z`; a returned name holds no `_` and is stripped; no name means no id |
| Loaders.UserInfoOfParts | marking_assistant_oop/src/marking_assistant/assignments/loaders.py:61-80 | a name exactly when the id and name parts are both found and non-empty, and then the cleaned name part; the id part is returned only when it starts with `z` |
| Loaders.OnlyPrefixExamined | marking_assistant_oop/src/marking_assistant/assignments/loaders.py:61 | only the text before the first `_assignsubmission_file` decides the result |
| Loaders.SubmissionMarkerForm | marking_assistant_oop/src/marking_assistant/assignments/loaders.py:66-78 | `<id>_submission_<name>_assignsubmission_file…` gives the id (only when it starts with `z`) and the cleaned name, and (None, None) when the id or the name is empty |
| Loaders.ZNumberForm | marking_assistant_oop/src/marking_assistant/assignments/loaders.py:68-78 | `z<digits>_<name>_assignsubmission_file…` without `_submission_` gives the z-number and the cleaned name |
| Loaders.NonZNumberRejected | marking_assistant_oop/src/marking_assistant/assignments/loaders.py:68-75 | without `_submission_`, an id part that is not `z` followed by digits gives (None, None) |
| Loaders.ParseStudentFromFolder | marking_assistant_oop/src/marking_assistant/assignments/loaders.py:41-50 | a student exactly when both the id and the name are non-empty; its id starts with `z` and its name is clean |
| Loaders.SubmissionsIn | marking_assistant_oop/src/marking_assistant/assignments/loaders.py:29-34 | at most one submission per listed entry |
| Loaders.SubmissionsInSound | marking_assistant_oop/src/marking_assistant/assignments/loaders.py:29-34 | every submission comes from a directory entry whose lower-cased name contains `submission` and whose name parses to its student, at the joined path |
| Loaders.SubmissionsInCount | marking_assistant_oop/src/marking_assistant/assignments/loaders.py:29-34 | each candidate folder whose name parses gives exactly one submission |
| Loaders.GetSubmissionsForTask | marking_assistant_oop/src/marking_assistant/assignments/loaders.py:18-39 | no submissions when the task folder is not a directory; otherwise the candidate folders that parse, in listing order |
| MoodleLoader.ParseStudentFolder | assignment_marker/moodle_loader.py:21-34 | (None, None) exactly when the name lacks `_submission_`; otherwise the id is the text before the first `_submission_` and the name the text between the first and the second, cut at `__assignsubmission_file` |
| MoodleLoader.NotContainsPrefix | assignment_marker/moodle_loader.py:26-32 | a prefix of a text free of a marker is free of it too |
| MoodleLoader.NameThenFileMarker | assignment_marker/moodle_loader.py:22 | a name free of `_` followed by `__assignsubmission_file` contains no `_submission_` |
| MoodleLoader.DocumentedForm | assignment_marker/moodle_loader.py:22-34 | `<id>_submission_<name>__assignsubmission_file` gives the id and the name back |
| MoodleLoader.RowsOfLab | assignment_marker/moodle_loader.py:10-18 | at most one row per entry of a lab folder |
| MoodleLoader.RowsOfLabSound | assignment_marker/moodle_loader.py:10-18 | every row of a lab comes from a directory entry whose name contains `submission` (case-sensitive) |
| MoodleLoader.StudentListSound | assignment_marker/moodle_loader.py:1-19 | every row comes from a student folder inside a lab folder that is a directory and carries that lab's name and the parse of the folder's name |
| MoodleLoader.LabRows | assignment_marker/moodle_loader.py:10-18 | the inner loop over one lab folder builds exactly that lab's rows, in listing order |
| MoodleLoader.GetStudentList | assignment_marker/moodle_loader.py:1-19 | the nested loops build exactly the list of rows of all lab directories, in listing order |
| SubmissionFiles.Named | marking_assistant/src/marking_assistant/assignments/submission.py:38 | at most one path per listed entry |
| SubmissionFiles.Matching | marking_assistant/src/marking_assistant/assignments/submission.py:44-46 | at most one file per listed entry |
| SubmissionFiles.Without | marking_assistant/src/marking_assistant/assignments/submission.py:64 | the listing after the delete no longer has the path, and holds only entries it had |
| SubmissionFiles.Placed | marking_assistant/src/marking_assistant/assignments/submission.py:57-59 | each archive member lands at its path joined to the archive's folder |
| SubmissionFiles.Overlay | marking_assistant/src/marking_assistant/assignments/submission.py:57-59 | writing members onto the listing yields only entries that were there or were written |
| SubmissionFiles.ExtractZip | marking_assistant/src/marking_assistant/assignments/submission.py:53-71 | extracting into a folder without repeated paths leaves one without repeated paths: a member overwrites the file at its path |
| SubmissionFiles.WithoutUnique | marking_assistant/src/marking_assistant/assignments/submission.py:64 | deleting a path keeps a listing free of repeated paths |
| SubmissionFiles.OverlayUnique | marking_assistant/src/marking_assistant/assignments/submission.py:57-59 | writing members keeps a listing free of repeated paths |
| SubmissionFiles.OverlayKeeps | marking_assistant/src/marking_assistant/assignments/submission.py:57-59 | an entry at a path no member writes stays |
| SubmissionFiles.OverlayWrites | marking_assistant/src/marking_assistant/assignments/submission.py:57-59 | a member that no later member overwrites is in the listing |
| SubmissionFiles.ExtractAllUnique | marking_assistant/src/marking_assistant/assignments/submission.py:38-40 | unpacking all the archives keeps a folder free of repeated paths |
| SubmissionFiles.FailedExtractionKeepsTree | marking_assistant/src/marking_assistant/assignments/submission.py:68-71 | a bad or unreadable archive is skipped and leaves the folder as it was |
| SubmissionFiles.ExtractedZipDeleted | marking_assistant/src/marking_assistant/assignments/submission.py:53-67 | after a successful extraction and delete the archive is gone and each member not overwritten by a later one is in the folder beside it |
| SubmissionFiles.WithoutKeeps | marking_assistant/src/marking_assistant/assignments/submission.py:64 | deleting one path keeps every other entry |
| SubmissionFiles.MatchingSound | marking_assistant/src/marking_assistant/assignments/submission.py:44-84 | every matched file is a regular file outside `__MACOSX` and `.ipynb_checkpoints` whose name matches the pattern |
| SubmissionFiles.CollectedSound | marking_assistant/src/marking_assistant/assignments/submission.py:43-46 | every collected file is a valid file matching one of the patterns |
| SubmissionFiles.DiscoveredSound | marking_assistant/src/marking_assistant/assignments/submission.py:28-46 | every discovered file is a valid file of the unpacked folder matching one of `*.py`, `*.ipynb`, `*.pdf`, `*.docx`, `*.doc`, `*.txt` |
| SubmissionFiles.CsvNotCollected | marking_assistant/src/marking_assistant/assignments/submission.py:43 | `data.csv` matches none of the six patterns |
| SubmissionFiles.PatternEnd | marking_assistant/src/marking_assistant/assignments/submission.py:43 | a name matching one of the six patterns ends with that pattern's last character |
| SubmissionFiles.PatternsDisjoint | marking_assistant/src/marking_assistant/assignments/submission.py:43 | no name matches two of the six patterns |
| SubmissionFiles.FilteredDistinct | marking_assistant/src/marking_assistant/assignments/submission.py:44-46 | one recursive glob over a folder without repeated paths lists each file once |
| SubmissionFiles.CollectedDistinct | marking_assistant/src/marking_assistant/assignments/submission.py:43-46 | the six globs together list each file once |
| SubmissionFiles.DiscoveredDistinct | marking_assistant/src/marking_assistant/assignments/submission.py:28-46 | a submission folder without repeated paths yields each file once, also when an archive overwrites a file already there |
| SubmissionFiles.FindMatching | marking_assistant/src/marking_assistant/assignments/submission.py:44-46 | the loop over one recursive glob keeps exactly the valid matching files, in order |
| SubmissionFiles.Submission.constructor | marking_assistant/src/marking_assistant/assignments/submission.py:16-35 | a new submission keeps its user, path and id; its files are the discovered ones, or none when the path is not a directory; a folder without repeated paths gives each file once |
| SubmissionFiles.Submission.Student | marking_assistant/src/marking_assistant/assignments/submission.py:23-26 | the `student` property is the same user |
| SubmissionFiles.Submission.GetUserInfo | marking_assistant/src/marking_assistant/assignments/submission.py:86-94 | the username is both the id and the name; email, role and database id are the user's |
| SubmissionFiles.Submission.DiscoverFiles | marking_assistant/src/marking_assistant/assignments/submission.py:28-46 | appends the files discovered after unpacking every archive found at the start, pattern by pattern, or nothing when the path is not a directory |
| SubmissionFiles.Submission.CollectFiles | marking_assistant/src/marking_assistant/assignments/submission.py:43-46 | appends, pattern by pattern, the valid files matching each pattern |
| ContentExtractor.DecodeNotebook | marking_assistant/src/marking_assistant/extractors/content_extractor.py:30-35 | a text that decodes to a JSON string is decoded once more; anything else is the first decoding |
| ContentExtractor.LoadNotebookJson | marking_assistant/src/marking_assistant/extractors/content_extractor.py:26-59 | an unreadable file or malformed JSON gives None; a decoded value is returned exactly when it is an object; on an "Extra data" error the text before the error position is decoded and kept exactly when it is an object |
| ContentExtractor.NotebookCells | marking_assistant/src/marking_assistant/extractors/content_extractor.py:69-76 | cells are found only in a notebook that loads to a non-empty object, and they are its `cells` list (an empty list when missing) |
| ContentExtractor.ConcatStrings | marking_assistant/src/marking_assistant/extractors/content_extractor.py:79 | a list can be joined exactly when all its items are strings |
| ContentExtractor.SourceText | marking_assistant/src/marking_assistant/extractors/content_extractor.py:79 | a missing `source` joins to `""`, a string source is itself, and a null, boolean or number cannot be joined |
| ContentExtractor.OfKind | marking_assistant/src/marking_assistant/extractors/content_extractor.py:78-82 | only object cells whose `cell_type` is the kind are kept |
| ContentExtractor.CellSources | marking_assistant/src/marking_assistant/extractors/content_extractor.py:78-82 | one source text per cell of the kind, in order, each that cell's joined `source`; None exactly when some such cell's source cannot be joined |
| ContentExtractor.OnlyKindCellsMatter | marking_assistant/src/marking_assistant/extractors/content_extractor.py:81 | cells of other kinds and non-object cells change nothing |
| ContentExtractor.ExtractCode | marking_assistant/src/marking_assistant/extractors/content_extractor.py:62-86 | a `.py` file gives its text; a file that is neither `.py` nor `.ipynb` gives None; a notebook gives its code-cell bodies joined by `\n\n# In[ ]:\n`, and None exactly when it does not load or its cells cannot be read |
| ContentExtractor.ExtractMarkdown | marking_assistant/src/marking_assistant/extractors/content_extractor.py:142-167 | nothing for a non-notebook or a notebook that does not load; otherwise the markdown-cell bodies in order (nothing when one cannot be joined) |
| ContentExtractor.ExtractCodeSplits | marking_assistant/src/marking_assistant/extractors/content_extractor.py:78-83 | splitting a notebook's code on the marker gives back the code-cell bodies, when no occurrence of the marker reaches into a body from the join |
| ContentExtractor.NoCodeCells | marking_assistant/src/marking_assistant/extractors/content_extractor.py:83 | a notebook without code cells has `""` as its code |
| ContentExtractor.MarkerFreeBodyNotRecovered | marking_assistant/src/marking_assistant/extractors/content_extractor.py:83 | a body that does not contain the marker can still be cut short by the split, so marker-freedom alone does not give the round trip |
| QualityRunner.StripOr | marking_assistant/src/marking_assistant/runners/quality_runner.py:30-58 | the first stripped text when it is not blank, otherwise the second stripped text |
| QualityRunner.RunFlake8 | marking_assistant/src/marking_assistant/runners/quality_runner.py:20-44 | issues exactly when stripped stdout or stripped stderr is not blank, shown as that text, else `No style issues found.`; the exit code is ignored; a missing binary gives `flake8 not found.` and another fault its message, both without a verdict |
| QualityRunner.RunBlack | marking_assistant/src/marking_assistant/runners/quality_runner.py:46-72 | issues exactly when the exit code is non-zero, shown as stripped stderr or else stdout, else `No formatting issues found.`; a missing binary gives `black not found.` and another fault its message |
| QualityRunner.RunAllChecks | marking_assistant/src/marking_assistant/runners/quality_runner.py:11-18 | exactly the keys `flake8` then `black`, holding the two tools' records |
| QualityRunner.Flake8StdoutReported | marking_assistant/src/marking_assistant/runners/quality_runner.py:30-38 | non-blank stdout is reported as issues with the stripped stdout as output |
| QualityRunner.BlackVerdictIgnoresText | marking_assistant/src/marking_assistant/runners/quality_runner.py:56-59 | the same exit code gives the same verdict whatever either stream says |
| QualityRunner.ErrorRecordsHaveNoVerdict | marking_assistant/src/marking_assistant/runners/quality_runner.py:39-72 | a record is an error record (without `has_issues`) exactly when the tool did not finish |
| TestRunning.NumberTail | marking_assistant_oop/src/marking_assistant/runners/test_runner.py:165 | the tail `[_\s]?(\d+[a-zA-Z]?)\b` captures a problem id (digits, at most one letter) followed by a word boundary |
| TestRunning.KeywordAt | marking_assistant_oop/src/marking_assistant/runners/test_runner.py:165 | a match is the first alternative of the keyword list that matches (case-insensitively) at the position and is followed by a problem id |
| TestRunning.KeywordNumberAt | marking_assistant_oop/src/marking_assistant/runners/test_runner.py:165 | a keyword match lies in the text and captures a problem id |
| TestRunning.TrailingNumberAt | marking_assistant_oop/src/marking_assistant/runners/test_runner.py:168 | a trailing match captures a problem id that reaches the end of the text |
| TestRunning.KeywordSearch | marking_assistant_oop/src/marking_assistant/runners/test_runner.py:165-167 | the leftmost keyword match gives a problem id contained in the stem |
| TestRunning.TrailingSearch | marking_assistant_oop/src/marking_assistant/runners/test_runner.py:168-170 | the leftmost trailing match gives a problem id contained in the stem |
| TestRunning.ProblemNumber | marking_assistant_oop/src/marking_assistant/runners/test_runner.py:162-171 | a found number is a problem id taken from the file's stem: the keyword form first, then the trailing number, otherwise none |
| TestRunning.IdHasDigit | marking_assistant_oop/src/marking_assistant/runners/test_runner.py:165-168 | a text holding a problem id holds a digit |
| TestRunning.ProblemNeedsDigit | marking_assistant_oop/src/marking_assistant/runners/test_runner.py:162-171 | a stem without digits names no problem |
| TestRunning.TrailingDigitFound | marking_assistant_oop/src/marking_assistant/runners/test_runner.py:168-170 | a stem ending in a digit always names a problem |
| TestRunning.PlainStem | marking_assistant_oop/src/marking_assistant/runners/test_runner.py:164 | a name without `/` or `.` is its own stem once a suffix is added |
| TestRunning.DigitTail | marking_assistant_oop/src/marking_assistant/runners/test_runner.py:165 | a digit run reaching the end of the text is captured whole |
| TestRunning.KeywordMatchAtStart | marking_assistant_oop/src/marking_assistant/runners/test_runner.py:165 | the keyword form matches `problem<digits>` at its start and captures the digits |
| TestRunning.KeywordAtStart | marking_assistant_oop/src/marking_assistant/runners/test_runner.py:165-167 | the keyword search finds `problem<digits>` |
| TestRunning.ProblemKeywordForm | marking_assistant_oop/src/marking_assistant/runners/test_runner.py:162-167 | `problem<digits>.<ext>` (as `problem1.py` giving `1`) names problem `<digits>` |
| TestRunning.ImportAt | marking_assistant_oop/src/marking_assistant/runners/test_runner.py:193 | a match of `^(?:from\|import)\s+([a-zA-Z0-9_\.]+)` starts a line with `from` or `import` and captures a non-empty dotted name |
| TestRunning.ImportNamesSound | marking_assistant_oop/src/marking_assistant/runners/test_runner.py:193 | every imported name is the captured name of an import statement starting a line |
| TestRunning.HitOfImport | marking_assistant_oop/src/marking_assistant/runners/test_runner.py:193 | every hit of the scan is the match at some position |
| TestRunning.LocalModulesIff | marking_assistant_oop/src/marking_assistant/runners/test_runner.py:200 | a local module is exactly the stem of a `.py` file directly in the temporary directory |
| TestRunning.InstallSetSpec | marking_assistant_oop/src/marking_assistant/runners/test_runner.py:193-202 | what is installed is neither standard nor local and is the top-level name of an import; every import's top-level name is installed, standard or local |
| TestRunning.NoImportsNoPackages | marking_assistant_oop/src/marking_assistant/runners/test_runner.py:194 | code without imports installs nothing |
| TestRunning.PipRequest | marking_assistant_oop/src/marking_assistant/runners/test_runner.py:204-210 | pip is asked exactly once for a non-empty set and not at all for an empty one |
| TestRunning.ShapePytest | marking_assistant_oop/src/marking_assistant/runners/test_runner.py:214-245 | passed exactly on exit code 0, keeping the code, stdout and stderr; the summary line is the last line of the stripped stdout; a timeout gives the timeout status and another fault the execution error with its text |
| TestRunning.ResultsFileName | marking_assistant_oop/src/marking_assistant/runners/test_runner.py:252-254 | the file name is the student's name with each space made `_` (every other character kept), then `_<id>_<task>_<type>.json`; the name is unchanged when it has no space |
| TestRunning.Destination | marking_assistant_oop/src/marking_assistant/runners/test_runner.py:122-127 | every staged copy lies under the temporary directory |
| TestRunning.Stage | marking_assistant_oop/src/marking_assistant/runners/test_runner.py:119-132 | at most one copy entry per submission file, and no path has two |
| TestRunning.StageGet | marking_assistant_oop/src/marking_assistant/runners/test_runner.py:119-130 | each submission file, and nothing else, is a key of the copy map, holding its destination in the temporary directory (its path relative to the submission folder, or its bare name when it lies outside) |
| TestRunning.TestRunner.constructor | marking_assistant_oop/src/marking_assistant/runners/test_runner.py:25-30 | a new runner keeps its settings and has no temporary directory, workspace, pip request or saved file |
| TestRunning.TestRunner.TestCasePath | marking_assistant_oop/src/marking_assistant/runners/test_runner.py:175 | `<test_cases_dir>/test_problem<id>.py` |
| TestRunning.TestRunner.FindTestCase | marking_assistant_oop/src/marking_assistant/runners/test_runner.py:173-179 | the test file exactly when it exists |
| TestRunning.TestRunner.TestOutcomeFor | marking_assistant_oop/src/marking_assistant/runners/test_runner.py:74-80 | `No test file found.` exactly when the problem has no test file |
| TestRunning.TestRunner.Recorded | marking_assistant_oop/src/marking_assistant/runners/test_runner.py:61-80 | a file whose stem names no problem leaves both maps as they were; one named `pn` puts under `pn` its test entry (original path and pytest outcome, or `No test file found.`) and its quality entry (original path and all tool results), every other id keeping its entry; maps keyed alike stay keyed alike |
| TestRunning.TestRunner.Problems | marking_assistant_oop/src/marking_assistant/runners/test_runner.py:59-80 | the test map and the quality map have the same keys, in the same order |
| TestRunning.TestRunner.ProblemsLast | marking_assistant_oop/src/marking_assistant/runners/test_runner.py:59-80 | the entries of a problem id are those of the last processed file with that id (a later file with the same id overwrites the earlier one) |
| TestRunning.TestRunner.ProblemsHasKey | marking_assistant_oop/src/marking_assistant/runners/test_runner.py:59-80 | an id has an entry exactly when some processed file is numbered with it, and then in both maps |
| TestRunning.NumberedCases | marking_assistant_oop/src/marking_assistant/runners/test_runner.py:59-80 | an id that some processed file names has a last file naming it |
| TestRunning.TestRunner.ProblemsAbsent | marking_assistant_oop/src/marking_assistant/runners/test_runner.py:59-80 | an id that no processed file names has no entry in either map |
| TestRunning.TestRunner.RecordedOther | marking_assistant_oop/src/marking_assistant/runners/test_runner.py:61-80 | a file numbered otherwise leaves the entries of an id alone |
| TestRunning.TestRunner.ResultsPath | marking_assistant_oop/src/marking_assistant/runners/test_runner.py:247-255 | the results file sits in the task's results folder under its name |
| TestRunning.TestRunner.Finish | marking_assistant_oop/src/marking_assistant/runners/test_runner.py:50-80 | a failed run records nothing; pip is asked at most once, never for an empty set |
| TestRunning.TestRunner.RunOutcome | marking_assistant_oop/src/marking_assistant/runners/test_runner.py:36-96 | a copy fault, an unreadable script or a pip fault fails the run with nothing recorded; pip is asked at most once, never for an empty set |
| TestRunning.TestRunner.SaveResults | marking_assistant_oop/src/marking_assistant/runners/test_runner.py:247-262 | one results file is added at its path; nothing else changes |
| TestRunning.TestRunner.SetupTestEnvironment | marking_assistant_oop/src/marking_assistant/runners/test_runner.py:111-132 | fails without a temporary directory or on a copy fault; otherwise the directory exists and the copies are the staged map and workspace |
| TestRunning.TestRunner.ConvertNotebooksToPy | marking_assistant_oop/src/marking_assistant/runners/test_runner.py:134-160 | without a temporary directory the map is returned as it is; otherwise the map and workspace after conversion (see ConvertGet for what each entry becomes) |
| TestRunning.ConvertGet | marking_assistant_oop/src/marking_assistant/runners/test_runner.py:143-160 | after conversion an original path maps to the `.py` script of its notebook when code was extracted, to nothing when none was, to its staged file unchanged when that is not a notebook, and to nothing when it was not copied |
| TestRunning.ConvertKeeps | marking_assistant_oop/src/marking_assistant/runners/test_runner.py:148-152 | conversion writes only `.py` files and removes only staged notebooks, so an unstaged notebook keeps its text |
| TestRunning.ScriptNotNotebook | marking_assistant_oop/src/marking_assistant/runners/test_runner.py:149 | a `.py` path is never a `.ipynb` path |
| TestRunning.TestRunner.ReadCode | marking_assistant_oop/src/marking_assistant/runners/test_runner.py:51-54 | the loop's concatenation is the code of all staged scripts in map order |
| TestRunning.TestRunner.InstallDependencies | marking_assistant_oop/src/marking_assistant/runners/test_runner.py:189-212 | the package set is the install set over the temporary directory's modules (none without a directory), and pip is asked for it only when it is non-empty |
| TestRunning.TestRunner.CleanupTestEnvironment | marking_assistant_oop/src/marking_assistant/runners/test_runner.py:264-272 | the temporary directory is always forgotten and removed when it existed, so a second call changes nothing |
| TestRunning.TestRunner.RecordFile | marking_assistant_oop/src/marking_assistant/runners/test_runner.py:61-80 | recording one file gives exactly that file's step: its quality results and its pytest outcome, or the no-test-file outcome, under its problem number |
| TestRunning.TestRunner.RecordProblems | marking_assistant_oop/src/marking_assistant/runners/test_runner.py:59-80 | the loop builds exactly the two problem maps |
| TestRunning.TestRunner.RunStaged | marking_assistant_oop/src/marking_assistant/runners/test_runner.py:47-80 | the steps after staging reach the outcome of conversion and finishing |
| TestRunning.TestRunner.RunTestsForSubmission | marking_assistant_oop/src/marking_assistant/runners/test_runner.py:32-96 | both maps are returned with their metadata whatever happens; the test and quality files are written after a successful run, the error file after a failed one; the temporary directory is always removed |
| TestRunning.AllCodeStaysNone | marking_assistant_oop/src/marking_assistant/runners/test_runner.py:52-54 | once a script cannot be read, the whole concatenation fails |
| DataCollecting.AddCodeKeys | marking_assistant/src/marking_assistant/pipelines/data_collector.py:35-43 | adding a file's code keeps every name, gives a notebook an entry even without code, and adds no name but the file's own, only for a `.py` or `.ipynb` file |
| DataCollecting.NotebooksHaveCode | marking_assistant/src/marking_assistant/pipelines/data_collector.py:33-43 | every notebook has a code entry under its name, whether or not code could be extracted from it |
| DataCollecting.NoCodeLeavesEmpty | marking_assistant/src/marking_assistant/pipelines/data_collector.py:35-43 | when no `.py` or `.ipynb` file of a name yields code, the name's code entry is absent or `""` |
| DataCollecting.NotebookWithoutCodeEmpty | marking_assistant/src/marking_assistant/pipelines/data_collector.py:33-43 | a notebook without extractable code, under a name no other code file yields code for, has the entry `""` |
| DataCollecting.CodeFromCodeFiles | marking_assistant/src/marking_assistant/pipelines/data_collector.py:35-43 | every code entry comes from a `.py` or `.ipynb` file of that name |
| DataCollecting.AddedMarkdownKeys | marking_assistant/src/marking_assistant/pipelines/data_collector.py:45-57 | markdown is added only under a notebook's own name |
| DataCollecting.AddedDocumentKeys | marking_assistant/src/marking_assistant/pipelines/data_collector.py:45-57 | document text is added only under the file's name and only when it is not empty |
| DataCollecting.MarkdownOnlyFromNotebooks | marking_assistant/src/marking_assistant/pipelines/data_collector.py:45-49 | markdown is stored only for notebooks |
| DataCollecting.DocumentsNotEmpty | marking_assistant/src/marking_assistant/pipelines/data_collector.py:53-57 | a stored document text is never empty |
| DataCollecting.FirstMatchIsFirst | marking_assistant/src/marking_assistant/pipelines/data_collector.py:99-104 | the glob scan finds nothing exactly when no name matches, otherwise the value of the first matching name in insertion order |
| DataCollecting.Group | marking_assistant/src/marking_assistant/pipelines/data_collector.py:117-120 | a missing `problems` gives `{}`; a `problems` that is not a dictionary raises; otherwise the entry under the key, or `{}` when absent |
| DataCollecting.StrOrNull | marking_assistant/src/marking_assistant/pipelines/data_collector.py:87-112 | a missing value is `null`, a found text is that text |
| DataCollecting.DataCollector.constructor | marking_assistant/src/marking_assistant/pipelines/data_collector.py:17-22 | a new collector keeps the two result documents and holds the content extracted from the submission's files |
| DataCollecting.DataCollector.ExtractContent | marking_assistant/src/marking_assistant/pipelines/data_collector.py:24-60 | the loop over the files fills exactly the three dictionaries of extracted content |
| DataCollecting.DataCollector.SourceDict | marking_assistant/src/marking_assistant/pipelines/data_collector.py:91-95 | `code_file`, `markdown_file` and `document_file` read the code, markdown and document dictionaries |
| DataCollecting.DataCollector.GetDataByType | marking_assistant/src/marking_assistant/pipelines/data_collector.py:84-123 | `module_output` gives the stored output; a file type with `*` in the key gives the first glob match, otherwise the exact entry; `all_code` joins all code with a blank line; the group types give the problem entry (raising only on a malformed `problems`); anything else, or a missing key, is `null` |
| DataCollecting.DataCollector.Resolve | marking_assistant/src/marking_assistant/pipelines/data_collector.py:72-80 | a specifier is split at its first `:` or taken whole without a key, and `null` becomes `[Data not found for specifier: <specifier>]`, so a resolution is never `null` |
| DataCollecting.DataCollector.Gathered | marking_assistant/src/marking_assistant/pipelines/data_collector.py:62-82 | a completed gathering has exactly the distinct placeholders as keys, in first-seen order |
| DataCollecting.DataCollector.GatherDataForModule | marking_assistant/src/marking_assistant/pipelines/data_collector.py:62-82 | the loop over the placeholders reaches exactly the gathered prompt variables |
| DataCollecting.DataCollector.Unfinished | marking_assistant/src/marking_assistant/pipelines/data_collector.py:72-80 | once a specifier fails, the whole gathering fails with that error |
| DataCollecting.DataCollector.GatheredStep | marking_assistant/src/marking_assistant/pipelines/data_collector.py:72-80 | a completed gathering completed the shorter one and put the last specifier's data under its placeholder |
| DataCollecting.DataCollector.EveryPlaceholderResolved | marking_assistant/src/marking_assistant/pipelines/data_collector.py:72-82 | every placeholder gets an entry holding the resolution of its specifier, never `null` |
| DataCollecting.Distinct | marking_assistant/src/marking_assistant/pipelines/data_collector.py:72-82 | the distinct keys are exactly the keys seen |
| DataCollecting.DistinctHas | marking_assistant/src/marking_assistant/pipelines/data_collector.py:76-80 | a dictionary keyed by the distinct keys seen so far has exactly those keys |
| MarkingPipelines.ParenPointsAt | marking_assistant/src/marking_assistant/pipelines/marking_pipeline.py:59 | a match of `\((\d+)\s*points?\)` starts at the position and captures digits |
| MarkingPipelines.PointsTotalAt | marking_assistant/src/marking_assistant/pipelines/marking_pipeline.py:60 | a match of `(\d+)\s*points?\s*total` starts at the position with the digits it captures |
| MarkingPipelines.ParenPointsOnLine | marking_assistant/src/marking_assistant/pipelines/marking_pipeline.py:61 | the lazy `.*?` stops at the first `(N points)` on the same line |
| MarkingPipelines.AssessmentFocusAt | marking_assistant/src/marking_assistant/pipelines/marking_pipeline.py:61 | a match of `Assessment Focus:.*?\((\d+)\s*points?\)` starts at the position and captures digits after the label |
| MarkingPipelines.PointsParenAt | marking_assistant/src/marking_assistant/pipelines/marking_pipeline.py:62 | a match of `(\d+)\s*points?\)` starts at the position with the digits it captures |
| MarkingPipelines.FirstValue | marking_assistant/src/marking_assistant/pipelines/marking_pipeline.py:67-70 | a value exactly when the pattern matches, and it is the number of the first match's digits |
| MarkingPipelines.PromptMax | marking_assistant/src/marking_assistant/pipelines/marking_pipeline.py:53-88 | the maximum of a module is never negative |
| MarkingPipelines.PromptMaxOrder | marking_assistant/src/marking_assistant/pipelines/marking_pipeline.py:58-88 | the first of the four patterns (in list order) that matches gives the maximum from its first match; without any match the id-substring default (5/10/5/15/10) applies |
| MarkingPipelines.AssessmentFocusNeedsParen | marking_assistant/src/marking_assistant/pipelines/marking_pipeline.py:59-61 | an `Assessment Focus:` match always contains a `(N points)` match, so the third pattern never decides a maximum |
| MarkingPipelines.Ids | marking_assistant/src/marking_assistant/pipelines/marking_pipeline.py:48-51 | at most one id per configured module |
| MarkingPipelines.PutDistinct | marking_assistant/src/marking_assistant/pipelines/marking_pipeline.py:76-88 | recording one more id keeps the dictionary keyed by the distinct ids seen |
| MarkingPipelines.MaxScoresOfKeys | marking_assistant/src/marking_assistant/pipelines/marking_pipeline.py:43-90 | the ids with a maximum are exactly the distinct non-empty configured ids, in first-seen order; modules without an id get none |
| MarkingPipelines.LastWith | marking_assistant/src/marking_assistant/pipelines/marking_pipeline.py:76-88 | the position of the last module with the id, or none when no module has it |
| MarkingPipelines.MaxScoresOfValues | marking_assistant/src/marking_assistant/pipelines/marking_pipeline.py:43-90 | an id's maximum is the one named by the prompt of the last module with that id; the empty id and unknown ids have none |
| MarkingPipelines.ModelFor | marking_assistant/src/marking_assistant/pipelines/marking_pipeline.py:162-163 | a registered output model is used as named, any other name falls back to `BaseFeedbackOutput` |
| MarkingPipelines.SystemPromptWithSchema | marking_assistant/src/marking_assistant/pipelines/marking_pipeline.py:165-172 | the system prompt sent starts with the formatted system prompt and a blank line and ends with the JSON instruction and the schema |
| MarkingPipelines.CleanResponse | marking_assistant/src/marking_assistant/pipelines/marking_pipeline.py:189-193 | the cleaned text is stripped, and a stripped text without a leading ```json or trailing ``` is left as it is |
| MarkingPipelines.StoredOutput | marking_assistant/src/marking_assistant/pipelines/marking_pipeline.py:186-202 | a failed call stores `Error generating feedback for this module: ` + the error; an unparsable answer stores `Error: Could not parse LLM response. Raw output: ` + the raw text; otherwise the parsed object |
| MarkingPipelines.IntermediatePath | marking_assistant/src/marking_assistant/pipelines/marking_pipeline.py:209-212 | the record goes to exactly `<intermediate dir>/<task>/<student>/<module>_intermediate.json` |
| MarkingPipelines.IntermediateRecord | marking_assistant/src/marking_assistant/pipelines/marking_pipeline.py:214-223 | the record has exactly the eight keys in the order written |
| MarkingPipelines.RecordReadBack | marking_assistant/src/marking_assistant/pipelines/marking_pipeline.py:218-221 | `llm_call_success` is the response's success flag and `raw_response_content` its content when it succeeded |
| MarkingPipelines.Shown | marking_assistant/src/marking_assistant/pipelines/marking_pipeline.py:158-159 | the rendered prompt variables have the same keys in the same order; a text value renders as its text, any other value as `str` shows it |
| MarkingPipelines.Call | marking_assistant/src/marking_assistant/pipelines/marking_pipeline.py:161-202 | one call adds one to the call count; the model is asked with the prompt extended by the schema, and the output under the module's id is the stored form of its reply while every other id keeps its output; the intermediate record is appended exactly when saving is on |
| MarkingPipelines.PromptsFor | marking_assistant/src/marking_assistant/pipelines/marking_pipeline.py:154-159 | a module has prompts exactly when its data can be gathered from the given outputs and both templates format with it, and the prompts are those formatted texts; a gathering error is the error |
| MarkingPipelines.Step | marking_assistant/src/marking_assistant/pipelines/marking_pipeline.py:146-202 | a module without an id, or after a failure, changes nothing; otherwise a prompt error ends the run with that error and nothing else changed, and prompts built from the outputs so far make the call |
| MarkingPipelines.ExecutedCalls | marking_assistant/src/marking_assistant/pipelines/marking_pipeline.py:137-204 | a run that completes calls the model once per module with an id and has one output per distinct id, in configuration order |
| MarkingPipelines.PromptSeesEarlierOutputs | marking_assistant/src/marking_assistant/pipelines/marking_pipeline.py:154-202 | the k-th module's prompts are built from the outputs of the modules before it: when they fail the run ends with outputs unchanged, otherwise the step is exactly the call with those prompts, so its output is the stored reply to them for the next call number, every other output stays and the intermediate record is appended when saving is on |
| MarkingPipelines.SectionContent | marking_assistant/src/marking_assistant/pipelines/marking_pipeline.py:242-254 | a stored message is used as it is, a parsed object gives its `feedback_text` or its JSON dump, anything else the fixed not-generated note |
| MarkingPipelines.ReportHoldsSections | marking_assistant/src/marking_assistant/pipelines/marking_pipeline.py:231-258 | the report starts with the formatted header and a blank line, ends with a blank line and the footer, and holds every section's text |
| MarkingPipelines.ContainsWithin | marking_assistant/src/marking_assistant/pipelines/marking_pipeline.py:258 | text found in the middle piece of a concatenation is found in the whole |
| MarkingPipelines.JoinHoldsPart | marking_assistant/src/marking_assistant/pipelines/marking_pipeline.py:258 | every part occurs in the join |
| MarkingPipelines.MarkingPipeline.constructor | marking_assistant/src/marking_assistant/pipelines/marking_pipeline.py:21-41 | a new pipeline keeps its configuration, puts intermediate records under `<results>/intermediate_responses` and holds the maximum scores of its modules |
| MarkingPipelines.MarkingPipeline.ExtractModuleMaxScores | marking_assistant/src/marking_assistant/pipelines/marking_pipeline.py:43-90 | the loop over the modules builds exactly the maximum scores |
| MarkingPipelines.MarkingPipeline.ExecuteModules | marking_assistant/src/marking_assistant/pipelines/marking_pipeline.py:137-204 | the outputs, or the exception that ended the run, and the records saved before it, are those of running the modules in order |
| MarkingPipelines.MarkingPipeline.AssembleReport | marking_assistant/src/marking_assistant/pipelines/marking_pipeline.py:231-258 | the loop over the sections builds exactly the report |
| Scan.DigitRun | marking_assistant_oop/src/marking_assistant/analysis/score_extractor.py:113-117 | a maximal digit run is a run of digits |
| ScoreExtraction.PointsAt | marking_assistant_oop/src/marking_assistant/analysis/score_extractor.py:113 | a match of `(\d+)\s*points?` captures digits |
| ScoreExtraction.PtsAt | marking_assistant_oop/src/marking_assistant/analysis/score_extractor.py:114 | a match of `\((\d+)\s*pts?\)` captures digits |
| ScoreExtraction.OutOfSlashAt | marking_assistant_oop/src/marking_assistant/analysis/score_extractor.py:115 | a match of `\d+\s*/\s*(\d+)` captures the digits after the slash |
| ScoreExtraction.OutOfAt | marking_assistant_oop/src/marking_assistant/analysis/score_extractor.py:116 | a match of `out of (\d+)` captures digits |
| ScoreExtraction.DigitOnLine | marking_assistant_oop/src/marking_assistant/analysis/score_extractor.py:117 | the lazy `.*?` stops at the first digit on the same line |
| ScoreExtraction.MaximumAt | marking_assistant_oop/src/marking_assistant/analysis/score_extractor.py:117 | a match of `maximum.*?(\d+)` captures digits |
| ScoreExtraction.LastValue | marking_assistant_oop/src/marking_assistant/analysis/score_extractor.py:121-124 | a value exactly when the pattern matches, and it is the number of some match's digits |
| ScoreExtraction.DefaultMax | marking_assistant_oop/src/marking_assistant/analysis/score_extractor.py:128-138 | 5 for `data_loading`/`visualization`, then 10 for `model`/`optimization`, 5 for `analysis`, 15 for `documentation`, 10 otherwise, checked in that order |
| ScoreExtraction.InferMax | marking_assistant_oop/src/marking_assistant/analysis/score_extractor.py:109-138 | the last match of the first of the five patterns that matches, otherwise the module default; never negative |
| ScoreExtraction.MaxOf | marking_assistant_oop/src/marking_assistant/analysis/score_extractor.py:52-74 | a non-zero hint is the maximum; a missing or zero hint falls through to inference; never negative unless the hint is |
| ScoreExtraction.KeywordScoreAt | marking_assistant_oop/src/marking_assistant/analysis/score_extractor.py:86-89 | a match of `<kw>[:\s]*(\d+(?:\.\d+)?)` starts with the keyword and captures a decimal |
| ScoreExtraction.SlashScoreAt | marking_assistant_oop/src/marking_assistant/analysis/score_extractor.py:87 | a match of `(\d+(?:\.\d+)?)\s*/\s*\d+` captures the decimal before the slash |
| ScoreExtraction.FirstValue | marking_assistant_oop/src/marking_assistant/analysis/score_extractor.py:93-96 | a value exactly when the pattern matches, never negative |
| ScoreExtraction.TextScore | marking_assistant_oop/src/marking_assistant/analysis/score_extractor.py:79-100 | the first match of the first of the four patterns that matches, otherwise 0; never negative |
| ScoreExtraction.Scaled | marking_assistant_oop/src/marking_assistant/analysis/score_extractor.py:51 | a mantissa times ten to the power of a non-negative exponent, divided by ten to the power of a negative one |
| ScoreExtraction.MantissaValue | marking_assistant_oop/src/marking_assistant/analysis/score_extractor.py:51 | a plain decimal reads as its value; a mantissa without a point is accepted exactly when it is digits; a value is never negative |
| ScoreExtraction.FloatText | marking_assistant_oop/src/marking_assistant/analysis/score_extractor.py:51 | a plain decimal reads as its value and the empty text does not convert |
| ScoreExtraction.NegativeFloat | marking_assistant_oop/src/marking_assistant/analysis/score_extractor.py:51 | a leading `-` gives the negated value |
| ScoreExtraction.LeadingPoint | marking_assistant_oop/src/marking_assistant/analysis/score_extractor.py:51 | `.d` reads as d divided by ten to the number of its digits |
| ScoreExtraction.TrailingPoint | marking_assistant_oop/src/marking_assistant/analysis/score_extractor.py:51 | `d.` reads as d |
| ScoreExtraction.ExponentScales | marking_assistant_oop/src/marking_assistant/analysis/score_extractor.py:51 | `m` followed by `e` and digits `x` reads as m scaled by ten to the power x |
| ScoreExtraction.ScoreValue | marking_assistant_oop/src/marking_assistant/analysis/score_extractor.py:51 | `float()` of a number is the number, of a boolean 1 or 0, of a string the reading of its stripped text as a Python float literal; `null`, lists and objects cannot be converted |
| ScoreExtraction.Checked | marking_assistant_oop/src/marking_assistant/analysis/score_extractor.py:11-17 | a record is built exactly when its score and maximum are not negative |
| ScoreExtraction.Failure | marking_assistant_oop/src/marking_assistant/analysis/score_extractor.py:69-77 | the handler's record has score 0, the maximum of the empty text, the error text and no success; building it fails again on a negative hint |
| ScoreExtraction.FromText | marking_assistant_oop/src/marking_assistant/analysis/score_extractor.py:57-107 | a free-text response scores the text score out of the hint or inferred maximum, with the text cut to 500 characters and `...` as justification |
| ScoreExtraction.JustificationOf | marking_assistant_oop/src/marking_assistant/analysis/score_extractor.py:53 | a missing justification is `No justification provided`; a present one is accepted only as a string |
| ScoreExtraction.FromObject | marking_assistant_oop/src/marking_assistant/analysis/score_extractor.py:48-77 | with a convertible, non-negative score and a text justification the result is the successful record of that score, the hint or inferred maximum and the justification; an unconvertible score, a non-text justification and a negative score each give the failure record with its error |
| ScoreExtraction.ExtractScore | marking_assistant_oop/src/marking_assistant/analysis/score_extractor.py:39-77 | a `{` text decoding to an object with `score` is scored from the object; any other text, or an object without `score`, is scored by the text patterns with the ellipsized text as justification; an undecodable `{` text gives the failure record with the decoder's message; an error only when even the failure record cannot be built |
| ScoreExtraction.ObjectScoreRoundTrip | marking_assistant_oop/src/marking_assistant/analysis/score_extractor.py:39-55 | a valid successful record written as `{"score": …, "justification": …}` and scored with its own maximum as the hint extracts back to itself |
| ScoreExtraction.ProcessResponseFile | marking_assistant_oop/src/marking_assistant/analysis/score_extractor.py:162-184 | an unreadable or undecodable file gives an `Error processing <file>` line; a record whose `llm_call_success` is not truthy gives the LLM failure line; a record whose call succeeded is scored by `ScoreRecord`, and a score is valid and belongs to the module named by the file |
| ScoreExtraction.ScoreRecord | marking_assistant_oop/src/marking_assistant/analysis/score_extractor.py:173-184 | the outcome is exactly `ExtractScore` of the record's `raw_response_content` for the file's module and hint: its score when that succeeds, otherwise the `Error processing <file>` line with its error; a content that is not text is scored as the failure record |
| ScoreExtraction.ResponseFileSuffix | marking_assistant_oop/src/marking_assistant/analysis/score_extractor.py:162 | the glob `*_intermediate.json` selects exactly the files whose names end in `_intermediate.json` |
| ScoreExtraction.StudentRecords | marking_assistant_oop/src/marking_assistant/analysis/score_extractor.py:158-184 | every response file gives exactly one valid score or one error line |
| ScoreExtraction.ResponseFiles | marking_assistant_oop/src/marking_assistant/analysis/score_extractor.py:162 | only response files are kept |
| ScoreExtraction.SuccessTotal | marking_assistant_oop/src/marking_assistant/analysis/score_extractor.py:187 | the sum over successful modules is never negative |
| ScoreExtraction.SuccessMax | marking_assistant_oop/src/marking_assistant/analysis/score_extractor.py:188 | the sum of the maxima over successful modules is never negative |
| ScoreExtraction.FailuresNotCounted | marking_assistant_oop/src/marking_assistant/analysis/score_extractor.py:187-188 | a failed module adds nothing to either sum |
| ScoreExtraction.TotalWithinMax | marking_assistant_oop/src/marking_assistant/analysis/score_extractor.py:187-188 | with no successful module above its maximum, the total is at most the maximum total |
| ScoreExtraction.Percentage | marking_assistant_oop/src/marking_assistant/analysis/score_extractor.py:189 | total / max × 100 when the maximum is positive, else 0; between 0 and 100 when the total lies within the maximum |
| ScoreExtraction.SummaryAsWritten | marking_assistant_oop/src/marking_assistant/analysis/score_extractor.py:186-199 | as written, the summary passes validation exactly when the percentage is at most 100 |
| ScoreExtraction.Summary | marking_assistant_oop/src/marking_assistant/analysis/score_extractor.py:186-199 | the corrected summary always validates, keeps the scores, errors and totals, and caps the percentage at 100 |
| ScoreExtraction.Min | marking_assistant_oop/src/marking_assistant/analysis/score_extractor.py:27 | the smaller of two numbers |
| ScoreExtraction.SummaryAgrees | marking_assistant_oop/src/marking_assistant/analysis/score_extractor.py:186-199 | whenever the written summary validates, the capped one is the same |
| ScoreExtraction.SummaryAsWrittenWithinMax | marking_assistant_oop/src/marking_assistant/analysis/score_extractor.py:186-199 | with no module above its maximum the written summary always validates |
| ScoreExtraction.ScoreAboveHintAborts | marking_assistant_oop/src/marking_assistant/analysis/score_extractor.py:189-199 | `{"score": 12}` with hint 10 is scored 12 out of 10, and the written summary fails at 120 percent |
| ScoreExtraction.SummariesAsWritten | marking_assistant_oop/src/marking_assistant/analysis/score_extractor.py:151-203 | as written, extraction ends with the summary validation error at the first student above 100 percent; when it completes, every summary validates and carries the task name |
| ScoreExtraction.StudentScores | marking_assistant_oop/src/marking_assistant/analysis/score_extractor.py:140-148 | corrected behaviour (see Findings): a missing task folder gives no summaries; otherwise the capped summaries, one per student folder |
| ScoreExtraction.SummariesOf | marking_assistant_oop/src/marking_assistant/analysis/score_extractor.py:151-201 | corrected behaviour (see Findings): every summary validates and carries the task name |
| ScoreExtraction.SummariesAgree | marking_assistant_oop/src/marking_assistant/analysis/score_extractor.py:151-203 | whenever the code's extraction completes, it gives the capped summaries |
| ScoreExtraction.ExtractStudentScores | marking_assistant_oop/src/marking_assistant/analysis/score_extractor.py:140-203 | corrected behaviour (see Findings): the loops over folders and files build exactly the capped summaries, all valid |
| ScoreExtraction.SumSuccessful | marking_assistant_oop/src/marking_assistant/analysis/score_extractor.py:187-188 | the loop computes both sums over the successful modules |
| ExcelSummaries.ZIdAt | marking_assistant/scripts/excel_summary.py:156 | `z\d+` matches at a position exactly when a `z` followed by a digit is there, and the match is a student id |
| ExcelSummaries.StudentIdFromFileName | marking_assistant/scripts/excel_summary.py:154-157 | the id found is a student id occurring in the file name; there is none exactly when no position starts a match |
| ExcelSummaries.FirstIdPart | marking_assistant/scripts/excel_summary.py:50-54 | the index found is the first `_`-part that is `z` followed by digits; none when no part is |
| ExcelSummaries.NameFromStem | marking_assistant/scripts/excel_summary.py:45-59 | no name comes from the stem exactly when it has fewer than three `_`-parts, no part is `z` followed by digits, or the first such part is the first part; a name taken from the stem contains no `_` |
| ExcelSummaries.NameFromStemForm | marking_assistant/scripts/excel_summary.py:45-59 | for a stem `Name_Name_zID_...` of at least three parts whose id part is not the first, the name is the parts before the id part joined by spaces |
| ExcelSummaries.FirstIdPartAt | marking_assistant/scripts/excel_summary.py:50-54 | the first id part is found at its index |
| ExcelSummaries.JoinNoChar | marking_assistant/scripts/excel_summary.py:59 | joining `_`-free parts with spaces leaves nothing for `replace('_', ' ')` to change |
| ExcelSummaries.StudentLabelAt | marking_assistant/scripts/excel_summary.py:63 | a `Student:\s*([^(]+)` match captures a non-empty text without `(` |
| ExcelSummaries.NameFromFeedback | marking_assistant/scripts/excel_summary.py:41-70 | the stem's name wins; otherwise, without readable content there is no name, and a name from the content is stripped and free of `(` |
| ExcelSummaries.CountPassed | marking_assistant/scripts/excel_summary.py:178-181 | the number of passed results is at most the number of results |
| ExcelSummaries.CountPassedBounds | marking_assistant/scripts/excel_summary.py:178-181 | the count equals the number of results exactly when all passed, and is zero exactly when none did |
| ExcelSummaries.SummaryOfCounts | marking_assistant/scripts/excel_summary.py:183-191 | failed is total minus passed; the pass rate is passed over total in per cent, zero with no results, and between 0 and 100 |
| ExcelSummaries.TestSummaryOf | marking_assistant/scripts/excel_summary.py:159-191 | empty test data or data without a `test_results` list or object gives all zeros; otherwise the summary of its results and how many passed |
| ExcelSummaries.ShareAtMostWhole | marking_assistant/scripts/excel_summary.py:183 | a passed share of a positive total is between 0 and 100 per cent and times the total gives back passed times 100 |
| ExcelSummaries.ZeroCount | marking_assistant/scripts/excel_summary.py:234 | the number of zero-score modules is at most the number of modules |
| ExcelSummaries.Trues | marking_assistant/scripts/excel_summary.py:263-276 | the number of raised flags is at most the number of flags |
| ExcelSummaries.LowTotalScoreIff | marking_assistant/scripts/excel_summary.py:223-230 | the low-score flag is raised exactly when the maximum (default 1) is not positive or the total is under a tenth of it |
| ExcelSummaries.ShareBelowTenth | marking_assistant/scripts/excel_summary.py:226-228 | a share under 10 per cent of a positive maximum is the same as ten times the total being under the maximum |
| ExcelSummaries.ManyZeroScoresIff | marking_assistant/scripts/excel_summary.py:232-241 | the zero-score flag is raised exactly when there is a module and at least half of the modules scored zero |
| ExcelSummaries.ShareAtLeastHalf | marking_assistant/scripts/excel_summary.py:238-239 | a zero share of at least 50 per cent is the same as twice the zero count reaching the module count |
| ExcelSummaries.LowScoreWarning | marking_assistant/scripts/excel_summary.py:229 | the warning text is not empty |
| ExcelSummaries.ZeroScoresWarning | marking_assistant/scripts/excel_summary.py:240 | the warning text is not empty |
| ExcelSummaries.NoTestsWarning | marking_assistant/scripts/excel_summary.py:245 | the warning text is not empty |
| ExcelSummaries.AllFailedWarning | marking_assistant/scripts/excel_summary.py:248 | the warning text is not empty |
| ExcelSummaries.ExtractionWarning | marking_assistant/scripts/excel_summary.py:254 | the warning text is not empty |
| ExcelSummaries.MissingInfoWarning | marking_assistant/scripts/excel_summary.py:259 | the warning text is not empty |
| ExcelSummaries.Selected | marking_assistant/scripts/excel_summary.py:228-260 | one text per raised check, each one of the checks' texts |
| ExcelSummaries.WarningTexts | marking_assistant/scripts/excel_summary.py:228-260 | five texts, one per check, none empty |
| ExcelSummaries.Warnings | marking_assistant/scripts/excel_summary.py:214-260 | one non-empty warning per raised flag |
| ExcelSummaries.CheckSubmissionQuality | marking_assistant/scripts/excel_summary.py:212-279 | the flags are the five checks, the warning count is the number of raised flags, problems are reported exactly when a flag is raised, with the problems line and the warnings joined by `; `, and otherwise the no-problems line and an empty detail; the detail is empty exactly when there are no problems |
| ExcelSummaries.DetailedWarningsEmptyIff | marking_assistant/scripts/excel_summary.py:267 | non-empty warnings joined by `; ` give the empty text exactly when there are none |
| ExcelSummaries.GetAllModuleIds | marking_assistant/scripts/excel_summary.py:281-287 | the ids are strictly sorted and are exactly the module ids of all students |
| ExcelSummaries.LastScore | marking_assistant/scripts/excel_summary.py:346-348 | the position found is the last score of the module; none when the student has no score of it |
| ExcelSummaries.LookupLast | marking_assistant/scripts/excel_summary.py:346-348 | the lookup holds a module's last score, and nothing for a module the student has no score of |
| ExcelSummaries.CellOf | marking_assistant/scripts/excel_summary.py:352-361 | the columns copy the score, maximum, success and justification; the percentage is zero for a maximum that is not positive and otherwise the score over the maximum in per cent |
| ExcelSummaries.FillModuleColumns | marking_assistant/scripts/excel_summary.py:350-368 | one group of columns per module id of the task: the student's last score of it, or the not-evaluated columns |
| ExcelSummaries.RowName | marking_assistant/scripts/excel_summary.py:311-312 | the scores file's non-empty name, otherwise the feedback file's name, otherwise `Unknown` when there is no feedback |
| SummaryCsv.Prefixed | marking_assistant/scripts/summary_csv.py:246-250 | each column keeps its value and its place, with the prefix put before its name |
| SummaryCsv.GetPrefixed | marking_assistant/scripts/summary_csv.py:246-250 | a prefixed column holds the value of the column it was made from |
| SummaryCsv.TestFields | marking_assistant/scripts/summary_csv.py:182-188 | the test summary has the five columns total, passed, failed, pass rate and score, in that order |
| SummaryCsv.QualityFields | marking_assistant/scripts/summary_csv.py:190-208 | four metric columns in order; all zero without quality results; otherwise taken from the results with zero for a missing one |
| SummaryCsv.NoTestColumnBefore | marking_assistant/scripts/summary_csv.py:227-242 | no student or score column starts with `test_` |
| SummaryCsv.NoQualityColumnBefore | marking_assistant/scripts/summary_csv.py:227-246 | no student, score or test column starts with `quality_` |
| SummaryCsv.NoTestColumnAfter | marking_assistant/scripts/summary_csv.py:250-258 | no quality or feedback column starts with `test_` |
| SummaryCsv.NoQualityColumnAfter | marking_assistant/scripts/summary_csv.py:253-258 | no feedback column starts with `quality_` |
| SummaryCsv.SummaryRowTestColumns | marking_assistant/scripts/summary_csv.py:244-246 | the row's `test_` columns are the summary of the student's test results, empty when the student has none |
| SummaryCsv.SummaryRowQualityColumns | marking_assistant/scripts/summary_csv.py:248-250 | the row's `quality_` columns are the summary of the student's quality results, empty when the student has none |
| SummaryCsv.SummaryRowName | marking_assistant/scripts/summary_csv.py:229-230 | the row's name is the scores file's non-empty name, else the feedback file's, else `Unknown` |
| SummaryCsv.GenerateSummaryRows | marking_assistant/scripts/summary_csv.py:221-260 | one row per student of the scores file, in order, each that student's summary row |
| SummaryCsv.DetailedRowOf | marking_assistant/scripts/summary_csv.py:288-301 | the row copies the ids, name, task, score, maximum and success; the percentage is zero for a maximum that is not positive and otherwise the score over the maximum in per cent; a justification over 200 characters keeps its first 200 followed by `...` |
| SummaryCsv.StudentRows | marking_assistant/scripts/summary_csv.py:287-302 | one row per module score of the student, in order |
| SummaryCsv.DetailedRowsLayout | marking_assistant/scripts/summary_csv.py:282-302 | the k-th score of the i-th student is the row after all scores of the students before it |
| SummaryCsv.DetailedRowsCount | marking_assistant/scripts/summary_csv.py:282-302 | there are as many detailed rows as module scores over all students |
| SummaryCsv.GenerateDetailedRows | marking_assistant/scripts/summary_csv.py:280-302 | the rows are, student by student, one per module score |
| SummaryCsv.SafeTaskName | marking_assistant/scripts/summary_csv.py:322 | the safe name is the task name with each space made `_` and every `(` and `)` left out, all other characters kept in order; so it has no space or parenthesis and is no longer |
| SummaryCsv.ParensDropped | marking_assistant/scripts/summary_csv.py:322 | the three chained replacements act character by character |
| SummaryCsv.SafeTaskNameKeeps | marking_assistant/scripts/summary_csv.py:322 | a name without spaces or parentheses is unchanged |
| ModulesPipeline.TaskNameError | modules_pipeline.py:215-216 | a task name is refused, with its message, exactly when it is absent, empty or only white space |
| ModulesPipeline.SortSubmissionFiles | modules_pipeline.py:297-310 | the loop over the submitted files gives the code paths, notebook markdown and document texts of the specification |
| ModulesPipeline.Filtered | modules_pipeline.py:300-306 | exactly the notebooks and Python files among the paths are kept |
| ModulesPipeline.CodePathsAreCodeFiles | modules_pipeline.py:297-306 | code is extracted from exactly the notebooks and Python files, in submission order |
| ModulesPipeline.DocumentsNonEmpty | modules_pipeline.py:307-310 | every stored document text is non-empty |
| ModulesPipeline.SplitSpecifier | modules_pipeline.py:405-407 | without a `:` the whole specifier is the data type and there is no key; otherwise the specifier is the type, a `:` and the key, and the type has no `:` |
| ModulesPipeline.FileText | modules_pipeline.py:412-416 | a file key gives the stored text, or the empty text when the key is missing |
| ModulesPipeline.ReportOr | modules_pipeline.py:452-455 | a non-empty report is used, otherwise the fixed note |
| ModulesPipeline.Resolve | modules_pipeline.py:404-459 | each data type with a key gives that file's text or the test group (empty when missing or empty); `all_code` and `all_markdown_content` join all texts; the two report types give the report or its note; anything else gives the not-found text naming the placeholder |
| ModulesPipeline.GatherPromptVars | modules_pipeline.py:399-469 | the loop over `required_data` followed by the global entries gives the module's prompt variables |
| ModulesPipeline.GlobalValues | modules_pipeline.py:462-469 | the six global entries always hold the task, the user and the student's code, markdown, documents and tests; every other name keeps its value |
| ModulesPipeline.PlaceholderResolved | modules_pipeline.py:404-469 | each placeholder that is not a global name holds its resolved value |
| ModulesPipeline.ResolvedHolds | modules_pipeline.py:404-459 | with distinct placeholders, each holds the value resolved for it |
| ModulesPipeline.PopulateError | modules_pipeline.py:487-495 | the recorded output starts with `Error: `; a missing key is named, any other error gets the general message |
| ModulesPipeline.NoCallOnError | modules_pipeline.py:476-513 | without a user template, with prompts that cannot be filled in, or with feedback skipped, the output does not depend on the language model; a missing template and a formatting failure record an error text |
| ModulesPipeline.UnknownKeyNamed | modules_pipeline.py:484-491 | a user template naming a variable the module does not have records the configuration error naming that key |
| ModulesPipeline.OutputsStep | modules_pipeline.py:390-513 | a module with an id records its output under the id; one without is skipped |
| ModulesPipeline.ProcessModules | modules_pipeline.py:388-513 | the loop over the modules records, by id, the output of each module that has one |
| ModulesPipeline.OutputsKeys | modules_pipeline.py:390-394 | there is an output for exactly the ids of the modules that have one |
| ModulesPipeline.OutputOfLast | modules_pipeline.py:390-513 | an id holds the output of the last module with that id |
| ModulesPipeline.OrOnKeyError | modules_pipeline.py:529-555 | a formatted piece is kept; a `KeyError` gives the fixed text; any other error goes through |
| ModulesPipeline.SectionBody | modules_pipeline.py:545 | a section shows its module's output, or the not-found note naming the module |
| ModulesPipeline.SectionsFailureSticks | modules_pipeline.py:536-547 | once a title has failed, later sections do not change the outcome |
| ModulesPipeline.SectionsStep | modules_pipeline.py:536-547 | each section adds its error or its title and body |
| ModulesPipeline.AppendSections | modules_pipeline.py:536-547 | the loop over the sections gives the sections' text, or the first title error |
| ModulesPipeline.AssembleReport | modules_pipeline.py:524-555 | the assembled report is the header, the sections and the footer, or the first error that is not a `KeyError` |
| ModulesPipeline.ReportLayout | modules_pipeline.py:524-555 | a produced report starts with the header, ends with the footer, and contains every section's title and output |
| ModulesPipeline.SectionInSections | modules_pipeline.py:536-547 | every section's title and body appear in the sections' text |
| ModulesPipeline.ReportExtension | modules_pipeline.py:565 | the text format gives `txt`, any other format its own name |
| ModulesPipeline.SafeUserName | modules_pipeline.py:348 | the name with each space made `_` and every other character kept in place; so no space is left and the length is kept |
| ModulesPipeline.StudentTaskPart | modules_pipeline.py:348 | the part starts with the safe name and ends with `_<id>_<task>` |
| ModulesPipeline.ReportFileName | modules_pipeline.py:566 | the report file name starts with the student and task part and ends with `_modular_feedback.` and the extension |
| ModulesPipeline.QualityFileNameSwapsSuffix | modules_pipeline.py:348-351 | when the student, id and task have no `.`, the style report's name is the results name with `_submission.json` swapped for `_<tool>_results.json` |
| ModulesPipeline.StemDotFree | modules_pipeline.py:348 | the student and task part of dot-free names has no `.` |
| ModulesPipeline.ReplaceDotFree | modules_pipeline.py:348 | replacing spaces by `_` brings in no `.` |
| ModulesPipeline.FindFirst | modules_pipeline.py:350-351 | the first occurrence is the one found |
| ModuleFeedback.OutputModel | llm_feedback/module_feedback_generator.py:43 | a registered name gives its model; an unknown or absent name gives the base model |
| ModuleFeedback.DropLeading | llm_feedback/module_feedback_generator.py:83-86 | the result is stripped and no longer; a text without the prefix is unchanged |
| ModuleFeedback.DropTrailing | llm_feedback/module_feedback_generator.py:87-88 | the result is stripped and no longer; a text without the suffix is unchanged |
| ModuleFeedback.Clean | llm_feedback/module_feedback_generator.py:82-88 | the cleaned text is stripped and no longer than the reply; a reply without fences is only stripped |
| ModuleFeedback.StripAfterSpace | llm_feedback/module_feedback_generator.py:84 | stripping drops leading white space and keeps a text that starts and ends with something else |
| ModuleFeedback.StripNewlineAfter | llm_feedback/module_feedback_generator.py:88 | stripping drops a trailing newline and keeps a stripped text |
| ModuleFeedback.FencedBodyRecovered | llm_feedback/module_feedback_generator.py:82-88 | a reply that is a fenced JSON block gives back exactly the block's body |
| ModuleFeedback.ErrorText | llm_feedback/module_feedback_generator.py:102-124 | an error text is `Error: ` followed by the description |
| ModuleFeedback.ParseFailure | llm_feedback/module_feedback_generator.py:102-109 | a parse failure names the module and ends with the marker and the whole reply |
| ModuleFeedback.GenerateFeedback | llm_feedback/module_feedback_generator.py:11-124 | set-up errors, raised calls and unsuccessful replies give their own error texts; a successful reply parsed by the chosen model gives its feedback text or its dump; invalid JSON and schema mismatches give error texts with the reply |
| ModuleFeedback.FailuresAreErrorTexts | llm_feedback/module_feedback_generator.py:101-124 | every failure is reported as a text starting `Error: ` |
| ReportGeneration.KeyEnd | llm_feedback/report_generator.py:153-156 | a key match ends after the start and covers a problem key: `1` or `2` and at most one letter |
| ReportGeneration.SuffixKeyAt | llm_feedback/report_generator.py:153 | a match of `_([12][a-zA-Z]?)\.(?:ipynb\|py)` captures a problem key |
| ReportGeneration.ProblemWordKeyAt | llm_feedback/report_generator.py:156 | a case-insensitive match of `Problem([12][a-zA-Z]?)` captures a problem key |
| ReportGeneration.GroupContained | llm_feedback/report_generator.py:153-158 | a captured key occurs in the file name, and so does its first character |
| ReportGeneration.ProblemKey | llm_feedback/report_generator.py:152-163 | the key is `unknown` exactly when the name has neither a `1` nor a `2`; otherwise it is a problem key that occurs in the name |
| ReportGeneration.Numbered | llm_feedback/report_generator.py:64-65 | one line per standard requirement, numbered from one on |
| ReportGeneration.CriterionLines | llm_feedback/report_generator.py:70-74 | one line per criterion, in order |
| ReportGeneration.RubricSection | llm_feedback/report_generator.py:50-76 | the loop over the problems gives the rubric lines, problem by problem |
| ReportGeneration.FailedTestLines | llm_feedback/report_generator.py:84-86 | a failed test gives one line, and a second for its context |
| ReportGeneration.FailedTestsLines | llm_feedback/report_generator.py:83-86 | between one and two lines per failed test |
| ReportGeneration.FailedLines | llm_feedback/report_generator.py:81-86 | the failed-test section is empty exactly when there are no failed tests, and has at most seven lines |
| ReportGeneration.FailedLinesFirstThree | llm_feedback/report_generator.py:83 | tests after the third never change the prompt |
| ReportGeneration.ToolLine | llm_feedback/report_generator.py:90-104 | a tool with issues gives its issue line followed by at most 300 characters of output and `...`; cutting fails only for a mapping with issues or with an output |
| ReportGeneration.PlaceAccounted | llm_feedback/report_generator.py:113-126 | placing one more file's snippet keeps every snippet placed exactly once |
| ReportGeneration.PlacedAccounts | llm_feedback/report_generator.py:109-126 | every file's snippet is placed exactly once: under the Problem 1 label, the Problem 2 label or with the others |
| ReportGeneration.PlaceSnippets | llm_feedback/report_generator.py:109-126 | the loop over the files places the snippets as specified |
| ReportGeneration.LabelledLinesAt | llm_feedback/report_generator.py:118-123 | each labelled snippet comes right after its label |
| ReportGeneration.SnippetSection | llm_feedback/report_generator.py:106-131 | the loop gives the snippet section of the specification |
| ReportGeneration.Excerpt | llm_feedback/report_generator.py:136-141 | an excerpt has at most 300 characters and `...` |
| ReportGeneration.MarkdownItems | llm_feedback/report_generator.py:135-136 | one line per markdown excerpt |
| ReportGeneration.MarkdownLines | llm_feedback/report_generator.py:133-136 | the markdown section is empty exactly when there is no markdown, and has at most three lines |
| ReportGeneration.DocumentLines | llm_feedback/report_generator.py:138-141 | the document section is empty exactly when there are no documents, and has at most two lines |
| ReportGeneration.ExplanationsBounded | llm_feedback/report_generator.py:135-140 | markdown after the second excerpt and documents after the first never change the prompt |
| ReportGeneration.PromptLines | llm_feedback/report_generator.py:42-145 | the prompt's lines start with the submission title and end with the output template |
| ReportGeneration.PromptText | llm_feedback/report_generator.py:147 | the prompt starts with the title line and ends with the output template |
| ReportGeneration.Prompt | llm_feedback/report_generator.py:26-147 | the prompt fails exactly when a tool's output has to be cut but is not a text; otherwise it starts with the title line and ends with the template |
| ReportGeneration.JoinEnds | llm_feedback/report_generator.py:147 | a join of at least two parts starts with the first and a newline and ends with a newline and the last |
| ReportGeneration.FormatReportPrompt | llm_feedback/report_generator.py:26-147 | building the prompt section by section gives the specified prompt |
| ReportGeneration.AggregateTotals | llm_feedback/report_generator.py:210-219 | the loop over the problems gives their summed totals |
| ReportGeneration.NoFailuresIff | llm_feedback/report_generator.py:214-219 | with counts never negative, the failed total is zero exactly when no problem has a failed test |
| ReportGeneration.SomeTestsIff | llm_feedback/report_generator.py:214-219 | with counts never negative, the test total is positive exactly when some problem ran a test |
| ReportGeneration.TotalsPassIff | llm_feedback/report_generator.py:219 | with counts never negative, the tests pass exactly when no problem has a failed test and some problem ran one |
| ReportGeneration.StudentOf | llm_feedback/report_generator.py:200-228 | without a results path, or with a results file the analyzer refuses, the student is unknown |
| ReportGeneration.KeyIn | llm_feedback/report_generator.py:235-236 | `in` on an object asks for the key; null, truth values and numbers cannot be searched |
| ReportGeneration.SelectQuality | llm_feedback/report_generator.py:230-241 | a missing file gives the not-provided note and an unreadable one an error entry; a loaded file gives its `summary`, else the first problem's `<tool>_results` (empty when absent), else an empty object |
| ReportGeneration.NoDataNotRun | llm_feedback/report_generator.py:95-104 | a missing or unreadable quality file gives the tool's not-run line |
| ReportGeneration.SystemPromptOf | llm_feedback/report_generator.py:249-253 | the system prompt is never empty |
| ReportGeneration.ResponseText | llm_feedback/report_generator.py:270-276 | a successful reply gives its content; anything else an error text |
| ReportGeneration.ReportFileBase | llm_feedback/report_generator.py:278-279 | the name fails exactly when the task name has no `_`; otherwise it is the first 100 characters of `<name>_<id>_<first task part>_<second task part>` with each space made `_` and every `(`, `)` and `:` left out, so it has none of them |
| ReportGeneration.ReportBaseSafe | llm_feedback/report_generator.py:278-279 | replacing the name's spaces first and then the whole base's spaces, parentheses and colons is making the joined base safe once, character by character |
| ReportGeneration.ReportPath | llm_feedback/report_generator.py:280 | the path is in the report directory and ends with `_marker_report.md` |
| ReportGeneration.Report | llm_feedback/report_generator.py:182-290 | a report is written exactly when the prompt can be built and the task name has a `_`; its content is the model's reply to the prompt under the system prompt (or the failure text), its path is `<report dir>/<file base>_marker_report.md`; otherwise the error is the prompt's, else the index error of the missing second task part |
| ReportGeneration.GenerateSingleReport | llm_feedback/report_generator.py:182-290 | summing the totals, building the prompt and asking the model once gives the specified report |
| FeedbackGeneration.Extension | llm_feedback/feedback_generator.py:207-211 | each format's file extension is a non-empty text starting with `.` |
| FeedbackGeneration.ExtensionInjective | llm_feedback/feedback_generator.py:207-211 | two formats share an extension exactly when they are the same format |
| FeedbackGeneration.Without | llm_feedback/feedback_generator.py:108 | deleting a character leaves none of it and does not lengthen the text |
| FeedbackGeneration.WithoutKeepsCounts | llm_feedback/feedback_generator.py:108 | deleting a character keeps every other character as often as before |
| FeedbackGeneration.ReplaceIsWithout | llm_feedback/feedback_generator.py:108 | replacing a character by the empty text deletes it |
| FeedbackGeneration.WithoutDropsHead | llm_feedback/feedback_generator.py:108 | deletion skips the first occurrence and goes on after it |
| FeedbackGeneration.NoOccurrenceNoChar | llm_feedback/feedback_generator.py:108 | a prefix with no occurrence of a character does not contain it |
| FeedbackGeneration.WithoutAbsent | llm_feedback/feedback_generator.py:108 | deleting a character a text does not have leaves it unchanged |
| FeedbackGeneration.WithoutConcat | llm_feedback/feedback_generator.py:108 | deletion distributes over concatenation |
| FeedbackGeneration.FormatFeedback | llm_feedback/feedback_generator.py:71-108 | markdown is returned as is; plain text has no `#`, `*` or backtick |
| FeedbackGeneration.PlainTextIsWithout | llm_feedback/feedback_generator.py:108 | plain text is the content with `#`, `*` and backticks deleted |
| FeedbackGeneration.HtmlRecoversContent | llm_feedback/feedback_generator.py:81-101 | the HTML page is the fixed head, the content unchanged and the fixed tail, so the content can be cut back out |
| FeedbackGeneration.PlainTextKeepsPlain | llm_feedback/feedback_generator.py:105-108 | content without `#`, `*` or backticks is its own plain text |
| FeedbackGeneration.ReplyFor | llm_feedback/feedback_generator.py:119-150 | the model is asked exactly when the problem is known to the analyzer |
| FeedbackGeneration.QuestionFeedbackFor | llm_feedback/feedback_generator.py:110-176 | the feedback names its problem and format; a failure has no content and an error; an unknown problem gets the analyzer's not-found error |
| FeedbackGeneration.QuestionFeedbackSucceeds | llm_feedback/feedback_generator.py:152-166 | the feedback succeeds exactly when the problem is known and the model answers successfully, and then it is the formatted answer with no error |
| FeedbackGeneration.AllFeedback | llm_feedback/feedback_generator.py:178-188 | one entry per problem, in the analyzer's order, each naming its problem |
| FeedbackGeneration.AllFeedbackEntries | llm_feedback/feedback_generator.py:185-187 | each entry is the feedback generated for its problem |
| FeedbackGeneration.AllFeedbackKeys | llm_feedback/feedback_generator.py:184-188 | the feedback has exactly the analyzer's problem ids, in order |
| FeedbackGeneration.GenerateAllFeedback | llm_feedback/feedback_generator.py:178-188 | the loop over the problems gives the feedback of every problem |
| FeedbackGeneration.ProblemFile | llm_feedback/feedback_generator.py:207-217 | a problem's file is `problem_<id><extension>` in the student's directory and holds the feedback content |
| FeedbackGeneration.SummaryFiles | llm_feedback/feedback_generator.py:222-242 | at most one summary file, written exactly when some problem's feedback was saved and the model answers successfully |
| FeedbackGeneration.ProblemFilesExact | llm_feedback/feedback_generator.py:202-220 | a file is saved for exactly the successful feedback entries |
| FeedbackGeneration.LastExtensionIff | llm_feedback/feedback_generator.py:202-227 | the summary's extension exists exactly when some feedback succeeded |
| FeedbackGeneration.SummaryWrittenIff | llm_feedback/feedback_generator.py:190-242 | the summary is saved beside the problem files exactly when some feedback succeeded and the summary request succeeds |
| FeedbackGeneration.SaveFeedback | llm_feedback/feedback_generator.py:190-242 | the loop writes the specified problem files and then the summary |
| TestResultAnalysis.LookupIsGet | llm_feedback/test_result_analyzer.py:17-19 | a decoded object's lookup of a key is the dictionary lookup |
| TestResultAnalysis.LookupAt | llm_feedback/test_result_analyzer.py:17-19 | a key's first entry is the one looked up |
| TestResultAnalysis.LookupEach | llm_feedback/test_result_analyzer.py:17-19 | with distinct keys, each key looks up its own value |
| TestResultAnalysis.Sub | llm_feedback/test_result_analyzer.py:105-116 | indexing an object by a present key gives its value; anything else is an error |
| TestResultAnalysis.IntOf | llm_feedback/test_result_analyzer.py:10-12 | a number is read as an integer exactly when it is whole, and reads back as that number |
| TestResultAnalysis.TextOf | llm_feedback/test_result_analyzer.py:9 | a value is read as text exactly when it is a string |
| TestResultAnalysis.OptTextOf | llm_feedback/test_result_analyzer.py:54 | an optional text is a string or null, null being the absent one |
| TestResultAnalysis.OptText | llm_feedback/test_result_analyzer.py:64-66 | an optional text written out reads back as itself |
| TestResultAnalysis.TextsOf | llm_feedback/test_result_analyzer.py:34 | a list is read as texts only when every item is a string, item by item |
| TestResultAnalysis.Texts | llm_feedback/test_result_analyzer.py:43 | texts are written as a list of strings, item by item |
| TestResultAnalysis.TextsRoundTrip | llm_feedback/test_result_analyzer.py:34-43 | texts written out read back as themselves |
| TestResultAnalysis.StrField | llm_feedback/test_result_analyzer.py:136-139 | a text field is found exactly when the key holds a string |
| TestResultAnalysis.BoolField | llm_feedback/test_result_analyzer.py:8 | a truth-value field is found exactly when the key holds one |
| TestResultAnalysis.IntField | llm_feedback/test_result_analyzer.py:10-12 | an integer field found is the number the key holds |
| TestResultAnalysis.OptTextField | llm_feedback/test_result_analyzer.py:52-54 | an optional-text field found is what the key holds |
| TestResultAnalysis.SummaryToDict | llm_feedback/test_result_analyzer.py:21-29 | a test summary is written as an object |
| TestResultAnalysis.SummaryFromDict | llm_feedback/test_result_analyzer.py:15-19 | a decoded summary has a non-zero total and its rate recomputed as passed over total in per cent; its keys are exactly the six fields; a zero total is refused |
| TestResultAnalysis.SummaryWritten | llm_feedback/test_result_analyzer.py:21-29 | the written summary has the six fields in order, each holding its value |
| TestResultAnalysis.SummaryLookups | llm_feedback/test_result_analyzer.py:22-29 | an object with the six summary keys in order looks each up at its place |
| TestResultAnalysis.SummaryRoundTrip | llm_feedback/test_result_analyzer.py:15-29 | a written summary reads back as itself exactly when its total is non-zero and its rate is passed over total in per cent |
| TestResultAnalysis.IntOfWhole | llm_feedback/test_result_analyzer.py:10-12 | a whole number reads back as itself |
| TestResultAnalysis.DetailsToDict | llm_feedback/test_result_analyzer.py:41-45 | test details are written as an object |
| TestResultAnalysis.DetailsFromDict | llm_feedback/test_result_analyzer.py:37-39 | decoding succeeds only when the keys are exactly the fields |
| TestResultAnalysis.DetailsWritten | llm_feedback/test_result_analyzer.py:41-45 | the written details have the two fields in order, each holding its value |
| TestResultAnalysis.DetailsRoundTrip | llm_feedback/test_result_analyzer.py:37-45 | written details read back as themselves |
| TestResultAnalysis.ToolToDict | llm_feedback/test_result_analyzer.py:60-67 | a tool result is written as an object |
| TestResultAnalysis.ToolFromDict | llm_feedback/test_result_analyzer.py:56-58 | decoding succeeds only when the keys are exactly the fields |
| TestResultAnalysis.ToolWritten | llm_feedback/test_result_analyzer.py:60-67 | the written tool result has the five fields in order, each holding its value |
| TestResultAnalysis.ToolLookups | llm_feedback/test_result_analyzer.py:61-67 | an object with the five tool keys in order looks each up at its place |
| TestResultAnalysis.ToolRoundTrip | llm_feedback/test_result_analyzer.py:56-67 | a written tool result reads back as itself |
| TestResultAnalysis.DecodeAll | llm_feedback/test_result_analyzer.py:107-110 | decoding every entry keeps the keys in order and decodes each value |
| TestResultAnalysis.EncodeAll | llm_feedback/test_result_analyzer.py:89-92 | encoding every entry keeps the keys in order and encodes each value |
| TestResultAnalysis.DecodeEncodeAll | llm_feedback/test_result_analyzer.py:89-110 | when each value round-trips, so does the whole mapping |
| TestResultAnalysis.ToolsRoundTrip | llm_feedback/test_result_analyzer.py:89-110 | a mapping of tool results round-trips |
| TestResultAnalysis.MetadataToDict | llm_feedback/test_result_analyzer.py:145-151 | metadata is written as an object |
| TestResultAnalysis.MetadataFromDict | llm_feedback/test_result_analyzer.py:141-143 | decoding succeeds only when the keys are exactly the fields |
| TestResultAnalysis.MetadataWritten | llm_feedback/test_result_analyzer.py:145-151 | the written metadata has the four fields in order, each holding its value |
| TestResultAnalysis.MetadataRoundTrip | llm_feedback/test_result_analyzer.py:141-151 | written metadata reads back as itself |
| TestResultAnalysis.QualityFromDict | llm_feedback/test_result_analyzer.py:76-83 | the decoded summary has no tool results yet and keeps the stored issue flag |
| TestResultAnalysis.QualityToDict | llm_feedback/test_result_analyzer.py:85-93 | a quality summary is written as an object |
| TestResultAnalysis.QualityRoundTrip | llm_feedback/test_result_analyzer.py:76-93 | a written quality summary reads back as itself without its tool results |
| TestResultAnalysis.ProblemFromDict | llm_feedback/test_result_analyzer.py:102-119 | a decoded problem has a consistent summary and came from data with `code_quality.tool_results` |
| TestResultAnalysis.ProblemToDictAsWritten | llm_feedback/test_result_analyzer.py:121-131 | a problem is written as an object |
| TestResultAnalysis.ProblemAsWrittenUnreadable | llm_feedback/test_result_analyzer.py:102-131 | a problem written as the source writes it never reads back: reading fails with a `KeyError` for `tool_results` |
| TestResultAnalysis.ProblemToDict | llm_feedback/test_result_analyzer.py:121-131 | a problem is written as an object, with its tool results beside the summary |
| TestResultAnalysis.ProblemLookups | llm_feedback/test_result_analyzer.py:105-131 | each nested part the reader looks for holds the written part |
| TestResultAnalysis.ProblemRoundTrip | llm_feedback/test_result_analyzer.py:102-131 | a problem written with its tool results reads back as itself exactly when its summary is consistent |
| TestResultAnalysis.Load | llm_feedback/test_result_analyzer.py:162-171 | a loaded analysis has the file's problem ids in order, each with a consistent summary |
| TestResultAnalysis.LoadRoundTrip | llm_feedback/test_result_analyzer.py:162-171 | a results file written from an analysis with consistent summaries loads back as that analysis |
| TestResultAnalysis.LoadLookups | llm_feedback/test_result_analyzer.py:167-170 | a results object gives back its metadata and problems |
| TestResultAnalysis.TotalsBounded | llm_feedback/test_result_analyzer.py:173-183 | with sane counts, the passed total lies between zero and the test total |
| TestResultAnalysis.OverallRateBounded | llm_feedback/test_result_analyzer.py:173-183 | with sane counts, the overall rate lies between 0 and 100 |
| TestResultAnalysis.OverallSuccessRate | llm_feedback/test_result_analyzer.py:173-183 | the loop gives the overall rate: passed over total in per cent, zero without tests |
| TestResultAnalysis.CodeQualityCounts | llm_feedback/test_result_analyzer.py:185-197 | the loop gives the issue counts of the specification |
| TestResultAnalysis.AddedOne | llm_feedback/test_result_analyzer.py:195 | one more issue adds one to the count, starting from zero |
| TestResultAnalysis.ToolTallyCounts | llm_feedback/test_result_analyzer.py:193-195 | a tool's count grows by the number of its entries with issues |
| TestResultAnalysis.IssueCountsMeaning | llm_feedback/test_result_analyzer.py:185-197 | `total` counts the problems with quality issues (or a tool named `total`); any other tool counts its entries with issues over those problems, and is absent when there are none |
| TestResultAnalysis.IssueOutputs | llm_feedback/test_result_analyzer.py:210-214 | there are no more outputs than tools |
| TestResultAnalysis.IssueOutputsGet | llm_feedback/test_result_analyzer.py:210-214 | a tool's output is listed exactly when it has issues |
| TestResultAnalysis.ProblemAnalysis | llm_feedback/test_result_analyzer.py:199-215 | an unknown problem gives the not-found error; a known one gives the view of its result |
| TestResultAnalysis.Failed | llm_feedback/test_result_analyzer.py:223 | the failed cases are exactly the cases containing `FAILED` |
| TestResultAnalysis.FailedTestCases | llm_feedback/test_result_analyzer.py:217-223 | an unknown problem gives the not-found error; a known one gives its test-case lines that contain `FAILED`, in order |
| TestResultAnalysis.FailedSingle | llm_feedback/test_result_analyzer.py:221-223 | one line is kept exactly when it contains `FAILED` |
| TestResultAnalysis.FailedAppend | llm_feedback/test_result_analyzer.py:221-223 | the filter keeps order: the failures of two runs of lines are those of the first, then those of the second |
| TestResultAnalysis.ProblemCountsBounded | llm_feedback/test_result_analyzer.py:236-243 | no more problems have issues or pass all tests than were attempted |
| TestResultAnalysis.SubmissionSummary | llm_feedback/test_result_analyzer.py:225-244 | the student's details, the overall rate, the number of problems, and how many have quality issues or pass all tests, each at most the number attempted |
| TestRunnerMain.LabPart | code_testing/test_runner_main.py:15-16 | the part found is the first `_`-part containing `Lab`; none when no part does |
| TestRunnerMain.LabNumber | code_testing/test_runner_main.py:12-18 | there is a lab number exactly when some `_`-part of the folder name contains `Lab` |
| TestRunnerMain.LabPartAt | code_testing/test_runner_main.py:16 | the first part containing `Lab` is found at its index |
| TestRunnerMain.RemoveLabPrefix | code_testing/test_runner_main.py:17 | removing `Lab ` from `Lab <n>` gives `<n>` when `<n>` has no `Lab ` |
| TestRunnerMain.LabNumberOfFolder | code_testing/test_runner_main.py:12-18 | a folder name like `course_id_Lab <n>_submission` gives the lab number `<n>` |
| TestRunnerMain.LabPartFree | code_testing/test_runner_main.py:15-16 | `Lab <n>` is one `_`-part and contains `Lab` |
| TestRunnerMain.PartsFree | code_testing/test_runner_main.py:15 | parts without `_` stay without `_` when put together |
| TestRunnerMain.FolderParts | code_testing/test_runner_main.py:15 | splitting a join of `_`-free parts at `_` gives back the parts |
| TestRunnerMain.LabPartOf | code_testing/test_runner_main.py:16 | the first part containing `Lab` is found after the parts without it |
| TestRunnerMain.ProblemAt | code_testing/test_runner_main.py:63 | a case-insensitive match of `Problem[_\s]*(\d+[a-zA-Z]?)` at a position captures a problem id |
| TestRunnerMain.ProblemNumber | code_testing/test_runner_main.py:60-67 | a problem number found is a problem id occurring in the name after the word `problem` in any case |
| TestRunnerMain.ProblemNumberOfName | code_testing/test_runner_main.py:60-67 | a name starting with `Problem`, separators and an id, followed by nothing that extends the id, gives that id |
| TestRunnerMain.IdShape | code_testing/test_runner_main.py:63 | a problem id is digits, possibly followed by one letter |
| TestRunnerMain.NameFacts | code_testing/test_runner_main.py:63 | the pieces of such a name sit where the pattern looks for them |
| TestRunnerMain.ProblemAtStart | code_testing/test_runner_main.py:63-66 | a name starting with the keyword, separators and digits gives those digits and a following letter |
| TestRunnerMain.RunEndAt | code_testing/test_runner_main.py:63 | a greedy run ends at the first character outside it |
| TestRunnerMain.TestCasePath | code_testing/test_runner_main.py:22 | the test file is exactly `<rubric>/test_cases/Lab<lab>/test_problem<n>.py` |
| TestRunnerMain.FindTestCases | code_testing/test_runner_main.py:20-25 | a file is returned exactly when `<rubric>/test_cases/Lab<lab>/test_problem<n>.py` exists, and it is that path |
| TestRunnerMain.Normalised | code_testing/test_runner_main.py:40-41 | normalised output has no carriage return, and is empty exactly when the output is |
| TestRunnerMain.NormalisedIsLineEndsAsLf | code_testing/test_runner_main.py:40-41 | the two chained replacements are universal newlines read left to right: `\r\n` and a lone `\r` each become one `\n`, every other character stays |
| TestRunnerMain.ReplaceNonEmpty | code_testing/test_runner_main.py:40-41 | replacing a non-empty pattern by non-empty text gives the empty text only from the empty text |
| TestRunnerMain.NormalisedKeeps | code_testing/test_runner_main.py:40-41 | output without carriage returns is unchanged |
| TestRunnerMain.NormalisedIdempotent | code_testing/test_runner_main.py:40-41 | normalising twice is normalising once |
| TestRunnerMain.Details | code_testing/test_runner_main.py:44-47 | there are no more details than output lines |
| TestRunnerMain.DetailsAppend | code_testing/test_runner_main.py:44-47 | the details of two runs of lines are those of the first followed by those of the second |
| TestRunnerMain.DetailsSingle | code_testing/test_runner_main.py:44-47 | one line contributes its stripped self exactly when it contains `test_` and `::`, and nothing otherwise |
| TestRunnerMain.StripKeeps | code_testing/test_runner_main.py:47 | stripping keeps an inner text that neither starts nor ends with white space |
| TestRunnerMain.LStripKeeps | code_testing/test_runner_main.py:47 | stripping the left keeps an inner text that does not start with white space |
| TestRunnerMain.RStripKeeps | code_testing/test_runner_main.py:47 | stripping the right keeps an inner text that does not end with white space |
| TestRunnerMain.StripDetail | code_testing/test_runner_main.py:46-47 | a stripped detail line still has `test_` and `::` |
| TestRunnerMain.DetailsShape | code_testing/test_runner_main.py:44-47 | every detail is a stripped line with `test_` and `::` |
| TestRunnerMain.DetailsCount | code_testing/test_runner_main.py:44-47 | there is one detail per output line with `test_` and `::` |
| TestRunnerMain.CountWhere | code_testing/test_runner_main.py:143-145 | a count of lines is at most the number of lines |
| TestRunnerMain.PytestSummaryOf | code_testing/test_runner_main.py:27-58 | the run passed exactly when pytest exited with 0, and the exit code is its text; the output is standard output with universal newlines, the error is standard error with universal newlines and is absent exactly when standard error is empty; the details are those of the output's `\n`-separated lines |
| TestRunnerMain.RunPytest | code_testing/test_runner_main.py:27-58 | the loop over the output lines gives the specified pytest summary |
| TestRunnerMain.SummaryOf | code_testing/test_runner_main.py:143-157 | passed and exit code are pytest's, the total is the number of details, the passed (failed) count is the number of details containing `PASSED` (`FAILED`), each at most the total |
| TestRunnerMain.CountsDisjoint | code_testing/test_runner_main.py:144-145 | when no line both passes and fails, passed and failed counts add up to at most the total |
| TestRunnerMain.CountsCover | code_testing/test_runner_main.py:144-145 | when every line either passes or fails, passed and failed counts add up to the total |
| TestRunnerMain.HasQualityIssues | code_testing/test_runner_main.py:165-168 | a problem has quality issues exactly when there are no quality results or some tool has issues |
| TestRunnerMain.AnyIssues | code_testing/test_runner_main.py:165-167 | some tool has issues |
| TestRunnerMain.QualityIssuesOfChecks | code_testing/test_runner_main.py:140-168 | after the two style checks, a problem has quality issues exactly when either tool did not report its clean result |
| TestRunnerMain.StudentFolderIndex | code_testing/test_runner_main.py:81-84 | the folder found is the first listed that holds the student's id and name without spaces; none when no folder does |
| TestRunnerMain.FindStudentFolder | code_testing/test_runner_main.py:77-88 | the student folder is missing exactly when no listed folder matches; otherwise it is the first match under the lab folder |
| TestRunnerMain.StudentFolderAt | code_testing/test_runner_main.py:81-84 | the first matching folder is found at its index |
| TestRunnerMain.PythonFile | code_testing/test_runner_main.py:106-109 | a file is kept exactly when it ends in `.py` and its name has a problem number, with its full path and that number |
| TestRunnerMain.Kept | code_testing/test_runner_main.py:102-109 | no more items are kept than walked |
| TestRunnerMain.KeptExact | code_testing/test_runner_main.py:102-109 | an item is kept exactly when some walked entry gives it |
| TestRunnerMain.PythonFiles | code_testing/test_runner_main.py:102-109 | no more files are kept than walked |
| TestRunnerMain.PythonFilesExact | code_testing/test_runner_main.py:102-109 | a file is kept exactly when some walked entry is a Python file with a problem number giving it |
| TestRunnerMain.CollectPythonFiles | code_testing/test_runner_main.py:102-109 | the walk loop collects the specified files in walk order |
| TestRunnerMain.EntryOf | code_testing/test_runner_main.py:143-177 | a problem's entry holds the solution path, the summary of the pytest result, its details as the test cases, its output, its error only when there was one, the quality flag, the tool results, and the tools run as their keys |
| TestRunnerMain.TempFile | code_testing/test_runner_main.py:129-131 | the copy of the code is `problem<n>.py` in the temporary directory |
| TestRunnerMain.EntryFor | code_testing/test_runner_main.py:116-190 | a file gives an entry exactly when its test file `TestCasePath(..)` exists, its code is read and pytest on the copied code does not crash; the entry is then `EntryOf` of the file's path, the pytest summary of that run and the quality checks of the copy |
| TestRunnerMain.Stored | code_testing/test_runner_main.py:116-190 | no more problems are recorded than files; StoredKeys, StoredLast and StoredNonEmpty give its keys and each key's value |
| TestRunnerMain.StoredKeys | code_testing/test_runner_main.py:116-190 | recorded problem ids are distinct, and an id is recorded exactly when some file with that number gives an entry |
| TestRunnerMain.StoredLast | code_testing/test_runner_main.py:180 | a key holds what was given for the last file with that key that gave something: later assignments overwrite earlier ones |
| TestRunnerMain.StoredHit | code_testing/test_runner_main.py:180 | a last file that gives a value under a key decides that key's value |
| TestRunnerMain.StoredMiss | code_testing/test_runner_main.py:116-180 | a last file that gives nothing under a key leaves that key's value as it was |
| TestRunnerMain.StoredNonEmpty | code_testing/test_runner_main.py:193 | something is stored exactly when some file gives a value |
| TestRunnerMain.KeysHasKey | code_testing/test_runner_main.py:180 | after storing a key, the keys are the old ones and that key |
| TestRunnerMain.Recorded | code_testing/test_runner_main.py:116-190 | no more problems are recorded than files; RecordedKeys and RecordedLast give which ids are recorded and the entry each holds |
| TestRunnerMain.RecordedKeys | code_testing/test_runner_main.py:116-190 | recorded problem ids are distinct, and an id is recorded exactly when some file with that number gives an entry: its test file exists, its code is read and pytest does not crash |
| TestRunnerMain.RecordedLast | code_testing/test_runner_main.py:180 | `combined_results['problems'][n]` holds the entry of the last file numbered `n` that gave one |
| TestRunnerMain.RecordedStep | code_testing/test_runner_main.py:116-180 | recording one more file puts its entry, if it gave one, under its number and changes nothing otherwise |
| TestRunnerMain.ResultsPath | code_testing/test_runner_main.py:195-199 | the results file is under `Lab<n>` in the results directory and named after the student and the lab |
| TestRunnerMain.Tests | code_testing/test_runner_main.py:90-201 | a results file is written only with at least one problem, holding exactly the recorded problems, at the results path, with the student's metadata |
| TestRunnerMain.RunOutcome | code_testing/test_runner_main.py:69-201 | a missing lab number stops the run first; testing happens only with a lab number and at least one Python file, and then goes as specified |
| TestRunnerMain.TestFile | code_testing/test_runner_main.py:117-190 | testing one file gives the specified entry |
| TestRunnerMain.TestFiles | code_testing/test_runner_main.py:116-201 | the loop over the files records the specified problems and writes the specified file |
| TestRunnerMain.RunTestsForStudent | code_testing/test_runner_main.py:69-201 | the run goes as specified |
| TestRunnerMain.ResultsWrittenIff | code_testing/test_runner_main.py:193-201 | problem ids are distinct, and a results file is written exactly when some file gives an entry |
| TestRunnerMain.ProblemsRecorded | code_testing/test_runner_main.py:116-190 | a problem id is in the results exactly when some file with that number gives an entry |
| Template.MissingKey | modules_pipeline.py:487-490 | the error a missing field raises is a `KeyError` naming the field in quotes |
| Template.FieldValue | modules_pipeline.py:485-486 | a looked-up name takes its value from the variables, a name the variables lack raises the `KeyError` naming it, and an empty or numeric name is a positional field |
| Template.NameEnd | modules_pipeline.py:485-486 | the field name runs to the first `{`, `}`, `:` or `!` outside `[...]` |
| Template.SpecEnd | modules_pipeline.py:485-486 | a format specification ends at the `}` that closes its nested braces, or is the unmatched-brace error |
| Template.ParseField | modules_pipeline.py:485-486 | a parsed field's name is the scanned name, and the field is bare exactly when the name is closed by `}` directly |
| Template.ArgLength | modules_pipeline.py:485-486 | the looked-up part of a field name stops at its first `.` or `[` |
| Template.Format | modules_pipeline.py:485-486 | a template without braces formats to itself |
| Template.FormatEscape | modules_pipeline.py:485-486 | a text with its braces doubled formats back to the text |
| Template.FieldReplaced | modules_pipeline.py:485-486 | `{name}` formats to the value of `name` |
| Template.MissingFieldFails | modules_pipeline.py:485-491 | `{name}` with `name` absent fails, with the `KeyError` naming it when the name is a plain key |
| Template.SpecFieldMissingKey | modules_pipeline.py:485-491 | `{name:spec}` with `name` absent raises the `KeyError` naming only `name` (a JSON object such as `{"score": 5}` in a template names `"score"`) |
| Template.AttributeFieldMissingKey | modules_pipeline.py:485-491 | `{name.attr}` with `name` absent raises the `KeyError` naming only `name` |
| Order.BelowIrreflexive | marking_assistant/scripts/excel_summary.py:287 | no text sorts before itself |
| Order.BelowTransitive | marking_assistant/scripts/excel_summary.py:287 | the text order is transitive |
| Order.BelowTotal | marking_assistant/scripts/excel_summary.py:287 | of two different texts one sorts before the other |
| Order.Insert | marking_assistant/scripts/excel_summary.py:283-287 | inserting into a strictly sorted list keeps it strictly sorted and adds exactly the new text |
| Order.SortedOf | marking_assistant/scripts/excel_summary.py:287 | the sorted list of a set is strictly sorted and holds exactly its members |
| Order.SortedUnique | marking_assistant/scripts/excel_summary.py:287 | two strictly sorted lists with the same members are equal |

## Left out
- Child processes (pytest, flake8, black, pip, notebook conversion) are not run. Their exit codes, outputs, timeouts and faults are inputs to the classifiers and runners.
- Filesystem access is given as inputs: directory walks, `listdir` and `glob` results (including their order), file existence and contents, zip extraction, and PDF/DOCX reading. I/O errors from `mkdir`, writes and removals are not modelled. The files a step writes are returned as values (a path and its content).
- JSON and YAML decoding is a parameter returning a decoded value, an "Extra data" position, or a failure. Repeated JSON keys, YAML scalar types and exception message texts are not modelled.
- The language model and its clients are a function parameter from the request to a reply or a raised error. Prompt wording beyond the fixed texts, request options and pydantic validation messages are not modelled.
- ModuleFeedback: the call passes a `temperature` keyword to the model client. The model treats the client's outcome as given, so the exception this keyword raises is one of the possible outcomes and is not forced.
- Floating-point numbers are modelled as reals. `round(…, 2)` is ignored.
- Python's `str.isdigit`, `\d` and `\s` are modelled on ASCII digits and the ASCII whitespace set (plus `\x1c`-`\x1f`, `\x85` and `\xa0`). `\w`, `\b` and `re.IGNORECASE` are ASCII-only too: a non-ASCII letter is not a word character, so a stem such as `q1é` names problem `1` in the model where Python finds no problem. Regular expressions and `fnmatch` are replaced by dedicated scanners. Glob keys support only `*`.
- Timestamps (`datetime.now`), `os.environ` changes, logging and printing are not modelled. Dates placed in spreadsheet and CSV rows are parameters.
- TestRunning: `_copy_test_data_files` is not modelled. An exception raised part-way through recording results in the per-file loop is not modelled; the modelled failure points are the copy, the read and pip.
- MarkingPipelines: `run()` and `_save_report` are orchestration and file I/O and are not modelled. The steps they call are.
- ModulesPipeline: `process_task` is modelled in its parts, not as one per-user loop: specifier resolution, prompt globals, the per-module errors, report assembly and file naming. The folder checks and file writes are not modelled.
- ModulesPipeline: test results are an input. The source's call to `run_tests_for_student` passes keywords that function does not accept, and that call is not modelled.
- TestRunnerMain: the per-file `except Exception` is modelled only as a pytest run that crashes. A missing lab part (the `StopIteration` of `next`) is the `NoLabNumber` outcome.
- FeedbackGeneration: a tool entry whose value is a list is treated as malformed. The failed-test details in the report prompt are always empty, because the analyzer's test cases are plain lines.
- TestResultAnalysis: the typed decoders reject fields of the wrong type, where Python dataclasses would accept them.
- TestResultAnalysis.CodeQualitySummary: the per-tool counts are a map, so the insertion order of the source's dictionary is not kept.
- ExcelSummaries: `calculate_quality_summary` and the `load_*` readers are not modelled, apart from the quality fields shared with `SummaryCsv.QualityFields`. The `openpyxl` and `pandas` writers (`_write_formatted_excel`, `_add_summary_sheet`, `to_csv`) are not modelled.
- ExcelSummaries.TestSummaryOf: test data that is a number or a boolean makes `'test_results' in test_data` raise `TypeError`, and a text or list containing `test_results` makes the lookup that follows raise; the model gives the zero summary for both. The CSV summary reads test data through the same function, so the same holds there.
- ScoreExtraction.LastValue: the value is stated to be that of some match; that it is the last match's is only in the body.
- Template.MissingKey: the key is always quoted with `'`, where Python's `repr` uses `"` for a key containing `'`.
- The feedback client of `llm_feedback/llm_deployment.py` serialises a request holding a dataclass with `json.dumps` outside its `try`, which raises; the model takes the client's reply or error as given and does not force this failure.
- ExcelSummaries.Passed: a test result that is not an object counts as not passed, where Python would raise `AttributeError`.
- SummaryCsv: the `load_*` readers and the command-line `main` are not modelled.
- Command-line and driver glue is not modelled. Duplicated copies of the same helper in other packages are modelled once. The web application is not part of this model, apart from `core/utils/utils.py`.
- Order.SortedOf is ghost: it states that a sorted, duplicate-free list of the ids exists. `Order.Insert` computes one.
- Template.Format: a field with a conversion (`!r`), a format specification (`:>5`), an attribute (`.x`) or an index (`[0]`) whose name is found gives `UnsupportedField`, where Python renders it. The errors before the lookup and the missing-key error are modelled. A positional field's `IndexError` text is fixed, and only ASCII characters are considered.
- ScoreExtraction.ScoreValue: `float()` also accepts underscores between digits, `inf`, `infinity` and `nan` in any case, and non-ASCII digits; the model reads these texts as not a number.
- ScoreExtraction.ExtractStudentScores, ScoreExtraction.StudentScores and ScoreExtraction.SummariesOf: these model the corrected behaviour, with the percentage capped at 100. The code as written aborts on a score above its maximum; `ScoreExtraction.SummariesAsWritten` models that (see Findings).
- SubmissionFiles.ExtractZip: the listing after an extraction has a fixed order, the existing entries first and then the members in archive order, where `rglob` follows the filesystem. Folders an archive creates implicitly are not listed. A member written over an existing file replaces it, so each path is listed once.

## Findings
| source | as written | input that shows it | evidently intended | confidence | as-written member | corrected member |
|---|---|---|---|---|---|---|
| marking_assistant_oop/src/marking_assistant/analysis/score_extractor.py:186-199 | the percentage is total·100/max with no cap, so a module scored above its maximum makes `StudentScoreSummary` fail its `le=100` constraint; the validation error escapes `extract_student_scores`, so no student of the task gets a summary | a structured response `{"score": 12}` for a module whose maximum (hint) is 10 | the summary is produced, with the percentage capped at 100 | not executed | ScoreExtraction.SummaryAsWritten, ScoreExtraction.SummariesAsWritten, ScoreExtraction.ScoreAboveHintAborts | ScoreExtraction.Summary, ScoreExtraction.ExtractStudentScores |
| llm_feedback/test_result_analyzer.py:105-131 | `ProblemResult.to_dict` writes the tool results inside `code_quality.summary`, but `from_dict` reads them from `code_quality.tool_results`, so a written problem never reads back | any `ProblemResult` | the tool results sit beside the summary, where the reader looks for them, and the record reads back as itself | not executed | TestResultAnalysis.ProblemAsWrittenUnreadable | TestResultAnalysis.ProblemToDict, TestResultAnalysis.ProblemRoundTrip |
