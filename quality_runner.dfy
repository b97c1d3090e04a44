/** The second-generation quality checks: flake8 and black (in check mode)
    are run on one file, and what each process gave back is classified into
    a record. The process itself is given: how it finished, or that its
    program was missing, or the text of another fault. */
module QualityRunner {
  import opened Wrappers
  import opened Text
  import Dict

  /** What running one tool gave back. */
  datatype ProcessRun =
    | Finished(returnCode: int, stdout: string, stderr: string)
    | NotFound
    | Fault(message: string)

  /** A tool's record: a classified check, or an error record that has no
      `has_issues` entry. */
  datatype CheckResult =
    | Checked(name: string, description: string, output: string, hasIssues: bool)
    | ToolError(error: string)

  const NoStyleIssues: string := "No style issues found."
  const NoFormattingIssues: string := "No formatting issues found."

  /** Python's `a.strip() or b.strip()`. */
  function StripOr(a: string, b: string): (r: string)
    ensures Strip(a) != "" ==> r == Strip(a)
    ensures Strip(a) == "" ==> r == Strip(b)
  {
    if Strip(a) != "" then Strip(a) else Strip(b)
  }

  /** Flake8 reports issues exactly when its stripped stdout, or failing that
      its stripped stderr, is not blank; that text is then the output, and
      otherwise the all-clear text is. The exit code is not looked at. */
  function RunFlake8(run: ProcessRun): (r: CheckResult)
    ensures run.Finished? ==> r.Checked? && r.name == "Flake8" && r.description == "Style Guide Enforcement"
    ensures run.Finished? ==>
      (r.hasIssues <==> (Strip(run.stdout) != "" || Strip(run.stderr) != ""))
    ensures run.Finished? && r.hasIssues ==> r.output == StripOr(run.stdout, run.stderr) && Stripped(r.output)
    ensures run.Finished? && !r.hasIssues ==> r.output == NoStyleIssues
    ensures run.NotFound? ==> r == ToolError("flake8 not found.")
    ensures run.Fault? ==> r == ToolError(run.message)
  {
    match run
    case Finished(_, stdout, stderr) =>
      var output := StripOr(stdout, stderr);
      var hasIssues := output != "";
      Checked("Flake8", "Style Guide Enforcement", if hasIssues then output else NoStyleIssues, hasIssues)
    case NotFound => ToolError("flake8 not found.")
    case Fault(message) => ToolError(message)
  }

  /** Black reports issues exactly when it exits with a non-zero code,
      whatever it printed; its output prefers the stripped stderr. */
  function RunBlack(run: ProcessRun): (r: CheckResult)
    ensures run.Finished? ==> r.Checked? && r.name == "Black" && r.description == "Code Formatting"
    ensures run.Finished? ==> (r.hasIssues <==> run.returnCode != 0)
    ensures run.Finished? && r.hasIssues ==> r.output == StripOr(run.stderr, run.stdout)
    ensures run.Finished? && !r.hasIssues ==> r.output == NoFormattingIssues
    ensures run.NotFound? ==> r == ToolError("black not found.")
    ensures run.Fault? ==> r == ToolError(run.message)
  {
    match run
    case Finished(returnCode, stdout, stderr) =>
      var output := StripOr(stderr, stdout);
      var hasIssues := returnCode != 0;
      Checked("Black", "Code Formatting", if hasIssues then output else NoFormattingIssues, hasIssues)
    case NotFound => ToolError("black not found.")
    case Fault(message) => ToolError(message)
  }

  /** All checks of one file: exactly `flake8` then `black`. */
  function RunAllChecks(flake8: ProcessRun, black: ProcessRun): (r: Dict.Dict<CheckResult>)
    ensures Dict.Keys(r) == ["flake8", "black"]
    ensures Dict.Get(r, "flake8") == Some(RunFlake8(flake8))
    ensures Dict.Get(r, "black") == Some(RunBlack(black))
  {
    [("flake8", RunFlake8(flake8)), ("black", RunBlack(black))]
  }

  /** A flake8 report with text on stdout has issues and shows that text. */
  lemma Flake8StdoutReported(stdout: string, stderr: string, code: int)
    requires Strip(stdout) != ""
    ensures RunFlake8(Finished(code, stdout, stderr)) ==
      Checked("Flake8", "Style Guide Enforcement", Strip(stdout), true)
  {
  }

  /** Black's classification is decided by the exit code alone: the same
      code gives the same verdict whatever either stream says. */
  lemma BlackVerdictIgnoresText(code: int, out1: string, err1: string, out2: string, err2: string)
    ensures RunBlack(Finished(code, out1, err1)).hasIssues == RunBlack(Finished(code, out2, err2)).hasIssues
  {
  }

  /** An error record never claims or denies issues, and a classified record
      never carries an error. */
  lemma ErrorRecordsHaveNoVerdict(run: ProcessRun)
    ensures RunFlake8(run).ToolError? <==> !run.Finished?
    ensures RunBlack(run).ToolError? <==> !run.Finished?
  {
  }
}
