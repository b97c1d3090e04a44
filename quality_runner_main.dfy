/** The first-generation quality checks: flake8 and black are run on a
    file and each result becomes a record. The tools' standard output is
    given; a tool that raises is given by its error text. */
module QualityRunnerMain {
  import opened Wrappers
  import opened Text
  import Dict

  /** Normalised tool text: None for empty output, otherwise line endings
      mapped to `\n` and surrounding white space removed. */
  function FormatToolOutput(output: string): (r: Option<string>)
    ensures r.None? <==> output == ""
    ensures r.Some? ==> '\r' !in r.value && Stripped(r.value)
    ensures r.Some? ==> r.value == Strip(Replace(Replace(output, "\r\n", "\n"), "\r", "\n"))
  {
    if output == "" then None
    else
      var t := Replace(Replace(output, "\r\n", "\n"), "\r", "\n");
      ReplaceCharRemoves(Replace(output, "\r\n", "\n"), '\r', "\n");
      CharNotInInfix(t, Strip(t), '\r');
      Some(Strip(t))
  }

  /** Output without carriage returns is only stripped. */
  lemma FormatWithoutCarriageReturn(output: string)
    requires output != "" && '\r' !in output
    ensures FormatToolOutput(output) == Some(Strip(output))
  {
    assert !Contains(output, "\r\n") by {
      forall i | 0 <= i <= |output| ensures !OccursAt(output, "\r\n", i) {
        if i + 2 <= |output| { assert output[i..i + 2][0] == output[i]; }
      }
    }
    NotContainsChar(output, '\r');
  }

  /** Formatting formatted output changes nothing. */
  lemma FormatIdempotent(output: string)
    requires FormatToolOutput(output).Some? && FormatToolOutput(output).value != ""
    ensures FormatToolOutput(FormatToolOutput(output).value) == FormatToolOutput(output)
  {
    var f := FormatToolOutput(output).value;
    assert !Contains(f, "\r\n") by {
      forall i | 0 <= i <= |f| ensures !OccursAt(f, "\r\n", i) {
        if i + 2 <= |f| { assert f[i..i + 2][0] == f[i]; }
      }
    }
    NotContainsChar(f, '\r');
    StripStripped(f);
  }

  datatype ToolRun = Output(text: string) | Raised(error: string)

  datatype ToolRecord = ToolRecord(
    name: string, description: string, output: Option<string>, hasIssues: bool, error: Option<string>)

  /** One tool's record: issues are reported unless the raw output is
      exactly the tool's all-clear text; a raising tool counts as having
      issues, with no output and its error text. */
  function ToolResult(name: string, description: string, clean: string, run: ToolRun): (r: ToolRecord)
    ensures r.name == name
    ensures run.Output? ==>
      r.description == description && r.error.None? &&
      r.output == FormatToolOutput(run.text) && (r.hasIssues <==> run.text != clean)
    ensures run.Raised? ==> r == ToolRecord(name, "Tool execution failed", None, true, Some(run.error))
  {
    match run
    case Output(text) => ToolRecord(name, description, FormatToolOutput(text), text != clean, None)
    case Raised(e) => ToolRecord(name, "Tool execution failed", None, true, Some(e))
  }

  /** The results always hold exactly `flake8` and `black`, in that order. */
  function RunQualityChecks(flake8: ToolRun, black: ToolRun): (r: Dict.Dict<ToolRecord>)
    ensures Dict.Keys(r) == ["flake8", "black"]
    ensures r[0].1.hasIssues <==> !(flake8.Output? && flake8.text == "No style issues found")
    ensures r[1].1.hasIssues <==> !(black.Output? && black.text == "No formatting issues found")
    ensures r[0].1.error.Some? <==> flake8.Raised?
    ensures r[1].1.error.Some? <==> black.Raised?
  {
    [("flake8", ToolResult("Flake8", "Style Guide Enforcement", "No style issues found", flake8)),
     ("black", ToolResult("Black", "Code Formatting", "No formatting issues found", black))]
  }
}
