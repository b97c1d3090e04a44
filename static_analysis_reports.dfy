/** The plain-text static analysis report of the first-generation tools. */
module StaticAnalysisReports {
  import opened Text

  const Title: string := "Static Analysis Report\n"
  const Rule: string := Repeat('=', 30) + "\n"

  /** The title line, a rule of 30 `=`, then the quality results verbatim. */
  function GenerateReport(qualityResults: string): (r: string)
    ensures StartsWith(r, "Static Analysis Report\n")
    ensures |r| == 54 + |qualityResults|
    ensures forall i :: 23 <= i < 53 ==> r[i] == '='
    ensures r[53] == '\n'
    ensures r[54..] == qualityResults
  {
    var r := Title + Rule + qualityResults;
    assert r[..23] == Title;
    assert r[54..] == qualityResults;
    r
  }

  /** A report determines the results it was made from. */
  lemma ReportInjective(a: string, b: string)
    requires GenerateReport(a) == GenerateReport(b)
    ensures a == b
  {
    assert a == GenerateReport(a)[54..];
  }
}
