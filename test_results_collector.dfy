/** Pass/fail counts over a list of test exit codes. */
module TestResultsCollector {
  datatype Summary = Summary(passed: nat, failed: nat, total: nat)

  /** The number of results equal to 0. */
  function CountZero(results: seq<int>): (n: nat)
    ensures n <= |results|
  {
    if |results| == 0 then 0 else (if results[0] == 0 then 1 else 0) + CountZero(results[1..])
  }

  /** The number of results different from 0. */
  function CountNonZero(results: seq<int>): (n: nat)
    ensures n <= |results|
  {
    if |results| == 0 then 0 else (if results[0] != 0 then 1 else 0) + CountNonZero(results[1..])
  }

  /** Every result is counted once, as passed or as failed. */
  lemma {:induction false} CountsPartition(results: seq<int>)
    ensures CountZero(results) + CountNonZero(results) == |results|
  {
    if |results| > 0 {
      CountsPartition(results[1..]);
    }
  }

  /** Passed results are those equal to 0, failed ones the others; the
      two counts add up to the total. */
  function SummarizeResults(results: seq<int>): (s: Summary)
    ensures s.total == |results| && s.passed + s.failed == s.total
    ensures s.passed == |results| <==> forall i :: 0 <= i < |results| ==> results[i] == 0
    ensures |results| == 0 ==> s == Summary(0, 0, 0)
  {
    CountsPartition(results);
    NoFailures(results);
    Summary(CountZero(results), CountNonZero(results), |results|)
  }

  /** Nothing fails exactly when every result is 0. */
  lemma {:induction false} NoFailures(results: seq<int>)
    ensures CountZero(results) == |results| <==> forall i :: 0 <= i < |results| ==> results[i] == 0
  {
    if |results| > 0 {
      NoFailures(results[1..]);
      if CountZero(results) == |results| {
        assert results[0] == 0;
        assert forall i :: 1 <= i < |results| ==> results[i] == results[1..][i - 1];
      }
      if forall i :: 0 <= i < |results| ==> results[i] == 0 {
        assert forall i :: 0 <= i < |results| - 1 ==> results[1..][i] == results[i + 1];
      }
    }
  }
}
