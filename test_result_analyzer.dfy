/** The records of a results file as the feedback generators read them:
    each record is rebuilt from its JSON object by keyword arguments
    (`cls(**data)`), so an object whose keys are not exactly the record's
    fields is refused, and each record can be written back as an object.
    An analysis holds the submission's metadata and its problems, and
    answers the summary queries. Reading and decoding the file are not
    modelled: the decoded value is the input. */
module TestResultAnalysis {
  import opened Wrappers
  import opened Text
  import opened Json
  import Dict

  // ---------------------------------------------------------------------
  // Reading values

  /** `d[key]` on an object's fields: the value of the first entry with
      that key. It is `Dict.Get` (see `LookupIsGet`) without its contract,
      which keeps the proofs about literal records small. */
  function Lookup(d: Dict.Dict<Json>, key: string): Option<Json>
  {
    if |d| == 0 then None else if d[0].0 == key then Some(d[0].1) else Lookup(d[1..], key)
  }

  lemma {:induction false} LookupIsGet(d: Dict.Dict<Json>, key: string)
    ensures Lookup(d, key) == Dict.Get(d, key)
  {
    if |d| > 0 && d[0].0 != key {
      LookupIsGet(d[1..], key);
    }
  }

  /** The value of an entry whose key no earlier entry has. */
  lemma {:induction false} LookupAt(d: Dict.Dict<Json>, i: nat)
    requires i < |d| && forall j :: 0 <= j < i ==> d[j].0 != d[i].0
    ensures Lookup(d, d[i].0) == Some(d[i].1)
  {
    if i > 0 {
      assert d[1..][i - 1] == d[i];
      forall j | 0 <= j < i - 1 ensures d[1..][j].0 != d[1..][i - 1].0 {
        assert d[1..][j] == d[j + 1];
      }
      LookupAt(d[1..], i - 1);
    }
  }

  /** Every entry of an object with distinct keys is found by its key. */
  lemma LookupEach(d: Dict.Dict<Json>)
    requires Dict.UniqueKeys(d)
    ensures forall i :: 0 <= i < |d| ==> Lookup(d, d[i].0) == Some(d[i].1)
  {
    forall i | 0 <= i < |d| ensures Lookup(d, d[i].0) == Some(d[i].1) {
      LookupAt(d, i);
    }
  }

  /** `d[key]` on a decoded value: a `KeyError` for a missing key and a
      `TypeError` for a value that is not an object. */
  function Sub(j: Json, key: string): (r: Result<Json>)
    ensures j.Obj? && Lookup(j.fields, key).Some? ==> r == Ok(Lookup(j.fields, key).value)
    ensures !j.Obj? || Lookup(j.fields, key).None? ==> r.Err?
  {
    if !j.Obj? then Err("TypeError: not a mapping")
    else match Lookup(j.fields, key)
      case None => Err("KeyError: '" + key + "'")
      case Some(v) => Ok(v)
  }

  /** `cls(**data)` accepts the object only when its keys are exactly the
      record's fields. */
  predicate Kwargs(data: Json, fields: seq<string>)
  {
    data.Obj? && multiset(Dict.Keys(data.fields)) == multiset(fields)
  }

  const KwargsError: string := "TypeError: keyword arguments do not match the fields"

  /** A JSON number that is a whole number. */
  function IntOf(j: Json): (r: Option<int>)
    ensures r.Some? <==> j.Num? && j.n == j.n.Floor as real
    ensures r.Some? ==> j == Num(r.value as real)
  {
    if j.Num? && j.n == j.n.Floor as real then Some(j.n.Floor) else None
  }

  function TextOf(j: Json): (r: Option<string>)
    ensures r.Some? <==> j.Str?
    ensures r.Some? ==> j == Str(r.value)
  {
    if j.Str? then Some(j.s) else None
  }

  /** A text or `None`. */
  function OptTextOf(j: Json): (r: Option<Option<string>>)
    ensures r.Some? <==> j.Str? || j.Null?
    ensures r == Some(None) <==> j.Null?
  {
    if j.Str? then Some(Some(j.s)) else if j.Null? then Some(None) else None
  }

  function OptText(t: Option<string>): (j: Json)
    ensures OptTextOf(j) == Some(t)
  {
    if t.Some? then Str(t.value) else Null
  }

  /** A list of texts. */
  function TextsOf(items: seq<Json>): (r: Option<seq<string>>)
    ensures r.Some? ==> |r.value| == |items| && forall i :: 0 <= i < |items| ==> items[i] == Str(r.value[i])
  {
    if |items| == 0 then Some([])
    else if !items[0].Str? then None
    else match TextsOf(items[1..])
      case None => None
      case Some(rest) => Some([items[0].s] + rest)
  }

  function Texts(ts: seq<string>): (items: seq<Json>)
    ensures |items| == |ts| && forall i :: 0 <= i < |ts| ==> items[i] == Str(ts[i])
  {
    if |ts| == 0 then [] else [Str(ts[0])] + Texts(ts[1..])
  }

  lemma {:induction false} TextsRoundTrip(ts: seq<string>)
    ensures TextsOf(Texts(ts)) == Some(ts)
  {
    if |ts| > 0 {
      var items := Texts(ts);
      assert items[1..] == Texts(ts[1..]);
      TextsRoundTrip(ts[1..]);
      assert TextsOf(items) == Some([ts[0]] + ts[1..]);
      assert [ts[0]] + ts[1..] == ts;
    }
  }

  /** Typed reads of one field; `None` when the field is absent or of
      another type. */
  function StrField(d: Dict.Dict<Json>, key: string): (r: Option<string>)
    ensures r.Some? <==> Lookup(d, key).Some? && Lookup(d, key).value.Str?
    ensures r.Some? ==> Lookup(d, key) == Some(Str(r.value))
  {
    var v := Lookup(d, key);
    if v.Some? && v.value.Str? then Some(v.value.s) else None
  }

  function BoolField(d: Dict.Dict<Json>, key: string): (r: Option<bool>)
    ensures r.Some? <==> Lookup(d, key).Some? && Lookup(d, key).value.Bool?
    ensures r.Some? ==> Lookup(d, key) == Some(Bool(r.value))
  {
    var v := Lookup(d, key);
    if v.Some? && v.value.Bool? then Some(v.value.b) else None
  }

  function IntField(d: Dict.Dict<Json>, key: string): (r: Option<int>)
    ensures r.Some? ==> Lookup(d, key) == Some(Num(r.value as real))
  {
    var v := Lookup(d, key);
    if v.Some? then IntOf(v.value) else None
  }

  function OptTextField(d: Dict.Dict<Json>, key: string): (r: Option<Option<string>>)
    ensures r.Some? ==> Lookup(d, key) == Some(OptText(r.value))
  {
    var v := Lookup(d, key);
    if v.Some? then OptTextOf(v.value) else None
  }

  // ---------------------------------------------------------------------
  // TestSummary

  datatype TestSummary = TestSummary(
    passed: bool, exitCode: string, totalTests: int, passedTests: int, failedTests: int, successRate: real)

  const SummaryFields: seq<string> :=
    ["passed", "exit_code", "total_tests", "passed_tests", "failed_tests", "success_rate"]

  /** The success rate `passed / total * 100`. */
  function Rate(passed: int, total: int): real
    requires total != 0
  {
    passed as real / total as real * 100.0
  }

  function SummaryToDict(s: TestSummary): (j: Json)
    ensures j.Obj?
  {
    Obj([("passed", Bool(s.passed)), ("exit_code", Str(s.exitCode)), ("total_tests", Num(s.totalTests as real)),
         ("passed_tests", Num(s.passedTests as real)), ("failed_tests", Num(s.failedTests as real)),
         ("success_rate", Num(s.successRate))])
  }

  /** The keys of the copy once `success_rate` is set: the object's keys,
      with `success_rate` added at the end when it was not there. */
  function CopyKeys(data: Dict.Dict<Json>): seq<string>
  {
    Dict.Keys(data) + if Lookup(data, "success_rate").Some? then [] else ["success_rate"]
  }

  /** The summary from a copy of the object whose `success_rate` is
      recomputed from the counts; an absent count, a total of zero or keys
      that are not the fields are errors. */
  function SummaryFromDict(data: Json): (r: Result<TestSummary>)
    ensures r.Ok? ==>
      r.value.totalTests != 0 && r.value.successRate == Rate(r.value.passedTests, r.value.totalTests)
    ensures r.Ok? ==>
      data.Obj? && multiset(CopyKeys(data.fields)) == multiset(SummaryFields)
    ensures Sub(data, "total_tests").Ok? && Sub(data, "total_tests").value == Num(0.0) ==> r.Err?
  {
    if !data.Obj? then Err("AttributeError: 'copy'")
    else match (Sub(data, "passed_tests"), Sub(data, "total_tests"))
      case (Err(e), _) => Err(e)
      case (_, Err(e)) => Err(e)
      case (Ok(p), Ok(t)) =>
        match (IntOf(p), IntOf(t))
        case (None, _) => Err("TypeError: counts must be numbers")
        case (_, None) => Err("TypeError: counts must be numbers")
        case (Some(passed), Some(total)) =>
          if total == 0 then Err("ZeroDivisionError: division by zero")
          else if multiset(CopyKeys(data.fields)) != multiset(SummaryFields) then Err(KwargsError)
          else
            var b := BoolField(data.fields, "passed");
            var code := StrField(data.fields, "exit_code");
            var failed := IntField(data.fields, "failed_tests");
            if b.Some? && code.Some? && failed.Some? then
              Ok(TestSummary(b.value, code.value, total, passed, failed.value, Rate(passed, total)))
            else Err("TypeError: fields of the wrong type")
  }

  /** A summary is read back as it was written exactly when its total is
      not zero and its rate is the one its counts give. */
  /** What the written object holds: the fields in order, each read back
      as written. */
  lemma SummaryWritten(s: TestSummary)
    ensures CopyKeys(SummaryToDict(s).fields) == SummaryFields
    ensures var j := SummaryToDict(s);
      Sub(j, "passed_tests") == Ok(Num(s.passedTests as real)) &&
      Sub(j, "total_tests") == Ok(Num(s.totalTests as real)) &&
      BoolField(j.fields, "passed") == Some(s.passed) && StrField(j.fields, "exit_code") == Some(s.exitCode) &&
      IntField(j.fields, "failed_tests") == Some(s.failedTests)
  {
    var d := SummaryToDict(s).fields;
    assert Dict.Keys(d) == SummaryFields;
    SummaryLookups(d);
    IntOfWhole(s.failedTests);
  }

  lemma SummaryLookups(d: Dict.Dict<Json>)
    requires Dict.Keys(d) == SummaryFields
    ensures Lookup(d, "passed") == Some(d[0].1) && Lookup(d, "exit_code") == Some(d[1].1)
    ensures Lookup(d, "total_tests") == Some(d[2].1) && Lookup(d, "passed_tests") == Some(d[3].1)
    ensures Lookup(d, "failed_tests") == Some(d[4].1) && Lookup(d, "success_rate") == Some(d[5].1)
  {
    assert d[0].0 == "passed" && d[1].0 == "exit_code" && d[2].0 == "total_tests";
    assert d[3].0 == "passed_tests" && d[4].0 == "failed_tests" && d[5].0 == "success_rate";
    LookupAt(d, 0);
    LookupAt(d, 1);
    LookupAt(d, 2);
    LookupAt(d, 3);
    LookupAt(d, 4);
    LookupAt(d, 5);
  }

  /** A summary is read back as it was written exactly when its total is
      not zero and its rate is the one its counts give. */
  lemma SummaryRoundTrip(s: TestSummary)
    ensures SummaryFromDict(SummaryToDict(s)) == Ok(s) <==>
      s.totalTests != 0 && s.successRate == Rate(s.passedTests, s.totalTests)
  {
    SummaryWritten(s);
    IntOfWhole(s.totalTests);
    IntOfWhole(s.passedTests);
  }

  lemma IntOfWhole(n: int)
    ensures IntOf(Num(n as real)) == Some(n)
  {
  }

  // ---------------------------------------------------------------------
  // TestDetails

  datatype TestDetails = TestDetails(testCases: seq<string>, fullOutput: string)

  const DetailsFields: seq<string> := ["test_cases", "full_output"]

  function DetailsToDict(d: TestDetails): (j: Json)
    ensures j.Obj?
  {
    Obj([("test_cases", Arr(Texts(d.testCases))), ("full_output", Str(d.fullOutput))])
  }

  function DetailsFromDict(data: Json): (r: Result<TestDetails>)
    ensures r.Ok? ==> Kwargs(data, DetailsFields)
  {
    if !Kwargs(data, DetailsFields) then Err(KwargsError)
    else
      var cases := Lookup(data.fields, "test_cases");
      var out := StrField(data.fields, "full_output");
      if cases.Some? && cases.value.Arr? && TextsOf(cases.value.items).Some? && out.Some? then
        Ok(TestDetails(TextsOf(cases.value.items).value, out.value))
      else Err("TypeError: fields of the wrong type")
  }

  lemma DetailsWritten(d: TestDetails)
    ensures Dict.Keys(DetailsToDict(d).fields) == DetailsFields
    ensures var f := DetailsToDict(d).fields;
      Lookup(f, "test_cases") == Some(Arr(Texts(d.testCases))) && StrField(f, "full_output") == Some(d.fullOutput)
  {
    var f := DetailsToDict(d).fields;
    assert Dict.Keys(f) == DetailsFields;
    LookupEach(f);
    assert Lookup(f, "test_cases") == Some(f[0].1) && Lookup(f, "full_output") == Some(f[1].1);
  }

  lemma DetailsRoundTrip(d: TestDetails)
    ensures DetailsFromDict(DetailsToDict(d)) == Ok(d)
  {
    DetailsWritten(d);
    TextsRoundTrip(d.testCases);
  }

  // ---------------------------------------------------------------------
  // CodeQualityToolResult

  datatype ToolResult = ToolResult(
    name: string, description: string, output: Option<string>, hasIssues: bool, warning: Option<string>)

  const ToolFields: seq<string> := ["name", "description", "output", "has_issues", "warning"]

  function ToolToDict(t: ToolResult): (j: Json)
    ensures j.Obj?
  {
    Obj([("name", Str(t.name)), ("description", Str(t.description)), ("output", OptText(t.output)),
         ("has_issues", Bool(t.hasIssues)), ("warning", OptText(t.warning))])
  }

  function ToolFromDict(data: Json): (r: Result<ToolResult>)
    ensures r.Ok? ==> Kwargs(data, ToolFields)
  {
    if !Kwargs(data, ToolFields) then Err(KwargsError)
    else
      var n := StrField(data.fields, "name");
      var desc := StrField(data.fields, "description");
      var out := OptTextField(data.fields, "output");
      var issues := BoolField(data.fields, "has_issues");
      var w := OptTextField(data.fields, "warning");
      if n.Some? && desc.Some? && out.Some? && issues.Some? && w.Some? then
        Ok(ToolResult(n.value, desc.value, out.value, issues.value, w.value))
      else Err("TypeError: fields of the wrong type")
  }

  lemma ToolWritten(t: ToolResult)
    ensures Dict.Keys(ToolToDict(t).fields) == ToolFields
    ensures var f := ToolToDict(t).fields;
      StrField(f, "name") == Some(t.name) && StrField(f, "description") == Some(t.description) &&
      OptTextField(f, "output") == Some(t.output) && BoolField(f, "has_issues") == Some(t.hasIssues) &&
      OptTextField(f, "warning") == Some(t.warning)
  {
    var f := ToolToDict(t).fields;
    assert Dict.Keys(f) == ToolFields;
    ToolLookups(f);
  }

  lemma ToolLookups(d: Dict.Dict<Json>)
    requires Dict.Keys(d) == ToolFields
    ensures Lookup(d, "name") == Some(d[0].1) && Lookup(d, "description") == Some(d[1].1)
    ensures Lookup(d, "output") == Some(d[2].1) && Lookup(d, "has_issues") == Some(d[3].1)
    ensures Lookup(d, "warning") == Some(d[4].1)
  {
    assert d[0].0 == "name" && d[1].0 == "description" && d[2].0 == "output";
    assert d[3].0 == "has_issues" && d[4].0 == "warning";
    LookupAt(d, 0);
    LookupAt(d, 1);
    LookupAt(d, 2);
    LookupAt(d, 3);
    LookupAt(d, 4);
  }

  lemma ToolRoundTrip(t: ToolResult)
    ensures ToolFromDict(ToolToDict(t)) == Ok(t)
  {
    ToolWritten(t);
  }

  // ---------------------------------------------------------------------
  // Records by name

  /** `{k: decode(v) for k, v in d.items()}`: the first record that cannot
      be read is the error. */
  function DecodeAll<T>(d: Dict.Dict<Json>, decode: Json -> Result<T>): (r: Result<Dict.Dict<T>>)
    ensures r.Ok? ==> Dict.Keys(r.value) == Dict.Keys(d)
    ensures r.Ok? ==> forall i :: 0 <= i < |d| ==> decode(d[i].1) == Ok(r.value[i].1)
  {
    if |d| == 0 then Ok([])
    else
      var first := decode(d[0].1);
      var rest := DecodeAll(d[1..], decode);
      if first.Err? then Err(first.error)
      else if rest.Err? then Err(rest.error)
      else
        var r := [(d[0].0, first.value)] + rest.value;
        assert forall i :: 1 <= i < |d| ==> r[i] == rest.value[i - 1] && d[i] == d[1..][i - 1];
        Ok(r)
  }

  /** `{k: v.to_dict() for k, v in d.items()}`. */
  function EncodeAll<T>(d: Dict.Dict<T>, encode: T -> Json): (r: Dict.Dict<Json>)
    ensures Dict.Keys(r) == Dict.Keys(d)
    ensures forall i :: 0 <= i < |d| ==> r[i].1 == encode(d[i].1)
  {
    if |d| == 0 then [] else [(d[0].0, encode(d[0].1))] + EncodeAll(d[1..], encode)
  }

  /** Records that are each read back as written are read back as written
      together, under the same names and in the same order. */
  lemma {:induction false} DecodeEncodeAll<T>(d: Dict.Dict<T>, encode: T -> Json, decode: Json -> Result<T>)
    requires forall i :: 0 <= i < |d| ==> decode(encode(d[i].1)) == Ok(d[i].1)
    ensures DecodeAll(EncodeAll(d, encode), decode) == Ok(d)
  {
    if |d| > 0 {
      var e := EncodeAll(d, encode);
      assert e[0] == (d[0].0, encode(d[0].1));
      assert e[1..] == EncodeAll(d[1..], encode);
      assert forall i :: 0 <= i < |d[1..]| ==> d[1..][i] == d[i + 1];
      DecodeEncodeAll(d[1..], encode, decode);
      assert decode(e[0].1) == Ok(d[0].1);
      assert DecodeAll(e[1..], decode) == Ok(d[1..]);
      assert DecodeAll(e, decode) == Ok([(d[0].0, d[0].1)] + d[1..]);
      assert d == [(d[0].0, d[0].1)] + d[1..];
    }
  }

  lemma ToolsRoundTrip(tools: Dict.Dict<ToolResult>)
    ensures DecodeAll(EncodeAll(tools, ToolToDict), ToolFromDict) == Ok(tools)
  {
    forall i | 0 <= i < |tools| ensures ToolFromDict(ToolToDict(tools[i].1)) == Ok(tools[i].1) {
      ToolRoundTrip(tools[i].1);
    }
    DecodeEncodeAll(tools, ToolToDict, ToolFromDict);
  }

  // ---------------------------------------------------------------------
  // SubmissionMetadata

  datatype Metadata = Metadata(studentName: string, studentId: string, labNumber: string, timestamp: string)

  const MetadataFields: seq<string> := ["student_name", "student_id", "lab_number", "timestamp"]

  function MetadataToDict(m: Metadata): (j: Json)
    ensures j.Obj?
  {
    Obj([("student_name", Str(m.studentName)), ("student_id", Str(m.studentId)),
         ("lab_number", Str(m.labNumber)), ("timestamp", Str(m.timestamp))])
  }

  function MetadataFromDict(data: Json): (r: Result<Metadata>)
    ensures r.Ok? ==> Kwargs(data, MetadataFields)
  {
    if !Kwargs(data, MetadataFields) then Err(KwargsError)
    else
      var n := StrField(data.fields, "student_name");
      var id := StrField(data.fields, "student_id");
      var lab := StrField(data.fields, "lab_number");
      var t := StrField(data.fields, "timestamp");
      if n.Some? && id.Some? && lab.Some? && t.Some? then Ok(Metadata(n.value, id.value, lab.value, t.value))
      else Err("TypeError: fields of the wrong type")
  }

  /** What the written object holds: the fields in order, each read back
      as written. */
  lemma MetadataWritten(m: Metadata)
    ensures Dict.Keys(MetadataToDict(m).fields) == MetadataFields
    ensures var f := MetadataToDict(m).fields;
      StrField(f, "student_name") == Some(m.studentName) && StrField(f, "student_id") == Some(m.studentId) &&
      StrField(f, "lab_number") == Some(m.labNumber) && StrField(f, "timestamp") == Some(m.timestamp)
  {
    var f := MetadataToDict(m).fields;
    assert Dict.Keys(f) == MetadataFields;
    LookupEach(f);
    assert Lookup(f, "student_name") == Some(f[0].1) && Lookup(f, "student_id") == Some(f[1].1);
    assert Lookup(f, "lab_number") == Some(f[2].1) && Lookup(f, "timestamp") == Some(f[3].1);
  }

  lemma MetadataRoundTrip(m: Metadata)
    ensures MetadataFromDict(MetadataToDict(m)) == Ok(m)
  {
    MetadataWritten(m);
  }

  // ---------------------------------------------------------------------
  // CodeQualitySummary

  datatype CodeQuality = CodeQuality(hasQualityIssues: bool, toolsRun: seq<string>, toolResults: Dict.Dict<ToolResult>)

  /** `data[k1][k2]`: a missing key or a non-object on the way is the
      error. */
  function Sub2(j: Json, k1: string, k2: string): Result<Json>
  {
    var next := Sub(j, k1);
    if next.Err? then next else Sub(next.value, k2)
  }

  /** The summary part only: the flag and the tool names; the tool results
      are left empty for the problem record to fill in. */
  function QualityFromDict(data: Json): (r: Result<CodeQuality>)
    ensures r.Ok? ==> r.value.toolResults == []
    ensures r.Ok? ==> Sub(data, "has_quality_issues") == Ok(Bool(r.value.hasQualityIssues))
  {
    var issues := Sub(data, "has_quality_issues");
    var run := Sub(data, "tools_run");
    if issues.Err? then Err(issues.error)
    else if run.Err? then Err(run.error)
    else if issues.value.Bool? && run.value.Arr? && TextsOf(run.value.items).Some? then
      Ok(CodeQuality(issues.value.b, TextsOf(run.value.items).value, []))
    else Err("TypeError: fields of the wrong type")
  }

  function QualityToDict(q: CodeQuality): (j: Json)
    ensures j.Obj?
  {
    Obj([("has_quality_issues", Bool(q.hasQualityIssues)), ("tools_run", Arr(Texts(q.toolsRun))),
         ("tool_results", Obj(EncodeAll(q.toolResults, ToolToDict)))])
  }

  /** Reading the summary back keeps the flag and the tool names and drops
      the tool results. */
  lemma QualityRoundTrip(q: CodeQuality)
    ensures QualityFromDict(QualityToDict(q)) == Ok(q.(toolResults := []))
  {
    var f := QualityToDict(q).fields;
    assert f[0].0 == "has_quality_issues" && f[1].0 == "tools_run";
    LookupAt(f, 0);
    LookupAt(f, 1);
    TextsRoundTrip(q.toolsRun);
  }

  // ---------------------------------------------------------------------
  // ProblemResult

  datatype ProblemResult = ProblemResult(
    solutionPath: string, summary: TestSummary, details: TestDetails, quality: CodeQuality)

  /** The summary's rate is the one its counts give. */
  predicate Consistent(s: TestSummary)
  {
    s.totalTests != 0 && s.successRate == Rate(s.passedTests, s.totalTests)
  }

  /** The problem from `code_quality.summary`, `code_quality.tool_results`,
      `solution_path`, `test_results.summary` and `test_results.details`,
      read in that order. */
  function ProblemFromDict(data: Json): (r: Result<ProblemResult>)
    ensures r.Ok? ==> Consistent(r.value.summary)
    ensures r.Ok? ==> Sub2(data, "code_quality", "tool_results").Ok?
  {
    var qs := Sub2(data, "code_quality", "summary");
    if qs.Err? then Err(qs.error) else
    var q := QualityFromDict(qs.value);
    if q.Err? then Err(q.error) else
    var tr := Sub2(data, "code_quality", "tool_results");
    if tr.Err? then Err(tr.error) else
    if !tr.value.Obj? then Err("AttributeError: 'items'") else
    var tools := DecodeAll(tr.value.fields, ToolFromDict);
    if tools.Err? then Err(tools.error) else
    var path := Sub(data, "solution_path");
    if path.Err? then Err(path.error) else
    if !path.value.Str? then Err("TypeError: fields of the wrong type") else
    var ts := Sub2(data, "test_results", "summary");
    if ts.Err? then Err(ts.error) else
    var summary := SummaryFromDict(ts.value);
    if summary.Err? then Err(summary.error) else
    var td := Sub2(data, "test_results", "details");
    if td.Err? then Err(td.error) else
    var details := DetailsFromDict(td.value);
    if details.Err? then Err(details.error) else
    Ok(ProblemResult(path.value.s, summary.value, details.value, q.value.(toolResults := tools.value)))
  }

  /** `ProblemResult.to_dict` as written: the tool results go inside
      `code_quality.summary`, and no `code_quality.tool_results` is
      written. */
  function ProblemToDictAsWritten(p: ProblemResult): (j: Json)
    ensures j.Obj?
  {
    Obj([("solution_path", Str(p.solutionPath)),
         ("test_results", Obj([("summary", SummaryToDict(p.summary)), ("details", DetailsToDict(p.details))])),
         ("code_quality", Obj([("summary", QualityToDict(p.quality))]))])
  }

  /** No problem written by `to_dict` as written can be read back: reading
      it always stops at the missing `code_quality.tool_results`. */
  lemma ProblemAsWrittenUnreadable(p: ProblemResult)
    ensures ProblemFromDict(ProblemToDictAsWritten(p)) == Err("KeyError: 'tool_results'")
  {
    var d := ProblemToDictAsWritten(p);
    var f := d.fields;
    assert f[0].0 == "solution_path" && f[1].0 == "test_results" && f[2].0 == "code_quality";
    LookupAt(f, 2);
    var cq := f[2].1;
    assert Sub(d, "code_quality") == Ok(cq);
    assert cq.fields[0].0 == "summary";
    LookupAt(cq.fields, 0);
    assert Sub2(d, "code_quality", "summary") == Ok(QualityToDict(p.quality));
    QualityRoundTrip(p.quality);
    assert Lookup(cq.fields, "tool_results") == None by {
      assert cq.fields[1..] == [];
    }
    assert Sub2(d, "code_quality", "tool_results") == Err("KeyError: 'tool_results'");
  }

  /** The intended layout, the one the test runner writes: the tool
      results beside the summary in `code_quality`. */
  function ProblemToDict(p: ProblemResult): (j: Json)
    ensures j.Obj?
  {
    Obj([("solution_path", Str(p.solutionPath)),
         ("test_results", Obj([("summary", SummaryToDict(p.summary)), ("details", DetailsToDict(p.details))])),
         ("code_quality", Obj([("summary", QualityToDict(p.quality)),
                               ("tool_results", Obj(EncodeAll(p.quality.toolResults, ToolToDict)))]))])
  }

  lemma ProblemLookups(p: ProblemResult)
    ensures Sub2(ProblemToDict(p), "code_quality", "summary") == Ok(QualityToDict(p.quality))
    ensures Sub2(ProblemToDict(p), "code_quality", "tool_results") ==
      Ok(Obj(EncodeAll(p.quality.toolResults, ToolToDict)))
    ensures Sub(ProblemToDict(p), "solution_path") == Ok(Str(p.solutionPath))
    ensures Sub2(ProblemToDict(p), "test_results", "summary") == Ok(SummaryToDict(p.summary))
    ensures Sub2(ProblemToDict(p), "test_results", "details") == Ok(DetailsToDict(p.details))
  {
    var f := ProblemToDict(p).fields;
    assert f[0].0 == "solution_path" && f[1].0 == "test_results" && f[2].0 == "code_quality";
    LookupAt(f, 0);
    LookupAt(f, 1);
    LookupAt(f, 2);
    var tr := f[1].1.fields;
    assert tr[0].0 == "summary" && tr[1].0 == "details";
    LookupAt(tr, 0);
    LookupAt(tr, 1);
    var cq := f[2].1.fields;
    assert cq[0].0 == "summary" && cq[1].0 == "tool_results";
    LookupAt(cq, 0);
    LookupAt(cq, 1);
  }

  /** With the intended layout a problem is read back as it was written
      exactly when its summary's rate is the one its counts give. */
  lemma ProblemRoundTrip(p: ProblemResult)
    ensures ProblemFromDict(ProblemToDict(p)) == Ok(p) <==> Consistent(p.summary)
  {
    ProblemLookups(p);
    QualityRoundTrip(p.quality);
    ToolsRoundTrip(p.quality.toolResults);
    SummaryRoundTrip(p.summary);
    DetailsRoundTrip(p.details);
  }

  // ---------------------------------------------------------------------
  // The analyzer

  /** The loaded results file: the submission's metadata and the problems
      by problem number. */
  datatype Analysis = Analysis(metadata: Metadata, problems: Dict.Dict<ProblemResult>)

  /** `_load_results` on the decoded file. */
  function Load(data: Json): (r: Result<Analysis>)
    ensures r.Ok? ==>
      Sub(data, "problems").Ok? && Sub(data, "problems").value.Obj? &&
      Dict.Keys(r.value.problems) == Dict.Keys(Sub(data, "problems").value.fields)
    ensures r.Ok? ==> forall i :: 0 <= i < |r.value.problems| ==> Consistent(r.value.problems[i].1.summary)
  {
    var m := Sub(data, "metadata");
    if m.Err? then Err(m.error) else
    var metadata := MetadataFromDict(m.value);
    if metadata.Err? then Err(metadata.error) else
    var ps := Sub(data, "problems");
    if ps.Err? then Err(ps.error) else
    if !ps.value.Obj? then Err("AttributeError: 'items'") else
    var problems := DecodeAll(ps.value.fields, ProblemFromDict);
    if problems.Err? then Err(problems.error) else
    Ok(Analysis(metadata.value, problems.value))
  }

  /** A results file laid out as intended loads back to the analysis it
      was written from, provided every summary's rate is the one its
      counts give. */
  lemma LoadRoundTrip(a: Analysis)
    requires forall i :: 0 <= i < |a.problems| ==> Consistent(a.problems[i].1.summary)
    ensures Load(Obj([("metadata", MetadataToDict(a.metadata)),
                      ("problems", Obj(EncodeAll(a.problems, ProblemToDict)))])) == Ok(a)
  {
    LoadLookups(MetadataToDict(a.metadata), Obj(EncodeAll(a.problems, ProblemToDict)));
    MetadataRoundTrip(a.metadata);
    forall i | 0 <= i < |a.problems| ensures ProblemFromDict(ProblemToDict(a.problems[i].1)) == Ok(a.problems[i].1) {
      ProblemRoundTrip(a.problems[i].1);
    }
    DecodeEncodeAll(a.problems, ProblemToDict, ProblemFromDict);
  }

  lemma LoadLookups(metadata: Json, problems: Json)
    ensures var data := Obj([("metadata", metadata), ("problems", problems)]);
      Sub(data, "metadata") == Ok(metadata) && Sub(data, "problems") == Ok(problems)
  {
    var f := [("metadata", metadata), ("problems", problems)];
    assert f[0].0 == "metadata" && f[1].0 == "problems";
    LookupAt(f, 0);
    LookupAt(f, 1);
  }

  /** Passed and run tests summed over the problems. */
  function TotalPassed(ps: Dict.Dict<ProblemResult>): int
  {
    if |ps| == 0 then 0 else TotalPassed(ps[..|ps| - 1]) + ps[|ps| - 1].1.summary.passedTests
  }

  function TotalTests(ps: Dict.Dict<ProblemResult>): int
  {
    if |ps| == 0 then 0 else TotalTests(ps[..|ps| - 1]) + ps[|ps| - 1].1.summary.totalTests
  }

  /** The overall success rate: passed over run tests across all problems,
      and `0.0` when no test was run. */
  function OverallRate(ps: Dict.Dict<ProblemResult>): real
  {
    if TotalTests(ps) > 0 then Rate(TotalPassed(ps), TotalTests(ps)) else 0.0
  }

  /** Counts where no problem passes more tests than it ran. */
  predicate CountsSane(ps: Dict.Dict<ProblemResult>)
  {
    forall i :: 0 <= i < |ps| ==> 0 <= ps[i].1.summary.passedTests <= ps[i].1.summary.totalTests
  }

  lemma {:induction false} TotalsBounded(ps: Dict.Dict<ProblemResult>)
    requires CountsSane(ps)
    ensures 0 <= TotalPassed(ps) <= TotalTests(ps)
  {
    if |ps| > 0 {
      var init := ps[..|ps| - 1];
      assert CountsSane(init) by {
        forall i | 0 <= i < |init| ensures 0 <= init[i].1.summary.passedTests <= init[i].1.summary.totalTests {
          assert init[i] == ps[i];
        }
      }
      TotalsBounded(init);
    }
  }

  /** With sane counts the overall rate is a percentage. */
  lemma OverallRateBounded(ps: Dict.Dict<ProblemResult>)
    requires CountsSane(ps)
    ensures 0.0 <= OverallRate(ps) <= 100.0
  {
    TotalsBounded(ps);
    if TotalTests(ps) > 0 {
      var p := TotalPassed(ps) as real;
      var t := TotalTests(ps) as real;
      assert 0.0 <= p / t <= 1.0 by {
        assert p <= t;
      }
    }
  }

  /** `get_overall_success_rate`. */
  method OverallSuccessRate(a: Analysis) returns (rate: real)
    ensures rate == OverallRate(a.problems)
  {
    var ps := a.problems;
    var totalPassed := 0;
    var totalTests := 0;
    for i := 0 to |ps|
      invariant totalPassed == TotalPassed(ps[..i]) && totalTests == TotalTests(ps[..i])
    {
      assert ps[..i + 1][..i] == ps[..i];
      var summary := ps[i].1.summary;
      totalPassed := totalPassed + summary.passedTests;
      totalTests := totalTests + summary.totalTests;
    }
    assert ps[..|ps|] == ps;
    rate := if totalTests > 0 then Rate(totalPassed, totalTests) else 0.0;
  }

  /** Issue counts by name; the order in which names were added is not
      kept. */
  type Counts = map<string, int>

  /** `counts.get(key)`. */
  function Entry(counts: Counts, key: string): Option<int>
  {
    if key in counts then Some(counts[key]) else None
  }

  /** `counts.get(key, 0)`. */
  function CountOf(counts: Counts, key: string): int
  {
    if key in counts then counts[key] else 0
  }

  /** One more for `key`. */
  function Bump(counts: Counts, key: string): Counts
  {
    counts[key := CountOf(counts, key) + 1]
  }

  /** The tools of one problem counted in, in order: one more for each tool
      that found issues. */
  function ToolTally(counts: Counts, tools: Dict.Dict<ToolResult>): Counts
  {
    if |tools| == 0 then counts
    else
      var before := ToolTally(counts, tools[..|tools| - 1]);
      var last := tools[|tools| - 1];
      if last.1.hasIssues then Bump(before, last.0) else before
  }

  /** The issue counts after the given problems: `{'total': 0}`, then for
      each problem with quality issues one more `total` and its tools. */
  function IssueCounts(ps: Dict.Dict<ProblemResult>): Counts
  {
    if |ps| == 0 then map["total" := 0]
    else
      var before := IssueCounts(ps[..|ps| - 1]);
      var q := ps[|ps| - 1].1.quality;
      if q.hasQualityIssues then ToolTally(Bump(before, "total"), q.toolResults) else before
  }

  /** `get_code_quality_summary`. */
  method CodeQualityCounts(a: Analysis) returns (counts: Counts)
    ensures counts == IssueCounts(a.problems)
  {
    var ps := a.problems;
    counts := map["total" := 0];
    for i := 0 to |ps|
      invariant counts == IssueCounts(ps[..i])
    {
      assert ps[..i + 1][..i] == ps[..i];
      var quality := ps[i].1.quality;
      if quality.hasQualityIssues {
        counts := Bump(counts, "total");
        var tools := quality.toolResults;
        ghost var start := counts;
        for j := 0 to |tools|
          invariant counts == ToolTally(start, tools[..j])
        {
          assert tools[..j + 1][..j] == tools[..j];
          if tools[j].1.hasIssues {
            counts := Bump(counts, tools[j].0);
          }
        }
        assert tools[..|tools|] == tools;
      }
    }
    assert ps[..|ps|] == ps;
  }

  /** Entries for `key` among the tools that found issues. */
  function IssueEntries(tools: Dict.Dict<ToolResult>, key: string): nat
  {
    if |tools| == 0 then 0
    else IssueEntries(tools[..|tools| - 1], key) + if tools[|tools| - 1].0 == key && tools[|tools| - 1].1.hasIssues then 1 else 0
  }

  /** Problems with quality issues. */
  function QualityProblems(ps: Dict.Dict<ProblemResult>): nat
  {
    if |ps| == 0 then 0
    else QualityProblems(ps[..|ps| - 1]) + if ps[|ps| - 1].1.quality.hasQualityIssues then 1 else 0
  }

  /** Tools called `key` that found issues, over the problems with quality
      issues. */
  function ToolIssues(ps: Dict.Dict<ProblemResult>, key: string): nat
  {
    if |ps| == 0 then 0
    else
      var q := ps[|ps| - 1].1.quality;
      ToolIssues(ps[..|ps| - 1], key) + if q.hasQualityIssues then IssueEntries(q.toolResults, key) else 0
  }

  /** `n` more on a count that may be absent. */
  function Added(v: Option<int>, n: nat): Option<int>
  {
    if n == 0 then v else Some((if v.Some? then v.value else 0) + n)
  }

  /** One more on top of `n` more. */
  lemma AddedOne(v: Option<int>, n: nat)
    ensures Added(v, n + 1) == Some((if Added(v, n).Some? then Added(v, n).value else 0) + 1)
  {
  }

  lemma {:induction false} ToolTallyCounts(counts: Counts, tools: Dict.Dict<ToolResult>, key: string)
    ensures Entry(ToolTally(counts, tools), key) == Added(Entry(counts, key), IssueEntries(tools, key))
  {
    if |tools| > 0 {
      var init := tools[..|tools| - 1];
      ToolTallyCounts(counts, init, key);
      if tools[|tools| - 1].0 == key && tools[|tools| - 1].1.hasIssues {
        AddedOne(Entry(counts, key), IssueEntries(init, key));
      }
    }
  }

  /** What the issue counts hold: under `total`, the problems with quality
      issues plus any tool itself called `total`; under any other name,
      the tools of that name that found issues, and no entry when there
      were none. */
  lemma {:induction false} IssueCountsMeaning(ps: Dict.Dict<ProblemResult>, key: string)
    ensures Entry(IssueCounts(ps), key) ==
      if key == "total" then Some(QualityProblems(ps) + ToolIssues(ps, "total"))
      else Added(None, ToolIssues(ps, key))
  {
    if |ps| > 0 {
      var init := ps[..|ps| - 1];
      IssueCountsMeaning(init, key);
      var q := ps[|ps| - 1].1.quality;
      if q.hasQualityIssues {
        ToolTallyCounts(Bump(IssueCounts(init), "total"), q.toolResults, key);
        if key == "total" {
          AddedOne(Entry(IssueCounts(init), key), 0);
        }
      }
    }
  }

  /** The answer to `get_problem_analysis`. */
  datatype ProblemView = ProblemView(
    successRate: real, passedAllTests: bool, testCases: seq<string>, hasQualityIssues: bool,
    qualityTools: Dict.Dict<Option<string>>)

  function NotFound(problemId: string): string
  {
    "ValueError: Problem " + problemId + " not found in results"
  }

  /** The output of every tool that found issues, under the tool's name,
      in order. */
  function IssueOutputs(tools: Dict.Dict<ToolResult>): (r: Dict.Dict<Option<string>>)
    ensures |r| <= |tools|
  {
    if |tools| == 0 then []
    else if tools[0].1.hasIssues then [(tools[0].0, tools[0].1.output)] + IssueOutputs(tools[1..])
    else IssueOutputs(tools[1..])
  }

  /** A tool's output is listed exactly when the tool found issues. */
  lemma {:induction false} IssueOutputsGet(tools: Dict.Dict<ToolResult>, key: string)
    requires Dict.UniqueKeys(tools)
    ensures Dict.Get(IssueOutputs(tools), key) ==
      if Dict.Get(tools, key).Some? && Dict.Get(tools, key).value.hasIssues then Some(Dict.Get(tools, key).value.output)
      else None
  {
    if |tools| > 0 {
      var rest := tools[1..];
      assert Dict.UniqueKeys(rest) by {
        forall i, j | 0 <= i < j < |rest| ensures rest[i].0 != rest[j].0 {
          assert rest[i] == tools[i + 1] && rest[j] == tools[j + 1];
        }
      }
      IssueOutputsGet(rest, key);
      if tools[0].0 == key {
        assert !Dict.HasKey(rest, key) by {
          forall i | 0 <= i < |rest| ensures rest[i].0 != key {
            assert rest[i] == tools[i + 1];
          }
        }
        assert Dict.Get(rest, key).None?;
      }
    }
  }

  /** `get_problem_analysis`: an error for an unknown problem. */
  function ProblemAnalysis(a: Analysis, problemId: string): (r: Result<ProblemView>)
    ensures r.Err? <==> !Dict.HasKey(a.problems, problemId)
    ensures r.Err? ==> r.error == NotFound(problemId)
    ensures r.Ok? ==> exists p :: (problemId, p) in a.problems && r.value == View(p)
  {
    var p := Dict.Get(a.problems, problemId);
    if p.None? then Err(NotFound(problemId)) else Ok(View(p.value))
  }

  /** What is reported about one problem. */
  function View(p: ProblemResult): ProblemView
  {
    ProblemView(p.summary.successRate, p.summary.passed, p.details.testCases,
                p.quality.hasQualityIssues, IssueOutputs(p.quality.toolResults))
  }

  /** The test cases whose line says `FAILED`, in order. */
  function Failed(cases: seq<string>): (r: seq<string>)
    ensures |r| <= |cases|
    ensures forall t :: t in r <==> t in cases && Contains(t, "FAILED")
  {
    if |cases| == 0 then []
    else
      var rest := Failed(cases[1..]);
      assert forall t :: t in cases <==> t == cases[0] || t in cases[1..] by {
        assert cases == [cases[0]] + cases[1..];
      }
      if Has(cases[0], "FAILED") then [cases[0]] + rest else rest
  }

  /** A single line is kept exactly when it names a failure. */
  lemma FailedSingle(t: string)
    ensures Failed([t]) == if Contains(t, "FAILED") then [t] else []
  {
    assert [t][1..] == [];
  }

  /** The filter keeps the order of the lines: the failures of two runs of
      lines are the failures of the first, then those of the second. */
  lemma {:induction false} FailedAppend(x: seq<string>, y: seq<string>)
    ensures Failed(x + y) == Failed(x) + Failed(y)
    decreases |x|
  {
    if |x| == 0 {
      assert x + y == y;
    } else {
      assert (x + y)[0] == x[0] && (x + y)[1..] == x[1..] + y;
      FailedAppend(x[1..], y);
    }
  }

  /** `get_failed_test_cases`: an error for an unknown problem. */
  function FailedTestCases(a: Analysis, problemId: string): (r: Result<seq<string>>)
    ensures r.Err? <==> !Dict.HasKey(a.problems, problemId)
    ensures r.Err? ==> r.error == NotFound(problemId)
    ensures r.Ok? ==> forall t :: t in r.value ==> Contains(t, "FAILED")
    ensures r.Ok? ==> r.value == Failed(Dict.Get(a.problems, problemId).value.details.testCases)
  {
    var p := Dict.Get(a.problems, problemId);
    if p.None? then Err(NotFound(problemId)) else Ok(Failed(p.value.details.testCases))
  }

  /** The answer to `get_submission_summary`. */
  datatype SubmissionView = SubmissionView(
    name: string, id: string, lab: string, submissionTime: string, overallSuccessRate: real,
    problemsAttempted: nat, problemsWithQualityIssues: nat, problemsPassingAllTests: nat)

  /** Problems whose summary says every test passed. */
  function PassingProblems(ps: Dict.Dict<ProblemResult>): nat
  {
    if |ps| == 0 then 0
    else PassingProblems(ps[..|ps| - 1]) + if ps[|ps| - 1].1.summary.passed then 1 else 0
  }

  /** No more problems with issues, and no more passing ones, than
      problems. */
  lemma {:induction false} ProblemCountsBounded(ps: Dict.Dict<ProblemResult>)
    ensures QualityProblems(ps) <= |ps| && PassingProblems(ps) <= |ps|
  {
    if |ps| > 0 {
      ProblemCountsBounded(ps[..|ps| - 1]);
    }
  }

  /** `get_submission_summary`. */
  method SubmissionSummary(a: Analysis) returns (v: SubmissionView)
    ensures v.name == a.metadata.studentName && v.id == a.metadata.studentId
    ensures v.lab == a.metadata.labNumber && v.submissionTime == a.metadata.timestamp
    ensures v.overallSuccessRate == OverallRate(a.problems)
    ensures v.problemsAttempted == |a.problems|
    ensures v.problemsWithQualityIssues == QualityProblems(a.problems) <= v.problemsAttempted
    ensures v.problemsPassingAllTests == PassingProblems(a.problems) <= v.problemsAttempted
  {
    var rate := OverallSuccessRate(a);
    ProblemCountsBounded(a.problems);
    var m := a.metadata;
    v := SubmissionView(m.studentName, m.studentId, m.labNumber, m.timestamp, rate,
                        |a.problems|, QualityProblems(a.problems), PassingProblems(a.problems));
  }
}
