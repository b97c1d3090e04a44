/** The configurable marking pipeline: the maximum score of each configured
    module, the modules run one after another over a submission (each sees
    the outputs of the modules before it), the intermediate record saved
    for each call, and the report put together from the module outputs.

    The language model is a function of the call's position and its two
    prompts; checking a response against an output model is a function
    giving the parsed object (as the JSON object of its fields) or nothing
    when the text is not valid JSON or does not fit the model. Python's
    `str()` of a non-string value, the JSON schema text of an output model
    and the JSON dump of a parsed object are parameters too. */
module MarkingPipelines {
  import opened Wrappers
  import opened Text
  import opened Scan
  import Dict
  import opened Json
  import Paths
  import Template
  import ScoreExtraction
  import DataCollecting

  // ---------------------------------------------------------------------
  // Maximum scores from the prompt templates

  /** A hit of a point pattern at `i` whose group is a run of digits. */
  predicate PointsHit(s: string, i: nat, h: Hit)
  {
    HitIn(s, h) && IsDigits(s[h.gs..h.ge]) && h.start == i
  }

  /** A point hit whose digits start the match. */
  predicate LeadingPointsHit(s: string, i: nat, h: Hit)
  {
    PointsHit(s, i, h) && h.gs == i
  }

  /** A point hit whose digits follow a label. */
  predicate LabelledPointsHit(s: string, i: nat, h: Hit)
  {
    PointsHit(s, i, h) && i < h.gs
  }

  /** `\((\d+)\s*points?\)`, ignoring case, at `i`. */
  function ParenPointsAt(s: string, i: nat): (r: Option<Hit>)
    ensures r.Some? ==> PointsHit(s, i, r.value)
  {
    if i + 1 >= |s| || s[i] != '(' || !IsDigit(s[i + 1]) then None
    else
      var d := DigitsEnd(s, i + 1);
      var k := SpacesEnd(s, d);
      DigitRun(s, i + 1);
      if !LitCI(s, k, "point") then None
      else if LitCI(s, k + 5, "s") && Lit(s, k + 6, ")") then Some(Hit(i, i + 1, d, k + 7))
      else if Lit(s, k + 5, ")") then Some(Hit(i, i + 1, d, k + 6))
      else None
  }

  /** `(\d+)\s*points?\s*total`, ignoring case, at `i`. */
  function PointsTotalAt(s: string, i: nat): (r: Option<Hit>)
    ensures r.Some? ==> LeadingPointsHit(s, i, r.value)
  {
    if i >= |s| || !IsDigit(s[i]) then None
    else
      var d := DigitsEnd(s, i);
      var k := SpacesEnd(s, d);
      DigitRun(s, i);
      if !LitCI(s, k, "point") then None
      else
        var after := if LitCI(s, k + 5, "s") then k + 6 else k + 5;
        var t := SpacesEnd(s, after);
        if LitCI(s, t, "total") then Some(Hit(i, i, d, t + 5)) else None
  }

  /** The first start at or after `j`, before the end of the line, where
      `\((\d+)\s*points?\)` matches: where the lazy `.*?` stops. */
  function ParenPointsOnLine(s: string, j: nat): (r: Option<nat>)
    ensures r.Some? ==> j <= r.value && ParenPointsAt(s, r.value).Some?
    ensures r.Some? ==> forall k :: j <= k < r.value ==> k < |s| && s[k] != '\n' && ParenPointsAt(s, k).None?
    decreases |s| - j
  {
    if j >= |s| || s[j] == '\n' then None
    else if ParenPointsAt(s, j).Some? then Some(j)
    else
      var later := ParenPointsOnLine(s, j + 1);
      assert later.Some? ==> forall k :: j <= k < later.value ==> k < |s| && s[k] != '\n' && ParenPointsAt(s, k).None?;
      later
  }

  /** `Assessment Focus:.*?\((\d+)\s*points?\)`, ignoring case, at `i`. */
  function AssessmentFocusAt(s: string, i: nat): (r: Option<Hit>)
    ensures r.Some? ==> LabelledPointsHit(s, i, r.value)
  {
    if !LitCI(s, i, "assessment focus:") then None
    else
      match ParenPointsOnLine(s, i + 17)
      case None => None
      case Some(p) =>
        var h := ParenPointsAt(s, p).value;
        Some(Hit(i, h.gs, h.ge, h.end))
  }

  /** `(\d+)\s*points?\)`, ignoring case, at `i`. */
  function PointsParenAt(s: string, i: nat): (r: Option<Hit>)
    ensures r.Some? ==> LeadingPointsHit(s, i, r.value)
  {
    if i >= |s| || !IsDigit(s[i]) then None
    else
      var d := DigitsEnd(s, i);
      var k := SpacesEnd(s, d);
      DigitRun(s, i);
      if !LitCI(s, k, "point") then None
      else if LitCI(s, k + 5, "s") && Lit(s, k + 6, ")") then Some(Hit(i, i, d, k + 7))
      else if Lit(s, k + 5, ")") then Some(Hit(i, i, d, k + 6))
      else None
  }

  /** The value of the first match of a digit-capturing pattern. */
  function FirstValue(s: string, m: Matcher): (r: Option<nat>)
    requires ScoreExtraction.DigitMatcher(m)
    ensures r.Some? <==> Search(s, m).Some?
    ensures r.Some? ==> r.value == DigitsValue(s[Search(s, m).value.gs..Search(s, m).value.ge])
  {
    match Search(s, m)
    case None => None
    case Some(h) =>
      var j :| 0 <= j <= |s| && m(s, j) == Some(h);
      Some(DigitsValue(s[h.gs..h.ge]))
  }

  /** The maximum score named by a user prompt template: the first match of
      the first of the four point patterns that matches, otherwise the
      default of the module id. */
  function PromptMax(prompt: string, moduleId: string): (r: real)
    ensures r >= 0.0
  {
    match FirstValue(prompt, ParenPointsAt)
    case Some(v) => v as real
    case None =>
      match FirstValue(prompt, PointsTotalAt)
      case Some(v) => v as real
      case None =>
        match FirstValue(prompt, AssessmentFocusAt)
        case Some(v) => v as real
        case None =>
          match FirstValue(prompt, PointsParenAt)
          case Some(v) => v as real
          case None => ScoreExtraction.DefaultMax(moduleId)
  }

  /** The maximum is the first match of the first pattern that matches,
      and the module's default when none does. */
  lemma PromptMaxOrder(prompt: string, moduleId: string)
    ensures Search(prompt, ParenPointsAt).Some? ==>
      PromptMax(prompt, moduleId) == FirstValue(prompt, ParenPointsAt).value as real
    ensures Search(prompt, ParenPointsAt).None? && Search(prompt, PointsTotalAt).Some? ==>
      PromptMax(prompt, moduleId) == FirstValue(prompt, PointsTotalAt).value as real
    ensures (Search(prompt, ParenPointsAt).None? && Search(prompt, PointsTotalAt).None? &&
             Search(prompt, PointsParenAt).Some?) ==>
      PromptMax(prompt, moduleId) == FirstValue(prompt, PointsParenAt).value as real
    ensures (Search(prompt, ParenPointsAt).None? && Search(prompt, PointsTotalAt).None? &&
             Search(prompt, PointsParenAt).None?) ==>
      PromptMax(prompt, moduleId) == ScoreExtraction.DefaultMax(moduleId)
  {
    if Search(prompt, ParenPointsAt).None? && Search(prompt, AssessmentFocusAt).Some? {
      AssessmentFocusNeedsParen(prompt);
    }
  }

  /** An `Assessment Focus:` match always has a `(N points)` match inside
      it, so the third pattern never decides a maximum the first one has
      not already decided. */
  lemma AssessmentFocusNeedsParen(prompt: string)
    requires Search(prompt, AssessmentFocusAt).Some?
    ensures Search(prompt, ParenPointsAt).Some?
  {
    var j :| 0 <= j <= |prompt| && AssessmentFocusAt(prompt, j).Some?;
    var p := ParenPointsOnLine(prompt, j + 17).value;
    assert ParenPointsAt(prompt, p).Some?;
  }

  /** A module as configured. A missing or empty `module_id` is the empty
      text; the other entries are given with their defaults applied. */
  datatype ModuleConfig = ModuleConfig(
    moduleId: string,
    requiredData: Dict.Dict<string>,
    systemTemplate: string,
    userTemplate: string,
    outputModelName: string)

  /** The ids of the modules that have one, in order. */
  function Ids(modules: seq<ModuleConfig>): (r: seq<string>)
    ensures |r| <= |modules|
  {
    if |modules| == 0 then []
    else Ids(modules[..|modules| - 1]) + (if modules[|modules| - 1].moduleId == "" then [] else [modules[|modules| - 1].moduleId])
  }

  /** Recording one more id in a dictionary keyed by the distinct ids seen
      so far keys it by the distinct ids seen after it. */
  lemma PutDistinct<V>(seen: seq<string>, d: Dict.Dict<V>, id: string, v: V)
    requires Dict.Keys(d) == DataCollecting.Distinct(seen)
    ensures Dict.Keys(Dict.Put(d, id, v)) == DataCollecting.Distinct(seen + [id])
  {
    DataCollecting.DistinctHas(seen, d, id);
    assert (seen + [id])[..|seen|] == seen;
  }

  /** The maximum scores of the configured modules, keyed by module id; a
      module without an id gets none, and a repeated id keeps its first
      place with the value of its last module. */
  function MaxScoresOf(modules: seq<ModuleConfig>): Dict.Dict<real>
  {
    if |modules| == 0 then []
    else
      var m := modules[|modules| - 1];
      var scores := MaxScoresOf(modules[..|modules| - 1]);
      if m.moduleId == "" then scores else Dict.Put(scores, m.moduleId, PromptMax(m.userTemplate, m.moduleId))
  }

  /** The ids with a maximum are the distinct non-empty configured ids, in
      the order they first appear. */
  lemma {:induction false} MaxScoresOfKeys(modules: seq<ModuleConfig>)
    ensures Dict.Keys(MaxScoresOf(modules)) == DataCollecting.Distinct(Ids(modules))
  {
    if |modules| > 0 {
      var n := |modules| - 1;
      var init := modules[..n];
      MaxScoresOfKeys(init);
      var m := modules[n];
      if m.moduleId != "" {
        var v := PromptMax(m.userTemplate, m.moduleId);
        assert Ids(modules) == Ids(init) + [m.moduleId];
        assert MaxScoresOf(modules) == Dict.Put(MaxScoresOf(init), m.moduleId, v);
        PutDistinct(Ids(init), MaxScoresOf(init), m.moduleId, v);
      } else {
        assert Ids(modules) == Ids(init);
      }
    }
  }

  /** The position of the last module with the given id. */
  function LastWith(modules: seq<ModuleConfig>, id: string): (r: Option<nat>)
    ensures r.Some? ==> r.value < |modules| && modules[r.value].moduleId == id
    ensures r.Some? ==> forall k :: r.value < k < |modules| ==> modules[k].moduleId != id
    ensures r.None? ==> forall k :: 0 <= k < |modules| ==> modules[k].moduleId != id
  {
    if |modules| == 0 then None
    else if modules[|modules| - 1].moduleId == id then Some(|modules| - 1)
    else
      var r := LastWith(modules[..|modules| - 1], id);
      assert forall k :: 0 <= k < |modules| - 1 ==> modules[..|modules| - 1][k] == modules[k];
      r
  }

  /** The maximum of an id is the one named by the prompt of the last
      module with that id; an id no module has, or the empty id, has
      none. */
  lemma {:induction false} MaxScoresOfValues(modules: seq<ModuleConfig>, id: string)
    ensures id == "" || LastWith(modules, id).None? ==> Dict.Get(MaxScoresOf(modules), id).None?
    ensures id != "" && LastWith(modules, id).Some? ==>
      Dict.Get(MaxScoresOf(modules), id) == Some(PromptMax(modules[LastWith(modules, id).value].userTemplate, id))
  {
    if |modules| > 0 {
      var n := |modules| - 1;
      var init := modules[..n];
      var before := MaxScoresOf(init);
      var m := modules[n];
      MaxScoresOfValues(init, id);
      if m.moduleId != "" {
        var v := PromptMax(m.userTemplate, m.moduleId);
        assert MaxScoresOf(modules) == Dict.Put(before, m.moduleId, v);
        Dict.GetPut(before, m.moduleId, v, id);
      } else {
        assert MaxScoresOf(modules) == before;
      }
      if m.moduleId == id {
        assert LastWith(modules, id) == Some(n);
      } else {
        assert LastWith(modules, id) == LastWith(init, id);
        if LastWith(init, id).Some? {
          assert modules[LastWith(init, id).value] == init[LastWith(init, id).value];
        }
      }
    }
  }

  // ---------------------------------------------------------------------
  // Running the modules

  /** What the language model gave back. */
  datatype LlmResponse = Success(content: string) | Failure(error: string)

  const SchemaInstruction: string :=
    "Your response MUST be a single, valid JSON object that conforms to the following JSON schema. " +
    "Do not include any text before or after the JSON object.\nJSON Schema:\n"

  const ParseErrorPrefix: string := "Error: Could not parse LLM response. Raw output: "
  const LlmErrorPrefix: string := "Error generating feedback for this module: "
  const BaseOutputModel: string := "BaseFeedbackOutput"

  /** The output model of a name, or the base model when the registry does
      not know it. */
  function ModelFor(name: string, registry: set<string>): (r: string)
    ensures name in registry ==> r == name
    ensures name !in registry ==> r == BaseOutputModel
  {
    if name in registry then name else BaseOutputModel
  }

  /** The system prompt sent: the formatted one, a blank line, the JSON
      instruction and the schema. */
  function SystemPromptWithSchema(systemPrompt: string, schema: string): (r: string)
    ensures StartsWith(r, systemPrompt + "\n\n") && EndsWith(r, SchemaInstruction + schema)
  {
    var r := systemPrompt + "\n\n" + SchemaInstruction + schema;
    assert r[..|systemPrompt + "\n\n"|] == systemPrompt + "\n\n";
    assert r[|r| - |SchemaInstruction + schema|..] == SchemaInstruction + schema;
    r
  }

  /** The response text with surrounding white space, a leading ```` ```json ````
      and a trailing ```` ``` ```` removed, stripping again after each. */
  function CleanResponse(content: string): (r: string)
    ensures Stripped(r)
    ensures !StartsWith(Strip(content), "```json") && !EndsWith(Strip(content), "```") ==> r == Strip(content)
  {
    var t := Strip(content);
    var t2 := if StartsWith(t, "```json") then Strip(t[7..]) else t;
    if EndsWith(t2, "```") then Strip(t2[..|t2| - 3]) else t2
  }

  /** The stored output of a module: the parsed object, the parse error
      text with the raw response, or the model's error text. */
  function StoredOutput(response: LlmResponse, model: string, validate: (string, string) -> Option<Json>): (r: Json)
    ensures response.Failure? ==> r == Str(LlmErrorPrefix + response.error)
    ensures response.Success? && validate(model, CleanResponse(response.content)).None? ==>
      r == Str(ParseErrorPrefix + response.content)
    ensures response.Success? && validate(model, CleanResponse(response.content)).Some? ==>
      r == validate(model, CleanResponse(response.content)).value
  {
    match response
    case Failure(error) => Str(LlmErrorPrefix + error)
    case Success(content) =>
      match validate(model, CleanResponse(content))
      case None => Str(ParseErrorPrefix + content)
      case Some(parsed) => parsed
  }

  /** `<intermediate_dir>/<task>/<student>/<module>_intermediate.json`. */
  function IntermediatePath(intermediateDir: string, taskName: string, studentId: string, moduleId: string): (r: string)
    ensures r == intermediateDir + "/" + taskName + "/" + studentId + "/" + moduleId + "_intermediate.json"
    ensures EndsWith(r, moduleId + "_intermediate.json")
  {
    Paths.JoinPath(Paths.JoinPath(Paths.JoinPath(intermediateDir, taskName), studentId), moduleId + "_intermediate.json")
  }

  /** The keys of an intermediate record, in the order they are written. */
  const RecordKeys: seq<string> :=
    ["module_id", "student_id", "task_name", "llm_call_success", "system_prompt", "user_prompt",
     "raw_response_content", "error_message"]

  /** The intermediate record of one call. */
  function IntermediateRecord(moduleId: string, studentId: string, taskName: string, systemPrompt: string,
                              userPrompt: string, response: LlmResponse): (r: Json)
    ensures r.Obj? && Dict.Keys(r.fields) == RecordKeys
  {
    var fields := [("module_id", Str(moduleId)),
                   ("student_id", Str(studentId)),
                   ("task_name", Str(taskName)),
                   ("llm_call_success", Bool(response.Success?)),
                   ("system_prompt", Str(systemPrompt)),
                   ("user_prompt", Str(userPrompt)),
                   ("raw_response_content", if response.Success? then Str(response.content) else Null),
                   ("error_message", if response.Failure? then Str(response.error) else Null)];
    RecordFieldKeys(fields);
    Obj(fields)
  }

  /** Eight fields named as a record's keys, in order, have those keys. */
  lemma RecordFieldKeys(fields: Dict.Dict<Json>)
    requires |fields| == 8
    requires fields[0].0 == "module_id" && fields[1].0 == "student_id" && fields[2].0 == "task_name"
    requires fields[3].0 == "llm_call_success" && fields[4].0 == "system_prompt" && fields[5].0 == "user_prompt"
    requires fields[6].0 == "raw_response_content" && fields[7].0 == "error_message"
    ensures Dict.Keys(fields) == RecordKeys
  {
    var ks := Dict.Keys(fields);
    assert ks[0] == RecordKeys[0] && ks[1] == RecordKeys[1] && ks[2] == RecordKeys[2] && ks[3] == RecordKeys[3];
    assert ks[4] == RecordKeys[4] && ks[5] == RecordKeys[5] && ks[6] == RecordKeys[6] && ks[7] == RecordKeys[7];
  }

  /** What the score extractor reads back from a saved record: whether the
      call succeeded, and the raw response when it did. */
  lemma RecordReadBack(moduleId: string, studentId: string, taskName: string, systemPrompt: string,
                       userPrompt: string, response: LlmResponse)
    ensures var r := IntermediateRecord(moduleId, studentId, taskName, systemPrompt, userPrompt, response);
      Field(r, "llm_call_success") == Some(Bool(response.Success?)) &&
      Field(r, "raw_response_content") == Some(if response.Success? then Str(response.content) else Null)
  {
    var fields := IntermediateRecord(moduleId, studentId, taskName, systemPrompt, userPrompt, response).fields;
    assert fields[3] == ("llm_call_success", Bool(response.Success?));
    assert fields[6] == ("raw_response_content", if response.Success? then Str(response.content) else Null);
    assert forall j :: 0 <= j < 6 ==> fields[j].0 != fields[6].0;
    Dict.GetFirst(fields, 3);
    Dict.GetFirst(fields, 6);
  }

  /** A saved intermediate record: where it went and what it holds. */
  datatype Saved = Saved(path: string, record: Json)

  /** The state of a run over the modules: the outputs so far, the number
      of calls made, the records saved, and the exception that ended the
      run, if one did. */
  datatype Execution = Execution(outputs: Dict.Dict<Json>, calls: nat, saved: seq<Saved>, failure: Option<string>)

  /** Prompt variables as `str.format` renders them. */
  function Shown(vars: Dict.Dict<Json>, show: Json -> string): (r: Dict.Dict<string>)
    ensures Dict.Keys(r) == Dict.Keys(vars)
    ensures forall k :: 0 <= k < |vars| ==> r[k].1 == if vars[k].1.Str? then vars[k].1.s else show(vars[k].1)
  {
    if |vars| == 0 then []
    else [(vars[0].0, if vars[0].1.Str? then vars[0].1.s else show(vars[0].1))] + Shown(vars[1..], show)
  }

  /** Everything one run depends on besides the module list. */
  datatype Environment = Environment(
    taskName: string,
    studentId: string,
    saveIntermediate: bool,
    intermediateDir: string,
    llm: (nat, string, string) -> LlmResponse,
    validate: (string, string) -> Option<Json>,
    registry: set<string>,
    schemaOf: string -> string,
    show: Json -> string)

  /** One module's call, given its formatted prompts. */
  function Call(e: Execution, m: ModuleConfig, systemPrompt: string, userPrompt: string, env: Environment): (r: Execution)
    ensures r.calls == e.calls + 1 && r.failure == e.failure
    ensures Dict.Keys(r.outputs) == Dict.Keys(Dict.Put(e.outputs, m.moduleId, Null))
    ensures var model := ModelFor(m.outputModelName, env.registry);
      var system := SystemPromptWithSchema(systemPrompt, env.schemaOf(model));
      var response := env.llm(e.calls, system, userPrompt);
      (forall k :: Dict.Get(r.outputs, k) ==
                   (if k == m.moduleId then Some(StoredOutput(response, model, env.validate)) else Dict.Get(e.outputs, k))) &&
      r.saved == if env.saveIntermediate then
        e.saved + [Saved(IntermediatePath(env.intermediateDir, env.taskName, env.studentId, m.moduleId),
                         IntermediateRecord(m.moduleId, env.studentId, env.taskName, system, userPrompt, response))]
      else e.saved
  {
    var model := ModelFor(m.outputModelName, env.registry);
    var system := SystemPromptWithSchema(systemPrompt, env.schemaOf(model));
    var response := env.llm(e.calls, system, userPrompt);
    var saved :=
      if env.saveIntermediate then
        e.saved + [Saved(IntermediatePath(env.intermediateDir, env.taskName, env.studentId, m.moduleId),
                         IntermediateRecord(m.moduleId, env.studentId, env.taskName, system, userPrompt, response))]
      else e.saved;
    var stored := StoredOutput(response, model, env.validate);
    assert forall k :: Dict.Get(Dict.Put(e.outputs, m.moduleId, stored), k) ==
                       (if k == m.moduleId then Some(stored) else Dict.Get(e.outputs, k)) by {
      forall k { Dict.GetPut(e.outputs, m.moduleId, stored, k); }
    }
    Execution(Dict.Put(e.outputs, m.moduleId, stored), e.calls + 1, saved, e.failure)
  }

  /** A module's two prompts. */
  datatype Prompts = Prompts(system: string, user: string)

  /** The prompts of a module: its data gathered from `outputs`, shown as
      `str.format` shows it, and both templates formatted with it; or the
      first of these that raises. */
  function PromptsFor(m: ModuleConfig, outputs: Dict.Dict<Json>, collector: DataCollecting.DataCollector,
                      show: Json -> string): (r: Result<Prompts>)
    reads collector
    ensures var g := collector.Gathered(m.requiredData, outputs);
      r.Ok? <==> g.Ok? && Template.Format(m.systemTemplate, Shown(g.value, show)).Ok? &&
                 Template.Format(m.userTemplate, Shown(g.value, show)).Ok?
    ensures var g := collector.Gathered(m.requiredData, outputs);
      r.Ok? ==> r.value.system == Template.Format(m.systemTemplate, Shown(g.value, show)).value &&
                r.value.user == Template.Format(m.userTemplate, Shown(g.value, show)).value
    ensures collector.Gathered(m.requiredData, outputs).Err? ==> r == Err(collector.Gathered(m.requiredData, outputs).error)
  {
    match collector.Gathered(m.requiredData, outputs)
    case Err(x) => Err(x)
    case Ok(vars) =>
      var values := Shown(vars, show);
      match Template.Format(m.systemTemplate, values)
      case Err(x) => Err(x)
      case Ok(systemPrompt) =>
        match Template.Format(m.userTemplate, values)
        case Err(x) => Err(x)
        case Ok(userPrompt) => Ok(Prompts(systemPrompt, userPrompt))
  }

  /** One module: skipped without an id or after a failure; otherwise its
      data is gathered from the outputs so far, its prompts are formatted,
      and the model is called. A failure to gather or to format ends the
      run. */
  function Step(e: Execution, m: ModuleConfig, collector: DataCollecting.DataCollector, env: Environment): (r: Execution)
    reads collector
    ensures e.failure.Some? || m.moduleId == "" ==> r == e
    ensures r.failure.None? ==> e.failure.None?
    ensures r.failure.None? && m.moduleId != "" ==>
      r.calls == e.calls + 1 && Dict.Keys(r.outputs) == Dict.Keys(Dict.Put(e.outputs, m.moduleId, Null))
    ensures e.failure.None? && m.moduleId != "" ==>
      var p := PromptsFor(m, e.outputs, collector, env.show);
      (p.Err? ==> r == e.(failure := Some(p.error))) &&
      (p.Ok? ==> r == Call(e, m, p.value.system, p.value.user, env))
  {
    if e.failure.Some? || m.moduleId == "" then e
    else
      match PromptsFor(m, e.outputs, collector, env.show)
      case Err(x) => e.(failure := Some(x))
      case Ok(p) => Call(e, m, p.system, p.user, env)
  }

  /** The modules run in configuration order from an empty state. */
  function Executed(modules: seq<ModuleConfig>, collector: DataCollecting.DataCollector, env: Environment): Execution
    reads collector
  {
    if |modules| == 0 then Execution([], 0, [], None)
    else Step(Executed(modules[..|modules| - 1], collector, env), modules[|modules| - 1], collector, env)
  }

  /** A run that completes calls the model once per module with an id and
      has one output per distinct id, in configuration order; the outputs
      any module sees are those of the modules before it. */
  lemma {:induction false} ExecutedCalls(modules: seq<ModuleConfig>, collector: DataCollecting.DataCollector, env: Environment)
    requires Executed(modules, collector, env).failure.None?
    ensures Executed(modules, collector, env).calls == |Ids(modules)|
    ensures Dict.Keys(Executed(modules, collector, env).outputs) == DataCollecting.Distinct(Ids(modules))
  {
    if |modules| > 0 {
      var n := |modules| - 1;
      var init := modules[..n];
      var m := modules[n];
      assert Ids(modules) == Ids(init) + (if m.moduleId == "" then [] else [m.moduleId]);
      ExecutedCalls(init, collector, env);
      StepCalls(Executed(init, collector, env), m, collector, env, Ids(init));
    }
  }

  /** One step keeps the count of calls and the output keys in line with
      the ids run so far. */
  lemma StepCalls(e: Execution, m: ModuleConfig, collector: DataCollecting.DataCollector, env: Environment, ids: seq<string>)
    requires Step(e, m, collector, env).failure.None?
    requires e.calls == |ids| && Dict.Keys(e.outputs) == DataCollecting.Distinct(ids)
    ensures var idsAfter := ids + (if m.moduleId == "" then [] else [m.moduleId]);
      Step(e, m, collector, env).calls == |idsAfter| &&
      Dict.Keys(Step(e, m, collector, env).outputs) == DataCollecting.Distinct(idsAfter)
  {
    if m.moduleId != "" {
      PutDistinct(ids, e.outputs, m.moduleId, Null);
    } else {
      assert ids + [] == ids;
    }
  }

  /** A module's prompt variables are gathered from the outputs of the
      modules before it only. */
  lemma PromptSeesEarlierOutputs(modules: seq<ModuleConfig>, collector: DataCollecting.DataCollector, env: Environment, k: nat)
    requires k < |modules| && Executed(modules[..k], collector, env).failure.None? && modules[k].moduleId != ""
    ensures var before := Executed(modules[..k], collector, env);
      var after := Executed(modules[..k + 1], collector, env);
      var p := PromptsFor(modules[k], before.outputs, collector, env.show);
      (p.Err? ==> after.failure == Some(p.error) && after.outputs == before.outputs) &&
      (p.Ok? ==>
        var model := ModelFor(modules[k].outputModelName, env.registry);
        var response := env.llm(before.calls, SystemPromptWithSchema(p.value.system, env.schemaOf(model)), p.value.user);
        after.failure.None? && after.calls == before.calls + 1 &&
        Dict.Get(after.outputs, modules[k].moduleId) == Some(StoredOutput(response, model, env.validate)) &&
        after == Call(before, modules[k], p.value.system, p.value.user, env))
  {
    assert modules[..k + 1][..k] == modules[..k];
  }

  // ---------------------------------------------------------------------
  // The report

  /** A configured report section: its module id and title, either of
      which may be missing. */
  datatype SectionConfig = SectionConfig(moduleId: Option<string>, title: Option<string>)

  datatype ReportStructure = ReportStructure(header: string, footer: string, sections: seq<SectionConfig>)

  /** `str(module_id)`, which renders a missing id as `None`. */
  function IdText(moduleId: Option<string>): string
  {
    if moduleId.Some? then moduleId.value else "None"
  }

  /** The text of a section's module output: a parsed object's
      `feedback_text` or its JSON dump, a stored message as it is, and a
      fixed note for anything else. */
  function SectionContent(content: Option<Json>, moduleId: Option<string>, show: Json -> string, dump: Json -> string): (r: string)
    ensures content.Some? && content.value.Str? ==> r == content.value.s
    ensures content.Some? && content.value.Obj? && Dict.HasKey(content.value.fields, "feedback_text") ==>
      var f := Dict.Get(content.value.fields, "feedback_text").value;
      r == if f.Str? then f.s else show(f)
    ensures content.Some? && content.value.Obj? && !Dict.HasKey(content.value.fields, "feedback_text") ==>
      r == dump(content.value)
    ensures content.None? || !(content.value.Str? || content.value.Obj?) ==>
      r == "Content for module '" + IdText(moduleId) + "' not generated or in unknown format."
  {
    if content.Some? && content.value.Str? then content.value.s
    else if content.Some? && content.value.Obj? then
      match Dict.Get(content.value.fields, "feedback_text")
      case Some(f) => if f.Str? then f.s else show(f)
      case None => dump(content.value)
    else "Content for module '" + IdText(moduleId) + "' not generated or in unknown format."
  }

  /** One section: its title (by default a heading with the module id), a
      newline and its content. */
  function SectionText(section: SectionConfig, outputs: Dict.Dict<Json>, show: Json -> string, dump: Json -> string): string
  {
    var title := if section.title.Some? then section.title.value else "### " + IdText(section.moduleId) + "\n";
    var content := if section.moduleId.Some? then Dict.Get(outputs, section.moduleId.value) else None;
    title + "\n" + SectionContent(content, section.moduleId, show, dump)
  }

  /** The text of every configured section, in order. */
  function SectionTexts(sections: seq<SectionConfig>, outputs: Dict.Dict<Json>, show: Json -> string, dump: Json -> string): (r: seq<string>)
  {
    seq(|sections|, k requires 0 <= k < |sections| => SectionText(sections[k], outputs, show, dump))
  }

  /** The texts of one more section are those before it and its own. */
  lemma SectionTextsSnoc(sections: seq<SectionConfig>, i: nat, outputs: Dict.Dict<Json>, show: Json -> string,
                         dump: Json -> string)
    requires i < |sections|
    ensures SectionTexts(sections[..i + 1], outputs, show, dump) ==
      SectionTexts(sections[..i], outputs, show, dump) + [SectionText(sections[i], outputs, show, dump)]
  {
    var longer := SectionTexts(sections[..i + 1], outputs, show, dump);
    var shorter := SectionTexts(sections[..i], outputs, show, dump);
    assert forall k :: 0 <= k < i ==> longer[k] == shorter[k];
  }

  /** The report: the formatted header, a blank line, the sections
      separated by blank lines, a blank line and the footer. A header that
      does not format is an error. */
  function Report(structure: ReportStructure, outputs: Dict.Dict<Json>, userName: string, userId: string,
                  taskName: string, show: Json -> string, dump: Json -> string): Result<string>
  {
    var values := [("user_name", userName), ("user_id", userId), ("task_name", taskName)];
    match Template.Format(structure.header, values)
    case Err(e) => Err(e)
    case Ok(header) =>
      Ok(header + "\n\n" + Join(SectionTexts(structure.sections, outputs, show, dump), "\n\n") + "\n\n" + structure.footer)
  }

  /** The report starts with the formatted header and a blank line, ends
      with a blank line and the footer, and holds every section's text. */
  lemma ReportHoldsSections(structure: ReportStructure, outputs: Dict.Dict<Json>, userName: string, userId: string,
                            taskName: string, show: Json -> string, dump: Json -> string, k: nat)
    requires Report(structure, outputs, userName, userId, taskName, show, dump).Ok?
    requires k < |structure.sections|
    ensures var r := Report(structure, outputs, userName, userId, taskName, show, dump).value;
      var header := Template.Format(structure.header, [("user_name", userName), ("user_id", userId), ("task_name", taskName)]);
      header.Ok? && StartsWith(r, header.value + "\n\n") && EndsWith(r, "\n\n" + structure.footer) &&
      Contains(r, SectionText(structure.sections[k], outputs, show, dump))
  {
    var texts := SectionTexts(structure.sections, outputs, show, dump);
    var header := Template.Format(structure.header, [("user_name", userName), ("user_id", userId), ("task_name", taskName)]).value;
    JoinHoldsPart(texts, "\n\n", k);
    ContainsWithin(header + "\n\n", Join(texts, "\n\n"), "\n\n" + structure.footer, texts[k]);
    assert Report(structure, outputs, userName, userId, taskName, show, dump).value ==
      (header + "\n\n") + Join(texts, "\n\n") + ("\n\n" + structure.footer);
  }

  /** Text found in the middle piece is found in the whole. */
  lemma ContainsWithin(pre: string, s: string, post: string, p: string)
    requires Contains(s, p)
    ensures var r := pre + s + post;
      StartsWith(r, pre) && EndsWith(r, post) && Contains(r, p)
  {
    var r := pre + s + post;
    var i :| 0 <= i <= |s| && OccursAt(s, p, i);
    assert r[|pre| + i..|pre| + i + |p|] == s[i..i + |p|];
    assert OccursAt(r, p, |pre| + i);
    assert r[..|pre|] == pre;
    assert r[|r| - |post|..] == post;
  }

  /** Every part occurs in the join. */
  lemma {:induction false} JoinHoldsPart(parts: seq<string>, sep: string, k: nat)
    requires k < |parts|
    ensures Contains(Join(parts, sep), parts[k])
  {
    if |parts| == 1 {
      assert OccursAt(Join(parts, sep), parts[k], 0);
    } else {
      var rest := Join(parts[1..], sep);
      assert Join(parts, sep) == parts[0] + sep + rest;
      if k == 0 {
        assert OccursAt(parts[0], parts[0], 0);
        ContainsWithin("", parts[0], sep + rest, parts[0]);
        assert "" + parts[0] + (sep + rest) == Join(parts, sep);
      } else {
        JoinHoldsPart(parts[1..], sep, k - 1);
        ContainsWithin(parts[0] + sep, rest, "", parts[k]);
        assert parts[0] + sep + rest + "" == Join(parts, sep);
      }
    }
  }

  // ---------------------------------------------------------------------
  // The pipeline

  /** A pipeline for one task: its configured modules and report layout,
      and the maximum scores read from the modules when it is built. */
  class MarkingPipeline {
    const taskName: string
    const modules: seq<ModuleConfig>
    const reportStructure: ReportStructure
    const saveIntermediateResponses: bool
    const intermediateDir: string
    var moduleMaxScores: Dict.Dict<real>

    constructor(taskName: string, modules: seq<ModuleConfig>, reportStructure: ReportStructure,
                saveIntermediateResponses: bool, resultsDir: string)
      ensures this.taskName == taskName && this.modules == modules && this.reportStructure == reportStructure
      ensures this.saveIntermediateResponses == saveIntermediateResponses
      ensures intermediateDir == Paths.JoinPath(resultsDir, "intermediate_responses")
      ensures moduleMaxScores == MaxScoresOf(modules)
    {
      this.taskName := taskName;
      this.modules := modules;
      this.reportStructure := reportStructure;
      this.saveIntermediateResponses := saveIntermediateResponses;
      intermediateDir := Paths.JoinPath(resultsDir, "intermediate_responses");
      new;
      moduleMaxScores := ExtractModuleMaxScores();
    }

    /** The maximum of each module with an id, module by module. */
    method ExtractModuleMaxScores() returns (scores: Dict.Dict<real>)
      ensures scores == MaxScoresOf(modules)
    {
      scores := [];
      var i := 0;
      while i < |modules|
        invariant 0 <= i <= |modules|
        invariant scores == MaxScoresOf(modules[..i])
      {
        var moduleCfg := modules[i];
        assert modules[..i + 1][..i] == modules[..i];
        if moduleCfg.moduleId != "" {
          var maxScore := PromptMax(moduleCfg.userTemplate, moduleCfg.moduleId);
          scores := Dict.Put(scores, moduleCfg.moduleId, maxScore);
        }
        i := i + 1;
      }
      assert modules[..i] == modules;
    }

    function Env(studentId: string, llm: (nat, string, string) -> LlmResponse, validate: (string, string) -> Option<Json>,
                 registry: set<string>, schemaOf: string -> string, show: Json -> string): Environment
    {
      Environment(taskName, studentId, saveIntermediateResponses, intermediateDir, llm, validate, registry, schemaOf, show)
    }

    /** Runs the configured modules over one submission's collected data:
      the outputs, or the exception that ended the run, together with the
      records saved before it ended. */
    method ExecuteModules(collector: DataCollecting.DataCollector, studentId: string,
                          llm: (nat, string, string) -> LlmResponse, validate: (string, string) -> Option<Json>,
                          registry: set<string>, schemaOf: string -> string, show: Json -> string)
      returns (outputs: Result<Dict.Dict<Json>>, saved: seq<Saved>)
      ensures var e := Executed(modules, collector, Env(studentId, llm, validate, registry, schemaOf, show));
        saved == e.saved && (if e.failure.Some? then outputs == Err(e.failure.value) else outputs == Ok(e.outputs))
    {
      var env := Env(studentId, llm, validate, registry, schemaOf, show);
      var e := Execution([], 0, [], None);
      var i := 0;
      while i < |modules|
        invariant 0 <= i <= |modules|
        invariant e == Executed(modules[..i], collector, env)
      {
        assert modules[..i + 1][..i] == modules[..i];
        e := Step(e, modules[i], collector, env);
        i := i + 1;
      }
      assert modules[..i] == modules;
      saved := e.saved;
      outputs := if e.failure.Some? then Err(e.failure.value) else Ok(e.outputs);
    }

    /** Puts the report together section by section. */
    method AssembleReport(outputs: Dict.Dict<Json>, userName: string, userId: string,
                          show: Json -> string, dump: Json -> string) returns (report: Result<string>)
      ensures report == Report(reportStructure, outputs, userName, userId, taskName, show, dump)
    {
      var header := Template.Format(reportStructure.header, [("user_name", userName), ("user_id", userId), ("task_name", taskName)]);
      if header.Err? {
        return Err(header.error);
      }
      var sections := ReportSections(outputs, show, dump);
      report := Ok(header.value + "\n\n" + Join(sections, "\n\n") + "\n\n" + reportStructure.footer);
    }

    /** The text of each configured section, section by section. */
    method ReportSections(outputs: Dict.Dict<Json>, show: Json -> string, dump: Json -> string) returns (sections: seq<string>)
      ensures sections == SectionTexts(reportStructure.sections, outputs, show, dump)
    {
      var configured := reportStructure.sections;
      sections := [];
      var i := 0;
      while i < |configured|
        invariant 0 <= i <= |configured|
        invariant sections == SectionTexts(configured[..i], outputs, show, dump)
      {
        SectionTextsSnoc(configured, i, outputs, show, dump);
        sections := sections + [SectionText(configured[i], outputs, show, dump)];
        i := i + 1;
      }
      assert configured[..i] == configured;
    }
  }
}
