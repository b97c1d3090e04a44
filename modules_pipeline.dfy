/** The modular feedback pipeline for one task: for every student, each
    configured module gets its prompt variables from the student's code,
    markdown, documents, test results and style reports, its prompts are
    filled in and sent to the language model, and the module outputs are
    put together into one report under a name built from the student and
    the task.

    Reading files, running tests, the language model and writing the report
    are not modelled: the extracted content is an input, the model's
    response is a function of the module and its two prompts, and Python's
    `str()` of a non-string prompt variable is a parameter. */
module ModulesPipeline {
  import opened Wrappers
  import opened Text
  import Dict
  import opened Json
  import Paths
  import Template
  import ModuleFeedback
  import MarkingPipelines

  // ---------------------------------------------------------------------
  // Input validation

  const EmptyTaskName: string := "Task name cannot be empty."

  /** The task-name check of `validate_inputs`: an absent, empty or blank
      name is refused. */
  function TaskNameError(taskName: Option<string>): (r: Option<string>)
    ensures r.Some? <==> taskName.None? || forall i :: 0 <= i < |taskName.value| ==> IsSpace(taskName.value[i])
    ensures r.Some? ==> r.value == EmptyTaskName
  {
    if taskName.None? || taskName.value == "" || Strip(taskName.value) == "" then Some(EmptyTaskName)
    else None
  }

  // ---------------------------------------------------------------------
  // Sorting the submitted files

  const MarkdownSeparator: string := "\n\n---\n\n"

  predicate IsDocument(p: string)
  {
    EndsWith(p, ".pdf") || EndsWith(p, ".docx") || EndsWith(p, ".doc") || EndsWith(p, ".txt")
  }

  predicate IsCodeFile(p: string)
  {
    EndsWith(p, ".ipynb") || EndsWith(p, ".py")
  }

  /** The files code is extracted from, each notebook's markdown cells
      joined under the notebook's name, and each document's non-empty text
      under the document's name. */
  datatype SortedFiles = SortedFiles(codePaths: seq<string>, markdown: Dict.Dict<string>, documents: Dict.Dict<string>)

  /** One file added: notebooks and Python files are kept for code
      extraction, a notebook also gives its markdown, and a document gives
      its text when there is any. */
  function AddFile(s: SortedFiles, p: string, markdownOf: string -> seq<string>, textOf: string -> string): SortedFiles
  {
    if EndsWith(p, ".ipynb") then
      s.(codePaths := s.codePaths + [p], markdown := Dict.Put(s.markdown, Paths.Name(p), Join(markdownOf(p), MarkdownSeparator)))
    else if EndsWith(p, ".py") then s.(codePaths := s.codePaths + [p])
    else if IsDocument(p) && textOf(p) != "" then s.(documents := Dict.Put(s.documents, Paths.Name(p), textOf(p)))
    else s
  }

  function SortFiles(paths: seq<string>, markdownOf: string -> seq<string>, textOf: string -> string): SortedFiles
  {
    if |paths| == 0 then SortedFiles([], [], [])
    else AddFile(SortFiles(paths[..|paths| - 1], markdownOf, textOf), paths[|paths| - 1], markdownOf, textOf)
  }

  /** The loop over the submitted files that fills the three collections. */
  method SortSubmissionFiles(paths: seq<string>, markdownOf: string -> seq<string>, textOf: string -> string)
    returns (s: SortedFiles)
    ensures s == SortFiles(paths, markdownOf, textOf)
  {
    s := SortedFiles([], [], []);
    for i := 0 to |paths|
      invariant s == SortFiles(paths[..i], markdownOf, textOf)
    {
      assert paths[..i + 1][..i] == paths[..i];
      s := AddFile(s, paths[i], markdownOf, textOf);
    }
    assert paths[..|paths|] == paths;
  }

  /** Code is extracted from exactly the notebooks and Python files, in
      submission order. */
  lemma {:induction false} CodePathsAreCodeFiles(paths: seq<string>, markdownOf: string -> seq<string>, textOf: string -> string)
    ensures SortFiles(paths, markdownOf, textOf).codePaths == Filtered(paths)
  {
    if |paths| > 0 {
      CodePathsAreCodeFiles(paths[..|paths| - 1], markdownOf, textOf);
    }
  }

  /** The notebooks and Python files among `paths`, in order. */
  function Filtered(paths: seq<string>): (r: seq<string>)
    ensures forall p :: p in r <==> p in paths && IsCodeFile(p)
  {
    if |paths| == 0 then []
    else
      var init := Filtered(paths[..|paths| - 1]);
      var last := paths[|paths| - 1];
      assert paths == paths[..|paths| - 1] + [last];
      if IsCodeFile(last) then init + [last] else init
  }

  /** Every stored document text is non-empty. */
  lemma {:induction false} DocumentsNonEmpty(paths: seq<string>, markdownOf: string -> seq<string>, textOf: string -> string)
    ensures forall k :: Dict.HasKey(SortFiles(paths, markdownOf, textOf).documents, k) ==>
      Dict.Get(SortFiles(paths, markdownOf, textOf).documents, k).value != ""
  {
    if |paths| > 0 {
      var init := SortFiles(paths[..|paths| - 1], markdownOf, textOf);
      DocumentsNonEmpty(paths[..|paths| - 1], markdownOf, textOf);
      var p := paths[|paths| - 1];
      forall k | Dict.HasKey(SortFiles(paths, markdownOf, textOf).documents, k)
        ensures Dict.Get(SortFiles(paths, markdownOf, textOf).documents, k).value != ""
      {
        if !EndsWith(p, ".ipynb") && !EndsWith(p, ".py") && IsDocument(p) && textOf(p) != "" {
          Dict.GetPut(init.documents, Paths.Name(p), textOf(p), k);
        }
      }
    }
  }

  /** No content at all: nothing to give feedback on. */
  predicate NothingExtracted(code: Dict.Dict<string>, s: SortedFiles)
  {
    |code| == 0 && |s.markdown| == 0 && |s.documents| == 0
  }

  // ---------------------------------------------------------------------
  // Prompt variables

  /** What one student contributes to the prompts: code by file name,
      markdown by notebook name, document text by file name, test results
      by group, and the style reports when they were found. */
  datatype StudentContent = StudentContent(
    code: Dict.Dict<string>,
    markdown: Dict.Dict<string>,
    documents: Dict.Dict<string>,
    tests: Dict.Dict<Json>,
    flake8: Option<string>,
    black: Option<string>)

  const NoFlake8: string := "No Flake8 output available."
  const NoBlack: string := "No Black output available."

  /** `"data_type:specifier".split(':', 1)`: the data type and, when there
      is a `:`, the text after the first one. */
  function SplitSpecifier(specifier: string): (r: (string, Option<string>))
    ensures !Contains(specifier, ":") ==> r == (specifier, None)
    ensures Contains(specifier, ":") ==> r.1.Some? && specifier == r.0 + ":" + r.1.value && ':' !in r.0
  {
    match Cut(specifier, ":")
    case None => (specifier, None)
    case Some((kind, key)) =>
      assert ':' !in kind by {
        forall j | 0 <= j < |kind| ensures kind[j] != ':' {
          assert specifier[j] == kind[j];
          assert !OccursAt(specifier, ":", j);
          assert specifier[j..j + 1] == [kind[j]];
        }
      }
      (kind, Some(key))
  }

  /** The content a file key gives: the file's text when it is there and
      not empty, otherwise the empty text. */
  function FileText(files: Dict.Dict<string>, key: string): (t: string)
    ensures Dict.HasKey(files, key) ==> t == Dict.Get(files, key).value
    ensures !Dict.HasKey(files, key) ==> t == ""
  {
    var found := Dict.Get(files, key);
    if found.Some? && found.value != "" then found.value else ""
  }

  /** A report's text, or the fixed note when it is absent or empty. */
  function ReportOr(report: Option<string>, note: string): (t: string)
    ensures report.Some? && report.value != "" ==> t == report.value
    ensures report.None? || report.value == "" ==> t == note
  {
    if report.Some? && report.value != "" then report.value else note
  }

  function NotFoundText(placeholder: string): string
  {
    "[Data not found for " + placeholder + "]"
  }

  /** The data types that name one entry and need a non-empty key. */
  predicate KeyedKind(kind: string)
  {
    kind in {"code_file", "test_group", "document_file", "markdown_file"}
  }

  predicate WholeKind(kind: string)
  {
    kind in {"all_code", "all_markdown_content", "flake8_report_data", "black_report_data"}
  }

  /** The value of one placeholder of a module's `required_data`. */
  function Resolve(placeholder: string, specifier: string, c: StudentContent): (v: Json)
    ensures var (kind, key) := SplitSpecifier(specifier);
      var keyed := key.Some? && key.value != "";
      (kind == "code_file" && keyed ==> v == Str(FileText(c.code, key.value))) &&
      (kind == "document_file" && keyed ==> v == Str(FileText(c.documents, key.value))) &&
      (kind == "markdown_file" && keyed ==> v == Str(FileText(c.markdown, key.value))) &&
      (kind == "test_group" && keyed && !Dict.HasKey(c.tests, key.value) ==> v == Obj([])) &&
      (kind == "test_group" && keyed && Dict.HasKey(c.tests, key.value) ==>
         v == if Truthy(Dict.Get(c.tests, key.value).value) then Dict.Get(c.tests, key.value).value else Obj([])) &&
      (kind == "all_code" ==> v == Str(Join(Dict.Values(c.code), "\n"))) &&
      (kind == "all_markdown_content" ==> v == Str(Join(Dict.Values(c.markdown), MarkdownSeparator))) &&
      (kind == "flake8_report_data" ==> v == Str(ReportOr(c.flake8, NoFlake8))) &&
      (kind == "black_report_data" ==> v == Str(ReportOr(c.black, NoBlack))) &&
      (!WholeKind(kind) && !(KeyedKind(kind) && keyed) ==> v == Str(NotFoundText(placeholder)))
  {
    var (kind, key) := SplitSpecifier(specifier);
    var keyed := key.Some? && key.value != "";
    if kind == "code_file" && keyed then Str(FileText(c.code, key.value))
    else if kind == "all_code" then Str(Join(Dict.Values(c.code), "\n"))
    else if kind == "test_group" && keyed then
      var found := Dict.Get(c.tests, key.value);
      if found.Some? && Truthy(found.value) then found.value else Obj([])
    else if kind == "document_file" && keyed then Str(FileText(c.documents, key.value))
    else if kind == "markdown_file" && keyed then Str(FileText(c.markdown, key.value))
    else if kind == "all_markdown_content" then Str(Join(Dict.Values(c.markdown), MarkdownSeparator))
    else if kind == "flake8_report_data" then Str(ReportOr(c.flake8, NoFlake8))
    else if kind == "black_report_data" then Str(ReportOr(c.black, NoBlack))
    else Str(NotFoundText(placeholder))
  }

  /** The placeholders of `required` resolved in order, each by
      `resolve(placeholder, specifier)`. */
  function Resolved(required: Dict.Dict<string>, resolve: (string, string) -> Json): Dict.Dict<Json>
  {
    if |required| == 0 then []
    else
      var (p, spec) := required[|required| - 1];
      Dict.Put(Resolved(required[..|required| - 1], resolve), p, resolve(p, spec))
  }

  const GlobalNames: set<string> :=
    {"task_name", "user_name", "all_student_code", "all_student_markdown_by_file", "all_document_text", "all_test_results"}

  /** The variables every module gets after its own placeholders, set one
      after another. */
  function WithGlobals(vars: Dict.Dict<Json>, c: StudentContent, taskName: string, userName: string): Dict.Dict<Json>
  {
    var v1 := Dict.Put(vars, "task_name", Str(taskName));
    var v2 := Dict.Put(v1, "user_name", Str(userName));
    var v3 := Dict.Put(v2, "all_student_code", StrObj(c.code));
    var v4 := Dict.Put(v3, "all_student_markdown_by_file", StrObj(c.markdown));
    var v5 := Dict.Put(v4, "all_document_text", StrObj(c.documents));
    Dict.Put(v5, "all_test_results", Obj(c.tests))
  }

  /** The prompt variables of a module. */
  function PromptVars(required: Dict.Dict<string>, c: StudentContent, taskName: string, userName: string): Dict.Dict<Json>
  {
    WithGlobals(Resolved(required, (p, spec) => Resolve(p, spec, c)), c, taskName, userName)
  }

  /** The loop filling `prompt_template_vars`, then the global entries. */
  method GatherPromptVars(required: Dict.Dict<string>, c: StudentContent, taskName: string, userName: string)
    returns (vars: Dict.Dict<Json>)
    ensures vars == PromptVars(required, c, taskName, userName)
  {
    vars := [];
    for i := 0 to |required|
      invariant vars == Resolved(required[..i], (p, spec) => Resolve(p, spec, c))
    {
      assert required[..i + 1][..i] == required[..i];
      var (p, spec) := required[i];
      vars := Dict.Put(vars, p, Resolve(p, spec, c));
    }
    assert required[..|required|] == required;
    vars := WithGlobals(vars, c, taskName, userName);
  }

  /** The global entries are always set, whatever the placeholders were,
      and every other name keeps its value. */
  lemma {:induction false} GlobalValues(vars: Dict.Dict<Json>, c: StudentContent, taskName: string, userName: string, k: string)
    ensures var r := WithGlobals(vars, c, taskName, userName);
      (k == "task_name" ==> Dict.Get(r, k) == Some(Str(taskName))) &&
      (k == "user_name" ==> Dict.Get(r, k) == Some(Str(userName))) &&
      (k == "all_student_code" ==> Dict.Get(r, k) == Some(StrObj(c.code))) &&
      (k == "all_student_markdown_by_file" ==> Dict.Get(r, k) == Some(StrObj(c.markdown))) &&
      (k == "all_document_text" ==> Dict.Get(r, k) == Some(StrObj(c.documents))) &&
      (k == "all_test_results" ==> Dict.Get(r, k) == Some(Obj(c.tests))) &&
      (k !in GlobalNames ==> Dict.Get(r, k) == Dict.Get(vars, k))
  {
    var v1 := Dict.Put(vars, "task_name", Str(taskName));
    var v2 := Dict.Put(v1, "user_name", Str(userName));
    var v3 := Dict.Put(v2, "all_student_code", StrObj(c.code));
    var v4 := Dict.Put(v3, "all_student_markdown_by_file", StrObj(c.markdown));
    var v5 := Dict.Put(v4, "all_document_text", StrObj(c.documents));
    Dict.GetPut(vars, "task_name", Str(taskName), k);
    Dict.GetPut(v1, "user_name", Str(userName), k);
    Dict.GetPut(v2, "all_student_code", StrObj(c.code), k);
    Dict.GetPut(v3, "all_student_markdown_by_file", StrObj(c.markdown), k);
    Dict.GetPut(v4, "all_document_text", StrObj(c.documents), k);
    Dict.GetPut(v5, "all_test_results", Obj(c.tests), k);
  }

  /** Each placeholder that is not a global name holds its resolved value. */
  lemma PlaceholderResolved(required: Dict.Dict<string>, c: StudentContent, taskName: string, userName: string, i: nat)
    requires Dict.UniqueKeys(required) && i < |required| && required[i].0 !in GlobalNames
    ensures Dict.Get(PromptVars(required, c, taskName, userName), required[i].0) ==
      Some(Resolve(required[i].0, required[i].1, c))
  {
    GlobalValues(Resolved(required, (p, spec) => Resolve(p, spec, c)), c, taskName, userName, required[i].0);
    ResolvedHolds(required, (p, spec) => Resolve(p, spec, c), i);
  }

  lemma {:induction false} ResolvedHolds(required: Dict.Dict<string>, resolve: (string, string) -> Json, i: nat)
    requires Dict.UniqueKeys(required) && i < |required|
    ensures Dict.Get(Resolved(required, resolve), required[i].0) == Some(resolve(required[i].0, required[i].1))
    decreases |required|
  {
    var n := |required| - 1;
    var init := required[..n];
    var (p, spec) := required[n];
    Dict.GetPut(Resolved(init, resolve), p, resolve(p, spec), required[i].0);
    if i < n {
      assert init[i] == required[i];
      assert Dict.UniqueKeys(init);
      ResolvedHolds(init, resolve, i);
    }
  }

  // ---------------------------------------------------------------------
  // One module

  const DefaultSystemPrompt: string :=
    "You are a helpful teaching assistant providing feedback on a specific part of a student's assignment."
  const DefaultOutputModel: string := "TextFeedback"
  const UserTemplateMissing: string := ModuleFeedback.ErrorText("User prompt template missing for this module.")
  const PromptsNotPopulated: string := ModuleFeedback.ErrorText("Could not populate prompts for this module.")

  /** The message naming the key a prompt template is missing. */
  function MissingKeyText(key: string): string
  {
    ModuleFeedback.ErrorText("Configuration error for prompt variables (missing key: " + key + ").")
  }

  /** A module of the task configuration; absent entries are `None`. */
  datatype ModuleConfig = ModuleConfig(
    moduleId: Option<string>,
    requiredData: Dict.Dict<string>,
    systemTemplate: Option<string>,
    userTemplate: Option<string>,
    outputModel: Option<string>)

  /** What the pipeline is run with: whether feedback is skipped, the
      registered output models, the language model's outcome for a module
      id and its two prompts, the output-model parser and Python's `str()`
      of a non-string value. */
  datatype Environment = Environment(
    skipFeedback: bool,
    registry: set<string>,
    llm: (string, string, string) -> ModuleFeedback.LlmOutcome,
    parse: (string, string) -> ModuleFeedback.Parse,
    show: Json -> string)

  predicate IsKeyError(e: string)
  {
    StartsWith(e, Template.KeyErrorPrefix)
  }

  /** The quoted key a key error names. */
  function KeyErrorName(e: string): string
    requires IsKeyError(e)
  {
    e[|Template.KeyErrorPrefix|..]
  }

  /** The output recorded when the prompts cannot be filled in: a missing
      key is named, any other formatting error gets a general message;
      either way it reads as an error. */
  function PopulateError(e: string): (r: string)
    ensures StartsWith(r, "Error: ")
    ensures IsKeyError(e) ==> r == MissingKeyText(KeyErrorName(e))
    ensures !IsKeyError(e) ==> r == PromptsNotPopulated
  {
    if IsKeyError(e) then MissingKeyText(KeyErrorName(e)) else PromptsNotPopulated
  }

  function SkippedText(moduleId: string): string
  {
    "LLM processing skipped for module " + moduleId + " (as per --skip-feedback)."
  }

  /** The system prompt and then the user prompt, filled in. */
  function Prompts(m: ModuleConfig, values: Dict.Dict<string>): Result<(string, string)>
  {
    match Template.Format(m.systemTemplate.GetOr(DefaultSystemPrompt), values)
    case Err(e) => Err(e)
    case Ok(systemPrompt) =>
      match Template.Format(m.userTemplate.GetOr(""), values)
      case Err(e) => Err(e)
      case Ok(userPrompt) => Ok((systemPrompt, userPrompt))
  }

  predicate HasUserTemplate(m: ModuleConfig)
  {
    m.userTemplate.Some? && m.userTemplate.value != ""
  }

  /** The output one module records. */
  function ModuleText(moduleId: string, m: ModuleConfig, vars: Dict.Dict<Json>, env: Environment): (r: string)
  {
    if !HasUserTemplate(m) then UserTemplateMissing
    else
      match Prompts(m, MarkingPipelines.Shown(vars, env.show))
      case Err(e) => PopulateError(e)
      case Ok((systemPrompt, userPrompt)) =>
        if env.skipFeedback then SkippedText(moduleId)
        else
          ModuleFeedback.GenerateFeedback(moduleId, Some(m.outputModel.GetOr(DefaultOutputModel)), env.registry,
                                          env.llm(moduleId, systemPrompt, userPrompt), env.parse)
  }

  /** Without a user template, with prompts that cannot be filled in, or
      with feedback skipped, the language model is not consulted: the
      output is the same whatever it would have answered. */
  lemma NoCallOnError(moduleId: string, m: ModuleConfig, vars: Dict.Dict<Json>, env: Environment,
                      other: (string, string, string) -> ModuleFeedback.LlmOutcome)
    requires !HasUserTemplate(m) || Prompts(m, MarkingPipelines.Shown(vars, env.show)).Err? || env.skipFeedback
    ensures ModuleText(moduleId, m, vars, env) == ModuleText(moduleId, m, vars, env.(llm := other))
    ensures !HasUserTemplate(m) ==> ModuleText(moduleId, m, vars, env) == UserTemplateMissing
    ensures HasUserTemplate(m) && Prompts(m, MarkingPipelines.Shown(vars, env.show)).Err? ==>
      StartsWith(ModuleText(moduleId, m, vars, env), "Error: ")
  {
  }

  /** A user template naming a variable the module does not have gives
      the configuration error naming that key. */
  lemma UnknownKeyNamed(moduleId: string, m: ModuleConfig, vars: Dict.Dict<Json>, env: Environment, name: string)
    requires Template.PlainName(name) && name != "" && !IsDigits(name) && !Dict.HasKey(vars, name)
    requires m.userTemplate == Some("{" + name + "}")
    requires Template.Format(m.systemTemplate.GetOr(DefaultSystemPrompt), MarkingPipelines.Shown(vars, env.show)).Ok?
    ensures ModuleText(moduleId, m, vars, env) == MissingKeyText("'" + name + "'")
  {
    var values := MarkingPipelines.Shown(vars, env.show);
    forall j | 0 <= j < |values| ensures values[j].0 != name {
      assert Dict.Keys(values)[j] == Dict.Keys(vars)[j] == vars[j].0;
    }
    Template.MissingFieldFails(name, values);
    var e := Template.MissingKey(name);
    assert Prompts(m, values) == Err(e);
    assert IsKeyError(e);
    assert PopulateError(e) == MissingKeyText("'" + name + "'");
  }

  // ---------------------------------------------------------------------
  // All modules

  /** The output a module with an id records. */
  function ModuleOutput(m: ModuleConfig, c: StudentContent, taskName: string, userName: string, env: Environment): string
  {
    ModuleText(m.moduleId.GetOr(""), m, PromptVars(m.requiredData, c, taskName, userName), env)
  }

  /** The outputs of the modules, by id, as the loop records them, each
      module with an id recording `text(module)`. */
  function Outputs(modules: seq<ModuleConfig>, text: ModuleConfig -> string): Dict.Dict<string>
  {
    if |modules| == 0 then []
    else
      var outputs := Outputs(modules[..|modules| - 1], text);
      var m := modules[|modules| - 1];
      if m.moduleId.None? || m.moduleId.value == "" then outputs
      else Dict.Put(outputs, m.moduleId.value, text(m))
  }

  /** One more module: its output recorded under its id, if it has one. */
  lemma OutputsStep(modules: seq<ModuleConfig>, text: ModuleConfig -> string, i: nat)
    requires i < |modules|
    ensures Named(modules[i], modules[i].moduleId.GetOr("")) ==>
      Outputs(modules[..i + 1], text) == Dict.Put(Outputs(modules[..i], text), modules[i].moduleId.value, text(modules[i]))
    ensures !Named(modules[i], modules[i].moduleId.GetOr("")) ==>
      Outputs(modules[..i + 1], text) == Outputs(modules[..i], text)
  {
    assert modules[..i + 1][..i] == modules[..i];
  }

  /** The loop over the configured modules. */
  method ProcessModules(modules: seq<ModuleConfig>, c: StudentContent, taskName: string, userName: string, env: Environment)
    returns (outputs: Dict.Dict<string>)
    ensures outputs == Outputs(modules, m => ModuleOutput(m, c, taskName, userName, env))
  {
    outputs := [];
    for i := 0 to |modules|
      invariant outputs == Outputs(modules[..i], m => ModuleOutput(m, c, taskName, userName, env))
    {
      var m := modules[i];
      OutputsStep(modules, m => ModuleOutput(m, c, taskName, userName, env), i);
      if m.moduleId.Some? && m.moduleId.value != "" {
        var vars := GatherPromptVars(m.requiredData, c, taskName, userName);
        assert ModuleText(m.moduleId.value, m, vars, env) == ModuleOutput(m, c, taskName, userName, env);
        outputs := Dict.Put(outputs, m.moduleId.value, ModuleText(m.moduleId.value, m, vars, env));
      }
    }
    assert modules[..|modules|] == modules;
  }

  predicate Named(m: ModuleConfig, k: string)
  {
    m.moduleId == Some(k) && k != ""
  }

  /** There is an output for exactly the ids of the modules that have one;
      modules without an id are skipped. */
  lemma {:induction false} OutputsKeys(modules: seq<ModuleConfig>, text: ModuleConfig -> string, k: string)
    ensures Dict.HasKey(Outputs(modules, text), k) <==> SomeNamed(modules, k)
  {
    if |modules| > 0 {
      var init := modules[..|modules| - 1];
      var m := modules[|modules| - 1];
      OutputsKeys(init, text, k);
      var prev := Outputs(init, text);
      if m.moduleId.Some? && m.moduleId.value != "" {
        Dict.GetPut(prev, m.moduleId.value, text(m), k);
      }
      SomeNamedSnoc(modules, k);
    }
  }

  /** Some module has id `k`. */
  predicate SomeNamed(modules: seq<ModuleConfig>, k: string)
  {
    exists i :: 0 <= i < |modules| && Named(modules[i], k)
  }

  /** Some module of a non-empty list has id `k` exactly when some module
      before the last has it or the last one has it. */
  lemma SomeNamedSnoc(modules: seq<ModuleConfig>, k: string)
    requires |modules| > 0
    ensures SomeNamed(modules, k) <==> SomeNamed(modules[..|modules| - 1], k) || Named(modules[|modules| - 1], k)
  {
    var init := modules[..|modules| - 1];
    if SomeNamed(modules, k) {
      var i :| 0 <= i < |modules| && Named(modules[i], k);
      if i < |init| {
        assert init[i] == modules[i];
      }
    }
    if SomeNamed(init, k) {
      var i :| 0 <= i < |init| && Named(init[i], k);
      assert modules[i] == init[i];
    }
  }

  /** A module's id holds the output of the last module with that id. */
  lemma {:induction false} OutputOfLast(modules: seq<ModuleConfig>, text: ModuleConfig -> string, i: nat)
    requires i < |modules| && modules[i].moduleId.Some? && modules[i].moduleId.value != ""
    requires forall j :: i < j < |modules| ==> modules[j].moduleId != modules[i].moduleId
    ensures Dict.Get(Outputs(modules, text), modules[i].moduleId.value) == Some(text(modules[i]))
  {
    var n := |modules| - 1;
    var init := modules[..n];
    var m := modules[n];
    var id := modules[i].moduleId.value;
    var prev := Outputs(init, text);
    if i == n {
      assert Outputs(modules, text) == Dict.Put(prev, id, text(m));
      Dict.GetPut(prev, id, text(m), id);
    } else {
      assert init[i] == modules[i];
      forall j | i < j < |init| ensures init[j].moduleId != init[i].moduleId {
        assert init[j] == modules[j];
      }
      OutputOfLast(init, text, i);
      assert m.moduleId != Some(id);
      if m.moduleId.None? || m.moduleId.value == "" {
        assert Outputs(modules, text) == prev;
      } else {
        assert Outputs(modules, text) == Dict.Put(prev, m.moduleId.value, text(m));
        Dict.GetPut(prev, m.moduleId.value, text(m), id);
      }
    }
  }

  // ---------------------------------------------------------------------
  // The report

  const DefaultHeader: string := "# Feedback for {task_name} - {user_name}\n"
  const DefaultTitle: string := "### Module: {module_id}\n"
  const DefaultFooter: string := "\n---\nEnd of feedback."

  /** A report section: the module whose output it shows and its title
      template. */
  datatype Section = Section(moduleId: Option<string>, title: Option<string>)

  datatype ReportStructure = ReportStructure(header: Option<string>, sections: seq<Section>, footer: Option<string>)

  /** Python's `str()` of a section's module id. */
  function IdText(moduleId: Option<string>): string
  {
    if moduleId.Some? then moduleId.value else "None"
  }

  /** A formatted piece, or the fixed text when formatting raised a
      `KeyError`; any other error is not caught. */
  function OrOnKeyError(formatted: Result<string>, fallback: string): (r: Result<string>)
    ensures formatted.Ok? ==> r == formatted
    ensures formatted.Err? && IsKeyError(formatted.error) ==> r == Ok(fallback)
    ensures formatted.Err? && !IsKeyError(formatted.error) ==> r == formatted
  {
    if formatted.Err? && IsKeyError(formatted.error) then Ok(fallback) else formatted
  }

  function ReportValues(taskName: string, userName: string, userId: string): Dict.Dict<string>
  {
    [("task_name", taskName), ("user_name", userName), ("user_id", userId)]
  }

  function Header(rs: ReportStructure, taskName: string, userName: string, userId: string): Result<string>
  {
    OrOnKeyError(Template.Format(rs.header.GetOr(DefaultHeader), ReportValues(taskName, userName, userId)),
                 "# Feedback for " + taskName + " - " + userName + " (" + userId + ")\n")
  }

  function Footer(rs: ReportStructure, taskName: string, userName: string, userId: string): Result<string>
  {
    OrOnKeyError(Template.Format(rs.footer.GetOr(DefaultFooter), ReportValues(taskName, userName, userId)),
                 "\n---\nEnd of feedback for " + userName + " (" + userId + ").")
  }

  function Title(s: Section, taskName: string, userName: string, userId: string): Result<string>
  {
    OrOnKeyError(Template.Format(s.title.GetOr(DefaultTitle), [("module_id", IdText(s.moduleId))] + ReportValues(taskName, userName, userId)),
                 "### Module: " + IdText(s.moduleId))
  }

  /** The output a section shows: the module's output, or a note that
      there is none. */
  function SectionBody(s: Section, outputs: Dict.Dict<string>): (body: string)
    ensures s.moduleId.Some? && Dict.HasKey(outputs, s.moduleId.value) ==> body == Dict.Get(outputs, s.moduleId.value).value
    ensures s.moduleId.None? || !Dict.HasKey(outputs, s.moduleId.value) ==>
      body == "Content for module '" + IdText(s.moduleId) + "' not found or module failed."
  {
    if s.moduleId.Some? && Dict.HasKey(outputs, s.moduleId.value) then Dict.Get(outputs, s.moduleId.value).value
    else "Content for module '" + IdText(s.moduleId) + "' not found or module failed."
  }

  function SectionText(title: string, body: string): string
  {
    "\n" + title + "\n" + body + "\n"
  }

  /** The sections one after another, each with its title and body; the
      first title that fails to format ends the report with its error. */
  function Sections(sections: seq<Section>, title: Section -> Result<string>, body: Section -> string): Result<string>
  {
    if |sections| == 0 then Ok("")
    else
      var s := sections[|sections| - 1];
      match Sections(sections[..|sections| - 1], title, body)
      case Err(e) => Err(e)
      case Ok(text) =>
        match title(s)
        case Err(e) => Err(e)
        case Ok(t) => Ok(text + SectionText(t, body(s)))
  }

  /** The report: header, sections and footer, or the first error that is
      not a `KeyError`. */
  function Report(rs: ReportStructure, outputs: Dict.Dict<string>, taskName: string, userName: string, userId: string)
    : Result<string>
  {
    match Header(rs, taskName, userName, userId)
    case Err(e) => Err(e)
    case Ok(header) =>
      match Sections(rs.sections, s => Title(s, taskName, userName, userId), s => SectionBody(s, outputs))
      case Err(e) => Err(e)
      case Ok(body) =>
        match Footer(rs, taskName, userName, userId)
        case Err(e) => Err(e)
        case Ok(footer) => Ok(header + body + footer)
  }

  /** Once a title has failed, the sections after it do not change the
      outcome. */
  lemma {:induction false} SectionsFailureSticks(sections: seq<Section>, title: Section -> Result<string>,
                                                 body: Section -> string, i: nat)
    requires i <= |sections| && Sections(sections[..i], title, body).Err?
    ensures Sections(sections, title, body) == Sections(sections[..i], title, body)
    decreases |sections| - i
  {
    if i < |sections| {
      assert sections[..i + 1][..i] == sections[..i];
      SectionsFailureSticks(sections, title, body, i + 1);
    } else {
      assert sections[..i] == sections;
    }
  }

  /** One more section: its title's error, or its text appended. */
  lemma SectionsStep(sections: seq<Section>, title: Section -> Result<string>, body: Section -> string, i: nat)
    requires i < |sections| && Sections(sections[..i], title, body).Ok?
    ensures title(sections[i]).Err? ==> Sections(sections[..i + 1], title, body) == Err(title(sections[i]).error)
    ensures title(sections[i]).Ok? ==>
      Sections(sections[..i + 1], title, body) ==
        Ok(Sections(sections[..i], title, body).value + SectionText(title(sections[i]).value, body(sections[i])))
  {
    assert sections[..i + 1][..i] == sections[..i];
  }

  /** The loop appending each section's title and body to the report,
      stopping at the first title that fails. */
  method AppendSections(sections: seq<Section>, title: Section -> Result<string>, body: Section -> string)
    returns (r: Result<string>)
    ensures r == Sections(sections, title, body)
  {
    var content := "";
    for i := 0 to |sections|
      invariant Sections(sections[..i], title, body) == Ok(content)
    {
      var s := sections[i];
      var t := title(s);
      SectionsStep(sections, title, body, i);
      if t.Err? {
        SectionsFailureSticks(sections, title, body, i + 1);
        return Err(t.error);
      }
      content := content + SectionText(t.value, body(s));
    }
    assert sections[..|sections|] == sections;
    r := Ok(content);
  }

  /** `final_report_content`: the header, the sections and the footer. */
  method AssembleReport(rs: ReportStructure, outputs: Dict.Dict<string>, taskName: string, userName: string, userId: string)
    returns (r: Result<string>)
    ensures r == Report(rs, outputs, taskName, userName, userId)
  {
    var header := Header(rs, taskName, userName, userId);
    if header.Err? {
      return Err(header.error);
    }
    var sections := AppendSections(rs.sections, s => Title(s, taskName, userName, userId), s => SectionBody(s, outputs));
    if sections.Err? {
      return Err(sections.error);
    }
    var footer := Footer(rs, taskName, userName, userId);
    if footer.Err? {
      return Err(footer.error);
    }
    r := Ok(header.value + sections.value + footer.value);
  }

  /** A report that is produced starts with the header, ends with the
      footer, and shows every section's title and output in turn. */
  lemma ReportLayout(rs: ReportStructure, outputs: Dict.Dict<string>, taskName: string, userName: string,
                     userId: string, k: nat)
    requires Report(rs, outputs, taskName, userName, userId).Ok? && k < |rs.sections|
    ensures var r := Report(rs, outputs, taskName, userName, userId).value;
      var s := rs.sections[k];
      Header(rs, taskName, userName, userId).Ok? && Footer(rs, taskName, userName, userId).Ok? &&
      Title(s, taskName, userName, userId).Ok? &&
      StartsWith(r, Header(rs, taskName, userName, userId).value) &&
      EndsWith(r, Footer(rs, taskName, userName, userId).value) &&
      Contains(r, SectionText(Title(s, taskName, userName, userId).value, SectionBody(s, outputs)))
  {
    var titleOf := s => Title(s, taskName, userName, userId);
    var bodyOf := s => SectionBody(s, outputs);
    var header := Header(rs, taskName, userName, userId).value;
    var body := Sections(rs.sections, titleOf, bodyOf).value;
    var footer := Footer(rs, taskName, userName, userId).value;
    SectionInSections(rs.sections, titleOf, bodyOf, k);
    MarkingPipelines.ContainsWithin(header, body, footer,
      SectionText(Title(rs.sections[k], taskName, userName, userId).value, SectionBody(rs.sections[k], outputs)));
  }

  /** Every section's title and body appear in the sections' text. */
  lemma {:induction false} SectionInSections(sections: seq<Section>, title: Section -> Result<string>,
                                             body: Section -> string, k: nat)
    requires Sections(sections, title, body).Ok? && k < |sections|
    ensures title(sections[k]).Ok?
    ensures Contains(Sections(sections, title, body).value, SectionText(title(sections[k]).value, body(sections[k])))
    decreases |sections|
  {
    var n := |sections| - 1;
    var init := sections[..n];
    var prev := Sections(init, title, body);
    var s := sections[n];
    assert prev.Ok? && title(s).Ok?;
    var piece := SectionText(title(s).value, body(s));
    var whole := prev.value + piece;
    assert Sections(sections, title, body).value == whole;
    if k < n {
      assert init[k] == sections[k];
      SectionInSections(init, title, body, k);
      var p := SectionText(title(sections[k]).value, body(sections[k]));
      var j :| 0 <= j <= |prev.value| && OccursAt(prev.value, p, j);
      assert whole[j..j + |p|] == prev.value[j..j + |p|];
      assert OccursAt(whole, p, j);
    } else {
      assert whole[|prev.value|..|prev.value| + |piece|] == piece;
      assert OccursAt(whole, piece, |prev.value|);
    }
  }

  // ---------------------------------------------------------------------
  // File names

  /** The report's file extension: `txt` for the text format, otherwise
      the format's own name. */
  function ReportExtension(format: string): (ext: string)
    ensures format == "text" ==> ext == "txt"
    ensures format != "text" ==> ext == format
  {
    if format != "text" then format else "txt"
  }

  /** The student's name with every space made an underscore. */
  function SafeUserName(userName: string): (u: string)
    ensures u == FileSafe(userName, {})
    ensures ' ' !in u && |u| == |userName|
  {
    SpacesUnderscored(userName);
    ReplaceCharRemoves(userName, ' ', "_");
    ReplaceCharLength(userName, ' ', '_');
    Replace(userName, " ", "_")
  }

  /** The part of every file name that identifies the student and the
      task: the name without spaces, the id and the task, joined by `_`. */
  function StudentTaskPart(userName: string, userId: string, taskName: string): (r: string)
    ensures StartsWith(r, SafeUserName(userName))
    ensures EndsWith(r, "_" + userId + "_" + taskName)
  {
    var u := SafeUserName(userName);
    var tail := "_" + userId + "_" + taskName;
    assert (u + tail)[..|u|] == u;
    assert (u + tail)[|u|..] == tail;
    u + tail
  }

  function ReportFileName(userName: string, userId: string, taskName: string, format: string): (n: string)
    ensures StartsWith(n, StudentTaskPart(userName, userId, taskName))
    ensures EndsWith(n, "_modular_feedback." + ReportExtension(format))
  {
    var stem := StudentTaskPart(userName, userId, taskName);
    var tail := "_modular_feedback." + ReportExtension(format);
    assert (stem + tail)[..|stem|] == stem;
    assert (stem + tail)[|stem|..] == tail;
    stem + tail
  }

  const SubmissionSuffix: string := "_submission.json"

  function ResultsFileName(userName: string, userId: string, taskName: string): string
  {
    StudentTaskPart(userName, userId, taskName) + SubmissionSuffix
  }

  /** The style report's file name: the results file name with
      `_submission.json` replaced by `_<tool>_results.json`. */
  function QualityFileName(resultsName: string, tool: string): string
  {
    Replace(resultsName, SubmissionSuffix, "_" + tool + "_results.json")
  }

  /** When the student, id and task have no `.`, the style report's name
      is the results name with its suffix swapped. */
  lemma QualityFileNameSwapsSuffix(userName: string, userId: string, taskName: string, tool: string)
    requires '.' !in userName && '.' !in userId && '.' !in taskName
    ensures QualityFileName(ResultsFileName(userName, userId, taskName), tool) ==
      StudentTaskPart(userName, userId, taskName) + "_" + tool + "_results.json"
  {
    var stem := StudentTaskPart(userName, userId, taskName);
    var s := stem + SubmissionSuffix;
    StemDotFree(userName, userId, taskName);
    SuffixFirstAfter(stem, s);
    FindFirst(s, SubmissionSuffix, |stem|);
    var rep := "_" + tool + "_results.json";
    ReplaceAt(s, SubmissionSuffix, rep, |stem|);
    assert s[|stem| + |SubmissionSuffix|..] == "";
    ReplaceAbsent("", SubmissionSuffix, rep);
    assert s[..|stem|] == stem;
    assert stem + rep + "" == stem + rep;
    Assoc3(stem, "_", tool);
    Assoc3(stem, "_" + tool, "_results.json");
  }

  /** In a dot-free stem followed by the suffix, the suffix first occurs
      right after the stem. */
  lemma SuffixFirstAfter(stem: string, s: string)
    requires (forall j :: 0 <= j < |stem| ==> stem[j] != '.') && s == stem + SubmissionSuffix
    ensures OccursAt(s, SubmissionSuffix, |stem|)
    ensures forall j :: 0 <= j < |stem| ==> !OccursAt(s, SubmissionSuffix, j)
  {
    forall j | 0 <= j < |stem| ensures !OccursAt(s, SubmissionSuffix, j) {
      if j + |SubmissionSuffix| <= |s| {
        assert s[j + 11] != '.' by {
          if j + 11 < |stem| {
            assert s[j + 11] == stem[j + 11];
          } else {
            assert s[j + 11] == SubmissionSuffix[j + 11 - |stem|];
          }
        }
        assert s[j..j + |SubmissionSuffix|][11] == s[j + 11];
      }
    }
    assert s[|stem|..] == SubmissionSuffix;
  }

  lemma StemDotFree(userName: string, userId: string, taskName: string)
    requires '.' !in userName && '.' !in userId && '.' !in taskName
    ensures forall j :: 0 <= j < |StudentTaskPart(userName, userId, taskName)| ==> StudentTaskPart(userName, userId, taskName)[j] != '.'
  {
    var r := Replace(userName, " ", "_");
    ReplaceDotFree(userName);
    var stem := StudentTaskPart(userName, userId, taskName);
    assert stem == r + ("_" + userId + "_" + taskName);
    var rest := "_" + userId + "_" + taskName;
    forall j | 0 <= j < |rest| ensures rest[j] != '.' {
      if 1 <= j < 1 + |userId| {
        assert rest[j] == userId[j - 1];
      } else if 1 + |userId| + 1 <= j {
        assert rest[j] == taskName[j - |userId| - 2];
      }
    }
    forall j | 0 <= j < |stem| ensures stem[j] != '.' {
      if j >= |r| {
        assert stem[j] == rest[j - |r|];
      }
    }
  }

  /** Replacing spaces by `_` brings in no `.`. */
  lemma {:induction false} ReplaceDotFree(s: string)
    requires forall j :: 0 <= j < |s| ==> s[j] != '.'
    ensures forall j :: 0 <= j < |Replace(s, " ", "_")| ==> Replace(s, " ", "_")[j] != '.'
    decreases |s|
  {
    match Find(s, " ")
    case None =>
    case Some(i) =>
      ReplaceDotFree(s[i + 1..]);
      var r := Replace(s, " ", "_");
      assert r == s[..i] + "_" + Replace(s[i + 1..], " ", "_");
      forall j | 0 <= j < |r| ensures r[j] != '.' {
        if j < i {
          assert r[j] == s[j];
        } else if j > i {
          assert r[j] == Replace(s[i + 1..], " ", "_")[j - i - 1];
        }
      }
  }

  /** The first occurrence is the one `Find` reports. */
  lemma FindFirst(s: string, p: string, i: nat)
    requires OccursAt(s, p, i) && forall j :: 0 <= j < i ==> !OccursAt(s, p, j)
    ensures Find(s, p) == Some(i)
  {
  }
}
