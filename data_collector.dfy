/** Gathering the data a feedback module asks for. The collector reads the
    code, the markdown and the document text of a submission's files once,
    then resolves each `type:key` specifier of a module against them, the
    test and quality results and the outputs of modules that ran before.

    Python's `None` is the JSON `null` here: a specifier that resolves to
    it gets the not-found placeholder. A file's text (absent when it cannot
    be read) and the text extracted from a document are given with the
    file. */
module DataCollecting {
  import opened Wrappers
  import opened Text
  import Dict
  import opened Json
  import Paths
  import ContentExtractor

  /** A submitted file: its path, its text, and the text the document
      reader gets out of it (empty when it gets nothing). */
  datatype SubmittedFile = SubmittedFile(path: string, content: Option<string>, documentText: string)

  /** The three dictionaries of extracted content, keyed by file name. */
  datatype Content = Content(sourceCode: Dict.Dict<string>, markdown: Dict.Dict<string>, documents: Dict.Dict<string>)

  const MarkdownSeparator: string := "\n\n---\n\n"
  const CodeSeparator: string := "\n\n"

  /** The error `.get` raises on a `problems` entry that is not a
      dictionary. */
  const ProblemsNotADict: string := "'problems' is not a dictionary"

  predicate IsCodeSuffix(sfx: string) { sfx == ".py" || sfx == ".ipynb" }

  predicate IsDocumentSuffix(sfx: string) { sfx == ".pdf" || sfx == ".docx" || sfx == ".doc" || sfx == ".txt" }

  /** The code one file adds: its extracted code, or an empty entry for a
      notebook without extractable code that has none yet. */
  function AddCode(d: Dict.Dict<string>, f: SubmittedFile, decode: Decoder): Dict.Dict<string>
  {
    var sfx := Paths.PathSuffix(f.path);
    var code := ContentExtractor.ExtractCode(f.path, f.content, decode);
    if !IsCodeSuffix(sfx) then d
    else if code.Some? then Dict.Put(d, Paths.Name(f.path), code.value)
    else if sfx == ".ipynb" && !Dict.HasKey(d, Paths.Name(f.path)) then Dict.Put(d, Paths.Name(f.path), "")
    else d
  }

  /** The markdown one file adds: a notebook's markdown cells, joined by a
      rule, when it has any. */
  function AddMarkdown(d: Dict.Dict<string>, f: SubmittedFile, decode: Decoder): Dict.Dict<string>
  {
    var md := ContentExtractor.ExtractMarkdown(f.path, f.content, decode);
    if Paths.PathSuffix(f.path) == ".ipynb" && md != [] then Dict.Put(d, Paths.Name(f.path), Join(md, MarkdownSeparator)) else d
  }

  /** The document text one file adds, when it is not empty. */
  function AddDocument(d: Dict.Dict<string>, f: SubmittedFile): Dict.Dict<string>
  {
    if IsDocumentSuffix(Paths.PathSuffix(f.path)) && f.documentText != "" then Dict.Put(d, Paths.Name(f.path), f.documentText) else d
  }

  /** What one file adds to the three dictionaries. */
  function Absorb(c: Content, f: SubmittedFile, decode: Decoder): Content
  {
    Content(AddCode(c.sourceCode, f, decode), AddMarkdown(c.markdown, f, decode), AddDocument(c.documents, f))
  }

  /** The content of a list of files, read in order. */
  function Extracted(files: seq<SubmittedFile>, decode: Decoder): Content
  {
    if |files| == 0 then Content([], [], [])
    else Absorb(Extracted(files[..|files| - 1], decode), files[|files| - 1], decode)
  }

  /** Adding a file's code keeps every name already present, gives a
      notebook an entry, and adds no other name than the file's own, and
      that only for a code file. */
  lemma AddCodeKeys(d: Dict.Dict<string>, f: SubmittedFile, decode: Decoder, k: string)
    ensures Dict.HasKey(d, k) ==> Dict.HasKey(AddCode(d, f, decode), k)
    ensures Paths.PathSuffix(f.path) == ".ipynb" ==> Dict.HasKey(AddCode(d, f, decode), Paths.Name(f.path))
    ensures Dict.HasKey(AddCode(d, f, decode), k) && !Dict.HasKey(d, k) ==>
      k == Paths.Name(f.path) && IsCodeSuffix(Paths.PathSuffix(f.path))
  {
    var name := Paths.Name(f.path);
    var code := ContentExtractor.ExtractCode(f.path, f.content, decode);
    if code.Some? {
      Dict.GetPut(d, name, code.value, k);
      Dict.GetPut(d, name, code.value, name);
    } else {
      Dict.GetPut(d, name, "", k);
      Dict.GetPut(d, name, "", name);
    }
  }

  /** Every notebook has a code entry under its name, whether or not any
      code could be extracted from it. */
  lemma {:induction false} NotebooksHaveCode(files: seq<SubmittedFile>, decode: Decoder, k: nat)
    requires k < |files| && Paths.PathSuffix(files[k].path) == ".ipynb"
    ensures Dict.HasKey(Extracted(files, decode).sourceCode, Paths.Name(files[k].path))
  {
    var init := files[..|files| - 1];
    var f := files[|files| - 1];
    if k < |init| {
      NotebooksHaveCode(init, decode, k);
    }
    AddCodeKeys(Extracted(init, decode).sourceCode, f, decode, Paths.Name(files[k].path));
  }

  /** No `.py` or `.ipynb` file called `name` yields code. */
  predicate NoCodeNamed(files: seq<SubmittedFile>, decode: Decoder, name: string)
  {
    forall j :: 0 <= j < |files| && Paths.Name(files[j].path) == name && IsCodeSuffix(Paths.PathSuffix(files[j].path)) ==>
      ContentExtractor.ExtractCode(files[j].path, files[j].content, decode).None?
  }

  /** When no code file of a name yields code, that name's code entry is
      absent or empty. */
  lemma {:induction false} NoCodeLeavesEmpty(files: seq<SubmittedFile>, decode: Decoder, name: string)
    requires NoCodeNamed(files, decode, name)
    ensures var entry := Dict.Get(Extracted(files, decode).sourceCode, name); entry == None || entry == Some("")
  {
    if |files| > 0 {
      var init := files[..|files| - 1];
      var f := files[|files| - 1];
      forall j | 0 <= j < |init| && Paths.Name(init[j].path) == name && IsCodeSuffix(Paths.PathSuffix(init[j].path))
        ensures ContentExtractor.ExtractCode(init[j].path, init[j].content, decode).None?
      {
        assert files[j] == init[j];
      }
      NoCodeLeavesEmpty(init, decode, name);
      var d := Extracted(init, decode).sourceCode;
      var code := ContentExtractor.ExtractCode(f.path, f.content, decode);
      Dict.GetPut(d, Paths.Name(f.path), if code.Some? then code.value else "", name);
    }
  }

  /** A notebook from which no code could be extracted, under a name no
      other code file yields code for, has the empty code entry. */
  lemma NotebookWithoutCodeEmpty(files: seq<SubmittedFile>, decode: Decoder, k: nat)
    requires k < |files| && Paths.PathSuffix(files[k].path) == ".ipynb"
    requires NoCodeNamed(files, decode, Paths.Name(files[k].path))
    ensures Dict.Get(Extracted(files, decode).sourceCode, Paths.Name(files[k].path)) == Some("")
  {
    NotebooksHaveCode(files, decode, k);
    NoCodeLeavesEmpty(files, decode, Paths.Name(files[k].path));
  }

  /** A code entry comes from a `.py` or `.ipynb` file of that name. */
  lemma {:induction false} CodeFromCodeFiles(files: seq<SubmittedFile>, decode: Decoder, name: string)
    requires Dict.HasKey(Extracted(files, decode).sourceCode, name)
    ensures exists k ::
      (0 <= k < |files| && Paths.Name(files[k].path) == name && IsCodeSuffix(Paths.PathSuffix(files[k].path)))
  {
    var init := files[..|files| - 1];
    var f := files[|files| - 1];
    var before := Extracted(init, decode).sourceCode;
    AddCodeKeys(before, f, decode, name);
    if Dict.HasKey(before, name) {
      CodeFromCodeFiles(init, decode, name);
      var k :| 0 <= k < |init| && Paths.Name(init[k].path) == name && IsCodeSuffix(Paths.PathSuffix(init[k].path));
      assert files[k] == init[k];
    } else {
      assert files[|files| - 1] == f;
    }
  }

  /** Adding a file's markdown adds no other name than the file's own,
      and only for a notebook. */
  lemma AddedMarkdownKeys(d: Dict.Dict<string>, f: SubmittedFile, decode: Decoder, k: string)
    ensures Dict.HasKey(AddMarkdown(d, f, decode), k) && !Dict.HasKey(d, k) ==>
      k == Paths.Name(f.path) && Paths.PathSuffix(f.path) == ".ipynb"
  {
    var md := ContentExtractor.ExtractMarkdown(f.path, f.content, decode);
    Dict.GetPut(d, Paths.Name(f.path), Join(md, MarkdownSeparator), k);
  }

  /** Adding a file's document text changes no other name than the file's
      own, and only when the text is not empty. */
  lemma AddedDocumentKeys(d: Dict.Dict<string>, f: SubmittedFile, k: string)
    ensures Dict.Get(AddDocument(d, f), k) != Dict.Get(d, k) ==>
      Dict.Get(AddDocument(d, f), k) == Some(f.documentText) && f.documentText != ""
  {
    Dict.GetPut(d, Paths.Name(f.path), f.documentText, k);
  }

  /** Markdown is stored only for notebooks. */
  lemma {:induction false} MarkdownOnlyFromNotebooks(files: seq<SubmittedFile>, decode: Decoder, name: string)
    requires Dict.HasKey(Extracted(files, decode).markdown, name)
    ensures exists k ::
      (0 <= k < |files| && Paths.Name(files[k].path) == name && Paths.PathSuffix(files[k].path) == ".ipynb")
  {
    var init := files[..|files| - 1];
    var f := files[|files| - 1];
    var before := Extracted(init, decode).markdown;
    AddedMarkdownKeys(before, f, decode, name);
    if Dict.HasKey(before, name) {
      MarkdownOnlyFromNotebooks(init, decode, name);
      var k :| 0 <= k < |init| && Paths.Name(init[k].path) == name && Paths.PathSuffix(init[k].path) == ".ipynb";
      assert files[k] == init[k];
    } else {
      assert files[|files| - 1] == f;
    }
  }

  /** A stored document text is never empty. */
  lemma {:induction false} DocumentsNotEmpty(files: seq<SubmittedFile>, decode: Decoder, name: string)
    requires Dict.Get(Extracted(files, decode).documents, name).Some?
    ensures Dict.Get(Extracted(files, decode).documents, name).value != ""
  {
    var init := files[..|files| - 1];
    var f := files[|files| - 1];
    var before := Extracted(init, decode).documents;
    AddedDocumentKeys(before, f, name);
    if Dict.Get(AddDocument(before, f), name) == Dict.Get(before, name) {
      DocumentsNotEmpty(init, decode, name);
    }
  }

  /** `fnmatch` over the names of a dictionary in insertion order: the
      value of the first name the pattern matches. */
  function FirstMatch(d: Dict.Dict<string>, pat: string): Option<string>
  {
    if |d| == 0 then None
    else if Paths.Glob(d[0].0, pat) then Some(d[0].1)
    else FirstMatch(d[1..], pat)
  }

  /** The scan finds nothing exactly when no name matches, and otherwise
      the value of a matching name before which none matches. */
  lemma {:induction false} FirstMatchIsFirst(d: Dict.Dict<string>, pat: string)
    ensures FirstMatch(d, pat).None? <==> forall i :: 0 <= i < |d| ==> !Paths.Glob(d[i].0, pat)
    ensures FirstMatch(d, pat).Some? ==> exists i ::
      (0 <= i < |d| && Paths.Glob(d[i].0, pat) && d[i].1 == FirstMatch(d, pat).value &&
       forall j :: 0 <= j < i ==> !Paths.Glob(d[j].0, pat))
  {
    if |d| > 0 && !Paths.Glob(d[0].0, pat) {
      FirstMatchIsFirst(d[1..], pat);
      var r := FirstMatch(d[1..], pat);
      assert forall i :: 1 <= i < |d| ==> d[i] == d[1..][i - 1];
      if r.Some? {
        var i :| 0 <= i < |d[1..]| && Paths.Glob(d[1..][i].0, pat) && d[1..][i].1 == r.value &&
          forall j :: 0 <= j < i ==> !Paths.Glob(d[1..][j].0, pat);
        assert d[i + 1] == d[1..][i];
      }
    }
  }

  /** `results.get('problems', {}).get(key, {})`: a `problems` entry that is
      not a dictionary has no `get`. */
  function Group(results: Dict.Dict<Json>, key: string): (r: Result<Json>)
    ensures Dict.Get(results, "problems").None? ==> r == Ok(Obj([]))
    ensures r.Err? <==> Dict.Get(results, "problems").Some? && !Dict.Get(results, "problems").value.Obj?
    ensures r.Ok? && Dict.Get(results, "problems").Some? ==>
      r.value == Dict.Get(Dict.Get(results, "problems").value.fields, key).GetOr(Obj([]))
  {
    match Dict.Get(results, "problems")
    case None => Ok(Obj([]))
    case Some(problems) =>
      if problems.Obj? then Ok(Dict.Get(problems.fields, key).GetOr(Obj([]))) else Err(ProblemsNotADict)
  }

  /** The text of a not-found specifier. */
  function NotFound(specifier: string): string
  {
    "[Data not found for specifier: " + specifier + "]"
  }

  function StrOrNull(v: Option<string>): (r: Json)
    ensures v.None? <==> r.Null?
    ensures v.Some? ==> r == Str(v.value)
  {
    if v.Some? then Str(v.value) else Null
  }

  /** A submission's extracted content, the results it was marked with, and
      the data each module's specifiers resolve to. */
  class DataCollector {
    var sourceCode: Dict.Dict<string>
    var markdownContent: Dict.Dict<string>
    var documentText: Dict.Dict<string>
    const testResults: Dict.Dict<Json>
    const qualityResults: Dict.Dict<Json>

    /** A new collector reads every file of the submission at once. */
    constructor(files: seq<SubmittedFile>, testResults: Dict.Dict<Json>, qualityResults: Dict.Dict<Json>, decode: Decoder)
      ensures this.testResults == testResults && this.qualityResults == qualityResults
      ensures Content(sourceCode, markdownContent, documentText) == Extracted(files, decode)
    {
      this.testResults := testResults;
      this.qualityResults := qualityResults;
      sourceCode, markdownContent, documentText := [], [], [];
      new;
      ExtractContent(files, decode);
    }

    /** Empties the three dictionaries, then fills them file by file. */
    method ExtractContent(files: seq<SubmittedFile>, decode: Decoder)
      modifies this
      ensures Content(sourceCode, markdownContent, documentText) == Extracted(files, decode)
    {
      sourceCode, markdownContent, documentText := [], [], [];
      var i := 0;
      while i < |files|
        invariant 0 <= i <= |files|
        invariant Content(sourceCode, markdownContent, documentText) == Extracted(files[..i], decode)
      {
        var file := files[i];
        assert files[..i + 1][..i] == files[..i];
        var name := Paths.Name(file.path);
        var suffix := Paths.PathSuffix(file.path);
        if suffix == ".py" || suffix == ".ipynb" {
          var code := ContentExtractor.ExtractCode(file.path, file.content, decode);
          if code.Some? {
            sourceCode := Dict.Put(sourceCode, name, code.value);
          } else if suffix == ".ipynb" && !Dict.HasKey(sourceCode, name) {
            sourceCode := Dict.Put(sourceCode, name, "");
          }
        }
        if suffix == ".ipynb" {
          var md := ContentExtractor.ExtractMarkdown(file.path, file.content, decode);
          if md != [] {
            markdownContent := Dict.Put(markdownContent, name, Join(md, MarkdownSeparator));
          }
        }
        if IsDocumentSuffix(suffix) && file.documentText != "" {
          documentText := Dict.Put(documentText, name, file.documentText);
        }
        i := i + 1;
      }
      assert files[..i] == files;
    }

    /** The dictionary a file-based data type reads. */
    function SourceDict(dataType: string): (r: Dict.Dict<string>)
      reads this
      ensures dataType == "code_file" ==> r == sourceCode
      ensures dataType == "markdown_file" ==> r == markdownContent
      ensures dataType == "document_file" ==> r == documentText
    {
      if dataType == "code_file" then sourceCode
      else if dataType == "markdown_file" then markdownContent
      else if dataType == "document_file" then documentText
      else []
    }

    /** One piece of data by its type and key (an empty key counts as
      none); `null` when nothing is found. */
    function GetDataByType(dataType: string, key: Option<string>, moduleOutputs: Dict.Dict<Json>): (r: Result<Json>)
      reads this
      ensures r.Err? ==> (dataType == "test_group" || dataType == "quality_group") && key.Some?
      ensures dataType == "module_output" && key.Some? && key.value != "" ==>
        r == Ok(Dict.Get(moduleOutputs, key.value).GetOr(Null))
      ensures (dataType == "code_file" || dataType == "markdown_file" || dataType == "document_file") &&
              key.Some? && '*' in key.value ==>
        r == Ok(StrOrNull(FirstMatch(SourceDict(dataType), key.value)))
      ensures (dataType == "code_file" || dataType == "markdown_file" || dataType == "document_file") &&
              key.Some? && key.value != "" && '*' !in key.value ==>
        r == Ok(StrOrNull(Dict.Get(SourceDict(dataType), key.value)))
      ensures dataType == "all_code" ==> r == Ok(Str(Join(Dict.Values(sourceCode), CodeSeparator)))
      ensures dataType == "test_group" && key.Some? && key.value != "" ==> r == Group(testResults, key.value)
      ensures dataType == "quality_group" && key.Some? && key.value != "" ==> r == Group(qualityResults, key.value)
      ensures (dataType != "module_output" && dataType != "code_file" && dataType != "markdown_file" &&
               dataType != "document_file" && dataType != "all_code" && dataType != "test_group" &&
               dataType != "quality_group") ==> r == Ok(Null)
      ensures (key.None? || key.value == "") && dataType != "all_code" ==> r == Ok(Null)
    {
      var keyed := key.Some? && key.value != "";
      if dataType == "module_output" && keyed then Ok(Dict.Get(moduleOutputs, key.value).GetOr(Null))
      else if (dataType == "code_file" || dataType == "markdown_file" || dataType == "document_file") &&
              keyed && '*' in key.value then
        Ok(StrOrNull(FirstMatch(SourceDict(dataType), key.value)))
      else if dataType == "code_file" && keyed then Ok(StrOrNull(Dict.Get(sourceCode, key.value)))
      else if dataType == "markdown_file" && keyed then Ok(StrOrNull(Dict.Get(markdownContent, key.value)))
      else if dataType == "document_file" && keyed then Ok(StrOrNull(Dict.Get(documentText, key.value)))
      else if dataType == "all_code" then Ok(Str(Join(Dict.Values(sourceCode), CodeSeparator)))
      else if dataType == "test_group" && keyed then Group(testResults, key.value)
      else if dataType == "quality_group" && keyed then Group(qualityResults, key.value)
      else Ok(Null)
    }

    /** The data of one specifier: split at its first `:` into a type and
      a key, or taken whole as a type without a key; `null` becomes the
      not-found placeholder. */
    function Resolve(specifier: string, moduleOutputs: Dict.Dict<Json>): (r: Result<Json>)
      reads this
      ensures Cut(specifier, ":").Some? ==>
        var d := GetDataByType(Cut(specifier, ":").value.0, Some(Cut(specifier, ":").value.1), moduleOutputs);
        r == if d.Ok? && d.value.Null? then Ok(Str(NotFound(specifier))) else d
      ensures Cut(specifier, ":").None? ==>
        var d := GetDataByType(specifier, None, moduleOutputs);
        r == if d.Ok? && d.value.Null? then Ok(Str(NotFound(specifier))) else d
      ensures r.Ok? ==> !r.value.Null?
    {
      var d := match Cut(specifier, ":")
        case Some((dataType, valueKey)) => GetDataByType(dataType, Some(valueKey), moduleOutputs)
        case None => GetDataByType(specifier, None, moduleOutputs);
      match d
      case Ok(Null) => Ok(Str(NotFound(specifier)))
      case _ => d
    }

    /** The prompt variables of a module: each placeholder mapped to the
      resolution of its specifier, in order; the first error ends it. */
    function Gathered(requiredData: Dict.Dict<string>, moduleOutputs: Dict.Dict<Json>): (r: Result<Dict.Dict<Json>>)
      reads this
      ensures r.Ok? ==> Dict.Keys(r.value) == Distinct(Dict.Keys(requiredData))
    {
      if |requiredData| == 0 then Ok([])
      else
        var (placeholder, specifier) := requiredData[|requiredData| - 1];
        var init := requiredData[..|requiredData| - 1];
        assert Dict.Keys(requiredData) == Dict.Keys(init) + [placeholder];
        match Gathered(init, moduleOutputs)
        case Err(e) => Err(e)
        case Ok(vars) =>
          match Resolve(specifier, moduleOutputs)
          case Err(e) => Err(e)
          case Ok(data) =>
            DistinctHas(Dict.Keys(init), vars, placeholder);
            Ok(Dict.Put(vars, placeholder, data))
    }

    /** Fills `prompt_vars` placeholder by placeholder. */
    method GatherDataForModule(requiredData: Dict.Dict<string>, moduleOutputs: Dict.Dict<Json>)
      returns (promptVars: Result<Dict.Dict<Json>>)
      ensures promptVars == Gathered(requiredData, moduleOutputs)
    {
      var vars: Dict.Dict<Json> := [];
      var i := 0;
      while i < |requiredData|
        invariant 0 <= i <= |requiredData|
        invariant Gathered(requiredData[..i], moduleOutputs) == Ok(vars)
      {
        var (placeholder, specifier) := requiredData[i];
        assert requiredData[..i + 1][..i] == requiredData[..i];
        var data := Resolve(specifier, moduleOutputs);
        if data.Err? {
          assert Gathered(requiredData[..i + 1], moduleOutputs) == Err(data.error);
          Unfinished(requiredData, moduleOutputs, i + 1);
          return Err(data.error);
        }
        vars := Dict.Put(vars, placeholder, data.value);
        i := i + 1;
      }
      assert requiredData[..i] == requiredData;
      return Ok(vars);
    }

    /** Once a prefix of the specifiers fails, the whole gathering fails
      with the same error. */
    lemma {:induction false} Unfinished(requiredData: Dict.Dict<string>, moduleOutputs: Dict.Dict<Json>, n: nat)
      requires n <= |requiredData| && Gathered(requiredData[..n], moduleOutputs).Err?
      ensures Gathered(requiredData, moduleOutputs) == Gathered(requiredData[..n], moduleOutputs)
      decreases |requiredData| - n
    {
      if n < |requiredData| {
        var p := requiredData[..n + 1];
        assert p[..n] == requiredData[..n];
        assert Gathered(p, moduleOutputs) == Gathered(requiredData[..n], moduleOutputs);
        Unfinished(requiredData, moduleOutputs, n + 1);
      } else {
        assert requiredData[..n] == requiredData;
      }
    }

    /** A completed gathering completed every shorter one, resolved the
      last specifier, and put its data under the last placeholder. */
    lemma GatheredStep(requiredData: Dict.Dict<string>, moduleOutputs: Dict.Dict<Json>)
      requires |requiredData| > 0 && Gathered(requiredData, moduleOutputs).Ok?
      ensures var init := requiredData[..|requiredData| - 1];
        var (placeholder, specifier) := requiredData[|requiredData| - 1];
        Gathered(init, moduleOutputs).Ok? && Resolve(specifier, moduleOutputs).Ok? &&
        Gathered(requiredData, moduleOutputs).value ==
          Dict.Put(Gathered(init, moduleOutputs).value, placeholder, Resolve(specifier, moduleOutputs).value)
    {
    }

    /** Every placeholder gets an entry holding the resolution of its
      specifier, and a placeholder is never left `null`. */
    lemma {:induction false} EveryPlaceholderResolved(requiredData: Dict.Dict<string>, moduleOutputs: Dict.Dict<Json>, k: nat)
      requires Dict.UniqueKeys(requiredData) && k < |requiredData|
      requires Gathered(requiredData, moduleOutputs).Ok?
      ensures Resolve(requiredData[k].1, moduleOutputs).Ok?
      ensures Dict.Get(Gathered(requiredData, moduleOutputs).value, requiredData[k].0) ==
        Some(Resolve(requiredData[k].1, moduleOutputs).value)
    {
      var n := |requiredData|;
      var init := requiredData[..n - 1];
      var last := requiredData[n - 1];
      GatheredStep(requiredData, moduleOutputs);
      var vars := Gathered(init, moduleOutputs).value;
      var data := Resolve(last.1, moduleOutputs).value;
      Dict.GetPut(vars, last.0, data, requiredData[k].0);
      if k < n - 1 {
        assert init[k] == requiredData[k];
        assert requiredData[k].0 != last.0;
        Dict.UniquePrefix(requiredData, n - 1);
        EveryPlaceholderResolved(init, moduleOutputs, k);
      }
    }
  }

  /** The keys of a list without repeats, first occurrence kept. */
  function Distinct(ks: seq<string>): (r: seq<string>)
    ensures forall x :: x in r <==> x in ks
  {
    if |ks| == 0 then []
    else
      var init := Distinct(ks[..|ks| - 1]);
      var x := ks[|ks| - 1];
      assert forall y :: y in ks <==> y in ks[..|ks| - 1] || y == x by {
        assert ks == ks[..|ks| - 1] + [x];
      }
      if x in init then init else init + [x]
  }

  /** The step `Gathered` takes: adding a key to a dictionary whose keys are
      the distinct ones seen so far. */
  lemma DistinctHas<V>(seen: seq<string>, d: Dict.Dict<V>, k: string)
    requires Dict.Keys(d) == Distinct(seen)
    ensures Dict.HasKey(d, k) <==> k in seen
  {
    if Dict.HasKey(d, k) {
      var i :| 0 <= i < |d| && d[i].0 == k;
      assert Dict.Keys(d)[i] == k;
    }
    if k in seen {
      var i :| 0 <= i < |Dict.Keys(d)| && Dict.Keys(d)[i] == k;
      assert d[i].0 == k;
    }
  }
}
