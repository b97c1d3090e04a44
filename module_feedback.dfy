/** Feedback for one module of the modular pipeline: the language model's
    reply is cleaned of code fences, parsed against an output model and
    turned into the feedback text, and every failure along the way becomes
    an `Error: ...` text instead of an exception. The model call and the
    output-model parser are inputs: the outcome of the call and a parse
    function. */
module ModuleFeedback {
  import opened Wrappers
  import opened Text

  /** What came back from setting up and calling the language model. */
  datatype LlmOutcome =
    | SetupFailed(error: string)                                // a `RuntimeError` from the deployment
    | CallRaised(error: string)                                 // any other exception
    | Responded(success: bool, content: string, error: string)  // the model's response

  /** What validating the cleaned text against an output model gives.
      `NotJson` is the `json.JSONDecodeError` branch; pydantic 2's
      `model_validate_json` reports invalid JSON as a validation error
      instead, so with that library the parse gives `SchemaMismatch` and
      `NotJson` stays unused. */
  datatype Parse =
    | Parsed(feedbackText: Option<string>, dump: string)  // the model's `feedback_text`, if it has one, and its JSON dump
    | NotJson(details: string)
    | SchemaMismatch(details: string)

  const Fence: string := "```"
  const JsonFence: string := "```json"
  const BaseModel: string := "BaseFeedbackOutput"
  const RawMarker: string := "\nRaw LLM Output:\n"
  const RawExcerptWidth: nat := 500

  /** The output model for a requested name: the registered model of that
      name, or the base model for an unknown or absent name. */
  function OutputModel(requested: Option<string>, registry: set<string>): (m: string)
    ensures requested.Some? && requested.value in registry ==> m == requested.value
    ensures requested.None? || requested.value !in registry ==> m == BaseModel
  {
    if requested.Some? && requested.value in registry then requested.value else BaseModel
  }

  /** Python's `str(x)` of an optional name. */
  function NameText(requested: Option<string>): string
  {
    if requested.Some? then requested.value else "None"
  }

  /** `s` with the prefix `p` and the white space after it dropped, when
      `s` starts with `p`. */
  function DropLeading(s: string, p: string): (r: string)
    requires Stripped(s)
    ensures Stripped(r) && |r| <= |s|
    ensures !StartsWith(s, p) ==> r == s
  {
    if StartsWith(s, p) then Strip(s[|p|..]) else s
  }

  /** `s` with the suffix `p` and the white space before it dropped, when
      `s` ends with `p`. */
  function DropTrailing(s: string, p: string): (r: string)
    requires Stripped(s)
    ensures Stripped(r) && |r| <= |s|
    ensures !EndsWith(s, p) ==> r == s
  {
    if EndsWith(s, p) then Strip(s[..|s| - |p|]) else s
  }

  /** Drop a leading ```` ```json ````, then a leading ```` ``` ````, then a
      trailing ```` ``` ````, stripping white space before and after each. */
  function Clean(raw: string): (r: string)
    ensures Stripped(r) && |r| <= |raw|
    ensures !StartsWith(Strip(raw), Fence) && !EndsWith(Strip(raw), Fence) ==> r == Strip(raw)
  {
    var s0 := Strip(raw);
    assert !StartsWith(s0, Fence) ==> !StartsWith(s0, JsonFence) by {
      if StartsWith(s0, JsonFence) {
        assert s0[..3] == s0[..7][..3];
      }
    }
    DropTrailing(DropLeading(DropLeading(s0, JsonFence), Fence), Fence)
  }

  /** Leading white space goes and a text that starts and ends with
      something else is kept. */
  lemma {:induction false} StripAfterSpace(w: string, x: string)
    requires forall i :: 0 <= i < |w| ==> IsSpace(w[i])
    requires |x| > 0 && !IsSpace(x[0]) && !IsSpace(x[|x| - 1])
    ensures Strip(w + x) == x
    decreases |w|
  {
    if |w| > 0 {
      assert (w + x)[1..] == w[1..] + x;
      StripAfterSpace(w[1..], x);
      assert LStrip(w + x) == LStrip(w[1..] + x);
    } else {
      assert w + x == x;
    }
  }

  /** A trailing newline goes and a stripped text is kept. */
  lemma StripNewlineAfter(x: string)
    requires |x| > 0 && Stripped(x)
    ensures Strip(x + "\n") == x
  {
    assert (x + "\n")[..|x|] == x;
    assert RStrip(x + "\n") == RStrip(x);
    StripStripped(x);
  }

  /** A reply that is a fenced JSON block gives back the block's body. */
  lemma FencedBodyRecovered(body: string)
    requires |body| > 0 && Stripped(body) && body[0] != '`'
    ensures Clean(JsonFence + "\n" + body + "\n" + Fence) == body
  {
    var raw := JsonFence + "\n" + body + "\n" + Fence;
    var s1 := body + "\n" + Fence;
    assert Strip(raw) == raw by { StripStripped(raw); }
    assert DropLeading(raw, JsonFence) == s1 by {
      assert raw[..7] == JsonFence;
      assert raw[|JsonFence|..] == "\n" + s1;
      StripAfterSpace("\n", s1);
    }
    assert DropLeading(s1, Fence) == s1 by {
      assert s1[0] == body[0];
    }
    assert DropTrailing(s1, Fence) == body by {
      assert s1[|s1| - 3..] == Fence;
      assert s1[..|s1| - 3] == body + "\n";
      StripNewlineAfter(body);
    }
  }

  /** An error reported as text. */
  function ErrorText(what: string): (r: string)
    ensures StartsWith(r, "Error: ") && r[7..] == what
  {
    "Error: " + what
  }

  /** What is wrong with a reply that could not be parsed: the reason, a
      500-character excerpt, and the whole reply after a marker. */
  function ParseFailure(moduleId: string, reason: string, details: string, raw: string): (w: string)
    ensures StartsWith(w, "LLM output for module " + moduleId)
    ensures EndsWith(w, RawMarker + raw)
  {
    var head := "LLM output for module " + moduleId;
    var middle := " " + reason + ". Details: " + details + ". Output: " + Take(raw, RawExcerptWidth) + "...";
    var tail := RawMarker + raw;
    var w := head + (middle + tail);
    assert w[..|head|] == head;
    assert w == (head + middle) + tail;
    assert w[|head + middle|..] == tail;
    w
  }

  /** `generate_feedback_for_module`: the feedback text for one module, or
      an error text; it never fails. */
  function GenerateFeedback(moduleId: string, requested: Option<string>, registry: set<string>,
                            outcome: LlmOutcome, parse: (string, string) -> Parse): (r: string)
    ensures outcome.SetupFailed? ==>
      r == ErrorText("LLM setup failed for module " + moduleId + ". Details: " + outcome.error)
    ensures outcome.CallRaised? ==>
      r == ErrorText("LLM generation failed unexpectedly for module " + moduleId + ". Details: " + outcome.error)
    ensures outcome.Responded? && !outcome.success ==>
      r == ErrorText("LLM generation failed for module " + moduleId + ". Details: " + outcome.error)
    ensures outcome.Responded? && outcome.success ==>
      var p := parse(OutputModel(requested, registry), Clean(outcome.content));
      (p.Parsed? && p.feedbackText.Some? ==> r == p.feedbackText.value) &&
      (p.Parsed? && p.feedbackText.None? ==> r == p.dump) &&
      (p.NotJson? ==> r == ErrorText(ParseFailure(moduleId, "was not valid JSON", p.details, outcome.content))) &&
      (p.SchemaMismatch? ==>
        r == ErrorText(ParseFailure(moduleId, "did not match schema " + NameText(requested), p.details, outcome.content)))
  {
    match outcome
    case SetupFailed(e) => ErrorText("LLM setup failed for module " + moduleId + ". Details: " + e)
    case CallRaised(e) => ErrorText("LLM generation failed unexpectedly for module " + moduleId + ". Details: " + e)
    case Responded(success, raw, e) =>
      if !success then ErrorText("LLM generation failed for module " + moduleId + ". Details: " + e)
      else
        match parse(OutputModel(requested, registry), Clean(raw))
        case Parsed(text, dump) => if text.Some? then text.value else dump
        case NotJson(d) => ErrorText(ParseFailure(moduleId, "was not valid JSON", d, raw))
        case SchemaMismatch(d) => ErrorText(ParseFailure(moduleId, "did not match schema " + NameText(requested), d, raw))
  }

  /** Every failure is reported as a text starting `Error: `. */
  lemma FailuresAreErrorTexts(moduleId: string, requested: Option<string>, registry: set<string>,
                              outcome: LlmOutcome, parse: (string, string) -> Parse)
    requires !outcome.Responded? || !outcome.success ||
             !parse(OutputModel(requested, registry), Clean(outcome.content)).Parsed?
    ensures StartsWith(GenerateFeedback(moduleId, requested, registry, outcome, parse), "Error: ")
  {
    var r := GenerateFeedback(moduleId, requested, registry, outcome, parse);
  }
}
