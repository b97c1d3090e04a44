/** Score extraction of the object-oriented marking assistant: each saved
    module response is turned into a module score (from a JSON object when
    the response is one, otherwise from the first score-like text), the
    maximum comes from a hint, the response text or the module name, and
    the scores of each student are summed over the successful modules.

    The record constraints of the two result models are checked where the
    records are built: a `ModuleScore` needs non-negative numbers, a
    `StudentScoreSummary` non-negative totals and a percentage of at most
    100. Reading the files is replaced by their given text, and decoding
    by the decoder parameter. */
module ScoreExtraction {
  import opened Wrappers
  import opened Text
  import opened Scan
  import Dict
  import opened Json
  import Paths

  datatype ModuleScore = ModuleScore(moduleId: string, score: real, maxScore: real, justification: string, success: bool)

  /** The field constraints of `ModuleScore`. */
  predicate ValidModuleScore(m: ModuleScore)
  {
    m.score >= 0.0 && m.maxScore >= 0.0
  }

  datatype StudentScoreSummary = StudentScoreSummary(
    studentId: string,
    studentName: Option<string>,
    taskName: string,
    totalScore: real,
    maxTotalScore: real,
    percentage: real,
    moduleScores: seq<ModuleScore>,
    extractionErrors: seq<string>)

  /** The field constraints of `StudentScoreSummary`. */
  predicate ValidSummary(s: StudentScoreSummary)
  {
    s.totalScore >= 0.0 && s.maxTotalScore >= 0.0 && 0.0 <= s.percentage <= 100.0
  }

  /** Fixed descriptions standing for the text of exceptions raised by the
      Python runtime and by record validation. */
  const ModuleScoreInvalid: string := "validation error for ModuleScore"
  const SummaryInvalid: string := "validation error for StudentScoreSummary"
  const ScoreNotANumber: string := "score is not a number"
  const JustificationNotText: string := "justification is not a string"
  const ResponseNotText: string := "raw response content is not a string"
  const RecordNotAnObject: string := "response record is not an object"
  const FileUnreadable: string := "file cannot be read"

  const NoJustification: string := "No justification provided"
  const ErrorPrefix: string := "Error extracting score: "

  // ---------------------------------------------------------------------
  // The maximum score

  /** A hit whose group is a run of digits. */
  predicate DigitsHit(s: string, h: Hit)
  {
    HitIn(s, h) && IsDigits(s[h.gs..h.ge])
  }

  /** A matcher whose group is a run of digits. */
  ghost predicate DigitMatcher(m: Matcher)
  {
    forall s: string, i: nat :: m(s, i).Some? ==> DigitsHit(s, m(s, i).value)
  }

  /** `(\d+)\s*points?`, ignoring case, at `i`. */
  function PointsAt(s: string, i: nat): (r: Option<Hit>)
    ensures r.Some? ==> DigitsHit(s, r.value)
  {
    if i >= |s| || !IsDigit(s[i]) then None
    else
      var d := DigitsEnd(s, i);
      var k := SpacesEnd(s, d);
      DigitRun(s, i);
      if LitCI(s, k, "points") then Some(Hit(i, i, d, k + 6))
      else if LitCI(s, k, "point") then Some(Hit(i, i, d, k + 5))
      else None
  }

  /** `\((\d+)\s*pts?\)`, ignoring case, at `i`. */
  function PtsAt(s: string, i: nat): (r: Option<Hit>)
    ensures r.Some? ==> DigitsHit(s, r.value)
  {
    if i + 1 >= |s| || s[i] != '(' || !IsDigit(s[i + 1]) then None
    else
      var d := DigitsEnd(s, i + 1);
      var k := SpacesEnd(s, d);
      DigitRun(s, i + 1);
      if !LitCI(s, k, "pt") then None
      else if LitCI(s, k + 2, "s") && Lit(s, k + 3, ")") then Some(Hit(i, i + 1, d, k + 4))
      else if Lit(s, k + 2, ")") then Some(Hit(i, i + 1, d, k + 3))
      else None
  }

  // `\d+\s*/\s*(\d+)` at `i`: the group is the number after the slash.
  function OutOfSlashAt(s: string, i: nat): (r: Option<Hit>)
    ensures r.Some? ==> DigitsHit(s, r.value)
  {
    if i >= |s| || !IsDigit(s[i]) then None
    else
      var k := SpacesEnd(s, DigitsEnd(s, i));
      if k >= |s| || s[k] != '/' then None
      else
        var g := SpacesEnd(s, k + 1);
        if g >= |s| || !IsDigit(s[g]) then None
        else
          DigitRun(s, g);
          Some(Hit(i, g, DigitsEnd(s, g), DigitsEnd(s, g)))
  }

  /** `out of (\d+)`, ignoring case, at `i`. */
  function OutOfAt(s: string, i: nat): (r: Option<Hit>)
    ensures r.Some? ==> DigitsHit(s, r.value)
  {
    if !LitCI(s, i, "out of ") || i + 7 >= |s| || !IsDigit(s[i + 7]) then None
    else
      DigitRun(s, i + 7);
      Some(Hit(i, i + 7, DigitsEnd(s, i + 7), DigitsEnd(s, i + 7)))
  }

  /** The first digit at or after `j` on the same line, which is where the
      lazy `.*?` of `maximum.*?(\d+)` stops. */
  function DigitOnLine(s: string, j: nat): (r: Option<nat>)
    ensures r.Some? ==> j <= r.value < |s| && IsDigit(s[r.value])
    ensures r.Some? ==> forall k :: j <= k < r.value ==> s[k] != '\n' && !IsDigit(s[k])
    decreases |s| - j
  {
    if j >= |s| || s[j] == '\n' then None
    else if IsDigit(s[j]) then Some(j)
    else DigitOnLine(s, j + 1)
  }

  /** `maximum.*?(\d+)`, ignoring case, at `i`. */
  function MaximumAt(s: string, i: nat): (r: Option<Hit>)
    ensures r.Some? ==> DigitsHit(s, r.value)
  {
    if !LitCI(s, i, "maximum") then None
    else
      match DigitOnLine(s, i + 7)
      case None => None
      case Some(g) =>
        DigitRun(s, g);
        Some(Hit(i, g, DigitsEnd(s, g), DigitsEnd(s, g)))
  }

  /** The value of the last match of a digit-capturing pattern. */
  function LastValue(s: string, m: Matcher): (r: Option<nat>)
    requires DigitMatcher(m)
    ensures r.Some? <==> Search(s, m).Some?
    ensures r.Some? ==> exists k ::
      (0 <= k <= |s| && m(s, k).Some? && r.value == DigitsValue(s[m(s, k).value.gs..m(s, k).value.ge]))
  {
    match LastHit(s, m)
    case None => None
    case Some(h) =>
      var k :| 0 <= k <= |s| && m(s, k) == Some(h);
      Some(DigitsValue(s[h.gs..h.ge]))
  }

  /** The maximum named by the module id when no pattern matches. */
  function DefaultMax(moduleId: string): (r: real)
    ensures (Contains(moduleId, "data_loading") || Contains(moduleId, "visualization")) ==> r == 5.0
    ensures !Contains(moduleId, "data_loading") && !Contains(moduleId, "visualization") ==>
      r == (if Contains(moduleId, "model") || Contains(moduleId, "optimization") then 10.0
            else if Contains(moduleId, "analysis") then 5.0
            else if Contains(moduleId, "documentation") then 15.0
            else 10.0)
    ensures r == 5.0 || r == 10.0 || r == 15.0
  {
    if Has(moduleId, "data_loading") || Has(moduleId, "visualization") then 5.0
    else if Has(moduleId, "model") || Has(moduleId, "optimization") then 10.0
    else if Has(moduleId, "analysis") then 5.0
    else if Has(moduleId, "documentation") then 15.0
    else 10.0
  }

  /** The maximum inferred from a text: the last match of the first of the
      five patterns that matches at all, otherwise the module default. */
  function InferMax(content: string, moduleId: string): (r: real)
    ensures r >= 0.0
    ensures Search(content, PointsAt).Some? ==> r == LastValue(content, PointsAt).value as real
    ensures Search(content, PointsAt).None? && Search(content, PtsAt).Some? ==>
      r == LastValue(content, PtsAt).value as real
    ensures (Search(content, PointsAt).None? && Search(content, PtsAt).None? &&
             Search(content, OutOfSlashAt).Some?) ==>
      r == LastValue(content, OutOfSlashAt).value as real
    ensures (Search(content, PointsAt).None? && Search(content, PtsAt).None? &&
             Search(content, OutOfSlashAt).None? && Search(content, OutOfAt).Some?) ==>
      r == LastValue(content, OutOfAt).value as real
    ensures (Search(content, PointsAt).None? && Search(content, PtsAt).None? &&
             Search(content, OutOfSlashAt).None? && Search(content, OutOfAt).None?) ==>
      r == (if Search(content, MaximumAt).Some? then LastValue(content, MaximumAt).value as real
            else DefaultMax(moduleId))
  {
    match LastValue(content, PointsAt)
    case Some(v) => v as real
    case None =>
      match LastValue(content, PtsAt)
      case Some(v) => v as real
      case None =>
        match LastValue(content, OutOfSlashAt)
        case Some(v) => v as real
        case None =>
          match LastValue(content, OutOfAt)
          case Some(v) => v as real
          case None =>
            match LastValue(content, MaximumAt)
            case Some(v) => v as real
            case None => DefaultMax(moduleId)
  }

  /** `max_score_hint or self._infer_max_score(content, module_id)`: a
      missing hint and a hint of 0 both fall through to inference. */
  function MaxOf(hint: Option<real>, content: string, moduleId: string): (r: real)
    ensures hint.Some? && hint.value != 0.0 ==> r == hint.value
    ensures hint.None? || hint.value == 0.0 ==> r == InferMax(content, moduleId)
    ensures (hint.None? || hint.value >= 0.0) ==> r >= 0.0
  {
    if hint.Some? && hint.value != 0.0 then hint.value else InferMax(content, moduleId)
  }

  // ---------------------------------------------------------------------
  // The score found in a text

  /** A hit of `s` whose group is a decimal number. */
  predicate DecimalHit(s: string, h: Hit)
  {
    HitIn(s, h) && IsDecimal(s[h.gs..h.ge])
  }

  /** A matcher whose group is a decimal number. */
  ghost predicate DecimalMatcher(m: Matcher)
  {
    forall s: string, i: nat :: m(s, i).Some? ==> DecimalHit(s, m(s, i).value)
  }

  predicate IsColonOrSpace(c: char)
  {
    c == ':' || IsSpace(c)
  }

  /** `<kw>[:\s]*(\d+(?:\.\d+)?)`, ignoring case, at `i`. */
  function KeywordScoreAt(s: string, i: nat, kw: string): (r: Option<Hit>)
    ensures r.Some? ==> LitCI(s, i, kw) && r.value.start == i && DecimalHit(s, r.value)
  {
    if !LitCI(s, i, kw) then None
    else
      var k := RunEnd(s, i + |kw|, IsColonOrSpace);
      match NumberEnd(s, k)
      case None => None
      case Some(e) => Some(Hit(i, k, e, e))
  }

  /** The three keyword patterns of `_extract_score_from_text`; each is
      `KeywordScoreAt` with its keyword, so each captures a decimal. */
  function ScoreWordAt(s: string, i: nat): Option<Hit>
  {
    KeywordScoreAt(s, i, "score")
  }

  function AwardedAt(s: string, i: nat): Option<Hit>
  {
    KeywordScoreAt(s, i, "awarded")
  }

  function TotalAt(s: string, i: nat): Option<Hit>
  {
    KeywordScoreAt(s, i, "total")
  }

  // `(\d+(?:\.\d+)?)\s*/\s*\d+` at `i`: the group is the number before
  // the slash.
  function SlashScoreAt(s: string, i: nat): (r: Option<Hit>)
    ensures r.Some? ==> DecimalHit(s, r.value)
  {
    if i > |s| then None
    else
      match NumberEnd(s, i)
      case None => None
      case Some(n) =>
        var k := SpacesEnd(s, n);
        if k >= |s| || s[k] != '/' then None
        else
          var g := SpacesEnd(s, k + 1);
          if g >= |s| || !IsDigit(s[g]) then None
          else Some(Hit(i, i, n, DigitsEnd(s, g)))
  }

  /** The value of the first match of a decimal-capturing pattern. */
  function FirstValue(s: string, m: Matcher): (r: Option<real>)
    requires DecimalMatcher(m)
    ensures r.Some? <==> Search(s, m).Some?
    ensures r.Some? ==> r.value >= 0.0
  {
    match Search(s, m)
    case None => None
    case Some(h) =>
      var k :| 0 <= k <= |s| && m(s, k) == Some(h);
      Some(DecimalValue(s[h.gs..h.ge]))
  }

  /** The score of a free-text response: the first match of the first of
      the four patterns that matches at all, otherwise 0. */
  function TextScore(content: string): (r: real)
    ensures r >= 0.0
    ensures Search(content, ScoreWordAt).Some? ==> r == FirstValue(content, ScoreWordAt).value
    ensures Search(content, ScoreWordAt).None? && Search(content, SlashScoreAt).Some? ==>
      r == FirstValue(content, SlashScoreAt).value
    ensures Search(content, ScoreWordAt).None? && Search(content, SlashScoreAt).None? ==>
      r == (if Search(content, AwardedAt).Some? then FirstValue(content, AwardedAt).value
            else if Search(content, TotalAt).Some? then FirstValue(content, TotalAt).value
            else 0.0)
  {
    match FirstValue(content, ScoreWordAt)
    case Some(v) => v
    case None =>
      match FirstValue(content, SlashScoreAt)
      case Some(v) => v
      case None =>
        match FirstValue(content, AwardedAt)
        case Some(v) => v
        case None =>
          match FirstValue(content, TotalAt)
          case Some(v) => v
          case None => 0.0
  }

  /** The justification of a free-text response is the text itself, cut to
      this many characters followed by `...`. */
  const JustificationLimit: nat := 500

  // ---------------------------------------------------------------------
  // One response

  /** The first exponent mark `e` or `E` in `t`. */
  function ExponentMark(t: string): (r: Option<nat>)
    ensures r.Some? ==> r.value < |t| && t[r.value] in "eE" && forall k :: 0 <= k < r.value ==> t[k] !in "eE"
    ensures r.None? ==> forall k :: 0 <= k < |t| ==> t[k] !in "eE"
  {
    if |t| == 0 then None
    else if t[0] in "eE" then Some(0)
    else match ExponentMark(t[1..])
      case None => None
      case Some(k) => Some(k + 1)
  }

  /** Digits, possibly none. */
  predicate OptDigits(s: string)
  {
    forall k :: 0 <= k < |s| ==> IsDigit(s[k])
  }

  /** A mantissa of `float()`: digits with at most one `.` and at least one
      digit, on either side of the point. */
  function MantissaValue(m: string): (r: Option<real>)
    ensures IsDecimal(m) ==> r == Some(DecimalValue(m))
    ensures r.Some? ==> r.value >= 0.0 && |m| > 0
    ensures '.' !in m ==> (r.Some? <==> IsDigits(m))
  {
    match DecimalPoint(m)
    case None => if IsDigits(m) then Some(DigitsValue(m) as real) else None
    case Some(k) =>
      var whole, frac := m[..k], m[k + 1..];
      if OptDigits(whole) && OptDigits(frac) && |m| > 1 then
        Some(DigitsValue(whole) as real + Fraction(frac))
      else None
  }

  /** An exponent: an optional sign and digits. */
  function ExponentValue(x: string): (r: Option<int>)
    ensures IsDigits(x) ==> r == Some(DigitsValue(x) as int)
  {
    if x != "" && x[0] in "+-" then
      if IsDigits(x[1..]) then Some(if x[0] == '-' then -(DigitsValue(x[1..]) as int) else DigitsValue(x[1..]) as int)
      else None
    else if IsDigits(x) then Some(DigitsValue(x) as int)
    else None
  }

  /** `m` times ten to the power `x`. */
  function Scaled(m: real, x: int): (r: real)
    ensures x >= 0 ==> r == m * (Pow10(x) as real)
    ensures x < 0 ==> r == m / (Pow10(-x) as real)
    ensures m >= 0.0 ==> r >= 0.0
  {
    if x == 0 then m
    else if x > 0 then m * (Pow10(x) as real)
    else m / (Pow10(-x) as real)
  }

  /** A number without its sign: a mantissa and an optional exponent. */
  function UnsignedFloat(body: string): (r: Option<real>)
    ensures ExponentMark(body).None? ==> r == MantissaValue(body)
  {
    match ExponentMark(body)
    case None => MantissaValue(body)
    case Some(e) =>
      match MantissaValue(body[..e])
      case None => None
      case Some(m) =>
        match ExponentValue(body[e + 1..])
        case None => None
        case Some(x) => Some(Scaled(m, x))
  }

  /** A decimal is made of digits and a point, and starts with a digit. */
  lemma DecimalChars(t: string)
    ensures IsDecimal(t) ==> t != "" && IsDigit(t[0]) && ExponentMark(t).None?
  {
    if IsDecimal(t) {
      match DecimalPoint(t)
    case None =>
    case Some(k) =>
      assert t[0] == t[..k][0];
      forall i | 0 <= i < |t| ensures t[i] !in "eE" {
        if i < k { assert t[i] == t[..k][i]; }
        else if i > k { assert t[i] == t[k + 1..][i - k - 1]; }
      }
    }
  }

  /** `float(t)` of an already stripped text: an optional sign, a mantissa
      and an optional exponent; `None` where Python raises `ValueError`. */
  function FloatText(t: string): (r: Option<real>)
    ensures IsDecimal(t) ==> r == Some(DecimalValue(t))
    ensures t == "" ==> r.None?
  {
    if t != "" && t[0] in "+-" then
      match UnsignedFloat(t[1..])
      case None => None
      case Some(v) => Some(if t[0] == '-' then -v else v)
    else
      DecimalChars(t);
      UnsignedFloat(t)
  }

  /** A leading minus negates the number. */
  lemma NegativeFloat(t: string)
    requires IsDecimal(t)
    ensures FloatText("-" + t) == Some(-DecimalValue(t))
  {
    var s := "-" + t;
    assert s[0] == '-' && s[1..] == t;
    DecimalChars(t);
    assert UnsignedFloat(t) == Some(DecimalValue(t));
  }

  lemma NoExponent(t: string)
    requires forall k :: 0 <= k < |t| ==> IsDigit(t[k]) || t[k] == '.'
    ensures ExponentMark(t).None?
  {
  }

  /** A decimal point may open the mantissa. */
  lemma LeadingPoint(d: string)
    requires IsDigits(d)
    ensures FloatText("." + d) == Some((DigitsValue(d) as real) / (Pow10(|d|) as real))
  {
    var t := "." + d;
    NoExponent(t);
    LeadingMantissa(d);
    assert FloatText(t) == UnsignedFloat(t) == MantissaValue(t);
  }

  lemma LeadingMantissa(d: string)
    requires IsDigits(d)
    ensures MantissaValue("." + d) == Some(Fraction(d))
  {
    var t := "." + d;
    assert t[1..] == d && t[..0] == "";
    assert DecimalPoint(t) == Some(0);
    assert OptDigits(t[..0]) && OptDigits(t[1..]) && DigitsValue(t[..0]) == 0;
    MantissaAt(t, 0);
    NoFraction(MantissaValue(t), Fraction(d), 0.0);
  }

  /** A decimal point may close the mantissa. */
  lemma TrailingPoint(d: string)
    requires IsDigits(d)
    ensures FloatText(d + ".") == Some(DigitsValue(d) as real)
  {
    var t := d + ".";
    assert t[0] == d[0] && t[0] !in "+-";
    assert forall k :: 0 <= k < |t| ==> IsDigit(t[k]) || t[k] == '.';
    NoExponent(t);
    assert FloatText(t) == UnsignedFloat(t) == MantissaValue(t);
    TrailingMantissa(d);
  }

  lemma TrailingMantissa(d: string)
    requires IsDigits(d)
    ensures MantissaValue(d + ".") == Some(DigitsValue(d) as real)
  {
    var t := d + ".";
    assert t[..|d|] == d && t[|d| + 1..] == "";
    DecimalPointAfterDigits(t, |d|);
    MantissaAt(t, |d|);
    NoFraction(MantissaValue(t), DigitsValue(d) as real, Fraction(t[|d| + 1..]));
  }

  /** Unfolds the mantissa of a text with a decimal point at `k`. */
  lemma MantissaAt(m: string, k: nat)
    requires k < |m| && DecimalPoint(m) == Some(k) && OptDigits(m[..k]) && OptDigits(m[k + 1..]) && |m| > 1
    ensures MantissaValue(m) == Some(DigitsValue(m[..k]) as real + Fraction(m[k + 1..]))
  {
  }

  lemma NoFraction(v: Option<real>, whole: real, frac: real)
    requires v == Some(whole + frac) && frac == 0.0
    ensures v == Some(whole)
  {
  }

  lemma {:induction false} DecimalPointAfterDigits(t: string, k: nat)
    requires k < |t| && t[k] == '.' && OptDigits(t[..k])
    ensures DecimalPoint(t) == Some(k)
    decreases k
  {
    if k > 0 {
      assert t[0] == t[..k][0];
      assert t[1..][..k - 1] == t[..k][1..];
      DecimalPointAfterDigits(t[1..], k - 1);
    }
  }

  /** An exponent scales the mantissa by a power of ten. */
  lemma ExponentScales(m: string, x: string)
    requires IsDigits(m) && IsDigits(x)
    ensures FloatText(m + "e" + x) == Some(Scaled(DigitsValue(m) as real, DigitsValue(x)))
  {
    var t := m + "e" + x;
    assert t[0] == m[0] && t[0] !in "+-";
    assert FloatText(t) == UnsignedFloat(t);
    ExponentParts(m, x);
  }

  lemma ExponentParts(m: string, x: string)
    requires IsDigits(m) && IsDigits(x)
    ensures UnsignedFloat(m + "e" + x) == Some(Scaled(DigitsValue(m) as real, DigitsValue(x)))
  {
    var v, k := DigitsValue(m) as real, DigitsValue(x);
    assert MantissaValue(m) == Some(v);
    assert ExponentValue(x) == Some(k as int);
    var t := m + "e" + x;
    assert t[..|m|] == m && t[|m| + 1..] == x && t[|m|] == 'e';
    ExponentAfterDigits(t, |m|);
    WithExponent(t, |m|);
  }

  lemma WithExponent(t: string, e: nat)
    requires ExponentMark(t) == Some(e)
    ensures var m, x := MantissaValue(t[..e]), ExponentValue(t[e + 1..]);
      UnsignedFloat(t) == if m.Some? && x.Some? then Some(Scaled(m.value, x.value)) else None
  {
  }

  lemma {:induction false} ExponentAfterDigits(t: string, k: nat)
    requires k < |t| && t[k] in "eE" && OptDigits(t[..k])
    ensures ExponentMark(t) == Some(k)
    decreases k
  {
    if k > 0 {
      assert t[0] == t[..k][0];
      assert t[1..][..k - 1] == t[..k][1..];
      ExponentAfterDigits(t[1..], k - 1);
    }
  }

  /** `float(value)` of a decoded score; a string is read with surrounding
      white space removed. */
  function ScoreValue(v: Json): (r: Option<real>)
    ensures v.Num? ==> r == Some(v.n)
    ensures v.Bool? ==> r == Some(if v.b then 1.0 else 0.0)
    ensures v.Str? ==> r == FloatText(Strip(v.s))
    ensures v.Null? || v.Arr? || v.Obj? ==> r.None?
  {
    match v
    case Num(n) => Some(n)
    case Bool(b) => Some(if b then 1.0 else 0.0)
    case Str(t) => FloatText(Strip(t))
    case _ => None
  }

  /** Building a `ModuleScore`, which fails validation on a negative number. */
  function Checked(m: ModuleScore): (r: Result<ModuleScore>)
    ensures r.Ok? <==> ValidModuleScore(m)
    ensures r.Ok? ==> r.value == m
    ensures r.Err? ==> r.error == ModuleScoreInvalid
  {
    if ValidModuleScore(m) then Ok(m) else Err(ModuleScoreInvalid)
  }

  /** What every way of scoring one response gives: an error exactly when
      the hint is negative (even the failure record cannot be built then),
      and otherwise a valid record for the module whose maximum is the
      hint or the inferred maximum of the response, or, for a failure, a
      zero score with the maximum inferred from no text and the error as
      justification. */
  ghost predicate Settled(r: Result<ModuleScore>, content: string, moduleId: string, hint: Option<real>)
  {
    (r.Ok? <==> hint.None? || hint.value >= 0.0) &&
    (r.Ok? ==> ValidModuleScore(r.value) && r.value.moduleId == moduleId) &&
    (r.Ok? && r.value.success ==> r.value.maxScore == MaxOf(hint, content, moduleId)) &&
    (r.Ok? && !r.value.success ==>
       r.value.score == 0.0 && r.value.maxScore == MaxOf(hint, "", moduleId) &&
       StartsWith(r.value.justification, ErrorPrefix))
  }

  /** The record of the exception handler: score 0, the maximum of the empty
      text, and the error. Building it fails again on a negative hint, and
      that error leaves the function. */
  function Failure(moduleId: string, hint: Option<real>, error: string): (r: Result<ModuleScore>)
    ensures r.Ok? ==> r.value == ModuleScore(moduleId, 0.0, MaxOf(hint, "", moduleId), ErrorPrefix + error, false)
    ensures forall content :: Settled(r, content, moduleId, hint)
  {
    assert (ErrorPrefix + error)[..|ErrorPrefix|] == ErrorPrefix;
    Checked(ModuleScore(moduleId, 0.0, MaxOf(hint, "", moduleId), ErrorPrefix + error, false))
  }

  /** The record of a free-text response. */
  function FromText(content: string, moduleId: string, hint: Option<real>): (r: Result<ModuleScore>)
    ensures Settled(r, content, moduleId, hint)
    ensures hint.None? || hint.value >= 0.0 ==>
      r == Ok(ModuleScore(moduleId, TextScore(content), MaxOf(hint, content, moduleId), Ellipsize(content, JustificationLimit), true))
  {
    match Checked(ModuleScore(moduleId, TextScore(content), MaxOf(hint, content, moduleId), Ellipsize(content, JustificationLimit), true))
    case Ok(m) => Ok(m)
    case Err(e) => Failure(moduleId, hint, e)
  }

  /** `data.get('justification', 'No justification provided')`, which must
      be a string to pass validation. */
  function JustificationOf(fields: Dict.Dict<Json>): (r: Option<string>)
    ensures Dict.Get(fields, "justification").None? ==> r == Some(NoJustification)
    ensures Dict.Get(fields, "justification").Some? ==>
      (r.Some? <==> Dict.Get(fields, "justification").value.Str?)
  {
    match Dict.Get(fields, "justification")
    case None => Some(NoJustification)
    case Some(j) => if j.Str? then Some(j.s) else None
  }

  /** The record of a decoded object holding `score`: that score, its
      justification (by default `No justification provided`) and success,
      unless the score is not a number, the justification is not text or
      the record fails validation, which give the failure record. */
  function FromObject(fields: Dict.Dict<Json>, content: string, moduleId: string, hint: Option<real>): (r: Result<ModuleScore>)
    requires Dict.HasKey(fields, "score")
    ensures Settled(r, content, moduleId, hint)
    ensures var v := ScoreValue(Dict.Get(fields, "score").value);
      v.Some? && v.value >= 0.0 && JustificationOf(fields).Some? && (hint.None? || hint.value >= 0.0) ==>
        r == Ok(ModuleScore(moduleId, v.value, MaxOf(hint, content, moduleId), JustificationOf(fields).value, true))
    ensures ScoreValue(Dict.Get(fields, "score").value).None? ==> r == Failure(moduleId, hint, ScoreNotANumber)
    ensures ScoreValue(Dict.Get(fields, "score").value).Some? && JustificationOf(fields).None? ==>
      r == Failure(moduleId, hint, JustificationNotText)
    ensures var v := ScoreValue(Dict.Get(fields, "score").value);
      v.Some? && v.value < 0.0 && JustificationOf(fields).Some? ==> r == Failure(moduleId, hint, ModuleScoreInvalid)
  {
    match ScoreValue(Dict.Get(fields, "score").value)
    case None => Failure(moduleId, hint, ScoreNotANumber)
    case Some(score) =>
      match JustificationOf(fields)
      case None => Failure(moduleId, hint, JustificationNotText)
      case Some(j) =>
        match Checked(ModuleScore(moduleId, score, MaxOf(hint, content, moduleId), j, true))
        case Ok(m) => Ok(m)
        case Err(e) => Failure(moduleId, hint, e)
  }

  /** The score of one response. A response that looks like a JSON object
      is decoded; an object with `score` gives that score, anything else
      that decodes falls back to the text patterns, and a decoding error is
      an extraction failure. The result is an error only when even the
      failure record cannot be built. */
  function ExtractScore(content: string, moduleId: string, hint: Option<real>, decode: Decoder): (r: Result<ModuleScore>)
    ensures Settled(r, content, moduleId, hint)
    ensures var d := decode(content);
      StartsWith(Strip(content), "{") && d.Parsed? && d.value.Obj? && Dict.HasKey(d.value.fields, "score") ==>
        r == FromObject(d.value.fields, content, moduleId, hint)
    ensures var d := decode(content);
      r.Ok? && (!StartsWith(Strip(content), "{") || (d.Parsed? && !(d.value.Obj? && Dict.HasKey(d.value.fields, "score")))) ==>
        r.value == ModuleScore(moduleId, TextScore(content), MaxOf(hint, content, moduleId), Ellipsize(content, JustificationLimit), true)
    ensures var d := decode(content);
      StartsWith(Strip(content), "{") && !d.Parsed? ==> r == Failure(moduleId, hint, d.msg)
  {
    if StartsWith(Strip(content), "{") then
      match decode(content)
      case Parsed(v) =>
        if v.Obj? && Dict.HasKey(v.fields, "score") then
          FromObject(v.fields, content, moduleId, hint)
        else FromText(content, moduleId, hint)
      case ExtraData(_, msg) => Failure(moduleId, hint, msg)
      case Malformed(msg) => Failure(moduleId, hint, msg)
    else FromText(content, moduleId, hint)
  }

  /** A structured response holding a valid record's score and
      justification reads back as that record, when the record's maximum
      is the module's (non-zero) hint. */
  lemma ObjectScoreRoundTrip(m: ModuleScore, content: string, decode: Decoder)
    requires ValidModuleScore(m) && m.success && m.maxScore != 0.0
    requires StartsWith(Strip(content), "{")
    requires decode(content) == Parsed(Obj([("score", Num(m.score)), ("justification", Str(m.justification))]))
    ensures ExtractScore(content, m.moduleId, Some(m.maxScore), decode) == Ok(m)
  {
    RecordFields(m, content);
  }

  /** The object of a valid record's score and justification gives that
      record back. */
  lemma RecordFields(m: ModuleScore, content: string)
    requires ValidModuleScore(m) && m.success && m.maxScore != 0.0
    ensures var fields := [("score", Num(m.score)), ("justification", Str(m.justification))];
      Dict.HasKey(fields, "score") && FromObject(fields, content, m.moduleId, Some(m.maxScore)) == Ok(m)
  {
    var fields := [("score", Num(m.score)), ("justification", Str(m.justification))];
    assert Dict.Get(fields, "score") == Some(Num(m.score));
    assert Dict.Get(fields, "justification") == Some(Str(m.justification));
    assert JustificationOf(fields) == Some(m.justification);
  }

  // ---------------------------------------------------------------------
  // One saved response file

  /** A file found in a student's folder: its name and its text, absent
      when it cannot be read (a folder among the files included). */
  datatype ResponseFile = ResponseFile(name: string, text: Option<string>)

  /** A student folder in the task folder's listing. */
  datatype StudentDir = StudentDir(name: string, isDir: bool, files: seq<ResponseFile>)

  /** What one response file contributes: a module score, or an error line. */
  datatype FileOutcome = Scored(score: ModuleScore) | Problem(error: string)

  const ResponsePattern: string := "*_intermediate.json"

  /** `response_file.stem.replace('_intermediate', '')`. */
  function ModuleIdOf(fileName: string): string
  {
    Replace(Paths.Stem(fileName), "_intermediate", "")
  }

  function ProcessingError(fileName: string, error: string): (r: string)
    ensures StartsWith(r, "Error processing " + fileName)
  {
    var line := "Error processing " + fileName + ": " + error;
    assert line[..|"Error processing " + fileName|] == "Error processing " + fileName;
    line
  }

  function LlmFailed(moduleId: string): string
  {
    "LLM call failed for module " + moduleId
  }

  /** `module_max_scores.get(module_id)`; a missing table behaves as an
      empty one. */
  function HintOf(maxScores: Dict.Dict<real>, moduleId: string): Option<real>
  {
    Dict.Get(maxScores, moduleId)
  }

  /** One response file: the saved record is decoded, a record whose
      `llm_call_success` is not truthy gives the LLM failure line, and
      otherwise its `raw_response_content` (empty when missing) is scored
      with the module's hint. An exception escaping the scoring, as well as
      an unreadable or undecodable file or a record that is not an object,
      gives an error line naming the file. */
  function ProcessResponseFile(f: ResponseFile, maxScores: Dict.Dict<real>, decode: Decoder): (r: FileOutcome)
    ensures f.text.None? ==> r == Problem(ProcessingError(f.name, FileUnreadable))
    ensures f.text.Some? && !decode(f.text.value).Parsed? ==> r.Problem? && StartsWith(r.error, "Error processing " + f.name)
    ensures r.Scored? ==>
      (f.text.Some? && decode(f.text.value).Parsed? && decode(f.text.value).value.Obj? &&
       Truthy(FieldOr(decode(f.text.value).value, "llm_call_success", Bool(false))))
    ensures r.Scored? ==>
      ValidModuleScore(r.score) && r.score.moduleId == ModuleIdOf(f.name) &&
      (var hint := HintOf(maxScores, ModuleIdOf(f.name));
       hint.None? || hint.value >= 0.0)
    ensures (f.text.Some? && decode(f.text.value).Parsed? && decode(f.text.value).value.Obj? &&
             !Truthy(FieldOr(decode(f.text.value).value, "llm_call_success", Bool(false)))) ==>
      r == Problem(LlmFailed(ModuleIdOf(f.name)))
    ensures (f.text.Some? && decode(f.text.value).Parsed? && decode(f.text.value).value.Obj? &&
             Truthy(FieldOr(decode(f.text.value).value, "llm_call_success", Bool(false)))) ==>
      r == ScoreRecord(f.name, decode(f.text.value).value, maxScores, decode)
  {
    var moduleId := ModuleIdOf(f.name);
    match f.text
    case None => Problem(ProcessingError(f.name, FileUnreadable))
    case Some(text) =>
      match decode(text)
      case ExtraData(_, msg) =>
        Problem(ProcessingError(f.name, msg))
      case Malformed(msg) =>
        Problem(ProcessingError(f.name, msg))
      case Parsed(record) =>
        if !record.Obj? then Problem(ProcessingError(f.name, RecordNotAnObject))
        else if !Truthy(FieldOr(record, "llm_call_success", Bool(false))) then Problem(LlmFailed(moduleId))
        else ScoreRecord(f.name, record, maxScores, decode)
  }

  /** `response_data.get('raw_response_content', '')`, when it is text. */
  function RawContent(record: Json): Option<string>
  {
    match FieldOr(record, "raw_response_content", Str(""))
    case Str(raw) => Some(raw)
    case _ => None
  }

  /** A record whose model call succeeded: its `raw_response_content`
      (empty when missing) is scored with the module's hint, and an
      exception escaping the scoring gives an error line naming the file. */
  function ScoreRecord(fileName: string, record: Json, maxScores: Dict.Dict<real>, decode: Decoder): (r: FileOutcome)
    ensures var id := ModuleIdOf(fileName);
      var hint := HintOf(maxScores, id);
      var scored := if RawContent(record).Some? then ExtractScore(RawContent(record).value, id, hint, decode)
                    else Failure(id, hint, ResponseNotText);
      (r.Scored? <==> scored.Ok?) && (r.Scored? ==> r.score == scored.value) &&
      (r.Problem? ==> r.error == ProcessingError(fileName, scored.error))
    ensures r.Scored? ==>
      ValidModuleScore(r.score) && r.score.moduleId == ModuleIdOf(fileName) &&
      (var hint := HintOf(maxScores, ModuleIdOf(fileName));
       hint.None? || hint.value >= 0.0)
    ensures r.Problem? ==> StartsWith(r.error, "Error processing " + fileName)
  {
    var moduleId := ModuleIdOf(fileName);
    var hint := HintOf(maxScores, moduleId);
    var scored := match RawContent(record)
      case Some(raw) => ExtractScore(raw, moduleId, hint, decode)
      case None => Failure(moduleId, hint, ResponseNotText);
    match scored
    case Ok(m) => Scored(m)
    case Err(e) =>
      Problem(ProcessingError(fileName, e))
  }

  /** The names `student_dir.glob("*_intermediate.json")` yields: those
      ending in `_intermediate.json` (see `ResponseFileSuffix`). */
  predicate IsResponseFile(f: ResponseFile)
  {
    EndsWith(f.name, "_intermediate.json")
  }

  /** The glob `*_intermediate.json` selects exactly the response files. */
  lemma ResponseFileSuffix(f: ResponseFile)
    ensures Paths.Glob(f.name, ResponsePattern) <==> IsResponseFile(f)
  {
    assert ResponsePattern == "*" + "_intermediate.json";
    Paths.GlobStarSuffix(f.name, "_intermediate.json");
  }

  /** The module scores and error lines of one student folder, in listing
      order; files that are not response files are skipped. */
  function StudentRecords(files: seq<ResponseFile>, maxScores: Dict.Dict<real>, decode: Decoder): (r: (seq<ModuleScore>, seq<string>))
    ensures forall k :: 0 <= k < |r.0| ==> ValidModuleScore(r.0[k])
    ensures |r.0| + |r.1| == |ResponseFiles(files)|
  {
    if |files| == 0 then ([], [])
    else
      var f := files[|files| - 1];
      var (scores, errors) := StudentRecords(files[..|files| - 1], maxScores, decode);
      ResponseFilesCount(files);
      if !IsResponseFile(f) then (scores, errors)
      else
        var o := ProcessResponseFile(f, maxScores, decode);
        if o.Scored? then
          ValidAppend(scores, o.score);
          (scores + [o.score], errors)
        else (scores, errors + [o.error])
  }

  lemma ValidAppend(scores: seq<ModuleScore>, m: ModuleScore)
    requires (forall k :: 0 <= k < |scores| ==> ValidModuleScore(scores[k])) && ValidModuleScore(m)
    ensures forall k :: 0 <= k < |scores + [m]| ==> ValidModuleScore((scores + [m])[k])
  {
  }

  /** The last file adds one response file exactly when it is one. */
  lemma ResponseFilesCount(files: seq<ResponseFile>)
    requires |files| > 0
    ensures |ResponseFiles(files)| ==
      |ResponseFiles(files[..|files| - 1])| + (if IsResponseFile(files[|files| - 1]) then 1 else 0)
  {
  }

  /** The response files of a folder, in listing order. */
  function ResponseFiles(files: seq<ResponseFile>): (r: seq<ResponseFile>)
    ensures forall k :: 0 <= k < |r| ==> IsResponseFile(r[k])
  {
    if |files| == 0 then []
    else
      var f := files[|files| - 1];
      ResponseFiles(files[..|files| - 1]) + (if IsResponseFile(f) then [f] else [])
  }

  // ---------------------------------------------------------------------
  // Totals

  /** `sum(ms.score for ms in module_scores if ms.success)`. */
  function SuccessTotal(ms: seq<ModuleScore>): (r: real)
    ensures (forall k :: 0 <= k < |ms| ==> ValidModuleScore(ms[k])) ==> r >= 0.0
  {
    if |ms| == 0 then 0.0
    else
      var m := ms[|ms| - 1];
      SuccessTotal(ms[..|ms| - 1]) + (if m.success then m.score else 0.0)
  }

  /** `sum(ms.max_score for ms in module_scores if ms.success)`. */
  function SuccessMax(ms: seq<ModuleScore>): (r: real)
    ensures (forall k :: 0 <= k < |ms| ==> ValidModuleScore(ms[k])) ==> r >= 0.0
  {
    if |ms| == 0 then 0.0
    else
      var m := ms[|ms| - 1];
      SuccessMax(ms[..|ms| - 1]) + (if m.success then m.maxScore else 0.0)
  }

  /** Failed modules count for nothing: only the successful ones are summed. */
  lemma {:induction false} FailuresNotCounted(ms: seq<ModuleScore>, m: ModuleScore)
    requires !m.success
    ensures SuccessTotal(ms + [m]) == SuccessTotal(ms) && SuccessMax(ms + [m]) == SuccessMax(ms)
  {
    assert (ms + [m])[..|ms|] == ms;
  }

  /** When no successful module scores above its maximum, the total is at
      most the maximum total. */
  lemma {:induction false} TotalWithinMax(ms: seq<ModuleScore>)
    requires forall k :: 0 <= k < |ms| && ms[k].success ==> ms[k].score <= ms[k].maxScore
    ensures SuccessTotal(ms) <= SuccessMax(ms)
  {
    if |ms| > 0 {
      TotalWithinMax(ms[..|ms| - 1]);
    }
  }

  /** `total_score / max_total_score * 100` when the maximum is positive,
      else 0. */
  function Percentage(total: real, max: real): (r: real)
    ensures max > 0.0 ==> r * max == total * 100.0
    ensures max <= 0.0 ==> r == 0.0
    ensures (0.0 <= total && (max <= 0.0 || total <= max)) ==> 0.0 <= r <= 100.0
  {
    if max > 0.0 then total / max * 100.0 else 0.0
  }

  /** The summary built from a student's module scores as the code builds
      it: it fails validation, and the error leaves the whole extraction,
      when the percentage exceeds 100. */
  function SummaryAsWritten(studentId: string, taskName: string, scores: seq<ModuleScore>, errors: seq<string>): (r: Result<StudentScoreSummary>)
    requires forall k :: 0 <= k < |scores| ==> ValidModuleScore(scores[k])
    ensures r.Ok? <==> Percentage(SuccessTotal(scores), SuccessMax(scores)) <= 100.0
    ensures r.Ok? ==> ValidSummary(r.value)
  {
    var total := SuccessTotal(scores);
    var max := SuccessMax(scores);
    var summary := StudentScoreSummary(studentId, None, taskName, total, max, Percentage(total, max), scores, errors);
    if ValidSummary(summary) then Ok(summary) else Err(SummaryInvalid)
  }

  /** The summary with the percentage capped at 100, so that a module
      scored above its maximum cannot abort the extraction. */
  function Summary(studentId: string, taskName: string, scores: seq<ModuleScore>, errors: seq<string>): (r: StudentScoreSummary)
    requires forall k :: 0 <= k < |scores| ==> ValidModuleScore(scores[k])
    ensures ValidSummary(r)
    ensures r.studentId == studentId && r.taskName == taskName && r.studentName.None?
    ensures r.moduleScores == scores && r.extractionErrors == errors
    ensures r.totalScore == SuccessTotal(scores) && r.maxTotalScore == SuccessMax(scores)
    ensures r.percentage == Min(Percentage(SuccessTotal(scores), SuccessMax(scores)), 100.0)
  {
    var total := SuccessTotal(scores);
    var max := SuccessMax(scores);
    StudentScoreSummary(studentId, None, taskName, total, max, Min(Percentage(total, max), 100.0), scores, errors)
  }

  function Min(a: real, b: real): (r: real)
    ensures r <= a && r <= b && (r == a || r == b)
  {
    if a <= b then a else b
  }

  /** The capped summary is the one the code builds whenever that one
      passes validation. */
  lemma SummaryAgrees(studentId: string, taskName: string, scores: seq<ModuleScore>, errors: seq<string>)
    requires forall k :: 0 <= k < |scores| ==> ValidModuleScore(scores[k])
    requires SummaryAsWritten(studentId, taskName, scores, errors).Ok?
    ensures Summary(studentId, taskName, scores, errors) == SummaryAsWritten(studentId, taskName, scores, errors).value
  {
  }

  /** With no module above its maximum the code's summary always passes. */
  lemma SummaryAsWrittenWithinMax(studentId: string, taskName: string, scores: seq<ModuleScore>, errors: seq<string>)
    requires forall k :: 0 <= k < |scores| ==> ValidModuleScore(scores[k])
    requires forall k :: 0 <= k < |scores| && scores[k].success ==> scores[k].score <= scores[k].maxScore
    ensures SummaryAsWritten(studentId, taskName, scores, errors).Ok?
  {
    TotalWithinMax(scores);
  }

  /** A response object `{"score": 12}` for a module whose hint is 10 is
      scored 12 out of 10, and the summary of that module alone fails
      validation with a percentage of 120. */
  lemma ScoreAboveHintAborts()
    ensures var fields := [("score", Num(12.0))];
      var m := ModuleScore("m", 12.0, 10.0, NoJustification, true);
      Dict.HasKey(fields, "score") &&
      FromObject(fields, @"{""score"": 12}", "m", Some(10.0)) == Ok(m) &&
      Percentage(SuccessTotal([m]), SuccessMax([m])) == 120.0 &&
      SummaryAsWritten("s", "t", [m], []).Err?
  {
    var fields := [("score", Num(12.0))];
    var m := ModuleScore("m", 12.0, 10.0, NoJustification, true);
    assert Dict.Get(fields, "score") == Some(Num(12.0));
    assert Dict.Get(fields, "justification").None?;
    assert SuccessTotal([m]) == 12.0 && SuccessMax([m]) == 10.0;
  }

  // ---------------------------------------------------------------------
  // A task

  /** The summaries of a task, one per student folder in listing order,
      each over that folder's response files; a missing task folder gives
      none. */
  function StudentScores(taskDir: Option<seq<StudentDir>>, taskName: string, maxScores: Dict.Dict<real>, decode: Decoder): (r: seq<StudentScoreSummary>)
    ensures taskDir.None? ==> r == []
    ensures taskDir.Some? ==> r == SummariesOf(taskDir.value, taskName, maxScores, decode)
  {
    if taskDir.None? then [] else SummariesOf(taskDir.value, taskName, maxScores, decode)
  }

  function StudentSummary(d: StudentDir, taskName: string, maxScores: Dict.Dict<real>, decode: Decoder): (r: StudentScoreSummary)
  {
    var (scores, errors) := StudentRecords(d.files, maxScores, decode);
    Summary(d.name, taskName, scores, errors)
  }

  function SummariesOf(dirs: seq<StudentDir>, taskName: string, maxScores: Dict.Dict<real>, decode: Decoder): (r: seq<StudentScoreSummary>)
    ensures forall k :: 0 <= k < |r| ==> ValidSummary(r[k]) && r[k].taskName == taskName
  {
    if |dirs| == 0 then []
    else
      var d := dirs[|dirs| - 1];
      SummariesOf(dirs[..|dirs| - 1], taskName, maxScores, decode) +
        (if d.isDir then [StudentSummary(d, taskName, maxScores, decode)] else [])
  }

  /** The summaries as the code builds them: the first student whose
      summary fails validation ends the extraction with that error. */
  function SummariesAsWritten(dirs: seq<StudentDir>, taskName: string, maxScores: Dict.Dict<real>, decode: Decoder): (r: Result<seq<StudentScoreSummary>>)
    ensures r.Err? ==> r.error == SummaryInvalid
    ensures r.Ok? ==> |r.value| <= |dirs| && forall k :: 0 <= k < |r.value| ==> ValidSummary(r.value[k]) && r.value[k].taskName == taskName
  {
    if |dirs| == 0 then Ok([])
    else
      var d := dirs[|dirs| - 1];
      match SummariesAsWritten(dirs[..|dirs| - 1], taskName, maxScores, decode)
      case Err(e) => Err(e)
      case Ok(done) =>
        if !d.isDir then Ok(done)
        else
          var (scores, errors) := StudentRecords(d.files, maxScores, decode);
          match SummaryAsWritten(d.name, taskName, scores, errors)
          case Err(e) => Err(e)
          case Ok(s) => Ok(done + [s])
  }

  /** Whenever the code's extraction completes, it gives the capped
      summaries. */
  lemma {:induction false} SummariesAgree(dirs: seq<StudentDir>, taskName: string, maxScores: Dict.Dict<real>, decode: Decoder)
    requires SummariesAsWritten(dirs, taskName, maxScores, decode).Ok?
    ensures SummariesAsWritten(dirs, taskName, maxScores, decode).value == SummariesOf(dirs, taskName, maxScores, decode)
  {
    if |dirs| > 0 {
      var d := dirs[|dirs| - 1];
      SummariesAgree(dirs[..|dirs| - 1], taskName, maxScores, decode);
      if d.isDir {
        var (scores, errors) := StudentRecords(d.files, maxScores, decode);
        SummaryAgrees(d.name, taskName, scores, errors);
      }
    }
  }

  /** Extracting the scores of a task: for each student folder, each
      response file is scored or recorded as an error, then the successful
      modules are totalled. */
  method ExtractStudentScores(taskDir: Option<seq<StudentDir>>, taskName: string, maxScores: Dict.Dict<real>, decode: Decoder)
    returns (summaries: seq<StudentScoreSummary>)
    ensures summaries == StudentScores(taskDir, taskName, maxScores, decode)
    ensures forall k :: 0 <= k < |summaries| ==> ValidSummary(summaries[k])
  {
    summaries := [];
    if taskDir.None? {
      return;
    }
    var dirs := taskDir.value;
    var i := 0;
    while i < |dirs|
      invariant 0 <= i <= |dirs|
      invariant summaries == SummariesOf(dirs[..i], taskName, maxScores, decode)
    {
      var studentDir := dirs[i];
      SummariesSnoc(dirs, i, taskName, maxScores, decode);
      if studentDir.isDir {
        var moduleScores: seq<ModuleScore> := [];
        var extractionErrors: seq<string> := [];
        var files := studentDir.files;
        var j := 0;
        while j < |files|
          invariant 0 <= j <= |files|
          invariant (moduleScores, extractionErrors) == StudentRecords(files[..j], maxScores, decode)
        {
          var responseFile := files[j];
          RecordsSnoc(files, j, maxScores, decode);
          if IsResponseFile(responseFile) {
            match ProcessResponseFile(responseFile, maxScores, decode)
            case Scored(m) => moduleScores := moduleScores + [m];
            case Problem(e) => extractionErrors := extractionErrors + [e];
          }
          j := j + 1;
        }
        assert files[..j] == files;
        var totalScore, maxTotalScore := SumSuccessful(moduleScores);
        var percentage := if maxTotalScore > 0.0 then totalScore / maxTotalScore * 100.0 else 0.0;
        if percentage > 100.0 {
          percentage := 100.0;
        }
        summaries := summaries + [StudentScoreSummary(studentDir.name, None, taskName, totalScore, maxTotalScore,
                                                      percentage, moduleScores, extractionErrors)];
      }
      i := i + 1;
    }
    assert dirs[..i] == dirs;
  }

  /** One more folder adds its summary when it is a directory. */
  lemma SummariesSnoc(dirs: seq<StudentDir>, i: nat, taskName: string, maxScores: Dict.Dict<real>, decode: Decoder)
    requires i < |dirs|
    ensures SummariesOf(dirs[..i + 1], taskName, maxScores, decode) ==
      SummariesOf(dirs[..i], taskName, maxScores, decode) +
        (if dirs[i].isDir then [StudentSummary(dirs[i], taskName, maxScores, decode)] else [])
  {
    assert dirs[..i + 1][..i] == dirs[..i];
  }

  /** One more file adds its score or its error when it is a response file. */
  lemma RecordsSnoc(files: seq<ResponseFile>, j: nat, maxScores: Dict.Dict<real>, decode: Decoder)
    requires j < |files|
    ensures var (scores, errors) := StudentRecords(files[..j], maxScores, decode);
      var o := ProcessResponseFile(files[j], maxScores, decode);
      StudentRecords(files[..j + 1], maxScores, decode) ==
        if !IsResponseFile(files[j]) then (scores, errors)
        else if o.Scored? then (scores + [o.score], errors) else (scores, errors + [o.error])
  {
    assert files[..j + 1][..j] == files[..j];
  }

  /** The two sums over the successful modules. */
  method SumSuccessful(ms: seq<ModuleScore>) returns (total: real, max: real)
    ensures total == SuccessTotal(ms) && max == SuccessMax(ms)
  {
    total, max := 0.0, 0.0;
    var k := 0;
    while k < |ms|
      invariant 0 <= k <= |ms|
      invariant total == SuccessTotal(ms[..k]) && max == SuccessMax(ms[..k])
    {
      assert ms[..k + 1][..k] == ms[..k];
      if ms[k].success {
        total := total + ms[k].score;
        max := max + ms[k].maxScore;
      }
      k := k + 1;
    }
    assert ms[..k] == ms;
  }
}
