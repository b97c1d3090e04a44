/** Python's `template.format(**values)` over keyword values. The
    template is read left to right: `{{` and `}}` stand for single braces,
    other text is copied, and `{` opens a replacement field made of a
    field name, an optional `!` conversion and an optional `:` format
    specification, closed by the matching `}`. The part of the field name
    before any `.` or `[` is looked up among the values. A field holding
    only a name is replaced by its value; a field with an attribute or
    index part, a conversion or a format specification is outside this
    model (`UnsupportedField`) once its name is found. The errors are
    Python's: a name that is not a value (`KeyError`), a positional field
    (`{}` or `{0}`), and the malformed fields and braces. */
module Template {
  import opened Wrappers
  import opened Text
  import Dict

  const KeyErrorPrefix: string := "KeyError: "
  const PositionalField: string := "IndexError: Replacement index out of range"
  const UnexpectedBrace: string := "ValueError: unexpected '{' in field name"
  const UnclosedField: string := "ValueError: expected '}' before end of string"
  const SingleOpeningBrace: string := "ValueError: Single '{' encountered in format string"
  const SingleClosingBrace: string := "ValueError: Single '}' encountered in format string"
  const MissingConversion: string := "ValueError: end of string while looking for conversion specifier"
  const ExpectedColon: string := "ValueError: expected ':' after conversion specifier"
  const UnmatchedSpecBrace: string := "ValueError: unmatched '{' in format spec"
  /** A found field that is not a bare name; its rendering is not modelled. */
  const UnsupportedField: string := "replacement field with conversion, format specification, attribute or index"

  /** The `KeyError` for a field naming no value; the text after the
      prefix is `str()` of the exception, the name in quotes. */
  function MissingKey(name: string): (e: string)
    ensures StartsWith(e, KeyErrorPrefix) && e[|KeyErrorPrefix|..] == "'" + name + "'"
  {
    KeyErrorPrefix + "'" + name + "'"
  }

  /** The first `]` at or after `k`, or the end of `t`. */
  function CloseBracket(t: string, k: nat): (r: nat)
    requires k <= |t|
    ensures k <= r <= |t| && (r < |t| ==> t[r] == ']')
    ensures forall m :: k <= m < r ==> t[m] != ']'
    decreases |t| - k
  {
    if k == |t| || t[k] == ']' then k else CloseBracket(t, k + 1)
  }

  /** Where the field name starting at `k` ends: the first `{`, `}`, `:`
      or `!` outside `[...]`, or the end of `t`. */
  function NameEnd(t: string, k: nat): (r: nat)
    requires k <= |t|
    ensures k <= r <= |t|
    ensures r < |t| ==> t[r] in "{}:!"
    decreases |t| - k
  {
    if k == |t| then k
    else if t[k] in "{}:!" then k
    else if t[k] == '[' then NameEnd(t, CloseBracket(t, k + 1))
    else NameEnd(t, k + 1)
  }

  /** A parsed replacement field: its name is `t[start..nameEnd]`, it is
      `bare` when nothing but the name stands between the braces, and the
      text after its closing `}` starts at `next`. */
  datatype ReplacementField = ReplacementField(nameEnd: nat, bare: bool, next: nat)

  /** The index after the `}` closing a format specification that starts
      at `k`, `depth` fields deep. */
  function SpecEnd(t: string, k: nat, depth: nat): (r: Result<nat>)
    requires k <= |t| && depth >= 1
    ensures r.Ok? ==> k < r.value <= |t| && t[r.value - 1] == '}'
    ensures r.Err? ==> r.error == UnmatchedSpecBrace
    decreases |t| - k
  {
    if k == |t| then Err(UnmatchedSpecBrace)
    else if t[k] == '{' then SpecEnd(t, k + 1, depth + 1)
    else if t[k] == '}' then (if depth == 1 then Ok(k + 1) else SpecEnd(t, k + 1, depth - 1))
    else SpecEnd(t, k + 1, depth)
  }

  /** The replacement field whose name starts at `start`, right after its
      opening `{`. */
  function ParseField(t: string, start: nat): (r: Result<ReplacementField>)
    requires start <= |t|
    ensures r.Ok? ==> start <= r.value.nameEnd < r.value.next <= |t|
    ensures r.Ok? ==> r.value.nameEnd == NameEnd(t, start)
    ensures r.Ok? && r.value.bare <==> NameEnd(t, start) < |t| && t[NameEnd(t, start)] == '}'
    ensures r.Ok? && r.value.bare ==> r.value.next == r.value.nameEnd + 1
  {
    var e := NameEnd(t, start);
    if e == |t| then Err(UnclosedField)
    else if t[e] == '{' then Err(UnexpectedBrace)
    else if t[e] == '}' then Ok(ReplacementField(e, true, e + 1))
    else if t[e] == ':' then
      match SpecEnd(t, e + 1, 1)
      case Err(m) => Err(m)
      case Ok(n) => Ok(ReplacementField(e, false, n))
    else if e + 1 == |t| then Err(MissingConversion)
    else if e + 2 == |t| then Err(UnmatchedSpecBrace)
    else if t[e + 2] == '}' then Ok(ReplacementField(e, false, e + 3))
    else if t[e + 2] != ':' then Err(ExpectedColon)
    else
      match SpecEnd(t, e + 3, 1)
      case Err(m) => Err(m)
      case Ok(n) => Ok(ReplacementField(e, false, n))
  }

  /** The length of the leading part of a field name that is looked up:
      up to the first `.` or `[`. */
  function ArgLength(name: string): (n: nat)
    ensures n <= |name| && (n < |name| ==> name[n] in ".[")
    ensures forall k :: 0 <= k < n ==> name[k] !in ".["
  {
    if name == [] || name[0] in ".[" then 0 else 1 + ArgLength(name[1..])
  }

  /** The value a field name stands for. */
  function FieldValue(name: string, values: Dict.Dict<string>): (r: Result<string>)
    ensures r.Ok? ==> name != "" && !IsDigits(name) && Dict.Get(values, name) == Some(r.value)
    ensures name != "" && !IsDigits(name) && Dict.HasKey(values, name) ==> r.Ok?
    ensures name != "" && !IsDigits(name) && !Dict.HasKey(values, name) ==> r == Err(MissingKey(name))
  {
    if name == "" || IsDigits(name) then Err(PositionalField)
    else
      match Dict.Get(values, name)
      case None => Err(MissingKey(name))
      case Some(v) => Ok(v)
  }

  function Prepend(s: string, r: Result<string>): (q: Result<string>)
    ensures q.Ok? <==> r.Ok?
    ensures q.Ok? ==> q.value == s + r.value
  {
    if r.Ok? then Ok(s + r.value) else r
  }

  /** The formatted text of `t[i..]`. */
  function FormatFrom(t: string, i: nat, values: Dict.Dict<string>): (r: Result<string>)
    decreases |t| - i
  {
    if i >= |t| then Ok("")
    else if t[i] == '{' then
      if i + 1 == |t| then Err(SingleOpeningBrace)
      else if t[i + 1] == '{' then Prepend("{", FormatFrom(t, i + 2, values))
      else
        match ParseField(t, i + 1)
        case Err(e) => Err(e)
        case Ok(f) =>
          var name := t[i + 1..f.nameEnd];
          var arg := name[..ArgLength(name)];
          match FieldValue(arg, values)
          case Err(e) => Err(e)
          case Ok(v) =>
            if f.bare && arg == name then Prepend(v, FormatFrom(t, f.next, values))
            else Err(UnsupportedField)
    else if t[i] == '}' then
      if i + 1 < |t| && t[i + 1] == '}' then Prepend("}", FormatFrom(t, i + 2, values))
      else Err(SingleClosingBrace)
    else Prepend([t[i]], FormatFrom(t, i + 1, values))
  }

  /** `t.format(**values)`. */
  function Format(t: string, values: Dict.Dict<string>): (r: Result<string>)
    ensures NoBraces(t) ==> r == Ok(t)
  {
    PlainTextKept(t, 0, values);
    assert t[0..] == t;
    FormatFrom(t, 0, values)
  }

  predicate NoBraces(s: string)
  {
    forall k :: 0 <= k < |s| ==> s[k] != '{' && s[k] != '}'
  }

  /** Text without braces is copied as it is. */
  lemma {:induction false} PlainTextKept(t: string, i: nat, values: Dict.Dict<string>)
    requires i <= |t|
    ensures NoBraces(t[i..]) ==> FormatFrom(t, i, values) == Ok(t[i..])
    decreases |t| - i
  {
    if i < |t| && NoBraces(t[i..]) {
      assert t[i..][0] == t[i];
      assert t[i + 1..] == t[i..][1..];
      assert t[i] != '{' && t[i] != '}' && NoBraces(t[i + 1..]);
      PlainTextKept(t, i + 1, values);
      assert FormatFrom(t, i, values) == Prepend([t[i]], FormatFrom(t, i + 1, values));
      assert t[i..] == [t[i]] + t[i + 1..];
    } else if i == |t| {
      assert t[i..] == [];
    }
  }

  /** Doubling every brace: the text that formats to `s`. */
  function Escape(s: string): (r: string)
    ensures |r| >= |s|
  {
    if |s| == 0 then ""
    else if s[0] == '{' then "{{" + Escape(s[1..])
    else if s[0] == '}' then "}}" + Escape(s[1..])
    else [s[0]] + Escape(s[1..])
  }

  /** Formatting an escaped text gives the text back, whatever the values. */
  lemma {:induction false} FormatEscape(s: string, values: Dict.Dict<string>)
    ensures Format(Escape(s), values) == Ok(s)
  {
    EscapeFrom(s, "", values);
    assert "" + Escape(s) == Escape(s);
  }

  lemma {:induction false} EscapeFrom(s: string, pre: string, values: Dict.Dict<string>)
    ensures FormatFrom(pre + Escape(s), |pre|, values) == Ok(s)
    decreases |s|
  {
    var t := pre + Escape(s);
    if |s| > 0 {
      var head := if s[0] == '{' then "{{" else if s[0] == '}' then "}}" else [s[0]];
      assert Escape(s) == head + Escape(s[1..]);
      assert t == (pre + head) + Escape(s[1..]);
      EscapeFrom(s[1..], pre + head, values);
      var rest := FormatFrom(t, |pre| + |head|, values);
      assert rest == Ok(s[1..]);
      assert t[|pre|] == head[0];
      if s[0] == '{' || s[0] == '}' {
        assert t[|pre| + 1] == head[1];
        assert FormatFrom(t, |pre|, values) == Prepend([s[0]], rest);
      } else {
        assert FormatFrom(t, |pre|, values) == Prepend([s[0]], rest);
      }
      assert s == [s[0]] + s[1..];
    }
  }

  /** A field name that is only a key: none of `{`, `}`, `:`, `!`, `.`
      or `[` in it. */
  predicate PlainName(s: string)
  {
    forall k :: 0 <= k < |s| ==> s[k] !in "{}:!.["
  }

  /** The field name scan stops at the first character that ends a name. */
  lemma {:induction false} NameEndAfter(t: string, k: nat, j: nat)
    requires k <= j < |t| && PlainName(t[k..j]) && t[j] in "{}:!"
    ensures NameEnd(t, k) == j
    decreases j - k
  {
    if k < j {
      assert t[k] == t[k..j][0];
      assert t[k + 1..j] == t[k..j][1..];
      NameEndAfter(t, k + 1, j);
    }
  }

  /** A format specification without braces ends at the final `}`. */
  lemma {:induction false} SpecEndPlain(t: string, k: nat)
    requires k < |t| && t[|t| - 1] == '}' && NoBraces(t[k..|t| - 1])
    ensures SpecEnd(t, k, 1) == Ok(|t|)
    decreases |t| - k
  {
    if k < |t| - 1 {
      assert t[k] == t[k..|t| - 1][0];
      assert t[k + 1..|t| - 1] == t[k..|t| - 1][1..];
      SpecEndPlain(t, k + 1);
    }
  }

  lemma PlainArg(name: string)
    requires PlainName(name)
    ensures name[..ArgLength(name)] == name
  {
  }

  /** A single field naming a value is replaced by that value. */
  lemma FieldReplaced(name: string, values: Dict.Dict<string>)
    requires PlainName(name) && name != "" && !IsDigits(name) && Dict.HasKey(values, name)
    ensures Format("{" + name + "}", values) == Ok(Dict.Get(values, name).value)
  {
    var t := "{" + name + "}";
    assert t[1..|t| - 1] == name;
    assert t[0] == '{' && t[1] == name[0];
    NameEndAfter(t, 1, |t| - 1);
    PlainArg(name);
    var v := Dict.Get(values, name).value;
    assert FormatFrom(t, |t|, values) == Ok("");
    assert v + "" == v;
  }

  /** A field naming no value is an error. */
  lemma MissingFieldFails(name: string, values: Dict.Dict<string>)
    requires PlainName(name) && !Dict.HasKey(values, name)
    ensures Format("{" + name + "}", values).Err?
    ensures name != "" && !IsDigits(name) ==> Format("{" + name + "}", values) == Err(MissingKey(name))
  {
    var t := "{" + name + "}";
    assert t[1..|t| - 1] == name;
    NameEndAfter(t, 1, |t| - 1);
    PlainArg(name);
  }

  /** A format specification does not hide a missing name: the
      `KeyError` names the part before the `:` (as for a JSON object
      written into a template, `{"score": 5}`, naming `"score"`). */
  lemma SpecFieldMissingKey(name: string, spec: string, values: Dict.Dict<string>)
    requires PlainName(name) && name != "" && !IsDigits(name) && !Dict.HasKey(values, name)
    requires NoBraces(spec)
    ensures Format("{" + name + ":" + spec + "}", values) == Err(MissingKey(name))
  {
    var t := "{" + name + ":" + spec + "}";
    var e := 1 + |name|;
    assert t[1..e] == name && t[e] == ':';
    assert t[0] == '{' && t[1] == name[0];
    NameEndAfter(t, 1, e);
    assert t[e + 1..|t| - 1] == spec;
    SpecEndPlain(t, e + 1);
    PlainArg(name);
  }

  /** An attribute access looks up only the name before the `.`. */
  lemma AttributeFieldMissingKey(name: string, attr: string, values: Dict.Dict<string>)
    requires PlainName(name) && name != "" && !IsDigits(name) && !Dict.HasKey(values, name)
    requires PlainName(attr)
    ensures Format("{" + name + "." + attr + "}", values) == Err(MissingKey(name))
  {
    var t := "{" + name + "." + attr + "}";
    var field := name + "." + attr;
    assert t[1..|t| - 1] == field;
    assert t[0] == '{' && t[1] == name[0];
    assert PlainName(t[1..1 + |name|]) by { assert t[1..1 + |name|] == name; }
    assert t[1 + |name|] == '.';
    assert PlainName(t[2 + |name|..|t| - 1]) by { assert t[2 + |name|..|t| - 1] == attr; }
    NameEndDotted(t, 1, 1 + |name|, |t| - 1);
    ArgBeforeDot(name, attr);
    assert field == t[1..|t| - 1];
  }

  lemma ArgBeforeDot(name: string, attr: string)
    requires PlainName(name)
    ensures (name + "." + attr)[..ArgLength(name + "." + attr)] == name
    decreases |name|
  {
    var f := name + "." + attr;
    if name != [] {
      assert f[1..] == name[1..] + "." + attr;
      ArgBeforeDot(name[1..], attr);
    }
  }

  /** The name scan runs over a single `.` between two plain parts. */
  lemma NameEndDotted(t: string, k: nat, d: nat, j: nat)
    requires k <= d < j < |t| && t[d] == '.' && t[j] == '}'
    requires PlainName(t[k..d]) && PlainName(t[d + 1..j])
    ensures NameEnd(t, k) == j
    decreases d - k
  {
    if k < d {
      assert t[k] == t[k..d][0];
      assert t[k + 1..d] == t[k..d][1..];
      NameEndDotted(t, k + 1, d, j);
    } else {
      NameEndAfter(t, d + 1, j);
    }
  }
}
