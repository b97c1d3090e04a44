/** The Python string operations the marking code relies on, over `seq<char>`:
    `strip`, `startswith`/`endswith`, `in`, `find`, `split(sep, 1)`,
    `split(sep)`, `join`, `replace`, slicing with `[:n]`, `lower`, `isdigit`
    and the decimal rendering of a natural number. */
module Text {
  import opened Wrappers

  /** Python's `str.isspace` on the characters the model distinguishes: the
      ASCII white space, the four ASCII separators, NEL and no-break space. */
  predicate IsSpace(c: char)
  {
    c in {' ', '\t', '\n', '\r', '\U{000B}', '\U{000C}', '\U{001C}', '\U{001D}',
          '\U{001E}', '\U{001F}', '\U{0085}', '\U{00A0}'}
  }

  predicate IsDigit(c: char) { '0' <= c <= '9' }

  predicate IsAsciiLetter(c: char) { 'a' <= c <= 'z' || 'A' <= c <= 'Z' }

  /** Python's `str.isdigit` on ASCII: non-empty and all digits. */
  predicate IsDigits(s: string)
  {
    |s| > 0 && forall i :: 0 <= i < |s| ==> IsDigit(s[i])
  }

  /** A student id: `z` followed by one or more digits. */
  predicate IsZId(s: string)
  {
    |s| >= 2 && s[0] == 'z' && IsDigits(s[1..])
  }

  /** A problem id: digits, then at most one ASCII letter. */
  predicate IsProblemId(t: string)
  {
    IsDigits(t) || (|t| >= 2 && IsDigits(t[..|t| - 1]) && IsAsciiLetter(t[|t| - 1]))
  }

  /** A string with no white space at either end, the shape `strip` returns. */
  predicate Stripped(s: string)
  {
    |s| == 0 || (!IsSpace(s[0]) && !IsSpace(s[|s| - 1]))
  }

  function LStrip(s: string): (r: string)
    ensures |r| <= |s| && r == s[|s| - |r|..]
    ensures |r| == 0 || !IsSpace(r[0])
    ensures forall i :: 0 <= i < |s| - |r| ==> IsSpace(s[i])
  {
    if |s| > 0 && IsSpace(s[0]) then LStrip(s[1..]) else s
  }

  function RStrip(s: string): (r: string)
    ensures |r| <= |s| && r == s[..|r|]
    ensures |r| == 0 || !IsSpace(r[|r| - 1])
    ensures forall i :: |r| <= i < |s| ==> IsSpace(s[i])
  {
    if |s| > 0 && IsSpace(s[|s| - 1]) then RStrip(s[..|s| - 1]) else s
  }

  /** Python's `str.strip()`: what remains of `s` after removing the white
      space at both ends. */
  function Strip(s: string): (r: string)
    ensures Stripped(r)
    ensures Contains(s, r)
  {
    StripFacts(s);
    RStrip(LStrip(s))
  }

  lemma StripFacts(s: string)
    ensures Stripped(RStrip(LStrip(s))) && Contains(s, RStrip(LStrip(s)))
  {
    StripParts(s, LStrip(s), RStrip(LStrip(s)));
  }

  /** A prefix `r` of a suffix `l` of `s`, trimmed at both ends, is
      stripped and occurs in `s`. */
  lemma StripParts(s: string, l: string, r: string)
    requires |l| <= |s| && l == s[|s| - |l|..] && (|l| == 0 || !IsSpace(l[0]))
    requires |r| <= |l| && r == l[..|r|] && (|r| == 0 || !IsSpace(r[|r| - 1]))
    ensures Stripped(r) && Contains(s, r)
  {
    var off := |s| - |l|;
    assert s[off..off + |r|] == l[..|r|];
    assert OccursAt(s, r, off);
    if |r| > 0 { assert r[0] == l[0]; }
  }

  /** A string without surrounding white space is its own `strip`. */
  lemma {:induction false} StripStripped(s: string)
    requires Stripped(s)
    ensures Strip(s) == s
  {
  }

  /** `strip` is idempotent. */
  lemma StripIdempotent(s: string)
    ensures Strip(Strip(s)) == Strip(s)
  {
    StripStripped(Strip(s));
  }

  /** `strip` yields the empty string exactly for blank input. */
  lemma StripEmptyIffBlank(s: string)
    ensures Strip(s) == "" <==> forall i :: 0 <= i < |s| ==> IsSpace(s[i])
  {
  }

  predicate StartsWith(s: string, p: string)
  {
    |p| <= |s| && s[..|p|] == p
  }

  predicate EndsWith(s: string, p: string)
  {
    |p| <= |s| && s[|s| - |p|..] == p
  }

  /** A suffix of a suffix is a suffix. */
  lemma EndsWithTrans(s: string, m: string, p: string)
    requires EndsWith(s, m) && EndsWith(m, p)
    ensures EndsWith(s, p)
  {
    assert s[|s| - |p|..] == s[|s| - |m|..][|m| - |p|..];
  }

  /** `p` occurs in `s` starting at index `i`. */
  predicate OccursAt(s: string, p: string, i: int)
  {
    0 <= i && i + |p| <= |s| && s[i..i + |p|] == p
  }

  /** Python's `p in s`. */
  predicate Contains(s: string, p: string)
  {
    exists i :: 0 <= i <= |s| && OccursAt(s, p, i)
  }

  function FindFrom(s: string, p: string, from: nat): (r: Option<nat>)
    ensures r.Some? ==> from <= r.value && OccursAt(s, p, r.value)
    ensures r.Some? ==> forall j :: from <= j < r.value ==> !OccursAt(s, p, j)
    ensures r.None? ==> forall j :: from <= j ==> !OccursAt(s, p, j)
    decreases |s| - from
  {
    if from + |p| > |s| then None
    else if s[from..from + |p|] == p then Some(from)
    else FindFrom(s, p, from + 1)
  }

  /** Python's `s.find(p)`: the first index where `p` occurs, if any. */
  function Find(s: string, p: string): (r: Option<nat>)
    ensures r.Some? <==> Contains(s, p)
    ensures r.Some? ==> OccursAt(s, p, r.value)
    ensures r.Some? ==> forall j :: 0 <= j < r.value ==> !OccursAt(s, p, j)
  {
    FindFrom(s, p, 0)
  }

  /** Whether `p` occurs in `s`, computed. */
  function Has(s: string, p: string): (b: bool)
    ensures b <==> Contains(s, p)
  {
    Find(s, p).Some?
  }

  /** `s.split(sep, 1)` when it produces two parts: the text before the
      first `sep` and the text after it. */
  function Cut(s: string, sep: string): (r: Option<(string, string)>)
    ensures r.None? <==> !Contains(s, sep)
    ensures r.Some? ==> s == r.value.0 + sep + r.value.1
    ensures r.Some? ==> forall j :: 0 <= j < |r.value.0| ==> !OccursAt(s, sep, j)
  {
    match Find(s, sep)
    case None => None
    case Some(i) =>
      var a, b := s[..i], s[i + |sep|..];
      assert s == a + sep + b by { assert s[i..i + |sep|] == sep; }
      Some((a, b))
  }

  /** The text before the first `sep`, or all of `s`: `s.split(sep, 1)[0]`. */
  function Before(s: string, sep: string): (r: string)
    ensures StartsWith(s, r)
    ensures !Contains(s, sep) ==> r == s
    ensures Contains(s, sep) ==> StartsWith(s, r + sep)
    ensures forall j :: 0 <= j < |r| ==> !OccursAt(s, sep, j)
  {
    match Cut(s, sep)
    case None => s
    case Some((a, b)) =>
      assert s[..|a|] == a;
      assert s[..|a + sep|] == a + sep;
      a
  }

  /** `Before` leaves nothing to cut: the text before the first `sep` does
      not contain `sep`. */
  lemma BeforeIdempotent(s: string, sep: string)
    requires |sep| > 0
    ensures Before(Before(s, sep), sep) == Before(s, sep)
  {
    BeforeExcludes(s, sep);
  }

  /** The text before the first `sep` does not contain `sep`. */
  lemma BeforeExcludes(s: string, sep: string)
    requires |sep| > 0
    ensures !Contains(Before(s, sep), sep)
  {
    var b := Before(s, sep);
    forall j | 0 <= j <= |b| ensures !OccursAt(b, sep, j) {
      if j + |sep| <= |b| {
        assert s[j..j + |sep|] == b[j..j + |sep|];
        assert !OccursAt(s, sep, j);
      }
    }
  }

  /** The text before `sep` in `a + sep + rest` is `a` when `a` is split-safe. */
  lemma BeforeSafePart(a: string, sep: string, rest: string)
    requires |sep| > 0 && SplitSafe(a, sep)
    ensures Before(a + sep + rest, sep) == a
    ensures Cut(a + sep + rest, sep) == Some((a, rest))
  {
    FindAfterSafePart(a, sep, rest);
    var s := a + sep + rest;
    assert s[..|a|] == a;
    assert s[|a| + |sep|..] == rest;
  }

  /** Python's `s.split(sep)` for a non-empty separator. */
  function Split(s: string, sep: string): (r: seq<string>)
    requires |sep| > 0
    ensures |r| >= 1 && r[0] == Before(s, sep)
    ensures Contains(s, sep) <==> |r| >= 2
    decreases |s|
  {
    match Find(s, sep)
    case None => [s]
    case Some(i) => [s[..i]] + Split(s[i + |sep|..], sep)
  }

  /** After the first part, a split goes on with the text after the first
      separator. */
  lemma SplitRest(s: string, sep: string)
    requires |sep| > 0 && Contains(s, sep)
    ensures Split(s, sep)[1..] == Split(Cut(s, sep).value.1, sep)
  {
  }

  /** Python's `s.split(sep)[-1]`: the text after the last separator, or
      all of `s` when there is none. */
  function LastPart(s: string, sep: string): (r: string)
    requires |sep| > 0
    ensures EndsWith(s, r) && !Contains(r, sep)
    ensures r == s || EndsWith(s, sep + r)
    decreases |s|
  {
    match Find(s, sep)
    case None => s
    case Some(i) =>
      var t := s[i + |sep|..];
      assert s == s[..i] + sep + t by { assert s[i..i + |sep|] == sep; }
      SuffixThrough(s[..i], sep, t, LastPart(t, sep));
      LastPart(t, sep)
  }

  /** A suffix of `t` ending `a + sep + t`, after `sep` when it is all of
      `t` or already after a `sep` in `t`. */
  lemma SuffixThrough(a: string, sep: string, t: string, x: string)
    requires EndsWith(t, x) && (x == t || EndsWith(t, sep + x))
    ensures EndsWith(a + sep + t, x) && EndsWith(a + sep + t, sep + x)
  {
    var s := a + sep + t;
    assert s[|s| - |x|..] == t[|t| - |x|..];
    if x == t {
      assert s[|s| - |sep + x|..] == sep + x;
    } else {
      assert s[|s| - |sep + x|..] == t[|t| - |sep + x|..];
    }
  }

  /** Python's `sep.join(parts)`. */
  function Join(parts: seq<string>, sep: string): (r: string)
    ensures |parts| == 1 ==> r == parts[0]
    ensures |parts| == 0 ==> r == ""
  {
    if |parts| == 0 then ""
    else if |parts| == 1 then parts[0]
    else parts[0] + sep + Join(parts[1..], sep)
  }

  /** Joining more than one part puts `sep` right after the first part. */
  lemma JoinCons(parts: seq<string>, sep: string)
    requires |parts| >= 2
    ensures Join(parts, sep) == parts[0] + sep + Join(parts[1..], sep)
  {
  }

  /** Appending one part to a non-empty join adds `sep` and that part. */
  lemma {:induction false} JoinSnoc(parts: seq<string>, x: string, sep: string)
    requires |parts| >= 1
    ensures Join(parts + [x], sep) == Join(parts, sep) + sep + x
  {
    if |parts| == 1 {
      assert (parts + [x])[1..] == [x];
    } else {
      assert (parts + [x])[1..] == parts[1..] + [x];
      JoinSnoc(parts[1..], x, sep);
    }
  }

  /** A part that may stand before `sep` in a join without the split seeing
      a separator inside it: no occurrence of `sep` in `p + sep` starts
      before the end of `p`. (Not containing `sep` is not enough when a
      suffix of `p` is a prefix of `sep`.) */
  predicate SplitSafe(p: string, sep: string)
  {
    forall i :: 0 <= i < |p| ==> !OccursAt(p + sep, sep, i)
  }

  /** A part without a one-character separator is split-safe for it. */
  lemma SplitSafeChar(p: string, c: char)
    requires c !in p
    ensures SplitSafe(p, [c])
  {
    forall i | 0 <= i < |p| ensures !OccursAt(p + [c], [c], i) {
      assert (p + [c])[i..i + 1] == [p[i]];
    }
  }

  /** A part without the separator's first character is split-safe for it. */
  lemma SplitSafeHead(p: string, sep: string)
    requires |sep| > 0 && sep[0] !in p
    ensures SplitSafe(p, sep)
  {
    forall i | 0 <= i < |p| ensures !OccursAt(p + sep, sep, i) {
      if i + |sep| <= |p + sep| {
        assert (p + sep)[i..i + |sep|][0] == p[i];
      }
    }
  }

  /** A part without a one-character separator does not contain it. */
  lemma NotContainsChar(p: string, c: char)
    requires c !in p
    ensures !Contains(p, [c])
  {
    forall i | 0 <= i <= |p| ensures !OccursAt(p, [c], i) {
      if i < |p| { assert p[i..i + 1] == [p[i]]; }
    }
  }

  /** A character absent from `s` is absent from every infix of `s`. */
  lemma CharNotInInfix(s: string, t: string, c: char)
    requires Contains(s, t) && c !in s
    ensures c !in t
  {
    var i :| 0 <= i <= |s| && OccursAt(s, t, i);
    forall k | 0 <= k < |t| ensures t[k] != c {
      assert t[k] == s[i + k];
    }
  }

  lemma FindAfterSafePart(p: string, sep: string, rest: string)
    requires |sep| > 0 && SplitSafe(p, sep)
    ensures Find(p + sep + rest, sep) == Some(|p|)
  {
    var s := p + sep + rest;
    assert OccursAt(s, sep, |p|) by { assert s[|p|..|p| + |sep|] == sep; }
    match Find(s, sep)
    case None =>
    case Some(i) =>
      if i < |p| {
        assert s[i..i + |sep|] == (p + sep)[i..i + |sep|];
        assert OccursAt(p + sep, sep, i);
      }
  }

  /** Parts that a split of their join gives back: at least one, every
      part but the last split-safe, and the last free of the separator. */
  predicate Recoverable(parts: seq<string>, sep: string)
  {
    |parts| >= 1 && (forall k :: 0 <= k < |parts| - 1 ==> SplitSafe(parts[k], sep)) &&
    !Contains(parts[|parts| - 1], sep)
  }

  /** Splitting a join recovers the parts when every part but the last is
      split-safe and the last does not contain the separator. */
  lemma {:induction false} SplitJoin(parts: seq<string>, sep: string)
    requires |sep| > 0 && Recoverable(parts, sep)
    ensures Split(Join(parts, sep), sep) == parts
  {
    if |parts| == 1 {
    } else {
      var rest := Join(parts[1..], sep);
      FindAfterSafePart(parts[0], sep, rest);
      var s := parts[0] + sep + rest;
      assert s[..|parts[0]|] == parts[0];
      assert s[|parts[0]| + |sep|..] == rest;
      assert Recoverable(parts[1..], sep) by {
        forall k | 0 <= k < |parts[1..]| - 1 ensures SplitSafe(parts[1..][k], sep) {
          assert parts[1..][k] == parts[k + 1];
        }
      }
      SplitJoin(parts[1..], sep);
    }
  }

  /** Splitting on a one-character separator undoes joining parts that do
      not contain it. */
  lemma SplitJoinChar(parts: seq<string>, c: char)
    requires |parts| >= 1 && forall k :: 0 <= k < |parts| ==> c !in parts[k]
    ensures Split(Join(parts, [c]), [c]) == parts
  {
    forall k | 0 <= k < |parts| - 1 ensures SplitSafe(parts[k], [c]) {
      SplitSafeChar(parts[k], c);
    }
    NotContainsChar(parts[|parts| - 1], c);
    SplitJoin(parts, [c]);
  }

  /** Python's `s.replace(pat, rep)` for a non-empty `pat`: every
      non-overlapping occurrence, left to right. */
  function Replace(s: string, pat: string, rep: string): string
    requires |pat| > 0
    decreases |s|
  {
    match Find(s, pat)
    case None => s
    case Some(i) => s[..i] + rep + Replace(s[i + |pat|..], pat, rep)
  }

  /** Replacing a single character by text without it removes that
      character everywhere, and every other character survives in order. */
  lemma {:induction false} ReplaceCharRemoves(s: string, c: char, rep: string)
    requires c !in rep
    ensures c !in Replace(s, [c], rep)
    decreases |s|
  {
    match Find(s, [c])
    case None =>
      forall j | 0 <= j < |s| ensures s[j] != c {
        assert s[j..j + 1] == [s[j]] && !OccursAt(s, [c], j);
      }
    case Some(i) =>
      forall j | 0 <= j < i ensures s[j] != c {
        assert s[j..j + 1] == [s[j]] && !OccursAt(s, [c], j);
      }
      ReplaceCharRemoves(s[i + 1..], c, rep);
  }

  /** Replacing never brings in a character that neither the text nor the
      replacement has. */
  lemma {:induction false} ReplaceKeepsOut(s: string, pat: string, rep: string, c: char)
    requires |pat| > 0 && c !in s && c !in rep
    ensures c !in Replace(s, pat, rep)
    decreases |s|
  {
    match Find(s, pat)
    case None =>
    case Some(i) =>
      var head, tail := s[..i], s[i + |pat|..];
      NotInSlices(s, i, i + |pat|, c);
      ReplaceKeepsOut(tail, pat, rep, c);
      NotInJoin(head, rep, Replace(tail, pat, rep), Replace(s, pat, rep), c);
  }

  /** A character missing from three strings is missing from their join. */
  lemma NotInJoin(a: string, b: string, d: string, joined: string, c: char)
    requires joined == a + b + d && c !in a && c !in b && c !in d
    ensures c !in joined
  {
  }

  /** A character missing from a string is missing from its prefixes and
      suffixes. */
  lemma NotInSlices(s: string, i: nat, j: nat, c: char)
    requires i <= |s| && j <= |s| && c !in s
    ensures c !in s[..i] && c !in s[j..]
  {
  }

  /** Replacing a character by a single character keeps the length. */
  lemma {:induction false} ReplaceCharLength(s: string, c: char, d: char)
    ensures |Replace(s, [c], [d])| == |s|
    decreases |s|
  {
    match Find(s, [c])
    case None =>
    case Some(i) => ReplaceCharLength(s[i + 1..], c, d);
  }

  /** Replacing a character by a single character is a map over the
      text: each `c` becomes `d`, every other character stays where it is. */
  lemma {:induction false} ReplaceCharMap(s: string, c: char, d: char)
    ensures |Replace(s, [c], [d])| == |s|
    ensures forall k :: 0 <= k < |s| ==> Replace(s, [c], [d])[k] == if s[k] == c then d else s[k]
    decreases |s|
  {
    if |s| > 0 {
      var t := s[1..];
      ReplaceCharMap(t, c, d);
      assert s == [s[0]] + t;
      ReplaceCharCons(s[0], t, c, [d]);
      MapCons(s, Replace(s, [c], [d]), Replace(t, [c], [d]), c, d);
    }
  }

  /** Mapping `c` to `d` character by character, seen from the front. */
  lemma MapCons(s: string, r: string, rt: string, c: char, d: char)
    requires |s| > 0 && |rt| == |s| - 1
    requires forall k :: 0 <= k < |rt| ==> rt[k] == if s[k + 1] == c then d else s[k + 1]
    requires r == [if s[0] == c then d else s[0]] + rt
    ensures |r| == |s| && forall k :: 0 <= k < |s| ==> r[k] == if s[k] == c then d else s[k]
  {
  }

  /** A character-for-character replacement works piece by piece. */
  lemma ReplaceCharConcat(a: string, b: string, c: char, d: char)
    ensures Replace(a + b, [c], [d]) == Replace(a, [c], [d]) + Replace(b, [c], [d])
  {
    ReplaceCharMap(a + b, c, d);
    ReplaceCharMap(a, c, d);
    ReplaceCharMap(b, c, d);
  }

  /** `replace` from the front: a pattern at index 0 becomes the
      replacement, any other first character is kept. */
  lemma ReplaceStep(s: string, pat: string, rep: string)
    requires |pat| > 0 && |s| > 0
    ensures OccursAt(s, pat, 0) ==> Replace(s, pat, rep) == rep + Replace(s[|pat|..], pat, rep)
    ensures !OccursAt(s, pat, 0) ==> Replace(s, pat, rep) == [s[0]] + Replace(s[1..], pat, rep)
  {
    if OccursAt(s, pat, 0) {
      assert Find(s, pat) == Some(0);
    } else {
      ReplaceSkip(s, pat, rep);
    }
  }

  /** An occurrence in `s[1..]` is one in `s`, one place later. */
  lemma OccursShift(s: string, pat: string, j: nat)
    requires |s| > 0
    ensures OccursAt(s[1..], pat, j) <==> OccursAt(s, pat, j + 1)
  {
    if j + |pat| <= |s| - 1 { assert s[1..][j..j + |pat|] == s[j + 1..j + 1 + |pat|]; }
  }

  lemma ReplaceSkip(s: string, pat: string, rep: string)
    requires |pat| > 0 && |s| > 0 && !OccursAt(s, pat, 0)
    ensures Replace(s, pat, rep) == [s[0]] + Replace(s[1..], pat, rep)
  {
    var t := s[1..];
    FindShift(s, pat);
    if Find(s, pat).None? {
      ReplaceNone(s, pat, rep);
      ReplaceNone(t, pat, rep);
      assert s == [s[0]] + t;
    } else {
      ReplaceSkipAt(s, pat, rep, Find(s, pat).value);
    }
  }

  /** `ReplaceSkip` when the first occurrence is at `i`, past the front. */
  lemma ReplaceSkipAt(s: string, pat: string, rep: string, i: nat)
    requires |pat| > 0 && |s| > 0 && i > 0
    requires Find(s, pat) == Some(i) && Find(s[1..], pat) == Some(i - 1)
    ensures Replace(s, pat, rep) == [s[0]] + Replace(s[1..], pat, rep)
  {
    ReplaceAt(s, pat, rep, i);
    ReplaceAtTail(s, pat, rep, i);
    SliceShift(s, i, |pat|);
    SkipAlgebra(s[0], s[..i], s[1..][..i - 1], rep, Replace(s[i + |pat|..], pat, rep),
                Replace(s[i + |pat|..], pat, rep), Replace(s, pat, rep), Replace(s[1..], pat, rep));
  }

  /** `ReplaceAt` for `s[1..]`, with the rest named as a slice of `s`. */
  lemma ReplaceAtTail(s: string, pat: string, rep: string, i: nat)
    requires |pat| > 0 && 0 < i && i + |pat| <= |s| && Find(s[1..], pat) == Some(i - 1)
    ensures Replace(s[1..], pat, rep) == s[1..][..i - 1] + rep + Replace(s[i + |pat|..], pat, rep)
  {
    SliceShift(s, i, |pat|);
    ReplaceAtRest(s[1..], pat, rep, i - 1, s[i + |pat|..]);
  }

  /** `ReplaceAt` with the text after the occurrence given by value. */
  lemma ReplaceAtRest(s: string, pat: string, rep: string, i: nat, rest: string)
    requires |pat| > 0 && Find(s, pat) == Some(i) && i + |pat| <= |s| && rest == s[i + |pat|..]
    ensures Replace(s, pat, rep) == s[..i] + rep + Replace(rest, pat, rep)
  {
    ReplaceAt(s, pat, rep, i);
  }

  /** Slices of `s[1..]` are slices of `s`, one place later. */
  lemma SliceShift(s: string, i: nat, m: nat)
    requires 0 < i && i + m <= |s|
    ensures s[1..][i - 1 + m..] == s[i + m..] && s[..i] == [s[0]] + s[1..][..i - 1]
  {
  }

  /** `replace` with no occurrence. */
  lemma ReplaceNone(s: string, pat: string, rep: string)
    requires |pat| > 0 && Find(s, pat).None?
    ensures Replace(s, pat, rep) == s
  {
  }

  /** Text without the pattern comes back unchanged. */
  lemma ReplaceAbsent(s: string, pat: string, rep: string)
    requires |pat| > 0 && !Contains(s, pat)
    ensures Replace(s, pat, rep) == s
  {
  }

  /** `replace` at the first occurrence. */
  lemma ReplaceAt(s: string, pat: string, rep: string, i: nat)
    requires |pat| > 0 && Find(s, pat) == Some(i)
    ensures i + |pat| <= |s| && Replace(s, pat, rep) == s[..i] + rep + Replace(s[i + |pat|..], pat, rep)
  {
  }

  /** The text rearrangement behind `ReplaceSkip`, over plain strings. */
  lemma SkipAlgebra(c: char, pre: string, tailPre: string, rep: string, after: string, tailAfter: string,
                    whole: string, rest: string)
    requires pre == [c] + tailPre && tailAfter == after
    requires whole == pre + rep + after && rest == tailPre + rep + tailAfter
    ensures whole == [c] + rest
  {
    Assoc3([c], tailPre, rep);
    Assoc3([c], tailPre + rep, after);
  }

  lemma Assoc3(a: string, b: string, c: string)
    ensures a + b + c == a + (b + c)
  {
  }

  /** With no occurrence at the front, the first occurrence in `s[1..]` is
      the first one in `s`, one place earlier. */
  lemma FindShift(s: string, pat: string)
    requires |pat| > 0 && |s| > 0 && !OccursAt(s, pat, 0)
    ensures Find(s, pat).None? <==> Find(s[1..], pat).None?
    ensures Find(s, pat).Some? ==> Find(s, pat).value > 0 && Find(s[1..], pat) == Some(Find(s, pat).value - 1)
  {
    var t := s[1..];
    match Find(s, pat)
    case None =>
      assert !Contains(t, pat) by {
        forall j | 0 <= j <= |t| ensures !OccursAt(t, pat, j) { OccursShift(s, pat, j); }
      }
    case Some(i) =>
      OccursShift(s, pat, i - 1);
      assert Contains(t, pat);
      var k := Find(t, pat).value;
      OccursShift(s, pat, k);
  }

  /** Replacing one character, seen from the first character of the text. */
  lemma ReplaceCharCons(ch: char, x: string, c: char, rep: string)
    ensures Replace([ch] + x, [c], rep) == (if ch == c then rep else [ch]) + Replace(x, [c], rep)
  {
    var s := [ch] + x;
    assert s[1..] == x;
    assert OccursAt(s, [c], 0) <==> ch == c by { assert s[0..1] == [ch]; }
    ReplaceStep(s, [c], rep);
  }

  /** A text made safe for a file name: each space becomes `_`, and a
      character in `dropped` (after that) is left out. */
  function FileSafe(s: string, dropped: set<char>): (r: string)
    ensures |r| <= |s|
    ensures forall x :: x in r ==> x !in dropped && x != ' '
    ensures (forall x :: x in s ==> x !in dropped && x != ' ') ==> r == s
  {
    if |s| == 0 then ""
    else
      var m := if s[0] == ' ' then '_' else s[0];
      assert s[0] in s && forall x :: x in s[1..] ==> x in s;
      (if m in dropped then "" else [m]) + FileSafe(s[1..], dropped)
  }

  /** Making a text safe works piece by piece. */
  lemma {:induction false} FileSafeConcat(x: string, y: string, dropped: set<char>)
    ensures FileSafe(x + y, dropped) == FileSafe(x, dropped) + FileSafe(y, dropped)
    decreases |x|
  {
    if |x| > 0 {
      var t := x[1..];
      FileSafeConcat(t, y, dropped);
      assert (x + y)[1..] == t + y && (x + y)[0] == x[0];
      FileSafeStep(x + y, dropped);
      FileSafeStep(x, dropped);
      var m := if x[0] == ' ' then '_' else x[0];
      ConsAssoc(FileSafe(x + y, dropped), FileSafe(x, dropped), FileSafe(t + y, dropped), FileSafe(t, dropped),
                FileSafe(y, dropped), if m in dropped then "" else [m]);
    } else {
      assert x + y == y;
    }
  }

  /** Prefixing the same head on both sides of a split. */
  lemma ConsAssoc(whole: string, first: string, rest: string, firstRest: string, second: string, head: string)
    requires whole == head + rest && rest == firstRest + second && first == head + firstRest
    ensures whole == first + second
  {
  }

  /** `s.replace(' ', '_')` is the safe text that drops nothing. */
  lemma {:induction false} SpacesUnderscored(s: string)
    ensures Replace(s, " ", "_") == FileSafe(s, {})
    decreases |s|
  {
    if |s| > 0 {
      SpacesUnderscored(s[1..]);
      assert s == [s[0]] + s[1..];
      ReplaceCharCons(s[0], s[1..], ' ', "_");
    }
  }

  /** Deleting one more character from a safe text is leaving it out too. */
  lemma {:induction false} FileSafeDrop(s: string, dropped: set<char>, c: char)
    ensures Replace(FileSafe(s, dropped), [c], "") == FileSafe(s, dropped + {c})
    decreases |s|
  {
    if |s| > 0 {
      var m := if s[0] == ' ' then '_' else s[0];
      var y := FileSafe(s[1..], dropped);
      FileSafeDrop(s[1..], dropped, c);
      FileSafeStep(s, dropped);
      FileSafeStep(s, dropped + {c});
      if m !in dropped {
        ReplaceCharCons(m, y, c, "");
        assert "" + Replace(y, [c], "") == Replace(y, [c], "");
      } else {
        assert "" + y == y;
        assert "" + FileSafe(s[1..], dropped + {c}) == FileSafe(s[1..], dropped + {c});
      }
    } else {
      assert FileSafe(s, dropped) == "";
    }
  }

  /** The first character of a text is made safe on its own. */
  lemma FileSafeStep(s: string, dropped: set<char>)
    requires |s| > 0
    ensures var m := if s[0] == ' ' then '_' else s[0];
      FileSafe(s, dropped) == (if m in dropped then "" else [m]) + FileSafe(s[1..], dropped)
  {
  }

  /** Python's `s[:n]`. */
  function Take(s: string, n: nat): (r: string)
    ensures |r| <= n && |r| <= |s|
    ensures StartsWith(s, r)
    ensures |s| <= n ==> r == s
    ensures n <= |s| ==> |r| == n
  {
    if |s| <= n then s else s[..n]
  }

  /** `s[:n] + "..."` when `s` is longer than `n`, otherwise `s` itself. */
  function Ellipsize(s: string, n: nat): (r: string)
    ensures |s| <= n ==> r == s
    ensures |s| > n ==> |r| == n + 3 && StartsWith(s, r[..n]) && EndsWith(r, "...")
    ensures |r| <= n + 3
  {
    if |s| > n then
      var r := s[..n] + "...";
      assert r[..n] == s[..n] && r[n..] == "...";
      r
    else s
  }

  function Repeat(c: char, n: nat): (r: string)
    ensures |r| == n && forall i :: 0 <= i < n ==> r[i] == c
  {
    if n == 0 then "" else [c] + Repeat(c, n - 1)
  }

  function LowerChar(c: char): char
  {
    if 'A' <= c <= 'Z' then (c as int + 32) as char else c
  }

  /** `str.lower()` on ASCII letters. */
  function Lower(s: string): (r: string)
    ensures |r| == |s| && forall i :: 0 <= i < |s| ==> r[i] == LowerChar(s[i])
  {
    if |s| == 0 then "" else [LowerChar(s[0])] + Lower(s[1..])
  }

  function UpperChar(c: char): char
  {
    if 'a' <= c <= 'z' then (c as int - 32) as char else c
  }

  /** `str.capitalize()` on ASCII letters. */
  function Capitalize(s: string): (r: string)
    ensures |r| == |s|
  {
    if |s| == 0 then "" else [UpperChar(s[0])] + Lower(s[1..])
  }

  function DigitChar(d: nat): char
    requires d < 10
  {
    ('0' as int + d) as char
  }

  /** The decimal rendering of a natural number, `str(n)`. */
  function NatToString(n: nat): (r: string)
    ensures IsDigits(r)
    decreases n
  {
    if n < 10 then [DigitChar(n)] else NatToString(n / 10) + [DigitChar(n % 10)]
  }

  /** `str(i)` for any integer. */
  function IntToString(i: int): (r: string)
    ensures i >= 0 ==> r == NatToString(i)
    ensures i < 0 ==> r == "-" + NatToString(-i)
  {
    if i >= 0 then NatToString(i) else "-" + NatToString(-i)
  }

  /** The value of a run of ASCII digits. */
  function DigitsValue(s: string): (v: nat)
    requires forall i :: 0 <= i < |s| ==> IsDigit(s[i])
  {
    if |s| == 0 then 0
    else
      assert IsDigit(s[|s| - 1]);
      10 * DigitsValue(s[..|s| - 1]) + (s[|s| - 1] as int - '0' as int)
  }

  /** `int(str(n)) == n`. */
  lemma {:induction false} NatToStringValue(n: nat)
    ensures DigitsValue(NatToString(n)) == n
    decreases n
  {
    if n >= 10 {
      var s := NatToString(n / 10) + [DigitChar(n % 10)];
      assert s[..|s| - 1] == NatToString(n / 10);
      NatToStringValue(n / 10);
    }
  }
}
