/** Building blocks for the fixed regular expressions of the marking code.
    Each expression is modelled by a matcher that says whether, and how, it
    matches at one start position; because the character classes that follow
    each other in these expressions are disjoint, each such matcher is
    deterministic. `re.search` is then the leftmost start that matches, and
    `re.findall` restarts after the end of each match. */
module Scan {
  import opened Wrappers
  import opened Text

  /** A match starting at `start`, ending before `end`, whose capture group
      is `s[gs..ge]`. */
  datatype Hit = Hit(start: nat, gs: nat, ge: nat, end: nat)

  predicate HitIn(s: string, h: Hit)
  {
    h.start <= h.gs <= h.ge <= h.end <= |s|
  }

  /** The captured text of a hit. */
  function Group(s: string, h: Hit): (g: string)
    requires HitIn(s, h)
    ensures |g| == h.ge - h.gs
  {
    s[h.gs..h.ge]
  }

  type Matcher = (string, nat) -> Option<Hit>

  /** The leftmost start at or after `i` where `m` matches. */
  function SearchFrom(s: string, m: Matcher, i: nat): (r: Option<nat>)
    ensures r.Some? ==> i <= r.value <= |s| && m(s, r.value).Some?
    ensures r.Some? ==> forall j :: i <= j < r.value ==> m(s, j).None?
    ensures r.None? ==> forall j :: i <= j <= |s| ==> m(s, j).None?
    decreases |s| + 1 - i
  {
    if i > |s| then None
    else if m(s, i).Some? then Some(i)
    else SearchFrom(s, m, i + 1)
  }

  /** `re.search`: the match at the leftmost start where there is one. */
  function Search(s: string, m: Matcher): (r: Option<Hit>)
    ensures r.Some? <==> exists j :: 0 <= j <= |s| && m(s, j).Some?
    ensures r.Some? ==>
      exists j :: 0 <= j <= |s| && m(s, j) == r && (forall k :: 0 <= k < j ==> m(s, k).None?)
  {
    match SearchFrom(s, m, 0)
    case None => None
    case Some(j) => m(s, j)
  }

  /** `re.finditer` from `i`: each match, then the search resumes where it
      ended. */
  function FindAllFrom(s: string, m: Matcher, i: nat): (hs: seq<Hit>)
    ensures |hs| > 0 <==> SearchFrom(s, m, i).Some?
    ensures |hs| > 0 ==> Some(hs[0]) == m(s, SearchFrom(s, m, i).value)
    ensures forall n :: 0 <= n < |hs| ==> exists k :: i <= k <= |s| && m(s, k) == Some(hs[n])
    decreases |s| + 1 - i
  {
    if i > |s| then []
    else
      match SearchFrom(s, m, i)
      case None => []
      case Some(k) =>
        var h := m(s, k).value;
        [h] + FindAllFrom(s, m, if h.end > k then h.end else k + 1)
  }

  function FindAll(s: string, m: Matcher): (hs: seq<Hit>)
    ensures |hs| > 0 <==> Search(s, m).Some?
    ensures |hs| > 0 ==> Some(hs[0]) == Search(s, m)
    ensures forall n :: 0 <= n < |hs| ==> exists k :: 0 <= k <= |s| && m(s, k) == Some(hs[n])
  {
    FindAllFrom(s, m, 0)
  }

  /** `re.findall(...)[-1]`: the last of the successive matches. */
  function LastHit(s: string, m: Matcher): (r: Option<Hit>)
    ensures r.Some? <==> Search(s, m).Some?
    ensures r.Some? ==> exists k :: 0 <= k <= |s| && m(s, k) == r
  {
    var hs := FindAll(s, m);
    if |hs| == 0 then None else Some(hs[|hs| - 1])
  }

  /** The end of the longest run of characters satisfying `p` from `i`. */
  function RunEnd(s: string, i: nat, p: char -> bool): (e: nat)
    requires i <= |s|
    ensures i <= e <= |s|
    ensures forall k :: i <= k < e ==> p(s[k])
    ensures e == |s| || !p(s[e])
    decreases |s| - i
  {
    if i < |s| && p(s[i]) then RunEnd(s, i + 1, p) else i
  }

  function DigitsEnd(s: string, i: nat): (e: nat)
    requires i <= |s|
    ensures i <= e <= |s|
    ensures forall k :: i <= k < e ==> IsDigit(s[k])
    ensures e == |s| || !IsDigit(s[e])
  {
    RunEnd(s, i, IsDigit)
  }

  function SpacesEnd(s: string, i: nat): (e: nat)
    requires i <= |s|
    ensures i <= e <= |s|
    ensures forall k :: i <= k < e ==> IsSpace(s[k])
    ensures e == |s| || !IsSpace(s[e])
  {
    RunEnd(s, i, IsSpace)
  }

  /** A maximal digit run starting at `i` is a run of digits. */
  lemma DigitRun(s: string, i: nat)
    requires i < |s| && IsDigit(s[i])
    ensures IsDigits(s[i..DigitsEnd(s, i)])
  {
    var d := DigitsEnd(s, i);
    forall k | 0 <= k < d - i ensures IsDigit(s[i..d][k]) { assert s[i..d][k] == s[i + k]; }
  }

  /** The literal `kw` at `i`. */
  predicate Lit(s: string, i: nat, kw: string)
  {
    OccursAt(s, kw, i)
  }

  /** The lower-case literal `kw` at `i`, compared case-insensitively (the
      `re.IGNORECASE` flag on ASCII letters). */
  predicate LitCI(s: string, i: nat, kw: string)
  {
    i + |kw| <= |s| && Lower(s[i..i + |kw|]) == kw
  }

  /** `\w` on ASCII: letters, digits and `_`. */
  predicate IsWordChar(c: char)
  {
    IsAsciiLetter(c) || IsDigit(c) || c == '_'
  }

  /** `\b` right after a word character at `k - 1`. */
  predicate BoundaryAfterWord(s: string, k: nat)
  {
    k >= |s| || !IsWordChar(s[k])
  }

  /** `$` without MULTILINE: the end, or just before a final newline. */
  predicate AtEnd(s: string, k: nat)
  {
    k == |s| || (k + 1 == |s| && s[k] == '\n')
  }

  /** `\d+(?:\.\d+)?` at `i`, greedy: the end of the number, if there is one. */
  function NumberEnd(s: string, i: nat): (r: Option<nat>)
    requires i <= |s|
    ensures r.Some? ==> i < r.value <= |s| && IsDecimal(s[i..r.value])
  {
    var d := DigitsEnd(s, i);
    if d == i then None
    else
      assert IsDecimal(s[i..d]) by { assert DecimalPoint(s[i..d]) == None; }
      if d + 1 < |s| && s[d] == '.' && IsDigit(s[d + 1]) then
        var f := DigitsEnd(s, d + 1);
        assert DecimalPoint(s[i..f]) == Some(d - i) by {
          assert s[i..f][d - i] == '.';
          assert forall k :: 0 <= k < d - i ==> s[i..f][k] != '.';
        }
        assert s[i..f][..d - i] == s[i..d];
        assert s[i..f][d - i + 1..] == s[d + 1..f];
        Some(f)
      else Some(d)
  }

  /** The position of the first `.` in `t`. */
  function DecimalPoint(t: string): (r: Option<nat>)
    ensures r.Some? ==> r.value < |t| && t[r.value] == '.' && forall k :: 0 <= k < r.value ==> t[k] != '.'
    ensures r.None? ==> '.' !in t
  {
    if |t| == 0 then None
    else if t[0] == '.' then Some(0)
    else match DecimalPoint(t[1..])
      case None => None
      case Some(k) => Some(k + 1)
  }

  /** Digits, optionally followed by `.` and more digits. */
  predicate IsDecimal(t: string)
  {
    match DecimalPoint(t)
    case None => IsDigits(t)
    case Some(k) => IsDigits(t[..k]) && IsDigits(t[k + 1..])
  }

  function Pow10(k: nat): (p: nat)
    ensures p >= 1
  {
    if k == 0 then 1 else 10 * Pow10(k - 1)
  }

  /** `float(t)` for a decimal, without rounding. */
  function DecimalValue(t: string): (v: real)
    requires IsDecimal(t)
    ensures v >= 0.0
  {
    match DecimalPoint(t)
    case None => DigitsValue(t) as real
    case Some(k) =>
      DigitsValue(t[..k]) as real + Fraction(t[k + 1..])
  }

  /** The value of the digits after a decimal point. */
  function Fraction(f: string): (v: real)
    requires forall i :: 0 <= i < |f| ==> IsDigit(f[i])
    ensures v >= 0.0 && (f == "" ==> v == 0.0)
  {
    (DigitsValue(f) as real) / (Pow10(|f|) as real)
  }

  /** A decimal without a fraction has its integer value. */
  lemma DecimalValueOfDigits(t: string)
    requires IsDigits(t)
    ensures IsDecimal(t) && DecimalValue(t) == DigitsValue(t) as real
  {
  }
}
