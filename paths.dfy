/** POSIX paths as `/`-separated strings, with the parts of `pathlib` the
    marking code uses (`name`, `suffix`, `stem`, `with_suffix`, `/`), and
    `fnmatch` restricted to the `*` wildcard. */
module Paths {
  import opened Wrappers
  import opened Text

  /** The index of the last `c` in `s`, Python's `s.rfind(c)`. */
  function LastIndexOf(s: string, c: char): (r: Option<nat>)
    ensures r.Some? ==> r.value < |s| && s[r.value] == c
    ensures r.Some? ==> forall j :: r.value < j < |s| ==> s[j] != c
    ensures r.None? ==> forall j :: 0 <= j < |s| ==> s[j] != c
  {
    if |s| == 0 then None
    else if s[|s| - 1] == c then Some(|s| - 1)
    else LastIndexOf(s[..|s| - 1], c)
  }

  /** A directory entry: its name and whether it is a directory. */
  datatype Entry = Entry(name: string, isDir: bool)

  /** `path / part`. */
  function JoinPath(dir: string, part: string): (r: string)
    ensures EndsWith(r, "/" + part) && StartsWith(r, dir)
  {
    var r := dir + "/" + part;
    assert r[|r| - |"/" + part|..] == "/" + part;
    assert r[..|dir|] == dir;
    r
  }

  /** `Path(p).name`: the text after the last `/`. */
  function Name(p: string): (r: string)
    ensures '/' !in r && EndsWith(p, r)
  {
    var r := match LastIndexOf(p, '/')
      case None => p
      case Some(i) => p[i + 1..];
    assert p[|p| - |r|..] == r;
    r
  }

  /** `Path(p).parent` for a path with a directory part. */
  function Parent(p: string): (r: string)
    ensures '/' in p ==> StartsWith(p, r + "/") && r + "/" + Name(p) == p
    ensures '/' !in p ==> r == "."
  {
    match LastIndexOf(p, '/')
    case None => "."
    case Some(i) =>
      assert p[..i + 1] == p[..i] + "/";
      assert p == p[..i] + "/" + p[i + 1..];
      p[..i]
  }

  /** Where `pathlib` puts the suffix of a file name: the last `.` when it
      is neither the first nor the last character. */
  function SuffixStart(name: string): (r: Option<nat>)
    ensures r.Some? ==> 0 < r.value < |name| - 1 && name[r.value] == '.'
  {
    match LastIndexOf(name, '.')
    case Some(i) => if 0 < i < |name| - 1 then Some(i) else None
    case None => None
  }

  /** `Path(name).suffix`. */
  function Suffix(name: string): (r: string)
    ensures r == "" || (r[0] == '.' && EndsWith(name, r) && |r| < |name|)
    ensures '.' !in name ==> r == ""
  {
    match SuffixStart(name)
    case None => ""
    case Some(i) =>
      assert name[|name| - |name[i..]|..] == name[i..];
      name[i..]
  }

  /** `Path(p).suffix` for a whole path. */
  function PathSuffix(p: string): (r: string)
    ensures r == "" || (r[0] == '.' && EndsWith(p, r))
  {
    var n := Name(p);
    var r := Suffix(n);
    EndsWithTrans(p, n, r);
    r
  }

  /** `Path(name).stem`. */
  function Stem(name: string): (r: string)
    ensures r + Suffix(name) == name
  {
    match SuffixStart(name)
    case None => name
    case Some(i) => name[..i]
  }

  /** `Path(p).with_suffix(sfx)`: the directory and the stem are kept. */
  function WithSuffix(p: string, sfx: string): (r: string)
    ensures StartsWith(r, p[..|p| - |Name(p)|] + Stem(Name(p)))
    ensures EndsWith(r, sfx)
  {
    var n := Name(p);
    var r := p[..|p| - |n|] + Stem(n) + sfx;
    assert r[|r| - |sfx|..] == sfx;
    assert r[..|p[..|p| - |n|] + Stem(n)|] == p[..|p| - |n|] + Stem(n);
    r
  }

  /** `fnmatch.fnmatch(name, pat)` where `*` is the only special character:
      `*` stands for any text, every other character for itself. */
  function Glob(name: string, pat: string): bool
    decreases |name| + |pat|
  {
    if |pat| == 0 then |name| == 0
    else if pat[0] == '*' then Glob(name, pat[1..]) || (|name| > 0 && Glob(name[1..], pat))
    else |name| > 0 && name[0] == pat[0] && Glob(name[1..], pat[1..])
  }

  /** A pattern without `*` matches exactly itself. */
  lemma {:induction false} GlobLiteral(name: string, pat: string)
    requires '*' !in pat
    ensures Glob(name, pat) <==> name == pat
    decreases |pat|
  {
    if |pat| > 0 && |name| > 0 {
      GlobLiteral(name[1..], pat[1..]);
      if name == pat { assert name[1..] == pat[1..]; }
      if name[0] == pat[0] && name[1..] == pat[1..] { assert name == [name[0]] + name[1..]; }
    }
  }

  /** `prefix*` matches exactly the names that start with `prefix`. */
  lemma {:induction false} GlobPrefixStar(name: string, prefix: string)
    requires '*' !in prefix
    ensures Glob(name, prefix + "*") <==> StartsWith(name, prefix)
    decreases |prefix|
  {
    if |prefix| == 0 {
      assert prefix + "*" == "*";
      StarMatchesAll(name);
    } else {
      assert (prefix + "*")[1..] == prefix[1..] + "*";
      if |name| > 0 {
        GlobPrefixStar(name[1..], prefix[1..]);
        if StartsWith(name, prefix) { assert name[1..][..|prefix| - 1] == prefix[1..]; }
        if name[0] == prefix[0] && StartsWith(name[1..], prefix[1..]) {
          assert name[..|prefix|] == [name[0]] + name[1..][..|prefix| - 1];
        }
      }
    }
  }

  /** `*suffix` matches exactly the names that end with `suffix`. */
  lemma {:induction false} GlobStarSuffix(name: string, suffix: string)
    requires '*' !in suffix
    ensures Glob(name, "*" + suffix) <==> EndsWith(name, suffix)
    decreases |name|
  {
    assert ("*" + suffix)[1..] == suffix;
    GlobLiteral(name, suffix);
    if |name| > 0 {
      GlobStarSuffix(name[1..], suffix);
      if EndsWith(name[1..], suffix) {
        assert name[|name| - |suffix|..] == name[1..][|name| - 1 - |suffix|..];
      }
      if EndsWith(name, suffix) && name != suffix {
        assert name[1..][|name| - 1 - |suffix|..] == name[|name| - |suffix|..];
      }
    }
  }

  /** `*` matches every name. */
  lemma {:induction false} StarMatchesAll(name: string)
    ensures Glob(name, "*")
    decreases |name|
  {
    if |name| > 0 {
      StarMatchesAll(name[1..]);
    }
  }
}
