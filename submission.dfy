/** A student's submission for a task: the files found under its folder,
    after every `.zip` archive found there has been unpacked next to itself.
    The folder's contents are given as a listing of paths (what a recursive
    glob walks), and the outcome of unpacking each archive is a parameter. */
module SubmissionFiles {
  import opened Wrappers
  import opened Text
  import Paths

  /** A path under the submission folder and whether it is a regular file. */
  datatype Node = Node(path: string, isFile: bool)

  /** The account a submission belongs to. */
  datatype User = User(id: Option<int>, username: string, email: string, role: string)

  /** The user details reported for a submission. */
  datatype UserInfo = UserInfo(id: string, name: string, email: string, role: string, databaseId: Option<int>)

  /** What unpacking one archive did: its members (paths relative to the
      archive's folder) were written, and the archive was or was not
      deleted afterwards; or it was not a valid archive; or another error
      stopped the unpacking. */
  datatype ZipOutcome =
    | Extracted(members: seq<Node>, deleted: bool)
    | BadZip
    | Failed(msg: string)

  /** The file patterns collected, in the order they are collected. */
  const Patterns: seq<string> := ["*.py", "*.ipynb", "*.pdf", "*.docx", "*.doc", "*.txt"]
  const Excluded: seq<string> := ["__MACOSX", ".ipynb_checkpoints"]

  /** A regular file whose path mentions no excluded folder. */
  predicate IsValidFile(n: Node)
  {
    n.isFile && !Has(n.path, Excluded[0]) && !Has(n.path, Excluded[1])
  }

  /** The paths of the listing whose name matches `pat`, in listing order. */
  function Named(tree: seq<Node>, pat: string): (r: seq<string>)
    ensures |r| <= |tree|
  {
    if |tree| == 0 then []
    else
      var n := tree[|tree| - 1];
      Named(tree[..|tree| - 1], pat) + (if Paths.Glob(Paths.Name(n.path), pat) then [n.path] else [])
  }

  /** A valid file whose name matches `pat`. */
  predicate Selected(n: Node, pat: string)
  {
    Paths.Glob(Paths.Name(n.path), pat) && IsValidFile(n)
  }

  /** The paths of the entries that `keep` selects, in listing order. */
  function Filtered(tree: seq<Node>, keep: Node -> bool): (r: seq<string>)
    ensures |r| <= |tree|
  {
    if |tree| == 0 then []
    else
      var n := tree[|tree| - 1];
      Filtered(tree[..|tree| - 1], keep) + (if keep(n) then [n.path] else [])
  }

  /** Every path kept comes from an entry that `keep` selects. */
  lemma {:induction false} FilteredSound(tree: seq<Node>, keep: Node -> bool, k: nat)
    requires k < |Filtered(tree, keep)|
    ensures exists i :: 0 <= i < |tree| && tree[i].path == Filtered(tree, keep)[k] && keep(tree[i])
  {
    var init := tree[..|tree| - 1];
    if k < |Filtered(init, keep)| {
      FilteredSound(init, keep, k);
      var i :| 0 <= i < |init| && init[i].path == Filtered(init, keep)[k] && keep(init[i]);
      assert tree[i] == init[i];
    } else {
      var i := |tree| - 1;
      assert Filtered(tree, keep) == Filtered(init, keep) + [tree[i].path];
      assert tree[i].path == Filtered(tree, keep)[k];
    }
  }

  /** The valid files of the listing whose name matches `pat`, in listing order. */
  function Matching(tree: seq<Node>, pat: string): (r: seq<string>)
    ensures |r| <= |tree|
  {
    Filtered(tree, n => Selected(n, pat))
  }

  /** The files collected for the patterns `pats`, pattern by pattern. */
  function Collected(tree: seq<Node>, pats: seq<string>): seq<string>
  {
    if |pats| == 0 then []
    else Collected(tree, pats[..|pats| - 1]) + Matching(tree, pats[|pats| - 1])
  }

  /** The listing without the entry at `p`. */
  function Without(tree: seq<Node>, p: string): (r: seq<Node>)
    ensures forall k :: 0 <= k < |r| ==> r[k].path != p && r[k] in tree
  {
    if |tree| == 0 then []
    else
      var n := tree[|tree| - 1];
      Without(tree[..|tree| - 1], p) + (if n.path == p then [] else [n])
  }

  /** The members of an archive, placed in the archive's folder. */
  function Placed(dir: string, members: seq<Node>): (r: seq<Node>)
    ensures |r| == |members|
    ensures forall k :: 0 <= k < |r| ==> r[k] == Node(Paths.JoinPath(dir, members[k].path), members[k].isFile)
  {
    if |members| == 0 then []
    else
      var m := members[|members| - 1];
      Placed(dir, members[..|members| - 1]) + [Node(Paths.JoinPath(dir, m.path), m.isFile)]
  }

  /** The listing after writing the entries `placed` into it one by one: an
      entry written at a path already listed replaces that entry. */
  function Overlay(tree: seq<Node>, placed: seq<Node>): (r: seq<Node>)
    ensures forall n :: n in r ==> n in tree || n in placed
    decreases |placed|
  {
    if |placed| == 0 then tree
    else
      var next := Without(tree, placed[0].path) + [placed[0]];
      assert forall n :: n in placed[1..] ==> n in placed;
      Overlay(next, placed[1..])
  }

  /** No two entries of the listing share a path. */
  predicate UniquePaths(tree: seq<Node>)
  {
    forall i, j :: 0 <= i < j < |tree| ==> tree[i].path != tree[j].path
  }

  /** Removing the entries at a path keeps the paths unique. */
  lemma {:induction false} WithoutUnique(tree: seq<Node>, p: string)
    ensures UniquePaths(tree) ==> UniquePaths(Without(tree, p))
  {
    if |tree| > 0 && UniquePaths(tree) {
      var init := tree[..|tree| - 1];
      var n := tree[|tree| - 1];
      WithoutUnique(init, p);
      assert UniquePaths(init);
      var w := Without(init, p);
      forall m | m in w ensures m.path != n.path {
        var i :| 0 <= i < |init| && init[i] == m;
        assert tree[i] == m;
      }
    }
  }

  /** Writing entries into a listing whose paths are unique keeps them
      unique: an overwritten file is listed once. */
  lemma {:induction false} OverlayUnique(tree: seq<Node>, placed: seq<Node>)
    ensures UniquePaths(tree) ==> UniquePaths(Overlay(tree, placed))
    decreases |placed|
  {
    if |placed| > 0 && UniquePaths(tree) {
      var p := placed[0].path;
      WithoutUnique(tree, p);
      var w := Without(tree, p);
      var next := w + [placed[0]];
      forall i, j | 0 <= i < j < |next| ensures next[i].path != next[j].path {
        if j == |next| - 1 {
          assert next[i] in w;
        } else {
          assert next[i] == w[i] && next[j] == w[j];
        }
      }
      OverlayUnique(next, placed[1..]);
    }
  }

  /** An entry of the listing at a path none of the written entries has is
      still listed. */
  lemma {:induction false} OverlayKeeps(tree: seq<Node>, placed: seq<Node>, n: Node)
    requires n in tree && forall j :: 0 <= j < |placed| ==> placed[j].path != n.path
    ensures n in Overlay(tree, placed)
    decreases |placed|
  {
    if |placed| > 0 {
      var i :| 0 <= i < |tree| && tree[i] == n;
      WithoutKeeps(tree, placed[0].path, i);
      var next := Without(tree, placed[0].path) + [placed[0]];
      assert n in next;
      OverlayKeeps(next, placed[1..], n);
    }
  }

  /** A written entry is listed unless a later one has its path. */
  lemma {:induction false} OverlayWrites(tree: seq<Node>, placed: seq<Node>, k: nat)
    requires k < |placed| && forall j :: k < j < |placed| ==> placed[j].path != placed[k].path
    ensures placed[k] in Overlay(tree, placed)
    decreases |placed|
  {
    var next := Without(tree, placed[0].path) + [placed[0]];
    if k == 0 {
      assert next[|next| - 1] == placed[0];
      OverlayKeeps(next, placed[1..], placed[0]);
    } else {
      OverlayWrites(next, placed[1..], k - 1);
    }
  }

  /** The listing after trying to unpack the archive at `zip`: the members
      are written into the archive's folder, then the archive is removed
      when it was deleted. */
  function ExtractZip(tree: seq<Node>, zip: string, outcome: ZipOutcome): (r: seq<Node>)
    ensures UniquePaths(tree) ==> UniquePaths(r)
  {
    match outcome
    case Extracted(members, deleted) =>
      var unpacked := Overlay(tree, Placed(Paths.Parent(zip), members));
      OverlayUnique(tree, Placed(Paths.Parent(zip), members));
      if deleted then (WithoutUnique(unpacked, zip); Without(unpacked, zip)) else unpacked
    case BadZip => tree
    case Failed(_) => tree
  }

  /** The listing after trying to unpack each of `zips` in turn. */
  function ExtractAll(tree: seq<Node>, zips: seq<string>, outcome: string -> ZipOutcome): seq<Node>
  {
    if |zips| == 0 then tree
    else
      var z := zips[|zips| - 1];
      ExtractZip(ExtractAll(tree, zips[..|zips| - 1], outcome), z, outcome(z))
  }

  /** The files of a submission folder: the archives found at the start are
      unpacked, then the valid files are collected pattern by pattern. */
  function Discovered(tree: seq<Node>, outcome: string -> ZipOutcome): seq<string>
  {
    Collected(ExtractAll(tree, Named(tree, "*.zip"), outcome), Patterns)
  }

  /** A bad or unreadable archive leaves the folder as it was. */
  lemma FailedExtractionKeepsTree(tree: seq<Node>, zip: string, outcome: ZipOutcome)
    requires !outcome.Extracted?
    ensures ExtractZip(tree, zip, outcome) == tree
  {
  }

  /** An archive that was unpacked and deleted is gone from the folder, and
      each of its members is there unless it has the archive's own path or a
      later member is written at the same path. */
  lemma ExtractedZipDeleted(tree: seq<Node>, zip: string, members: seq<Node>, k: nat)
    requires k < |members|
    requires forall j :: k < j < |members| ==>
      Paths.JoinPath(Paths.Parent(zip), members[j].path) != Paths.JoinPath(Paths.Parent(zip), members[k].path)
    ensures forall n :: n in ExtractZip(tree, zip, Extracted(members, true)) ==> n.path != zip
    ensures Paths.JoinPath(Paths.Parent(zip), members[k].path) != zip ==>
      Node(Paths.JoinPath(Paths.Parent(zip), members[k].path), members[k].isFile) in
        ExtractZip(tree, zip, Extracted(members, true))
  {
    var placed := Placed(Paths.Parent(zip), members);
    var unpacked := Overlay(tree, placed);
    var r := ExtractZip(tree, zip, Extracted(members, true));
    assert r == Without(unpacked, zip);
    forall m | m in r
      ensures m.path != zip
    {
      var j :| 0 <= j < |r| && r[j] == m;
    }
    var n := Node(Paths.JoinPath(Paths.Parent(zip), members[k].path), members[k].isFile);
    assert placed[k] == n;
    OverlayWrites(tree, placed, k);
    if n.path != zip {
      var i :| 0 <= i < |unpacked| && unpacked[i] == n;
      WithoutKeeps(unpacked, zip, i);
    }
  }

  /** Unpacking archives in turn keeps the paths of the listing unique. */
  lemma {:induction false} ExtractAllUnique(tree: seq<Node>, zips: seq<string>, outcome: string -> ZipOutcome)
    requires UniquePaths(tree)
    ensures UniquePaths(ExtractAll(tree, zips, outcome))
  {
    if |zips| > 0 {
      ExtractAllUnique(tree, zips[..|zips| - 1], outcome);
    }
  }

  /** Removing the entry at `p` keeps every other entry. */
  lemma {:induction false} WithoutKeeps(tree: seq<Node>, p: string, k: nat)
    requires k < |tree| && tree[k].path != p
    ensures tree[k] in Without(tree, p)
  {
    if k < |tree| - 1 {
      WithoutKeeps(tree[..|tree| - 1], p, k);
    }
  }

  /** Every file matched for a pattern is a valid file of the listing whose
      name matches the pattern. */
  lemma MatchingSound(tree: seq<Node>, pat: string, k: nat)
    requires k < |Matching(tree, pat)|
    ensures exists i ::
      (0 <= i < |tree| && tree[i].path == Matching(tree, pat)[k] && IsValidFile(tree[i]) &&
       Paths.Glob(Paths.Name(tree[i].path), pat))
  {
    var keep := n => Selected(n, pat);
    FilteredSound(tree, keep, k);
    var i :| 0 <= i < |tree| && tree[i].path == Filtered(tree, keep)[k] && keep(tree[i]);
    assert Selected(tree[i], pat);
  }

  /** Every collected file is a valid file of the listing whose name matches
      one of the patterns. */
  lemma {:induction false} CollectedSound(tree: seq<Node>, pats: seq<string>, k: nat)
    requires k < |Collected(tree, pats)|
    ensures exists i, m ::
      (0 <= i < |tree| && 0 <= m < |pats| && tree[i].path == Collected(tree, pats)[k] &&
       IsValidFile(tree[i]) && Paths.Glob(Paths.Name(tree[i].path), pats[m]))
  {
    var init := pats[..|pats| - 1];
    var last := |pats| - 1;
    var before := Collected(tree, init);
    assert Collected(tree, pats) == before + Matching(tree, pats[last]);
    if k < |before| {
      CollectedSound(tree, init, k);
      var i, m :| 0 <= i < |tree| && 0 <= m < |init| && tree[i].path == before[k] &&
        IsValidFile(tree[i]) && Paths.Glob(Paths.Name(tree[i].path), init[m]);
      assert init[m] == pats[m];
    } else {
      var k2 := k - |before|;
      MatchingSound(tree, pats[last], k2);
    }
  }

  /** Every file of a submission is a valid file of the unpacked folder whose
      name matches one of the six patterns. */
  lemma DiscoveredSound(tree: seq<Node>, outcome: string -> ZipOutcome, k: nat)
    requires k < |Discovered(tree, outcome)|
    ensures exists n, m ::
      (n in ExtractAll(tree, Named(tree, "*.zip"), outcome) && n.path == Discovered(tree, outcome)[k] &&
       IsValidFile(n) && 0 <= m < |Patterns| && Paths.Glob(Paths.Name(n.path), Patterns[m]))
  {
    var t := ExtractAll(tree, Named(tree, "*.zip"), outcome);
    CollectedSound(t, Patterns, k);
    var i, m :| 0 <= i < |t| && 0 <= m < |Patterns| && t[i].path == Collected(t, Patterns)[k] &&
      IsValidFile(t[i]) && Paths.Glob(Paths.Name(t[i].path), Patterns[m]);
    assert t[i] in t;
  }

  /** A name matching `*` followed by a literal suffix ends with the
      pattern's last character. */
  lemma StarPatternEnd(name: string, pat: string)
    requires |pat| > 1 && pat[0] == '*' && '*' !in pat[1..] && Paths.Glob(name, pat)
    ensures |name| > 0 && name[|name| - 1] == pat[|pat| - 1]
  {
    var suffix := pat[1..];
    assert pat == "*" + suffix;
    Paths.GlobStarSuffix(name, suffix);
    assert name[|name| - |suffix|..][|suffix| - 1] == suffix[|suffix| - 1];
  }

  /** Each of the six patterns is `*` followed by a suffix without `*`. */
  lemma PatternShape(m: nat)
    requires m < |Patterns|
    ensures |Patterns[m]| > 1 && Patterns[m][0] == '*' && '*' !in Patterns[m][1..]
  {
  }

  /** A name matching one of the six patterns ends with that pattern's
      last character. */
  lemma PatternEnd(name: string, m: nat)
    requires m < |Patterns| && Paths.Glob(name, Patterns[m])
    ensures |name| > 0 && name[|name| - 1] == Patterns[m][|Patterns[m]| - 1]
  {
    PatternShape(m);
    StarPatternEnd(name, Patterns[m]);
  }

  /** No name matches two of the six patterns. */
  lemma PatternsDisjoint(name: string, a: nat, b: nat)
    requires a < |Patterns| && b < |Patterns|
    requires Paths.Glob(name, Patterns[a]) && Paths.Glob(name, Patterns[b])
    ensures a == b
  {
    PatternEnd(name, a);
    PatternEnd(name, b);
  }

  /** No path occurs twice. */
  predicate DistinctPaths(s: seq<string>)
  {
    forall i, j :: 0 <= i < j < |s| ==> s[i] != s[j]
  }

  /** Two lists without repeats and without a common path join into one
      without repeats. */
  lemma DistinctJoin(a: seq<string>, b: seq<string>)
    requires DistinctPaths(a) && DistinctPaths(b)
    requires forall i, j :: 0 <= i < |a| && 0 <= j < |b| ==> a[i] != b[j]
    ensures DistinctPaths(a + b)
  {
    forall i, j | 0 <= i < j < |a + b| ensures (a + b)[i] != (a + b)[j] {
      if j < |a| {
      } else if i >= |a| {
        assert (a + b)[i] == b[i - |a|] && (a + b)[j] == b[j - |a|];
      } else {
        assert (a + b)[j] == b[j - |a|];
      }
    }
  }

  /** A listing with unique paths gives each selected path once. */
  lemma {:induction false} FilteredDistinct(tree: seq<Node>, keep: Node -> bool)
    requires UniquePaths(tree)
    ensures DistinctPaths(Filtered(tree, keep))
  {
    if |tree| > 0 {
      var init := tree[..|tree| - 1];
      var last := tree[|tree| - 1];
      assert UniquePaths(init);
      FilteredDistinct(init, keep);
      var before := Filtered(init, keep);
      forall k | 0 <= k < |before| ensures before[k] != last.path {
        FilteredSound(init, keep, k);
        var i :| 0 <= i < |init| && init[i].path == before[k] && keep(init[i]);
        assert tree[i] == init[i];
      }
    }
  }

  /** When no name matches both one of `pats` and `pat`, no file is both
      collected for `pats` and matched by `pat`. */
  lemma CollectedApart(tree: seq<Node>, pats: seq<string>, pat: string, i: nat, j: nat)
    requires forall name: string, m :: 0 <= m < |pats| && Paths.Glob(name, pats[m]) ==> !Paths.Glob(name, pat)
    requires i < |Collected(tree, pats)| && j < |Matching(tree, pat)|
    ensures Collected(tree, pats)[i] != Matching(tree, pat)[j]
  {
    CollectedSound(tree, pats, i);
    var a, m :| 0 <= a < |tree| && 0 <= m < |pats| && tree[a].path == Collected(tree, pats)[i] &&
      IsValidFile(tree[a]) && Paths.Glob(Paths.Name(tree[a].path), pats[m]);
    MatchingSound(tree, pat, j);
    var b :| 0 <= b < |tree| && tree[b].path == Matching(tree, pat)[j] && IsValidFile(tree[b]) &&
      Paths.Glob(Paths.Name(tree[b].path), pat);
  }

  /** Collecting the first `n` patterns from a listing with unique paths
      gives each file once. */
  lemma {:induction false} CollectedDistinct(tree: seq<Node>, n: nat)
    requires UniquePaths(tree) && n <= |Patterns|
    ensures DistinctPaths(Collected(tree, Patterns[..n]))
  {
    if n > 0 {
      var pats := Patterns[..n];
      assert |pats| == n && pats[..n - 1] == Patterns[..n - 1] && pats[n - 1] == Patterns[n - 1];
      CollectedDistinct(tree, n - 1);
      var earlier, pat := Patterns[..n - 1], Patterns[n - 1];
      var before := Collected(tree, earlier);
      var added := Matching(tree, pat);
      FilteredDistinct(tree, x => Selected(x, pat));
      forall name: string, m | 0 <= m < |earlier| && Paths.Glob(name, earlier[m]) ensures !Paths.Glob(name, pat) {
        assert earlier[m] == Patterns[m];
        if Paths.Glob(name, pat) {
          PatternsDisjoint(name, m, n - 1);
        }
      }
      forall i, j | 0 <= i < |before| && 0 <= j < |added| ensures before[i] != added[j] {
        CollectedApart(tree, earlier, pat, i, j);
      }
      DistinctJoin(before, added);
    }
  }

  /** A submission folder whose paths are unique gives each file once, also
      when an archive overwrites a file already there. */
  lemma DiscoveredDistinct(tree: seq<Node>, outcome: string -> ZipOutcome)
    requires UniquePaths(tree)
    ensures DistinctPaths(Discovered(tree, outcome))
  {
    var t := ExtractAll(tree, Named(tree, "*.zip"), outcome);
    ExtractAllUnique(tree, Named(tree, "*.zip"), outcome);
    CollectedDistinct(t, |Patterns|);
    assert Patterns[..|Patterns|] == Patterns;
  }

  /** The name `data.csv` matches none of the six patterns. */
  lemma CsvNotCollected()
    ensures forall m :: 0 <= m < |Patterns| ==> !Paths.Glob("data.csv", Patterns[m])
  {
    forall m | 0 <= m < |Patterns|
      ensures !Paths.Glob("data.csv", Patterns[m])
    {
      var suffix := Patterns[m][1..];
      assert Patterns[m] == "*" + suffix;
      Paths.GlobStarSuffix("data.csv", suffix);
    }
  }

  /** One more entry of the listing adds its path when `keep` selects it. */
  lemma FilteredStep(tree: seq<Node>, keep: Node -> bool, j: nat)
    requires j < |tree|
    ensures Filtered(tree[..j + 1], keep) == Filtered(tree[..j], keep) + (if keep(tree[j]) then [tree[j].path] else [])
  {
    assert tree[..j + 1][..j] == tree[..j];
  }

  /** The valid files of the listing whose name matches `pat`, found by one
      recursive glob. */
  method FindMatching(tree: seq<Node>, pat: string) returns (found: seq<string>)
    ensures found == Matching(tree, pat)
  {
    var keep := n => Selected(n, pat);
    found := [];
    var j := 0;
    while j < |tree|
      invariant 0 <= j <= |tree|
      invariant found == Filtered(tree[..j], keep)
    {
      FilteredStep(tree, keep, j);
      if keep(tree[j]) {
        found := found + [tree[j].path];
      }
      j := j + 1;
    }
    assert tree[..j] == tree;
  }

  /** A student's submission: whose it is, where it lives and the files
      found there. */
  class Submission {
    const user: User
    const submissionId: Option<int>
    const submissionPath: string
    var files: seq<string>

    /** A new submission discovers its files at once; a path that is not a
        directory leaves no files. */
    constructor(user: User, submissionPath: string, submissionId: Option<int>,
                isDir: bool, tree: seq<Node>, outcome: string -> ZipOutcome)
      ensures this.user == user && this.submissionPath == submissionPath && this.submissionId == submissionId
      ensures files == if isDir then Discovered(tree, outcome) else []
      ensures UniquePaths(tree) ==> DistinctPaths(files)
    {
      this.user := user;
      this.submissionId := submissionId;
      this.submissionPath := submissionPath;
      files := [];
      new;
      DiscoverFiles(isDir, tree, outcome);
      if isDir && UniquePaths(tree) {
        DiscoveredDistinct(tree, outcome);
      }
    }

    /** The user, under its older name. */
    function Student(): (u: User)
      ensures u == user
    {
      user
    }

    /** The username stands for both the id and the name. */
    function GetUserInfo(): (info: UserInfo)
      ensures info.id == user.username && info.name == user.username
      ensures info.email == user.email && info.role == user.role && info.databaseId == user.id
    {
      UserInfo(user.username, user.username, user.email, user.role, user.id)
    }

    /** Unpacks the archives found at the start, then appends the valid files
        pattern by pattern. */
    method DiscoverFiles(isDir: bool, tree: seq<Node>, outcome: string -> ZipOutcome)
      modifies this
      ensures files == old(files) + if isDir then Discovered(tree, outcome) else []
    {
      if !isDir {
        return;
      }
      var zips := Named(tree, "*.zip");
      var t := tree;
      var i := 0;
      while i < |zips|
        invariant 0 <= i <= |zips|
        invariant t == ExtractAll(tree, zips[..i], outcome)
      {
        assert zips[..i + 1][..i] == zips[..i];
        t := ExtractZip(t, zips[i], outcome(zips[i]));
        i := i + 1;
      }
      assert zips[..i] == zips;
      CollectFiles(t, Patterns);
    }

    /** Appends, pattern by pattern, the valid files of the listing whose
        name matches the pattern. */
    method CollectFiles(t: seq<Node>, pats: seq<string>)
      modifies this
      ensures files == old(files) + Collected(t, pats)
    {
      var collected := [];
      var k := 0;
      while k < |pats|
        invariant 0 <= k <= |pats|
        invariant collected == Collected(t, pats[..k]) && files == old(files)
      {
        assert pats[..k + 1][..k] == pats[..k];
        var found := FindMatching(t, pats[k]);
        collected := collected + found;
        k := k + 1;
      }
      assert pats[..k] == pats;
      files := files + collected;
    }
  }
}
