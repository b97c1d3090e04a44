/** The storage key under which a task solution file is kept. */
module CoreUtils {
  import opened Wrappers
  import opened Text

  /** A user id as the caller passes it: a number or a text. */
  datatype UserId = NumericId(n: int) | TextId(s: string)

  /** The folder for a user's solutions: the id as `str()` renders it, or
      `bulk` when the id is None, `0` or empty (Python truthiness of
      `user_id`). */
  function SolutionsSubdir(userId: Option<UserId>): (sub: string)
    ensures userId == None || userId == Some(NumericId(0)) || userId == Some(TextId("")) ==> sub == "bulk"
    ensures userId.Some? && userId.value.TextId? && userId.value.s != "" ==> sub == userId.value.s
    ensures userId.Some? && userId.value.NumericId? && userId.value.n != 0 ==> sub == IntToString(userId.value.n)
  {
    match userId
    case None => "bulk"
    case Some(NumericId(n)) => if n != 0 then IntToString(n) else "bulk"
    case Some(TextId(t)) => if t != "" then t else "bulk"
  }

  /** `courses/<course>/tasks/<task>/solutions/<sub>/<file>`; the course and
      task ids are given as the text they format to. */
  function MakeSolutionFilePath(courseId: string, taskId: string, userId: Option<UserId>, fileName: string): (r: string)
    ensures EndsWith(r, "/" + fileName)
    ensures StartsWith(r, "courses/" + courseId + "/tasks/")
  {
    var r := "courses/" + courseId + "/tasks/" + taskId + "/solutions/" + SolutionsSubdir(userId) + "/" + fileName;
    assert r[|r| - |"/" + fileName|..] == "/" + fileName;
    assert r[..|"courses/" + courseId + "/tasks/"|] == "courses/" + courseId + "/tasks/";
    r
  }

  /** The key is the seven components joined by `/`. */
  lemma SolutionPathIsJoin(courseId: string, taskId: string, userId: Option<UserId>, fileName: string)
    ensures MakeSolutionFilePath(courseId, taskId, userId, fileName) ==
      Join(["courses", courseId, "tasks", taskId, "solutions", SolutionsSubdir(userId), fileName], "/")
  {
    var sub := SolutionsSubdir(userId);
    var sl := "/";
    var p1 := ["courses", courseId];
    var a := "courses/" + courseId;
    assert Join(p1, sl) == a by {
      assert p1[1..] == [courseId];
    }
    var p2 := p1 + ["tasks"] + [taskId];
    JoinSnoc(p1, "tasks", sl);
    JoinSnoc(p1 + ["tasks"], taskId, sl);
    Regroup(a, "tasks", taskId);
    assert "/" + "tasks" + "/" == "/tasks/";
    var b := a + "/tasks/" + taskId;
    assert Join(p2, sl) == b;
    var p3 := p2 + ["solutions"] + [sub];
    JoinSnoc(p2, "solutions", sl);
    JoinSnoc(p2 + ["solutions"], sub, sl);
    Regroup(b, "solutions", sub);
    assert "/" + "solutions" + "/" == "/solutions/";
    assert Join(p3, sl) == b + "/solutions/" + sub;
    JoinSnoc(p3, fileName, sl);
    assert p3 + [fileName] == ["courses", courseId, "tasks", taskId, "solutions", sub, fileName];
  }

  /** Two `/`-separated parts after `a`, grouped as the key writes them. */
  lemma Regroup(a: string, x: string, y: string)
    ensures a + "/" + x + "/" + y == a + ("/" + x + "/") + y
  {
  }

  /** When no component contains `/`, splitting the key on `/` gives back
      the seven components, so the course, task, user folder and file name
      can be read back from it. */
  lemma SolutionPathComponents(courseId: string, taskId: string, userId: Option<UserId>, fileName: string)
    requires '/' !in courseId && '/' !in taskId && '/' !in fileName
    requires userId.Some? && userId.value.TextId? ==> '/' !in userId.value.s
    ensures Split(MakeSolutionFilePath(courseId, taskId, userId, fileName), "/") ==
      ["courses", courseId, "tasks", taskId, "solutions", SolutionsSubdir(userId), fileName]
  {
    if userId.Some? && userId.value.NumericId? && userId.value.n != 0 {
      NumberHasNoSlash(userId.value.n);
    }
    SolutionPathIsJoin(courseId, taskId, userId, fileName);
    SplitJoinChar(["courses", courseId, "tasks", taskId, "solutions", SolutionsSubdir(userId), fileName], '/');
  }

  /** A number's rendering has no `/`. */
  lemma NumberHasNoSlash(n: int)
    ensures '/' !in IntToString(n)
  {
    var d := NatToString(if n >= 0 then n else -n);
    assert forall i :: 0 <= i < |d| ==> d[i] != '/';
    if n < 0 {
      assert forall i :: 0 <= i < |"-" + d| ==> ("-" + d)[i] != '/';
    }
  }
}
