/** Finding student submissions in a Moodle export: a task folder holds one
    folder per student, named after the student's id and name. The folder
    listing is given as a sequence of entries. */
module Loaders {
  import opened Wrappers
  import opened Text
  import Paths

  const AssignMarker: string := "_assignsubmission_file"
  const SubmissionMarker: string := "_submission_"

  datatype Student = Student(id: string, name: string)

  /** A submission found for a task: the student and the folder's path. */
  datatype SubmissionRef = SubmissionRef(student: Student, path: string)

  /** The display name: underscores become spaces, then surrounding white
      space is removed. */
  function CleanName(raw: string): (r: string)
    ensures '_' !in r && Stripped(r)
  {
    var t := Replace(raw, "_", " ");
    ReplaceCharRemoves(raw, '_', " ");
    CharNotInInfix(t, Strip(t), '_');
    Strip(t)
  }

  /** The id and name parts of the examined text, before validation. */
  function IdAndName(parts: string): (r: Option<(string, string)>)
    ensures r.Some? && Contains(parts, SubmissionMarker) ==> parts == r.value.0 + SubmissionMarker + r.value.1
    ensures r.Some? && !Contains(parts, SubmissionMarker) ==> parts == r.value.0 + "_" + r.value.1 && IsZId(r.value.0)
    ensures r.None? ==> !Contains(parts, SubmissionMarker)
  {
    if Has(parts, SubmissionMarker) then Cut(parts, SubmissionMarker)
    else match Cut(parts, "_")
      case None => None
      case Some((potentialId, potentialName)) =>
        if |potentialId| > 0 && potentialId[0] == 'z' && IsDigits(potentialId[1..])
        then Some((potentialId, potentialName))
        else None
  }

  /** The user id and name read from a submission folder name. Only the
      text before the first `_assignsubmission_file` is examined; an empty
      id or name part gives (None, None); an id not starting with `z` is
      dropped while the name is kept. */
  function ExtractUserInfo(folderName: string): (r: (Option<string>, Option<string>))
    ensures r.0.Some? ==> r.1.Some? && |r.0.value| > 0 && r.0.value[0] == 'z'
    ensures r.1.Some? ==> '_' !in r.1.value && Stripped(r.1.value)
    ensures r.1.None? ==> r.0.None?
  {
    var parts := Before(folderName, AssignMarker);
    match IdAndName(parts)
    case None => (None, None)
    case Some((idPart, namePart)) =>
      if idPart == "" || namePart == "" then (None, None)
      else
        var userId := if idPart[0] == 'z' then Some(idPart) else None;
        (userId, Some(CleanName(namePart)))
  }

  /** The outcome in terms of the id and name parts: a name exactly when
      both parts are non-empty, and then the id only when it starts with
      `z`. */
  lemma UserInfoOfParts(folderName: string)
    ensures var r, p := ExtractUserInfo(folderName), IdAndName(Before(folderName, AssignMarker));
      (r.1.Some? <==> p.Some? && p.value.0 != "" && p.value.1 != "") &&
      (r.1.Some? ==> r.1.value == CleanName(p.value.1) && (r.0.Some? <==> p.value.0[0] == 'z') && (r.0.Some? ==> r.0.value == p.value.0))
  {
  }

  /** Only the text before the first `_assignsubmission_file` matters. */
  lemma OnlyPrefixExamined(folderName: string)
    ensures ExtractUserInfo(folderName) == ExtractUserInfo(Before(folderName, AssignMarker))
  {
    BeforeIdempotent(folderName, AssignMarker);
  }

  /** `<id>_submission_<name>_assignsubmission_file...`: the id is the text
      before the marker (kept only when it starts with `z`) and the name the
      cleaned text after it; an empty id or name (as in
      `_submission_Name_assignsubmission_file`) gives neither. */
  lemma SubmissionMarkerForm(id: string, name: string, rest: string)
    requires '_' !in id
    requires SplitSafe(id + SubmissionMarker + name, AssignMarker)
    ensures ExtractUserInfo(id + SubmissionMarker + name + AssignMarker + rest) ==
      if id == "" || name == "" then (None, None)
      else (if id[0] == 'z' then Some(id) else None, Some(CleanName(name)))
  {
    var parts := id + SubmissionMarker + name;
    assert id + SubmissionMarker + name + AssignMarker + rest == parts + AssignMarker + rest;
    BeforeSafePart(parts, AssignMarker, rest);
    IdBeforeMarker(id);
    BeforeSafePart(id, SubmissionMarker, name);
    assert OccursAt(parts, SubmissionMarker, |id|) by {
      assert parts[|id|..|id| + |SubmissionMarker|] == SubmissionMarker;
    }
    assert IdAndName(parts) == Some((id, name));
  }

  /** An id without `_` can stand before `_submission_`. */
  lemma IdBeforeMarker(id: string)
    requires '_' !in id
    ensures SplitSafe(id, SubmissionMarker)
  {
    forall i | 0 <= i < |id| ensures !OccursAt(id + SubmissionMarker, SubmissionMarker, i) {
      assert (id + SubmissionMarker)[i] == id[i];
    }
  }

  /** `z<digits>_<name>_assignsubmission_file...` without `_submission_`:
      the id is the z-number and the name the cleaned rest. */
  lemma ZNumberForm(id: string, name: string, rest: string)
    requires IsZId(id) && name != ""
    requires !Contains(id + "_" + name, SubmissionMarker)
    requires SplitSafe(id + "_" + name, AssignMarker)
    ensures ExtractUserInfo(id + "_" + name + AssignMarker + rest) == (Some(id), Some(CleanName(name)))
  {
    var parts := id + "_" + name;
    BeforeSafePart(parts, AssignMarker, rest);
    assert id + "_" + name + AssignMarker + rest == parts + AssignMarker + rest;
    assert '_' !in id by {
      forall k | 0 <= k < |id| ensures id[k] != '_' {
        if k > 0 { assert id[k] == id[1..][k - 1]; }
      }
    }
    SplitSafeChar(id, '_');
    BeforeSafePart(id, "_", name);
  }

  /** Without `_submission_`, an id part that is not a z-number rejects the
      folder. */
  lemma NonZNumberRejected(folderName: string)
    requires !Contains(Before(folderName, AssignMarker), SubmissionMarker)
    requires Cut(Before(folderName, AssignMarker), "_").Some?
    requires !IsZId(Cut(Before(folderName, AssignMarker), "_").value.0)
    ensures ExtractUserInfo(folderName) == (None, None)
  {
  }

  /** A student exactly when both the id and the name are non-empty. */
  function ParseStudentFromFolder(folderName: string): (r: Option<Student>)
    ensures r.Some? ==> r.value.id != "" && r.value.id[0] == 'z' && r.value.name != ""
    ensures r.Some? ==> '_' !in r.value.name && Stripped(r.value.name)
    ensures r.Some? <==> (var info := ExtractUserInfo(folderName);
      info.0.Some? && info.0.value != "" && info.1.Some? && info.1.value != "")
  {
    var (userId, userName) := ExtractUserInfo(folderName);
    if userId.Some? && userId.value != "" && userName.Some? && userName.value != ""
    then Some(Student(userId.value, userName.value))
    else None
  }

  /** The folder filter: a directory whose lower-cased name contains
      `submission`. */
  predicate IsCandidate(e: Paths.Entry)
  {
    e.isDir && Contains(Lower(e.name), "submission")
  }

  /** The submissions of a task folder's entries, in listing order. */
  function SubmissionsIn(taskDir: string, entries: seq<Paths.Entry>): (r: seq<SubmissionRef>)
    ensures |r| <= |entries|
  {
    if |entries| == 0 then []
    else
      var e := entries[|entries| - 1];
      var before := SubmissionsIn(taskDir, entries[..|entries| - 1]);
      if IsCandidate(e) && ParseStudentFromFolder(e.name).Some?
      then before + [SubmissionRef(ParseStudentFromFolder(e.name).value, Paths.JoinPath(taskDir, e.name))]
      else before
  }

  /** Every submission comes from a candidate folder whose name parses. */
  lemma {:induction false} SubmissionsInSound(taskDir: string, entries: seq<Paths.Entry>, k: nat)
    requires k < |SubmissionsIn(taskDir, entries)|
    ensures exists i ::
      0 <= i < |entries| && IsCandidate(entries[i]) &&
      ParseStudentFromFolder(entries[i].name) == Some(SubmissionsIn(taskDir, entries)[k].student) &&
      SubmissionsIn(taskDir, entries)[k].path == Paths.JoinPath(taskDir, entries[i].name)
  {
    var init := entries[..|entries| - 1];
    var before := SubmissionsIn(taskDir, init);
    var e := entries[|entries| - 1];
    assert SubmissionsIn(taskDir, entries)[..|before|] == before;
    if k < |before| {
      SubmissionsInSound(taskDir, init, k);
      var i :| 0 <= i < |init| && IsCandidate(init[i]) &&
        ParseStudentFromFolder(init[i].name) == Some(before[k].student) &&
        before[k].path == Paths.JoinPath(taskDir, init[i].name);
      assert entries[i] == init[i];
      assert SubmissionsIn(taskDir, entries)[k] == before[k];
    } else {
      assert SubmissionsIn(taskDir, entries)[k] ==
        SubmissionRef(ParseStudentFromFolder(e.name).value, Paths.JoinPath(taskDir, e.name));
      assert IsCandidate(entries[|entries| - 1]);
    }
  }

  /** The number of candidate folders whose names parse. */
  function CountAccepted(entries: seq<Paths.Entry>): nat
  {
    if |entries| == 0 then 0
    else
      var e := entries[|entries| - 1];
      CountAccepted(entries[..|entries| - 1]) + (if IsCandidate(e) && ParseStudentFromFolder(e.name).Some? then 1 else 0)
  }

  /** Each candidate folder whose name parses gives exactly one submission. */
  lemma {:induction false} SubmissionsInCount(taskDir: string, entries: seq<Paths.Entry>)
    ensures |SubmissionsIn(taskDir, entries)| == CountAccepted(entries)
  {
    if |entries| > 0 {
      SubmissionsInCount(taskDir, entries[..|entries| - 1]);
    }
  }

  /** The submissions for a task: none when the task folder is missing,
      otherwise one per candidate folder that parses, in listing order. */
  method GetSubmissionsForTask(baseDir: string, taskName: string, taskFolderIsDir: bool, entries: seq<Paths.Entry>)
    returns (submissions: seq<SubmissionRef>)
    ensures !taskFolderIsDir ==> submissions == []
    ensures taskFolderIsDir ==> submissions == SubmissionsIn(Paths.JoinPath(baseDir, taskName), entries)
  {
    submissions := [];
    var taskDir := Paths.JoinPath(baseDir, taskName);
    if !taskFolderIsDir {
      return;
    }
    var i := 0;
    while i < |entries|
      invariant 0 <= i <= |entries|
      invariant submissions == SubmissionsIn(taskDir, entries[..i])
    {
      var userFolder := entries[i];
      assert entries[..i + 1][..i] == entries[..i];
      if userFolder.isDir && Has(Lower(userFolder.name), "submission") {
        var student := ParseStudentFromFolder(userFolder.name);
        if student.Some? {
          submissions := submissions + [SubmissionRef(student.value, Paths.JoinPath(taskDir, userFolder.name))];
        }
      }
      i := i + 1;
    }
    assert entries[..i] == entries;
  }
}
