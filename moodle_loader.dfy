/** The older Moodle export reader: a submissions folder holds one folder
    per lab, and each lab folder one folder per student submission. */
module MoodleLoader {
  import opened Wrappers
  import opened Text
  import Paths

  const SubmissionMarker: string := "_submission_"
  const FileMarker: string := "__assignsubmission_file"

  /** The student id and name read from a submission folder name: the id is
      the text before the first `_submission_`, the name the text between the
      first and the second `_submission_`, cut at `__assignsubmission_file`.
      Neither is validated. */
  function ParseStudentFolder(folderName: string): (r: (Option<string>, Option<string>))
    ensures !Contains(folderName, SubmissionMarker) <==> r == (None, None)
    ensures r.0.Some? <==> r.1.Some?
    ensures r.0.Some? ==>
      StartsWith(folderName, r.0.value + SubmissionMarker) && !Contains(r.0.value, SubmissionMarker)
    ensures r.1.Some? ==> !Contains(r.1.value, SubmissionMarker) && !Contains(r.1.value, FileMarker)
    ensures Contains(folderName, SubmissionMarker) ==>
      var rest := Cut(folderName, SubmissionMarker).value.1;
      r == (Some(Before(folderName, SubmissionMarker)), Some(Before(Before(rest, SubmissionMarker), FileMarker)))
  {
    if !Has(folderName, SubmissionMarker) then (None, None)
    else
      var parts := Split(folderName, SubmissionMarker);
      var studentId := parts[0];
      var namePart := Before(parts[1], FileMarker);
      SplitRest(folderName, SubmissionMarker);
      assert parts[1] == Before(Cut(folderName, SubmissionMarker).value.1, SubmissionMarker);
      BeforeExcludes(folderName, SubmissionMarker);
      BeforeExcludes(Cut(folderName, SubmissionMarker).value.1, SubmissionMarker);
      BeforeExcludes(parts[1], FileMarker);
      NotContainsPrefix(parts[1], namePart, SubmissionMarker);
      (Some(studentId), Some(namePart))
  }

  /** A prefix of a text without `p` does not contain `p` either. */
  lemma NotContainsPrefix(s: string, t: string, p: string)
    requires !Contains(s, p) && StartsWith(s, t)
    ensures !Contains(t, p)
  {
    forall j | 0 <= j <= |t| ensures !OccursAt(t, p, j) {
      if j + |p| <= |t| {
        assert t[j..j + |p|] == s[j..j + |p|];
        assert !OccursAt(s, p, j);
      }
    }
  }

  /** The text `__assignsubmission_file` after a name free of `_` holds no
      `_submission_`. */
  lemma NameThenFileMarker(name: string)
    requires '_' !in name
    ensures !Contains(name + FileMarker, SubmissionMarker)
  {
    var s := name + FileMarker;
    forall i | 0 <= i <= |s| ensures !OccursAt(s, SubmissionMarker, i) {
      if i + |SubmissionMarker| <= |s| {
        var w := s[i..i + |SubmissionMarker|];
        assert w[0] == s[i] && w[1] == s[i + 1];
        if i >= |name| {
          var k := i - |name|;
          assert s[i] == FileMarker[k] && s[i + 1] == FileMarker[k + 1];
          assert k <= 11;
          assert k == 0 || k == 1 || k == 2 || k == 3 || k == 4 || k == 5 || k == 6 ||
            k == 7 || k == 8 || k == 9 || k == 10 || k == 11;
        } else {
          assert s[i] == name[i];
        }
      }
    }
  }

  /** The documented folder form `<id>_submission_<name>__assignsubmission_file`
      (as in `z1234567_submission_Student Name__assignsubmission_file`) gives
      the id and the name back when neither holds `_`. */
  lemma DocumentedForm(id: string, name: string)
    requires '_' !in id && '_' !in name
    ensures ParseStudentFolder(id + SubmissionMarker + name + FileMarker) == (Some(id), Some(name))
  {
    var rest := name + FileMarker;
    var s := id + SubmissionMarker + rest;
    assert s == id + SubmissionMarker + name + FileMarker;
    SplitSafeHead(id, SubmissionMarker);
    BeforeSafePart(id, SubmissionMarker, rest);
    assert OccursAt(s, SubmissionMarker, |id|) by {
      assert s[|id|..|id| + |SubmissionMarker|] == SubmissionMarker;
    }
    NameThenFileMarker(name);
    SplitSafeHead(name, FileMarker);
    BeforeSafePart(name, FileMarker, "");
    assert name + FileMarker + "" == rest;
  }

  /** A lab folder in the listing, with its own listing. */
  datatype LabFolder = LabFolder(name: string, isDir: bool, entries: seq<Paths.Entry>)

  /** One row of the student list: the parsed id and name (possibly absent)
      and the lab folder the submission was found in. */
  datatype StudentRow = StudentRow(id: Option<string>, name: Option<string>, labFolder: string)

  /** The folder filter, case-sensitive. */
  predicate IsStudentFolder(e: Paths.Entry)
  {
    e.isDir && Contains(e.name, "submission")
  }

  function Row(lab: string, e: Paths.Entry): StudentRow
  {
    var (id, name) := ParseStudentFolder(e.name);
    StudentRow(id, name, lab)
  }

  /** The rows contributed by the entries of one lab folder, in listing order. */
  function RowsOfLab(lab: string, entries: seq<Paths.Entry>): (r: seq<StudentRow>)
    ensures |r| <= |entries|
  {
    if |entries| == 0 then []
    else
      var e := entries[|entries| - 1];
      RowsOfLab(lab, entries[..|entries| - 1]) + (if IsStudentFolder(e) then [Row(lab, e)] else [])
  }

  /** The rows of all lab folders that are directories, in listing order. */
  function StudentList(labs: seq<LabFolder>): seq<StudentRow>
  {
    if |labs| == 0 then []
    else
      var lab := labs[|labs| - 1];
      StudentList(labs[..|labs| - 1]) + (if lab.isDir then RowsOfLab(lab.name, lab.entries) else [])
  }

  /** Every row of a lab comes from a student folder of that lab. */
  lemma {:induction false} RowsOfLabSound(lab: string, entries: seq<Paths.Entry>, k: nat)
    requires k < |RowsOfLab(lab, entries)|
    ensures exists j ::
      (0 <= j < |entries| && IsStudentFolder(entries[j]) && RowsOfLab(lab, entries)[k] == Row(lab, entries[j]))
  {
    var init := entries[..|entries| - 1];
    if k < |RowsOfLab(lab, init)| {
      RowsOfLabSound(lab, init, k);
      var j :| 0 <= j < |init| && IsStudentFolder(init[j]) && RowsOfLab(lab, init)[k] == Row(lab, init[j]);
      assert entries[j] == init[j];
    }
  }

  /** Every row comes from a student folder (a directory whose name contains
      `submission`) inside a lab folder that is a directory, and carries that
      lab folder's name and the parse of the student folder's name. */
  lemma {:induction false} StudentListSound(labs: seq<LabFolder>, k: nat)
    requires k < |StudentList(labs)|
    ensures exists i, j ::
      (0 <= i < |labs| && labs[i].isDir && 0 <= j < |labs[i].entries| &&
       IsStudentFolder(labs[i].entries[j]) && StudentList(labs)[k] == Row(labs[i].name, labs[i].entries[j]))
  {
    var init := labs[..|labs| - 1];
    var lab := labs[|labs| - 1];
    if k < |StudentList(init)| {
      StudentListSound(init, k);
      var i, j :| 0 <= i < |init| && init[i].isDir && 0 <= j < |init[i].entries| &&
        IsStudentFolder(init[i].entries[j]) && StudentList(init)[k] == Row(init[i].name, init[i].entries[j]);
      assert labs[i] == init[i];
    } else {
      var k2 := k - |StudentList(init)|;
      RowsOfLabSound(lab.name, lab.entries, k2);
      var j :| 0 <= j < |lab.entries| && IsStudentFolder(lab.entries[j]) &&
        RowsOfLab(lab.name, lab.entries)[k2] == Row(lab.name, lab.entries[j]);
      assert StudentList(labs)[k] == Row(labs[|labs| - 1].name, labs[|labs| - 1].entries[j]);
    }
  }

  /** The rows of one lab folder, entry by entry. */
  method LabRows(lab: string, entries: seq<Paths.Entry>) returns (rows: seq<StudentRow>)
    ensures rows == RowsOfLab(lab, entries)
  {
    rows := [];
    var j := 0;
    while j < |entries|
      invariant 0 <= j <= |entries|
      invariant rows == RowsOfLab(lab, entries[..j])
    {
      var studentFolder := entries[j];
      assert entries[..j + 1][..j] == entries[..j];
      if studentFolder.isDir && Has(studentFolder.name, "submission") {
        var (studentId, name) := ParseStudentFolder(studentFolder.name);
        rows := rows + [StudentRow(studentId, name, lab)];
      }
      j := j + 1;
    }
    assert entries[..j] == entries;
  }

  /** The student list: for each lab folder that is a directory, one row per
      student folder in it, in listing order; folders whose names do not
      parse still give a row, with no id and no name. */
  method GetStudentList(labs: seq<LabFolder>) returns (students: seq<StudentRow>)
    ensures students == StudentList(labs)
  {
    students := [];
    var i := 0;
    while i < |labs|
      invariant 0 <= i <= |labs|
      invariant students == StudentList(labs[..i])
    {
      var lab := labs[i];
      assert labs[..i + 1][..i] == labs[..i];
      if lab.isDir {
        var rows := LabRows(lab.name, lab.entries);
        students := students + rows;
      }
      i := i + 1;
    }
    assert labs[..i] == labs;
  }
}
