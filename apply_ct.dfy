/** The student's credit-transfer application table
    (src/module/student/pages/CTApplication/ApplyCT.js): one row per
    current-programme subject, each with its list of past subjects; every
    handler replaces the table by a new list, and the submit payload keeps
    the table's shape. Generated ids (`Date.now()`) are the `now`
    parameter. */
module ApplyCt {
  import opened Common

  datatype File = File(name: string)

  datatype PastEntry = PastEntry(id: int, code: string, name: string, grade: string, syllabus: Option<File>)

  datatype Row = Row(id: int, currentSubject: string, pastSubjects: seq<PastEntry>, status: string)

  /** The four edits of a past subject: three text inputs and the upload. */
  datatype PastEdit = SetCode(code: string) | SetName(name: string) | SetGrade(grade: string) | SetSyllabus(file: Option<File>)

  function BlankPast(id: int): PastEntry {
    PastEntry(id, "", "", "", None)
  }

  /** The row created by choosing a course or by "Add Row": an empty current
      subject, one blank past subject and status "Pending". */
  function FreshRow(now: int): (r: Row)
    ensures r.id == now && r.currentSubject == "" && r.status == "Pending"
    ensures r.pastSubjects == [BlankPast(now + 1)]
  {
    Row(now, "", [BlankPast(now + 1)], "Pending")
  }

  /** `handleCourseChange`: a chosen course resets the table to one fresh
      row; the empty choice empties it. */
  function CourseChange(course: string, now: int): (table: seq<Row>)
    ensures course == "" <==> table == []
    ensures course != "" ==> table == [FreshRow(now)]
  {
    if course != "" then [FreshRow(now)] else []
  }

  function ApplyEdit(p: PastEntry, e: PastEdit): PastEntry {
    match e
    case SetCode(v) => p.(code := v)
    case SetName(v) => p.(name := v)
    case SetGrade(v) => p.(grade := v)
    case SetSyllabus(f) => p.(syllabus := f)
  }

  /** `handleCurrentSubjectChange`: the rows with that id get the new current
      subject and keep everything else; all other rows are unchanged. */
  function UpdateCurrentSubject(rows: seq<Row>, rowId: int, value: string): (r: seq<Row>)
    ensures |r| == |rows|
    ensures forall i :: 0 <= i < |rows| && rows[i].id != rowId ==> r[i] == rows[i]
    ensures forall i :: 0 <= i < |rows| && rows[i].id == rowId ==>
              r[i].currentSubject == value && r[i].id == rowId &&
              r[i].pastSubjects == rows[i].pastSubjects && r[i].status == rows[i].status
  {
    seq(|rows|, i requires 0 <= i < |rows| =>
      if rows[i].id == rowId then rows[i].(currentSubject := value) else rows[i])
  }

  function EditPast(ps: seq<PastEntry>, pastId: int, e: PastEdit): (r: seq<PastEntry>)
    ensures |r| == |ps|
    ensures forall j :: 0 <= j < |ps| ==> r[j] == (if ps[j].id == pastId then ApplyEdit(ps[j], e) else ps[j])
  {
    seq(|ps|, j requires 0 <= j < |ps| => if ps[j].id == pastId then ApplyEdit(ps[j], e) else ps[j])
  }

  /** `handlePastSubjectChange` (and `handleSyllabusUpload`, its
      `syllabus` case): only the named field of the past subjects with that
      id, in the rows with that id, changes. */
  function UpdatePastSubject(rows: seq<Row>, rowId: int, pastId: int, e: PastEdit): (r: seq<Row>)
    ensures |r| == |rows|
    ensures forall i :: 0 <= i < |rows| && rows[i].id != rowId ==> r[i] == rows[i]
    ensures forall i :: 0 <= i < |rows| && rows[i].id == rowId ==>
              r[i].id == rowId && r[i].currentSubject == rows[i].currentSubject && r[i].status == rows[i].status &&
              |r[i].pastSubjects| == |rows[i].pastSubjects| &&
              forall j :: 0 <= j < |rows[i].pastSubjects| ==>
                r[i].pastSubjects[j] == (if rows[i].pastSubjects[j].id == pastId
                                        then ApplyEdit(rows[i].pastSubjects[j], e)
                                        else rows[i].pastSubjects[j])
  {
    seq(|rows|, i requires 0 <= i < |rows| =>
      if rows[i].id == rowId then rows[i].(pastSubjects := EditPast(rows[i].pastSubjects, pastId, e)) else rows[i])
  }

  /** An edit changes only its own field of a past subject. */
  lemma ApplyEditChangesOneField(p: PastEntry, e: PastEdit)
    ensures ApplyEdit(p, e).id == p.id
    ensures e.SetCode? ==> ApplyEdit(p, e) == p.(code := e.code)
    ensures e.SetName? ==> ApplyEdit(p, e) == p.(name := e.name)
    ensures e.SetGrade? ==> ApplyEdit(p, e) == p.(grade := e.grade)
    ensures e.SetSyllabus? ==> ApplyEdit(p, e) == p.(syllabus := e.file)
  {
  }

  /** `addTableRow`: one fresh row at the end, the rest unchanged. */
  function AddTableRow(rows: seq<Row>, now: int): (r: seq<Row>)
    ensures |r| == |rows| + 1
    ensures r[..|rows|] == rows
    ensures r[|rows|] == FreshRow(now)
  {
    rows + [FreshRow(now)]
  }

  /** `removeTableRow`: keeps exactly the rows with another id. */
  function RemoveTableRow(rows: seq<Row>, rowId: int): (r: seq<Row>)
    ensures forall x :: x in r <==> x in rows && x.id != rowId
    ensures |r| <= |rows|
  {
    var r := Filter(rows, (x: Row) => x.id != rowId);
    forall x ensures x in r <==> x in rows && x.id != rowId {
      FilterMembers(rows, (x: Row) => x.id != rowId, x);
    }
    r
  }

  /** Removal keeps the others' order: it distributes over concatenation. */
  lemma RemoveTableRowConcat(a: seq<Row>, b: seq<Row>, rowId: int)
    ensures RemoveTableRow(a + b, rowId) == RemoveTableRow(a, rowId) + RemoveTableRow(b, rowId)
  {
    FilterConcat(a, b, (x: Row) => x.id != rowId);
  }

  /** Removing a row that was just added with a fresh id gives the table
      back. */
  lemma RemoveAddedRow(rows: seq<Row>, now: int)
    requires forall i :: 0 <= i < |rows| ==> rows[i].id != now
    ensures RemoveTableRow(AddTableRow(rows, now), now) == rows
  {
    var keep := (x: Row) => x.id != now;
    FilterConcat(rows, [FreshRow(now)], keep);
    FilterAll(rows, keep);
    assert Filter([FreshRow(now)], keep) == [] by {
      FilterNone([FreshRow(now)], keep);
    }
  }

  /** `addPastSubject`: one blank past subject with id `now` at the end of
      the rows with that id; nothing else changes. */
  function AddPastSubject(rows: seq<Row>, rowId: int, now: int): (r: seq<Row>)
    ensures |r| == |rows|
    ensures forall i :: 0 <= i < |rows| && rows[i].id != rowId ==> r[i] == rows[i]
    ensures forall i :: 0 <= i < |rows| && rows[i].id == rowId ==>
              r[i] == rows[i].(pastSubjects := rows[i].pastSubjects + [BlankPast(now)])
  {
    seq(|rows|, i requires 0 <= i < |rows| =>
      if rows[i].id == rowId then rows[i].(pastSubjects := rows[i].pastSubjects + [BlankPast(now)]) else rows[i])
  }

  function WithoutPast(ps: seq<PastEntry>, pastId: int): (r: seq<PastEntry>)
    ensures forall x :: x in r <==> x in ps && x.id != pastId
  {
    var r := Filter(ps, (p: PastEntry) => p.id != pastId);
    forall x ensures x in r <==> x in ps && x.id != pastId {
      FilterMembers(ps, (p: PastEntry) => p.id != pastId, x);
    }
    r
  }

  /** `removePastSubject`: in the rows with that id, keeps exactly the past
      subjects with another id; other rows are unchanged. */
  function RemovePastSubject(rows: seq<Row>, rowId: int, pastId: int): (r: seq<Row>)
    ensures |r| == |rows|
    ensures forall i :: 0 <= i < |rows| && rows[i].id != rowId ==> r[i] == rows[i]
    ensures forall i :: 0 <= i < |rows| && rows[i].id == rowId ==>
              r[i].id == rowId && r[i].currentSubject == rows[i].currentSubject && r[i].status == rows[i].status &&
              forall x :: x in r[i].pastSubjects <==> x in rows[i].pastSubjects && x.id != pastId
  {
    seq(|rows|, i requires 0 <= i < |rows| =>
      if rows[i].id == rowId then rows[i].(pastSubjects := WithoutPast(rows[i].pastSubjects, pastId)) else rows[i])
  }

  /** Removing a past subject that was just added with a fresh id gives the
      table back. */
  lemma RemoveAddedPastSubject(rows: seq<Row>, rowId: int, now: int)
    requires forall i, j :: 0 <= i < |rows| && 0 <= j < |rows[i].pastSubjects| ==> rows[i].pastSubjects[j].id != now
    ensures RemovePastSubject(AddPastSubject(rows, rowId, now), rowId, now) == rows
  {
    var added := AddPastSubject(rows, rowId, now);
    var r := RemovePastSubject(added, rowId, now);
    forall i | 0 <= i < |rows| ensures r[i] == rows[i] {
      if rows[i].id == rowId {
        var ps := rows[i].pastSubjects;
        var keep := (p: PastEntry) => p.id != now;
        FilterConcat(ps, [BlankPast(now)], keep);
        FilterAll(ps, keep);
        FilterNone([BlankPast(now)], keep);
        assert added[i].pastSubjects == ps + [BlankPast(now)];
      }
    }
  }

  // ---------------------------------------------------------------------
  // Submit payload

  datatype PastPayload = PastPayload(code: string, name: string, grade: string, syllabus: Option<string>)

  datatype RowPayload = RowPayload(currentSubject: string, pastSubjects: seq<PastPayload>, status: string)

  function PastToPayload(p: PastEntry): (q: PastPayload)
    ensures q.code == p.code && q.name == p.name && q.grade == p.grade
    ensures q.syllabus == (if p.syllabus.Some? then Some(p.syllabus.value.name) else None)
  {
    PastPayload(p.code, p.name, p.grade, if p.syllabus.Some? then Some(p.syllabus.value.name) else None)
  }

  function RowToPayload(row: Row): (q: RowPayload)
    ensures q.currentSubject == row.currentSubject && q.status == row.status
    ensures |q.pastSubjects| == |row.pastSubjects|
    ensures forall j :: 0 <= j < |row.pastSubjects| ==> q.pastSubjects[j] == PastToPayload(row.pastSubjects[j])
  {
    RowPayload(row.currentSubject,
      seq(|row.pastSubjects|, j requires 0 <= j < |row.pastSubjects| => PastToPayload(row.pastSubjects[j])),
      row.status)
  }

  /** `handleSubmit`'s payload: the rows and their past subjects in order,
      ids dropped, each syllabus reduced to its file name or null. */
  function Payload(rows: seq<Row>): (r: seq<RowPayload>)
    ensures |r| == |rows|
    ensures forall i :: 0 <= i < |rows| ==> r[i] == RowToPayload(rows[i])
  {
    seq(|rows|, i requires 0 <= i < |rows| => RowToPayload(rows[i]))
  }

  /** The payload does not depend on ids: renumbering rows and past
      subjects leaves it unchanged. */
  lemma PayloadIgnoresIds(rows: seq<Row>, renumbered: seq<Row>)
    requires |rows| == |renumbered|
    requires forall i :: 0 <= i < |rows| ==>
               renumbered[i].currentSubject == rows[i].currentSubject &&
               renumbered[i].status == rows[i].status &&
               |renumbered[i].pastSubjects| == |rows[i].pastSubjects| &&
               forall j :: 0 <= j < |rows[i].pastSubjects| ==>
                 renumbered[i].pastSubjects[j] == rows[i].pastSubjects[j].(id := renumbered[i].pastSubjects[j].id)
    ensures Payload(rows) == Payload(renumbered)
  {
    forall i | 0 <= i < |rows| ensures RowToPayload(rows[i]) == RowToPayload(renumbered[i]) {
      assert RowToPayload(rows[i]).pastSubjects == RowToPayload(renumbered[i]).pastSubjects;
    }
  }

  /** A syllabus upload shows up in the payload as the file's name. */
  lemma UploadReachesPayload(rows: seq<Row>, i: int, j: int, f: File)
    requires 0 <= i < |rows| && 0 <= j < |rows[i].pastSubjects|
    requires forall k :: 0 <= k < |rows| && k != i ==> rows[k].id != rows[i].id
    ensures var up := UpdatePastSubject(rows, rows[i].id, rows[i].pastSubjects[j].id, SetSyllabus(Some(f)));
            Payload(up)[i].pastSubjects[j].syllabus == Some(f.name)
  {
  }
}
