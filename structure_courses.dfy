/** The coordinator's programme structure page
    (src/module/coordinator/pages/Manage/StructureCourses.js): the structure
    document upload and the course table, which is the table of the course
    management page without categories. */
module StructureCourses {
  import opened Common
  import opened Api
  import opened CourseRows

  datatype File = File(name: string)

  /** What `getProgramStructure` answers: the `program` object (None when
      the data has none, as in the hook's `[]` fallback) with its structure
      document path, and the course rows. */
  datatype StructureData = StructureData(program: Option<Option<string>>, courses: Option<seq<CourseRow>>)

  /** `res.data.program.program_structure` throws on a success answer
      without a `program` object. */
  predicate LoadThrows(res: Reply<StructureData>) {
    res.Success? && res.data.program.None?
  }

  class StructureCoursesPage {
    var structure: Option<string>
    var pdfFile: Option<File>
    var courses: seq<CourseRow>

    constructor ()
      ensures structure.None? && pdfFile.None? && courses == []
    {
      structure := None;
      pdfFile := None;
      courses := [];
    }

    /** The course table (and its buttons) is shown only once a structure
        document exists: a non-empty path. */
    predicate CoursesEditable()
      reads this
    {
      structure.Some? && structure.value != ""
    }

    /** `loadData`: on success the structure and the rows (none when the
        answer has no list); on failure nothing changes. The handler throws,
        changing nothing, when the request rejects or when reading the
        structure does. */
    method LoadData(call: Call<Reply<StructureData>>) returns (threw: bool)
      requires call.Returned? && call.reply.Success? && call.reply.data.courses.Some? ==>
                 Distinct(call.reply.data.courses.value)
      modifies this`structure, this`courses
      ensures threw <==> !call.Returned? || LoadThrows(call.reply)
      ensures call.Returned? && call.reply.Success? && !threw ==>
                structure == call.reply.data.program.value && courses == call.reply.data.courses.GetOr([])
      ensures !(call.Returned? && call.reply.Success?) || threw ==> structure == old(structure) && courses == old(courses)
      ensures call.Returned? && call.reply.Success? && !threw ==>
                (CoursesEditable() <==> call.reply.data.program.value.Some? && call.reply.data.program.value.value != "")
      ensures old(Distinct(courses)) ==> Distinct(courses)
    {
      if !call.Returned? {
        return true;
      }
      threw := LoadThrows(call.reply);
      if call.reply.Success? && !threw {
        structure := call.reply.data.program.value;
        courses := call.reply.data.courses.GetOr([]);
      }
    }

    method SelectFile(f: Option<File>)
      modifies this`pdfFile
      ensures pdfFile == f
    {
      pdfFile := f;
    }

    /** `handleUpload`: without a selected file an alert and no request;
        otherwise the file is sent. A success reloads with `reloaded` and
        then clears the selection, unless the reload throws, which skips
        the clearing; a failure alerts the server's message. An upload
        request that throws ends the handler without an alert. `threw`
        says whether the handler ended by an exception. */
    method Upload(call: Call<Reply<bool>>, reloaded: Call<Reply<StructureData>>)
      returns (sent: Option<File>, alert: Option<string>, threw: bool)
      requires reloaded.Returned? && reloaded.reply.Success? && reloaded.reply.data.courses.Some? ==>
                 Distinct(reloaded.reply.data.courses.value)
      modifies this`pdfFile, this`structure, this`courses
      ensures sent == old(pdfFile)
      ensures sent.None? || !call.Returned? || call.reply.Failure? ==>
                pdfFile == old(pdfFile) && structure == old(structure) && courses == old(courses)
      ensures sent.None? ==> alert == Some("Select file first") && !threw
      ensures sent.Some? && !call.Returned? ==> alert.None? && threw
      ensures sent.Some? && call.Returned? && call.reply.Failure? ==> alert == Some(call.reply.message) && !threw
      ensures sent.Some? && call.Returned? && call.reply.Success? ==>
                alert.None? && (threw <==> !reloaded.Returned? || LoadThrows(reloaded.reply)) &&
                (threw ==> pdfFile == old(pdfFile) && structure == old(structure) && courses == old(courses)) &&
                (!threw ==> pdfFile.None?) &&
                (reloaded.Returned? && reloaded.reply.Success? && !threw ==>
                   structure == reloaded.reply.data.program.value && courses == reloaded.reply.data.courses.GetOr([])) &&
                (reloaded.Returned? && reloaded.reply.Failure? ==> structure == old(structure) && courses == old(courses))
      ensures old(Distinct(courses)) ==> Distinct(courses)
    {
      sent := pdfFile;
      alert := None;
      threw := false;
      if pdfFile.None? {
        alert := Some("Select file first");
        return;
      }
      if !call.Returned? {
        threw := true;
        return;
      }
      if call.reply.Success? {
        threw := LoadData(reloaded);
        if !threw {
          pdfFile := None;
        }
      } else {
        alert := Some(call.reply.message);
      }
    }

    /** `saveCourses`: the rows' payload is handed to `updateCourses`. A
        success reloads with `reloaded` and then alerts, unless the reload
        throws; a failure alerts the message. `threw` says whether the
        handler ended by an exception, which changes nothing. */
    method SaveCourses(call: Call<Reply<bool>>, reloaded: Call<Reply<StructureData>>)
      returns (sent: seq<CoursePayload>, alert: Option<string>, threw: bool)
      requires reloaded.Returned? && reloaded.reply.Success? && reloaded.reply.data.courses.Some? ==>
                 Distinct(reloaded.reply.data.courses.value)
      modifies this`structure, this`courses
      ensures sent == old(SaveRequest())
      ensures !(call.Returned? && call.reply.Success?) || threw ==> structure == old(structure) && courses == old(courses)
      ensures !call.Returned? ==> threw && alert.None?
      ensures call.Returned? && call.reply.Failure? ==> !threw && alert == Some(call.reply.message)
      ensures call.Returned? && call.reply.Success? ==>
                (threw <==> !reloaded.Returned? || LoadThrows(reloaded.reply)) &&
                (threw ==> alert.None?) &&
                (!threw ==> alert == Some("Courses saved successfully!")) &&
                (reloaded.Returned? && reloaded.reply.Success? && !threw ==>
                   structure == reloaded.reply.data.program.value && courses == reloaded.reply.data.courses.GetOr([])) &&
                (reloaded.Returned? && reloaded.reply.Failure? ==> structure == old(structure) && courses == old(courses))
      ensures old(Distinct(courses)) ==> Distinct(courses)
    {
      sent := SaveRequest();
      alert := None;
      if !call.Returned? {
        return sent, alert, true;
      }
      if call.reply.Success? {
        threw := LoadData(reloaded);
        if !threw {
          alert := Some("Courses saved successfully!");
        }
      } else {
        threw := false;
        alert := Some(call.reply.message);
      }
    }

    method UpdateCourseField(index: int, e: CourseEdit)
      requires Distinct(courses) && 0 <= index < |courses|
      modifies courses[index]
      ensures Values(courses) == old(Values(courses))[index := WithEdit(old(Values(courses))[index], e)]
    {
      EditAt(courses, index, e);
    }

    method AddCourseRow()
      modifies this`courses
      ensures |courses| == |old(courses)| + 1 && courses[..|old(courses)|] == old(courses)
      ensures Values(courses) == old(Values(courses)) + [BlankCourse]
      ensures old(Distinct(courses)) ==> Distinct(courses)
    {
      courses := AppendBlank(courses);
    }

    method RemoveCourseRow(index: int)
      modifies this`courses
      ensures courses == RemoveAt(old(courses), index)
      ensures Values(courses) == RemoveAt(old(Values(courses)), index)
      ensures old(Distinct(courses)) ==> Distinct(courses)
    {
      if Distinct(courses) {
        RemoveAtDistinct(courses, index);
      }
      courses := RemoveAt(courses, index);
    }

    /** The `courses` list `saveCourses` sends, without categories. */
    function SaveRequest(): (r: seq<CoursePayload>)
      reads this, set i | 0 <= i < |courses| :: courses[i]
      ensures |r| == |courses|
      ensures forall i :: 0 <= i < |courses| ==> r[i] == RowPayload(courses[i].Value(), false)
    {
      Payload(Values(courses), false)
    }
  }
}
