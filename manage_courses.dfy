/** The coordinator's course and category management
    (src/module/coordinator/pages/Manage/ManageCourses.js): the editable
    course table with its save payload, and the category list with its
    create and delete guards. */
module ManageCourses {
  import opened Common
  import opened Api
  import opened CourseRows

  datatype Category = Category(categoryId: int, categoryName: string)

  /** The name `handleCreateCategory` sends: none when the input is blank,
      otherwise the input trimmed. */
  function CategoryRequest(input: string): (r: Option<string>)
    ensures r.None? <==> IsBlank(input)
    ensures r.Some? ==> r.value == Trim(input) && r.value != ""
    ensures r.Some? ==> !IsJsSpace(r.value[0]) && !IsJsSpace(r.value[|r.value| - 1])
  {
    if IsBlank(input) then None
    else
      TrimNonBlank(input);
      Some(Trim(input))
  }

  /** Sending a name that was already sent sends it unchanged. */
  lemma CategoryRequestStable(input: string)
    requires CategoryRequest(input).Some?
    ensures CategoryRequest(CategoryRequest(input).value) == CategoryRequest(input)
  {
    TrimIdempotent(input);
  }

  /** What `useManageStructureCourses.js` exports. */
  const StructureHookExports: set<string> := {"getProgramStructure", "uploadProgramStructure", "updateCourses"}

  /** The page imports `getCategories`, `createCategory` and
      `deleteCategory` from that module, which exports none of them: each
      call throws, whatever the server would have answered. */
  lemma CategoryCallsThrow<A, B, C>(load: A, create: B, delete: C)
    ensures Invoke(StructureHookExports, "getCategories", load).NotAFunction?
    ensures Invoke(StructureHookExports, "createCategory", create).NotAFunction?
    ensures Invoke(StructureHookExports, "deleteCategory", delete).NotAFunction?
  {
  }

  /** The calls the page makes through `getProgramStructure` do exist. */
  lemma CourseCallsReturn<A, B>(load: A, save: B)
    ensures Invoke(StructureHookExports, "getProgramStructure", load) == Returned(load)
    ensures Invoke(StructureHookExports, "updateCourses", save) == Returned(save)
  {
  }

  class ManageCoursesPage {
    var courses: seq<CourseRow>
    var categories: seq<Category>
    var loading: bool
    var loadingCategories: bool
    var newCategoryName: string
    var saving: bool

    constructor ()
      ensures courses == [] && categories == [] && loading && loadingCategories && newCategoryName == ""
      ensures !saving
    {
      courses := [];
      categories := [];
      loading := true;
      loadingCategories := true;
      newCategoryName := "";
      saving := false;
    }

    /** `loadCourses`: the flag is raised, then on success the server's
        rows (none when the answer has no list), otherwise the table stays;
        the flag is lowered only when the request returns. */
    method LoadCourses(call: Call<Reply<Option<seq<CourseRow>>>>)
      requires call.Returned? && call.reply.Success? && call.reply.data.Some? ==> Distinct(call.reply.data.value)
      modifies this`courses, this`loading
      ensures call.Returned? && call.reply.Success? ==> courses == call.reply.data.GetOr([])
      ensures !(call.Returned? && call.reply.Success?) ==> courses == old(courses)
      ensures call.Returned? <==> !loading
      ensures old(Distinct(courses)) ==> Distinct(courses)
    {
      loading := true;
      if !call.Returned? {
        return;
      }
      if call.reply.Success? {
        courses := call.reply.data.GetOr([]);
      }
      loading := false;
    }

    /** `loadCategories`: the flag is raised, then on success the
        server's list (none when the answer has no list) and otherwise the
        list stays; the flag is lowered only when the call returns. */
    method LoadCategories(call: Call<Reply<Option<seq<Category>>>>)
      modifies this`categories, this`loadingCategories
      ensures !call.Returned? ==> loadingCategories && categories == old(categories)
      ensures call.Returned? ==> !loadingCategories
      ensures call.Returned? && call.reply.Success? ==> categories == call.reply.data.GetOr([])
      ensures call.Returned? && call.reply.Failure? ==> categories == old(categories)
    {
      loadingCategories := true;
      if !call.Returned? {
        return;
      }
      if call.reply.Success? {
        categories := call.reply.data.GetOr([]);
      }
      loadingCategories := false;
    }

    method UpdateCourseField(index: int, e: CourseEdit)
      requires Distinct(courses) && 0 <= index < |courses|
      modifies courses[index]
      ensures Values(courses) == old(Values(courses))[index := WithEdit(old(Values(courses))[index], e)]
    {
      EditAt(courses, index, e);
    }

    method AddCourseRow()
      modifies this`courses
      ensures |courses| == |old(courses)| + 1 && courses[..|old(courses)|] == old(courses)
      ensures Values(courses) == old(Values(courses)) + [BlankCourse]
      ensures old(Distinct(courses)) ==> Distinct(courses)
    {
      courses := AppendBlank(courses);
    }

    /** `removeCourseRow(index)`: exactly that position goes; an index
        outside the table removes nothing. */
    method RemoveCourseRow(index: int)
      modifies this`courses
      ensures courses == RemoveAt(old(courses), index)
      ensures Values(courses) == RemoveAt(old(Values(courses)), index)
      ensures old(Distinct(courses)) ==> Distinct(courses)
    {
      if Distinct(courses) {
        RemoveAtDistinct(courses, index);
      }
      courses := RemoveAt(courses, index);
    }

    /** The `courses` list `saveCourses` sends, with categories. */
    function SaveRequest(): (r: seq<CoursePayload>)
      reads this, set i | 0 <= i < |courses| :: courses[i]
      ensures |r| == |courses|
      ensures forall i :: 0 <= i < |courses| ==> r[i] == RowPayload(courses[i].Value(), true)
    {
      Payload(Values(courses), true)
    }

    /** `saveCourses`: the flag is raised and the rows' payload is handed to
        `updateCourses`. A success reloads the table with `reloaded` and
        then alerts; a failure alerts the message or "Failed to save
        courses"; the flag is lowered only when neither call throws. */
    method SaveCourses(call: Call<Reply<bool>>, reloaded: Call<Reply<Option<seq<CourseRow>>>>)
      returns (sent: seq<CoursePayload>, alert: Option<string>)
      requires reloaded.Returned? && reloaded.reply.Success? && reloaded.reply.data.Some? ==>
                 Distinct(reloaded.reply.data.value)
      modifies this`saving, this`courses, this`loading
      ensures sent == old(SaveRequest())
      ensures !(call.Returned? && call.reply.Success?) ==> courses == old(courses) && loading == old(loading)
      ensures !call.Returned? ==> saving && alert.None?
      ensures call.Returned? && call.reply.Failure? ==>
                !saving && alert == Some(OrElse(Some(call.reply.message), "Failed to save courses"))
      ensures call.Returned? && call.reply.Success? ==>
                (reloaded.Returned? <==> !loading) &&
                (reloaded.Returned? ==> !saving && alert == Some("Courses saved successfully!")) &&
                (!reloaded.Returned? ==> saving && alert.None?) &&
                (reloaded.Returned? && reloaded.reply.Success? ==> courses == reloaded.reply.data.GetOr([])) &&
                (!(reloaded.Returned? && reloaded.reply.Success?) ==> courses == old(courses))
      ensures old(Distinct(courses)) ==> Distinct(courses)
    {
      saving := true;
      sent := SaveRequest();
      alert := None;
      if !call.Returned? {
        return;
      }
      if call.reply.Success? {
        LoadCourses(reloaded);
        if !reloaded.Returned? {
          return;
        }
        alert := Some("Courses saved successfully!");
      } else {
        alert := Some(OrElse(Some(call.reply.message), "Failed to save courses"));
      }
      saving := false;
    }

    method SetNewCategoryName(input: string)
      modifies this`newCategoryName
      ensures newCategoryName == input
    {
      newCategoryName := input;
    }

    /** `handleCreateCategory`: a blank name is refused with an alert and no
        request; otherwise the trimmed name is passed to `createCategory`,
        and a success clears the input and reloads the list. A call that
        throws ends the handler there. */
    method CreateCategory(call: Call<Reply<Category>>) returns (requested: Option<string>, alert: Option<string>, reload: bool)
      modifies this`newCategoryName
      ensures requested == CategoryRequest(old(newCategoryName))
      ensures requested.None? ==> alert == Some("Please enter a category name") && !reload
      ensures requested.Some? && !call.Returned? ==> alert.None? && !reload
      ensures requested.Some? && call.Returned? && call.reply.Success? ==>
                newCategoryName == "" && reload && alert == Some("Category created successfully!")
      ensures requested.Some? && call.Returned? && call.reply.Failure? ==>
                !reload && alert == Some(OrElse(Some(call.reply.message), "Failed to create category"))
      ensures !(requested.Some? && call.Returned? && call.reply.Success?) ==> newCategoryName == old(newCategoryName)
    {
      requested := CategoryRequest(newCategoryName);
      reload := false;
      alert := None;
      if requested.None? {
        alert := Some("Please enter a category name");
        return;
      }
      var outcome := Announce(call, "Category created successfully!", "Failed to create category");
      alert, reload := outcome.0, outcome.1;
      if reload {
        newCategoryName := "";
      }
    }

    /** `handleDeleteCategory`: a call to `deleteCategory` only after
        confirmation; a call that throws ends the handler there. */
    method DeleteCategory(categoryId: int, confirmed: bool, call: Call<Reply<bool>>)
      returns (requested: Option<int>, alert: Option<string>, reload: bool)
      ensures requested.Some? <==> confirmed
      ensures confirmed ==> requested == Some(categoryId)
      ensures !confirmed || !call.Returned? ==> alert.None? && !reload
      ensures confirmed && call.Returned? && call.reply.Success? ==>
                reload && alert == Some("Category deleted successfully!")
      ensures confirmed && call.Returned? && call.reply.Failure? ==>
                !reload && alert == Some(OrElse(Some(call.reply.message), "Failed to delete category"))
    {
      requested, alert, reload := None, None, false;
      if confirmed {
        requested := Some(categoryId);
        var outcome := Announce(call, "Category deleted successfully!", "Failed to delete category");
        alert, reload := outcome.0, outcome.1;
      }
    }
  }
}
