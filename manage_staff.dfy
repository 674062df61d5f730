/** The administrator's staff page (src/module/admin/pages/ManageStaff.js):
    the roles shown for each lecturer, the role-assignment modal with its
    requirements per role, and ending a role. Today's date is a parameter. */
module ManageStaff {
  import opened Common
  import opened Api

  datatype Lecturer = Lecturer(lecturerId: int, lecturerName: string, email: string)

  /** One entry of a staff-assignments list. A coordinator entry carries a
      `coordinator_id`, an SME entry an `sme_id`, a head-of-section entry a
      `hos_id`; `lecturer` may be missing. */
  datatype Assignment = Assignment(
    coordinatorId: Option<int>,
    smeId: Option<int>,
    hosId: Option<int>,
    lecturerId: Option<int>)

  datatype StaffAssignments = StaffAssignments(
    coordinators: Option<seq<Assignment>>,
    subjectMethodExperts: Option<seq<Assignment>>,
    headOfSections: Option<seq<Assignment>>)

  datatype RoleKind = CoordinatorKind | SmeKind | HosKind

  /** The label shown for a role: "Coordinator", "SME", "Head of Section". */
  function Label(k: RoleKind): string {
    match k
    case CoordinatorKind => "Coordinator"
    case SmeKind => "SME"
    case HosKind => "Head of Section"
  }

  datatype Role = Role(kind: RoleKind, data: Assignment)

  /** `x.lecturer?.lecturer_id === lecturerId`. */
  predicate Owns(a: Assignment, lecturerId: int) {
    a.lecturerId == Some(lecturerId)
  }

  /** `list.find(...)`: the first entry of the lecturer. */
  function FirstOwned(list: seq<Assignment>, lecturerId: int): (r: Option<Assignment>)
    ensures r.None? <==> forall k :: 0 <= k < |list| ==> !Owns(list[k], lecturerId)
    ensures r.Some? ==> exists k :: 0 <= k < |list| && list[k] == r.value && Owns(list[k], lecturerId)
                                    && forall j :: 0 <= j < k ==> !Owns(list[j], lecturerId)
  {
    if list == [] then None
    else if Owns(list[0], lecturerId) then Some(list[0])
    else
      var r := FirstOwned(list[1..], lecturerId);
      assert forall k :: 1 <= k < |list| ==> list[k] == list[1..][k - 1];
      if r.Some? then
        ghost var k :| 0 <= k < |list[1..]| && list[1..][k] == r.value && Owns(list[1..][k], lecturerId)
                       && forall j :: 0 <= j < k ==> !Owns(list[1..][j], lecturerId);
        assert list[k + 1] == r.value;
        r
      else r
  }

  /** At most one role of the given kind: the first entry of the lecturer. */
  function FirstRole(list: Option<seq<Assignment>>, kind: RoleKind, lecturerId: int): (r: seq<Role>)
    ensures |r| <= 1
    ensures forall x :: x in r ==> x.kind == kind && Owns(x.data, lecturerId)
  {
    if list.None? then []
    else match FirstOwned(list.value, lecturerId)
      case None => []
      case Some(a) => [Role(kind, a)]
  }

  function SmeRoleOf(lecturerId: int): Assignment -> Option<Role> {
    (a: Assignment) => if Owns(a, lecturerId) then Some(Role(SmeKind, a)) else None
  }

  /** Every SME entry of the lecturer, in list order. */
  function SmeRoles(list: Option<seq<Assignment>>, lecturerId: int): seq<Role> {
    if list.None? then [] else Collect(list.value, SmeRoleOf(lecturerId))
  }

  /** The roles shown for a lecturer: the coordinator role, then the SME
      roles, then the head-of-section role. */
  function LecturerRoles(staff: Option<StaffAssignments>, lecturerId: int): seq<Role> {
    if staff.None? then []
    else FirstRole(staff.value.coordinators, CoordinatorKind, lecturerId)
         + SmeRoles(staff.value.subjectMethodExperts, lecturerId)
         + FirstRole(staff.value.headOfSections, HosKind, lecturerId)
  }

  function KindRank(k: RoleKind): nat {
    match k
    case CoordinatorKind => 0
    case SmeKind => 1
    case HosKind => 2
  }

  lemma SmeRolesAreSme(list: Option<seq<Assignment>>, lecturerId: int)
    ensures forall x :: x in SmeRoles(list, lecturerId) ==> x.kind == SmeKind && Owns(x.data, lecturerId)
  {
    if list.Some? {
      CollectFrom(list.value, SmeRoleOf(lecturerId));
    }
  }

  /** The roles come in the order coordinator, SMEs, head of section; there
      is at most one coordinator and one head-of-section role; every role
      is one of the lecturer's. */
  lemma {:induction false} RolesInOrder(staff: Option<StaffAssignments>, lecturerId: int)
    ensures var roles := LecturerRoles(staff, lecturerId);
            forall i, j :: 0 <= i < j < |roles| ==> KindRank(roles[i].kind) <= KindRank(roles[j].kind)
    ensures var roles := LecturerRoles(staff, lecturerId);
            forall i, j :: 0 <= i < j < |roles| ==> roles[i].kind != CoordinatorKind || roles[j].kind != CoordinatorKind
    ensures var roles := LecturerRoles(staff, lecturerId);
            forall i, j :: 0 <= i < j < |roles| ==> roles[i].kind != HosKind || roles[j].kind != HosKind
    ensures forall x :: x in LecturerRoles(staff, lecturerId) ==> Owns(x.data, lecturerId)
  {
    if staff.Some? {
      var c := FirstRole(staff.value.coordinators, CoordinatorKind, lecturerId);
      var s := SmeRoles(staff.value.subjectMethodExperts, lecturerId);
      var h := FirstRole(staff.value.headOfSections, HosKind, lecturerId);
      SmeRolesAreSme(staff.value.subjectMethodExperts, lecturerId);
      var roles := c + s + h;
      forall i | 0 <= i < |roles|
        ensures i < |c| ==> roles[i].kind == CoordinatorKind
        ensures |c| <= i < |c| + |s| ==> roles[i].kind == SmeKind
        ensures |c| + |s| <= i ==> roles[i].kind == HosKind
        ensures Owns(roles[i].data, lecturerId)
      {
        if i < |c| { assert roles[i] in c; }
        else if i < |c| + |s| { assert roles[i] == s[i - |c|]; assert roles[i] in s; }
        else { assert roles[i] == h[i - |c| - |s|]; assert roles[i] in h; }
      }
    }
  }

  /** Every SME entry of the lecturer is shown. */
  lemma EverySmeShown(staff: StaffAssignments, lecturerId: int, a: Assignment)
    requires staff.subjectMethodExperts.Some? && a in staff.subjectMethodExperts.value && Owns(a, lecturerId)
    ensures Role(SmeKind, a) in LecturerRoles(Some(staff), lecturerId)
  {
    CollectTo(staff.subjectMethodExperts.value, SmeRoleOf(lecturerId), a);
  }

  /** The coordinator role shown is the lecturer's first coordinator entry. */
  lemma CoordinatorIsFirstMatch(staff: StaffAssignments, lecturerId: int)
    requires staff.coordinators.Some?
    ensures var roles := LecturerRoles(Some(staff), lecturerId);
            (|roles| > 0 && roles[0].kind == CoordinatorKind) <==>
              exists k :: 0 <= k < |staff.coordinators.value| && Owns(staff.coordinators.value[k], lecturerId)
    ensures var roles := LecturerRoles(Some(staff), lecturerId);
            |roles| > 0 && roles[0].kind == CoordinatorKind ==>
              Some(roles[0].data) == FirstOwned(staff.coordinators.value, lecturerId)
  {
    SmeRolesAreSme(staff.subjectMethodExperts, lecturerId);
    var s := SmeRoles(staff.subjectMethodExperts, lecturerId);
    var h := FirstRole(staff.headOfSections, HosKind, lecturerId);
    if |s| > 0 { assert s[0] in s; }
    if |h| > 0 { assert h[0] in h; }
  }

  // ---------------------------------------------------------------------
  // Ending a role

  /** The "End" button's request: the role type the server expects and the
      entry's id of that kind. */
  function EndTarget(role: Role): (r: (string, Option<int>))
    ensures role.kind == CoordinatorKind ==> r == ("coordinator", role.data.coordinatorId)
    ensures role.kind == SmeKind ==> r == ("sme", role.data.smeId)
    ensures role.kind == HosKind ==> r == ("hos", role.data.hosId)
  {
    if Label(role.kind) == "Coordinator" then ("coordinator", role.data.coordinatorId)
    else if Label(role.kind) == "SME" then ("sme", role.data.smeId)
    else ("hos", role.data.hosId)
  }

  /** The role type sent tells the kind of the role that was ended. */
  lemma EndTargetNamesKind(r1: Role, r2: Role)
    requires EndTarget(r1).0 == EndTarget(r2).0
    ensures r1.kind == r2.kind
  {
  }

  // ---------------------------------------------------------------------
  // The assignment form

  datatype StaffForm = StaffForm(roleType: string, programId: string, courseId: string, startDate: string, endDate: string)

  /** The form as `handleAssignRole` resets it. */
  function BlankForm(today: string): StaffForm {
    StaffForm("", "", "", today, "")
  }

  datatype RoleData = RoleData(
    roleType: string,
    startDate: string,
    endDate: Option<string>,
    programId: Option<IntField>,
    courseId: Option<IntField>)

  const ProgramNeeded := "Please select a program for Coordinator role"
  const CourseNeeded := "Please select a course for SME role"
  const Assigned := "Role assigned successfully!"

  /** What stops an assignment: a coordinator without a programme, an SME
      without a course. */
  function Missing(f: StaffForm): (m: Option<string>)
    ensures m == Some(ProgramNeeded) <==> f.roleType == "coordinator" && f.programId == ""
    ensures m == Some(CourseNeeded) <==> f.roleType == "sme" && f.courseId == ""
    ensures m.None? <==> !(f.roleType == "coordinator" && f.programId == "") && !(f.roleType == "sme" && f.courseId == "")
  {
    if f.roleType == "coordinator" && f.programId == "" then Some(ProgramNeeded)
    else if f.roleType == "sme" && f.courseId == "" then Some(CourseNeeded)
    else None
  }

  /** The body of the role update: a coordinator carries the parsed
      programme and no course, an SME the parsed course and no programme,
      any other role neither; an empty end date is sent as null. */
  function RoleDataOf(f: StaffForm): (d: RoleData)
    ensures d.roleType == f.roleType && d.startDate == f.startDate
    ensures d.endDate.None? <==> f.endDate == ""
    ensures d.endDate.Some? ==> d.endDate.value == f.endDate
    ensures d.programId.Some? <==> f.roleType == "coordinator"
    ensures d.courseId.Some? <==> f.roleType == "sme"
    ensures d.programId.Some? ==> d.programId.value == ParseIntField(f.programId)
    ensures d.courseId.Some? ==> d.courseId.value == ParseIntField(f.courseId)
  {
    RoleData(f.roleType, f.startDate, if f.endDate == "" then None else Some(f.endDate),
             if f.roleType == "coordinator" then Some(ParseIntField(f.programId)) else None,
             if f.roleType == "sme" then Some(ParseIntField(f.courseId)) else None)
  }

  /** The selects hold the decimal text of the chosen option's id: such a
      form passes the checks, and the request carries exactly that id, the
      programme's for a coordinator and the course's for an SME. */
  lemma SentIdsAreChosen(f: StaffForm, programId: nat, courseId: nat)
    requires f.roleType == "coordinator" ==> f.programId == NatToString(programId)
    requires f.roleType == "sme" ==> f.courseId == NatToString(courseId)
    ensures Missing(f).None?
    ensures f.roleType == "coordinator" ==>
              RoleDataOf(f).programId == Some(IntVal(programId)) && RoleDataOf(f).courseId.None?
    ensures f.roleType == "sme" ==>
              RoleDataOf(f).courseId == Some(IntVal(courseId)) && RoleDataOf(f).programId.None?
  {
    ParseIntOfNatToString(programId);
    ParseIntOfNatToString(courseId);
  }

  datatype Program = Program(programId: int, programName: string)
  datatype Course = Course(courseId: int, courseCode: string)

  /** `lecturers.find(l => l.lecturer_id === lecturerId)`. */
  function FindLecturer(lecturers: seq<Lecturer>, lecturerId: int): (r: Option<Lecturer>)
    ensures r.None? <==> forall k :: 0 <= k < |lecturers| ==> lecturers[k].lecturerId != lecturerId
    ensures r.Some? ==> r.value in lecturers && r.value.lecturerId == lecturerId
    ensures r.Some? ==> exists i :: 0 <= i < |lecturers| && lecturers[i] == r.value &&
                          forall k :: 0 <= k < i ==> lecturers[k].lecturerId != lecturerId
  {
    if lecturers == [] then None
    else if lecturers[0].lecturerId == lecturerId then Some(lecturers[0])
    else
      var r := FindLecturer(lecturers[1..], lecturerId);
      assert forall k :: 1 <= k < |lecturers| ==> lecturers[k] == lecturers[1..][k - 1];
      if r.None? then r
      else
        var i :| 0 <= i < |lecturers[1..]| && lecturers[1..][i] == r.value &&
                 forall k :: 0 <= k < i ==> lecturers[1..][k].lecturerId != lecturerId;
        assert lecturers[i + 1] == r.value;
        assert forall k :: 0 <= k < i + 1 ==> lecturers[k].lecturerId != lecturerId;
        r
  }

  class ManageStaffPage {
    var lecturers: seq<Lecturer>
    var staffAssignments: Option<StaffAssignments>
    var loading: bool
    var showAssignModal: bool
    var selectedLecturer: Option<Lecturer>
    var programs: seq<Program>
    var courses: seq<Course>
    var form: StaffForm

    constructor (today: string)
      ensures lecturers == [] && staffAssignments.None? && loading && !showAssignModal
      ensures selectedLecturer.None? && programs == [] && courses == [] && form == BlankForm(today)
    {
      lecturers := [];
      staffAssignments := None;
      loading := true;
      showAssignModal := false;
      selectedLecturer := None;
      programs := [];
      courses := [];
      form := BlankForm(today);
    }

    /** `loadData`: each of the three lists is replaced when its call
        succeeded and kept otherwise. */
    method LoadData(lecturersRes: Reply<seq<Lecturer>>, assignmentsRes: Reply<StaffAssignments>, programsRes: Reply<seq<Program>>)
      modifies this`lecturers, this`staffAssignments, this`programs, this`loading
      ensures lecturers == (if lecturersRes.Success? then lecturersRes.data else old(lecturers))
      ensures staffAssignments == (if assignmentsRes.Success? then Some(assignmentsRes.data) else old(staffAssignments))
      ensures programs == (if programsRes.Success? then programsRes.data else old(programs))
      ensures !loading
    {
      loading := true;
      if lecturersRes.Success? {
        lecturers := lecturersRes.data;
      }
      if assignmentsRes.Success? {
        staffAssignments := Some(assignmentsRes.data);
      }
      if programsRes.Success? {
        programs := programsRes.data;
      }
      loading := false;
    }

    /** `getLecturerRoles`: the coordinator found, each matching SME pushed in
        turn, then the head of section found. */
    method GetLecturerRoles(lecturerId: int) returns (roles: seq<Role>)
      ensures roles == LecturerRoles(staffAssignments, lecturerId)
    {
      roles := [];
      if staffAssignments.None? {
        return;
      }
      var staff := staffAssignments.value;
      roles := FirstRole(staff.coordinators, CoordinatorKind, lecturerId);
      if staff.subjectMethodExperts.Some? {
        var smes := staff.subjectMethodExperts.value;
        var f := SmeRoleOf(lecturerId);
        ghost var before := roles;
        var i := 0;
        while i < |smes|
          invariant 0 <= i <= |smes|
          invariant roles == before + Collect(smes[..i], f)
        {
          assert smes[..i + 1] == smes[..i] + [smes[i]];
          CollectConcat(smes[..i], [smes[i]], f);
          if Owns(smes[i], lecturerId) {
            roles := roles + [Role(SmeKind, smes[i])];
          }
          i := i + 1;
        }
        assert smes[..i] == smes;
      }
      roles := roles + FirstRole(staff.headOfSections, HosKind, lecturerId);
    }

    /** `handleAssignRole`: the lecturer looked up, the form reset with
        today's start date, the modal opened. */
    method AssignRole(lecturerId: int, today: string)
      modifies this`selectedLecturer, this`form, this`showAssignModal
      ensures selectedLecturer == FindLecturer(lecturers, lecturerId)
      ensures form == BlankForm(today) && showAssignModal
    {
      selectedLecturer := FindLecturer(lecturers, lecturerId);
      form := BlankForm(today);
      showAssignModal := true;
    }

    /** `handleRoleTypeChange`: the course choice is cleared; an SME role with
        a programme chosen asks for that programme's courses, any other role
        empties the course list. */
    method RoleTypeChange(roleType: string, res: Reply<seq<Course>>) returns (requested: Option<string>)
      modifies this`form, this`courses
      ensures form == old(form).(roleType := roleType, courseId := "")
      ensures requested.Some? <==> roleType == "sme" && old(form).programId != ""
      ensures requested.Some? ==> requested.value == old(form).programId
      ensures requested.None? ==> courses == []
      ensures requested.Some? ==> courses == (if res.Success? then res.data else old(courses))
    {
      var programId := form.programId;
      form := form.(roleType := roleType, courseId := "");
      requested := None;
      if roleType == "sme" && programId != "" {
        requested := Some(programId);
        if res.Success? {
          courses := res.data;
        }
      } else {
        courses := [];
      }
    }

    /** `handleProgramChange`: the course choice is cleared; for an SME role
        the new programme's courses are asked for. The course list is never
        emptied here. */
    method ProgramChange(programId: string, res: Reply<seq<Course>>) returns (requested: Option<string>)
      modifies this`form, this`courses
      ensures form == old(form).(programId := programId, courseId := "")
      ensures requested.Some? <==> old(form).roleType == "sme" && programId != ""
      ensures requested.Some? ==> requested.value == programId
      ensures courses == (if requested.Some? && res.Success? then res.data else old(courses))
    {
      var roleType := form.roleType;
      form := form.(programId := programId, courseId := "");
      requested := None;
      if roleType == "sme" && programId != "" {
        requested := Some(programId);
        if res.Success? {
          courses := res.data;
        }
      }
    }

    method EditForm(f: StaffForm)
      modifies this`form
      ensures form == f
    {
      form := f;
    }

    /** `handleSubmitAssignment`: nothing without a selected lecturer; a
        missing programme or course is reported and nothing is sent;
        otherwise the role data goes to the selected lecturer, and a success
        closes the modal and reloads. */
    method SubmitAssignment(res: Reply<bool>) returns (sent: Option<(int, RoleData)>, alert: Option<string>, reload: bool)
      modifies this`showAssignModal
      ensures selectedLecturer.None? ==> sent.None? && alert.None? && !reload && showAssignModal == old(showAssignModal)
      ensures selectedLecturer.Some? && Missing(form).Some? ==>
                sent.None? && alert == Missing(form) && !reload && showAssignModal == old(showAssignModal)
      ensures sent.Some? <==> selectedLecturer.Some? && Missing(form).None?
      ensures sent.Some? ==> sent.value == (selectedLecturer.value.lecturerId, RoleDataOf(form))
      ensures sent.Some? && res.Success? ==> alert == Some(Assigned) && !showAssignModal && reload
      ensures sent.Some? && res.Failure? ==>
                alert == Some(OrElse(Some(res.message), "Failed to assign role")) && !reload && showAssignModal == old(showAssignModal)
    {
      sent := None;
      alert := None;
      reload := false;
      if selectedLecturer.None? {
        return;
      }
      var roleData := RoleData(form.roleType, form.startDate, if form.endDate == "" then None else Some(form.endDate), None, None);
      if form.roleType == "coordinator" {
        if form.programId == "" {
          alert := Some(ProgramNeeded);
          return;
        }
        roleData := roleData.(programId := Some(ParseIntField(form.programId)));
      } else if form.roleType == "sme" {
        if form.courseId == "" {
          alert := Some(CourseNeeded);
          return;
        }
        roleData := roleData.(courseId := Some(ParseIntField(form.courseId)));
      }
      sent := Some((selectedLecturer.value.lecturerId, roleData));
      if res.Success? {
        alert := Some(Assigned);
        showAssignModal := false;
        reload := true;
      } else {
        alert := Some(OrElse(Some(res.message), "Failed to assign role"));
      }
    }

    /** `handleEndRole`: a request only after confirmation. */
    method EndRole(role: Role, confirmed: bool, res: Reply<bool>) returns (sent: Option<(string, Option<int>)>, alert: Option<string>, reload: bool)
      ensures sent.Some? <==> confirmed
      ensures confirmed ==> sent == Some(EndTarget(role))
      ensures !confirmed ==> alert.None? && !reload
      ensures confirmed && res.Success? ==> reload && alert == Some("Role ended successfully!")
      ensures confirmed && res.Failure? ==> !reload && alert == Some(OrElse(Some(res.message), "Failed to end role"))
    {
      sent := None;
      alert := None;
      reload := false;
      if !confirmed {
        return;
      }
      sent := Some(EndTarget(role));
      if res.Success? {
        alert := Some("Role ended successfully!");
        reload := true;
      } else {
        alert := Some(OrElse(Some(res.message), "Failed to end role"));
      }
    }
  }
}
