/** The administrator's lecturer form
    (src/module/admin/pages/CreateLecturer.js): the administrator's own
    campus found by e-mail among the lecturers, and the create request,
    which always uses that campus and carries no role. */
module CreateLecturer {
  import opened Common
  import opened Api

  /** An entry of `/admin/lecturers`: its e-mail, its campus id (absent or 0
      when unknown) and the included campus's name. */
  datatype LecturerRecord = LecturerRecord(lecturerEmail: string, campusId: Option<int>, campusName: Option<string>)

  /** `lecturers?.find(l => l.lecturer_email === user.email)`: the first
      lecturer with the stored user's e-mail. */
  function FindAdmin(lecturers: Option<seq<LecturerRecord>>, email: string): (r: Option<LecturerRecord>)
    ensures lecturers.None? ==> r.None?
    ensures lecturers.Some? ==>
              (r.None? <==> forall k :: 0 <= k < |lecturers.value| ==> lecturers.value[k].lecturerEmail != email)
    ensures r.Some? ==> exists k :: 0 <= k < |lecturers.value| && lecturers.value[k] == r.value
                                    && r.value.lecturerEmail == email
                                    && forall j :: 0 <= j < k ==> lecturers.value[j].lecturerEmail != email
  {
    if lecturers.None? then None else FirstWithEmail(lecturers.value, email)
  }

  function FirstWithEmail(list: seq<LecturerRecord>, email: string): (r: Option<LecturerRecord>)
    ensures r.None? <==> forall k :: 0 <= k < |list| ==> list[k].lecturerEmail != email
    ensures r.Some? ==> exists k :: 0 <= k < |list| && list[k] == r.value && r.value.lecturerEmail == email
                                    && forall j :: 0 <= j < k ==> list[j].lecturerEmail != email
  {
    if list == [] then None
    else if list[0].lecturerEmail == email then Some(list[0])
    else
      var r := FirstWithEmail(list[1..], email);
      assert forall k :: 1 <= k < |list| ==> list[k] == list[1..][k - 1];
      if r.Some? then
        ghost var k :| 0 <= k < |list[1..]| && list[1..][k] == r.value && r.value.lecturerEmail == email
                       && forall j :: 0 <= j < k ==> list[1..][j].lecturerEmail != email;
        assert list[k + 1] == r.value;
        r
      else r
  }

  /** The campus the page settles on: the administrator's own, when that
      lecturer is found and has a (non-zero) campus. */
  function AdminCampus(lecturers: Option<seq<LecturerRecord>>, email: string): (c: Option<int>)
    ensures c.Some? ==> c.value != 0
    ensures c.Some? <==> FindAdmin(lecturers, email).Some? && FindAdmin(lecturers, email).value.campusId.Some?
                         && FindAdmin(lecturers, email).value.campusId.value != 0
    ensures c.Some? ==> c == FindAdmin(lecturers, email).value.campusId
  {
    var admin := FindAdmin(lecturers, email);
    if admin.Some? && admin.value.campusId.Some? && admin.value.campusId.value != 0 then admin.value.campusId else None
  }

  /** Another lecturer listed before the administrator with a different
      e-mail does not change the campus. */
  lemma AdminCampusIgnoresOthers(other: LecturerRecord, rest: seq<LecturerRecord>, email: string)
    requires other.lecturerEmail != email
    ensures AdminCampus(Some([other] + rest), email) == AdminCampus(Some(rest), email)
  {
    assert ([other] + rest)[1..] == rest;
  }

  /** `data.lecturers?.find(l => l.lecturer_email === user.email)` reads
      `user.email` only once it tests a lecturer, which throws when no user
      is stored. */
  predicate LookupThrows(lecturers: Option<seq<LecturerRecord>>, storedEmail: Option<string>) {
    storedEmail.None? && lecturers.Some? && |lecturers.value| > 0
  }

  datatype LecturerForm = LecturerForm(name: string, email: string, password: string, isAdmin: bool)

  const BlankForm := LecturerForm("", "", "", false)

  /** The create body: the form's texts and flag with the administrator's
      campus; there is no role field. */
  datatype LecturerPayload = LecturerPayload(name: string, email: string, password: string, campusId: int, isAdmin: bool)

  const RequiredAlert := "Please fill in all required fields"
  const CampusAlert := "Unable to determine your campus. Please contact support."
  const LoadErrorAlert := "Error loading admin data. Please refresh the page."
  const CreatedAlert := "Lecturer created successfully!"

  class CreateLecturerPage {
    var adminCampusId: Option<int>
    var adminCampusName: string
    var form: LecturerForm
    var loading: bool
    var submitting: bool

    constructor ()
      ensures adminCampusId.None? && adminCampusName == "" && form == BlankForm && !loading && !submitting
    {
      adminCampusId := None;
      adminCampusName := "";
      form := BlankForm;
      loading := false;
      submitting := false;
    }

    /** `loadAdminData`: on an ok answer, the campus of the lecturer whose
        e-mail is the stored user's; an unknown campus is reported and left
        unset. Without a stored user, `find` throws as soon as it tests a
        lecturer, which is reported as a load error, as is a failed request;
        with no lecturer to test nothing throws and the campus is unknown. */
    method LoadAdminData(answer: Http<Option<seq<LecturerRecord>>>, storedEmail: Option<string>) returns (alert: Option<string>)
      modifies this`adminCampusId, this`adminCampusName, this`loading
      ensures !loading
      ensures answer.Thrown? || (answer.Ok? && LookupThrows(answer.body, storedEmail)) ==>
                alert == Some(LoadErrorAlert) && adminCampusId == old(adminCampusId) && adminCampusName == old(adminCampusName)
      ensures answer.Ok? && storedEmail.None? && !LookupThrows(answer.body, storedEmail) ==>
                alert == Some(CampusAlert) && adminCampusId == old(adminCampusId) && adminCampusName == old(adminCampusName)
      ensures answer.NotOk? ==> alert.None? && adminCampusId == old(adminCampusId) && adminCampusName == old(adminCampusName)
      ensures answer.Ok? && storedEmail.Some? ==>
                var admin := FindAdmin(answer.body, storedEmail.value);
                var campus := AdminCampus(answer.body, storedEmail.value);
                (campus.Some? ==> alert.None? && adminCampusId == campus
                                  && adminCampusName == OrElse(admin.value.campusName, "Unknown Campus"))
                && (campus.None? ==> alert == Some(CampusAlert) && adminCampusId == old(adminCampusId)
                                     && adminCampusName == old(adminCampusName))
    {
      loading := true;
      alert := None;
      match answer {
        case Thrown(_) =>
          alert := Some(LoadErrorAlert);
        case NotOk(_) =>
        case Ok(lecturers) =>
          if LookupThrows(lecturers, storedEmail) {
            alert := Some(LoadErrorAlert);
          } else if storedEmail.None? {
            alert := Some(CampusAlert);
          } else {
            var admin := FindAdmin(lecturers, storedEmail.value);
            if admin.Some? && admin.value.campusId.Some? && admin.value.campusId.value != 0 {
              adminCampusId := admin.value.campusId;
              adminCampusName := OrElse(admin.value.campusName, "Unknown Campus");
            } else {
              alert := Some(CampusAlert);
            }
          }
      }
      loading := false;
    }

    method EditForm(f: LecturerForm)
      modifies this`form
      ensures form == f
    {
      form := f;
    }

    /** `handleSubmit`: an empty name, e-mail or password is refused first,
        then an unknown campus; otherwise the lecturer is created on the
        administrator's campus and a success empties the form. */
    method Submit(res: Reply<bool>) returns (sent: Option<LecturerPayload>, alert: string)
      modifies this`form, this`submitting
      ensures old(form).name == "" || old(form).email == "" || old(form).password == "" ==>
                sent.None? && alert == RequiredAlert && form == old(form) && submitting == old(submitting)
      ensures old(form).name != "" && old(form).email != "" && old(form).password != ""
              && (adminCampusId.None? || adminCampusId.value == 0) ==>
                sent.None? && alert == CampusAlert && form == old(form) && submitting == old(submitting)
      ensures sent.Some? <==> old(form).name != "" && old(form).email != "" && old(form).password != ""
                              && adminCampusId.Some? && adminCampusId.value != 0
      ensures sent.Some? ==>
                sent.value == LecturerPayload(old(form).name, old(form).email, old(form).password,
                                              adminCampusId.value, old(form).isAdmin)
                && !submitting
      ensures sent.Some? && res.Success? ==> alert == CreatedAlert && form == BlankForm
      ensures sent.Some? && res.Failure? ==>
                alert == OrElse(Some(res.message), "Failed to create lecturer") && form == old(form)
    {
      sent := None;
      if form.name == "" || form.email == "" || form.password == "" {
        alert := RequiredAlert;
        return;
      }
      if adminCampusId.None? || adminCampusId.value == 0 {
        alert := CampusAlert;
        return;
      }
      submitting := true;
      sent := Some(LecturerPayload(form.name, form.email, form.password, adminCampusId.value, form.isAdmin));
      if res.Success? {
        alert := CreatedAlert;
        form := BlankForm;
      } else {
        alert := OrElse(Some(res.message), "Failed to create lecturer");
      }
      submitting := false;
    }
  }
}
