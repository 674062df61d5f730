/** The coordinator's appointment requests
    (src/module/coordinator/hooks/useViewAppointment.js): the history
    answer translated into the records the pages use, with the backend's
    `scheduled` shown as `pending`, and the body of a status update. */
module ViewAppointmentRequests {
  import opened Common
  import opened Api

  datatype BackendStudent = BackendStudent(studentName: string, studentEmail: string, studentPhone: Option<string>)

  datatype BackendAppointment = BackendAppointment(
    appointmentId: int,
    student: Option<BackendStudent>,
    appointmentStart: int,
    appointmentEnd: int,
    appointmentStatus: string,
    appointmentNotes: Option<string>)

  datatype Student = Student(name: string, email: string, phone: Option<string>)

  datatype Appointment = Appointment(
    id: int,
    student: Option<Student>,
    requestedStart: int,
    requestedEnd: int,
    status: string,
    notes: Option<string>)

  /** The status shown for a backend status: `scheduled` reads `pending`,
      every other one passes through. */
  function ToFrontendStatus(s: string): (r: string)
    ensures s == "scheduled" ==> r == "pending"
    ensures s != "scheduled" ==> r == s
  {
    if s == "scheduled" then "pending" else s
  }

  /** One record renamed field by field; a missing student stays null. */
  function Transform(b: BackendAppointment): (a: Appointment)
    ensures a.id == b.appointmentId && a.requestedStart == b.appointmentStart && a.requestedEnd == b.appointmentEnd
    ensures a.notes == b.appointmentNotes && a.status == ToFrontendStatus(b.appointmentStatus)
    ensures a.student.None? <==> b.student.None?
    ensures b.student.Some? ==> a.student == Some(Student(b.student.value.studentName,
                                                          b.student.value.studentEmail,
                                                          b.student.value.studentPhone))
  {
    Appointment(
      b.appointmentId,
      match b.student
        case None => None
        case Some(s) => Some(Student(s.studentName, s.studentEmail, s.studentPhone)),
      b.appointmentStart,
      b.appointmentEnd,
      ToFrontendStatus(b.appointmentStatus),
      b.appointmentNotes)
  }

  /** `(result.appointments || []).map(...)`: same length and order, and []
      when the answer has no list. */
  function TransformAll(list: Option<seq<BackendAppointment>>): (r: seq<Appointment>)
    ensures |r| == |list.GetOr([])|
    ensures forall i :: 0 <= i < |r| ==> r[i] == Transform(list.value[i])
  {
    var xs := list.GetOr([]);
    seq(|xs|, i requires 0 <= i < |xs| => Transform(xs[i]))
  }

  /** No translated appointment is `scheduled`. */
  lemma NoneShownScheduled(list: Option<seq<BackendAppointment>>)
    ensures forall a :: a in TransformAll(list) ==> a.status != "scheduled"
  {
    var r := TransformAll(list);
    forall a | a in r ensures a.status != "scheduled" {
      var i :| 0 <= i < |r| && r[i] == a;
      assert a.status == ToFrontendStatus(list.value[i].appointmentStatus);
    }
  }

  datatype HistoryReply = HistoryReply(success: bool, data: seq<Appointment>)

  /** `getAppointmentHistory`: no token means no request; a non-ok answer
      gives an empty failure; a request that throws rejects the call,
      since the wrapper has no `try`/`catch`. */
  function GetAppointmentHistory(token: Option<string>, answer: Http<Option<seq<BackendAppointment>>>): (r: (bool, Call<HistoryReply>))
    ensures r.0 <==> HasToken(token)
    ensures r.1.Returned? <==> !(HasToken(token) && answer.Thrown?)
    ensures r.1.Returned? ==> (r.1.reply.success <==> HasToken(token) && answer.Ok?)
    ensures r.1.Returned? && !r.1.reply.success ==> r.1.reply.data == []
    ensures r.1.Returned? && r.1.reply.success ==> r.1.reply.data == TransformAll(answer.body)
  {
    if !HasToken(token) then (false, Returned(HistoryReply(false, [])))
    else match answer
      case Ok(list) => (true, Returned(HistoryReply(true, TransformAll(list))))
      case NotOk(_) => (true, Returned(HistoryReply(false, [])))
      case Thrown(_) => (true, Rejected)
  }

  /** What the page hands to `updateAppointmentStatus`. */
  datatype StatusUpdate = StatusUpdate(status: string, notes: Option<string>)

  datatype UpdateBody = UpdateBody(appointmentStatus: string, appointmentNotes: Option<string>)

  /** The PUT body: the status as given, and the notes, or null when they
      are missing or empty. */
  function Body(payload: StatusUpdate): (b: UpdateBody)
    ensures b.appointmentStatus == payload.status
    ensures b.appointmentNotes.None? <==> payload.notes.None? || payload.notes.value == ""
    ensures b.appointmentNotes.Some? ==> b.appointmentNotes == payload.notes
  {
    UpdateBody(payload.status, if payload.notes.Some? && payload.notes.value != "" then payload.notes else None)
  }

  datatype UpdateRequest = UpdateRequest(appointmentId: int, body: UpdateBody)

  /** `updateAppointmentStatus`: no token means no request; a non-ok answer
      gives the server's error or "Server error"; a request that throws
      rejects the call. */
  function UpdateAppointmentStatus(token: Option<string>, appointmentId: int, payload: StatusUpdate, answer: Http<Appointment>)
    : (r: (Option<UpdateRequest>, Call<Reply<Appointment>>))
    ensures r.0.None? <==> !HasToken(token)
    ensures !HasToken(token) ==> r.1 == Returned(Failure("User not authenticated"))
    ensures r.0.Some? ==> r.0.value == UpdateRequest(appointmentId, Body(payload))
    ensures HasToken(token) && answer.Ok? ==> r.1 == Returned(Success(answer.body))
    ensures HasToken(token) && answer.NotOk? ==> r.1 == Returned(Failure(OrElse(answer.error, "Server error")))
    ensures HasToken(token) && answer.Thrown? ==> r.1 == Rejected
  {
    if !HasToken(token) then (None, Returned(Failure("User not authenticated")))
    else
      var reply := match answer
        case Ok(a) => Returned(Success(a))
        case NotOk(e) => Returned(Failure(OrElse(e, "Server error")))
        case Thrown(_) => Rejected;
      (Some(UpdateRequest(appointmentId, Body(payload))), reply)
  }
}
