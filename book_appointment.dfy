/** The student's appointment booking
    (src/module/student/pages/Appointment/BookAppointment.js): the booking
    form with its two guards and the 30-minute slot, the history shown
    pending first, and cancellation of a pending appointment. Instants are
    integers in milliseconds; turning the form's date and time into one is
    a `Date` call and arrives as a parameter. */
module BookAppointment {
  import opened Common
  import opened Api
  import Sorting

  datatype Appointment = Appointment(id: int, coordinatorName: string, requestedStart: int, status: string, notes: Option<string>)

  datatype Coordinator = Coordinator(id: int, name: string)

  datatype Form = Form(coordinatorId: string, date: string, time: string)

  const EmptyForm := Form("", "", "")

  datatype FormField = CoordinatorIdField | DateField | TimeField

  /** `handleChange`: the named field takes the input's value, the others
      keep theirs. */
  function WithField(f: Form, field: FormField, value: string): (r: Form)
    ensures field == CoordinatorIdField ==> r == f.(coordinatorId := value)
    ensures field == DateField ==> r == f.(date := value)
    ensures field == TimeField ==> r == f.(time := value)
  {
    match field
    case CoordinatorIdField => f.(coordinatorId := value)
    case DateField => f.(date := value)
    case TimeField => f.(time := value)
  }

  /** The status compared case-insensitively with `pending`. */
  predicate IsPending(status: string) {
    Lower(status) == "pending"
  }

  /** Some appointment of the history is still pending. */
  predicate HasPending(apps: seq<Appointment>) {
    exists k :: 0 <= k < |apps| && IsPending(apps[k].status)
  }

  /** All three inputs are filled in. */
  predicate Complete(f: Form) {
    f.coordinatorId != "" && f.date != "" && f.time != ""
  }

  const PendingAlert := "You already have a pending appointment. Please wait for it or cancel before booking a new one."
  const IncompleteAlert := "Please select a coordinator, date, and time."

  /** Thirty minutes in milliseconds. */
  const SlotLength := 30 * 60000

  datatype BookingPayload = BookingPayload(coordinatorId: IntField, requestedStart: int, requestedEnd: int)

  /** A pending appointment blocks booking, whatever is added after it. */
  lemma PendingBlocksBooking(apps: seq<Appointment>, more: seq<Appointment>)
    requires HasPending(apps)
    ensures HasPending(apps + more)
  {
    var k :| 0 <= k < |apps| && IsPending(apps[k].status);
    assert (apps + more)[k] == apps[k];
  }

  /** The status is compared after lowercasing: any capitalisation of
      `pending` blocks booking. */
  lemma PendingIgnoresCase(a: Appointment)
    requires Lower(a.status) == Lower("PENDING")
    ensures HasPending([a])
  {
    PendingIsLowerCase();
    assert [a][0] == a;
  }

  lemma PendingIsLowerCase()
    ensures Lower("PENDING") == "pending"
  {
  }

  // ---------------------------------------------------------------------
  // Display order

  /** The sort key: `{ pending: 1, rejected: 2, cancelled: 3 }` on the
      lowercased status, 99 for any other. */
  function Rank(status: string): (r: int)
    ensures r in {1, 2, 3, 99}
    ensures r == 1 <==> IsPending(status)
    ensures r == 99 <==> Lower(status) !in {"pending", "rejected", "cancelled"}
  {
    var s := Lower(status);
    if s == "pending" then 1 else if s == "rejected" then 2 else if s == "cancelled" then 3 else 99
  }

  /** The comparator `order[a.status] - order[b.status]` compares this
      key. */
  function RankKey(a: Appointment): int {
    Rank(a.status)
  }

  /** The history as shown: a sorted copy of the list, ranked by status,
      with appointments of equal rank in history order; the list itself is
      left alone. */
  method DisplayOrder(apps: seq<Appointment>) returns (shown: seq<Appointment>)
    ensures shown == Sorting.StableSort(apps, RankKey)
    ensures forall p, q :: 0 <= p < q < |shown| ==> Rank(shown[p].status) <= Rank(shown[q].status)
    ensures multiset(shown) == multiset(apps)
    ensures forall r :: Sorting.KeyClass(shown, RankKey, r) == Sorting.KeyClass(apps, RankKey, r)
  {
    var a := new Appointment[|apps|](i requires 0 <= i < |apps| => apps[i]);
    assert a[..] == apps;
    Sorting.InsertionSortBy(a, RankKey);
    shown := a[..];
  }

  /** The cancel button is offered exactly for pending appointments. */
  predicate CancelOffered(a: Appointment) {
    IsPending(a.status)
  }

  /** In the shown order every appointment with a cancel button comes
      before every one without. */
  lemma PendingShownFirst(shown: seq<Appointment>, p: int, q: int)
    requires forall i, j :: 0 <= i < j < |shown| ==> Rank(shown[i].status) <= Rank(shown[j].status)
    requires 0 <= p < q < |shown| && CancelOffered(shown[q])
    ensures CancelOffered(shown[p])
  {
    assert Rank(shown[p].status) <= Rank(shown[q].status) == 1;
  }

  /** What the student's `useAppointment.js` exports. */
  const StudentAppointmentExports: set<string> := {"createAppointment", "getAppointmentHistory", "getCoordinators"}

  /** The page imports `cancelAppointment` from that module, which does not
      export it: cancelling throws, whatever the server would have
      answered, while booking and the two loads reach their functions. */
  lemma CancelCallThrows<A, B>(cancel: A, book: B)
    ensures Invoke(StudentAppointmentExports, "cancelAppointment", cancel).NotAFunction?
    ensures Invoke(StudentAppointmentExports, "createAppointment", book) == Returned(book)
  {
  }

  class BookAppointmentPage {
    var appointments: seq<Appointment>
    var loadingHistory: bool
    var coordinators: seq<Coordinator>
    var form: Form

    constructor ()
      ensures appointments == [] && loadingHistory && coordinators == [] && form == EmptyForm
    {
      appointments := [];
      loadingHistory := true;
      coordinators := [];
      form := EmptyForm;
    }

    /** `loadHistory`: the flag is raised, then a failure empties the
        history; the flag is lowered only when the request returns, and a
        request that throws leaves the history and the spinner as they
        were. */
    method LoadHistory(call: Call<Reply<seq<Appointment>>>)
      modifies this`appointments, this`loadingHistory
      ensures call.Returned? ==> appointments == (if call.reply.Success? then call.reply.data else [])
      ensures call.Returned? <==> !loadingHistory
      ensures !call.Returned? ==> appointments == old(appointments)
    {
      loadingHistory := true;
      if !call.Returned? {
        return;
      }
      if call.reply.Success? {
        appointments := call.reply.data;
      } else {
        appointments := [];
      }
      loadingHistory := false;
    }

    /** `loadCoordinators`: a failure keeps the list. */
    method LoadCoordinators(res: Reply<seq<Coordinator>>)
      modifies this`coordinators
      ensures coordinators == (if res.Success? then res.data else old(coordinators))
    {
      if res.Success? {
        coordinators := res.data;
      }
    }

    method HandleChange(field: FormField, value: string)
      modifies this`form
      ensures form == WithField(old(form), field, value)
    {
      form := WithField(form, field, value);
    }

    /** `handleSubmit`: a pending appointment refuses first, then an
        incomplete form; otherwise the request asks for the parsed
        coordinator from `start` for thirty minutes, and a success empties
        the form and reloads the history. A request that throws ends the
        handler without an alert. */
    method Submit(start: int, call: Call<Reply<bool>>) returns (payload: Option<BookingPayload>, alert: Option<string>, reload: bool)
      modifies this`form
      ensures HasPending(appointments) ==>
                payload.None? && !reload && alert == Some(PendingAlert)
      ensures !HasPending(appointments) && !Complete(old(form)) ==>
                payload.None? && !reload && alert == Some(IncompleteAlert)
      ensures payload.Some? <==> !HasPending(appointments) && Complete(old(form))
      ensures payload.Some? ==>
                payload.value == BookingPayload(ParseIntField(old(form).coordinatorId), start, start + SlotLength)
      ensures payload.Some? && !call.Returned? ==> alert.None?
      ensures payload.Some? && call.Returned? && call.reply.Success? ==>
                form == EmptyForm && reload && alert == Some("Appointment booked!")
      ensures !(payload.Some? && call.Returned? && call.reply.Success?) ==> form == old(form) && !reload
      ensures payload.Some? && call.Returned? && call.reply.Failure? ==>
                alert == Some(OrElse(Some(call.reply.message), "Failed to book appointment"))
    {
      payload := None;
      reload := false;
      if HasPending(appointments) {
        alert := Some(PendingAlert);
        return;
      }
      if form.coordinatorId == "" || form.date == "" || form.time == "" {
        alert := Some(IncompleteAlert);
        return;
      }
      var end := start + 30 * 60000;
      payload := Some(BookingPayload(ParseIntField(form.coordinatorId), start, end));
      var outcome := Announce(call, "Appointment booked!", "Failed to book appointment");
      alert, reload := outcome.0, outcome.1;
      if reload {
        form := EmptyForm;
      }
    }

    /** `handleCancel`: a call to `cancelAppointment` only after
        confirmation; a call that throws ends the handler there. */
    method Cancel(id: int, confirmed: bool, call: Call<Reply<bool>>) returns (requested: Option<int>, alert: Option<string>, reload: bool)
      ensures requested.Some? <==> confirmed
      ensures confirmed ==> requested == Some(id)
      ensures !confirmed || !call.Returned? ==> alert.None? && !reload
      ensures confirmed && call.Returned? && call.reply.Success? ==> reload && alert == Some("Appointment cancelled!")
      ensures confirmed && call.Returned? && call.reply.Failure? ==>
                !reload && alert == Some(OrElse(Some(call.reply.message), "Failed to cancel appointment"))
    {
      requested, alert, reload := None, None, false;
      if confirmed {
        requested := Some(id);
        var outcome := Announce(call, "Appointment cancelled!", "Failed to cancel appointment");
        alert, reload := outcome.0, outcome.1;
      }
    }
  }
}
