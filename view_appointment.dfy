/** The coordinator's appointment list
    (src/module/coordinator/pages/Appointment/ViewAppointment.js): the
    appointments split by status, and the approve/reject popup whose
    confirmation sends the backend's status name and the trimmed notes. */
module ViewAppointment {
  import opened Common
  import opened Api
  import opened ViewAppointmentRequests

  /** `statusMap[action.toLowerCase()] || action.toLowerCase()`: `pending`
      is sent as `scheduled`, every other action lowercased. */
  function ToBackendStatus(action: string): (s: string)
    ensures Lower(action) == "pending" ==> s == "scheduled"
    ensures Lower(action) != "pending" ==> s == Lower(action)
  {
    var l := Lower(action);
    if l == "approved" then "approved"
    else if l == "rejected" then "rejected"
    else if l == "pending" then "scheduled"
    else l
  }

  /** Sending an action and reading the status back gives the lowercased
      action, for every action except one that lowercases to `scheduled`. */
  lemma StatusRoundTrip(action: string)
    requires Lower(action) != "scheduled"
    ensures ToFrontendStatus(ToBackendStatus(action)) == Lower(action)
  {
  }

  /** The three actions of the popup come back as themselves, lowercased. */
  lemma PopupActionsRoundTrip()
    ensures ToFrontendStatus(ToBackendStatus("Pending")) == "pending"
    ensures ToFrontendStatus(ToBackendStatus("Approved")) == "approved"
    ensures ToFrontendStatus(ToBackendStatus("Rejected")) == "rejected"
  {
    LowerPending();
    StatusRoundTrip("Pending");
    LowerApproved();
    StatusRoundTrip("Approved");
    LowerRejected();
    StatusRoundTrip("Rejected");
  }

  lemma LowerPending() ensures Lower("Pending") == "pending" {
    assert "Pending" == ['P'] + "ending";
    LowerCapitalised('P', "ending");
  }

  lemma LowerApproved() ensures Lower("Approved") == "approved" {
    assert "Approved" == ['A'] + "pproved";
    LowerCapitalised('A', "pproved");
  }

  lemma LowerRejected() ensures Lower("Rejected") == "rejected" {
    assert "Rejected" == ['R'] + "ejected";
    LowerCapitalised('R', "ejected");
  }

  /** An action that lowercases to `scheduled` comes back as `pending`. */
  lemma ScheduledComesBackPending()
    ensures ToFrontendStatus(ToBackendStatus("scheduled")) == "pending"
  {
    LowerOfLower("scheduled");
  }

  /** The notes are sent only when not blank, and then trimmed. */
  function NotesToSend(popupNotes: string): (n: Option<string>)
    ensures n.None? <==> IsBlank(popupNotes)
    ensures n.Some? ==> n.value == Trim(popupNotes)
  {
    if Trim(popupNotes) != "" then Some(Trim(popupNotes)) else None
  }

  /** The notes in the PUT body are the trimmed popup notes, or null when
      those are blank. */
  lemma BodyNotes(action: string, popupNotes: string)
    ensures Body(StatusUpdate(ToBackendStatus(action), NotesToSend(popupNotes))).appointmentNotes
            == NotesToSend(popupNotes)
  {
  }

  // ---------------------------------------------------------------------
  // The three lists

  /** One list: the appointments whose lowercased status is `status`, in
      their order. */
  function WithStatus(apps: seq<Appointment>, status: string): (r: seq<Appointment>)
    ensures |r| <= |apps|
    ensures forall a :: a in r <==> a in apps && Lower(a.status) == status
  {
    var hasStatus := (a: Appointment) => Lower(a.status) == status;
    FilterMembersAll(apps, hasStatus);
    Filter(apps, hasStatus)
  }

  /** Each list holds exactly the appointments whose lowercased status is
      its own; the lists are disjoint and any other status is in none. */
  lemma Partition(apps: seq<Appointment>, a: Appointment)
    ensures a in WithStatus(apps, "pending") <==> a in apps && Lower(a.status) == "pending"
    ensures a in WithStatus(apps, "approved") <==> a in apps && Lower(a.status) == "approved"
    ensures a in WithStatus(apps, "rejected") <==> a in apps && Lower(a.status) == "rejected"
    ensures !(a in WithStatus(apps, "pending") && a in WithStatus(apps, "approved"))
    ensures !(a in WithStatus(apps, "pending") && a in WithStatus(apps, "rejected"))
    ensures !(a in WithStatus(apps, "approved") && a in WithStatus(apps, "rejected"))
    ensures Lower(a.status) !in {"pending", "approved", "rejected"} ==>
              a !in WithStatus(apps, "pending") && a !in WithStatus(apps, "approved") && a !in WithStatus(apps, "rejected")
  {
    FilterMembers(apps, (a: Appointment) => Lower(a.status) == "pending", a);
    FilterMembers(apps, (a: Appointment) => Lower(a.status) == "approved", a);
    FilterMembers(apps, (a: Appointment) => Lower(a.status) == "rejected", a);
  }

  /** Together the lists are never longer than the history. */
  lemma PartitionLength(apps: seq<Appointment>)
    ensures |WithStatus(apps, "pending")| + |WithStatus(apps, "approved")| + |WithStatus(apps, "rejected")| <= |apps|
  {
    FilterExclusiveLength(apps,
      (a: Appointment) => Lower(a.status) == "pending",
      (a: Appointment) => Lower(a.status) == "approved",
      (a: Appointment) => Lower(a.status) == "rejected");
  }

  // ---------------------------------------------------------------------
  // The page

  class ViewAppointmentPage {
    var appointments: seq<Appointment>
    var loading: bool
    var selectedApp: Option<Appointment>
    var popupNotes: string
    var popupAction: string
    var showPopup: bool

    constructor ()
      ensures appointments == [] && loading && selectedApp.None?
      ensures popupNotes == "" && popupAction == "" && !showPopup
    {
      appointments := [];
      loading := true;
      selectedApp := None;
      popupNotes := "";
      popupAction := "";
      showPopup := false;
    }

    /** `loadAppointments`: the flag is raised, then a failure empties the
        list; the flag is lowered only when the request returns, and a
        request that throws leaves the list and the spinner as they were. */
    method LoadAppointments(call: Call<HistoryReply>)
      modifies this`appointments, this`loading
      ensures call.Returned? ==> appointments == (if call.reply.success then call.reply.data else [])
      ensures !call.Returned? ==> appointments == old(appointments)
      ensures call.Returned? <==> !loading
    {
      loading := true;
      if !call.Returned? {
        return;
      }
      if call.reply.success {
        appointments := call.reply.data;
      } else {
        appointments := [];
      }
      loading := false;
    }

    /** `handleActionClick`: remembers the appointment and the action,
        clears the notes and opens the popup. */
    method ActionClick(app: Appointment, action: string)
      modifies this`selectedApp, this`popupAction, this`popupNotes, this`showPopup
      ensures selectedApp == Some(app) && popupAction == action && popupNotes == "" && showPopup
    {
      selectedApp := Some(app);
      popupAction := action;
      popupNotes := "";
      showPopup := true;
    }

    method EditNotes(notes: string)
      modifies this`popupNotes
      ensures popupNotes == notes
    {
      popupNotes := notes;
    }

    /** `handleConfirm`: nothing without a selected appointment; otherwise
        the update names the appointment, the backend status of the action
        and the trimmed notes, and a success closes the popup and reloads.
        An update that throws ends the handler without an alert, the popup
        still open. */
    method Confirm(call: Call<Reply<Appointment>>) returns (sent: Option<(int, StatusUpdate)>, alert: Option<string>, reload: bool)
      modifies this`showPopup
      ensures selectedApp.None? ==> sent.None? && alert.None? && !reload && showPopup == old(showPopup)
      ensures selectedApp.Some? ==>
                sent == Some((selectedApp.value.id, StatusUpdate(ToBackendStatus(popupAction), NotesToSend(popupNotes))))
      ensures selectedApp.Some? && call.Returned? && call.reply.Success? ==>
                !showPopup && reload && alert == Some("Appointment " + popupAction + "!")
      ensures selectedApp.Some? && call.Returned? && call.reply.Failure? ==>
                showPopup == old(showPopup) && !reload && alert == Some(OrElse(Some(call.reply.message), "Failed to update"))
      ensures selectedApp.Some? && !call.Returned? ==> showPopup == old(showPopup) && !reload && alert.None?
    {
      sent := None;
      alert := None;
      reload := false;
      if selectedApp.None? {
        return;
      }
      var payload := StatusUpdate(ToBackendStatus(popupAction), None);
      if Trim(popupNotes) != "" {
        payload := payload.(notes := Some(Trim(popupNotes)));
      }
      sent := Some((selectedApp.value.id, payload));
      var outcome := Announce(call, "Appointment " + popupAction + "!", "Failed to update");
      alert, reload := outcome.0, outcome.1;
      if reload {
        showPopup := false;
      }
    }
  }
}
