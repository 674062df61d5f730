/** The coordinator's review of one credit-transfer application
    (src/module/coordinator/pages/CTApplication/ReviewApplication.js): which
    application the route names, when the Template3 check is offered, the
    review summary counts, the status labels, and the page's maps of check
    results, SME notes, SME selections and cached SME lists. */
module ReviewApplication {
  import opened Common
  import opened Api
  import ReviewRequests

  datatype PastSubject = PastSubject(pastSubjectId: int, approvalStatus: Option<string>)

  /** A course of the current programme with the past subjects mapped to
      it; `courseId` is missing when the course record is. */
  datatype CurrentSubject = CurrentSubject(
    applicationSubjectId: int,
    courseId: Option<int>,
    pastApplicationSubjects: Option<seq<PastSubject>>)

  datatype CtApplication = CtApplication(ctId: int, newApplicationSubjects: Option<seq<CurrentSubject>>)

  // ---------------------------------------------------------------------
  // The application named by the route

  function FindFirst(apps: seq<CtApplication>, id: int): (r: Option<CtApplication>)
    ensures r.Some? ==> r.value.ctId == id &&
                        exists i :: 0 <= i < |apps| && apps[i] == r.value &&
                                    forall j :: 0 <= j < i ==> apps[j].ctId != id
    ensures r.None? <==> forall i :: 0 <= i < |apps| ==> apps[i].ctId != id
  {
    if apps == [] then None
    else if apps[0].ctId == id then Some(apps[0])
    else
      var r := FindFirst(apps[1..], id);
      assert r.Some? ==> exists i :: 0 <= i < |apps| && apps[i] == r.value &&
                                     forall j :: 0 <= j < i ==> apps[j].ctId != id by {
        if r.Some? {
          var i :| 0 <= i < |apps[1..]| && apps[1..][i] == r.value &&
                   forall j :: 0 <= j < i ==> apps[1..][j].ctId != id;
          assert apps[i + 1] == r.value;
          assert forall j :: 0 <= j < i + 1 ==> apps[j].ctId != id by {
            forall j | 0 <= j < i + 1 ensures apps[j].ctId != id {
              if j > 0 { assert apps[j] == apps[1..][j - 1]; }
            }
          }
        }
      }
      assert r.None? ==> forall i :: 0 <= i < |apps| ==> apps[i].ctId != id by {
        if r.None? {
          forall i | 0 <= i < |apps| ensures apps[i].ctId != id {
            if i > 0 { assert apps[i] == apps[1..][i - 1]; }
          }
        }
      }
      r
  }

  /** The first listed application whose `ct_id` equals the route id read
      by `parseInt`; none when the route id does not parse, since nothing
      equals NaN. */
  function FindApplication(apps: seq<CtApplication>, routeId: string): (r: Option<CtApplication>)
    ensures ParseInt(routeId).None? ==> r.None?
    ensures ParseInt(routeId).Some? ==> r == FindFirst(apps, ParseInt(routeId).value)
  {
    match ParseInt(routeId)
    case None => None
    case Some(n) => FindFirst(apps, n)
  }

  /** A route built from an application's id finds an application with that
      id, the first such in the list. */
  lemma FindApplicationByRoute(apps: seq<CtApplication>, k: int)
    requires 0 <= k < |apps|
    ensures FindApplication(apps, IntToString(apps[k].ctId)).Some?
    ensures FindApplication(apps, IntToString(apps[k].ctId)).value.ctId == apps[k].ctId
  {
    ParseIntOfIntToString(apps[k].ctId);
  }

  // ---------------------------------------------------------------------
  // The Template3 check button

  function AnyPending(ps: seq<PastSubject>): bool {
    if ps == [] then false else ps[0].approvalStatus == Some("pending") || AnyPending(ps[1..])
  }

  /** "Check Template3 for All" is shown iff some past subject of the course
      has the status exactly `pending`; a course without its list shows no
      button. */
  function HasPendingSubjects(s: CurrentSubject): (r: bool)
    ensures r <==> s.pastApplicationSubjects.Some? &&
                   exists k :: 0 <= k < |s.pastApplicationSubjects.value| &&
                               s.pastApplicationSubjects.value[k].approvalStatus == Some("pending")
  {
    s.pastApplicationSubjects.Some? && HasPendingEntry(s.pastApplicationSubjects.value)
  }

  /** `AnyPending` is the `some` of the list. */
  function HasPendingEntry(ps: seq<PastSubject>): (r: bool)
    ensures r <==> exists k :: 0 <= k < |ps| && ps[k].approvalStatus == Some("pending")
  {
    AnyPendingIff(ps);
    AnyPending(ps)
  }

  lemma {:induction false} AnyPendingIff(ps: seq<PastSubject>)
    ensures AnyPending(ps) <==> exists k :: 0 <= k < |ps| && ps[k].approvalStatus == Some("pending")
  {
    if ps != [] {
      AnyPendingIff(ps[1..]);
      if AnyPending(ps[1..]) {
        var k :| 0 <= k < |ps[1..]| && ps[1..][k].approvalStatus == Some("pending");
        assert ps[k + 1] == ps[1..][k];
      }
      if exists k :: 0 <= k < |ps| && ps[k].approvalStatus == Some("pending") {
        var k :| 0 <= k < |ps| && ps[k].approvalStatus == Some("pending");
        if k > 0 { assert ps[1..][k - 1] == ps[k]; }
      }
    }
  }

  /** The comparison is exact: a status spelled with capitals does not
      count as pending. */
  lemma PendingIsCaseSensitive(id: int, pid: int)
    ensures !HasPendingSubjects(CurrentSubject(id, None, Some([PastSubject(pid, Some("Pending"))])))
  {
    var ps := [PastSubject(pid, Some("Pending"))];
    assert ps[0].approvalStatus != Some("pending");
  }

  // ---------------------------------------------------------------------
  // Review summary

  datatype Summary = Summary(total: nat, pending: nat, approved: nat, awaitingSme: nat)

  /** `filter(ps => ps.approval_status === status)`: exact comparison. */
  function WithStatus(ps: seq<PastSubject>, status: string): (r: seq<PastSubject>)
    ensures |r| <= |ps|
    ensures forall p :: p in r <==> p in ps && p.approvalStatus == Some(status)
  {
    var hasStatus := (p: PastSubject) => p.approvalStatus == Some(status);
    FilterMembersAll(ps, hasStatus);
    Filter(ps, hasStatus)
  }

  /** One course's contribution: a missing list counts as 0 everywhere. */
  function SubjectSummary(s: CurrentSubject): Summary {
    var ps := s.pastApplicationSubjects.GetOr([]);
    Summary(|ps|, |WithStatus(ps, "pending")|, |WithStatus(ps, "approved_template3")|,
            |WithStatus(ps, "needs_sme_review")|)
  }

  function Add(a: Summary, b: Summary): Summary {
    Summary(a.total + b.total, a.pending + b.pending, a.approved + b.approved, a.awaitingSme + b.awaitingSme)
  }

  function SummaryOf(subjects: seq<CurrentSubject>): Summary {
    if subjects == [] then Summary(0, 0, 0, 0)
    else Add(SubjectSummary(subjects[0]), SummaryOf(subjects[1..]))
  }

  /** The "Review Summary" block: nothing when the application has no list
      of courses, otherwise the four sums over all courses. */
  function ReviewSummary(app: CtApplication): (r: Option<Summary>)
    ensures r.None? <==> app.newApplicationSubjects.None?
    ensures r.Some? ==> r.value.pending + r.value.approved + r.value.awaitingSme <= r.value.total
  {
    match app.newApplicationSubjects
    case None => None
    case Some(subjects) =>
      SummaryBounded(subjects);
      Some(SummaryOf(subjects))
  }

  /** Each past subject is counted in at most one of the three status
      counts, so they never add up to more than the total. */
  lemma {:induction false} SummaryBounded(subjects: seq<CurrentSubject>)
    ensures var t := SummaryOf(subjects); t.pending + t.approved + t.awaitingSme <= t.total
  {
    if subjects != [] {
      SummaryBounded(subjects[1..]);
      var ps := subjects[0].pastApplicationSubjects.GetOr([]);
      FilterExclusiveLength(ps,
        (p: PastSubject) => p.approvalStatus == Some("pending"),
        (p: PastSubject) => p.approvalStatus == Some("approved_template3"),
        (p: PastSubject) => p.approvalStatus == Some("needs_sme_review"));
    }
  }

  /** The summary of several courses is the sum of their summaries. */
  lemma {:induction false} SummaryOfConcat(a: seq<CurrentSubject>, b: seq<CurrentSubject>)
    ensures SummaryOf(a + b) == Add(SummaryOf(a), SummaryOf(b))
  {
    if a != [] {
      assert (a + b)[1..] == a[1..] + b;
      SummaryOfConcat(a[1..], b);
    } else {
      assert a + b == b;
    }
  }

  // ---------------------------------------------------------------------
  // Status labels

  predicate KnownLabel(status: string) {
    status in {"pending", "approved_template3", "needs_sme_review", "sme_approved", "sme_rejected"}
  }

  /** `getStatusColor`: five keys, gray for anything else (a missing status
      too). */
  function StatusColor(status: Option<string>): (c: string)
    ensures status.None? || !KnownLabel(status.value) ==> c == "bg-gray-100 text-gray-800"
    ensures status.Some? && KnownLabel(status.value) ==> c != "bg-gray-100 text-gray-800"
  {
    match status
    case Some("pending") => "bg-yellow-100 text-yellow-800"
    case Some("approved_template3") => "bg-green-100 text-green-800"
    case Some("needs_sme_review") => "bg-orange-100 text-orange-800"
    case Some("sme_approved") => "bg-blue-100 text-blue-800"
    case Some("sme_rejected") => "bg-red-100 text-red-800"
    case _ => "bg-gray-100 text-gray-800"
  }

  /** `getStatusText`: five labels, and the status itself for anything else
      (a missing status stays missing). */
  function StatusText(status: Option<string>): (t: Option<string>)
    ensures status.None? ==> t.None?
    ensures status.Some? && !KnownLabel(status.value) ==> t == status
    ensures status.Some? && KnownLabel(status.value) ==> t.Some? && t != status
  {
    match status
    case Some("pending") => Some("Pending Review")
    case Some("approved_template3") => Some("✓ Approved (Template3)")
    case Some("needs_sme_review") => Some("⚠ Awaiting SME")
    case Some("sme_approved") => Some("✓ SME Approved")
    case Some("sme_rejected") => Some("✗ SME Rejected")
    case _ => status
  }

  /** The backend's names for an SME decision are not among the labels'
      keys, so they are shown raw and gray. */
  lemma SmeDecisionsShownRaw()
    ensures StatusText(Some("approved_sme")) == Some("approved_sme")
    ensures StatusText(Some("rejected")) == Some("rejected")
    ensures StatusColor(Some("approved_sme")) == "bg-gray-100 text-gray-800"
  {
    assert !KnownLabel("approved_sme") && !KnownLabel("rejected");
  }

  // ---------------------------------------------------------------------
  // The page

  /** What "Check Template3 for All" answers for one course. */
  datatype CheckResult = CheckResult(allMatch: bool, someMatch: bool, matchedCount: int, totalSubjects: int)

  datatype Sme = Sme(smeId: int, lecturerName: Option<string>)

  /** The notes typed for a course, "" when none. */
  function NotesFor(smeNotes: map<int, string>, id: int): (n: string)
    ensures id !in smeNotes ==> n == ""
    ensures id in smeNotes ==> n == smeNotes[id]
  {
    if id in smeNotes then smeNotes[id] else ""
  }

  /** "Approve All" is shown when the course's check result has `allMatch`. */
  predicate ApproveAllOffered(results: map<int, CheckResult>, id: int) {
    id in results && results[id].allMatch
  }

  /** The SME list of a course was already fetched (an empty list counts:
      an array is truthy). */
  predicate Cached(availableSmes: map<int, seq<Sme>>, courseId: int) {
    courseId in availableSmes
  }

  /** The page imports `getSMEsForCourse`, which the request module does
      not export: loading a course's SME list throws whatever the server
      would have answered, while the subject actions reach their
      functions. */
  lemma SmeCallThrows<T>(reply: T)
    ensures Invoke(ReviewRequests.ReviewHookExports, "getSMEsForCourse", reply).NotAFunction?
    ensures Invoke(ReviewRequests.ReviewHookExports, "checkTemplate3ForCurrentSubject", reply) == Returned(reply)
    ensures Invoke(ReviewRequests.ReviewHookExports, "approveAllViaTemplate3", reply) == Returned(reply)
    ensures Invoke(ReviewRequests.ReviewHookExports, "sendAllToSME", reply) == Returned(reply)
  {
  }

  class ReviewApplicationPage {
    const routeId: string
    var application: Option<CtApplication>
    var loading: bool
    var processingSubject: Option<int>
    var currentSubjectResults: map<int, CheckResult>
    var smeNotes: map<int, string>
    var selectedSmes: map<int, Option<string>>
    var availableSmes: map<int, seq<Sme>>
    var loadingSmes: map<int, bool>

    /** No request is in flight: no course is being processed and no SME
        list is loading. */
    predicate Idle()
      reads this
    {
      processingSubject.None? && forall c :: c in loadingSmes ==> !loadingSmes[c]
    }

    constructor (routeId: string)
      ensures this.routeId == routeId
      ensures application.None? && loading
      ensures processingSubject.None?
      ensures currentSubjectResults == map[] && smeNotes == map[] && selectedSmes == map[]
      ensures availableSmes == map[] && loadingSmes == map[]
      ensures Idle()
    {
      this.routeId := routeId;
      application := None;
      loading := true;
      processingSubject := None;
      currentSubjectResults := map[];
      smeNotes := map[];
      selectedSmes := map[];
      availableSmes := map[];
      loadingSmes := map[];
    }

    /** `loadApplication`: on success the application named by the route
        (or none), otherwise the previous one stays. */
    method LoadApplication(res: ReviewRequests.ListReply<CtApplication>)
      modifies this`application, this`loading
      ensures res.success ==> application == FindApplication(res.data, routeId)
      ensures !res.success ==> application == old(application)
      ensures !loading
    {
      loading := true;
      if res.success {
        application := FindApplication(res.data, routeId);
      }
      loading := false;
    }

    /** `handleCheckTemplate3ForCurrentSubject`: a success records the result
        under that course and nothing else; a failure alerts and records
        nothing. */
    method CheckCurrentSubject(id: int, res: Reply<CheckResult>) returns (alert: Option<string>)
      modifies this`processingSubject, this`currentSubjectResults
      ensures res.Success? ==> currentSubjectResults == old(currentSubjectResults)[id := res.data] && alert.None?
      ensures res.Success? ==> (ApproveAllOffered(currentSubjectResults, id) <==> res.data.allMatch)
      ensures res.Failure? ==> currentSubjectResults == old(currentSubjectResults)
      ensures res.Failure? ==> alert == Some(OrElse(Some(res.message), "Failed to check Template3"))
      ensures forall other :: other != id && other in old(currentSubjectResults) ==>
                other in currentSubjectResults && currentSubjectResults[other] == old(currentSubjectResults)[other]
      ensures processingSubject.None?
    {
      processingSubject := Some(id);
      if res.Success? {
        currentSubjectResults := currentSubjectResults[id := res.data];
        alert := None;
      } else {
        alert := Some(OrElse(Some(res.message), "Failed to check Template3"));
      }
      processingSubject := None;
    }

    /** `handleApproveAllTemplate3`: nothing without confirmation; a success
        drops only that course's result (so "Approve All" disappears) and
        reloads. */
    method ApproveAll(id: int, confirmed: bool, res: Reply<CheckResult>)
      returns (requested: bool, reload: bool, alert: Option<string>)
      modifies this`processingSubject, this`currentSubjectResults
      ensures requested == confirmed
      ensures !confirmed ==> processingSubject == old(processingSubject) && alert.None? && !reload
      ensures confirmed ==> processingSubject.None?
      ensures confirmed && res.Success? ==> currentSubjectResults == old(currentSubjectResults) - {id} && reload
      ensures confirmed && res.Success? ==> !ApproveAllOffered(currentSubjectResults, id)
      ensures confirmed && res.Success? ==> alert == Some("All subjects approved via Template3!")
      ensures !(confirmed && res.Success?) ==> currentSubjectResults == old(currentSubjectResults) && !reload
      ensures confirmed && res.Failure? ==> alert == Some(OrElse(Some(res.message), "Failed to approve"))
    {
      requested := confirmed;
      reload := false;
      alert := None;
      if !confirmed {
        return;
      }
      processingSubject := Some(id);
      if res.Success? {
        alert := Some("All subjects approved via Template3!");
        reload := true;
        currentSubjectResults := currentSubjectResults - {id};
      } else {
        alert := Some(OrElse(Some(res.message), "Failed to approve"));
      }
      processingSubject := None;
    }

    /** `loadSMEsForCourse`: a missing (or 0) course id or an already cached
        course makes no request and changes nothing; otherwise the course's
        loading flag is raised, a success caches the list under that
        course, and the flag is lowered once the call returns. A call that
        throws leaves the flag raised and the cache as it was. */
    method LoadSmesForCourse(courseId: Option<int>, call: Call<Reply<seq<Sme>>>) returns (requested: bool)
      modifies this`availableSmes, this`loadingSmes
      ensures requested <==> courseId.Some? && courseId.value != 0 && !Cached(old(availableSmes), courseId.value)
      ensures !requested ==> availableSmes == old(availableSmes) && loadingSmes == old(loadingSmes)
      ensures requested && call.Returned? && call.reply.Success? ==>
                availableSmes == old(availableSmes)[courseId.value := call.reply.data]
      ensures requested && !(call.Returned? && call.reply.Success?) ==> availableSmes == old(availableSmes)
      ensures requested && call.Returned? ==> loadingSmes == old(loadingSmes)[courseId.value := false]
      ensures requested && !call.Returned? ==> loadingSmes == old(loadingSmes)[courseId.value := true] && !Idle()
      ensures old(Idle()) && processingSubject.None? && (!requested || call.Returned?) ==> Idle()
    {
      if courseId.None? || courseId.value == 0 || Cached(availableSmes, courseId.value) {
        return false;
      }
      requested := true;
      var c := courseId.value;
      loadingSmes := loadingSmes[c := true];
      if !call.Returned? {
        assert c in loadingSmes && loadingSmes[c];
        return;
      }
      if call.reply.Success? {
        availableSmes := availableSmes[c := call.reply.data];
      }
      loadingSmes := loadingSmes[c := false];
    }

    /** `handleSendAllToSME`: nothing without confirmation; otherwise the
        request carries the course's notes (or "") and no SME, whatever was
        selected; a success clears the notes and drops the selection and
        the result of that course only. */
    method SendAllToSme(id: int, confirmed: bool, res: Reply<CheckResult>)
      returns (request: Option<ReviewRequests.Request>, reload: bool, alert: Option<string>)
      modifies this`processingSubject, this`currentSubjectResults, this`smeNotes, this`selectedSmes
      ensures request.None? <==> !confirmed
      ensures confirmed ==> request == Some(ReviewRequests.RequestFor(ReviewRequests.SendAllToSme, id, NotesFor(old(smeNotes), id)))
      ensures !confirmed ==> processingSubject == old(processingSubject) && alert.None? && !reload
      ensures confirmed ==> processingSubject.None?
      ensures confirmed && res.Success? ==>
                && smeNotes == old(smeNotes)[id := ""]
                && selectedSmes == old(selectedSmes) - {id}
                && currentSubjectResults == old(currentSubjectResults) - {id}
                && reload && alert == Some("All subjects sent to SME!")
      ensures !(confirmed && res.Success?) ==>
                && smeNotes == old(smeNotes)
                && selectedSmes == old(selectedSmes)
                && currentSubjectResults == old(currentSubjectResults)
                && !reload
      ensures confirmed && res.Failure? ==> alert == Some(OrElse(Some(res.message), "Failed to send to SME"))
    {
      var notes := NotesFor(smeNotes, id);
      request := None;
      reload := false;
      alert := None;
      if !confirmed {
        return;
      }
      processingSubject := Some(id);
      request := Some(ReviewRequests.RequestFor(ReviewRequests.SendAllToSme, id, notes));
      if res.Success? {
        alert := Some("All subjects sent to SME!");
        reload := true;
        smeNotes := smeNotes[id := ""];
        selectedSmes := selectedSmes - {id};
        currentSubjectResults := currentSubjectResults - {id};
      } else {
        alert := Some(OrElse(Some(res.message), "Failed to send to SME"));
      }
      processingSubject := None;
    }

    /** The SME select: the empty option stores no selection. */
    method SelectSme(id: int, value: string)
      modifies this`selectedSmes
      ensures selectedSmes == old(selectedSmes)[id := if value == "" then None else Some(value)]
    {
      selectedSmes := selectedSmes[id := if value == "" then None else Some(value)];
    }

    /** The notes input of one course. */
    method EditNotes(id: int, value: string)
      modifies this`smeNotes
      ensures smeNotes == old(smeNotes)[id := value]
      ensures NotesFor(smeNotes, id) == value
    {
      smeNotes := smeNotes[id := value];
    }
  }

  /** The notes sent for a course are exactly the last ones typed for it,
      and a selected SME never reaches the request. */
  lemma SentNotesAreTyped(smeNotes: map<int, string>, id: int, value: string)
    ensures var r := ReviewRequests.RequestFor(ReviewRequests.SendAllToSme, id, NotesFor(smeNotes[id := value], id));
            r.body.coordinatorNotes == Some(value) && r.body.id == id && r.body.action == "send_all_to_sme"
  {
  }
}
