/** The subject-method expert's list of assigned subjects
    (src/module/expert/pages/SMEAssignments.js): an overall status per
    assignment derived from its past subjects' statuses (compared exactly,
    without case folding), its badge, and the link to the review page. */
module SmeAssignments {
  import opened Common
  import opened Status
  import CtHistory

  datatype PastSubject = PastSubject(approvalStatus: Option<string>)

  datatype Assignment = Assignment(applicationSubjectId: int, pastSubjects: seq<PastSubject>)

  function StatusOf(p: PastSubject): ApprovalStatus {
    match p.approvalStatus
    case None => OtherApproval("")
    case Some(s) => ParseApproval(s)
  }

  /** Some past subject still waits: `needs_sme_review` or `pending`. */
  predicate HasPending(a: Assignment) {
    exists k :: 0 <= k < |a.pastSubjects| && StatusOf(a.pastSubjects[k]) in {NeedsSmeReview, Pending}
  }

  /** Every past subject is approved, by Template3 or by an SME. */
  predicate AllApproved(a: Assignment) {
    forall k :: 0 <= k < |a.pastSubjects| ==> IsApproved(StatusOf(a.pastSubjects[k]))
  }

  /** The overall status: anything waiting wins, then all approved, and
      rejected otherwise. */
  function OverallStatus(a: Assignment): (st: ApprovalStatus)
    ensures st in {NeedsSmeReview, ApprovedSme, Rejected}
    ensures st == NeedsSmeReview <==> HasPending(a)
    ensures st == ApprovedSme <==> !HasPending(a) && AllApproved(a)
    ensures st == Rejected <==> !HasPending(a) && !AllApproved(a)
  {
    if HasPending(a) then NeedsSmeReview else if AllApproved(a) then ApprovedSme else Rejected
  }

  /** An assignment with no past subjects shows as approved, since "every"
      holds of an empty list. */
  lemma EmptyAssignmentApproved(id: int)
    ensures OverallStatus(Assignment(id, [])) == ApprovedSme
  {
  }

  /** When nothing waits and something is neither approved nor waiting (a
      rejection, an unknown or a missing status), the assignment shows as
      rejected. */
  lemma RejectedWhenSomethingUnapproved(a: Assignment, k: int)
    requires 0 <= k < |a.pastSubjects| && !IsApproved(StatusOf(a.pastSubjects[k]))
    requires !HasPending(a)
    ensures OverallStatus(a) == Rejected
  {
  }

  datatype Badge = Badge(color: string, text: string)

  /** `getStatusBadge`, looked up by the exact name; unknown names get the
      `needs_sme_review` badge. */
  function StatusBadge(st: ApprovalStatus): (b: Badge)
    ensures st !in {ApprovedSme, Rejected, ApprovedTemplate3} ==> b == Badge("bg-yellow-500", "Pending Review")
  {
    match st
    case NeedsSmeReview => Badge("bg-yellow-500", "Pending Review")
    case ApprovedSme => Badge("bg-green-500", "Approved")
    case Rejected => Badge("bg-red-500", "Rejected")
    case ApprovedTemplate3 => Badge("bg-blue-500", "Approved (Template3)")
    case _ => Badge("bg-yellow-500", "Pending Review")
  }

  /** The badge shown for an assignment is the one of its overall status,
      and it reads "Pending Review" exactly when something waits. */
  lemma AssignmentBadge(a: Assignment)
    ensures StatusBadge(OverallStatus(a)).text == "Pending Review" <==> HasPending(a)
  {
  }

  datatype Link = Link(text: string, path: string)

  /** The action cell: "Review All" while something waits, "View" otherwise;
      both lead to the subject's review page. */
  function ActionLink(a: Assignment): (l: Link)
    ensures l.text == (if HasPending(a) then "Review All" else "View")
    ensures l.path == "/expert/review/" + IntToString(a.applicationSubjectId)
  {
    var path := "/expert/review/" + IntToString(a.applicationSubjectId);
    if HasPending(a) then Link("Review All", path) else Link("View", path)
  }

  /** The review page's route parameter read back from the link is the
      assignment's id. */
  lemma ActionLinkId(a: Assignment)
    ensures var p := ActionLink(a).path;
            |p| > |"/expert/review/"| && ParseInt(p[|"/expert/review/"|..]) == Some(a.applicationSubjectId)
  {
    var prefix := "/expert/review/";
    var p := ActionLink(a).path;
    assert p[|prefix|..] == IntToString(a.applicationSubjectId);
    ParseIntOfIntToString(a.applicationSubjectId);
  }

  /** The expert's list and the student's history rank a rejection and a
      pending subject oppositely: a rejected and a pending past subject show
      as waiting here and as rejected in the history. */
  lemma OppositePrecedence()
    ensures OverallStatus(Assignment(0, [PastSubject(Some("rejected")), PastSubject(Some("pending"))])) == NeedsSmeReview
    ensures CtHistory.CurrentSubjectStatus(
              [CtHistory.PastApplicationSubject(Some("rejected")), CtHistory.PastApplicationSubject(Some("pending"))])
            == Some(CtHistory.CourseRejected)
  {
    var a := Assignment(0, [PastSubject(Some("rejected")), PastSubject(Some("pending"))]);
    assert StatusOf(a.pastSubjects[1]) == Pending;
    HistoryRanksRejectionFirst();
  }

  lemma HistoryRanksRejectionFirst()
    ensures CtHistory.CurrentSubjectStatus(
              [CtHistory.PastApplicationSubject(Some("rejected")), CtHistory.PastApplicationSubject(Some("pending"))])
            == Some(CtHistory.CourseRejected)
  {
    var ps := [CtHistory.PastApplicationSubject(Some("rejected")), CtHistory.PastApplicationSubject(Some("pending"))];
    RejectedIsLowerCase();
    CtHistory.RejectionOutranksPending(ps, 0);
  }

  lemma RejectedIsLowerCase()
    ensures Lower("rejected") == "rejected"
  {
    LowerOfLower("rejected");
  }
}
