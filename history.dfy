/** The student's credit-transfer history page
    (src/module/student/pages/CTHistory/history.js): the applications, newest
    first, each with a progress tally over the approval status of every past
    subject, badges for the application and subject statuses, and the
    expand/collapse toggle. */
module CtHistory {
  import opened Common
  import opened Status
  import Sorting

  datatype PastApplicationSubject = PastApplicationSubject(approvalStatus: Option<string>)

  datatype NewApplicationSubject = NewApplicationSubject(
    applicationSubjectId: int,
    pastApplicationSubjects: Option<seq<PastApplicationSubject>>)

  datatype Application = Application(
    ctId: int,
    ctStatus: Option<string>,
    createdAt: int,
    newApplicationSubjects: Option<seq<NewApplicationSubject>>)

  // ---------------------------------------------------------------------
  // Progress

  /** The three buckets of `calculateProgress`. */
  datatype Tally = TallyApproved | TallyRejected | TallyPending

  /** Case-insensitive classification of one past subject's status: the two
      approvals, a rejection, and everything else (including a missing
      status or `needs_sme_review`) as pending. */
  function Classify(status: Option<string>): (t: Tally)
    ensures t == TallyApproved <==> status.Some? && IsApproved(ParseApproval(Lower(status.value)))
    ensures t == TallyRejected <==> status.Some? && Lower(status.value) == "rejected"
  {
    match status
    case None => TallyPending
    case Some(s) =>
      var st := ParseApproval(Lower(s));
      if IsApproved(st) then TallyApproved else if st == Status.Rejected then TallyRejected else TallyPending
  }

  /** Upper and lower case spellings are classified alike. */
  lemma ClassifyIgnoresCase(s: string)
    ensures Classify(Some(s)) == Classify(Some(Lower(s)))
  {
    LowerIdempotent(s);
  }

  function PastStatuses(ps: seq<PastApplicationSubject>): (r: seq<Option<string>>)
    ensures |r| == |ps| && forall k :: 0 <= k < |ps| ==> r[k] == ps[k].approvalStatus
  {
    seq(|ps|, k requires 0 <= k < |ps| => ps[k].approvalStatus)
  }

  /** The statuses under one new subject; none when its list is missing. */
  function SubjectStatuses(n: NewApplicationSubject): seq<Option<string>> {
    match n.pastApplicationSubjects
    case None => []
    case Some(ps) => PastStatuses(ps)
  }

  /** Every past subject's status under every new subject, in order. */
  function Flatten(ns: seq<NewApplicationSubject>): seq<Option<string>> {
    if ns == [] then [] else Flatten(ns[..|ns| - 1]) + SubjectStatuses(ns[|ns| - 1])
  }

  function AllStatuses(app: Application): seq<Option<string>> {
    match app.newApplicationSubjects
    case None => []
    case Some(ns) => Flatten(ns)
  }

  function CountOf(ss: seq<Option<string>>, t: Tally): (n: nat)
    ensures n <= |ss|
  {
    if ss == [] then 0 else CountOf(ss[..|ss| - 1], t) + (if Classify(ss[|ss| - 1]) == t then 1 else 0)
  }

  lemma CountOfSnoc(ss: seq<Option<string>>, x: Option<string>, t: Tally)
    ensures CountOf(ss + [x], t) == CountOf(ss, t) + (if Classify(x) == t then 1 else 0)
  {
    assert (ss + [x])[..|ss|] == ss;
  }

  /** Every past subject lands in exactly one bucket. */
  lemma {:induction false} CountsPartition(ss: seq<Option<string>>)
    ensures CountOf(ss, TallyApproved) + CountOf(ss, TallyRejected) + CountOf(ss, TallyPending) == |ss|
  {
    if ss != [] {
      CountsPartition(ss[..|ss| - 1]);
    }
  }

  /** `Math.round((approved / total) * 100)`, 0 for an empty tally. */
  function Percentage(approved: nat, total: nat): int {
    if total > 0 then Round(approved as real / total as real * 100.0) else 0
  }

  lemma PercentageInRange(approved: nat, total: nat)
    requires approved <= total
    ensures 0 <= Percentage(approved, total) <= 100
    ensures approved == total && total > 0 ==> Percentage(approved, total) == 100
    ensures approved == 0 ==> Percentage(approved, total) == 0
  {
    if total > 0 {
      var t := total as real;
      DivBetween(approved as real, t, 0.0, 1.0);
      var x := approved as real / t * 100.0;
      assert 0.0 <= x <= 100.0;
      if approved == total {
        assert approved as real / t == 1.0;
      }
    }
  }

  datatype Progress = Progress(percentage: int, approved: nat, total: nat, pending: nat, rejected: nat)

  /** The tally `calculateProgress` should give for a list of statuses. */
  function ProgressOf(ss: seq<Option<string>>): Progress {
    var a := CountOf(ss, TallyApproved);
    Progress(Percentage(a, |ss|), a, |ss|, CountOf(ss, TallyPending), CountOf(ss, TallyRejected))
  }

  /** The tally's counts add up, and the percentage is a percentage; an
      application without subjects shows nothing done. */
  lemma ProgressConsistent(app: Application)
    ensures var p := ProgressOf(AllStatuses(app));
            p.approved + p.pending + p.rejected == p.total &&
            0 <= p.percentage <= 100 &&
            (p.total == 0 ==> p.percentage == 0)
    ensures app.newApplicationSubjects.None? || app.newApplicationSubjects.value == [] ==>
              ProgressOf(AllStatuses(app)) == Progress(0, 0, 0, 0, 0)
  {
    var ss := AllStatuses(app);
    CountsPartition(ss);
    PercentageInRange(CountOf(ss, TallyApproved), |ss|);
  }

  /** The four running counters of `calculateProgress`. */
  datatype Counters = Counters(total: nat, approved: nat, pending: nat, rejected: nat)

  function CountersOf(ss: seq<Option<string>>): Counters {
    Counters(|ss|, CountOf(ss, TallyApproved), CountOf(ss, TallyPending), CountOf(ss, TallyRejected))
  }

  /** The inner `forEach` over one new subject's past subjects: bumps the
      total and one bucket per past subject. */
  method CountPastSubjects(c: Counters, ghost done: seq<Option<string>>, ps: seq<PastApplicationSubject>)
    returns (r: Counters)
    requires c == CountersOf(done)
    ensures r == CountersOf(done + PastStatuses(ps))
  {
    r := c;
    var j := 0;
    assert done + PastStatuses(ps[..0]) == done;
    while j < |ps|
      invariant 0 <= j <= |ps|
      invariant r == CountersOf(done + PastStatuses(ps[..j]))
    {
      ghost var before := done + PastStatuses(ps[..j]);
      assert done + PastStatuses(ps[..j + 1]) == before + [ps[j].approvalStatus];
      CountOfSnoc(before, ps[j].approvalStatus, TallyApproved);
      CountOfSnoc(before, ps[j].approvalStatus, TallyRejected);
      CountOfSnoc(before, ps[j].approvalStatus, TallyPending);
      var t := Classify(ps[j].approvalStatus);
      if t == TallyApproved {
        r := r.(total := r.total + 1, approved := r.approved + 1);
      } else if t == TallyRejected {
        r := r.(total := r.total + 1, rejected := r.rejected + 1);
      } else {
        r := r.(total := r.total + 1, pending := r.pending + 1);
      }
      j := j + 1;
    }
    assert ps[..|ps|] == ps;
  }

  /** `calculateProgress`: walks every past subject of every new subject,
      then turns the counters into the progress record. */
  method CalculateProgress(app: Application) returns (p: Progress)
    ensures p == ProgressOf(AllStatuses(app))
    ensures p.approved + p.pending + p.rejected == p.total
    ensures 0 <= p.percentage <= 100
  {
    ProgressConsistent(app);
    if app.newApplicationSubjects.None? || |app.newApplicationSubjects.value| == 0 {
      return Progress(0, 0, 0, 0, 0);
    }
    var ns := app.newApplicationSubjects.value;
    var c := Counters(0, 0, 0, 0);
    var i := 0;
    while i < |ns|
      invariant 0 <= i <= |ns|
      invariant c == CountersOf(Flatten(ns[..i]))
    {
      ghost var done := Flatten(ns[..i]);
      assert ns[..i + 1][..i] == ns[..i];
      assert Flatten(ns[..i + 1]) == done + SubjectStatuses(ns[i]);
      if ns[i].pastApplicationSubjects.Some? {
        c := CountPastSubjects(c, done, ns[i].pastApplicationSubjects.value);
      } else {
        assert done + [] == done;
      }
      i := i + 1;
    }
    assert ns[..|ns|] == ns;
    p := Progress(Percentage(c.approved, c.total), c.approved, c.total, c.pending, c.rejected);
  }

  /** The progress bar is shown for a non-draft application (compared exactly)
      with at least one past subject. */
  predicate ShowProgressBar(app: Application, p: Progress) {
    app.ctStatus != Some("draft") && p.total > 0
  }

  /** The bar is shown exactly for a non-draft application with some past
      subject; its width is then a percentage and its caption never counts
      more approvals than subjects. */
  lemma ProgressBarShown(app: Application)
    ensures ShowProgressBar(app, ProgressOf(AllStatuses(app))) <==>
              app.ctStatus != Some("draft") && AllStatuses(app) != []
    ensures var p := ProgressOf(AllStatuses(app));
            ShowProgressBar(app, p) ==> 0 <= p.percentage <= 100 && p.approved <= p.total
  {
    ProgressConsistent(app);
  }

  // ---------------------------------------------------------------------
  // Per-course status

  datatype CourseStatus = CourseApproved | CourseRejected | CoursePending

  /** `getCurrentSubjectStatus`: none for a course without past subjects;
      approved when every one is an approval; else rejected when any is
      rejected; else pending (all lower-cased first). */
  function CurrentSubjectStatus(ps: seq<PastApplicationSubject>): (r: Option<CourseStatus>)
    ensures r.None? <==> ps == []
  {
    if ps == [] then None
    else if forall k :: 0 <= k < |ps| ==> Classify(ps[k].approvalStatus) == TallyApproved then Some(CourseApproved)
    else if exists k :: 0 <= k < |ps| && Classify(ps[k].approvalStatus) == TallyRejected then Some(CourseRejected)
    else Some(CoursePending)
  }

  /** The course status agrees with the page's progress buckets: approved
      exactly when every past subject is counted approved, rejected exactly
      when one is counted rejected and not all are approved, and a rejection
      outranks a subject still pending. */
  lemma CurrentSubjectStatusMatchesTally(ps: seq<PastApplicationSubject>)
    requires ps != []
    ensures var ss := PastStatuses(ps);
            (CurrentSubjectStatus(ps) == Some(CourseApproved) <==> CountOf(ss, TallyApproved) == |ps|) &&
            (CurrentSubjectStatus(ps) == Some(CourseRejected) <==>
               CountOf(ss, TallyApproved) < |ps| && CountOf(ss, TallyRejected) > 0)
  {
    var ss := PastStatuses(ps);
    CountAllIff(ss, TallyApproved);
    CountPositiveIff(ss, TallyRejected);
  }

  /** A rejected past subject makes the course rejected, whatever else is
      still pending. */
  lemma RejectionOutranksPending(ps: seq<PastApplicationSubject>, k: int)
    requires 0 <= k < |ps| && Classify(ps[k].approvalStatus) == TallyRejected
    ensures CurrentSubjectStatus(ps) == Some(CourseRejected)
  {
  }

  lemma {:induction false} CountAllIff(ss: seq<Option<string>>, t: Tally)
    ensures CountOf(ss, t) == |ss| <==> forall k :: 0 <= k < |ss| ==> Classify(ss[k]) == t
  {
    if ss != [] {
      var init := ss[..|ss| - 1];
      CountAllIff(init, t);
      assert forall k :: 0 <= k < |init| ==> init[k] == ss[k];
    }
  }

  lemma {:induction false} CountPositiveIff(ss: seq<Option<string>>, t: Tally)
    ensures CountOf(ss, t) > 0 <==> exists k :: 0 <= k < |ss| && Classify(ss[k]) == t
  {
    if ss != [] {
      var init := ss[..|ss| - 1];
      CountPositiveIff(init, t);
      assert forall k :: 0 <= k < |init| ==> init[k] == ss[k];
      if Classify(ss[|ss| - 1]) == t {
        assert Classify(ss[|ss| - 1]) == t;
      } else if CountOf(init, t) > 0 {
        var k :| 0 <= k < |init| && Classify(init[k]) == t;
        assert Classify(ss[k]) == t;
      }
    }
  }

  // ---------------------------------------------------------------------
  // Badges

  datatype Badge = Badge(color: string, text: string)

  datatype CtStatus = Draft | Submitted | CtApproved | CtRejected | Completed | OtherCt(raw: string)

  function ParseCtStatus(s: string): (st: CtStatus)
    ensures st.OtherCt? <==> s !in {"draft", "submitted", "approved", "rejected", "completed"}
  {
    if s == "draft" then Draft
    else if s == "submitted" then Submitted
    else if s == "approved" then CtApproved
    else if s == "rejected" then CtRejected
    else if s == "completed" then Completed
    else OtherCt(s)
  }

  /** `getStatusBadge`: the configured badge of the lower-cased status, and
      the "Under Review" badge for anything unknown or missing. */
  function ApplicationBadge(status: Option<string>): Badge {
    match ApplicationKey(status)
    case Draft => Badge("bg-gray-500", "Draft")
    case Submitted => Badge("bg-blue-500", "Under Review")
    case CtApproved => Badge("bg-green-500", "Approved")
    case CtRejected => Badge("bg-red-500", "Rejected")
    case Completed => Badge("bg-purple-500", "Completed")
    case OtherCt(_) => Badge("bg-blue-500", "Under Review")
  }

  lemma ApplicationBadgeFallback(status: Option<string>)
    requires ApplicationKey(status).OtherCt?
    ensures ApplicationBadge(status) == ApplicationBadge(Some("submitted"))
  {
    SubmittedIsLowerCase();
  }

  lemma SubmittedIsLowerCase()
    ensures Lower("submitted") == "submitted"
  {
    LowerOfLower("submitted");
  }

  /** `getSubjectStatusBadge`: the configured badge of the lower-cased
      status, and the "Pending Review" badge for anything unknown or
      missing. */
  function SubjectBadge(status: Option<string>): Badge {
    match SubjectKey(status)
    case Pending => Badge("bg-yellow-500", "Pending Review")
    case ApprovedTemplate3 => Badge("bg-green-500", "Approved (Template3)")
    case ApprovedSme => Badge("bg-green-600", "Approved (SME)")
    case Rejected => Badge("bg-red-500", "Rejected")
    case NeedsSmeReview => Badge("bg-orange-500", "SME Review Required")
    case OtherApproval(_) => Badge("bg-yellow-500", "Pending Review")
  }

  lemma SubjectBadgeFallback(status: Option<string>)
    requires SubjectKey(status).OtherApproval?
    ensures SubjectBadge(status) == SubjectBadge(Some("pending"))
  {
    PendingIsLowerCase();
  }

  lemma PendingIsLowerCase()
    ensures Lower("pending") == "pending"
  {
    LowerOfLower("pending");
  }

  /** The status a badge is looked up by. */
  function ApplicationKey(status: Option<string>): CtStatus {
    if status.Some? then ParseCtStatus(Lower(status.value)) else OtherCt("")
  }

  function SubjectKey(status: Option<string>): ApprovalStatus {
    if status.Some? then ParseApproval(Lower(status.value)) else OtherApproval("")
  }

  /** Badges ignore case. */
  lemma ApplicationBadgeIgnoresCase(s: string)
    ensures ApplicationBadge(Some(s)) == ApplicationBadge(Some(Lower(s)))
  {
    LowerIdempotent(s);
    assert ApplicationKey(Some(s)) == ApplicationKey(Some(Lower(s)));
  }

  lemma SubjectBadgeIgnoresCase(s: string)
    ensures SubjectBadge(Some(s)) == SubjectBadge(Some(Lower(s)))
  {
    LowerIdempotent(s);
    assert SubjectKey(Some(s)) == SubjectKey(Some(Lower(s)));
  }

  // ---------------------------------------------------------------------
  // Listing and expansion

  /** The comparator `new Date(b.createdAt) - new Date(a.createdAt)`
      compares this key, ascending. */
  function NewestFirstKey(a: Application): int {
    -a.createdAt
  }

  /** The load sorts the fetched list in place, newest `createdAt` first;
      applications created at the same instant keep their fetched order. */
  method SortNewestFirst(apps: array<Application>)
    modifies apps
    ensures apps[..] == Sorting.StableSort(old(apps[..]), NewestFirstKey)
    ensures forall p, q :: 0 <= p < q < apps.Length ==> apps[p].createdAt >= apps[q].createdAt
    ensures multiset(apps[..]) == multiset(old(apps[..]))
    ensures forall k :: Sorting.KeyClass(apps[..], NewestFirstKey, k) == Sorting.KeyClass(old(apps[..]), NewestFirstKey, k)
  {
    Sorting.InsertionSortBy(apps, NewestFirstKey);
    assert forall p, q :: 0 <= p < q < apps.Length ==> apps[..][p] == apps[p] && apps[..][q] == apps[q];
  }

  /** `toggleExpand`: collapses the open application, opens any other. */
  function Toggle(expanded: Option<int>, ctId: int): (r: Option<int>)
    ensures expanded == Some(ctId) ==> r.None?
    ensures expanded != Some(ctId) ==> r == Some(ctId)
  {
    if expanded == Some(ctId) then None else Some(ctId)
  }

  /** Two clicks on the same application: from the closed state it opens and
      closes again; from its open state it closes and reopens. */
  lemma ToggleTwice(ctId: int)
    ensures Toggle(Toggle(None, ctId), ctId) == None
    ensures forall e: Option<int> :: Toggle(Toggle(e, ctId), ctId) == (if e == Some(ctId) then Some(ctId) else None)
  {
  }
}
