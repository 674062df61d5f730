/** The coordinator's request wrappers
    (src/module/coordinator/hooks/useReviewApplication.js): the action
    requests posted for a past subject or for all past subjects of a current
    subject, their replies, the list fetches with their empty-list defaults,
    and the Template3 query string. The fetch itself is not modelled: each
    wrapper receives what the server answered. */
module ReviewRequests {
  import opened Common
  import opened Api

  /** The names `useReviewApplication.js` exports; a page that imports any
      other name from it gets `undefined`. */
  const ReviewHookExports: set<string> := {
    "getCoordinatorApplications", "checkTemplate3", "approveViaTemplate3", "sendToSME",
    "uploadTemplate3PDF", "createTemplate3Entry", "bulkCreateTemplate3",
    "checkTemplate3ForCurrentSubject", "approveAllViaTemplate3", "sendAllToSME",
    "getTemplate3Mappings"}

  // ---------------------------------------------------------------------
  // Coordinator actions

  datatype Operation =
    | CheckTemplate3            // one past subject
    | ApproveViaTemplate3       // one past subject
    | SendToSme                 // one past subject
    | CheckCurrentSubject       // every past subject of a current subject
    | ApproveAllViaTemplate3    // every past subject of a current subject
    | SendAllToSme              // every past subject of a current subject

  /** Which id the body carries: `pastSubjectId` or `applicationSubjectId`. */
  datatype IdField = PastSubjectId | ApplicationSubjectId

  datatype Body = Body(idField: IdField, id: int, action: string, coordinatorNotes: Option<string>)

  datatype Request = Request(endpoint: string, body: Body)

  predicate PerPastSubject(op: Operation) {
    op in {CheckTemplate3, ApproveViaTemplate3, SendToSme}
  }

  function Endpoint(op: Operation): string {
    if PerPastSubject(op) then "/credit-transfer/coordinator/review-subject"
    else "/credit-transfer/coordinator/check-current-subject"
  }

  /** The `action` tag of each request body. */
  function ActionTag(op: Operation): string {
    match op
    case CheckTemplate3 => "check_template3"
    case ApproveViaTemplate3 => "approve_template3"
    case SendToSme => "send_to_sme"
    case CheckCurrentSubject => "check_template3"
    case ApproveAllViaTemplate3 => "approve_all"
    case SendAllToSme => "send_all_to_sme"
  }

  /** The body posted by each wrapper; only the two send operations carry
      the coordinator's notes. */
  function RequestFor(op: Operation, id: int, notes: string): (r: Request)
    ensures r.body.id == id && r.body.action == ActionTag(op)
    ensures r.body.idField == (if PerPastSubject(op) then PastSubjectId else ApplicationSubjectId)
    ensures r.body.coordinatorNotes.Some? <==> op in {SendToSme, SendAllToSme}
    ensures r.body.coordinatorNotes.Some? ==> r.body.coordinatorNotes.value == notes
  {
    Request(Endpoint(op), Body(
      if PerPastSubject(op) then PastSubjectId else ApplicationSubjectId,
      id, ActionTag(op),
      if op in {SendToSme, SendAllToSme} then Some(notes) else None))
  }

  /** The server can tell every operation apart: the endpoint and the tag
      together determine it, though the two checks share a tag. */
  lemma RequestsDistinguishOperations(a: Operation, b: Operation, id: int, notes: string)
    requires RequestFor(a, id, notes).endpoint == RequestFor(b, id, notes).endpoint
    requires RequestFor(a, id, notes).body.action == RequestFor(b, id, notes).body.action
    ensures a == b
  {
  }

  lemma ChecksShareTag()
    ensures ActionTag(CheckTemplate3) == ActionTag(CheckCurrentSubject)
    ensures Endpoint(CheckTemplate3) != Endpoint(CheckCurrentSubject)
  {
  }

  /** The message of a non-ok reply when the server gives no `error`. */
  function DefaultFailure(op: Operation): string {
    match op
    case CheckTemplate3 => "Failed to check template"
    case ApproveViaTemplate3 => "Failed to approve"
    case SendToSme => "Failed to send to SME"
    case CheckCurrentSubject => "Failed to check template"
    case ApproveAllViaTemplate3 => "Failed to approve"
    case SendAllToSme => "Failed to send to SME"
  }

  /** One coordinator action: without a token nothing is sent and the reply
      says so; otherwise the request is sent and the server's answer becomes
      the reply. */
  function Perform<T>(op: Operation, id: int, notes: string, token: Option<string>, answer: Http<T>)
    : (r: (Option<Request>, Reply<T>))
    ensures !HasToken(token) <==> r.0.None?
    ensures !HasToken(token) ==> r.1 == Failure("User not authenticated")
    ensures HasToken(token) ==> r.0 == Some(RequestFor(op, id, notes))
    ensures HasToken(token) ==> (r.1.Success? <==> answer.Ok?)
    ensures HasToken(token) && answer.Ok? ==> r.1 == Success(answer.body)
    ensures HasToken(token) && answer.NotOk? ==> r.1 == Failure(OrElse(answer.error, DefaultFailure(op)))
    ensures HasToken(token) && answer.Thrown? ==> r.1 == Failure(answer.message)
  {
    if !HasToken(token) then (None, Failure("User not authenticated"))
    else
      var reply := match answer
        case Ok(body) => Success(body)
        case NotOk(error) => Failure(OrElse(error, DefaultFailure(op)))
        case Thrown(message) => Failure(message);
      (Some(RequestFor(op, id, notes)), reply)
  }

  // ---------------------------------------------------------------------
  // List fetches

  datatype ListReply<T> = ListReply(success: bool, data: seq<T>)

  /** `getCoordinatorApplications` and `getTemplate3Mappings`: a missing
      token, a non-ok answer or an exception give an empty failure; an ok
      answer gives its list, or [] when the body has none. */
  function FetchList<T>(token: Option<string>, answer: Http<Option<seq<T>>>): (r: (bool, ListReply<T>))
    ensures r.0 <==> HasToken(token)
    ensures r.1.success <==> HasToken(token) && answer.Ok?
    ensures !r.1.success ==> r.1.data == []
    ensures r.1.success ==> r.1.data == answer.body.GetOr([])
  {
    if !HasToken(token) then (false, ListReply(false, []))
    else match answer
      case Ok(list) => (true, ListReply(true, list.GetOr([])))
      case _ => (true, ListReply(false, []))
  }

  // ---------------------------------------------------------------------
  // Template3 query

  /** `program_id` may arrive as a number or as text. */
  datatype ProgramIdValue = ProgramNumber(n: int) | ProgramText(s: string)

  datatype Filters = Filters(
    oldCampusId: Option<string>,
    oldCampusName: Option<string>,
    oldProgrammeName: Option<string>,
    programId: Option<ProgramIdValue>,
    programName: Option<string>,
    programCode: Option<string>)

  datatype FilterKey = OldCampusId | OldCampusName | OldProgrammeName | ProgramId | ProgramName | ProgramCode

  function KeyName(k: FilterKey): string {
    match k
    case OldCampusId => "old_campus_id"
    case OldCampusName => "old_campus_name"
    case OldProgrammeName => "old_programme_name"
    case ProgramId => "program_id"
    case ProgramName => "program_name"
    case ProgramCode => "program_code"
  }

  /** The order of the appends. */
  function KeyRank(k: FilterKey): (n: nat)
    ensures n < 6
  {
    match k
    case OldCampusId => 0
    case OldCampusName => 1
    case OldProgrammeName => 2
    case ProgramId => 3
    case ProgramName => 4
    case ProgramCode => 5
  }

  /** A text filter is sent when present and not blank after trimming; the
      untrimmed text is what is sent. */
  function TextFilter(v: Option<string>): (r: Option<string>)
    ensures r.Some? <==> v.Some? && !IsBlank(v.value)
    ensures r.Some? ==> r.value == v.value
  {
    if v.Some? && v.value != "" && !IsBlank(v.value) then v else None
  }

  /** `program_id` as a number is sent unless it is 0 (falsy), as its
      decimal text; as text, like the other filters. */
  function ProgramIdFilter(v: Option<ProgramIdValue>): (r: Option<string>)
    ensures v.Some? && v.value.ProgramNumber? ==>
              r == (if v.value.n != 0 then Some(IntToString(v.value.n)) else None)
    ensures v.Some? && v.value.ProgramText? ==> r == TextFilter(Some(v.value.s))
    ensures v.None? ==> r.None?
  {
    match v
    case None => None
    case Some(ProgramNumber(n)) => if n != 0 then Some(IntToString(n)) else None
    case Some(ProgramText(s)) => TextFilter(Some(s))
  }

  /** The value sent for a key, if any. */
  function Sent(f: Filters, k: FilterKey): Option<string> {
    match k
    case OldCampusId => TextFilter(f.oldCampusId)
    case OldCampusName => TextFilter(f.oldCampusName)
    case OldProgrammeName => TextFilter(f.oldProgrammeName)
    case ProgramId => ProgramIdFilter(f.programId)
    case ProgramName => TextFilter(f.programName)
    case ProgramCode => TextFilter(f.programCode)
  }

  datatype Param = Param(key: FilterKey, value: string)

  /** The parameters appended for the keys ranked below `n`: every one sent,
      each sent key present, ranks strictly increasing. */
  ghost predicate ParamsUpTo(sent: FilterKey -> Option<string>, params: seq<Param>, n: nat) {
    && (forall i :: 0 <= i < |params| ==>
          sent(params[i].key) == Some(params[i].value) && KeyRank(params[i].key) < n)
    && (forall k :: KeyRank(k) < n && sent(k).Some? ==>
          exists i :: 0 <= i < |params| && params[i].key == k)
    && (forall i, j :: 0 <= i < j < |params| ==> KeyRank(params[i].key) < KeyRank(params[j].key))
  }

  /** One conditional append. */
  method AppendIfSent(params: seq<Param>, sent: FilterKey -> Option<string>, k: FilterKey, ghost n: nat)
    returns (r: seq<Param>)
    requires n == KeyRank(k) && ParamsUpTo(sent, params, n)
    ensures ParamsUpTo(sent, r, n + 1)
    ensures |r| <= |params| + 1
  {
    r := params;
    var v := sent(k);
    if v.Some? {
      r := r + [Param(k, v.value)];
      assert r[|params|].key == k;
    }
    forall k' | KeyRank(k') < KeyRank(k) + 1 && sent(k').Some?
      ensures exists i :: 0 <= i < |r| && r[i].key == k'
    {
      if KeyRank(k') < KeyRank(k) {
        var i :| 0 <= i < |params| && params[i].key == k';
        assert r[i] == params[i];
      } else {
        assert k' == k;
        assert r[|params|].key == k;
      }
    }
  }

  /** The parameter list of `getTemplate3Mappings`: exactly the keys whose
      filter is sent, each once, with the value as given, in the fixed
      order. */
  method Template3Params(f: Filters) returns (params: seq<Param>)
    ensures forall i :: 0 <= i < |params| ==> Sent(f, params[i].key) == Some(params[i].value)
    ensures forall k :: Sent(f, k).Some? ==> exists i :: 0 <= i < |params| && params[i].key == k
    ensures forall i, j :: 0 <= i < j < |params| ==> KeyRank(params[i].key) < KeyRank(params[j].key)
  {
    var sent := k => Sent(f, k);
    params := CampusParams(sent);
    params := ProgramParams(sent, params);
    AllRanksCovered(sent, params);
    assert forall k :: sent(k) == Sent(f, k);
  }

  /** The appends of the old campus and old programme filters. */
  method CampusParams(sent: FilterKey -> Option<string>) returns (params: seq<Param>)
    ensures ParamsUpTo(sent, params, 3)
  {
    params := [];
    params := AppendIfSent(params, sent, OldCampusId, 0);
    params := AppendIfSent(params, sent, OldCampusName, 1);
    params := AppendIfSent(params, sent, OldProgrammeName, 2);
  }

  /** The appends of the new programme filters. */
  method ProgramParams(sent: FilterKey -> Option<string>, campus: seq<Param>) returns (params: seq<Param>)
    requires ParamsUpTo(sent, campus, 3)
    ensures ParamsUpTo(sent, params, 6)
  {
    params := AppendIfSent(campus, sent, ProgramId, 3);
    params := AppendIfSent(params, sent, ProgramName, 4);
    params := AppendIfSent(params, sent, ProgramCode, 5);
  }

  lemma AllRanksCovered(sent: FilterKey -> Option<string>, params: seq<Param>)
    requires ParamsUpTo(sent, params, 6)
    ensures forall i :: 0 <= i < |params| ==> sent(params[i].key) == Some(params[i].value)
    ensures forall k :: sent(k).Some? ==> exists i :: 0 <= i < |params| && params[i].key == k
    ensures forall i, j :: 0 <= i < j < |params| ==> KeyRank(params[i].key) < KeyRank(params[j].key)
  {
  }

  /** One `key=value` pair of the query. */
  function Pair(p: Param): (r: string)
    ensures |r| > |KeyName(p.key)| && r[..|KeyName(p.key)|] == KeyName(p.key) && r[|KeyName(p.key)|] == '='
  {
    KeyName(p.key) + "=" + p.value
  }

  /** `params.toString()`: the pairs in append order, joined by '&'; empty
      exactly when no parameter was added. */
  function Encode(params: seq<Param>): (q: string)
    ensures q == "" <==> params == []
    ensures |params| == 1 ==> q == Pair(params[0])
  {
    if params == [] then ""
    else if |params| == 1 then Pair(params[0])
    else Pair(params[0]) + "&" + Encode(params[1..])
  }

  /** The query of two appended lists is their queries joined by '&'. */
  lemma {:induction false} EncodeConcat(a: seq<Param>, b: seq<Param>)
    requires a != [] && b != []
    ensures Encode(a + b) == Encode(a) + "&" + Encode(b)
    decreases |a|
  {
    assert (a + b)[0] == a[0];
    if |a| == 1 {
      assert (a + b)[1..] == b;
    } else {
      assert (a + b)[1..] == a[1..] + b;
      EncodeConcat(a[1..], b);
    }
  }

  /** One more append adds '&' and its pair at the end. */
  lemma EncodeSnoc(params: seq<Param>, p: Param)
    requires params != []
    ensures Encode(params + [p]) == Encode(params) + "&" + Pair(p)
  {
    EncodeConcat(params, [p]);
  }

  /** The request URL: '?' and the query only when the query is not
      empty. */
  function Template3Url(apiBase: string, params: seq<Param>): (url: string)
    ensures params == [] ==> url == apiBase + "/template3"
    ensures params != [] ==> url == apiBase + "/template3" + "?" + Encode(params)
    ensures params == [] <==> |url| == |apiBase + "/template3"|
  {
    var q := Encode(params);
    var prefix := apiBase + "/template3";
    if q == "" then prefix else prefix + "?" + q
  }
}
