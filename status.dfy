/** The approval status the backend attaches to each past subject of a
    credit-transfer application. The pages compare it against a fixed set of
    names; anything else is kept as it was sent. */
module Status {
  datatype ApprovalStatus =
    | Pending
    | ApprovedTemplate3
    | ApprovedSme
    | NeedsSmeReview
    | Rejected
    | OtherApproval(raw: string)

  /** The backend's name of a status. */
  function ApprovalName(st: ApprovalStatus): string {
    match st
    case Pending => "pending"
    case ApprovedTemplate3 => "approved_template3"
    case ApprovedSme => "approved_sme"
    case NeedsSmeReview => "needs_sme_review"
    case Rejected => "rejected"
    case OtherApproval(raw) => raw
  }

  /** Reads a status name exactly as sent (no case folding); reading never
      loses the text. */
  function ParseApproval(s: string): (st: ApprovalStatus)
    ensures ApprovalName(st) == s
    ensures st.OtherApproval? <==>
              s !in {"pending", "approved_template3", "approved_sme", "needs_sme_review", "rejected"}
  {
    if s == "pending" then Pending
    else if s == "approved_template3" then ApprovedTemplate3
    else if s == "approved_sme" then ApprovedSme
    else if s == "needs_sme_review" then NeedsSmeReview
    else if s == "rejected" then Rejected
    else OtherApproval(s)
  }

  /** A status whose `OtherApproval` text is not one of the known names. */
  predicate Canonical(st: ApprovalStatus) {
    st.OtherApproval? ==> ParseApproval(st.raw).OtherApproval?
  }

  /** Naming a canonical status and reading the name back gives the status. */
  lemma ParseApprovalName(st: ApprovalStatus)
    requires Canonical(st)
    ensures ParseApproval(ApprovalName(st)) == st
  {
  }

  /** The two statuses every page counts as an approval. */
  predicate IsApproved(st: ApprovalStatus) {
    st == ApprovedTemplate3 || st == ApprovedSme
  }
}
