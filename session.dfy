/** The browser storage the pages share: the session object kept under
    `cts_user` and the two tokens. `localStorage` is one store per browser,
    so it is a class whose fields the login hooks write. */
module Session {
  import opened Common

  /** `JSON.parse(localStorage.getItem("cts_user"))`, as far as the pages
      read it: each field may be missing. */
  datatype StoredUser = StoredUser(email: Option<string>, name: Option<string>, role: Option<string>)

  /** `{ email, role }` as the login hooks write it. */
  function SessionOf(email: string, role: string): (u: StoredUser)
    ensures u.email == Some(email) && u.name.None? && u.role == Some(role)
  {
    StoredUser(Some(email), None, Some(role))
  }

  /** `localStorage.setItem` stores text: an undefined value is stored as
      the text "undefined". */
  function StoredText(v: Option<string>): (t: string)
    ensures v.Some? ==> t == v.value
    ensures v.None? ==> t == "undefined"
  {
    if v.Some? then v.value else "undefined"
  }

  class Storage {
    var user: Option<StoredUser>
    var token: Option<string>
    var refreshToken: Option<string>

    constructor ()
      ensures user.None? && token.None? && refreshToken.None?
    {
      user := None;
      token := None;
      refreshToken := None;
    }
  }
}
