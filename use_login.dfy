/** The login hook (src/auth/hooks/useLogin.js): the answer of the login
    endpoint stored as the session and the tokens, and the dashboard each
    role is sent to. */
module Login {
  import opened Common
  import opened Api
  import opened Session

  const StudentRole := "Student"
  const CoordinatorRole := "Program Coordinator"
  const ExpertRole := "Subject Method Expert"
  const HosRole := "Head Of Section"
  const AdminRole := "Administrator"

  /** The five role names the backend gives. */
  predicate KnownRole(role: string) {
    role == StudentRole || role == CoordinatorRole || role == ExpertRole || role == HosRole || role == AdminRole
  }

  /** `handleLoginSuccess`: the dashboard of each of the five roles; any
      other role goes nowhere. */
  function DashboardPath(role: string): (p: Option<string>)
    ensures role == StudentRole ==> p == Some("/student")
    ensures role == CoordinatorRole ==> p == Some("/coordinator")
    ensures role == ExpertRole ==> p == Some("/expert")
    ensures role == HosRole ==> p == Some("/hos")
    ensures role == AdminRole ==> p == Some("/admin")
    ensures p.None? <==> !KnownRole(role)
  {
    if role == StudentRole then Some("/student")
    else if role == CoordinatorRole then Some("/coordinator")
    else if role == ExpertRole then Some("/expert")
    else if role == HosRole then Some("/hos")
    else if role == AdminRole then Some("/admin")
    else None
  }

  /** Two roles sent to the same dashboard are the same role. */
  lemma DashboardsDistinct(r1: string, r2: string)
    requires DashboardPath(r1).Some? && DashboardPath(r1) == DashboardPath(r2)
    ensures r1 == r2
  {
  }

  /** The role stored when the answer names none goes nowhere. */
  lemma UnknownGoesNowhere()
    ensures DashboardPath("Unknown").None?
  {
  }

  /** What the login endpoint produced: an ok answer with its token,
      refresh token and role (each may be missing), a non-ok answer, or a
      network exception with its message. */
  datatype LoginAnswer = Accepted(token: Option<string>, refreshToken: Option<string>, role: Option<string>)
                       | Refused
                       | NetworkError(reason: string)

  class LoginHook {
    var email: string
    var password: string
    var loading: bool
    var error: string

    constructor ()
      ensures email == "" && password == "" && !loading && error == ""
    {
      email := "";
      password := "";
      loading := false;
      error := "";
    }

    method SetEmail(v: string)
      modifies this`email
      ensures email == v
    {
      email := v;
    }

    method SetPassword(v: string)
      modifies this`password
      ensures password == v
    {
      password := v;
    }

    /** `onSubmitLogin`: an accepted login stores both tokens and the session
        `{ email, role || "Unknown" }` and goes to that role's dashboard; a
        refusal or an exception stores nothing and shows its message.
        Loading ends false on every path. */
    method SubmitLogin(answer: LoginAnswer, storage: Storage) returns (navigateTo: Option<string>)
      modifies this`error, this`loading, storage
      ensures !loading
      ensures answer.Accepted? ==>
                error == ""
                && storage.token == Some(StoredText(answer.token))
                && storage.refreshToken == Some(StoredText(answer.refreshToken))
                && storage.user == Some(SessionOf(email, OrElse(answer.role, "Unknown")))
                && navigateTo == DashboardPath(OrElse(answer.role, "Unknown"))
      ensures answer.Refused? ==>
                error == "Invalid email or password" && navigateTo.None? && unchanged(storage)
      ensures answer.NetworkError? ==>
                error == OrElse(Some(answer.reason), "Login failed") && navigateTo.None? && unchanged(storage)
    {
      error := "";
      loading := true;
      navigateTo := None;
      match answer {
        case Accepted(token, refreshToken, role) =>
          storage.token := Some(StoredText(token));
          storage.refreshToken := Some(StoredText(refreshToken));
          var session := SessionOf(email, OrElse(role, "Unknown"));
          storage.user := Some(session);
          navigateTo := DashboardPath(session.role.value);
        case Refused =>
          error := OrElse(Some("Invalid email or password"), "Login failed");
        case NetworkError(reason) =>
          error := OrElse(Some(reason), "Login failed");
      }
      loading := false;
    }
  }
}
