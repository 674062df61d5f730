/** The offline login hook (src/pages/auth/hooks/useLogin.js): five fixed
    demonstration accounts checked locally, with the same dashboards as the
    real login. The 700 ms delay before the check is not modelled. */
module MockLogin {
  import opened Common
  import opened Session
  import Login

  datatype MockUser = MockUser(password: string, role: string)

  /** The `users` table. */
  const Users: map<string, MockUser> := map[
    "student@university.edu" := MockUser("student123", Login.StudentRole),
    "coordinator@university.edu" := MockUser("coordinator123", Login.CoordinatorRole),
    "expert@university.edu" := MockUser("expert123", Login.ExpertRole),
    "hos@university.edu" := MockUser("hos123", Login.HosRole),
    "admin@university.edu" := MockUser("admin123", Login.AdminRole)
  ]

  /** `users[email]` with its password compared: the account's role when
      the e-mail is in the table and the password is its own. */
  function Check(email: string, password: string): (r: Option<string>)
    ensures r.Some? <==> email in Users && Users[email].password == password
    ensures r.Some? ==> r.value == Users[email].role
  {
    if email in Users && Users[email].password == password then Some(Users[email].role) else None
  }

  /** Every demonstration account logs in with its own password and reaches
      a dashboard, and no two accounts reach the same one. */
  lemma AccountsReachDistinctDashboards(e1: string, e2: string)
    requires e1 in Users && e2 in Users
    ensures Check(e1, Users[e1].password).Some?
    ensures Login.DashboardPath(Users[e1].role).Some?
    ensures e1 != e2 ==> Login.DashboardPath(Users[e1].role) != Login.DashboardPath(Users[e2].role)
  {
  }

  class MockLoginHook {
    var email: string
    var password: string
    var loading: bool
    var error: string

    constructor ()
      ensures email == "" && password == "" && !loading && error == ""
    {
      email := "";
      password := "";
      loading := false;
      error := "";
    }

    method SetEmail(v: string)
      modifies this`email
      ensures email == v
    {
      email := v;
    }

    method SetPassword(v: string)
      modifies this`password
      ensures password == v
    {
      password := v;
    }

    /** `login(handleLoginSuccess)`: a matching account stores the session
        with the table's role and goes to its dashboard; otherwise the error
        is set and nothing is stored. Loading ends false either way. */
    method SubmitLogin(storage: Storage) returns (navigateTo: Option<string>)
      modifies this`error, this`loading, storage`user
      ensures !loading
      ensures Check(email, password).Some? ==>
                error == "" && storage.user == Some(SessionOf(email, Check(email, password).value))
                && navigateTo == Login.DashboardPath(Check(email, password).value)
      ensures Check(email, password).None? ==>
                error == "Invalid email or password" && storage.user == old(storage.user) && navigateTo.None?
    {
      error := "";
      loading := true;
      navigateTo := None;
      if email in Users && Users[email].password == password {
        var session := SessionOf(email, Users[email].role);
        storage.user := Some(session);
        navigateTo := Login.DashboardPath(session.role.value);
      } else {
        error := "Invalid email or password";
      }
      loading := false;
    }
  }
}
