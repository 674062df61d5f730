/** The profile badge (src/components/UserProfile.js): the name and role
    shown for the stored user. A missing stored user reads as `{}`. */
module UserProfile {
  import opened Common
  import opened Session
  import Login

  const NoUser := StoredUser(None, None, None)

  /** `JSON.parse(localStorage.getItem("cts_user") || "{}")`. */
  function ShownUser(stored: Option<StoredUser>): (u: StoredUser)
    ensures stored.Some? ==> u == stored.value
    ensures stored.None? ==> u == NoUser
  {
    stored.GetOr(NoUser)
  }

  /** `roleMap`: two backend role names are shortened, the other three
      shown as they are. */
  const RoleMap: map<string, string> := map[
    Login.StudentRole := "Student",
    Login.CoordinatorRole := "Program Coordinator",
    Login.ExpertRole := "Subject Method Expert",
    Login.HosRole := "Head of Section",
    Login.AdminRole := "Admin"
  ]

  /** `roleMap[role] || role || "Unknown"`. */
  function RoleDisplayName(role: Option<string>): (r: string)
    ensures role.Some? && role.value in RoleMap ==> r == RoleMap[role.value]
    ensures role.Some? && role.value !in RoleMap && role.value != "" ==> r == role.value
    ensures role.None? || role.value == "" ==> r == "Unknown"
  {
    if role.Some? && role.value in RoleMap && RoleMap[role.value] != "" then RoleMap[role.value]
    else if role.Some? && role.value != "" then role.value
    else "Unknown"
  }

  /** The displayed role is never empty, and exactly the five backend roles
      are translated. */
  lemma RoleDisplayNonEmpty(role: Option<string>)
    ensures RoleDisplayName(role) != ""
    ensures role.Some? ==> (role.value in RoleMap <==> Login.KnownRole(role.value))
  {
  }

  /** Only the head of section and the administrator are renamed. */
  lemma RenamedRoles(role: string)
    requires role in RoleMap
    ensures RoleDisplayName(Some(role)) != role <==> role == Login.HosRole || role == Login.AdminRole
  {
  }

  /** `user.name || user.email?.split('@')[0] || "User"`. */
  function UserName(u: StoredUser): (n: string)
    ensures u.name.Some? && u.name.value != "" ==> n == u.name.value
    ensures (u.name.None? || u.name.value == "") && u.email.Some? && BeforeFirst(u.email.value, '@') != "" ==>
              n == BeforeFirst(u.email.value, '@')
    ensures (u.name.None? || u.name.value == "") && (u.email.None? || BeforeFirst(u.email.value, '@') == "") ==>
              n == "User"
    ensures n != ""
  {
    if u.name.Some? && u.name.value != "" then u.name.value
    else if u.email.Some? && BeforeFirst(u.email.value, '@') != "" then BeforeFirst(u.email.value, '@')
    else "User"
  }

  /** The e-mail's local part is shown for a session written at login,
      which has no name. */
  lemma LoginSessionShowsLocalPart(local: string, domain: string, role: string)
    requires local != "" && '@' !in local
    ensures UserName(SessionOf(local + "@" + domain, role)) == local
  {
    BeforeFirstOfJoin(local, '@', domain);
  }

  /** Without a stored user the badge reads "User" and "Unknown". */
  lemma MissingUserBadge()
    ensures UserName(ShownUser(None)) == "User" && RoleDisplayName(ShownUser(None).role) == "Unknown"
  {
  }
}
