/**
 * The `/dashboard` page: who is signed in decides where they are sent. A
 * visitor without a session goes to the sign-in page; a user whose role is
 * admin, coach or player goes to that role's dashboard; anyone else sees the
 * generic dashboard, greeted by name or e-mail.
 */
module Dashboard {
  import opened Wrappers
  import opened Text
  import opened Accounts

  /** What the `users` query by id answered: an error, no row, the row, or an exception. */
  datatype RowLookup =
    | LookupError
    | NoRow
    | Found(row: UserRow)
    | LookupThrew

  /** The user data the page works with: the row's role and name, or the metadata role alone. */
  datatype UserData = UserData(role: Option<string>, fullName: Option<string>)

  /** What the page does: a redirect, or the generic dashboard with its greeting. */
  datatype Page = Redirect(path: string) | Render(greeting: Option<string>)

  const SignInPath := "/sign-in"
  const AdminPath := "/dashboard/admin"
  const CoachPath := "/dashboard/coach"
  const PlayerPath := "/dashboard/player"

  /**
   * `userData` after the lookup and the fallback: the row when the query
   * returned one, else the metadata role when that is set, else nothing.
   */
  function LoadUserData(user: AuthUser, lookup: RowLookup): (d: Option<UserData>)
    ensures d.None? <==> !lookup.Found? && !Filled(user.metadataRole)
    ensures d.Some? && !lookup.Found? ==> d.value.fullName.None?
  {
    if lookup.Found? then Some(UserData(lookup.row.role, Some(lookup.row.fullName)))
    else if Filled(user.metadataRole) then Some(UserData(user.metadataRole, None))
    else None
  }

  /** The role the redirect looks at (`userData?.role`). */
  function EffectiveRole(user: AuthUser, lookup: RowLookup): (role: Option<string>)
    ensures lookup.Found? ==> role == lookup.row.role
    ensures !lookup.Found? ==> role == (if Filled(user.metadataRole) then user.metadataRole else None)
  {
    match LoadUserData(user, lookup)
    case Some(d) => d.role
    case None => None
  }

  /** The dashboard of a known role; no route for any other string. */
  function RoleRoute(role: string): (p: Option<string>)
    ensures p.Some? <==> role in {"admin", "coach", "player"}
    ensures p.Some? ==> p.value == "/dashboard/" + role
  {
    if role == "admin" then Some(AdminPath)
    else if role == "coach" then Some(CoachPath)
    else if role == "player" then Some(PlayerPath)
    else None
  }

  /** `Dashboard`: sign-in redirect, role redirect, or the generic page. */
  function DashboardPage(user: Option<AuthUser>, lookup: RowLookup): (p: Page)
    ensures user.None? <==> p == Redirect(SignInPath)
    ensures p.Redirect? ==> p.path in {SignInPath, AdminPath, CoachPath, PlayerPath}
  {
    if user.None? then Redirect(SignInPath)
    else
      var u := user.value;
      var data := LoadUserData(u, lookup);
      var role := EffectiveRole(u, lookup);
      if Filled(role) && RoleRoute(role.value).Some? then Redirect(RoleRoute(role.value).value)
      else
        var name := if data.Some? then data.value.fullName else None;
        Render(if Filled(name) then name else u.email)
  }

  /**
   * A signed-in user is redirected exactly when the effective role is one of
   * the three known roles, and then to that role's dashboard.
   */
  lemma RedirectIffKnownRole(u: AuthUser, lookup: RowLookup)
    ensures var p := DashboardPage(Some(u), lookup);
            var role := EffectiveRole(u, lookup);
            && (p.Redirect? <==> role.Some? && role.value in {"admin", "coach", "player"})
            && (p.Redirect? ==> p.path == "/dashboard/" + role.value)
  {
  }

  /** A row in the database decides the role, whatever the metadata says. */
  lemma RowRoleWins(u: AuthUser, v: AuthUser, row: UserRow)
    requires u.id == v.id && u.email == v.email
    ensures DashboardPage(Some(u), Found(row)) == DashboardPage(Some(v), Found(row))
    ensures EffectiveRole(u, Found(row)) == row.role
  {
  }

  /**
   * Without a row (no row, a query error or an exception alike) the metadata
   * role decides, and the greeting is the e-mail.
   */
  lemma MetadataRoleWithoutRow(u: AuthUser, lookup: RowLookup)
    requires !lookup.Found?
    ensures EffectiveRole(u, lookup) == (if Filled(u.metadataRole) then u.metadataRole else None)
    ensures DashboardPage(Some(u), lookup) == DashboardPage(Some(u), NoRow)
    ensures DashboardPage(Some(u), lookup).Render? ==> DashboardPage(Some(u), lookup).greeting == u.email
  {
  }

  /** A row with no role is not replaced by the metadata role: the generic dashboard is shown. */
  lemma RowWithoutRoleShowsGenericPage(u: AuthUser, row: UserRow)
    requires !Filled(row.role)
    ensures DashboardPage(Some(u), Found(row)).Render?
  {
  }

  /** The generic page greets by the row's name when it has one, else by the e-mail. */
  lemma GreetingFallsBackToEmail(u: AuthUser, lookup: RowLookup)
    requires DashboardPage(Some(u), lookup).Render?
    ensures var g := DashboardPage(Some(u), lookup).greeting;
            g == if lookup.Found? && lookup.row.fullName != "" then Some(lookup.row.fullName) else u.email
  {
  }
}
