/** The landing route `/dashboard/`: before it loads, it sends the visitor
    elsewhere according to the session and the user's role. */
module Landing {
  import opened Http

  /** What the landing route reads of a session: the user's role, which the
      user record may lack. */
  datatype SessionData = SessionData(role: Option<string>)

  const LoginPath := "/login"
  const SearchPath := "/dashboard/search"
  const AdminPath := "/dashboard/admin"
  const ProjectsPath := "/dashboard/projects"

  /** The path the route redirects to; `session` is `None` when the session
      call returns no data. */
  function LandingRedirect(session: Option<SessionData>): (to: string)
    ensures session.None? ==> to == LoginPath
    ensures session.Some? && session.value.role == Some("broker") ==> to == SearchPath
    ensures session.Some? && session.value.role == Some("admin") ==> to == AdminPath
    ensures session.Some? && session.value.role !in {Some("broker"), Some("admin")} ==> to == ProjectsPath
  {
    if session.None? then LoginPath
    else
      match session.value.role
      case Some(role) =>
        if role == "broker" then SearchPath
        else if role == "admin" then AdminPath
        else if role == "developer" then ProjectsPath
        else ProjectsPath
      case None => ProjectsPath
  }

  /** Every visitor leaves the landing route for one of four pages, and only
      a visitor without a session is sent to the login page. */
  lemma RedirectTargets(session: Option<SessionData>)
    ensures LandingRedirect(session) in {LoginPath, SearchPath, AdminPath, ProjectsPath}
    ensures LandingRedirect(session) == LoginPath <==> session.None?
  {
  }

  /** Each role-specific page is reached by exactly one role. */
  lemma RolePages(session: Option<SessionData>)
    ensures LandingRedirect(session) == SearchPath <==> session == Some(SessionData(Some("broker")))
    ensures LandingRedirect(session) == AdminPath <==> session == Some(SessionData(Some("admin")))
  {
  }

  /** A developer, a user with any other role, and a user without a role all
      land on the projects page. */
  lemma DeveloperFallsBackToProjects(role: Option<string>)
    ensures role == Some("developer") ==> LandingRedirect(Some(SessionData(role))) == ProjectsPath
    ensures LandingRedirect(Some(SessionData(role))) == ProjectsPath <==> role !in {Some("broker"), Some("admin")}
  {
  }
}
