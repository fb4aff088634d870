/** What the authentication layer hands to the routing decisions: the role stored in a user's
    profile and the three places the application redirects to. */
module Roles {
  /** `UserRole`: the role field of a user profile. */
  datatype Role = Admin | Staff

  /** Targets of `router.replace`. */
  datatype Route = SignIn | AdminTabs | StaffTabs

  /** The path string passed to `router.replace`. */
  function Path(r: Route): string
  {
    match r
    case SignIn => "/(auth)/sign-in"
    case AdminTabs => "/(app)/(admin-tabs)"
    case StaffTabs => "/(app)/(tabs)"
  }

  /** The segments the router reports once it has navigated to the route: the path split at
      `/` without the leading empty piece. */
  function Segments(r: Route): (s: seq<string>)
    ensures |s| == 2
  {
    match r
    case SignIn => ["(auth)", "sign-in"]
    case AdminTabs => ["(app)", "(admin-tabs)"]
    case StaffTabs => ["(app)", "(tabs)"]
  }

  /** The tab group that belongs to a role. */
  function Home(role: Role): (r: Route)
    ensures r != SignIn
  {
    if role == Admin then AdminTabs else StaffTabs
  }
}
