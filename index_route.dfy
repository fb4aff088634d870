/** The start screen `Index`: where its effect sends the user once auth has loaded. */
module IndexRoute {
  import opened Wrappers
  import opened Roles
  import RouteProtection

  /** The effect of `Index`, as written; `None` when it does not navigate. */
  function IndexRedirect(loading: bool, signedIn: bool, profile: Option<Role>): Option<Route>
  {
    if loading then None
    else if !signedIn then Some(SignIn)
    else if signedIn && profile.Some? then
      if profile.value == Admin then Some(AdminTabs) else Some(StaffTabs)
    else None
  }

  /** Each case of the start screen. */
  lemma IndexCases(loading: bool, signedIn: bool, profile: Option<Role>)
    ensures loading ==> IndexRedirect(loading, signedIn, profile) == None
    ensures !loading && !signedIn ==> IndexRedirect(loading, signedIn, profile) == Some(SignIn)
    ensures !loading && signedIn && profile == Some(Admin) ==> IndexRedirect(loading, signedIn, profile) == Some(AdminTabs)
    ensures !loading && signedIn && profile == Some(Staff) ==> IndexRedirect(loading, signedIn, profile) == Some(StaffTabs)
    ensures !loading && signedIn && profile.None? ==> IndexRedirect(loading, signedIn, profile) == None
  {
  }

  /** The start screen and the route guard agree: `initializing` is `loading`, and wherever
      the start screen sends the user the guard leaves them. */
  lemma IndexTargetIsStable(loading: bool, signedIn: bool, profile: Option<Role>)
    requires IndexRedirect(loading, signedIn, profile).Some?
    ensures RouteProtection.ProtectRoute(loading, signedIn, profile, Segments(IndexRedirect(loading, signedIn, profile).value)) == None
  {
    var target := IndexRedirect(loading, signedIn, profile).value;
    RouteProtection.ProtectRouteIsTable(loading, signedIn, profile, Segments(target));
  }

  /** Signed in with a profile, the start screen goes to the place the guard sends the same
      user from an auth screen. */
  lemma IndexAgreesWithAuthScreen(role: Role, segments: seq<string>)
    requires RouteProtection.InAuth(segments)
    ensures IndexRedirect(false, true, Some(role)) == RouteProtection.ProtectRoute(false, true, Some(role), segments)
  {
  }
}
