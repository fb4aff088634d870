/** `useRouteProtection` and `useRoutePermissions`: the redirect the effect issues for the
    current auth state and route segments, and the permission flag for the current route. */
module RouteProtection {
  import opened Wrappers
  import opened Roles

  predicate InAuth(segments: seq<string>)
  {
    |segments| > 0 && segments[0] == "(auth)"
  }

  predicate InApp(segments: seq<string>)
  {
    |segments| > 0 && segments[0] == "(app)"
  }

  predicate InAdminTabs(segments: seq<string>)
  {
    |segments| > 1 && segments[1] == "(admin-tabs)"
  }

  predicate InStaffTabs(segments: seq<string>)
  {
    |segments| > 1 && segments[1] == "(tabs)"
  }

  /** `isAtAppRoot`: at most one segment, or two with an empty second one. */
  predicate IsAtAppRoot(segments: seq<string>)
  {
    |segments| <= 1 || (|segments| == 2 && segments[1] == "")
  }

  /** The effect of `useRouteProtection`, branch for branch as written: `None` when it returns
      without calling `router.replace`. `signedIn` is `user` being non-null and `profile` the
      role of `userProfile` when there is one. */
  function ProtectRoute(initializing: bool, signedIn: bool, profile: Option<Role>, segments: seq<string>): Option<Route>
  {
    if initializing then None
    else if !signedIn && !InAuth(segments) then Some(SignIn)
    else if signedIn && InAuth(segments) && profile.Some? then
      if profile.value == Admin then Some(AdminTabs) else Some(StaffTabs)
    else if signedIn && InApp(segments) && profile.Some? then
      if profile.value == Staff && InAdminTabs(segments) then Some(StaffTabs)
      else if profile.value == Admin && InStaffTabs(segments) then Some(AdminTabs)
      else if InApp(segments) && !InAdminTabs(segments) && !InStaffTabs(segments) then None
      else if IsAtAppRoot(segments) then
        if profile.value == Admin then Some(AdminTabs)
        else if profile.value == Staff then Some(StaffTabs)
        else None
      else None
    else None
  }

  /** The tab group that belongs to the other role. */
  predicate InOtherTabs(role: Role, segments: seq<string>)
  {
    if role == Admin then InStaffTabs(segments) else InAdminTabs(segments)
  }

  /** The same decision stated as a table: signed-out users outside the auth screens go to
      sign-in; signed-in users with a profile go to their own tab group from the auth screens
      or from the other role's tab group; nothing else moves. */
  function RedirectTable(initializing: bool, signedIn: bool, profile: Option<Role>, segments: seq<string>): Option<Route>
  {
    if initializing then None
    else if !signedIn then (if InAuth(segments) then None else Some(SignIn))
    else if profile.None? then None
    else if InAuth(segments) || (InApp(segments) && InOtherTabs(profile.value, segments)) then Some(Home(profile.value))
    else None
  }

  /** The `isAtAppRoot` branch is dead: it is reached only inside a tab group, where the second
      segment is a non-empty name. So the effect is exactly the table. */
  lemma ProtectRouteIsTable(initializing: bool, signedIn: bool, profile: Option<Role>, segments: seq<string>)
    ensures ProtectRoute(initializing, signedIn, profile, segments) == RedirectTable(initializing, signedIn, profile, segments)
  {
    if !initializing && signedIn && InApp(segments) && profile.Some? && (InAdminTabs(segments) || InStaffTabs(segments)) {
      assert !IsAtAppRoot(segments);
    }
  }

  lemma NoRedirectWhileInitializing(signedIn: bool, profile: Option<Role>, segments: seq<string>)
    ensures ProtectRoute(true, signedIn, profile, segments) == None
  {
  }

  /** Signed out: sign-in unless already on an auth screen, whatever the profile says. */
  lemma SignedOutGoesToSignIn(profile: Option<Role>, segments: seq<string>)
    ensures ProtectRoute(false, false, profile, segments) == if InAuth(segments) then None else Some(SignIn)
  {
  }

  /** A signed-in user with a profile on an auth screen goes to the tab group of the role. */
  lemma AuthScreenSendsHome(role: Role, segments: seq<string>)
    requires InAuth(segments)
    ensures ProtectRoute(false, true, Some(role), segments) == Some(Home(role))
    ensures role == Admin ==> ProtectRoute(false, true, Some(role), segments) == Some(AdminTabs)
    ensures role != Admin ==> ProtectRoute(false, true, Some(role), segments) == Some(StaffTabs)
  {
  }

  lemma StaffLeaveAdminTabs(segments: seq<string>)
    requires InApp(segments) && InAdminTabs(segments)
    ensures ProtectRoute(false, true, Some(Staff), segments) == Some(StaffTabs)
  {
  }

  lemma AdminLeavesStaffTabs(segments: seq<string>)
    requires InApp(segments) && InStaffTabs(segments)
    ensures ProtectRoute(false, true, Some(Admin), segments) == Some(AdminTabs)
  {
  }

  /** Routes of the app outside both tab groups (review, history, ...) are never redirected away
      from, for either role. */
  lemma OtherAppRoutesStay(role: Role, segments: seq<string>)
    requires InApp(segments) && !InAdminTabs(segments) && !InStaffTabs(segments)
    ensures ProtectRoute(false, true, Some(role), segments) == None
  {
  }

  /** Inside the tab group of one's own role nothing happens. */
  lemma OwnTabsStay(role: Role, segments: seq<string>)
    requires InApp(segments)
    requires (role == Admin && InAdminTabs(segments)) || (role == Staff && InStaffTabs(segments))
    ensures ProtectRoute(false, true, Some(role), segments) == None
  {
    ProtectRouteIsTable(false, true, Some(role), segments);
  }

  /** Signed in but without a profile, or outside both `(auth)` and `(app)`: no redirect. */
  lemma NoProfileNoRedirect(segments: seq<string>)
    ensures ProtectRoute(false, true, None, segments) == None
  {
  }

  lemma OutsideAuthAndAppStays(profile: Option<Role>, segments: seq<string>)
    requires !InAuth(segments) && !InApp(segments)
    ensures ProtectRoute(false, true, profile, segments) == None
  {
  }

  /** Every redirect is final: on the route it leads to, the same user is not redirected
      again. */
  lemma RedirectSettles(signedIn: bool, profile: Option<Role>, segments: seq<string>)
    requires ProtectRoute(false, signedIn, profile, segments).Some?
    ensures ProtectRoute(false, signedIn, profile, Segments(ProtectRoute(false, signedIn, profile, segments).value)) == None
  {
    var target := ProtectRoute(false, signedIn, profile, segments).value;
    ProtectRouteIsTable(false, signedIn, profile, segments);
    ProtectRouteIsTable(false, signedIn, profile, Segments(target));
  }

  /** `canAccessCurrentRoute` of `useRoutePermissions`, as written. Here the tab groups are
      recognised by the second segment alone, whatever the first. */
  function CanAccessCurrentRoute(profile: Option<Role>, segments: seq<string>): bool
  {
    if InAuth(segments) then true
    else if profile.None? then false
    else if InAdminTabs(segments) then profile.value == Admin
    else if InStaffTabs(segments) then profile.value == Staff || profile.value == Admin
    else true
  }

  /** The permission flag route by route. */
  lemma AccessRules(profile: Option<Role>, segments: seq<string>)
    ensures InAuth(segments) ==> CanAccessCurrentRoute(profile, segments)
    ensures !InAuth(segments) && profile.None? ==> !CanAccessCurrentRoute(profile, segments)
    ensures !InAuth(segments) && profile.Some? && InAdminTabs(segments) ==>
      (CanAccessCurrentRoute(profile, segments) <==> profile.value == Admin)
    ensures !InAuth(segments) && profile.Some? && InStaffTabs(segments) ==> CanAccessCurrentRoute(profile, segments)
    ensures !InAuth(segments) && profile.Some? && !InAdminTabs(segments) && !InStaffTabs(segments) ==>
      CanAccessCurrentRoute(profile, segments)
  {
  }

  /** Where a signed-in user with a profile is left on an app route, the permission flag
      agrees. */
  lemma StayingMeansAllowed(role: Role, segments: seq<string>)
    requires InApp(segments)
    requires ProtectRoute(false, true, Some(role), segments) == None
    ensures CanAccessCurrentRoute(Some(role), segments)
  {
    ProtectRouteIsTable(false, true, Some(role), segments);
  }

  /** The converse does not hold: the permission flag lets an admin into the staff tabs, which
      the redirect effect still leaves. */
  lemma AdminAllowedInStaffTabsButMoved()
    ensures CanAccessCurrentRoute(Some(Admin), Segments(StaffTabs))
    ensures ProtectRoute(false, true, Some(Admin), Segments(StaffTabs)) == Some(AdminTabs)
  {
  }
}
