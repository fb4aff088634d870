/** `RoleGuard` and its three presets, and the capability flags of `useRoleAccess`. */
module RoleGuard {
  import opened Wrappers
  import opened Roles

  /** What `RoleGuard` renders; `Fallback` carries the caller's fallback node. */
  datatype View<F> = LoadingView | Fallback(node: F) | AccessDenied | ChildrenView

  /** `RoleGuard({children, allowedRoles, fallback})`. A fallback is `Some` when it is a
      truthy node. */
  function Guard<F>(loading: bool, profile: Option<Role>, allowedRoles: seq<Role>, fallback: Option<F>): View<F>
  {
    if loading then LoadingView
    else if profile.None? || profile.value !in allowedRoles then
      if fallback.Some? then Fallback(fallback.value) else AccessDenied
    else ChildrenView
  }

  /** The outcome cases of the guard, each one both ways. */
  lemma GuardOutcomes<F>(loading: bool, profile: Option<Role>, allowedRoles: seq<Role>, fallback: Option<F>)
    ensures Guard(loading, profile, allowedRoles, fallback) == LoadingView <==> loading
    ensures Guard(loading, profile, allowedRoles, fallback) == ChildrenView <==>
      !loading && profile.Some? && profile.value in allowedRoles
    ensures Guard(loading, profile, allowedRoles, fallback) == AccessDenied <==>
      !loading && (profile.None? || profile.value !in allowedRoles) && fallback.None?
    ensures Guard(loading, profile, allowedRoles, fallback).Fallback? <==>
      !loading && (profile.None? || profile.value !in allowedRoles) && fallback.Some?
    ensures Guard(loading, profile, allowedRoles, fallback).Fallback? ==>
      Guard(loading, profile, allowedRoles, fallback).node == fallback.value
  {
  }

  const AdminRoles: seq<Role> := [Admin]
  const StaffRoles: seq<Role> := [Staff]
  const StaffOrAdminRoles: seq<Role> := [Staff, Admin]

  function AdminOnly<F>(loading: bool, profile: Option<Role>, fallback: Option<F>): View<F>
  {
    Guard(loading, profile, AdminRoles, fallback)
  }

  function StaffOnly<F>(loading: bool, profile: Option<Role>, fallback: Option<F>): View<F>
  {
    Guard(loading, profile, StaffRoles, fallback)
  }

  function StaffOrAdmin<F>(loading: bool, profile: Option<Role>, fallback: Option<F>): View<F>
  {
    Guard(loading, profile, StaffOrAdminRoles, fallback)
  }

  /** Who gets past each preset once loading is over. */
  lemma PresetsAdmit<F>(profile: Option<Role>, fallback: Option<F>)
    ensures AdminOnly(false, profile, fallback) == ChildrenView <==> profile == Some(Admin)
    ensures StaffOnly(false, profile, fallback) == ChildrenView <==> profile == Some(Staff)
    ensures StaffOrAdmin(false, profile, fallback) == ChildrenView <==> profile.Some?
  {
    if profile.Some? {
      assert profile.value == StaffOrAdminRoles[0] || profile.value == StaffOrAdminRoles[1];
    }
  }

  /** The flags `useRoleAccess` computes. */
  datatype Access = Access(
    isAdmin: bool,
    isStaff: bool,
    canAccessAdminFeatures: bool,
    canCaptureImages: bool,
    canCreateAssessments: bool,
    canViewOwnAssessments: bool,
    canViewAllAssessments: bool)

  /** `useRoleAccess()`, with `isAdmin()` and `isStaff()` being the profile's role. */
  function RoleAccess(profile: Option<Role>): Access
  {
    var isAdmin := profile == Some(Admin);
    var isStaff := profile == Some(Staff);
    Access(isAdmin, isStaff, isAdmin, isStaff || isAdmin, isStaff || isAdmin, isStaff || isAdmin, isAdmin)
  }

  /** The capability flags grant exactly what the guards let through: the admin-only
      capabilities are `AdminOnly`, the others `StaffOrAdmin`. */
  lemma CapabilitiesMatchGuards<F>(profile: Option<Role>, fallback: Option<F>)
    ensures RoleAccess(profile).canAccessAdminFeatures <==> AdminOnly(false, profile, fallback) == ChildrenView
    ensures RoleAccess(profile).canViewAllAssessments <==> AdminOnly(false, profile, fallback) == ChildrenView
    ensures RoleAccess(profile).canCaptureImages <==> StaffOrAdmin(false, profile, fallback) == ChildrenView
    ensures RoleAccess(profile).canCreateAssessments <==> StaffOrAdmin(false, profile, fallback) == ChildrenView
    ensures RoleAccess(profile).canViewOwnAssessments <==> StaffOrAdmin(false, profile, fallback) == ChildrenView
  {
  }

  /** With a profile every user may capture, create and view their own assessments; only the
      admin capabilities depend on the role. */
  lemma AdminCapabilitiesImplyStaffOnes(profile: Option<Role>)
    ensures RoleAccess(profile).canViewAllAssessments ==> RoleAccess(profile).canViewOwnAssessments
    ensures RoleAccess(profile).canAccessAdminFeatures ==> RoleAccess(profile).canCreateAssessments
    ensures RoleAccess(profile).canCaptureImages <==> profile.Some?
  {
    if profile.Some? {
      assert profile.value == Admin || profile.value == Staff;
    }
  }
}
