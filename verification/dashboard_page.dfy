/** The /dashboard page: a redirect decided from the uid cookie and the
    user row it names. A failing lookup is caught and sent to /login. */
module DashboardPage {
  import opened Common
  import opened Store
  import LoginRoute

  /** Where a verified user with a complete profile lands. This table maps
      HOD to the admin dashboard and ADMIN to the generic one. */
  function RoleDashboard(role: Role): (p: string)
    ensures role == STUDENT <==> p == "/dashboard/student"
    ensures role == TEACHER <==> p == "/dashboard/teacher"
    ensures role == HOD <==> p == "/dashboard/admin"
    ensures role == ADMIN || role == OtherRole <==> p == "/dashboard"
  {
    match role
    case STUDENT => "/dashboard/student"
    case TEACHER => "/dashboard/teacher"
    case HOD => "/dashboard/admin"
    case _ => "/dashboard"
  }

  /** The page's redirect target. lookupFails stands for a database error
      during the lookup. */
  function DashboardRedirect(uid: Option<string>, users: seq<User>, lookupFails: bool): (p: string)
    ensures !Present(uid) ==> p == "/login"
    ensures Present(uid) && lookupFails ==> p == "/login"
    ensures Present(uid) && !lookupFails ==>
      var k := UserById(users, uid.value);
      (k.None? ==> p == "/login")
      && (k.Some? && !users[k.value].isEmailVerified ==> p == "/login")
      && (k.Some? && users[k.value].isEmailVerified && !users[k.value].isProfileComplete ==> p == "/complete-profile")
      && (k.Some? && users[k.value].isEmailVerified && users[k.value].isProfileComplete ==>
            p == RoleDashboard(users[k.value].role))
  {
    if !Present(uid) then "/login"
    else if lookupFails then "/login"
    else
      var k := UserById(users, uid.value);
      if k.None? then "/login"
      else
        var user := users[k.value];
        if !user.isEmailVerified then "/login"
        else if !user.isProfileComplete then "/complete-profile"
        else RoleDashboard(user.role)
  }

  /** Only a verified user with a complete profile reaches a dashboard; every
      other visitor is sent to /login or /complete-profile. */
  lemma OnlyFinishedAccountsReachDashboards(uid: Option<string>, users: seq<User>, lookupFails: bool)
    ensures var p := DashboardRedirect(uid, users, lookupFails);
      p != "/login" && p != "/complete-profile" ==>
        Present(uid) && !lookupFails && UserById(users, uid.value).Some?
        && users[UserById(users, uid.value).value].isEmailVerified
        && users[UserById(users, uid.value).value].isProfileComplete
  {
  }

  /** The page and the login route agree on students and teachers but not on
      the two staff roles: login sends HOD to /dashboard/hod and ADMIN to
      /dashboard/admin, the page sends HOD to /dashboard/admin and ADMIN to
      /dashboard. */
  lemma StaffRolesDisagreeWithLogin()
    ensures RoleDashboard(STUDENT) == LoginRoute.RoleHome(STUDENT)
    ensures RoleDashboard(TEACHER) == LoginRoute.RoleHome(TEACHER)
    ensures RoleDashboard(HOD) == "/dashboard/admin" != LoginRoute.RoleHome(HOD)
    ensures RoleDashboard(ADMIN) == "/dashboard" != LoginRoute.RoleHome(ADMIN)
  {
  }
}
