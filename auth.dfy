/**
 * The access gates every page runs before rendering: `requireAuth` sends a
 * visitor without a session to `/login`; `requireRole` additionally looks up
 * the user's profile and sends a user whose role is not allowed to
 * `/dashboard`. The redirects are modelled as the gate's result.
 */
module Auth {
  import opened Js
  import opened Database

  /** What a gate decides: let the user through, or redirect to a page. */
  datatype Gate = Pass(user: User) | Redirect(to: string)

  const LoginPage := "/login"
  const DashboardPage := "/dashboard"

  /**
   * `getProfile(userId)`: the single profile row with that `user_id`, or null
   * whenever the query reports an error (including when there is no such row).
   */
  function GetProfile(perfiles: map<string, Perfil>, userId: string, queryFails: bool): (r: Option<Perfil>)
    ensures queryFails ==> r.None?
    ensures r.Some? ==> userId in perfiles && r.value == perfiles[userId]
    ensures !queryFails && userId in perfiles ==> r.Some?
  {
    if queryFails || userId !in perfiles then None else Some(perfiles[userId])
  }

  /** `checkRole(userId, allowedRoles)`: false without a profile, else whether its `rol` is allowed. */
  function CheckRole(perfiles: map<string, Perfil>, userId: string, queryFails: bool, allowedRoles: seq<string>): (ok: bool)
    ensures ok <==> !queryFails && userId in perfiles && RolName(perfiles[userId].rol) in allowedRoles
  {
    var profile := GetProfile(perfiles, userId, queryFails);
    if profile.None? then false else RolName(profile.value.rol) in allowedRoles
  }

  /** `requireAuth()`: redirect to `/login` exactly when there is no signed-in user. */
  function RequireAuth(user: Option<User>): (g: Gate)
    ensures g.Redirect? <==> user.None?
    ensures g.Redirect? ==> g.to == LoginPage
    ensures g.Pass? ==> user == Some(g.user)
  {
    if user.None? then Redirect(LoginPage) else Pass(user.value)
  }

  /**
   * `requireRole(allowedRoles)`: authentication first, then the role check,
   * which redirects to `/dashboard` when it fails.
   */
  function RequireRole(user: Option<User>, perfiles: map<string, Perfil>, queryFails: bool, allowedRoles: seq<string>): (g: Gate)
    ensures user.None? ==> g == Redirect(LoginPage)
    ensures user.Some? ==> (g.Pass? <==> CheckRole(perfiles, user.value.id, queryFails, allowedRoles))
    ensures user.Some? && g.Redirect? ==> g.to == DashboardPage
    ensures g.Pass? ==> user == Some(g.user)
  {
    match RequireAuth(user)
    case Redirect(to) => Redirect(to)
    case Pass(u) =>
      if !CheckRole(perfiles, u.id, queryFails, allowedRoles) then Redirect(DashboardPage) else Pass(u)
  }

  /** A user let through by the role gate is let through by the authentication gate. */
  lemma RoleGateImpliesAuthGate(user: Option<User>, perfiles: map<string, Perfil>, queryFails: bool, allowedRoles: seq<string>)
    ensures RequireRole(user, perfiles, queryFails, allowedRoles).Pass? ==>
      RequireAuth(user) == RequireRole(user, perfiles, queryFails, allowedRoles)
  {
  }

  /** The role list of the product, entry and exit pages. */
  const StaffRoles := ["admin", "empleado"]

  /**
   * With `['admin', 'empleado']` allowed, an employee or administrator with a
   * readable profile passes and an auditor never does.
   */
  lemma StaffGate(u: User, perfiles: map<string, Perfil>, queryFails: bool)
    ensures u.id in perfiles && perfiles[u.id].rol == Auditor ==>
      RequireRole(Some(u), perfiles, queryFails, StaffRoles) == Redirect(DashboardPage)
    ensures !queryFails && u.id in perfiles && perfiles[u.id].rol != Auditor ==>
      RequireRole(Some(u), perfiles, queryFails, StaffRoles) == Pass(u)
  {
    if u.id in perfiles && perfiles[u.id].rol == Auditor {
      assert RolName(Auditor) !in StaffRoles;
    }
  }
}
