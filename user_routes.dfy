/** The user routes: profile lookup and the admin-access check. Both only
    read the user table. */
module UserRoutes {
  import opened Common
  import opened UserModel
  import opened AuthMiddleware

  const AccessDenied := "Access denied"
  const WelcomeAdmin := "Welcome Admin!"

  /** `User.findById`. */
  function FindUser(us: seq<User>, id: Id): (r: Option<nat>)
    ensures r.Some? ==> r.value < |us| && us[r.value].id == id
    ensures r.Some? ==> forall j :: 0 <= j < r.value ==> us[j].id != id
    ensures r.None? ==> forall j :: 0 <= j < |us| ==> us[j].id != id
  {
    FirstIndex(us, (u: User) => u.id == id)
  }

  /** `GET /api/users/profile`: the principal's own user record, or 404. */
  function Profile(us: seq<User>, p: Principal): (r: Reply<User>)
    ensures r.Ok? <==> exists k :: 0 <= k < |us| && us[k].id == p.userId
    ensures r.Ok? ==> r.status == 200 && r.value in us && r.value.id == p.userId
    ensures r.Err? ==> r == Err(404, UserNotFound)
  {
    match FindUser(us, p.userId)
    case None => Err(404, UserNotFound)
    case Some(k) => Ok(200, us[k])
  }

  /** `GET /api/users/admin`: granted exactly when the principal's user
      exists and has the role `admin`; a missing user is denied. With unique
      ids, "the" user is any user with that id. */
  function AdminAccess(us: seq<User>, p: Principal): (r: Reply<string>)
    ensures r.Ok? ==> r == Ok(200, WelcomeAdmin) && exists k :: 0 <= k < |us| && us[k].id == p.userId && us[k].role == "admin"
    ensures r.Err? ==> r == Err(403, AccessDenied)
    ensures (forall k :: 0 <= k < |us| ==> us[k].id != p.userId) ==> r.Err?
    ensures UniqueKeys(us, UserKey) && (exists k :: 0 <= k < |us| && us[k].id == p.userId && us[k].role == "admin") ==> r.Ok?
  {
    match FindUser(us, p.userId)
    case None => Err(403, AccessDenied)
    case Some(k) => if us[k].role != "admin" then Err(403, AccessDenied) else Ok(200, WelcomeAdmin)
  }
}
