/**
 * The authorization decisions of `jwt_required_with_user` and `admin_required`
 * (flask-app/app/utils/decorators.py). Token verification is not modelled: the identity the
 * token carries is a parameter, and the wrapped view is a function of the loaded user.
 */
module Decorators {
  import opened Base
  import opened UserModel

  const UserUnavailable: string := "사용자를 찾을 수 없거나 비활성화되었습니다"
  const AdminOnly: string := "관리자 권한이 필요합니다"

  /** Either the error response the wrapper answers with, or what the wrapped view returned. */
  datatype Guarded<R> = Denied(status: int, error: string) | Handled(value: R)

  /** `jwt_required_with_user`: 401 for a missing or inactive user, else the view called with that user. */
  function JwtRequiredWithUser<R>(users: seq<User>, identity: int, view: User -> R): (r: Guarded<R>)
    ensures r.Denied? <==> FindById(users, identity).None? || !FindById(users, identity).value.isActive
    ensures r.Denied? ==> r == Denied(401, UserUnavailable)
    ensures r.Handled? ==> r.value == view(FindById(users, identity).value)
  {
    match FindById(users, identity)
    case None => Denied(401, UserUnavailable)
    case Some(u) => if !u.isActive then Denied(401, UserUnavailable) else Handled(view(u))
  }

  /** `admin_required`: the same 401 first, then 403 for an active user who is not an admin. */
  function AdminRequired<R>(users: seq<User>, identity: int, view: User -> R): (r: Guarded<R>)
    ensures (FindById(users, identity).None? || !FindById(users, identity).value.isActive)
              ==> r == Denied(401, UserUnavailable)
    ensures (FindById(users, identity).Some? && FindById(users, identity).value.isActive
             && !FindById(users, identity).value.isAdmin)
              ==> r == Denied(403, AdminOnly)
    ensures r.Handled? <==>
              FindById(users, identity).Some? && FindById(users, identity).value.isActive
              && FindById(users, identity).value.isAdmin
    ensures r.Handled? ==> r.value == view(FindById(users, identity).value)
  {
    match FindById(users, identity)
    case None => Denied(401, UserUnavailable)
    case Some(u) =>
      if !u.isActive then Denied(401, UserUnavailable)
      else if !u.isAdmin then Denied(403, AdminOnly)
      else Handled(view(u))
  }

  /** Whoever passes `admin_required` passes `jwt_required_with_user`, and the view sees the same user. */
  lemma AdminPassesLogin<R>(users: seq<User>, identity: int, view: User -> R)
    requires AdminRequired(users, identity, view).Handled?
    ensures JwtRequiredWithUser(users, identity, view) == AdminRequired(users, identity, view)
  {
  }

  /** Where `jwt_required_with_user` refuses, `admin_required` refuses with the very same response. */
  lemma LoginRefusalIsShared<R>(users: seq<User>, identity: int, view: User -> R)
    requires JwtRequiredWithUser(users, identity, view).Denied?
    ensures AdminRequired(users, identity, view) == JwtRequiredWithUser(users, identity, view)
  {
  }
}
