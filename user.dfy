/**
 * The user record (flask-app/app/models/user.py), its password hashing contract and its
 * dictionary form, with the primary-key and username lookups the services use.
 *
 * Password hashing is werkzeug's: `generate_password_hash` draws a random salt and
 * `check_password_hash` recomputes. Both are taken as a `Hasher` of two functions; the only
 * thing assumed of them is `Sound`, that a hash checks against its own password.
 */
module UserModel {
  import opened Base
  import opened JsonValues

  datatype User = User(
    id: int,
    username: string,
    email: string,
    passwordHash: string,
    fullName: Option<string>,
    bio: Option<string>,
    isActive: bool,
    isAdmin: bool,
    createdAt: int)

  datatype Hasher = Hasher(hash: (nat, string) -> string, verify: (string, string) -> bool)

  ghost predicate Sound(h: Hasher) {
    forall salt: nat, password: string :: h.verify(h.hash(salt, password), password)
  }

  /** `User(username=..., email=..., full_name=...)` with `set_password` applied: active, not an admin. */
  function NewUser(id: int, username: string, email: string, fullName: Option<string>,
                   passwordHash: string, createdAt: int): (u: User)
    ensures u.isActive && !u.isAdmin
    ensures u.bio.None?
    ensures u.id == id && u.username == username && u.email == email && u.fullName == fullName
    ensures u.passwordHash == passwordHash && u.createdAt == createdAt
  {
    User(id, username, email, passwordHash, fullName, None, true, false, createdAt)
  }

  /** `set_password`: only the hash of the password is stored, under a fresh salt. */
  function SetPassword(u: User, h: Hasher, salt: nat, password: string): (v: User)
    ensures v.passwordHash == h.hash(salt, password)
    ensures v == u.(passwordHash := v.passwordHash)
  {
    u.(passwordHash := h.hash(salt, password))
  }

  /** `check_password`: the stored hash is checked with the hasher; a hash of the password under any salt passes. */
  function CheckPassword(u: User, h: Hasher, password: string): (ok: bool)
    ensures (Sound(h) && exists salt: nat :: u.passwordHash == h.hash(salt, password)) ==> ok
  {
    h.verify(u.passwordHash, password)
  }

  /** A password checks against the hash `set_password` stored for it. */
  lemma CheckAfterSet(u: User, h: Hasher, salt: nat, password: string)
    requires Sound(h)
    ensures CheckPassword(SetPassword(u, h, salt, password), h, password)
  {
  }

  /** `to_dict(include_email)`: the email only when asked for, the password hash never. */
  function ToDict(u: User, includeEmail: bool): (d: map<string, Json>)
    ensures "email" in d <==> includeEmail
    ensures includeEmail ==> d["email"] == Str(u.email)
    ensures "password_hash" !in d
    ensures d.Keys - {"email"} == {"id", "username", "full_name", "bio", "is_admin", "created_at"}
  {
    var d := map[
      "id" := Int(u.id),
      "username" := Str(u.username),
      "full_name" := OptStr(u.fullName),
      "bio" := OptStr(u.bio),
      "is_admin" := Bool(u.isAdmin),
      "created_at" := Int(u.createdAt)];
    if includeEmail then d["email" := Str(u.email)] else d
  }

  /** The first row, in table order, that `matches` accepts (a query's `.first()`). */
  function FindFirst(users: seq<User>, matches: User -> bool): (r: Option<User>)
    ensures r.Some? ==> r.value in users && matches(r.value)
    ensures r.None? <==> forall u :: u in users ==> !matches(u)
  {
    if users == [] then None
    else if matches(users[0]) then Some(users[0])
    else
      assert forall u :: u in users <==> u == users[0] || u in users[1..];
      FindFirst(users[1..], matches)
  }

  /** `User.query.get(id)` */
  function FindById(users: seq<User>, id: int): (r: Option<User>)
    ensures r.Some? ==> r.value in users && r.value.id == id
    ensures r.None? <==> forall u :: u in users ==> u.id != id
  {
    FindFirst(users, (u: User) => u.id == id)
  }

  /** `User.query.filter_by(username=username).first()` */
  function FindByUsername(users: seq<User>, username: string): (r: Option<User>)
    ensures r.Some? ==> r.value in users && r.value.username == username
    ensures r.None? <==> forall u :: u in users ==> u.username != username
  {
    FindFirst(users, (u: User) => u.username == username)
  }

  predicate EmailTaken(users: seq<User>, email: string) {
    exists u :: u in users && u.email == email
  }

  /** The `unique=True` columns: no two rows share a username or an email, nor an id. */
  predicate UniqueColumns(users: seq<User>) {
    forall i, j :: 0 <= i < j < |users| ==>
      users[i].id != users[j].id && users[i].username != users[j].username && users[i].email != users[j].email
  }
}
