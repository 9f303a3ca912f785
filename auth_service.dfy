/**
 * Registration, login and profile editing (flask-app/app/services/auth_service.py) over the
 * `users` table. The random salt, the clock and the outcome of each commit are parameters;
 * a failed commit is rolled back and leaves the table as it was.
 */
module AuthService {
  import opened Base
  import opened UserModel
  import Validators

  const UsernameTaken: string := "이미 사용 중인 사용자명입니다"
  const EmailInUse: string := "이미 사용 중인 이메일입니다"
  const RegisterPrefix: string := "회원가입 중 오류가 발생했습니다: "
  const CredentialsRequired: string := "사용자명과 비밀번호를 입력해주세요"
  const BadCredentials: string := "사용자명 또는 비밀번호가 올바르지 않습니다"
  const AccountDisabled: string := "비활성화된 계정입니다"
  const ProfilePrefix: string := "프로필 업데이트 중 오류가 발생했습니다: "

  /**
   * The first reason `register_user` refuses, checking username, email, password, a taken
   * username and a taken email in that order; `None` when registration may proceed.
   */
  function RegistrationError(users: seq<User>, username: string, email: string, password: string): (e: Option<string>)
    ensures e.None? <==>
              && Validators.ValidateUsername(username) == Validators.Valid
              && Validators.ValidateEmail(email) == Validators.Valid
              && Validators.ValidatePassword(password) == Validators.Valid
              && FindByUsername(users, username).None?
              && !EmailTaken(users, email)
    ensures Validators.ValidateUsername(username).Invalid? ==> e == Some(Validators.ValidateUsername(username).message)
    ensures (Validators.ValidateUsername(username) == Validators.Valid && Validators.ValidateEmail(email).Invalid?)
              ==> e == Some(Validators.ValidateEmail(email).message)
    ensures (Validators.ValidateUsername(username) == Validators.Valid && Validators.ValidateEmail(email) == Validators.Valid
             && Validators.ValidatePassword(password).Invalid?)
              ==> e == Some(Validators.ValidatePassword(password).message)
    ensures (Validators.ValidateUsername(username) == Validators.Valid && Validators.ValidateEmail(email) == Validators.Valid
             && Validators.ValidatePassword(password) == Validators.Valid && FindByUsername(users, username).Some?)
              ==> e == Some(UsernameTaken)
    ensures (Validators.ValidateUsername(username) == Validators.Valid && Validators.ValidateEmail(email) == Validators.Valid
             && Validators.ValidatePassword(password) == Validators.Valid && FindByUsername(users, username).None?
             && EmailTaken(users, email))
              ==> e == Some(EmailInUse)
    ensures e.Some? ==> e.value != ""
  {
    var u := Validators.ValidateUsername(username);
    var m := Validators.ValidateEmail(email);
    var p := Validators.ValidatePassword(password);
    if u.Invalid? then Some(u.message)
    else if m.Invalid? then Some(m.message)
    else if p.Invalid? then Some(p.message)
    else if FindByUsername(users, username).Some? then Some(UsernameTaken)
    else if EmailTaken(users, email) then Some(EmailInUse)
    else None
  }

  /** A valid registration under a username that is already in use reports the username, even if the email is taken too. */
  lemma TakenUsernameReportedBeforeEmail(users: seq<User>, username: string, email: string, password: string)
    requires RegistrationError([], username, email, password).None?
    requires exists u :: u in users && u.username == username
    ensures RegistrationError(users, username, email, password) == Some(UsernameTaken)
  {
  }

  datatype AuthResult = AuthResult(success: bool, user: Option<User>, error: Option<string>)

  /** `authenticate_user` */
  function AuthenticateUser(users: seq<User>, h: Hasher, username: string, password: string): (r: AuthResult)
    ensures username == "" || password == "" ==> r == AuthResult(false, None, Some(CredentialsRequired))
    ensures r.success <==>
              && username != "" && password != ""
              && FindByUsername(users, username).Some?
              && FindByUsername(users, username).value.isActive
              && CheckPassword(FindByUsername(users, username).value, h, password)
    ensures r.success ==> r.user == FindByUsername(users, username) && r.error.None?
    ensures !r.success ==> r.user.None? && r.error.Some?
  {
    if username == "" || password == "" then AuthResult(false, None, Some(CredentialsRequired))
    else match FindByUsername(users, username)
      case None => AuthResult(false, None, Some(BadCredentials))
      case Some(u) =>
        if !u.isActive then AuthResult(false, None, Some(AccountDisabled))
        else if !CheckPassword(u, h, password) then AuthResult(false, None, Some(BadCredentials))
        else AuthResult(true, Some(u), None)
  }

  /** An unknown username and a wrong password for an active account get the very same answer. */
  lemma UnknownUserLooksLikeWrongPassword(users: seq<User>, h: Hasher, unknown: string, known: string,
                                          password: string, wrong: string)
    requires unknown != "" && known != "" && password != "" && wrong != ""
    requires forall u :: u in users ==> u.username != unknown
    requires FindByUsername(users, known).Some? && FindByUsername(users, known).value.isActive
    requires !CheckPassword(FindByUsername(users, known).value, h, wrong)
    ensures AuthenticateUser(users, h, unknown, password) == AuthenticateUser(users, h, known, wrong)
  {
    assert FindByUsername(users, unknown).None?;
  }

  /** A disabled account is reported as such whatever the password, right or wrong. */
  lemma DisabledBeforePassword(users: seq<User>, h: Hasher, username: string, password: string)
    requires username != "" && password != ""
    requires FindByUsername(users, username).Some? && !FindByUsername(users, username).value.isActive
    ensures AuthenticateUser(users, h, username, password).error == Some(AccountDisabled)
  {
  }

  /** `full_name` and `bio` set from `data` when their keys are present; nothing else changes. */
  function Profiled(u: User, data: map<string, Option<string>>): (v: User)
    ensures v.fullName == (if "full_name" in data then data["full_name"] else u.fullName)
    ensures v.bio == (if "bio" in data then data["bio"] else u.bio)
    ensures v == u.(fullName := v.fullName, bio := v.bio)
  {
    u.(fullName := if "full_name" in data then data["full_name"] else u.fullName,
       bio := if "bio" in data then data["bio"] else u.bio)
  }

  class UserStore {
    /** The `users` table. */
    var users: seq<User>
    /** The id the next committed user receives. */
    var nextId: int

    ghost predicate Valid()
      reads this
    {
      && UniqueColumns(users)
      && (forall i :: 0 <= i < |users| ==> users[i].id < nextId)
    }

    constructor ()
      ensures Valid() && users == [] && nextId == 1
    {
      users := [];
      nextId := 1;
    }

    /**
     * `register_user`: refuses with the first failed check and adds nothing; otherwise adds
     * exactly one active, non-admin user whose stored hash is `set_password`'s, unless the
     * commit fails.
     */
    method RegisterUser(h: Hasher, username: string, email: string, password: string, fullName: Option<string>,
                        salt: nat, now: int, commitOk: bool, commitError: string)
      returns (success: bool, user: Option<User>, error: Option<string>)
      requires Valid()
      modifies this
      ensures Valid()
      ensures var e := RegistrationError(old(users), username, email, password);
              && (e.Some? ==> !success && user.None? && error == e)
              && (e.None? && !commitOk ==> !success && user.None? && error == Some(RegisterPrefix + commitError))
              && (e.None? && commitOk ==>
                    var u := SetPassword(NewUser(old(nextId), username, email, fullName, "", now), h, salt, password);
                    success && user == Some(u) && error.None? && users == old(users) + [u] && nextId == old(nextId) + 1)
      ensures !success ==> users == old(users) && nextId == old(nextId)
    {
      var e := RegistrationError(users, username, email, password);
      if e.Some? {
        return false, None, e;
      }
      var u := NewUser(nextId, username, email, fullName, "", now);
      u := SetPassword(u, h, salt, password);
      if !commitOk {
        return false, None, Some(RegisterPrefix + commitError);
      }
      assert forall v :: v in users ==> v.username != username && v.email != email;
      users := users + [u];
      nextId := nextId + 1;
      return true, Some(u), None;
    }

    /**
     * `update_user_profile` on the loaded user with id `id`: only `full_name` and `bio` may
     * change, and only when `data` holds their keys.
     */
    method UpdateUserProfile(id: int, data: map<string, Option<string>>, commitOk: bool, commitError: string)
      returns (success: bool, error: Option<string>)
      requires Valid()
      requires exists u :: u in users && u.id == id
      modifies this
      ensures Valid()
      ensures nextId == old(nextId) && |users| == |old(users)|
      ensures success == commitOk
      ensures commitOk ==> error.None?
      ensures commitOk ==> forall i :: 0 <= i < |users| ==>
                users[i] == if old(users)[i].id == id then Profiled(old(users)[i], data) else old(users)[i]
      ensures !commitOk ==> users == old(users) && error == Some(ProfilePrefix + commitError)
    {
      if !commitOk {
        return false, Some(ProfilePrefix + commitError);
      }
      var i := 0;
      while i < |users| && users[i].id != id
        invariant 0 <= i <= |users|
        invariant forall k :: 0 <= k < i ==> users[k].id != id
      {
        i := i + 1;
      }
      assert i < |users|;
      users := users[i := Profiled(users[i], data)];
      return true, None;
    }
  }
}
