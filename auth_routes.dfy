/** The account routes: `/register` (plain users only), `/admin-requests` (a passkey-protected
    request to become an admin, recorded for the super admin to approve) and `/login`. Each
    is a cascade of early refusals whose order is observable; the refusals are the
    `...Check` functions below, and the tables they read and write are the fields of
    `AccountStore`. bcrypt's hash and compare, the mailer's outcome and whether a save
    succeeds are parameters. */
module AuthRoutes {
  import opened Common
  import opened Records
  import opened AuthMiddleware

  datatype Reply = Reply(status: nat, message: string)

  const FillAllFields := "Please fill all fields"
  const ServerError := Reply(500, "Server error")

  /** The JSON body fields each route reads; an absent field is `None`. */
  datatype RegisterBody = RegisterBody(username: Option<string>, email: Option<string>,
                                       password: Option<string>, role: Option<string>)
  datatype AdminRequestBody = AdminRequestBody(username: Option<string>, email: Option<string>,
                                               password: Option<string>, adminPassKey: Option<string>)
  datatype LoginBody = LoginBody(email: Option<string>, password: Option<string>)

  /** `User.findOne({ $or: [{ email }, { username }] })` finds a record. */
  predicate UserClash(users: seq<User>, email: string, username: string) {
    exists i :: 0 <= i < |users| && (users[i].email == email || users[i].username == username)
  }

  /** `AdminRequest.findOne({ email })` finds a record. */
  predicate RequestClash(requests: seq<AdminRequest>, email: string) {
    exists i :: 0 <= i < |requests| && requests[i].email == email
  }

  predicate RegisterFilled(body: RegisterBody) {
    Truthy(body.username) && Truthy(body.email) && Truthy(body.password)
  }

  predicate AdminRequestFilled(body: AdminRequestBody) {
    Truthy(body.username) && Truthy(body.email) && Truthy(body.password) && Truthy(body.adminPassKey)
  }

  /** The refusals of `/register`, in order; `None` when the account may be created. */
  function RegisterCheck(users: seq<User>, body: RegisterBody): (r: Option<Reply>)
    // Missing fields are refused before the role or the store is looked at.
    ensures !RegisterFilled(body) ==> r == Some(Reply(400, FillAllFields))
    ensures RegisterFilled(body) && body.role == Some(AdminRole) ==>
              r == Some(Reply(403, "Admin registration requires approval"))
    ensures RegisterFilled(body) && body.role != Some(AdminRole) ==>
              (r.None? <==> !UserClash(users, body.email.value, body.username.value))
    ensures r.Some? ==> r.value.status == 400 || r.value.status == 403
    ensures r.Some? && r.value.status == 400 && RegisterFilled(body) ==>
              r.value.message == "Username or Email already exists"
  {
    if !RegisterFilled(body) then Some(Reply(400, FillAllFields))
    else if body.role == Some(AdminRole) then Some(Reply(403, "Admin registration requires approval"))
    else if UserClash(users, body.email.value, body.username.value) then
      Some(Reply(400, "Username or Email already exists"))
    else None
  }

  /** The refusals of `/admin-requests`, in order, against the configured `ADMIN_PASSKEY`. */
  function AdminRequestCheck(users: seq<User>, requests: seq<AdminRequest>, body: AdminRequestBody,
                             passkey: Option<string>): (r: Option<Reply>)
    ensures !AdminRequestFilled(body) ==> r == Some(Reply(400, FillAllFields))
    // The passkey is compared before any lookup, so a wrong one is a 403 whatever the tables hold.
    ensures AdminRequestFilled(body) && passkey != body.adminPassKey ==>
              r == Some(Reply(403, "Invalid Admin PassKey"))
    ensures AdminRequestFilled(body) && passkey == body.adminPassKey ==>
              (r.None? <==> !UserClash(users, body.email.value, body.username.value)
                            && !RequestClash(requests, body.email.value))
    ensures r.Some? ==> r.value.status == 400 || r.value.status == 403
  {
    if !AdminRequestFilled(body) then Some(Reply(400, FillAllFields))
    else if body.adminPassKey != passkey then Some(Reply(403, "Invalid Admin PassKey"))
    else if UserClash(users, body.email.value, body.username.value) || RequestClash(requests, body.email.value) then
      Some(Reply(400, "Email or Username already exists or is pending approval"))
    else None
  }

  /** `User.findOne({ email })`: the first record with that email. */
  function FindByEmail(users: seq<User>, email: string): (r: Option<User>)
    ensures r.Some? ==> r.value in users && r.value.email == email
    ensures r.None? <==> forall i :: 0 <= i < |users| ==> users[i].email != email
  {
    FindFirst(users, (u: User) => u.email == email)
  }

  /** The user object a successful login returns: everything but the password hash. */
  datatype PublicUser = PublicUser(username: string, email: string, role: string, createdAt: int, updatedAt: int)

  /** `expiresIn: "1d"`, in seconds. */
  const OneDay := 86400

  /** A signed token stands for its payload and lifetime. */
  datatype LoginResult = Refused(reply: Reply) | LoggedIn(token: Claims, expiresIn: nat, user: PublicUser)

  /** `/login`, with bcrypt's comparison as `matches(password, hash)`. */
  function Login(users: seq<User>, body: LoginBody, matches: (string, string) -> bool): (r: LoginResult)
    ensures !(Truthy(body.email) && Truthy(body.password)) ==> r == Refused(Reply(400, FillAllFields))
    ensures Truthy(body.email) && Truthy(body.password) && FindByEmail(users, body.email.value).None? ==>
              r == Refused(Reply(400, "Invalid credentials"))
    // The blocked check comes first: a blocked account is refused whatever password is given.
    ensures Truthy(body.email) && Truthy(body.password) && FindByEmail(users, body.email.value).Some? ==>
              var u := FindByEmail(users, body.email.value).value;
              && (u.blocked ==> r == Refused(Reply(403, "Your account is blocked")))
              && (!u.blocked && !matches(body.password.value, u.passwordHash) ==>
                    r == Refused(Reply(400, "Invalid credentials")))
              && (!u.blocked && matches(body.password.value, u.passwordHash) ==>
                    r == LoggedIn(Claims(u.id, u.role), OneDay,
                                  PublicUser(u.username, u.email, u.role, u.createdAt, u.updatedAt)))
    ensures r.LoggedIn? ==> exists i :: 0 <= i < |users| && users[i].id == r.token.userId && users[i].email == body.email.value
  {
    if !Truthy(body.email) || !Truthy(body.password) then Refused(Reply(400, FillAllFields))
    else
      match FindByEmail(users, body.email.value)
      case None => Refused(Reply(400, "Invalid credentials"))
      case Some(u) =>
        if u.blocked then Refused(Reply(403, "Your account is blocked"))
        else if !matches(body.password.value, u.passwordHash) then Refused(Reply(400, "Invalid credentials"))
        else LoggedIn(Claims(u.id, u.role), OneDay, PublicUser(u.username, u.email, u.role, u.createdAt, u.updatedAt))
  }

  /** The user and admin-request tables. Ids are handed out from `nextId`. */
  class AccountStore {
    var users: seq<User>
    var requests: seq<AdminRequest>
    var nextId: nat

    ghost predicate Valid()
      reads this
    {
      forall i :: 0 <= i < |users| ==> users[i].id < nextId
    }

    constructor ()
      ensures Valid() && users == [] && requests == []
    {
      users := [];
      requests := [];
      nextId := 0;
    }

    /** Appends one account with a fresh id; an unset `blocked` reads as false. */
    method AddUser(username: string, email: string, passwordHash: string, role: string, now: int)
      requires Valid()
      modifies this`users, this`nextId
      ensures Valid()
      ensures users == old(users) + [User(old(nextId), username, email, passwordHash, role, false, now, now)]
    {
      users := users + [User(nextId, username, email, passwordHash, role, false, now, now)];
      nextId := nextId + 1;
    }

    /** POST `/register`. */
    method Register(body: RegisterBody, hash: string -> string, saveOk: bool, now: int) returns (reply: Reply)
      requires Valid()
      modifies this`users, this`nextId
      ensures Valid()
      ensures RegisterCheck(old(users), body).Some? ==>
                reply == RegisterCheck(old(users), body).value && users == old(users)
      ensures RegisterCheck(old(users), body).None? && !saveOk ==> reply == ServerError && users == old(users)
      // Whatever role was asked for, the account is a plain user.
      ensures RegisterCheck(old(users), body).None? && saveOk ==>
                && reply == Reply(201, "User registered successfully")
                && users == old(users) + [User(old(nextId), body.username.value, body.email.value,
                                                hash(body.password.value), UserRole, false, now, now)]
    {
      var refusal := RegisterCheck(users, body);
      if refusal.Some? {
        return refusal.value;
      }
      if !saveOk {
        return ServerError;
      }
      AddUser(body.username.value, body.email.value, hash(body.password.value), UserRole, now);
      reply := Reply(201, "User registered successfully");
    }

    /** POST `/admin-requests`. The request is saved before the super admin is mailed, so a
        mail failure answers 500 but leaves the request recorded. */
    method SubmitAdminRequest(body: AdminRequestBody, passkey: Option<string>, hash: string -> string,
                              saveOk: bool, mailOk: bool) returns (reply: Reply)
      modifies this`requests
      ensures AdminRequestCheck(users, old(requests), body, passkey).Some? ==>
                reply == AdminRequestCheck(users, old(requests), body, passkey).value && requests == old(requests)
      ensures AdminRequestCheck(users, old(requests), body, passkey).None? && !saveOk ==>
                reply == ServerError && requests == old(requests)
      ensures AdminRequestCheck(users, old(requests), body, passkey).None? && saveOk ==>
                && requests == old(requests) + [AdminRequest(body.username.value, body.email.value, hash(body.password.value))]
                && reply == (if mailOk then Reply(201, "Admin registration request submitted. Await superadmin approval.")
                             else ServerError)
    {
      var refusal := AdminRequestCheck(users, requests, body, passkey);
      if refusal.Some? {
        return refusal.value;
      }
      if !saveOk {
        return ServerError;
      }
      requests := requests + [AdminRequest(body.username.value, body.email.value, hash(body.password.value))];
      if !mailOk {
        return ServerError;
      }
      reply := Reply(201, "Admin registration request submitted. Await superadmin approval.");
    }
  }

  /** Sending the same registration twice: the second one meets the account the first created. */
  lemma ResubmittedRegisterRefused(users: seq<User>, body: RegisterBody, id: UserId, passwordHash: string, now: int)
    requires RegisterCheck(users, body).None?
    ensures RegisterCheck(users + [User(id, body.username.value, body.email.value, passwordHash, UserRole, false, now, now)], body)
            == Some(Reply(400, "Username or Email already exists"))
  {
    var after := users + [User(id, body.username.value, body.email.value, passwordHash, UserRole, false, now, now)];
    assert after[|users|].email == body.email.value;
  }

  /** Asking for "superadmin" (or any role but "admin") is no different from asking for none. */
  lemma RequestedRoleIgnored(users: seq<User>, body: RegisterBody)
    requires body.role != Some(AdminRole)
    ensures RegisterCheck(users, body) == RegisterCheck(users, body.(role := None))
    ensures RegisterCheck(users, body.(role := Some(SuperAdminRole))) == RegisterCheck(users, body.(role := None))
  {
  }

  /** With `ADMIN_PASSKEY` unset, every complete admin request is refused with 403. */
  lemma UnsetPasskeyRefusesAll(users: seq<User>, requests: seq<AdminRequest>, body: AdminRequestBody)
    requires AdminRequestFilled(body)
    ensures AdminRequestCheck(users, requests, body, None) == Some(Reply(403, "Invalid Admin PassKey"))
  {
  }

  /** Stored requests, whatever their status, are only compared by email: another stored
      request under the same username does not block a new one. */
  lemma RequestUsernameNotChecked(users: seq<User>, requests: seq<AdminRequest>, body: AdminRequestBody,
                                  passkey: Option<string>, other: AdminRequest)
    requires AdminRequestCheck(users, requests, body, passkey).None?
    requires other.username == body.username.value && other.email != body.email.value
    ensures AdminRequestCheck(users, requests + [other], body, passkey).None?
  {
    var after := requests + [other];
    forall i | 0 <= i < |after| ensures after[i].email != body.email.value {
      if i < |requests| {
        assert after[i] == requests[i];
      }
    }
  }

  /** A second admin request under the same email is refused once the first is recorded. */
  lemma ResubmittedAdminRequestRefused(users: seq<User>, requests: seq<AdminRequest>, body: AdminRequestBody,
                                       passkey: Option<string>, passwordHash: string)
    requires AdminRequestCheck(users, requests, body, passkey).None?
    ensures AdminRequestCheck(users, requests + [AdminRequest(body.username.value, body.email.value, passwordHash)], body, passkey)
            == Some(Reply(400, "Email or Username already exists or is pending approval"))
  {
    var after := requests + [AdminRequest(body.username.value, body.email.value, passwordHash)];
    assert after[|requests|].email == body.email.value;
  }

  /** A blocked account gets the same 403 whatever password comparison would say. */
  lemma BlockedBeforePassword(users: seq<User>, body: LoginBody, matches1: (string, string) -> bool,
                              matches2: (string, string) -> bool)
    requires Truthy(body.email) && Truthy(body.password)
    requires FindByEmail(users, body.email.value).Some? && FindByEmail(users, body.email.value).value.blocked
    ensures Login(users, body, matches1) == Login(users, body, matches2) == Refused(Reply(403, "Your account is blocked"))
  {
  }

  /** An unknown email and a wrong password are refused alike, so a caller cannot tell
      which accounts exist (unless they are blocked). */
  lemma UnknownEmailLikeWrongPassword(users: seq<User>, other: seq<User>, body: LoginBody,
                                      matches: (string, string) -> bool)
    requires Truthy(body.email) && Truthy(body.password)
    requires FindByEmail(users, body.email.value).None?
    requires FindByEmail(other, body.email.value).Some?
    requires !FindByEmail(other, body.email.value).value.blocked
    requires !matches(body.password.value, FindByEmail(other, body.email.value).value.passwordHash)
    ensures Login(users, body, matches) == Login(other, body, matches)
  {
  }

  /** A token issued at login names the account found and its role at that moment, so the
      access guard, reading the same account back, admits it wherever that role suffices. */
  lemma LoginTokenAdmitted(users: seq<User>, body: LoginBody, matches: (string, string) -> bool,
                           required: RoleSpec, header: Option<string>,
                           verify: string -> Verification, findById: UserId -> Lookup)
    requires Login(users, body, matches).LoggedIn?
    requires WellFormedHeader(header)
    requires verify(header.value[|BearerPrefix|..]) == Verified(Login(users, body, matches).token)
    requires findById(Login(users, body, matches).token.userId) == Found(FindByEmail(users, body.email.value).value)
    requires RoleAdmits(Normalize(required), Login(users, body, matches).token.role)
    ensures Guard(required, header, verify, findById) == Admit(FindByEmail(users, body.email.value).value)
  {
  }
}
