/**
 * The authentication handlers: registration, login, password change, and
 * the forgot/reset token cycle. Issuing the JWT is left out; a success
 * returns the id of the user the token would be signed for.
 */
module AuthController {
  import opened Common
  import opened UserRecord
  import Database

  const MissingFields := Rejection(400, "Please provide all required fields")
  const PasswordsDiffer := Rejection(400, "Passwords do not match")
  const PasswordTooShort := Rejection(400, "Password should be at least 6 characters")
  const EmailInUse := Rejection(409, "Email already in use")
  const MissingCredentials := Rejection(400, "Please provide email and password")
  const InvalidCredentials := Rejection(401, "Invalid credentials")
  const NewPasswordsDiffer := Rejection(400, "New passwords do not match")
  const UserNotFound := Rejection(404, "User not found")
  const WrongCurrentPassword := Rejection(401, "Current password is incorrect")
  const EmailNotSent := Rejection(500, "Email could not be sent")
  const NoSuchEmail := Rejection(404, "There is no user with that email")
  const InvalidToken := Rejection(400, "Invalid token")

  /** The shortest password `register` accepts. */
  const MinPasswordLength := 6

  /** The body of `POST /auth/register`. */
  datatype RegisterBody = RegisterBody(
    fullName: Option<string>,
    email: Option<string>,
    password: Option<string>,
    passwordConfirm: Option<string>,
    role: Option<string>,
    phone: Option<string>)

  predicate HasRequiredFields(b: RegisterBody) {
    Present(b.fullName) && Present(b.email) && Present(b.password) && Present(b.passwordConfirm)
  }

  /**
   * The four guards of `register` in their order: required fields, matching
   * passwords, length at least 6, and no user under the lower-cased e-mail.
   */
  function RegisterGuard(b: RegisterBody, users: map<Id, User>): (r: Option<Rejection>)
    ensures r == Some(MissingFields) <==> !HasRequiredFields(b)
    ensures r == Some(PasswordsDiffer) <==> HasRequiredFields(b) && b.password != b.passwordConfirm
    ensures r == Some(PasswordTooShort) <==>
      HasRequiredFields(b) && b.password == b.passwordConfirm && |b.password.value| < MinPasswordLength
    ensures r == Some(EmailInUse) <==>
      HasRequiredFields(b) && b.password == b.passwordConfirm && |b.password.value| >= MinPasswordLength
      && EmailTaken(users, ToLower(b.email.value))
    ensures r.None? <==>
      HasRequiredFields(b) && b.password == b.passwordConfirm && |b.password.value| >= MinPasswordLength
      && !EmailTaken(users, ToLower(b.email.value))
  {
    if !HasRequiredFields(b) then Some(MissingFields)
    else if b.password.value != b.passwordConfirm.value then Some(PasswordsDiffer)
    else if |b.password.value| < MinPasswordLength then Some(PasswordTooShort)
    else if EmailTaken(users, ToLower(b.email.value)) then Some(EmailInUse)
    else None
  }

  /**
   * The user `register` creates: the e-mail lower-cased, the password stored
   * hashed, role `candidate` unless a non-empty role is given, no login yet
   * and no reset token.
   */
  function Registered(b: RegisterBody, hash: string -> string): (u: User)
    requires HasRequiredFields(b)
    ensures u.email == ToLower(b.email.value) && u.email != "" && IsLower(u.email)
    ensures u.fullName == b.fullName.value && u.phone == b.phone
    ensures u.password == hash(b.password.value)
    ensures Present(b.role) ==> u.role == b.role.value
    ensures !Present(b.role) ==> u.role == "candidate"
    ensures u.lastLogin.None? && u.resetPasswordToken.None? && u.resetPasswordExpire.None?
  {
    User(b.fullName.value, ToLower(b.email.value), hash(b.password.value), b.phone,
         OrElse(b.role, "candidate"), None, None, None)
  }

  /** `register`: a refusal stores nothing; a success adds one user under a fresh id. */
  method Register(s: Database.Store, b: RegisterBody) returns (r: Reply<Id>)
    requires s.Valid()
    modifies s`users, s`nextId
    ensures s.Valid()
    ensures !r.Thrown?
    ensures r.Refused? <==> RegisterGuard(b, old(s.users)).Some?
    ensures r.Refused? ==> Some(r.why) == RegisterGuard(b, old(s.users)) && s.users == old(s.users)
    ensures r.Ok? ==> r.code == 201 && r.data !in old(s.users)
    ensures r.Ok? ==> s.users == old(s.users)[r.data := Registered(b, s.hashPassword)]
  {
    var guard := RegisterGuard(b, s.users);
    if guard.Some? {
      return Refused(guard.value);
    }
    var u := Registered(b, s.hashPassword);
    var id := s.NewId();
    InsertKeepsUniqueEmails(s.users, id, u);
    s.users := s.users[id := u];
    r := Ok(201, id);
  }

  /**
   * The user under `id` is found by the lower-cased `email` and `password`
   * matches its stored hash (`bcrypt.compare`).
   */
  predicate Authenticates(users: map<Id, User>, id: Id, email: string, password: string, hash: string -> string) {
    id in users && users[id].email == ToLower(email) && hash(password) == users[id].password
  }

  /** The body of `POST /auth/login`. */
  datatype LoginBody = LoginBody(email: Option<string>, password: Option<string>)

  /**
   * `login`: 400 without both fields, the same 401 for an unknown e-mail and
   * for a wrong password, and otherwise the one matching user, whose
   * `lastLogin` alone becomes `now`.
   */
  method Login(s: Database.Store, b: LoginBody, now: int) returns (r: Reply<Id>)
    requires s.Valid()
    modifies s`users
    ensures s.Valid()
    ensures !r.Thrown?
    ensures r == Refused(MissingCredentials) <==> !Present(b.email) || !Present(b.password)
    ensures r == Refused(InvalidCredentials) <==>
      Present(b.email) && Present(b.password)
      && !exists id :: Authenticates(old(s.users), id, b.email.value, b.password.value, s.hashPassword)
    ensures r.Refused? ==> r == Refused(MissingCredentials) || r == Refused(InvalidCredentials)
    ensures r.Refused? ==> s.users == old(s.users)
    ensures r.Ok? ==>
              r.code == 200 && Authenticates(old(s.users), r.data, b.email.value, b.password.value, s.hashPassword)
    ensures r.Ok? ==> s.users == old(s.users)[r.data := old(s.users)[r.data].(lastLogin := Some(now))]
  {
    if !Present(b.email) || !Present(b.password) {
      return Refused(MissingCredentials);
    }
    var email := ToLower(b.email.value);
    if !exists id :: id in s.users && s.users[id].email == email {
      return Refused(InvalidCredentials);
    }
    var id :| id in s.users && s.users[id].email == email;
    if s.hashPassword(b.password.value) != s.users[id].password {
      forall other | other in s.users
        ensures !Authenticates(s.users, other, b.email.value, b.password.value, s.hashPassword)
      {
        if other != id {
          assert s.users[other].email != s.users[id].email;
        }
      }
      return Refused(InvalidCredentials);
    }
    assert Authenticates(s.users, id, b.email.value, b.password.value, s.hashPassword);
    var u := s.users[id].(lastLogin := Some(now));
    RewriteKeepsUniqueEmails(s.users, id, u);
    s.users := s.users[id := u];
    r := Ok(200, id);
  }

  /**
   * Whoever registers can then log in with the same password and any
   * spelling of the e-mail that lower-cases alike, and nobody else can log in
   * with those credentials.
   */
  lemma RegisteredCanLogin(users: map<Id, User>, id: Id, b: RegisterBody, hash: string -> string, email: string)
    requires UniqueEmails(users) && id !in users
    requires RegisterGuard(b, users).None?
    requires ToLower(email) == ToLower(b.email.value)
    ensures Authenticates(users[id := Registered(b, hash)], id, email, b.password.value, hash)
    ensures forall other :: other in users ==>
              !Authenticates(users[id := Registered(b, hash)], other, email, b.password.value, hash)
  {
  }

  /** The body of `PUT /auth/updatePassword`. */
  datatype PasswordChange = PasswordChange(
    currentPassword: Option<string>,
    newPassword: Option<string>,
    confirmPassword: Option<string>)

  /**
   * The guards of `updatePassword` in their order: all three fields, the two
   * new passwords equal, the caller's user found, the current password right.
   */
  function PasswordChangeGuard(b: PasswordChange, caller: Option<Id>, users: map<Id, User>,
                               hash: string -> string): (r: Option<Rejection>)
    ensures r == Some(MissingFields) <==>
      !Present(b.currentPassword) || !Present(b.newPassword) || !Present(b.confirmPassword)
    ensures r == Some(NewPasswordsDiffer) <==>
      Present(b.currentPassword) && Present(b.newPassword) && Present(b.confirmPassword)
      && b.newPassword != b.confirmPassword
    ensures r == Some(UserNotFound) <==>
      Present(b.currentPassword) && Present(b.newPassword) && b.newPassword == b.confirmPassword
      && (caller.None? || caller.value !in users)
    ensures r == Some(WrongCurrentPassword) <==>
      Present(b.currentPassword) && Present(b.newPassword) && b.newPassword == b.confirmPassword
      && caller.Some? && caller.value in users && hash(b.currentPassword.value) != users[caller.value].password
    ensures r.None? <==>
      Present(b.currentPassword) && Present(b.newPassword) && b.newPassword == b.confirmPassword
      && caller.Some? && caller.value in users && hash(b.currentPassword.value) == users[caller.value].password
  {
    if !Present(b.currentPassword) || !Present(b.newPassword) || !Present(b.confirmPassword) then Some(MissingFields)
    else if b.newPassword.value != b.confirmPassword.value then Some(NewPasswordsDiffer)
    else if caller.None? || caller.value !in users then Some(UserNotFound)
    else if hash(b.currentPassword.value) != users[caller.value].password then Some(WrongCurrentPassword)
    else None
  }

  /** `updatePassword`: on success only the caller's stored hash changes, to the new password's. */
  method UpdatePassword(s: Database.Store, caller: Option<Id>, b: PasswordChange) returns (r: Reply<()>)
    requires s.Valid()
    modifies s`users
    ensures s.Valid()
    ensures !r.Thrown?
    ensures r.Refused? <==> PasswordChangeGuard(b, caller, old(s.users), s.hashPassword).Some?
    ensures r.Refused? ==> Some(r.why) == PasswordChangeGuard(b, caller, old(s.users), s.hashPassword)
    ensures r.Refused? ==> s.users == old(s.users)
    ensures r.Ok? ==> r.code == 200 && caller.Some?
    ensures r.Ok? ==> s.users == old(s.users)[caller.value :=
      old(s.users)[caller.value].(password := s.hashPassword(b.newPassword.value))]
  {
    var guard := PasswordChangeGuard(b, caller, s.users, s.hashPassword);
    if guard.Some? {
      return Refused(guard.value);
    }
    var id := caller.value;
    var u := s.users[id].(password := s.hashPassword(b.newPassword.value));
    RewriteKeepsUniqueEmails(s.users, id, u);
    s.users := s.users[id := u];
    r := Ok(200, ());
  }

  /** A user holding a reset token: the hash of `raw` is stored, set to expire after `now`. */
  predicate HoldsToken(u: User, hashedToken: string, now: int) {
    u.resetPasswordToken == Some(hashedToken)
    && u.resetPasswordExpire.Some? && u.resetPasswordExpire.value > now
  }

  /**
   * `forgotPassword`: with no e-mail in the body the lower-casing throws and
   * the handler answers 500; an unknown e-mail is 404; otherwise the user's
   * token hash and expiry are set (no other field changes) and the raw token
   * is returned.
   */
  method ForgotPassword(s: Database.Store, email: Option<string>, rawToken: string, expire: int)
    returns (r: Reply<string>)
    requires s.Valid()
    modifies s`users
    ensures s.Valid()
    ensures !r.Thrown?
    ensures r == Refused(EmailNotSent) <==> email.None?
    ensures r == Refused(NoSuchEmail) <==> email.Some? && !EmailTaken(old(s.users), ToLower(email.value))
    ensures r.Refused? ==> r == Refused(EmailNotSent) || r == Refused(NoSuchEmail)
    ensures r.Refused? ==> s.users == old(s.users)
    ensures r.Ok? ==> r.code == 200 && r.data == rawToken && email.Some?
    ensures r.Ok? ==> exists id :: (id in old(s.users) && old(s.users)[id].email == ToLower(email.value)
      && s.users == old(s.users)[id := old(s.users)[id].(resetPasswordToken := Some(s.hashToken(rawToken)),
                                                         resetPasswordExpire := Some(expire))])
  {
    if email.None? {
      return Refused(EmailNotSent);
    }
    var e := ToLower(email.value);
    if !exists id :: id in s.users && s.users[id].email == e {
      return Refused(NoSuchEmail);
    }
    var id :| id in s.users && s.users[id].email == e;
    var u := s.users[id].(resetPasswordToken := Some(s.hashToken(rawToken)), resetPasswordExpire := Some(expire));
    RewriteKeepsUniqueEmails(s.users, id, u);
    s.users := s.users[id := u];
    r := Ok(200, rawToken);
  }

  /**
   * `resetPassword`: the token is hashed and looked up among unexpired
   * tokens; none gives 400. A body without a (non-empty) password then fails
   * the User schema's required validator on `save`, with nothing stored.
   * Otherwise that user's password becomes the new one's hash and both
   * token fields are cleared, so the token cannot be used again.
   */
  method ResetPassword(s: Database.Store, rawToken: string, password: Option<string>, now: int)
    returns (r: Reply<Id>)
    requires s.Valid()
    modifies s`users
    ensures s.Valid()
    ensures r.Refused? <==> !exists id :: id in old(s.users) && HoldsToken(old(s.users)[id], s.hashToken(rawToken), now)
    ensures r.Refused? ==> r.why == InvalidToken
    ensures r.Thrown? <==>
      !Present(password) && exists id :: id in old(s.users) && HoldsToken(old(s.users)[id], s.hashToken(rawToken), now)
    ensures r.Thrown? ==> r.error == ValidationError
    ensures !r.Ok? ==> s.users == old(s.users)
    ensures r.Ok? ==>
              r.code == 200 && r.data in old(s.users) && HoldsToken(old(s.users)[r.data], s.hashToken(rawToken), now)
    ensures r.Ok? ==> Present(password) && s.users == old(s.users)[r.data := old(s.users)[r.data].(
                                             password := s.hashPassword(password.value),
                                             resetPasswordToken := None,
                                             resetPasswordExpire := None)]
    ensures r.Ok? ==> !HoldsToken(s.users[r.data], s.hashToken(rawToken), now)
  {
    var hashed := s.hashToken(rawToken);
    if !exists id :: id in s.users && HoldsToken(s.users[id], hashed, now) {
      return Refused(InvalidToken);
    }
    var id :| id in s.users && HoldsToken(s.users[id], hashed, now);
    if !Present(password) {
      return Thrown(ValidationError);
    }
    var u := s.users[id].(password := s.hashPassword(password.value), resetPasswordToken := None,
                          resetPasswordExpire := None);
    RewriteKeepsUniqueEmails(s.users, id, u);
    s.users := s.users[id := u];
    r := Ok(200, id);
  }
}
