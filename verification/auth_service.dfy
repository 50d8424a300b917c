/** Registration, login and user lookup of src/server/services/auth.ts, with
    the hard-coded admin bypass. Three library calls are parameters: `sign(id)`
    is the JWT that `generateToken` issues for `id`, `passwordHash` is the
    bcrypt hash the user schema's pre-save hook stores, and
    `matches(candidate, hash)` is `bcrypt.compare`. */
module AuthService {
  import opened Common
  import opened Strings
  import opened ServerModel

  const AdminEmail := "admin@nexshop.com"
  const AdminPassword := "nexshop123"
  const AdminId := "admin-special-id"

  const ReservedEmail := "This email cannot be used for registration"
  const EmailTaken := "User with this email already exists"
  const UserInvalid := "User validation failed"
  const BadAdminCredentials := "Invalid admin credentials"
  const BadCredentials := "Invalid email or password"

  /** What register and login hand back: the user without password, and a token. */
  datatype Session = Session(user: PublicUser, token: string)

  /** `email.toLowerCase() === ADMIN_EMAIL.toLowerCase()`. */
  predicate IsAdminEmail(email: string) {
    Lower(email) == Lower(AdminEmail)
  }

  /** The user returned for the hard-coded admin; no stored document backs it. */
  const SyntheticAdmin := PublicUser(AdminId, AdminEmail, "Admin", "User", true)

  /** The user schema trims and lower-cases `email`, both when a document is
      saved and in query filters, so this is the form emails are compared in. */
  function NormalizeEmail(email: string): string {
    Lower(Trim(email))
  }

  /** The unique index on `email`. */
  predicate UniqueEmails(users: map<Id, User>) {
    forall a, b :: a in users && b in users && users[a].email == users[b].email ==> a == b
  }

  /** `User.findOne({ email })`. */
  function FindByEmail(users: map<Id, User>, email: string): (r: Option<Id>)
    requires UniqueEmails(users)
    ensures r.Some? <==> exists id :: id in users && users[id].email == NormalizeEmail(email)
    ensures r.Some? ==> r.value in users && users[r.value].email == NormalizeEmail(email)
  {
    if exists id :: id in users && users[id].email == NormalizeEmail(email) then
      var id :| id in users && users[id].email == NormalizeEmail(email);
      Some(id)
    else
      None
  }

  /** `registerUser`: refuse the admin email and taken emails, otherwise store a
      new non-admin user under the fresh id `newId`. */
  function Register(
    users: map<Id, User>, email: string, password: string,
    firstName: Option<string>, lastName: Option<string>,
    newId: Id, passwordHash: string, sign: Id -> string)
    : (r: Result<(map<Id, User>, Session), string>)
    requires UniqueEmails(users)
    requires newId !in users
    ensures IsAdminEmail(email) ==> r == Err(ReservedEmail)
    ensures !IsAdminEmail(email) && FindByEmail(users, email).Some? ==> r == Err(EmailTaken)
    ensures r.Ok? <==>
      !IsAdminEmail(email) && FindByEmail(users, email).None? &&
      NormalizeEmail(email) != "" && password != ""
    ensures r.Ok? ==>
      var users', session := r.value.0, r.value.1;
      && users'.Keys == users.Keys + {newId}
      && (forall id :: id in users ==> users'[id] == users[id])
      && users'[newId] == User(NormalizeEmail(email), passwordHash,
                               firstName.GetOr(""), lastName.GetOr(""), false)
      && session == Session(Public(newId, users'[newId]), sign(newId))
      && UniqueEmails(users')
  {
    if IsAdminEmail(email) then Err(ReservedEmail)
    else if FindByEmail(users, email).Some? then Err(EmailTaken)
    else if NormalizeEmail(email) == "" || password == "" then Err(UserInvalid)
    else
      var user := User(NormalizeEmail(email), passwordHash,
                       firstName.GetOr(""), lastName.GetOr(""), false);
      Ok((StoreNew(users, newId, user), Session(Public(newId, user), sign(newId))))
  }

  /** Storing a user under a fresh id whose email no stored user has: the
      other documents stay and emails stay unique. */
  function StoreNew(users: map<Id, User>, newId: Id, user: User): (users': map<Id, User>)
    requires UniqueEmails(users) && newId !in users
    requires forall id :: id in users ==> users[id].email != user.email
    ensures users'.Keys == users.Keys + {newId}
    ensures forall id :: id in users ==> users'[id] == users[id]
    ensures newId in users' && users'[newId] == user
    ensures UniqueEmails(users')
  {
    users[newId := user]
  }

  /** `loginUser`: the admin email (in any letter case) is checked against the
      hard-coded password only; any other email goes through the store. */
  function Login(
    users: map<Id, User>, email: string, password: string,
    matches: (string, string) -> bool, sign: Id -> string)
    : (r: Result<Session, string>)
    requires UniqueEmails(users)
    ensures IsAdminEmail(email) ==>
      r == (if password == AdminPassword then Ok(Session(SyntheticAdmin, sign(AdminId)))
            else Err(BadAdminCredentials))
    ensures !IsAdminEmail(email) ==>
      (r.Ok? <==> exists id :: id in users && users[id].email == NormalizeEmail(email)
                                && matches(password, users[id].password))
    ensures !IsAdminEmail(email) && r.Ok? ==>
      exists id :: id in users && users[id].email == NormalizeEmail(email)
                   && matches(password, users[id].password)
                   && r.value == Session(Public(id, users[id]), sign(id))
    ensures !IsAdminEmail(email) && r.Err? ==> r.error == BadCredentials
  {
    if IsAdminEmail(email) then
      if password == AdminPassword then Ok(Session(SyntheticAdmin, sign(AdminId)))
      else Err(BadAdminCredentials)
    else
      match FindByEmail(users, email)
      case None => Err(BadCredentials)
      case Some(id) =>
        if matches(password, users[id].password) then Ok(Session(Public(id, users[id]), sign(id)))
        else Err(BadCredentials)
  }

  /** `getUserById`: the synthetic admin for its special id, otherwise the
      stored user without its password. */
  function GetUserById(users: map<Id, User>, userId: Id): (r: Result<PublicUser, string>)
    ensures userId == AdminId ==> r == Ok(SyntheticAdmin)
    ensures userId != AdminId ==>
      (r.Ok? <==> IsObjectId(userId) && Canonical(userId) in users)
    ensures userId != AdminId && r.Ok? ==>
      r.value == Public(Canonical(userId), users[Canonical(userId)])
    ensures userId != AdminId && IsObjectId(userId) && Canonical(userId) !in users ==> r == Err(UserNotFound)
  {
    if userId == AdminId then Ok(SyntheticAdmin)
    else
      match Find(users, userId)
      case CastFailure => Err(CastErrorText)
      case Missing => Err(UserNotFound)
      case Found(u) => Ok(Public(Canonical(userId), u))
  }

  /** The admin login never looks at the store: any two stores give the same answer. */
  lemma AdminLoginIgnoresStore(
    users1: map<Id, User>, users2: map<Id, User>, email: string, password: string,
    matches: (string, string) -> bool, sign: Id -> string)
    requires UniqueEmails(users1) && UniqueEmails(users2)
    requires IsAdminEmail(email)
    ensures Login(users1, email, password, matches, sign) == Login(users2, email, password, matches, sign)
    ensures Login(users1, email, password, matches, sign).Ok? <==> password == AdminPassword
  {
  }

  /** An unknown email and a wrong password are answered alike, so a failed login
      does not reveal which emails are registered. */
  lemma LoginFailureIsUniform(
    users: map<Id, User>, unknown: string, known: string, knownId: Id, password: string,
    matches: (string, string) -> bool, sign: Id -> string)
    requires UniqueEmails(users)
    requires !IsAdminEmail(unknown) && !IsAdminEmail(known)
    requires forall id :: id in users ==> users[id].email != NormalizeEmail(unknown)
    requires knownId in users && users[knownId].email == NormalizeEmail(known)
    requires !matches(password, users[knownId].password)
    ensures Login(users, unknown, password, matches, sign) == Err(BadCredentials)
    ensures Login(users, known, password, matches, sign) == Err(BadCredentials)
  {
  }

  /** Registering and then logging in with the same email and password gives
      back the user registration returned, and `getUserById` finds it too. */
  lemma RegisterThenLogin(
    users: map<Id, User>, email: string, password: string,
    firstName: Option<string>, lastName: Option<string>,
    newId: Id, passwordHash: string, matches: (string, string) -> bool, sign: Id -> string)
    requires UniqueEmails(users)
    requires newId !in users && IsCanonical(newId)
    requires matches(password, passwordHash)
    requires !IsAdminEmail(email) && NormalizeEmail(email) != "" && password != ""
    requires forall id :: id in users ==> users[id].email != NormalizeEmail(email)
    ensures var (users', session) :=
      Register(users, email, password, firstName, lastName, newId, passwordHash, sign).value;
      && Login(users', email, password, matches, sign) == Ok(session)
      && GetUserById(users', newId) == Ok(session.user)
      && !session.user.isAdmin
  {
    var (users', session) :=
      Register(users, email, password, firstName, lastName, newId, passwordHash, sign).value;
    assert users'[newId].email == NormalizeEmail(email);
    assert FindByEmail(users', email) == Some(newId);
    GetStoredUser(users', newId);
  }

  /** A user stored under its lower-case id is read back by that id. */
  lemma GetStoredUser(users: map<Id, User>, id: Id)
    requires IsCanonical(id) && id in users
    ensures GetUserById(users, id) == Ok(Public(id, users[id]))
  {
    assert |AdminId| != |id|;
  }

  /** The stored admin email cannot be registered whatever its letter case. */
  lemma AdminEmailReserved(
    users: map<Id, User>, password: string, newId: Id, passwordHash: string, sign: Id -> string)
    requires UniqueEmails(users) && newId !in users
    ensures Register(users, "ADMIN@NexShop.com", password, None, None, newId, passwordHash, sign)
      == Err(ReservedEmail)
  {
    var e := "ADMIN@NexShop.com";
    assert forall i :: 0 <= i < |e| ==> Lower(e)[i] == AdminEmail[i];
    assert Lower(e) == AdminEmail;
    AdminEmailNormal();
    assert IsAdminEmail(e);
  }

  /** The admin email is already in the normal form the schema stores. */
  lemma AdminEmailNormal()
    ensures Lower(AdminEmail) == AdminEmail
  {
    forall i | 0 <= i < |AdminEmail|
      ensures LowerChar(AdminEmail[i]) == AdminEmail[i]
    {
      assert !IsUpperAscii(AdminEmail[i]);
    }
  }

  lemma PaddedAdminEmailNormalizes()
    ensures NormalizeEmail(" admin@nexshop.com") == AdminEmail
    ensures !IsAdminEmail(" admin@nexshop.com")
  {
    var padded := " admin@nexshop.com";
    assert padded == [' '] + AdminEmail;
    assert IsSpace(padded[0]);
    assert padded[1..] == AdminEmail;
    assert !IsSpace(AdminEmail[0]);
    assert TrimStart(AdminEmail) == AdminEmail;
    assert TrimStart(padded) == AdminEmail;
    assert !IsSpace(AdminEmail[|AdminEmail| - 1]);
    assert TrimEnd(AdminEmail) == AdminEmail;
    AdminEmailNormal();
    assert Lower(padded)[0] == ' ';
    assert Lower(AdminEmail)[0] == 'a';
  }

  /** The reservation compares the raw email, but the schema trims before it
      stores: an admin email with a leading space passes the check and is
      stored as the admin email itself. */
  lemma PaddedAdminEmailRegisters(
    users: map<Id, User>, newId: Id, passwordHash: string, sign: Id -> string)
    requires UniqueEmails(users) && newId !in users
    requires FindByEmail(users, " admin@nexshop.com").None?
    ensures var r := Register(users, " admin@nexshop.com", "pw", None, None, newId, passwordHash, sign);
      r.Ok? && r.value.0[newId].email == AdminEmail
  {
    PaddedAdminEmailNormalizes();
  }
}
