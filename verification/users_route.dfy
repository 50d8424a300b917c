/** The admin-only user routes of src/server/api/routes/users.ts: list all
    users without their passwords, and set or clear a user's admin flag. */
module UsersRoute {
  import opened Common
  import opened ServerModel
  import opened Middleware

  const MadeAdmin := "User updated to admin successfully"
  const RemovedAdmin := "Admin privileges removed successfully"

  /** `User.find().select('-password')`. */
  function ListUsers(users: map<Id, User>): (r: map<Id, PublicUser>)
    ensures r.Keys == users.Keys
    ensures forall id :: id in r ==> r[id] == Public(id, users[id])
    ensures forall id :: id in r ==>
      r[id].id == id && r[id].email == users[id].email && r[id].isAdmin == users[id].isAdmin
      && r[id].firstName == users[id].firstName && r[id].lastName == users[id].lastName
  {
    map id | id in users :: Public(id, users[id])
  }

  /** The listing cannot reveal passwords: changing any stored password does
      not change it. */
  lemma ListingHidesPasswords(users: map<Id, User>, id: Id, password: string)
    requires id in users
    ensures ListUsers(users[id := users[id].(password := password)]) == ListUsers(users)
  {
  }

  /** GET `/` behind `authenticate, isAdmin`. */
  function ListUsersRoute(db: Db, authorization: Option<string>, verify: string -> Option<Id>): (r: Response)
    ensures AdminAccess(db.users, authorization, verify).Denied? ==>
      r == AdminAccess(db.users, authorization, verify).response
    ensures AdminAccess(db.users, authorization, verify).Granted? ==>
      r == Response(200, UsersJson(ListUsers(db.users)))
  {
    match AdminAccess(db.users, authorization, verify)
    case Denied(response) => response
    case Granted(_) => Response(200, UsersJson(ListUsers(db.users)))
  }

  /** PUT `/:id/make-admin` (`admin` true) and `/:id/remove-admin` (`admin` false). */
  function SetAdmin(db: Db, userId: Id, admin: bool): (r: Served)
    ensures r.db.products == db.products && r.db.orders == db.orders
    ensures IsObjectId(userId) && Canonical(userId) !in db.users ==>
      r == Served(db, Response(404, Message(UserNotFound)))
    ensures r.response.status == 200 <==> IsObjectId(userId) && Canonical(userId) in db.users
    ensures r.response.status == 200 ==>
      var key := Canonical(userId);
      && r.db.users.Keys == db.users.Keys
      && r.db.users[key] == db.users[key].(isAdmin := admin)
      && (forall id :: id in db.users && id != key ==> r.db.users[id] == db.users[id])
      && r.response.body == Message(if admin then MadeAdmin else RemovedAdmin)
    ensures r.response.status != 200 ==> r.db == db
  {
    match Find(db.users, userId)
    case CastFailure => Served(db, Response(500, Message(CastErrorText)))
    case Missing => Served(db, Response(404, Message(UserNotFound)))
    case Found(u) =>
      Served(db.(users := db.users[Canonical(userId) := u.(isAdmin := admin)]),
             Response(200, Message(if admin then MadeAdmin else RemovedAdmin)))
  }

  /** Both routes behind `authenticate, isAdmin`. */
  function SetAdminRoute(
    db: Db, authorization: Option<string>, verify: string -> Option<Id>, userId: Id, admin: bool): (r: Served)
    ensures AdminAccess(db.users, authorization, verify).Denied? ==>
      r == Served(db, AdminAccess(db.users, authorization, verify).response)
    ensures AdminAccess(db.users, authorization, verify).Granted? ==> r == SetAdmin(db, userId, admin)
  {
    match AdminAccess(db.users, authorization, verify)
    case Denied(response) => Served(db, response)
    case Granted(_) => SetAdmin(db, userId, admin)
  }

  /** Setting the flag twice is setting it once. */
  lemma SetAdminIdempotent(db: Db, userId: Id, admin: bool)
    ensures SetAdmin(SetAdmin(db, userId, admin).db, userId, admin) ==
      Served(SetAdmin(db, userId, admin).db, SetAdmin(db, userId, admin).response)
  {
  }

  /** The flag written is the flag the admin gate reads on the next request:
      after make-admin the user passes it, after remove-admin they do not. */
  lemma SetAdminDecidesGate(db: Db, userId: Id, admin: bool)
    requires IsObjectId(userId) && Canonical(userId) in db.users
    ensures AdminGate(SetAdmin(db, userId, admin).db.users, userId).Granted? <==> admin
  {
  }

  /** Setting the flag keeps every user stored under its lower-case id. */
  lemma SetAdminKeepsWellFormed(db: Db, userId: Id, admin: bool)
    requires WellFormed(db)
    ensures WellFormed(SetAdmin(db, userId, admin).db)
  {
  }
}
