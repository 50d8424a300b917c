/** The two request guards of src/server/api/middleware/auth.ts: `authenticate`
    (bearer token to user id) and `isAdmin` (user id to stored admin flag).
    JWT verification is a parameter: `verify(token)` is the id inside a token
    that `jwt.verify` accepts, or None when it throws. */
module Middleware {
  import opened Common
  import opened Strings
  import opened ServerModel

  const AuthRequired := "Authentication required"
  const InvalidToken := "Invalid or expired token"
  const AdminRequired := "Access denied: Admin privileges required"
  const ServerError := "Server error"

  /** `req.headers.authorization?.split(' ')[1]`, with JavaScript's falsy
      `undefined` and `''` both read as no token. */
  function BearerToken(authorization: Option<string>): (t: Option<string>)
    ensures t.Some? ==> t.value != "" && ' ' !in t.value
  {
    match authorization
    case None => None
    case Some(h) =>
      var fields := Split(h, ' ');
      if |fields| > 1 && fields[1] != "" then Some(fields[1]) else None
  }

  /** A token is found exactly when the header is some word, one space, the
      non-empty token, and then either nothing or a space and anything. */
  lemma BearerTokenOfHeader(scheme: string, token: string, rest: string)
    requires ' ' !in scheme && ' ' !in token && token != ""
    ensures BearerToken(Some(scheme + " " + token)) == Some(token)
    ensures BearerToken(Some(scheme + " " + token + " " + rest)) == Some(token)
  {
    SplitAtSeparator(scheme, token, ' ');
    SplitWithoutSeparator(scheme, ' ');
    SplitWithoutSeparator(token, ' ');
    SplitAtSeparator(scheme, token + " " + rest, ' ');
    SplitAtSeparator(token, rest, ' ');
    assert scheme + " " + token + " " + rest == scheme + [' '] + (token + [' '] + rest);
  }

  /** `h` is `scheme`, one space, `token`, then nothing or a space and more. */
  predicate HeaderShape(h: string, scheme: string, token: string, rest: string) {
    ' ' !in scheme && h == scheme + [' '] + token + rest && (rest == "" || rest[0] == ' ')
  }

  /** Conversely, every token found sits right after the header's first space. */
  lemma BearerTokenShape(h: string)
    requires BearerToken(Some(h)).Some?
    ensures exists scheme, rest :: HeaderShape(h, scheme, BearerToken(Some(h)).value, rest)
  {
    var fields := Split(h, ' ');
    var scheme, t := fields[0], fields[1];
    JoinSplit(h, ' ');
    var tail := Join(fields[1..], ' ');
    assert h == scheme + [' '] + tail;
    var rest: string;
    if |fields| == 2 {
      rest := "";
      assert tail == t;
    } else {
      rest := [' '] + Join(fields[2..], ' ');
      assert fields[1..][1..] == fields[2..];
      assert tail == t + rest;
    }
    assert h == scheme + [' '] + t + rest;
    assert HeaderShape(h, scheme, t, rest);
  }

  /** A header with no second field, or an empty one, carries no token. */
  lemma NoTokenWithoutSecondField(scheme: string)
    requires ' ' !in scheme
    ensures BearerToken(None) == None
    ensures BearerToken(Some(scheme)) == None
    ensures BearerToken(Some(scheme + " ")) == None
  {
    SplitWithoutSeparator(scheme, ' ');
    SplitAtSeparator(scheme, "", ' ');
    assert scheme + " " == scheme + [' '] + "";
  }

  /** The outcome of `authenticate`: `next()` is called with `req.userId` set,
      or the request is answered with 401. */
  datatype Authn = Authenticated(userId: Id) | Unauthenticated(response: Response)

  function Authenticate(authorization: Option<string>, verify: string -> Option<Id>): (r: Authn)
    ensures BearerToken(authorization).None? ==>
      r == Unauthenticated(Response(401, Message(AuthRequired)))
    ensures BearerToken(authorization).Some? && verify(BearerToken(authorization).value).None? ==>
      r == Unauthenticated(Response(401, Message(InvalidToken)))
    ensures r.Authenticated? <==>
      BearerToken(authorization).Some? && verify(BearerToken(authorization).value).Some?
    ensures r.Authenticated? ==> Some(r.userId) == verify(BearerToken(authorization).value)
  {
    match BearerToken(authorization)
    case None => Unauthenticated(Response(401, Message(AuthRequired)))
    case Some(token) =>
      match verify(token)
      case None => Unauthenticated(Response(401, Message(InvalidToken)))
      case Some(id) => Authenticated(id)
  }

  /** The outcome of a guard chain: the handler runs for `userId`, or the
      request is answered with `response`. */
  datatype Access = Granted(userId: Id) | Denied(response: Response)

  /** The `isAdmin` middleware: look the user up and check the stored flag. */
  function AdminGate(users: map<Id, User>, userId: Id): (r: Access)
    ensures r.Granted? <==> IsObjectId(userId) && Canonical(userId) in users && users[Canonical(userId)].isAdmin
    ensures r.Granted? ==> r.userId == userId
    ensures !IsObjectId(userId) ==> r == Denied(Response(500, Message(ServerError)))
    ensures IsObjectId(userId) && !r.Granted? ==> r == Denied(Response(403, Message(AdminRequired)))
  {
    match Find(users, userId)
    case CastFailure => Denied(Response(500, Message(ServerError)))
    case Missing => Denied(Response(403, Message(AdminRequired)))
    case Found(u) =>
      if u.isAdmin then Granted(userId)
      else Denied(Response(403, Message(AdminRequired)))
  }

  /** The guard chain `authenticate, isAdmin` that every admin route runs. */
  function AdminAccess(users: map<Id, User>, authorization: Option<string>, verify: string -> Option<Id>): (r: Access)
    ensures r.Granted? <==>
      Authenticate(authorization, verify).Authenticated? &&
      AdminGate(users, Authenticate(authorization, verify).userId).Granted?
    ensures Authenticate(authorization, verify).Unauthenticated? ==>
      r == Denied(Authenticate(authorization, verify).response)
  {
    match Authenticate(authorization, verify)
    case Unauthenticated(response) => Denied(response)
    case Authenticated(id) => AdminGate(users, id)
  }

  /** The guard chain `authenticate` alone, for routes any signed-in user may call. */
  function UserAccess(authorization: Option<string>, verify: string -> Option<Id>): (r: Access)
    ensures r.Granted? <==> Authenticate(authorization, verify).Authenticated?
    ensures r.Granted? ==> r.userId == Authenticate(authorization, verify).userId
  {
    match Authenticate(authorization, verify)
    case Unauthenticated(response) => Denied(response)
    case Authenticated(id) => Granted(id)
  }

  /** The admin gate admits exactly the holders of a valid token for a stored
      user whose flag is set. */
  lemma AdminAccessGranted(users: map<Id, User>, authorization: Option<string>, verify: string -> Option<Id>, id: Id)
    ensures AdminAccess(users, authorization, verify) == Granted(id) <==>
      && BearerToken(authorization).Some?
      && verify(BearerToken(authorization).value) == Some(id)
      && IsObjectId(id) && Canonical(id) in users && users[Canonical(id)].isAdmin
  {
  }

  /** The identity that the hard-coded admin login hands out is not an ObjectId,
      so its lookup throws a CastError and the admin gate answers 500: that
      admin can never reach an admin-only route. */
  lemma SyntheticAdminNeverPasses(users: map<Id, User>)
    ensures AdminGate(users, "admin-special-id") == Denied(Response(500, Message(ServerError)))
  {
    assert !IsObjectId("admin-special-id");
  }
}
