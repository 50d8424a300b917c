/** The client's authentication state, src/context/AuthContext.tsx: the stored
    token, the signed-in user, the admin flag and the loading flag, driven by
    the mount effect, sign-in, sign-up and sign-out. Each server reply is an
    input: the session the server sent back, or `None` for an error reply. */
module AuthContextModel {
  import opened Common
  import opened ServerModel
  import opened Middleware
  import opened AuthService

  /** `token` is the `authToken` entry of local storage. */
  datatype AuthState = AuthState(token: Option<string>, user: Option<PublicUser>, isAdmin: bool, isLoading: bool)

  /** The provider's first render, with whatever token storage holds. */
  function Initial(stored: Option<string>): (s: AuthState)
    ensures s.token == stored && s.user.None? && !s.isAdmin && s.isLoading
  {
    AuthState(stored, None, false, true)
  }

  /** The admin flag is never set without a user carrying it. */
  predicate Consistent(s: AuthState) {
    s.isAdmin ==> s.user.Some? && s.user.value.isAdmin
  }

  /** `fetchCurrentUser` once the `/auth/me` reply arrives: `fetched` is the
      user it returned, or `None` when it failed, which also forgets the token. */
  function FetchCurrentUser(s: AuthState, fetched: Option<PublicUser>): (t: AuthState)
    ensures !t.isLoading
    ensures fetched.Some? ==> t == AuthState(s.token, fetched, fetched.value.isAdmin, false)
    ensures fetched.None? ==> t == AuthState(None, None, false, false)
  {
    match fetched
    case Some(u) => s.(user := Some(u), isAdmin := u.isAdmin, isLoading := false)
    case None => AuthState(None, None, false, false)
  }

  /** The synchronous part of the mount effect: without a stored token loading
      ends at once; with one, the `/auth/me` request goes out and the state
      waits for its reply. */
  function OnMount(s: AuthState): (t: AuthState)
    ensures s.token.None? ==> t == s.(isLoading := false)
    ensures s.token.Some? ==> t == s
  {
    if s.token.None? then s.(isLoading := false) else s
  }

  /** `signIn` and `signUp` after the reply: store the token and the user, or
      report the error and change nothing. The flag says whether the returned
      `error` is null. */
  function SignIn(s: AuthState, reply: Option<Session>): (r: (AuthState, bool))
    ensures r.1 <==> reply.Some?
    ensures reply.Some? ==>
      r.0 == s.(token := Some(reply.value.token), user := Some(reply.value.user), isAdmin := reply.value.user.isAdmin)
    ensures reply.None? ==> r.0 == s
  {
    match reply
    case None => (s, false)
    case Some(session) =>
      (s.(token := Some(session.token), user := Some(session.user), isAdmin := session.user.isAdmin), true)
  }

  /** `signOut`. */
  function SignOut(s: AuthState): (t: AuthState)
    ensures t.token.None? && t.user.None? && !t.isAdmin
    ensures t.isLoading == s.isLoading
  {
    s.(token := None, user := None, isAdmin := false)
  }

  /** What can happen to the provider: the mount effect, the `/auth/me` reply
      (which may arrive after any other event, since nothing cancels it), the
      sign-in and sign-up replies, and sign-out. */
  datatype AuthEvent =
    | Mount
    | MeReply(fetched: Option<PublicUser>)
    | SignInReply(reply: Option<Session>)
    | SignUpReply(reply: Option<Session>)
    | SignOutPressed

  /** One event. Only the mount and the `/auth/me` reply touch loading, and
      only to end it; the `/auth/me` reply is applied whatever the token is now. */
  function Step(s: AuthState, e: AuthEvent): (t: AuthState)
    ensures t.isLoading ==> s.isLoading
    ensures e.MeReply? ==> !t.isLoading && t.user == e.fetched
    ensures (e.SignInReply? || e.SignUpReply?) && e.reply.None? ==> t == s
    ensures (e.SignInReply? || e.SignUpReply?) && e.reply.Some? ==>
      t.token == Some(e.reply.value.token) && t.user == Some(e.reply.value.user)
    ensures e.SignOutPressed? ==> t.token.None? && t.user.None? && !t.isAdmin
  {
    match e
    case Mount => OnMount(s)
    case MeReply(fetched) => FetchCurrentUser(s, fetched)
    case SignInReply(reply) => SignIn(s, reply).0
    case SignUpReply(reply) => SignIn(s, reply).0
    case SignOutPressed => SignOut(s)
  }

  /** The state after a run of events, oldest first. */
  function Run(s: AuthState, events: seq<AuthEvent>): AuthState {
    if |events| == 0 then s else Step(Run(s, events[..|events| - 1]), events[|events| - 1])
  }

  /** Every transition keeps the admin flag backed by a user. */
  lemma StepKeepsConsistent(s: AuthState, e: AuthEvent)
    requires Consistent(s)
    ensures Consistent(Step(s, e))
  {
  }

  /** So the flag is backed by a user in every reachable state. */
  lemma {:induction false} RunKeepsConsistent(stored: Option<string>, events: seq<AuthEvent>)
    ensures Consistent(Run(Initial(stored), events))
  {
    if |events| > 0 {
      RunKeepsConsistent(stored, events[..|events| - 1]);
      StepKeepsConsistent(Run(Initial(stored), events[..|events| - 1]), events[|events| - 1]);
    }
  }

  /** Once loading has ended it stays ended whatever follows. */
  lemma {:induction false} LoadingStaysEnded(s: AuthState, events: seq<AuthEvent>)
    requires !s.isLoading
    ensures !Run(s, events).isLoading
  {
    if |events| > 0 {
      LoadingStaysEnded(s, events[..|events| - 1]);
    }
  }

  /** Loading ends at the mount when no token is stored, and otherwise at the
      `/auth/me` reply, and stays ended whatever follows. */
  lemma LoadingEnds(stored: Option<string>, s: AuthState, fetched: Option<PublicUser>, events: seq<AuthEvent>)
    ensures stored.None? ==> !Run(Step(Initial(stored), Mount), events).isLoading
    ensures !Run(Step(s, MeReply(fetched)), events).isLoading
  {
    if stored.None? {
      LoadingStaysEnded(Step(Initial(stored), Mount), events);
    }
    LoadingStaysEnded(Step(s, MeReply(fetched)), events);
  }

  /** The `/auth/me` reply is not tied to the token it was sent with: if the
      user signs in and out while it is in flight, it still sets the user,
      now with no token stored. */
  lemma LateReplyRestoresUser(session: Session, u: PublicUser)
    ensures var events := [Mount, SignInReply(Some(session)), SignOutPressed, MeReply(Some(u))];
      var t := Run(Initial(Some("t")), events);
      t.user == Some(u) && t.token.None? && t.isAdmin == u.isAdmin
  {
    var events := [Mount, SignInReply(Some(session)), SignOutPressed, MeReply(Some(u))];
    assert events[..3][..2][..1][..0] == [];
    assert events[..3][..2][..1] == [Mount];
    assert events[..3][..2] == [Mount, SignInReply(Some(session))];
    assert events[..3] == [Mount, SignInReply(Some(session)), SignOutPressed];
  }

  /** The hard-coded admin login makes the client believe it is an admin, but
      the server's admin gate turns every admin request from that session
      away with 500. */
  lemma AdminSessionShowsDashboardOnly(
    users: map<Id, User>, s: AuthState, email: string, password: string,
    matches: (string, string) -> bool, sign: Id -> string)
    requires UniqueEmails(users) && IsAdminEmail(email) && password == AdminPassword
    ensures var session := Login(users, email, password, matches, sign).value;
      && SignIn(s, Some(session)).0.isAdmin
      && AdminGate(users, session.user.id) == Denied(Response(500, Message(ServerError)))
  {
    SyntheticAdminNeverPasses(users);
  }
}
