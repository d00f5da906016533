/**
  Access tokens over the joined state of AuthService and the organization tables: what a token
  records when it is minted (active-context.service.ts, auth.service.ts) and when JwtStrategy
  accepts it (src/modules/auth/strategies/jwt.strategy.ts).

  Signatures and the token's own expiry are checked by a library before validate runs; a token
  in the model is one this service signed.
 */
module AccessTokens {
  import opened Wrappers
  import A = Auth
  import S = Sessions
  import O = Organizations
  import T = OrganizationTables
  import V = OrganizationVersions
  import PasswordHistory

  datatype Context = Context(
    organizationId: Option<O.OrgId>, membershipId: Option<O.MembershipId>, roles: set<string>,
    permissionsVersion: nat, attributesVersion: nat)

  datatype Payload = Payload(sub: A.UserId, sessionId: S.SessionId, tokenVersion: nat, context: Context)

  datatype AuthenticatedUser = AuthenticatedUser(id: A.UserId, email: string, sessionId: S.SessionId, tokenVersion: nat, context: Context)

  datatype Error =
    | AccountInactive | TokenVersionMismatch | SessionRevoked | MembershipInvalid | OrgInactive
    | PermissionsVersionMismatch | AttributesVersionMismatch | OrgMembershipNotFound

  const NO_CONTEXT := Context(None, None, {}, 0, 0)

  // ---------------------------------------------------------------- minting

  /** A membership a token may be scoped to. */
  predicate Eligible(s: O.State, u: A.UserId, m: O.MembershipId) {
    && O.LiveMember(s, m) && s.memberships[m].userId == u && s.memberships[m].status.MemberActive?
    && s.memberships[m].orgId in s.orgs && !s.orgs[s.memberships[m].orgId].deleted && s.orgs[s.memberships[m].orgId].status.OrgActive?
  }

  predicate Earliest(s: O.State, u: A.UserId, m: O.MembershipId) {
    Eligible(s, u, m) && forall n :: n in s.memberships && Eligible(s, u, n) ==> s.memberships[m].joinedAt <= s.memberships[n].joinedAt
  }

  lemma {:induction false} EarliestExists(s: O.State, u: A.UserId, candidates: set<O.MembershipId>)
    requires candidates != {} && forall m :: m in candidates ==> m in s.memberships
    ensures exists m :: m in candidates && forall n :: n in candidates ==> s.memberships[m].joinedAt <= s.memberships[n].joinedAt
    decreases |candidates|
  {
    var m :| m in candidates;
    var rest := candidates - {m};
    if rest != {} {
      EarliestExists(s, u, rest);
      var least :| least in rest && forall n :: n in rest ==> s.memberships[least].joinedAt <= s.memberships[n].joinedAt;
      var pick := if s.memberships[m].joinedAt <= s.memberships[least].joinedAt then m else least;
      assert forall n :: n in candidates ==> n == m || n in rest;
      assert forall n :: n in candidates ==> s.memberships[pick].joinedAt <= s.memberships[n].joinedAt;
    } else {
      assert candidates == {m};
    }
  }

  /** The earliest joined eligible membership; there is one unless none is eligible. */
  ghost function DefaultMembership(s: O.State, u: A.UserId): (found: Option<O.MembershipId>)
    ensures found.Some? ==> Earliest(s, u, found.value)
    ensures found.None? ==> forall m :: !Eligible(s, u, m)
  {
    var candidates := set m | m in s.memberships && Eligible(s, u, m);
    if candidates == {} then
      assert forall m :: Eligible(s, u, m) ==> m in candidates;
      None
    else
      EarliestExists(s, u, candidates);
      var m :| m in candidates && forall n :: n in candidates ==> s.memberships[m].joinedAt <= s.memberships[n].joinedAt;
      assert forall n :: n in s.memberships && Eligible(s, u, n) ==> n in candidates;
      Some(m)
  }

  function FromMembership(s: O.State, m: O.MembershipId): Context
    requires m in s.memberships
  {
    var row := s.memberships[m];
    Context(Some(row.orgId), Some(m), V.Slugs(s, O.LiveRoles(s, m)), row.permissionsVersion, row.attributesVersion)
  }

  ghost function ResolveDefault(s: O.State, u: A.UserId): Context {
    var m := DefaultMembership(s, u);
    if m.Some? then FromMembership(s, m.value) else NO_CONTEXT
  }

  ghost function ResolveForOrganization(s: O.State, u: A.UserId, org: O.OrgId): Option<Context> {
    match O.FindMembership(s, u, org)
    case None => None
    case Some(m) => if Eligible(s, u, m) then Some(FromMembership(s, m)) else None
  }

  function BuildAccessPayload(auth: A.State, u: A.UserId, sid: S.SessionId, context: Context): Payload
    requires u in auth.users
  {
    Payload(u, sid, auth.users[u].tokenVersion, context)
  }

  ghost function SwitchOrganization(auth: A.State, s: O.State, u: A.UserId, sid: S.SessionId, org: O.OrgId): Result<Payload, Error> {
    if !A.MaySignIn(auth, u) then Err(AccountInactive)
    else
      match ResolveForOrganization(s, u, org)
      case None => Err(OrgMembershipNotFound)
      case Some(context) => Ok(BuildAccessPayload(auth, u, sid, context))
  }

  // ---------------------------------------------------------------- validate

  predicate SessionLive(s: S.State, sid: S.SessionId, now: Time) {
    sid in s.sessions && s.sessions[sid].revokedAt.None? && now < s.sessions[sid].expiresAt
  }

  function ContextError(s: O.State, u: A.UserId, c: Context): Option<Error> {
    if c.membershipId.None? || c.organizationId.None? then None
    else
      var m := c.membershipId.value;
      if !(O.LiveMember(s, m) && s.memberships[m].userId == u && s.memberships[m].orgId == c.organizationId.value) then Some(MembershipInvalid)
      else if !s.memberships[m].status.MemberActive? then Some(MembershipInvalid)
      else if c.organizationId.value !in s.orgs || !s.orgs[c.organizationId.value].status.OrgActive? then Some(OrgInactive)
      else if s.memberships[m].permissionsVersion != c.permissionsVersion then Some(PermissionsVersionMismatch)
      else if s.memberships[m].attributesVersion != c.attributesVersion then Some(AttributesVersionMismatch)
      else None
  }

  function Validate(auth: A.State, s: O.State, p: Payload, now: Time): Result<AuthenticatedUser, Error> {
    if !A.MaySignIn(auth, p.sub) then Err(AccountInactive)
    else if auth.users[p.sub].tokenVersion != p.tokenVersion then Err(TokenVersionMismatch)
    else if !SessionLive(auth.sessions, p.sessionId, now) then Err(SessionRevoked)
    else
      match ContextError(s, p.sub, p.context)
      case Some(e) => Err(e)
      case None => Ok(AuthenticatedUser(p.sub, auth.users[p.sub].email, p.sessionId, p.tokenVersion, p.context))
  }

  // ---------------------------------------------------------------- runs

  /** A signed token, with what its membership stood for when it was signed; no code reads `seen`. */
  datatype Minted = Minted(payload: Payload, seen: Option<V.Snapshot>)

  datatype World = World(auth: A.State, org: O.State, minted: set<Minted>)

  datatype Op =
    | AuthOp(auth: A.Op)
    | OrgOp(org: O.Op)
    | Switch(bearer: Payload, target: O.OrgId, now: Time)

  function Mint(s: O.State, p: Payload): Minted {
    var m := p.context.membershipId;
    Minted(p, if m.Some? && m.value in s.memberships then Some(V.TakeSnapshot(s, m.value)) else None)
  }

  /** An SSO sign-in is scoped to its own organization where it can be, every other one to the default. */
  ghost function SignInContext(s: O.State, op: A.Op, u: A.UserId): Context {
    if op.OpFederatedLogin? && op.path.ViaSso? && ResolveForOrganization(s, u, op.path.organization).Some?
    then ResolveForOrganization(s, u, op.path.organization).value
    else ResolveDefault(s, u)
  }

  /** The token a successful sign-in or refresh answers with. */
  ghost function Signed(auth: A.State, s: O.State, op: A.Op, outcome: A.Outcome): set<Minted> {
    if outcome.Ok? && outcome.value.Granted? && outcome.value.issued.userId in auth.users then
      var issued := outcome.value.issued;
      {Mint(s, BuildAccessPayload(auth, issued.userId, issued.session, SignInContext(s, op, issued.userId)))}
    else {}
  }

  /** A switch is made by the bearer of a token that validate accepts. */
  ghost function Switched(w: World, bearer: Payload, org: O.OrgId, now: Time): set<Minted> {
    if (exists e :: e in w.minted && e.payload == bearer) && Validate(w.auth, w.org, bearer, now).Ok? then
      match SwitchOrganization(w.auth, w.org, bearer.sub, bearer.sessionId, org)
      case Ok(p) => {Mint(w.org, p)}
      case Err(_) => {}
    else {}
  }

  ghost function Step(cfg: A.Config, w: World, op: Op): World {
    match op
    case AuthOp(o) =>
      var (auth, outcome) := A.Apply(cfg, w.auth, o);
      World(auth, w.org, w.minted + Signed(auth, w.org, o, outcome))
    case OrgOp(o) => w.(org := O.Step(cfg.rule, w.org, o))
    case Switch(bearer, org, now) => w.(minted := w.minted + Switched(w, bearer, org, now))
  }

  ghost function Run(cfg: A.Config, w: World, ops: seq<Op>): World
    decreases |ops|
  {
    if ops == [] then w else Run(cfg, Step(cfg, w, ops[0]), ops[1..])
  }

  // ---------------------------------------------------------------- invariant

  /** The token's user and session rows. */
  ghost predicate SubjectOk(auth: A.State, p: Payload) {
    && p.sub in auth.users && p.tokenVersion <= auth.users[p.sub].tokenVersion
    && p.sessionId in auth.sessions.sessions && auth.sessions.sessions[p.sessionId].userId == p.sub
  }

  /**
    The token's counters are not ahead of its membership's, and while they are the membership's
    and it is live, it stands for what it stood for when the token was signed.
   */
  ghost predicate ScopeOk(s: O.State, e: Minted) {
    var c := e.payload.context;
    && c.membershipId.Some? == c.organizationId.Some? == e.seen.Some? && (c.membershipId.None? ==> c == NO_CONTEXT)
    && (c.membershipId.Some? ==>
          var m := c.membershipId.value;
          && m in s.memberships && s.memberships[m].userId == e.payload.sub && s.memberships[m].orgId == c.organizationId.value
          && c.permissionsVersion <= s.memberships[m].permissionsVersion
          && c.attributesVersion <= s.memberships[m].attributesVersion
          && c.roles == e.seen.value.slugs
          && (s.memberships[m].deleted || !Current(s, e) || V.TakeSnapshot(s, m) == e.seen.value))
  }

  /** Both counters of the token are its membership's. */
  ghost predicate Current(s: O.State, e: Minted)
    requires e.payload.context.membershipId.Some? && e.payload.context.membershipId.value in s.memberships
  {
    var c := e.payload.context;
    c.permissionsVersion == s.memberships[c.membershipId.value].permissionsVersion
    && c.attributesVersion == s.memberships[c.membershipId.value].attributesVersion
  }

  ghost predicate Sound(w: World) {
    forall e :: e in w.minted ==> SubjectOk(w.auth, e.payload) && ScopeOk(w.org, e)
  }

  ghost predicate Inv(cfg: A.Config, w: World) {
    A.Inv(cfg, w.auth) && O.Inv(w.org) && Sound(w)
  }

  lemma SubjectStaysOk(s: A.State, s': A.State, p: Payload)
    requires SubjectOk(s, p) && A.Later(s, s')
    ensures SubjectOk(s', p)
  {
    assert S.SessionLater(s.sessions.sessions[p.sessionId], s'.sessions.sessions[p.sessionId]);
  }

  lemma ScopeStaysOk(s: O.State, s': O.State, e: Minted)
    requires ScopeOk(s, e)
    requires e.payload.context.membershipId.Some? ==> V.Witnessed(s, s', e.payload.context.membershipId.value)
    ensures ScopeOk(s', e)
  {
  }

  lemma MintedFromMembershipIsOk(s: O.State, p: Payload)
    requires p.context == NO_CONTEXT || exists m :: m in s.memberships && s.memberships[m].userId == p.sub && p.context == FromMembership(s, m)
    ensures ScopeOk(s, Mint(s, p))
  {
  }

  lemma ResolvedContexts(s: O.State, u: A.UserId, org: O.OrgId)
    ensures ResolveDefault(s, u) == NO_CONTEXT
            || exists m :: m in s.memberships && s.memberships[m].userId == u && ResolveDefault(s, u) == FromMembership(s, m)
    ensures ResolveForOrganization(s, u, org).Some?
            ==> exists m :: m in s.memberships && s.memberships[m].userId == u && ResolveForOrganization(s, u, org).value == FromMembership(s, m)
  {
    var m := DefaultMembership(s, u);
    if m.Some? { assert m.value in s.memberships; }
    var f := O.FindMembership(s, u, org);
    if f.Some? { assert f.value in s.memberships; }
  }

  lemma SignInContexts(s: O.State, op: A.Op, u: A.UserId)
    ensures SignInContext(s, op, u) == NO_CONTEXT
            || exists m :: m in s.memberships && s.memberships[m].userId == u && SignInContext(s, op, u) == FromMembership(s, m)
  {
    ResolvedContexts(s, u, if op.OpFederatedLogin? && op.path.ViaSso? then op.path.organization else 0);
  }

  /** A granted session belongs to the user it is granted to. */
  lemma GrantedSessionIsTheUsers(cfg: A.Config, s: A.State, op: A.Op)
    requires S.Inv(s.sessions)
    requires A.Apply(cfg, s, op).1.Ok? && A.Apply(cfg, s, op).1.value.Granted?
    ensures var s' := A.Apply(cfg, s, op).0;
            var issued := A.Apply(cfg, s, op).1.value.issued;
            && issued.userId in s'.users
            && issued.session in s'.sessions.sessions && s'.sessions.sessions[issued.session].userId == issued.userId
  {
    match op
    case OpLogin(u, pw, facts, now) =>
    case OpFederatedLogin(u, path, now) =>
    case OpCreateFromProfile(email, initial) =>
    case OpRefresh(tok, now) =>
      S.TokensAgreeWithSessions(s.sessions);
      assert S.Agrees(s.sessions, s.sessions.tokens[tok].sessionId, tok);
    case OpRegister(email, pw, ok, now) =>
    case OpResetPassword(tok, pw, ok, now) =>
    case OpChangePassword(u, cur, pw, ok, others, sid, now) =>
    case OpLogout(u, sid, now) =>
    case OpLogoutAll(u, except, now) =>
    case OpRequestReset(u, now) =>
    case OpVerifyEmail(tok, now) =>
    case OpSetStatus(u, status, deleted) =>
  }

  lemma SignedIsSound(cfg: A.Config, auth: A.State, s: O.State, op: A.Op, e: Minted)
    requires S.Inv(auth.sessions) && e in Signed(A.Apply(cfg, auth, op).0, s, op, A.Apply(cfg, auth, op).1)
    ensures SubjectOk(A.Apply(cfg, auth, op).0, e.payload) && ScopeOk(s, e)
  {
    GrantedSessionIsTheUsers(cfg, auth, op);
    SignInContexts(s, op, e.payload.sub);
    MintedFromMembershipIsOk(s, e.payload);
  }

  lemma SwitchedIsSound(w: World, bearer: Payload, org: O.OrgId, now: Time, e: Minted)
    requires Sound(w) && e in Switched(w, bearer, org, now)
    ensures SubjectOk(w.auth, e.payload) && ScopeOk(w.org, e)
  {
    ResolvedContexts(w.org, bearer.sub, org);
    MintedFromMembershipIsOk(w.org, e.payload);
  }

  lemma AuthOpKeepsSound(cfg: A.Config, w: World, op: A.Op)
    requires A.Inv(cfg, w.auth) && Sound(w)
    ensures Sound(Step(cfg, w, AuthOp(op)))
  {
    var w' := Step(cfg, w, AuthOp(op));
    assert S.Inv(w.auth.sessions);
    assert A.Later(w.auth, w'.auth) by { A.ApplyIsLater(cfg, w.auth, op); }
    forall e | e in w'.minted ensures SubjectOk(w'.auth, e.payload) && ScopeOk(w'.org, e) {
      if e in w.minted {
        SubjectStaysOk(w.auth, w'.auth, e.payload);
      } else {
        SignedIsSound(cfg, w.auth, w.org, op, e);
      }
    }
  }

  lemma OrgOpKeepsSound(cfg: A.Config, w: World, op: O.Op)
    requires O.Inv(w.org) && Sound(w)
    ensures Sound(Step(cfg, w, OrgOp(op)))
  {
    var w' := Step(cfg, w, OrgOp(op));
    forall e | e in w'.minted ensures SubjectOk(w'.auth, e.payload) && ScopeOk(w'.org, e) {
      if e.payload.context.membershipId.Some? {
        V.StepWitnessed(cfg.rule, w.org, op, e.payload.context.membershipId.value);
      }
      ScopeStaysOk(w.org, w'.org, e);
    }
  }

  lemma StepKeepsInv(cfg: A.Config, w: World, op: Op)
    requires Inv(cfg, w)
    ensures Inv(cfg, Step(cfg, w, op))
  {
    match op
    case AuthOp(o) =>
      AuthOpKeepsSound(cfg, w, o);
      A.ApplyKeepsInv(cfg, w.auth, o);
    case OrgOp(o) =>
      OrgOpKeepsSound(cfg, w, o);
      T.StepKeepsInv(cfg.rule, w.org, o);
    case Switch(bearer, org, now) =>
      forall e | e in Switched(w, bearer, org, now) ensures SubjectOk(w.auth, e.payload) && ScopeOk(w.org, e) {
        SwitchedIsSound(w, bearer, org, now, e);
      }
  }

  lemma {:induction false} RunKeepsInv(cfg: A.Config, w: World, ops: seq<Op>)
    requires Inv(cfg, w)
    ensures Inv(cfg, Run(cfg, w, ops))
    decreases |ops|
  {
    if ops != [] {
      StepKeepsInv(cfg, w, ops[0]);
      RunKeepsInv(cfg, Step(cfg, w, ops[0]), ops[1..]);
    }
  }

  /** Session rows of a run, whatever the rest of the world. */
  lemma {:induction false} SessionsOnlyMoveOn(cfg: A.Config, w: World, ops: seq<Op>)
    requires S.Inv(w.auth.sessions)
    ensures S.Later(w.auth.sessions, Run(cfg, w, ops).auth.sessions)
    decreases |ops|
  {
    if ops != [] {
      var w1 := Step(cfg, w, ops[0]);
      if ops[0].AuthOp? {
        A.ApplyIsSessionStep(cfg, w.auth, ops[0].auth);
      }
      A.SessionStepFacts(cfg.rule, w.auth.sessions, w1.auth.sessions);
      SessionsOnlyMoveOn(cfg, w1, ops[1..]);
      S.LaterIsTransitive(w.auth.sessions, w1.auth.sessions, Run(cfg, w1, ops[1..]).auth.sessions);
    }
  }

  /** User rows of a run, whatever the rest of the world. */
  lemma {:induction false} UsersOnlyMoveOn(cfg: A.Config, w: World, ops: seq<Op>)
    requires A.UsersBelowNext(w.auth)
    ensures A.UsersLater(w.auth, Run(cfg, w, ops).auth)
    decreases |ops|
  {
    if ops != [] {
      var w1 := Step(cfg, w, ops[0]);
      if ops[0].AuthOp? {
        A.ApplyIsUsersLater(cfg, w.auth, ops[0].auth);
        A.ApplyKeepsUsersBelowNext(cfg, w.auth, ops[0].auth);
      }
      UsersOnlyMoveOn(cfg, w1, ops[1..]);
    }
  }

  // ---------------------------------------------------------------- what validate's answer means

  lemma ReachedIsSound(cfg: A.Config, start: World, ops: seq<Op>)
    requires Inv(cfg, start)
    ensures Sound(Run(cfg, start, ops))
  {
    RunKeepsInv(cfg, start, ops);
  }

  lemma AcceptedScopeIsUnchanged(auth: A.State, s: O.State, e: Minted, now: Time)
    requires ScopeOk(s, e) && e.payload.context.membershipId.Some? && Validate(auth, s, e.payload, now).Ok?
    ensures var m := e.payload.context.membershipId.value;
            && O.LiveMember(s, m) && s.memberships[m].userId == e.payload.sub
            && e.seen == Some(V.TakeSnapshot(s, m)) && e.payload.context.roles == V.Slugs(s, O.LiveRoles(s, m))
  {
    assert Current(s, e);
  }

  /**
    After every run, from any world that has the invariant: if validate accepts a signed,
    organization-scoped token, its membership is live and stands for exactly what it stood for when
    the token was signed, and the roles the token carries are the slugs of its live roles.
   */
  lemma AcceptedTokenSpeaksForThePresent(cfg: A.Config, start: World, ops: seq<Op>, e: Minted, now: Time)
    requires Inv(cfg, start)
    requires var w := Run(cfg, start, ops);
             e in w.minted && e.payload.context.membershipId.Some? && Validate(w.auth, w.org, e.payload, now).Ok?
    ensures var w := Run(cfg, start, ops);
            var m := e.payload.context.membershipId.value;
            && O.LiveMember(w.org, m) && w.org.memberships[m].userId == e.payload.sub
            && e.seen == Some(V.TakeSnapshot(w.org, m))
            && e.payload.context.roles == V.Slugs(w.org, O.LiveRoles(w.org, m))
  {
    ReachedIsSound(cfg, start, ops);
    var w := Run(cfg, start, ops);
    AcceptedScopeIsUnchanged(w.auth, w.org, e, now);
  }

  /** After every such run the answer names the token's user and session, and that session is a live one of that user. */
  lemma AcceptedTokenUsesItsOwnSession(cfg: A.Config, start: World, ops: seq<Op>, e: Minted, now: Time)
    requires Inv(cfg, start)
    requires var w := Run(cfg, start, ops); e in w.minted && Validate(w.auth, w.org, e.payload, now).Ok?
    ensures var w := Run(cfg, start, ops);
            var who := Validate(w.auth, w.org, e.payload, now).value;
            && who.id == e.payload.sub && who.sessionId == e.payload.sessionId
            && SessionLive(w.auth.sessions, who.sessionId, now) && w.auth.sessions.sessions[who.sessionId].userId == who.id
  {
    ReachedIsSound(cfg, start, ops);
  }

  /** A deployment starts with no users and no tokens over organization tables that may be seeded. */
  lemma DeploymentInv(cfg: A.Config, tables: O.State)
    requires O.Inv(tables)
    ensures Inv(cfg, World(A.Init, tables, {}))
  {
    A.InitInv(cfg);
  }

  /** resetPassword, and logoutAll with or without an excepted session. */
  predicate EndsAccess(op: A.Op, s: A.State, u: A.UserId) {
    match op
    case OpLogoutAll(v, _, _) => v == u
    case OpResetPassword(tok, _, _, _) => tok in s.tokens.resets && s.tokens.resets[tok].userId == u
    case _ => false
  }

  lemma EndingRaisesVersion(cfg: A.Config, s: A.State, op: A.Op, u: A.UserId)
    requires EndsAccess(op, s, u) && A.Apply(cfg, s, op).1.Ok?
    ensures u in s.users && u in A.Apply(cfg, s, op).0.users
            && A.Apply(cfg, s, op).0.users[u].tokenVersion == s.users[u].tokenVersion + 1
  {
    match op
    case OpLogoutAll(v, except, now) =>
    case OpResetPassword(tok, pw, ok, now) =>
  }

  /**
    After resetPassword or logoutAll, no access token signed for the user before it is accepted
    at any later point of any run. This includes the tokens of a session logoutAll excepts.
   */
  lemma EndedAccessTokensStayDead(cfg: A.Config, w: World, op: A.Op, u: A.UserId, e: Minted, ops: seq<Op>, later: Time)
    requires A.UsersBelowNext(w.auth) && Sound(w) && EndsAccess(op, w.auth, u) && A.Apply(cfg, w.auth, op).1.Ok?
    requires e in w.minted && e.payload.sub == u
    ensures var end := Run(cfg, Step(cfg, w, AuthOp(op)), ops); Validate(end.auth, end.org, e.payload, later).Err?
  {
    var w1 := Step(cfg, w, AuthOp(op));
    A.ApplyKeepsUsersBelowNext(cfg, w.auth, op);
    UsersOnlyMoveOn(cfg, w1, ops);
    EndingRaisesVersion(cfg, w.auth, op, u);
    assert SubjectOk(w.auth, e.payload);
    OldVersionIsRefused(Run(cfg, w1, ops).auth, Run(cfg, w1, ops).org, e.payload, later);
  }

  lemma OldVersionIsRefused(auth: A.State, s: O.State, p: Payload, now: Time)
    requires p.sub in auth.users && p.tokenVersion < auth.users[p.sub].tokenVersion
    ensures Validate(auth, s, p, now).Err?
  {
  }

  /** Access tokens of a revoked session are refused from then on. */
  lemma RevokedSessionRefusesAccess(cfg: A.Config, w: World, p: Payload, ops: seq<Op>, later: Time)
    requires S.Inv(w.auth.sessions)
    requires p.sessionId in w.auth.sessions.sessions && w.auth.sessions.sessions[p.sessionId].revokedAt.Some?
    ensures var end := Run(cfg, w, ops); Validate(end.auth, end.org, p, later).Err?
  {
    SessionsOnlyMoveOn(cfg, w, ops);
    DeadSessionIsRefused(w.auth.sessions, Run(cfg, w, ops).auth, Run(cfg, w, ops).org, p, later);
  }

  lemma DeadSessionIsRefused(before: S.State, auth: A.State, s: O.State, p: Payload, now: Time)
    requires p.sessionId in before.sessions && before.sessions[p.sessionId].revokedAt.Some? && S.Later(before, auth.sessions)
    ensures Validate(auth, s, p, now).Err?
  {
    assert S.SessionLater(before.sessions[p.sessionId], auth.sessions.sessions[p.sessionId]);
  }

  lemma ChangePasswordAnswers(cfg: A.Config, auth: A.State, s: O.State, u: A.UserId, cur: PasswordHistory.Password, pw: PasswordHistory.Password,
                              sid: S.SessionId, now: Time, p: Payload, later: Time)
    requires S.Inv(auth.sessions) && SubjectOk(auth, p) && p.sub == u
    requires A.ChangePassword(cfg, auth, u, cur, pw, true, true, sid, now).1.Ok?
    ensures var auth1 := A.ChangePassword(cfg, auth, u, cur, pw, true, true, sid, now).0;
            if p.sessionId == sid then Validate(auth1, s, p, later) == Validate(auth, s, p, later)
            else p.sessionId in auth1.sessions.sessions && auth1.sessions.sessions[p.sessionId].revokedAt.Some?
  {
    A.ChangePasswordKeepsOnlyTheCurrentSession(cfg, auth, u, cur, pw, sid, now);
  }

  /** Tokens of the session the password is changed from are answered exactly as before. */
  lemma ChangePasswordKeepsThisAccess(cfg: A.Config, w: World, u: A.UserId, cur: PasswordHistory.Password, pw: PasswordHistory.Password,
                                      now: Time, e: Minted, later: Time)
    requires S.Inv(w.auth.sessions) && Sound(w) && e in w.minted && e.payload.sub == u
    requires A.ChangePassword(cfg, w.auth, u, cur, pw, true, true, e.payload.sessionId, now).1.Ok?
    ensures Validate(A.ChangePassword(cfg, w.auth, u, cur, pw, true, true, e.payload.sessionId, now).0, w.org, e.payload, later)
            == Validate(w.auth, w.org, e.payload, later)
  {
    assert SubjectOk(w.auth, e.payload);
    ChangePasswordAnswers(cfg, w.auth, w.org, u, cur, pw, e.payload.sessionId, now, e.payload, later);
  }

  /** Tokens of the user's other sessions are refused at every later point of every run. */
  lemma ChangePasswordEndsOtherAccess(cfg: A.Config, w: World, u: A.UserId, cur: PasswordHistory.Password, pw: PasswordHistory.Password,
                                      sid: S.SessionId, now: Time, e: Minted, ops: seq<Op>, later: Time)
    requires S.Inv(w.auth.sessions) && Sound(w) && e in w.minted && e.payload.sub == u && e.payload.sessionId != sid
    requires A.ChangePassword(cfg, w.auth, u, cur, pw, true, true, sid, now).1.Ok?
    ensures var end := Run(cfg, w.(auth := A.ChangePassword(cfg, w.auth, u, cur, pw, true, true, sid, now).0), ops);
            Validate(end.auth, end.org, e.payload, later).Err?
  {
    var auth1 := A.ChangePassword(cfg, w.auth, u, cur, pw, true, true, sid, now).0;
    assert e.payload.sessionId in auth1.sessions.sessions && auth1.sessions.sessions[e.payload.sessionId].revokedAt.Some? by {
      assert SubjectOk(w.auth, e.payload);
      ChangePasswordAnswers(cfg, w.auth, w.org, u, cur, pw, sid, now, e.payload, later);
    }
    ChangePasswordKeepsChains(cfg, w.auth, u, cur, pw, sid, now);
    RevokedSessionRefusesAccess(cfg, w.(auth := auth1), e.payload, ops, later);
  }

  lemma ChangePasswordKeepsChains(cfg: A.Config, auth: A.State, u: A.UserId, cur: PasswordHistory.Password, pw: PasswordHistory.Password,
                                  sid: S.SessionId, now: Time)
    requires S.Inv(auth.sessions)
    ensures S.Inv(A.ChangePassword(cfg, auth, u, cur, pw, true, true, sid, now).0.sessions)
  {
    S.RevokeAllOfKeepsInv(auth.sessions, S.ActiveSessions(auth.sessions, u, Some(sid)), now);
  }

  /** The instant a sign-in or refresh happens at. */
  function SignInTime(op: A.Op): Option<Time> {
    match op
    case OpLogin(_, _, _, now) => Some(now)
    case OpFederatedLogin(_, _, now) => Some(now)
    case OpRefresh(_, now) => Some(now)
    case _ => None
  }

  lemma SignInContextIsAccepted(s: O.State, op: A.Op, u: A.UserId)
    ensures ContextError(s, u, SignInContext(s, op, u)).None?
  {
  }

  /** What GrantSession leaves: a live session, if sessions live at all, of an account that may or may not be usable. */
  lemma GrantedSessionIsLiveIff(cfg: A.Config, s: A.State, op: A.Op)
    requires S.Inv(s.sessions) && SignInTime(op).Some?
    requires A.Apply(cfg, s, op).1.Ok? && A.Apply(cfg, s, op).1.value.Granted?
    ensures SessionLive(A.Apply(cfg, s, op).0.sessions, A.Apply(cfg, s, op).1.value.issued.session, SignInTime(op).value)
            <==> op.OpRefresh? || 0 < cfg.sessionTtlMs
  {
    match op
    case OpLogin(u, pw, facts, now) =>
    case OpFederatedLogin(u, path, now) =>
    case OpRefresh(tok, now) =>
      S.TokensAgreeWithSessions(s.sessions);
      assert S.Agrees(s.sessions, s.sessions.tokens[tok].sessionId, tok);
      assert tok in s.sessions.tokens && s.sessions.tokens[tok].revokedAt.None?;
  }

  /**
    Which sign-ins end with an account that may sign in, told before the call: a password, an MFA
    code and a refresh require one; OAuth lets a locked account through, SSO a deleted one.
   */
  predicate AccountUsable(s: A.State, op: A.Op)
    requires op.OpFederatedLogin? ==> op.user in s.users
  {
    if op.OpFederatedLogin? && op.path.ViaOAuth? then !s.users[op.user].status.Locked?
    else if op.OpFederatedLogin? && op.path.ViaSso? then !s.users[op.user].deleted
    else true
  }

  lemma GrantedAccountMaySignInIff(cfg: A.Config, s: A.State, op: A.Op)
    requires SignInTime(op).Some? && A.Apply(cfg, s, op).1.Ok? && A.Apply(cfg, s, op).1.value.Granted?
    ensures (op.OpFederatedLogin? ==> op.user in s.users)
            && (A.MaySignIn(A.Apply(cfg, s, op).0, A.Apply(cfg, s, op).1.value.issued.userId) <==> AccountUsable(s, op))
  {
    match op
    case OpLogin(u, pw, facts, now) =>
    case OpFederatedLogin(u, path, now) =>
    case OpRefresh(tok, now) =>
  }

  /**
    The token a sign-in or refresh answers with is accepted at once exactly when the account is
    usable (AccountUsable) and, unless it is a refresh, sessions have a positive lifetime.
   */
  lemma FreshTokenIsAcceptedIff(cfg: A.Config, auth: A.State, s: O.State, op: A.Op, e: Minted)
    requires S.Inv(auth.sessions) && SignInTime(op).Some?
    requires e in Signed(A.Apply(cfg, auth, op).0, s, op, A.Apply(cfg, auth, op).1)
    ensures op.OpFederatedLogin? ==> op.user in auth.users
    ensures Validate(A.Apply(cfg, auth, op).0, s, e.payload, SignInTime(op).value).Ok?
            <==> AccountUsable(auth, op) && (op.OpRefresh? || 0 < cfg.sessionTtlMs)
  {
    SignInContextIsAccepted(s, op, e.payload.sub);
    GrantedSessionIsLiveIff(cfg, auth, op);
    GrantedAccountMaySignInIff(cfg, auth, op);
  }

  /** OAuth gives a locked account a session, and a token that validate refuses. */
  lemma LockedAccountGetsARefusedToken(cfg: A.Config, auth: A.State, s: O.State, u: A.UserId, now: Time)
    requires S.Inv(auth.sessions) && u in auth.users && !auth.users[u].deleted && auth.users[u].status.Locked?
    ensures var op := A.OpFederatedLogin(u, A.ViaOAuth, now);
            var (auth1, outcome) := A.Apply(cfg, auth, op);
            && outcome.Ok? && outcome.value.Granted? && Signed(auth1, s, op, outcome) != {}
            && forall e :: e in Signed(auth1, s, op, outcome) ==> Validate(auth1, s, e.payload, now) == Err(AccountInactive)
  {
  }

  /** So does SSO for a deleted one. */
  lemma DeletedAccountGetsARefusedToken(cfg: A.Config, auth: A.State, s: O.State, u: A.UserId, org: O.OrgId, now: Time)
    requires S.Inv(auth.sessions) && u in auth.users && auth.users[u].deleted
    ensures var op := A.OpFederatedLogin(u, A.ViaSso(org), now);
            var (auth1, outcome) := A.Apply(cfg, auth, op);
            && outcome.Ok? && outcome.value.Granted? && Signed(auth1, s, op, outcome) != {}
            && forall e :: e in Signed(auth1, s, op, outcome) ==> Validate(auth1, s, e.payload, now) == Err(AccountInactive)
  {
  }
}
