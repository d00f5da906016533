/**
  What AuthService's answers are worth: which refresh token a sign-in hands out, which password is
  in use, when a login succeeds, and what ends a session
  (src/modules/auth/services/auth.service.ts).
 */
module SignIns {
  import opened Wrappers
  import opened Auth
  import opened PasswordHistory
  import S = Sessions
  import V = Verification
  import F = Refreshing

  // ---------------------------------------------------------------- the granted session

  /** Whom a sign-in or refresh is for. */
  function SignedInUser(s: State, op: Op): Option<UserId> {
    match op
    case OpLogin(u, _, _, _) => Some(u)
    case OpFederatedLogin(u, _, _) => Some(u)
    case OpRefresh(tok, _) => if tok in s.sessions.tokens then Some(s.sessions.tokens[tok].userId) else None
    case _ => None
  }

  predicate IsGranted(outcome: Outcome) {
    outcome.Ok? && outcome.value.Granted?
  }

  /**
    Every granted session is answered with its newest refresh token, one that was not there before,
    and belongs to the user signing in. A refresh stays in the presented token's session; any other
    sign-in starts one that lives for the configured time.
   */
  lemma GrantAnswersWithNewest(cfg: Config, s: State, op: Op)
    requires S.Inv(s.sessions) && IsGranted(Apply(cfg, s, op).1)
    ensures var (s', outcome) := Apply(cfg, s, op);
            var issued := outcome.value.issued;
            && F.AnswersWithNewest(s.sessions, s'.sessions, issued) && SignedInUser(s, op) == Some(issued.userId)
            && s'.sessions.sessions[issued.session].revokedAt.None?
            && if op.OpRefresh? then issued.session == s.sessions.tokens[op.token].sessionId && s'.sessions.sessions == s.sessions.sessions
               else && (op.OpLogin? || op.OpFederatedLogin?) && issued.session !in s.sessions.sessions
                    && s'.sessions.sessions[issued.session].expiresAt == op.now + cfg.sessionTtlMs
  {
    OnlySignInsGrant(cfg, s, op);
    if op.OpRefresh? { RefreshAnswersWithNewest(cfg, s, op.token, op.now); } else { LoginStartsSession(cfg, s, op, op.user, op.now); }
  }

  lemma OnlySignInsGrant(cfg: Config, s: State, op: Op)
    requires IsGranted(Apply(cfg, s, op).1)
    ensures op.OpLogin? || op.OpFederatedLogin? || op.OpRefresh?
  {
    match op
    case OpRegister(email, pw, ok, now) =>
    case OpCreateFromProfile(email, initial) =>
    case OpLogout(u, x, now) =>
    case OpLogoutAll(u, except, now) =>
    case OpChangePassword(u, cur, pw, ok, others, x, now) =>
    case OpResetPassword(tok, pw, ok, now) =>
    case OpRequestReset(u, now) =>
    case OpVerifyEmail(tok, now) =>
    case OpSetStatus(u, status, deleted) =>
    case _ =>
  }

  lemma LoginCreates(cfg: Config, s: State, op: Op, u: UserId, now: Time)
    requires (op.OpLogin? && op.user == u && op.now == now) || (op.OpFederatedLogin? && op.user == u && op.now == now)
    requires IsGranted(Apply(cfg, s, op).1)
    ensures (Apply(cfg, s, op).0.sessions, Apply(cfg, s, op).1.value.issued) == S.CreateSession(s.sessions, u, now, cfg.sessionTtlMs)
  {
  }

  lemma LoginStartsSession(cfg: Config, s: State, op: Op, u: UserId, now: Time)
    requires (op.OpLogin? && op.user == u && op.now == now) || (op.OpFederatedLogin? && op.user == u && op.now == now)
    requires S.Inv(s.sessions) && IsGranted(Apply(cfg, s, op).1)
    ensures var sessions', issued := Apply(cfg, s, op).0.sessions, Apply(cfg, s, op).1.value.issued;
            && F.AnswersWithNewest(s.sessions, sessions', issued) && issued.userId == u
            && sessions'.sessions[issued.session].revokedAt.None?
            && issued.session !in s.sessions.sessions && sessions'.sessions[issued.session].expiresAt == now + cfg.sessionTtlMs
  {
    LoginCreates(cfg, s, op, u, now);
    F.CreationAnswersWithNewest(s.sessions, u, now, cfg.sessionTtlMs);
  }

  lemma RefreshAnswersWithNewest(cfg: Config, s: State, tok: S.TokenId, now: Time)
    requires S.Inv(s.sessions) && IsGranted(Refresh(cfg, s, tok, now).1)
    ensures var sessions', issued := Refresh(cfg, s, tok, now).0.sessions, Refresh(cfg, s, tok, now).1.value.issued;
            && F.AnswersWithNewest(s.sessions, sessions', issued) && sessions'.sessions == s.sessions.sessions
            && sessions'.sessions[issued.session].revokedAt.None?
            && tok in s.sessions.tokens && issued.userId == s.sessions.tokens[tok].userId && issued.session == s.sessions.tokens[tok].sessionId
  {
    F.RotationAnswersWithNewest(cfg.rule, s.sessions, tok, now);
  }

  /** The refresh token of every grant refreshes until the session's expiry, as long as the account may sign in. */
  lemma GrantedTokenRefreshesIff(cfg: Config, s: State, op: Op, later: Time)
    requires S.Inv(s.sessions) && IsGranted(Apply(cfg, s, op).1)
    ensures var (s', outcome) := Apply(cfg, s, op);
            var issued := outcome.value.issued;
            var next := Refresh(cfg, s', issued.token, later).1;
            && issued.session in s'.sessions.sessions
            && (!(next.Err? && next.error.SessionError?) <==> later < s'.sessions.sessions[issued.session].expiresAt)
            && (IsGranted(next) <==> later < s'.sessions.sessions[issued.session].expiresAt && MaySignIn(s', issued.userId))
            && (IsGranted(next) ==> next.value.issued.userId == issued.userId && next.value.issued.session == issued.session)
  {
    var (s', outcome) := Apply(cfg, s, op);
    var issued := outcome.value.issued;
    GrantAnswersWithNewest(cfg, s, op);
    F.AnsweredTokenRotatesIff(cfg.rule, s.sessions, s'.sessions, issued, later);
  }

  // ---------------------------------------------------------------- what ends a session

  /** The account operations that end a live session, and nobody else's. */
  predicate Ends(cfg: Config, s: State, op: Op, sid: S.SessionId)
    requires sid in s.sessions.sessions
  {
    var owner := s.sessions.sessions[sid].userId;
    match op
    case OpLogout(u, x, _) => u == owner && x == sid
    case OpLogoutAll(u, except, _) => u == owner && except != Some(sid)
    case OpChangePassword(u, _, _, _, others, x, _) => u == owner && others && x != sid && Apply(cfg, s, op).1.Ok?
    case OpResetPassword(tok, _, _, _) => Apply(cfg, s, op).1.Ok? && s.tokens.resets[tok].userId == owner
    case OpRefresh(t, _) =>
      cfg.rule.KeepOnThrow? && t in s.sessions.tokens && s.sessions.tokens[t].sessionId == sid && s.sessions.tokens[t].revokedAt.Some?
    case _ => false
  }

  /** The step of the session machine an operation makes, if it makes one. */
  function SessionOp(cfg: Config, s: State, op: Op): Option<S.Op> {
    match op
    case OpLogin(u, _, _, now) => if IsGranted(Apply(cfg, s, op).1) then Some(S.OpCreate(u, now, cfg.sessionTtlMs)) else None
    case OpFederatedLogin(u, _, now) => if IsGranted(Apply(cfg, s, op).1) then Some(S.OpCreate(u, now, cfg.sessionTtlMs)) else None
    case OpRefresh(t, now) => Some(S.OpRotate(t, now))
    case OpLogout(u, x, now) => Some(S.OpRevoke(x, u, now))
    case OpLogoutAll(u, except, now) => if u in s.users then Some(S.OpRevokeAll(u, except, now)) else None
    case OpChangePassword(u, _, _, _, others, x, now) => if others && Apply(cfg, s, op).1.Ok? then Some(S.OpRevokeAll(u, Some(x), now)) else None
    case OpResetPassword(tok, _, _, now) => if Apply(cfg, s, op).1.Ok? then Some(S.OpRevokeAll(s.tokens.resets[tok].userId, None, now)) else None
    case _ => None
  }

  lemma SessionOpIsIt(cfg: Config, s: State, op: Op)
    ensures Apply(cfg, s, op).0.sessions
            == match SessionOp(cfg, s, op) case None => s.sessions case Some(o) => S.Step(cfg.rule, s.sessions, o)
  {
    match op
    case OpLogin(u, pw, facts, now) =>
    case OpFederatedLogin(u, path, now) =>
    case OpRefresh(t, now) =>
    case OpLogout(u, x, now) =>
    case OpLogoutAll(u, except, now) =>
    case OpChangePassword(u, cur, pw, ok, others, x, now) =>
    case OpResetPassword(tok, pw, ok, now) =>
    case OpRegister(email, pw, ok, now) =>
    case OpCreateFromProfile(email, initial) =>
    case OpRequestReset(u, now) =>
    case OpVerifyEmail(tok, now) =>
    case OpSetStatus(u, status, deleted) =>
  }

  lemma SessionOpEndsIff(cfg: Config, s: State, op: Op, sid: S.SessionId)
    requires sid in s.sessions.sessions && s.sessions.sessions[sid].userId in s.users
    ensures Ends(cfg, s, op, sid) <==> SessionOp(cfg, s, op).Some? && F.Ends(cfg.rule, s.sessions, SessionOp(cfg, s, op).value, sid)
  {
  }

  /** A live session ends exactly by one of those operations. */
  lemma SessionEndsIff(cfg: Config, s: State, op: Op, sid: S.SessionId)
    requires Inv(cfg, s) && sid in s.sessions.sessions && s.sessions.sessions[sid].revokedAt.None?
    ensures sid in Apply(cfg, s, op).0.sessions.sessions
    ensures Apply(cfg, s, op).0.sessions.sessions[sid].revokedAt.Some? <==> Ends(cfg, s, op, sid)
  {
    SessionOpIsIt(cfg, s, op);
    SessionOpEndsIff(cfg, s, op, sid);
    if SessionOp(cfg, s, op).Some? { F.StepEndsSessionIff(cfg.rule, s.sessions, SessionOp(cfg, s, op).value, sid); }
  }

  // ---------------------------------------------------------------- the password in use

  /** The password an accepted operation gives the user. */
  function GivenPassword(cfg: Config, s: State, op: Op, u: UserId): Option<Password> {
    if Apply(cfg, s, op).1.Err? then None
    else
      match op
      case OpRegister(_, pw, _, _) => if u == s.nextUser then Some(pw) else None
      case OpCreateFromProfile(_, initial) => if u == s.nextUser then Some(initial) else None
      case OpChangePassword(v, _, pw, _, _, _, _) => if u == v then Some(pw) else None
      case OpResetPassword(tok, pw, _, _) => if u == s.tokens.resets[tok].userId then Some(pw) else None
      case _ => None
  }

  /** The last password the user was given in a run, or the one from before it. */
  function LastGiven(cfg: Config, s: State, ops: seq<Op>, u: UserId, before: Option<Password>): Option<Password>
    decreases |ops|
  {
    if ops == [] then before
    else
      var given := GivenPassword(cfg, s, ops[0], u);
      LastGiven(cfg, Apply(cfg, s, ops[0]).0, ops[1..], u, if given.Some? then given else before)
  }

  function InUse(s: State, u: UserId): Option<Password> {
    if u in s.users then Some(s.users[u].passwordHash.of) else None
  }

  lemma StepPasswordInUse(cfg: Config, s: State, op: Op, u: UserId)
    requires UsersBelowNext(s)
    ensures InUse(Apply(cfg, s, op).0, u) == if GivenPassword(cfg, s, op, u).Some? then GivenPassword(cfg, s, op, u) else InUse(s, u)
  {
    match op
    case OpLogin(v, pw, facts, now) => SignInKeepsColumns(cfg, s, op);
    case OpFederatedLogin(v, path, now) => SignInKeepsColumns(cfg, s, op);
    case OpRegister(email, pw, ok, now) =>
    case OpCreateFromProfile(email, initial) =>
    case OpRefresh(t, now) =>
    case OpLogout(v, x, now) =>
    case OpLogoutAll(v, except, now) =>
    case OpChangePassword(v, cur, pw, ok, others, x, now) =>
    case OpResetPassword(tok, pw, ok, now) =>
    case OpRequestReset(v, now) =>
    case OpVerifyEmail(tok, now) =>
    case OpSetStatus(v, status, deleted) =>
  }

  /** After every run a user's password is the last one that was accepted for that user, and only that one compares equal. */
  lemma {:induction false} PasswordInUseIsTheLastGiven(cfg: Config, s: State, ops: seq<Op>, u: UserId)
    requires UsersBelowNext(s)
    ensures InUse(Run(cfg, s, ops), u) == LastGiven(cfg, s, ops, u, InUse(s, u))
    ensures forall p: Password :: u in Run(cfg, s, ops).users ==>
              (Compare(p, Run(cfg, s, ops).users[u].passwordHash) <==> LastGiven(cfg, s, ops, u, InUse(s, u)) == Some(p))
    decreases |ops|
  {
    if ops != [] {
      StepPasswordInUse(cfg, s, ops[0], u);
      ApplyKeepsUsersBelowNext(cfg, s, ops[0]);
      PasswordInUseIsTheLastGiven(cfg, Apply(cfg, s, ops[0]).0, ops[1..], u);
    }
  }

  /** The passwords the user was given in a run, in order. */
  function GivenIn(cfg: Config, s: State, ops: seq<Op>, u: UserId): seq<PasswordHash>
    decreases |ops|
  {
    if ops == [] then [] else GivenNow(cfg, s, ops[0], u) + GivenIn(cfg, Apply(cfg, s, ops[0]).0, ops[1..], u)
  }

  function GivenNow(cfg: Config, s: State, op: Op, u: UserId): seq<PasswordHash> {
    var given := GivenPassword(cfg, s, op, u);
    if given.Some? then [Bcrypt(given.value)] else []
  }

  function EverSetOfUser(s: State, u: UserId): seq<PasswordHash> {
    if u in s.users then EverSetOf(s, u) else []
  }

  lemma StepRecordsGiven(cfg: Config, s: State, op: Op, u: UserId)
    requires UsersBelowNext(s)
    ensures EverSetOfUser(Apply(cfg, s, op).0, u) == EverSetOfUser(s, u) + GivenNow(cfg, s, op, u)
  {
    match op
    case OpLogin(v, pw, facts, now) => SignInKeepsColumns(cfg, s, op);
    case OpFederatedLogin(v, path, now) => SignInKeepsColumns(cfg, s, op);
    case OpRegister(email, pw, ok, now) =>
    case OpCreateFromProfile(email, initial) =>
    case OpRefresh(t, now) =>
    case OpLogout(v, x, now) =>
    case OpLogoutAll(v, except, now) =>
    case OpChangePassword(v, cur, pw, ok, others, x, now) =>
    case OpResetPassword(tok, pw, ok, now) =>
    case OpRequestReset(v, now) =>
    case OpVerifyEmail(tok, now) =>
    case OpSetStatus(v, status, deleted) =>
  }

  lemma AppendTwice(a: seq<PasswordHash>, b: seq<PasswordHash>, c: seq<PasswordHash>)
    ensures (a + b) + c == a + (b + c)
  {
  }

  lemma {:induction false} RunRecordsGiven(cfg: Config, s: State, ops: seq<Op>, u: UserId)
    requires UsersBelowNext(s)
    ensures EverSetOfUser(Run(cfg, s, ops), u) == EverSetOfUser(s, u) + GivenIn(cfg, s, ops, u)
    decreases |ops|
  {
    if ops != [] {
      var s1 := Apply(cfg, s, ops[0]).0;
      StepRecordsGiven(cfg, s, ops[0], u);
      ApplyKeepsUsersBelowNext(cfg, s, ops[0]);
      RunRecordsGiven(cfg, s1, ops[1..], u);
      AppendTwice(EverSetOfUser(s, u), GivenNow(cfg, s, ops[0], u), GivenIn(cfg, s1, ops[1..], u));
    }
  }

  /**
    Given these passwords, in order, the last is the one in use and the stored history is the newest
    limit of them, without the random first one of a user OAuth or SSO created; none of these repeats
    one of the limit before it.
   */
  ghost predicate HistoryShows(cfg: Config, s: State, u: UserId, given: seq<PasswordHash>)
    requires u in s.users
  {
    && given != [] && s.users[u].passwordHash == given[|given| - 1]
    && var kept := if u in s.provisioned then given[1..] else given;
       && HistoryOf(s, u) == (if cfg.historyLimit <= 0 || |kept| <= cfg.historyLimit then kept else kept[|kept| - cfg.historyLimit..])
       && (forall i, j :: 0 <= i < j < |kept| && j - i <= cfg.historyLimit ==> kept[i].of != kept[j].of)
  }

  lemma HistoryOfGiven(cfg: Config, s: State, u: UserId, given: seq<PasswordHash>)
    requires u in s.users && PasswordsOk(cfg, s, u) && EverSetOf(s, u) == given
    ensures HistoryShows(cfg, s, u, given)
  {
    var kept := Recorded(s, u);
    forall i, j | 0 <= i < j < |kept| && j - i <= cfg.historyLimit ensures kept[i].of != kept[j].of {
      assert !Compare(kept[j].of, kept[i]);
    }
  }

  lemma ReachedPasswordsAreOk(cfg: Config, start: State, ops: seq<Op>, u: UserId)
    requires Inv(cfg, start) && u in Run(cfg, start, ops).users
    ensures PasswordsOk(cfg, Run(cfg, start, ops), u) && UsersBelowNext(start)
  {
    RunKeepsInv(cfg, start, ops);
  }

  /** After every run that is so of the passwords the user was given before it and in it. */
  lemma HistoryIsTheNewestGiven(cfg: Config, start: State, ops: seq<Op>, u: UserId)
    requires Inv(cfg, start) && u in Run(cfg, start, ops).users
    ensures HistoryShows(cfg, Run(cfg, start, ops), u, EverSetOfUser(start, u) + GivenIn(cfg, start, ops, u))
  {
    ReachedPasswordsAreOk(cfg, start, ops, u);
    RunRecordsGiven(cfg, start, ops, u);
    HistoryOfGiven(cfg, Run(cfg, start, ops), u, EverSetOfUser(start, u) + GivenIn(cfg, start, ops, u));
  }

  /** An accepted change or reset of u's password. */
  predicate NewPasswordFor(cfg: Config, s: State, op: Op, u: UserId, pw: Password) {
    (op.OpChangePassword? || op.OpResetPassword?) && GivenPassword(cfg, s, op, u) == Some(pw)
  }

  /**
    After an accepted change or reset exactly the new password compares equal, it is recorded as the
    newest, and of the user tables nothing else changed but, after a reset, the token version.
   */
  lemma AcceptedPasswordIsStored(cfg: Config, s: State, op: Op, u: UserId, pw: Password)
    requires NewPasswordFor(cfg, s, op, u, pw)
    ensures u in s.users && u in Apply(cfg, s, op).0.users
    ensures var s' := Apply(cfg, s, op).0;
            && (forall p :: Compare(p, s'.users[u].passwordHash) <==> p == pw)
            && EverSetOf(s', u) == EverSetOf(s, u) + [Bcrypt(pw)]
            && s'.users.Keys == s.users.Keys && s'.provisioned == s.provisioned
            && s'.users[u] == s.users[u].(passwordHash := Bcrypt(pw), tokenVersion := s.users[u].tokenVersion + if op.OpResetPassword? then 1 else 0)
            && (forall v :: v in s.users && v != u ==>
                  s'.users[v] == s.users[v] && HistoryOf(s', v) == HistoryOf(s, v) && EverSetOf(s', v) == EverSetOf(s, v))
  {
  }

  lemma NewPasswordSignsIn(cfg: Config, s: State, op: Op, u: UserId, pw: Password, tried: Password, facts: LoginFacts, later: Time)
    requires NewPasswordFor(cfg, s, op, u, pw) && MaySignIn(s, u) && !LockActive(s.users[u], later) && !facts.ssoBlocked
    ensures Login(cfg, Apply(cfg, s, op).0, u, tried, facts, later).1 == Err(InvalidCredentials) <==> tried != pw
  {
    AcceptedPasswordIsStored(cfg, s, op, u, pw);
  }

  /** changePassword is accepted exactly with the password in use, an admitted new one, and none of the newest recorded ones. */
  lemma ChangePasswordSucceedsIff(cfg: Config, s: State, u: UserId, cur: Password, pw: Password, policyOk: bool, others: bool,
                                  sid: S.SessionId, now: Time)
    requires UsersOk(cfg, s)
    ensures ChangePassword(cfg, s, u, cur, pw, policyOk, others, sid, now).1.Ok?
            <==> InUse(s, u) == Some(cur) && policyOk && !SetWithin(Recorded(s, u), cfg.historyLimit, pw)
  {
    if u in s.users {
      assert PasswordsOk(cfg, s, u);
      CheckSeesTheWindow(Recorded(s, u), cfg.historyLimit, pw);
    }
  }

  /** resetPassword is accepted exactly with an unused, unexpired link and, for the link's user, a password as above. */
  lemma ResetPasswordSucceedsIff(cfg: Config, s: State, tok: V.TokenId, pw: Password, policyOk: bool, now: Time)
    requires UsersOk(cfg, s)
    ensures ResetPassword(cfg, s, tok, pw, policyOk, now).1.Ok?
            <==> && policyOk && tok in s.tokens.resets && s.tokens.resets[tok].usedAt.None? && now < s.tokens.resets[tok].expiresAt
                 && !SetWithin(Recorded(s, s.tokens.resets[tok].userId), cfg.historyLimit, pw)
  {
    if tok in s.tokens.resets {
      var u := s.tokens.resets[tok].userId;
      assert PasswordsOk(cfg, s, u);
      CheckSeesTheWindow(Recorded(s, u), cfg.historyLimit, pw);
    }
  }

  // ---------------------------------------------------------------- login

  /**
    After every run: a login succeeds exactly for a usable account outside a running lock, with the
    password last given to it. With a second factor enabled it then asks for the factor and grants
    no session; without one it grants a session to that user.
   */
  lemma LoginSucceedsIff(cfg: Config, start: State, ops: seq<Op>, u: UserId, pw: Password, facts: LoginFacts, now: Time)
    requires UsersBelowNext(start)
    ensures var s := Run(cfg, start, ops);
            var (s', outcome) := Login(cfg, s, u, pw, facts, now);
            && (outcome.Ok? <==> && MaySignIn(s, u) && !LockActive(s.users[u], now) && !facts.ssoBlocked
                                 && LastGiven(cfg, start, ops, u, InUse(start, u)) == Some(pw))
            && (outcome.Ok? ==> if facts.mfaEnabled then outcome.value.MfaRequired? && s'.sessions == s.sessions
                                else outcome.value.Granted? && outcome.value.issued.userId == u)
            && (outcome.Err? ==> s'.sessions == s.sessions)
  {
    PasswordInUseIsTheLastGiven(cfg, start, ops, u);
  }

  /** What a login writes to the user table: this user's failures and lock, cleared by success. */
  lemma LoginWritesOneRow(cfg: Config, s: State, u: UserId, pw: Password, facts: LoginFacts, now: Time)
    ensures var (s', outcome) := Login(cfg, s, u, pw, facts, now);
            && s'.users.Keys == s.users.Keys && (forall v :: v in s.users && v != u ==> s'.users[v] == s.users[v])
            && (outcome.Ok? ==> s'.users[u] == s.users[u].(failedLoginAttempts := 0, lockUntil := None))
            && (outcome.Err? && outcome.error != InvalidCredentials ==> s' == s)
  {
  }

  /**
    The failure that locks an account also sets a timer. An SSO sign-in clears the locked status
    but not the timer: until it has run out, the right password is still refused.
   */
  lemma LockTimerOutlastsSso(cfg: Config, s: State, u: UserId, wrong: Password, facts: LoginFacts, now: Time, org: nat, back: Time, later: Time)
    requires MaySignIn(s, u) && Login(cfg, s, u, wrong, facts, now).1 == Err(InvalidCredentials)
    requires IsLocked(Login(cfg, s, u, wrong, facts, now).0, u)
    ensures var s1 := Login(cfg, s, u, wrong, facts, now).0;
            var s2 := FederatedLogin(cfg, s1, u, ViaSso(org), back).0;
            && InUse(s2, u) == InUse(s, u) && InUse(s, u).Some? && MaySignIn(s2, u)
            && (Login(cfg, s2, u, InUse(s, u).value, LoginFacts(false, false), later).1.Ok? <==> now + cfg.lockDurationMs <= later)
  {
  }

  /**
    A sign-in without a password succeeds exactly for an account its path lets through. It clears
    the failures and the timer, or over SSO only brings the account back unless it is deleted, and
    writes no other row.
   */
  lemma FederatedLoginSucceedsIff(cfg: Config, s: State, u: UserId, path: Path, now: Time)
    ensures var (s', outcome) := FederatedLogin(cfg, s, u, path, now);
            && (outcome.Ok? <==>
                  u in s.users && match path
                                  case ViaMfa => !s.users[u].deleted && s.users[u].status.Active?
                                  case ViaOAuth => !s.users[u].deleted && (s.users[u].status.Active? || s.users[u].status.Locked?)
                                  case ViaSso(_) => true)
            && (outcome.Err? ==> s' == s)
            && (outcome.Ok? ==>
                  && IsGranted(outcome) && outcome.value.issued.userId == u
                  && s'.users == s.users[u := if path.ViaSso?
                                              then s.users[u].(status := if s.users[u].deleted then s.users[u].status else Active)
                                              else s.users[u].(failedLoginAttempts := 0, lockUntil := None)])
  {
  }

  /** Logout is accepted exactly for a session of the caller's own. */
  lemma LogoutSucceedsIff(s: State, u: UserId, sid: S.SessionId, now: Time)
    ensures var (s', outcome) := Logout(s, u, sid, now);
            && (outcome.Ok? <==> sid in s.sessions.sessions && s.sessions.sessions[sid].userId == u)
            && (outcome.Ok? ==> s'.sessions.sessions[sid].revokedAt.Some?)
  {
  }

  // ---------------------------------------------------------------- registration

  ghost predicate UniqueEmails(s: State) {
    forall u, v :: u in s.users && v in s.users && s.users[u].email == s.users[v].email ==> u == v
  }

  lemma EmailsStay(cfg: Config, s: State, op: Op)
    requires !op.OpRegister? && !op.OpCreateFromProfile?
    ensures Apply(cfg, s, op).0.users.Keys == s.users.Keys
    ensures forall u :: u in s.users ==> Apply(cfg, s, op).0.users[u].email == s.users[u].email
  {
    match op
    case OpLogin(v, pw, facts, now) =>
    case OpFederatedLogin(v, path, now) =>
    case OpRefresh(t, now) =>
    case OpLogout(v, x, now) =>
    case OpLogoutAll(v, except, now) =>
    case OpChangePassword(v, cur, pw, ok, others, x, now) =>
    case OpResetPassword(tok, pw, ok, now) =>
    case OpRequestReset(v, now) =>
    case OpVerifyEmail(tok, now) =>
    case OpSetStatus(v, status, deleted) =>
  }

  lemma StepKeepsUniqueEmails(cfg: Config, s: State, op: Op)
    requires UniqueEmails(s)
    ensures UniqueEmails(Apply(cfg, s, op).0)
  {
    if op.OpRegister? || op.OpCreateFromProfile? {
      assert Apply(cfg, s, op).1.Err? ==> Apply(cfg, s, op).0 == s;
    } else {
      EmailsStay(cfg, s, op);
    }
  }

  /** No run gives two users one email address. */
  lemma {:induction false} EmailsAreUnique(cfg: Config, s: State, ops: seq<Op>)
    requires UniqueEmails(s)
    ensures UniqueEmails(Run(cfg, s, ops))
    decreases |ops|
  {
    if ops != [] {
      StepKeepsUniqueEmails(cfg, s, ops[0]);
      EmailsAreUnique(cfg, Apply(cfg, s, ops[0]).0, ops[1..]);
    }
  }

  /**
    Registration is accepted exactly for an admitted password and a free address. The new user may
    sign in with that password and holds a verification link of its own; nobody else's row changes.
   */
  lemma RegistrationSucceedsIff(cfg: Config, s: State, email: string, pw: Password, policyOk: bool, now: Time, tried: Password, later: Time)
    requires UsersBelowNext(s)
    ensures var (s', outcome) := Register(cfg, s, email, pw, policyOk, now);
            && (outcome.Ok? <==> policyOk && forall u :: u in s.users ==> s.users[u].email != email)
            && (outcome.Ok? ==>
                  && outcome.value.Registered? && outcome.value.user !in s.users
                  && (Login(cfg, s', outcome.value.user, tried, LoginFacts(false, false), later).1.Ok? <==> tried == pw)
                  && (VerifyEmail(s', outcome.value.token, later).1.Ok? <==> later < now + cfg.verificationTtlMs)
                  && (later < now + cfg.verificationTtlMs ==>
                        VerifyEmail(s', outcome.value.token, later).0.tokens.verifiedUsers == s.tokens.verifiedUsers + {outcome.value.user})
                  && s'.users[outcome.value.user].email == email && s'.users.Keys == s.users.Keys + {outcome.value.user}
                  && forall u :: u in s.users ==> s'.users[u] == s.users[u])
  {
  }

  /** OAuth and SSO create a user exactly for a free address; it may sign in and has no history. */
  lemma ProfileCreationSucceedsIff(s: State, email: string, initial: Password)
    requires UsersBelowNext(s)
    ensures var (s', outcome) := CreateFromProfile(s, email, initial);
            && (outcome.Ok? <==> forall u :: u in s.users ==> s.users[u].email != email)
            && (outcome.Err? ==> s' == s)
            && (outcome.Ok? ==>
                  && outcome.value.Created? && outcome.value.user !in s.users && MaySignIn(s', outcome.value.user)
                  && InUse(s', outcome.value.user) == Some(initial) && s'.provisioned == s.provisioned + {outcome.value.user}
                  && s'.users == s.users[outcome.value.user := s'.users[outcome.value.user]] && s'.users[outcome.value.user].email == email
                  && s'.history == s.history)
  {
  }

  /** A mailed link resets its user's password, and nobody else's, until it expires. */
  lemma MailedLinkResetsIff(cfg: Config, s: State, u: UserId, now: Time, pw: Password, later: Time)
    requires UsersOk(cfg, s)
    ensures var (s1, mailed) := RequestPasswordReset(cfg, s, u, now);
            && ((mailed.Ok? && mailed.value.Mailed?) <==> u in s.users && !s.users[u].deleted)
            && (mailed.Ok? && mailed.value.Mailed? ==>
                  var (s2, outcome) := ResetPassword(cfg, s1, mailed.value.token, pw, true, later);
                  && (outcome.Ok? <==> later < now + cfg.resetTtlMs && !SetWithin(Recorded(s, u), cfg.historyLimit, pw))
                  && (outcome.Ok? ==> InUse(s2, u) == Some(pw)))
  {
    if u in s.users && !s.users[u].deleted {
      assert PasswordsOk(cfg, s, u);
      CheckSeesTheWindow(Recorded(s, u), cfg.historyLimit, pw);
    }
  }
}
