/**
  AuthService's flows over users, sessions, one-time tokens and password history, and what holds
  in every run of them (src/modules/auth/services/auth.service.ts).

  Answers of code outside the model are parameters of an operation: whether the password meets
  the character policy, and whether MFA or SSO-only applies. The other services that sign users
  in or create them (src/modules/mfa, src/modules/oauth, src/modules/sso) have their own guards.
 */
module Auth {
  import opened Wrappers
  import opened PasswordHistory
  import S = Sessions
  import V = Verification

  type UserId = nat

  datatype UserStatus = Active | Inactive | Suspended | Locked

  datatype User = User(
    email: string, passwordHash: PasswordHash, tokenVersion: nat, status: UserStatus, deleted: bool,
    failedLoginAttempts: nat, lockUntil: Option<Time>)

  datatype Config = Config(
    sessionTtlMs: Time, verificationTtlMs: Time, resetTtlMs: Time, historyLimit: int,
    maxLoginAttempts: int, lockDurationMs: Time, rule: CommitRule)

  /**
    everSet records every password a user was given, and provisioned the users OAuth or SSO
    created; no code reads either.
   */
  datatype State = State(
    users: map<UserId, User>, sessions: S.State, tokens: V.State,
    history: map<UserId, seq<PasswordHash>>, everSet: map<UserId, seq<PasswordHash>>, provisioned: set<UserId>, nextUser: nat)

  datatype Error =
    | WeakPassword | EmailTaken | InvalidCredentials | AccountLocked | AccountInactive | SsoOnly
    | RecentlyUsedPassword | UserNotFound | SessionError(s: S.Error) | TokenError(t: V.Error)

  datatype Reply = Registered(user: UserId, token: V.TokenId) | Created(user: UserId) | MfaRequired | Granted(issued: S.Issued) | Done | Mailed(token: V.TokenId)

  type Outcome = Result<Reply, Error>

  const Init := State(map[], S.Init, V.Init, map[], map[], {}, 0)

  datatype LoginFacts = LoginFacts(ssoBlocked: bool, mfaEnabled: bool)

  // ---------------------------------------------------------------- operations

  predicate MaySignIn(s: State, u: UserId) {
    u in s.users && !s.users[u].deleted && s.users[u].status.Active?
  }

  function FreshUser(email: string, password: Password): User {
    User(email, Bcrypt(password), 0, Active, false, 0, None)
  }

  function Register(cfg: Config, s: State, email: string, password: Password, policyOk: bool, now: Time): (State, Outcome) {
    if !policyOk then (s, Err(WeakPassword))
    else if exists u :: u in s.users && s.users[u].email == email then (s, Err(EmailTaken))
    else
      var u := s.nextUser;
      var (tokens', token) := V.IssueVerification(s.tokens, u, now, cfg.verificationTtlMs);
      (s.(users := s.users[u := FreshUser(email, password)],
          history := s.history[u := [Bcrypt(password)]],
          everSet := s.everSet[u := [Bcrypt(password)]],
          tokens := tokens', nextUser := s.nextUser + 1),
       Ok(Registered(u, token)))
  }

  /** A user OAuth or SSO creates on first sight, with a random password and no history row. */
  function CreateFromProfile(s: State, email: string, initial: Password): (State, Outcome) {
    if exists u :: u in s.users && s.users[u].email == email then (s, Err(EmailTaken))
    else
      var u := s.nextUser;
      (s.(users := s.users[u := FreshUser(email, initial)], everSet := s.everSet[u := [Bcrypt(initial)]],
          provisioned := s.provisioned + {u}, nextUser := s.nextUser + 1),
       Ok(Created(u)))
  }

  function GrantSession(cfg: Config, s: State, u: UserId, now: Time): (State, Outcome) {
    var (sessions', issued) := S.CreateSession(s.sessions, u, now, cfg.sessionTtlMs);
    (s.(sessions := sessions'), Ok(Granted(issued)))
  }

  predicate LockActive(user: User, now: Time) {
    user.lockUntil.Some? && now < user.lockUntil.value
  }

  /** handleFailedLogin. */
  function FailedLogin(cfg: Config, user: User, now: Time): User {
    var attempts := user.failedLoginAttempts + 1;
    var shouldLock := attempts >= cfg.maxLoginAttempts;
    user.(failedLoginAttempts := attempts, lockUntil := if shouldLock then Some(now + cfg.lockDurationMs) else None,
          status := if shouldLock then Locked else user.status)
  }

  function ClearFailures(s: State, u: UserId): State
    requires u in s.users
  {
    s.(users := s.users[u := s.users[u].(failedLoginAttempts := 0, lockUntil := None)])
  }

  function Login(cfg: Config, s: State, u: UserId, password: Password, facts: LoginFacts, now: Time): (State, Outcome) {
    if u !in s.users || s.users[u].deleted then (s, Err(InvalidCredentials))
    else
      var user := s.users[u];
      if user.status.Locked? || LockActive(user, now) then (s, Err(AccountLocked))
      else if user.status.Inactive? || user.status.Suspended? then (s, Err(AccountInactive))
      else if facts.ssoBlocked then (s, Err(SsoOnly))
      else if !Compare(password, user.passwordHash) then
        (s.(users := s.users[u := FailedLogin(cfg, user, now)]), Err(InvalidCredentials))
      else if facts.mfaEnabled then (ClearFailures(s, u), Ok(MfaRequired))
      else GrantSession(cfg, ClearFailures(s, u), u, now)
  }

  /** How a sign-in without a password was authenticated; an SSO sign-in names its organization. */
  datatype Path = ViaMfa | ViaOAuth | ViaSso(organization: nat)

  /** provision brings any account back that is not deleted. */
  function Reactivate(s: State, u: UserId): State
    requires u in s.users
  {
    if !s.users[u].status.Active? && !s.users[u].deleted then s.(users := s.users[u := s.users[u].(status := Active)]) else s
  }

  /**
    The session an MFA, OAuth or SSO service makes. MFA asks for an active account; OAuth refuses
    deleted, suspended and inactive accounts but not locked ones; SSO refuses none.
   */
  function FederatedLogin(cfg: Config, s: State, u: UserId, path: Path, now: Time): (State, Outcome) {
    if u !in s.users then (s, Err(UserNotFound))
    else
      match path
      case ViaMfa => if !MaySignIn(s, u) then (s, Err(AccountInactive)) else GrantSession(cfg, ClearFailures(s, u), u, now)
      case ViaOAuth =>
        if s.users[u].deleted || s.users[u].status.Suspended? || s.users[u].status.Inactive? then (s, Err(AccountInactive))
        else GrantSession(cfg, ClearFailures(s, u), u, now)
      case ViaSso(_) => GrantSession(cfg, Reactivate(s, u), u, now)
  }

  function Refresh(cfg: Config, s: State, tok: S.TokenId, now: Time): (State, Outcome) {
    var (sessions', outcome) := S.Rotate(cfg.rule, s.sessions, tok, now);
    var s' := s.(sessions := sessions');
    match outcome
    case Err(e) => (s', Err(SessionError(e)))
    case Ok(issued) => if MaySignIn(s, issued.userId) then (s', Ok(Granted(issued))) else (s', Err(AccountInactive))
  }

  function Logout(s: State, u: UserId, sid: S.SessionId, now: Time): (State, Outcome) {
    var (sessions', outcome) := S.RevokeSession(s.sessions, sid, u, now);
    (s.(sessions := sessions'), if outcome.Ok? then Ok(Done) else Err(SessionError(outcome.error)))
  }

  function BumpTokenVersion(s: State, u: UserId): State
    requires u in s.users
  {
    s.(users := s.users[u := s.users[u].(tokenVersion := s.users[u].tokenVersion + 1)])
  }

  function LogoutAll(s: State, u: UserId, except: Option<S.SessionId>, now: Time): (State, Outcome) {
    if u !in s.users then (s, Err(UserNotFound))
    else
      (BumpTokenVersion(s, u).(sessions := S.RevokeAllForUser(s.sessions, u, except, now)), Ok(Done))
  }

  function HistoryOf(s: State, u: UserId): seq<PasswordHash> {
    if u in s.history then s.history[u] else []
  }

  function EverSetOf(s: State, u: UserId): seq<PasswordHash> {
    if u in s.everSet then s.everSet[u] else []
  }

  /** The password write both flows share: the hash, one history row, then the trim. */
  function StorePassword(cfg: Config, s: State, u: UserId, password: Password): State
    requires u in s.users
  {
    var hash := Bcrypt(password);
    s.(users := s.users[u := s.users[u].(passwordHash := hash)],
       history := s.history[u := Trim(HistoryOf(s, u) + [hash], cfg.historyLimit)],
       everSet := s.everSet[u := EverSetOf(s, u) + [hash]])
  }

  function ChangePassword(cfg: Config, s: State, u: UserId, current: Password, password: Password, policyOk: bool,
                          revokeOthers: bool, currentSession: S.SessionId, now: Time): (State, Outcome)
  {
    if u !in s.users || !Compare(current, s.users[u].passwordHash) then (s, Err(InvalidCredentials))
    else if !policyOk then (s, Err(WeakPassword))
    else if RecentlyUsed(HistoryOf(s, u), cfg.historyLimit, password) then (s, Err(RecentlyUsedPassword))
    else
      var s1 := StorePassword(cfg, s, u, password);
      (if revokeOthers then s1.(sessions := S.RevokeAllForUser(s.sessions, u, Some(currentSession), now)) else s1, Ok(Done))
  }

  function RequestPasswordReset(cfg: Config, s: State, u: UserId, now: Time): (State, Outcome) {
    if u !in s.users || s.users[u].deleted then (s, Ok(Done))
    else
      var (tokens', token) := V.IssueReset(s.tokens, u, now, cfg.resetTtlMs);
      (s.(tokens := tokens'), Ok(Mailed(token)))
  }

  /** The token is spent before the history check, so a refused password still costs the link. */
  function ResetPassword(cfg: Config, s: State, tok: V.TokenId, password: Password, policyOk: bool, now: Time): (State, Outcome) {
    if !policyOk then (s, Err(WeakPassword))
    else
      var (tokens', consumed) := V.ConsumeReset(s.tokens, tok, now);
      var s1 := s.(tokens := tokens');
      match consumed
      case Err(e) => (s1, Err(TokenError(e)))
      case Ok(u) =>
        if RecentlyUsed(HistoryOf(s, u), cfg.historyLimit, password) then (s1, Err(RecentlyUsedPassword))
        else if u !in s.users then (s1, Err(UserNotFound))
        else
          (BumpTokenVersion(StorePassword(cfg, s1, u, password), u).(sessions := S.RevokeAllForUser(s.sessions, u, None, now)),
           Ok(Done))
  }

  function VerifyEmail(s: State, tok: V.TokenId, now: Time): (State, Outcome) {
    var (tokens', consumed) := V.ConsumeVerification(s.tokens, tok, now);
    (s.(tokens := tokens'), if consumed.Ok? then Ok(Done) else Err(TokenError(consumed.error)))
  }

  /** A change of status or deletion mark from outside: no code of the services makes one. */
  function SetStatus(s: State, u: UserId, status: UserStatus, deleted: bool): (State, Outcome) {
    if u !in s.users then (s, Err(UserNotFound))
    else (s.(users := s.users[u := s.users[u].(status := status, deleted := deleted)]), Ok(Done))
  }

  // ---------------------------------------------------------------- runs

  datatype Op =
    | OpRegister(email: string, password: Password, policyOk: bool, now: Time)
    | OpLogin(user: UserId, password: Password, facts: LoginFacts, now: Time)
    | OpFederatedLogin(user: UserId, path: Path, now: Time)
    | OpCreateFromProfile(email: string, initial: Password)
    | OpRefresh(token: S.TokenId, now: Time)
    | OpLogout(user: UserId, session: S.SessionId, now: Time)
    | OpLogoutAll(user: UserId, except: Option<S.SessionId>, now: Time)
    | OpChangePassword(user: UserId, current: Password, password: Password, policyOk: bool,
                       revokeOthers: bool, session: S.SessionId, now: Time)
    | OpRequestReset(user: UserId, now: Time)
    | OpResetPassword(resetToken: V.TokenId, password: Password, policyOk: bool, now: Time)
    | OpVerifyEmail(verificationToken: V.TokenId, now: Time)
    | OpSetStatus(user: UserId, status: UserStatus, deleted: bool)

  function Apply(cfg: Config, s: State, op: Op): (State, Outcome) {
    match op
    case OpRegister(email, pw, ok, now) => Register(cfg, s, email, pw, ok, now)
    case OpLogin(u, pw, facts, now) => Login(cfg, s, u, pw, facts, now)
    case OpFederatedLogin(u, path, now) => FederatedLogin(cfg, s, u, path, now)
    case OpCreateFromProfile(email, initial) => CreateFromProfile(s, email, initial)
    case OpRefresh(tok, now) => Refresh(cfg, s, tok, now)
    case OpLogout(u, sid, now) => Logout(s, u, sid, now)
    case OpLogoutAll(u, except, now) => LogoutAll(s, u, except, now)
    case OpChangePassword(u, cur, pw, ok, others, sid, now) => ChangePassword(cfg, s, u, cur, pw, ok, others, sid, now)
    case OpRequestReset(u, now) => RequestPasswordReset(cfg, s, u, now)
    case OpResetPassword(tok, pw, ok, now) => ResetPassword(cfg, s, tok, pw, ok, now)
    case OpVerifyEmail(tok, now) => VerifyEmail(s, tok, now)
    case OpSetStatus(u, status, deleted) => SetStatus(s, u, status, deleted)
  }

  function Run(cfg: Config, s: State, ops: seq<Op>): State
    decreases |ops|
  {
    if ops == [] then s else Run(cfg, Apply(cfg, s, ops[0]).0, ops[1..])
  }

  lemma {:induction false} RunOneMore(cfg: Config, s: State, ops: seq<Op>, op: Op)
    ensures Run(cfg, s, ops + [op]) == Apply(cfg, Run(cfg, s, ops), op).0
    decreases |ops|
  {
    if ops == [] {
      assert ops + [op] == [op] && [op][1..] == [];
    } else {
      assert (ops + [op])[1..] == ops[1..] + [op];
      RunOneMore(cfg, Apply(cfg, s, ops[0]).0, ops[1..], op);
    }
  }

  // ---------------------------------------------------------------- invariant

  /** The passwords that got a history row: all of them but the random one of a provisioned user. */
  function Recorded(s: State, u: UserId): seq<PasswordHash> {
    var all := EverSetOf(s, u);
    if u in s.provisioned && all != [] then all[1..] else all
  }

  /** The stored rows and the current hash, in terms of everything ever set. */
  ghost predicate PasswordsOk(cfg: Config, s: State, u: UserId)
    requires u in s.users
  {
    var all := EverSetOf(s, u);
    && all != [] && s.users[u].passwordHash == all[|all| - 1]
    && HistoryOf(s, u) == Trim(Recorded(s, u), cfg.historyLimit)
    && NoRepeatInWindow(Recorded(s, u), cfg.historyLimit)
  }

  ghost predicate UsersOk(cfg: Config, s: State) {
    && s.provisioned <= s.users.Keys
    && s.history.Keys <= s.users.Keys
    && (forall u :: u in s.users ==> u < s.nextUser && PasswordsOk(cfg, s, u))
    && (forall t :: t in s.tokens.resets ==> s.tokens.resets[t].userId in s.users)
  }

  ghost predicate SessionsHaveUsers(s: State) {
    forall sid :: sid in s.sessions.sessions ==> s.sessions.sessions[sid].userId in s.users
  }

  ghost predicate Inv(cfg: Config, s: State) {
    S.Inv(s.sessions) && V.Inv(s.tokens) && UsersOk(cfg, s) && SessionsHaveUsers(s)
  }

  /** Each operation moves the session tables by at most one step of the session machine. */
  ghost predicate SessionStep(rule: CommitRule, a: S.State, b: S.State) {
    a == b || exists op :: b == S.Step(rule, a, op)
  }

  ghost predicate TokenStep(a: V.State, b: V.State) {
    a == b || exists op :: b == V.Step(a, op)
  }

  lemma ApplyIsSessionStep(cfg: Config, s: State, op: Op)
    ensures SessionStep(cfg.rule, s.sessions, Apply(cfg, s, op).0.sessions)
  {
    match op
    case OpLogin(u, _, _, now) => assert S.CreateSession(s.sessions, u, now, cfg.sessionTtlMs).0 == S.Step(cfg.rule, s.sessions, S.OpCreate(u, now, cfg.sessionTtlMs));
    case OpFederatedLogin(u, path, now) => assert S.CreateSession(s.sessions, u, now, cfg.sessionTtlMs).0 == S.Step(cfg.rule, s.sessions, S.OpCreate(u, now, cfg.sessionTtlMs));
    case OpRefresh(tok, now) => assert S.Rotate(cfg.rule, s.sessions, tok, now).0 == S.Step(cfg.rule, s.sessions, S.OpRotate(tok, now));
    case OpLogout(u, sid, now) => assert S.RevokeSession(s.sessions, sid, u, now).0 == S.Step(cfg.rule, s.sessions, S.OpRevoke(sid, u, now));
    case OpLogoutAll(u, except, now) => assert S.RevokeAllForUser(s.sessions, u, except, now) == S.Step(cfg.rule, s.sessions, S.OpRevokeAll(u, except, now));
    case OpChangePassword(u, _, _, _, _, sid, now) => assert S.RevokeAllForUser(s.sessions, u, Some(sid), now) == S.Step(cfg.rule, s.sessions, S.OpRevokeAll(u, Some(sid), now));
    case OpResetPassword(tok, _, _, now) =>
      if tok in s.tokens.resets {
        var u := s.tokens.resets[tok].userId;
        assert S.RevokeAllForUser(s.sessions, u, None, now) == S.Step(cfg.rule, s.sessions, S.OpRevokeAll(u, None, now));
      }
    case _ =>
  }

  lemma ApplyIsTokenStep(cfg: Config, s: State, op: Op)
    ensures TokenStep(s.tokens, Apply(cfg, s, op).0.tokens)
  {
    match op
    case OpRegister(_, _, _, now) => assert V.IssueVerification(s.tokens, s.nextUser, now, cfg.verificationTtlMs).0 == V.Step(s.tokens, V.OpIssueVerification(s.nextUser, now, cfg.verificationTtlMs));
    case OpRequestReset(u, now) => assert V.IssueReset(s.tokens, u, now, cfg.resetTtlMs).0 == V.Step(s.tokens, V.OpIssueReset(u, now, cfg.resetTtlMs));
    case OpResetPassword(tok, _, _, now) => assert V.ConsumeReset(s.tokens, tok, now).0 == V.Step(s.tokens, V.OpConsumeReset(tok, now));
    case OpVerifyEmail(tok, now) => assert V.ConsumeVerification(s.tokens, tok, now).0 == V.Step(s.tokens, V.OpConsumeVerification(tok, now));
    case _ =>
  }

  lemma SessionStepFacts(rule: CommitRule, a: S.State, b: S.State)
    requires S.Inv(a) && SessionStep(rule, a, b)
    ensures S.Inv(b) && S.Later(a, b)
  {
    if a != b {
      var op :| b == S.Step(rule, a, op);
      S.StepKeepsInv(rule, a, op);
      S.StepIsLater(rule, a, op);
    }
  }

  lemma TokenStepFacts(a: V.State, b: V.State)
    requires V.Inv(a) && TokenStep(a, b)
    ensures V.Inv(b) && V.Later(a, b)
  {
    if a != b {
      var op :| b == V.Step(a, op);
      V.StepKeepsInv(a, op);
      V.StepIsLater(a, op);
    }
  }

  /** What is said of one user depends only on that user's rows. */
  lemma PasswordsFrame(cfg: Config, s: State, s': State, u: UserId)
    requires u in s.users && u in s'.users && s'.users[u].passwordHash == s.users[u].passwordHash
    requires HistoryOf(s', u) == HistoryOf(s, u) && EverSetOf(s', u) == EverSetOf(s, u) && (u in s'.provisioned <==> u in s.provisioned)
    requires PasswordsOk(cfg, s, u)
    ensures PasswordsOk(cfg, s', u)
  {
  }

  lemma StoredPasswordIsOk(cfg: Config, s: State, u: UserId, password: Password)
    requires u in s.users && PasswordsOk(cfg, s, u) && !RecentlyUsed(HistoryOf(s, u), cfg.historyLimit, password)
    ensures PasswordsOk(cfg, StorePassword(cfg, s, u, password), u)
  {
    var all, kept, hash := EverSetOf(s, u), Recorded(s, u), Bcrypt(password);
    assert Recorded(StorePassword(cfg, s, u, password), u) == kept + [hash] by { assert (all + [hash])[1..] == all[1..] + [hash]; }
    TrimOfTrimmed(kept, cfg.historyLimit, hash);
    AcceptedPasswordKeepsWindow(kept, cfg.historyLimit, password);
  }

  lemma StorePasswordKeepsUsersOk(cfg: Config, s: State, u: UserId, password: Password)
    requires UsersOk(cfg, s) && u in s.users
    requires !RecentlyUsed(HistoryOf(s, u), cfg.historyLimit, password)
    ensures UsersOk(cfg, StorePassword(cfg, s, u, password))
  {
    var s' := StorePassword(cfg, s, u, password);
    forall v | v in s'.users ensures v < s'.nextUser && PasswordsOk(cfg, s', v) {
      assert v in s.users && PasswordsOk(cfg, s, v);
      if v == u { StoredPasswordIsOk(cfg, s, u, password); } else { PasswordsFrame(cfg, s, s', v); }
    }
  }

  /** Operations that leave every password column and history row alone. */
  lemma PasswordsUntouched(cfg: Config, s: State, s': State)
    requires UsersOk(cfg, s)
    requires s'.users.Keys == s.users.Keys && s'.history == s.history && s'.everSet == s.everSet && s'.provisioned == s.provisioned
    requires s'.nextUser == s.nextUser
    requires forall u :: u in s.users ==> s'.users[u].passwordHash == s.users[u].passwordHash
    requires forall t :: t in s'.tokens.resets ==> s'.tokens.resets[t].userId in s.users
    ensures UsersOk(cfg, s')
  {
    forall u | u in s'.users ensures u < s'.nextUser && PasswordsOk(cfg, s', u) {
      assert u in s.users && PasswordsOk(cfg, s, u);
      PasswordsFrame(cfg, s, s', u);
    }
  }

  lemma RegisterKeepsUsersOk(cfg: Config, s: State, email: string, pw: Password, ok: bool, now: Time)
    requires UsersOk(cfg, s)
    ensures UsersOk(cfg, Register(cfg, s, email, pw, ok, now).0)
  {
    var s' := Register(cfg, s, email, pw, ok, now).0;
    if s' != s {
      assert s.nextUser !in s.users;
      FirstPasswordIsOk(cfg, s', s.nextUser, Bcrypt(pw));
      forall u | u in s'.users && u != s.nextUser ensures u < s'.nextUser && PasswordsOk(cfg, s', u) {
        assert u in s.users && PasswordsOk(cfg, s, u);
        PasswordsFrame(cfg, s, s', u);
      }
    }
  }

  lemma FirstPasswordIsOk(cfg: Config, s: State, u: UserId, hash: PasswordHash)
    requires u in s.users && s.users[u].passwordHash == hash && EverSetOf(s, u) == [hash]
    requires HistoryOf(s, u) == if u in s.provisioned then [] else [hash]
    ensures PasswordsOk(cfg, s, u)
  {
  }

  lemma CreateFromProfileKeepsUsersOk(cfg: Config, s: State, email: string, initial: Password)
    requires UsersOk(cfg, s)
    ensures UsersOk(cfg, CreateFromProfile(s, email, initial).0)
  {
    var s' := CreateFromProfile(s, email, initial).0;
    if s' != s {
      assert s.nextUser !in s.users;
      FirstPasswordIsOk(cfg, s', s.nextUser, Bcrypt(initial));
      forall u | u in s'.users && u != s.nextUser ensures u < s'.nextUser && PasswordsOk(cfg, s', u) {
        assert u in s.users && PasswordsOk(cfg, s, u);
        PasswordsFrame(cfg, s, s', u);
      }
    }
  }

  lemma ResetPasswordKeepsUsersOk(cfg: Config, s: State, tok: V.TokenId, pw: Password, ok: bool, now: Time)
    requires UsersOk(cfg, s)
    ensures UsersOk(cfg, ResetPassword(cfg, s, tok, pw, ok, now).0)
  {
    var s1 := s.(tokens := V.ConsumeReset(s.tokens, tok, now).0);
    assert UsersOk(cfg, s1) by { PasswordsUntouched(cfg, s, s1); }
    if ResetPassword(cfg, s, tok, pw, ok, now).1.Ok? {
      var u := s.tokens.resets[tok].userId;
      assert UsersOk(cfg, StorePassword(cfg, s1, u, pw)) by { StorePasswordKeepsUsersOk(cfg, s1, u, pw); }
      BumpKeepsUsersOk(cfg, StorePassword(cfg, s1, u, pw), u, S.RevokeAllForUser(s.sessions, u, None, now));
    }
  }

  lemma BumpKeepsUsersOk(cfg: Config, s: State, u: UserId, sessions: S.State)
    requires UsersOk(cfg, s) && u in s.users
    ensures UsersOk(cfg, BumpTokenVersion(s, u).(sessions := sessions))
  {
    PasswordsUntouched(cfg, s, BumpTokenVersion(s, u).(sessions := sessions));
  }

  lemma ChangePasswordKeepsUsersOk(cfg: Config, s: State, u: UserId, cur: Password, pw: Password, ok: bool, others: bool, sid: S.SessionId, now: Time)
    requires UsersOk(cfg, s)
    ensures UsersOk(cfg, ChangePassword(cfg, s, u, cur, pw, ok, others, sid, now).0)
  {
    if ChangePassword(cfg, s, u, cur, pw, ok, others, sid, now).1.Ok? {
      StorePasswordKeepsUsersOk(cfg, s, u, pw);
      PasswordsUntouched(cfg, StorePassword(cfg, s, u, pw), ChangePassword(cfg, s, u, cur, pw, ok, others, sid, now).0);
    }
  }

  lemma ApplyKeepsUsersOk(cfg: Config, s: State, op: Op)
    requires UsersOk(cfg, s)
    ensures UsersOk(cfg, Apply(cfg, s, op).0)
  {
    match op
    case OpRegister(email, pw, ok, now) => RegisterKeepsUsersOk(cfg, s, email, pw, ok, now);
    case OpResetPassword(tok, pw, ok, now) => ResetPasswordKeepsUsersOk(cfg, s, tok, pw, ok, now);
    case OpChangePassword(u, cur, pw, ok, others, sid, now) => ChangePasswordKeepsUsersOk(cfg, s, u, cur, pw, ok, others, sid, now);
    case OpLogin(u, pw, facts, now) => LeavesPasswordsAlone(cfg, s, op);
    case OpFederatedLogin(u, path, now) => LeavesPasswordsAlone(cfg, s, op);
    case OpCreateFromProfile(email, initial) => CreateFromProfileKeepsUsersOk(cfg, s, email, initial);
    case OpRefresh(tok, now) => LeavesPasswordsAlone(cfg, s, op);
    case OpLogout(u, sid, now) => LeavesPasswordsAlone(cfg, s, op);
    case OpLogoutAll(u, except, now) => LeavesPasswordsAlone(cfg, s, op);
    case OpRequestReset(u, now) => LeavesPasswordsAlone(cfg, s, op);
    case OpVerifyEmail(tok, now) => LeavesPasswordsAlone(cfg, s, op);
    case OpSetStatus(u, status, deleted) => LeavesPasswordsAlone(cfg, s, op);
  }

  lemma LeavesPasswordsAlone(cfg: Config, s: State, op: Op)
    requires UsersOk(cfg, s)
    requires !op.OpRegister? && !op.OpResetPassword? && !op.OpChangePassword? && !op.OpCreateFromProfile?
    ensures UsersOk(cfg, Apply(cfg, s, op).0)
  {
    SamePasswordColumns(cfg, s, op);
    PasswordsUntouched(cfg, s, Apply(cfg, s, op).0);
  }

  /** Sign-ins write the failure counter, the lock and the status of one user, and sessions. */
  lemma SignInKeepsColumns(cfg: Config, s: State, op: Op)
    requires op.OpLogin? || op.OpFederatedLogin?
    ensures var s' := Apply(cfg, s, op).0;
            && s'.users.Keys == s.users.Keys && s'.tokens == s.tokens && s'.nextUser == s.nextUser
            && s'.history == s.history && s'.everSet == s.everSet && s'.provisioned == s.provisioned
            && (forall u :: u in s.users ==> s'.users[u].passwordHash == s.users[u].passwordHash && s'.users[u].tokenVersion == s.users[u].tokenVersion)
  {
    match op
    case OpLogin(u, pw, facts, now) =>
    case OpFederatedLogin(u, path, now) =>
  }

  lemma SamePasswordColumns(cfg: Config, s: State, op: Op)
    requires !op.OpRegister? && !op.OpResetPassword? && !op.OpChangePassword? && !op.OpCreateFromProfile?
    requires forall t :: t in s.tokens.resets ==> s.tokens.resets[t].userId in s.users
    ensures var s' := Apply(cfg, s, op).0;
            && s'.users.Keys == s.users.Keys && s'.history == s.history && s'.everSet == s.everSet && s'.provisioned == s.provisioned && s'.nextUser == s.nextUser
            && (forall u :: u in s.users ==> s'.users[u].passwordHash == s.users[u].passwordHash)
            && (forall t :: t in s'.tokens.resets ==> s'.tokens.resets[t].userId in s.users)
  {
    match op
    case OpLogin(u, pw, facts, now) => SignInKeepsColumns(cfg, s, op);
    case OpFederatedLogin(u, path, now) => SignInKeepsColumns(cfg, s, op);
    case OpRefresh(tok, now) =>
    case OpLogout(u, x, now) =>
    case OpLogoutAll(u, except, now) =>
    case OpRequestReset(u, now) =>
    case OpVerifyEmail(tok, now) =>
    case OpSetStatus(u, status, deleted) =>
  }

  /** User rows are never deleted and their token version never goes down. */
  ghost predicate UsersLater(s: State, s': State) {
    && (forall u :: u in s.users ==> u in s'.users && s.users[u].tokenVersion <= s'.users[u].tokenVersion)
    && s.nextUser <= s'.nextUser
  }

  lemma ApplyIsUsersLater(cfg: Config, s: State, op: Op)
    requires forall u :: u in s.users ==> u < s.nextUser
    ensures UsersLater(s, Apply(cfg, s, op).0)
  {
    match op
    case OpRegister(email, pw, ok, now) =>
    case OpResetPassword(tok, pw, ok, now) =>
    case OpChangePassword(u, cur, pw, ok, others, sid, now) =>
    case OpLogin(u, pw, facts, now) => SignInKeepsColumns(cfg, s, op);
    case OpFederatedLogin(u, path, now) => SignInKeepsColumns(cfg, s, op);
    case OpCreateFromProfile(email, initial) =>
    case OpRefresh(tok, now) =>
    case OpLogout(u, sid, now) =>
    case OpLogoutAll(u, except, now) =>
    case OpRequestReset(u, now) =>
    case OpVerifyEmail(tok, now) =>
    case OpSetStatus(u, status, deleted) =>
  }

  ghost predicate UsersBelowNext(s: State) {
    forall u :: u in s.users ==> u < s.nextUser
  }

  lemma ApplyKeepsUsersBelowNext(cfg: Config, s: State, op: Op)
    requires UsersBelowNext(s)
    ensures UsersBelowNext(Apply(cfg, s, op).0)
  {
    match op
    case OpRegister(email, pw, ok, now) =>
    case OpResetPassword(tok, pw, ok, now) =>
    case OpChangePassword(u, cur, pw, ok, others, sid, now) =>
    case OpLogin(u, pw, facts, now) => SignInKeepsColumns(cfg, s, op);
    case OpFederatedLogin(u, path, now) => SignInKeepsColumns(cfg, s, op);
    case OpCreateFromProfile(email, initial) =>
    case OpRefresh(tok, now) =>
    case OpLogout(u, sid, now) =>
    case OpLogoutAll(u, except, now) =>
    case OpRequestReset(u, now) =>
    case OpVerifyEmail(tok, now) =>
    case OpSetStatus(u, status, deleted) =>
  }

  lemma ApplyKeepsSessionUsers(cfg: Config, s: State, op: Op)
    requires SessionsHaveUsers(s) && UsersLater(s, Apply(cfg, s, op).0)
    requires S.Later(s.sessions, Apply(cfg, s, op).0.sessions)
    ensures SessionsHaveUsers(Apply(cfg, s, op).0)
  {
    var s' := Apply(cfg, s, op).0;
    forall sid | sid in s'.sessions.sessions ensures s'.sessions.sessions[sid].userId in s'.users {
      if sid in s.sessions.sessions {
        assert S.SessionLater(s.sessions.sessions[sid], s'.sessions.sessions[sid]);
      } else {
        OnlySignInsAddSessions(cfg, s, op, sid);
      }
    }
  }

  lemma OnlySignInsAddSessions(cfg: Config, s: State, op: Op, sid: S.SessionId)
    requires sid in Apply(cfg, s, op).0.sessions.sessions && sid !in s.sessions.sessions
    ensures Apply(cfg, s, op).0.sessions.sessions[sid].userId in s.users
    ensures Apply(cfg, s, op).1.Ok? && Apply(cfg, s, op).1.value.Granted?
  {
    match op
    case OpRegister(email, pw, ok, now) =>
    case OpResetPassword(tok, pw, ok, now) =>
    case OpChangePassword(u, cur, pw, ok, others, x, now) =>
    case OpLogin(u, pw, facts, now) =>
    case OpFederatedLogin(u, path, now) =>
    case OpCreateFromProfile(email, initial) =>
    case OpRefresh(tok, now) =>
    case OpLogout(u, x, now) =>
    case OpLogoutAll(u, except, now) =>
    case OpRequestReset(u, now) =>
    case OpVerifyEmail(tok, now) =>
    case OpSetStatus(u, status, deleted) =>
  }

  lemma ApplyKeepsInv(cfg: Config, s: State, op: Op)
    requires Inv(cfg, s)
    ensures Inv(cfg, Apply(cfg, s, op).0)
  {
    ApplyIsSessionStep(cfg, s, op);
    SessionStepFacts(cfg.rule, s.sessions, Apply(cfg, s, op).0.sessions);
    ApplyIsTokenStep(cfg, s, op);
    TokenStepFacts(s.tokens, Apply(cfg, s, op).0.tokens);
    ApplyKeepsUsersOk(cfg, s, op);
    ApplyIsUsersLater(cfg, s, op);
    ApplyKeepsSessionUsers(cfg, s, op);
  }

  lemma InitInv(cfg: Config)
    ensures Inv(cfg, Init)
  {
  }

  ghost predicate Later(s: State, s': State) {
    S.Later(s.sessions, s'.sessions) && V.Later(s.tokens, s'.tokens) && UsersLater(s, s')
  }

  lemma ApplyIsLater(cfg: Config, s: State, op: Op)
    requires Inv(cfg, s)
    ensures Later(s, Apply(cfg, s, op).0)
  {
    ApplyIsSessionStep(cfg, s, op);
    SessionStepFacts(cfg.rule, s.sessions, Apply(cfg, s, op).0.sessions);
    ApplyIsTokenStep(cfg, s, op);
    TokenStepFacts(s.tokens, Apply(cfg, s, op).0.tokens);
    ApplyIsUsersLater(cfg, s, op);
  }

  lemma {:induction false} RunKeepsInv(cfg: Config, s: State, ops: seq<Op>)
    requires Inv(cfg, s)
    ensures Inv(cfg, Run(cfg, s, ops))
    decreases |ops|
  {
    if ops != [] {
      ApplyKeepsInv(cfg, s, ops[0]);
      RunKeepsInv(cfg, Apply(cfg, s, ops[0]).0, ops[1..]);
    }
  }

  /** The session tables of a run, whatever the rest of the state. */
  lemma {:induction false} RunSessionsAreLater(cfg: Config, s: State, ops: seq<Op>)
    requires S.Inv(s.sessions)
    ensures S.Inv(Run(cfg, s, ops).sessions) && S.Later(s.sessions, Run(cfg, s, ops).sessions)
    decreases |ops|
  {
    if ops != [] {
      var s1 := Apply(cfg, s, ops[0]).0;
      ApplyIsSessionStep(cfg, s, ops[0]);
      SessionStepFacts(cfg.rule, s.sessions, s1.sessions);
      RunSessionsAreLater(cfg, s1, ops[1..]);
      S.LaterIsTransitive(s.sessions, s1.sessions, Run(cfg, s1, ops[1..]).sessions);
    }
  }

  /** The one-time token tables of a run, whatever the rest of the state. */
  lemma {:induction false} RunTokensAreLater(cfg: Config, s: State, ops: seq<Op>)
    requires V.Inv(s.tokens)
    ensures V.Inv(Run(cfg, s, ops).tokens) && V.Later(s.tokens, Run(cfg, s, ops).tokens)
    decreases |ops|
  {
    if ops != [] {
      var s1 := Apply(cfg, s, ops[0]).0;
      ApplyIsTokenStep(cfg, s, ops[0]);
      TokenStepFacts(s.tokens, s1.tokens);
      RunTokensAreLater(cfg, s1, ops[1..]);
      V.LaterIsTransitive(s.tokens, s1.tokens, Run(cfg, s1, ops[1..]).tokens);
    }
  }

  // ---------------------------------------------------------------- password history

  /** The history refuses the password in use exactly when it is recorded: not the first one of a provisioned user. */
  lemma CurrentPasswordIsRefusedIff(cfg: Config, s: State, u: UserId)
    requires u in s.users && PasswordsOk(cfg, s, u)
    ensures RecentlyUsed(HistoryOf(s, u), cfg.historyLimit, s.users[u].passwordHash.of)
            <==> cfg.historyLimit > 0 && (u in s.provisioned ==> |EverSetOf(s, u)| > 1)
  {
    var kept, current := Recorded(s, u), s.users[u].passwordHash.of;
    CheckSeesTheWindow(kept, cfg.historyLimit, current);
    if cfg.historyLimit > 0 && kept != [] {
      assert Compare(current, kept[|kept| - 1]);
    }
  }

  // ---------------------------------------------------------------- lockout

  /** The only operations that end a lock: an SSO sign-in, or a change of the row from outside. */
  predicate Unlocks(op: Op, u: UserId) {
    (op.OpFederatedLogin? && op.path.ViaSso? && op.user == u) || (op.OpSetStatus? && op.user == u)
  }

  ghost predicate IsLocked(s: State, u: UserId) {
    u in s.users && s.users[u].status.Locked?
  }

  lemma ApplyKeepsLock(cfg: Config, s: State, op: Op, u: UserId)
    requires UsersBelowNext(s) && IsLocked(s, u) && !Unlocks(op, u)
    ensures IsLocked(Apply(cfg, s, op).0, u)
  {
    match op
    case OpRegister(email, pw, ok, now) =>
    case OpResetPassword(tok, pw, ok, now) =>
    case OpChangePassword(v, cur, pw, ok, others, sid, now) =>
    case OpLogin(v, pw, facts, now) =>
    case OpFederatedLogin(v, path, now) =>
    case OpCreateFromProfile(email, initial) =>
    case OpRefresh(tok, now) =>
    case OpLogout(v, sid, now) =>
    case OpLogoutAll(v, except, now) =>
    case OpRequestReset(v, now) =>
    case OpVerifyEmail(tok, now) =>
    case OpSetStatus(v, status, deleted) =>
  }

  lemma {:induction false} RunKeepsLock(cfg: Config, s: State, ops: seq<Op>, u: UserId)
    requires UsersBelowNext(s) && IsLocked(s, u) && forall i :: 0 <= i < |ops| ==> !Unlocks(ops[i], u)
    ensures IsLocked(Run(cfg, s, ops), u)
    decreases |ops|
  {
    if ops != [] {
      ApplyKeepsLock(cfg, s, ops[0], u);
      ApplyKeepsUsersBelowNext(cfg, s, ops[0]);
      RunKeepsLock(cfg, Apply(cfg, s, ops[0]).0, ops[1..], u);
    }
  }

  /**
    The lock the failed logins set has an end, lockUntil, but the status they set with it has none:
    until an SSO sign-in or a change from outside, no password signs a locked user in at any later
    time, however long after lockUntil, and a new password does not help.
   */
  lemma LockOutlastsItsDuration(cfg: Config, s: State, u: UserId, ops: seq<Op>, pw: Password, facts: LoginFacts, later: Time)
    requires UsersBelowNext(s) && IsLocked(s, u) && forall i :: 0 <= i < |ops| ==> !Unlocks(ops[i], u)
    ensures Login(cfg, Run(cfg, s, ops), u, pw, facts, later).1.Err?
  {
    RunKeepsLock(cfg, s, ops, u);
  }

  /** A login with a password, at a time of its own. */
  datatype Attempt = Attempt(password: Password, now: Time)

  function Logins(u: UserId, attempts: seq<Attempt>): seq<Op> {
    if attempts == [] then []
    else [OpLogin(u, attempts[0].password, LoginFacts(false, false), attempts[0].now)] + Logins(u, attempts[1..])
  }

  /**
    Wrong passwords in a row, at any times, lock an account exactly when there is one and they
    bring its failures to the configured maximum, where the counter may have stood already.
   */
  lemma {:induction false} WrongPasswordsLockIff(cfg: Config, s: State, u: UserId, attempts: seq<Attempt>)
    requires MaySignIn(s, u) && (attempts != [] ==> !LockActive(s.users[u], attempts[0].now))
    requires forall i :: 0 <= i < |attempts| ==> !Compare(attempts[i].password, s.users[u].passwordHash)
    ensures IsLocked(Run(cfg, s, Logins(u, attempts)), u)
            <==> attempts != [] && s.users[u].failedLoginAttempts + |attempts| >= cfg.maxLoginAttempts
    decreases |attempts|
  {
    if attempts != [] {
      var s1 := Login(cfg, s, u, attempts[0].password, LoginFacts(false, false), attempts[0].now).0;
      assert Logins(u, attempts)[1..] == Logins(u, attempts[1..]);
      if s1.users[u].status.Locked? {
        LockedLoginsChangeNothing(cfg, s1, u, attempts[1..]);
      } else {
        WrongPasswordsLockIff(cfg, s1, u, attempts[1..]);
      }
    }
  }

  lemma {:induction false} LockedLoginsChangeNothing(cfg: Config, s: State, u: UserId, attempts: seq<Attempt>)
    requires IsLocked(s, u)
    ensures Run(cfg, s, Logins(u, attempts)) == s
    decreases |attempts|
  {
    if attempts != [] {
      assert Logins(u, attempts)[1..] == Logins(u, attempts[1..]);
      LockedLoginsChangeNothing(cfg, s, u, attempts[1..]);
    }
  }

  // ---------------------------------------------------------------- ending sessions

  /** Every session and refresh token the user has so far is revoked. */
  ghost predicate AllRevoked(s: S.State, u: UserId) {
    && (forall sid :: sid in s.sessions && s.sessions[sid].userId == u ==> s.sessions[sid].revokedAt.Some?)
    && (forall t :: t in s.tokens && s.tokens[t].userId == u ==> s.tokens[t].revokedAt.Some?)
  }

  lemma RevokeAllRevokesAll(s: S.State, u: UserId, now: Time)
    requires S.Inv(s)
    ensures AllRevoked(S.RevokeAllForUser(s, u, None, now), u)
  {
    var s' := S.RevokeAllForUser(s, u, None, now);
    assert S.Inv(s') by { S.RevokeAllOfKeepsInv(s, S.ActiveSessions(s, u, None), now); }
    forall sid | sid in s'.sessions && s'.sessions[sid].userId == u ensures s'.sessions[sid].revokedAt.Some? {
      assert s.sessions[sid].revokedAt.None? ==> sid in S.ActiveSessions(s, u, None);
    }
    NoSessionNoToken(s', u);
  }

  /** A user whose sessions are all revoked has no live refresh token either. */
  lemma NoSessionNoToken(s: S.State, u: UserId)
    requires S.Inv(s)
    requires forall sid :: sid in s.sessions && s.sessions[sid].userId == u ==> s.sessions[sid].revokedAt.Some?
    ensures AllRevoked(s, u)
  {
    forall t | t in s.tokens && s.tokens[t].userId == u ensures s.tokens[t].revokedAt.Some? {
      var sid := s.tokens[t].sessionId;
      S.TokensAgreeWithSessions(s);
      assert S.Agrees(s, sid, t);
      S.RevokedSessionHasNoLiveToken(s, sid);
    }
  }

  lemma AllRevokedStays(s: S.State, s': S.State, u: UserId, tok: S.TokenId, rule: CommitRule, now: Time)
    requires AllRevoked(s, u) && S.Later(s, s') && tok in s.tokens && s.tokens[tok].userId == u
    ensures S.Rotate(rule, s', tok, now).1 == Err(S.ReuseDetected)
  {
  }

  /** resetPassword and logoutAll without an exception: the operations that end everything a user holds. */
  ghost predicate EndsEverything(op: Op, s: State, u: UserId) {
    match op
    case OpLogoutAll(v, except, _) => v == u && except.None?
    case OpResetPassword(tok, _, _, _) => tok in s.tokens.resets && s.tokens.resets[tok].userId == u
    case _ => false
  }

  lemma LogoutAllRevokesAll(s: State, u: UserId, now: Time)
    requires S.Inv(s.sessions) && u in s.users
    ensures AllRevoked(LogoutAll(s, u, None, now).0.sessions, u)
  {
    RevokeAllRevokesAll(s.sessions, u, now);
  }

  lemma ResetRevokesAll(cfg: Config, s: State, tok: V.TokenId, pw: Password, now: Time)
    requires S.Inv(s.sessions) && ResetPassword(cfg, s, tok, pw, true, now).1.Ok?
    ensures AllRevoked(ResetPassword(cfg, s, tok, pw, true, now).0.sessions, s.tokens.resets[tok].userId)
  {
    RevokeAllRevokesAll(s.sessions, s.tokens.resets[tok].userId, now);
  }

  lemma EndingRevokesAll(cfg: Config, s: State, op: Op, u: UserId)
    requires S.Inv(s.sessions) && EndsEverything(op, s, u) && Apply(cfg, s, op).1.Ok?
    ensures AllRevoked(Apply(cfg, s, op).0.sessions, u)
  {
    match op
    case OpLogoutAll(v, except, now) => LogoutAllRevokesAll(s, u, now);
    case OpResetPassword(tok, pw, ok, now) => ResetRevokesAll(cfg, s, tok, pw, now);
  }

  /** No refresh token issued before the ending is accepted at any later point of any run. */
  lemma EndedRefreshTokensStayDead(cfg: Config, s: State, op: Op, u: UserId, tok: S.TokenId, ops: seq<Op>, later: Time)
    requires S.Inv(s.sessions) && EndsEverything(op, s, u) && Apply(cfg, s, op).1.Ok?
    requires tok in s.sessions.tokens && s.sessions.tokens[tok].userId == u
    ensures Refresh(cfg, Run(cfg, Apply(cfg, s, op).0, ops), tok, later).1 == Err(SessionError(S.ReuseDetected))
  {
    ApplyIsSessionStep(cfg, s, op);
    SessionStepFacts(cfg.rule, s.sessions, Apply(cfg, s, op).0.sessions);
    RunSessionsAreLater(cfg, Apply(cfg, s, op).0, ops);
    EndingRevokesAll(cfg, s, op, u);
    DeadTokenIsRefused(cfg, s.sessions, Apply(cfg, s, op).0, Run(cfg, Apply(cfg, s, op).0, ops), u, tok, later);
  }

  lemma DeadTokenIsRefused(cfg: Config, before: S.State, mid: State, end: State, u: UserId, tok: S.TokenId, now: Time)
    requires tok in before.tokens && before.tokens[tok].userId == u
    requires S.Later(before, mid.sessions) && AllRevoked(mid.sessions, u) && S.Later(mid.sessions, end.sessions)
    ensures Refresh(cfg, end, tok, now).1 == Err(SessionError(S.ReuseDetected))
  {
    assert S.TokenLater(before.tokens[tok], mid.sessions.tokens[tok]);
    AllRevokedStays(mid.sessions, end.sessions, u, tok, cfg.rule, now);
  }

  /** Everything a user's rows in s' differ by when only the sessions in ids were revoked. */
  lemma OtherRowsUntouched(s: S.State, u: UserId, sid: S.SessionId, now: Time)
    requires S.Inv(s)
    ensures var s' := S.RevokeAllForUser(s, u, Some(sid), now);
            && (forall x :: x in s.sessions && (x == sid || s.sessions[x].userId != u) ==> s'.sessions[x] == s.sessions[x])
            && (forall x :: x in s.sessions && s.sessions[x].userId == u && x != sid ==> s'.sessions[x].revokedAt.Some?)
            && (forall t :: t in s.tokens && (s.tokens[t].sessionId == sid || s.tokens[t].userId != u) ==> s'.tokens[t] == s.tokens[t])
  {
    forall x | x in s.sessions && s.sessions[x].userId == u && x != sid
      ensures S.RevokeAllForUser(s, u, Some(sid), now).sessions[x].revokedAt.Some?
    {
      assert s.sessions[x].revokedAt.None? ==> x in S.ActiveSessions(s, u, Some(sid));
    }
    S.TokensAgreeWithSessions(s);
    forall t | t in s.tokens && (s.tokens[t].sessionId == sid || s.tokens[t].userId != u)
      ensures S.RevokeAllForUser(s, u, Some(sid), now).tokens[t] == s.tokens[t]
    {
      assert S.Agrees(s, s.tokens[t].sessionId, t);
    }
  }

  /**
    changePassword with revokeOtherSessions: every other session of the user is revoked; the
    current session, its tokens, every other user's rows and the token version are as they were.
   */
  lemma ChangePasswordKeepsOnlyTheCurrentSession(cfg: Config, s: State, u: UserId, cur: Password, pw: Password,
                                                 sid: S.SessionId, now: Time)
    requires S.Inv(s.sessions) && ChangePassword(cfg, s, u, cur, pw, true, true, sid, now).1.Ok?
    ensures var s' := ChangePassword(cfg, s, u, cur, pw, true, true, sid, now).0;
            && s'.users[u].tokenVersion == s.users[u].tokenVersion
            && (forall x :: x in s.sessions.sessions && (x == sid || s.sessions.sessions[x].userId != u)
                  ==> s'.sessions.sessions[x] == s.sessions.sessions[x])
            && (forall x :: x in s.sessions.sessions && s.sessions.sessions[x].userId == u && x != sid
                  ==> s'.sessions.sessions[x].revokedAt.Some?)
            && (forall t :: t in s.sessions.tokens && (s.sessions.tokens[t].sessionId == sid || s.sessions.tokens[t].userId != u)
                  ==> s'.sessions.tokens[t] == s.sessions.tokens[t])
  {
    OtherRowsUntouched(s.sessions, u, sid, now);
  }

  /** A revoked session is revoked, and refuses its refresh tokens, at every later point of every run. */
  lemma RevokedSessionStaysRevoked(cfg: Config, s: State, sid: S.SessionId, ops: seq<Op>)
    requires S.Inv(s.sessions) && sid in s.sessions.sessions && s.sessions.sessions[sid].revokedAt.Some?
    ensures var end := Run(cfg, s, ops);
            && sid in end.sessions.sessions && end.sessions.sessions[sid].revokedAt.Some?
            && (forall t, now :: t in end.sessions.tokens && end.sessions.tokens[t].sessionId == sid
                  ==> Refresh(cfg, end, t, now).1.Err?)
  {
    RunSessionsAreLater(cfg, s, ops);
    assert S.SessionLater(s.sessions.sessions[sid], Run(cfg, s, ops).sessions.sessions[sid]);
    RevokedSessionRefuses(cfg, Run(cfg, s, ops), sid);
  }

  lemma RevokedSessionRefuses(cfg: Config, s: State, sid: S.SessionId)
    requires S.Inv(s.sessions) && sid in s.sessions.sessions && s.sessions.sessions[sid].revokedAt.Some?
    ensures forall t, now :: t in s.sessions.tokens && s.sessions.tokens[t].sessionId == sid ==> Refresh(cfg, s, t, now).1.Err?
  {
    S.RevokedSessionHasNoLiveToken(s.sessions, sid);
  }

  /** No reset link changes a password twice, and a refused attempt spends the link as well. */
  lemma ResetLinkWorksOnce(cfg: Config, s: State, tok: V.TokenId, pw: Password, now: Time, ops: seq<Op>, pw2: Password, later: Time)
    requires V.Inv(s.tokens) && V.Usable(s.tokens.resets, tok, now)
    ensures ResetPassword(cfg, Run(cfg, ResetPassword(cfg, s, tok, pw, true, now).0, ops), tok, pw2, true, later).1
            == Err(TokenError(V.InvalidResetToken))
  {
    var mid := ResetPassword(cfg, s, tok, pw, true, now).0;
    AttemptSpendsLink(cfg, s, tok, pw, now);
    assert V.Inv(mid.tokens) by {
      ApplyIsTokenStep(cfg, s, OpResetPassword(tok, pw, true, now));
      TokenStepFacts(s.tokens, mid.tokens);
    }
    SpentStaysSpent(cfg, mid, ops, tok);
    SpentLinkIsRefused(cfg, Run(cfg, mid, ops), tok, pw2, later);
  }

  ghost predicate Spent(s: State, tok: V.TokenId) {
    tok in s.tokens.resets && s.tokens.resets[tok].usedAt.Some?
  }

  lemma AttemptSpendsLink(cfg: Config, s: State, tok: V.TokenId, pw: Password, now: Time)
    requires V.Usable(s.tokens.resets, tok, now)
    ensures Spent(ResetPassword(cfg, s, tok, pw, true, now).0, tok)
  {
  }

  lemma SpentStaysSpent(cfg: Config, s: State, ops: seq<Op>, tok: V.TokenId)
    requires V.Inv(s.tokens) && Spent(s, tok)
    ensures Spent(Run(cfg, s, ops), tok)
  {
    RunTokensAreLater(cfg, s, ops);
  }

  lemma SpentLinkIsRefused(cfg: Config, s: State, tok: V.TokenId, pw: Password, now: Time)
    requires Spent(s, tok)
    ensures ResetPassword(cfg, s, tok, pw, true, now).1 == Err(TokenError(V.InvalidResetToken))
  {
  }
}
