/**
  AuthService as an object: it owns the user and password-history tables and calls the session
  and verification services (src/modules/auth/services/auth.service.ts).
 */
module AuthServices {
  import opened Wrappers
  import opened PasswordHistory
  import opened SessionServices
  import opened VerificationServices
  import A = Auth
  import S = Sessions
  import V = Verification

  class AuthService {
    const config: A.Config
    const sessionService: SessionService
    const verificationService: VerificationService
    var users: map<A.UserId, A.User>
    var passwordHistory: map<A.UserId, seq<PasswordHash>>
    ghost var everSet: map<A.UserId, seq<PasswordHash>>
    ghost var provisioned: set<A.UserId>
    ghost var log: seq<A.Op>
    var nextUser: nat

    ghost function State(): A.State
      reads this, sessionService, verificationService
    {
      A.State(users, sessionService.State(), verificationService.State(), passwordHistory, everSet, provisioned, nextUser)
    }

    /** The collaborators were built from this configuration. */
    ghost predicate Wired() {
      && sessionService.sessionTtlMs == config.sessionTtlMs && sessionService.commitRule == config.rule
      && verificationService.emailVerificationTokenTtlMs == config.verificationTtlMs
      && verificationService.passwordResetTokenTtlMs == config.resetTtlMs
    }

    /**
      The collaborators are wired to this configuration, and the tables are what the calls so far
      make of empty ones: every theorem about runs speaks of this object.
     */
    ghost predicate Valid()
      reads this, sessionService, verificationService
    {
      Wired() && sessionService.Valid() && verificationService.Valid() && State() == A.Run(config, A.Init, log)
    }

    lemma ValidMeansInv()
      requires Valid()
      ensures A.Inv(config, State())
    {
      A.InitInv(config);
      A.RunKeepsInv(config, A.Init, log);
    }

    constructor (cfg: A.Config, s: SessionService, v: VerificationService)
      requires s.State() == S.Init && v.State() == V.Init
      requires s.sessionTtlMs == cfg.sessionTtlMs && s.commitRule == cfg.rule
      requires v.emailVerificationTokenTtlMs == cfg.verificationTtlMs && v.passwordResetTokenTtlMs == cfg.resetTtlMs
      ensures Valid() && State() == A.Init && sessionService == s && verificationService == v && config == cfg
    {
      config, sessionService, verificationService := cfg, s, v;
      users, passwordHistory, nextUser := map[], map[], 0;
      everSet, provisioned, log := map[], {}, [];
    }

    method Register(email: string, password: Password, policyOk: bool, now: Time) returns (outcome: A.Outcome)
      requires Valid()
      modifies this, verificationService
      ensures Valid()
      ensures log == old(log) + [A.OpRegister(email, password, policyOk, now)]
      ensures (State(), outcome) == A.Register(config, old(State()), email, password, policyOk, now)
    {
      A.RunOneMore(config, A.Init, log, A.OpRegister(email, password, policyOk, now));
      log := log + [A.OpRegister(email, password, policyOk, now)];
      if !policyOk {
        return Err(A.WeakPassword);
      }
      if exists u :: u in users && users[u].email == email {
        return Err(A.EmailTaken);
      }
      var hash := Bcrypt(password);
      var id := nextUser;
      nextUser := nextUser + 1;
      users := users[id := A.User(email, hash, 0, A.Active, false, 0, None)];
      passwordHistory := passwordHistory[id := [hash]];
      everSet := everSet[id := [hash]];
      var token := verificationService.IssueEmailVerificationToken(id, now);
      return Ok(A.Registered(id, token));
    }

    method Login(userId: A.UserId, password: Password, facts: A.LoginFacts, now: Time) returns (outcome: A.Outcome)
      requires Valid()
      modifies this, sessionService
      ensures Valid()
      ensures log == old(log) + [A.OpLogin(userId, password, facts, now)]
      ensures (State(), outcome) == A.Login(config, old(State()), userId, password, facts, now)
    {
      A.RunOneMore(config, A.Init, log, A.OpLogin(userId, password, facts, now));
      log := log + [A.OpLogin(userId, password, facts, now)];
      if userId !in users || users[userId].deleted {
        return Err(A.InvalidCredentials);
      }
      var user := users[userId];
      if user.status.Locked? || (user.lockUntil.Some? && user.lockUntil.value > now) {
        return Err(A.AccountLocked);
      }
      if user.status.Inactive? || user.status.Suspended? {
        return Err(A.AccountInactive);
      }
      if facts.ssoBlocked {
        return Err(A.SsoOnly);
      }
      if !Compare(password, user.passwordHash) {
        HandleFailedLogin(userId, now);
        return Err(A.InvalidCredentials);
      }
      users := users[userId := user.(failedLoginAttempts := 0, lockUntil := None)];
      if facts.mfaEnabled {
        return Ok(A.MfaRequired);
      }
      var created := sessionService.CreateSession(userId, now);
      return Ok(A.Granted(created));
    }

    /**
      What the MFA, OAuth and SSO services do to these tables once a user is authenticated without a
      password: the account check each makes, the columns each writes, and a session.
     */
    method FederatedLogin(userId: A.UserId, path: A.Path, now: Time) returns (outcome: A.Outcome)
      requires Valid()
      modifies this, sessionService
      ensures Valid()
      ensures log == old(log) + [A.OpFederatedLogin(userId, path, now)]
      ensures (State(), outcome) == A.FederatedLogin(config, old(State()), userId, path, now)
    {
      A.RunOneMore(config, A.Init, log, A.OpFederatedLogin(userId, path, now));
      log := log + [A.OpFederatedLogin(userId, path, now)];
      if userId !in users {
        return Err(A.UserNotFound);
      }
      var user := users[userId];
      if path.ViaSso? {
        if !user.status.Active? && !user.deleted {
          users := users[userId := user.(status := A.Active)];
        }
      } else {
        if user.deleted || user.status.Inactive? || user.status.Suspended? || (path.ViaMfa? && user.status.Locked?) {
          return Err(A.AccountInactive);
        }
        users := users[userId := user.(failedLoginAttempts := 0, lockUntil := None)];
      }
      var created := sessionService.CreateSession(userId, now);
      return Ok(A.Granted(created));
    }

    /** The user OAuth or SSO creates on first sight; `initial` is its random password. */
    method CreateFromProfile(email: string, initial: Password) returns (outcome: A.Outcome)
      requires Valid()
      modifies this
      ensures Valid()
      ensures log == old(log) + [A.OpCreateFromProfile(email, initial)]
      ensures (State(), outcome) == A.CreateFromProfile(old(State()), email, initial)
    {
      A.RunOneMore(config, A.Init, log, A.OpCreateFromProfile(email, initial));
      log := log + [A.OpCreateFromProfile(email, initial)];
      if exists u :: u in users && users[u].email == email {
        return Err(A.EmailTaken);
      }
      var id := nextUser;
      var hash := Bcrypt(initial);
      nextUser := nextUser + 1;
      users := users[id := A.FreshUser(email, initial)];
      everSet, provisioned := everSet[id := [hash]], provisioned + {id};
      return Ok(A.Created(id));
    }

    method HandleFailedLogin(userId: A.UserId, now: Time)
      requires userId in users
      modifies `users
      ensures users == old(users)[userId := A.FailedLogin(config, old(users)[userId], now)]
    {
      var user := users[userId];
      var attempts := user.failedLoginAttempts + 1;
      var shouldLock := attempts >= config.maxLoginAttempts;
      var lockUntil := None;
      var status := user.status;
      if shouldLock {
        lockUntil := Some(now + config.lockDurationMs);
        status := A.Locked;
      }
      users := users[userId := user.(failedLoginAttempts := attempts, lockUntil := lockUntil, status := status)];
    }

    method Refresh(refreshToken: S.TokenId, now: Time) returns (outcome: A.Outcome)
      requires Valid()
      modifies `log, sessionService
      ensures Valid()
      ensures log == old(log) + [A.OpRefresh(refreshToken, now)]
      ensures (State(), outcome) == A.Refresh(config, old(State()), refreshToken, now)
    {
      A.RunOneMore(config, A.Init, log, A.OpRefresh(refreshToken, now));
      log := log + [A.OpRefresh(refreshToken, now)];
      var rotated := sessionService.RotateRefreshToken(refreshToken, now);
      if rotated.Err? {
        return Err(A.SessionError(rotated.error));
      }
      var userId := rotated.value.userId;
      if userId !in users || users[userId].deleted || !users[userId].status.Active? {
        return Err(A.AccountInactive);
      }
      return Ok(A.Granted(rotated.value));
    }

    method Logout(userId: A.UserId, sessionId: S.SessionId, now: Time) returns (outcome: A.Outcome)
      requires Valid()
      modifies `log, sessionService
      ensures Valid()
      ensures log == old(log) + [A.OpLogout(userId, sessionId, now)]
      ensures (State(), outcome) == A.Logout(old(State()), userId, sessionId, now)
    {
      A.RunOneMore(config, A.Init, log, A.OpLogout(userId, sessionId, now));
      log := log + [A.OpLogout(userId, sessionId, now)];
      var revoked := sessionService.RevokeSession(sessionId, userId, now);
      return if revoked.Ok? then Ok(A.Done) else Err(A.SessionError(revoked.error));
    }

    method LogoutAll(userId: A.UserId, except: Option<S.SessionId>, now: Time) returns (outcome: A.Outcome)
      requires Valid()
      modifies this, sessionService
      ensures Valid()
      ensures log == old(log) + [A.OpLogoutAll(userId, except, now)]
      ensures (State(), outcome) == A.LogoutAll(old(State()), userId, except, now)
    {
      A.RunOneMore(config, A.Init, log, A.OpLogoutAll(userId, except, now));
      log := log + [A.OpLogoutAll(userId, except, now)];
      if userId !in users {
        return Err(A.UserNotFound);
      }
      users := users[userId := users[userId].(tokenVersion := users[userId].tokenVersion + 1)];
      sessionService.RevokeAllSessionsForUser(userId, except, now);
      return Ok(A.Done);
    }

    method ChangePassword(userId: A.UserId, currentPassword: Password, newPassword: Password, policyOk: bool,
                          revokeOtherSessions: bool, currentSessionId: S.SessionId, now: Time) returns (outcome: A.Outcome)
      requires Valid()
      modifies this, sessionService
      ensures Valid()
      ensures log == old(log) + [A.OpChangePassword(userId, currentPassword, newPassword, policyOk, revokeOtherSessions, currentSessionId, now)]
      ensures (State(), outcome)
              == A.ChangePassword(config, old(State()), userId, currentPassword, newPassword, policyOk, revokeOtherSessions, currentSessionId, now)
    {
      A.RunOneMore(config, A.Init, log, A.OpChangePassword(userId, currentPassword, newPassword, policyOk, revokeOtherSessions, currentSessionId, now));
      log := log + [A.OpChangePassword(userId, currentPassword, newPassword, policyOk, revokeOtherSessions, currentSessionId, now)];
      if userId !in users || !Compare(currentPassword, users[userId].passwordHash) {
        return Err(A.InvalidCredentials);
      }
      if !policyOk {
        return Err(A.WeakPassword);
      }
      var refused := EnsureNotRecentlyUsed(HistoryRows(userId), config.historyLimit, newPassword);
      if refused {
        return Err(A.RecentlyUsedPassword);
      }
      StorePassword(userId, newPassword);
      if revokeOtherSessions {
        sessionService.RevokeAllSessionsForUser(userId, Some(currentSessionId), now);
      }
      return Ok(A.Done);
    }

    method RequestPasswordReset(userId: A.UserId, now: Time) returns (outcome: A.Outcome)
      requires Valid()
      modifies `log, verificationService
      ensures Valid()
      ensures log == old(log) + [A.OpRequestReset(userId, now)]
      ensures (State(), outcome) == A.RequestPasswordReset(config, old(State()), userId, now)
    {
      A.RunOneMore(config, A.Init, log, A.OpRequestReset(userId, now));
      log := log + [A.OpRequestReset(userId, now)];
      if userId !in users || users[userId].deleted {
        return Ok(A.Done);
      }
      var issued := verificationService.IssuePasswordResetToken(userId, now);
      return Ok(A.Mailed(issued));
    }

    method ResetPassword(token: V.TokenId, newPassword: Password, policyOk: bool, now: Time) returns (outcome: A.Outcome)
      requires Valid()
      modifies this, sessionService, verificationService
      ensures Valid()
      ensures log == old(log) + [A.OpResetPassword(token, newPassword, policyOk, now)]
      ensures (State(), outcome) == A.ResetPassword(config, old(State()), token, newPassword, policyOk, now)
    {
      A.RunOneMore(config, A.Init, log, A.OpResetPassword(token, newPassword, policyOk, now));
      log := log + [A.OpResetPassword(token, newPassword, policyOk, now)];
      if !policyOk {
        return Err(A.WeakPassword);
      }
      var consumed := verificationService.ConsumePasswordResetToken(token, now);
      if consumed.Err? {
        return Err(A.TokenError(consumed.error));
      }
      var userId := consumed.value;
      var refused := EnsureNotRecentlyUsed(HistoryRows(userId), config.historyLimit, newPassword);
      if refused {
        return Err(A.RecentlyUsedPassword);
      }
      if userId !in users {
        return Err(A.UserNotFound);
      }
      WriteNewPassword(userId, newPassword);
      sessionService.RevokeAllSessionsForUser(userId, None, now);
      return Ok(A.Done);
    }

    /** The transaction of changePassword: hash, history row, trim. */
    method StorePassword(userId: A.UserId, newPassword: Password)
      requires userId in users
      modifies `users, `passwordHistory, `everSet
      ensures State() == A.StorePassword(config, old(State()), userId, newPassword)
    {
      users := users[userId := users[userId].(passwordHash := Bcrypt(newPassword))];
      RecordPassword(userId, newPassword);
      TrimPasswordHistory(userId);
    }

    /** The transaction of resetPassword: hash and token version, history row, trim. */
    method WriteNewPassword(userId: A.UserId, newPassword: Password)
      requires userId in users
      modifies `users, `passwordHistory, `everSet
      ensures State() == A.BumpTokenVersion(A.StorePassword(config, old(State()), userId, newPassword), userId)
    {
      users := users[userId := users[userId].(passwordHash := Bcrypt(newPassword), tokenVersion := users[userId].tokenVersion + 1)];
      RecordPassword(userId, newPassword);
      TrimPasswordHistory(userId);
    }

    method VerifyEmail(token: V.TokenId, now: Time) returns (outcome: A.Outcome)
      requires Valid()
      modifies `log, verificationService
      ensures Valid()
      ensures log == old(log) + [A.OpVerifyEmail(token, now)]
      ensures (State(), outcome) == A.VerifyEmail(old(State()), token, now)
    {
      A.RunOneMore(config, A.Init, log, A.OpVerifyEmail(token, now));
      log := log + [A.OpVerifyEmail(token, now)];
      var consumed := verificationService.ConsumeEmailVerificationToken(token, now);
      return if consumed.Ok? then Ok(A.Done) else Err(A.TokenError(consumed.error));
    }

    /** The user's history rows; a user without any has an empty history. */
    function HistoryRows(userId: A.UserId): (rows: seq<PasswordHash>)
      reads this
      ensures userId in passwordHistory ==> rows == passwordHistory[userId]
      ensures userId !in passwordHistory ==> rows == []
    {
      if userId in passwordHistory then passwordHistory[userId] else []
    }

    method RecordPassword(userId: A.UserId, password: Password)
      modifies `passwordHistory, `everSet
      ensures passwordHistory == old(passwordHistory)[userId := old(HistoryRows(userId)) + [Bcrypt(password)]]
      ensures everSet == old(everSet)[userId := (if userId in old(everSet) then old(everSet)[userId] else []) + [Bcrypt(password)]]
    {
      passwordHistory := passwordHistory[userId := HistoryRows(userId) + [Bcrypt(password)]];
      everSet := everSet[userId := (if userId in everSet then everSet[userId] else []) + [Bcrypt(password)]];
    }

    /** Deletes all but the newest limit rows. */
    method TrimPasswordHistory(userId: A.UserId)
      requires userId in passwordHistory
      modifies `passwordHistory
      ensures passwordHistory == old(passwordHistory)[userId := Trim(old(passwordHistory)[userId], config.historyLimit)]
    {
      if config.historyLimit <= 0 {
        return;
      }
      var rows := passwordHistory[userId];
      if |rows| <= config.historyLimit {
        return;
      }
      passwordHistory := passwordHistory[userId := rows[|rows| - config.historyLimit..]];
    }
  }
}
