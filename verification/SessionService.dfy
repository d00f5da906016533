/** SessionService as an object over its two tables (src/modules/auth/services/session.service.ts). */
module SessionServices {
  import opened Wrappers
  import S = Sessions

  class SessionService {
    const sessionTtlMs: Time
    const commitRule: CommitRule
    var sessions: map<S.SessionId, S.Session>
    var refreshTokens: map<S.TokenId, S.RefreshToken>
    var next: nat

    ghost function State(): S.State
      reads this
    {
      S.State(sessions, refreshTokens, next)
    }

    /** Every session's tokens form one chain, families are distinct, and no row is ahead of next. */
    ghost predicate Valid()
      reads this
    {
      S.Inv(State())
    }

    constructor (ttlMs: Time, rule: CommitRule)
      ensures Valid() && State() == S.Init && sessionTtlMs == ttlMs && commitRule == rule
    {
      sessionTtlMs, commitRule := ttlMs, rule;
      sessions, refreshTokens, next := map[], map[], 0;
    }

    method CreateSession(userId: S.UserId, now: Time) returns (created: S.Issued)
      requires Valid()
      modifies this
      ensures Valid()
      ensures (State(), created) == S.CreateSession(old(State()), userId, now, sessionTtlMs)
    {
      var familyId := next;
      var sessionId := next + 1;
      next := next + 2;
      sessions := sessions[sessionId := S.Session(userId, familyId, now + sessionTtlMs, None)];
      var token := IssueRefreshToken(userId, sessionId, familyId, now + sessionTtlMs);
      created := S.Issued(userId, sessionId, token);
      assert State() == S.CreateSession(old(State()), userId, now, sessionTtlMs).0;
      S.CreateKeepsInv(old(State()), userId, now, sessionTtlMs);
    }

    method RotateRefreshToken(token: S.TokenId, now: Time) returns (outcome: Result<S.Issued, S.Error>)
      requires Valid()
      modifies this
      ensures Valid()
      ensures (State(), outcome) == S.Rotate(commitRule, old(State()), token, now)
    {
      S.RotateKeepsInv(commitRule, State(), token, now);
      var savedSessions, savedTokens, savedNext := sessions, refreshTokens, next;
      outcome := RotateInTransaction(token, now);
      if outcome.Err? && commitRule.RollbackOnThrow? {
        sessions, refreshTokens, next := savedSessions, savedTokens, savedNext;
      }
    }

    /** The transaction callback. */
    method RotateInTransaction(token: S.TokenId, now: Time) returns (outcome: Result<S.Issued, S.Error>)
      requires Valid()
      modifies this
      ensures (State(), outcome) == S.RotateBody(old(State()), token, now)
    {
      if token !in refreshTokens {
        return Err(S.InvalidRefreshToken);
      }
      var existing := refreshTokens[token];
      if existing.revokedAt.Some? {
        RevokeFamily(existing.familyId, now);
        return Err(S.ReuseDetected);
      }
      if existing.expiresAt <= now {
        return Err(S.InvalidRefreshToken);
      }
      var session := sessions[existing.sessionId];
      if session.revokedAt.Some? {
        return Err(S.SessionRevoked);
      }
      var issued := IssueRefreshToken(existing.userId, existing.sessionId, existing.familyId, session.expiresAt);
      refreshTokens := refreshTokens[token := refreshTokens[token].(revokedAt := Some(now), replacedBy := Some(issued))];
      return Ok(S.Issued(existing.userId, existing.sessionId, issued));
    }

    method RevokeSession(sessionId: S.SessionId, userId: S.UserId, now: Time) returns (outcome: Result<(), S.Error>)
      requires Valid()
      modifies this
      ensures Valid()
      ensures (State(), outcome) == S.RevokeSession(old(State()), sessionId, userId, now)
    {
      S.RevokeAllOfKeepsInv(State(), {sessionId}, now);
      if sessionId !in sessions || sessions[sessionId].userId != userId {
        return Err(S.SessionNotFound);
      }
      if sessions[sessionId].revokedAt.Some? {
        return Ok(());
      }
      sessions := S.RevokeSessions(sessions, {sessionId}, now);
      refreshTokens := S.RevokeTokensOf(refreshTokens, {sessionId}, now);
      return Ok(());
    }

    method RevokeAllSessionsForUser(userId: S.UserId, except: Option<S.SessionId>, now: Time)
      requires Valid()
      modifies this
      ensures Valid()
      ensures State() == S.RevokeAllForUser(old(State()), userId, except, now)
    {
      ghost var selected := S.ActiveSessions(State(), userId, except);
      S.RevokeAllOfKeepsInv(State(), selected, now);
      var sessionIds := set id | id in sessions && sessions[id].userId == userId && sessions[id].revokedAt.None?
                                 && except != Some(id);
      assert sessionIds == selected;
      if |sessionIds| == 0 {
        return;
      }
      sessions := S.RevokeSessions(sessions, sessionIds, now);
      refreshTokens := S.RevokeTokensOf(refreshTokens, sessionIds, now);
    }

    method IssueRefreshToken(userId: S.UserId, sessionId: S.SessionId, familyId: S.FamilyId, expiresAt: Time)
      returns (token: S.TokenId)
      modifies `refreshTokens, `next
      ensures token == old(next) && next == token + 1
      ensures refreshTokens == old(refreshTokens)[token := S.FreshToken(userId, sessionId, familyId, expiresAt)]
    {
      token := next;
      next := next + 1;
      refreshTokens := refreshTokens[token := S.FreshToken(userId, sessionId, familyId, expiresAt)];
    }

    method RevokeFamily(familyId: S.FamilyId, now: Time)
      modifies `sessions, `refreshTokens
      ensures State() == S.RevokeFamily(old(State()), familyId, now)
    {
      refreshTokens := map t | t in refreshTokens ::
        if refreshTokens[t].familyId == familyId && refreshTokens[t].revokedAt.None?
        then refreshTokens[t].(revokedAt := Some(now), reuseDetectedAt := Some(now)) else refreshTokens[t];
      sessions := map id | id in sessions ::
        if sessions[id].familyId == familyId && sessions[id].revokedAt.None?
        then sessions[id].(revokedAt := Some(now)) else sessions[id];
    }
  }
}
