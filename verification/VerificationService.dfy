/** VerificationService as an object over its token tables (src/modules/auth/services/verification.service.ts). */
module VerificationServices {
  import opened Wrappers
  import V = Verification

  class VerificationService {
    const emailVerificationTokenTtlMs: Time
    const passwordResetTokenTtlMs: Time
    var verificationTokens: map<V.TokenId, V.OneTimeToken>
    var resetTokens: map<V.TokenId, V.OneTimeToken>
    var verifiedUsers: set<V.UserId>
    var next: nat

    ghost function State(): V.State
      reads this
    {
      V.State(verificationTokens, resetTokens, verifiedUsers, next)
    }

    ghost predicate Valid()
      reads this
    {
      V.Inv(State())
    }

    constructor (verificationTtlMs: Time, resetTtlMs: Time)
      ensures Valid() && State() == V.Init
      ensures emailVerificationTokenTtlMs == verificationTtlMs && passwordResetTokenTtlMs == resetTtlMs
    {
      emailVerificationTokenTtlMs, passwordResetTokenTtlMs := verificationTtlMs, resetTtlMs;
      verificationTokens, resetTokens, verifiedUsers, next := map[], map[], {}, 0;
    }

    method IssueEmailVerificationToken(userId: V.UserId, now: Time) returns (token: V.TokenId)
      requires Valid()
      modifies this
      ensures Valid()
      ensures (State(), token) == V.IssueVerification(old(State()), userId, now, emailVerificationTokenTtlMs)
    {
      V.StepKeepsInv(State(), V.OpIssueVerification(userId, now, emailVerificationTokenTtlMs));
      token := next;
      next := next + 1;
      verificationTokens := verificationTokens[token := V.OneTimeToken(userId, now + emailVerificationTokenTtlMs, None)];
    }

    method ConsumeEmailVerificationToken(token: V.TokenId, now: Time) returns (outcome: Result<V.UserId, V.Error>)
      requires Valid()
      modifies this
      ensures Valid()
      ensures (State(), outcome) == V.ConsumeVerification(old(State()), token, now)
    {
      V.StepKeepsInv(State(), V.OpConsumeVerification(token, now));
      if token !in verificationTokens || verificationTokens[token].usedAt.Some?
         || verificationTokens[token].expiresAt <= now {
        return Err(V.InvalidVerificationToken);
      }
      var record := verificationTokens[token];
      verificationTokens := verificationTokens[token := record.(usedAt := Some(now))];
      verifiedUsers := verifiedUsers + {record.userId};
      return Ok(record.userId);
    }

    method IssuePasswordResetToken(userId: V.UserId, now: Time) returns (token: V.TokenId)
      requires Valid()
      modifies this
      ensures Valid()
      ensures (State(), token) == V.IssueReset(old(State()), userId, now, passwordResetTokenTtlMs)
    {
      V.IssueResetKeepsInv(State(), userId, now, passwordResetTokenTtlMs);
      token := next;
      next := next + 1;
      resetTokens := map t | t in resetTokens ::
        if resetTokens[t].userId == userId && resetTokens[t].usedAt.None?
        then resetTokens[t].(usedAt := Some(now)) else resetTokens[t];
      resetTokens := resetTokens[token := V.OneTimeToken(userId, now + passwordResetTokenTtlMs, None)];
    }

    method ConsumePasswordResetToken(token: V.TokenId, now: Time) returns (outcome: Result<V.UserId, V.Error>)
      requires Valid()
      modifies this
      ensures Valid()
      ensures (State(), outcome) == V.ConsumeReset(old(State()), token, now)
    {
      V.ConsumeResetKeepsInv(State(), token, now);
      if token !in resetTokens || resetTokens[token].usedAt.Some? || resetTokens[token].expiresAt <= now {
        return Err(V.InvalidResetToken);
      }
      resetTokens := resetTokens[token := resetTokens[token].(usedAt := Some(now))];
      return Ok(resetTokens[token].userId);
    }
  }
}
