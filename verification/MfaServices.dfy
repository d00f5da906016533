/** The MFA services as objects over their tables (src/modules/mfa/services). */
module MfaServices {
  import opened Wrappers
  import opened Mfa
  import S = Sessions
  import opened SessionServices

  /** The MFA tables, beside the session tables their logins write to. */
  class Database {
    const config: Config
    const sessionService: SessionService
    var mfaSecrets: map<UserId, Secret>
    var backupCodes: map<CodeHash, BackupCode>
    var mfaChallenges: map<ChallengeToken, Challenge>
    var next: nat

    ghost function State(): Mfa.State
      reads this, sessionService
    {
      Mfa.State(mfaSecrets, backupCodes, mfaChallenges, next, sessionService.State())
    }

    ghost predicate Valid()
      reads this, sessionService
    {
      sessionService.Valid() && sessionService.sessionTtlMs == config.sessionTtlMs && Mfa.Inv(State())
    }

    constructor (cfg: Config, sessions: SessionService)
      requires sessions.Valid() && sessions.sessionTtlMs == cfg.sessionTtlMs
      ensures Valid() && config == cfg && sessionService == sessions
      ensures State() == Init.(sessions := sessions.State())
    {
      config, sessionService := cfg, sessions;
      mfaSecrets, backupCodes, mfaChallenges, next := map[], map[], map[], 0;
    }
  }

  class MfaChallengeService {
    const db: Database

    constructor (database: Database)
      ensures db == database
    {
      db := database;
    }

    method Issue(userId: UserId, now: Time) returns (challengeToken: ChallengeToken)
      requires db.Valid()
      modifies db
      ensures db.Valid()
      ensures (db.State(), challengeToken) == IssueChallenge(db.config, old(db.State()), userId, now)
    {
      StepKeepsInv(db.config, db.State(), OpIssue(userId, now));
      challengeToken := db.next;
      db.next := db.next + 1;
      db.mfaChallenges := db.mfaChallenges[challengeToken := Challenge(userId, now + db.config.challengeTtlMs, None, 0)];
    }

    /** Despite its name it writes nothing: it only says whether the challenge may be tried. */
    method Consume(token: ChallengeToken, now: Time) returns (outcome: Result<Challenge, Error>)
      ensures outcome == match ConsumeError(db.State(), token, now)
                         case Some(e) => Err(e)
                         case None => Ok(db.mfaChallenges[token])
    {
      if token !in db.mfaChallenges {
        return Err(ChallengeNotFound);
      }
      var challenge := db.mfaChallenges[token];
      if challenge.consumedAt.Some? {
        return Err(ChallengeUsed);
      }
      if challenge.expiresAt <= now {
        return Err(ChallengeExpired);
      }
      if challenge.attempts >= MAX_CHALLENGE_ATTEMPTS {
        return Err(TooManyAttempts);
      }
      return Ok(challenge);
    }

    method RecordAttempt(token: ChallengeToken, success: bool, now: Time)
      requires token in db.mfaChallenges
      modifies db`mfaChallenges
      ensures db.State() == Mfa.RecordAttempt(old(db.State()), token, success, now)
    {
      var challenge := db.mfaChallenges[token];
      if success {
        db.mfaChallenges := db.mfaChallenges[token := challenge.(consumedAt := Some(now), attempts := challenge.attempts + 1)];
      } else {
        db.mfaChallenges := db.mfaChallenges[token := challenge.(attempts := challenge.attempts + 1)];
      }
    }
  }

  class MfaService {
    const db: Database

    constructor (database: Database)
      ensures db == database
    {
      db := database;
    }

    method Setup(userId: UserId, userExists: bool, key: Key) returns (outcome: Result<(), Error>)
      requires db.Valid()
      modifies db`mfaSecrets
      ensures db.Valid()
      ensures (db.State(), outcome) == Mfa.Setup(old(db.State()), userId, userExists, key)
    {
      StepKeepsInv(db.config, db.State(), OpSetup(userId, userExists, key));
      if !userExists {
        return Err(UserNotFound);
      }
      if userId in db.mfaSecrets && db.mfaSecrets[userId].enabled {
        return Err(AlreadyEnabled);
      }
      db.mfaSecrets := db.mfaSecrets[userId := Secret(key, false)];
      return Ok(());
    }

    method VerifySetup(userId: UserId, code: string, codes: seq<CodeHash>, now: Time) returns (outcome: Result<(), Error>)
      requires db.Valid() && Generated(db.config, codes)
      modifies db`mfaSecrets, db`backupCodes
      ensures db.Valid()
      ensures (db.State(), outcome) == Mfa.VerifySetup(db.config, old(db.State()), userId, code, codes, now)
    {
      StepKeepsInv(db.config, db.State(), OpVerifySetup(userId, code, codes, now));
      if userId !in db.mfaSecrets {
        return Err(SetupNotInitiated);
      }
      var secret := db.mfaSecrets[userId];
      if secret.enabled {
        return Err(AlreadyEnabled);
      }
      if !db.config.totp(secret.key, code, now) {
        return Err(InvalidCode);
      }
      outcome := ReplaceBackupCodes(userId, codes);
      if outcome.Ok? {
        db.mfaSecrets := db.mfaSecrets[userId := secret.(enabled := true)];
      }
    }

    method Disable(userId: UserId, userExists: bool, passwordOk: bool, code: string, now: Time) returns (outcome: Result<(), Error>)
      requires db.Valid()
      modifies db`mfaSecrets, db`backupCodes
      ensures db.Valid()
      ensures (db.State(), outcome) == Mfa.Disable(db.config, old(db.State()), userId, userExists, passwordOk, code, now)
    {
      StepKeepsInv(db.config, db.State(), OpDisable(userId, userExists, passwordOk, code, now));
      var denied := Owner(userId, userExists, passwordOk);
      if denied.Some? {
        return Err(denied.value);
      }
      if !db.config.totp(db.mfaSecrets[userId].key, code, now) {
        return Err(InvalidCode);
      }
      DeleteCodes(userId);
      db.mfaSecrets := db.mfaSecrets - {userId};
      return Ok(());
    }

    method RegenerateBackupCodes(userId: UserId, userExists: bool, passwordOk: bool, codes: seq<CodeHash>) returns (outcome: Result<(), Error>)
      requires db.Valid() && Generated(db.config, codes)
      modifies db`backupCodes
      ensures db.Valid()
      ensures (db.State(), outcome) == Mfa.Regenerate(old(db.State()), userId, userExists, passwordOk, codes)
    {
      StepKeepsInv(db.config, db.State(), OpRegenerate(userId, userExists, passwordOk, codes));
      var denied := Owner(userId, userExists, passwordOk);
      if denied.Some? {
        return Err(denied.value);
      }
      outcome := ReplaceBackupCodes(userId, codes);
    }

    method Owner(userId: UserId, userExists: bool, passwordOk: bool) returns (denied: Option<Error>)
      ensures denied == OwnerError(db.State(), userId, userExists, passwordOk)
    {
      if !userExists {
        return Some(UserNotFound);
      }
      if !passwordOk {
        return Some(InvalidCredentials);
      }
      if userId !in db.mfaSecrets || !db.mfaSecrets[userId].enabled {
        return Some(NotEnabled);
      }
      return None;
    }

    method DeleteCodes(userId: UserId)
      modifies db`backupCodes
      ensures db.backupCodes == old(db.backupCodes) - CodesOf(old(db.State()), userId)
    {
      db.backupCodes := map h | h in db.backupCodes && db.backupCodes[h].userId != userId :: db.backupCodes[h];
    }

    /** Deletes the user's codes and inserts the new ones in one transaction, which a duplicate hash rolls back. */
    method ReplaceBackupCodes(userId: UserId, codes: seq<CodeHash>) returns (outcome: Result<(), Error>)
      modifies db`backupCodes
      ensures (db.State(), outcome) == Mfa.ReplaceBackupCodes(old(db.State()), userId, codes)
    {
      var saved := db.backupCodes;
      DeleteCodes(userId);
      if exists i :: 0 <= i < |codes| && codes[i] in db.backupCodes {
        db.backupCodes := saved;
        return Err(UniqueViolation);
      }
      db.backupCodes := db.backupCodes + map h | h in codes :: BackupCode(userId, None);
      return Ok(());
    }

    method ListBackupCodeStatus(userId: UserId) returns (total: nat, remaining: nat)
      ensures total == |CodesOf(db.State(), userId)| && remaining == |UnusedOf(db.State(), userId)|
    {
      var all := set h | h in db.backupCodes && db.backupCodes[h].userId == userId;
      assert all == CodesOf(db.State(), userId);
      assert (set h | h in all && db.backupCodes[h].usedAt.None?) == UnusedOf(db.State(), userId);
      return |all|, |set h | h in all && db.backupCodes[h].usedAt.None?|;
    }

    method VerifyTotp(userId: UserId, code: string, now: Time) returns (ok: bool)
      ensures ok == Mfa.VerifyTotp(db.config, db.State(), userId, code, now)
    {
      if userId !in db.mfaSecrets || !db.mfaSecrets[userId].enabled {
        return false;
      }
      return db.config.totp(db.mfaSecrets[userId].key, code, now);
    }

    method ConsumeBackupCode(userId: UserId, hash: CodeHash, now: Time) returns (ok: bool)
      modifies db`backupCodes
      ensures (db.State(), ok) == Mfa.ConsumeBackupCode(old(db.State()), userId, hash, now)
    {
      if hash !in db.backupCodes || db.backupCodes[hash].userId != userId || db.backupCodes[hash].usedAt.Some? {
        return false;
      }
      db.backupCodes := db.backupCodes[hash := db.backupCodes[hash].(usedAt := Some(now))];
      return true;
    }
  }

  class MfaLoginService {
    const db: Database
    const mfaService: MfaService
    const challengeService: MfaChallengeService

    ghost predicate Wired() {
      mfaService.db == db && challengeService.db == db
    }

    constructor (database: Database, mfa: MfaService, challenges: MfaChallengeService)
      requires mfa.db == database && challenges.db == database
      ensures Wired() && db == database
    {
      db, mfaService, challengeService := database, mfa, challenges;
    }

    method VerifyAndCompleteLogin(token: ChallengeToken, presented: Presented, active: bool, now: Time)
      returns (outcome: Result<S.Issued, Error>)
      requires Wired() && db.Valid()
      modifies db, db.sessionService
      ensures db.Valid()
      ensures (db.State(), outcome) == VerifyLogin(db.config, old(db.State()), token, presented, active, now)
    {
      VerifyKeepsInv(db.config, db.State(), token, presented, active, now);
      var consumed := challengeService.Consume(token, now);
      if consumed.Err? {
        return Err(consumed.error);
      }
      var userId := consumed.value.userId;
      if !active {
        return Err(AccountInactive);
      }
      var ok;
      match presented {
        case Totp(code) => ok := mfaService.VerifyTotp(userId, code, now);
        case Backup(hash) => ok := mfaService.ConsumeBackupCode(userId, hash, now);
      }
      if !ok {
        challengeService.RecordAttempt(token, false, now);
        return Err(InvalidCode);
      }
      challengeService.RecordAttempt(token, true, now);
      var created := db.sessionService.CreateSession(userId, now);
      return Ok(created);
    }
  }
}
