/**
  What a completed login proves and what changes a user's second factor
  (src/modules/mfa/services/mfa-login.service.ts, mfa.service.ts).
 */
module MfaFactors {
  import opened Wrappers
  import opened Mfa
  import S = Sessions
  import F = Refreshing

  /** The one-time password is right for the user's enabled secret, or the code is an unused one of the user. */
  predicate RightFactor(cfg: Config, s: State, u: UserId, p: Presented, now: Time) {
    match p
    case Totp(code) => u in s.secrets && s.secrets[u].enabled && cfg.totp(s.secrets[u].key, code, now)
    case Backup(h) => h in s.backupCodes && s.backupCodes[h].userId == u && s.backupCodes[h].usedAt.None?
  }

  /** A challenge completes exactly while it is unconsumed, unexpired and below its limit, for a usable account and with a right factor of its user. */
  lemma LoginCompletesIff(cfg: Config, s: State, t: ChallengeToken, p: Presented, active: bool, now: Time)
    ensures VerifyLogin(cfg, s, t, p, active, now).1.Ok?
            <==> && t in s.challenges && s.challenges[t].consumedAt.None? && now < s.challenges[t].expiresAt
                 && s.challenges[t].attempts < MAX_CHALLENGE_ATTEMPTS && active
                 && RightFactor(cfg, s, s.challenges[t].userId, p, now)
  {
    match p
    case Totp(code) =>
    case Backup(h) =>
  }

  /**
    A completed login answers with the newest refresh token of a new session of the challenge's
    user. It consumes the challenge and the backup code, if one was presented, and leaves every
    secret, every other code and every other challenge as it was.
   */
  lemma CompletedLoginIsTheUsers(cfg: Config, s: State, t: ChallengeToken, p: Presented, active: bool, now: Time)
    requires S.Inv(s.sessions) && VerifyLogin(cfg, s, t, p, active, now).1.Ok?
    ensures t in s.challenges
    ensures var (s', outcome) := VerifyLogin(cfg, s, t, p, active, now);
            && F.AnswersWithNewest(s.sessions, s'.sessions, outcome.value) && outcome.value.userId == s.challenges[t].userId
            && s'.sessions.sessions[outcome.value.session].expiresAt == now + cfg.sessionTtlMs
            && s'.challenges == s.challenges[t := s'.challenges[t]] && s'.challenges[t].consumedAt == Some(now)
            && s'.secrets == s.secrets && s'.backupCodes.Keys == s.backupCodes.Keys
            && (forall h :: h in s.backupCodes ==>
                  if p == Backup(h) then s'.backupCodes[h].usedAt == Some(now) && s'.backupCodes[h].userId == s.backupCodes[h].userId
                  else s'.backupCodes[h] == s.backupCodes[h])
  {
    LoginCompletesIff(cfg, s, t, p, active, now);
    VerifyIsCheckThenSession(cfg, s, t, p, active, now);
    F.CreationAnswersWithNewest(s.sessions, s.challenges[t].userId, now, cfg.sessionTtlMs);
  }

  lemma VerifyIsCheckThenSession(cfg: Config, s: State, t: ChallengeToken, p: Presented, active: bool, now: Time)
    requires VerifyLogin(cfg, s, t, p, active, now).1.Ok?
    ensures var (s', outcome) := VerifyLogin(cfg, s, t, p, active, now);
            && t in s.challenges && (s'.sessions, outcome.value) == S.CreateSession(s.sessions, s.challenges[t].userId, now, cfg.sessionTtlMs)
            && s'.challenges == s.challenges[t := s'.challenges[t]] && s'.challenges[t].consumedAt == Some(now)
            && s'.secrets == s.secrets
            && s'.backupCodes == match p case Totp(_) => s.backupCodes case Backup(h) => ConsumeBackupCode(s, s.challenges[t].userId, h, now).0.backupCodes
  {
    match p
    case Totp(code) =>
    case Backup(h) =>
  }

  /** A refused attempt creates no session and uses no code; only a wrong factor writes, and all it writes is the attempt. */
  lemma RefusedLoginCostsAtMostAnAttempt(cfg: Config, s: State, t: ChallengeToken, p: Presented, active: bool, now: Time)
    requires VerifyLogin(cfg, s, t, p, active, now).1.Err?
    ensures var (s', outcome) := VerifyLogin(cfg, s, t, p, active, now);
            if outcome.error.InvalidCode?
            then t in s.challenges && s' == s.(challenges := s.challenges[t := s.challenges[t].(attempts := s.challenges[t].attempts + 1)])
            else s' == s
  {
    match p
    case Totp(code) =>
    case Backup(h) =>
  }

  // ---------------------------------------------------------------- a challenge through a run

  ghost predicate SameChallenge(s: State, s': State, t: ChallengeToken) {
    t in s.challenges && t in s'.challenges
    && s'.challenges[t].userId == s.challenges[t].userId && s'.challenges[t].expiresAt == s.challenges[t].expiresAt
  }

  lemma StepKeepsChallenge(cfg: Config, s: State, op: Op, t: ChallengeToken)
    requires t in s.challenges && ChallengesOk(s)
    ensures SameChallenge(s, Step(cfg, s, op), t)
  {
    match op
    case OpIssue(u, now) =>
    case OpVerify(token, p, active, now) =>
    case OpSetup(u, known, key) =>
    case OpVerifySetup(u, code, codes, now) =>
    case OpDisable(u, known, pw, code, now) =>
    case OpRegenerate(u, known, pw, codes) =>
  }

  lemma {:induction false} RunKeepsChallenge(cfg: Config, s: State, ops: seq<Op>, t: ChallengeToken)
    requires t in s.challenges && Inv(s)
    ensures SameChallenge(s, Run(cfg, s, ops), t)
    decreases |ops|
  {
    if ops != [] {
      StepKeepsChallenge(cfg, s, ops[0], t);
      StepKeepsInv(cfg, s, ops[0]);
      RunKeepsChallenge(cfg, Step(cfg, s, ops[0]), ops[1..], t);
    }
  }

  /**
    After every run a challenge issued to a user signs in that user and nobody else: exactly before
    its expiry, if it completed no login and saw fewer than the allowed checks in between, with a
    factor that is right then.
   */
  lemma IssuedChallengeCompletesIff(cfg: Config, s: State, u: UserId, now: Time, ops: seq<Op>, p: Presented, active: bool, later: Time)
    requires Inv(s)
    ensures var (s1, t) := IssueChallenge(cfg, s, u, now);
            var end := Run(cfg, s1, ops);
            var outcome := VerifyLogin(cfg, end, t, p, active, later).1;
            && (outcome.Ok? <==> && later < now + cfg.challengeTtlMs && LoginsIn(cfg, s1, ops, t) == 0
                                 && ChecksIn(cfg, s1, ops, t) < MAX_CHALLENGE_ATTEMPTS && active && RightFactor(cfg, end, u, p, later))
            && (outcome.Ok? ==> outcome.value.userId == u)
  {
    var (s1, t) := IssueChallenge(cfg, s, u, now);
    StepKeepsInv(cfg, s, OpIssue(u, now));
    var end := Run(cfg, s1, ops);
    RunCountsAttempts(cfg, s1, ops, t);
    RunKeepsChallenge(cfg, s1, ops, t);
    LoginCompletesIff(cfg, end, t, p, active, later);
    if VerifyLogin(cfg, end, t, p, active, later).1.Ok? { VerifyIsCheckThenSession(cfg, end, t, p, active, later); }
  }

  // ---------------------------------------------------------------- what changes a factor

  /** The secret and the codes of a user, all that RightFactor reads. */
  datatype Factor = Factor(secret: Option<Secret>, codes: set<CodeHash>, unused: set<CodeHash>)

  function FactorOf(s: State, u: UserId): Factor {
    Factor(if u in s.secrets then Some(s.secrets[u]) else None, CodesOf(s, u), UnusedOf(s, u))
  }

  predicate OwnerPresent(userExists: bool, passwordOk: bool, s: State, u: UserId) {
    userExists && passwordOk && u in s.secrets && s.secrets[u].enabled
  }

  ghost predicate FreeFor(s: State, u: UserId, codes: seq<CodeHash>) {
    forall h :: h in codes && h in s.backupCodes ==> s.backupCodes[h].userId == u
  }

  /** What an operation needs to change u's factor: for an enabled one, the password, and a right one-time password to disable it. */
  ghost predicate MayChange(cfg: Config, s: State, op: Op, u: UserId) {
    match op
    case OpSetup(v, known, _) => u == v && known && (u in s.secrets ==> !s.secrets[u].enabled)
    case OpVerifySetup(v, code, codes, now) =>
      u == v && u in s.secrets && !s.secrets[u].enabled && cfg.totp(s.secrets[u].key, code, now) && Generated(cfg, codes) && FreeFor(s, u, codes)
    case OpDisable(v, known, pw, code, now) => u == v && OwnerPresent(known, pw, s, u) && cfg.totp(s.secrets[u].key, code, now)
    case OpRegenerate(v, known, pw, codes) => u == v && OwnerPresent(known, pw, s, u) && Generated(cfg, codes) && FreeFor(s, u, codes)
    case _ => false
  }

  /** What it then makes of it. */
  ghost predicate ChangedTo(cfg: Config, s: State, op: Op, u: UserId, after: Factor) {
    match op
    case OpSetup(_, _, key) => after == FactorOf(s, u).(secret := Some(Secret(key, false)))
    case OpVerifySetup(_, _, codes, _) => u in s.secrets && after == Factor(Some(Secret(s.secrets[u].key, true)), AsSet(codes), AsSet(codes))
    case OpDisable(_, _, _, _, _) => after == Factor(None, {}, {})
    case OpRegenerate(_, _, _, codes) => after == FactorOf(s, u).(codes := AsSet(codes), unused := AsSet(codes))
    case _ => false
  }

  lemma ReplacementNeedsFreeCodes(s: State, u: UserId, codes: seq<CodeHash>)
    ensures ReplaceBackupCodes(s, u, codes).1.Ok? <==> FreeFor(s, u, codes)
    ensures ReplaceBackupCodes(s, u, codes).0.secrets == s.secrets
    ensures FreeFor(s, u, codes) ==> CodesOf(ReplaceBackupCodes(s, u, codes).0, u) == UnusedOf(ReplaceBackupCodes(s, u, codes).0, u) == AsSet(codes)
    ensures !FreeFor(s, u, codes) ==> ReplaceBackupCodes(s, u, codes).0 == s
    ensures forall v :: v != u ==> FactorOf(ReplaceBackupCodes(s, u, codes).0, v) == FactorOf(s, v)
  {
    IssuingFailsIff(s, u, codes);
    if FreeFor(s, u, codes) { ReplacedCodes(s, u, codes); }
    forall v | v != u ensures FactorOf(ReplaceBackupCodes(s, u, codes).0, v) == FactorOf(s, v) { ReplaceTouchesOnlyOwner(s, u, codes, v); }
  }

  lemma VerifySetupChangesIff(cfg: Config, s: State, v: UserId, code: string, codes: seq<CodeHash>, now: Time, u: UserId)
    requires Generated(cfg, codes)
    ensures var op := OpVerifySetup(v, code, codes, now);
            var after := FactorOf(VerifySetup(cfg, s, v, code, codes, now).0, u);
            if MayChange(cfg, s, op, u) then ChangedTo(cfg, s, op, u, after) else after == FactorOf(s, u)
  {
    ReplacementNeedsFreeCodes(s, v, codes);
    var (s1, replaced) := ReplaceBackupCodes(s, v, codes);
    var s' := VerifySetup(cfg, s, v, code, codes, now).0;
    assert s' == s || (s' == s1.(secrets := s'.secrets) && s'.backupCodes == s1.backupCodes);
    assert s'.backupCodes == s1.backupCodes ==> CodesOf(s', u) == CodesOf(s1, u) && UnusedOf(s', u) == UnusedOf(s1, u);
  }

  lemma RegenerateChangesIff(cfg: Config, s: State, v: UserId, known: bool, pw: bool, codes: seq<CodeHash>, u: UserId)
    requires Generated(cfg, codes)
    ensures var op := OpRegenerate(v, known, pw, codes);
            var after := FactorOf(Regenerate(s, v, known, pw, codes).0, u);
            if MayChange(cfg, s, op, u) then ChangedTo(cfg, s, op, u, after) else after == FactorOf(s, u)
  {
    ReplacementNeedsFreeCodes(s, v, codes);
  }

  lemma DisableChangesIff(cfg: Config, s: State, v: UserId, known: bool, pw: bool, code: string, now: Time, u: UserId)
    ensures var op := OpDisable(v, known, pw, code, now);
            var after := FactorOf(Disable(cfg, s, v, known, pw, code, now).0, u);
            if MayChange(cfg, s, op, u) then ChangedTo(cfg, s, op, u, after) else after == FactorOf(s, u)
  {
    var s' := Disable(cfg, s, v, known, pw, code, now).0;
    assert CodesOf(s', u) == if s' != s && u == v then {} else CodesOf(s, u);
    assert UnusedOf(s', u) == if s' != s && u == v then {} else UnusedOf(s, u);
  }

  /**
    Only its owner changes a second factor, and an enabled one only with the password, and with a
    right one-time password when it is disabled: an operation other than a login changes a user's
    secret or codes exactly as stated when it may, and not at all when it may not.
   */
  lemma FactorChangesIff(cfg: Config, s: State, op: Op, u: UserId)
    requires !op.OpVerify?
    ensures var after := FactorOf(Step(cfg, s, op), u);
            if MayChange(cfg, s, op, u) then ChangedTo(cfg, s, op, u, after) else after == FactorOf(s, u)
  {
    match op
    case OpIssue(v, now) =>
    case OpSetup(v, known, key) =>
    case OpVerifySetup(v, code, codes, now) => if Generated(cfg, codes) { VerifySetupChangesIff(cfg, s, v, code, codes, now, u); }
    case OpDisable(v, known, pw, code, now) => DisableChangesIff(cfg, s, v, known, pw, code, now, u);
    case OpRegenerate(v, known, pw, codes) => if Generated(cfg, codes) { RegenerateChangesIff(cfg, s, v, known, pw, codes, u); }
  }

  /** What the owner is answered says whether it was changed. */
  lemma FactorAnswersIff(cfg: Config, s: State, u: UserId, known: bool, pw: bool, key: Key, code: string, codes: seq<CodeHash>, now: Time)
    requires Generated(cfg, codes)
    ensures Setup(s, u, known, key).1.Ok? <==> MayChange(cfg, s, OpSetup(u, known, key), u)
    ensures VerifySetup(cfg, s, u, code, codes, now).1.Ok? <==> MayChange(cfg, s, OpVerifySetup(u, code, codes, now), u)
    ensures Disable(cfg, s, u, known, pw, code, now).1.Ok? <==> MayChange(cfg, s, OpDisable(u, known, pw, code, now), u)
    ensures Regenerate(s, u, known, pw, codes).1.Ok? <==> MayChange(cfg, s, OpRegenerate(u, known, pw, codes), u)
  {
    ReplacementNeedsFreeCodes(s, u, codes);
  }

  lemma LoginKeepsSecrets(cfg: Config, s: State, op: Op)
    requires op.OpVerify?
    ensures Step(cfg, s, op).secrets == s.secrets
  {
    match op.presented
    case Totp(code) =>
    case Backup(h) =>
  }

  predicate DisablesRightly(cfg: Config, key: Key, op: Op, u: UserId) {
    op.OpDisable? && op.user == u && op.userExists && op.passwordOk && cfg.totp(key, op.code, op.now)
  }

  /** In every run an enabled secret stays enabled with its key as long as nobody disables it with the password and a right one-time password. */
  lemma {:induction false} EnabledSecretStays(cfg: Config, s: State, ops: seq<Op>, u: UserId)
    requires u in s.secrets && s.secrets[u].enabled
    requires forall i :: 0 <= i < |ops| ==> !DisablesRightly(cfg, s.secrets[u].key, ops[i], u)
    ensures u in Run(cfg, s, ops).secrets && Run(cfg, s, ops).secrets[u] == s.secrets[u]
    decreases |ops|
  {
    if ops != [] {
      if ops[0].OpVerify? { LoginKeepsSecrets(cfg, s, ops[0]); } else { FactorChangesIff(cfg, s, ops[0], u); }
      assert !DisablesRightly(cfg, s.secrets[u].key, ops[0], u);
      var s1 := Step(cfg, s, ops[0]);
      assert FactorOf(s1, u).secret == Some(s.secrets[u]);
      assert forall i :: 0 <= i < |ops[1..]| ==> ops[1..][i] == ops[i + 1];
      EnabledSecretStays(cfg, s1, ops[1..], u);
    }
  }
}
