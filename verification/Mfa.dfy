/**
  Second factors: login challenges with a bounded number of code checks, TOTP secrets and
  single-use backup codes (src/modules/mfa/services).

  A backup code is its hash: normalising and hashing happen before any table is read. Generated
  codes, the one-time-password check, and the user's password and account status are given.
 */
module Mfa {
  import opened Wrappers
  import S = Sessions

  type UserId = nat
  type Key = nat
  type CodeHash = nat
  type ChallengeToken = nat

  const MAX_CHALLENGE_ATTEMPTS := 5

  datatype Secret = Secret(key: Key, enabled: bool)
  datatype BackupCode = BackupCode(userId: UserId, usedAt: Option<Time>)
  datatype Challenge = Challenge(userId: UserId, expiresAt: Time, consumedAt: Option<Time>, attempts: nat)

  datatype State = State(
    secrets: map<UserId, Secret>, backupCodes: map<CodeHash, BackupCode>,
    challenges: map<ChallengeToken, Challenge>, next: nat, sessions: S.State)

  datatype Config = Config(totp: (Key, string, Time) -> bool, backupCodeCount: nat, challengeTtlMs: Time, sessionTtlMs: Time)

  datatype Error =
    | ChallengeNotFound | ChallengeUsed | ChallengeExpired | TooManyAttempts | AccountInactive | InvalidCode
    | UserNotFound | InvalidCredentials | AlreadyEnabled | SetupNotInitiated | NotEnabled | UniqueViolation

  /** The method of a login attempt and what was typed. */
  datatype Presented = Totp(code: string) | Backup(hash: CodeHash)

  const Init := State(map[], map[], map[], 0, S.Init)

  // ---------------------------------------------------------------- MfaService

  function CodesOf(s: State, u: UserId): set<CodeHash> {
    set h | h in s.backupCodes && s.backupCodes[h].userId == u
  }

  function UnusedOf(s: State, u: UserId): set<CodeHash> {
    set h | h in s.backupCodes && s.backupCodes[h].userId == u && s.backupCodes[h].usedAt.None?
  }

  predicate Enabled(s: State, u: UserId) {
    u in s.secrets && s.secrets[u].enabled
  }

  predicate Distinct(codes: seq<CodeHash>) {
    forall i, j :: 0 <= i < j < |codes| ==> codes[i] != codes[j]
  }

  function AsSet(codes: seq<CodeHash>): set<CodeHash> {
    set h | h in codes
  }

  /** generateBackupCodes: the requested number of different codes. */
  ghost predicate Generated(cfg: Config, codes: seq<CodeHash>) {
    |codes| == cfg.backupCodeCount && Distinct(codes)
  }

  function ReplaceBackupCodes(s: State, u: UserId, codes: seq<CodeHash>): (State, Result<(), Error>) {
    var kept := s.backupCodes - CodesOf(s, u);
    if exists i :: 0 <= i < |codes| && codes[i] in kept then (s, Err(UniqueViolation))
    else
      var created := map h | h in codes :: BackupCode(u, None);
      (s.(backupCodes := kept + created), Ok(()))
  }

  function Setup(s: State, u: UserId, userExists: bool, key: Key): (State, Result<(), Error>) {
    if !userExists then (s, Err(UserNotFound))
    else if Enabled(s, u) then (s, Err(AlreadyEnabled))
    else (s.(secrets := s.secrets[u := Secret(key, false)]), Ok(()))
  }

  function VerifySetup(cfg: Config, s: State, u: UserId, code: string, codes: seq<CodeHash>, now: Time): (State, Result<(), Error>) {
    if u !in s.secrets then (s, Err(SetupNotInitiated))
    else if s.secrets[u].enabled then (s, Err(AlreadyEnabled))
    else if !cfg.totp(s.secrets[u].key, code, now) then (s, Err(InvalidCode))
    else
      var (s1, replaced) := ReplaceBackupCodes(s, u, codes);
      if replaced.Err? then (s1, replaced)
      else (s1.(secrets := s1.secrets[u := s1.secrets[u].(enabled := true)]), Ok(()))
  }

  /** The checks disable and regenerateBackupCodes share. */
  function OwnerError(s: State, u: UserId, userExists: bool, passwordOk: bool): Option<Error> {
    if !userExists then Some(UserNotFound)
    else if !passwordOk then Some(InvalidCredentials)
    else if !Enabled(s, u) then Some(NotEnabled)
    else None
  }

  function Disable(cfg: Config, s: State, u: UserId, userExists: bool, passwordOk: bool, code: string, now: Time): (State, Result<(), Error>) {
    match OwnerError(s, u, userExists, passwordOk)
    case Some(e) => (s, Err(e))
    case None =>
      if !cfg.totp(s.secrets[u].key, code, now) then (s, Err(InvalidCode))
      else (s.(backupCodes := s.backupCodes - CodesOf(s, u), secrets := s.secrets - {u}), Ok(()))
  }

  function Regenerate(s: State, u: UserId, userExists: bool, passwordOk: bool, codes: seq<CodeHash>): (State, Result<(), Error>) {
    match OwnerError(s, u, userExists, passwordOk)
    case Some(e) => (s, Err(e))
    case None => ReplaceBackupCodes(s, u, codes)
  }

  predicate VerifyTotp(cfg: Config, s: State, u: UserId, code: string, now: Time) {
    Enabled(s, u) && cfg.totp(s.secrets[u].key, code, now)
  }

  predicate Spendable(s: State, u: UserId, h: CodeHash) {
    h in s.backupCodes && s.backupCodes[h].userId == u && s.backupCodes[h].usedAt.None?
  }

  function ConsumeBackupCode(s: State, u: UserId, h: CodeHash, now: Time): (State, bool) {
    if !Spendable(s, u, h) then (s, false)
    else (s.(backupCodes := s.backupCodes[h := s.backupCodes[h].(usedAt := Some(now))]), true)
  }

  // ---------------------------------------------------------------- challenges and login

  function IssueChallenge(cfg: Config, s: State, u: UserId, now: Time): (State, ChallengeToken) {
    (s.(challenges := s.challenges[s.next := Challenge(u, now + cfg.challengeTtlMs, None, 0)], next := s.next + 1), s.next)
  }

  function ConsumeError(s: State, t: ChallengeToken, now: Time): Option<Error> {
    if t !in s.challenges then Some(ChallengeNotFound)
    else if s.challenges[t].consumedAt.Some? then Some(ChallengeUsed)
    else if s.challenges[t].expiresAt <= now then Some(ChallengeExpired)
    else if s.challenges[t].attempts >= MAX_CHALLENGE_ATTEMPTS then Some(TooManyAttempts)
    else None
  }

  function RecordAttempt(s: State, t: ChallengeToken, success: bool, now: Time): State
    requires t in s.challenges
  {
    var c := s.challenges[t];
    s.(challenges := s.challenges[t := c.(attempts := c.attempts + 1, consumedAt := if success then Some(now) else c.consumedAt)])
  }

  function CheckCode(cfg: Config, s: State, u: UserId, p: Presented, now: Time): (State, bool) {
    match p
    case Totp(code) => (s, VerifyTotp(cfg, s, u, code, now))
    case Backup(h) => ConsumeBackupCode(s, u, h, now)
  }

  /** verifyAndCompleteLogin; `active` says whether the challenge's user may sign in. */
  function VerifyLogin(cfg: Config, s: State, t: ChallengeToken, p: Presented, active: bool, now: Time): (State, Result<S.Issued, Error>) {
    match ConsumeError(s, t, now)
    case Some(e) => (s, Err(e))
    case None =>
      var u := s.challenges[t].userId;
      if !active then (s, Err(AccountInactive))
      else
        var (s1, ok) := CheckCode(cfg, s, u, p, now);
        if !ok then (RecordAttempt(s1, t, false, now), Err(InvalidCode))
        else
          var s2 := RecordAttempt(s1, t, true, now);
          var (sessions', issued) := S.CreateSession(s2.sessions, u, now, cfg.sessionTtlMs);
          (s2.(sessions := sessions'), Ok(issued))
  }

  // ---------------------------------------------------------------- runs

  datatype Op =
    | OpIssue(user: UserId, now: Time)
    | OpVerify(token: ChallengeToken, presented: Presented, active: bool, now: Time)
    | OpSetup(user: UserId, userExists: bool, key: Key)
    | OpVerifySetup(user: UserId, code: string, codes: seq<CodeHash>, now: Time)
    | OpDisable(user: UserId, userExists: bool, passwordOk: bool, code: string, now: Time)
    | OpRegenerate(user: UserId, userExists: bool, passwordOk: bool, codes: seq<CodeHash>)

  ghost function Step(cfg: Config, s: State, op: Op): State {
    match op
    case OpIssue(u, now) => IssueChallenge(cfg, s, u, now).0
    case OpVerify(t, p, active, now) => VerifyLogin(cfg, s, t, p, active, now).0
    case OpSetup(u, known, key) => Setup(s, u, known, key).0
    case OpVerifySetup(u, code, codes, now) => if Generated(cfg, codes) then VerifySetup(cfg, s, u, code, codes, now).0 else s
    case OpDisable(u, known, pw, code, now) => Disable(cfg, s, u, known, pw, code, now).0
    case OpRegenerate(u, known, pw, codes) => if Generated(cfg, codes) then Regenerate(s, u, known, pw, codes).0 else s
  }

  ghost function Run(cfg: Config, s: State, ops: seq<Op>): State
    decreases |ops|
  {
    if ops == [] then s else Run(cfg, Step(cfg, s, ops[0]), ops[1..])
  }

  // ---------------------------------------------------------------- events of a run

  /** The step checks a code against the challenge's user. */
  predicate ChecksCode(s: State, op: Op, t: ChallengeToken) {
    op.OpVerify? && op.token == t && ConsumeError(s, t, op.now).None? && op.active
  }

  /** The step completes a login through the challenge, which creates a session. */
  predicate CompletesLogin(cfg: Config, s: State, op: Op, t: ChallengeToken) {
    op.OpVerify? && op.token == t && VerifyLogin(cfg, s, t, op.presented, op.active, op.now).1.Ok?
  }

  /** The step accepts the backup code for a login of user u. */
  predicate UsesCode(s: State, op: Op, u: UserId, h: CodeHash) {
    op.OpVerify? && op.presented == Backup(h) && ChecksCode(s, op, op.token)
    && s.challenges[op.token].userId == u && Spendable(s, u, h)
  }

  predicate UsesSomeCode(s: State, op: Op, u: UserId) {
    op.OpVerify? && op.presented.Backup? && UsesCode(s, op, u, op.presented.hash)
  }

  /** The step may replace or delete the user's backup codes. */
  predicate Reissues(op: Op, u: UserId) {
    (op.OpVerifySetup? || op.OpDisable? || op.OpRegenerate?) && op.user == u
  }

  function Count(b: bool): nat { if b then 1 else 0 }

  ghost function ChecksIn(cfg: Config, s: State, ops: seq<Op>, t: ChallengeToken): nat
    decreases |ops|
  {
    if ops == [] then 0 else Count(ChecksCode(s, ops[0], t)) + ChecksIn(cfg, Step(cfg, s, ops[0]), ops[1..], t)
  }

  ghost function LoginsIn(cfg: Config, s: State, ops: seq<Op>, t: ChallengeToken): nat
    decreases |ops|
  {
    if ops == [] then 0 else Count(CompletesLogin(cfg, s, ops[0], t)) + LoginsIn(cfg, Step(cfg, s, ops[0]), ops[1..], t)
  }

  ghost function UsesIn(cfg: Config, s: State, ops: seq<Op>, u: UserId): nat
    decreases |ops|
  {
    if ops == [] then 0 else Count(UsesSomeCode(s, ops[0], u)) + UsesIn(cfg, Step(cfg, s, ops[0]), ops[1..], u)
  }

  ghost function UsesOfCodeIn(cfg: Config, s: State, ops: seq<Op>, u: UserId, h: CodeHash): nat
    decreases |ops|
  {
    if ops == [] then 0 else Count(UsesCode(s, ops[0], u, h)) + UsesOfCodeIn(cfg, Step(cfg, s, ops[0]), ops[1..], u, h)
  }

  // ---------------------------------------------------------------- invariant

  ghost predicate ChallengesOk(s: State) {
    forall t :: t in s.challenges ==> t < s.next && s.challenges[t].attempts <= MAX_CHALLENGE_ATTEMPTS
  }

  /** Backup codes exist only while the second factor is enabled. */
  ghost predicate CodesOnlyWhileEnabled(s: State) {
    forall h :: h in s.backupCodes ==> Enabled(s, s.backupCodes[h].userId)
  }

  ghost predicate Inv(s: State) {
    ChallengesOk(s) && CodesOnlyWhileEnabled(s)
  }

  lemma VerifyKeepsInv(cfg: Config, s: State, t: ChallengeToken, p: Presented, active: bool, now: Time)
    requires Inv(s)
    ensures Inv(VerifyLogin(cfg, s, t, p, active, now).0)
  {
    match p
    case Totp(code) =>
    case Backup(h) =>
  }

  lemma ReplaceKeepsOwners(s: State, u: UserId, codes: seq<CodeHash>)
    requires CodesOnlyWhileEnabled(s)
    ensures forall h :: h in ReplaceBackupCodes(s, u, codes).0.backupCodes
              ==> ReplaceBackupCodes(s, u, codes).0.backupCodes[h].userId == u || Enabled(s, ReplaceBackupCodes(s, u, codes).0.backupCodes[h].userId)
  {
  }

  lemma StepKeepsInv(cfg: Config, s: State, op: Op)
    requires Inv(s)
    ensures Inv(Step(cfg, s, op))
  {
    match op
    case OpIssue(u, now) =>
    case OpVerify(t, p, active, now) => VerifyKeepsInv(cfg, s, t, p, active, now);
    case OpSetup(u, known, key) =>
    case OpVerifySetup(u, code, codes, now) => ReplaceKeepsOwners(s, u, codes);
    case OpDisable(u, known, pw, code, now) =>
    case OpRegenerate(u, known, pw, codes) => ReplaceKeepsOwners(s, u, codes);
  }

  lemma {:induction false} RunKeepsInv(cfg: Config, s: State, ops: seq<Op>)
    requires Inv(s)
    ensures Inv(Run(cfg, s, ops))
    decreases |ops|
  {
    if ops != [] {
      StepKeepsInv(cfg, s, ops[0]);
      RunKeepsInv(cfg, Step(cfg, s, ops[0]), ops[1..]);
    }
  }

  // ---------------------------------------------------------------- challenges

  function Attempts(s: State, t: ChallengeToken): nat {
    if t in s.challenges then s.challenges[t].attempts else 0
  }

  predicate Consumed(s: State, t: ChallengeToken) {
    t in s.challenges && s.challenges[t].consumedAt.Some?
  }

  lemma StepCountsAttempt(cfg: Config, s: State, op: Op, t: ChallengeToken)
    requires ChallengesOk(s)
    ensures Attempts(Step(cfg, s, op), t) == Attempts(s, t) + Count(ChecksCode(s, op, t))
    ensures Count(Consumed(Step(cfg, s, op), t)) == Count(Consumed(s, t)) + Count(CompletesLogin(cfg, s, op, t))
    ensures CompletesLogin(cfg, s, op, t) ==> ChecksCode(s, op, t)
  {
    match op
    case OpIssue(u, now) =>
    case OpVerify(token, p, active, now) =>
    case OpSetup(u, known, key) =>
    case OpVerifySetup(u, code, codes, now) =>
    case OpDisable(u, known, pw, code, now) =>
    case OpRegenerate(u, known, pw, codes) =>
  }

  /** The stored counter is the number of code checks, and the consumed mark the number of logins. */
  lemma {:induction false} RunCountsAttempts(cfg: Config, s: State, ops: seq<Op>, t: ChallengeToken)
    requires Inv(s)
    ensures Attempts(Run(cfg, s, ops), t) == Attempts(s, t) + ChecksIn(cfg, s, ops, t)
    ensures Count(Consumed(Run(cfg, s, ops), t)) == Count(Consumed(s, t)) + LoginsIn(cfg, s, ops, t)
    decreases |ops|
  {
    if ops != [] {
      StepCountsAttempt(cfg, s, ops[0], t);
      StepKeepsInv(cfg, s, ops[0]);
      RunCountsAttempts(cfg, Step(cfg, s, ops[0]), ops[1..], t);
    }
  }

  /** In every run a challenge sees at most five code checks and completes at most one login. */
  lemma ChallengeIsBounded(cfg: Config, ops: seq<Op>, t: ChallengeToken)
    ensures ChecksIn(cfg, Init, ops, t) <= MAX_CHALLENGE_ATTEMPTS
    ensures LoginsIn(cfg, Init, ops, t) <= 1
  {
    RunCountsAttempts(cfg, Init, ops, t);
    RunKeepsInv(cfg, Init, ops);
  }

  // ---------------------------------------------------------------- sessions

  function SessionsOf(s: State, u: UserId): set<S.SessionId> {
    set sid | sid in s.sessions.sessions && s.sessions.sessions[sid].userId == u
  }

  /** The step completes a login through a challenge of user u. */
  predicate LogsIn(cfg: Config, s: State, op: Op, u: UserId) {
    op.OpVerify? && CompletesLogin(cfg, s, op, op.token) && s.challenges[op.token].userId == u
  }

  ghost function LoginsOfIn(cfg: Config, s: State, ops: seq<Op>, u: UserId): nat
    decreases |ops|
  {
    if ops == [] then 0 else Count(LogsIn(cfg, s, ops[0], u)) + LoginsOfIn(cfg, Step(cfg, s, ops[0]), ops[1..], u)
  }

  lemma StepAddsSession(cfg: Config, s: State, op: Op, u: UserId)
    requires S.BelowNext(s.sessions)
    ensures S.BelowNext(Step(cfg, s, op).sessions)
    ensures SessionsOf(Step(cfg, s, op), u) == SessionsOf(s, u) + (if LogsIn(cfg, s, op, u) then {s.sessions.next + 1} else {})
    ensures s.sessions.next + 1 !in SessionsOf(s, u)
  {
    var s' := Step(cfg, s, op);
    if op.OpVerify? && CompletesLogin(cfg, s, op, op.token) {
      VerifyCreatesSession(cfg, s, op.token, op.presented, op.active, op.now);
    } else {
      OthersKeepSessions(cfg, s, op);
    }
  }

  /** A completed login is exactly one new session of the challenge's user. */
  lemma VerifyCreatesSession(cfg: Config, s: State, t: ChallengeToken, p: Presented, active: bool, now: Time)
    requires VerifyLogin(cfg, s, t, p, active, now).1.Ok?
    ensures t in s.challenges
            && VerifyLogin(cfg, s, t, p, active, now).0.sessions == S.CreateSession(s.sessions, s.challenges[t].userId, now, cfg.sessionTtlMs).0
  {
  }

  lemma OthersKeepSessions(cfg: Config, s: State, op: Op)
    requires !(op.OpVerify? && CompletesLogin(cfg, s, op, op.token))
    ensures Step(cfg, s, op).sessions == s.sessions
  {
    match op
    case OpIssue(u, now) =>
    case OpVerify(t, p, active, now) =>
    case OpSetup(u, known, key) =>
    case OpVerifySetup(u, code, codes, now) =>
    case OpDisable(u, known, pw, code, now) =>
    case OpRegenerate(u, known, pw, codes) =>
  }

  /** Over every run a user's sessions grow by exactly the logins completed through that user's challenges. */
  lemma {:induction false} SessionsAreTheLogins(cfg: Config, s: State, ops: seq<Op>, u: UserId)
    requires S.BelowNext(s.sessions)
    ensures |SessionsOf(Run(cfg, s, ops), u)| == |SessionsOf(s, u)| + LoginsOfIn(cfg, s, ops, u)
    decreases |ops|
  {
    if ops != [] {
      StepAddsSession(cfg, s, ops[0], u);
      SessionsAreTheLogins(cfg, Step(cfg, s, ops[0]), ops[1..], u);
    }
  }

  // ---------------------------------------------------------------- what is left of a challenge

  /** From any reachable state on: a challenge has exactly the checks left that its counter leaves it, or none. */
  lemma RemainingChecksAreBounded(cfg: Config, s: State, ops: seq<Op>, t: ChallengeToken)
    requires Inv(s)
    ensures ChecksIn(cfg, s, ops, t) <= MAX_CHALLENGE_ATTEMPTS - Attempts(s, t)
    ensures Consumed(s, t) ==> LoginsIn(cfg, s, ops, t) == 0
  {
    RunCountsAttempts(cfg, s, ops, t);
    RunKeepsInv(cfg, s, ops);
  }

  // ---------------------------------------------------------------- backup codes

  lemma UseSpendsOne(cfg: Config, s: State, op: Op, u: UserId)
    requires op.OpVerify?
    ensures CodesOf(Step(cfg, s, op), u) == CodesOf(s, u)
    ensures UnusedOf(Step(cfg, s, op), u) == UnusedOf(s, u) - (if UsesSomeCode(s, op, u) then {op.presented.hash} else {})
  {
    var s' := Step(cfg, s, op);
    if ChecksCode(s, op, op.token) {
      match op.presented
      case Totp(code) => assert s'.backupCodes == s.backupCodes;
      case Backup(h) =>
        var v := s.challenges[op.token].userId;
        assert s'.backupCodes == ConsumeBackupCode(s, v, h, op.now).0.backupCodes;
    } else {
      assert s' == s;
    }
  }

  lemma OthersKeepCodes(cfg: Config, s: State, op: Op, u: UserId)
    requires !op.OpVerify? && !Reissues(op, u)
    ensures CodesOf(Step(cfg, s, op), u) == CodesOf(s, u) && UnusedOf(Step(cfg, s, op), u) == UnusedOf(s, u)
  {
    match op
    case OpIssue(v, now) =>
    case OpSetup(v, known, key) =>
    case OpVerifySetup(v, code, codes, now) => ReplaceTouchesOnlyOwner(s, v, codes, u);
    case OpDisable(v, known, pw, code, now) =>
    case OpRegenerate(v, known, pw, codes) => ReplaceTouchesOnlyOwner(s, v, codes, u);
  }

  lemma ReplaceTouchesOnlyOwner(s: State, v: UserId, codes: seq<CodeHash>, u: UserId)
    requires u != v
    ensures var s' := ReplaceBackupCodes(s, v, codes).0;
            CodesOf(s', u) == CodesOf(s, u) && UnusedOf(s', u) == UnusedOf(s, u)
  {
  }

  lemma StepConservesCodes(cfg: Config, s: State, op: Op, u: UserId)
    requires !Reissues(op, u)
    ensures |CodesOf(Step(cfg, s, op), u)| == |CodesOf(s, u)|
    ensures |UnusedOf(Step(cfg, s, op), u)| + Count(UsesSomeCode(s, op, u)) == |UnusedOf(s, u)|
  {
    if op.OpVerify? {
      UseSpendsOne(cfg, s, op, u);
      if UsesSomeCode(s, op, u) {
        assert op.presented.hash in UnusedOf(s, u);
      }
    } else {
      OthersKeepCodes(cfg, s, op, u);
    }
  }

  /**
    Until the user's codes are reissued or deleted, the total is constant and every accepted code
    takes one from the remaining ones: used and remaining always make up what there was.
   */
  lemma {:induction false} BackupCodesAreConserved(cfg: Config, s: State, ops: seq<Op>, u: UserId)
    requires forall i :: 0 <= i < |ops| ==> !Reissues(ops[i], u)
    ensures |CodesOf(Run(cfg, s, ops), u)| == |CodesOf(s, u)|
    ensures |UnusedOf(Run(cfg, s, ops), u)| + UsesIn(cfg, s, ops, u) == |UnusedOf(s, u)|
    decreases |ops|
  {
    if ops != [] {
      StepConservesCodes(cfg, s, ops[0], u);
      BackupCodesAreConserved(cfg, Step(cfg, s, ops[0]), ops[1..], u);
    }
  }

  lemma DistinctTail(codes: seq<CodeHash>)
    requires codes != [] && Distinct(codes)
    ensures Distinct(codes[1..]) && codes[0] !in codes[1..]
    ensures AsSet(codes) == {codes[0]} + AsSet(codes[1..])
  {
    assert forall i :: 0 <= i < |codes[1..]| ==> codes[1..][i] == codes[i + 1];
    assert codes == [codes[0]] + codes[1..];
  }

  lemma {:induction false} DistinctCodesCount(codes: seq<CodeHash>)
    requires Distinct(codes)
    ensures |AsSet(codes)| == |codes|
  {
    if codes != [] {
      DistinctTail(codes);
      DistinctCodesCount(codes[1..]);
      var rest := AsSet(codes[1..]);
      assert codes[0] !in rest;
      assert |{codes[0]} + rest| == 1 + |rest|;
    } else {
      assert AsSet(codes) == {};
    }
  }

  lemma ReplacedCodes(s: State, u: UserId, codes: seq<CodeHash>)
    requires ReplaceBackupCodes(s, u, codes).1.Ok?
    ensures CodesOf(ReplaceBackupCodes(s, u, codes).0, u) == AsSet(codes)
    ensures UnusedOf(ReplaceBackupCodes(s, u, codes).0, u) == AsSet(codes)
  {
    var s' := ReplaceBackupCodes(s, u, codes).0;
    forall h ensures h in CodesOf(s', u) <==> h in codes {}
    forall h ensures h in UnusedOf(s', u) <==> h in codes {}
  }

  /** Issuing replaces every code the user had by the requested number of unused ones. */
  lemma IssuingStartsAFullSet(cfg: Config, s: State, u: UserId, codes: seq<CodeHash>)
    requires Generated(cfg, codes) && ReplaceBackupCodes(s, u, codes).1.Ok?
    ensures var s' := ReplaceBackupCodes(s, u, codes).0;
            CodesOf(s', u) == UnusedOf(s', u) == AsSet(codes) && |UnusedOf(s', u)| == cfg.backupCodeCount
  {
    ReplacedCodes(s, u, codes);
    DistinctCodesCount(codes);
  }

  /** It fails exactly when another user holds one of the new codes, and then nothing has changed. */
  lemma IssuingFailsIff(s: State, u: UserId, codes: seq<CodeHash>)
    ensures var (s', outcome) := ReplaceBackupCodes(s, u, codes);
            && (outcome.Err? <==> exists h :: h in codes && h in s.backupCodes && s.backupCodes[h].userId != u)
            && (outcome.Err? ==> s' == s)
  {
    var kept := s.backupCodes - CodesOf(s, u);
    assert forall h :: h in kept <==> h in s.backupCodes && s.backupCodes[h].userId != u;
    if h :| h in codes && h in kept {
      var i :| 0 <= i < |codes| && codes[i] == h;
    }
  }

  /** After enrolment or regeneration: total and remaining are the configured count, and used plus remaining stays so. */
  lemma CountIsUsedPlusRemaining(cfg: Config, s: State, u: UserId, codes: seq<CodeHash>, ops: seq<Op>)
    requires Generated(cfg, codes) && ReplaceBackupCodes(s, u, codes).1.Ok?
    requires forall i :: 0 <= i < |ops| ==> !Reissues(ops[i], u)
    ensures var s' := ReplaceBackupCodes(s, u, codes).0;
            && |CodesOf(Run(cfg, s', ops), u)| == cfg.backupCodeCount
            && UsesIn(cfg, s', ops, u) + |UnusedOf(Run(cfg, s', ops), u)| == cfg.backupCodeCount
  {
    IssuingStartsAFullSet(cfg, s, u, codes);
    BackupCodesAreConserved(cfg, ReplaceBackupCodes(s, u, codes).0, ops, u);
  }

  lemma StepSpendsCode(cfg: Config, s: State, op: Op, u: UserId, h: CodeHash)
    requires !Reissues(op, u)
    ensures Count(Spendable(Step(cfg, s, op), u, h)) + Count(UsesCode(s, op, u, h)) == Count(Spendable(s, u, h))
  {
    assert Spendable(s, u, h) <==> h in UnusedOf(s, u);
    assert Spendable(Step(cfg, s, op), u, h) <==> h in UnusedOf(Step(cfg, s, op), u);
    if op.OpVerify? {
      UseSpendsOne(cfg, s, op, u);
    } else {
      OthersKeepCodes(cfg, s, op, u);
    }
  }

  /** Until its owner's codes are reissued, a code is accepted at most once, and never if it was not spendable. */
  lemma {:induction false} BackupCodeWorksOnce(cfg: Config, s: State, ops: seq<Op>, u: UserId, h: CodeHash)
    requires forall i :: 0 <= i < |ops| ==> !Reissues(ops[i], u)
    ensures Count(Spendable(Run(cfg, s, ops), u, h)) + UsesOfCodeIn(cfg, s, ops, u, h) == Count(Spendable(s, u, h))
    ensures UsesOfCodeIn(cfg, s, ops, u, h) <= 1
    decreases |ops|
  {
    if ops != [] {
      StepSpendsCode(cfg, s, ops[0], u, h);
      BackupCodeWorksOnce(cfg, Step(cfg, s, ops[0]), ops[1..], u, h);
    }
  }

  /** In every reachable state a disabled second factor has no backup codes left to accept. */
  lemma NoCodesWhenDisabled(cfg: Config, ops: seq<Op>, u: UserId, h: CodeHash)
    requires !Enabled(Run(cfg, Init, ops), u)
    ensures !Spendable(Run(cfg, Init, ops), u, h)
  {
    RunKeepsInv(cfg, Init, ops);
  }
}
