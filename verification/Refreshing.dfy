/**
  What rotation answers: which refresh token a client holds after each refresh, which tokens still
  rotate, and what ends a session (src/modules/auth/services/session.service.ts).
 */
module Refreshing {
  import opened Wrappers
  import opened Sessions

  ghost predicate SessionIsLive(s: State, sid: SessionId, now: Time) {
    sid in s.sessions && s.sessions[sid].revokedAt.None? && now < s.sessions[sid].expiresAt
  }

  /** tok is the last token of the session's chain. */
  ghost predicate IsNewestOf(s: State, sid: SessionId, tok: TokenId) {
    exists c :: IsChain(s, sid, c) && c[|c| - 1] == tok
  }

  lemma NewestIsUnrevokedIff(s: State, sid: SessionId, tok: TokenId)
    requires Inv(s) && tok in s.tokens && s.tokens[tok].sessionId == sid
    ensures s.tokens[tok].revokedAt.None? <==> s.sessions[sid].revokedAt.None? && IsNewestOf(s, sid, tok)
  {
    assert HasChain(s, sid);
    var c :| IsChain(s, sid, c);
    var last := c[|c| - 1];
    if s.tokens[tok].revokedAt.None? { UnrevokedIsLast(s, sid, c, tok); }
    if s.sessions[sid].revokedAt.None? && IsNewestOf(s, sid, tok) {
      var d :| IsChain(s, sid, d) && d[|d| - 1] == tok;
      assert Last(s, sid, tok);
    }
  }

  /** A refresh token rotates exactly when it is the newest of a live, unexpired session. */
  lemma RotatesIff(rule: CommitRule, s: State, tok: TokenId, now: Time)
    requires Inv(s)
    ensures Rotate(rule, s, tok, now).1.Ok? <==> exists sid :: SessionIsLive(s, sid, now) && IsNewestOf(s, sid, tok)
  {
    if Rotate(rule, s, tok, now).1.Ok? {
      var sid := s.tokens[tok].sessionId;
      TokensAgreeWithSessions(s);
      assert Agrees(s, sid, tok);
      NewestIsUnrevokedIff(s, sid, tok);
      assert SessionIsLive(s, sid, now) && IsNewestOf(s, sid, tok);
    }
    if sid :| SessionIsLive(s, sid, now) && IsNewestOf(s, sid, tok) {
      NewestOfLiveRotates(rule, s, sid, tok, now);
    }
  }

  lemma NewestOfLiveRotates(rule: CommitRule, s: State, sid: SessionId, tok: TokenId, now: Time)
    requires Inv(s) && SessionIsLive(s, sid, now) && IsNewestOf(s, sid, tok)
    ensures Rotate(rule, s, tok, now).1.Ok?
  {
    var c :| IsChain(s, sid, c) && c[|c| - 1] == tok;
    assert Agrees(s, sid, c[|c| - 1]);
    NewestIsUnrevokedIff(s, sid, tok);
  }

  /** The three answers a presented token can get; the code's answer for a revoked session is never given. */
  lemma RefusalsAre(rule: CommitRule, s: State, tok: TokenId, now: Time)
    requires Inv(s)
    ensures Rotate(rule, s, tok, now).1 == Err(ReuseDetected) <==> tok in s.tokens && s.tokens[tok].revokedAt.Some?
    ensures Rotate(rule, s, tok, now).1 == Err(InvalidRefreshToken)
            <==> tok !in s.tokens || (s.tokens[tok].revokedAt.None? && s.tokens[tok].expiresAt <= now)
    ensures Rotate(rule, s, tok, now).1.Err? ==> Rotate(rule, s, tok, now).1.error in {ReuseDetected, InvalidRefreshToken}
  {
    if tok in s.tokens {
      TokensAgreeWithSessions(s);
      assert Agrees(s, s.tokens[tok].sessionId, tok);
      NewestIsUnrevokedIff(s, s.tokens[tok].sessionId, tok);
    }
  }

  /** The answer names a token that is new, is the newest of the session, and agrees with the session's row. */
  ghost predicate AnswersWithNewest(s: State, s': State, issued: Issued) {
    && issued.token !in s.tokens && issued.token in s'.tokens && s'.tokens[issued.token].revokedAt.None?
    && Agrees(s', issued.session, issued.token) && s'.sessions[issued.session].userId == issued.userId
    && IsNewestOf(s', issued.session, issued.token)
  }

  /**
    A rotation answers with a token that was not there before, appended to the chain of the
    presented token's session and carrying its user, family and expiry; every other row is kept
    but the presented one's, whose successor it is.
   */
  lemma RotationAnswersWithNewest(rule: CommitRule, s: State, tok: TokenId, now: Time)
    requires Inv(s) && Rotate(rule, s, tok, now).1.Ok?
    ensures var (s', outcome) := Rotate(rule, s, tok, now);
            var issued := outcome.value;
            && AnswersWithNewest(s, s', issued)
            && tok in s.tokens && issued.session == s.tokens[tok].sessionId && issued.userId == s.tokens[tok].userId
            && s'.sessions == s.sessions && s'.tokens.Keys == s.tokens.Keys + {issued.token}
            && (forall t :: t in s.tokens && t != tok ==> s'.tokens[t] == s.tokens[t])
            && s'.tokens[tok].replacedBy == Some(issued.token) && s'.tokens[tok].revokedAt == Some(now)
  {
    var (s', outcome) := Rotate(rule, s, tok, now);
    var sid := s.tokens[tok].sessionId;
    TokensAgreeWithSessions(s);
    assert Agrees(s, sid, tok) && s.next !in s.tokens;
    assert HasChain(s, sid);
    var c :| IsChain(s, sid, c);
    RotationExtendsChain(s, s', sid, c, tok, now);
    var c' := c + [s.next];
    assert IsChain(s', sid, c') && c'[|c'| - 1] == outcome.value.token;
    assert Agrees(s', sid, c'[|c'| - 1]);
  }

  /** A new session answers with its one token, for the user asked for, and lives for the given time. */
  lemma CreationAnswersWithNewest(s: State, user: UserId, now: Time, ttl: Time)
    requires Inv(s)
    ensures var (s', issued) := CreateSession(s, user, now, ttl);
            && AnswersWithNewest(s, s', issued) && issued.userId == user
            && issued.session !in s.sessions && s'.sessions[issued.session].expiresAt == now + ttl
            && s'.sessions[issued.session].revokedAt.None?
            && (forall sid :: sid in s.sessions ==> sid in s'.sessions && s'.sessions[sid] == s.sessions[sid])
            && (forall t :: t in s.tokens ==> t in s'.tokens && s'.tokens[t] == s.tokens[t])
  {
    var (s', issued) := CreateSession(s, user, now, ttl);
    assert Agrees(s', issued.session, issued.token);
    assert IsChain(s', issued.session, [issued.token]);
  }

  /** A token answered with rotates at every time before its session's expiry and at none after it. */
  lemma AnsweredTokenRotatesIff(rule: CommitRule, s: State, s': State, issued: Issued, later: Time)
    requires AnswersWithNewest(s, s', issued)
    ensures Rotate(rule, s', issued.token, later).1.Ok?
            <==> s'.sessions[issued.session].revokedAt.None? && later < s'.sessions[issued.session].expiresAt
  {
  }

  /** A client that refreshes at the given times, each time presenting the token it was last answered with. */
  function Refreshes(rule: CommitRule, s: State, held: Issued, times: seq<Time>): (State, Result<Issued, Error>)
    decreases |times|
  {
    if times == [] then (s, Ok(held))
    else
      var (s1, outcome) := Rotate(rule, s, held.token, times[0]);
      if outcome.Err? then (s1, outcome) else Refreshes(rule, s1, outcome.value, times[1..])
  }

  predicate AllBefore(times: seq<Time>, end: Time) {
    forall i :: 0 <= i < |times| ==> times[i] < end
  }

  lemma AllBeforeFirst(times: seq<Time>, end: Time)
    requires times != []
    ensures AllBefore(times, end) <==> times[0] < end && AllBefore(times[1..], end)
  {
    assert forall i :: 1 <= i < |times| ==> times[i] == times[1..][i - 1];
  }

  /**
    From the session's start such a client is never cut off before the expiry the session began
    with: however often it refreshes, all its refreshes succeed exactly when all happen earlier.
   */
  lemma ClientRefreshesIff(rule: CommitRule, s: State, user: UserId, now: Time, ttl: Time, times: seq<Time>)
    requires Inv(s)
    ensures var (s', issued) := CreateSession(s, user, now, ttl);
            var outcome := Refreshes(rule, s', issued, times).1;
            && (outcome.Ok? <==> AllBefore(times, now + ttl))
            && (outcome.Ok? ==> outcome.value.userId == user && outcome.value.session == issued.session)
  {
    var (s', issued) := CreateSession(s, user, now, ttl);
    CreationAnswersWithNewest(s, user, now, ttl);
    CreateKeepsInv(s, user, now, ttl);
    HolderRefreshesIff(rule, s, s', issued, times);
  }

  lemma {:induction false} HolderRefreshesIff(rule: CommitRule, s: State, s': State, held: Issued, times: seq<Time>)
    requires Inv(s') && AnswersWithNewest(s, s', held) && s'.sessions[held.session].revokedAt.None?
    ensures var outcome := Refreshes(rule, s', held, times).1;
            && (outcome.Ok? <==> AllBefore(times, s'.sessions[held.session].expiresAt))
            && (outcome.Ok? ==> outcome.value.userId == held.userId && outcome.value.session == held.session)
    decreases |times|
  {
    if times != [] {
      var (s1, outcome) := Rotate(rule, s', held.token, times[0]);
      AnsweredTokenRotatesIff(rule, s, s', held, times[0]);
      AllBeforeFirst(times, s'.sessions[held.session].expiresAt);
      if outcome.Ok? {
        NextTokenIsHeld(rule, s, s', held, times[0]);
        HolderRefreshesIff(rule, s', s1, outcome.value, times[1..]);
      }
    }
  }

  lemma NextTokenIsHeld(rule: CommitRule, s: State, s': State, held: Issued, now: Time)
    requires Inv(s') && AnswersWithNewest(s, s', held) && Rotate(rule, s', held.token, now).1.Ok?
    ensures var (s1, outcome) := Rotate(rule, s', held.token, now);
            && Inv(s1) && AnswersWithNewest(s', s1, outcome.value) && s1.sessions == s'.sessions
            && outcome.value.session == held.session && outcome.value.userId == held.userId
  {
    RotationAnswersWithNewest(rule, s', held.token, now);
    RotateKeepsInv(rule, s', held.token, now);
  }

  /** What the replay of a revoked token writes, where writes survive the throw: the family's live tokens are stamped as reuse at that time. */
  lemma ReplayStampsFamily(s: State, tok: TokenId, now: Time, t: TokenId)
    requires tok in s.tokens && s.tokens[tok].revokedAt.Some? && t in s.tokens
    ensures Rotate(KeepOnThrow, s, tok, now).0.tokens[t]
            == if s.tokens[t].familyId == s.tokens[tok].familyId && s.tokens[t].revokedAt.None?
               then s.tokens[t].(revokedAt := Some(now), reuseDetectedAt := Some(now)) else s.tokens[t]
  {
  }

  // ---------------------------------------------------------------- what ends a session

  /** The operations that end a live session: its owner's, and the replay of one of its tokens where writes survive the throw. */
  predicate Ends(rule: CommitRule, s: State, op: Op, sid: SessionId)
    requires sid in s.sessions
  {
    match op
    case OpCreate(_, _, _) => false
    case OpRotate(t, _) => rule.KeepOnThrow? && t in s.tokens && s.tokens[t].sessionId == sid && s.tokens[t].revokedAt.Some?
    case OpRevoke(x, u, _) => x == sid && u == s.sessions[sid].userId
    case OpRevokeAll(u, except, _) => u == s.sessions[sid].userId && except != Some(sid)
  }

  lemma ReplayEndsIff(rule: CommitRule, s: State, t: TokenId, now: Time, sid: SessionId)
    requires Inv(s) && sid in s.sessions && s.sessions[sid].revokedAt.None?
    ensures Rotate(rule, s, t, now).0.sessions[sid].revokedAt.Some? <==> Ends(rule, s, OpRotate(t, now), sid)
  {
    if t in s.tokens && s.tokens[t].revokedAt.Some? {
      ReuseKillsExactlyTheFamily(s, t, now);
      TokensAgreeWithSessions(s);
      assert Agrees(s, s.tokens[t].sessionId, t);
      assert SessionIsRevoked(s.sessions[sid], RotateBody(s, t, now).0.sessions[sid], sid in {s.tokens[t].sessionId});
    }
  }

  lemma RevocationEndsIff(rule: CommitRule, s: State, op: Op, sid: SessionId)
    requires sid in s.sessions && s.sessions[sid].revokedAt.None? && (op.OpRevoke? || op.OpRevokeAll?)
    ensures sid in Step(rule, s, op).sessions
    ensures Step(rule, s, op).sessions[sid].revokedAt.Some? <==> Ends(rule, s, op, sid)
    ensures forall t :: t in s.tokens && s.tokens[t].sessionId == sid && s.tokens[t].revokedAt.None? ==>
              t in Step(rule, s, op).tokens && (Step(rule, s, op).tokens[t].revokedAt.Some? <==> Ends(rule, s, op, sid))
  {
    if op.OpRevokeAll? { assert sid in ActiveSessions(s, op.user, op.except) <==> Ends(rule, s, op, sid); }
  }

  /** A step ends a live session exactly when it is one of those operations on it. */
  lemma StepEndsSessionIff(rule: CommitRule, s: State, op: Op, sid: SessionId)
    requires Inv(s) && sid in s.sessions && s.sessions[sid].revokedAt.None?
    ensures sid in Step(rule, s, op).sessions
    ensures Step(rule, s, op).sessions[sid].revokedAt.Some? <==> Ends(rule, s, op, sid)
  {
    match op
    case OpCreate(u, now, ttl) => assert sid < s.next;
    case OpRotate(t, now) => ReplayEndsIff(rule, s, t, now, sid);
    case OpRevoke(x, u, now) => RevocationEndsIff(rule, s, op, sid);
    case OpRevokeAll(u, except, now) => RevocationEndsIff(rule, s, op, sid);
  }

  /** The newest token of a live session is revoked exactly by its own rotation or the session's end. */
  lemma StepRevokesNewestIff(rule: CommitRule, s: State, op: Op, sid: SessionId, tok: TokenId)
    requires Inv(s) && sid in s.sessions && s.sessions[sid].revokedAt.None? && IsNewestOf(s, sid, tok)
    ensures tok in Step(rule, s, op).tokens
    ensures Step(rule, s, op).tokens[tok].revokedAt.Some?
            <==> Ends(rule, s, op, sid) || (op.OpRotate? && op.token == tok && op.now < s.sessions[sid].expiresAt)
  {
    var c :| IsChain(s, sid, c) && c[|c| - 1] == tok;
    assert Agrees(s, sid, c[|c| - 1]);
    NewestIsUnrevokedIff(s, sid, tok);
    assert tok < s.next;
    match op
    case OpCreate(u, now, ttl) =>
    case OpRotate(t, now) => if t == tok { RotationRevokesPresented(rule, s, sid, tok, now); } else { RotationOfOther(rule, s, t, now, sid, tok); }
    case OpRevoke(x, u, now) => RevocationEndsIff(rule, s, op, sid);
    case OpRevokeAll(u, except, now) => RevocationEndsIff(rule, s, op, sid);
  }

  lemma RotationRevokesPresented(rule: CommitRule, s: State, sid: SessionId, tok: TokenId, now: Time)
    requires Agrees(s, sid, tok) && s.tokens[tok].revokedAt.None? && s.sessions[sid].revokedAt.None?
    ensures tok in Rotate(rule, s, tok, now).0.tokens
    ensures Rotate(rule, s, tok, now).0.tokens[tok].revokedAt.Some? <==> now < s.sessions[sid].expiresAt
  {
  }

  lemma RotationOfOther(rule: CommitRule, s: State, other: TokenId, now: Time, sid: SessionId, tok: TokenId)
    requires Inv(s) && Agrees(s, sid, tok) && s.tokens[tok].revokedAt.None? && other != tok && tok < s.next
    ensures tok in Rotate(rule, s, other, now).0.tokens
    ensures Rotate(rule, s, other, now).0.tokens[tok].revokedAt.Some? <==> Ends(rule, s, OpRotate(other, now), sid)
  {
    if other in s.tokens && s.tokens[other].revokedAt.Some? {
      assert s.tokens[tok].familyId == s.tokens[other].familyId <==> sid == s.tokens[other].sessionId by { FamiliesAreSessions(s, sid, tok, other); }
      ReplayStampsFamily(s, other, now, tok);
    } else {
      OtherRotationKeeps(rule, s, other, now, tok);
    }
  }

  lemma FamiliesAreSessions(s: State, sid: SessionId, tok: TokenId, other: TokenId)
    requires Inv(s) && Agrees(s, sid, tok) && other in s.tokens
    ensures s.tokens[tok].familyId == s.tokens[other].familyId <==> sid == s.tokens[other].sessionId
  {
    TokensAgreeWithSessions(s);
    assert Agrees(s, s.tokens[other].sessionId, other);
  }

  lemma OtherRotationKeeps(rule: CommitRule, s: State, other: TokenId, now: Time, tok: TokenId)
    requires tok in s.tokens && tok < s.next && other != tok && !(other in s.tokens && s.tokens[other].revokedAt.Some?)
    ensures tok in Rotate(rule, s, other, now).0.tokens && Rotate(rule, s, other, now).0.tokens[tok] == s.tokens[tok]
  {
  }

  /** No operation of the run presents the token in time or ends its session. */
  predicate Undisturbed(rule: CommitRule, s: State, ops: seq<Op>, sid: SessionId, tok: TokenId)
    decreases |ops|
  {
    ops != [] ==>
      && sid in s.sessions && !Ends(rule, s, ops[0], sid)
      && !(ops[0].OpRotate? && ops[0].token == tok && ops[0].now < s.sessions[sid].expiresAt)
      && Undisturbed(rule, Step(rule, s, ops[0]), ops[1..], sid, tok)
  }

  lemma UndisturbedStep(rule: CommitRule, s: State, op: Op, sid: SessionId, tok: TokenId)
    requires Inv(s) && sid in s.sessions && s.sessions[sid].revokedAt.None? && IsNewestOf(s, sid, tok)
    requires !Ends(rule, s, op, sid) && !(op.OpRotate? && op.token == tok && op.now < s.sessions[sid].expiresAt)
    ensures var s' := Step(rule, s, op);
            && Inv(s') && sid in s'.sessions && s'.sessions[sid] == s.sessions[sid] && IsNewestOf(s', sid, tok)
  {
    var s' := Step(rule, s, op);
    var c :| IsChain(s, sid, c) && c[|c| - 1] == tok;
    assert Agrees(s, sid, c[|c| - 1]);
    StepRevokesNewestIff(rule, s, op, sid, tok);
    StepEndsSessionIff(rule, s, op, sid);
    assert SessionLater(s.sessions[sid], s'.sessions[sid]) && TokenLater(s.tokens[tok], s'.tokens[tok]) by { StepIsLater(rule, s, op); }
    StepKeepsInv(rule, s, op);
    NewestIsUnrevokedIff(s', sid, tok);
  }

  /**
    A held token still rotates at the end of a run exactly when nobody presented it or ended its
    session in between and the session's expiry has not come.
   */
  lemma {:induction false} HeldTokenRotatesIff(rule: CommitRule, s: State, ops: seq<Op>, sid: SessionId, tok: TokenId, later: Time)
    requires Inv(s) && sid in s.sessions && s.sessions[sid].revokedAt.None? && IsNewestOf(s, sid, tok)
    ensures Rotate(rule, Run(rule, s, ops), tok, later).1.Ok?
            <==> Undisturbed(rule, s, ops, sid, tok) && later < s.sessions[sid].expiresAt
    decreases |ops|
  {
    if ops == [] {
      var c :| IsChain(s, sid, c) && c[|c| - 1] == tok;
      assert Agrees(s, sid, c[|c| - 1]);
      NewestIsUnrevokedIff(s, sid, tok);
    } else {
      var s1 := Step(rule, s, ops[0]);
      if Ends(rule, s, ops[0], sid) || (ops[0].OpRotate? && ops[0].token == tok && ops[0].now < s.sessions[sid].expiresAt) {
        StepRevokesNewestIff(rule, s, ops[0], sid, tok);
        StepKeepsInv(rule, s, ops[0]);
        RevokedTokenStaysRefused(rule, s1, tok, ops[1..], later);
      } else {
        UndisturbedStep(rule, s, ops[0], sid, tok);
        HeldTokenRotatesIff(rule, s1, ops[1..], sid, tok, later);
      }
    }
  }
}
