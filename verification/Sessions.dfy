/**
  Sessions and refresh-token families: the tables SessionService keeps, its operations as
  functions on them, and what every run of those operations keeps
  (src/modules/auth/services/session.service.ts).

  A row of the refresh-token table is named by one fresh value that stands for both of its
  unique columns, the primary key and the token hash.
 */
module Sessions {
  import opened Wrappers

  type UserId = nat
  type SessionId = nat
  type FamilyId = nat
  type TokenId = nat

  datatype Session = Session(userId: UserId, familyId: FamilyId, expiresAt: Time, revokedAt: Option<Time>)

  datatype RefreshToken = RefreshToken(
    userId: UserId, sessionId: SessionId, familyId: FamilyId, expiresAt: Time,
    revokedAt: Option<Time>, replacedBy: Option<TokenId>, reuseDetectedAt: Option<Time>)

  /** The two tables, and the next value the random generators hand out. */
  datatype State = State(sessions: map<SessionId, Session>, tokens: map<TokenId, RefreshToken>, next: nat)

  datatype Error = InvalidRefreshToken | ReuseDetected | SessionRevoked | SessionNotFound

  /** What createSession and rotateRefreshToken hand back: the session and its newest token. */
  datatype Issued = Issued(userId: UserId, session: SessionId, token: TokenId)

  const Init := State(map[], map[], 0)

  // ---------------------------------------------------------------- operations

  function Revoke(t: RefreshToken, now: Time): RefreshToken {
    t.(revokedAt := Some(now))
  }

  /** updateMany on refresh tokens: stamp the unrevoked tokens of the given sessions. */
  function RevokeTokensOf(tokens: map<TokenId, RefreshToken>, ids: set<SessionId>, now: Time): map<TokenId, RefreshToken> {
    map t | t in tokens ::
      if tokens[t].sessionId in ids && tokens[t].revokedAt.None? then Revoke(tokens[t], now) else tokens[t]
  }

  /** updateMany on sessions. */
  function RevokeSessions(sessions: map<SessionId, Session>, ids: set<SessionId>, now: Time): map<SessionId, Session> {
    map sid | sid in sessions ::
      if sid in ids then sessions[sid].(revokedAt := Some(now)) else sessions[sid]
  }

  function FreshToken(user: UserId, sid: SessionId, family: FamilyId, expiresAt: Time): RefreshToken {
    RefreshToken(user, sid, family, expiresAt, None, None, None)
  }

  function CreateSession(s: State, user: UserId, now: Time, ttl: Time): (State, Issued) {
    var family, sid, tok := s.next, s.next + 1, s.next + 2;
    (State(s.sessions[sid := Session(user, family, now + ttl, None)],
           s.tokens[tok := FreshToken(user, sid, family, now + ttl)],
           s.next + 3),
     Issued(user, sid, tok))
  }

  /** revokeFamily with reason 'reuse', the only reason the code passes. */
  function RevokeFamily(s: State, family: FamilyId, now: Time): State {
    s.(tokens := map t | t in s.tokens ::
         if s.tokens[t].familyId == family && s.tokens[t].revokedAt.None?
         then Revoke(s.tokens[t], now).(reuseDetectedAt := Some(now)) else s.tokens[t],
       sessions := map sid | sid in s.sessions ::
         if s.sessions[sid].familyId == family && s.sessions[sid].revokedAt.None?
         then s.sessions[sid].(revokedAt := Some(now)) else s.sessions[sid])
  }

  /** The guards of the rotation that come after the reuse check, in the code's order. */
  function RotationError(s: State, tok: TokenId, now: Time): Option<Error> {
    if tok !in s.tokens then Some(InvalidRefreshToken)
    else
      var t := s.tokens[tok];
      if t.revokedAt.Some? then Some(ReuseDetected)
      else if t.expiresAt <= now then Some(InvalidRefreshToken)
      else if t.sessionId !in s.sessions || s.sessions[t.sessionId].revokedAt.Some? then Some(SessionRevoked)
      else None
  }

  /** The transaction callback of rotateRefreshToken: the state it reaches and how it ends. */
  function RotateBody(s: State, tok: TokenId, now: Time): (State, Result<Issued, Error>) {
    match RotationError(s, tok, now)
    case Some(ReuseDetected) => (RevokeFamily(s, s.tokens[tok].familyId, now), Err(ReuseDetected))
    case Some(e) => (s, Err(e))
    case None =>
      var t := s.tokens[tok];
      var successor := s.next;
      (s.(tokens := s.tokens[successor := FreshToken(t.userId, t.sessionId, t.familyId, s.sessions[t.sessionId].expiresAt)]
                            [tok := Revoke(t, now).(replacedBy := Some(successor))],
          next := s.next + 1),
       Ok(Issued(t.userId, t.sessionId, successor)))
  }

  function Rotate(rule: CommitRule, s: State, tok: TokenId, now: Time): (State, Result<Issued, Error>) {
    var (after, outcome) := RotateBody(s, tok, now);
    (Commit(rule, s, after, outcome), outcome)
  }

  function RevokeSession(s: State, sid: SessionId, user: UserId, now: Time): (State, Result<(), Error>) {
    if sid !in s.sessions || s.sessions[sid].userId != user then (s, Err(SessionNotFound))
    else if s.sessions[sid].revokedAt.Some? then (s, Ok(()))
    else (RevokeAllOf(s, {sid}, now), Ok(()))
  }

  function RevokeAllOf(s: State, ids: set<SessionId>, now: Time): State {
    s.(sessions := RevokeSessions(s.sessions, ids, now), tokens := RevokeTokensOf(s.tokens, ids, now))
  }

  /** The sessions revokeAllSessionsForUser selects. */
  function ActiveSessions(s: State, user: UserId, except: Option<SessionId>): set<SessionId> {
    set sid | sid in s.sessions && s.sessions[sid].userId == user && s.sessions[sid].revokedAt.None?
              && except != Some(sid)
  }

  function RevokeAllForUser(s: State, user: UserId, except: Option<SessionId>, now: Time): State {
    var ids := ActiveSessions(s, user, except);
    if ids == {} then s else RevokeAllOf(s, ids, now)
  }

  // ---------------------------------------------------------------- runs

  datatype Op =
    | OpCreate(user: UserId, now: Time, ttl: Time)
    | OpRotate(token: TokenId, now: Time)
    | OpRevoke(session: SessionId, user: UserId, now: Time)
    | OpRevokeAll(user: UserId, except: Option<SessionId>, now: Time)

  function Step(rule: CommitRule, s: State, op: Op): State {
    match op
    case OpCreate(u, now, ttl) => CreateSession(s, u, now, ttl).0
    case OpRotate(t, now) => Rotate(rule, s, t, now).0
    case OpRevoke(sid, u, now) => RevokeSession(s, sid, u, now).0
    case OpRevokeAll(u, except, now) => RevokeAllForUser(s, u, except, now)
  }

  function Run(rule: CommitRule, s: State, ops: seq<Op>): State
    decreases |ops|
  {
    if ops == [] then s else Run(rule, Step(rule, s, ops[0]), ops[1..])
  }

  // ---------------------------------------------------------------- the invariant

  ghost predicate Last(s: State, sid: SessionId, tok: TokenId)
    requires sid in s.sessions
  {
    tok in s.tokens && s.tokens[tok].replacedBy == None
    && (s.tokens[tok].revokedAt.None? <==> s.sessions[sid].revokedAt.None?)
  }

  ghost predicate Link(s: State, tok: TokenId, succ: TokenId) {
    tok in s.tokens && s.tokens[tok].replacedBy == Some(succ) && s.tokens[tok].revokedAt.Some?
  }

  /** The token carries its session's user, family and expiry. */
  ghost predicate Agrees(s: State, sid: SessionId, tok: TokenId) {
    sid in s.sessions && tok in s.tokens
    && s.tokens[tok].sessionId == sid
    && s.tokens[tok].userId == s.sessions[sid].userId
    && s.tokens[tok].familyId == s.sessions[sid].familyId
    && s.tokens[tok].expiresAt == s.sessions[sid].expiresAt
  }

  /** c lists all tokens of the session, without repeats, from the first issued to the newest. */
  ghost predicate IsChain(s: State, sid: SessionId, c: seq<TokenId>) {
    && sid in s.sessions
    && |c| > 0
    && (forall t :: t in s.tokens && s.tokens[t].sessionId == sid ==> t in c)
    && (forall i :: 0 <= i < |c| ==> Agrees(s, sid, c[i]))
    && (forall i, j :: 0 <= i < j < |c| ==> c[i] != c[j])
    && (forall i :: 0 <= i < |c| - 1 ==> Link(s, c[i], c[i + 1]))
    && Last(s, sid, c[|c| - 1])
  }

  ghost predicate HasChain(s: State, sid: SessionId) {
    exists c :: IsChain(s, sid, c)
  }

  ghost predicate AllChained(s: State) {
    forall sid :: sid in s.sessions ==> HasChain(s, sid)
  }

  ghost predicate TokensHaveSessions(s: State) {
    forall t :: t in s.tokens ==> s.tokens[t].sessionId in s.sessions
  }

  ghost predicate FamiliesDistinct(s: State) {
    forall a, b :: a in s.sessions && b in s.sessions && a != b ==> s.sessions[a].familyId != s.sessions[b].familyId
  }

  ghost predicate BelowNext(s: State) {
    && (forall t :: t in s.tokens ==> t < s.next)
    && (forall sid :: sid in s.sessions ==> sid < s.next && s.sessions[sid].familyId < s.next)
  }

  ghost predicate Tables(s: State) {
    TokensHaveSessions(s) && FamiliesDistinct(s) && BelowNext(s)
  }

  ghost predicate Inv(s: State) {
    AllChained(s) && Tables(s)
  }

  /** A chain depends only on its session's row and its own tokens' rows. */
  lemma ChainFrame(s: State, s': State, sid: SessionId, c: seq<TokenId>)
    requires IsChain(s, sid, c)
    requires sid in s'.sessions && s'.sessions[sid] == s.sessions[sid]
    requires forall t :: t in s.tokens && s.tokens[t].sessionId == sid ==> t in s'.tokens && s'.tokens[t] == s.tokens[t]
    requires forall t :: t in s'.tokens && s'.tokens[t].sessionId == sid ==> t in s.tokens
    requires forall t :: t in s'.tokens && t in s.tokens ==> s'.tokens[t].sessionId == s.tokens[t].sessionId
    ensures IsChain(s', sid, c)
  {
    forall i | 0 <= i < |c| ensures Agrees(s', sid, c[i]) { assert Agrees(s, sid, c[i]); }
    forall i | 0 <= i < |c| - 1 ensures Link(s', c[i], c[i + 1]) {
      assert Link(s, c[i], c[i + 1]) && Agrees(s, sid, c[i]);
    }
    assert Agrees(s, sid, c[|c| - 1]);
  }

  lemma CreateKeepsTables(s: State, user: UserId, now: Time, ttl: Time)
    requires Tables(s)
    ensures Tables(CreateSession(s, user, now, ttl).0)
  {
  }

  lemma CreateStartsChain(s: State, user: UserId, now: Time, ttl: Time)
    requires Tables(s)
    ensures HasChain(CreateSession(s, user, now, ttl).0, s.next + 1)
  {
    var s' := CreateSession(s, user, now, ttl).0;
    assert Agrees(s', s.next + 1, s.next + 2);
    assert IsChain(s', s.next + 1, [s.next + 2]);
  }

  lemma CreateKeepsInv(s: State, user: UserId, now: Time, ttl: Time)
    requires Inv(s)
    ensures Inv(CreateSession(s, user, now, ttl).0)
  {
    var s' := CreateSession(s, user, now, ttl).0;
    forall sid | sid in s'.sessions ensures HasChain(s', sid) {
      if sid == s.next + 1 {
        CreateStartsChain(s, user, now, ttl);
      } else {
        assert HasChain(s, sid);
        var c :| IsChain(s, sid, c);
        ChainFrame(s, s', sid, c);
      }
    }
    CreateKeepsTables(s, user, now, ttl);
  }

  /** The rows a successful rotation of tok writes. */
  ghost predicate Rotates(s: State, s': State, tok: TokenId, now: Time) {
    && tok in s.tokens && s.tokens[tok].revokedAt.None? && s.tokens[tok].sessionId in s.sessions
    && s.sessions[s.tokens[tok].sessionId].revokedAt.None?
    && s'.sessions == s.sessions && s'.next == s.next + 1
    && (var t := s.tokens[tok];
        s'.tokens == s.tokens[s.next := FreshToken(t.userId, t.sessionId, t.familyId, s.sessions[t.sessionId].expiresAt)]
                             [tok := Revoke(t, now).(replacedBy := Some(s.next))])
  }

  lemma RotationKeepsChain(s: State, s': State, sid: SessionId, tok: TokenId, now: Time)
    requires HasChain(s, sid) && Rotates(s, s', tok, now) && s.next !in s.tokens
    ensures HasChain(s', sid)
  {
    var c :| IsChain(s, sid, c);
    if sid == s.tokens[tok].sessionId {
      RotationExtendsChain(s, s', sid, c, tok, now);
    } else {
      ChainFrame(s, s', sid, c);
    }
  }

  lemma RotationKeepsTables(s: State, s': State, tok: TokenId, now: Time)
    requires Tables(s) && Rotates(s, s', tok, now)
    ensures Tables(s')
  {
  }

  lemma RotationKeepsInv(s: State, s': State, tok: TokenId, now: Time)
    requires Inv(s) && Rotates(s, s', tok, now)
    ensures Inv(s')
  {
    assert s.next !in s.tokens;
    RotationKeepsTables(s, s', tok, now);
    forall sid | sid in s'.sessions ensures HasChain(s', sid) {
      RotationKeepsChain(s, s', sid, tok, now);
    }
  }

  lemma RotationExtendsChain(s: State, s': State, sid: SessionId, c: seq<TokenId>, tok: TokenId, now: Time)
    requires IsChain(s, sid, c) && s.next !in s.tokens
    requires Rotates(s, s', tok, now) && s.tokens[tok].sessionId == sid
    ensures IsChain(s', sid, c + [s.next])
  {
    var c' := c + [s.next];
    UnrevokedIsLast(s, sid, c, tok);
    assert Agrees(s, sid, tok);
    forall i | 0 <= i < |c'| ensures Agrees(s', sid, c'[i]) {
      if i < |c| { assert Agrees(s, sid, c[i]); }
    }
    forall i, j | 0 <= i < j < |c'| ensures c'[i] != c'[j] {
      assert Agrees(s, sid, c[i]);
    }
    forall i | 0 <= i < |c'| - 1 ensures Link(s', c'[i], c'[i + 1]) {
      if i < |c| - 1 { assert Link(s, c[i], c[i + 1]); }
    }
  }

  /** An unrevoked token can only be the newest of its chain. */
  lemma UnrevokedIsLast(s: State, sid: SessionId, c: seq<TokenId>, tok: TokenId)
    requires IsChain(s, sid, c)
    requires tok in s.tokens && s.tokens[tok].sessionId == sid && s.tokens[tok].revokedAt.None?
    ensures tok == c[|c| - 1]
  {
    var i :| 0 <= i < |c| && c[i] == tok;
    assert i < |c| - 1 ==> Link(s, c[i], c[i + 1]);
  }

  // ---------------------------------------------------------------- revocation

  ghost predicate TokenRevoked(before: RefreshToken, after: RefreshToken, hit: bool) {
    && after.(revokedAt := None, reuseDetectedAt := None) == before.(revokedAt := None, reuseDetectedAt := None)
    && (after.revokedAt.Some? <==> before.revokedAt.Some? || hit)
    && (before.revokedAt.Some? ==> after == before)
    && (!hit ==> after == before)
  }

  ghost predicate SessionIsRevoked(before: Session, after: Session, hit: bool) {
    && after.(revokedAt := None) == before.(revokedAt := None)
    && (after.revokedAt.Some? <==> before.revokedAt.Some? || hit)
    && (!hit ==> after == before)
  }

  /** s' is s with the sessions in ids, and their unrevoked tokens, revoked and nothing else. */
  ghost predicate RevokesExactly(s: State, s': State, ids: set<SessionId>) {
    && s'.next == s.next && s'.sessions.Keys == s.sessions.Keys && s'.tokens.Keys == s.tokens.Keys
    && (forall sid :: sid in s.sessions ==> SessionIsRevoked(s.sessions[sid], s'.sessions[sid], sid in ids))
    && (forall t :: t in s.tokens ==> TokenRevoked(s.tokens[t], s'.tokens[t], s.tokens[t].sessionId in ids))
  }

  lemma RevocationKeepsChain(s: State, s': State, sid: SessionId, ids: set<SessionId>)
    requires HasChain(s, sid) && RevokesExactly(s, s', ids)
    ensures HasChain(s', sid)
  {
    var c :| IsChain(s, sid, c);
    forall i | 0 <= i < |c| ensures Agrees(s', sid, c[i]) { assert Agrees(s, sid, c[i]); }
    forall i | 0 <= i < |c| - 1 ensures Link(s', c[i], c[i + 1]) { assert Link(s, c[i], c[i + 1]); }
    assert Agrees(s, sid, c[|c| - 1]);
    assert IsChain(s', sid, c);
  }

  lemma RevocationKeepsInv(s: State, s': State, ids: set<SessionId>)
    requires Inv(s) && RevokesExactly(s, s', ids)
    ensures Inv(s')
  {
    forall sid | sid in s'.sessions ensures HasChain(s', sid) {
      RevocationKeepsChain(s, s', sid, ids);
    }
  }

  function FamilySessions(s: State, family: FamilyId): set<SessionId> {
    set sid | sid in s.sessions && s.sessions[sid].familyId == family
  }

  /** A token carries its session's user, family and expiry. */
  lemma TokensAgreeWithSessions(s: State)
    requires Inv(s)
    ensures forall t :: t in s.tokens ==> Agrees(s, s.tokens[t].sessionId, t)
  {
    forall t | t in s.tokens ensures Agrees(s, s.tokens[t].sessionId, t) {
      var sid := s.tokens[t].sessionId;
      assert HasChain(s, sid);
      var c :| IsChain(s, sid, c);
      var i :| 0 <= i < |c| && c[i] == t;
      assert Agrees(s, sid, c[i]);
    }
  }

  lemma RevokeFamilyIsExact(s: State, family: FamilyId, now: Time)
    requires forall t :: t in s.tokens ==> Agrees(s, s.tokens[t].sessionId, t)
    ensures RevokesExactly(s, RevokeFamily(s, family, now), FamilySessions(s, family))
  {
    var s' := RevokeFamily(s, family, now);
    forall t | t in s.tokens
      ensures TokenRevoked(s.tokens[t], s'.tokens[t], s.tokens[t].sessionId in FamilySessions(s, family))
    {
      assert Agrees(s, s.tokens[t].sessionId, t);
    }
  }

  lemma RevokeAllOfIsExact(s: State, ids: set<SessionId>, now: Time)
    ensures RevokesExactly(s, RevokeAllOf(s, ids, now), ids)
  {
  }

  lemma StepKeepsInv(rule: CommitRule, s: State, op: Op)
    requires Inv(s)
    ensures Inv(Step(rule, s, op))
  {
    match op
    case OpCreate(u, now, ttl) =>
      CreateKeepsInv(s, u, now, ttl);
    case OpRotate(t, now) =>
      RotateKeepsInv(rule, s, t, now);
    case OpRevoke(sid, u, now) =>
      RevokeAllOfKeepsInv(s, {sid}, now);
    case OpRevokeAll(u, except, now) =>
      RevokeAllOfKeepsInv(s, ActiveSessions(s, u, except), now);
  }

  lemma RevokeAllOfKeepsInv(s: State, ids: set<SessionId>, now: Time)
    requires Inv(s)
    ensures Inv(RevokeAllOf(s, ids, now))
  {
    RevokeAllOfIsExact(s, ids, now);
    RevocationKeepsInv(s, RevokeAllOf(s, ids, now), ids);
  }

  lemma RotateKeepsInv(rule: CommitRule, s: State, t: TokenId, now: Time)
    requires Inv(s)
    ensures Inv(Rotate(rule, s, t, now).0)
  {
    if RotationError(s, t, now).None? {
      RotationKeepsInv(s, RotateBody(s, t, now).0, t, now);
    } else if RotationError(s, t, now) == Some(ReuseDetected) {
      ReuseKeepsInv(s, s.tokens[t].familyId, now);
    }
  }

  lemma ReuseKeepsInv(s: State, family: FamilyId, now: Time)
    requires Inv(s)
    ensures Inv(RevokeFamily(s, family, now))
  {
    TokensAgreeWithSessions(s);
    RevokeFamilyIsExact(s, family, now);
    RevocationKeepsInv(s, RevokeFamily(s, family, now), FamilySessions(s, family));
  }

  lemma {:induction false} RunKeepsInv(rule: CommitRule, s: State, ops: seq<Op>)
    requires Inv(s)
    ensures Inv(Run(rule, s, ops))
    decreases |ops|
  {
    if ops != [] {
      StepKeepsInv(rule, s, ops[0]);
      RunKeepsInv(rule, Step(rule, s, ops[0]), ops[1..]);
    }
  }

  /** In every reachable state each session's refresh tokens form exactly one chain. */
  lemma ReachableSessionsAreChains(rule: CommitRule, ops: seq<Op>, sid: SessionId)
    requires sid in Run(rule, Init, ops).sessions
    ensures exists c :: IsChain(Run(rule, Init, ops), sid, c)
  {
    RunKeepsInv(rule, Init, ops);
    assert HasChain(Run(rule, Init, ops), sid);
  }

  /** At any moment a session has at most one refresh token that would be accepted: its newest. */
  lemma OneRotatableTokenPerSession(s: State, a: TokenId, b: TokenId, now: Time, later: Time)
    requires Inv(s)
    requires RotationError(s, a, now).None? && RotationError(s, b, later).None?
    requires s.tokens[a].sessionId == s.tokens[b].sessionId
    ensures a == b
  {
    var sid := s.tokens[a].sessionId;
    assert HasChain(s, sid);
    var c :| IsChain(s, sid, c);
    UnrevokedIsLast(s, sid, c, a);
    UnrevokedIsLast(s, sid, c, b);
  }

  // ---------------------------------------------------------------- what runs cannot undo

  /** A row's later value: identity columns kept, revocation and replacement never undone. */
  ghost predicate TokenLater(before: RefreshToken, after: RefreshToken) {
    && after.(revokedAt := None, replacedBy := None, reuseDetectedAt := None)
       == before.(revokedAt := None, replacedBy := None, reuseDetectedAt := None)
    && (before.revokedAt.Some? ==> after == before)
  }

  ghost predicate SessionLater(before: Session, after: Session) {
    && after.(revokedAt := None) == before.(revokedAt := None)
    && (before.revokedAt.Some? ==> after.revokedAt.Some?)
  }

  ghost predicate Later(s: State, s': State) {
    && s.next <= s'.next
    && (forall sid :: sid in s.sessions ==> sid in s'.sessions && SessionLater(s.sessions[sid], s'.sessions[sid]))
    && (forall t :: t in s.tokens ==> t in s'.tokens && TokenLater(s.tokens[t], s'.tokens[t]))
  }

  lemma RevokesExactlyIsLater(s: State, s': State, ids: set<SessionId>)
    requires RevokesExactly(s, s', ids)
    ensures Later(s, s')
  {
  }

  lemma RevokeAllOfIsLater(s: State, ids: set<SessionId>, now: Time)
    ensures Later(s, RevokeAllOf(s, ids, now))
  {
    RevokeAllOfIsExact(s, ids, now);
    RevokesExactlyIsLater(s, RevokeAllOf(s, ids, now), ids);
  }

  lemma RotationIsLater(rule: CommitRule, s: State, tok: TokenId, now: Time)
    requires s.next !in s.tokens
    ensures Later(s, Rotate(rule, s, tok, now).0)
  {
  }

  lemma StepIsLater(rule: CommitRule, s: State, op: Op)
    requires Tables(s)
    ensures Later(s, Step(rule, s, op))
  {
    match op
    case OpCreate(u, now, ttl) =>
    case OpRotate(t, now) => RotationIsLater(rule, s, t, now);
    case OpRevoke(sid, u, now) => RevokeAllOfIsLater(s, {sid}, now);
    case OpRevokeAll(u, except, now) => RevokeAllOfIsLater(s, ActiveSessions(s, u, except), now);
  }

  lemma LaterIsTransitive(s: State, s1: State, s2: State)
    requires Later(s, s1) && Later(s1, s2)
    ensures Later(s, s2)
  {
  }

  lemma {:induction false} RunIsLater(rule: CommitRule, s: State, ops: seq<Op>)
    requires Inv(s)
    ensures Later(s, Run(rule, s, ops))
    decreases |ops|
  {
    if ops != [] {
      var s1 := Step(rule, s, ops[0]);
      StepKeepsInv(rule, s, ops[0]);
      StepIsLater(rule, s, ops[0]);
      RunIsLater(rule, s1, ops[1..]);
      LaterIsTransitive(s, s1, Run(rule, s1, ops[1..]));
    }
  }

  /** A refresh token that was accepted once is refused in every continuation. */
  lemma RefreshTokenRotatesOnce(rule: CommitRule, s: State, tok: TokenId, now: Time, ops: seq<Op>, later: Time)
    requires Inv(s) && Rotate(rule, s, tok, now).1.Ok?
    ensures Rotate(rule, Run(rule, Rotate(rule, s, tok, now).0, ops), tok, later).1 == Err(ReuseDetected)
  {
    RotateKeepsInv(rule, s, tok, now);
    RevokedTokenStaysRefused(rule, Rotate(rule, s, tok, now).0, tok, ops, later);
  }

  lemma RevokedTokenStaysRefused(rule: CommitRule, s: State, tok: TokenId, ops: seq<Op>, later: Time)
    requires Inv(s) && tok in s.tokens && s.tokens[tok].revokedAt.Some?
    ensures Rotate(rule, Run(rule, s, ops), tok, later).1 == Err(ReuseDetected)
  {
    RunIsLater(rule, s, ops);
  }

  /** Rotation never outlives the expiry the session was created with, however often it is repeated. */
  lemma RotationNeverExtendsSession(rule: CommitRule, s: State, sid: SessionId, ops: seq<Op>, tok: TokenId, now: Time)
    requires Inv(s) && sid in s.sessions
    requires Rotate(rule, Run(rule, s, ops), tok, now).1.Ok?
    requires Rotate(rule, Run(rule, s, ops), tok, now).1.value.session == sid
    ensures now < s.sessions[sid].expiresAt
  {
    var end := Run(rule, s, ops);
    assert Agrees(end, sid, tok) by {
      RunKeepsInv(rule, s, ops);
      TokensAgreeWithSessions(end);
    }
    assert SessionLater(s.sessions[sid], end.sessions[sid]) by { RunIsLater(rule, s, ops); }
  }

  // ---------------------------------------------------------------- reuse detection

  /** No token of the family is usable and none can be issued: all its rows are revoked. */
  ghost predicate FamilyDead(s: State, family: FamilyId) {
    && family < s.next
    && (forall t :: t in s.tokens && s.tokens[t].familyId == family ==> s.tokens[t].revokedAt.Some?)
    && (forall sid :: sid in s.sessions && s.sessions[sid].familyId == family ==> s.sessions[sid].revokedAt.Some?)
  }

  lemma RevokeFamilyKillsSession(s: State, tok: TokenId, now: Time)
    requires tok in s.tokens && s.tokens[tok].familyId < s.next
    requires forall t :: t in s.tokens ==> Agrees(s, s.tokens[t].sessionId, t)
    requires FamilySessions(s, s.tokens[tok].familyId) == {s.tokens[tok].sessionId}
    ensures FamilyDead(RevokeFamily(s, s.tokens[tok].familyId, now), s.tokens[tok].familyId)
    ensures RevokesExactly(s, RevokeFamily(s, s.tokens[tok].familyId, now), {s.tokens[tok].sessionId})
  {
    RevokeFamilyIsExact(s, s.tokens[tok].familyId, now);
  }

  lemma FamilyIsOneSession(s: State, tok: TokenId)
    requires Inv(s) && tok in s.tokens
    ensures FamilySessions(s, s.tokens[tok].familyId) == {s.tokens[tok].sessionId} && s.tokens[tok].familyId < s.next
    ensures forall t :: t in s.tokens ==> Agrees(s, s.tokens[t].sessionId, t)
  {
    TokensAgreeWithSessions(s);
    assert Agrees(s, s.tokens[tok].sessionId, tok);
  }

  /**
    What the transaction body does with a token already revoked: every token and session of its
    family ends revoked, and every row of any other family is left as it was.
   */
  lemma ReuseKillsExactlyTheFamily(s: State, tok: TokenId, now: Time)
    requires Inv(s) && tok in s.tokens && s.tokens[tok].revokedAt.Some?
    ensures RotateBody(s, tok, now).1 == Err(ReuseDetected)
    ensures FamilyDead(RotateBody(s, tok, now).0, s.tokens[tok].familyId)
    ensures RevokesExactly(s, RotateBody(s, tok, now).0, {s.tokens[tok].sessionId})
  {
    FamilyIsOneSession(s, tok);
    RevokeFamilyKillsSession(s, tok, now);
  }

  lemma StepKeepsFamilyDead(rule: CommitRule, s: State, op: Op, family: FamilyId)
    requires FamilyDead(s, family)
    ensures FamilyDead(Step(rule, s, op), family)
  {
  }

  lemma {:induction false} RunKeepsFamilyDead(rule: CommitRule, s: State, ops: seq<Op>, family: FamilyId)
    requires FamilyDead(s, family)
    ensures FamilyDead(Run(rule, s, ops), family)
    decreases |ops|
  {
    if ops != [] {
      StepKeepsFamilyDead(rule, s, ops[0], family);
      RunKeepsFamilyDead(rule, Step(rule, s, ops[0]), ops[1..], family);
    }
  }

  /** Once the body has killed a family, no token of it rotates in any continuation. */
  lemma NoTokenOfAKilledFamilyRotates(rule: CommitRule, s: State, reused: TokenId, now: Time, ops: seq<Op>, tok: TokenId, later: Time)
    requires Inv(s) && reused in s.tokens && s.tokens[reused].revokedAt.Some?
    ensures var end := Run(rule, RotateBody(s, reused, now).0, ops);
            tok in end.tokens && end.tokens[tok].familyId == s.tokens[reused].familyId
            ==> Rotate(rule, end, tok, later).1.Err?
  {
    ReuseKillsExactlyTheFamily(s, reused, now);
    RunKeepsFamilyDead(rule, RotateBody(s, reused, now).0, ops, s.tokens[reused].familyId);
  }

  /**
    The documented promise, that presenting a used token ends its session, against what is
    committed: it is kept exactly when the callback's writes survive its exception or the
    session was already revoked.
   */
  lemma ReuseEndsSessionIff(rule: CommitRule, s: State, tok: TokenId, now: Time)
    requires Inv(s) && tok in s.tokens && s.tokens[tok].revokedAt.Some?
    ensures FamilyDead(Rotate(rule, s, tok, now).0, s.tokens[tok].familyId)
            <==> rule.KeepOnThrow? || s.sessions[s.tokens[tok].sessionId].revokedAt.Some?
  {
    ReuseKillsExactlyTheFamily(s, tok, now);
    TokensAgreeWithSessions(s);
    var sid := s.tokens[tok].sessionId;
    assert Agrees(s, sid, tok);
    if s.sessions[sid].revokedAt.Some? {
      RevokedSessionHasNoLiveToken(s, sid);
      forall t | t in s.tokens && s.tokens[t].familyId == s.tokens[tok].familyId ensures s.tokens[t].revokedAt.Some? {
        assert Agrees(s, s.tokens[t].sessionId, t);
      }
    }
  }

  lemma RevokedSessionHasNoLiveToken(s: State, sid: SessionId)
    requires Inv(s) && sid in s.sessions && s.sessions[sid].revokedAt.Some?
    ensures forall t :: t in s.tokens && s.tokens[t].sessionId == sid ==> s.tokens[t].revokedAt.Some?
  {
    assert HasChain(s, sid);
    var c :| IsChain(s, sid, c);
    forall t | t in s.tokens && s.tokens[t].sessionId == sid ensures s.tokens[t].revokedAt.Some? {
      var i :| 0 <= i < |c| && c[i] == t;
      assert i < |c| - 1 ==> Link(s, c[i], c[i + 1]);
    }
  }

  /**
    With the rollback an interactive transaction performs, the replayed token is refused but
    the session lives on: its newest token still rotates.
   */
  lemma ReuseUnderRollbackLeavesSessionAlive()
    ensures var s := Run(RollbackOnThrow, Init, [OpCreate(7, 0, 100), OpRotate(2, 1)]);
            var (after, outcome) := Rotate(RollbackOnThrow, s, 2, 2);
            outcome == Err(ReuseDetected) && Rotate(RollbackOnThrow, after, 3, 3).1.Ok?
  {
    var s1 := Step(RollbackOnThrow, Init, OpCreate(7, 0, 100));
    var s2 := Step(RollbackOnThrow, s1, OpRotate(2, 1));
    assert Run(RollbackOnThrow, s1, [OpRotate(2, 1)]) == Run(RollbackOnThrow, s2, []) by {
      assert [OpRotate(2, 1)][1..] == [];
    }
    assert [OpCreate(7, 0, 100), OpRotate(2, 1)][1..] == [OpRotate(2, 1)];
  }
}
