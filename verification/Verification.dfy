/**
  Email-verification and password-reset tokens: single use, bounded life, and at most one
  usable reset token per user (src/modules/auth/services/verification.service.ts).
 */
module Verification {
  import opened Wrappers

  type UserId = nat
  type TokenId = nat

  /** A row of either token table, named by its unique token hash. */
  datatype OneTimeToken = OneTimeToken(userId: UserId, expiresAt: Time, usedAt: Option<Time>)

  datatype State = State(
    verifications: map<TokenId, OneTimeToken>, resets: map<TokenId, OneTimeToken>,
    verifiedUsers: set<UserId>, next: nat)

  datatype Error = InvalidVerificationToken | InvalidResetToken

  const Init := State(map[], map[], {}, 0)

  /** The guard both consume operations share. */
  predicate Usable(rows: map<TokenId, OneTimeToken>, tok: TokenId, now: Time) {
    tok in rows && rows[tok].usedAt.None? && now < rows[tok].expiresAt
  }

  function Use(rows: map<TokenId, OneTimeToken>, tok: TokenId, now: Time): map<TokenId, OneTimeToken>
    requires tok in rows
  {
    rows[tok := rows[tok].(usedAt := Some(now))]
  }

  function IssueVerification(s: State, user: UserId, now: Time, ttl: Time): (State, TokenId) {
    (s.(verifications := s.verifications[s.next := OneTimeToken(user, now + ttl, None)], next := s.next + 1), s.next)
  }

  function ConsumeVerification(s: State, tok: TokenId, now: Time): (State, Result<UserId, Error>) {
    if !Usable(s.verifications, tok, now) then (s, Err(InvalidVerificationToken))
    else
      var user := s.verifications[tok].userId;
      (s.(verifications := Use(s.verifications, tok, now), verifiedUsers := s.verifiedUsers + {user}), Ok(user))
  }

  /** updateMany: the user's unused reset tokens are marked used before a new one is made. */
  function RetireResets(rows: map<TokenId, OneTimeToken>, user: UserId, now: Time): map<TokenId, OneTimeToken> {
    map t | t in rows :: if rows[t].userId == user && rows[t].usedAt.None? then rows[t].(usedAt := Some(now)) else rows[t]
  }

  function IssueReset(s: State, user: UserId, now: Time, ttl: Time): (State, TokenId) {
    (s.(resets := RetireResets(s.resets, user, now)[s.next := OneTimeToken(user, now + ttl, None)], next := s.next + 1),
     s.next)
  }

  function ConsumeReset(s: State, tok: TokenId, now: Time): (State, Result<UserId, Error>) {
    if !Usable(s.resets, tok, now) then (s, Err(InvalidResetToken))
    else (s.(resets := Use(s.resets, tok, now)), Ok(s.resets[tok].userId))
  }

  datatype Op =
    | OpIssueVerification(user: UserId, now: Time, ttl: Time)
    | OpConsumeVerification(token: TokenId, now: Time)
    | OpIssueReset(user: UserId, now: Time, ttl: Time)
    | OpConsumeReset(token: TokenId, now: Time)

  function Step(s: State, op: Op): State {
    match op
    case OpIssueVerification(u, now, ttl) => IssueVerification(s, u, now, ttl).0
    case OpConsumeVerification(t, now) => ConsumeVerification(s, t, now).0
    case OpIssueReset(u, now, ttl) => IssueReset(s, u, now, ttl).0
    case OpConsumeReset(t, now) => ConsumeReset(s, t, now).0
  }

  function Run(s: State, ops: seq<Op>): State
    decreases |ops|
  {
    if ops == [] then s else Run(Step(s, ops[0]), ops[1..])
  }

  // ---------------------------------------------------------------- invariant

  predicate Unused(s: State, t: TokenId) {
    t in s.resets && s.resets[t].usedAt.None?
  }

  ghost predicate OneUnusedReset(s: State) {
    forall a, b :: Unused(s, a) && Unused(s, b) && s.resets[a].userId == s.resets[b].userId ==> a == b
  }

  ghost predicate Inv(s: State) {
    && OneUnusedReset(s)
    && (forall t :: t in s.resets ==> t < s.next)
    && (forall t :: t in s.verifications ==> t < s.next)
  }

  lemma IssueResetKeepsInv(s: State, user: UserId, now: Time, ttl: Time)
    requires Inv(s)
    ensures Inv(IssueReset(s, user, now, ttl).0)
  {
    var s' := IssueReset(s, user, now, ttl).0;
    forall a, b | Unused(s', a) && Unused(s', b) && s'.resets[a].userId == s'.resets[b].userId ensures a == b {
      assert a != s.next ==> Unused(s, a) && s.resets[a].userId != user;
      assert b != s.next ==> Unused(s, b) && s.resets[b].userId != user;
    }
  }

  lemma ConsumeResetKeepsInv(s: State, tok: TokenId, now: Time)
    requires Inv(s)
    ensures Inv(ConsumeReset(s, tok, now).0)
  {
    var s' := ConsumeReset(s, tok, now).0;
    forall a, b | Unused(s', a) && Unused(s', b) && s'.resets[a].userId == s'.resets[b].userId ensures a == b {
      assert Unused(s, a) && Unused(s, b);
    }
  }

  lemma StepKeepsInv(s: State, op: Op)
    requires Inv(s)
    ensures Inv(Step(s, op))
  {
    match op
    case OpIssueVerification(u, now, ttl) => assert forall t :: Unused(Step(s, op), t) ==> Unused(s, t);
    case OpConsumeVerification(t, now) => assert forall r :: Unused(Step(s, op), r) ==> Unused(s, r);
    case OpIssueReset(u, now, ttl) => IssueResetKeepsInv(s, u, now, ttl);
    case OpConsumeReset(t, now) => ConsumeResetKeepsInv(s, t, now);
  }

  lemma {:induction false} RunKeepsInv(s: State, ops: seq<Op>)
    requires Inv(s)
    ensures Inv(Run(s, ops))
    decreases |ops|
  {
    if ops != [] {
      StepKeepsInv(s, ops[0]);
      RunKeepsInv(Step(s, ops[0]), ops[1..]);
    }
  }

  /** In every reachable state each user has at most one reset token that is still unused. */
  lemma AtMostOneUnusedReset(ops: seq<Op>)
    ensures OneUnusedReset(Run(Init, ops))
  {
    RunKeepsInv(Init, ops);
  }

  // ---------------------------------------------------------------- single use

  /** Rows are never deleted, keep their user and expiry, and a used token stays used. */
  ghost predicate RowsLater(before: map<TokenId, OneTimeToken>, after: map<TokenId, OneTimeToken>) {
    forall t :: t in before ==>
      && t in after
      && after[t].(usedAt := None) == before[t].(usedAt := None)
      && (before[t].usedAt.Some? ==> after[t] == before[t])
  }

  ghost predicate Later(s: State, s': State) {
    RowsLater(s.verifications, s'.verifications) && RowsLater(s.resets, s'.resets) && s.next <= s'.next
  }

  lemma StepIsLater(s: State, op: Op)
    requires Inv(s)
    ensures Later(s, Step(s, op))
  {
  }

  lemma LaterIsTransitive(s: State, s1: State, s2: State)
    requires Later(s, s1) && Later(s1, s2)
    ensures Later(s, s2)
  {
  }

  lemma {:induction false} RunIsLater(s: State, ops: seq<Op>)
    requires Inv(s)
    ensures Later(s, Run(s, ops))
    decreases |ops|
  {
    if ops != [] {
      StepKeepsInv(s, ops[0]);
      StepIsLater(s, ops[0]);
      RunIsLater(Step(s, ops[0]), ops[1..]);
      LaterIsTransitive(s, Step(s, ops[0]), Run(s, ops));
    }
  }

  /** A verification token consumed once is refused in every continuation. */
  lemma VerificationTokenWorksOnce(s: State, tok: TokenId, now: Time, ops: seq<Op>, later: Time)
    requires Inv(s) && ConsumeVerification(s, tok, now).1.Ok?
    ensures ConsumeVerification(Run(ConsumeVerification(s, tok, now).0, ops), tok, later).1 == Err(InvalidVerificationToken)
  {
    StepKeepsInv(s, OpConsumeVerification(tok, now));
    RunIsLater(ConsumeVerification(s, tok, now).0, ops);
  }

  /** A reset token consumed once is refused in every continuation. */
  lemma ResetTokenWorksOnce(s: State, tok: TokenId, now: Time, ops: seq<Op>, later: Time)
    requires Inv(s) && ConsumeReset(s, tok, now).1.Ok?
    ensures ConsumeReset(Run(ConsumeReset(s, tok, now).0, ops), tok, later).1 == Err(InvalidResetToken)
  {
    ConsumeResetKeepsInv(s, tok, now);
    RunIsLater(ConsumeReset(s, tok, now).0, ops);
  }

  /** Asking for a new reset link retires the old one for good: only the newest link of a user works. */
  lemma NewResetRetiresOldOnes(s: State, user: UserId, now: Time, ttl: Time, earlier: TokenId, ops: seq<Op>, later: Time)
    requires Inv(s) && earlier in s.resets && s.resets[earlier].userId == user
    ensures ConsumeReset(Run(IssueReset(s, user, now, ttl).0, ops), earlier, later).1 == Err(InvalidResetToken)
  {
    IssueResetKeepsInv(s, user, now, ttl);
    RunIsLater(IssueReset(s, user, now, ttl).0, ops);
  }

  // ---------------------------------------------------------------- what a link is worth

  /** No operation presents the verification link before it expires. */
  predicate LinkUnused(ops: seq<Op>, tok: TokenId, expiresAt: Time) {
    forall i :: 0 <= i < |ops| ==> !(ops[i].OpConsumeVerification? && ops[i].token == tok && ops[i].now < expiresAt)
  }

  lemma {:induction false} UnusedLinkWorksIff(s: State, tok: TokenId, ops: seq<Op>, later: Time)
    requires Inv(s) && tok in s.verifications && s.verifications[tok].usedAt.None?
    ensures ConsumeVerification(Run(s, ops), tok, later).1 == Ok(s.verifications[tok].userId)
            <==> later < s.verifications[tok].expiresAt && LinkUnused(ops, tok, s.verifications[tok].expiresAt)
    decreases |ops|
  {
    if ops != [] {
      var s1 := Step(s, ops[0]);
      StepKeepsInv(s, ops[0]);
      StepIsLater(s, ops[0]);
      var uses := ops[0].OpConsumeVerification? && ops[0].token == tok && ops[0].now < s.verifications[tok].expiresAt;
      assert LinkUnused(ops, tok, s.verifications[tok].expiresAt) <==> !uses && LinkUnused(ops[1..], tok, s.verifications[tok].expiresAt) by {
        assert forall i :: 1 <= i < |ops| ==> ops[i] == ops[1..][i - 1];
      }
      if uses {
        RunIsLater(s1, ops[1..]);
      } else {
        UnusedLinkWorksIff(s1, tok, ops[1..], later);
      }
    }
  }

  /** In every continuation a verification link verifies the user it was issued for, until it is used or its lifetime is over. */
  lemma IssuedVerificationWorksIff(s: State, user: UserId, now: Time, ttl: Time, ops: seq<Op>, later: Time)
    requires Inv(s)
    ensures var (s1, tok) := IssueVerification(s, user, now, ttl);
            ConsumeVerification(Run(s1, ops), tok, later).1 == Ok(user) <==> later < now + ttl && LinkUnused(ops, tok, now + ttl)
  {
    var (s1, tok) := IssueVerification(s, user, now, ttl);
    StepKeepsInv(s, OpIssueVerification(user, now, ttl));
    UnusedLinkWorksIff(s1, tok, ops, later);
  }

  /** No operation presents the reset link before it expires or issues a newer one for its user. */
  predicate ResetUndisturbed(ops: seq<Op>, tok: TokenId, user: UserId, expiresAt: Time) {
    forall i :: 0 <= i < |ops| ==> !DisturbsReset(ops[i], tok, user, expiresAt)
  }

  predicate DisturbsReset(op: Op, tok: TokenId, user: UserId, expiresAt: Time) {
    || (op.OpConsumeReset? && op.token == tok && op.now < expiresAt)
    || (op.OpIssueReset? && op.user == user)
  }

  lemma {:induction false} UnusedResetWorksIff(s: State, tok: TokenId, ops: seq<Op>, later: Time)
    requires Inv(s) && Unused(s, tok)
    ensures ConsumeReset(Run(s, ops), tok, later).1 == Ok(s.resets[tok].userId)
            <==> later < s.resets[tok].expiresAt && ResetUndisturbed(ops, tok, s.resets[tok].userId, s.resets[tok].expiresAt)
    decreases |ops|
  {
    if ops != [] {
      var s1, row := Step(s, ops[0]), s.resets[tok];
      StepKeepsInv(s, ops[0]);
      StepIsLater(s, ops[0]);
      assert ResetUndisturbed(ops, tok, row.userId, row.expiresAt)
             <==> !DisturbsReset(ops[0], tok, row.userId, row.expiresAt) && ResetUndisturbed(ops[1..], tok, row.userId, row.expiresAt) by {
        assert forall i :: 1 <= i < |ops| ==> ops[i] == ops[1..][i - 1];
      }
      if DisturbsReset(ops[0], tok, row.userId, row.expiresAt) {
        RunIsLater(s1, ops[1..]);
      } else {
        UnusedResetWorksIff(s1, tok, ops[1..], later);
      }
    }
  }

  /** In every continuation a reset link works for its user until it is used, replaced by a newer one, or its lifetime is over. */
  lemma IssuedResetWorksIff(s: State, user: UserId, now: Time, ttl: Time, ops: seq<Op>, later: Time)
    requires Inv(s)
    ensures var (s1, tok) := IssueReset(s, user, now, ttl);
            ConsumeReset(Run(s1, ops), tok, later).1 == Ok(user) <==> later < now + ttl && ResetUndisturbed(ops, tok, user, now + ttl)
  {
    var (s1, tok) := IssueReset(s, user, now, ttl);
    IssueResetKeepsInv(s, user, now, ttl);
    UnusedResetWorksIff(s1, tok, ops, later);
  }

  // ---------------------------------------------------------------- verified addresses

  ghost predicate UsedALink(s: State, u: UserId) {
    exists t :: t in s.verifications && s.verifications[t].userId == u && s.verifications[t].usedAt.Some?
  }

  ghost predicate VerifiedByLink(s: State) {
    forall u :: u in s.verifiedUsers <==> UsedALink(s, u)
  }

  lemma StepKeepsVerifiedByLink(s: State, op: Op)
    requires Inv(s) && VerifiedByLink(s)
    ensures VerifiedByLink(Step(s, op))
  {
    var s' := Step(s, op);
    StepIsLater(s, op);
    forall u | u in s'.verifiedUsers ensures UsedALink(s', u) {
      if u in s.verifiedUsers {
        var t :| t in s.verifications && s.verifications[t].userId == u && s.verifications[t].usedAt.Some?;
        assert s'.verifications[t] == s.verifications[t];
      } else {
        assert s'.verifications[op.token].userId == u && s'.verifications[op.token].usedAt.Some?;
      }
    }
    forall u | UsedALink(s', u) ensures u in s'.verifiedUsers {
      var t :| t in s'.verifications && s'.verifications[t].userId == u && s'.verifications[t].usedAt.Some?;
      if t in s.verifications && s.verifications[t].usedAt.Some? { assert UsedALink(s, u); }
    }
  }

  /** In every reachable state the verified users are exactly those one of whose verification links was used. */
  lemma {:induction false} VerifiedUsersUsedALink(s: State, ops: seq<Op>)
    requires Inv(s) && VerifiedByLink(s)
    ensures VerifiedByLink(Run(s, ops))
    decreases |ops|
  {
    if ops != [] {
      StepKeepsInv(s, ops[0]);
      StepKeepsVerifiedByLink(s, ops[0]);
      VerifiedUsersUsedALink(Step(s, ops[0]), ops[1..]);
    }
  }
}
