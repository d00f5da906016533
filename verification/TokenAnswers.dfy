/**
  Whom an accepted access token speaks for, whom a signed one is for, and which changes end the
  tokens signed before them (src/modules/auth/strategies/jwt.strategy.ts,
  src/modules/auth/services/auth.service.ts, active-context.service.ts).
 */
module TokenAnswers {
  import opened Wrappers
  import opened AccessTokens
  import A = Auth
  import S = Sessions
  import O = Organizations
  import T = OrganizationTables
  import V = OrganizationVersions
  import I = SignIns
  import Requests

  // ---------------------------------------------------------------- an accepted token

  /** The answer's user may sign in, and its session and version are that user's. */
  ghost predicate SpeaksForUser(auth: A.State, who: AuthenticatedUser, now: Time) {
    && A.MaySignIn(auth, who.id) && auth.users[who.id].email == who.email && auth.users[who.id].tokenVersion == who.tokenVersion
    && SessionLive(auth.sessions, who.sessionId, now) && auth.sessions.sessions[who.sessionId].userId == who.id
  }

  /** The answer's scope is an active live membership of that user in an active organization, with its roles and counters as they are; or none. */
  ghost predicate SpeaksForMember(s: O.State, who: AuthenticatedUser) {
    var c := who.context;
    if c.membershipId.None? then c == NO_CONTEXT
    else
      var m := c.membershipId.value;
      && O.LiveMember(s, m) && s.memberships[m].userId == who.id && s.memberships[m].status.MemberActive?
      && c.organizationId == Some(s.memberships[m].orgId)
      && s.memberships[m].orgId in s.orgs && s.orgs[s.memberships[m].orgId].status.OrgActive?
      && c.roles == V.Slugs(s, O.LiveRoles(s, m))
      && c.permissionsVersion == s.memberships[m].permissionsVersion && c.attributesVersion == s.memberships[m].attributesVersion
  }

  /** After every run, what validate answers for a signed token is true of the tables. */
  lemma AcceptedAnswerIsTrue(cfg: A.Config, start: World, ops: seq<Op>, e: Minted, now: Time)
    requires Inv(cfg, start)
    requires var w := Run(cfg, start, ops); e in w.minted && Validate(w.auth, w.org, e.payload, now).Ok?
    ensures var w := Run(cfg, start, ops);
            var who := Validate(w.auth, w.org, e.payload, now).value;
            SpeaksForUser(w.auth, who, now) && SpeaksForMember(w.org, who)
  {
    var w := Run(cfg, start, ops);
    ReachedIsSound(cfg, start, ops);
    assert SubjectOk(w.auth, e.payload) && ScopeOk(w.org, e);
    if e.payload.context.membershipId.Some? { AcceptedScopeIsUnchanged(w.auth, w.org, e, now); }
  }

  // ---------------------------------------------------------------- a signed token

  /** The organization a sign-in asks for. */
  function Wanted(op: A.Op): Option<O.OrgId> {
    if op.OpFederatedLogin? && op.path.ViaSso? then Some(op.path.organization) else None
  }

  ghost predicate EligibleIn(s: O.State, u: A.UserId, org: O.OrgId) {
    exists m :: Eligible(s, u, m) && s.memberships[m].orgId == org
  }

  ghost predicate EligibleSomewhere(s: O.State, u: A.UserId) {
    exists m :: Eligible(s, u, m)
  }

  /** The context describes an eligible membership as it is now. */
  ghost predicate Describes(s: O.State, u: A.UserId, c: Context) {
    && c.membershipId.Some? && Eligible(s, u, c.membershipId.value)
    && var m := c.membershipId.value;
       && c.organizationId == Some(s.memberships[m].orgId) && c.roles == V.Slugs(s, O.LiveRoles(s, m))
       && c.permissionsVersion == s.memberships[m].permissionsVersion && c.attributesVersion == s.memberships[m].attributesVersion
  }

  lemma EligibleIsFound(s: O.State, u: A.UserId, org: O.OrgId)
    requires O.UniqueMemberships(s)
    ensures ResolveForOrganization(s, u, org).Some? <==> EligibleIn(s, u, org)
    ensures ResolveForOrganization(s, u, org).Some? ==>
              Describes(s, u, ResolveForOrganization(s, u, org).value) && ResolveForOrganization(s, u, org).value.organizationId == Some(org)
  {
    if m :| Eligible(s, u, m) && s.memberships[m].orgId == org {
      O.FindMembershipIsUnique(s, m, u, org);
    }
  }

  /**
    The token a sign-in is answered with is for the user who signed in and the granted session. It
    is scoped to the organization asked for where the user is eligible, else to the earliest joined
    membership, and to none exactly when no membership is eligible.
   */
  lemma SignedTokenIsFor(cfg: A.Config, auth: A.State, s: O.State, op: A.Op)
    requires S.Inv(auth.sessions) && O.UniqueMemberships(s) && I.IsGranted(A.Apply(cfg, auth, op).1)
    ensures var (auth', outcome) := A.Apply(cfg, auth, op);
            var issued := outcome.value.issued;
            && I.SignedInUser(auth, op) == Some(issued.userId) && issued.userId in auth'.users
            && exists e :: Signed(auth', s, op, outcome) == {e}
                 && e.payload.sub == issued.userId && e.payload.sessionId == issued.session
                 && e.payload.tokenVersion == auth'.users[issued.userId].tokenVersion
                 && ScopedFor(s, issued.userId, Wanted(op), e.payload.context)
  {
    var (auth', outcome) := A.Apply(cfg, auth, op);
    var issued := outcome.value.issued;
    I.GrantAnswersWithNewest(cfg, auth, op);
    GrantedSessionIsTheUsers(cfg, auth, op);
    var c := SignInContext(s, op, issued.userId);
    SignInScope(s, op, issued.userId);
    assert Signed(auth', s, op, outcome) == {Mint(s, BuildAccessPayload(auth', issued.userId, issued.session, c))};
  }

  ghost predicate ScopedFor(s: O.State, u: A.UserId, wanted: Option<O.OrgId>, c: Context) {
    if wanted.Some? && EligibleIn(s, u, wanted.value) then Describes(s, u, c) && c.organizationId == wanted
    else if EligibleSomewhere(s, u) then Describes(s, u, c) && Earliest(s, u, c.membershipId.value)
    else c == NO_CONTEXT
  }

  lemma SignInScope(s: O.State, op: A.Op, u: A.UserId)
    requires O.UniqueMemberships(s)
    ensures ScopedFor(s, u, Wanted(op), SignInContext(s, op, u))
  {
    if Wanted(op).Some? { EligibleIsFound(s, u, Wanted(op).value); }
    var m := DefaultMembership(s, u);
    if m.Some? { assert Earliest(s, u, m.value) && Eligible(s, u, m.value); }
  }

  /**
    A switch of organization succeeds exactly for a usable account with an eligible membership there.
    The new token is for the same user and session, and it is accepted as long as that session lives.
   */
  lemma SwitchSucceedsIff(auth: A.State, s: O.State, u: A.UserId, sid: S.SessionId, org: O.OrgId, now: Time)
    requires O.UniqueMemberships(s)
    ensures var outcome := SwitchOrganization(auth, s, u, sid, org);
            && (outcome.Ok? <==> A.MaySignIn(auth, u) && EligibleIn(s, u, org))
            && (outcome.Ok? ==>
                  && outcome.value.sub == u && outcome.value.sessionId == sid
                  && Describes(s, u, outcome.value.context) && outcome.value.context.organizationId == Some(org)
                  && (Validate(auth, s, outcome.value, now).Ok? <==> SessionLive(auth.sessions, sid, now)))
  {
    EligibleIsFound(s, u, org);
  }

  // ---------------------------------------------------------------- what ends earlier tokens

  /** Counters beyond the token's, or no live membership: the token is refused. */
  lemma MovedOnIsRefused(auth: A.State, before: O.State, s: O.State, e: Minted, now: Time)
    requires ScopeOk(before, e) && e.payload.context.membershipId.Some?
    requires var m := e.payload.context.membershipId.value; m in s.memberships && MovedOn(before.memberships[m], s.memberships[m])
    ensures Validate(auth, s, e.payload, now).Err?
  {
  }

  lemma OrgRunWitnessed(cfg: A.Config, w: World, ops: seq<Op>, m: O.MembershipId)
    requires O.Inv(w.org) && m in w.org.memberships
    ensures V.Witnessed(w.org, Run(cfg, w, ops).org, m)
  {
    Requests.OrgTablesOfRun(cfg, w, ops);
    V.RunWitnessed(cfg.rule, w.org, Requests.OrgOps(ops), m);
  }

  /** No token of a removed member is ever accepted again, not even after the member has come back. */
  lemma RemovedMembersTokensStayDead(cfg: A.Config, w: World, e: Minted, ops: seq<Op>, later: Time)
    requires Inv(cfg, w) && e in w.minted && e.payload.context.membershipId.Some?
    requires var m := e.payload.context.membershipId.value; m in w.org.memberships && w.org.memberships[m].deleted
    ensures var end := Run(cfg, w, ops); Validate(end.auth, end.org, e.payload, later).Err?
  {
    assert ScopeOk(w.org, e);
    OrgRunWitnessed(cfg, w, ops, e.payload.context.membershipId.value);
    MovedOnIsRefused(Run(cfg, w, ops).auth, w.org, Run(cfg, w, ops).org, e, later);
  }

  /** The organizations a policy change concerns. */
  predicate Concerns(s: O.State, scope: Option<O.OrgId>, org: O.OrgId) {
    if scope.Some? then org == scope.value else org in s.orgs && !s.orgs[org].deleted
  }

  /** The row has moved on past a token signed before: its counters are higher, or there is no live membership. */
  ghost predicate MovedOn(before: O.Membership, after: O.Membership) {
    V.Monotone(before, after) && (after.deleted || V.Bumped(before, after))
  }

  lemma PolicyChangeMovesOn(s: O.State, scope: Option<O.OrgId>, lost: set<O.OrgId>, m: O.MembershipId)
    requires m in s.memberships && Concerns(s, scope, s.memberships[m].orgId)
    ensures m in O.PolicyChanged(s, scope, lost).memberships
    ensures MovedOn(s.memberships[m], O.PolicyChanged(s, scope, lost).memberships[m])
  {
  }

  /** Once moved on, a row stays so in every continuation. */
  lemma MovedOnStaysRefused(cfg: A.Config, before: O.State, w: World, e: Minted, ops: seq<Op>, later: Time)
    requires ScopeOk(before, e) && e.payload.context.membershipId.Some? && O.Inv(w.org)
    requires var m := e.payload.context.membershipId.value; m in w.org.memberships && MovedOn(before.memberships[m], w.org.memberships[m])
    ensures var end := Run(cfg, w, ops); Validate(end.auth, end.org, e.payload, later).Err?
  {
    var end := Run(cfg, w, ops);
    OrgRunWitnessed(cfg, w, ops, e.payload.context.membershipId.value);
    MovedOnIsRefused(end.auth, before, end.org, e, later);
  }

  /**
    After a change of policies no token signed before for an organization it concerns is accepted
    at any later point of any run, whatever became of the cache commands.
   */
  lemma PolicyChangeEndsEarlierTokens(cfg: A.Config, w: World, scope: Option<O.OrgId>, lost: set<O.OrgId>, e: Minted, ops: seq<Op>, later: Time)
    requires O.Inv(w.org) && Sound(w) && e in w.minted && e.payload.context.organizationId.Some?
    requires Concerns(w.org, scope, e.payload.context.organizationId.value)
    ensures var end := Run(cfg, Step(cfg, w, OrgOp(O.OpPolicyChanged(scope, lost))), ops);
            Validate(end.auth, end.org, e.payload, later).Err?
  {
    PolicyStep(cfg, w, scope, lost);
    PolicyChangeEndsScope(cfg, w.org, Step(cfg, w, OrgOp(O.OpPolicyChanged(scope, lost))), scope, lost, e, ops, later);
  }

  lemma PolicyStep(cfg: A.Config, w: World, scope: Option<O.OrgId>, lost: set<O.OrgId>)
    ensures Step(cfg, w, OrgOp(O.OpPolicyChanged(scope, lost))) == w.(org := O.PolicyChanged(w.org, scope, lost))
  {
  }

  lemma PolicyChangeEndsScope(cfg: A.Config, before: O.State, w: World, scope: Option<O.OrgId>, lost: set<O.OrgId>, e: Minted, ops: seq<Op>, later: Time)
    requires O.Inv(before) && ScopeOk(before, e) && w.org == O.PolicyChanged(before, scope, lost)
    requires e.payload.context.organizationId.Some? && Concerns(before, scope, e.payload.context.organizationId.value)
    ensures var end := Run(cfg, w, ops); Validate(end.auth, end.org, e.payload, later).Err?
  {
    PolicyChangeMovesOn(before, scope, lost, e.payload.context.membershipId.value);
    assert O.Inv(w.org) by { T.StepKeepsInv(cfg.rule, before, O.OpPolicyChanged(scope, lost)); }
    MovedOnStaysRefused(cfg, before, w, e, ops, later);
  }

  // ---------------------------------------------------------------- the organization's own state

  /** The status the last update gave an organization that was not deleted then. */
  ghost function LastStatus(cfg: A.Config, s: O.State, ops: seq<O.Op>, org: O.OrgId, before: O.OrgStatus): O.OrgStatus
    decreases |ops|
  {
    if ops == [] then before
    else
      var sets := ops[0].OpUpdateOrgStatus? && ops[0].org == org && org in s.orgs && !s.orgs[org].deleted;
      LastStatus(cfg, O.Step(cfg.rule, s, ops[0]), ops[1..], org, if sets then ops[0].orgStatus else before)
  }

  /** Organization rows are never removed, keep their slug, and stay deleted; only their own operations write them. */
  lemma StepKeepsOrg(rule: CommitRule, s: O.State, op: O.Op, org: O.OrgId)
    requires O.BelowNext(s) && org in s.orgs
    ensures var s' := O.Step(rule, s, op);
            && org in s'.orgs && s'.orgs[org].slug == s.orgs[org].slug
            && (s'.orgs[org].deleted <==> s.orgs[org].deleted || (op.OpSoftDeleteOrg? && op.org == org))
            && s'.orgs[org].status == if op.OpUpdateOrgStatus? && op.org == org && !s.orgs[org].deleted then op.orgStatus else s.orgs[org].status
  {
    if O.IsRoleOp(op) { RoleOpKeepsOrgs(rule, s, op); } else if O.IsMemberOp(op) { MemberOpKeepsOrgs(rule, s, op, org); }
  }

  lemma RoleOpKeepsOrgs(rule: CommitRule, s: O.State, op: O.Op)
    requires O.IsRoleOp(op)
    ensures O.Step(rule, s, op).orgs == s.orgs
  {
  }

  lemma MemberOpKeepsOrgs(rule: CommitRule, s: O.State, op: O.Op, org: O.OrgId)
    requires O.IsMemberOp(op) && org in s.orgs && org < s.next
    ensures org in O.Step(rule, s, op).orgs && O.Step(rule, s, op).orgs[org] == s.orgs[org]
  {
  }

  lemma {:induction false} StatusIsTheLastSet(cfg: A.Config, s: O.State, ops: seq<O.Op>, org: O.OrgId)
    requires O.BelowNext(s) && org in s.orgs
    ensures org in O.Run(cfg.rule, s, ops).orgs && O.Run(cfg.rule, s, ops).orgs[org].status == LastStatus(cfg, s, ops, org, s.orgs[org].status)
    ensures s.orgs[org].deleted ==> O.Run(cfg.rule, s, ops).orgs[org].deleted
    decreases |ops|
  {
    if ops != [] {
      StepKeepsOrg(cfg.rule, s, ops[0], org);
      T.StepKeepsBelowNext(cfg.rule, s, ops[0]);
      StatusIsTheLastSet(cfg, O.Step(cfg.rule, s, ops[0]), ops[1..], org);
    }
  }

  /** A token for an organization whose last status is not active is refused, however it was signed. */
  lemma InactiveOrganizationIsRefused(cfg: A.Config, w: World, ops: seq<Op>, org: O.OrgId, p: Payload, later: Time)
    requires O.BelowNext(w.org) && org in w.org.orgs && p.context.organizationId == Some(org) && p.context.membershipId.Some?
    requires !LastStatus(cfg, w.org, Requests.OrgOps(ops), org, w.org.orgs[org].status).OrgActive?
    ensures var end := Run(cfg, w, ops); Validate(end.auth, end.org, p, later).Err?
  {
    Requests.OrgTablesOfRun(cfg, w, ops);
    StatusIsTheLastSet(cfg, w.org, Requests.OrgOps(ops), org);
  }

  /** Once an organization is deleted no run signs another token for it. */
  lemma {:induction false} DeletedOrganizationGetsNoToken(cfg: A.Config, w: World, ops: seq<Op>, org: O.OrgId, e: Minted)
    requires O.BelowNext(w.org) && org in w.org.orgs && w.org.orgs[org].deleted
    requires e in Run(cfg, w, ops).minted && e !in w.minted
    ensures e.payload.context.organizationId != Some(org)
    decreases |ops|
  {
    if ops != [] {
      var w1 := Step(cfg, w, ops[0]);
      if ops[0].OrgOp? {
        StepKeepsOrg(cfg.rule, w.org, ops[0].org, org);
        T.StepKeepsBelowNext(cfg.rule, w.org, ops[0].org);
      }
      if e in w1.minted {
        NewTokenIsNotFor(cfg, w, ops[0], org, e);
      } else {
        DeletedOrganizationGetsNoToken(cfg, w1, ops[1..], org, e);
      }
    }
  }

  lemma NewTokenIsNotFor(cfg: A.Config, w: World, op: Op, org: O.OrgId, e: Minted)
    requires org in w.org.orgs && w.org.orgs[org].deleted && e in Step(cfg, w, op).minted && e !in w.minted
    ensures e.payload.context.organizationId != Some(org)
  {
    if op.AuthOp? {
      var (auth, outcome) := A.Apply(cfg, w.auth, op.auth);
      assert e in Signed(auth, w.org, op.auth, outcome);
      var m := DefaultMembership(w.org, outcome.value.issued.userId);
      assert m.Some? ==> Eligible(w.org, outcome.value.issued.userId, m.value);
    } else {
      assert op.Switch? && e in Switched(w, op.bearer, op.target, op.now);
    }
  }
}
