/**
  The life of an invitation: it leaves PENDING once and for all, its token is accepted at most
  once, and expiry is never stored (src/modules/organizations/services/invitation.service.ts).
 */
module Invitations {
  import opened Wrappers
  import opened Organizations
  import OrganizationTables

  /** Rows are never deleted, keep everything but their status, and a status other than PENDING is final. */
  ghost predicate InvitationLater(before: Invitation, after: Invitation) {
    && after.(status := Pending) == before.(status := Pending)
    && (!before.status.Pending? ==> after.status == before.status)
  }

  ghost predicate Later(s: State, s': State) {
    forall id :: id in s.invitations ==> id in s'.invitations && InvitationLater(s.invitations[id], s'.invitations[id])
  }

  lemma StepIsLater(rule: CommitRule, s: State, op: Op)
    requires BelowNext(s)
    ensures Later(s, Step(rule, s, op))
  {
    match op
    case OpAccept(id, u, email, now) => AcceptIsLater(rule, s, id, u, email, now);
    case OpCreateInvitation(org, email, role, attributes, now) => CreateIsLater(s, org, email, role, attributes, now);
    case OpRevokeInvitation(id, org) => RevokeIsLater(s, id, org);
    case _ => InvitationsUntouched(rule, s, op);
  }

  lemma CreateIsLater(s: State, org: OrgId, email: string, role: Option<RoleId>, attributes: Attributes, now: Time)
    requires BelowNext(s)
    ensures Later(s, CreateInvitation(s, org, email, role, attributes, now).0)
  {
  }

  lemma RevokeIsLater(s: State, id: InvitationId, org: OrgId)
    ensures Later(s, RevokeInvitation(s, id, org).0)
  {
  }

  lemma AcceptIsLater(rule: CommitRule, s: State, id: InvitationId, u: UserId, email: string, now: Time)
    ensures Later(s, Accept(rule, s, id, u, email, now).0)
  {
    if id in s.invitations && AcceptBody(s, id, u, email, now).1.Ok? {
      StatusIsLater(s, Joined(s, s.invitations[id], u, now).0, id, Accepted);
    } else if id in s.invitations && AcceptError(s.invitations[id], email, now) == Some(InvitationExpired) {
      StatusIsLater(s, s, id, Expired);
    }
  }

  lemma StatusIsLater(s: State, s1: State, id: InvitationId, status: InvitationStatus)
    requires s1.invitations == s.invitations && id in s.invitations
    requires s.invitations[id].status.Pending? || s.invitations[id].status == status
    ensures Later(s, WithStatus(s1, id, status))
  {
  }

  lemma InvitationsUntouched(rule: CommitRule, s: State, op: Op)
    requires !op.OpCreateInvitation? && !op.OpRevokeInvitation? && !op.OpAccept?
    ensures Step(rule, s, op).invitations == s.invitations
  {
  }

  lemma LaterIsTransitive(s: State, s1: State, s2: State)
    requires Later(s, s1) && Later(s1, s2)
    ensures Later(s, s2)
  {
  }

  lemma {:induction false} RunIsLater(rule: CommitRule, s: State, ops: seq<Op>)
    requires BelowNext(s)
    ensures Later(s, Run(rule, s, ops))
    decreases |ops|
  {
    if ops != [] {
      OrganizationTables.StepKeepsBelowNext(rule, s, ops[0]);
      StepIsLater(rule, s, ops[0]);
      RunIsLater(rule, Step(rule, s, ops[0]), ops[1..]);
      LaterIsTransitive(s, Step(rule, s, ops[0]), Run(rule, s, ops));
    }
  }

  /** Once an invitation has left PENDING, no run changes its status again. */
  lemma StatusIsFinal(rule: CommitRule, s: State, ops: seq<Op>, id: InvitationId)
    requires BelowNext(s) && id in s.invitations && !s.invitations[id].status.Pending?
    ensures id in Run(rule, s, ops).invitations && Run(rule, s, ops).invitations[id].status == s.invitations[id].status
  {
    RunIsLater(rule, s, ops);
  }

  /** An invitation token accepted once is refused in every continuation, for every user. */
  lemma InvitationAcceptedOnce(rule: CommitRule, s: State, id: InvitationId, u: UserId, email: string, now: Time,
                               ops: seq<Op>, v: UserId, email2: string, later: Time)
    requires Inv(s) && Accept(rule, s, id, u, email, now).1.Ok?
    ensures Accept(rule, Run(rule, Accept(rule, s, id, u, email, now).0, ops), id, v, email2, later).1 == Err(AlreadyAccepted)
  {
    var s1 := Accept(rule, s, id, u, email, now).0;
    OrganizationTables.StepKeepsBelowNext(rule, s, OpAccept(id, u, email, now));
    assert id in s1.invitations && s1.invitations[id].status.Accepted?;
    StatusIsFinal(rule, s1, ops, id);
  }

  /** A revoked invitation can never be accepted afterwards. */
  lemma RevokedInvitationStaysRefused(rule: CommitRule, s: State, id: InvitationId, org: OrgId, ops: seq<Op>, u: UserId, email: string, later: Time)
    requires BelowNext(s) && id in s.invitations && s.invitations[id].orgId == org && s.invitations[id].status.Pending?
    ensures Accept(rule, Run(rule, RevokeInvitation(s, id, org).0, ops), id, u, email, later).1 == Err(InvitationRevoked)
  {
    var s1 := RevokeInvitation(s, id, org).0;
    StatusIsFinal(rule, s1, ops, id);
  }

  // ---------------------------------------------------------------- expiry is never stored

  ghost predicate NoneExpired(s: State) {
    forall id :: id in s.invitations ==> !s.invitations[id].status.Expired?
  }

  lemma StepKeepsNoneExpired(s: State, op: Op)
    requires NoneExpired(s)
    ensures NoneExpired(Step(RollbackOnThrow, s, op))
  {
    if op.OpCreateInvitation? || op.OpRevokeInvitation? || op.OpAccept? {
    } else {
      InvitationsUntouched(RollbackOnThrow, s, op);
    }
  }

  /** With the rollback of an interactive transaction, no run ever shows an invitation as EXPIRED. */
  lemma {:induction false} ExpiredIsNeverStored(s: State, ops: seq<Op>)
    requires NoneExpired(s)
    ensures NoneExpired(Run(RollbackOnThrow, s, ops))
    decreases |ops|
  {
    if ops != [] {
      StepKeepsNoneExpired(s, ops[0]);
      ExpiredIsNeverStored(Step(RollbackOnThrow, s, ops[0]), ops[1..]);
    }
  }

  // ---------------------------------------------------------------- who may accept, and what it gives

  /** Pending, not yet expired, and addressed to this email. */
  predicate OpenFor(s: State, id: InvitationId, email: string, now: Time) {
    id in s.invitations && s.invitations[id].status.Pending? && now < s.invitations[id].expiresAt && s.invitations[id].email == email
  }

  /** An invitation is accepted exactly while it is pending and unexpired, by the address it was sent to. */
  lemma AcceptSucceedsIff(rule: CommitRule, s: State, id: InvitationId, u: UserId, email: string, now: Time)
    ensures Accept(rule, s, id, u, email, now).1.Ok? <==> OpenFor(s, id, email, now)
  {
  }

  /**
    Accepting makes the caller, and nobody else, an active member of the inviting organization with
    the invitation's attributes, adds exactly the invited role, and closes the invitation. A member
    who comes back keeps the row, and with it the roles held before.
   */
  lemma AcceptedMember(rule: CommitRule, s: State, id: InvitationId, u: UserId, email: string, now: Time)
    requires Inv(s) && Accept(rule, s, id, u, email, now).1.Ok?
    ensures var (s', outcome) := Accept(rule, s, id, u, email, now);
            var inv, m := s.invitations[id], outcome.value;
            && LiveMember(s', m) && s'.memberships[m].status.MemberActive?
            && IsMembershipOf(s', m, u, inv.orgId) && s'.memberships[m].attributes == inv.attributes
            && s'.memberships.Keys == s.memberships.Keys + {m}
            && (forall n :: n in s.memberships && IsMembershipOf(s, n, u, inv.orgId) ==> n == m && s'.memberships[m].joinedAt == s.memberships[m].joinedAt)
            && (m !in s.memberships ==> s'.memberships[m].joinedAt == now)
            && (forall n :: n in s.memberships && n != m ==> s'.memberships[n] == s.memberships[n])
            && s'.assignments == s.assignments + (if inv.role.Some? then {Assignment(m, inv.role.value)} else {})
            && s'.roles == s.roles && s'.grants == s.grants && s'.permissions == s.permissions && s'.orgs == s.orgs
            && s'.invitations == s.invitations[id := inv.(status := Accepted)]
  {
    var inv := s.invitations[id];
    forall n | n in s.memberships && IsMembershipOf(s, n, u, inv.orgId) ensures FindMembership(s, u, inv.orgId) == Some(n) {
      FindMembershipIsUnique(s, n, u, inv.orgId);
    }
  }

  lemma AcceptedMemberKeepsOrg(rule: CommitRule, s: State, id: InvitationId, u: UserId, email: string, now: Time, m: MembershipId)
    requires m in s.memberships
    ensures m in Accept(rule, s, id, u, email, now).0.memberships
    ensures m != s.next ==> Accept(rule, s, id, u, email, now).0.memberships[m].orgId == s.memberships[m].orgId
  {
  }

  /** An invitation is created exactly for an organization that exists, with no role or a live one, its own or a global one. */
  lemma InvitationIsCreatedIff(s: State, org: OrgId, email: string, role: Option<RoleId>, attributes: Attributes, now: Time)
    ensures var (s', outcome) := CreateInvitation(s, org, email, role, attributes, now);
            && (outcome.Ok? <==> && org in s.orgs
                                 && (role.None? || (LiveRole(s, role.value) && s.roles[role.value].orgId in {None, Some(org)})))
            && (outcome.Err? ==> s' == s)
  {
  }

  // ---------------------------------------------------------------- an invitation through a run

  /** What closes a pending invitation: its organization's revocation, its acceptance, or a late attempt where writes survive the throw. */
  predicate Closes(rule: CommitRule, s: State, op: Op, id: InvitationId)
    requires id in s.invitations
  {
    var inv := s.invitations[id];
    match op
    case OpRevokeInvitation(x, org) => x == id && org == inv.orgId
    case OpAccept(x, _, email, now) => x == id && if now < inv.expiresAt then email == inv.email else rule.KeepOnThrow?
    case _ => false
  }

  lemma StepClosesIff(rule: CommitRule, s: State, op: Op, id: InvitationId)
    requires BelowNext(s) && id in s.invitations && s.invitations[id].status.Pending?
    ensures id in Step(rule, s, op).invitations
    ensures if Closes(rule, s, op, id) then !Step(rule, s, op).invitations[id].status.Pending?
            else Step(rule, s, op).invitations[id] == s.invitations[id]
  {
    match op
    case OpAccept(x, u, email, now) => AcceptClosesIff(rule, s, x, u, email, now, id);
    case OpCreateInvitation(org, email, role, attributes, now) =>
    case OpRevokeInvitation(x, org) =>
    case _ => InvitationsUntouched(rule, s, op);
  }

  lemma AcceptClosesIff(rule: CommitRule, s: State, x: InvitationId, u: UserId, email: string, now: Time, id: InvitationId)
    requires id in s.invitations && s.invitations[id].status.Pending?
    ensures var s' := Accept(rule, s, x, u, email, now).0;
            && id in s'.invitations
            && if Closes(rule, s, OpAccept(x, u, email, now), id) then !s'.invitations[id].status.Pending? else s'.invitations[id] == s.invitations[id]
  {
  }

  /** No operation of the run closes the invitation. */
  ghost predicate StaysOpen(rule: CommitRule, s: State, ops: seq<Op>, id: InvitationId)
    decreases |ops|
  {
    ops != [] ==> id in s.invitations && !Closes(rule, s, ops[0], id) && StaysOpen(rule, Step(rule, s, ops[0]), ops[1..], id)
  }

  lemma {:induction false} PendingIsOpenIff(rule: CommitRule, s: State, ops: seq<Op>, id: InvitationId)
    requires BelowNext(s) && id in s.invitations && s.invitations[id].status.Pending?
    ensures var end := Run(rule, s, ops);
            && id in end.invitations && end.invitations[id].(status := Pending) == s.invitations[id]
            && (end.invitations[id].status.Pending? <==> StaysOpen(rule, s, ops, id))
    decreases |ops|
  {
    RunIsLater(rule, s, ops);
    if ops != [] {
      StepClosesIff(rule, s, ops[0], id);
      OrganizationTables.StepKeepsBelowNext(rule, s, ops[0]);
      if Closes(rule, s, ops[0], id) {
        StatusIsFinal(rule, Step(rule, s, ops[0]), ops[1..], id);
      } else {
        PendingIsOpenIff(rule, Step(rule, s, ops[0]), ops[1..], id);
      }
    }
  }

  /**
    In every run after its creation an invitation is accepted exactly within seven days, by the
    invited address, if nothing closed it in between; it then gives what it was created with.
   */
  lemma CreatedInvitationIsAcceptedIff(rule: CommitRule, s: State, org: OrgId, email: string, role: Option<RoleId>, attributes: Attributes, now: Time,
                                       ops: seq<Op>, u: UserId, presented: string, later: Time)
    requires BelowNext(s) && CreateInvitation(s, org, email, role, attributes, now).1.Ok?
    ensures var (s1, created) := CreateInvitation(s, org, email, role, attributes, now);
            var end := Run(rule, s1, ops);
            && created.value in end.invitations && created.value !in s.invitations
            && end.invitations[created.value].(status := Pending) == Invitation(org, email, role, attributes, Pending, now + 604800000)
            && (Accept(rule, end, created.value, u, presented, later).1.Ok?
                <==> presented == email && later < now + 604800000 && StaysOpen(rule, s1, ops, created.value))
  {
    var (s1, created) := CreateInvitation(s, org, email, role, attributes, now);
    OrganizationTables.StepKeepsBelowNext(rule, s, OpCreateInvitation(org, email, role, attributes, now));
    PendingIsOpenIff(rule, s1, ops, created.value);
    AcceptSucceedsIff(rule, Run(rule, s1, ops), created.value, u, presented, later);
  }
}
