/** What every run of the organization services keeps of the tables' constraints. */
module OrganizationTables {
  import opened Wrappers
  import opened Organizations

  /** Memberships keep their identity columns, and no row appears. */
  ghost predicate SameIdentities(s: State, s': State) {
    && s'.memberships.Keys == s.memberships.Keys
    && (forall m :: m in s.memberships ==> Key(s', m) == Key(s, m))
  }

  lemma IdentitiesKeepUnique(s: State, s': State)
    requires UniqueMemberships(s) && SameIdentities(s, s')
    ensures UniqueMemberships(s')
  {
    forall a, b | a in s'.memberships && b in s'.memberships && Key(s', a) == Key(s', b) ensures a == b {
      assert Key(s, a) == Key(s, b);
    }
  }

  lemma NewMembershipKeepsUnique(s: State, s': State, n: MembershipId)
    requires UniqueMemberships(s) && n !in s.memberships && n in s'.memberships
    requires s'.memberships.Keys == s.memberships.Keys + {n}
    requires forall m :: m in s.memberships ==> Key(s', m) == Key(s, m) && Key(s, m) != Key(s', n)
    ensures UniqueMemberships(s')
  {
    forall a, b | a in s'.memberships && b in s'.memberships && Key(s', a) == Key(s', b) ensures a == b {
      if a != n && b != n { assert Key(s, a) == Key(s, b); }
    }
  }

  /** accept makes a membership only for a pair that has none, so one row per pair remains. */
  lemma JoinKeepsUnique(s: State, inv: Invitation, u: UserId, now: Time)
    requires Inv(s)
    ensures UniqueMemberships(Joined(s, inv, u, now).0)
  {
    var s' := Joined(s, inv, u, now).0;
    match FindMembership(s, u, inv.orgId)
    case Some(m) => IdentitiesKeepUnique(s, s');
    case None =>
      assert forall m :: m in s.memberships ==> !IsMembershipOf(s, m, u, inv.orgId);
      NewMembershipKeepsUnique(s, s', s.next);
  }

  lemma CreateOrgKeepsUnique(s: State, owner: UserId, slug: string, status: OrgStatus, now: Time, admin: Option<RoleId>)
    requires Inv(s)
    ensures UniqueMemberships(CreateOrgWith(s, owner, slug, status, now, admin).0)
  {
    if CreateOrgWith(s, owner, slug, status, now, admin).1.Ok? {
      NewMembershipKeepsUnique(s, CreateOrgWith(s, owner, slug, status, now, admin).0, s.next + 1);
    }
  }

  /** Every operation but two leaves the set of memberships and their identities alone. */
  lemma RoleOpKeepsIdentities(rule: CommitRule, s: State, op: Op)
    requires IsRoleOp(op)
    ensures SameIdentities(s, Step(rule, s, op))
  {
    RoleOpOnlyBumps(rule, s, op);
  }

  /** Role operations touch no column of a membership but its permissions counter. */
  lemma RoleOpOnlyBumps(rule: CommitRule, s: State, op: Op)
    requires IsRoleOp(op)
    ensures exists ms :: Step(rule, s, op).memberships == BumpPermissions(s, ms)
  {
    match op
    case OpCreateRole(_, _, _) => assert s.memberships == BumpPermissions(s, {});
    case OpRemoveRole(r, ok, _) =>
      assert s.memberships == BumpPermissions(s, {});
      var s1 := s.(roles := Step(rule, s, op).roles);
      assert BumpPermissions(s1, Holders(s1, r)) == BumpPermissions(s, Holders(s1, r));
    case OpSetPermissions(r, ids, ok, _) =>
      assert s.memberships == BumpPermissions(s, {});
      var s1 := s.(grants := Step(rule, s, op).grants);
      assert BumpPermissions(s1, Holders(s1, r)) == BumpPermissions(s, Holders(s1, r));
    case OpAssignRole(_, m, _, _, _) =>
      assert s.memberships == BumpPermissions(s, {});
      assert Step(rule, s, op).memberships == BumpPermissions(s, {}) || Step(rule, s, op).memberships == BumpPermissions(s, {m});
    case OpRevokeRole(_, m, _, _, _) =>
      assert s.memberships == BumpPermissions(s, {});
      assert Step(rule, s, op).memberships == BumpPermissions(s, {}) || Step(rule, s, op).memberships == BumpPermissions(s, {m});
  }

  lemma MemberChangeKeepsIdentities(rule: CommitRule, s: State, op: Op)
    requires op.OpUpdateAttributes? || op.OpRemoveMember? || op.OpPolicyChanged?
    ensures SameIdentities(s, Step(rule, s, op))
  {
    match op
    case OpUpdateAttributes(org, u, dto) => UpdateKeepsIdentities(s, org, u, dto);
    case OpRemoveMember(org, u) => RemovalKeepsIdentities(s, org, u);
    case OpPolicyChanged(_, _) =>
  }

  lemma UpdateKeepsIdentities(s: State, org: OrgId, u: UserId, dto: MemberDto)
    ensures SameIdentities(s, UpdateAttributes(s, org, u, dto).0)
  {
  }

  lemma RemovalKeepsIdentities(s: State, org: OrgId, u: UserId)
    ensures SameIdentities(s, RemoveMember(s, org, u).0)
  {
  }

  lemma OtherOpKeepsMemberships(rule: CommitRule, s: State, op: Op)
    requires !IsRoleOp(op) && !IsMemberOp(op)
    ensures Step(rule, s, op).memberships == s.memberships
  {
    match op
    case OpUpdateOrgStatus(_, _) =>
    case OpSoftDeleteOrg(_) =>
    case OpCreatePermission(_, _) =>
    case OpRemovePermission(_) =>
    case OpResolve(_, _, _, _) =>
    case OpCreateInvitation(_, _, _, _, _) =>
    case OpRevokeInvitation(_, _) =>
  }

  lemma OtherOpKeepsIdentities(rule: CommitRule, s: State, op: Op)
    requires !IsRoleOp(op) && !op.OpAccept? && !op.OpCreateOrg?
    ensures SameIdentities(s, Step(rule, s, op))
  {
    if IsMemberOp(op) { MemberChangeKeepsIdentities(rule, s, op); } else { OtherOpKeepsMemberships(rule, s, op); }
  }

  lemma AcceptKeepsUnique(rule: CommitRule, s: State, id: InvitationId, u: UserId, email: string, now: Time)
    requires Inv(s)
    ensures UniqueMemberships(Accept(rule, s, id, u, email, now).0)
  {
    var s' := Accept(rule, s, id, u, email, now).0;
    if id in s.invitations && AcceptBody(s, id, u, email, now).1.Ok? {
      assert s'.memberships == Joined(s, s.invitations[id], u, now).0.memberships;
      JoinKeepsUnique(s, s.invitations[id], u, now);
    } else {
      assert s'.memberships == s.memberships;
    }
  }

  lemma StepKeepsUnique(rule: CommitRule, s: State, op: Op)
    requires Inv(s)
    ensures UniqueMemberships(Step(rule, s, op))
  {
    if op.OpCreateOrg? {
      CreateOrgKeepsUnique(s, op.owner, op.slug, op.orgStatus, op.now, FindGlobalAdmin(s));
    } else if op.OpAccept? {
      AcceptKeepsUnique(rule, s, op.invitation, op.user, op.email, op.now);
    } else {
      OtherKeepsUnique(rule, s, op);
    }
  }

  lemma OtherKeepsUnique(rule: CommitRule, s: State, op: Op)
    requires UniqueMemberships(s) && !op.OpAccept? && !op.OpCreateOrg?
    ensures UniqueMemberships(Step(rule, s, op))
  {
    var s' := Step(rule, s, op);
    assert SameIdentities(s, s') by {
      if IsRoleOp(op) { RoleOpKeepsIdentities(rule, s, op); } else { OtherOpKeepsIdentities(rule, s, op); }
    }
    IdentitiesKeepUnique(s, s');
  }

  lemma RoleOpKeepsBelowNext(rule: CommitRule, s: State, op: Op)
    requires BelowNext(s) && IsRoleOp(op)
    ensures BelowNext(Step(rule, s, op)) && s.next <= Step(rule, s, op).next
  {
    match op
    case OpCreateRole(_, _, _) =>
    case OpRemoveRole(_, _, _) =>
    case OpSetPermissions(_, _, _, _) =>
    case OpAssignRole(_, _, _, _, _) =>
    case OpRevokeRole(_, _, _, _, _) =>
  }

  lemma MemberOpKeepsBelowNext(rule: CommitRule, s: State, op: Op)
    requires BelowNext(s) && IsMemberOp(op)
    ensures BelowNext(Step(rule, s, op)) && s.next <= Step(rule, s, op).next
  {
    match op
    case OpCreateOrg(_, _, _, _) =>
    case OpAccept(id, u, email, now) => AcceptKeepsBelowNext(rule, s, id, u, email, now);
    case OpUpdateAttributes(_, _, _) =>
    case OpRemoveMember(_, _) =>
    case OpPolicyChanged(_, _) =>
  }

  lemma AcceptKeepsBelowNext(rule: CommitRule, s: State, id: InvitationId, u: UserId, email: string, now: Time)
    requires BelowNext(s)
    ensures BelowNext(Accept(rule, s, id, u, email, now).0) && s.next <= Accept(rule, s, id, u, email, now).0.next
  {
  }

  lemma OtherOpKeepsBelowNext(rule: CommitRule, s: State, op: Op)
    requires BelowNext(s) && !IsRoleOp(op) && !IsMemberOp(op)
    ensures BelowNext(Step(rule, s, op)) && s.next <= Step(rule, s, op).next
  {
    match op
    case OpUpdateOrgStatus(_, _) =>
    case OpSoftDeleteOrg(_) =>
    case OpCreatePermission(_, _) =>
    case OpRemovePermission(_) =>
    case OpResolve(_, _, _, _) =>
    case OpCreateInvitation(_, _, _, _, _) =>
    case OpRevokeInvitation(_, _) =>
  }

  /** No id is reused: every row stays below next. */
  lemma StepKeepsBelowNext(rule: CommitRule, s: State, op: Op)
    requires BelowNext(s)
    ensures BelowNext(Step(rule, s, op)) && s.next <= Step(rule, s, op).next
  {
    if IsRoleOp(op) {
      RoleOpKeepsBelowNext(rule, s, op);
    } else if IsMemberOp(op) {
      MemberOpKeepsBelowNext(rule, s, op);
    } else {
      OtherOpKeepsBelowNext(rule, s, op);
    }
  }

  lemma RoleOpKeepsForeignKeys(rule: CommitRule, s: State, op: Op)
    requires ForeignKeys(s) && IsRoleOp(op)
    ensures ForeignKeys(Step(rule, s, op))
  {
    match op
    case OpCreateRole(_, _, _) =>
    case OpRemoveRole(_, _, _) =>
    case OpSetPermissions(_, _, _, _) =>
    case OpAssignRole(_, _, _, _, _) =>
    case OpRevokeRole(_, _, _, _, _) =>
  }

  lemma AcceptKeepsForeignKeys(rule: CommitRule, s: State, id: InvitationId, u: UserId, email: string, now: Time)
    requires ForeignKeys(s)
    ensures ForeignKeys(Accept(rule, s, id, u, email, now).0)
  {
  }

  lemma CreateOrgKeepsForeignKeys(s: State, owner: UserId, slug: string, status: OrgStatus, now: Time, admin: Option<RoleId>)
    requires ForeignKeys(s) && FoundGlobalAdmin(s, admin)
    ensures ForeignKeys(CreateOrgWith(s, owner, slug, status, now, admin).0)
  {
  }

  /** Whichever global admin role the query returns. */
  lemma CreateOrgWithKeepsInv(s: State, owner: UserId, slug: string, status: OrgStatus, now: Time, admin: Option<RoleId>)
    requires Inv(s) && FoundGlobalAdmin(s, admin)
    ensures Inv(CreateOrgWith(s, owner, slug, status, now, admin).0)
  {
    CreateOrgKeepsUnique(s, owner, slug, status, now, admin);
    CreateOrgKeepsForeignKeys(s, owner, slug, status, now, admin);
  }

  lemma MemberOpKeepsForeignKeys(rule: CommitRule, s: State, op: Op)
    requires ForeignKeys(s) && IsMemberOp(op)
    ensures ForeignKeys(Step(rule, s, op))
  {
    match op
    case OpCreateOrg(owner, slug, status, now) => CreateOrgKeepsForeignKeys(s, owner, slug, status, now, FindGlobalAdmin(s));
    case OpAccept(id, u, email, now) => AcceptKeepsForeignKeys(rule, s, id, u, email, now);
    case OpUpdateAttributes(_, _, _) =>
    case OpRemoveMember(_, _) =>
    case OpPolicyChanged(_, _) =>
  }

  lemma OtherOpKeepsForeignKeys(rule: CommitRule, s: State, op: Op)
    requires ForeignKeys(s) && !IsRoleOp(op) && !IsMemberOp(op)
    ensures ForeignKeys(Step(rule, s, op))
  {
    match op
    case OpUpdateOrgStatus(_, _) =>
    case OpSoftDeleteOrg(_) =>
    case OpCreatePermission(_, _) =>
    case OpRemovePermission(_) =>
    case OpResolve(_, _, _, _) =>
    case OpCreateInvitation(_, _, _, _, _) =>
    case OpRevokeInvitation(_, _) =>
  }

  lemma StepKeepsForeignKeys(rule: CommitRule, s: State, op: Op)
    requires ForeignKeys(s)
    ensures ForeignKeys(Step(rule, s, op))
  {
    if IsRoleOp(op) {
      RoleOpKeepsForeignKeys(rule, s, op);
    } else if IsMemberOp(op) {
      MemberOpKeepsForeignKeys(rule, s, op);
    } else {
      OtherOpKeepsForeignKeys(rule, s, op);
    }
  }

  lemma StepKeepsInv(rule: CommitRule, s: State, op: Op)
    requires Inv(s)
    ensures Inv(Step(rule, s, op))
  {
    StepKeepsUnique(rule, s, op);
    StepKeepsBelowNext(rule, s, op);
    StepKeepsForeignKeys(rule, s, op);
  }

  lemma {:induction false} RunKeepsInv(rule: CommitRule, s: State, ops: seq<Op>)
    requires Inv(s)
    ensures Inv(Run(rule, s, ops))
    decreases |ops|
  {
    if ops != [] {
      StepKeepsInv(rule, s, ops[0]);
      RunKeepsInv(rule, Step(rule, s, ops[0]), ops[1..]);
    }
  }

  /** In every reachable state a user has at most one membership row per organization. */
  lemma OneMembershipPerPair(rule: CommitRule, ops: seq<Op>)
    ensures UniqueMemberships(Run(rule, Init, ops))
  {
    RunKeepsInv(rule, Init, ops);
  }
}
