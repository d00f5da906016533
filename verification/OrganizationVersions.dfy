/**
  The version pair of a membership as a witness: while a live membership shows the counters a
  token recorded, nothing the token stands for has changed
  (src/modules/auth/strategies/jwt.strategy.ts, role, membership and invitation services).
 */
module OrganizationVersions {
  import opened Wrappers
  import opened Organizations
  import OrganizationTables

  /** What an access token speaks for: live roles, their permissions, and the attributes policies read. */
  datatype Snapshot = Snapshot(roles: set<RoleId>, slugs: set<string>, permissions: set<Permission>, attributes: Attributes)

  function Slugs(s: State, rs: set<RoleId>): set<string> {
    set r | r in rs && r in s.roles :: s.roles[r].slug
  }

  function TakeSnapshot(s: State, m: MembershipId): Snapshot
    requires m in s.memberships
  {
    Snapshot(LiveRoles(s, m), Slugs(s, LiveRoles(s, m)), Resolved(s, m), s.memberships[m].attributes)
  }

  ghost predicate Bumped(before: Membership, after: Membership) {
    before.permissionsVersion < after.permissionsVersion || before.attributesVersion < after.attributesVersion
  }

  ghost predicate Monotone(before: Membership, after: Membership) {
    && after.userId == before.userId && after.orgId == before.orgId && after.joinedAt == before.joinedAt
    && before.permissionsVersion <= after.permissionsVersion && before.attributesVersion <= after.attributesVersion
  }

  /**
    Across a step or a run: counters never go down, and if neither moved and the membership is
    live afterwards, it was live before and its snapshot is the same.
   */
  ghost predicate Witnessed(s: State, s': State, m: MembershipId)
    requires m in s.memberships
  {
    && m in s'.memberships
    && Monotone(s.memberships[m], s'.memberships[m])
    && (s'.memberships[m].deleted || Bumped(s.memberships[m], s'.memberships[m])
        || (!s.memberships[m].deleted && TakeSnapshot(s', m) == TakeSnapshot(s, m)))
  }

  lemma WitnessedIsTransitive(s: State, s1: State, s2: State, m: MembershipId)
    requires m in s.memberships && Witnessed(s, s1, m) && Witnessed(s1, s2, m)
    ensures Witnessed(s, s2, m)
  {
  }

  /** The rows a membership's roles and permissions are computed from are the same. */
  ghost predicate SameAccessRows(s: State, s': State, m: MembershipId) {
    && (forall r :: Assignment(m, r) in s'.assignments <==> Assignment(m, r) in s.assignments)
    && (forall r :: Assignment(m, r) in s.assignments ==> r in s.roles && r in s'.roles && s'.roles[r] == s.roles[r])
    && (forall g: Grant :: Assignment(m, g.role) in s.assignments ==> (g in s'.grants <==> g in s.grants))
    && (forall g :: g in s.grants ==> g.permission in s.permissions && (g in s'.grants ==> g.permission in s'.permissions && s'.permissions[g.permission] == s.permissions[g.permission]))
  }

  lemma SameRowsSameAccess(s: State, s': State, m: MembershipId)
    requires SameAccessRows(s, s', m)
    ensures LiveRoles(s', m) == LiveRoles(s, m) && Slugs(s', LiveRoles(s', m)) == Slugs(s, LiveRoles(s, m))
    ensures Resolved(s', m) == Resolved(s, m)
  {
    var rs := LiveRoles(s, m);
    assert LiveRoles(s', m) == rs;
    forall p | p in PermissionsOf(s, rs) ensures p in PermissionsOf(s', rs) {
      var g :| g in s.grants && g.role in rs && g.permission in s.permissions && s.permissions[g.permission] == p;
      assert g in s'.grants;
    }
    forall p | p in PermissionsOf(s', rs) ensures p in PermissionsOf(s, rs) {
      var g :| g in s'.grants && g.role in rs && g.permission in s'.permissions && s'.permissions[g.permission] == p;
      assert g in s.grants;
    }
  }

  lemma SameRowsWitnessed(s: State, s': State, m: MembershipId)
    requires SameAccessRows(s, s', m)
    requires m in s.memberships && m in s'.memberships && Monotone(s.memberships[m], s'.memberships[m])
    requires s'.memberships[m].attributes == s.memberships[m].attributes && (s.memberships[m].deleted ==> s'.memberships[m].deleted)
    ensures Witnessed(s, s', m)
  {
    SameRowsSameAccess(s, s', m);
  }

  // ---------------------------------------------------------------- one step

  lemma RoleChangedRows(s: State, s': State, r: RoleId, m: MembershipId)
    requires ForeignKeys(s) && m in s.memberships && Assignment(m, r) !in s.assignments
    requires s'.assignments == s.assignments && s'.permissions == s.permissions
    requires r in s.roles && s'.roles.Keys == s.roles.Keys && (forall x :: x in s.roles && x != r ==> s'.roles[x] == s.roles[x])
    requires forall g: Grant :: g.role != r ==> (g in s'.grants <==> g in s.grants)
    requires forall g :: g in s'.grants ==> g.permission in s.permissions
    ensures SameAccessRows(s, s', m)
  {
  }

  lemma RemoveRoleWitnessed(s: State, r: RoleId, deleteOk: bool, m: MembershipId)
    requires Inv(s) && m in s.memberships
    ensures Witnessed(s, RemoveRole(s, r, deleteOk).0, m)
  {
    var s' := RemoveRole(s, r, deleteOk).0;
    if s' != s && m !in Holders(s, r) && !s.memberships[m].deleted {
      RoleChangedRows(s, s', r, m);
      SameRowsWitnessed(s, s', m);
    }
  }

  lemma SetPermissionsWitnessed(s: State, r: RoleId, ids: seq<PermissionId>, deleteOk: bool, m: MembershipId)
    requires Inv(s) && m in s.memberships
    ensures Witnessed(s, SetPermissions(s, r, ids, deleteOk).0, m)
  {
    var s' := SetPermissions(s, r, ids, deleteOk).0;
    if SetPermissions(s, r, ids, deleteOk).1.Ok? && m !in Holders(s, r) && !s.memberships[m].deleted {
      RoleChangedRows(s, s', r, m);
      SameRowsWitnessed(s, s', m);
    }
  }

  lemma ReassignedWitnessed(s: State, org: OrgId, target: MembershipId, assignments: set<Assignment>, deleteOk: bool, m: MembershipId)
    requires ForeignKeys(s) && m in s.memberships && target in s.memberships
    requires forall a: Assignment :: a.membership != target ==> (a in assignments <==> a in s.assignments)
    ensures Witnessed(s, Reassigned(s, org, target, assignments, deleteOk), m)
  {
    if m != target {
      SameRowsWitnessed(s, Reassigned(s, org, target, assignments, deleteOk), m);
    }
  }

  lemma CreateRoleWitnessed(s: State, scope: Option<OrgId>, slug: string, ids: seq<PermissionId>, m: MembershipId)
    requires Inv(s) && m in s.memberships
    ensures Witnessed(s, CreateRole(s, scope, slug, ids).0, m)
  {
    var s' := CreateRole(s, scope, slug, ids).0;
    assert forall r: RoleId :: Assignment(m, r) in s.assignments ==> r < s.next;
    SameRowsWitnessed(s, s', m);
  }

  lemma RoleOpWitnessed(rule: CommitRule, s: State, op: Op, m: MembershipId)
    requires Inv(s) && IsRoleOp(op) && m in s.memberships
    ensures Witnessed(s, Step(rule, s, op), m)
  {
    match op
    case OpCreateRole(scope, slug, ids) => CreateRoleWitnessed(s, scope, slug, ids, m);
    case OpRemoveRole(r, ok, _) => RemoveRoleWitnessed(s, r, ok, m);
    case OpSetPermissions(r, ids, ok, _) => SetPermissionsWitnessed(s, r, ids, ok, m);
    case OpAssignRole(org, target, r, ok, _) =>
      if AssignRole(s, org, target, r, ok).1.Ok? { ReassignedWitnessed(s, org, target, s.assignments + {Assignment(target, r)}, ok, m); }
    case OpRevokeRole(org, target, r, ok, _) =>
      if target in s.memberships { ReassignedWitnessed(s, org, target, s.assignments - {Assignment(target, r)}, ok, m); }
  }

  lemma JoinedWitnessed(s: State, inv: Invitation, u: UserId, now: Time, m: MembershipId)
    requires Inv(s) && m in s.memberships && (inv.role.Some? ==> inv.role.value in s.roles)
    ensures Witnessed(s, Joined(s, inv, u, now).0, m)
  {
    var (s', joined) := Joined(s, inv, u, now);
    if m != joined {
      SameRowsWitnessed(s, s', m);
    }
  }

  lemma AcceptWitnessed(rule: CommitRule, s: State, id: InvitationId, u: UserId, email: string, now: Time, m: MembershipId)
    requires Inv(s) && m in s.memberships
    ensures Witnessed(s, Accept(rule, s, id, u, email, now).0, m)
  {
    if id in s.invitations {
      var joined := Joined(s, s.invitations[id], u, now).0;
      JoinedWitnessed(s, s.invitations[id], u, now, m);
      var s' := Accept(rule, s, id, u, email, now).0;
      if m in s'.memberships && s'.memberships == joined.memberships && s'.assignments == joined.assignments {
        SameRowsSameAccessTwice(joined, s', m);
      }
    }
  }

  /** Invitation status and cache entries play no part in a snapshot. */
  lemma SameRowsSameAccessTwice(s: State, s': State, m: MembershipId)
    requires s'.memberships == s.memberships && s'.assignments == s.assignments && s'.roles == s.roles
    requires s'.grants == s.grants && s'.permissions == s.permissions && m in s.memberships
    ensures TakeSnapshot(s', m) == TakeSnapshot(s, m)
  {
  }

  lemma CreateOrgWitnessed(s: State, owner: UserId, slug: string, status: OrgStatus, now: Time, m: MembershipId)
    requires Inv(s) && m in s.memberships
    ensures Witnessed(s, CreateOrg(s, owner, slug, status, now).0, m)
  {
    SameRowsWitnessed(s, CreateOrg(s, owner, slug, status, now).0, m);
  }

  lemma UpdateAttributesWitnessed(s: State, org: OrgId, u: UserId, dto: MemberDto, m: MembershipId)
    requires Inv(s) && m in s.memberships
    ensures Witnessed(s, UpdateAttributes(s, org, u, dto).0, m)
  {
    var s' := UpdateAttributes(s, org, u, dto).0;
    SameRowsSameAccess(s, s', m);
  }

  lemma RemoveMemberWitnessed(s: State, org: OrgId, u: UserId, m: MembershipId)
    requires Inv(s) && m in s.memberships
    ensures Witnessed(s, RemoveMember(s, org, u).0, m)
  {
    SameRowsSameAccess(s, RemoveMember(s, org, u).0, m);
  }

  lemma PolicyChangedWitnessed(s: State, scope: Option<OrgId>, lost: set<OrgId>, m: MembershipId)
    requires Inv(s) && m in s.memberships
    ensures Witnessed(s, PolicyChanged(s, scope, lost), m)
  {
    SameRowsSameAccess(s, PolicyChanged(s, scope, lost), m);
  }

  lemma MemberOpWitnessed(rule: CommitRule, s: State, op: Op, m: MembershipId)
    requires Inv(s) && IsMemberOp(op) && m in s.memberships
    ensures Witnessed(s, Step(rule, s, op), m)
  {
    match op
    case OpCreateOrg(owner, slug, status, now) => CreateOrgWitnessed(s, owner, slug, status, now, m);
    case OpAccept(id, u, email, now) => AcceptWitnessed(rule, s, id, u, email, now, m);
    case OpUpdateAttributes(org, u, dto) => UpdateAttributesWitnessed(s, org, u, dto, m);
    case OpRemoveMember(org, u) => RemoveMemberWitnessed(s, org, u, m);
    case OpPolicyChanged(scope, lost) => PolicyChangedWitnessed(s, scope, lost, m);
  }

  /** Organization status, permission rows, cache fills and pending invitations touch no role, grant or membership. */
  lemma OtherOpKeepsRows(rule: CommitRule, s: State, op: Op)
    requires !IsRoleOp(op) && !IsMemberOp(op)
    ensures var s' := Step(rule, s, op);
            s'.memberships == s.memberships && s'.assignments == s.assignments && s'.roles == s.roles && s'.grants == s.grants
  {
    match op
    case OpUpdateOrgStatus(_, _) =>
    case OpSoftDeleteOrg(_) =>
    case OpCreatePermission(_, _) =>
    case OpRemovePermission(_) =>
    case OpResolve(_, _, _, _) =>
    case OpCreateInvitation(_, _, _, _, _) =>
    case OpRevokeInvitation(_, _) =>
  }

  /** A granted permission's row is never rewritten, and cannot be removed. */
  lemma OtherOpKeepsGranted(rule: CommitRule, s: State, op: Op)
    requires ForeignKeys(s) && BelowNext(s) && !IsRoleOp(op) && !IsMemberOp(op)
    ensures var s' := Step(rule, s, op);
            forall g :: g in s.grants ==> g.permission in s.permissions && g.permission in s'.permissions
                                          && s'.permissions[g.permission] == s.permissions[g.permission]
  {
    match op
    case OpUpdateOrgStatus(_, _) =>
    case OpSoftDeleteOrg(_) =>
    case OpCreatePermission(_, _) =>
    case OpRemovePermission(_) =>
    case OpResolve(_, _, _, _) =>
    case OpCreateInvitation(_, _, _, _, _) =>
    case OpRevokeInvitation(_, _) =>
  }

  lemma OtherOpSameAccess(rule: CommitRule, s: State, op: Op, m: MembershipId)
    requires ForeignKeys(s) && BelowNext(s) && !IsRoleOp(op) && !IsMemberOp(op)
    ensures SameAccessRows(s, Step(rule, s, op), m)
  {
    OtherOpKeepsRows(rule, s, op);
    OtherOpKeepsGranted(rule, s, op);
  }

  lemma OtherOpWitnessed(rule: CommitRule, s: State, op: Op, m: MembershipId)
    requires Inv(s) && !IsRoleOp(op) && !IsMemberOp(op) && m in s.memberships
    ensures Witnessed(s, Step(rule, s, op), m)
  {
    OtherOpKeepsRows(rule, s, op);
    OtherOpSameAccess(rule, s, op, m);
    SameRowsWitnessed(s, Step(rule, s, op), m);
  }

  lemma StepWitnessed(rule: CommitRule, s: State, op: Op, m: MembershipId)
    requires Inv(s) && m in s.memberships
    ensures Witnessed(s, Step(rule, s, op), m)
  {
    if IsRoleOp(op) {
      RoleOpWitnessed(rule, s, op, m);
    } else if IsMemberOp(op) {
      MemberOpWitnessed(rule, s, op, m);
    } else {
      OtherOpWitnessed(rule, s, op, m);
    }
  }

  // ---------------------------------------------------------------- every run

  lemma {:induction false} RunWitnessed(rule: CommitRule, s: State, ops: seq<Op>, m: MembershipId)
    requires Inv(s) && m in s.memberships
    ensures Witnessed(s, Run(rule, s, ops), m)
    decreases |ops|
  {
    if ops == [] {
      SameRowsWitnessed(s, s, m);
    } else {
      var s1 := Step(rule, s, ops[0]);
      StepWitnessed(rule, s, ops[0], m);
      OrganizationTables.StepKeepsInv(rule, s, ops[0]);
      RunWitnessed(rule, s1, ops[1..], m);
      WitnessedIsTransitive(s, s1, Run(rule, s1, ops[1..]), m);
    }
  }

  /**
    If a membership is live at the end of any run and shows both counters it had at the start,
    it was live at the start and its live roles, permissions and attributes are what they were.
    This covers removal followed by a new invitation, where only attributesVersion moves.
   */
  lemma EqualVersionsMeanNothingChanged(rule: CommitRule, s: State, ops: seq<Op>, m: MembershipId)
    requires Inv(s) && m in s.memberships
    requires var end := Run(rule, s, ops);
             && LiveMember(end, m)
             && end.memberships[m].permissionsVersion == s.memberships[m].permissionsVersion
             && end.memberships[m].attributesVersion == s.memberships[m].attributesVersion
    ensures LiveMember(s, m) && TakeSnapshot(Run(rule, s, ops), m) == TakeSnapshot(s, m)
  {
    RunWitnessed(rule, s, ops, m);
  }
}
