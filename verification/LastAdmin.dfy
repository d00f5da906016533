/**
  The last-admin rule: whether an organization always keeps an active administrator
  (src/modules/organizations/services/membership.service.ts, organization.service.ts).
 */
module LastAdminRule {
  import opened Wrappers
  import opened Organizations
  import OrganizationTables

  ghost predicate IsActiveAdmin(s: State, m: MembershipId, org: OrgId) {
    && LiveMember(s, m) && s.memberships[m].orgId == org && s.memberships[m].status.MemberActive?
    && exists r :: LiveRole(s, r) && s.roles[r].slug == ADMIN && Assignment(m, r) in s.assignments
  }

  ghost predicate HasAdmin(s: State, org: OrgId) {
    exists m :: IsActiveAdmin(s, m, org)
  }

  /** The rows the rule counts are there exactly when some membership is an active admin. */
  lemma AdminRowsMeanAdmin(s: State, org: OrgId)
    ensures HasAdmin(s, org) <==> AdminRows(s, org) != {}
  {
    if HasAdmin(s, org) {
      var m :| IsActiveAdmin(s, m, org);
      var r :| LiveRole(s, r) && s.roles[r].slug == ADMIN && Assignment(m, r) in s.assignments;
      assert Assignment(m, r) in AdminRows(s, org);
    }
    if a :| a in AdminRows(s, org) {
      assert Assignment(a.membership, a.role) == a;
      assert IsActiveAdmin(s, a.membership, org);
    }
  }

  /** The seeded role: global, protected, and the only live role whose slug is admin. */
  ghost predicate OnlySeededAdmin(s: State, seeded: RoleId) {
    && IsGlobalAdmin(s, seeded) && s.roles[seeded].isSystem
    && (forall r :: LiveRole(s, r) && s.roles[r].slug == ADMIN ==> r == seeded)
  }

  /** No second role with the admin slug is created. */
  predicate KeepsOneAdminRole(op: Op) {
    op.OpCreateRole? ==> op.slug != ADMIN
  }

  /** updateAttributes with a status other than active. */
  predicate Deactivates(op: Op) {
    op.OpUpdateAttributes? && op.dto.status.Set? && !op.dto.status.value.MemberActive?
  }

  /**
    What the caller of the two unguarded operations would have to check: a counted admin row is
    left in the organization. Member removal checks this itself, and nothing else can break it.
   */
  ghost predicate LeavesAdmin(s: State, op: Op, org: OrgId) {
    match op
    case OpRevokeRole(_, m, r, _, _) => AdminRows(s, org) - {Assignment(m, r)} != {}
    case OpUpdateAttributes(o, u, dto) =>
      Deactivates(op) && FindLive(s, u, o).Some? ==> exists a :: a in AdminRows(s, org) && a.membership != FindLive(s, u, o).value
    case _ => true
  }

  // ---------------------------------------------------------------- member removal

  /** With one admin role, a second counted row is a second admin. */
  lemma RemovalKeepsAdmin(s: State, seeded: RoleId, org: OrgId, u: UserId, o: OrgId)
    requires Inv(s) && OnlySeededAdmin(s, seeded) && HasAdmin(s, o)
    ensures HasAdmin(RemoveMember(s, org, u).0, o)
  {
    var (s', outcome) := RemoveMember(s, org, u);
    if outcome.Ok? {
      var m := FindLive(s, u, org).value;
      var admin :| IsActiveAdmin(s, admin, o);
      assert Assignment(admin, seeded) in AdminRows(s, o);
      if admin == m {
        assert o == org && HoldsAdminSlug(s, m) by { assert Assignment(m, seeded) in s.assignments; }
        assert |AdminRows(s, org)| >= 2;
        var other := AnotherRow(AdminRows(s, org), Assignment(m, seeded));
        assert other.role == seeded && Assignment(other.membership, seeded) == other;
        assert IsActiveAdmin(s', other.membership, o);
      } else {
        assert IsActiveAdmin(s', admin, o);
      }
    }
  }

  lemma AnotherRow(rows: set<Assignment>, a: Assignment) returns (b: Assignment)
    requires a in rows && |rows| >= 2
    ensures b in rows && b != a
  {
    assert |rows - {a}| >= 1;
    b :| b in rows - {a};
  }

  // ---------------------------------------------------------------- other operations

  /** An active admin's rows are still there. */
  ghost predicate AdminRowsKept(s: State, s': State, m: MembershipId, seeded: RoleId) {
    && m in s.memberships && m in s'.memberships
    && s'.memberships[m].orgId == s.memberships[m].orgId
    && (LiveMember(s, m) && s.memberships[m].status.MemberActive? ==> LiveMember(s', m) && s'.memberships[m].status.MemberActive?)
    && (Assignment(m, seeded) in s.assignments ==> Assignment(m, seeded) in s'.assignments)
  }

  lemma AdminStays(s: State, s': State, m: MembershipId, seeded: RoleId, org: OrgId)
    requires OnlySeededAdmin(s, seeded) && IsActiveAdmin(s, m, org)
    requires AdminRowsKept(s, s', m, seeded) && IsGlobalAdmin(s', seeded)
    ensures HasAdmin(s', org)
  {
    assert Assignment(m, seeded) in s'.assignments;
    assert IsActiveAdmin(s', m, org);
  }

  lemma RoleOpKeepsRows(rule: CommitRule, s: State, op: Op, m: MembershipId, seeded: RoleId)
    requires IsRoleOp(op) && !op.OpRevokeRole? && m in s.memberships
    ensures AdminRowsKept(s, Step(rule, s, op), m, seeded)
  {
    match op
    case OpCreateRole(_, _, _) =>
    case OpRemoveRole(_, _, _) =>
    case OpSetPermissions(_, _, _, _) =>
    case OpAssignRole(_, _, _, _, _) =>
  }

  lemma AcceptKeepsRows(rule: CommitRule, s: State, id: InvitationId, u: UserId, email: string, now: Time, m: MembershipId, seeded: RoleId)
    requires BelowNext(s) && m in s.memberships
    ensures AdminRowsKept(s, Accept(rule, s, id, u, email, now).0, m, seeded)
  {
  }

  lemma OtherOpKeepsRows(rule: CommitRule, s: State, op: Op, m: MembershipId, seeded: RoleId)
    requires BelowNext(s) && !IsRoleOp(op) && !op.OpRemoveMember? && !op.OpAccept? && !Deactivates(op) && m in s.memberships
    ensures AdminRowsKept(s, Step(rule, s, op), m, seeded)
  {
    match op
    case OpCreateOrg(_, _, _, _) =>
    case OpUpdateAttributes(_, _, _) =>
    case OpPolicyChanged(_, _) =>
    case OpUpdateOrgStatus(_, _) =>
    case OpSoftDeleteOrg(_) =>
    case OpCreatePermission(_, _) =>
    case OpRemovePermission(_) =>
    case OpResolve(_, _, _, _) =>
    case OpCreateInvitation(_, _, _, _, _) =>
    case OpRevokeInvitation(_, _) =>
  }

  lemma StepKeepsRows(rule: CommitRule, s: State, op: Op, m: MembershipId, seeded: RoleId)
    requires BelowNext(s) && !op.OpRemoveMember? && !op.OpRevokeRole? && !Deactivates(op) && m in s.memberships
    ensures AdminRowsKept(s, Step(rule, s, op), m, seeded)
  {
    if IsRoleOp(op) {
      RoleOpKeepsRows(rule, s, op, m, seeded);
    } else if op.OpAccept? {
      AcceptKeepsRows(rule, s, op.invitation, op.user, op.email, op.now, m, seeded);
    } else {
      OtherOpKeepsRows(rule, s, op, m, seeded);
    }
  }

  /** Only createRole touches the set of live admin roles, and a system role cannot be removed. */
  lemma StepKeepsSeeded(rule: CommitRule, s: State, op: Op, seeded: RoleId)
    requires BelowNext(s) && OnlySeededAdmin(s, seeded) && KeepsOneAdminRole(op)
    ensures OnlySeededAdmin(Step(rule, s, op), seeded)
  {
    var s' := Step(rule, s, op);
    if op.OpCreateRole? || op.OpRemoveRole? {
    } else {
      RolesUntouched(rule, s, op);
    }
  }

  lemma RolesUntouched(rule: CommitRule, s: State, op: Op)
    requires !op.OpCreateRole? && !op.OpRemoveRole?
    ensures Step(rule, s, op).roles == s.roles
  {
    match op
    case OpCreateOrg(_, _, _, _) =>
    case OpSetPermissions(_, _, _, _) =>
    case OpAssignRole(_, _, _, _, _) =>
    case OpRevokeRole(_, _, _, _, _) =>
    case OpUpdateAttributes(_, _, _) =>
    case OpRemoveMember(_, _) =>
    case OpAccept(_, _, _, _) =>
    case OpPolicyChanged(_, _) =>
    case OpUpdateOrgStatus(_, _) =>
    case OpSoftDeleteOrg(_) =>
    case OpCreatePermission(_, _) =>
    case OpRemovePermission(_) =>
    case OpResolve(_, _, _, _) =>
    case OpCreateInvitation(_, _, _, _, _) =>
    case OpRevokeInvitation(_, _) =>
  }

  lemma CreateOrgGivesAdmin(s: State, seeded: RoleId, owner: UserId, slug: string, status: OrgStatus, now: Time)
    requires OnlySeededAdmin(s, seeded) && CreateOrg(s, owner, slug, status, now).1.Ok?
    ensures HasAdmin(CreateOrg(s, owner, slug, status, now).0, CreateOrg(s, owner, slug, status, now).1.value)
  {
    var s' := CreateOrg(s, owner, slug, status, now).0;
    assert FindGlobalAdmin(s) == Some(seeded);
    assert Assignment(s.next + 1, seeded) in s'.assignments;
    assert IsActiveAdmin(s', s.next + 1, s.next);
  }

  lemma NewOrgsComeFromCreateOrg(rule: CommitRule, s: State, op: Op, o: OrgId)
    requires o in Step(rule, s, op).orgs && o !in s.orgs
    ensures op.OpCreateOrg? && CreateOrg(s, op.owner, op.slug, op.orgStatus, op.now).1 == Ok(o)
  {
  }

  // ---------------------------------------------------------------- losing an admin, exactly

  /** When member m stops being active, an admin remains exactly if some counted row is another member's. */
  lemma DeactivatingKeepsAdminIff(s: State, s': State, m: MembershipId, org: OrgId)
    requires m in s.memberships && m in s'.memberships && s' == s.(memberships := s.memberships[m := s'.memberships[m]])
    requires s'.memberships[m].deleted || !s'.memberships[m].status.MemberActive?
    ensures HasAdmin(s', org) <==> exists a :: a in AdminRows(s, org) && a.membership != m
  {
    AdminRowsMeanAdmin(s', org);
    assert forall a :: a in AdminRows(s', org) <==> a in AdminRows(s, org) && a.membership != m;
  }

  /**
    Member removal with any number of admin roles. The code compares a count of role rows, so the
    organization keeps an admin exactly if one of the counted rows is another member's.
   */
  lemma RemovalKeepsAdminIff(s: State, org: OrgId, u: UserId)
    requires RemoveMember(s, org, u).1.Ok?
    ensures HasAdmin(RemoveMember(s, org, u).0, org)
            <==> exists a :: a in AdminRows(s, org) && a.membership != FindLive(s, u, org).value
  {
    DeactivatingKeepsAdminIff(s, RemoveMember(s, org, u).0, FindLive(s, u, org).value, org);
  }

  /** Suspending a member through updateAttributes has no last-admin check. */
  lemma SuspensionKeepsAdminIff(s: State, org: OrgId, u: UserId, dto: MemberDto)
    requires UpdateAttributes(s, org, u, dto).1.Ok? && dto.status.Set? && !dto.status.value.MemberActive?
    ensures HasAdmin(UpdateAttributes(s, org, u, dto).0, org)
            <==> exists a :: a in AdminRows(s, org) && a.membership != FindLive(s, u, org).value
  {
    DeactivatingKeepsAdminIff(s, UpdateAttributes(s, org, u, dto).0, FindLive(s, u, org).value, org);
  }

  /** Nor does revoking a role. */
  lemma RevocationKeepsAdminIff(s: State, org: OrgId, m: MembershipId, r: RoleId, deleteOk: bool, o: OrgId)
    requires RevokeRole(s, org, m, r, deleteOk).1.Ok?
    ensures HasAdmin(RevokeRole(s, org, m, r, deleteOk).0, o) <==> AdminRows(s, o) - {Assignment(m, r)} != {}
  {
    var s' := RevokeRole(s, org, m, r, deleteOk).0;
    AdminRowsMeanAdmin(s', o);
    assert AdminRows(s', o) == AdminRows(s, o) - {Assignment(m, r)};
  }

  // ---------------------------------------------------------------- every run

  lemma DeactivationKeepsAdminIff(s: State, org: OrgId, u: UserId, dto: MemberDto, o: OrgId)
    requires dto.status.Set? && !dto.status.value.MemberActive? && HasAdmin(s, o)
    ensures HasAdmin(UpdateAttributes(s, org, u, dto).0, o)
            <==> (FindLive(s, u, org).Some? ==> exists a :: a in AdminRows(s, o) && a.membership != FindLive(s, u, org).value)
  {
    if FindLive(s, u, org).Some? {
      DeactivatingKeepsAdminIff(s, UpdateAttributes(s, org, u, dto).0, FindLive(s, u, org).value, o);
    }
  }

  lemma RoleRevocationKeepsAdminIff(s: State, org: OrgId, m: MembershipId, r: RoleId, deleteOk: bool, o: OrgId)
    requires HasAdmin(s, o)
    ensures HasAdmin(RevokeRole(s, org, m, r, deleteOk).0, o) <==> AdminRows(s, o) - {Assignment(m, r)} != {}
  {
    if m in s.memberships {
      RevocationKeepsAdminIff(s, org, m, r, deleteOk, o);
    } else {
      AdminRowsMeanAdmin(s, o);
      assert AdminRows(s, o) - {Assignment(m, r)} == AdminRows(s, o);
    }
  }

  /** Under one admin role, a step leaves an organization's admin exactly if the caller's check holds. */
  lemma StepKeepsAdminIff(rule: CommitRule, s: State, op: Op, seeded: RoleId, o: OrgId)
    requires Inv(s) && OnlySeededAdmin(s, seeded) && HasAdmin(s, o) && KeepsOneAdminRole(op)
    ensures HasAdmin(Step(rule, s, op), o) <==> LeavesAdmin(s, op, o)
  {
    if op.OpRemoveMember? {
      RemovalKeepsAdmin(s, seeded, op.org, op.user, o);
    } else if op.OpRevokeRole? {
      RoleRevocationKeepsAdminIff(s, op.org, op.membership, op.role, op.deleteOk, o);
    } else if Deactivates(op) {
      DeactivationKeepsAdminIff(s, op.org, op.user, op.dto, o);
    } else {
      var m :| IsActiveAdmin(s, m, o);
      StepKeepsRows(rule, s, op, m, seeded);
      StepKeepsSeeded(rule, s, op, seeded);
      AdminStays(s, Step(rule, s, op), m, seeded, o);
    }
  }

  ghost predicate LeavesAdminThroughout(rule: CommitRule, s: State, ops: seq<Op>, o: OrgId)
    decreases |ops|
  {
    ops != [] ==> (o in s.orgs ==> LeavesAdmin(s, ops[0], o)) && LeavesAdminThroughout(rule, Step(rule, s, ops[0]), ops[1..], o)
  }

  /**
    While the seeded role stays the only admin role: over every run whose suspensions and role
    revocations leave the organization an admin row, it has an active, non-deleted administrator
    at the end if it had one at the start or was created on the way.
   */
  lemma {:induction false} OrganizationsKeepAnAdmin(rule: CommitRule, s: State, ops: seq<Op>, seeded: RoleId, o: OrgId)
    requires Inv(s) && OnlySeededAdmin(s, seeded) && (o in s.orgs ==> HasAdmin(s, o))
    requires forall i :: 0 <= i < |ops| ==> KeepsOneAdminRole(ops[i])
    requires LeavesAdminThroughout(rule, s, ops, o)
    ensures o in Run(rule, s, ops).orgs ==> HasAdmin(Run(rule, s, ops), o)
    decreases |ops|
  {
    if ops != [] {
      var s1 := Step(rule, s, ops[0]);
      StepGivesOrKeepsAdmin(rule, s, ops[0], seeded, o);
      StepKeepsSeeded(rule, s, ops[0], seeded);
      OrganizationTables.StepKeepsInv(rule, s, ops[0]);
      OrganizationsKeepAnAdmin(rule, s1, ops[1..], seeded, o);
    }
  }

  lemma StepGivesOrKeepsAdmin(rule: CommitRule, s: State, op: Op, seeded: RoleId, o: OrgId)
    requires Inv(s) && OnlySeededAdmin(s, seeded) && (o in s.orgs ==> HasAdmin(s, o) && LeavesAdmin(s, op, o)) && KeepsOneAdminRole(op)
    ensures o in Step(rule, s, op).orgs ==> HasAdmin(Step(rule, s, op), o)
  {
    if o in s.orgs {
      StepKeepsAdminIff(rule, s, op, seeded, o);
    } else if o in Step(rule, s, op).orgs {
      NewOrgsComeFromCreateOrg(rule, s, op, o);
      CreateOrgGivesAdmin(s, seeded, op.owner, op.slug, op.orgStatus, op.now);
    }
  }

  /** One member holding the global and an organization's own admin role counts as two rows. */
  function TwoAdminRolesExample(): State {
    Init.(orgs := map[0 := Organization("acme", OrgActive, false)],
          memberships := map[1 := Membership(7, 0, MemberActive, NO_ATTRIBUTES, 1, 1, 0, false)],
          roles := map[2 := Role(None, ADMIN, true, false), 3 := Role(Some(0), ADMIN, false, false)],
          assignments := {Assignment(1, 2), Assignment(1, 3)}, next := 4)
  }

  lemma TwoAdminRolesDefeatTheGuard()
    ensures var s := TwoAdminRolesExample();
            Inv(s) && HasAdmin(s, 0) && RemoveMember(s, 0, 7).1.Ok? && !HasAdmin(RemoveMember(s, 0, 7).0, 0)
  {
    var s := TwoAdminRolesExample();
    FindMembershipIsUnique(s, 1, 7, 0);
    assert AdminRows(s, 0) == {Assignment(1, 2), Assignment(1, 3)};
    AdminRowsMeanAdmin(s, 0);
    RemovalKeepsAdminIff(s, 0, 7);
  }
}
