/**
  Names no run gives twice, protected roles no run removes, and what changes a membership's columns
  (role.service.ts, permission.service.ts, organization.service.ts, membership.service.ts).
 */
module UniqueNames {
  import opened Wrappers
  import opened Organizations
  import OrganizationTables

  ghost predicate UniqueOrgSlugs(s: State) {
    forall a, b :: a in s.orgs && b in s.orgs && s.orgs[a].slug == s.orgs[b].slug ==> a == b
  }

  /** Within an organization a role slug is used once for ever; among global roles once at a time. */
  ghost predicate UniqueRoleSlugs(s: State) {
    forall a, b :: a in s.roles && b in s.roles && a != b && s.roles[a].orgId == s.roles[b].orgId && s.roles[a].slug == s.roles[b].slug
      ==> s.roles[a].orgId.None? && (s.roles[a].deleted || s.roles[b].deleted)
  }

  ghost predicate UniquePermissions(s: State) {
    forall a, b :: a in s.permissions && b in s.permissions && s.permissions[a] == s.permissions[b] ==> a == b
  }

  ghost predicate NamesAreUnique(s: State) {
    UniqueOrgSlugs(s) && UniqueRoleSlugs(s) && UniquePermissions(s)
  }

  /** Rows with the same names; roles may have been deleted, but no protected one. */
  ghost predicate SameNames(s: State, s': State) {
    && s'.orgs.Keys == s.orgs.Keys && (forall o :: o in s.orgs ==> s'.orgs[o].slug == s.orgs[o].slug)
    && s'.roles.Keys == s.roles.Keys && (forall r :: r in s.roles ==> RoleLater(s.roles[r], s'.roles[r]))
    && (forall p :: p in s'.permissions ==> p in s.permissions && s'.permissions[p] == s.permissions[p])
  }

  predicate RoleLater(before: Role, after: Role) {
    after.(deleted := false) == before.(deleted := false) && (before.deleted ==> after.deleted)
    && (before.isSystem ==> after.deleted == before.deleted)
  }

  lemma SameNamesStayUnique(s: State, s': State)
    requires NamesAreUnique(s) && SameNames(s, s')
    ensures NamesAreUnique(s')
  {
  }

  predicate Names(op: Op) {
    op.OpCreateOrg? || op.OpCreateRole? || op.OpCreatePermission?
  }

  lemma RoleOpKeepsNames(rule: CommitRule, s: State, op: Op)
    requires IsRoleOp(op) && !Names(op)
    ensures var s' := Step(rule, s, op);
            && s'.orgs == s.orgs && s'.permissions == s.permissions
            && (s'.roles == s.roles
                || (op.OpRemoveRole? && op.role in s.roles && !s.roles[op.role].isSystem
                    && s'.roles == s.roles[op.role := s.roles[op.role].(deleted := true)]))
  {
    match op
    case OpRemoveRole(r, ok, now) =>
    case OpSetPermissions(r, ids, ok, now) =>
    case OpAssignRole(org, m, r, ok, now) =>
    case OpRevokeRole(org, m, r, ok, now) =>
  }

  lemma MemberOpKeepsNames(rule: CommitRule, s: State, op: Op)
    requires IsMemberOp(op) && !Names(op)
    ensures var s' := Step(rule, s, op); s'.orgs == s.orgs && s'.permissions == s.permissions && s'.roles == s.roles
  {
    match op
    case OpAccept(id, u, email, now) =>
    case OpUpdateAttributes(org, u, dto) =>
    case OpRemoveMember(org, u) =>
    case OpPolicyChanged(scope, lost) =>
  }

  lemma OtherOpKeepsNames(rule: CommitRule, s: State, op: Op)
    requires !IsRoleOp(op) && !IsMemberOp(op) && !Names(op)
    ensures var s' := Step(rule, s, op);
            && s'.roles == s.roles && (s'.permissions == s.permissions || (op.OpRemovePermission? && s'.permissions == s.permissions - {op.permission}))
  {
    match op
    case OpUpdateOrgStatus(org, status) =>
    case OpSoftDeleteOrg(org) =>
    case OpRemovePermission(p) =>
    case OpResolve(m, loaded, health, now) =>
    case OpCreateInvitation(org, email, role, attributes, now) =>
    case OpRevokeInvitation(id, org) =>
  }

  lemma OtherOpKeepsOrgSlugs(rule: CommitRule, s: State, op: Op)
    requires !IsRoleOp(op) && !IsMemberOp(op) && !Names(op)
    ensures var s' := Step(rule, s, op); s'.orgs.Keys == s.orgs.Keys && forall o :: o in s.orgs ==> s'.orgs[o].slug == s.orgs[o].slug
  {
    match op
    case OpUpdateOrgStatus(org, status) =>
    case OpSoftDeleteOrg(org) =>
    case OpRemovePermission(p) =>
    case OpResolve(m, loaded, health, now) =>
    case OpCreateInvitation(org, email, role, attributes, now) =>
    case OpRevokeInvitation(id, org) =>
  }

  lemma StepKeepsNames(rule: CommitRule, s: State, op: Op)
    requires !Names(op)
    ensures SameNames(s, Step(rule, s, op))
  {
    if IsRoleOp(op) {
      RoleOpKeepsNames(rule, s, op);
    } else if IsMemberOp(op) {
      MemberOpKeepsNames(rule, s, op);
    } else {
      OtherOpKeepsNames(rule, s, op);
      OtherOpKeepsOrgSlugs(rule, s, op);
    }
  }

  lemma CreationKeepsNamesUnique(rule: CommitRule, s: State, op: Op)
    requires NamesAreUnique(s) && Names(op)
    ensures NamesAreUnique(Step(rule, s, op))
  {
    match op
    case OpCreateOrg(owner, slug, status, now) => CreateOrgKeepsNamesUnique(s, owner, slug, status, now);
    case OpCreateRole(scope, slug, ids) => CreateRoleKeepsNamesUnique(s, scope, slug, ids);
    case OpCreatePermission(resource, action) => CreatePermissionKeepsNamesUnique(s, resource, action);
  }

  lemma CreateOrgKeepsNamesUnique(s: State, owner: UserId, slug: string, status: OrgStatus, now: Time)
    requires NamesAreUnique(s)
    ensures NamesAreUnique(CreateOrg(s, owner, slug, status, now).0)
  {
  }

  lemma CreateRoleKeepsNamesUnique(s: State, scope: Option<OrgId>, slug: string, ids: seq<PermissionId>)
    requires NamesAreUnique(s)
    ensures NamesAreUnique(CreateRole(s, scope, slug, ids).0)
  {
  }

  lemma CreatePermissionKeepsNamesUnique(s: State, resource: string, action: string)
    requires NamesAreUnique(s)
    ensures NamesAreUnique(CreatePermission(s, resource, action))
  {
  }

  /** No run gives one slug to two organizations or, in one scope, two live roles, or one name to two permissions. */
  lemma {:induction false} RunKeepsNamesUnique(rule: CommitRule, s: State, ops: seq<Op>)
    requires NamesAreUnique(s)
    ensures NamesAreUnique(Run(rule, s, ops))
    decreases |ops|
  {
    if ops != [] {
      if Names(ops[0]) {
        CreationKeepsNamesUnique(rule, s, ops[0]);
      } else {
        StepKeepsNames(rule, s, ops[0]);
        SameNamesStayUnique(s, Step(rule, s, ops[0]));
      }
      RunKeepsNamesUnique(rule, Step(rule, s, ops[0]), ops[1..]);
    }
  }

  lemma CreationKeepsRoles(rule: CommitRule, s: State, op: Op)
    requires BelowNext(s) && Names(op)
    ensures forall r :: r in s.roles ==> r in Step(rule, s, op).roles && Step(rule, s, op).roles[r] == s.roles[r]
  {
    match op
    case OpCreateOrg(owner, slug, status, now) =>
    case OpCreateRole(scope, slug, ids) =>
    case OpCreatePermission(resource, action) =>
  }

  /** A protected role is never deleted or renamed, in any run. */
  lemma {:induction false} SystemRolesStay(rule: CommitRule, s: State, ops: seq<Op>, r: RoleId)
    requires BelowNext(s) && r in s.roles && s.roles[r].isSystem
    ensures r in Run(rule, s, ops).roles && Run(rule, s, ops).roles[r] == s.roles[r]
    decreases |ops|
  {
    if ops != [] {
      if Names(ops[0]) { CreationKeepsRoles(rule, s, ops[0]); } else { StepKeepsNames(rule, s, ops[0]); }
      assert !Names(ops[0]) ==> RoleLater(s.roles[r], Step(rule, s, ops[0]).roles[r]);
      OrganizationTables.StepKeepsBelowNext(rule, s, ops[0]);
      SystemRolesStay(rule, Step(rule, s, ops[0]), ops[1..], r);
    }
  }

  /** Creating a permission twice gives one row, and removal is accepted exactly for a row no role grants. */
  lemma PermissionRows(s: State, resource: string, action: string, p: PermissionId)
    requires Inv(s) && UniquePermissions(s)
    ensures var s' := CreatePermission(s, resource, action);
            && (exists q :: q in s'.permissions && s'.permissions[q] == Permission(resource, action))
            && (forall q :: q in s.permissions ==> q in s'.permissions && s'.permissions[q] == s.permissions[q])
            && CreatePermission(s', resource, action) == s'
    ensures var (s', outcome) := RemovePermission(s, p);
            && (outcome.Ok? <==> p in s.permissions && forall r :: r in s.roles ==> Grant(r, p) !in s.grants)
            && (outcome.Ok? ==> s'.permissions == s.permissions - {p}) && s' == s.(permissions := s'.permissions)
  {
    var s' := CreatePermission(s, resource, action);
    if s' != s { assert s'.permissions[s.next] == Permission(resource, action); }
    if g :| g in s.grants && g.permission == p { assert g == Grant(g.role, p); }
  }

  // ---------------------------------------------------------------- the columns of a membership

  predicate Given<T(==)>(p: Patch<T>, before: T, after: T) {
    after == if p.Set? then p.value else before
  }

  predicate GivenText(p: Patch<string>, before: Option<string>, after: Option<string>) {
    after == if p.Set? then Some(p.value) else before
  }

  ghost predicate IsLiveMemberOf(s: State, m: MembershipId, u: UserId, org: OrgId) {
    IsMembershipOf(s, m, u, org) && !s.memberships[m].deleted
  }

  /**
    An update is accepted exactly for a live member, sets the columns given a value, keeps the
    others, null included, and moves the attribute counter exactly when a column other than the
    status is mentioned.
   */
  lemma MemberUpdateIs(s: State, org: OrgId, u: UserId, dto: MemberDto, m: MembershipId)
    requires UniqueMemberships(s) && IsLiveMemberOf(s, m, u, org)
    ensures var (s', outcome) := UpdateAttributes(s, org, u, dto);
            var before, after := s.memberships[m], s'.memberships[m];
            && outcome == Ok(m) && s' == s.(memberships := s.memberships[m := after])
            && Given(dto.status, before.status, after.status)
            && GivenText(dto.department, before.attributes.department, after.attributes.department)
            && GivenText(dto.region, before.attributes.region, after.attributes.region)
            && GivenText(dto.jobTitle, before.attributes.jobTitle, after.attributes.jobTitle)
            && Given(dto.clearanceLevel, before.attributes.clearanceLevel, after.attributes.clearanceLevel)
            && after.(status := before.status, attributes := before.attributes, attributesVersion := before.attributesVersion) == before
            && after.attributesVersion == before.attributesVersion
               + if dto.department.Absent? && dto.region.Absent? && dto.jobTitle.Absent? && dto.clearanceLevel.Absent? then 0 else 1
  {
    FindMembershipIsUnique(s, m, u, org);
  }

  /** A removal is refused exactly for the holder of an admin slug while at most one admin row counts; it only marks the row. */
  lemma RemovalSucceedsIff(s: State, org: OrgId, u: UserId, m: MembershipId)
    requires UniqueMemberships(s) && IsLiveMemberOf(s, m, u, org)
    ensures var (s', outcome) := RemoveMember(s, org, u);
            && (outcome.Ok? <==> |AdminRows(s, org)| > 1 || forall r :: Assignment(m, r) in s.assignments && r in s.roles ==> s.roles[r].slug != ADMIN)
            && s' == if outcome.Ok? then s.(memberships := s.memberships[m := s.memberships[m].(status := MemberRemoved, deleted := true)]) else s
  {
    FindMembershipIsUnique(s, m, u, org);
    if a :| a in s.assignments && a.membership == m && a.role in s.roles && s.roles[a.role].slug == ADMIN {
      assert a == Assignment(m, a.role);
    }
  }

  /** Either is refused for anybody who is no live member. */
  lemma NonMembersAreRefused(s: State, org: OrgId, u: UserId, dto: MemberDto)
    requires forall m :: !IsLiveMemberOf(s, m, u, org)
    ensures UpdateAttributes(s, org, u, dto) == (s, Err(MembershipNotFound))
    ensures RemoveMember(s, org, u) == (s, Err(MembershipNotFound))
  {
    var found := FindMembership(s, u, org);
    if found.Some? { assert !IsLiveMemberOf(s, found.value, u, org); }
  }
}
