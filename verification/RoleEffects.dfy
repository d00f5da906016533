/**
  What the role operations do to what members may do: every member's permissions after every
  operation, and that roles stay within their organization
  (src/modules/authorization/services/role.service.ts).
 */
module RoleEffects {
  import opened Wrappers
  import opened Organizations
  import OrganizationTables
  import V = OrganizationVersions
  import Invitations

  /** The permissions the ids name. */
  function Named(s: State, ids: seq<PermissionId>): set<Permission> {
    set i | 0 <= i < |ids| && ids[i] in s.permissions :: s.permissions[ids[i]]
  }

  predicate MayAssign(s: State, org: OrgId, m: MembershipId, r: RoleId) {
    m in s.memberships && r in s.roles && !s.roles[r].deleted && (s.roles[r].orgId.None? || s.roles[r].orgId.value == org)
  }

  predicate MayRemove(s: State, r: RoleId) {
    r in s.roles && !s.roles[r].deleted && !s.roles[r].isSystem
  }

  predicate MaySetPermissions(s: State, r: RoleId, ids: seq<PermissionId>) {
    r in s.roles && !s.roles[r].deleted && forall i :: 0 <= i < |ids| ==> ids[i] in s.permissions
  }

  /** The live roles of m after the operation. */
  ghost function RolesAfter(s: State, op: Op, m: MembershipId): set<RoleId> {
    match op
    case OpAssignRole(org, n, r, _, _) => if n == m && MayAssign(s, org, n, r) then LiveRoles(s, m) + {r} else LiveRoles(s, m)
    case OpRevokeRole(_, n, r, _, _) => if n == m then LiveRoles(s, m) - {r} else LiveRoles(s, m)
    case OpRemoveRole(r, _, _) => if MayRemove(s, r) then LiveRoles(s, m) - {r} else LiveRoles(s, m)
    case OpAccept(id, u, email, now) =>
      if Invitations.OpenFor(s, id, email, now) && IsMembershipOf(s, m, u, s.invitations[id].orgId)
         && s.invitations[id].role.Some? && LiveRole(s, s.invitations[id].role.value)
      then LiveRoles(s, m) + {s.invitations[id].role.value}
      else LiveRoles(s, m)
    case _ => LiveRoles(s, m)
  }

  /** The permissions of m after the operation: those of its roles, where replaced ones count. */
  ghost function AccessAfter(s: State, op: Op, m: MembershipId): set<Permission> {
    var roles := RolesAfter(s, op, m);
    if op.OpSetPermissions? && MaySetPermissions(s, op.role, op.ids) && op.role in roles
    then PermissionsOf(s, roles - {op.role}) + Named(s, op.ids)
    else PermissionsOf(s, roles)
  }

  lemma SetPermissionsEffect(s: State, r: RoleId, ids: seq<PermissionId>, ok: bool, rs: set<RoleId>)
    requires ForeignKeys(s) && MaySetPermissions(s, r, ids)
    ensures PermissionsOf(SetPermissions(s, r, ids, ok).0, rs) == if r in rs then PermissionsOf(s, rs - {r}) + Named(s, ids) else PermissionsOf(s, rs)
  {
    var s' := SetPermissions(s, r, ids, ok).0;
    assert forall g: Grant :: g.role != r ==> (g in s'.grants <==> g in s.grants);
    assert forall p :: Grant(r, p) in s'.grants <==> p in ids;
    forall p | p in PermissionsOf(s, rs - {r}) ensures p in PermissionsOf(s', rs) {
      var g :| g in s.grants && g.role in rs - {r} && g.permission in s.permissions && s.permissions[g.permission] == p;
      assert g in s'.grants;
    }
    if r in rs {
      forall p | p in Named(s, ids) ensures p in PermissionsOf(s', rs) {
        var i :| 0 <= i < |ids| && ids[i] in s.permissions && s.permissions[ids[i]] == p;
        assert Grant(r, ids[i]) in s'.grants;
      }
    }
    forall p | p in PermissionsOf(s', rs) ensures p in PermissionsOf(s, rs - {r}) || (r in rs && p in Named(s, ids)) {
      var g :| g in s'.grants && g.role in rs && g.permission in s.permissions && s.permissions[g.permission] == p;
      if g.role != r { assert g in s.grants; } else { var i :| 0 <= i < |ids| && ids[i] == g.permission; }
    }
    if r !in rs { assert rs - {r} == rs; }
  }

  lemma SetPermissionsAccess(rule: CommitRule, s: State, op: Op, m: MembershipId)
    requires Inv(s) && op.OpSetPermissions? && m in s.memberships
    ensures LiveRoles(Step(rule, s, op), m) == RolesAfter(s, op, m) && Resolved(Step(rule, s, op), m) == AccessAfter(s, op, m)
  {
    if MaySetPermissions(s, op.role, op.ids) {
      assert LiveRoles(Step(rule, s, op), m) == LiveRoles(s, m);
      SetPermissionsEffect(s, op.role, op.ids, op.deleteOk, LiveRoles(s, m));
    } else {
      assert Step(rule, s, op) == s;
    }
  }

  lemma AssignmentAccess(rule: CommitRule, s: State, op: Op, m: MembershipId)
    requires (op.OpAssignRole? || op.OpRevokeRole? || op.OpRemoveRole?) && m in s.memberships
    ensures LiveRoles(Step(rule, s, op), m) == RolesAfter(s, op, m)
    ensures Step(rule, s, op).grants == s.grants && Step(rule, s, op).permissions == s.permissions
  {
    match op
    case OpAssignRole(org, n, r, ok, now) => AssignAccess(s, org, n, r, ok, m);
    case OpRevokeRole(org, n, r, ok, now) => RevokeAccess(s, org, n, r, ok, m);
    case OpRemoveRole(r, ok, now) => RemoveAccess(s, r, ok, m);
  }

  lemma AssignAccess(s: State, org: OrgId, n: MembershipId, r: RoleId, ok: bool, m: MembershipId)
    ensures var s' := AssignRole(s, org, n, r, ok).0;
            && s'.grants == s.grants && s'.permissions == s.permissions
            && LiveRoles(s', m) == if n == m && MayAssign(s, org, n, r) then LiveRoles(s, m) + {r} else LiveRoles(s, m)
  {
  }

  lemma RevokeAccess(s: State, org: OrgId, n: MembershipId, r: RoleId, ok: bool, m: MembershipId)
    requires m in s.memberships
    ensures var s' := RevokeRole(s, org, n, r, ok).0;
            && s'.grants == s.grants && s'.permissions == s.permissions
            && LiveRoles(s', m) == if n == m then LiveRoles(s, m) - {r} else LiveRoles(s, m)
  {
  }

  lemma RemoveAccess(s: State, r: RoleId, ok: bool, m: MembershipId)
    ensures var s' := RemoveRole(s, r, ok).0;
            && s'.grants == s.grants && s'.permissions == s.permissions
            && LiveRoles(s', m) == if MayRemove(s, r) then LiveRoles(s, m) - {r} else LiveRoles(s, m)
  {
  }

  lemma AcceptAccess(rule: CommitRule, s: State, op: Op, m: MembershipId)
    requires Inv(s) && op.OpAccept? && m in s.memberships
    ensures LiveRoles(Step(rule, s, op), m) == RolesAfter(s, op, m)
    ensures Step(rule, s, op).grants == s.grants && Step(rule, s, op).permissions == s.permissions
  {
    Invitations.AcceptSucceedsIff(rule, s, op.invitation, op.user, op.email, op.now);
    if Invitations.OpenFor(s, op.invitation, op.email, op.now) {
      Invitations.AcceptedMember(rule, s, op.invitation, op.user, op.email, op.now);
      AcceptedRoles(s, Step(rule, s, op), op.invitation, op.user, Accept(rule, s, op.invitation, op.user, op.email, op.now).1.value, m);
    } else {
      RefusedAcceptKeeps(rule, s, op.invitation, op.user, op.email, op.now);
    }
  }

  lemma AcceptedRoles(s: State, s': State, id: InvitationId, u: UserId, joined: MembershipId, m: MembershipId)
    requires id in s.invitations && m in s.memberships && s'.roles == s.roles
    requires s'.assignments == s.assignments + (if s.invitations[id].role.Some? then {Assignment(joined, s.invitations[id].role.value)} else {})
    requires joined in s.memberships ==> IsMembershipOf(s, joined, u, s.invitations[id].orgId)
    requires IsMembershipOf(s, m, u, s.invitations[id].orgId) ==> m == joined
    ensures LiveRoles(s', m) == if IsMembershipOf(s, m, u, s.invitations[id].orgId) && s.invitations[id].role.Some? && LiveRole(s, s.invitations[id].role.value)
                                then LiveRoles(s, m) + {s.invitations[id].role.value} else LiveRoles(s, m)
  {
  }

  lemma RefusedAcceptKeeps(rule: CommitRule, s: State, id: InvitationId, u: UserId, email: string, now: Time)
    requires Accept(rule, s, id, u, email, now).1.Err?
    ensures Accept(rule, s, id, u, email, now).0 == s.(invitations := Accept(rule, s, id, u, email, now).0.invitations)
  {
  }

  lemma CreateRoleAccess(rule: CommitRule, s: State, op: Op, m: MembershipId)
    requires Inv(s) && op.OpCreateRole? && m in s.memberships
    ensures LiveRoles(Step(rule, s, op), m) == LiveRoles(s, m) && Resolved(Step(rule, s, op), m) == Resolved(s, m)
  {
    NewRoleIsNotHeld(s, op.scope, op.slug, op.ids, m);
    NewGrantsAreNotHeld(s, op.scope, op.slug, op.ids, LiveRoles(s, m));
  }

  lemma NewRoleIsNotHeld(s: State, scope: Option<OrgId>, slug: string, ids: seq<PermissionId>, m: MembershipId)
    requires ForeignKeys(s) && BelowNext(s)
    ensures LiveRoles(CreateRole(s, scope, slug, ids).0, m) == LiveRoles(s, m)
  {
    assert forall r: RoleId :: Assignment(m, r) in s.assignments ==> r < s.next;
  }

  lemma NewGrantsAreNotHeld(s: State, scope: Option<OrgId>, slug: string, ids: seq<PermissionId>, rs: set<RoleId>)
    requires s.next !in rs
    ensures PermissionsOf(CreateRole(s, scope, slug, ids).0, rs) == PermissionsOf(s, rs)
  {
  }

  lemma MemberOpKeepsGrants(rule: CommitRule, s: State, op: Op, m: MembershipId)
    requires m < s.next + 1 && IsMemberOp(op) && !op.OpAccept?
    ensures var s' := Step(rule, s, op);
            && s'.roles == s.roles && s'.grants == s.grants && s'.permissions == s.permissions
            && forall r :: Assignment(m, r) in s'.assignments <==> Assignment(m, r) in s.assignments
  {
    match op
    case OpCreateOrg(owner, slug, status, now) =>
    case OpUpdateAttributes(org, u, dto) =>
    case OpRemoveMember(org, u) =>
    case OpPolicyChanged(scope, lost) =>
  }

  lemma MemberOpAccess(rule: CommitRule, s: State, op: Op, m: MembershipId)
    requires BelowNext(s) && IsMemberOp(op) && !op.OpAccept? && m in s.memberships
    ensures LiveRoles(Step(rule, s, op), m) == LiveRoles(s, m)
    ensures Step(rule, s, op).grants == s.grants && Step(rule, s, op).permissions == s.permissions
  {
    MemberOpKeepsGrants(rule, s, op, m);
  }

  /**
    Every member's live roles and permissions after every operation: only assignments, revocations
    and accepted invitations of that membership, removals of its roles and new permissions for them
    move either, and each moves them exactly so.
   */
  lemma StepAccess(rule: CommitRule, s: State, op: Op, m: MembershipId)
    requires Inv(s) && m in s.memberships
    ensures LiveRoles(Step(rule, s, op), m) == RolesAfter(s, op, m) && Resolved(Step(rule, s, op), m) == AccessAfter(s, op, m)
  {
    if op.OpSetPermissions? {
      SetPermissionsAccess(rule, s, op, m);
    } else if op.OpCreateRole? {
      CreateRoleAccess(rule, s, op, m);
    } else if IsRoleOp(op) {
      AssignmentAccess(rule, s, op, m);
    } else if op.OpAccept? {
      AcceptAccess(rule, s, op, m);
    } else if IsMemberOp(op) {
      MemberOpAccess(rule, s, op, m);
    } else {
      V.OtherOpKeepsRows(rule, s, op);
      V.OtherOpSameAccess(rule, s, op, m);
      V.SameRowsSameAccess(s, Step(rule, s, op), m);
    }
  }

  /** What the caller is answered says whether it was done. */
  lemma RoleAnswersIff(s: State, org: OrgId, m: MembershipId, r: RoleId, ids: seq<PermissionId>, ok: bool)
    ensures AssignRole(s, org, m, r, ok).1.Ok? <==> MayAssign(s, org, m, r)
    ensures RevokeRole(s, org, m, r, ok).1.Ok? <==> m in s.memberships
    ensures RemoveRole(s, r, ok).1.Ok? <==> MayRemove(s, r)
    ensures SetPermissions(s, r, ids, ok).1.Ok? <==> MaySetPermissions(s, r, ids)
  {
  }

  /** A role is created exactly with a free slug and permissions that exist, and then grants exactly those, to nobody yet. */
  lemma RoleIsCreatedIff(s: State, org: Option<OrgId>, slug: string, ids: seq<PermissionId>)
    requires Inv(s)
    ensures var (s', outcome) := CreateRole(s, org, slug, ids);
            && (outcome.Ok? <==>
                  && (forall r :: r in s.roles && s.roles[r].orgId == org && s.roles[r].slug == slug ==> org.None? && s.roles[r].deleted)
                  && (org.Some? ==> org.value in s.orgs) && forall i :: 0 <= i < |ids| ==> ids[i] in s.permissions)
            && (outcome.Err? ==> s' == s)
            && (outcome.Ok? ==>
                  && outcome.value !in s.roles && s'.roles == s.roles[outcome.value := Role(org, slug, false, false)]
                  && PermissionsOf(s', {outcome.value}) == Named(s, ids) && Holders(s', outcome.value) == {})
  {
    var (s', outcome) := CreateRole(s, org, slug, ids);
    if outcome.Ok? {
      var r := outcome.value;
      assert forall g :: g in s.grants ==> g.role < s.next;
      assert forall a :: a in s.assignments ==> a.role < s.next;
      forall p | p in Named(s, ids) ensures p in PermissionsOf(s', {r}) {
        var i :| 0 <= i < |ids| && ids[i] in s.permissions && s.permissions[ids[i]] == p;
        assert Grant(r, ids[i]) in s'.grants;
      }
    }
  }

  // ---------------------------------------------------------------- roles stay in their organization

  predicate InScope(s: State, r: RoleId, org: OrgId) {
    r in s.roles && (s.roles[r].orgId.None? || s.roles[r].orgId.value == org)
  }

  /** Every role held, and every role an invitation carries, is global or of the member's or invitation's own organization. */
  ghost predicate RolesInScope(s: State) {
    && (forall a :: a in s.assignments ==> a.membership in s.memberships && InScope(s, a.role, s.memberships[a.membership].orgId))
    && (forall id :: id in s.invitations && s.invitations[id].role.Some? ==> InScope(s, s.invitations[id].role.value, s.invitations[id].orgId))
  }

  /** An assignment of an organization's own role names a membership of that organization, which the service does not check. */
  predicate NamesOwnMember(s: State, op: Op) {
    op.OpAssignRole? && MayAssign(s, op.org, op.membership, op.role) && s.roles[op.role].orgId.Some?
    ==> s.memberships[op.membership].orgId == op.org
  }

  lemma RolesKeepScope(s: State, s': State)
    requires RolesInScope(s) && s'.assignments <= s.assignments && s'.invitations == s.invitations
    requires forall r :: r in s.roles ==> r in s'.roles && s'.roles[r].orgId == s.roles[r].orgId
    requires forall m :: m in s.memberships ==> m in s'.memberships && s'.memberships[m].orgId == s.memberships[m].orgId
    ensures RolesInScope(s')
  {
  }

  lemma AssignKeepsScopeIff(s: State, org: OrgId, m: MembershipId, r: RoleId, ok: bool)
    requires ForeignKeys(s) && RolesInScope(s)
    ensures RolesInScope(AssignRole(s, org, m, r, ok).0)
            <==> (MayAssign(s, org, m, r) && s.roles[r].orgId.Some? ==> s.memberships[m].orgId == org)
  {
    var s' := AssignRole(s, org, m, r, ok).0;
    if MayAssign(s, org, m, r) {
      assert Assignment(m, r) in s'.assignments;
      assert s'.memberships[m].orgId == s.memberships[m].orgId;
    }
  }

  lemma RoleOpKeepsScopeRows(rule: CommitRule, s: State, op: Op)
    requires BelowNext(s) && IsRoleOp(op) && !op.OpAssignRole?
    ensures var s' := Step(rule, s, op);
            && s'.assignments <= s.assignments && s'.invitations == s.invitations
            && (forall r :: r in s.roles ==> r in s'.roles && s'.roles[r].orgId == s.roles[r].orgId)
  {
    match op
    case OpRevokeRole(org, m, r, ok, now) =>
    case OpCreateRole(scope, slug, ids) =>
    case OpRemoveRole(r, ok, now) =>
    case OpSetPermissions(r, ids, ok, now) =>
  }

  lemma RoleOpKeepsScopeIff(rule: CommitRule, s: State, op: Op)
    requires ForeignKeys(s) && BelowNext(s) && RolesInScope(s) && IsRoleOp(op)
    ensures RolesInScope(Step(rule, s, op)) <==> NamesOwnMember(s, op)
  {
    if op.OpAssignRole? {
      AssignKeepsScopeIff(s, op.org, op.membership, op.role, op.deleteOk);
    } else {
      RoleOpKeepsScopeRows(rule, s, op);
      OrganizationTables.RoleOpKeepsIdentities(rule, s, op);
      RolesKeepScope(s, Step(rule, s, op));
    }
  }

  lemma AcceptKeepsScope(rule: CommitRule, s: State, id: InvitationId, u: UserId, email: string, now: Time)
    requires Inv(s) && RolesInScope(s)
    ensures RolesInScope(Accept(rule, s, id, u, email, now).0)
  {
    var (s', outcome) := Accept(rule, s, id, u, email, now);
    if outcome.Ok? {
      Invitations.AcceptedMember(rule, s, id, u, email, now);
      forall a | a in s'.assignments ensures a.membership in s'.memberships && InScope(s', a.role, s'.memberships[a.membership].orgId) {
        if a in s.assignments { assert InScope(s, a.role, s.memberships[a.membership].orgId); }
        if a.membership == outcome.value && a.membership in s.memberships {
          Invitations.AcceptedMemberKeepsOrg(rule, s, id, u, email, now, a.membership);
        }
      }
    } else {
      RefusedAcceptKeeps(rule, s, id, u, email, now);
      Invitations.AcceptIsLater(rule, s, id, u, email, now);
    }
  }

  lemma MemberOpKeepsScope(rule: CommitRule, s: State, op: Op)
    requires Inv(s) && RolesInScope(s) && IsMemberOp(op)
    ensures RolesInScope(Step(rule, s, op))
  {
    if op.OpCreateOrg? {
      CreateOrgKeepsScope(s, op.owner, op.slug, op.orgStatus, op.now);
    } else if op.OpAccept? {
      AcceptKeepsScope(rule, s, op.invitation, op.user, op.email, op.now);
    } else {
      MemberChangeKeepsScopeRows(rule, s, op);
      RolesKeepScope(s, Step(rule, s, op));
    }
  }

  lemma CreateOrgKeepsScope(s: State, owner: UserId, slug: string, status: OrgStatus, now: Time)
    requires BelowNext(s) && RolesInScope(s)
    ensures RolesInScope(CreateOrg(s, owner, slug, status, now).0)
  {
  }

  lemma MemberChangeKeepsScopeRows(rule: CommitRule, s: State, op: Op)
    requires op.OpUpdateAttributes? || op.OpRemoveMember? || op.OpPolicyChanged?
    ensures var s' := Step(rule, s, op);
            && s'.assignments == s.assignments && s'.invitations == s.invitations && s'.roles == s.roles
            && forall m :: m in s.memberships ==> m in s'.memberships && s'.memberships[m].orgId == s.memberships[m].orgId
  {
    match op
    case OpUpdateAttributes(org, u, dto) =>
    case OpRemoveMember(org, u) =>
    case OpPolicyChanged(scope, lost) =>
  }

  lemma OtherOpKeepsScope(rule: CommitRule, s: State, op: Op)
    requires RolesInScope(s) && !IsRoleOp(op) && !IsMemberOp(op)
    ensures RolesInScope(Step(rule, s, op))
  {
  }

  /** A step keeps every role within its organization exactly when an assignment names a member of the organization it is made in. */
  lemma StepKeepsScopeIff(rule: CommitRule, s: State, op: Op)
    requires Inv(s) && RolesInScope(s)
    ensures RolesInScope(Step(rule, s, op)) <==> NamesOwnMember(s, op)
  {
    if IsRoleOp(op) {
      RoleOpKeepsScopeIff(rule, s, op);
    } else if IsMemberOp(op) {
      MemberOpKeepsScope(rule, s, op);
    } else {
      OtherOpKeepsScope(rule, s, op);
    }
  }

  ghost predicate OwnMembersThroughout(rule: CommitRule, s: State, ops: seq<Op>)
    decreases |ops|
  {
    ops != [] ==> NamesOwnMember(s, ops[0]) && OwnMembersThroughout(rule, Step(rule, s, ops[0]), ops[1..])
  }

  /** So does every run of such steps: no member ever holds another organization's role. */
  lemma {:induction false} RunKeepsScope(rule: CommitRule, s: State, ops: seq<Op>)
    requires Inv(s) && RolesInScope(s) && OwnMembersThroughout(rule, s, ops)
    ensures RolesInScope(Run(rule, s, ops))
    decreases |ops|
  {
    if ops != [] {
      StepKeepsScopeIff(rule, s, ops[0]);
      OrganizationTables.StepKeepsInv(rule, s, ops[0]);
      RunKeepsScope(rule, Step(rule, s, ops[0]), ops[1..]);
    }
  }
}
