/**
  The permission cache against the database over time: whether an entry that has not run out is
  what the loader would compute now (src/modules/authorization/services/permission.service.ts,
  role.service.ts, src/infrastructure/cache/cache.service.ts).
 */
module PermissionCache {
  import opened Wrappers
  import opened Organizations
  import OrganizationTables
  import V = OrganizationVersions

  function Entries(s: seq<Permission>): set<Permission> {
    set i | 0 <= i < |s| :: s[i]
  }

  /** What a get finds at that time: the cache drops a key when its lifetime ends. */
  predicate LiveEntry(s: State, k: CacheKey, at: Time) {
    k in s.cache && at < s.cache[k].expiresAt
  }

  /** If the pair's entry outlives the given time and the membership is live, they agree as sets. */
  ghost predicate AgreesFor(s: State, m: MembershipId, at: Time)
    requires m in s.memberships
  {
    LiveMember(s, m) && LiveEntry(s, Key(s, m), at) ==> Entries(s.cache[Key(s, m)].permissions) == Resolved(s, m)
  }

  ghost predicate CacheAgrees(s: State, at: Time) {
    forall m :: m in s.memberships ==> AgreesFor(s, m, at)
  }

  /**
    What a request is given, from the cache or not. Agreement at a time is exactly that no request
    of the membership from then on, whether its cache commands are answered or fail, is given
    anything but the resolved set.
   */
  lemma AgreesForIff(s: State, m: MembershipId, loaded: seq<Permission>, at: Time)
    requires CanResolve(s, m, loaded)
    ensures AgreesFor(s, m, at) <==> forall health, now :: at <= now ==> Entries(Resolve(s, m, loaded, health, now).1) == Resolved(s, m)
  {
    if !AgreesFor(s, m, at) {
      assert Entries(Resolve(s, m, loaded, CacheHealth(true, true), at).1) != Resolved(s, m);
    }
  }

  /** What a miss stores answers every later request of the membership that reaches the cache, exactly until its lifetime is over, whatever would be loaded then. */
  lemma MissIsCached(s: State, m: MembershipId, loaded: seq<Permission>, now: Time, other: seq<Permission>, later: Time)
    requires m in s.memberships && !LiveEntry(s, Key(s, m), now)
    ensures var (s1, first) := Resolve(s, m, loaded, CacheHealth(true, true), now);
            var second := Resolve(s1, m, other, CacheHealth(true, true), later).1;
            && first == loaded && s1.memberships == s.memberships && second == (if later < now + 300000 then loaded else other)
            && forall k :: k != Key(s, m) ==> (k in s1.cache <==> k in s.cache) && (k in s.cache ==> s1.cache[k] == s.cache[k])
  {
  }

  // ---------------------------------------------------------------- one membership, one step

  /** Either the entry is gone, or nothing it was computed from has moved. */
  ghost predicate KeptOrDropped(s: State, s': State, m: MembershipId) {
    && m in s.memberships && m in s'.memberships && Key(s', m) == Key(s, m)
    && (Key(s, m) in s'.cache ==>
          && Key(s, m) in s.cache && s'.cache[Key(s, m)] == s.cache[Key(s, m)]
          && (s'.memberships[m].deleted || (!s.memberships[m].deleted && Resolved(s', m) == Resolved(s, m))))
  }

  lemma KeptOrDroppedAgrees(s: State, s': State, m: MembershipId, at: Time)
    requires KeptOrDropped(s, s', m) && AgreesFor(s, m, at)
    ensures AgreesFor(s', m, at)
  {
  }

  lemma HolderKeyDropped(s: State, ms: set<MembershipId>, m: MembershipId)
    requires m in ms && m in s.memberships
    ensures Key(s, m) in Keys(s, ms)
  {
  }

  /** The entry of m, if one outlives the given time, is this set. */
  predicate EntryIs(s: State, m: MembershipId, ps: set<Permission>, at: Time)
    requires m in s.memberships
  {
    LiveEntry(s, Key(s, m), at) ==> Entries(s.cache[Key(s, m)].permissions) == ps
  }

  lemma CreateRoleKeeps(s: State, scope: Option<OrgId>, slug: string, ids: seq<PermissionId>, m: MembershipId)
    requires Inv(s) && m in s.memberships
    ensures KeptOrDropped(s, CreateRole(s, scope, slug, ids).0, m)
  {
    assert forall r: RoleId :: Assignment(m, r) in s.assignments ==> r < s.next;
    V.SameRowsSameAccess(s, CreateRole(s, scope, slug, ids).0, m);
  }

  function Added(s: State, role: Option<RoleId>): set<RoleId> {
    if role.Some? && LiveRole(s, role.value) then {role.value} else {}
  }

  /** That entry already shows what these roles grant. */
  predicate EntryShows(s: State, m: MembershipId, rs: set<RoleId>, at: Time)
    requires m in s.memberships
  {
    EntryIs(s, m, PermissionsOf(s, rs), at)
  }

  /** Checked before accepting: no entry of a returning member outlives the time, or it is already right. */
  ghost predicate SafeToAccept(s: State, id: InvitationId, u: UserId, at: Time) {
    id in s.invitations ==>
      match FindMembership(s, u, s.invitations[id].orgId)
      case None => true
      case Some(m) => EntryShows(s, m, LiveRoles(s, m) + Added(s, s.invitations[id].role), at)
  }

  /**
    Checked before an assignment: the cache command will arrive and names the right organization,
    or the entry is already right.
   */
  predicate SafeToAssign(s: State, org: OrgId, m: MembershipId, r: RoleId, deleteOk: bool, at: Time) {
    m in s.memberships ==>
      (deleteOk && s.memberships[m].orgId == org) || s.memberships[m].deleted || EntryShows(s, m, LiveRoles(s, m) + Added(s, Some(r)), at)
  }

  predicate SafeToRevoke(s: State, org: OrgId, m: MembershipId, r: RoleId, deleteOk: bool, at: Time) {
    m in s.memberships ==>
      (deleteOk && s.memberships[m].orgId == org) || s.memberships[m].deleted || EntryShows(s, m, LiveRoles(s, m) - {r}, at)
  }

  /** Checked before a role goes: the cache command will arrive, or every holder's entry does without the role. */
  predicate SafeToRemoveRole(s: State, r: RoleId, deleteOk: bool, at: Time) {
    deleteOk || forall m :: m in Holders(s, r) ==> EntryShows(s, m, LiveRoles(s, m) - {r}, at)
  }

  /** The same for its new permissions. */
  predicate SafeToSetPermissions(s: State, r: RoleId, ids: seq<PermissionId>, deleteOk: bool, at: Time) {
    deleteOk || forall m :: m in Holders(s, r) ==> EntryIs(s, m, PermissionsOf(s.(grants := Regranted(s, r, ids)), LiveRoles(s, m)), at)
  }

  /**
    The operation leaves no wrong entry behind that outlives the given time. What each caller would
    have to check, that its cache command arrives included. Policy changes, which move no
    permission, and the operations that send no cache command need no check.
   */
  ghost predicate Disciplined(s: State, op: Op, at: Time) {
    match op
    case OpRemoveRole(r, ok, _) => RemoveRole(s, r, ok).1.Ok? ==> SafeToRemoveRole(s, r, ok, at)
    case OpSetPermissions(r, ids, ok, _) => SetPermissions(s, r, ids, ok).1.Ok? ==> SafeToSetPermissions(s, r, ids, ok, at)
    case OpAssignRole(org, m, r, ok, _) => AssignRole(s, org, m, r, ok).1.Ok? ==> SafeToAssign(s, org, m, r, ok, at)
    case OpRevokeRole(org, m, r, ok, _) => SafeToRevoke(s, org, m, r, ok, at)
    case OpAccept(id, u, email, now) => AcceptBody(s, id, u, email, now).1.Ok? ==> SafeToAccept(s, id, u, at)
    case _ => true
  }

  // ---------------------------------------------------------------- role writes

  /** Members that do not hold the role keep what they had. */
  lemma NonHolderKeeps(s: State, s': State, r: RoleId, m: MembershipId)
    requires Inv(s) && m in s.memberships && m !in Holders(s, r) && r in s.roles
    requires s'.assignments == s.assignments && s'.permissions == s.permissions
    requires s'.roles.Keys == s.roles.Keys && (forall x :: x in s.roles && x != r ==> s'.roles[x] == s.roles[x])
    requires forall g: Grant :: g.role != r ==> (g in s'.grants <==> g in s.grants)
    requires forall g :: g in s'.grants ==> g.permission in s.permissions
    requires s'.memberships == BumpPermissions(s, Holders(s, r)) && (forall k :: k in s'.cache ==> k in s.cache && s'.cache[k] == s.cache[k])
    ensures KeptOrDropped(s, s', m)
  {
    if !s.memberships[m].deleted {
      V.RoleChangedRows(s, s', r, m);
      V.SameRowsSameAccess(s, s', m);
    }
  }

  /** A holder's entry is gone, or is right exactly if it already was the new set. */
  lemma HolderAgreesIff(s: State, s': State, r: RoleId, deleteOk: bool, m: MembershipId, at: Time)
    requires m in Holders(s, r)
    requires s'.memberships == BumpPermissions(s, Holders(s, r)) && s'.cache == DropKeys(s.cache, Keys(s, Holders(s, r)), deleteOk)
    ensures m in s'.memberships && (AgreesFor(s', m, at) <==> deleteOk || EntryIs(s, m, Resolved(s', m), at))
  {
    HolderKeyDropped(s, Holders(s, r), m);
    assert Key(s', m) == Key(s, m);
  }

  lemma RoleWriteAgreesIff(s: State, s': State, r: RoleId, deleteOk: bool, at: Time)
    requires CacheAgrees(s, at) && s'.memberships == BumpPermissions(s, Holders(s, r))
    requires s'.cache == DropKeys(s.cache, Keys(s, Holders(s, r)), deleteOk)
    requires forall m :: m in s.memberships && m !in Holders(s, r) ==> KeptOrDropped(s, s', m)
    ensures CacheAgrees(s', at) <==> deleteOk || forall m :: m in Holders(s, r) ==> EntryIs(s, m, Resolved(s', m), at)
  {
    forall m | m in s.memberships && m !in Holders(s, r) ensures AgreesFor(s', m, at) {
      assert AgreesFor(s, m, at);
      KeptOrDroppedAgrees(s, s', m, at);
    }
    forall m | m in Holders(s, r) ensures AgreesFor(s', m, at) <==> deleteOk || EntryIs(s, m, Resolved(s', m), at) {
      HolderAgreesIff(s, s', r, deleteOk, m, at);
    }
  }

  /** Removing a role keeps the cache right exactly when its cache command arrives or every holder's entry was right already. */
  lemma RemoveRoleKeepsAgreementIff(s: State, r: RoleId, deleteOk: bool, at: Time)
    requires Inv(s) && CacheAgrees(s, at) && RemoveRole(s, r, deleteOk).1.Ok?
    ensures CacheAgrees(RemoveRole(s, r, deleteOk).0, at) <==> SafeToRemoveRole(s, r, deleteOk, at)
  {
    var s' := RemoveRole(s, r, deleteOk).0;
    var s1 := s.(roles := s.roles[r := s.roles[r].(deleted := true)]);
    assert Holders(s1, r) == Holders(s, r) && Keys(s1, Holders(s, r)) == Keys(s, Holders(s, r));
    forall m | m in s.memberships && m !in Holders(s, r) ensures KeptOrDropped(s, s', m) { NonHolderKeeps(s, s', r, m); }
    RoleWriteAgreesIff(s, s', r, deleteOk, at);
    forall m | m in Holders(s, r) ensures Resolved(s', m) == PermissionsOf(s, LiveRoles(s, m) - {r}) {
      assert LiveRoles(s', m) == LiveRoles(s, m) - {r};
    }
  }

  lemma SetPermissionsKeepsAgreementIff(s: State, r: RoleId, ids: seq<PermissionId>, deleteOk: bool, at: Time)
    requires Inv(s) && CacheAgrees(s, at) && SetPermissions(s, r, ids, deleteOk).1.Ok?
    ensures CacheAgrees(SetPermissions(s, r, ids, deleteOk).0, at) <==> SafeToSetPermissions(s, r, ids, deleteOk, at)
  {
    var s' := SetPermissions(s, r, ids, deleteOk).0;
    var s1 := s.(grants := Regranted(s, r, ids));
    assert Holders(s1, r) == Holders(s, r) && Keys(s1, Holders(s, r)) == Keys(s, Holders(s, r));
    forall m | m in s.memberships && m !in Holders(s, r) ensures KeptOrDropped(s, s', m) { NonHolderKeeps(s, s', r, m); }
    RoleWriteAgreesIff(s, s', r, deleteOk, at);
    forall m | m in Holders(s, r) ensures Resolved(s', m) == PermissionsOf(s1, LiveRoles(s, m)) {
      assert LiveRoles(s', m) == LiveRoles(s, m);
    }
  }

  /** After a write to target's assignments, with or without the delete of the named organization's key. */
  lemma ReassignedAgreesIff(s: State, org: OrgId, target: MembershipId, assignments: set<Assignment>, deleteOk: bool, rs: set<RoleId>, at: Time)
    requires Inv(s) && CacheAgrees(s, at) && target in s.memberships
    requires forall a: Assignment :: a.membership != target ==> (a in assignments <==> a in s.assignments)
    requires rs == LiveRoles(Reassigned(s, org, target, assignments, deleteOk), target)
    ensures CacheAgrees(Reassigned(s, org, target, assignments, deleteOk), at)
            <==> (deleteOk && s.memberships[target].orgId == org) || s.memberships[target].deleted || EntryShows(s, target, rs, at)
  {
    var s' := Reassigned(s, org, target, assignments, deleteOk);
    assert PermissionsOf(s', rs) == PermissionsOf(s, rs);
    assert Key(s', target) == Key(s, target);
    forall m | m in s.memberships && m != target ensures AgreesFor(s', m, at) {
      assert AgreesFor(s, m, at) && Key(s', m) == Key(s, m);
      V.SameRowsSameAccess(s, s', m);
    }
    assert AgreesFor(s', target, at)
           <==> ((deleteOk && s.memberships[target].orgId == org) || s.memberships[target].deleted || EntryShows(s, target, rs, at));
  }

  /** assignToMembership keeps the cache right exactly when the caller passed the safety check. */
  lemma AssignKeepsAgreementIff(s: State, org: OrgId, m: MembershipId, r: RoleId, deleteOk: bool, at: Time)
    requires Inv(s) && CacheAgrees(s, at) && AssignRole(s, org, m, r, deleteOk).1.Ok?
    ensures CacheAgrees(AssignRole(s, org, m, r, deleteOk).0, at) <==> SafeToAssign(s, org, m, r, deleteOk, at)
  {
    var assignments := s.assignments + {Assignment(m, r)};
    assert LiveRoles(Reassigned(s, org, m, assignments, deleteOk), m) == LiveRoles(s, m) + Added(s, Some(r));
    ReassignedAgreesIff(s, org, m, assignments, deleteOk, LiveRoles(s, m) + Added(s, Some(r)), at);
  }

  lemma RevokeKeepsAgreementIff(s: State, org: OrgId, m: MembershipId, r: RoleId, deleteOk: bool, at: Time)
    requires Inv(s) && CacheAgrees(s, at) && RevokeRole(s, org, m, r, deleteOk).1.Ok?
    ensures CacheAgrees(RevokeRole(s, org, m, r, deleteOk).0, at) <==> SafeToRevoke(s, org, m, r, deleteOk, at)
  {
    var assignments := s.assignments - {Assignment(m, r)};
    assert LiveRoles(Reassigned(s, org, m, assignments, deleteOk), m) == LiveRoles(s, m) - {r};
    ReassignedAgreesIff(s, org, m, assignments, deleteOk, LiveRoles(s, m) - {r}, at);
  }

  lemma RoleOpKeepsAgreementIff(rule: CommitRule, s: State, op: Op, at: Time)
    requires Inv(s) && CacheAgrees(s, at) && IsRoleOp(op)
    ensures CacheAgrees(Step(rule, s, op), at) <==> Disciplined(s, op, at)
  {
    match op
    case OpAssignRole(org, m, r, ok, _) => if AssignRole(s, org, m, r, ok).1.Ok? { AssignKeepsAgreementIff(s, org, m, r, ok, at); }
    case OpRevokeRole(org, m, r, ok, _) => if RevokeRole(s, org, m, r, ok).1.Ok? { RevokeKeepsAgreementIff(s, org, m, r, ok, at); }
    case OpRemoveRole(r, ok, _) => if RemoveRole(s, r, ok).1.Ok? { RemoveRoleKeepsAgreementIff(s, r, ok, at); }
    case OpSetPermissions(r, ids, ok, _) => if SetPermissions(s, r, ids, ok).1.Ok? { SetPermissionsKeepsAgreementIff(s, r, ids, ok, at); }
    case OpCreateRole(scope, slug, ids) =>
      forall m | m in s.memberships ensures AgreesFor(Step(rule, s, op), m, at) {
        CreateRoleKeeps(s, scope, slug, ids, m);
        KeptOrDroppedAgrees(s, Step(rule, s, op), m, at);
      }
  }

  lemma CreateOrgKeeps(s: State, owner: UserId, slug: string, status: OrgStatus, now: Time, m: MembershipId)
    requires Inv(s) && m in s.memberships
    ensures KeptOrDropped(s, CreateOrg(s, owner, slug, status, now).0, m)
  {
    V.SameRowsSameAccess(s, CreateOrg(s, owner, slug, status, now).0, m);
  }

  lemma UpdateAttributesKeeps(s: State, org: OrgId, u: UserId, dto: MemberDto, m: MembershipId)
    requires Inv(s) && m in s.memberships
    ensures KeptOrDropped(s, UpdateAttributes(s, org, u, dto).0, m)
  {
    V.SameRowsSameAccess(s, UpdateAttributes(s, org, u, dto).0, m);
  }

  lemma RemoveMemberKeeps(s: State, org: OrgId, u: UserId, m: MembershipId)
    requires Inv(s) && m in s.memberships
    ensures KeptOrDropped(s, RemoveMember(s, org, u).0, m)
  {
    V.SameRowsSameAccess(s, RemoveMember(s, org, u).0, m);
  }

  lemma PolicyChangedKeeps(s: State, scope: Option<OrgId>, lost: set<OrgId>, m: MembershipId)
    requires Inv(s) && m in s.memberships
    ensures KeptOrDropped(s, PolicyChanged(s, scope, lost), m)
  {
    V.SameRowsSameAccess(s, PolicyChanged(s, scope, lost), m);
  }

  /** Entries are only ever made for a membership that exists, and those are never deleted. */
  ghost predicate EntriesHaveMembers(s: State) {
    forall k :: k in s.cache ==> exists m :: m in s.memberships && Key(s, m) == k
  }

  lemma CreateOrgKeepsAgreement(s: State, owner: UserId, slug: string, status: OrgStatus, now: Time, at: Time)
    requires Inv(s) && CacheAgrees(s, at) && EntriesHaveMembers(s)
    ensures CacheAgrees(CreateOrg(s, owner, slug, status, now).0, at)
  {
    var s' := CreateOrg(s, owner, slug, status, now).0;
    forall m | m in s'.memberships ensures AgreesFor(s', m, at) {
      if m in s.memberships {
        CreateOrgKeeps(s, owner, slug, status, now, m);
        KeptOrDroppedAgrees(s, s', m, at);
      } else {
        assert Key(s', m) !in s.cache;
      }
    }
  }

  lemma JoinedKeepsOthers(s: State, inv: Invitation, u: UserId, now: Time, m: MembershipId)
    requires Inv(s) && m in s.memberships && m != Joined(s, inv, u, now).1
    ensures KeptOrDropped(s, Joined(s, inv, u, now).0, m)
  {
    V.SameRowsSameAccess(s, Joined(s, inv, u, now).0, m);
  }

  lemma JoinedAgreesIff(s: State, id: InvitationId, u: UserId, now: Time, at: Time)
    requires Inv(s) && CacheAgrees(s, at) && EntriesHaveMembers(s) && id in s.invitations
    ensures CacheAgrees(Joined(s, s.invitations[id], u, now).0, at) <==> SafeToAccept(s, id, u, at)
  {
    var inv := s.invitations[id];
    var (s', joined) := Joined(s, inv, u, now);
    forall m | m in s'.memberships && m != joined ensures AgreesFor(s', m, at) {
      JoinedKeepsOthers(s, inv, u, now, m);
      KeptOrDroppedAgrees(s, s', m, at);
    }
    if joined in s.memberships {
      JoinedEntry(s, inv, u, now, at);
    } else {
      assert Key(s', joined) == CacheKey(u, inv.orgId);
      assert forall m :: m in s.memberships ==> !IsMembershipOf(s, m, u, inv.orgId);
      assert Key(s', joined) !in s.cache;
    }
  }

  /** A returning member's entry is still there, and has to show the invitation's role as well. */
  lemma JoinedEntry(s: State, inv: Invitation, u: UserId, now: Time, at: Time)
    requires Inv(s) && Joined(s, inv, u, now).1 in s.memberships && (inv.role.Some? ==> inv.role.value in s.roles)
    ensures var (s', m) := Joined(s, inv, u, now);
            && FindMembership(s, u, inv.orgId) == Some(m)
            && m in s'.memberships
            && (AgreesFor(s', m, at) <==> EntryShows(s, m, LiveRoles(s, m) + Added(s, inv.role), at))
  {
    var (s', m) := Joined(s, inv, u, now);
    assert LiveRoles(s', m) == LiveRoles(s, m) + Added(s, inv.role);
    assert PermissionsOf(s', LiveRoles(s', m)) == PermissionsOf(s, LiveRoles(s', m));
    assert Key(s', m) == Key(s, m);
  }

  /** accept keeps the cache right exactly when the safety check held: it deletes no cache key. */
  lemma AcceptKeepsAgreementIff(s: State, id: InvitationId, u: UserId, email: string, now: Time, at: Time)
    requires Inv(s) && CacheAgrees(s, at) && EntriesHaveMembers(s) && AcceptBody(s, id, u, email, now).1.Ok?
    ensures CacheAgrees(AcceptBody(s, id, u, email, now).0, at) <==> SafeToAccept(s, id, u, at)
  {
    var joined := Joined(s, s.invitations[id], u, now).0;
    JoinedAgreesIff(s, id, u, now, at);
    InvitationStatusIrrelevant(joined, AcceptBody(s, id, u, email, now).0, at);
  }

  lemma InvitationStatusIrrelevant(s: State, s': State, at: Time)
    requires s' == s.(invitations := s'.invitations)
    ensures CacheAgrees(s', at) <==> CacheAgrees(s, at)
  {
    assert forall m :: m in s.memberships ==> Resolved(s', m) == Resolved(s, m) && Key(s', m) == Key(s, m);
    assert forall m :: m in s.memberships ==> (AgreesFor(s', m, at) <==> AgreesFor(s, m, at));
  }

  /** The whole call, whatever the database keeps of a refused one. */
  lemma AcceptCallKeepsAgreementIff(rule: CommitRule, s: State, id: InvitationId, u: UserId, email: string, now: Time, at: Time)
    requires Inv(s) && CacheAgrees(s, at) && EntriesHaveMembers(s)
    ensures CacheAgrees(Accept(rule, s, id, u, email, now).0, at) <==> (AcceptBody(s, id, u, email, now).1.Ok? ==> SafeToAccept(s, id, u, at))
  {
    var s' := Accept(rule, s, id, u, email, now).0;
    if AcceptBody(s, id, u, email, now).1.Ok? {
      AcceptKeepsAgreementIff(s, id, u, email, now, at);
    } else {
      InvitationStatusIrrelevant(s, s', at);
    }
  }

  lemma MemberOpKeepsAgreementIff(rule: CommitRule, s: State, op: Op, at: Time)
    requires Inv(s) && CacheAgrees(s, at) && EntriesHaveMembers(s) && IsMemberOp(op)
    ensures CacheAgrees(Step(rule, s, op), at) <==> Disciplined(s, op, at)
  {
    match op
    case OpCreateOrg(owner, slug, status, now) => CreateOrgKeepsAgreement(s, owner, slug, status, now, at);
    case OpAccept(id, u, email, now) => AcceptCallKeepsAgreementIff(rule, s, id, u, email, now, at);
    case OpUpdateAttributes(org, u, dto) =>
      forall m | m in s.memberships ensures AgreesFor(Step(rule, s, op), m, at) {
        UpdateAttributesKeeps(s, org, u, dto, m);
        KeptOrDroppedAgrees(s, Step(rule, s, op), m, at);
      }
    case OpRemoveMember(org, u) =>
      forall m | m in s.memberships ensures AgreesFor(Step(rule, s, op), m, at) {
        RemoveMemberKeeps(s, org, u, m);
        KeptOrDroppedAgrees(s, Step(rule, s, op), m, at);
      }
    case OpPolicyChanged(scope, lost) =>
      forall m | m in s.memberships ensures AgreesFor(Step(rule, s, op), m, at) {
        PolicyChangedKeeps(s, scope, lost, m);
        KeptOrDroppedAgrees(s, Step(rule, s, op), m, at);
      }
  }

  lemma OtherOpKeepsEntries(rule: CommitRule, s: State, op: Op)
    requires !IsRoleOp(op) && !IsMemberOp(op) && !op.OpResolve?
    ensures Step(rule, s, op).cache == s.cache
  {
  }

  lemma OtherOpKeepsOrDrops(rule: CommitRule, s: State, op: Op, m: MembershipId)
    requires Inv(s) && !IsRoleOp(op) && !IsMemberOp(op) && !op.OpResolve? && m in s.memberships
    ensures KeptOrDropped(s, Step(rule, s, op), m)
  {
    V.OtherOpKeepsRows(rule, s, op);
    V.OtherOpSameAccess(rule, s, op, m);
    V.SameRowsSameAccess(s, Step(rule, s, op), m);
    OtherOpKeepsEntries(rule, s, op);
  }

  /** Filling the cache stores what the loader read, whatever the health of the cache. */
  lemma ResolveKeepsAgreement(s: State, target: MembershipId, loaded: seq<Permission>, health: CacheHealth, now: Time, at: Time)
    requires UniqueMemberships(s) && CacheAgrees(s, at) && CanResolve(s, target, loaded)
    ensures CacheAgrees(Resolve(s, target, loaded, health, now).0, at)
  {
    var s' := Resolve(s, target, loaded, health, now).0;
    forall m | m in s'.memberships ensures AgreesFor(s', m, at) {
      assert AgreesFor(s, m, at) && Resolved(s', m) == Resolved(s, m);
      assert Key(s, m) == Key(s, target) ==> m == target;
    }
  }

  lemma OtherOpKeepsAgreement(rule: CommitRule, s: State, op: Op, at: Time)
    requires Inv(s) && CacheAgrees(s, at) && !IsRoleOp(op) && !IsMemberOp(op)
    ensures CacheAgrees(Step(rule, s, op), at)
  {
    if op.OpResolve? {
      if CanResolve(s, op.membership, op.loaded) { ResolveKeepsAgreement(s, op.membership, op.loaded, op.health, op.now, at); }
    } else {
      OrganizationTables.OtherOpKeepsMemberships(rule, s, op);
      forall m | m in s.memberships ensures AgreesFor(Step(rule, s, op), m, at) {
        OtherOpKeepsOrDrops(rule, s, op, m);
        KeptOrDroppedAgrees(s, Step(rule, s, op), m, at);
      }
    }
  }

  /** A right cache stays right exactly when the operation is disciplined. */
  lemma StepKeepsAgreementIff(rule: CommitRule, s: State, op: Op, at: Time)
    requires Inv(s) && CacheAgrees(s, at) && EntriesHaveMembers(s)
    ensures CacheAgrees(Step(rule, s, op), at) <==> Disciplined(s, op, at)
  {
    if IsRoleOp(op) {
      RoleOpKeepsAgreementIff(rule, s, op, at);
    } else if IsMemberOp(op) {
      MemberOpKeepsAgreementIff(rule, s, op, at);
    } else {
      OtherOpKeepsAgreement(rule, s, op, at);
    }
  }

  lemma StepKeepsEntriesHaveMembers(rule: CommitRule, s: State, op: Op)
    requires Inv(s) && EntriesHaveMembers(s)
    ensures EntriesHaveMembers(Step(rule, s, op))
  {
    var s' := Step(rule, s, op);
    forall k | k in s'.cache ensures exists m :: m in s'.memberships && Key(s', m) == k {
      if k in s.cache {
        var m :| m in s.memberships && Key(s, m) == k;
        V.StepWitnessed(rule, s, op, m);
        assert Key(s', m) == k;
      } else {
        OnlyResolveAddsEntries(rule, s, op, k);
      }
    }
  }

  lemma OnlyResolveAddsEntries(rule: CommitRule, s: State, op: Op, k: CacheKey)
    requires k in Step(rule, s, op).cache && !(k in s.cache && Step(rule, s, op).cache[k] == s.cache[k])
    ensures op.OpResolve? && CanResolve(s, op.membership, op.loaded) && k == Key(s, op.membership)
    ensures Step(rule, s, op).memberships == s.memberships
    ensures Step(rule, s, op).cache[k] == CacheEntry(op.loaded, op.now + PERMISSION_CACHE_TTL_MS)
  {
    if IsRoleOp(op) { RoleOpOnlyDrops(rule, s, op); } else if IsMemberOp(op) { MemberOpOnlyDrops(rule, s, op); }
  }

  ghost predicate OnlyDrops(before: map<CacheKey, CacheEntry>, after: map<CacheKey, CacheEntry>) {
    forall k :: k in after ==> k in before && after[k] == before[k]
  }

  lemma RoleOpOnlyDrops(rule: CommitRule, s: State, op: Op)
    requires IsRoleOp(op)
    ensures OnlyDrops(s.cache, Step(rule, s, op).cache)
  {
  }

  lemma MemberOpOnlyDrops(rule: CommitRule, s: State, op: Op)
    requires IsMemberOp(op)
    ensures OnlyDrops(s.cache, Step(rule, s, op).cache)
  {
  }

  // ---------------------------------------------------------------- every run

  /** No operation of the run leaves a wrong entry behind that outlives the given time. */
  ghost predicate DisciplinedRun(rule: CommitRule, s: State, ops: seq<Op>, at: Time)
    decreases |ops|
  {
    ops != [] ==> Disciplined(s, ops[0], at) && DisciplinedRun(rule, Step(rule, s, ops[0]), ops[1..], at)
  }

  lemma {:induction false} RunKeepsAgreement(rule: CommitRule, s: State, ops: seq<Op>, at: Time)
    requires Inv(s) && CacheAgrees(s, at) && EntriesHaveMembers(s) && DisciplinedRun(rule, s, ops, at)
    ensures CacheAgrees(Run(rule, s, ops), at)
    decreases |ops|
  {
    if ops != [] {
      StepKeepsAgreementIff(rule, s, ops[0], at);
      StepKeepsEntriesHaveMembers(rule, s, ops[0]);
      OrganizationTables.StepKeepsInv(rule, s, ops[0]);
      RunKeepsAgreement(rule, Step(rule, s, ops[0]), ops[1..], at);
    }
  }

  // ---------------------------------------------------------------- entries do not live for ever

  /** The time an operation runs at; one that reads no clock runs at the time of the last that did. */
  function TimeOf(op: Op, clock: Time): Time {
    match op
    case OpCreateOrg(_, _, _, now) => now
    case OpRemoveRole(_, _, now) => now
    case OpSetPermissions(_, _, _, now) => now
    case OpAssignRole(_, _, _, _, now) => now
    case OpRevokeRole(_, _, _, _, now) => now
    case OpResolve(_, _, _, now) => now
    case OpCreateInvitation(_, _, _, _, now) => now
    case OpAccept(_, _, _, now) => now
    case _ => clock
  }

  /** Every entry dies within a lifetime of the clock. */
  ghost predicate EntriesBounded(s: State, clock: Time) {
    forall k :: k in s.cache ==> s.cache[k].expiresAt <= clock + PERMISSION_CACHE_TTL_MS
  }

  lemma StepKeepsEntriesBounded(rule: CommitRule, s: State, op: Op, clock: Time)
    requires EntriesBounded(s, clock) && clock <= TimeOf(op, clock)
    ensures EntriesBounded(Step(rule, s, op), TimeOf(op, clock))
  {
    var s' := Step(rule, s, op);
    forall k | k in s'.cache ensures s'.cache[k].expiresAt <= TimeOf(op, clock) + PERMISSION_CACHE_TTL_MS {
      if !(k in s.cache && s'.cache[k] == s.cache[k]) { OnlyResolveAddsEntries(rule, s, op, k); }
    }
  }

  lemma AgreementLasts(s: State, at: Time, later: Time)
    requires CacheAgrees(s, at) && at <= later
    ensures CacheAgrees(s, later)
  {
    forall m | m in s.memberships ensures AgreesFor(s, m, later) {
      assert AgreesFor(s, m, at);
    }
  }

  lemma DisciplineLasts(s: State, op: Op, at: Time, later: Time)
    requires Disciplined(s, op, at) && at <= later
    ensures Disciplined(s, op, later)
  {
  }

  /** A lifetime after the clock, nothing cached now is left to be wrong. */
  lemma NothingCachedIsLeft(s: State, op: Op, clock: Time, later: Time)
    requires EntriesBounded(s, clock) && clock + PERMISSION_CACHE_TTL_MS <= later
    ensures CacheAgrees(s, later) && Disciplined(s, op, later)
  {
  }

  /**
    A run on a clock that never goes back, whose undisciplined operations, lost deletes and
    accepted invitations among them, are all a lifetime old by the time named last.
   */
  ghost predicate Settled(rule: CommitRule, s: State, ops: seq<Op>, clock: Time, later: Time)
    decreases |ops|
  {
    ops != [] ==>
      var now := TimeOf(ops[0], clock);
      && clock <= now <= later
      && (Disciplined(s, ops[0], now) || now + PERMISSION_CACHE_TTL_MS <= later)
      && Settled(rule, Step(rule, s, ops[0]), ops[1..], now, later)
  }

  /** A settled run is a disciplined one, seen from its end. */
  lemma {:induction false} SettledIsDisciplined(rule: CommitRule, s: State, ops: seq<Op>, clock: Time, later: Time)
    requires EntriesBounded(s, clock) && Settled(rule, s, ops, clock, later)
    ensures DisciplinedRun(rule, s, ops, later)
    decreases |ops|
  {
    if ops != [] {
      var now := TimeOf(ops[0], clock);
      if Disciplined(s, ops[0], now) {
        DisciplineLasts(s, ops[0], now, later);
      } else {
        NothingCachedIsLeft(s, ops[0], now, later);
      }
      StepKeepsEntriesBounded(rule, s, ops[0], clock);
      SettledIsDisciplined(rule, Step(rule, s, ops[0]), ops[1..], now, later);
    }
  }

  /** A cache a run may start from: what it holds is right, or dead by the time of the request. */
  ghost predicate CacheStart(s: State, clock: Time, later: Time) {
    && EntriesHaveMembers(s) && EntriesBounded(s, clock) && clock <= later
    && (CacheAgrees(s, clock) || clock + PERMISSION_CACHE_TTL_MS <= later)
  }

  /**
    A request made a lifetime or more after the last undisciplined operation gets exactly the set
    the database holds, whether its own cache commands are answered, miss or fail.
   */
  lemma RequestsSeeTheDatabase(rule: CommitRule, start: State, ops: seq<Op>, clock: Time, m: MembershipId, loaded: seq<Permission>,
                               health: CacheHealth, now: Time)
    requires Inv(start) && CacheStart(start, clock, now) && Settled(rule, start, ops, clock, now)
    requires CanResolve(Run(rule, start, ops), m, loaded)
    ensures Entries(Resolve(Run(rule, start, ops), m, loaded, health, now).1) == Resolved(Run(rule, start, ops), m)
  {
    if CacheAgrees(start, clock) {
      AgreementLasts(start, clock, now);
    } else {
      NothingCachedIsLeft(start, OpRemovePermission(0), clock, now);
    }
    SettledIsDisciplined(rule, start, ops, clock, now);
    RunKeepsAgreement(rule, start, ops, now);
    AgreesForIff(Run(rule, start, ops), m, loaded, now);
  }

  /** A run on a clock that never goes back. */
  predicate Timely(ops: seq<Op>, clock: Time, end: Time) {
    if ops == [] then clock <= end
    else clock <= TimeOf(ops[0], clock) && Timely(ops[1..], TimeOf(ops[0], clock), end)
  }

  /** A lifetime after its end every run counts as settled. */
  lemma {:induction false} EveryRunSettles(rule: CommitRule, s: State, ops: seq<Op>, clock: Time, end: Time, later: Time)
    requires Timely(ops, clock, end) && end + PERMISSION_CACHE_TTL_MS <= later
    ensures clock <= end && Settled(rule, s, ops, clock, later)
    decreases |ops|
  {
    if ops != [] {
      EveryRunSettles(rule, Step(rule, s, ops[0]), ops[1..], TimeOf(ops[0], clock), end, later);
    }
  }

  /**
    Whatever a run did to the cache, and however wrong the cache was before, a request a lifetime
    after its end gets exactly the set the database holds.
   */
  lemma EveryRunRecovers(rule: CommitRule, start: State, ops: seq<Op>, clock: Time, end: Time, m: MembershipId, loaded: seq<Permission>,
                         health: CacheHealth, now: Time)
    requires Inv(start) && EntriesHaveMembers(start) && EntriesBounded(start, clock)
    requires Timely(ops, clock, end) && end + PERMISSION_CACHE_TTL_MS <= now
    requires CanResolve(Run(rule, start, ops), m, loaded)
    ensures Entries(Resolve(Run(rule, start, ops), m, loaded, health, now).1) == Resolved(Run(rule, start, ops), m)
  {
    EveryRunSettles(rule, start, ops, clock, end, now);
    RequestsSeeTheDatabase(rule, start, ops, clock, m, loaded, health, now);
  }

  /** Empty tables and any tables with an empty cache are such a start. */
  lemma EmptyCacheIsRight(s: State, clock: Time, later: Time)
    requires s.cache == map[] && clock <= later
    ensures CacheStart(s, clock, later)
  {
  }

  // ---------------------------------------------------------------- where the check matters

  /** At time 0 an empty set was cached for a member, who then accepts an invitation whose role grants something. */
  function StaleExample(): State {
    Init.(orgs := map[0 := Organization("acme", OrgActive, false)],
          memberships := map[1 := Membership(7, 0, MemberActive, NO_ATTRIBUTES, 1, 1, 0, false)],
          roles := map[2 := Role(None, "manager", true, false)],
          permissions := map[3 := Permission("users", "read")],
          grants := {Grant(2, 3)},
          invitations := map[4 := Invitation(0, "a@b.c", Some(2), NO_ATTRIBUTES, Pending, 100)],
          cache := map[CacheKey(7, 0) := CacheEntry([], PERMISSION_CACHE_TTL_MS)],
          next := 5)
  }

  lemma StaleExampleAgrees()
    ensures Inv(StaleExample()) && CacheStart(StaleExample(), 0, 0) && CacheAgrees(StaleExample(), 0)
  {
    var s := StaleExample();
    assert LiveRoles(s, 1) == {};
    assert Resolved(s, 1) == {};
    assert Entries([]) == {};
    assert Key(s, 1) == CacheKey(7, 0);
  }

  /** Accepting leaves the entry wrong at every time within its lifetime, and does no harm afterwards. */
  lemma AcceptCanLeaveAStaleEntry(at: Time)
    requires 0 <= at
    ensures var s := StaleExample();
            Inv(s) && CacheStart(s, 0, at) && CacheAgrees(s, 0) && AcceptBody(s, 4, 7, "a@b.c", 50).1.Ok?
            && (CacheAgrees(AcceptBody(s, 4, 7, "a@b.c", 50).0, at) <==> PERMISSION_CACHE_TTL_MS <= at)
  {
    var s := StaleExample();
    StaleExampleAgrees();
    AgreementLasts(s, 0, at);
    FindMembershipIsUnique(s, 1, 7, 0);
    assert Grant(2, 3) in s.grants && Permission("users", "read") in PermissionsOf(s, LiveRoles(s, 1) + Added(s, Some(2)));
    AcceptKeepsAgreementIff(s, 4, 7, "a@b.c", 50, at);
  }

  /** A member whose one permission was cached at time 0. */
  function CachedExample(): State {
    Init.(orgs := map[0 := Organization("acme", OrgActive, false)],
          memberships := map[1 := Membership(7, 0, MemberActive, NO_ATTRIBUTES, 1, 1, 0, false)],
          roles := map[2 := Role(None, "manager", true, false)],
          permissions := map[3 := Permission("users", "read")],
          grants := {Grant(2, 3)}, assignments := {Assignment(1, 2)},
          cache := map[CacheKey(7, 0) := CacheEntry([Permission("users", "read")], PERMISSION_CACHE_TTL_MS)],
          next := 4)
  }

  lemma CachedExampleAgrees()
    ensures Inv(CachedExample()) && CacheStart(CachedExample(), 0, 0) && CacheAgrees(CachedExample(), 0)
    ensures LiveRoles(CachedExample(), 1) == {2} && Resolved(CachedExample(), 1) == {Permission("users", "read")}
  {
    var s := CachedExample();
    assert LiveRoles(s, 1) == {2};
    assert Grant(2, 3) in s.grants && s.permissions[3] == Permission("users", "read");
    assert Resolved(s, 1) == {Permission("users", "read")};
    assert Entries([Permission("users", "read")]) == {Permission("users", "read")} by {
      assert [Permission("users", "read")][0] == Permission("users", "read");
    }
    assert Key(s, 1) == CacheKey(7, 0);
  }

  /**
    The role is revoked at time 0 and the delete is lost: later requests with a healthy cache still
    get its permission up to the last moment of the lifetime, so no shorter wait would do.
   */
  lemma LostDeleteLeavesAStaleEntry(now: Time)
    requires 0 <= now
    ensures var s := CachedExample();
            var s' := RevokeRole(s, 0, 1, 2, false).0;
            && Inv(s) && CacheAgrees(s, 0) && RevokeRole(s, 0, 1, 2, false).1.Ok?
            && CanResolve(s', 1, []) && (CacheAgrees(s', now) <==> PERMISSION_CACHE_TTL_MS <= now)
            && Resolve(s', 1, [], CacheHealth(true, true), now).1
               == if now < PERMISSION_CACHE_TTL_MS then [Permission("users", "read")] else []
  {
    var s := CachedExample();
    CachedExampleAgrees();
    AgreementLasts(s, 0, now);
    var s' := RevokeRole(s, 0, 1, 2, false).0;
    assert LiveRoles(s, 1) - {2} == {} && PermissionsOf(s, {}) == {};
    assert Permission("users", "read") in Entries(s.cache[CacheKey(7, 0)].permissions) by {
      assert [Permission("users", "read")][0] == Permission("users", "read");
    }
    RevokeKeepsAgreementIff(s, 0, 1, 2, false, now);
    assert LiveRoles(s', 1) == {};
  }
}
