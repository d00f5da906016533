/**
  The organization and authorization services as objects over one database
  (src/modules/organizations/services, src/modules/authorization/services).
 */
module OrganizationServices {
  import opened Wrappers
  import opened Organizations
  import PermissionNames
  import OrganizationTables

  /** The tables and the permission cache every service works on. */
  class Database {
    var orgs: map<OrgId, Organization>
    var memberships: map<MembershipId, Membership>
    var roles: map<RoleId, Role>
    var permissions: map<PermissionId, Permission>
    var rolePermissions: set<Grant>
    var userRoles: set<Assignment>
    var invitations: map<InvitationId, Invitation>
    var cache: map<CacheKey, CacheEntry>
    var next: nat

    ghost function State(): State
      reads this
    {
      Organizations.State(orgs, memberships, roles, permissions, rolePermissions, userRoles, invitations, cache, next)
    }

    /** Unique memberships, foreign keys, and no row ahead of next. */
    ghost predicate Valid()
      reads this
    {
      Inv(State())
    }

    constructor ()
      ensures Valid() && State() == Init
    {
      orgs, memberships, roles, permissions := map[], map[], map[], map[];
      rolePermissions, userRoles, invitations, cache, next := {}, {}, map[], map[], 0;
    }
  }

  class MembershipService {
    const db: Database

    constructor (database: Database)
      ensures db == database
    {
      db := database;
    }

    method FindByUserAndOrg(userId: UserId, organizationId: OrgId) returns (found: Option<MembershipId>)
      requires db.Valid()
      ensures found == FindLive(db.State(), userId, organizationId)
    {
      if m :| m in db.memberships && db.memberships[m].userId == userId && db.memberships[m].orgId == organizationId
              && !db.memberships[m].deleted {
        FindMembershipIsUnique(db.State(), m, userId, organizationId);
        found := Some(m);
      } else {
        found := None;
      }
    }

    method UpdateAttributes(organizationId: OrgId, targetUserId: UserId, dto: MemberDto) returns (outcome: Result<MembershipId, Error>)
      requires db.Valid()
      modifies db
      ensures db.Valid()
      ensures (db.State(), outcome) == Organizations.UpdateAttributes(old(db.State()), organizationId, targetUserId, dto)
    {
      OrganizationTables.StepKeepsInv(RollbackOnThrow, db.State(), OpUpdateAttributes(organizationId, targetUserId, dto));
      var found := FindByUserAndOrg(targetUserId, organizationId);
      if found.None? {
        return Err(MembershipNotFound);
      }
      var id := found.value;
      var row := db.memberships[id];
      row := row.(status := Patched(row.status, dto.status));
      row := row.(attributes := Attributes(
        PatchedText(row.attributes.department, dto.department), PatchedText(row.attributes.region, dto.region),
        PatchedText(row.attributes.jobTitle, dto.jobTitle), Patched(row.attributes.clearanceLevel, dto.clearanceLevel)));
      if AttributeChanged(dto) {
        row := row.(attributesVersion := row.attributesVersion + 1);
      }
      db.memberships := db.memberships[id := row];
      return Ok(id);
    }

    method Remove(organizationId: OrgId, targetUserId: UserId) returns (outcome: Result<(), Error>)
      requires db.Valid()
      modifies db
      ensures db.Valid()
      ensures (db.State(), outcome) == RemoveMember(old(db.State()), organizationId, targetUserId)
    {
      OrganizationTables.StepKeepsInv(RollbackOnThrow, db.State(), OpRemoveMember(organizationId, targetUserId));
      var found := FindByUserAndOrg(targetUserId, organizationId);
      if found.None? {
        return Err(MembershipNotFound);
      }
      var lastAdmin := IsLastAdmin(organizationId, found.value);
      if lastAdmin {
        return Err(LastAdmin);
      }
      var row := db.memberships[found.value];
      db.memberships := db.memberships[found.value := row.(status := MemberRemoved, deleted := true)];
      return Ok(());
    }

    /** ensureNotLastAdmin, as the condition under which it throws. */
    method IsLastAdmin(organizationId: OrgId, membershipId: MembershipId) returns (last: bool)
      ensures last <==> |AdminRows(db.State(), organizationId)| <= 1 && HoldsAdminSlug(db.State(), membershipId)
    {
      var counted := set a | a in db.userRoles
        && a.membership in db.memberships && db.memberships[a.membership].orgId == organizationId
        && !db.memberships[a.membership].deleted && db.memberships[a.membership].status.MemberActive?
        && a.role in db.roles && db.roles[a.role].slug == ADMIN && !db.roles[a.role].deleted;
      assert counted == AdminRows(db.State(), organizationId);
      if |counted| <= 1 {
        last := exists a :: a in db.userRoles && a.membership == membershipId && a.role in db.roles && db.roles[a.role].slug == ADMIN;
      } else {
        last := false;
      }
    }

    method BumpPermissionsVersionForRole(roleId: RoleId)
      modifies db`memberships
      ensures old(db.Valid()) ==> db.Valid()
      ensures db.memberships == BumpPermissions(old(db.State()), Holders(old(db.State()), roleId))
    {
      var ids := set m | m in db.memberships && !db.memberships[m].deleted && Assignment(m, roleId) in db.userRoles;
      assert ids == Holders(db.State(), roleId);
      if |ids| == 0 {
        return;
      }
      db.memberships := map m | m in db.memberships ::
        if m in ids then db.memberships[m].(permissionsVersion := db.memberships[m].permissionsVersion + 1) else db.memberships[m];
    }

    method BumpAllVersionsForOrg(organizationId: OrgId)
      modifies db`memberships
      ensures old(db.Valid()) ==> db.Valid()
      ensures db.memberships == BumpBoth(old(db.State()), MembersOf(old(db.State()), {organizationId}))
    {
      db.memberships := map m | m in db.memberships ::
        if db.memberships[m].orgId == organizationId && !db.memberships[m].deleted
        then db.memberships[m].(permissionsVersion := db.memberships[m].permissionsVersion + 1,
                                attributesVersion := db.memberships[m].attributesVersion + 1)
        else db.memberships[m];
    }
  }

  class PermissionService {
    const db: Database

    constructor (database: Database)
      ensures db == database
    {
      db := database;
    }

    method Create(resource: string, action: string)
      requires db.Valid()
      modifies db
      ensures db.Valid()
      ensures db.State() == CreatePermission(old(db.State()), resource, action)
    {
      OrganizationTables.StepKeepsInv(RollbackOnThrow, db.State(), OpCreatePermission(resource, action));
      if exists p :: p in db.permissions && db.permissions[p] == Permission(resource, action) {
        return;
      }
      db.permissions := db.permissions[db.next := Permission(resource, action)];
      db.next := db.next + 1;
    }

    method Remove(id: PermissionId) returns (outcome: Result<(), Error>)
      requires db.Valid()
      modifies db
      ensures db.Valid()
      ensures (db.State(), outcome) == RemovePermission(old(db.State()), id)
    {
      OrganizationTables.StepKeepsInv(RollbackOnThrow, db.State(), OpRemovePermission(id));
      var usage := set g | g in db.rolePermissions && g.permission == id;
      if |usage| > 0 {
        assert exists g :: g in usage;
        return Err(PermissionInUse);
      }
      assert forall g :: g in db.rolePermissions && g.permission == id ==> g in usage;
      if id !in db.permissions {
        return Err(RecordNotFound);
      }
      db.permissions := db.permissions - {id};
      return Ok(());
    }

    /** `rows` are the permissions of the joined role-permission rows, in the order the database returns them. */
    method ResolveForMembership(userId: UserId, organizationId: OrgId, rows: seq<Permission>, health: CacheHealth, now: Time)
      returns (resolved: seq<Permission>)
      requires db.Valid()
      modifies db`cache
      ensures db.Valid()
      ensures (db.State(), resolved)
              == ResolveAt(old(db.State()), CacheKey(userId, organizationId), PermissionNames.FirstPerKey(rows), health, now)
    {
      var cacheKey := CacheKey(userId, organizationId);
      if health.getOk && cacheKey in db.cache && now < db.cache[cacheKey].expiresAt {
        return db.cache[cacheKey].permissions;
      }
      resolved := PermissionNames.Dedupe(rows);
      if health.setOk {
        db.cache := db.cache[cacheKey := CacheEntry(resolved, now + PERMISSION_CACHE_TTL_MS)];
      }
    }

    /** The cache service's delete, which swallows the failure of its command. */
    method Delete(keys: set<CacheKey>, deleteOk: bool)
      modifies db`cache
      ensures old(db.Valid()) ==> db.Valid()
      ensures db.cache == DropKeys(old(db.cache), keys, deleteOk)
    {
      if deleteOk {
        db.cache := db.cache - keys;
      }
    }

    method InvalidateForUser(userId: UserId, organizationId: OrgId, deleteOk: bool)
      modifies db`cache
      ensures old(db.Valid()) ==> db.Valid()
      ensures db.cache == DropKeys(old(db.cache), {CacheKey(userId, organizationId)}, deleteOk)
    {
      Delete({CacheKey(userId, organizationId)}, deleteOk);
    }

    method InvalidateForRole(roleId: RoleId, deleteOk: bool)
      modifies db`cache
      ensures old(db.Valid()) ==> db.Valid()
      ensures db.cache == DropKeys(old(db.cache), Keys(old(db.State()), Holders(old(db.State()), roleId)), deleteOk)
    {
      var ids := set m | m in db.memberships && !db.memberships[m].deleted && Assignment(m, roleId) in db.userRoles;
      assert ids == Holders(db.State(), roleId);
      if |ids| == 0 {
        return;
      }
      var keys := set m | m in ids :: CacheKey(db.memberships[m].userId, db.memberships[m].orgId);
      assert keys == Keys(db.State(), ids);
      Delete(keys, deleteOk);
    }

    method InvalidateForOrganization(organizationId: OrgId, deleteOk: bool)
      modifies db`cache
      ensures old(db.Valid()) ==> db.Valid()
      ensures db.cache == DropKeys(old(db.cache), Keys(old(db.State()), MembersOf(old(db.State()), {organizationId})), deleteOk)
    {
      var ids := set m | m in db.memberships && db.memberships[m].orgId == organizationId && !db.memberships[m].deleted;
      assert ids == MembersOf(db.State(), {organizationId});
      if |ids| == 0 {
        return;
      }
      var keys := set m | m in ids :: CacheKey(db.memberships[m].userId, organizationId);
      assert keys == Keys(db.State(), ids);
      Delete(keys, deleteOk);
    }
  }

  /** These services read no clock, and no table constraint depends on one. */
  class RoleService {
    const db: Database
    const membershipService: MembershipService
    const permissionService: PermissionService

    ghost predicate Wired() {
      membershipService.db == db && permissionService.db == db
    }

    constructor (database: Database, members: MembershipService, perms: PermissionService)
      requires members.db == database && perms.db == database
      ensures Wired() && db == database
    {
      db, membershipService, permissionService := database, members, perms;
    }

    method Create(organizationId: Option<OrgId>, slug: string, permissionIds: seq<PermissionId>) returns (outcome: Result<RoleId, Error>)
      requires db.Valid()
      modifies db
      ensures db.Valid()
      ensures (db.State(), outcome) == CreateRole(old(db.State()), organizationId, slug, permissionIds)
    {
      if exists r :: r in db.roles && db.roles[r].orgId == organizationId && db.roles[r].slug == slug && !db.roles[r].deleted {
        return Err(RoleSlugTaken);
      }
      if organizationId.Some? && exists r :: r in db.roles && db.roles[r].orgId == organizationId && db.roles[r].slug == slug {
        return Err(UniqueViolation);
      }
      if (organizationId.Some? && organizationId.value !in db.orgs)
         || !(forall i :: 0 <= i < |permissionIds| ==> permissionIds[i] in db.permissions) {
        return Err(ForeignKeyViolation);
      }
      outcome := Insert(organizationId, slug, permissionIds);
      OrganizationTables.StepKeepsInv(RollbackOnThrow, old(db.State()), OpCreateRole(organizationId, slug, permissionIds));
    }

    /** The role's row and its grants, once every check has passed. */
    method Insert(organizationId: Option<OrgId>, slug: string, permissionIds: seq<PermissionId>) returns (outcome: Result<RoleId, Error>)
      modifies db
      ensures outcome == Ok(old(db.next))
      ensures db.State() == old(db.State()).(roles := old(db.roles)[old(db.next) := Role(organizationId, slug, false, false)],
                                             grants := old(db.rolePermissions) + GrantsFor(old(db.next), permissionIds),
                                             next := old(db.next) + 1)
    {
      var id := db.next;
      db.next := db.next + 1;
      db.roles := db.roles[id := Role(organizationId, slug, false, false)];
      db.rolePermissions := db.rolePermissions + GrantsFor(id, permissionIds);
      return Ok(id);
    }

    method Remove(id: RoleId, deleteOk: bool) returns (outcome: Result<(), Error>)
      requires Wired()
      requires db.Valid()
      modifies db
      ensures db.Valid()
      ensures (db.State(), outcome) == RemoveRole(old(db.State()), id, deleteOk)
    {
      OrganizationTables.StepKeepsInv(RollbackOnThrow, db.State(), OpRemoveRole(id, deleteOk, 0));
      if id !in db.roles || db.roles[id].deleted {
        return Err(NotFound);
      }
      if db.roles[id].isSystem {
        return Err(SystemRole);
      }
      db.roles := db.roles[id := db.roles[id].(deleted := true)];
      RoleChangedInDatabase(id, deleteOk);
      return Ok(());
    }

    method SetPermissions(roleId: RoleId, permissionIds: seq<PermissionId>, deleteOk: bool) returns (outcome: Result<(), Error>)
      requires Wired()
      requires db.Valid()
      modifies db
      ensures db.Valid()
      ensures (db.State(), outcome) == Organizations.SetPermissions(old(db.State()), roleId, permissionIds, deleteOk)
    {
      OrganizationTables.StepKeepsInv(RollbackOnThrow, db.State(), OpSetPermissions(roleId, permissionIds, deleteOk, 0));
      if roleId !in db.roles || db.roles[roleId].deleted {
        return Err(NotFound);
      }
      if !(forall i :: 0 <= i < |permissionIds| ==> permissionIds[i] in db.permissions) {
        return Err(ForeignKeyViolation);
      }
      db.rolePermissions := set g | g in db.rolePermissions && g.role != roleId;
      db.rolePermissions := db.rolePermissions + GrantsFor(roleId, permissionIds);
      RoleChangedInDatabase(roleId, deleteOk);
      return Ok(());
    }

    /** The bump and the invalidation both writers end with; the second query sees the first one's writes. */
    method RoleChangedInDatabase(roleId: RoleId, deleteOk: bool)
      requires Wired()
      modifies db`memberships, db`cache
      ensures db.State() == RoleChanged(old(db.State()), roleId, deleteOk)
    {
      membershipService.BumpPermissionsVersionForRole(roleId);
      assert Holders(db.State(), roleId) == Holders(old(db.State()), roleId);
      assert Keys(db.State(), Holders(db.State(), roleId)) == Keys(old(db.State()), Holders(old(db.State()), roleId));
      permissionService.InvalidateForRole(roleId, deleteOk);
    }

    method AssignToMembership(organizationId: OrgId, membershipId: MembershipId, roleId: RoleId, deleteOk: bool)
      returns (outcome: Result<(), Error>)
      requires Wired()
      requires db.Valid()
      modifies db
      ensures db.Valid()
      ensures (db.State(), outcome) == AssignRole(old(db.State()), organizationId, membershipId, roleId, deleteOk)
    {
      OrganizationTables.StepKeepsInv(RollbackOnThrow, db.State(), OpAssignRole(organizationId, membershipId, roleId, deleteOk, 0));
      if roleId !in db.roles || db.roles[roleId].deleted {
        return Err(NotFound);
      }
      if db.roles[roleId].orgId.Some? && db.roles[roleId].orgId.value != organizationId {
        return Err(RoleOfOtherOrg);
      }
      if membershipId !in db.memberships {
        return Err(ForeignKeyViolation);
      }
      db.userRoles := db.userRoles + {Assignment(membershipId, roleId)};
      BumpOne(membershipId);
      permissionService.InvalidateForUser(db.memberships[membershipId].userId, organizationId, deleteOk);
      return Ok(());
    }

    method RevokeFromMembership(organizationId: OrgId, membershipId: MembershipId, roleId: RoleId, deleteOk: bool)
      returns (outcome: Result<(), Error>)
      requires Wired()
      requires db.Valid()
      modifies db
      ensures db.Valid()
      ensures (db.State(), outcome) == RevokeRole(old(db.State()), organizationId, membershipId, roleId, deleteOk)
    {
      OrganizationTables.StepKeepsInv(RollbackOnThrow, db.State(), OpRevokeRole(organizationId, membershipId, roleId, deleteOk, 0));
      if membershipId !in db.memberships {
        return Err(RecordNotFound);
      }
      db.userRoles := db.userRoles - {Assignment(membershipId, roleId)};
      BumpOne(membershipId);
      permissionService.InvalidateForUser(db.memberships[membershipId].userId, organizationId, deleteOk);
      return Ok(());
    }

    method BumpOne(membershipId: MembershipId)
      requires membershipId in db.memberships
      modifies db`memberships
      ensures db.memberships == BumpPermissions(old(db.State()), {membershipId})
    {
      var row := db.memberships[membershipId];
      db.memberships := db.memberships[membershipId := row.(permissionsVersion := row.permissionsVersion + 1)];
    }
  }

  class PolicyService {
    const db: Database
    const membershipService: MembershipService
    const permissionService: PermissionService

    ghost predicate Wired() {
      membershipService.db == db && permissionService.db == db
    }

    constructor (database: Database, members: MembershipService, perms: PermissionService)
      requires members.db == database && perms.db == database
      ensures Wired() && db == database
    {
      db, membershipService, permissionService := database, members, perms;
    }

    /** invalidateAfterPolicyChange: one organization, or a loop over all that are not deleted. */
    method InvalidateAfterPolicyChange(organizationId: Option<OrgId>, lost: set<OrgId>)
      requires Wired()
      requires db.Valid()
      modifies db`memberships, db`cache
      ensures db.Valid()
      ensures db.State() == PolicyChanged(old(db.State()), organizationId, lost)
    {
      OrganizationTables.StepKeepsInv(RollbackOnThrow, db.State(), OpPolicyChanged(organizationId, lost));
      if organizationId.Some? {
        InvalidateOne(organizationId.value, lost);
      } else {
        InvalidateEach(lost);
      }
    }

    /** The loop over the organizations that are not deleted. */
    method InvalidateEach(lost: set<OrgId>)
      requires Wired()
      modifies db`memberships, db`cache
      ensures db.State() == PolicyChanged(old(db.State()), None, lost)
    {
      var todo := set o | o in db.orgs && !db.orgs[o].deleted;
      ghost var all := todo;
      ghost var done: set<OrgId> := {};
      ghost var before := db.State();
      NothingVisited(before, lost);
      while todo != {}
        invariant todo !! done && todo + done == all
        invariant db.State() == PolicyChangedIn(before, done, lost)
        decreases |todo|
      {
        var org :| org in todo;
        InvalidateOne(org, lost);
        OneMoreOrganization(before, done, org, lost);
        todo := todo - {org};
        done := done + {org};
      }
      assert done == all;
    }

    method InvalidateOne(organizationId: OrgId, lost: set<OrgId>)
      requires Wired()
      modifies db`memberships, db`cache
      ensures db.State() == PolicyChangedIn(old(db.State()), {organizationId}, lost)
    {
      membershipService.BumpAllVersionsForOrg(organizationId);
      assert MembersOf(db.State(), {organizationId}) == MembersOf(old(db.State()), {organizationId});
      assert Keys(db.State(), MembersOf(db.State(), {organizationId})) == Keys(old(db.State()), MembersOf(old(db.State()), {organizationId}));
      assert {organizationId} - lost == if organizationId in lost then {} else {organizationId};
      permissionService.InvalidateForOrganization(organizationId, organizationId !in lost);
    }
  }

  lemma NothingVisited(s: State, lost: set<OrgId>)
    ensures PolicyChangedIn(s, {}, lost) == s
  {
    assert MembersOf(s, {}) == {} && {} - lost == {};
  }

  /** Visiting one more organization after the others bumps its members once and drops their keys if its command arrives. */
  lemma OneMoreOrganization(s: State, done: set<OrgId>, org: OrgId, lost: set<OrgId>)
    requires org !in done
    ensures PolicyChangedIn(PolicyChangedIn(s, done, lost), {org}, lost) == PolicyChangedIn(s, done + {org}, lost)
  {
    var s1 := PolicyChangedIn(s, done, lost);
    assert MembersOf(s1, {org}) == MembersOf(s, {org});
    assert MembersOf(s, done + {org}) == MembersOf(s, done) + MembersOf(s, {org});
    assert MembersOf(s1, {org} - lost) == MembersOf(s, {org} - lost);
    assert MembersOf(s, (done + {org}) - lost) == MembersOf(s, done - lost) + MembersOf(s, {org} - lost);
    assert Keys(s1, MembersOf(s1, {org} - lost)) == Keys(s, MembersOf(s, {org} - lost));
    assert Keys(s, MembersOf(s, (done + {org}) - lost)) == Keys(s, MembersOf(s, done - lost)) + Keys(s, MembersOf(s, {org} - lost));
    assert BumpBoth(s1, MembersOf(s1, {org})) == BumpBoth(s, MembersOf(s, done + {org}));
  }

  class OrganizationService {
    const db: Database

    constructor (database: Database)
      ensures db == database
    {
      db := database;
    }

    method Create(ownerUserId: UserId, slug: string, status: OrgStatus, now: Time)
      returns (outcome: Result<OrgId, Error>, ghost admin: Option<RoleId>)
      requires db.Valid()
      modifies db
      ensures db.Valid()
      ensures FoundGlobalAdmin(old(db.State()), admin)
      ensures (db.State(), outcome) == CreateOrgWith(old(db.State()), ownerUserId, slug, status, now, admin)
    {
      admin := FindGlobalAdmin(db.State());
      ghost var before := db.State();
      if exists o :: o in db.orgs && db.orgs[o].slug == slug {
        return Err(OrgSlugTaken), admin;
      }
      outcome, admin := CreateInTransaction(ownerUserId, slug, status, now);
      OrganizationTables.CreateOrgWithKeepsInv(before, ownerUserId, slug, status, now, admin);
    }

    /** The transaction callback, once the slug is known to be free. */
    method CreateInTransaction(ownerUserId: UserId, slug: string, status: OrgStatus, now: Time)
      returns (outcome: Result<OrgId, Error>, ghost admin: Option<RoleId>)
      requires forall o :: o in db.orgs ==> db.orgs[o].slug != slug
      modifies db
      ensures FoundGlobalAdmin(old(db.State()), admin)
      ensures (db.State(), outcome) == CreateOrgWith(old(db.State()), ownerUserId, slug, status, now, admin)
    {
      ghost var before := db.State();
      var org := db.next;
      var membership := db.next + 1;
      db.next := db.next + 2;
      db.orgs := db.orgs[org := Organization(slug, status, false)];
      db.memberships := db.memberships[membership := FreshMembership(ownerUserId, org, NO_ATTRIBUTES, now)];
      if r :| r in db.roles && !db.roles[r].deleted && db.roles[r].orgId.None? && db.roles[r].slug == ADMIN {
        assert IsGlobalAdmin(before, r);
        admin := Some(r);
        db.userRoles := db.userRoles + {Assignment(membership, r)};
      } else {
        assert forall r :: IsGlobalAdmin(before, r) ==> r in db.roles;
        admin := None;
        assert db.userRoles == before.assignments + {};
      }
      outcome := Ok(org);
    }

    method SoftDelete(id: OrgId) returns (outcome: Result<(), Error>)
      requires db.Valid()
      modifies db
      ensures db.Valid()
      ensures (db.State(), outcome) == SoftDeleteOrg(old(db.State()), id)
    {
      OrganizationTables.StepKeepsInv(RollbackOnThrow, db.State(), OpSoftDeleteOrg(id));
      if id !in db.orgs || db.orgs[id].deleted {
        return Err(NotFound);
      }
      db.orgs := db.orgs[id := db.orgs[id].(deleted := true)];
      return Ok(());
    }
  }

  class InvitationService {
    const db: Database
    const commitRule: CommitRule

    constructor (database: Database, rule: CommitRule)
      ensures db == database && commitRule == rule
    {
      db, commitRule := database, rule;
    }

    method Create(organizationId: OrgId, email: string, roleId: Option<RoleId>, attributes: Attributes, now: Time)
      returns (outcome: Result<InvitationId, Error>)
      requires db.Valid()
      modifies db
      ensures db.Valid()
      ensures (db.State(), outcome) == CreateInvitation(old(db.State()), organizationId, email, roleId, attributes, now)
    {
      OrganizationTables.StepKeepsInv(RollbackOnThrow, db.State(), OpCreateInvitation(organizationId, email, roleId, attributes, now));
      if roleId.Some? {
        var r := roleId.value;
        if r !in db.roles || db.roles[r].deleted || !(db.roles[r].orgId == Some(organizationId) || db.roles[r].orgId.None?) {
          return Err(NotFound);
        }
      }
      if organizationId !in db.orgs {
        return Err(ForeignKeyViolation);
      }
      var id := db.next;
      db.next := db.next + 1;
      db.invitations := db.invitations[id := Invitation(organizationId, email, roleId, attributes, Pending, now + INVITATION_TTL_MS)];
      return Ok(id);
    }

    method Revoke(id: InvitationId, organizationId: OrgId) returns (outcome: Result<(), Error>)
      requires db.Valid()
      modifies db
      ensures db.Valid()
      ensures (db.State(), outcome) == RevokeInvitation(old(db.State()), id, organizationId)
    {
      OrganizationTables.StepKeepsInv(RollbackOnThrow, db.State(), OpRevokeInvitation(id, organizationId));
      if id !in db.invitations || db.invitations[id].orgId != organizationId {
        return Err(InvitationNotFound);
      }
      if db.invitations[id].status != Pending {
        return Ok(());
      }
      db.invitations := db.invitations[id := db.invitations[id].(status := Revoked)];
      return Ok(());
    }

    method Accept(token: InvitationId, acceptingUserId: UserId, acceptingEmail: string, now: Time)
      returns (outcome: Result<MembershipId, Error>)
      requires db.Valid()
      modifies db
      ensures db.Valid()
      ensures (db.State(), outcome) == Organizations.Accept(commitRule, old(db.State()), token, acceptingUserId, acceptingEmail, now)
    {
      OrganizationTables.StepKeepsInv(commitRule, db.State(), OpAccept(token, acceptingUserId, acceptingEmail, now));
      var savedInvitations := db.invitations;
      outcome := AcceptInTransaction(token, acceptingUserId, acceptingEmail, now);
      if outcome.Err? && commitRule.RollbackOnThrow? {
        db.invitations := savedInvitations;
      }
    }

    /** The transaction callback; before it throws it writes no table but the invitations. */
    method AcceptInTransaction(token: InvitationId, acceptingUserId: UserId, acceptingEmail: string, now: Time)
      returns (outcome: Result<MembershipId, Error>)
      requires db.Valid()
      modifies db
      ensures (db.State(), outcome) == AcceptBody(old(db.State()), token, acceptingUserId, acceptingEmail, now)
      ensures outcome.Err? ==> db.State() == old(db.State()).(invitations := db.invitations)
    {
      if token !in db.invitations {
        return Err(InvalidToken);
      }
      var invitation := db.invitations[token];
      if invitation.status == Accepted {
        return Err(AlreadyAccepted);
      }
      if invitation.status == Revoked {
        return Err(InvitationRevoked);
      }
      if invitation.expiresAt <= now || invitation.status == Expired {
        db.invitations := db.invitations[token := invitation.(status := Expired)];
        return Err(InvitationExpired);
      }
      if invitation.email != acceptingEmail {
        return Err(EmailMismatch);
      }
      var membership := UpsertMembership(invitation, acceptingUserId, now);
      if invitation.role.Some? {
        db.userRoles := db.userRoles + {Assignment(membership, invitation.role.value)};
        var row := db.memberships[membership];
        db.memberships := db.memberships[membership := row.(permissionsVersion := row.permissionsVersion + 1)];
      }
      ghost var joined := Joined(old(db.State()), invitation, acceptingUserId, now).0;
      assert db.memberships == joined.memberships && db.userRoles == joined.assignments;
      db.invitations := db.invitations[token := invitation.(status := Accepted)];
      return Ok(membership);
    }

    /** Brings the user's membership back, or creates it. */
    method UpsertMembership(invitation: Invitation, userId: UserId, now: Time) returns (membership: MembershipId)
      requires db.Valid()
      modifies db`memberships, db`next
      ensures (membership, db.memberships)
              == (JoinedMembership(old(db.State()), invitation, userId, now).0,
                  old(db.memberships)[membership := JoinedMembership(old(db.State()), invitation, userId, now).1])
      ensures db.next == if membership == old(db.next) then old(db.next) + 1 else old(db.next)
    {
      if m :| m in db.memberships && db.memberships[m].userId == userId && db.memberships[m].orgId == invitation.orgId {
        FindMembershipIsUnique(db.State(), m, userId, invitation.orgId);
        db.memberships := db.memberships[m := Rejoined(db.memberships[m], invitation.attributes)];
        return m;
      } else {
        membership := db.next;
        db.next := db.next + 1;
        db.memberships := db.memberships[membership := FreshMembership(userId, invitation.orgId, invitation.attributes, now)];
      }
    }
  }
}
