/**
  The tables behind organizations, memberships, roles, permissions and invitations, and the
  operations of their services as functions on them
  (src/modules/organizations/services and src/modules/authorization/services).

  A membership's cache entry is keyed by its (user, organization) pair; PermissionNames shows
  that the string keys of the code determine that pair.
 */
module Organizations {
  import opened Wrappers

  type UserId = nat
  type OrgId = nat
  type MembershipId = nat
  type RoleId = nat
  type PermissionId = nat
  type InvitationId = nat

  datatype OrgStatus = OrgActive | OrgInactive | OrgSuspended
  datatype Organization = Organization(slug: string, status: OrgStatus, deleted: bool)

  datatype MembershipStatus = MemberActive | MemberInvited | MemberSuspended | MemberRemoved
  datatype Attributes = Attributes(department: Option<string>, region: Option<string>, jobTitle: Option<string>, clearanceLevel: int)
  datatype Membership = Membership(
    userId: UserId, orgId: OrgId, status: MembershipStatus, attributes: Attributes,
    permissionsVersion: nat, attributesVersion: nat, joinedAt: Time, deleted: bool)

  datatype Role = Role(orgId: Option<OrgId>, slug: string, isSystem: bool, deleted: bool)
  datatype Permission = Permission(resource: string, action: string)
  datatype Grant = Grant(role: RoleId, permission: PermissionId)
  datatype Assignment = Assignment(membership: MembershipId, role: RoleId)

  datatype InvitationStatus = Pending | Accepted | Expired | Revoked
  datatype Invitation = Invitation(
    orgId: OrgId, email: string, role: Option<RoleId>, attributes: Attributes, status: InvitationStatus, expiresAt: Time)

  datatype CacheKey = CacheKey(userId: UserId, orgId: OrgId)
  datatype CacheEntry = CacheEntry(permissions: seq<Permission>, expiresAt: Time)

  datatype State = State(
    orgs: map<OrgId, Organization>, memberships: map<MembershipId, Membership>,
    roles: map<RoleId, Role>, permissions: map<PermissionId, Permission>,
    grants: set<Grant>, assignments: set<Assignment>,
    invitations: map<InvitationId, Invitation>,
    cache: map<CacheKey, CacheEntry>, next: nat)

  /** UniqueViolation, ForeignKeyViolation and RecordNotFound are raised by the database. */
  datatype Error =
    | OrgSlugTaken | RoleSlugTaken | NotFound | SystemRole | RoleOfOtherOrg | MembershipNotFound | LastAdmin
    | PermissionInUse | InvitationNotFound | InvalidToken | AlreadyAccepted | InvitationRevoked | InvitationExpired
    | EmailMismatch | UniqueViolation | ForeignKeyViolation | RecordNotFound

  const ADMIN := "admin"
  const INVITATION_TTL_MS: Time := 7 * 24 * 60 * 60 * 1000
  const PERMISSION_CACHE_TTL_MS: Time := 300 * 1000

  const Init := State(map[], map[], map[], map[], {}, {}, map[], map[], 0)

  // ---------------------------------------------------------------- queries

  predicate LiveRole(s: State, r: RoleId) {
    r in s.roles && !s.roles[r].deleted
  }

  predicate LiveMember(s: State, m: MembershipId) {
    m in s.memberships && !s.memberships[m].deleted
  }

  function Key(s: State, m: MembershipId): CacheKey
    requires m in s.memberships
  {
    CacheKey(s.memberships[m].userId, s.memberships[m].orgId)
  }

  function Keys(s: State, ms: set<MembershipId>): set<CacheKey> {
    set m | m in ms && m in s.memberships :: Key(s, m)
  }

  /** Non-deleted memberships holding the role. */
  function Holders(s: State, r: RoleId): set<MembershipId> {
    set m | m in s.memberships && !s.memberships[m].deleted && Assignment(m, r) in s.assignments
  }

  function MembersOf(s: State, orgs: set<OrgId>): set<MembershipId> {
    set m | m in s.memberships && !s.memberships[m].deleted && s.memberships[m].orgId in orgs
  }

  function LiveRoles(s: State, m: MembershipId): set<RoleId> {
    set r | r in s.roles && !s.roles[r].deleted && Assignment(m, r) in s.assignments
  }

  /** Permissions granted to any of the roles. */
  function PermissionsOf(s: State, rs: set<RoleId>): set<Permission> {
    set g | g in s.grants && g.role in rs && g.permission in s.permissions :: s.permissions[g.permission]
  }

  /** The set the loader of resolveForMembership reads from the database. */
  function Resolved(s: State, m: MembershipId): set<Permission> {
    PermissionsOf(s, LiveRoles(s, m))
  }

  ghost predicate IsMembershipOf(s: State, m: MembershipId, u: UserId, o: OrgId) {
    m in s.memberships && s.memberships[m].userId == u && s.memberships[m].orgId == o
  }

  /** The unique membership of a user in an organization, deleted or not. */
  ghost function FindMembership(s: State, u: UserId, o: OrgId): (found: Option<MembershipId>)
    ensures found.Some? ==> IsMembershipOf(s, found.value, u, o)
    ensures found.None? ==> forall m :: !IsMembershipOf(s, m, u, o)
  {
    if exists m :: IsMembershipOf(s, m, u, o) then
      var m :| IsMembershipOf(s, m, u, o);
      Some(m)
    else None
  }

  ghost function FindLive(s: State, u: UserId, o: OrgId): (found: Option<MembershipId>)
    ensures found.Some? ==> IsMembershipOf(s, found.value, u, o) && LiveMember(s, found.value)
  {
    var found := FindMembership(s, u, o);
    if found.Some? && !s.memberships[found.value].deleted then found else None
  }

  ghost predicate IsGlobalAdmin(s: State, r: RoleId) {
    LiveRole(s, r) && s.roles[r].orgId.None? && s.roles[r].slug == ADMIN
  }

  ghost function FindGlobalAdmin(s: State): (found: Option<RoleId>)
    ensures found.Some? ==> IsGlobalAdmin(s, found.value)
    ensures found.None? ==> forall r :: !IsGlobalAdmin(s, r)
  {
    if exists r :: IsGlobalAdmin(s, r) then
      var r :| IsGlobalAdmin(s, r);
      Some(r)
    else None
  }

  // ---------------------------------------------------------------- version counters and cache

  function BumpPermissions(s: State, ms: set<MembershipId>): map<MembershipId, Membership> {
    map m | m in s.memberships ::
      if m in ms then s.memberships[m].(permissionsVersion := s.memberships[m].permissionsVersion + 1) else s.memberships[m]
  }

  function BumpBoth(s: State, ms: set<MembershipId>): map<MembershipId, Membership> {
    map m | m in s.memberships ::
      if m in ms then s.memberships[m].(permissionsVersion := s.memberships[m].permissionsVersion + 1,
                                        attributesVersion := s.memberships[m].attributesVersion + 1)
      else s.memberships[m]
  }

  /** The cache service's delete: a command that does not reach the cache is logged and ignored. */
  function DropKeys(cache: map<CacheKey, CacheEntry>, keys: set<CacheKey>, deleteOk: bool): map<CacheKey, CacheEntry> {
    if deleteOk then cache - keys else cache
  }

  /** bumpPermissionsVersionForRole followed by invalidateForRole. */
  function RoleChanged(s: State, r: RoleId, deleteOk: bool): State {
    s.(memberships := BumpPermissions(s, Holders(s, r)), cache := DropKeys(s.cache, Keys(s, Holders(s, r)), deleteOk))
  }

  // ---------------------------------------------------------------- RoleService

  predicate AllExist(s: State, ids: seq<PermissionId>) {
    forall i :: 0 <= i < |ids| ==> ids[i] in s.permissions
  }

  function GrantsFor(r: RoleId, ids: seq<PermissionId>): set<Grant> {
    set i | 0 <= i < |ids| :: Grant(r, ids[i])
  }

  function CreateRole(s: State, org: Option<OrgId>, slug: string, ids: seq<PermissionId>): (State, Result<RoleId, Error>) {
    if exists r :: r in s.roles && s.roles[r].orgId == org && s.roles[r].slug == slug && !s.roles[r].deleted then (s, Err(RoleSlugTaken))
    else if org.Some? && exists r :: r in s.roles && s.roles[r].orgId == org && s.roles[r].slug == slug then (s, Err(UniqueViolation))
    else if (org.Some? && org.value !in s.orgs) || !AllExist(s, ids) then (s, Err(ForeignKeyViolation))
    else
      (s.(roles := s.roles[s.next := Role(org, slug, false, false)],
          grants := s.grants + GrantsFor(s.next, ids), next := s.next + 1), Ok(s.next))
  }

  function RemoveRole(s: State, r: RoleId, deleteOk: bool): (State, Result<(), Error>) {
    if !LiveRole(s, r) then (s, Err(NotFound))
    else if s.roles[r].isSystem then (s, Err(SystemRole))
    else (RoleChanged(s.(roles := s.roles[r := s.roles[r].(deleted := true)]), r, deleteOk), Ok(()))
  }

  /** The grants once the role's own are replaced. */
  function Regranted(s: State, r: RoleId, ids: seq<PermissionId>): set<Grant> {
    (set g | g in s.grants && g.role != r) + GrantsFor(r, ids)
  }

  function SetPermissions(s: State, r: RoleId, ids: seq<PermissionId>, deleteOk: bool): (State, Result<(), Error>) {
    if !LiveRole(s, r) then (s, Err(NotFound))
    else if !AllExist(s, ids) then (s, Err(ForeignKeyViolation))
    else (RoleChanged(s.(grants := Regranted(s, r, ids)), r, deleteOk), Ok(()))
  }

  /** Writes to one membership's assignments: its counter moves and one cache key goes. */
  function Reassigned(s: State, org: OrgId, m: MembershipId, assignments: set<Assignment>, deleteOk: bool): State
    requires m in s.memberships
  {
    s.(assignments := assignments, memberships := BumpPermissions(s, {m}),
       cache := DropKeys(s.cache, {CacheKey(s.memberships[m].userId, org)}, deleteOk))
  }

  function AssignRole(s: State, org: OrgId, m: MembershipId, r: RoleId, deleteOk: bool): (State, Result<(), Error>) {
    if !LiveRole(s, r) then (s, Err(NotFound))
    else if s.roles[r].orgId.Some? && s.roles[r].orgId.value != org then (s, Err(RoleOfOtherOrg))
    else if m !in s.memberships then (s, Err(ForeignKeyViolation))
    else (Reassigned(s, org, m, s.assignments + {Assignment(m, r)}, deleteOk), Ok(()))
  }

  function RevokeRole(s: State, org: OrgId, m: MembershipId, r: RoleId, deleteOk: bool): (State, Result<(), Error>) {
    if m !in s.memberships then (s, Err(RecordNotFound))
    else (Reassigned(s, org, m, s.assignments - {Assignment(m, r)}, deleteOk), Ok(()))
  }

  // ---------------------------------------------------------------- PermissionService

  function CreatePermission(s: State, resource: string, action: string): State {
    if exists p :: p in s.permissions && s.permissions[p] == Permission(resource, action) then s
    else s.(permissions := s.permissions[s.next := Permission(resource, action)], next := s.next + 1)
  }

  function RemovePermission(s: State, p: PermissionId): (State, Result<(), Error>) {
    if exists g :: g in s.grants && g.permission == p then (s, Err(PermissionInUse))
    else if p !in s.permissions then (s, Err(RecordNotFound))
    else (s.(permissions := s.permissions - {p}), Ok(()))
  }

  /** Whether each cache command of a request reaches the cache. */
  datatype CacheHealth = CacheHealth(getOk: bool, setOk: bool)

  /**
    resolveForMembership through getOrSet: `loaded` is what the loader would return. A failing
    get is a miss and a failing set is ignored.
   */
  function ResolveAt(s: State, key: CacheKey, loaded: seq<Permission>, health: CacheHealth, now: Time): (State, seq<Permission>) {
    if health.getOk && key in s.cache && now < s.cache[key].expiresAt then (s, s.cache[key].permissions)
    else if health.setOk then (s.(cache := s.cache[key := CacheEntry(loaded, now + PERMISSION_CACHE_TTL_MS)]), loaded)
    else (s, loaded)
  }

  /** The same for a request of membership m, whose token names its own user and organization. */
  function Resolve(s: State, m: MembershipId, loaded: seq<Permission>, health: CacheHealth, now: Time): (State, seq<Permission>)
    requires m in s.memberships
  {
    ResolveAt(s, Key(s, m), loaded, health, now)
  }

  // ---------------------------------------------------------------- MembershipService

  /** A DTO field: absent, null, or a value. `x ?? undefined` leaves the column alone unless a value is given. */
  datatype Patch<T> = Absent | Null | Set(value: T)

  datatype MemberDto = MemberDto(
    status: Patch<MembershipStatus>, department: Patch<string>, region: Patch<string>, jobTitle: Patch<string>, clearanceLevel: Patch<int>)

  function Patched<T>(column: T, p: Patch<T>): T {
    if p.Set? then p.value else column
  }

  function PatchedText(column: Option<string>, p: Patch<string>): Option<string> {
    if p.Set? then Some(p.value) else column
  }

  predicate AttributeChanged(dto: MemberDto) {
    !dto.department.Absent? || !dto.region.Absent? || !dto.jobTitle.Absent? || !dto.clearanceLevel.Absent?
  }

  function PatchMember(m: Membership, dto: MemberDto): Membership {
    m.(status := Patched(m.status, dto.status),
       attributes := Attributes(PatchedText(m.attributes.department, dto.department), PatchedText(m.attributes.region, dto.region),
                                PatchedText(m.attributes.jobTitle, dto.jobTitle), Patched(m.attributes.clearanceLevel, dto.clearanceLevel)),
       attributesVersion := if AttributeChanged(dto) then m.attributesVersion + 1 else m.attributesVersion)
  }

  ghost function UpdateAttributes(s: State, org: OrgId, u: UserId, dto: MemberDto): (State, Result<MembershipId, Error>) {
    match FindLive(s, u, org)
    case None => (s, Err(MembershipNotFound))
    case Some(m) => (s.(memberships := s.memberships[m := PatchMember(s.memberships[m], dto)]), Ok(m))
  }

  /** The user-role rows ensureNotLastAdmin counts. */
  function AdminRows(s: State, org: OrgId): set<Assignment> {
    set a | a in s.assignments
            && a.membership in s.memberships && s.memberships[a.membership].orgId == org
            && !s.memberships[a.membership].deleted && s.memberships[a.membership].status.MemberActive?
            && a.role in s.roles && s.roles[a.role].slug == ADMIN && !s.roles[a.role].deleted
  }

  /** The second query: any admin-slug role, deleted or not. */
  predicate HoldsAdminSlug(s: State, m: MembershipId) {
    exists a :: a in s.assignments && a.membership == m && a.role in s.roles && s.roles[a.role].slug == ADMIN
  }

  function Removed(s: State, m: MembershipId): State
    requires m in s.memberships
  {
    s.(memberships := s.memberships[m := s.memberships[m].(status := MemberRemoved, deleted := true)])
  }

  ghost function RemoveMember(s: State, org: OrgId, u: UserId): (State, Result<(), Error>) {
    match FindLive(s, u, org)
    case None => (s, Err(MembershipNotFound))
    case Some(m) =>
      if |AdminRows(s, org)| <= 1 && HoldsAdminSlug(s, m) then (s, Err(LastAdmin)) else (Removed(s, m), Ok(()))
  }

  /**
    What PolicyService does after a policy change: all members of the affected organizations, with
    one cache delete for each organization, of which those for `lost` do not reach the cache.
   */
  function PolicyChanged(s: State, org: Option<OrgId>, lost: set<OrgId>): State {
    PolicyChangedIn(s, if org.Some? then {org.value} else (set o | o in s.orgs && !s.orgs[o].deleted), lost)
  }

  function PolicyChangedIn(s: State, orgs: set<OrgId>, lost: set<OrgId>): State {
    s.(memberships := BumpBoth(s, MembersOf(s, orgs)), cache := s.cache - Keys(s, MembersOf(s, orgs - lost)))
  }

  // ---------------------------------------------------------------- OrganizationService

  function FreshMembership(u: UserId, org: OrgId, attributes: Attributes, now: Time): Membership {
    Membership(u, org, MemberActive, attributes, 1, 1, now, false)
  }

  const NO_ATTRIBUTES := Attributes(None, None, None, 0)

  /** create, given which global admin role findFirst returned, if any. */
  function CreateOrgWith(s: State, owner: UserId, slug: string, status: OrgStatus, now: Time, admin: Option<RoleId>)
    : (State, Result<OrgId, Error>)
  {
    if exists o :: o in s.orgs && s.orgs[o].slug == slug then (s, Err(OrgSlugTaken))
    else
      var org, m := s.next, s.next + 1;
      (s.(orgs := s.orgs[org := Organization(slug, status, false)],
          memberships := s.memberships[m := FreshMembership(owner, org, NO_ATTRIBUTES, now)],
          assignments := s.assignments + (if admin.Some? then {Assignment(m, admin.value)} else {}),
          next := s.next + 2), Ok(org))
  }

  ghost predicate FoundGlobalAdmin(s: State, admin: Option<RoleId>) {
    if admin.Some? then IsGlobalAdmin(s, admin.value) else forall r :: !IsGlobalAdmin(s, r)
  }

  ghost function CreateOrg(s: State, owner: UserId, slug: string, status: OrgStatus, now: Time): (State, Result<OrgId, Error>) {
    CreateOrgWith(s, owner, slug, status, now, FindGlobalAdmin(s))
  }

  function UpdateOrgStatus(s: State, org: OrgId, status: OrgStatus): (State, Result<(), Error>) {
    if org !in s.orgs || s.orgs[org].deleted then (s, Err(NotFound))
    else (s.(orgs := s.orgs[org := s.orgs[org].(status := status)]), Ok(()))
  }

  function SoftDeleteOrg(s: State, org: OrgId): (State, Result<(), Error>) {
    if org !in s.orgs || s.orgs[org].deleted then (s, Err(NotFound))
    else (s.(orgs := s.orgs[org := s.orgs[org].(deleted := true)]), Ok(()))
  }

  // ---------------------------------------------------------------- InvitationService

  function CreateInvitation(s: State, org: OrgId, email: string, role: Option<RoleId>, attributes: Attributes, now: Time)
    : (State, Result<InvitationId, Error>)
  {
    if role.Some? && !(LiveRole(s, role.value) && (s.roles[role.value].orgId == Some(org) || s.roles[role.value].orgId.None?))
    then (s, Err(NotFound))
    else if org !in s.orgs then (s, Err(ForeignKeyViolation))
    else
      (s.(invitations := s.invitations[s.next := Invitation(org, email, role, attributes, Pending, now + INVITATION_TTL_MS)],
          next := s.next + 1), Ok(s.next))
  }

  function WithStatus(s: State, id: InvitationId, status: InvitationStatus): State
    requires id in s.invitations
  {
    s.(invitations := s.invitations[id := s.invitations[id].(status := status)])
  }

  function RevokeInvitation(s: State, id: InvitationId, org: OrgId): (State, Result<(), Error>) {
    if id !in s.invitations || s.invitations[id].orgId != org then (s, Err(InvitationNotFound))
    else if !s.invitations[id].status.Pending? then (s, Ok(()))
    else (WithStatus(s, id, Revoked), Ok(()))
  }

  /** The membership accept creates or brings back, before any role is added. */
  function Rejoined(m: Membership, attributes: Attributes): Membership {
    m.(status := MemberActive, attributes := attributes, deleted := false, attributesVersion := m.attributesVersion + 1)
  }

  ghost function JoinedMembership(s: State, inv: Invitation, u: UserId, now: Time): (MembershipId, Membership) {
    match FindMembership(s, u, inv.orgId)
    case Some(m) => (m, Rejoined(s.memberships[m], inv.attributes))
    case None => (s.next, FreshMembership(u, inv.orgId, inv.attributes, now))
  }

  ghost function Joined(s: State, inv: Invitation, u: UserId, now: Time): (State, MembershipId) {
    var (m, row) := JoinedMembership(s, inv, u, now);
    var withRole := if inv.role.Some? then row.(permissionsVersion := row.permissionsVersion + 1) else row;
    (s.(memberships := s.memberships[m := withRole],
        assignments := s.assignments + (if inv.role.Some? then {Assignment(m, inv.role.value)} else {}),
        next := if m == s.next then s.next + 1 else s.next), m)
  }

  /** The guards of accept in the code's order, after the token lookup. */
  function AcceptError(inv: Invitation, email: string, now: Time): Option<Error> {
    if inv.status.Accepted? then Some(AlreadyAccepted)
    else if inv.status.Revoked? then Some(InvitationRevoked)
    else if inv.expiresAt <= now || inv.status.Expired? then Some(InvitationExpired)
    else if inv.email != email then Some(EmailMismatch)
    else None
  }

  /** The transaction callback of accept; `email` is already lower-cased. */
  ghost function AcceptBody(s: State, id: InvitationId, u: UserId, email: string, now: Time): (State, Result<MembershipId, Error>) {
    if id !in s.invitations then (s, Err(InvalidToken))
    else
      var inv := s.invitations[id];
      match AcceptError(inv, email, now)
      case Some(InvitationExpired) => (WithStatus(s, id, Expired), Err(InvitationExpired))
      case Some(e) => (s, Err(e))
      case None =>
        var (s1, m) := Joined(s, inv, u, now);
        (WithStatus(s1, id, Accepted), Ok(m))
  }

  ghost function Accept(rule: CommitRule, s: State, id: InvitationId, u: UserId, email: string, now: Time): (State, Result<MembershipId, Error>) {
    var (after, outcome) := AcceptBody(s, id, u, email, now);
    (Commit(rule, s, after, outcome), outcome)
  }

  // ---------------------------------------------------------------- runs

  datatype Op =
    | OpCreateOrg(owner: UserId, slug: string, orgStatus: OrgStatus, now: Time)
    | OpUpdateOrgStatus(org: OrgId, orgStatus: OrgStatus)
    | OpSoftDeleteOrg(org: OrgId)
    | OpCreateRole(scope: Option<OrgId>, slug: string, ids: seq<PermissionId>)
    | OpRemoveRole(role: RoleId, deleteOk: bool, now: Time)
    | OpSetPermissions(role: RoleId, ids: seq<PermissionId>, deleteOk: bool, now: Time)
    | OpAssignRole(org: OrgId, membership: MembershipId, role: RoleId, deleteOk: bool, now: Time)
    | OpRevokeRole(org: OrgId, membership: MembershipId, role: RoleId, deleteOk: bool, now: Time)
    | OpCreatePermission(resource: string, action: string)
    | OpRemovePermission(permission: PermissionId)
    | OpResolve(membership: MembershipId, loaded: seq<Permission>, health: CacheHealth, now: Time)
    | OpUpdateAttributes(org: OrgId, user: UserId, dto: MemberDto)
    | OpRemoveMember(org: OrgId, user: UserId)
    | OpPolicyChanged(scope: Option<OrgId>, lost: set<OrgId>)
    | OpCreateInvitation(org: OrgId, email: string, invitedRole: Option<RoleId>, attributes: Attributes, now: Time)
    | OpRevokeInvitation(invitation: InvitationId, org: OrgId)
    | OpAccept(invitation: InvitationId, user: UserId, email: string, now: Time)

  predicate IsRoleOp(op: Op) {
    op.OpCreateRole? || op.OpRemoveRole? || op.OpSetPermissions? || op.OpAssignRole? || op.OpRevokeRole?
  }

  predicate IsMemberOp(op: Op) {
    op.OpUpdateAttributes? || op.OpRemoveMember? || op.OpPolicyChanged? || op.OpAccept? || op.OpCreateOrg?
  }

  /** Requests reach resolveForMembership with a live membership, and the loader returns its resolved set. */
  predicate CanResolve(s: State, m: MembershipId, loaded: seq<Permission>) {
    LiveMember(s, m) && (set i | 0 <= i < |loaded| :: loaded[i]) == Resolved(s, m)
  }

  ghost function Step(rule: CommitRule, s: State, op: Op): State {
    match op
    case OpCreateOrg(owner, slug, status, now) => CreateOrg(s, owner, slug, status, now).0
    case OpUpdateOrgStatus(org, status) => UpdateOrgStatus(s, org, status).0
    case OpSoftDeleteOrg(org) => SoftDeleteOrg(s, org).0
    case OpCreateRole(scope, slug, ids) => CreateRole(s, scope, slug, ids).0
    case OpRemoveRole(r, ok, _) => RemoveRole(s, r, ok).0
    case OpSetPermissions(r, ids, ok, _) => SetPermissions(s, r, ids, ok).0
    case OpAssignRole(org, m, r, ok, _) => AssignRole(s, org, m, r, ok).0
    case OpRevokeRole(org, m, r, ok, _) => RevokeRole(s, org, m, r, ok).0
    case OpCreatePermission(res, act) => CreatePermission(s, res, act)
    case OpRemovePermission(p) => RemovePermission(s, p).0
    case OpResolve(m, loaded, health, now) => if CanResolve(s, m, loaded) then Resolve(s, m, loaded, health, now).0 else s
    case OpUpdateAttributes(org, u, dto) => UpdateAttributes(s, org, u, dto).0
    case OpRemoveMember(org, u) => RemoveMember(s, org, u).0
    case OpPolicyChanged(scope, lost) => PolicyChanged(s, scope, lost)
    case OpCreateInvitation(org, email, role, attrs, now) => CreateInvitation(s, org, email, role, attrs, now).0
    case OpRevokeInvitation(id, org) => RevokeInvitation(s, id, org).0
    case OpAccept(id, u, email, now) => Accept(rule, s, id, u, email, now).0
  }

  ghost function Run(rule: CommitRule, s: State, ops: seq<Op>): State
    decreases |ops|
  {
    if ops == [] then s else Run(rule, Step(rule, s, ops[0]), ops[1..])
  }

  // ---------------------------------------------------------------- table constraints

  /** At most one membership row per (user, organization). */
  ghost predicate UniqueMemberships(s: State) {
    forall a, b :: a in s.memberships && b in s.memberships && Key(s, a) == Key(s, b) ==> a == b
  }

  ghost predicate ForeignKeys(s: State) {
    && (forall m :: m in s.memberships ==> s.memberships[m].orgId in s.orgs)
    && (forall a :: a in s.assignments ==> a.membership in s.memberships && a.role in s.roles)
    && (forall g :: g in s.grants ==> g.role in s.roles && g.permission in s.permissions)
    && (forall id :: id in s.invitations ==> s.invitations[id].orgId in s.orgs)
    && (forall id :: id in s.invitations && s.invitations[id].role.Some? ==> s.invitations[id].role.value in s.roles)
  }

  ghost predicate BelowNext(s: State) {
    && (forall o :: o in s.orgs ==> o < s.next)
    && (forall m :: m in s.memberships ==> m < s.next)
    && (forall r :: r in s.roles ==> r < s.next)
    && (forall p :: p in s.permissions ==> p < s.next)
    && (forall i :: i in s.invitations ==> i < s.next)
  }

  ghost predicate Inv(s: State) {
    UniqueMemberships(s) && ForeignKeys(s) && BelowNext(s)
  }

  lemma FindMembershipIsUnique(s: State, m: MembershipId, u: UserId, o: OrgId)
    requires UniqueMemberships(s) && IsMembershipOf(s, m, u, o)
    ensures FindMembership(s, u, o) == Some(m)
  {
    var found := FindMembership(s, u, o);
    assert Key(s, m) == Key(s, found.value);
  }
}
