/**
  The organization tables a deployment starts with: the seeded permissions and protected global
  roles (prisma/seed.ts), and the run theorems from there.
 */
module Seed {
  import opened Wrappers
  import opened Organizations
  import LastAdminRule
  import OrganizationTables
  import A = Auth
  import T = AccessTokens
  import V = OrganizationVersions
  import Requests
  import PermissionNames
  import P = Policies

  const PERMISSIONS := [
    Permission("users", "read"), Permission("users", "create"), Permission("users", "update"), Permission("users", "delete"),
    Permission("roles", "manage"), Permission("permissions", "manage"), Permission("organizations", "manage"),
    Permission("members", "read"), Permission("members", "manage"), Permission("invitations", "manage"),
    Permission("policies", "manage"), Permission("audit", "read")]

  const MANAGER_PERMISSIONS: set<PermissionId> := {0, 2, 7, 8, 9, 11}
  const USER_PERMISSIONS: set<PermissionId> := {0}

  const SUPER_ADMIN: RoleId := 12
  const ADMIN_ROLE: RoleId := 13
  const MANAGER: RoleId := 14
  const USER: RoleId := 15

  function SystemRole(slug: string): Role {
    Role(None, slug, true, false)
  }

  function GrantAll(r: RoleId, ps: set<PermissionId>): set<Grant> {
    set p | p in ps :: Grant(r, p)
  }

  /** The permission ids the upserts hand out. */
  const ALL_PERMISSIONS: set<PermissionId> := {0, 1, 2, 3, 4, 5, 6, 7, 8, 9, 10, 11}

  /** Permission rows 0 to 11 and role rows 12 to 15, with nothing else. */
  function Tables(): State {
    Init.(permissions := map p | p in ALL_PERMISSIONS :: PERMISSIONS[p],
          roles := map[SUPER_ADMIN := SystemRole("super-admin"), ADMIN_ROLE := SystemRole(ADMIN),
                       MANAGER := SystemRole("manager"), USER := SystemRole("user")],
          grants := GrantAll(SUPER_ADMIN, ALL_PERMISSIONS) + GrantAll(ADMIN_ROLE, ALL_PERMISSIONS)
                    + GrantAll(MANAGER, MANAGER_PERMISSIONS) + GrantAll(USER, USER_PERMISSIONS),
          next := 16)
  }

  lemma OnlyOneIsAdmin()
    ensures "super-admin" != ADMIN && "manager" != ADMIN && "user" != ADMIN
  {
    assert |"super-admin"| == 11 && |"manager"| == 7 && |"user"| == 4 && |ADMIN| == 5;
  }

  lemma GrantsAreSeeded(g: Grant)
    requires g in Tables().grants
    ensures g.role in {SUPER_ADMIN, ADMIN_ROLE, MANAGER, USER} && g.permission in ALL_PERMISSIONS
  {
  }

  lemma ForeignKeysAreSound()
    ensures ForeignKeys(Tables())
  {
    forall g | g in Tables().grants ensures g.role in Tables().roles && g.permission in Tables().permissions { GrantsAreSeeded(g); }
  }

  lemma RolesAreSound()
    ensures LastAdminRule.OnlySeededAdmin(Tables(), ADMIN_ROLE)
  {
    OnlyOneIsAdmin();
    var roles := Tables().roles;
    assert roles[ADMIN_ROLE] == SystemRole(ADMIN);
    forall r | r in roles && roles[r].slug == ADMIN ensures r == ADMIN_ROLE {
      assert r == SUPER_ADMIN || r == ADMIN_ROLE || r == MANAGER || r == USER;
    }
  }

  /** The constraints hold of the seeded tables, and admin is the one live role with that slug, protected and global. */
  lemma TablesAreSound()
    ensures Inv(Tables()) && Tables().cache == map[] && Tables().orgs == map[]
    ensures LastAdminRule.OnlySeededAdmin(Tables(), ADMIN_ROLE)
  {
    ForeignKeysAreSound();
    RolesAreSound();
    RowsAreBelowNext();
  }

  lemma RowsAreBelowNext()
    ensures BelowNext(Tables())
  {
  }

  /** The tables before the first request: empty, or seeded. */
  predicate Deployed(tables: State) {
    tables == Init || tables == Tables()
  }

  lemma DeployedIsSound(tables: State)
    requires Deployed(tables)
    ensures Inv(tables) && tables.cache == map[]
  {
    TablesAreSound();
  }

  function Deployment(tables: State): T.World {
    T.World(A.Init, tables, {})
  }

  /** An accepted token of an empty or seeded deployment stands for what it stood for when it was signed. */
  lemma AcceptedTokenInDeployment(cfg: A.Config, tables: State, ops: seq<T.Op>, e: T.Minted, now: Time)
    requires Deployed(tables)
    requires var w := T.Run(cfg, Deployment(tables), ops);
             e in w.minted && e.payload.context.membershipId.Some? && T.Validate(w.auth, w.org, e.payload, now).Ok?
    ensures var w := T.Run(cfg, Deployment(tables), ops);
            var m := e.payload.context.membershipId.value;
            LiveMember(w.org, m) && e.seen == Some(V.TakeSnapshot(w.org, m))
  {
    DeployedIsSound(tables);
    T.DeploymentInv(cfg, tables);
    T.AcceptedTokenSpeaksForThePresent(cfg, Deployment(tables), ops, e, now);
  }

  /** A request with such a token is decided on the permissions held at signing, after every settled run. */
  lemma AcceptedRequestInDeployment(cfg: A.Config, tables: State, ops: seq<T.Op>, clock: Time, e: T.Minted, order: seq<Grant>,
                                    health: CacheHealth, now: Time, isDevelopment: bool, policies: seq<P.Policy>, r: P.Request)
    requires Deployed(tables) && clock <= now && Requests.Settled(cfg, Deployment(tables), ops, clock, now)
    requires Requests.AcceptedRequest(T.Run(cfg, Deployment(tables), ops), e, order, now)
    ensures e.seen.Some? && e.payload.context.membershipId.value in T.Run(cfg, Deployment(tables), ops).org.memberships
    ensures var ps := Requests.ResolvedFor(T.Run(cfg, Deployment(tables), ops).org, e.payload.context.membershipId.value, order, health, now);
            P.Authorize(isDevelopment, true, ps, policies, r).allowed
            <==> !P.SomeMatch(policies, r, P.DENY)
                 && (Permission(r.resource, r.action) in e.seen.value.permissions || P.SomeMatch(policies, r, P.ALLOW))
  {
    DeployedIsSound(tables);
    DeployedNamesAreAdmitted(tables);
    Requests.DeploymentIsSane(cfg, tables, clock, now);
    Requests.AcceptedRequestNeedsThePermission(cfg, Deployment(tables), ops, clock, e, order, health, now, isDevelopment, policies, r);
  }

  lemma LettersAreAdmitted(name: string)
    requires 2 <= |name| <= 60 && forall i :: 0 <= i < |name| ==> PermissionNames.LowerLetter(name[i])
    ensures PermissionNames.AdmittedName(name)
  {
  }

  lemma SeededResourcesAreAdmitted(i: nat)
    requires i < |PERMISSIONS|
    ensures PermissionNames.AdmittedName(PERMISSIONS[i].resource)
  {
    LettersAreAdmitted(PERMISSIONS[i].resource);
  }

  lemma SeededActionsAreAdmitted(i: nat)
    requires i < |PERMISSIONS|
    ensures PermissionNames.AdmittedName(PERMISSIONS[i].action)
  {
    LettersAreAdmitted(PERMISSIONS[i].action);
  }

  lemma DeployedNamesAreAdmitted(tables: State)
    requires Deployed(tables)
    ensures PermissionNames.AdmittedNames(tables) && PermissionNames.ColonFreeNames(tables)
  {
    if tables == Tables() {
      forall p | p in tables.permissions
        ensures PermissionNames.AdmittedName(tables.permissions[p].resource) && PermissionNames.AdmittedName(tables.permissions[p].action)
      {
        SeededResourcesAreAdmitted(p);
        SeededActionsAreAdmitted(p);
      }
    }
    forall p | p in tables.permissions ensures PermissionNames.ColonFree(tables.permissions[p].resource) {
      PermissionNames.AdmittedNamesAreColonFree(tables.permissions[p].resource);
    }
  }

  /** Every organization created in a seeded deployment keeps an active administrator, under the conditions of the rule. */
  lemma OrganizationsKeepAnAdminInDeployment(rule: CommitRule, ops: seq<Op>, o: OrgId)
    requires forall i :: 0 <= i < |ops| ==> LastAdminRule.KeepsOneAdminRole(ops[i])
    requires LastAdminRule.LeavesAdminThroughout(rule, Tables(), ops, o)
    requires o in Run(rule, Tables(), ops).orgs
    ensures LastAdminRule.HasAdmin(Run(rule, Tables(), ops), o)
  {
    TablesAreSound();
    LastAdminRule.OrganizationsKeepAnAdmin(rule, Tables(), ops, ADMIN_ROLE, o);
  }
}
