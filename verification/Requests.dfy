/**
  One request end to end: JwtStrategy accepts the token, resolveForMembership answers from the
  cache or the database, and AuthorizationService decides
  (src/modules/auth/strategies/jwt.strategy.ts, src/modules/authorization/services).
 */
module Requests {
  import opened Wrappers
  import opened AccessTokens
  import A = Auth
  import O = Organizations
  import V = OrganizationVersions
  import PermissionCache
  import PermissionNames
  import P = Policies

  /** The operations of a run that reach the organization tables. */
  function OrgOps(ops: seq<Op>): seq<O.Op> {
    if ops == [] then []
    else if ops[0].OrgOp? then [ops[0].org] + OrgOps(ops[1..])
    else OrgOps(ops[1..])
  }

  lemma {:induction false} OrgTablesOfRun(cfg: A.Config, w: World, ops: seq<Op>)
    ensures Run(cfg, w, ops).org == O.Run(cfg.rule, w.org, OrgOps(ops))
    decreases |ops|
  {
    if ops != [] {
      OrgTablesOfRun(cfg, Step(cfg, w, ops[0]), ops[1..]);
      if ops[0].OrgOp? {
        assert OrgOps(ops)[0] == ops[0].org && OrgOps(ops)[1..] == OrgOps(ops[1..]);
      }
    }
  }

  /** A world to start from: its tokens were signed for what they say, and what its cache holds is right or dead by `now`. */
  ghost predicate Sane(cfg: A.Config, w: World, clock: Time, now: Time) {
    Inv(cfg, w) && PermissionCache.CacheStart(w.org, clock, now) && PermissionNames.ColonFreeNames(w.org)
  }

  /**
    A run up to a request at `now`: the permissions it creates have admitted names, its clock never
    goes back, and whatever it did that could leave a wrong cache entry is a lifetime old.
   */
  ghost predicate Settled(cfg: A.Config, start: World, ops: seq<Op>, clock: Time, now: Time) {
    PermissionNames.AllAdmitted(OrgOps(ops)) && PermissionCache.Settled(cfg.rule, start.org, OrgOps(ops), clock, now)
  }

  /** A deployment may start from seeded tables, as long as nothing is cached yet. */
  lemma DeploymentIsSane(cfg: A.Config, tables: O.State, clock: Time, now: Time)
    requires O.Inv(tables) && tables.cache == map[] && PermissionNames.ColonFreeNames(tables) && clock <= now
    ensures Sane(cfg, World(A.Init, tables, {}), clock, now)
  {
    DeploymentInv(cfg, tables);
    PermissionCache.EmptyCacheIsRight(tables, clock, now);
  }

  /** What resolveForMembership answers: the deduplicated rows of the query, or the cached value. */
  function ResolvedFor(s: O.State, m: O.MembershipId, order: seq<O.Grant>, health: O.CacheHealth, now: Time): seq<O.Permission>
    requires m in s.memberships
  {
    O.Resolve(s, m, PermissionNames.FirstPerKey(PermissionNames.RowsOf(s, order)), health, now).1
  }

  /** The request's token is accepted now, and `order` is the order in which the query returns its rows. */
  ghost predicate AcceptedRequest(w: World, e: Minted, order: seq<O.Grant>, now: Time) {
    && e in w.minted && e.payload.context.membershipId.Some? && Validate(w.auth, w.org, e.payload, now).Ok?
    && PermissionNames.IsJoin(w.org, e.payload.context.membershipId.value, order)
  }

  /** What an accepted, organization-scoped token is answered by resolveForMembership. */
  lemma AcceptedRequestResolves(cfg: A.Config, start: World, ops: seq<Op>, clock: Time, e: Minted, order: seq<O.Grant>,
                                health: O.CacheHealth, now: Time)
    requires Sane(cfg, start, clock, now) && Settled(cfg, start, ops, clock, now)
    requires AcceptedRequest(Run(cfg, start, ops), e, order, now)
    ensures var w := Run(cfg, start, ops);
            var m := e.payload.context.membershipId.value;
            && e.seen.Some? && m in w.org.memberships
            && PermissionCache.Entries(ResolvedFor(w.org, m, order, health, now)) == e.seen.value.permissions
  {
    var w := Run(cfg, start, ops);
    var m := e.payload.context.membershipId.value;
    AcceptedTokenSpeaksForThePresent(cfg, start, ops, e, now);
    OrgTablesOfRun(cfg, start, ops);
    PermissionNames.RunKeepsColonFreeNames(cfg.rule, start.org, OrgOps(ops));
    PermissionNames.LoaderReadsResolved(w.org, m, order);
    var loaded := PermissionNames.FirstPerKey(PermissionNames.RowsOf(w.org, order));
    PermissionCache.RequestsSeeTheDatabase(cfg.rule, start.org, OrgOps(ops), clock, m, loaded, health, now);
  }

  /**
    After every settled run from a sane world, whether the request's own cache commands are
    answered, miss or fail: a request with an accepted token is allowed exactly when no matching
    DENY passes and either the member held the permission when the token was signed, itself or
    with a star for either name, or some matching ALLOW passes.
   */
  lemma AcceptedRequestIsDecidedAsSigned(cfg: A.Config, start: World, ops: seq<Op>, clock: Time, e: Minted, order: seq<O.Grant>,
                                         health: O.CacheHealth, now: Time, isDevelopment: bool, policies: seq<P.Policy>, r: P.Request)
    requires Sane(cfg, start, clock, now) && Settled(cfg, start, ops, clock, now)
    requires AcceptedRequest(Run(cfg, start, ops), e, order, now)
    ensures e.seen.Some? && e.payload.context.membershipId.value in Run(cfg, start, ops).org.memberships
    ensures var ps := ResolvedFor(Run(cfg, start, ops).org, e.payload.context.membershipId.value, order, health, now);
            P.Authorize(isDevelopment, true, ps, policies, r).allowed
            <==> !P.SomeMatch(policies, r, P.DENY)
                 && (PermissionNames.HoldsPair(e.seen.value.permissions, r.resource, r.action) || P.SomeMatch(policies, r, P.ALLOW))
  {
    AcceptedRequestResolves(cfg, start, ops, clock, e, order, health, now);
    var ps := ResolvedFor(Run(cfg, start, ops).org, e.payload.context.membershipId.value, order, health, now);
    PermissionNames.HasPermissionIff(ps, r.resource, r.action);
    P.AllowedIff(isDevelopment, true, ps, policies, r);
  }

  /** Where every permission has admitted names, stars do not occur, and the permission held is the one asked for. */
  lemma AcceptedRequestNeedsThePermission(cfg: A.Config, start: World, ops: seq<Op>, clock: Time, e: Minted, order: seq<O.Grant>,
                                          health: O.CacheHealth, now: Time, isDevelopment: bool, policies: seq<P.Policy>, r: P.Request)
    requires Sane(cfg, start, clock, now) && PermissionNames.AdmittedNames(start.org) && Settled(cfg, start, ops, clock, now)
    requires AcceptedRequest(Run(cfg, start, ops), e, order, now)
    ensures e.seen.Some? && e.payload.context.membershipId.value in Run(cfg, start, ops).org.memberships
    ensures var ps := ResolvedFor(Run(cfg, start, ops).org, e.payload.context.membershipId.value, order, health, now);
            P.Authorize(isDevelopment, true, ps, policies, r).allowed
            <==> !P.SomeMatch(policies, r, P.DENY)
                 && (O.Permission(r.resource, r.action) in e.seen.value.permissions || P.SomeMatch(policies, r, P.ALLOW))
  {
    AcceptedRequestIsDecidedAsSigned(cfg, start, ops, clock, e, order, health, now, isDevelopment, policies, r);
    AcceptedTokenSpeaksForThePresent(cfg, start, ops, e, now);
    OrgTablesOfRun(cfg, start, ops);
    PermissionNames.RunKeepsAdmittedNames(cfg.rule, start.org, OrgOps(ops));
    PermissionNames.AdmittedPairsAreExact(Run(cfg, start, ops).org, e.payload.context.membershipId.value, r.resource, r.action);
  }
}
