/**
  The policies a deployment starts with (prisma/seed.ts), all of which apply to every member, and
  what the evaluator and the permission check decide under them.
 */
module SeededPolicies {
  import opened JsValues
  import opened DeepEquality
  import C = Conditions
  import R = AttributeResolver
  import opened Policies
  import N = PermissionNames
  import Organizations

  function TextCondition(source: R.Source, path: string, operator: C.Operator, value: string): C.Condition {
    C.Condition("", source, path, operator, Str(value), C.STRING)
  }

  /** A target that names an attribute, as in USER.id. */
  function Reference(source: R.Source, path: string): string {
    R.Name(source) + "." + path
  }

  const OWN_PROFILE := Policy("", "Users can edit their own profile", ALLOW, "users", "update", 200, true,
                              [TextCondition(R.RESOURCE, "id", C.EQUALS, Reference(R.USER, "id"))])
  const SAME_ORGANIZATION := Policy("", "Members access resources within their organization", ALLOW, "*", "*", 100, true,
                                    [TextCondition(R.RESOURCE, "organizationId", C.EQUALS, Reference(R.ORGANIZATION, "id"))])
  const SAME_DEPARTMENT := Policy("", "Managers can access users in their department", ALLOW, "users", "read", 150, true,
                                  [TextCondition(R.RESOURCE, "department", C.EQUALS, Reference(R.MEMBERSHIP, "department"))])
  const SUSPENDED_DENIED := Policy("", "Suspended members are denied any access", DENY, "*", "*", 10000, true,
                                   [TextCondition(R.MEMBERSHIP, "status", C.EQUALS, "SUSPENDED")])
  const ENTERPRISE_SSO := Policy("", "SSO management requires Enterprise plan", ALLOW, "sso", "manage", 300, true,
                                 [TextCondition(R.ORGANIZATION, "plan", C.EQUALS, "ENTERPRISE")])

  const POLICIES := [OWN_PROFILE, SAME_ORGANIZATION, SAME_DEPARTMENT, ADMIN_POLICY, SUSPENDED_DENIED, ENTERPRISE_SSO]

  /** Equal once coerced to text: two missing attributes are, and two nulls, and otherwise two values that print alike. */
  predicate SameText(h: C.Host, a: Value, b: Value) {
    if a.Undefined? || a.Null? || b.Undefined? || b.Null? then a == b
    else C.ToText(h, a) == C.ToText(h, b)
  }

  lemma TextEqualityIs(h: C.Host, a: Value, b: Value)
    ensures DeepEqual(C.Coerce(h, a, C.STRING), C.Coerce(h, b, C.STRING)) <==> SameText(h, a, b)
  {
  }

  /** An EQUALS condition of type STRING compares the attribute and its target as texts. */
  lemma TextConditionHoldsIff(h: C.Host, c: R.Context, source: R.Source, path: string, value: string)
    requires '.' !in path
    ensures C.Evaluate(h, TextCondition(source, path, C.EQUALS, value), c).passed
            <==> SameText(h, C.Attribute(c, source, path), R.ResolveCompareTarget(c, value))
  {
    C.PlainPathIsRead(c, source, path);
    TextEqualityIs(h, C.Attribute(c, source, path), R.ResolveCompareTarget(c, value));
  }

  /** A target that names an attribute by a plain path is read. */
  lemma PlainReferenceIsRead(c: R.Context, source: R.Source, path: string)
    requires '.' !in path && R.OneLine(path)
    ensures R.ResolveCompareTarget(c, Reference(source, path)) == C.Attribute(c, source, path)
  {
    R.ReferenceIsResolved(c, source, path);
    C.PlainPathIsRead(c, source, path);
  }

  /** A target without a dot is a literal. */
  lemma DotFreeIsLiteral(c: R.Context, value: string)
    requires '.' !in value
    ensures R.ResolveCompareTarget(c, value) == Str(value)
  {
    assert R.UpperRun(value) < |value| ==> value[R.UpperRun(value)] in value;
  }

  // ---------------------------------------------------------------- what each policy asks

  predicate IsOwnProfile(h: C.Host, c: R.Context) {
    SameText(h, C.Attribute(c, R.RESOURCE, "id"), C.Attribute(c, R.USER, "id"))
  }

  predicate IsInOrganization(h: C.Host, c: R.Context) {
    SameText(h, C.Attribute(c, R.RESOURCE, "organizationId"), C.Attribute(c, R.ORGANIZATION, "id"))
  }

  predicate IsInDepartment(h: C.Host, c: R.Context) {
    SameText(h, C.Attribute(c, R.RESOURCE, "department"), C.Attribute(c, R.MEMBERSHIP, "department"))
  }

  predicate IsSuspended(h: C.Host, c: R.Context) {
    SameText(h, C.Attribute(c, R.MEMBERSHIP, "status"), Str("SUSPENDED"))
  }

  predicate IsEnterprise(h: C.Host, c: R.Context) {
    SameText(h, C.Attribute(c, R.ORGANIZATION, "plan"), Str("ENTERPRISE"))
  }

  predicate HasAdminSlug(slugs: seq<string>) {
    exists i :: 0 <= i < |slugs| && C.Includes(slugs[i], "admin")
  }

  /** A policy with one condition matches when it applies and the condition passes. */
  lemma OneConditionMatches(p: Policy, condition: C.Condition, r: Request)
    requires p.conditions == [condition]
    ensures Matches(p, r) <==> Applies(p, r) && r.evaluate(condition).passed
  {
    assert p.conditions[0] == condition;
    assert Holds(condition, r) <==> r.evaluate(condition).passed;
  }

  lemma ReferencePolicyMatchesIff(h: C.Host, c: R.Context, p: Policy, path: string, source: R.Source, target: string, r: Request)
    requires p.conditions == [TextCondition(R.RESOURCE, path, C.EQUALS, Reference(source, target))]
    requires '.' !in path && '.' !in target && R.OneLine(target) && r == RequestIn(h, c, r.resource, r.action)
    ensures Matches(p, r) <==> Applies(p, r) && SameText(h, C.Attribute(c, R.RESOURCE, path), C.Attribute(c, source, target))
  {
    var condition := TextCondition(R.RESOURCE, path, C.EQUALS, Reference(source, target));
    OneConditionMatches(p, condition, r);
    TextConditionHoldsIff(h, c, R.RESOURCE, path, Reference(source, target));
    PlainReferenceIsRead(c, source, target);
    assert r.evaluate(condition) == C.Evaluate(h, condition, c);
  }

  lemma LiteralPolicyMatchesIff(h: C.Host, c: R.Context, p: Policy, source: R.Source, path: string, value: string, r: Request)
    requires p.conditions == [TextCondition(source, path, C.EQUALS, value)]
    requires '.' !in path && '.' !in value && r == RequestIn(h, c, r.resource, r.action)
    ensures Matches(p, r) <==> Applies(p, r) && SameText(h, C.Attribute(c, source, path), Str(value))
  {
    var condition := TextCondition(source, path, C.EQUALS, value);
    OneConditionMatches(p, condition, r);
    TextConditionHoldsIff(h, c, source, path, value);
    DotFreeIsLiteral(c, value);
    assert r.evaluate(condition) == C.Evaluate(h, condition, c);
  }

  lemma OwnProfileMatchesIff(h: C.Host, c: R.Context, resource: string, action: string)
    ensures Matches(OWN_PROFILE, RequestIn(h, c, resource, action)) <==> resource == "users" && action == "update" && IsOwnProfile(h, c)
  {
    ReferencePolicyMatchesIff(h, c, OWN_PROFILE, "id", R.USER, "id", RequestIn(h, c, resource, action));
  }

  lemma SameOrganizationMatchesIff(h: C.Host, c: R.Context, resource: string, action: string)
    ensures Matches(SAME_ORGANIZATION, RequestIn(h, c, resource, action)) <==> IsInOrganization(h, c)
  {
    ReferencePolicyMatchesIff(h, c, SAME_ORGANIZATION, "organizationId", R.ORGANIZATION, "id", RequestIn(h, c, resource, action));
  }

  lemma SameDepartmentMatchesIff(h: C.Host, c: R.Context, resource: string, action: string)
    ensures Matches(SAME_DEPARTMENT, RequestIn(h, c, resource, action)) <==> resource == "users" && action == "read" && IsInDepartment(h, c)
  {
    ReferencePolicyMatchesIff(h, c, SAME_DEPARTMENT, "department", R.MEMBERSHIP, "department", RequestIn(h, c, resource, action));
  }

  lemma SuspendedDeniedMatchesIff(h: C.Host, c: R.Context, resource: string, action: string)
    ensures Matches(SUSPENDED_DENIED, RequestIn(h, c, resource, action)) <==> IsSuspended(h, c)
  {
    LiteralPolicyMatchesIff(h, c, SUSPENDED_DENIED, R.MEMBERSHIP, "status", "SUSPENDED", RequestIn(h, c, resource, action));
  }

  lemma EnterpriseSsoMatchesIff(h: C.Host, c: R.Context, resource: string, action: string)
    ensures Matches(ENTERPRISE_SSO, RequestIn(h, c, resource, action)) <==> resource == "sso" && action == "manage" && IsEnterprise(h, c)
  {
    LiteralPolicyMatchesIff(h, c, ENTERPRISE_SSO, R.ORGANIZATION, "plan", "ENTERPRISE", RequestIn(h, c, resource, action));
  }

  lemma AdminPolicyMatchesIff(h: C.Host, c: R.Context, slugs: seq<string>, resource: string, action: string)
    requires C.Attribute(c, R.MEMBERSHIP, "roles") == Arr(C.Texted(slugs))
    ensures Matches(ADMIN_POLICY, RequestIn(h, c, resource, action)) <==> HasAdminSlug(slugs)
  {
    OneConditionMatches(ADMIN_POLICY, C.ADMIN_CONDITION, RequestIn(h, c, resource, action));
    C.AdminConditionPassesIff(h, c, slugs);
  }

  // ---------------------------------------------------------------- the decision

  /** Some seeded ALLOW lets the request through. */
  predicate SeededAllow(h: C.Host, c: R.Context, slugs: seq<string>, resource: string, action: string) {
    || IsInOrganization(h, c)
    || HasAdminSlug(slugs)
    || (resource == "users" && action == "update" && IsOwnProfile(h, c))
    || (resource == "users" && action == "read" && IsInDepartment(h, c))
    || (resource == "sso" && action == "manage" && IsEnterprise(h, c))
  }

  predicate MatchesWith(p: Policy, r: Request, effect: Effect) {
    p.effect == effect && Matches(p, r)
  }

  lemma SomeMatchOfSix(ps: seq<Policy>, r: Request, effect: Effect)
    requires |ps| == 6
    ensures SomeMatch(ps, r, effect)
            <==> || MatchesWith(ps[0], r, effect) || MatchesWith(ps[1], r, effect) || MatchesWith(ps[2], r, effect)
                 || MatchesWith(ps[3], r, effect) || MatchesWith(ps[4], r, effect) || MatchesWith(ps[5], r, effect)
  {
    if i :| 0 <= i < 6 && MatchesWith(ps[i], r, effect) {
      assert i == 0 || i == 1 || i == 2 || i == 3 || i == 4 || i == 5;
    }
  }

  lemma ListedPoliciesMatch(r: Request)
    ensures SomeMatch(POLICIES, r, DENY) <==> Matches(SUSPENDED_DENIED, r)
    ensures SomeMatch(POLICIES, r, ALLOW)
            <==> || Matches(OWN_PROFILE, r) || Matches(SAME_ORGANIZATION, r) || Matches(SAME_DEPARTMENT, r)
                 || Matches(ADMIN_POLICY, r) || Matches(ENTERPRISE_SSO, r)
  {
    SomeMatchOfSix(POLICIES, r, DENY);
    SomeMatchOfSix(POLICIES, r, ALLOW);
  }

  lemma SeededMatchesIff(h: C.Host, c: R.Context, slugs: seq<string>, resource: string, action: string)
    requires C.Attribute(c, R.MEMBERSHIP, "roles") == Arr(C.Texted(slugs))
    ensures SomeMatch(POLICIES, RequestIn(h, c, resource, action), DENY) <==> IsSuspended(h, c)
    ensures SomeMatch(POLICIES, RequestIn(h, c, resource, action), ALLOW) <==> SeededAllow(h, c, slugs, resource, action)
  {
    var r := RequestIn(h, c, resource, action);
    OwnProfileMatchesIff(h, c, resource, action);
    SameOrganizationMatchesIff(h, c, resource, action);
    SameDepartmentMatchesIff(h, c, resource, action);
    SuspendedDeniedMatchesIff(h, c, resource, action);
    EnterpriseSsoMatchesIff(h, c, resource, action);
    AdminPolicyMatchesIff(h, c, slugs, resource, action);
    ListedPoliciesMatch(r);
  }

  /**
    Under the seeded policies, in any order, a member is let through exactly when not suspended
    and either the permission is held, or the resource is in the member's organization, or a role
    slug contains "admin", or one of the three narrower policies lets it through.
   */
  lemma SeededDecisionIff(h: C.Host, c: R.Context, slugs: seq<string>, permissions: seq<Organizations.Permission>, policies: seq<Policy>,
                          resource: string, action: string, isDevelopment: bool)
    requires C.Attribute(c, R.MEMBERSHIP, "roles") == Arr(C.Texted(slugs)) && SamePolicies(policies, POLICIES)
    ensures Authorize(isDevelopment, true, permissions, policies, RequestIn(h, c, resource, action)).allowed
            <==> !IsSuspended(h, c) && (N.HasPermission(permissions, resource, action) || SeededAllow(h, c, slugs, resource, action))
  {
    var r := RequestIn(h, c, resource, action);
    PriorityNeverDecides(isDevelopment, true, permissions, policies, POLICIES, r);
    AllowedIff(isDevelopment, true, permissions, POLICIES, r);
    SeededMatchesIff(h, c, slugs, resource, action);
  }
}
