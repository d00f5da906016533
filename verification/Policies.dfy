/**
  Policy evaluation and its combination with role permissions
  (src/modules/authorization/services/policy-evaluator.service.ts and authorization.service.ts).
 */
module Policies {
  import opened Wrappers
  import C = Conditions
  import R = AttributeResolver
  import P = PermissionNames
  import opened JsValues
  import Organizations
  import PermissionCache

  datatype Effect = ALLOW | DENY

  datatype Policy = Policy(
    id: string, name: string, effect: Effect, resource: string, action: string, priority: int, isEnabled: bool,
    conditions: seq<C.Condition>)

  /** What is asked for, and the condition evaluator applied to this request's context. */
  datatype Request = Request(evaluate: C.Condition -> C.Evaluation, resource: string, action: string)

  /** The request the service builds: conditions are evaluated against the resolved attributes. */
  function RequestIn(host: C.Host, context: R.Context, resource: string, action: string): Request {
    Request(condition => C.Evaluate(host, condition, context), resource, action)
  }

  datatype MatchedPolicy = MatchedPolicy(id: string, name: string, effect: Effect)
  datatype FailedCondition = FailedCondition(policyId: string, condition: C.Condition, actual: Value, expected: Value)
  datatype Reason = DeniedBy(name: string) | AccessGranted | NoMatchingAllow | GrantedByRbac | NoOrganization | AccessDenied
  datatype Decision = Decision(allowed: bool, reason: Reason, matched: seq<MatchedPolicy>, failed: seq<FailedCondition>)

  // ---------------------------------------------------------------- what a policy means

  predicate Applies(p: Policy, r: Request) {
    p.isEnabled && (p.resource == "*" || p.resource == r.resource) && (p.action == "*" || p.action == r.action)
  }

  predicate Holds(c: C.Condition, r: Request) {
    r.evaluate(c).passed
  }

  predicate Passes(p: Policy, r: Request) {
    forall i :: 0 <= i < |p.conditions| ==> Holds(p.conditions[i], r)
  }

  predicate Matches(p: Policy, r: Request) {
    Applies(p, r) && Passes(p, r)
  }

  /** The reference meaning: some matching policy of the list has the effect. */
  predicate SomeMatch(policies: seq<Policy>, r: Request, effect: Effect) {
    exists i :: 0 <= i < |policies| && policies[i].effect == effect && Matches(policies[i], r)
  }

  // ---------------------------------------------------------------- filter and sort

  function Filter(policies: seq<Policy>, r: Request): (kept: seq<Policy>)
    ensures forall i :: 0 <= i < |kept| ==> Applies(kept[i], r)
    ensures forall p :: p in kept <==> p in policies && Applies(p, r)
  {
    if policies == [] then []
    else
      assert policies == [policies[0]] + policies[1..];
      if Applies(policies[0], r) then [policies[0]] + Filter(policies[1..], r) else Filter(policies[1..], r)
  }

  /** Puts p before the first policy of smaller or equal priority: earlier insertions of the same priority stay behind it. */
  function Insert(p: Policy, sorted: seq<Policy>): seq<Policy> {
    if sorted == [] then [p]
    else if p.priority >= sorted[0].priority then [p] + sorted
    else [sorted[0]] + Insert(p, sorted[1..])
  }

  /** The stable sort by descending priority. */
  function SortByPriority(policies: seq<Policy>): seq<Policy> {
    if policies == [] then [] else Insert(policies[0], SortByPriority(policies[1..]))
  }

  ghost predicate Descending(policies: seq<Policy>) {
    forall i, j :: 0 <= i < j < |policies| ==> policies[i].priority >= policies[j].priority
  }

  function OfPriority(policies: seq<Policy>, priority: int): seq<Policy> {
    if policies == [] then []
    else if policies[0].priority == priority then [policies[0]] + OfPriority(policies[1..], priority)
    else OfPriority(policies[1..], priority)
  }

  lemma {:induction false} InsertKeepsOrder(p: Policy, sorted: seq<Policy>)
    requires Descending(sorted)
    ensures Descending(Insert(p, sorted))
  {
    if sorted != [] && p.priority < sorted[0].priority {
      InsertKeepsOrder(p, sorted[1..]);
      InsertKeepsMembers(p, sorted[1..]);
      forall q | q in Insert(p, sorted[1..]) ensures sorted[0].priority >= q.priority {}
    }
  }

  lemma {:induction false} InsertKeepsMembers(p: Policy, sorted: seq<Policy>)
    ensures multiset(Insert(p, sorted)) == multiset{p} + multiset(sorted)
    ensures forall q :: q in Insert(p, sorted) <==> q == p || q in sorted
  {
    if sorted != [] && p.priority < sorted[0].priority {
      InsertKeepsMembers(p, sorted[1..]);
      assert sorted == [sorted[0]] + sorted[1..];
    }
  }

  lemma {:induction false} InsertIsStable(p: Policy, sorted: seq<Policy>, priority: int)
    ensures OfPriority(Insert(p, sorted), priority) == OfPriority([p] + sorted, priority)
  {
    assert ([p] + sorted)[1..] == sorted;
    if sorted != [] && p.priority < sorted[0].priority {
      var tail := Insert(p, sorted[1..]);
      InsertIsStable(p, sorted[1..], priority);
      assert ([sorted[0]] + tail)[1..] == tail;
      assert ([p] + sorted[1..])[1..] == sorted[1..];
    }
  }

  /** The sort orders by priority, loses and adds nothing, and keeps the order within each priority. */
  lemma {:induction false} SortIsStable(policies: seq<Policy>, priority: int)
    ensures Descending(SortByPriority(policies))
    ensures multiset(SortByPriority(policies)) == multiset(policies)
    ensures OfPriority(SortByPriority(policies), priority) == OfPriority(policies, priority)
  {
    if policies != [] {
      var rest := SortByPriority(policies[1..]);
      SortIsStable(policies[1..], priority);
      InsertKeepsOrder(policies[0], rest);
      InsertKeepsMembers(policies[0], rest);
      InsertIsStable(policies[0], rest, priority);
      assert policies == [policies[0]] + policies[1..];
      assert ([policies[0]] + rest)[1..] == rest;
    }
  }

  lemma SortKeepsMembers(policies: seq<Policy>)
    ensures forall p :: p in SortByPriority(policies) <==> p in policies
  {
    SortIsStable(policies, 0);
    assert forall p :: p in multiset(policies) <==> p in policies;
  }

  function Candidates(policies: seq<Policy>, r: Request): seq<Policy> {
    SortByPriority(Filter(policies, r))
  }

  // ---------------------------------------------------------------- the evaluation loop

  function Match(p: Policy): MatchedPolicy {
    MatchedPolicy(p.id, p.name, p.effect)
  }

  function MatchAll(ps: seq<Policy>): seq<MatchedPolicy> {
    seq(|ps|, i requires 0 <= i < |ps| => Match(ps[i]))
  }

  /** What a failing policy reports: its first failing condition. */
  function FirstFailure(p: Policy, r: Request, from: nat): seq<FailedCondition>
    requires from <= |p.conditions|
    decreases |p.conditions| - from
  {
    if from == |p.conditions| then []
    else
      var c := p.conditions[from];
      if Holds(c, r) then FirstFailure(p, r, from + 1)
      else
        var e := r.evaluate(c);
        [FailedCondition(p.id, c, e.actual, e.expected)]
  }

  /** The policies the loop takes: those that pass, up to and including the first DENY. */
  function Taken(candidates: seq<Policy>, r: Request): seq<Policy> {
    if candidates == [] then []
    else if !Passes(candidates[0], r) then Taken(candidates[1..], r)
    else if candidates[0].effect.DENY? then [candidates[0]]
    else [candidates[0]] + Taken(candidates[1..], r)
  }

  function Failures(candidates: seq<Policy>, r: Request): seq<FailedCondition> {
    if candidates == [] then []
    else if !Passes(candidates[0], r) then FirstFailure(candidates[0], r, 0) + Failures(candidates[1..], r)
    else if candidates[0].effect.DENY? then []
    else Failures(candidates[1..], r)
  }

  function Conclude(taken: seq<Policy>, failed: seq<FailedCondition>): Decision {
    if taken == [] then Decision(false, NoMatchingAllow, [], failed)
    else if taken[|taken| - 1].effect.DENY? then Decision(false, DeniedBy(taken[|taken| - 1].name), MatchAll(taken), failed)
    else Decision(true, AccessGranted, MatchAll(taken), failed)
  }

  function Evaluate(policies: seq<Policy>, r: Request): Decision {
    var candidates := Candidates(policies, r);
    Conclude(Taken(candidates, r), Failures(candidates, r))
  }

  method AllConditionsPass(policy: Policy, r: Request, failed: seq<FailedCondition>)
    returns (passed: bool, failed': seq<FailedCondition>)
    ensures passed == Passes(policy, r)
    ensures failed' == failed + (if passed then [] else FirstFailure(policy, r, 0))
  {
    if |policy.conditions| == 0 {
      return true, failed;
    }
    for i := 0 to |policy.conditions|
      invariant forall k :: 0 <= k < i ==> Holds(policy.conditions[k], r)
      invariant FirstFailure(policy, r, i) == FirstFailure(policy, r, 0)
    {
      var result := r.evaluate(policy.conditions[i]);
      if !result.passed {
        assert !Holds(policy.conditions[i], r);
        return false, failed + [FailedCondition(policy.id, policy.conditions[i], result.actual, result.expected)];
      }
    }
    return true, failed;
  }

  lemma OneCandidate(candidates: seq<Policy>, r: Request, i: nat)
    requires i < |candidates|
    ensures var p := candidates[i];
            Taken(candidates[i..], r) == if !Passes(p, r) then Taken(candidates[i + 1..], r)
                                         else if p.effect.DENY? then [p] else [p] + Taken(candidates[i + 1..], r)
    ensures var p := candidates[i];
            Failures(candidates[i..], r) == if !Passes(p, r) then FirstFailure(p, r, 0) + Failures(candidates[i + 1..], r)
                                            else if p.effect.DENY? then [] else Failures(candidates[i + 1..], r)
  {
    assert candidates[i..][1..] == candidates[i + 1..];
  }

  /** The loop has taken and reported this much after i candidates, none of them a passing DENY. */
  ghost predicate Progress(candidates: seq<Policy>, r: Request, i: nat, taken: seq<Policy>, failed: seq<FailedCondition>) {
    && i <= |candidates|
    && taken + Taken(candidates[i..], r) == Taken(candidates, r)
    && failed + Failures(candidates[i..], r) == Failures(candidates, r)
    && (taken != [] ==> taken[|taken| - 1].effect.ALLOW?)
  }

  lemma ProgressStarts(candidates: seq<Policy>, r: Request)
    ensures Progress(candidates, r, 0, [], [])
  {
    assert candidates[0..] == candidates;
  }

  lemma ProgressEnds(candidates: seq<Policy>, r: Request, taken: seq<Policy>, failed: seq<FailedCondition>)
    requires Progress(candidates, r, |candidates|, taken, failed)
    ensures taken == Taken(candidates, r) && failed == Failures(candidates, r)
  {
  }

  /** What one more candidate adds, and where a passing DENY ends it. */
  lemma OneMoreCandidate(candidates: seq<Policy>, r: Request, i: nat, taken: seq<Policy>, failed: seq<FailedCondition>)
    requires i < |candidates| && Progress(candidates, r, i, taken, failed)
    ensures var p := candidates[i];
            if !Passes(p, r) then Progress(candidates, r, i + 1, taken, failed + FirstFailure(p, r, 0))
            else if p.effect.DENY? then taken + [p] == Taken(candidates, r) && failed == Failures(candidates, r)
            else Progress(candidates, r, i + 1, taken + [p], failed)
  {
    OneCandidate(candidates, r, i);
    var p := candidates[i];
    if !Passes(p, r) {
      Reassociate(failed, FirstFailure(p, r, 0), Failures(candidates[i + 1..], r));
    } else if p.effect.ALLOW? {
      Reassociate(taken, [p], Taken(candidates[i + 1..], r));
    } else {
      assert failed + [] == failed;
    }
  }

  lemma Reassociate<T>(a: seq<T>, b: seq<T>, c: seq<T>)
    ensures a + (b + c) == a + b + c
  {
  }

  lemma MatchAllOneMore(ps: seq<Policy>, p: Policy)
    ensures MatchAll(ps + [p]) == MatchAll(ps) + [Match(p)]
  {
  }

  method EvaluatePolicies(policies: seq<Policy>, r: Request) returns (decision: Decision)
    ensures decision == Evaluate(policies, r)
  {
    var candidates := SortByPriority(Filter(policies, r));
    var matched: seq<MatchedPolicy> := [];
    var failed: seq<FailedCondition> := [];
    var allowMatched := false;
    var denyMatched: Option<Policy> := None;
    ghost var taken: seq<Policy> := [];
    ProgressStarts(candidates, r);
    var i := 0;
    while i < |candidates|
      invariant 0 <= i <= |candidates| && denyMatched.None?
      invariant matched == MatchAll(taken) && allowMatched == (taken != [])
      invariant Progress(candidates, r, i, taken, failed)
    {
      var policy := candidates[i];
      OneMoreCandidate(candidates, r, i, taken, failed);
      var conditionsPass;
      conditionsPass, failed := AllConditionsPass(policy, r, failed);
      i := i + 1;
      if !conditionsPass {
        continue;
      }
      MatchAllOneMore(taken, policy);
      matched := matched + [Match(policy)];
      taken := taken + [policy];
      if policy.effect == DENY {
        denyMatched := Some(policy);
        break;
      }
      allowMatched := true;
    }
    if denyMatched.None? {
      ProgressEnds(candidates, r, taken, failed);
    }
    if denyMatched.Some? {
      assert taken[|taken| - 1] == denyMatched.value;
      return Decision(false, DeniedBy(denyMatched.value.name), matched, failed);
    }
    if allowMatched {
      return Decision(true, AccessGranted, matched, failed);
    }
    return Decision(false, NoMatchingAllow, matched, failed);
  }

  // ---------------------------------------------------------------- the whole decision

  function Sanitize(isDevelopment: bool, d: Decision): Decision {
    if isDevelopment then d else Decision(d.allowed, if d.allowed then d.reason else AccessDenied, [], [])
  }

  predicate AnyDeny(matched: seq<MatchedPolicy>) {
    exists i :: 0 <= i < |matched| && matched[i].effect.DENY?
  }

  /** AuthorizationService.evaluate, given whether the user has an organization context. */
  function Authorize(isDevelopment: bool, inOrganization: bool, permissions: seq<Organizations.Permission>, policies: seq<Policy>, r: Request): Decision {
    if !inOrganization then Decision(false, NoOrganization, [], [])
    else
      var rbacAllow := P.HasPermission(permissions, r.resource, r.action);
      var abac := Evaluate(policies, r);
      if AnyDeny(abac.matched) then Sanitize(isDevelopment, abac)
      else if rbacAllow then Sanitize(isDevelopment, Decision(true, GrantedByRbac, abac.matched, abac.failed))
      else Sanitize(isDevelopment, abac)
  }

  // ---------------------------------------------------------------- the loop against the meaning

  predicate SomePass(ps: seq<Policy>, r: Request, effect: Effect) {
    exists i :: 0 <= i < |ps| && ps[i].effect == effect && Passes(ps[i], r)
  }

  lemma {:induction false} TakenPass(candidates: seq<Policy>, r: Request)
    ensures forall p :: p in Taken(candidates, r) ==> Passes(p, r) && p in candidates
  {
    if candidates != [] {
      TakenPass(candidates[1..], r);
      assert candidates == [candidates[0]] + candidates[1..];
    }
  }

  lemma {:induction false} OnlyLastTakenDenies(candidates: seq<Policy>, r: Request, i: nat)
    requires i < |Taken(candidates, r)| - 1
    ensures Taken(candidates, r)[i].effect.ALLOW?
  {
    if !Passes(candidates[0], r) {
      OnlyLastTakenDenies(candidates[1..], r, i);
    } else if i > 0 {
      OnlyLastTakenDenies(candidates[1..], r, i - 1);
    }
  }

  /** The loop ends with a DENY exactly when some candidate DENY passes, and takes something exactly when one passes. */
  lemma {:induction false} TakenFinds(candidates: seq<Policy>, r: Request)
    ensures Taken(candidates, r) == [] <==> !SomePass(candidates, r, DENY) && !SomePass(candidates, r, ALLOW)
    ensures var taken := Taken(candidates, r);
            taken != [] && taken[|taken| - 1].effect.DENY? <==> SomePass(candidates, r, DENY)
  {
    if candidates != [] {
      TakenFinds(candidates[1..], r);
      SomePassInTail(candidates, r, DENY);
      SomePassInTail(candidates, r, ALLOW);
    }
  }

  lemma SomePassInTail(ps: seq<Policy>, r: Request, effect: Effect)
    requires ps != []
    ensures SomePass(ps, r, effect) <==> (ps[0].effect == effect && Passes(ps[0], r)) || SomePass(ps[1..], r, effect)
  {
    if i :| 0 <= i < |ps| && ps[i].effect == effect && Passes(ps[i], r) {
      if i > 0 { assert ps[1..][i - 1] == ps[i]; }
    }
    if i :| 0 <= i < |ps[1..]| && ps[1..][i].effect == effect && Passes(ps[1..][i], r) {
      assert ps[i + 1] == ps[1..][i];
    }
  }

  lemma CandidatesPassIff(policies: seq<Policy>, r: Request, effect: Effect)
    ensures SomePass(Candidates(policies, r), r, effect) <==> SomeMatch(policies, r, effect)
  {
    var cs := Candidates(policies, r);
    SortKeepsMembers(Filter(policies, r));
    if i :| 0 <= i < |cs| && cs[i].effect == effect && Passes(cs[i], r) {
      assert cs[i] in policies;
    }
    if i :| 0 <= i < |policies| && policies[i].effect == effect && Matches(policies[i], r) {
      assert policies[i] in cs;
    }
  }

  /** The policy evaluator alone: DENY over ALLOW over nothing. */
  lemma EvaluatorAllowsIff(policies: seq<Policy>, r: Request)
    ensures Evaluate(policies, r).allowed <==> !SomeMatch(policies, r, DENY) && SomeMatch(policies, r, ALLOW)
    ensures AnyDeny(Evaluate(policies, r).matched) <==> SomeMatch(policies, r, DENY)
  {
    var cs := Candidates(policies, r);
    TakenFinds(cs, r);
    CandidatesPassIff(policies, r, DENY);
    CandidatesPassIff(policies, r, ALLOW);
    var taken := Taken(cs, r);
    if taken != [] && taken[|taken| - 1].effect.DENY? {
      assert MatchAll(taken)[|taken| - 1].effect.DENY?;
    }
    forall i | 0 <= i < |taken| - 1 ensures taken[i].effect.ALLOW? { OnlyLastTakenDenies(cs, r, i); }
  }

  /**
    With an organization context access is allowed exactly when no matching DENY has all its
    conditions passing and either the permission is held or some matching ALLOW passes; without
    one it is always denied.
   */
  lemma AllowedIff(isDevelopment: bool, inOrganization: bool, permissions: seq<Organizations.Permission>, policies: seq<Policy>, r: Request)
    ensures Authorize(isDevelopment, inOrganization, permissions, policies, r).allowed
            <==> inOrganization && !SomeMatch(policies, r, DENY)
                 && (P.HasPermission(permissions, r.resource, r.action) || SomeMatch(policies, r, ALLOW))
  {
    EvaluatorAllowsIff(policies, r);
  }

  // ---------------------------------------------------------------- order, priorities, additions

  function Unranked(p: Policy): Policy {
    p.(priority := 0)
  }

  function Unrankeds(ps: seq<Policy>): set<Policy> {
    set i | 0 <= i < |ps| :: Unranked(ps[i])
  }

  /** The same policies, in any order, any number of times and with any priorities. */
  ghost predicate SamePolicies(ps: seq<Policy>, qs: seq<Policy>) {
    Unrankeds(ps) == Unrankeds(qs)
  }

  lemma MatchIgnoresPriority(p: Policy, q: Policy, r: Request)
    requires Unranked(p) == Unranked(q)
    ensures p.effect == q.effect && Matches(p, r) == Matches(q, r)
  {
    assert p.conditions == Unranked(p).conditions && p.effect == Unranked(p).effect && p.isEnabled == Unranked(p).isEnabled;
    assert p.resource == Unranked(p).resource && p.action == Unranked(p).action;
  }

  lemma SameMatches(ps: seq<Policy>, qs: seq<Policy>, r: Request, effect: Effect)
    requires SamePolicies(ps, qs) && SomeMatch(ps, r, effect)
    ensures SomeMatch(qs, r, effect)
  {
    var i :| 0 <= i < |ps| && ps[i].effect == effect && Matches(ps[i], r);
    assert Unranked(ps[i]) in Unrankeds(qs);
    var j :| 0 <= j < |qs| && Unranked(qs[j]) == Unranked(ps[i]);
    MatchIgnoresPriority(ps[i], qs[j], r);
  }

  lemma SameMatchesIff(ps: seq<Policy>, qs: seq<Policy>, r: Request, effect: Effect)
    requires SamePolicies(ps, qs)
    ensures SomeMatch(ps, r, effect) == SomeMatch(qs, r, effect)
  {
    if SomeMatch(ps, r, effect) { SameMatches(ps, qs, r, effect); }
    if SomeMatch(qs, r, effect) { SameMatches(qs, ps, r, effect); }
  }

  /** Order, repetition and priorities of the policies never change whether access is allowed. */
  lemma PriorityNeverDecides(isDevelopment: bool, inOrganization: bool, permissions: seq<Organizations.Permission>,
                             ps: seq<Policy>, qs: seq<Policy>, r: Request)
    requires SamePolicies(ps, qs)
    ensures Authorize(isDevelopment, inOrganization, permissions, ps, r).allowed == Authorize(isDevelopment, inOrganization, permissions, qs, r).allowed
  {
    AllowedIff(isDevelopment, inOrganization, permissions, ps, r);
    AllowedIff(isDevelopment, inOrganization, permissions, qs, r);
    SameMatchesIff(ps, qs, r, DENY);
    SameMatchesIff(ps, qs, r, ALLOW);
  }

  lemma MatchesWithOneMore(ps: seq<Policy>, qs: seq<Policy>, p: Policy, r: Request, effect: Effect)
    ensures SomeMatch(ps + [p] + qs, r, effect) <==> SomeMatch(ps + qs, r, effect) || (p.effect == effect && Matches(p, r))
  {
    var with, without := ps + [p] + qs, ps + qs;
    if i :| 0 <= i < |with| && with[i].effect == effect && Matches(with[i], r) {
      if i < |ps| { assert without[i] == with[i]; } else if i > |ps| { assert without[i - 1] == with[i]; } else { assert with[i] == p; }
    }
    if i :| 0 <= i < |without| && without[i].effect == effect && Matches(without[i], r) {
      if i < |ps| { assert with[i] == without[i]; } else { assert with[i + 1] == without[i]; }
    }
    assert with[|ps|] == p;
  }

  /**
    Adding a policy anywhere: a DENY only ever takes access away, and does so exactly when it
    matches; an ALLOW only ever gives it.
   */
  lemma AddingAPolicy(isDevelopment: bool, permissions: seq<Organizations.Permission>, ps: seq<Policy>, p: Policy, qs: seq<Policy>, r: Request)
    ensures var before := Authorize(isDevelopment, true, permissions, ps + qs, r).allowed;
            var after := Authorize(isDevelopment, true, permissions, ps + [p] + qs, r).allowed;
            && (p.effect.DENY? ==> (after <==> before && !Matches(p, r)))
            && (p.effect.ALLOW? ==> (after <==> before || (Matches(p, r) && !SomeMatch(ps + qs, r, DENY))))
  {
    AllowedIff(isDevelopment, true, permissions, ps + qs, r);
    AllowedIff(isDevelopment, true, permissions, ps + [p] + qs, r);
    MatchesWithOneMore(ps, qs, p, r, DENY);
    MatchesWithOneMore(ps, qs, p, r, ALLOW);
  }

  /** One more condition, wherever it stands, can only narrow a policy, and does so exactly where it fails; without conditions a policy matches whatever it applies to. */
  lemma OneMoreCondition(p: Policy, before: seq<C.Condition>, c: C.Condition, after: seq<C.Condition>, r: Request)
    ensures Matches(p.(conditions := before + [c] + after), r) <==> Matches(p.(conditions := before + after), r) && r.evaluate(c).passed
    ensures Matches(p.(conditions := []), r)
            <==> p.isEnabled && (p.resource == "*" || p.resource == r.resource) && (p.action == "*" || p.action == r.action)
  {
    var with, without := p.(conditions := before + [c] + after), p.(conditions := before + after);
    assert with.conditions[|before|] == c;
    if Passes(with, r) {
      assert Holds(with.conditions[|before|], r);
      forall i | 0 <= i < |without.conditions| ensures Holds(without.conditions[i], r) {
        assert without.conditions[i] == with.conditions[if i < |before| then i else i + 1];
      }
    }
    if Passes(without, r) && Holds(c, r) {
      forall i | 0 <= i < |with.conditions| ensures Holds(with.conditions[i], r) {
        assert i != |before| ==> with.conditions[i] == without.conditions[if i < |before| then i else i - 1];
      }
    }
  }

  /** A disabled policy is as good as none, whatever it says. */
  lemma DisabledPolicyIsNoPolicy(isDevelopment: bool, permissions: seq<Organizations.Permission>, ps: seq<Policy>, p: Policy, qs: seq<Policy>, r: Request)
    requires !p.isEnabled
    ensures Authorize(isDevelopment, true, permissions, ps + [p] + qs, r).allowed == Authorize(isDevelopment, true, permissions, ps + qs, r).allowed
  {
    AddingAPolicy(isDevelopment, permissions, ps, p, qs, r);
  }

  /**
    Outside development an answer says no more than it has to: a denial is always the same one, and
    permission names whether it came from a role or a policy; no policy and no condition is shown.
   */
  lemma AnswerOutsideDevelopment(permissions: seq<Organizations.Permission>, policies: seq<Policy>, r: Request)
    ensures var d := Authorize(false, true, permissions, policies, r);
            d == if !d.allowed then Decision(false, AccessDenied, [], [])
                 else Decision(true, if P.HoldsPair(PermissionCache.Entries(permissions), r.resource, r.action) then GrantedByRbac else AccessGranted, [], [])
  {
    P.HasPermissionIff(permissions, r.resource, r.action);
    AllowedIff(false, true, permissions, policies, r);
    EvaluatorAllowsIff(policies, r);
    AllowedReason(policies, r);
  }

  lemma AllowedReason(policies: seq<Policy>, r: Request)
    ensures Evaluate(policies, r).allowed ==> Evaluate(policies, r).reason == AccessGranted
  {
  }

  // ---------------------------------------------------------------- the report

  lemma {:induction false} TakenIsDescending(candidates: seq<Policy>, r: Request)
    requires Descending(candidates)
    ensures Descending(Taken(candidates, r))
  {
    if candidates != [] {
      TakenIsDescending(candidates[1..], r);
      TakenPass(candidates[1..], r);
      var rest := Taken(candidates[1..], r);
      forall i | 0 <= i < |rest| ensures candidates[0].priority >= rest[i].priority {
        assert rest[i] in rest && rest[i] in candidates[1..];
      }
    }
  }

  /** The first DENY the loop meets is a passing DENY of highest priority. */
  lemma {:induction false} LastTakenIsTopDeny(candidates: seq<Policy>, r: Request, q: Policy)
    requires Descending(candidates) && q in candidates && q.effect.DENY? && Passes(q, r)
    ensures Taken(candidates, r) != [] && Taken(candidates, r)[|Taken(candidates, r)| - 1].priority >= q.priority
  {
    assert candidates == [candidates[0]] + candidates[1..];
    if !(candidates[0].effect.DENY? && Passes(candidates[0], r)) {
      LastTakenIsTopDeny(candidates[1..], r, q);
    }
  }

  lemma CandidatesAre(policies: seq<Policy>, r: Request)
    ensures Descending(Candidates(policies, r))
    ensures forall p :: p in Candidates(policies, r) <==> p in policies && Applies(p, r)
  {
    SortIsStable(Filter(policies, r), 0);
    SortKeepsMembers(Filter(policies, r));
  }

  /**
    The policies reported as matched: by non-increasing priority, every one of them matching, and
    none but the last a DENY.
   */
  lemma ReportedPolicies(policies: seq<Policy>, r: Request)
    ensures var taken := Taken(Candidates(policies, r), r);
            && Evaluate(policies, r).matched == MatchAll(taken)
            && Descending(taken)
            && (forall i :: 0 <= i < |taken| ==> taken[i] in policies && Matches(taken[i], r))
            && (forall i :: 0 <= i < |taken| - 1 ==> taken[i].effect.ALLOW?)
  {
    CandidatesAre(policies, r);
    var cs := Candidates(policies, r);
    TakenPass(cs, r);
    TakenIsDescending(cs, r);
    forall i | 0 <= i < |Taken(cs, r)| ensures Taken(cs, r)[i] in policies && Matches(Taken(cs, r)[i], r) {
      assert Taken(cs, r)[i] in cs;
    }
    forall i | 0 <= i < |Taken(cs, r)| - 1 ensures Taken(cs, r)[i].effect.ALLOW? { OnlyLastTakenDenies(cs, r, i); }
  }

  lemma {:induction false} AboveDeniesIsTaken(candidates: seq<Policy>, r: Request, p: Policy)
    requires Descending(candidates) && p in candidates && Passes(p, r)
    requires forall q :: q in candidates && q.effect.DENY? && Passes(q, r) ==> q.priority < p.priority
    ensures p in Taken(candidates, r)
  {
    assert candidates == [candidates[0]] + candidates[1..];
    if p != candidates[0] {
      var i :| 0 <= i < |candidates| && candidates[i] == p;
      AboveDeniesIsTaken(candidates[1..], r, p);
    }
  }

  /** Every matching policy of higher priority than all matching DENYs is reported, so every matching one if there is no DENY. */
  lemma ReportIsComplete(policies: seq<Policy>, r: Request, p: Policy)
    requires p in policies && Matches(p, r) && forall q :: q in policies && q.effect.DENY? && Matches(q, r) ==> q.priority < p.priority
    ensures Match(p) in Evaluate(policies, r).matched
  {
    CandidatesAre(policies, r);
    var taken := Taken(Candidates(policies, r), r);
    AboveDeniesIsTaken(Candidates(policies, r), r, p);
    var i :| 0 <= i < |taken| && taken[i] == p;
    assert MatchAll(taken)[i] == Match(p);
  }

  /** The reason: the name of the reported DENY, a grant, or that nothing matched. */
  lemma ReasonIs(policies: seq<Policy>, r: Request)
    ensures var d := Evaluate(policies, r);
            if SomeMatch(policies, r, DENY)
            then d.matched != [] && d.matched[|d.matched| - 1].effect.DENY? && d.reason == DeniedBy(d.matched[|d.matched| - 1].name)
            else if SomeMatch(policies, r, ALLOW) then d.reason == AccessGranted else d.reason == NoMatchingAllow && d.matched == []
  {
    EvaluatorAllowsIff(policies, r);
    var taken := Taken(Candidates(policies, r), r);
    if SomeMatch(policies, r, DENY) {
      var i :| 0 <= i < |policies| && policies[i].effect == DENY && Matches(policies[i], r);
      ReportedDenyIsTop(policies, r, policies[i]);
      assert MatchAll(taken)[|taken| - 1] == Match(taken[|taken| - 1]);
    } else {
      ReportedPolicies(policies, r);
      forall i | 0 <= i < |taken| ensures taken[i].effect.ALLOW? {
        var j :| 0 <= j < |policies| && policies[j] == taken[i];
      }
    }
  }

  /** The i-th condition is the first of the policy that fails. */
  ghost predicate FailsFirstAt(p: Policy, i: nat, r: Request) {
    i < |p.conditions| && !Holds(p.conditions[i], r) && forall j :: 0 <= j < i ==> Holds(p.conditions[j], r)
  }

  /** What is reported for it. */
  function Failure(p: Policy, i: nat, r: Request): FailedCondition
    requires i < |p.conditions|
  {
    FailedCondition(p.id, p.conditions[i], r.evaluate(p.conditions[i]).actual, r.evaluate(p.conditions[i]).expected)
  }

  lemma {:induction false} FirstFailureIs(p: Policy, r: Request, from: nat, i: nat)
    requires from <= i && FailsFirstAt(p, i, r)
    ensures FirstFailure(p, r, from) == [Failure(p, i, r)]
    decreases i - from
  {
    if from < i { FirstFailureIs(p, r, from + 1, i); }
  }

  lemma {:induction false} SomeConditionFailsFirst(p: Policy, r: Request, from: nat) returns (i: nat)
    requires !Passes(p, r) && from <= |p.conditions| && forall j :: 0 <= j < from ==> Holds(p.conditions[j], r)
    ensures FailsFirstAt(p, i, r)
    decreases |p.conditions| - from
  {
    if from < |p.conditions| && Holds(p.conditions[from], r) { i := SomeConditionFailsFirst(p, r, from + 1); } else { i := from; }
  }

  ghost predicate ReportsFailureOf(f: FailedCondition, ps: seq<Policy>, r: Request) {
    exists p, i: nat :: p in ps && FailsFirstAt(p, i, r) && f == Failure(p, i, r)
  }

  lemma {:induction false} FailuresAreFirst(candidates: seq<Policy>, r: Request, f: FailedCondition)
    requires f in Failures(candidates, r)
    ensures ReportsFailureOf(f, candidates, r)
  {
    assert candidates == [candidates[0]] + candidates[1..];
    if !Passes(candidates[0], r) {
      var i := SomeConditionFailsFirst(candidates[0], r, 0);
      FirstFailureIs(candidates[0], r, 0, i);
      if f != Failure(candidates[0], i, r) { FailuresAreFirst(candidates[1..], r, f); }
    } else {
      FailuresAreFirst(candidates[1..], r, f);
    }
  }

  lemma {:induction false} FirstFailuresAreReported(candidates: seq<Policy>, r: Request, p: Policy, i: nat)
    requires p in candidates && FailsFirstAt(p, i, r) && forall q :: q in candidates && Passes(q, r) ==> q.effect.ALLOW?
    ensures Failure(p, i, r) in Failures(candidates, r)
  {
    assert candidates == [candidates[0]] + candidates[1..];
    if p == candidates[0] {
      FirstFailureIs(p, r, 0, i);
    } else {
      FirstFailuresAreReported(candidates[1..], r, p, i);
    }
  }

  /**
    Every condition reported as failed is the first failing one of a policy that applies, with the
    values it was evaluated to; and unless a DENY matches every such condition is reported.
   */
  lemma ReportedFailures(policies: seq<Policy>, r: Request)
    ensures forall f :: f in Evaluate(policies, r).failed ==> ReportsFailureOf(f, Filter(policies, r), r)
    ensures !SomeMatch(policies, r, DENY) ==>
              forall p, i: nat :: p in policies && Applies(p, r) && FailsFirstAt(p, i, r) ==> Failure(p, i, r) in Evaluate(policies, r).failed
  {
    CandidatesAre(policies, r);
    var cs := Candidates(policies, r);
    forall f | f in Evaluate(policies, r).failed ensures ReportsFailureOf(f, Filter(policies, r), r) {
      FailuresAreFirst(cs, r, f);
      var p, i: nat :| p in cs && FailsFirstAt(p, i, r) && f == Failure(p, i, r);
      assert p in Filter(policies, r);
    }
    if !SomeMatch(policies, r, DENY) {
      forall p, i: nat | p in policies && Applies(p, r) && FailsFirstAt(p, i, r) ensures Failure(p, i, r) in Evaluate(policies, r).failed {
        forall q | q in cs && Passes(q, r) ensures q.effect.ALLOW? {
          var j :| 0 <= j < |policies| && policies[j] == q;
        }
        FirstFailuresAreReported(cs, r, p, i);
      }
    }
  }

  /** A reported DENY has the highest priority among the matching DENYs. */
  lemma ReportedDenyIsTop(policies: seq<Policy>, r: Request, q: Policy)
    requires q in policies && q.effect.DENY? && Matches(q, r)
    ensures var taken := Taken(Candidates(policies, r), r);
            taken != [] && taken[|taken| - 1].effect.DENY? && taken[|taken| - 1].priority >= q.priority
  {
    CandidatesAre(policies, r);
    var cs := Candidates(policies, r);
    var i :| 0 <= i < |cs| && cs[i] == q;
    assert SomePass(cs, r, DENY);
    TakenFinds(cs, r);
    LastTakenIsTopDeny(cs, r, q);
  }

  /** The seeded policy that lets administrators through. */
  const ADMIN_POLICY := Policy("", "", ALLOW, "*", "*", 500, true, [C.ADMIN_CONDITION])

  lemma AdminPolicyPassesIff(host: C.Host, context: R.Context, resource: string, action: string)
    ensures var r := RequestIn(host, context, resource, action);
            SomeMatch([ADMIN_POLICY], r, ALLOW) <==> C.Evaluate(host, C.ADMIN_CONDITION, context).passed
    ensures !SomeMatch([ADMIN_POLICY], RequestIn(host, context, resource, action), DENY)
  {
    var r := RequestIn(host, context, resource, action);
    assert [ADMIN_POLICY][0] == ADMIN_POLICY && ADMIN_POLICY.conditions[0] == C.ADMIN_CONDITION;
    assert Passes(ADMIN_POLICY, r) <==> Holds(C.ADMIN_CONDITION, r);
    assert Matches(ADMIN_POLICY, r) <==> Passes(ADMIN_POLICY, r);
  }

  /**
    With the seeded administrator policy alone, a member without the permission is let through
    exactly when some role slug contains the text "admin", whether or not it is the role "admin".
   */
  lemma AdminPolicyAllowsIff(host: C.Host, context: R.Context, slugs: seq<string>, permissions: seq<Organizations.Permission>,
                             resource: string, action: string)
    requires IsObject(context.membership) && Get(context.membership, "roles") == Arr(C.Texted(slugs))
    ensures Authorize(false, true, permissions, [ADMIN_POLICY], RequestIn(host, context, resource, action)).allowed
            <==> P.HasPermission(permissions, resource, action) || exists i :: 0 <= i < |slugs| && C.Includes(slugs[i], "admin")
  {
    AllowedIff(false, true, permissions, [ADMIN_POLICY], RequestIn(host, context, resource, action));
    AdminPolicyPassesIff(host, context, resource, action);
    C.AdminConditionPassesIff(host, context, slugs);
  }
}
