/**
  SAML single sign-on: relay states that tie a response to a login this service began, and the
  replay cache for assertion ids (src/modules/sso/services/sso-login.service.ts; section 4.1.4.5
  of the SAML 2.0 Profiles).

  What the configuration lookup, the SAML library and user provisioning answer is given.
 */
module Sso {
  import opened Wrappers
  import opened Cache

  datatype Mark = RelayMark(organizationSlug: string) | SeenMark(at: Time)

  type State = Store<Mark>

  datatype Lifetimes = Lifetimes(relayMs: Time, replayMs: Time)

  /** The outcome of validating a response: the assertion id, and how mapping and provisioning end. */
  datatype Assertion = Assertion(id: string, hasEmail: bool, provisioned: bool)

  /** Which of the commands of one call reach the cache, in the order they are made. */
  datatype Reach = Reach(relayExists: bool, relayDelete: bool, replayExists: bool, replaySet: bool)

  const ALL_UP := Reach(true, true, true, true)

  datatype Error = NotConfigured | IdpInitiatedDisabled | InvalidAssertion | ReplayDetected | EmailMissing | ProvisioningFailed

  /** A call of handleAssertion; no relay state and no assertion id are empty strings, as in the code. */
  datatype Call = Call(allowIdpInitiated: Option<bool>, relayState: string, response: Option<Assertion>, reach: Reach, now: Time)

  datatype Login = Login(idpInitiated: bool)

  function RelayKey(relayState: string): string { "sso:relay:" + relayState }

  function ReplayKey(assertionId: string): string { "sso:assertion:" + assertionId }

  function TtlSeconds(ms: Time): int { ms / 1000 }

  // ---------------------------------------------------------------- operations

  /** beginSpInitiatedLogin for an enabled configuration, with the relay state it generates. */
  function Begin(l: Lifetimes, s: State, organizationSlug: string, relayState: string, up: bool, now: Time): State {
    SetAt(s, RelayKey(relayState), RelayMark(organizationSlug), TtlSeconds(l.relayMs), up, now)
  }

  predicate IdpInitiated(s: State, c: Call) {
    c.relayState == "" || !ExistsAt(s, RelayKey(c.relayState), c.reach.relayExists, c.now)
  }

  /** What is left of the cache once the relay state is taken. */
  function RelayTaken(s: State, c: Call): State {
    if c.relayState == "" then s else DeleteAt(s, RelayKey(c.relayState), c.reach.relayDelete)
  }

  function GuardReplay(l: Lifetimes, s: State, id: string, reach: Reach, now: Time): (State, Result<(), Error>) {
    if id == "" then (s, Ok(()))
    else if ExistsAt(s, ReplayKey(id), reach.replayExists, now) then (s, Err(ReplayDetected))
    else (SetAt(s, ReplayKey(id), SeenMark(now), TtlSeconds(l.replayMs), reach.replaySet, now), Ok(()))
  }

  function HandleAssertion(l: Lifetimes, s: State, c: Call): (State, Result<Login, Error>) {
    if c.allowIdpInitiated.None? then (s, Err(NotConfigured))
    else if IdpInitiated(s, c) && !c.allowIdpInitiated.value then (s, Err(IdpInitiatedDisabled))
    else
      var s1 := RelayTaken(s, c);
      match c.response
      case None => (s1, Err(InvalidAssertion))
      case Some(assertion) =>
        var (s2, guard) := GuardReplay(l, s1, assertion.id, c.reach, c.now);
        if guard.Err? then (s2, Err(ReplayDetected))
        else if !assertion.hasEmail then (s2, Err(EmailMissing))
        else if !assertion.provisioned then (s2, Err(ProvisioningFailed))
        else (s2, Ok(Login(IdpInitiated(s, c))))
  }

  // ---------------------------------------------------------------- runs

  datatype Op =
    | OpBegin(organizationSlug: string, relayState: string, up: bool, now: Time)
    | OpHandle(call: Call)

  function At(op: Op): Time {
    match op
    case OpBegin(_, _, _, now) => now
    case OpHandle(c) => c.now
  }

  function Step(l: Lifetimes, s: State, op: Op): State {
    match op
    case OpBegin(slug, relayState, up, now) => Begin(l, s, slug, relayState, up, now)
    case OpHandle(c) => HandleAssertion(l, s, c).0
  }

  function Run(l: Lifetimes, s: State, ops: seq<Op>): State
    decreases |ops|
  {
    if ops == [] then s else Run(l, Step(l, s, ops[0]), ops[1..])
  }

  // ---------------------------------------------------------------- keys

  lemma KeysAreApart(relayState: string, assertionId: string)
    ensures RelayKey(relayState) != ReplayKey(assertionId)
  {
    assert RelayKey(relayState)[4] == 'r' && ReplayKey(assertionId)[4] == 'a';
  }

  lemma KeysAreInjective(a: string, b: string)
    ensures RelayKey(a) == RelayKey(b) ==> a == b
    ensures ReplayKey(a) == ReplayKey(b) ==> a == b
  {
    assert RelayKey(a)[10..] == a && RelayKey(b)[10..] == b;
    assert ReplayKey(a)[14..] == a && ReplayKey(b)[14..] == b;
  }

  // ---------------------------------------------------------------- replay

  /** Entries of assertion ids change only once they have expired. */
  lemma StepKeepsSeen(l: Lifetimes, s: State, op: Op, id: string)
    requires Live(s, ReplayKey(id), At(op))
    requires op.OpHandle? ==> op.call.reach.replayExists
    ensures ReplayKey(id) in Step(l, s, op) && Step(l, s, op)[ReplayKey(id)] == s[ReplayKey(id)]
  {
    match op
    case OpBegin(slug, relayState, up, now) => KeysAreApart(relayState, id);
    case OpHandle(c) =>
      KeysAreApart(c.relayState, id);
      if c.response.Some? { KeysAreInjective(c.response.value.id, id); }
  }

  ghost predicate ReplayChecksReach(ops: seq<Op>) {
    forall i :: 0 <= i < |ops| && ops[i].OpHandle? ==> ops[i].call.reach.replayExists
  }

  ghost predicate NoLaterThan(ops: seq<Op>, now: Time) {
    forall i :: 0 <= i < |ops| ==> At(ops[i]) <= now
  }

  lemma {:induction false} RunKeepsSeen(l: Lifetimes, s: State, ops: seq<Op>, id: string, later: Time)
    requires Live(s, ReplayKey(id), later) && ReplayChecksReach(ops) && NoLaterThan(ops, later)
    ensures Live(Run(l, s, ops), ReplayKey(id), later)
    decreases |ops|
  {
    if ops != [] {
      assert ops[0] in ops && At(ops[0]) <= later;
      StepKeepsSeen(l, s, ops[0], id);
      assert forall i :: 0 <= i < |ops[1..]| ==> ops[1..][i] == ops[i + 1];
      RunKeepsSeen(l, Step(l, s, ops[0]), ops[1..], id, later);
    }
  }

  /** A successful call leaves its assertion id marked for the configured whole seconds. */
  lemma SuccessMarksId(l: Lifetimes, s: State, c: Call)
    requires HandleAssertion(l, s, c).1.Ok? && c.response.value.id != "" && c.reach.replaySet
    ensures var s' := HandleAssertion(l, s, c).0;
            var key := ReplayKey(c.response.value.id);
            key in s' && s'[key].expiresAt == Expiry(TtlSeconds(l.replayMs), c.now)
  {
  }

  /**
    Two successes with one assertion id are at least the replay lifetime apart, rounded down to
    whole seconds, in every run in between; with a lifetime under a second there is no second one.
   */
  lemma SuccessesAreTtlApart(l: Lifetimes, s: State, first: Call, ops: seq<Op>, second: Call)
    requires HandleAssertion(l, s, first).1.Ok? && first.reach.replaySet && first.response.value.id != ""
    requires second.response.Some? && second.response.value.id == first.response.value.id && second.reach.replayExists
    requires ReplayChecksReach(ops) && NoLaterThan(ops, second.now)
    requires HandleAssertion(l, Run(l, HandleAssertion(l, s, first).0, ops), second).1.Ok?
    ensures TtlSeconds(l.replayMs) > 0 && second.now >= first.now + 1000 * TtlSeconds(l.replayMs)
  {
    var id := first.response.value.id;
    SuccessMarksId(l, s, first);
    var s1 := HandleAssertion(l, s, first).0;
    if Live(s1, ReplayKey(id), second.now) {
      RunKeepsSeen(l, s1, ops, id, second.now);
      ReplayIsRefused(l, Run(l, s1, ops), second);
    }
  }

  lemma ReplayIsRefused(l: Lifetimes, s: State, c: Call)
    requires c.response.Some? && c.response.value.id != "" && c.reach.replayExists && Live(s, ReplayKey(c.response.value.id), c.now)
    ensures HandleAssertion(l, s, c).1.Err?
  {
    KeysAreApart(c.relayState, c.response.value.id);
  }

  /** Right after a success, the same assertion passes the guard again exactly when its mark has expired. */
  lemma GuardReopensIff(l: Lifetimes, s: State, c: Call, later: Time)
    requires HandleAssertion(l, s, c).1.Ok? && c.response.value.id != "" && c.reach.replaySet
    ensures GuardReplay(l, HandleAssertion(l, s, c).0, c.response.value.id, ALL_UP, later).1.Ok?
            <==> TtlSeconds(l.replayMs) > 0 && later >= c.now + 1000 * TtlSeconds(l.replayMs)
  {
    SuccessMarksId(l, s, c);
  }

  // ---------------------------------------------------------------- relay states

  /** The call is for a configuration that forbids IdP-initiated login and gets past the relay check. */
  predicate TakesRelayState(s: State, op: Op, relayState: string) {
    op.OpHandle? && op.call.allowIdpInitiated == Some(false) && !IdpInitiated(s, op.call) && op.call.relayState == relayState
  }

  predicate Issues(op: Op, relayState: string) {
    op.OpBegin? && op.relayState == relayState
  }

  function Count(b: bool): nat { if b then 1 else 0 }

  function TakesIn(l: Lifetimes, s: State, ops: seq<Op>, relayState: string): nat
    decreases |ops|
  {
    if ops == [] then 0 else Count(TakesRelayState(s, ops[0], relayState)) + TakesIn(l, Step(l, s, ops[0]), ops[1..], relayState)
  }

  function IssuesIn(ops: seq<Op>, relayState: string): nat {
    if ops == [] then 0 else Count(Issues(ops[0], relayState)) + IssuesIn(ops[1..], relayState)
  }

  ghost predicate DeletesReach(ops: seq<Op>) {
    forall i :: 0 <= i < |ops| && ops[i].OpHandle? ==> ops[i].call.reach.relayDelete
  }

  predicate Held(s: State, relayState: string) {
    RelayKey(relayState) in s
  }

  lemma StepSpendsRelayState(l: Lifetimes, s: State, op: Op, relayState: string)
    requires op.OpHandle? ==> op.call.reach.relayDelete
    ensures Count(TakesRelayState(s, op, relayState)) + Count(Held(Step(l, s, op), relayState))
            <= Count(Held(s, relayState)) + Count(Issues(op, relayState))
  {
    match op
    case OpBegin(slug, r, up, now) => KeysAreInjective(r, relayState);
    case OpHandle(c) =>
      KeysAreInjective(c.relayState, relayState);
      if c.response.Some? { KeysAreApart(relayState, c.response.value.id); }
  }

  /** Over any run a relay state is taken at most as often as it was issued. */
  lemma {:induction false} RelayStatesAreConserved(l: Lifetimes, s: State, ops: seq<Op>, relayState: string)
    requires DeletesReach(ops)
    ensures TakesIn(l, s, ops, relayState) + Count(Held(Run(l, s, ops), relayState)) <= Count(Held(s, relayState)) + IssuesIn(ops, relayState)
    decreases |ops|
  {
    if ops != [] {
      assert ops[0] in ops;
      StepSpendsRelayState(l, s, ops[0], relayState);
      assert forall i :: 0 <= i < |ops[1..]| ==> ops[1..][i] == ops[i + 1];
      RelayStatesAreConserved(l, Step(l, s, ops[0]), ops[1..], relayState);
    }
  }

  /**
    Logins for configurations that forbid IdP-initiated login map injectively into the relay states
    this service issued: from an empty cache, a relay state issued once is taken at most once and
    one never issued is never taken.
   */
  lemma StrictLoginsUseIssuedStatesOnce(l: Lifetimes, ops: seq<Op>, relayState: string)
    requires DeletesReach(ops)
    ensures TakesIn(l, map[], ops, relayState) <= IssuesIn(ops, relayState)
  {
    RelayStatesAreConserved(l, map[], ops, relayState);
  }

  /** Every success of such a configuration takes a relay state, whatever the cache's health. */
  lemma StrictSuccessTakesRelayState(l: Lifetimes, s: State, c: Call)
    requires c.allowIdpInitiated == Some(false) && HandleAssertion(l, s, c).1.Ok?
    ensures c.relayState != "" && TakesRelayState(s, OpHandle(c), c.relayState)
    ensures c.reach.relayExists && Live(s, RelayKey(c.relayState), c.now) && HandleAssertion(l, s, c).1 == Ok(Login(false))
  {
  }

  /** Until it is issued again, the stored relay state keeps the expiry it was given or is gone. */
  lemma StepKeepsRelayExpiry(l: Lifetimes, s: State, op: Op, relayState: string)
    requires !Issues(op, relayState) && Held(Step(l, s, op), relayState)
    ensures Held(s, relayState) && Step(l, s, op)[RelayKey(relayState)] == s[RelayKey(relayState)]
  {
    match op
    case OpBegin(slug, r, up, now) => KeysAreInjective(r, relayState);
    case OpHandle(c) =>
      if c.response.Some? { KeysAreApart(relayState, c.response.value.id); }
  }

  lemma {:induction false} RunKeepsRelayExpiry(l: Lifetimes, s: State, ops: seq<Op>, relayState: string)
    requires forall i :: 0 <= i < |ops| ==> !Issues(ops[i], relayState)
    requires Held(Run(l, s, ops), relayState)
    ensures Held(s, relayState) && Run(l, s, ops)[RelayKey(relayState)] == s[RelayKey(relayState)]
    decreases |ops|
  {
    if ops != [] {
      RunKeepsRelayExpiry(l, Step(l, s, ops[0]), ops[1..], relayState);
      StepKeepsRelayExpiry(l, s, ops[0], relayState);
    }
  }

  /** A strict login succeeds only within the lifetime of the relay state it carries. */
  lemma RelayStateExpires(l: Lifetimes, s: State, slug: string, relayState: string, begun: Time, ops: seq<Op>, c: Call)
    requires TtlSeconds(l.relayMs) > 0 && forall i :: 0 <= i < |ops| ==> !Issues(ops[i], relayState)
    requires c.allowIdpInitiated == Some(false) && c.relayState == relayState
    requires HandleAssertion(l, Run(l, Begin(l, s, slug, relayState, true, begun), ops), c).1.Ok?
    ensures c.now < begun + 1000 * TtlSeconds(l.relayMs)
  {
    var s1 := Begin(l, s, slug, relayState, true, begun);
    StrictSuccessTakesRelayState(l, Run(l, s1, ops), c);
    RunKeepsRelayExpiry(l, s1, ops, relayState);
  }

  /** What the cache answers when asked for a key. */
  predicate Finds(s: State, key: string, reaches: bool, now: Time) {
    reaches && key in s && (s[key].expiresAt.None? || now < s[key].expiresAt.value)
  }

  /**
    A login succeeds exactly for an enabled configuration, with a relay state the cache holds or
    leave to do without, a valid response whose assertion id the cache has not seen, an email
    address and a provisioned user; it is IdP-initiated exactly without such a relay state.
   */
  lemma AssertionIsAcceptedIff(l: Lifetimes, s: State, c: Call)
    ensures var outcome := HandleAssertion(l, s, c).1;
            var held := c.relayState != "" && Finds(s, "sso:relay:" + c.relayState, c.reach.relayExists, c.now);
            && (outcome.Ok? <==>
                  && c.allowIdpInitiated.Some? && (held || c.allowIdpInitiated.value)
                  && c.response.Some? && c.response.value.hasEmail && c.response.value.provisioned
                  && (c.response.value.id == "" || !Finds(s, "sso:assertion:" + c.response.value.id, c.reach.replayExists, c.now)))
            && (outcome.Ok? ==> outcome.value.idpInitiated == !held)
            && (outcome == Err(EmailMissing) ==> c.response.Some? && !c.response.value.hasEmail)
            && (outcome == Err(ProvisioningFailed) ==> c.response.Some? && !c.response.value.provisioned)
  {
    assert ReplayOf(c) != "" ==> RelayTakenKeeps(s, c, ReplayOf(c)) by { if ReplayOf(c) != "" { KeysAreApart(c.relayState, ReplayOf(c)); } }
  }

  function ReplayOf(c: Call): string {
    if c.response.Some? then c.response.value.id else ""
  }

  /** Taking the relay state leaves the mark of the assertion alone. */
  predicate RelayTakenKeeps(s: State, c: Call, id: string) {
    (ReplayKey(id) in RelayTaken(s, c) <==> ReplayKey(id) in s) && (ReplayKey(id) in s ==> RelayTaken(s, c)[ReplayKey(id)] == s[ReplayKey(id)])
  }

  /** No operation issues the relay state again or presents it. */
  predicate LeavesRelayState(op: Op, relayState: string) {
    !Issues(op, relayState) && (op.OpHandle? ==> op.call.relayState != relayState)
  }

  lemma StepKeepsRelayState(l: Lifetimes, s: State, op: Op, relayState: string)
    requires LeavesRelayState(op, relayState) && Held(s, relayState)
    ensures Held(Step(l, s, op), relayState) && Step(l, s, op)[RelayKey(relayState)] == s[RelayKey(relayState)]
  {
    match op
    case OpBegin(slug, r, up, now) => KeysAreInjective(r, relayState);
    case OpHandle(c) =>
      KeysAreInjective(c.relayState, relayState);
      if c.response.Some? { KeysAreApart(relayState, c.response.value.id); }
  }

  lemma {:induction false} RunKeepsRelayState(l: Lifetimes, s: State, ops: seq<Op>, relayState: string)
    requires Held(s, relayState) && forall i :: 0 <= i < |ops| ==> LeavesRelayState(ops[i], relayState)
    ensures Held(Run(l, s, ops), relayState) && Run(l, s, ops)[RelayKey(relayState)] == s[RelayKey(relayState)]
    decreases |ops|
  {
    if ops != [] {
      StepKeepsRelayState(l, s, ops[0], relayState);
      RunKeepsRelayState(l, Step(l, s, ops[0]), ops[1..], relayState);
    }
  }

  /**
    A login begun here is completed, after any run that leaves its relay state alone, exactly
    within the relay lifetime in whole seconds, by a valid new assertion of a known user.
   */
  lemma BegunLoginCompletesIff(l: Lifetimes, s: State, slug: string, relayState: string, begun: Time, ops: seq<Op>, assertion: Assertion, now: Time)
    requires relayState != "" && forall i :: 0 <= i < |ops| ==> LeavesRelayState(ops[i], relayState)
    ensures var end := Run(l, Begin(l, s, slug, relayState, true, begun), ops);
            HandleAssertion(l, end, Call(Some(false), relayState, Some(assertion), ALL_UP, now)).1.Ok?
            <==> && (TtlSeconds(l.relayMs) <= 0 || now < begun + 1000 * TtlSeconds(l.relayMs))
                 && assertion.hasEmail && assertion.provisioned
                 && (assertion.id == "" || !Finds(end, "sso:assertion:" + assertion.id, true, now))
  {
    var s1 := Begin(l, s, slug, relayState, true, begun);
    RunKeepsRelayState(l, s1, ops, relayState);
    AssertionIsAcceptedIff(l, Run(l, s1, ops), Call(Some(false), relayState, Some(assertion), ALL_UP, now));
  }

  // ---------------------------------------------------------------- where the guarantees end

  const SPENT := Call(Some(false), "r", Some(Assertion("a", true, true)), Reach(true, false, true, true), 1)

  /** If the delete does not reach the cache, one relay state serves two strict logins. */
  lemma LostDeleteReusesRelayState(l: Lifetimes)
    requires TtlSeconds(l.relayMs) > 0
    ensures var s := Begin(l, map[], "org", "r", true, 0);
            var again := SPENT.(response := Some(Assertion("b", true, true)));
            HandleAssertion(l, s, SPENT).1.Ok? && HandleAssertion(l, HandleAssertion(l, s, SPENT).0, again).1.Ok?
  {
    KeysAreApart("r", "a");
    var s := Begin(l, map[], "org", "r", true, 0);
    assert Live(s, RelayKey("r"), 1);
    assert ReplayKey("a") !in s;
    var s1 := HandleAssertion(l, s, SPENT).0;
    assert Live(s1, RelayKey("r"), 1);
    KeysAreApart("r", "b");
    KeysAreInjective("a", "b");
    assert ReplayKey("b") !in s1;
  }

  /** If the replay check does not reach the cache, an assertion already seen passes it. */
  lemma LostCheckAdmitsReplay(l: Lifetimes, s: State, id: string, reach: Reach, now: Time)
    requires !reach.replayExists
    ensures GuardReplay(l, s, id, reach, now).1.Ok?
  {
  }

  /** The organization a relay state was issued for plays no part: any organization's login takes it. */
  lemma RelayStateIsNotBoundToOrganization(l: Lifetimes, s: State, slug: string, other: string, relayState: string, begun: Time, c: Call)
    ensures HandleAssertion(l, Begin(l, s, slug, relayState, true, begun), c).1 == HandleAssertion(l, Begin(l, s, other, relayState, true, begun), c).1
  {
    if c.response.Some? { KeysAreApart(relayState, c.response.value.id); }
  }

  /** Taking a relay state is final whatever follows: a response that fails validation spends it too. */
  lemma FailedResponseSpendsRelayState(l: Lifetimes, s: State, c: Call)
    requires c.allowIdpInitiated == Some(false) && !IdpInitiated(s, c) && c.reach.relayDelete
    ensures !Held(HandleAssertion(l, s, c).0, c.relayState)
  {
    if c.response.Some? { KeysAreApart(c.relayState, c.response.value.id); }
  }
}
