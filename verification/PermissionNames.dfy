/**
  Permission names as strings: the deduplicating loop of resolveForMembership and the wildcard
  check (src/modules/authorization/services/permission.service.ts), the names the DTO admits
  (src/modules/authorization/dto/permission.dto.ts), and the cache keys
  (src/modules/auth/constants/auth.constants.ts).
 */
module PermissionNames {
  import opened Wrappers
  import opened Organizations
  import opened PermissionCache

  /** The string the loop compares: resource and action joined by a colon. */
  function Joined(p: Permission): string {
    p.resource + ":" + p.action
  }

  predicate LowerLetter(c: char) { 'a' <= c <= 'z' }

  predicate NameChar(c: char) { LowerLetter(c) || '0' <= c <= '9' || c == '_' || c == '-' }

  /** The pattern and length CreatePermissionDto accepts for both names. */
  predicate AdmittedName(name: string) {
    2 <= |name| <= 60 && LowerLetter(name[0]) && forall i :: 0 <= i < |name| ==> NameChar(name[i])
  }

  predicate ColonFree(name: string) {
    ':' !in name
  }

  /** Splitting at the first colon recovers the pair. */
  lemma JoinedIsInjective(p: Permission, q: Permission)
    requires ColonFree(p.resource) && ColonFree(q.resource) && Joined(p) == Joined(q)
    ensures p == q
  {
    var n, k := |p.resource|, |q.resource|;
    assert Joined(p)[n] == ':' && Joined(q)[k] == ':';
    assert n == k;
    assert Joined(p)[..n] == p.resource && Joined(q)[..k] == q.resource;
    assert Joined(p)[n + 1..] == p.action && Joined(q)[k + 1..] == q.action;
  }

  // ---------------------------------------------------------------- deduplication

  function JoinedSet(ps: seq<Permission>): set<string> {
    set i | 0 <= i < |ps| :: Joined(ps[i])
  }

  /** The first row of each joined string, in row order. */
  function FirstPerKey(rows: seq<Permission>): (kept: seq<Permission>)
    ensures JoinedSet(kept) == JoinedSet(rows)
    ensures forall i :: 0 <= i < |kept| ==> kept[i] in rows
    ensures forall i, j :: 0 <= i < j < |kept| ==> Joined(kept[i]) != Joined(kept[j])
  {
    if rows == [] then []
    else
      var front := FirstPerKey(rows[..|rows| - 1]);
      var last := rows[|rows| - 1];
      assert JoinedSet(rows) == JoinedSet(rows[..|rows| - 1]) + {Joined(last)} by { JoinedSetAppend(rows[..|rows| - 1], last); assert rows == rows[..|rows| - 1] + [last]; }
      if Joined(last) in JoinedSet(front) then front
      else
        assert JoinedSet(front + [last]) == JoinedSet(front) + {Joined(last)} by { JoinedSetAppend(front, last); }
        front + [last]
  }

  lemma JoinedSetAppend(ps: seq<Permission>, p: Permission)
    ensures JoinedSet(ps + [p]) == JoinedSet(ps) + {Joined(p)}
  {
    forall k | k in JoinedSet(ps) + {Joined(p)} ensures k in JoinedSet(ps + [p]) {
      if k in JoinedSet(ps) {
        var i :| 0 <= i < |ps| && Joined(ps[i]) == k;
        assert (ps + [p])[i] == ps[i];
      } else {
        assert (ps + [p])[|ps|] == p;
      }
    }
  }

  /** The loop: a set of seen strings, and a row pushed when its string is new. */
  method Dedupe(rows: seq<Permission>) returns (result: seq<Permission>)
    ensures result == FirstPerKey(rows)
  {
    var seen: set<string> := {};
    result := [];
    for i := 0 to |rows|
      invariant result == FirstPerKey(rows[..i])
      invariant seen == JoinedSet(result)
    {
      assert rows[..i + 1][..i] == rows[..i];
      var key := Joined(rows[i]);
      if key in seen {
        continue;
      }
      JoinedSetAppend(result, rows[i]);
      seen := seen + {key};
      result := result + [rows[i]];
    }
    assert rows[..|rows|] == rows;
  }

  predicate NoRepeats(ps: seq<Permission>) {
    forall i, j :: 0 <= i < j < |ps| ==> ps[i] != ps[j]
  }

  ghost predicate JoinedDistinct(rows: seq<Permission>) {
    forall i, j :: 0 <= i < |rows| && 0 <= j < |rows| && Joined(rows[i]) == Joined(rows[j]) ==> rows[i] == rows[j]
  }

  /** The loop never repeats a pair, and loses none exactly when no two different pairs join alike. */
  lemma DedupeKeepsEveryPairIff(rows: seq<Permission>)
    ensures NoRepeats(FirstPerKey(rows))
    ensures Entries(FirstPerKey(rows)) == Entries(rows) <==> JoinedDistinct(rows)
  {
    var kept := FirstPerKey(rows);
    if JoinedDistinct(rows) {
      forall p | p in Entries(rows) ensures p in Entries(kept) {
        var i :| 0 <= i < |rows| && rows[i] == p;
        assert Joined(p) in JoinedSet(kept);
        var k :| 0 <= k < |kept| && Joined(kept[k]) == Joined(p);
        var j :| 0 <= j < |rows| && rows[j] == kept[k];
      }
      assert Entries(kept) == Entries(rows);
    }
    if Entries(kept) == Entries(rows) {
      forall i, j | 0 <= i < |rows| && 0 <= j < |rows| && Joined(rows[i]) == Joined(rows[j]) ensures rows[i] == rows[j] {
        assert rows[i] in Entries(kept) && rows[j] in Entries(kept);
        var a :| 0 <= a < |kept| && kept[a] == rows[i];
        var b :| 0 <= b < |kept| && kept[b] == rows[j];
      }
    }
  }

  // ---------------------------------------------------------------- the loader's query

  /** The grant rows of the live roles the membership holds, each once, in the order the database returns them. */
  ghost predicate IsJoin(s: State, m: MembershipId, order: seq<Grant>) {
    && (forall i, j :: 0 <= i < j < |order| ==> order[i] != order[j])
    && (forall g :: g in order <==> g in s.grants && g.role in LiveRoles(s, m))
  }

  /** The permission row joined to each of them. */
  function RowsOf(s: State, order: seq<Grant>): (rows: seq<Permission>)
    ensures forall p :: p in rows <==> exists g :: g in order && g.permission in s.permissions && s.permissions[g.permission] == p
  {
    if order == [] then []
    else
      var g, rest := order[0], RowsOf(s, order[1..]);
      assert forall h :: h in order <==> h == g || h in order[1..];
      if g.permission in s.permissions then [s.permissions[g.permission]] + rest else rest
  }

  ghost predicate ColonFreeNames(s: State) {
    forall p :: p in s.permissions ==> ColonFree(s.permissions[p].resource)
  }

  /** The loop over the joined rows yields the resolved set exactly when no two of the pairs join alike. */
  lemma LoaderIsExactIff(s: State, m: MembershipId, order: seq<Grant>)
    requires LiveMember(s, m) && IsJoin(s, m, order)
    ensures CanResolve(s, m, FirstPerKey(RowsOf(s, order))) <==> JoinedDistinct(RowsOf(s, order))
  {
    var rows := RowsOf(s, order);
    assert forall p :: p in Entries(rows) <==> p in rows;
    assert Entries(rows) == Resolved(s, m);
    DedupeKeepsEveryPairIff(rows);
    assert Entries(FirstPerKey(rows)) == set i | 0 <= i < |FirstPerKey(rows)| :: FirstPerKey(rows)[i];
  }

  lemma LoaderReadsResolved(s: State, m: MembershipId, order: seq<Grant>)
    requires LiveMember(s, m) && IsJoin(s, m, order) && ColonFreeNames(s)
    ensures CanResolve(s, m, FirstPerKey(RowsOf(s, order)))
  {
    var rows := RowsOf(s, order);
    forall i, j | 0 <= i < |rows| && 0 <= j < |rows| && Joined(rows[i]) == Joined(rows[j]) ensures rows[i] == rows[j] {
      assert rows[i] in rows && rows[j] in rows;
      JoinedIsInjective(rows[i], rows[j]);
    }
    LoaderIsExactIff(s, m, order);
  }

  // ---------------------------------------------------------------- the names a run creates

  /** What the DTO lets through to create. */
  predicate AdmittedOp(op: Op) {
    op.OpCreatePermission? ==> AdmittedName(op.resource) && AdmittedName(op.action)
  }

  predicate AllAdmitted(ops: seq<Op>) {
    forall i :: 0 <= i < |ops| ==> AdmittedOp(ops[i])
  }

  ghost predicate NoNewPermissions(s: State, s': State) {
    forall p :: p in s'.permissions ==> p in s.permissions && s'.permissions[p] == s.permissions[p]
  }

  lemma RoleOpAddsNoPermission(rule: CommitRule, s: State, op: Op)
    requires IsRoleOp(op)
    ensures NoNewPermissions(s, Step(rule, s, op))
  {
  }

  lemma MemberOpAddsNoPermission(rule: CommitRule, s: State, op: Op)
    requires IsMemberOp(op)
    ensures NoNewPermissions(s, Step(rule, s, op))
  {
  }

  lemma OtherOpAddsNoPermission(rule: CommitRule, s: State, op: Op)
    requires !IsRoleOp(op) && !IsMemberOp(op) && !op.OpCreatePermission?
    ensures NoNewPermissions(s, Step(rule, s, op))
  {
  }

  lemma StepKeepsColonFreeNames(rule: CommitRule, s: State, op: Op)
    requires ColonFreeNames(s) && AdmittedOp(op)
    ensures ColonFreeNames(Step(rule, s, op))
  {
    if op.OpCreatePermission? {
      AdmittedNamesAreColonFree(op.resource);
    } else if IsRoleOp(op) {
      RoleOpAddsNoPermission(rule, s, op);
    } else if IsMemberOp(op) {
      MemberOpAddsNoPermission(rule, s, op);
    } else {
      OtherOpAddsNoPermission(rule, s, op);
    }
  }

  /** Runs that create only permissions the DTO admits keep every resource name colon-free. */
  lemma {:induction false} RunKeepsColonFreeNames(rule: CommitRule, s: State, ops: seq<Op>)
    requires ColonFreeNames(s) && AllAdmitted(ops)
    ensures ColonFreeNames(Run(rule, s, ops))
    decreases |ops|
  {
    if ops != [] {
      StepKeepsColonFreeNames(rule, s, ops[0]);
      RunKeepsColonFreeNames(rule, Step(rule, s, ops[0]), ops[1..]);
    }
  }

  // ---------------------------------------------------------------- the wildcard check

  predicate Covers(p: Permission, resource: string, action: string) {
    (p.resource == resource || p.resource == "*") && (p.action == action || p.action == "*")
  }

  function HasPermission(ps: seq<Permission>, resource: string, action: string): bool {
    exists i :: 0 <= i < |ps| && Covers(ps[i], resource, action)
  }

  /** A query is answered yes exactly when the list holds the pair itself, or one that has a star in place of either name. */
  lemma HasPermissionIff(ps: seq<Permission>, resource: string, action: string)
    ensures HasPermission(ps, resource, action) <==> HoldsPair(Entries(ps), resource, action)
  {
    forall q | q in Entries(ps) && q in {Permission(resource, action), Permission("*", action), Permission(resource, "*"), Permission("*", "*")}
      ensures HasPermission(ps, resource, action)
    {
      var i :| 0 <= i < |ps| && ps[i] == q;
      assert Covers(ps[i], resource, action);
    }
    if i :| 0 <= i < |ps| && Covers(ps[i], resource, action) {
      assert ps[i] in Entries(ps);
    }
  }

  predicate HoldsPair(ps: set<Permission>, resource: string, action: string) {
    || Permission(resource, action) in ps || Permission("*", action) in ps
    || Permission(resource, "*") in ps || Permission("*", "*") in ps
  }

  ghost predicate AdmittedNames(s: State) {
    forall p :: p in s.permissions ==> AdmittedName(s.permissions[p].resource) && AdmittedName(s.permissions[p].action)
  }

  lemma StepKeepsAdmittedNames(rule: CommitRule, s: State, op: Op)
    requires AdmittedNames(s) && AdmittedOp(op)
    ensures AdmittedNames(Step(rule, s, op))
  {
    if op.OpCreatePermission? {
    } else if IsRoleOp(op) {
      RoleOpAddsNoPermission(rule, s, op);
    } else if IsMemberOp(op) {
      MemberOpAddsNoPermission(rule, s, op);
    } else {
      OtherOpAddsNoPermission(rule, s, op);
    }
  }

  /** Runs that create only permissions the DTO admits keep every name admitted. */
  lemma {:induction false} RunKeepsAdmittedNames(rule: CommitRule, s: State, ops: seq<Op>)
    requires AdmittedNames(s) && AllAdmitted(ops)
    ensures AdmittedNames(Run(rule, s, ops))
    decreases |ops|
  {
    if ops != [] {
      StepKeepsAdmittedNames(rule, s, ops[0]);
      RunKeepsAdmittedNames(rule, Step(rule, s, ops[0]), ops[1..]);
    }
  }

  /** An admitted name is no star: among admitted permissions a query is answered yes exactly for the pair itself. */
  lemma AdmittedPairsAreExact(s: State, m: MembershipId, resource: string, action: string)
    requires AdmittedNames(s)
    ensures HoldsPair(Resolved(s, m), resource, action) <==> Permission(resource, action) in Resolved(s, m)
  {
    forall p | p in Resolved(s, m) ensures p.resource != "*" && p.action != "*" {
      assert AdmittedName(p.resource) && AdmittedName(p.action);
      assert |"*"| == 1;
    }
  }

  /** Deduplication answers every permission query as the full rows do, for colon-free resource names. */
  lemma DedupeAnswersAlike(rows: seq<Permission>, resource: string, action: string)
    requires forall i :: 0 <= i < |rows| ==> ColonFree(rows[i].resource)
    ensures HasPermission(FirstPerKey(rows), resource, action) == HasPermission(rows, resource, action)
    ensures Entries(FirstPerKey(rows)) == Entries(rows)
  {
    forall i, j | 0 <= i < |rows| && 0 <= j < |rows| && Joined(rows[i]) == Joined(rows[j]) ensures rows[i] == rows[j] {
      JoinedIsInjective(rows[i], rows[j]);
    }
    DedupeKeepsEveryPairIff(rows);
    SameEntriesAnswerAlike(FirstPerKey(rows), rows, resource, action);
  }

  lemma SameEntriesAnswerAlike(ps: seq<Permission>, qs: seq<Permission>, resource: string, action: string)
    requires Entries(ps) == Entries(qs)
    ensures HasPermission(ps, resource, action) == HasPermission(qs, resource, action)
  {
    if i :| 0 <= i < |ps| && Covers(ps[i], resource, action) { assert ps[i] in Entries(qs); }
    if i :| 0 <= i < |qs| && Covers(qs[i], resource, action) { assert qs[i] in Entries(ps); }
  }

  /** Every name the DTO admits is colon-free, so the loop is exact on the permissions it can create. */
  lemma AdmittedNamesAreColonFree(name: string)
    requires AdmittedName(name)
    ensures ColonFree(name)
  {
    assert forall i :: 0 <= i < |name| ==> NameChar(name[i]);
  }

  // ---------------------------------------------------------------- cache keys

  function PermissionsKey(user: string, org: string): string {
    "permissions:user:" + user + ":org:" + org
  }

  function PoliciesKey(user: string, org: string): string {
    "policies:user:" + user + ":org:" + org
  }

  function AttributesKey(user: string, org: string): string {
    "attributes:user:" + user + ":org:" + org
  }

  /** For colon-free user ids, as UUIDs are, the key determines the (user, organization) pair. */
  lemma PermissionsKeyIsInjective(u1: string, o1: string, u2: string, o2: string)
    requires ColonFree(u1) && ColonFree(u2) && PermissionsKey(u1, o1) == PermissionsKey(u2, o2)
    ensures u1 == u2 && o1 == o2
  {
    var n := |"permissions:user:"|;
    var p, q := Permission(u1, "org:" + o1), Permission(u2, "org:" + o2);
    assert PermissionsKey(u1, o1)[n..] == Joined(p);
    assert PermissionsKey(u2, o2)[n..] == Joined(q);
    JoinedIsInjective(p, q);
    assert p.action[4..] == o1 && q.action[4..] == o2;
  }

  /** The three kinds of key never collide. */
  lemma KeyKindsAreDisjoint(u1: string, o1: string, u2: string, o2: string)
    ensures PermissionsKey(u1, o1) != PoliciesKey(u2, o2)
    ensures PermissionsKey(u1, o1) != AttributesKey(u2, o2)
    ensures PoliciesKey(u1, o1) != AttributesKey(u2, o2)
  {
    assert PermissionsKey(u1, o1)[1] == 'e' && PoliciesKey(u2, o2)[1] == 'o';
    assert PermissionsKey(u1, o1)[0] == 'p' && AttributesKey(u2, o2)[0] == 'a' && PoliciesKey(u1, o1)[0] == 'p';
  }
}
