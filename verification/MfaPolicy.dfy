/**
  Second-factor requirements of organizations, read from and written to their JSON settings, and
  their combination over a user's memberships (src/modules/mfa/services/mfa-policy.service.ts).
 */
module MfaPolicies {
  import opened Wrappers
  import opened JsValues
  import AttributeResolver

  datatype Method = TOTP | BACKUP_CODE

  datatype Settings = Settings(requireMfa: bool, allowBackupCodes: bool, methods: seq<Method>)

  datatype Patch = Patch(requireMfa: Option<bool>, allowBackupCodes: Option<bool>, methods: Option<seq<Method>>)

  const DEFAULT := Settings(false, true, [TOTP, BACKUP_CODE])

  // ---------------------------------------------------------------- reading settings

  function MethodNamed(v: Value): Option<Method> {
    if v == Str("TOTP") then Some(TOTP) else if v == Str("BACKUP_CODE") then Some(BACKUP_CODE) else None
  }

  /** The filter that keeps the known method names. */
  function KnownMethods(items: seq<Value>): seq<Method> {
    if items == [] then []
    else
      match MethodNamed(items[0])
      case Some(m) => [m] + KnownMethods(items[1..])
      case None => KnownMethods(items[1..])
  }

  /** v ?? fallback, as a truth value. */
  predicate TruthyOr(v: Value, fallback: bool) {
    if v.Undefined? || v.Null? then fallback else Truthy(v)
  }

  function ExtractFromSettings(raw: Value): (r: Settings)
    ensures r.methods != []
  {
    if !IsObject(raw) || raw.Arr? then DEFAULT
    else
      var mfa := Get(raw, "mfa");
      if !IsObject(mfa) then DEFAULT
      else
        var listed := Get(mfa, "allowedMfaMethods");
        var methods := if listed.Arr? then KnownMethods(listed.items) else DEFAULT.methods;
        Settings(TruthyOr(Get(mfa, "requireMfa"), DEFAULT.requireMfa),
                 TruthyOr(Get(mfa, "allowBackupCodes"), DEFAULT.allowBackupCodes),
                 if methods != [] then methods else DEFAULT.methods)
  }

  // ---------------------------------------------------------------- writing settings

  function NameOf(m: Method): Value {
    if m.TOTP? then Str("TOTP") else Str("BACKUP_CODE")
  }

  function Names(ms: seq<Method>): seq<Value> {
    if ms == [] then [] else [NameOf(ms[0])] + Names(ms[1..])
  }

  function ToJson(p: Settings): Value {
    Obj([Entry("requireMfa", Bool(p.requireMfa)), Entry("allowBackupCodes", Bool(p.allowBackupCodes)),
         Entry("allowedMfaMethods", Arr(Names(p.methods)))])
  }

  function Or<T>(patch: Option<T>, current: T): T {
    if patch.Some? then patch.value else current
  }

  /** The settings written back, and the policy reported to the caller. */
  function UpdatePolicy(raw: Value, patch: Patch): (Value, Settings) {
    var current := ExtractFromSettings(raw);
    var next := Settings(Or(patch.requireMfa, current.requireMfa), Or(patch.allowBackupCodes, current.allowBackupCodes),
                         Or(patch.methods, current.methods));
    var existing := if raw.Obj? then raw.entries else [];
    (Obj(AttributeResolver.Assign(existing, Entry("mfa", ToJson(next)))), next)
  }

  lemma {:induction false} NamesAreKnown(ms: seq<Method>)
    ensures KnownMethods(Names(ms)) == ms
  {
    if ms != [] {
      NamesAreKnown(ms[1..]);
      assert ([NameOf(ms[0])] + Names(ms[1..]))[1..] == Names(ms[1..]);
    }
  }

  lemma WrittenMembers(p: Settings)
    ensures Get(ToJson(p), "requireMfa") == Bool(p.requireMfa) && Get(ToJson(p), "allowBackupCodes") == Bool(p.allowBackupCodes)
    ensures Get(ToJson(p), "allowedMfaMethods") == Arr(Names(p.methods))
  {
    var entries := ToJson(p).entries;
    assert "requireMfa" != "allowBackupCodes" by { assert "requireMfa"[0] != "allowBackupCodes"[0]; }
    assert "requireMfa" != "allowedMfaMethods" by { assert "requireMfa"[0] != "allowedMfaMethods"[0]; }
    assert "allowBackupCodes" != "allowedMfaMethods" by { assert "allowBackupCodes"[5] != "allowedMfaMethods"[5]; }
    assert DistinctKeys(entries);
    GetEntry(entries, 0);
    GetEntry(entries, 1);
    GetEntry(entries, 2);
  }

  lemma ReadBack(raw: Value, p: Settings)
    requires raw.Obj? && Get(raw, "mfa") == ToJson(p)
    ensures ExtractFromSettings(raw) == if p.methods != [] then p else p.(methods := DEFAULT.methods)
  {
    WrittenMembers(p);
    NamesAreKnown(p.methods);
  }

  /**
    Reading the settings back gives the policy that was reported, exactly unless the patch names
    an empty method list; every other setting of the organization is untouched.
   */
  lemma UpdateRoundTripIff(raw: Value, patch: Patch, key: string)
    ensures var (written, next) := UpdatePolicy(raw, patch);
            && (ExtractFromSettings(written) == next <==> patch.methods != Some([]))
            && (raw.Obj? && key != "mfa" ==> Get(written, key) == Get(raw, key))
  {
    var (written, next) := UpdatePolicy(raw, patch);
    var existing := if raw.Obj? then raw.entries else [];
    AttributeResolver.LookupAfterAssign(existing, Entry("mfa", ToJson(next)), "mfa");
    AttributeResolver.LookupAfterAssign(existing, Entry("mfa", ToJson(next)), key);
    ReadBack(written, next);
  }

  // ---------------------------------------------------------------- combining policies

  function Keep(methods: seq<Method>, allowed: seq<Method>): seq<Method> {
    if methods == [] then []
    else if methods[0] in allowed then [methods[0]] + Keep(methods[1..], allowed)
    else Keep(methods[1..], allowed)
  }

  /** The reduce of intersectMethods: an empty accumulator starts over from the policy at hand. */
  function Fold(acc: seq<Method>, policies: seq<Settings>): seq<Method>
    decreases |policies|
  {
    if policies == [] then acc
    else
      var next := if acc == [] then policies[0].methods else Keep(acc, policies[0].methods);
      Fold(next, policies[1..])
  }

  function IntersectMethods(policies: seq<Settings>): seq<Method> {
    if policies == [] then DEFAULT.methods else Fold([], policies)
  }

  function EffectivePolicy(policies: seq<Settings>): Settings {
    if policies == [] then DEFAULT
    else
      Settings(exists i :: 0 <= i < |policies| && policies[i].requireMfa,
               forall i :: 0 <= i < |policies| ==> policies[i].allowBackupCodes,
               IntersectMethods(policies))
  }

  predicate AllowedByAll(m: Method, policies: seq<Settings>) {
    forall i :: 0 <= i < |policies| ==> m in policies[i].methods
  }

  /** Methods of the list that every policy allows, in the list's order: the intended meaning. */
  function Shared(methods: seq<Method>, policies: seq<Settings>): (r: seq<Method>)
    ensures forall m :: m in r <==> m in methods && AllowedByAll(m, policies)
  {
    if methods == [] then []
    else
      assert methods == [methods[0]] + methods[1..];
      if AllowedByAll(methods[0], policies) then [methods[0]] + Shared(methods[1..], policies)
      else Shared(methods[1..], policies)
  }

  /** What every policy allows, in the first policy's order. */
  function Common(policies: seq<Settings>): seq<Method>
    requires policies != []
  {
    Shared(policies[0].methods, policies)
  }

  lemma AllowedByAllSplit(m: Method, p: Settings, rest: seq<Settings>)
    ensures AllowedByAll(m, [p] + rest) <==> m in p.methods && AllowedByAll(m, rest)
  {
    if AllowedByAll(m, [p] + rest) {
      forall i | 0 <= i < |rest| ensures m in rest[i].methods { assert ([p] + rest)[i + 1] == rest[i]; }
      assert ([p] + rest)[0] == p;
    }
  }

  /** Keeping what one policy allows and then what the others allow is keeping what all allow. */
  lemma {:induction false} SharedAfterKeep(methods: seq<Method>, p: Settings, rest: seq<Settings>)
    ensures Shared(Keep(methods, p.methods), rest) == Shared(methods, [p] + rest)
  {
    if methods != [] {
      SharedAfterKeep(methods[1..], p, rest);
      AllowedByAllSplit(methods[0], p, rest);
      var kept := Keep(methods[1..], p.methods);
      assert ([methods[0]] + kept)[1..] == kept;
    }
  }

  lemma {:induction false} SharedOfAllowed(methods: seq<Method>, policies: seq<Settings>)
    requires forall m :: m in methods ==> AllowedByAll(m, policies)
    ensures Shared(methods, policies) == methods
  {
    if methods != [] {
      assert methods == [methods[0]] + methods[1..];
      SharedOfAllowed(methods[1..], policies);
    }
  }

  /** While something of the accumulator is shared by all the rest, the fold only filters. */
  lemma {:induction false} FoldKeepsShared(acc: seq<Method>, policies: seq<Settings>)
    requires acc != [] && Shared(acc, policies) != []
    ensures Fold(acc, policies) == Shared(acc, policies)
    decreases |policies|
  {
    if policies == [] {
      SharedOfAllowed(acc, policies);
    } else {
      assert policies == [policies[0]] + policies[1..];
      SharedAfterKeep(acc, policies[0], policies[1..]);
      var next := Keep(acc, policies[0].methods);
      assert Shared(next, policies[1..]) != [];
      FoldKeepsShared(next, policies[1..]);
    }
  }

  lemma {:induction false} SharedSkipsOwn(methods: seq<Method>, policies: seq<Settings>)
    requires policies != [] && forall m :: m in methods ==> m in policies[0].methods
    ensures Shared(methods, policies) == Shared(methods, policies[1..])
  {
    if methods != [] {
      assert methods == [methods[0]] + methods[1..];
      SharedSkipsOwn(methods[1..], policies);
      assert policies == [policies[0]] + policies[1..];
      AllowedByAllSplit(methods[0], policies[0], policies[1..]);
    }
  }

  /** When the policies share a method, the fold returns exactly the methods all allow, in the first policy's order. */
  lemma SharedPoliciesIntersect(policies: seq<Settings>)
    requires policies != [] && Common(policies) != []
    ensures IntersectMethods(policies) == Common(policies)
  {
    SharedSkipsOwn(policies[0].methods, policies);
    FoldKeepsShared(policies[0].methods, policies[1..]);
  }

  lemma {:induction false} FoldOfLast(acc: seq<Method>, policies: seq<Settings>, last: Settings)
    ensures Fold(acc, policies + [last]) == if Fold(acc, policies) == [] then last.methods else Keep(Fold(acc, policies), last.methods)
    decreases |policies|
  {
    if policies == [] {
      assert policies + [last] == [last];
      assert [last][1..] == [];
    } else {
      assert (policies + [last])[1..] == policies[1..] + [last];
      var next := if acc == [] then policies[0].methods else Keep(acc, policies[0].methods);
      FoldOfLast(next, policies[1..], last);
    }
  }

  /** Extraction never yields an empty list. */
  predicate AllListSome(policies: seq<Settings>) {
    forall i :: 0 <= i < |policies| ==> policies[i].methods != []
  }

  /** Policies that share nothing, though every shorter run of them from the first does. */
  predicate Block(b: seq<Settings>) {
    b != [] && Common(b) == [] && forall j :: 0 < j < |b| ==> Common(b[..j]) != []
  }

  /** The list is a row of such blocks, with nothing left over. */
  predicate CutsIntoBlocks(policies: seq<Settings>)
    decreases |policies|
  {
    policies == [] || exists k :: 0 < k <= |policies| && Block(policies[..k]) && CutsIntoBlocks(policies[k..])
  }

  lemma AllowedByAllAppend(m: Method, policies: seq<Settings>, last: Settings)
    ensures AllowedByAll(m, policies + [last]) <==> AllowedByAll(m, policies) && m in last.methods
  {
    var all := policies + [last];
    assert all[|policies|] == last;
    if AllowedByAll(m, all) {
      forall i | 0 <= i < |policies| ensures m in policies[i].methods { assert all[i] == policies[i]; }
    }
  }

  lemma {:induction false} SharedOneMore(methods: seq<Method>, policies: seq<Settings>, last: Settings)
    ensures Shared(methods, policies + [last]) == Keep(Shared(methods, policies), last.methods)
  {
    if methods != [] {
      SharedOneMore(methods[1..], policies, last);
      AllowedByAllAppend(methods[0], policies, last);
      var rest := Shared(methods[1..], policies);
      assert ([methods[0]] + rest)[1..] == rest;
    }
  }

  /** As long as no shorter run shares nothing, the fold is the intersection. */
  lemma {:induction false} FoldOfBlock(b: seq<Settings>)
    requires b != [] && AllListSome(b) && forall j :: 0 < j < |b| ==> Common(b[..j]) != []
    ensures Fold([], b) == Common(b)
    decreases |b|
  {
    var init, last := b[..|b| - 1], b[|b| - 1];
    assert b == init + [last];
    FoldOfLast([], init, last);
    if init == [] {
      SharedOfAllowed(last.methods, b);
    } else {
      forall j | 0 < j < |init| ensures Common(init[..j]) != [] { assert init[..j] == b[..j]; }
      FoldOfBlock(init);
      SharedOneMore(b[0].methods, init, last);
      assert Common(init) != [];
    }
  }

  lemma {:induction false} FoldInTwo(acc: seq<Method>, ps: seq<Settings>, qs: seq<Settings>)
    ensures Fold(acc, ps + qs) == Fold(Fold(acc, ps), qs)
    decreases |ps|
  {
    if ps == [] {
      assert ps + qs == qs;
    } else {
      assert (ps + qs)[0] == ps[0] && (ps + qs)[1..] == ps[1..] + qs;
      FoldInTwo(if acc == [] then ps[0].methods else Keep(acc, ps[0].methods), ps[1..], qs);
    }
  }

  /** What more policies share, fewer of them share. */
  lemma SharedByPrefix(policies: seq<Settings>, k: nat)
    requires 0 < k <= |policies| && Common(policies) != []
    ensures Common(policies[..k]) != []
  {
    var m := Common(policies)[0];
    assert m in Common(policies);
    forall i | 0 <= i < k ensures m in policies[..k][i].methods { assert policies[..k][i] == policies[i]; }
    assert m in Common(policies[..k]);
  }

  /** The shortest run from the first that shares nothing. */
  lemma FirstBlock(policies: seq<Settings>, upTo: nat) returns (k: nat)
    requires 0 < upTo <= |policies| && Common(policies[..upTo]) == []
    ensures 0 < k <= upTo && Block(policies[..k])
    decreases upTo
  {
    if j :| 0 < j < upTo && Common(policies[..j]) == [] {
      k := FirstBlock(policies, j);
    } else {
      k := upTo;
      forall j | 0 < j < k ensures Common(policies[..k][..j]) != [] { assert policies[..k][..j] == policies[..j]; }
    }
  }

  lemma BlockEnds(policies: seq<Settings>, k: nat)
    requires 0 < k <= |policies| && AllListSome(policies) && Block(policies[..k])
    ensures Fold([], policies) == Fold([], policies[k..])
  {
    assert policies == policies[..k] + policies[k..];
    FoldOfBlock(policies[..k]);
    FoldInTwo([], policies[..k], policies[k..]);
  }

  /** The fold comes out empty exactly when the list cuts into blocks. */
  lemma {:induction false} FoldEmptiesIff(policies: seq<Settings>)
    requires AllListSome(policies)
    ensures Fold([], policies) == [] <==> CutsIntoBlocks(policies)
    decreases |policies|
  {
    if policies != [] {
      if Common(policies) == [] {
        assert policies[..|policies|] == policies;
        var k := FirstBlock(policies, |policies|);
        BlockEnds(policies, k);
        FoldEmptiesIff(policies[k..]);
      } else {
        SharedPoliciesIntersect(policies);
      }
      if CutsIntoBlocks(policies) {
        var k :| 0 < k <= |policies| && Block(policies[..k]) && CutsIntoBlocks(policies[k..]);
        if Common(policies) != [] { SharedByPrefix(policies, k); }
        BlockEnds(policies, k);
        FoldEmptiesIff(policies[k..]);
      }
    }
  }

  /**
    For the non-empty method lists extraction yields, the fold returns what all policies allow
    exactly when they share a method or cut into blocks: consecutive runs that each share nothing,
    though every shorter run from the same start shares something.
   */
  lemma IntersectionIsRightIff(policies: seq<Settings>)
    requires policies != [] && AllListSome(policies)
    ensures IntersectMethods(policies) == Common(policies) <==> Common(policies) != [] || CutsIntoBlocks(policies)
  {
    if Common(policies) != [] {
      SharedPoliciesIntersect(policies);
    } else {
      FoldEmptiesIff(policies);
    }
  }

  /** Two disjoint policies followed by a third: the fold starts over and returns what the first forbids. */
  lemma DisjointPoliciesStartOver()
    ensures var a, b := Settings(true, true, [TOTP]), Settings(true, true, [BACKUP_CODE]);
            && IntersectMethods([a, b, b]) == [BACKUP_CODE] && Common([a, b, b]) == [] && IntersectMethods([a, b]) == []
  {
    var a, b := Settings(true, true, [TOTP]), Settings(true, true, [BACKUP_CODE]);
    var allThree := [a, b, b];
    assert [TOTP][1..] == [] && [b][1..] == [] && [b, b][1..] == [b] && allThree[1..] == [b, b] && [a, b][1..] == [b];
    assert Keep([TOTP], b.methods) == Keep([], b.methods) == [];
    assert Fold([], [b]) == Fold(b.methods, []) == [BACKUP_CODE];
    assert Fold([TOTP], [b, b]) == Fold([], [b]);
    assert Fold([], allThree) == Fold([TOTP], [b, b]);
    assert Fold([TOTP], [b]) == Fold([], []) == [];
    assert Fold([], [a, b]) == Fold([TOTP], [b]);
    assert allThree[1] == b && !AllowedByAll(TOTP, allThree);
    assert Shared([TOTP], allThree) == Shared([], allThree) == [];
  }

  /** One more organization can only add the requirement and only withdraw backup codes. */
  lemma JoiningTightensFlags(policies: seq<Settings>, p: Settings)
    ensures var before, after := EffectivePolicy(policies), EffectivePolicy(policies + [p]);
            && (after.requireMfa <==> before.requireMfa || p.requireMfa)
            && (after.allowBackupCodes <==> before.allowBackupCodes && p.allowBackupCodes)
  {
    var all := policies + [p];
    assert all[|policies|] == p;
    assert forall i :: 0 <= i < |policies| ==> all[i] == policies[i];
    if policies != [] && EffectivePolicy(policies).requireMfa {
      var i :| 0 <= i < |policies| && policies[i].requireMfa;
      assert all[i].requireMfa;
    }
  }
}
