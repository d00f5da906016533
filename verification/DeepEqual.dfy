/**
  The recursive comparison of policy conditions
  (src/modules/authorization/services/condition-evaluator.service.ts).

  The code's first test is ===. On primitives that is equality of values; on objects it is
  identity, which a model on values does not have. ReflexiveIff shows that the comparison of an
  object with itself answers true without that shortcut unless a NaN is inside.
 */
module DeepEquality {
  import opened Wrappers
  import opened JsValues

  predicate StrictlyEqual(a: Value, b: Value) {
    a == b && (a.Undefined? || a.Null? || a.Bool? || a.Str? || (a.Num? && !a.n.NaN?))
  }

  predicate DeepEqual(a: Value, b: Value)
    decreases Size(a) + Size(b)
  {
    if StrictlyEqual(a, b) then true
    else if a.Date? && b.Date? then a.time.Some? && a.time == b.time
    else if TypeOf(a) != TypeOf(b) then false
    else if !IsObject(a) || !IsObject(b) then false
    else if a.Arr? && b.Arr? then
      |a.items| == |b.items| && forall i :: 0 <= i < |a.items| ==> DeepEqual(a.items[i], b.items[i])
    else
      forall k :: k in Keys(a) + Keys(b) ==> DeepEqual(Get(a, k), Get(b, k))
  }

  // ---------------------------------------------------------------- reflexivity and symmetry

  /** A value equals itself exactly when no NaN and no invalid date is inside it. */
  lemma {:induction false} ReflexiveIff(v: Value)
    requires WellFormed(v)
    ensures DeepEqual(v, v) <==> NaNFree(v)
    decreases v
  {
    match v
    case Arr(items) =>
      forall i | 0 <= i < |items| ensures DeepEqual(items[i], items[i]) <==> NaNFree(items[i]) { ReflexiveIff(items[i]); }
    case Obj(entries) =>
      forall i | 0 <= i < |entries| ensures DeepEqual(entries[i].value, entries[i].value) <==> NaNFree(entries[i].value) {
        ReflexiveIff(entries[i].value);
      }
      EntriesAreTheKeys(entries);
      assert DeepEqual(v, v) <==> forall k :: k in Keys(v) ==> DeepEqual(Get(v, k), Get(v, k));
      if NaNFree(v) {
        forall k | k in Keys(v) ensures DeepEqual(Get(v, k), Get(v, k)) {
          var i :| 0 <= i < |entries| && entries[i].key == k;
        }
      } else {
        var i :| 0 <= i < |entries| && !NaNFree(entries[i].value);
        assert entries[i].key in Keys(v);
      }
    case _ =>
  }

  lemma EntriesAreTheKeys(entries: seq<Entry>)
    requires DistinctKeys(entries)
    ensures forall i :: 0 <= i < |entries| ==> entries[i].key in Keys(Obj(entries)) && Get(Obj(entries), entries[i].key) == entries[i].value
  {
    forall i | 0 <= i < |entries| ensures Get(Obj(entries), entries[i].key) == entries[i].value { GetEntry(entries, i); }
  }

  lemma {:induction false} Symmetric(a: Value, b: Value)
    ensures DeepEqual(a, b) == DeepEqual(b, a)
    decreases Size(a) + Size(b)
  {
    if a.Arr? && b.Arr? {
      if |a.items| == |b.items| {
        forall i | 0 <= i < |a.items| ensures DeepEqual(a.items[i], b.items[i]) == DeepEqual(b.items[i], a.items[i]) {
          Symmetric(a.items[i], b.items[i]);
        }
      }
    } else if IsObject(a) && IsObject(b) {
      forall k | k in Keys(a) + Keys(b) ensures DeepEqual(Get(a, k), Get(b, k)) == DeepEqual(Get(b, k), Get(a, k)) {
        Symmetric(Get(a, k), Get(b, k));
      }
      assert Keys(a) + Keys(b) == Keys(b) + Keys(a);
    }
  }

  // ---------------------------------------------------------------- structural equality

  /** A JSON value without the order of its keys: equality of trees is the independent notion. */
  datatype Tree =
    | TNull
    | TBool(b: bool)
    | TNum(n: real)
    | TStr(s: string)
    | TArr(items: seq<Tree>)
    | TObj(members: map<string, Tree>)

  function Structure(v: Value): Tree
    requires Json(v)
    decreases Size(v)
  {
    match v
    case Null => TNull
    case Bool(b) => TBool(b)
    case Num(n) => TNum(n.value)
    case Str(s) => TStr(s)
    case Arr(items) => TArr(seq(|items|, i requires 0 <= i < |items| => Structure(items[i])))
    case Obj(entries) => TObj(map k | k in Keys(v) :: (KeyIsJson(v, k); Structure(Get(v, k))))
  }

  lemma KeyIsJson(v: Value, k: string)
    requires Json(v) && v.Obj? && k in Keys(v)
    ensures Json(Get(v, k))
  {
    var i :| 0 <= i < |v.entries| && v.entries[i].key == k;
    GetEntry(v.entries, i);
  }

  /** Nowhere on the two values' common paths does an array meet an object. */
  predicate NoMixing(a: Value, b: Value)
    decreases Size(a) + Size(b)
  {
    if a.Arr? && b.Arr? then
      forall i :: 0 <= i < |a.items| && i < |b.items| ==> NoMixing(a.items[i], b.items[i])
    else if a.Obj? && b.Obj? then
      forall k :: k in Keys(a) * Keys(b) ==> NoMixing(Get(a, k), Get(b, k))
    else !(a.Arr? && b.Obj?) && !(a.Obj? && b.Arr?)
  }

  lemma MissingKeyDiffers(v: Value)
    requires Json(v)
    ensures !DeepEqual(v, Undefined) && !DeepEqual(Undefined, v)
  {
  }

  lemma ComparableKeysAgree(a: Value, b: Value)
    requires Json(a) && Json(b) && a.Obj? && b.Obj? && DeepEqual(a, b)
    ensures Keys(a) == Keys(b)
  {
    forall k | k in Keys(a) + Keys(b) ensures k in Keys(a) && k in Keys(b) {
      assert DeepEqual(Get(a, k), Get(b, k));
      if k !in Keys(b) { KeyIsJson(a, k); MissingKeyDiffers(Get(a, k)); }
      if k !in Keys(a) { KeyIsJson(b, k); MissingKeyDiffers(Get(b, k)); }
    }
  }

  lemma StructureOfObject(v: Value)
    requires Json(v) && v.Obj?
    ensures Structure(v).TObj? && Structure(v).members.Keys == Keys(v)
    ensures forall k :: k in Keys(v) ==> Json(Get(v, k)) && Structure(v).members[k] == Structure(Get(v, k))
  {
    forall k | k in Keys(v) ensures Json(Get(v, k)) { KeyIsJson(v, k); }
  }

  /** What SameStructureIff says of a and b. */
  ghost predicate Agreed(a: Value, b: Value) {
    Json(a) && Json(b) && (Structure(a) == Structure(b) <==> DeepEqual(a, b) && NoMixing(a, b))
  }

  lemma ArraysByItems(a: Value, b: Value)
    requires Json(a) && Json(b) && a.Arr? && b.Arr?
    requires |a.items| == |b.items| ==> forall i :: 0 <= i < |a.items| ==> Agreed(a.items[i], b.items[i])
    ensures Agreed(a, b)
  {
    var s, t := Structure(a), Structure(b);
    assert |s.items| == |a.items| && |t.items| == |b.items|;
    if |a.items| == |b.items| {
      assert forall i :: 0 <= i < |a.items| ==> s.items[i] == Structure(a.items[i]) && t.items[i] == Structure(b.items[i]);
      if DeepEqual(a, b) && NoMixing(a, b) {
        forall i | 0 <= i < |a.items| ensures s.items[i] == t.items[i] { assert Agreed(a.items[i], b.items[i]); }
        assert s.items == t.items;
      }
      if s == t {
        forall i | 0 <= i < |a.items| ensures DeepEqual(a.items[i], b.items[i]) && NoMixing(a.items[i], b.items[i]) {
          assert Agreed(a.items[i], b.items[i]);
          assert s.items[i] == t.items[i];
        }
      }
    }
  }

  lemma ObjectsByMembers(a: Value, b: Value)
    requires Json(a) && Json(b) && a.Obj? && b.Obj?
    requires Keys(a) == Keys(b) ==> forall k :: k in Keys(a) ==> Agreed(Get(a, k), Get(b, k))
    ensures Agreed(a, b)
  {
    var s, t := Structure(a), Structure(b);
    StructureOfObject(a);
    StructureOfObject(b);
    if Keys(a) == Keys(b) {
      if DeepEqual(a, b) && NoMixing(a, b) {
        forall k | k in Keys(a) ensures s.members[k] == t.members[k] {
          assert k in Keys(a) + Keys(b) && k in Keys(a) * Keys(b);
          assert Agreed(Get(a, k), Get(b, k));
        }
        assert s.members == t.members;
      }
      if s == t {
        forall k | k in Keys(a) + Keys(b) ensures DeepEqual(Get(a, k), Get(b, k)) && NoMixing(Get(a, k), Get(b, k)) {
          assert Agreed(Get(a, k), Get(b, k));
          assert s.members[k] == t.members[k];
        }
      }
    } else if DeepEqual(a, b) {
      ComparableKeysAgree(a, b);
    }
  }

  lemma {:induction false} StructureDecides(a: Value, b: Value)
    requires Json(a) && Json(b)
    ensures Agreed(a, b)
    decreases Size(a) + Size(b)
  {
    if a.Arr? && b.Arr? {
      if |a.items| == |b.items| {
        forall i | 0 <= i < |a.items| ensures Agreed(a.items[i], b.items[i]) { StructureDecides(a.items[i], b.items[i]); }
      }
      ArraysByItems(a, b);
    } else if a.Obj? && b.Obj? {
      if Keys(a) == Keys(b) {
        forall k | k in Keys(a) ensures Agreed(Get(a, k), Get(b, k)) {
          KeyIsJson(a, k);
          KeyIsJson(b, k);
          StructureDecides(Get(a, k), Get(b, k));
        }
      }
      ObjectsByMembers(a, b);
    }
  }

  /**
    On JSON values: two values have the same structure, whatever the order of their keys, exactly
    when deepEqual says so and no array met an object on the way.
   */
  lemma SameStructureIff(a: Value, b: Value)
    requires Json(a) && Json(b)
    ensures Structure(a) == Structure(b) <==> DeepEqual(a, b) && NoMixing(a, b)
  {
    StructureDecides(a, b);
  }

  /** Hence transitive wherever arrays meet only arrays. */
  lemma TransitiveWithoutMixing(a: Value, b: Value, c: Value)
    requires Json(a) && Json(b) && Json(c)
    requires DeepEqual(a, b) && NoMixing(a, b) && DeepEqual(b, c) && NoMixing(b, c)
    ensures DeepEqual(a, c) && NoMixing(a, c)
  {
    SameStructureIff(a, b);
    SameStructureIff(b, c);
    SameStructureIff(a, c);
  }

  /** With mixing it is not: an empty array equals {} by its keys and { length: 0 } by its length. */
  lemma MixingBreaksTransitivity()
    ensures var zero := Obj([Entry("length", Num(Finite(0.0)))]);
            && DeepEqual(Obj([]), Arr([])) && DeepEqual(Arr([]), zero) && !DeepEqual(Obj([]), zero)
  {
    var empty := Obj([]);
    var zero := Obj([Entry("length", Num(Finite(0.0)))]);
    assert Keys(empty) + Keys(Arr([])) == {};
    assert DeepEqual(empty, Arr([]));
    assert zero.entries[0].key == "length" && Keys(zero) == {"length"};
    assert Get(zero, "length") == Num(Finite(0.0)) == Get(Arr([]), "length");
    assert DeepEqual(Arr([]), zero);
    assert "length" in Keys(empty) + Keys(zero) && Get(empty, "length") == Undefined;
  }

  /** A date has no keys of its own, so two different dates both equal {}. */
  lemma DatesBreakTransitivity(x: int, y: int)
    requires x != y
    ensures DeepEqual(Date(Some(x)), Obj([])) && DeepEqual(Obj([]), Date(Some(y))) && !DeepEqual(Date(Some(x)), Date(Some(y)))
  {
    assert Keys(Date(Some(x))) + Keys(Obj([])) == {} && Keys(Obj([])) + Keys(Date(Some(y))) == {};
  }

  /** An own undefined and a missing key are the same to it. */
  lemma UndefinedMemberIsNoMember(k: string)
    ensures DeepEqual(Obj([Entry(k, Undefined)]), Obj([]))
  {
    var v := Obj([Entry(k, Undefined)]);
    assert v.entries[0].key == k && Keys(v) + Keys(Obj([])) == {k};
    assert Get(v, k) == Undefined == Get(Obj([]), k);
  }
}
