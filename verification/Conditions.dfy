/**
  Evaluation of one policy condition: coercion to the declared type, then the operator
  (src/modules/authorization/services/condition-evaluator.service.ts).
 */
module Conditions {
  import opened Wrappers
  import opened JsValues
  import opened DeepEquality
  import opened AttributeResolver

  datatype ValueType = STRING | NUMBER | BOOLEAN | DATE | ARRAY | JSON

  datatype Operator =
    | EQUALS | NOT_EQUALS | IN | NOT_IN
    | GREATER_THAN | GREATER_THAN_OR_EQUAL | LESS_THAN | LESS_THAN_OR_EQUAL
    | CONTAINS | STARTS_WITH | ENDS_WITH | EXISTS | REGEX_MATCH

  datatype Condition = Condition(id: string, source: Source, path: string, operator: Operator, value: Value, valueType: ValueType)

  /** The language's own conversions between text, numbers and dates, and its regular expressions. */
  datatype Host = Host(
    parseNumber: string -> Number, formatNumber: Number -> string,
    parseDate: string -> Option<int>, formatDate: Option<int> -> string,
    regexTest: (string, string) -> Option<bool>)

  datatype Evaluation = Evaluation(passed: bool, actual: Value, expected: Value)

  // ---------------------------------------------------------------- coercion

  /** String(v); null and undefined print as nothing inside an array. */
  function ToText(h: Host, v: Value): string {
    match v
    case Undefined => "undefined"
    case Null => "null"
    case Bool(b) => if b then "true" else "false"
    case Num(n) => h.formatNumber(n)
    case Str(s) => s
    case Arr(items) => Join(Texts(h, items), ",")
    case Obj(_) => "[object Object]"
    case Date(time) => h.formatDate(time)
  }

  function Texts(h: Host, items: seq<Value>): (texts: seq<string>)
    ensures |texts| == |items|
    ensures forall i :: 0 <= i < |items| && items[i].Str? ==> texts[i] == items[i].s
  {
    if items == [] then []
    else
      var rest := Texts(h, items[1..]);
      assert forall i :: 1 <= i < |items| ==> items[i] == items[1..][i - 1];
      [if items[0].Undefined? || items[0].Null? then "" else ToText(h, items[0])] + rest
  }

  /** Number(v). */
  function ToNumber(h: Host, v: Value): Number {
    match v
    case Undefined => NaN
    case Null => Finite(0.0)
    case Bool(b) => Finite(if b then 1.0 else 0.0)
    case Num(n) => n
    case Str(s) => h.parseNumber(s)
    case Date(time) => if time.Some? then Finite(time.value as real) else NaN
    case _ => h.parseNumber(ToText(h, v))
  }

  function Coerce(h: Host, v: Value, t: ValueType): Value {
    if v.Undefined? || v.Null? then v
    else
      match t
      case NUMBER => Num(ToNumber(h, v))
      case BOOLEAN =>
        if v.Bool? then v
        else if v == Str("true") then Bool(true)
        else if v == Str("false") then Bool(false)
        else Bool(Truthy(v))
      case DATE => if v.Date? then v else Date(h.parseDate(ToText(h, v)))
      case STRING => Str(ToText(h, v))
      case ARRAY => v
      case JSON => v
  }

  // ---------------------------------------------------------------- operators

  predicate Less(a: Number, b: Number)
    requires !a.NaN? && !b.NaN?
  {
    match (a, b)
    case (Finite(x), Finite(y)) => x < y
    case (Infinity(p), Infinity(q)) => !p && q
    case (Finite(_), Infinity(q)) => q
    case (Infinity(p), Finite(_)) => !p
  }

  datatype Comparison = Gt | Ge | Lt | Le

  predicate NumericCompare(h: Host, actual: Value, expected: Value, cmp: Comparison) {
    var a, b := ToNumber(h, actual), ToNumber(h, expected);
    && !a.NaN? && !b.NaN?
    && match cmp
       case Gt => Less(b, a)
       case Ge => Less(b, a) || a == b
       case Lt => Less(a, b)
       case Le => Less(a, b) || a == b
  }

  predicate OccursAt(s: string, needle: string, i: nat) {
    i + |needle| <= |s| && s[i..i + |needle|] == needle
  }

  /** String.includes. */
  predicate Includes(s: string, needle: string) {
    exists i :: 0 <= i <= |s| && OccursAt(s, needle, i)
  }

  predicate StartsWith(s: string, prefix: string) {
    prefix <= s
  }

  predicate EndsWith(s: string, suffix: string) {
    |suffix| <= |s| && s[|s| - |suffix|..] == suffix
  }

  predicate SomeEqual(items: seq<Value>, v: Value) {
    exists i :: 0 <= i < |items| && DeepEqual(items[i], v)
  }

  predicate ApplyOperator(h: Host, op: Operator, actual: Value, expected: Value) {
    match op
    case EQUALS => DeepEqual(actual, expected)
    case NOT_EQUALS => !DeepEqual(actual, expected)
    case IN => expected.Arr? && SomeEqual(expected.items, actual)
    case NOT_IN => expected.Arr? && !SomeEqual(expected.items, actual)
    case GREATER_THAN => NumericCompare(h, actual, expected, Gt)
    case GREATER_THAN_OR_EQUAL => NumericCompare(h, actual, expected, Ge)
    case LESS_THAN => NumericCompare(h, actual, expected, Lt)
    case LESS_THAN_OR_EQUAL => NumericCompare(h, actual, expected, Le)
    case CONTAINS =>
      if actual.Str? && expected.Str? then Includes(actual.s, expected.s)
      else actual.Arr? && SomeEqual(actual.items, expected)
    case STARTS_WITH => actual.Str? && expected.Str? && StartsWith(actual.s, expected.s)
    case ENDS_WITH => actual.Str? && expected.Str? && EndsWith(actual.s, expected.s)
    case EXISTS => !actual.Undefined? && !actual.Null?
    case REGEX_MATCH => actual.Str? && expected.Str? && h.regexTest(expected.s, actual.s) == Some(true)
  }

  function ExpectedValue(condition: Condition, c: Context): Value {
    if condition.value.Str? then ResolveCompareTarget(c, condition.value.s) else condition.value
  }

  function Evaluate(h: Host, condition: Condition, c: Context): Evaluation {
    var actual := Coerce(h, Resolve(c, condition.source, condition.path), condition.valueType);
    var target := ExpectedValue(condition, c);
    var expected :=
      if (condition.operator.IN? || condition.operator.NOT_IN?) && target.Arr? then target
      else Coerce(h, target, condition.valueType);
    Evaluation(ApplyOperator(h, condition.operator, actual, expected), actual, expected)
  }

  // ---------------------------------------------------------------- what the operators mean

  ghost predicate Surrounds(s: string, before: string, needle: string, after: string) {
    s == before + needle + after
  }

  lemma IncludesMeans(s: string, t: string)
    ensures Includes(s, t) <==> exists before, after :: Surrounds(s, before, t, after)
  {
    if i :| 0 <= i <= |s| && OccursAt(s, t, i) {
      assert s == s[..i] + s[i..i + |t|] + s[i + |t|..];
      assert Surrounds(s, s[..i], t, s[i + |t|..]);
    }
    if before, after :| Surrounds(s, before, t, after) {
      assert s[|before|..|before| + |t|] == t;
      assert OccursAt(s, t, |before|);
    }
  }

  lemma StartsWithMeans(s: string, t: string)
    ensures StartsWith(s, t) <==> exists after :: Surrounds(s, "", t, after)
  {
    if StartsWith(s, t) {
      assert s == "" + t + s[|t|..];
      assert Surrounds(s, "", t, s[|t|..]);
    }
    if after :| Surrounds(s, "", t, after) {
      assert "" + t == t;
    }
  }

  lemma EndsWithMeans(s: string, t: string)
    ensures EndsWith(s, t) <==> exists before :: Surrounds(s, before, t, "")
  {
    if EndsWith(s, t) {
      assert s == s[..|s| - |t|] + t + "";
      assert Surrounds(s, s[..|s| - |t|], t, "");
    }
    if before :| Surrounds(s, before, t, "") {
      assert s == before + t;
    }
  }

  /** The text operators: somewhere, at the start, at the end. */
  lemma TextOperators(h: Host, s: string, t: string)
    ensures ApplyOperator(h, CONTAINS, Str(s), Str(t)) <==> exists before, after :: Surrounds(s, before, t, after)
    ensures ApplyOperator(h, STARTS_WITH, Str(s), Str(t)) <==> exists after :: Surrounds(s, "", t, after)
    ensures ApplyOperator(h, ENDS_WITH, Str(s), Str(t)) <==> exists before :: Surrounds(s, before, t, "")
  {
    TextOperatorsApply(h, s, t);
    IncludesMeans(s, t);
    StartsWithMeans(s, t);
    EndsWithMeans(s, t);
  }

  lemma TextOperatorsApply(h: Host, s: string, t: string)
    ensures ApplyOperator(h, CONTAINS, Str(s), Str(t)) == Includes(s, t)
    ensures ApplyOperator(h, STARTS_WITH, Str(s), Str(t)) == StartsWith(s, t)
    ensures ApplyOperator(h, ENDS_WITH, Str(s), Str(t)) == EndsWith(s, t)
  {
  }

  ghost predicate HasStructureOf(items: seq<Value>, v: Value)
    requires Json(v) && forall i :: 0 <= i < |items| ==> Json(items[i])
  {
    exists i :: 0 <= i < |items| && Structure(items[i]) == Structure(v)
  }

  lemma SomeEqualByStructure(items: seq<Value>, v: Value)
    requires Json(v) && (forall i :: 0 <= i < |items| ==> Json(items[i]) && NoMixing(items[i], v))
    ensures SomeEqual(items, v) <==> HasStructureOf(items, v)
  {
    forall i | 0 <= i < |items| ensures DeepEqual(items[i], v) <==> Structure(items[i]) == Structure(v) {
      SameStructureIff(items[i], v);
    }
  }

  lemma EqualsComparesStructure(h: Host, a: Value, b: Value)
    requires Json(a) && Json(b) && NoMixing(a, b)
    ensures ApplyOperator(h, EQUALS, a, b) <==> Structure(a) == Structure(b)
    ensures ApplyOperator(h, NOT_EQUALS, a, b) <==> Structure(a) != Structure(b)
  {
    SameStructureIff(a, b);
  }

  lemma SearchesApply(h: Host, items: seq<Value>, v: Value)
    ensures ApplyOperator(h, IN, v, Arr(items)) <==> SomeEqual(items, v)
    ensures ApplyOperator(h, NOT_IN, v, Arr(items)) <==> !SomeEqual(items, v)
    ensures ApplyOperator(h, CONTAINS, Arr(items), v) <==> SomeEqual(items, v)
  {
  }

  /** Lists are searched by structure: with no array meeting an object, IN, NOT_IN and CONTAINS tell exactly whether the list has such an element. */
  lemma InComparesByStructure(h: Host, items: seq<Value>, v: Value)
    requires Json(v) && (forall i :: 0 <= i < |items| ==> Json(items[i]) && NoMixing(items[i], v))
    ensures ApplyOperator(h, IN, v, Arr(items)) <==> HasStructureOf(items, v)
    ensures ApplyOperator(h, NOT_IN, v, Arr(items)) <==> !HasStructureOf(items, v)
    ensures ApplyOperator(h, CONTAINS, Arr(items), v) <==> HasStructureOf(items, v)
  {
    SomeEqualByStructure(items, v);
    SearchesApply(h, items, v);
  }

  /** The value is of the declared type. */
  predicate HasType(v: Value, t: ValueType) {
    match t
    case NUMBER => v.Num?
    case BOOLEAN => v.Bool?
    case DATE => v.Date?
    case STRING => v.Str?
    case ARRAY => true
    case JSON => true
  }

  /**
    A value that is not missing is coerced to the declared type, one that has it stays as it is, and
    so does a missing one; as a boolean, text is false exactly when it is empty or reads false.
   */
  lemma CoercionGivesTheType(h: Host, v: Value, t: ValueType)
    ensures if v.Undefined? || v.Null? then Coerce(h, v, t) == v else HasType(Coerce(h, v, t), t)
    ensures HasType(v, t) ==> Coerce(h, v, t) == v
    ensures v.Str? && t.BOOLEAN? ==> Coerce(h, v, t) == Bool(v.s != "" && v.s != "false")
    ensures v.Str? && t.NUMBER? ==> Coerce(h, v, t) == Num(h.parseNumber(v.s))
    ensures v.Str? && t.DATE? ==> Coerce(h, v, t) == Date(h.parseDate(v.s))
  {
    assert "true" != "false" by { assert "true"[0] != "false"[0]; }
  }

  /** EXISTS asks for a value that is neither missing nor null, and REGEX_MATCH for text the pattern matches. */
  lemma ExistenceAndPatterns(h: Host, condition: Condition, c: Context)
    ensures condition.operator.EXISTS? ==>
              (Evaluate(h, condition, c).passed <==> Resolve(c, condition.source, condition.path) !in {Undefined, Null})
    ensures condition.operator.REGEX_MATCH? && condition.valueType.STRING? && Resolve(c, condition.source, condition.path).Str?
            && condition.value.Str? && ParseReference(condition.value.s).None? ==>
              (Evaluate(h, condition, c).passed <==> h.regexTest(condition.value.s, Resolve(c, condition.source, condition.path).s) == Some(true))
  {
    CoercionGivesTheType(h, Resolve(c, condition.source, condition.path), condition.valueType);
  }

  ghost predicate IsLiteral(v: Value) {
    Json(v) && (v.Str? ==> ParseReference(v.s).None?)
  }

  lemma OnlyMissingEqualsMissing(v: Value)
    ensures DeepEqual(v, Undefined) <==> v.Undefined?
    ensures DeepEqual(Undefined, v) <==> v.Undefined?
  {
  }

  /** A missing attribute equals only a target that is missing too, and passes no operator but these. */
  predicate PassesWhenMissing(op: Operator, target: Value) {
    match op
    case EQUALS => target.Undefined?
    case NOT_EQUALS => !target.Undefined?
    case IN => target.Arr? && Undefined in target.items
    case NOT_IN => target.Arr? && Undefined !in target.items
    case _ => false
  }

  /**
    When a condition on a missing attribute passes, whatever it is compared with: a reference may
    name a missing attribute itself, a literal is never missing.
   */
  lemma MissingAttributePassesIff(h: Host, condition: Condition, c: Context)
    requires Resolve(c, condition.source, condition.path) == Undefined
    ensures var target := ExpectedValue(condition, c);
            Evaluate(h, condition, c).passed <==> PassesWhenMissing(condition.operator, target)
    ensures IsLiteral(condition.value) ==>
              (Evaluate(h, condition, c).passed
               <==> condition.operator.NOT_EQUALS? || (condition.operator.NOT_IN? && condition.value.Arr?))
  {
    var target, e := ExpectedValue(condition, c), Evaluate(h, condition, c);
    assert e.expected.Undefined? <==> target.Undefined?;
    assert e.expected.Arr? ==> e.expected == target;
    OnlyMissingEqualsMissing(e.expected);
    if target.Arr? {
      forall i | 0 <= i < |target.items| ensures DeepEqual(target.items[i], Undefined) <==> target.items[i] == Undefined {
        OnlyMissingEqualsMissing(target.items[i]);
      }
      assert SomeEqual(target.items, Undefined) <==> Undefined in target.items;
    }
    if IsLiteral(condition.value) {
      assert target == condition.value && !target.Undefined?;
      if target.Arr? { assert forall v :: v in target.items ==> Json(v); }
    }
  }

  // ---------------------------------------------------------------- operators as complements

  /**
    Ordering: at most one of the strict forms, both or one of the loose forms unless a side is not
    a number, and between finite numbers the order of the reals.
   */
  lemma ComparisonsAreTotalIff(h: Host, actual: Value, expected: Value)
    ensures var less := ApplyOperator(h, LESS_THAN, actual, expected);
            var greater := ApplyOperator(h, GREATER_THAN, actual, expected);
            var atMost := ApplyOperator(h, LESS_THAN_OR_EQUAL, actual, expected);
            var atLeast := ApplyOperator(h, GREATER_THAN_OR_EQUAL, actual, expected);
            && !(less && greater)
            && ((atMost || atLeast) <==> !ToNumber(h, actual).NaN? && !ToNumber(h, expected).NaN?)
            && (less <==> atMost && !atLeast) && (greater <==> atLeast && !atMost)
            && (ToNumber(h, actual).Finite? && ToNumber(h, expected).Finite? ==>
                  (less <==> ToNumber(h, actual).value < ToNumber(h, expected).value)
                  && (atMost <==> ToNumber(h, actual).value <= ToNumber(h, expected).value))
  {
    OrderingsCompareNumbers(h, actual, expected);
  }

  lemma OrderingsCompareNumbers(h: Host, actual: Value, expected: Value)
    ensures ApplyOperator(h, LESS_THAN, actual, expected) == NumericCompare(h, actual, expected, Lt)
    ensures ApplyOperator(h, GREATER_THAN, actual, expected) == NumericCompare(h, actual, expected, Gt)
    ensures ApplyOperator(h, LESS_THAN_OR_EQUAL, actual, expected) == NumericCompare(h, actual, expected, Le)
    ensures ApplyOperator(h, GREATER_THAN_OR_EQUAL, actual, expected) == NumericCompare(h, actual, expected, Ge)
  {
  }

  // ---------------------------------------------------------------- the seeded administrator condition

  const ADMIN_CONDITION := Condition("", MEMBERSHIP, "roles", CONTAINS, Str("admin"), STRING)

  function Texted(slugs: seq<string>): seq<Value> {
    seq(|slugs|, i requires 0 <= i < |slugs| => Str(slugs[i]))
  }

  lemma IncludesInPart(s: string, t: string, needle: string)
    requires Includes(s, needle) || Includes(t, needle)
    ensures Includes(s + t, needle)
  {
    if Includes(s, needle) {
      var i :| 0 <= i <= |s| && OccursAt(s, needle, i);
      assert (s + t)[i..i + |needle|] == s[i..i + |needle|];
      assert OccursAt(s + t, needle, i);
    } else {
      var i :| 0 <= i <= |t| && OccursAt(t, needle, i);
      assert (s + t)[|s| + i..|s| + i + |needle|] == t[i..i + |needle|];
      assert OccursAt(s + t, needle, |s| + i);
    }
  }

  lemma OccurrenceCharacters(s: string, needle: string, i: nat)
    requires OccursAt(s, needle, i)
    ensures forall k :: i <= k < i + |needle| ==> s[k] in needle
  {
    forall k | i <= k < i + |needle| ensures s[k] in needle { assert s[k] == s[i..i + |needle|][k - i]; }
  }

  /** A needle without the separator lies on one side of it. */
  lemma IncludesAcrossSeparator(s: string, separator: char, t: string, needle: string)
    requires separator !in needle && needle != []
    ensures Includes(s + [separator] + t, needle) <==> Includes(s, needle) || Includes(t, needle)
  {
    var whole := s + [separator] + t;
    if Includes(whole, needle) {
      var i :| 0 <= i <= |whole| && OccursAt(whole, needle, i);
      OccurrenceCharacters(whole, needle, i);
      assert whole[|s|] == separator;
      if i + |needle| <= |s| {
        assert s[i..i + |needle|] == whole[i..i + |needle|];
        assert OccursAt(s, needle, i);
      } else if i <= |s| {
        assert false;
      } else {
        var j := i - |s| - 1;
        assert t[j..j + |needle|] == whole[i..i + |needle|];
        assert OccursAt(t, needle, j);
      }
    } else {
      if Includes(s, needle) || Includes(t, needle) {
        if Includes(t, needle) { IncludesInPart([separator], t, needle); }
        assert whole == s + ([separator] + t);
        IncludesInPart(s, [separator] + t, needle);
      }
    }
  }

  lemma {:induction false} JoinIncludesIff(texts: seq<string>, separator: char, needle: string)
    requires separator !in needle && needle != []
    ensures Includes(Join(texts, [separator]), needle) <==> exists i :: 0 <= i < |texts| && Includes(texts[i], needle)
  {
    if |texts| > 1 {
      JoinIncludesIff(texts[1..], separator, needle);
      IncludesAcrossSeparator(texts[0], separator, Join(texts[1..], [separator]), needle);
      if j :| 0 <= j < |texts[1..]| && Includes(texts[1..][j], needle) {
        assert Includes(texts[j + 1], needle);
      }
      if i :| 0 <= i < |texts| && Includes(texts[i], needle) {
        if i > 0 { assert Includes(texts[1..][i - 1], needle); }
      }
    }
  }

  lemma {:induction false} PlainPathIsOnePart(path: string)
    requires '.' !in path
    ensures Split(path) == [path]
  {
    if path != [] {
      PlainPathIsOnePart(path[1..]);
      assert path == [path[0]] + path[1..];
    }
  }

  /** The attribute of that name, when the name has no dot. */
  function Attribute(c: Context, source: Source, name: string): Value {
    if IsObject(RootFor(c, source)) then Get(RootFor(c, source), name) else Undefined
  }

  lemma PlainPathIsRead(c: Context, source: Source, name: string)
    requires '.' !in name
    ensures Resolve(c, source, name) == Attribute(c, source, name)
  {
    PlainPathIsOnePart(name);
    var root := RootFor(c, source);
    if IsObject(root) {
      assert [name][0] == name && [name][1..] == [];
      assert ReadParts(Get(root, name), []) == Get(root, name);
    }
  }

  /** The property of that name, of a value that may be no object. */
  function Property(v: Value, name: string): Value {
    if IsObject(v) then Get(v, name) else Undefined
  }

  /** Which object a source reads: a user's stored attributes before the token's id and email, and nothing where no resource was loaded. */
  lemma SourceIsRead(c: Context, source: Source, name: string)
    requires '.' !in name && DistinctKeys(c.userAttributes)
    ensures match source
            case MEMBERSHIP => Resolve(c, source, name) == Property(c.membership, name)
            case ORGANIZATION => Resolve(c, source, name) == Property(c.organization, name)
            case RESOURCE => Resolve(c, source, name) == Property(c.resourceData, name)
            case REQUEST => Resolve(c, source, name) == Property(c.request, name)
            case ENVIRONMENT => Resolve(c, source, name) == Property(c.environment, name)
            case USER =>
              Resolve(c, source, name) == if Lookup(c.userAttributes, name).Some? then Lookup(c.userAttributes, name).value
                                          else if name == "id" then Str(c.userId) else if name == "email" then Str(c.email) else Undefined
  {
    if source.USER? { UserIsRead(c, name); } else { PlainPathIsRead(c, source, name); }
  }

  lemma UserIsRead(c: Context, name: string)
    requires '.' !in name && DistinctKeys(c.userAttributes)
    ensures Resolve(c, USER, name) == if Lookup(c.userAttributes, name).Some? then Lookup(c.userAttributes, name).value
                                      else if name == "id" then Str(c.userId) else if name == "email" then Str(c.email) else Undefined
  {
    PlainPathIsRead(c, USER, name);
    var base := [Entry("id", Str(c.userId)), Entry("email", Str(c.email))];
    LookupAfterSpread(base, c.userAttributes, name);
    TwoEntries(base[0], base[1], name);
  }

  lemma TwoEntries(a: Entry, b: Entry, name: string)
    ensures Lookup([a, b], name) == if a.key == name then Some(a.value) else if b.key == name then Some(b.value) else None
  {
    assert [a, b][1..] == [b];
  }

  lemma ListPrintsJoined(h: Host, slugs: seq<string>)
    ensures Coerce(h, Arr(Texted(slugs)), STRING) == Str(Join(slugs, ","))
  {
    assert Texts(h, Texted(slugs)) == slugs;
  }

  /** CONTAINS with type STRING on a list of strings: a literal is looked for in the comma-joined text. */
  lemma TextContainsOnList(h: Host, condition: Condition, c: Context, slugs: seq<string>)
    requires condition.operator.CONTAINS? && condition.valueType.STRING? && condition.value.Str?
    requires ParseReference(condition.value.s).None? && Resolve(c, condition.source, condition.path) == Arr(Texted(slugs))
    ensures Evaluate(h, condition, c).passed <==> Includes(Join(slugs, ","), condition.value.s)
  {
    ListPrintsJoined(h, slugs);
    assert ExpectedValue(condition, c) == condition.value;
  }

  /** A comma-free text is found in the joined list exactly when it is found in an element. */
  lemma ListSearchPassesIff(h: Host, condition: Condition, c: Context, slugs: seq<string>, needle: string)
    requires condition.operator.CONTAINS? && condition.valueType.STRING? && condition.value == Str(needle)
    requires ',' !in needle && needle != [] && ParseReference(needle).None?
    requires Resolve(c, condition.source, condition.path) == Arr(Texted(slugs))
    ensures Evaluate(h, condition, c).passed <==> exists i :: 0 <= i < |slugs| && Includes(slugs[i], needle)
  {
    TextContainsOnList(h, condition, c, slugs);
    JoinIncludesIff(slugs, ',', needle);
  }

  lemma AdminIsALiteral()
    ensures ParseReference("admin").None?
  {
    assert UpperRun("admin") == 0;
  }

  /**
    The seeded condition compares text, not list members: for a member with roles it passes
    exactly when some role slug contains "admin", which every list with the slug "admin" does.
   */
  lemma AdminConditionPassesIff(h: Host, c: Context, slugs: seq<string>)
    requires IsObject(c.membership) && Get(c.membership, "roles") == Arr(Texted(slugs))
    ensures Evaluate(h, ADMIN_CONDITION, c).passed <==> exists i :: 0 <= i < |slugs| && Includes(slugs[i], "admin")
    ensures "admin" in slugs ==> Evaluate(h, ADMIN_CONDITION, c).passed
  {
    PlainPathIsRead(c, MEMBERSHIP, "roles");
    AdminIsALiteral();
    ListSearchPassesIff(h, ADMIN_CONDITION, c, slugs, "admin");
    if "admin" in slugs {
      var i :| 0 <= i < |slugs| && slugs[i] == "admin";
      assert OccursAt(slugs[i], "admin", 0);
      assert Includes(slugs[i], "admin");
    }
  }
}
