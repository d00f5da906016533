/**
  The JavaScript values policy conditions range over: JSON values plus undefined, dates and the
  numbers Number() can produce. Properties are own properties; an object lists its entries in
  insertion order, with distinct keys.
 */
module JsValues {
  import opened Wrappers

  datatype Number = Finite(value: real) | NaN | Infinity(positive: bool)

  /** A date holds its time value; None is the invalid date, whose time value is NaN. */
  datatype Value =
    | Undefined
    | Null
    | Bool(b: bool)
    | Num(n: Number)
    | Str(s: string)
    | Arr(items: seq<Value>)
    | Obj(entries: seq<Entry>)
    | Date(time: Option<int>)

  datatype Entry = Entry(key: string, value: Value)

  datatype TypeName = UndefinedType | BooleanType | NumberType | StringType | ObjectType

  /** The typeof operator. */
  function TypeOf(v: Value): TypeName {
    match v
    case Undefined => UndefinedType
    case Bool(_) => BooleanType
    case Num(_) => NumberType
    case Str(_) => StringType
    case _ => ObjectType
  }

  /** typeof 'object' and not null. */
  predicate IsObject(v: Value) {
    v.Arr? || v.Obj? || v.Date?
  }

  /** Boolean(v). */
  predicate Truthy(v: Value) {
    match v
    case Undefined => false
    case Null => false
    case Bool(b) => b
    case Num(n) => !n.NaN? && n != Finite(0.0)
    case Str(s) => s != ""
    case _ => true
  }

  // ---------------------------------------------------------------- property keys

  function Digit(d: nat): char
    requires d < 10
  {
    '0' + d as char
  }

  /** The property key of an array index. */
  function Decimal(n: nat): (s: string)
    ensures s != []
    ensures forall i :: 0 <= i < |s| ==> '0' <= s[i] <= '9'
  {
    if n < 10 then [Digit(n)] else Decimal(n / 10) + [Digit(n % 10)]
  }

  lemma {:induction false} DecimalIsInjective(m: nat, n: nat)
    requires Decimal(m) == Decimal(n)
    ensures m == n
  {
    var s := Decimal(m);
    assert s[|s| - 1] == Digit(m % 10) == Digit(n % 10);
    if m >= 10 && n >= 10 {
      assert Decimal(m / 10) == s[..|s| - 1] == Decimal(n / 10);
      DecimalIsInjective(m / 10, n / 10);
    }
  }

  function FindIndex(count: nat, key: string): (found: Option<nat>)
    ensures found.Some? ==> found.value < count && Decimal(found.value) == key
    ensures found.None? ==> forall i :: 0 <= i < count ==> Decimal(i) != key
  {
    if count == 0 then None
    else if Decimal(count - 1) == key then Some(count - 1)
    else FindIndex(count - 1, key)
  }

  function Lookup(entries: seq<Entry>, key: string): (found: Option<Value>)
    ensures found.Some? ==> exists i :: 0 <= i < |entries| && entries[i] == Entry(key, found.value)
    ensures found.None? ==> forall i :: 0 <= i < |entries| ==> entries[i].key != key
  {
    if entries == [] then None
    else if entries[0].key == key then Some(entries[0].value)
    else
      var found := Lookup(entries[1..], key);
      assert forall i :: 1 <= i < |entries| ==> entries[i] == entries[1..][i - 1];
      found
  }

  /** Object.keys as a set. */
  function Keys(v: Value): set<string> {
    match v
    case Arr(items) => set i | 0 <= i < |items| :: Decimal(i)
    case Obj(entries) => set i | 0 <= i < |entries| :: entries[i].key
    case _ => {}
  }

  // ---------------------------------------------------------------- size

  function Size(v: Value): nat {
    match v
    case Arr(items) => 1 + ItemsSize(items)
    case Obj(entries) => 1 + EntriesSize(entries)
    case Date(_) => 1
    case _ => 0
  }

  function ItemsSize(items: seq<Value>): (n: nat)
    ensures forall i :: 0 <= i < |items| ==> Size(items[i]) <= n
  {
    if items == [] then 0
    else
      var rest := ItemsSize(items[1..]);
      assert forall i :: 1 <= i < |items| ==> items[i] == items[1..][i - 1];
      Size(items[0]) + rest
  }

  function EntriesSize(entries: seq<Entry>): (n: nat)
    ensures forall i :: 0 <= i < |entries| ==> Size(entries[i].value) <= n
  {
    if entries == [] then 0
    else
      var rest := EntriesSize(entries[1..]);
      assert forall i :: 1 <= i < |entries| ==> entries[i] == entries[1..][i - 1];
      Size(entries[0].value) + rest
  }

  /** The own property v[key]: an array also owns its length. */
  function Get(v: Value, key: string): (r: Value)
    ensures IsObject(v) ==> Size(r) < Size(v)
    ensures IsObject(v) && key !in Keys(v) ==> r.Undefined? || (v.Arr? && key == "length")
  {
    match v
    case Arr(items) =>
      var i := FindIndex(|items|, key);
      if i.Some? then items[i.value]
      else if key == "length" then Num(Finite(|items| as real))
      else Undefined
    case Obj(entries) =>
      var found := Lookup(entries, key);
      if found.Some? then found.value else Undefined
    case _ => Undefined
  }

  lemma GetIndex(items: seq<Value>, i: nat)
    requires i < |items|
    ensures Get(Arr(items), Decimal(i)) == items[i]
  {
    var found := FindIndex(|items|, Decimal(i));
    DecimalIsInjective(found.value, i);
  }

  lemma GetEntry(entries: seq<Entry>, i: nat)
    requires i < |entries| && DistinctKeys(entries)
    ensures Get(Obj(entries), entries[i].key) == entries[i].value
  {
  }

  // ---------------------------------------------------------------- classes of values

  predicate DistinctKeys(entries: seq<Entry>) {
    forall i, j :: 0 <= i < j < |entries| ==> entries[i].key != entries[j].key
  }

  /** Every object in the value has distinct keys, as a JavaScript object does. */
  predicate WellFormed(v: Value) {
    match v
    case Arr(items) => forall i :: 0 <= i < |items| ==> WellFormed(items[i])
    case Obj(entries) => DistinctKeys(entries) && forall i :: 0 <= i < |entries| ==> WellFormed(entries[i].value)
    case _ => true
  }

  /** No NaN and no invalid date anywhere in the value. */
  predicate NaNFree(v: Value) {
    match v
    case Num(n) => !n.NaN?
    case Date(time) => time.Some?
    case Arr(items) => forall i :: 0 <= i < |items| ==> NaNFree(items[i])
    case Obj(entries) => forall i :: 0 <= i < |entries| ==> NaNFree(entries[i].value)
    case _ => true
  }

  /** A value JSON can carry. */
  predicate Json(v: Value) {
    match v
    case Undefined => false
    case Date(_) => false
    case Num(n) => n.Finite?
    case Arr(items) => forall i :: 0 <= i < |items| ==> Json(items[i])
    case Obj(entries) => DistinctKeys(entries) && forall i :: 0 <= i < |entries| ==> Json(entries[i].value)
    case _ => true
  }
}
