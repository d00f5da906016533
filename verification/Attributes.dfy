/**
  Reading attributes by dotted path, and telling a literal from a reference
  (src/modules/authorization/services/attribute-resolver.service.ts).
 */
module AttributeResolver {
  import opened Wrappers
  import opened JsValues

  datatype Source = USER | MEMBERSHIP | ORGANIZATION | RESOURCE | REQUEST | ENVIRONMENT

  /** What policies are evaluated against; the environment's clock and mode are given. */
  datatype Context = Context(
    userId: string, email: string, userAttributes: seq<Entry>, membership: Value, organization: Value,
    resourceData: Value, request: Value, environment: Value)

  // ---------------------------------------------------------------- paths

  /** String.split('.'). */
  function Split(path: string): (parts: seq<string>)
    ensures |parts| >= 1
  {
    if path == [] then [""]
    else
      var rest := Split(path[1..]);
      if path[0] == '.' then [""] + rest else [[path[0]] + rest[0]] + rest[1..]
  }

  function Join(parts: seq<string>, separator: string): string {
    if parts == [] then "" else if |parts| == 1 then parts[0] else parts[0] + separator + Join(parts[1..], separator)
  }

  function ReadParts(cursor: Value, parts: seq<string>): Value
    decreases |parts|
  {
    if parts == [] then cursor
    else if !IsObject(cursor) then Undefined
    else ReadParts(Get(cursor, parts[0]), parts[1..])
  }

  function Read(root: Value, path: string): Value {
    ReadParts(root, Split(path))
  }

  method ReadPath(root: Value, path: string) returns (r: Value)
    ensures r == Read(root, path)
  {
    if root.Null? || root.Undefined? {
      return Undefined;
    }
    var parts := Split(path);
    var cursor := root;
    for i := 0 to |parts|
      invariant ReadParts(cursor, parts[i..]) == Read(root, path)
    {
      assert parts[i..][1..] == parts[i + 1..];
      if cursor.Null? || cursor.Undefined? {
        return Undefined;
      }
      if !IsObject(cursor) {
        return Undefined;
      }
      cursor := Get(cursor, parts[i]);
    }
    return cursor;
  }

  lemma {:induction false} SplitOfDotted(p: string, q: string)
    ensures Split(p + "." + q) == Split(p) + Split(q)
  {
    var whole := p + "." + q;
    if p == [] {
      assert whole[1..] == q;
    } else {
      assert whole[1..] == p[1..] + "." + q;
      SplitOfDotted(p[1..], q);
    }
  }

  lemma {:induction false} ReadPartsInTwo(cursor: Value, parts: seq<string>, more: seq<string>)
    requires more != []
    ensures ReadParts(cursor, parts + more) == ReadParts(ReadParts(cursor, parts), more)
    decreases |parts|
  {
    if parts == [] {
      assert parts + more == more;
    } else {
      assert (parts + more)[0] == parts[0] && (parts + more)[1..] == parts[1..] + more;
      if IsObject(cursor) {
        ReadPartsInTwo(Get(cursor, parts[0]), parts[1..], more);
      }
    }
  }

  /** Reading p.q is reading q from what p reads, for every root and all paths, empty ones included. */
  lemma ReadingComposes(root: Value, p: string, q: string)
    ensures Read(root, p + "." + q) == Read(Read(root, p), q)
  {
    SplitOfDotted(p, q);
    ReadPartsInTwo(root, Split(p), Split(q));
  }

  /** Joining the parts gives the path back, and the parts are dot-free. */
  lemma {:induction false} SplitIsDotFree(path: string)
    ensures Join(Split(path), ".") == path
    ensures forall i :: 0 <= i < |Split(path)| ==> '.' !in Split(path)[i]
  {
    if path != [] {
      SplitIsDotFree(path[1..]);
      var rest := Split(path[1..]);
      assert path == [path[0]] + path[1..];
      if path[0] == '.' {
        assert ([""] + rest)[1..] == rest;
      } else {
        assert ([[path[0]] + rest[0]] + rest[1..])[1..] == rest[1..];
      }
    }
  }

  // ---------------------------------------------------------------- roots

  /** Assigns one property: in place when the key exists, at the end otherwise. */
  function Assign(entries: seq<Entry>, e: Entry): seq<Entry> {
    if entries == [] then [e]
    else if entries[0].key == e.key then [e] + entries[1..]
    else [entries[0]] + Assign(entries[1..], e)
  }

  /** Object spread of `over` after `base`. */
  function Spread(base: seq<Entry>, over: seq<Entry>): seq<Entry>
    decreases |over|
  {
    if over == [] then base else Spread(Assign(base, over[0]), over[1..])
  }

  function RootFor(c: Context, source: Source): Value {
    match source
    case USER => Obj(Spread([Entry("id", Str(c.userId)), Entry("email", Str(c.email))], c.userAttributes))
    case MEMBERSHIP => c.membership
    case ORGANIZATION => c.organization
    case RESOURCE => if c.resourceData.Null? || c.resourceData.Undefined? then Obj([]) else c.resourceData
    case REQUEST => c.request
    case ENVIRONMENT => c.environment
  }

  function Resolve(c: Context, source: Source, path: string): Value {
    Read(RootFor(c, source), path)
  }

  lemma {:induction false} LookupAfterAssign(entries: seq<Entry>, e: Entry, key: string)
    ensures Lookup(Assign(entries, e), key) == if key == e.key then Some(e.value) else Lookup(entries, key)
  {
    if entries != [] && entries[0].key != e.key {
      LookupAfterAssign(entries[1..], e, key);
      assert ([entries[0]] + Assign(entries[1..], e))[1..] == Assign(entries[1..], e);
    } else if entries != [] {
      assert ([e] + entries[1..])[1..] == entries[1..];
    }
  }

  /** A key the spread object has is read from it, any other from the base. */
  lemma {:induction false} LookupAfterSpread(base: seq<Entry>, over: seq<Entry>, key: string)
    requires DistinctKeys(over)
    ensures Lookup(Spread(base, over), key) == if Lookup(over, key).Some? then Lookup(over, key) else Lookup(base, key)
    decreases |over|
  {
    if over != [] {
      assert forall i, j :: 0 <= i < j < |over[1..]| ==> over[1..][i] == over[i + 1] && over[1..][j] == over[j + 1];
      LookupAfterSpread(Assign(base, over[0]), over[1..], key);
      LookupAfterAssign(base, over[0], key);
      assert Lookup(over[1..], over[0].key).None?;
    }
  }

  // ---------------------------------------------------------------- references

  function Name(source: Source): string {
    match source
    case USER => "USER"
    case MEMBERSHIP => "MEMBERSHIP"
    case ORGANIZATION => "ORGANIZATION"
    case RESOURCE => "RESOURCE"
    case REQUEST => "REQUEST"
    case ENVIRONMENT => "ENVIRONMENT"
  }

  function SourceNamed(name: string): Option<Source> {
    if name == "USER" then Some(USER)
    else if name == "MEMBERSHIP" then Some(MEMBERSHIP)
    else if name == "ORGANIZATION" then Some(ORGANIZATION)
    else if name == "RESOURCE" then Some(RESOURCE)
    else if name == "REQUEST" then Some(REQUEST)
    else if name == "ENVIRONMENT" then Some(ENVIRONMENT)
    else None
  }

  predicate Upper(c: char) {
    'A' <= c <= 'Z'
  }

  /** Characters the regular expression's dot does not match. */
  predicate LineTerminator(c: char) {
    c == '\n' || c == '\r' || c == '\U{2028}' || c == '\U{2029}'
  }

  predicate OneLine(path: string) {
    path != [] && forall i :: 0 <= i < |path| ==> !LineTerminator(path[i])
  }

  /** Length of the leading run of A-Z. */
  function UpperRun(s: string): (n: nat)
    ensures n <= |s| && (forall i :: 0 <= i < n ==> Upper(s[i])) && (n < |s| ==> !Upper(s[n]))
  {
    if s == [] || !Upper(s[0]) then 0
    else
      var n := UpperRun(s[1..]);
      assert forall i :: 1 <= i < |s| ==> s[i] == s[1..][i - 1];
      1 + n
  }

  /** The match of ^([A-Z]+)\.(.+)$: the two groups. */
  function MatchReference(s: string): Option<(string, string)> {
    var n := UpperRun(s);
    if n > 0 && n < |s| && s[n] == '.' && OneLine(s[n + 1..]) then Some((s[..n], s[n + 1..])) else None
  }

  function ParseReference(expression: string): Option<(Source, string)> {
    match MatchReference(expression)
    case None => None
    case Some((name, path)) =>
      match SourceNamed(name)
      case None => None
      case Some(source) => Some((source, path))
  }

  function ResolveCompareTarget(c: Context, expression: string): Value {
    match ParseReference(expression)
    case None => Str(expression)
    case Some((source, path)) => Resolve(c, source, path)
  }

  lemma NamesAreUpper(source: Source)
    ensures Name(source) != [] && forall i :: 0 <= i < |Name(source)| ==> Upper(Name(source)[i])
    ensures SourceNamed(Name(source)) == Some(source)
  {
  }

  /** A reference is exactly a source name, a dot and a non-empty one-line path, in one way only. */
  lemma ReferencesAre(expression: string, source: Source, path: string)
    ensures ParseReference(expression) == Some((source, path)) <==> OneLine(path) && expression == Name(source) + "." + path
  {
    var n := UpperRun(expression);
    if OneLine(path) && expression == Name(source) + "." + path {
      NamesAreUpper(source);
      var k := |Name(source)|;
      assert forall i :: 0 <= i < k ==> expression[i] == Name(source)[i];
      assert expression[k] == '.';
      assert n == k;
      assert expression[..n] == Name(source) && expression[n + 1..] == path;
    }
    if ParseReference(expression) == Some((source, path)) {
      assert expression == expression[..n] + [expression[n]] + expression[n + 1..];
      assert expression[..n] == Name(source);
    }
  }

  /** Every reference is read, not compared as text. */
  lemma ReferenceIsResolved(c: Context, source: Source, path: string)
    requires OneLine(path)
    ensures ResolveCompareTarget(c, Name(source) + "." + path) == Resolve(c, source, path)
  {
    ReferencesAre(Name(source) + "." + path, source, path);
  }

  ghost predicate IsReference(expression: string, source: Source, path: string) {
    OneLine(path) && expression == Name(source) + "." + path
  }

  /** Every other string is compared as itself. */
  lemma OtherStringsAreLiteral(c: Context, expression: string)
    requires forall source, path :: !IsReference(expression, source, path)
    ensures ResolveCompareTarget(c, expression) == Str(expression)
  {
    if ParseReference(expression).Some? {
      var (source, path) := ParseReference(expression).value;
      ReferencesAre(expression, source, path);
      assert IsReference(expression, source, path);
    }
  }
}
