/** Compiling schemas from JSON: `src/schema.rs`. */
module Compiler {
  import opened Wrappers
  import opened Schema
  import opened SchemaMeaning

  /** The properties of an object definition; a hash map, iterated in no particular order. */
  datatype DefMap = AnyProperties | Defs(defs: map<string, FieldDef>)

  datatype FieldDef =
    | StringDef(required: bool, min: Option<real>, max: Option<real>, pattern: Option<string>, enumValues: Option<seq<string>>)
    | NumberDef(required: bool, min: Option<real>, max: Option<real>, whole: bool)
    | IntegerDef(required: bool, min: Option<real>, max: Option<real>)
    | BooleanDef(required: bool)
    | ObjectDef(required: bool, properties: DefMap)
    | ArrayDef(required: bool, items: Option<FieldDef>, min: Option<real>, max: Option<real>)

  // ---- The order of keys ----

  predicate Less(a: string, b: string) {
    b != [] && (a == [] || a[0] < b[0] || (a[0] == b[0] && Less(a[1..], b[1..])))
  }

  lemma {:induction false} LessIsOrder(a: string, b: string, c: string)
    ensures !Less(a, a)
    ensures a == b || Less(a, b) || Less(b, a)
    ensures Less(a, b) && Less(b, c) ==> Less(a, c)
    ensures !(Less(a, b) && Less(b, a))
  {
    if a != [] && b != [] {
      LessIsOrder(a[1..], b[1..], if c == [] then [] else c[1..]);
      assert a == [a[0]] + a[1..] && b == [b[0]] + b[1..];
    } else if a != [] {
      LessIsOrder(a[1..], [], []);
    }
  }

  /** The order is that of words in a dictionary: a word comes before what it begins, and otherwise the first letters to
      differ decide. */
  lemma {:induction false} LessMeans(a: string, b: string)
    ensures Less(a, b) <==>
            (|a| < |b| && a == b[..|a|]) || exists i :: 0 <= i < |a| && i < |b| && DiffersAt(a, b, i)
  {
    if a != [] && b != [] {
      LessMeans(a[1..], b[1..]);
      LessBehind(a, b);
      if i :| 0 <= i < |a[1..]| && i < |b[1..]| && DiffersAt(a[1..], b[1..], i) && a[0] == b[0] {
        assert DiffersAt(a, b, i + 1);
      }
    }
  }

  lemma LessBehind(a: string, b: string)
    requires a != [] && b != []
    ensures a[0] < b[0] ==> DiffersAt(a, b, 0)
    ensures forall i :: 0 <= i < |a| && i < |b| && DiffersAt(a, b, i) && i > 0 ==> a[0] == b[0] && DiffersAt(a[1..], b[1..], i - 1)
    ensures a[0] == b[0] ==> forall i :: 0 <= i < |a| - 1 && i < |b| - 1 && DiffersAt(a[1..], b[1..], i) ==> DiffersAt(a, b, i + 1)
    ensures |a| < |b| && a == b[..|a|] <==> a[0] == b[0] && |a[1..]| < |b[1..]| && a[1..] == b[1..][..|a[1..]|]
  {
    forall i | 0 < i < |a| && i < |b| && DiffersAt(a, b, i) ensures a[0] == b[0] && DiffersAt(a[1..], b[1..], i - 1) {
      assert a[..i][0] == b[..i][0] && a[1..][..i - 1] == a[..i][1..] && b[1..][..i - 1] == b[..i][1..];
    }
    if a[0] == b[0] {
      forall i | 0 <= i < |a| - 1 && i < |b| - 1 && DiffersAt(a[1..], b[1..], i) ensures DiffersAt(a, b, i + 1) {
        assert a[..i + 1] == [a[0]] + a[1..][..i] && b[..i + 1] == [b[0]] + b[1..][..i];
      }
    }
    if |a| < |b| && a == b[..|a|] {
      assert a[0] == b[..|a|][0] && a[1..] == b[..|a|][1..];
    }
    if a[0] == b[0] && |a[1..]| < |b[1..]| && a[1..] == b[1..][..|a[1..]|] {
      assert a == [a[0]] + a[1..] && b[..|a|] == [b[0]] + b[1..][..|a| - 1];
    }
  }

  /** Up to here the words agree, and here the first one has the smaller letter. */
  predicate DiffersAt(a: string, b: string, i: nat)
    requires i < |a| && i < |b|
  {
    a[..i] == b[..i] && a[i] < b[i]
  }

  /** Strictly ascending keys. */
  ghost predicate Ascending(props: seq<Property>) {
    forall i, j :: 0 <= i < j < |props| ==> Less(props[i].key, props[j].key)
  }

  /** Ascending, with equal keys next to each other. */
  ghost predicate Sorted(props: seq<Property>) {
    forall i, j :: 0 <= i < j < |props| ==> !Less(props[j].key, props[i].key)
  }

  /** Keys in strictly ascending order. */
  ghost predicate AscendingKeys(keys: seq<string>) {
    forall i, j :: 0 <= i < j < |keys| ==> Less(keys[i], keys[j])
  }

  lemma {:induction false} LeastExists(keys: set<string>) returns (k: string)
    requires keys != {}
    ensures k in keys && forall j :: j in keys ==> j == k || Less(k, j)
    decreases |keys|
  {
    k :| k in keys;
    var rest := keys - {k};
    if rest == {} {
      assert keys == {k};
    } else {
      var l := LeastExists(rest);
      LessIsOrder(k, l, k);
      if Less(l, k) {
        forall j | j in keys && j != l ensures Less(l, j) {
          assert j == k || j in rest;
        }
        k := l;
      } else {
        forall j | j in keys && j != k ensures Less(k, j) {
          LessIsOrder(k, l, j);
        }
      }
    }
  }

  ghost function SortedKeys(keys: set<string>): (s: seq<string>)
    ensures AscendingKeys(s) && forall k :: k in s <==> k in keys
    decreases |keys|
  {
    if keys == {} then [] else
      assert exists k :: k in keys && forall j :: j in keys ==> j == k || Less(k, j) by {
        var k := LeastExists(keys);
      }
      var k :| k in keys && forall j :: j in keys ==> j == k || Less(k, j);
      var rest := SortedKeys(keys - {k});
      assert forall j :: 0 <= j < |rest| ==> rest[j] in rest;
      [k] + rest
  }

  /** Fields as properties in the order of their keys. */
  ghost function Listing(fields: map<string, Field>): seq<Property> {
    var keys := SortedKeys(fields.Keys);
    assert forall i :: 0 <= i < |keys| ==> keys[i] in keys;
    seq(|keys|, i requires 0 <= i < |keys| => Property(keys[i], fields[keys[i]]))
  }

  ghost predicate Names(props: seq<Property>, k: string) {
    exists j :: 0 <= j < |props| && props[j].key == k
  }

  /** Where a key ends up. */
  lemma ListedKey(fields: map<string, Field>, k: string)
    ensures var props := Listing(fields);
            && (k in fields <==> Names(props, k))
            && (forall j :: 0 <= j < |props| && props[j].key == k ==> k in fields && props[j].field == fields[k])
  {
    var keys, props := SortedKeys(fields.Keys), Listing(fields);
    if k in fields {
      assert k in keys;
      var j :| 0 <= j < |keys| && keys[j] == k;
      assert props[j].key == k;
    }
    forall j | 0 <= j < |props| && props[j].key == k
      ensures k in fields && props[j].field == fields[k]
    {
      assert keys[j] in keys;
      assert props[j] == Property(keys[j], fields[keys[j]]);
    }
    if Names(props, k) {
      var j :| 0 <= j < |props| && props[j].key == k;
    }
  }

  lemma ListingAscends(fields: map<string, Field>)
    ensures Ascending(Listing(fields)) && DistinctKeys(Listing(fields))
  {
    var keys, props := SortedKeys(fields.Keys), Listing(fields);
    forall i, j | 0 <= i < j < |props| ensures props[i].key != props[j].key {
      LessIsOrder(keys[i], keys[j], keys[i]);
    }
  }

  /** A listing determines the fields. */
  lemma ListingInjective(p: map<string, Field>, q: map<string, Field>)
    requires Listing(p) == Listing(q)
    ensures p == q
  {
    forall k ensures k in p <==> k in q ensures k in p ==> p[k] == q[k] {
      ListedKey(p, k);
      ListedKey(q, k);
    }
  }

  // ---- The JSON front end ----

  function BuiltIn(name: string): Option<Pattern> {
    match name
    case "email" => Some(Email)
    case "url" => Some(Url)
    case "uuid" => Some(Uuid)
    case "alpha" => Some(Alpha)
    case "alphanumeric" => Some(Alphanumeric)
    case "numeric" => Some(Numeric)
    case _ => None
  }

  /** A custom pattern unknown at compile time is dropped. */
  function CompilePattern(name: string, registry: Registry): Option<Pattern> {
    if BuiltIn(name).Some? then BuiltIn(name) else if name in registry then Some(Custom(name)) else None
  }

  /** The names of the built-in patterns; no other name is one. */
  lemma PatternNames(name: string, registry: Registry)
    ensures CompilePattern("email", registry) == Some(Email) && CompilePattern("url", registry) == Some(Url)
    ensures CompilePattern("uuid", registry) == Some(Uuid) && CompilePattern("alpha", registry) == Some(Alpha)
    ensures CompilePattern("alphanumeric", registry) == Some(Alphanumeric) && CompilePattern("numeric", registry) == Some(Numeric)
    ensures BuiltIn(name).Some? <==> name in ["email", "url", "uuid", "alpha", "alphanumeric", "numeric"]
    ensures name !in ["email", "url", "uuid", "alpha", "alphanumeric", "numeric"] ==>
              CompilePattern(name, registry) == if name in registry then Some(Custom(name)) else None
  {
  }

  ghost function Compile(def: FieldDef, registry: Registry): Field
    decreases def, 1
  {
    match def
    case StringDef(required, min, max, pattern, enumValues) =>
      StringField(required, min, max, if pattern.Some? then CompilePattern(pattern.value, registry) else None, enumValues)
    case NumberDef(required, min, max, whole) => NumberField(required, min, max, whole)
    case IntegerDef(required, min, max) => IntegerField(required, min, max)
    case BooleanDef(required) => BooleanField(required)
    case ObjectDef(required, properties) =>
      ObjectField(required, if properties.Defs? then Listed(Listing(CompileDefs(properties, registry))) else Unlisted)
    case ArrayDef(required, items, min, max) =>
      ArrayField(required, if items.Some? then Some(Compile(items.value, registry)) else None, min, max)
  }

  ghost function CompileDefs(properties: DefMap, registry: Registry): map<string, Field>
    requires properties.Defs?
    decreases properties, 0
  {
    map k | k in properties.defs :: Compile(properties.defs[k], registry)
  }

  // ---- Compilation keeps the meaning ----

  /** The text meets the named pattern: a built-in one, or a custom one that was registered when the schema was compiled
      and is looked up when it is validated. A name unknown at compile time demands nothing. */
  predicate MeetsPattern(name: string, s: string, atCompile: Registry, atValidation: Registry) {
    if BuiltIn(name).Some? then Matches(BuiltIn(name).value, s, atValidation)
    else name in atCompile ==> name in atValidation && atValidation[name](s)
  }

  predicate MeetsType(v: Json, def: FieldDef) {
    match def
    case StringDef(_, _, _, _, _) => v.Str?
    case NumberDef(_, _, _, _) => v.Num?
    case IntegerDef(_, _, _) => v.Num?
    case BooleanDef(_) => v.Bool?
    case ObjectDef(_, _) => v.Obj?
    case ArrayDef(_, _, _, _) => v.Arr?
  }

  /** The constraint of `code` that a definition itself states is broken. */
  predicate BreaksDef(v: Json, def: FieldDef, atCompile: Registry, atValidation: Registry, code: Code) {
    match code
    case MinLength => def.StringDef? && v.Str? && def.min.Some? && ByteLength(v.s) as real < def.min.value
    case MaxLength => def.StringDef? && v.Str? && def.max.Some? && ByteLength(v.s) as real > def.max.value
    case PatternCode =>
      def.StringDef? && v.Str? && def.pattern.Some? && !MeetsPattern(def.pattern.value, v.s, atCompile, atValidation)
    case EnumCode => def.StringDef? && v.Str? && def.enumValues.Some? && v.s !in def.enumValues.value
    case IntegerCode => ((def.NumberDef? && def.whole) || def.IntegerDef?) && v.Num? && !IsInteger(v.n)
    case Min => (def.NumberDef? || def.IntegerDef?) && v.Num? && def.min.Some? && v.n < def.min.value
    case Max => (def.NumberDef? || def.IntegerDef?) && v.Num? && def.max.Some? && v.n > def.max.value
    case TypeCode => !MeetsType(v, def)
    case MinItems => def.ArrayDef? && v.Arr? && def.min.Some? && |v.items| as real < def.min.value
    case MaxItems => def.ArrayDef? && v.Arr? && def.max.Some? && |v.items| as real > def.max.value
    case Required => false
  }

  /** The meaning of a raw definition, read off its hash map directly. */
  ghost predicate ViolatedDef(v: Json, def: FieldDef, atCompile: Registry, atValidation: Registry, place: seq<Step>, code: Code)
    decreases def
  {
    if place == [] then BreaksDef(v, def, atCompile, atValidation, code)
    else match place[0]
      case Key(k) =>
        && def.ObjectDef? && def.properties.Defs? && v.Obj? && k in def.properties.defs
        && (if k !in v.fields || v.fields[k] == Null then def.properties.defs[k].required && place[1..] == [] && code == Required
            else ViolatedDef(v.fields[k], def.properties.defs[k], atCompile, atValidation, place[1..], code))
      case Index(i) =>
        && def.ArrayDef? && def.items.Some? && v.Arr? && i < |v.items|
        && ViolatedDef(v.items[i], def.items.value, atCompile, atValidation, place[1..], code)
  }

  lemma CompileKeepsOwn(v: Json, def: FieldDef, atCompile: Registry, atValidation: Registry, code: Code)
    ensures Breaks(v, Compile(def, atCompile), atValidation, code) <==> BreaksDef(v, def, atCompile, atValidation, code)
    ensures Compile(def, atCompile).required == def.required
  {
    hide CompileDefs, ByteLength, IsInteger;
    if def.StringDef? {
      CompileKeepsString(v, def, atCompile, atValidation, code);
    } else {
      hide Matches, MeetsPattern;
    }
  }

  lemma CompileKeepsString(v: Json, def: FieldDef, atCompile: Registry, atValidation: Registry, code: Code)
    requires def.StringDef?
    ensures Breaks(v, Compile(def, atCompile), atValidation, code) <==> BreaksDef(v, def, atCompile, atValidation, code)
  {
    hide BuiltIn, CompileDefs, ByteLength, IsInteger, Matches;
    if code == PatternCode {
      if def.pattern.Some? && BuiltIn(def.pattern.value).None? {
        CustomMatches(def.pattern.value, atValidation);
      }
    } else {
      hide MeetsPattern, CompilePattern;
    }
  }

  lemma CustomMatches(name: string, registry: Registry)
    ensures forall s :: Matches(Custom(name), s, registry) <==> name in registry && registry[name](s)
  {
  }

  /** What a place that starts with a key means in a listed object. */
  lemma KeyPlace(v: Json, required: bool, fields: map<string, Field>, registry: Registry, place: seq<Step>, code: Code)
    requires place != [] && place[0].Key? && v.Obj?
    ensures var k := place[0].key;
            Violated(v, ObjectField(required, Listed(Listing(fields))), registry, place, code) <==>
            k in fields && if Absent(v.fields, k) then fields[k].required && place[1..] == [] && code == Required
                           else Violated(v.fields[k], fields[k], registry, place[1..], code)
  {
    var k, props := place[0].key, Listing(fields);
    ListedKey(fields, k);
    hide Listing;
    var f := ObjectField(required, Listed(props));
    assert Violated(v, f, registry, place, code) <==> ViolatedKey(v.fields, props, registry, place, code);
    hide Violated;
  }

  /** The compiled schema and the raw definition are violated at the same places, with the same codes, by every value. */
  lemma {:induction false} CompileKeepsMeaning(v: Json, def: FieldDef, atCompile: Registry, atValidation: Registry,
                                               place: seq<Step>, code: Code)
    ensures Violated(v, Compile(def, atCompile), atValidation, place, code) <==>
            ViolatedDef(v, def, atCompile, atValidation, place, code)
    decreases def
  {
    CompileKeepsOwn(v, def, atCompile, atValidation, code);
    CompiledPlace(v, def, atCompile, atValidation, place, code);
    RawPlace(v, def, atCompile, atValidation, place, code);
    if place != [] && place[0].Index? && def.ArrayDef? && def.items.Some? && v.Arr? && place[0].index < |v.items| {
      hide Violated, ViolatedDef, Breaks, BreaksDef, Compile;
      CompileKeepsMeaning(v.items[place[0].index], def.items.value, atCompile, atValidation, place[1..], code);
    } else if place != [] && place[0].Key? && def.ObjectDef? && def.properties.Defs? && v.Obj? {
      var k := place[0].key;
      KeyPlace(v, def.required, CompileDefs(def.properties, atCompile), atValidation, place, code);
      hide Violated, ViolatedDef, Breaks, BreaksDef, Compile;
      if k in def.properties.defs {
        CompileKeepsOwn(v, def.properties.defs[k], atCompile, atValidation, code);
        if !Absent(v.fields, k) {
          CompileKeepsMeaning(v.fields[k], def.properties.defs[k], atCompile, atValidation, place[1..], code);
        }
      }
    }
  }

  /** Places, by how they start, in the compiled schema. */
  lemma CompiledPlace(v: Json, def: FieldDef, atCompile: Registry, atValidation: Registry, place: seq<Step>, code: Code)
    ensures var f := Compile(def, atCompile);
            var compiled := Violated(v, f, atValidation, place, code);
            if place == [] then compiled <==> Breaks(v, f, atValidation, code)
            else if place[0].Index? && def.ArrayDef? && def.items.Some? && v.Arr? && place[0].index < |v.items| then
              compiled <==> Violated(v.items[place[0].index], Compile(def.items.value, atCompile), atValidation, place[1..], code)
            else if place[0].Key? && def.ObjectDef? && def.properties.Defs? && v.Obj? then
              f == ObjectField(def.required, Listed(Listing(CompileDefs(def.properties, atCompile))))
            else !compiled
  {
    hide Breaks, CompileDefs, CompilePattern, ViolatedKey;
  }

  /** And in the raw definition. */
  lemma RawPlace(v: Json, def: FieldDef, atCompile: Registry, atValidation: Registry, place: seq<Step>, code: Code)
    ensures var raw := ViolatedDef(v, def, atCompile, atValidation, place, code);
            if place == [] then raw <==> BreaksDef(v, def, atCompile, atValidation, code)
            else if place[0].Index? && def.ArrayDef? && def.items.Some? && v.Arr? && place[0].index < |v.items| then
              raw <==> ViolatedDef(v.items[place[0].index], def.items.value, atCompile, atValidation, place[1..], code)
            else if place[0].Key? && def.ObjectDef? && def.properties.Defs? && v.Obj? then
              raw <==> place[0].key in def.properties.defs &&
                       if Absent(v.fields, place[0].key) then
                         def.properties.defs[place[0].key].required && place[1..] == [] && code == Required
                       else ViolatedDef(v.fields[place[0].key], def.properties.defs[place[0].key], atCompile, atValidation, place[1..], code)
            else !raw
  {
    hide BreaksDef;
  }

  /** A schema compiled from JSON lists no key twice. */
  lemma {:induction false} CompiledIsWellKeyed(def: FieldDef, registry: Registry)
    ensures WellKeyed(Compile(def, registry))
    decreases def, 1
  {
    if def.ArrayDef? && def.items.Some? {
      CompiledIsWellKeyed(def.items.value, registry);
    } else if def.ObjectDef? && def.properties.Defs? {
      CompiledListIsWellKeyed(def.properties, registry);
    }
  }

  lemma {:induction false} CompiledListIsWellKeyed(properties: DefMap, registry: Registry)
    requires properties.Defs?
    ensures WellKeyedList(Listing(CompileDefs(properties, registry)))
    decreases properties, 0
  {
    var fields := CompileDefs(properties, registry);
    var props := Listing(fields);
    ListingAscends(fields);
    forall j | 0 <= j < |props| ensures WellKeyed(props[j].field) {
      ListedKey(fields, props[j].key);
      CompiledIsWellKeyed(properties.defs[props[j].key], registry);
    }
  }

  // ---- Sorting, and independence of the iteration order ----

  /** Sorted properties with distinct keys are ascending. */
  lemma SortedAscends(props: seq<Property>)
    requires Sorted(props) && DistinctKeys(props)
    ensures Ascending(props)
  {
    forall i, j | 0 <= i < j < |props| ensures Less(props[i].key, props[j].key) {
      LessIsOrder(props[i].key, props[j].key, []);
    }
  }

  /** There is one ascending list of given members. */
  lemma {:induction false} AscendingUnique(p: seq<Property>, q: seq<Property>)
    requires Ascending(p) && Ascending(q) && forall x :: x in p <==> x in q
    ensures p == q
  {
    assert (p != [] ==> p[0] in p) && (q != [] ==> q[0] in q);
    if p != [] && q != [] {
      HeadIsLeast(p, q);
      forall x ensures x in p[1..] <==> x in q[1..] {
        TailMembers(p, x);
        TailMembers(q, x);
      }
      AscendingUnique(p[1..], q[1..]);
      assert p == [p[0]] + p[1..] && q == [q[0]] + q[1..];
    }
  }

  lemma HeadIsLeast(p: seq<Property>, q: seq<Property>)
    requires p != [] && q != [] && Ascending(p) && Ascending(q) && forall x :: x in p <==> x in q
    ensures p[0] == q[0]
  {
    assert p[0] in q && q[0] in p;
    var i :| 0 <= i < |q| && q[i] == p[0];
    var j :| 0 <= j < |p| && p[j] == q[0];
    LessIsOrder(p[0].key, q[0].key, []);
  }

  lemma TailMembers(p: seq<Property>, x: Property)
    requires p != [] && Ascending(p)
    ensures x in p[1..] <==> x in p && x != p[0]
  {
    if x in p[1..] {
      var i :| 0 <= i < |p[1..]| && p[1..][i] == x;
      assert p[i + 1] == x;
      LessIsOrder(p[0].key, x.key, []);
    }
    if x in p && x != p[0] {
      var i :| 0 <= i < |p| && p[i] == x;
      assert p[1..][i - 1] == x;
    }
  }

  /** The fields, each as one property, in some order. */
  ghost predicate Lists(props: seq<Property>, fields: map<string, Field>) {
    && DistinctKeys(props)
    && (forall k :: k in fields <==> Names(props, k))
    && (forall i :: 0 <= i < |props| ==> props[i].key in fields && props[i].field == fields[props[i].key])
  }

  /** In whatever order the fields come, sorting them by key gives the same list. */
  lemma OrderDoesNotMatter(props: seq<Property>, sorted: seq<Property>, fields: map<string, Field>)
    requires Lists(props, fields) && Sorted(sorted) && multiset(sorted) == multiset(props)
    ensures sorted == Listing(fields)
  {
    var listing := Listing(fields);
    ListingAscends(fields);
    PermutationKeepsKeys(props, sorted);
    SortedAscends(sorted);
    forall x ensures x in sorted <==> x in listing {
      assert x in sorted <==> x in multiset(sorted);
      assert x in props <==> x in multiset(props);
      ListedKey(fields, x.key);
      if x in props {
        var i :| 0 <= i < |props| && props[i] == x;
        var j :| 0 <= j < |listing| && listing[j].key == x.key;
        assert listing[j] == x;
      }
      if x in listing {
        var j :| 0 <= j < |listing| && listing[j] == x;
        assert Names(listing, x.key) && Names(props, x.key);
        var i :| 0 <= i < |props| && props[i].key == x.key;
        assert props[i] == x;
      }
    }
    AscendingUnique(sorted, listing);
  }

  lemma PermutationKeepsKeys(props: seq<Property>, sorted: seq<Property>)
    requires DistinctKeys(props) && multiset(sorted) == multiset(props)
    ensures DistinctKeys(sorted)
  {
    forall i, j | 0 <= i < j < |sorted| ensures sorted[i].key != sorted[j].key {
      if sorted[i].key == sorted[j].key {
        assert sorted[i] in multiset(props) && sorted[j] in multiset(props);
        var a :| 0 <= a < |props| && props[a] == sorted[i];
        var b :| 0 <= b < |props| && props[b] == sorted[j];
        assert a == b;
        TwiceCounts(sorted, i, j);
        OnceCounts(props, a);
      }
    }
  }

  lemma TwiceCounts(s: seq<Property>, i: nat, j: nat)
    requires i < j < |s| && s[i] == s[j]
    ensures multiset(s)[s[i]] >= 2
  {
    assert s == s[..i] + [s[i]] + s[i + 1..j] + [s[j]] + s[j + 1..];
  }

  lemma OnceCounts(s: seq<Property>, i: nat)
    requires i < |s| && DistinctKeys(s)
    ensures multiset(s)[s[i]] == 1
  {
    assert s == s[..i] + [s[i]] + s[i + 1..];
    assert s[i] !in s[..i] && s[i] !in s[i + 1..];
  }

  /** Stands for the library's unstable sort by key: some sorted permutation. */
  method SortByKey(v: seq<Property>) returns (sorted: seq<Property>)
    ensures Sorted(sorted) && multiset(sorted) == multiset(v)
  {
    sorted := [];
    for i := 0 to |v|
      invariant Sorted(sorted) && multiset(sorted) == multiset(v[..i])
    {
      assert v[..i + 1] == v[..i] + [v[i]];
      sorted := InsertByKey(sorted, v[i]);
    }
    assert v[..|v|] == v;
  }

  function InsertByKey(s: seq<Property>, x: Property): (r: seq<Property>)
    requires Sorted(s)
    ensures Sorted(r) && multiset(r) == multiset(s) + multiset{x}
  {
    if s == [] then [x]
    else if Less(x.key, s[0].key) then
      InsertFront(s, x);
      [x] + s
    else
      var rest := InsertByKey(s[1..], x);
      assert s == [s[0]] + s[1..];
      InsertBehind(s, x, rest);
      [s[0]] + rest
  }

  lemma InsertFront(s: seq<Property>, x: Property)
    requires s != [] && Sorted(s) && Less(x.key, s[0].key)
    ensures Sorted([x] + s)
  {
    forall j | 0 <= j < |s| ensures !Less(s[j].key, x.key) {
      LessIsOrder(s[j].key, x.key, s[0].key);
      LessIsOrder(s[0].key, s[0].key, []);
    }
  }

  lemma InsertBehind(s: seq<Property>, x: Property, rest: seq<Property>)
    requires s != [] && Sorted(s) && !Less(x.key, s[0].key)
    requires Sorted(rest) && multiset(rest) == multiset(s[1..]) + multiset{x}
    ensures Sorted([s[0]] + rest)
  {
    forall j | 0 <= j < |rest| ensures !Less(rest[j].key, s[0].key) {
      assert rest[j] in multiset(rest);
      if rest[j] != x {
        assert rest[j] in s[1..];
      }
    }
  }

  // ---- The code ----

  method CompileField(def: FieldDef, registry: Registry) returns (field: Field)
    ensures field == Compile(def, registry)
    decreases def, 1
  {
    match def
    case StringDef(required, min, max, pattern, enumValues) =>
      return StringField(required, min, max, if pattern.Some? then CompilePattern(pattern.value, registry) else None, enumValues);
    case NumberDef(required, min, max, whole) => return NumberField(required, min, max, whole);
    case IntegerDef(required, min, max) => return IntegerField(required, min, max);
    case BooleanDef(required) => return BooleanField(required);
    case ObjectDef(required, properties) =>
      if properties.AnyProperties? {
        return ObjectField(required, Unlisted);
      }
      var list := CompileMap(properties, registry);
      return ObjectField(required, Listed(list));
    case ArrayDef(required, items, min, max) =>
      if items.None? {
        return ArrayField(required, None, min, max);
      }
      var item := CompileField(items.value, registry);
      return ArrayField(required, Some(item), min, max);
  }

  /** The loop over a hash map, in an arbitrary order, and the sort behind it. */
  method CompileMap(properties: DefMap, registry: Registry) returns (sorted: seq<Property>)
    requires properties.Defs?
    ensures sorted == Listing(CompileDefs(properties, registry))
    decreases properties, 0
  {
    var defs := properties.defs;
    var v: seq<Property> := [];
    var rest := defs.Keys;
    ghost var fields: map<string, Field> := map[];
    ghost var all := CompileDefs(properties, registry);
    NothingListed();
    CompiledOne(properties, registry);
    hide *;
    while rest != {}
      invariant rest <= defs.Keys && fields.Keys == defs.Keys - rest
      invariant forall k :: k in fields ==> k in all && fields[k] == all[k]
      invariant Lists(v, fields)
      decreases |rest|
    {
      var key :| key in rest;
      var field := CompileField(defs[key], registry);
      ListsOneMore(v, fields, key, field);
      v := v + [Property(key, field)];
      fields := fields[key := field];
      rest := rest - {key};
    }
    assert fields == all;
    sorted := SortByKey(v);
    OrderDoesNotMatter(v, sorted, fields);
  }

  // ---- Whole routes ----

  /** The JSON description of a route; a section may be missing. */
  datatype RouteDef = RouteDef(body: Option<map<string, FieldDef>>, query: Option<map<string, FieldDef>>, params: Option<map<string, FieldDef>>)

  datatype CompiledRoute = CompiledRoute(body: Option<seq<Property>>, query: Option<seq<Property>>, params: Option<seq<Property>>)

  ghost function CompileSectionDefs(defs: Option<map<string, FieldDef>>, registry: Registry): Option<seq<Property>> {
    if defs.None? then None else Some(Listing(CompileDefs(Defs(defs.value), registry)))
  }

  ghost function CompileRoute(def: RouteDef, registry: Registry): CompiledRoute {
    CompiledRoute(CompileSectionDefs(def.body, registry), CompileSectionDefs(def.query, registry), CompileSectionDefs(def.params, registry))
  }

  method CompileRouteMap(defs: Option<map<string, FieldDef>>, registry: Registry) returns (section: Option<seq<Property>>)
    ensures section == CompileSectionDefs(defs, registry)
  {
    if defs.None? {
      return None;
    }
    var list := CompileMap(Defs(defs.value), registry);
    return Some(list);
  }

  method CompileRouteSchema(def: RouteDef, registry: Registry) returns (route: CompiledRoute)
    ensures route == CompileRoute(def, registry)
    ensures route.body == CompileSectionDefs(def.body, registry) && route.query == CompileSectionDefs(def.query, registry)
    ensures route.params == CompileSectionDefs(def.params, registry)
  {
    var body := CompileRouteMap(def.body, registry);
    var query := CompileRouteMap(def.query, registry);
    var params := CompileRouteMap(def.params, registry);
    return CompiledRoute(body, query, params);
  }

  // ---- Facts the loop needs ----

  lemma CompiledOne(properties: DefMap, registry: Registry)
    requires properties.Defs?
    ensures var all := CompileDefs(properties, registry);
            all.Keys == properties.defs.Keys &&
            forall k :: k in properties.defs ==> all[k] == Compile(properties.defs[k], registry)
  {
  }

  lemma NothingListed()
    ensures Lists([], map[])
  {
  }

  lemma ListsOneMore(v: seq<Property>, fields: map<string, Field>, key: string, field: Field)
    requires Lists(v, fields) && key !in fields
    ensures Lists(v + [Property(key, field)], fields[key := field])
  {
    var w := v + [Property(key, field)];
    forall k ensures k in fields[key := field] <==> Names(w, k) {
      if Names(v, k) {
        var i :| 0 <= i < |v| && v[i].key == k;
        assert w[i].key == k;
      }
      assert w[|v|].key == key;
      if Names(w, k) {
        var i :| 0 <= i < |w| && w[i].key == k;
        assert i < |v| ==> v[i].key == k;
      }
    }
    forall i | 0 <= i < |v| ensures v[i].key != key {
      assert Names(v, v[i].key);
    }
  }
}
