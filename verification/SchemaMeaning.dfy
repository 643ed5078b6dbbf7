/** The list of violations is the declarative meaning of a schema: each broken constraint once, none when the value conforms. */
module SchemaMeaning {
  import opened Wrappers
  import opened Schema
  import opened Sequences

  lemma StringCodesMean(v: Json, f: Field, registry: Registry, code: Code)
    requires f.StringField?
    ensures code in Codes(v, f, registry) <==> Breaks(v, f, registry, code)
  {
    hide Matches, ByteLength;
  }

  lemma CodesMean(v: Json, f: Field, registry: Registry, code: Code)
    ensures code in Codes(v, f, registry) <==> Breaks(v, f, registry, code)
  {
    if f.StringField? {
      StringCodesMean(v, f, registry, code);
    } else {
      hide Matches, ByteLength, IsInteger;
    }
  }

  lemma CodesDistinct(v: Json, f: Field, registry: Registry)
    ensures forall i, j :: 0 <= i < j < |Codes(v, f, registry)| ==> Codes(v, f, registry)[i] != Codes(v, f, registry)[j]
  {
    hide Matches, ByteLength, IsInteger, Below, Above;
  }

  lemma InUnder(step: Step, vs: seq<Violation>, x: Violation)
    ensures x in Under(step, vs) <==> x.place != [] && x.place[0] == step && Violation(x.place[1..], x.code) in vs
  {
    if x in Under(step, vs) {
      var i :| 0 <= i < |vs| && Under(step, vs)[i] == x;
      assert vs[i] == Violation(x.place[1..], x.code);
    }
    if x.place != [] && x.place[0] == step && Violation(x.place[1..], x.code) in vs {
      var i :| 0 <= i < |vs| && vs[i] == Violation(x.place[1..], x.code);
      assert [step] + x.place[1..] == x.place;
      assert Under(step, vs)[i] == x;
    }
  }

  lemma InAtRoot(codes: seq<Code>, x: Violation)
    ensures x in AtRoot(codes) <==> x.place == [] && x.code in codes
  {
    if x.place == [] && x.code in codes {
      var i :| 0 <= i < |codes| && codes[i] == x.code;
      assert AtRoot(codes)[i] == x;
    }
  }

  /** A violation is listed exactly when its constraint is broken at its place. */
  lemma {:induction false} ViolationsMean(v: Json, f: Field, registry: Registry, x: Violation)
    ensures x in Violations(v, f, registry) <==> Violated(v, f, registry, x.place, x.code)
    decreases f, 3
  {
    InAtRoot(Codes(v, f, registry), x);
    CodesMean(v, f, registry, x.code);
    if f.ObjectField? && f.properties.Listed? && v.Obj? {
      KeysMean(v.fields, f.properties.list, |f.properties.list|, registry, x);
    } else if f.ArrayField? && f.items.Some? && v.Arr? {
      ItemsMean(v.items, f.items.value, |v.items|, registry, x);
    }
  }

  ghost predicate ViolatedBefore(fields: map<string, Json>, props: seq<Property>, n: nat, registry: Registry, x: Violation)
    requires n <= |props|
  {
    x.place != [] && x.place[0].Key? && exists j :: 0 <= j < n && ViolatedAt(fields, props[j], registry, x)
  }

  ghost predicate ViolatedAt(fields: map<string, Json>, prop: Property, registry: Registry, x: Violation) {
    x.place != [] && x.place[0] == Key(prop.key) &&
    if prop.key !in fields || fields[prop.key] == Null then prop.field.required && x.place[1..] == [] && x.code == Required
    else Violated(fields[prop.key], prop.field, registry, x.place[1..], x.code)
  }

  lemma {:induction false} KeyMeans(fields: map<string, Json>, prop: Property, registry: Registry, x: Violation)
    ensures x in KeyViolation(fields, prop, registry) <==> ViolatedAt(fields, prop, registry, x)
    decreases prop, 4
  {
    if Absent(fields, prop.key) {
      if x.place != [] && x.place[0] == Key(prop.key) && x.place[1..] == [] {
        assert x.place == [Key(prop.key)];
      }
    } else {
      var vs := Violations(fields[prop.key], prop.field, registry);
      InUnder(Key(prop.key), vs, x);
      if x.place != [] {
        ViolationsMean(fields[prop.key], prop.field, registry, Violation(x.place[1..], x.code));
      }
    }
  }

  lemma {:induction false} KeysMean(fields: map<string, Json>, props: seq<Property>, n: nat, registry: Registry, x: Violation)
    requires n <= |props|
    ensures x in KeyViolations(fields, props, n, registry) <==> ViolatedBefore(fields, props, n, registry, x)
    decreases props, 1, n
  {
    if n > 0 {
      KeysMean(fields, props, n - 1, registry, x);
      KeyMeans(fields, props[n - 1], registry, x);
    }
  }

  lemma {:induction false} ItemsMean(items: seq<Json>, f: Field, n: nat, registry: Registry, x: Violation)
    requires n <= |items|
    ensures x in ItemViolations(items, f, n, registry) <==>
            x.place != [] && x.place[0].Index? && x.place[0].index < n &&
            Violated(items[x.place[0].index], f, registry, x.place[1..], x.code)
    decreases f, 4, n
  {
    hide Violations, Violated;
    if n > 0 {
      ItemsMean(items, f, n - 1, registry, x);
      InUnder(Index(n - 1), Violations(items[n - 1], f, registry), x);
      if x.place != [] {
        ViolationsMean(items[n - 1], f, registry, Violation(x.place[1..], x.code));
      }
    }
  }

  // ---- Nothing is listed exactly when the value conforms ----

  lemma NoCodes(v: Json, f: Field, registry: Registry)
    ensures (forall code :: !Breaks(v, f, registry, code)) <==> Codes(v, f, registry) == []
  {
    hide Codes, Breaks;
    forall code ensures code in Codes(v, f, registry) <==> Breaks(v, f, registry, code) {
      CodesMean(v, f, registry, code);
    }
    if Codes(v, f, registry) != [] {
      assert Codes(v, f, registry)[0] in Codes(v, f, registry);
    }
  }

  /** No violation is listed exactly when the value conforms. */
  lemma {:induction false} EmptyMeansConforms(v: Json, f: Field, registry: Registry)
    ensures Violations(v, f, registry) == [] <==> Conforms(v, f, registry)
    decreases f, 3
  {
    NoCodes(v, f, registry);
    hide Codes, Breaks;
    if f.ObjectField? && f.properties.Listed? && v.Obj? {
      EmptyKeys(v.fields, f.properties.list, |f.properties.list|, registry);
    } else if f.ArrayField? && f.items.Some? && v.Arr? {
      EmptyItems(v.items, f.items.value, |v.items|, registry);
    }
  }

  lemma {:induction false} EmptyKeys(fields: map<string, Json>, props: seq<Property>, n: nat, registry: Registry)
    requires n <= |props|
    ensures KeyViolations(fields, props, n, registry) == [] <==>
            forall j :: 0 <= j < n ==>
              if Absent(fields, props[j].key) then !props[j].field.required
              else Conforms(fields[props[j].key], props[j].field, registry)
    decreases props, 1, n
  {
    hide Violations, Conforms, Nested;
    if n > 0 {
      EmptyKeys(fields, props, n - 1, registry);
      var prop := props[n - 1];
      if !Absent(fields, prop.key) {
        EmptyMeansConforms(fields[prop.key], prop.field, registry);
        assert |KeyViolation(fields, prop, registry)| == |Violations(fields[prop.key], prop.field, registry)|;
      }
    }
  }

  lemma {:induction false} EmptyItems(items: seq<Json>, f: Field, n: nat, registry: Registry)
    requires n <= |items|
    ensures ItemViolations(items, f, n, registry) == [] <==> forall i :: 0 <= i < n ==> Conforms(items[i], f, registry)
    decreases f, 4, n
  {
    hide Violations, Conforms, Nested;
    if n > 0 {
      EmptyItems(items, f, n - 1, registry);
      EmptyMeansConforms(items[n - 1], f, registry);
      assert |Under(Index(n - 1), Violations(items[n - 1], f, registry))| == |Violations(items[n - 1], f, registry)|;
    }
  }

  // ---- Each violation is listed once ----

  ghost predicate Distinct(vs: seq<Violation>) {
    forall i, j :: 0 <= i < j < |vs| ==> vs[i] != vs[j]
  }

  ghost predicate DistinctKeys(props: seq<Property>) {
    forall i, j :: 0 <= i < j < |props| ==> props[i].key != props[j].key
  }

  /** No object in the schema lists a key twice. */
  ghost predicate WellKeyed(f: Field)
    decreases f, 1
  {
    && (f.ObjectField? && f.properties.Listed? ==> WellKeyedList(f.properties.list))
    && (f.ArrayField? && f.items.Some? ==> WellKeyed(f.items.value))
  }

  ghost predicate WellKeyedList(props: seq<Property>)
    decreases props, 0
  {
    DistinctKeys(props) && forall j :: 0 <= j < |props| ==> WellKeyed(props[j].field)
  }

  lemma DistinctConcat(p: seq<Violation>, q: seq<Violation>)
    requires Distinct(p) && Distinct(q) && forall x :: !(x in p && x in q)
    ensures Distinct(p + q)
  {
    forall i, j | 0 <= i < j < |p + q| ensures (p + q)[i] != (p + q)[j] {
      if i < |p| <= j {
        assert p[i] in p && q[j - |p|] in q;
      }
    }
  }

  lemma DistinctUnder(step: Step, vs: seq<Violation>)
    requires Distinct(vs)
    ensures Distinct(Under(step, vs))
  {
    var us := Under(step, vs);
    forall i, j | 0 <= i < j < |us| ensures us[i] != us[j] {
      assert vs[i] != vs[j];
      assert us[i].place[1..] == vs[i].place && us[j].place[1..] == vs[j].place;
    }
  }

  /** When no object lists a key twice, no violation is listed twice. */
  lemma {:induction false} ListedOnce(v: Json, f: Field, registry: Registry)
    requires WellKeyed(f)
    ensures Distinct(Violations(v, f, registry))
    decreases f, 3
  {
    var here, below := AtRoot(Codes(v, f, registry)), Nested(v, f, registry);
    CodesDistinct(v, f, registry);
    if f.ObjectField? && f.properties.Listed? && v.Obj? {
      KeysOnce(v.fields, f.properties.list, |f.properties.list|, registry);
    } else if f.ArrayField? && f.items.Some? && v.Arr? {
      ItemsOnce(v.items, f.items.value, |v.items|, registry);
    }
    forall x ensures !(x in here && x in below) {
      InAtRoot(Codes(v, f, registry), x);
      if f.ObjectField? && f.properties.Listed? && v.Obj? {
        KeysMean(v.fields, f.properties.list, |f.properties.list|, registry, x);
      } else if f.ArrayField? && f.items.Some? && v.Arr? {
        ItemsMean(v.items, f.items.value, |v.items|, registry, x);
      }
    }
    DistinctConcat(here, below);
  }

  lemma {:induction false} KeysOnce(fields: map<string, Json>, props: seq<Property>, n: nat, registry: Registry)
    requires n <= |props| && WellKeyedList(props)
    ensures Distinct(KeyViolations(fields, props, n, registry))
    decreases props, 1, n
  {
    if n > 0 {
      KeysOnce(fields, props, n - 1, registry);
      var prop := props[n - 1];
      var last := KeyViolation(fields, prop, registry);
      if !Absent(fields, prop.key) {
        ListedOnce(fields[prop.key], prop.field, registry);
        DistinctUnder(Key(prop.key), Violations(fields[prop.key], prop.field, registry));
      }
      var front := KeyViolations(fields, props, n - 1, registry);
      forall x ensures !(x in front && x in last) {
        KeysMean(fields, props, n - 1, registry, x);
        KeyMeans(fields, prop, registry, x);
      }
      DistinctConcat(front, last);
    }
  }

  lemma {:induction false} ItemsOnce(items: seq<Json>, f: Field, n: nat, registry: Registry)
    requires n <= |items| && WellKeyed(f)
    ensures Distinct(ItemViolations(items, f, n, registry))
    decreases f, 4, n
  {
    hide Violations, Violated, WellKeyed;
    if n > 0 {
      ItemsOnce(items, f, n - 1, registry);
      ListedOnce(items[n - 1], f, registry);
      DistinctUnder(Index(n - 1), Violations(items[n - 1], f, registry));
      var front, last := ItemViolations(items, f, n - 1, registry), Under(Index(n - 1), Violations(items[n - 1], f, registry));
      forall x ensures !(x in front && x in last) {
        ItemsMean(items, f, n - 1, registry, x);
        InUnder(Index(n - 1), Violations(items[n - 1], f, registry), x);
      }
      DistinctConcat(front, last);
    }
  }

  // ---- And only then ----

  lemma DistinctPart(p: seq<Violation>, q: seq<Violation>, r: seq<Violation>)
    requires Distinct(p + q + r)
    ensures Distinct(q)
  {
    forall i, j | 0 <= i < j < |q| ensures q[i] != q[j] {
      assert (p + q + r)[|p| + i] == q[i] && (p + q + r)[|p| + j] == q[j];
    }
  }

  lemma DistinctFromUnder(step: Step, vs: seq<Violation>)
    requires Distinct(Under(step, vs))
    ensures Distinct(vs)
  {
    forall i, j | 0 <= i < j < |vs| ensures vs[i] != vs[j] {
      assert Under(step, vs)[i] != Under(step, vs)[j];
    }
  }

  /** The violations of one property among those of all. */
  lemma {:induction false} KeyAmong(fields: map<string, Json>, props: seq<Property>, j: nat, n: nat, registry: Registry)
      returns (rest: seq<Violation>)
    requires j < n <= |props|
    ensures KeyViolations(fields, props, n, registry) ==
            KeyViolations(fields, props, j, registry) + KeyViolation(fields, props[j], registry) + rest
    decreases n
  {
    hide KeyViolation;
    if j == n - 1 {
      rest := [];
    } else {
      var front := KeyAmong(fields, props, j, n - 1, registry);
      rest := front + KeyViolation(fields, props[n - 1], registry);
      Associate(KeyViolations(fields, props, j, registry) + KeyViolation(fields, props[j], registry), front,
                KeyViolation(fields, props[n - 1], registry));
    }
  }

  /** A value, not null, that has the type of neither field. */
  lemma OfNeitherType(f: Field, g: Field) returns (v: Json)
    ensures !v.Null? && !HasType(v, f) && !HasType(v, g)
  {
    v := if !f.StringField? && !g.StringField? then Str("")
         else if !f.BooleanField? && !g.BooleanField? then Bool(false)
         else Num(0.0);
  }

  /** Two properties of one key both report a value that has the type of neither. */
  lemma TwiceListedKeyReportsTwice(props: seq<Property>, i: nat, j: nat, registry: Registry) returns (fields: map<string, Json>)
    requires i < j < |props| && props[i].key == props[j].key
    ensures !Distinct(KeyViolations(fields, props, |props|, registry))
  {
    var w := OfNeitherType(props[i].field, props[j].field);
    var key := props[i].key;
    fields := map[key := w];
    var x := Violation([Key(key)], TypeCode);
    assert x.place[1..] == [];
    hide KeyViolations, KeyViolation, Violated;
    TypeErrorReported(w, props[i].field, registry);
    TypeErrorReported(w, props[j].field, registry);
    KeyMeans(fields, props[j], registry, x);
    KeysMean(fields, props, j, registry, x);
    assert ViolatedAt(fields, props[i], registry, x);
    var rest := KeyAmong(fields, props, j, |props|, registry);
    var before, here := KeyViolations(fields, props, j, registry), KeyViolation(fields, props[j], registry);
    var a :| 0 <= a < |before| && before[a] == x;
    var b :| 0 <= b < |here| && here[b] == x;
    assert (before + here + rest)[a] == (before + here + rest)[|before| + b];
  }

  lemma TypeErrorReported(v: Json, f: Field, registry: Registry)
    requires !HasType(v, f)
    ensures Violated(v, f, registry, [], TypeCode)
  {
  }

  /** Null breaks its type and nothing else. */
  lemma NullReportsOnce(f: Field, registry: Registry)
    ensures Distinct(Violations(Null, f, registry))
  {
    assert Codes(Null, f, registry) == [TypeCode] && Nested(Null, f, registry) == [];
  }

  /** What a property reports twice, its object does. */
  lemma NestedKeyReportsTwice(props: seq<Property>, j: nat, v: Json, registry: Registry) returns (fields: map<string, Json>)
    requires j < |props| && !Distinct(Violations(v, props[j].field, registry))
    ensures !Distinct(KeyViolations(fields, props, |props|, registry))
  {
    NullReportsOnce(props[j].field, registry);
    fields := map[props[j].key := v];
    hide Violations, KeyViolations, Under, Distinct;
    var rest := KeyAmong(fields, props, j, |props|, registry);
    var before, here := KeyViolations(fields, props, j, registry), KeyViolation(fields, props[j], registry);
    if Distinct(before + here + rest) {
      DistinctPart(before, here, rest);
      DistinctFromUnder(Key(props[j].key), Violations(v, props[j].field, registry));
    }
  }

  lemma {:induction false} BadlyKeyedList(props: seq<Property>, registry: Registry) returns (fields: map<string, Json>)
    requires !WellKeyedList(props)
    ensures !Distinct(KeyViolations(fields, props, |props|, registry))
    decreases props, 0
  {
    if !DistinctKeys(props) {
      var i, j :| 0 <= i < j < |props| && props[i].key == props[j].key;
      fields := TwiceListedKeyReportsTwice(props, i, j, registry);
    } else {
      var j :| 0 <= j < |props| && !WellKeyed(props[j].field);
      var v := BadlyKeyed(props[j].field, registry);
      fields := NestedKeyReportsTwice(props, j, v, registry);
    }
  }

  /** A value that a badly keyed schema reports on twice. */
  lemma {:induction false} BadlyKeyed(f: Field, registry: Registry) returns (v: Json)
    requires !WellKeyed(f)
    ensures !Distinct(Violations(v, f, registry))
    decreases f, 1
  {
    if f.ObjectField? {
      var fields := BadlyKeyedList(f.properties.list, registry);
      v := Obj(fields);
      NestedReportsTwice(v, f, registry);
    } else {
      var w := BadlyKeyed(f.items.value, registry);
      v := Arr([w]);
      OneItem(w, f, registry);
      if Distinct(Nested(v, f, registry)) {
        DistinctFromUnder(Index(0), Violations(w, f.items.value, registry));
      }
      NestedReportsTwice(v, f, registry);
    }
  }

  lemma OneItem(v: Json, f: Field, registry: Registry)
    requires f.ArrayField? && f.items.Some?
    ensures Nested(Arr([v]), f, registry) == Under(Index(0), Violations(v, f.items.value, registry))
  {
    var reported := Under(Index(0), Violations(v, f.items.value, registry));
    assert ItemViolations([v], f.items.value, 0, registry) == [];
    assert [] + reported == reported;
  }

  lemma NestedReportsTwice(v: Json, f: Field, registry: Registry)
    requires !Distinct(Nested(v, f, registry))
    ensures !Distinct(Violations(v, f, registry))
  {
    var here, below := AtRoot(Codes(v, f, registry)), Nested(v, f, registry);
    assert here + below + [] == here + below;
    if Distinct(here + below + []) {
      DistinctPart(here, below, []);
    }
  }

  /** No value gets a violation twice exactly when no object in the schema lists a key twice. */
  lemma EachOnce(f: Field, registry: Registry)
    ensures (forall v :: Distinct(Violations(v, f, registry))) <==> WellKeyed(f)
  {
    if WellKeyed(f) {
      forall v ensures Distinct(Violations(v, f, registry)) {
        ListedOnce(v, f, registry);
      }
    } else {
      var v := BadlyKeyed(f, registry);
    }
  }

  /** The same for the properties of a whole section. */
  lemma SectionEachOnce(props: seq<Property>, registry: Registry)
    ensures (forall fields :: Distinct(KeyViolations(fields, props, |props|, registry))) <==> WellKeyedList(props)
  {
    if WellKeyedList(props) {
      forall fields ensures Distinct(KeyViolations(fields, props, |props|, registry)) {
        KeysOnce(fields, props, |props|, registry);
      }
    } else {
      var fields := BadlyKeyedList(props, registry);
    }
  }
}
