/** The query-string validator of `src/schema.rs`, and when it answers as the JSON validator does on the coerced object. */
module Query {
  import opened Wrappers
  import opened Schema
  import opened SchemaMeaning
  import opened Validator
  import Text
  import FloatParser

  /** The standard number parser, which the fast one falls back to when an exponent follows. */
  type Fallback = string -> Option<real>

  predicate IsWhitespace(c: char) {
    var n := c as int;
    0x9 <= n <= 0xD || n == 0x20 || n == 0x85 || n == 0xA0 || n == 0x1680 || 0x2000 <= n <= 0x200A ||
    n == 0x2028 || n == 0x2029 || n == 0x202F || n == 0x205F || n == 0x3000
  }

  function TrimStart(s: string): string {
    if s != [] && IsWhitespace(s[0]) then TrimStart(s[1..]) else s
  }

  function TrimEnd(s: string): string {
    if s != [] && IsWhitespace(s[|s| - 1]) then TrimEnd(s[..|s| - 1]) else s
  }

  function Trim(s: string): string {
    TrimEnd(TrimStart(s))
  }

  predicate MatchesBoolean(s: string) {
    s in ["true", "false", "1", "0", "yes", "no", "TRUE", "FALSE"]
  }

  // ---- Coercion ----

  /** The JSON value a query string stands for where a field is expected; a text that cannot be converted stays a text. */
  ghost function Coerce(s: string, f: Field, fallback: Fallback): (v: Json)
    ensures !v.Null?
    decreases f
  {
    match f
    case StringField(_, _, _, _, _) => Str(s)
    case NumberField(_, _, _, _) => CoerceNumber(s, fallback)
    case IntegerField(_, _, _) => CoerceNumber(s, fallback)
    case BooleanField(_) => if MatchesBoolean(s) then Bool(s in ["true", "1", "yes", "TRUE"]) else Str(s)
    case ObjectField(_, _) => Str(s)
    case ArrayField(_, items, _, _) =>
      var parts := Text.Split(s, ',');
      Arr(seq(|parts|, i requires 0 <= i < |parts| =>
        if items.Some? then Coerce(Trim(parts[i]), items.value, fallback) else Str(parts[i])))
  }

  ghost function CoerceNumber(s: string, fallback: Fallback): Json {
    var n := FloatParser.Number(s, fallback);
    if n.Some? then Num(n.value) else Str(s)
  }

  ghost predicate HasKey(schema: seq<Property>, key: string) {
    exists j :: 0 <= j < |schema| && schema[j].key == key
  }

  /** The first property of that key. */
  ghost function FieldAt(schema: seq<Property>, key: string): Field
    requires HasKey(schema, key)
  {
    if schema[0].key == key then schema[0].field else
      assert HasKey(schema[1..], key) by {
        var j :| 0 <= j < |schema| && schema[j].key == key;
        assert schema[1..][j - 1].key == key;
      }
      FieldAt(schema[1..], key)
  }

  /** The JSON object the parameters stand for. */
  ghost function CoerceAll(params: map<string, string>, schema: seq<Property>, fallback: Fallback): Json {
    Obj(map key | key in params && HasKey(schema, key) :: Coerce(params[key], FieldAt(schema, key), fallback))
  }

  // ---- What the query validator lists ----

  ghost function QueryViolation(params: map<string, string>, prop: Property, registry: Registry, fallback: Fallback): seq<Violation> {
    if prop.key !in params then if prop.field.required then [Violation([Key(prop.key)], Required)] else []
    else Under(Key(prop.key), Violations(Coerce(params[prop.key], prop.field, fallback), prop.field, registry))
  }

  ghost function QueryViolations(params: map<string, string>, schema: seq<Property>, n: nat, registry: Registry, fallback: Fallback): seq<Violation>
    requires n <= |schema|
  {
    if n == 0 then [] else
      QueryViolations(params, schema, n - 1, registry, fallback) + QueryViolation(params, schema[n - 1], registry, fallback)
  }

  lemma {:induction false} FieldAtIndex(schema: seq<Property>, j: nat)
    requires j < |schema| && DistinctKeys(schema)
    ensures HasKey(schema, schema[j].key) && FieldAt(schema, schema[j].key) == schema[j].field
  {
    assert HasKey(schema, schema[j].key);
    if j > 0 {
      FieldAtIndex(schema[1..], j - 1);
    }
  }

  // ---- When validating commutes with coercion ----

  predicate IsNumeric(f: Field) {
    f.NumberField? || f.IntegerField?
  }

  /** All that a query section built by calls can hold, and so the only fields of a key listed twice. */
  predicate Plain(f: Field) {
    f.StringField? || IsNumeric(f)
  }

  ghost predicate AllPlain(schema: seq<Property>) {
    forall j :: 0 <= j < |schema| ==> Plain(schema[j].field)
  }

  /** A text is read the same way under both fields. */
  predicate Alike(f: Field, g: Field) {
    f == g || (f.StringField? && g.StringField?) || (IsNumeric(f) && IsNumeric(g))
  }

  /** Each parameter is read under every property of its key as under the first, or is no number anyway. */
  ghost predicate ReadAlike(params: map<string, string>, schema: seq<Property>, fallback: Fallback) {
    forall j :: 0 <= j < |schema| && schema[j].key in params ==> PropertyReadAlike(params, schema, j, fallback)
  }

  ghost predicate PropertyReadAlike(params: map<string, string>, schema: seq<Property>, j: nat, fallback: Fallback)
    requires j < |schema| && schema[j].key in params
  {
    var key := schema[j].key;
    assert HasKey(schema, key);
    Alike(FieldAt(schema, key), schema[j].field) || FloatParser.Number(params[key], fallback).None?
  }

  lemma SameCoercion(s: string, f: Field, g: Field, fallback: Fallback)
    requires f == g || (Plain(f) && Plain(g))
    ensures Alike(f, g) || FloatParser.Number(s, fallback).None? ==> Coerce(s, f, fallback) == Coerce(s, g, fallback)
    ensures !Alike(f, g) && FloatParser.Number(s, fallback).Some? ==>
              !HasType(Coerce(s, f, fallback), g) && HasType(Coerce(s, g, fallback), g)
  {
    hide FloatParser.Number;
  }

  /** The schemas either front end compiles: keys listed once, or plain fields. */
  ghost predicate Listable(schema: seq<Property>) {
    DistinctKeys(schema) || AllPlain(schema)
  }

  lemma FirstIsListable(schema: seq<Property>, j: nat)
    requires j < |schema| && Listable(schema)
    ensures HasKey(schema, schema[j].key)
    ensures var f := FieldAt(schema, schema[j].key); f == schema[j].field || (Plain(f) && Plain(schema[j].field))
  {
    assert HasKey(schema, schema[j].key);
    if DistinctKeys(schema) {
      FieldAtIndex(schema, j);
    } else {
      FieldAtIsListed(schema, schema[j].key);
    }
  }

  lemma {:induction false} FieldAtIsListed(schema: seq<Property>, key: string)
    requires HasKey(schema, key)
    ensures exists j :: 0 <= j < |schema| && schema[j] == Property(key, FieldAt(schema, key))
  {
    if schema[0].key == key {
      assert schema[0] == Property(key, FieldAt(schema, key));
    } else {
      var i :| 0 <= i < |schema| && schema[i].key == key;
      assert schema[1..][i - 1].key == key;
      FieldAtIsListed(schema[1..], key);
      var j :| 0 <= j < |schema[1..]| && schema[1..][j] == Property(key, FieldAt(schema[1..], key));
      assert schema[j + 1] == Property(key, FieldAt(schema, key));
    }
  }

  /** The violations of a query are those of the object it is coerced to. */
  ghost predicate Commutes(params: map<string, string>, schema: seq<Property>, registry: Registry, fallback: Fallback) {
    QueryViolations(params, schema, |schema|, registry, fallback) ==
    KeyViolations(CoerceAll(params, schema, fallback).fields, schema, |schema|, registry)
  }

  lemma PropertyCommutes(params: map<string, string>, schema: seq<Property>, j: nat, registry: Registry, fallback: Fallback)
    requires j < |schema| && Listable(schema) && ReadAlike(params, schema, fallback)
    ensures QueryViolation(params, schema[j], registry, fallback) ==
            KeyViolation(CoerceAll(params, schema, fallback).fields, schema[j], registry)
  {
    hide Coerce, Listable, Violations, FieldAt, FloatParser.Number, Alike;
    var key := schema[j].key;
    FirstIsListable(schema, j);
    if key in params {
      assert PropertyReadAlike(params, schema, j, fallback);
      SameCoercion(params[key], FieldAt(schema, key), schema[j].field, fallback);
    }
  }

  lemma {:induction false} ReadAlikeCommutes(params: map<string, string>, schema: seq<Property>, n: nat, registry: Registry, fallback: Fallback)
    requires n <= |schema| && Listable(schema) && ReadAlike(params, schema, fallback)
    ensures QueryViolations(params, schema, n, registry, fallback) ==
            KeyViolations(CoerceAll(params, schema, fallback).fields, schema, n, registry)
  {
    hide Listable, ReadAlike, CoerceAll, QueryViolation, KeyViolation;
    if n > 0 {
      ReadAlikeCommutes(params, schema, n - 1, registry, fallback);
      PropertyCommutes(params, schema, n - 1, registry, fallback);
    }
  }

  /** The type error of key `k`. */
  function TypeErrorAt(k: string): Violation {
    Violation([Key(k)], TypeCode)
  }

  /** A parameter that is a number never has a wrong type in the query, under plain fields. */
  lemma {:induction false} NoTypeError(params: map<string, string>, schema: seq<Property>, n: nat, registry: Registry, fallback: Fallback, k: string)
    requires n <= |schema| && AllPlain(schema) && k in params && FloatParser.Number(params[k], fallback).Some?
    ensures TypeErrorAt(k) !in QueryViolations(params, schema, n, registry, fallback)
  {
    hide FloatParser.Number;
    if n > 0 {
      NoTypeError(params, schema, n - 1, registry, fallback, k);
      NoTypeErrorIn(params, schema[n - 1], registry, fallback, k);
      hide QueryViolation;
    }
  }

  lemma NoTypeErrorIn(params: map<string, string>, prop: Property, registry: Registry, fallback: Fallback, k: string)
    requires Plain(prop.field) && k in params && FloatParser.Number(params[k], fallback).Some?
    ensures TypeErrorAt(k) !in QueryViolation(params, prop, registry, fallback)
  {
    hide FloatParser.Number, Under, Violations;
    if prop.key in params {
      var v := Coerce(params[prop.key], prop.field, fallback);
      assert TypeErrorAt(k).place[1..] == [];
      InUnder(Key(prop.key), Violations(v, prop.field, registry), TypeErrorAt(k));
      ViolationsMean(v, prop.field, registry, Violation([], TypeCode));
    }
  }

  /** But it has in the document, under a field that reads it otherwise than the first one does. */
  lemma TypeErrorInDocument(params: map<string, string>, schema: seq<Property>, registry: Registry, fallback: Fallback, j: nat)
    requires j < |schema| && schema[j].key in params && Listable(schema) && !PropertyReadAlike(params, schema, j, fallback)
    ensures TypeErrorAt(schema[j].key) in KeyViolations(CoerceAll(params, schema, fallback).fields, schema, |schema|, registry)
  {
    var key := schema[j].key;
    FirstIsListable(schema, j);
    SameCoercion(params[key], FieldAt(schema, key), schema[j].field, fallback);
    hide FloatParser.Number, FieldAt, Coerce;
    var fields := CoerceAll(params, schema, fallback).fields;
    assert fields[key] == Coerce(params[key], FieldAt(schema, key), fallback);
    KeysMean(fields, schema, |schema|, registry, TypeErrorAt(key));
    assert ViolatedAt(fields, schema[j], registry, TypeErrorAt(key));
  }

  lemma DistinctReadAlike(params: map<string, string>, schema: seq<Property>, fallback: Fallback)
    requires DistinctKeys(schema)
    ensures ReadAlike(params, schema, fallback)
  {
    forall j | 0 <= j < |schema| && schema[j].key in params ensures PropertyReadAlike(params, schema, j, fallback) {
      FieldAtIndex(schema, j);
    }
  }

  /** For every schema that a front end can compile, validating a query commutes with coercing it exactly when each
      parameter is read alike under all properties of its key, or is no number. */
  lemma QueryCommutes(params: map<string, string>, schema: seq<Property>, registry: Registry, fallback: Fallback)
    requires Listable(schema)
    ensures Commutes(params, schema, registry, fallback) <==> ReadAlike(params, schema, fallback)
  {
    if ReadAlike(params, schema, fallback) {
      ReadAlikeCommutes(params, schema, |schema|, registry, fallback);
    } else {
      var j := UnlikeAt(params, schema, fallback);
      NoTypeError(params, schema, |schema|, registry, fallback, schema[j].key);
      TypeErrorInDocument(params, schema, registry, fallback, j);
    }
  }

  lemma UnlikeAt(params: map<string, string>, schema: seq<Property>, fallback: Fallback) returns (j: nat)
    requires Listable(schema) && !ReadAlike(params, schema, fallback)
    ensures j < |schema| && schema[j].key in params && !PropertyReadAlike(params, schema, j, fallback)
    ensures AllPlain(schema) && FloatParser.Number(params[schema[j].key], fallback).Some?
  {
    j :| 0 <= j < |schema| && schema[j].key in params && !PropertyReadAlike(params, schema, j, fallback);
    if DistinctKeys(schema) {
      DistinctReadAlike(params, schema, fallback);
    }
  }

  /** All properties of a key are texts, or all are numbers, or the key is listed once. */
  ghost predicate KeysAlike(schema: seq<Property>) {
    forall j :: 0 <= j < |schema| ==> HasKey(schema, schema[j].key) && Alike(FieldAt(schema, schema[j].key), schema[j].field)
  }

  /** For every query at once: exactly when no key is listed both as a text and as a number. */
  lemma QueryAlwaysCommutes(schema: seq<Property>, registry: Registry, fallback: Fallback)
    requires Listable(schema)
    ensures (forall params :: Commutes(params, schema, registry, fallback)) <==> KeysAlike(schema)
  {
    hide Commutes, ReadAlike, Listable, KeysAlike;
    forall params ensures Commutes(params, schema, registry, fallback) <==> ReadAlike(params, schema, fallback) {
      QueryCommutes(params, schema, registry, fallback);
    }
    AlwaysReadAlike(schema, fallback);
  }

  lemma AlwaysReadAlike(schema: seq<Property>, fallback: Fallback)
    ensures (forall params :: ReadAlike(params, schema, fallback)) <==> KeysAlike(schema)
  {
    hide FieldAt, Alike, FloatParser.Number;
    NumberOfOne(fallback);
    forall j | 0 <= j < |schema|
      ensures HasKey(schema, schema[j].key)
      ensures ReadAlike(map[schema[j].key := "1"], schema, fallback) ==> Alike(FieldAt(schema, schema[j].key), schema[j].field)
    {
      assert HasKey(schema, schema[j].key);
      if ReadAlike(map[schema[j].key := "1"], schema, fallback) {
        assert PropertyReadAlike(map[schema[j].key := "1"], schema, j, fallback);
      }
    }
  }

  lemma NumberOfOne(fallback: Fallback)
    ensures FloatParser.Number("1", fallback).Some?
  {
    FloatParser.PrintParses(1);
    assert FloatParser.PrintInt(1) == "1";
    assert FloatParser.AllDigits("1"[0..1]) by {
      assert "1"[0..1] == "1";
    }
    FloatParser.LongestEnds("1", 1, 1);
  }

  /** A schema that lists a key as a text and as a number accepts a query that no JSON document meets. */
  lemma TwiceListedKeyDoesNotCommute(fallback: Fallback)
    ensures var schema := [Property("k", StringField(true, None, None, None, None)), Property("k", NumberField(true, None, None, false))];
            && QueryViolations(map["k" := "1"], schema, |schema|, map[], fallback) == []
            && forall v: Json :: KeyViolations(FieldsOf(v), schema, |schema|, map[]) != []
  {
    var text := Property("k", StringField(true, None, None, None, None));
    var number := Property("k", NumberField(true, None, None, false));
    AcceptsAsBoth(text, number, map["k" := "1"], fallback);
    hide QueryViolations, KeyViolations;
    forall v: Json ensures KeyViolations(FieldsOf(v), [text, number], 2, map[]) != [] {
      NeverBoth(text, number, FieldsOf(v));
    }
    assert |[text, number]| == 2;
  }

  lemma AcceptsAsBoth(text: Property, number: Property, params: map<string, string>, fallback: Fallback)
    requires text == Property("k", StringField(true, None, None, None, None))
    requires number == Property("k", NumberField(true, None, None, false))
    requires params == map["k" := "1"]
    ensures QueryViolations(params, [text, number], 2, map[], fallback) == []
  {
    NumberOfOne(fallback);
    var n := FloatParser.Number("1", fallback).value;
    hide FloatParser.Number;
    assert Codes(Str("1"), text.field, map[]) == [] && Codes(Num(n), number.field, map[]) == [];
    assert QueryViolation(params, text, map[], fallback) == [] && QueryViolation(params, number, map[], fallback) == [];
    assert QueryViolations(params, [text, number], 1, map[], fallback) == [];
  }

  /** No value is both a text and a number. */
  lemma NeverBoth(text: Property, number: Property, fields: map<string, Json>)
    requires text == Property("k", StringField(true, None, None, None, None))
    requires number == Property("k", NumberField(true, None, None, false))
    ensures KeyViolations(fields, [text, number], 2, map[]) != []
  {
    if Absent(fields, "k") {
      assert KeyViolation(fields, number, map[]) != [];
    } else if fields["k"].Str? {
      assert Codes(fields["k"], number.field, map[]) == [TypeCode];
      assert |KeyViolation(fields, number, map[])| >= 1;
    } else {
      assert Codes(fields["k"], text.field, map[]) == [TypeCode];
      assert |KeyViolation(fields, text, map[])| >= 1;
      assert |KeyViolations(fields, [text, number], 1, map[])| >= 1;
    }
  }

  // ---- The same of rendered errors ----

  lemma PlainPlace(v: Json, f: Field, registry: Registry, k: string, x: Violation)
    requires Plain(f) && x in Under(Key(k), Violations(v, f, registry))
    ensures |x.place| == 1 && x.place[0].Key?
  {
    InUnder(Key(k), Violations(v, f, registry), x);
    hide Codes;
    InAtRoot(Codes(v, f, registry), Violation(x.place[1..], x.code));
    assert Violations(v, f, registry) == AtRoot(Codes(v, f, registry)) + [];
  }

  lemma {:induction false} PlainPlaces(params: map<string, string>, schema: seq<Property>, n: nat, registry: Registry, fallback: Fallback)
    requires n <= |schema| && AllPlain(schema)
    ensures forall x :: x in QueryViolations(params, schema, n, registry, fallback) ==> |x.place| == 1 && x.place[0].Key?
  {
    hide Violations, Coerce, Under, Plain;
    if n > 0 {
      PlainPlaces(params, schema, n - 1, registry, fallback);
      var prop := schema[n - 1];
      forall x | x in QueryViolation(params, prop, registry, fallback) ensures |x.place| == 1 && x.place[0].Key? {
        if prop.key in params {
          PlainPlace(Coerce(params[prop.key], prop.field, fallback), prop.field, registry, prop.key, x);
        }
      }
    }
  }

  lemma RenderedKey(path: string, x: Violation, k: string)
    requires |x.place| == 1 && x.place[0].Key?
    ensures ValidationError(PathText(path, x.place), x.code) == ValidationError(PathText(path, [Key(k)]), TypeCode) <==> x == TypeErrorAt(k)
  {
    var key := x.place[0].key;
    assert x.place == [Key(key)];
    assert PathText(path, [Key(key)]) == path + ("." + key) by {
      assert [Key(key)][1..] == [];
    }
    assert PathText(path, [Key(k)]) == path + ("." + k) by {
      assert [Key(k)][1..] == [];
    }
    assert ("." + key)[1..] == key && ("." + k)[1..] == k;
    assert (path + ("." + key))[|path|..] == "." + key && (path + ("." + k))[|path|..] == "." + k;
  }

  /** The errors of the query are those of the document exactly when the violations are. */
  lemma ErrorsCommute(params: map<string, string>, schema: seq<Property>, registry: Registry, fallback: Fallback)
    requires Listable(schema)
    ensures Render("query", QueryViolations(params, schema, |schema|, registry, fallback)) ==
            DocumentErrors(CoerceAll(params, schema, fallback), schema, "query", registry) <==>
            ReadAlike(params, schema, fallback)
  {
    QueryCommutes(params, schema, registry, fallback);
    if !ReadAlike(params, schema, fallback) {
      var j := UnlikeAt(params, schema, fallback);
      var k := schema[j].key;
      var query := QueryViolations(params, schema, |schema|, registry, fallback);
      var document := KeyViolations(CoerceAll(params, schema, fallback).fields, schema, |schema|, registry);
      NoTypeError(params, schema, |schema|, registry, fallback, k);
      TypeErrorInDocument(params, schema, registry, fallback, j);
      PlainPlaces(params, schema, |schema|, registry, fallback);
      ErrorsDiffer(query, document, k);
    }
  }

  lemma ErrorsDiffer(query: seq<Violation>, document: seq<Violation>, k: string)
    requires TypeErrorAt(k) in document && TypeErrorAt(k) !in query
    requires forall x :: x in query ==> |x.place| == 1 && x.place[0].Key?
    ensures Render("query", query) != Render("query", document)
  {
    var i :| 0 <= i < |document| && document[i] == TypeErrorAt(k);
    if i < |query| {
      assert query[i] in query;
      RenderedKey("query", query[i], k);
      assert Render("query", query)[i] != Render("query", document)[i];
    } else {
      assert |Render("query", query)| <= i < |Render("query", document)|;
    }
  }

  // ---- The code ----

  /** The comma counter. */
  method CountCommas(value: string) returns (count: nat)
    ensures count == Text.Count(value, ',')
  {
    count := 0;
    for i := 0 to |value|
      invariant count == Text.Count(value[..i], ',')
    {
      assert value[..i + 1] == value[..i] + [value[i]];
      Text.CountConcat(value[..i], [value[i]], ',');
      if value[i] == ',' {
        count := count + 1;
      }
    }
    assert value[..|value|] == value;
  }

  method ValidateStringAsFieldFast(value: string, field: Field, err: ErrorBuffer, fieldPath: string,
                                   registry: Registry, fallback: Fallback)
    modifies err
    ensures err.errors == old(err.errors) + Render(fieldPath, Violations(Coerce(value, field, fallback), field, registry))
    decreases field, 1
  {
    Parts(Coerce(value, field, fallback), field, fieldPath, registry);
    hide Render, RenderCodes, Violations, StringCodes, NumberCodes, LengthCodes, KeyViolations, ItemViolations, FloatParser.Number, FloatParser.Parses;
    match field
    case StringField(_, min, max, pattern, enumValues) =>
      ValidateStringFast(value, min, max, pattern, enumValues, err, fieldPath, registry);
    case NumberField(_, min, max, whole) =>
      var n := FloatParser.FastFloatParse(value, fallback);
      FloatParser.ParsesNumber(value, fallback, n);
      if n.Some? {
        ValidateNumberFast(n.value, min, max, whole, err, fieldPath);
      } else {
        err.Push(fieldPath, TypeCode);
      }
    case IntegerField(_, min, max) =>
      var n := FloatParser.FastFloatParse(value, fallback);
      FloatParser.ParsesNumber(value, fallback, n);
      if n.Some? {
        ValidateNumberFast(n.value, min, max, true, err, fieldPath);
      } else {
        err.Push(fieldPath, TypeCode);
      }
    case BooleanField(_) =>
      if !MatchesBoolean(value) {
        err.Push(fieldPath, TypeCode);
      }
    case ObjectField(_, _) =>
      err.Push(fieldPath, TypeCode);
    case ArrayField(_, items, min, max) =>
      var commas := CountCommas(value);
      Text.CountSplit(value, ',');
      ValidateLength((commas + 1) as real, min, max, err, fieldPath);
      if items.Some? {
        ValidateParts(value, field, err, fieldPath, registry, fallback);
      }
  }

  method ValidateParts(value: string, field: Field, err: ErrorBuffer, path: string, registry: Registry, fallback: Fallback)
    requires field.ArrayField? && field.items.Some?
    modifies err
    ensures var v := Coerce(value, field, fallback);
            err.errors == old(err.errors) + Render(path, ItemViolations(v.items, field.items.value, |v.items|, registry))
    decreases field, 0
  {
    hide Render, ItemViolations, Violations, StepText, Coerce;
    ghost var start := err.errors;
    var parts := Text.Split(value, ',');
    PartsCoerced(value, field, fallback);
    ghost var items := Coerce(value, field, fallback).items;
    NothingRendered(path, field.items.value, registry);
    for i := 0 to |parts|
      invariant err.errors == start + Render(path, ItemViolations(items, field.items.value, i, registry))
    {
      var itemPath := path + "[" + FloatParser.Print(i) + "]";
      ItemRendered(start, items, field.items.value, i, registry, path);
      ValidateStringAsFieldFast(Trim(parts[i]), field.items.value, err, itemPath, registry, fallback);
    }
  }

  lemma PartsCoerced(value: string, field: Field, fallback: Fallback)
    requires field.ArrayField? && field.items.Some?
    ensures var v, parts := Coerce(value, field, fallback), Text.Split(value, ',');
            v.Arr? && |v.items| == |parts| &&
            forall i :: 0 <= i < |parts| ==> v.items[i] == Coerce(Trim(parts[i]), field.items.value, fallback)
  {
  }

  lemma QueryRendered(params: map<string, string>, schema: seq<Property>, i: nat, registry: Registry, fallback: Fallback, path: string)
    requires i < |schema|
    ensures var key := schema[i].key;
            Render(path, QueryViolations(params, schema, i + 1, registry, fallback)) ==
            Render(path, QueryViolations(params, schema, i, registry, fallback)) +
            if key !in params then if schema[i].field.required then [ValidationError(path + "." + key, Required)] else []
            else Render(path + "." + key, Violations(Coerce(params[key], schema[i].field, fallback), schema[i].field, registry))
  {
    var key := schema[i].key;
    RenderConcat(path, QueryViolations(params, schema, i, registry, fallback), QueryViolation(params, schema[i], registry, fallback));
    assert path + "." + key == path + StepText(Key(key));
    if key !in params {
      assert PathText(path, [Key(key)]) == PathText(path + StepText(Key(key)), []);
    } else {
      RenderUnder(path, Key(key), Violations(Coerce(params[key], schema[i].field, fallback), schema[i].field, registry));
    }
  }

  method ValidateQueryCompiled(params: map<string, string>, schema: seq<Property>, registry: Registry, fallback: Fallback)
    returns (errors: seq<ValidationError>)
    ensures errors == Render("query", QueryViolations(params, schema, |schema|, registry, fallback))
    ensures Listable(schema) ==>
              (errors == DocumentErrors(CoerceAll(params, schema, fallback), schema, "query", registry) <==>
               ReadAlike(params, schema, fallback))
  {
    var err := new ErrorBuffer();
    QueryStart(params, schema, registry, fallback);
    hide Render, QueryViolations, Violations;
    for i := 0 to |schema|
      invariant err.errors == Render("query", QueryViolations(params, schema, i, registry, fallback))
    {
      var key, field := schema[i].key, schema[i].field;
      var fieldPath := "query" + "." + key;
      QueryRendered(params, schema, i, registry, fallback, "query");
      if key !in params {
        if field.required {
          err.Push(fieldPath, Required);
        }
      } else {
        ValidateStringAsFieldFast(params[key], field, err, fieldPath, registry, fallback);
      }
    }
    if Listable(schema) {
      ErrorsCommute(params, schema, registry, fallback);
    }
    return err.errors;
  }

  lemma QueryStart(params: map<string, string>, schema: seq<Property>, registry: Registry, fallback: Fallback)
    ensures Render("query", QueryViolations(params, schema, 0, registry, fallback)) == []
  {
  }
}
