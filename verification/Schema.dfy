/** Compiled schemas and what they demand of a value: `src/schema.rs`. */
module Schema {
  import opened Wrappers
  import FloatParser

  datatype Json = Null | Bool(b: bool) | Num(n: real) | Str(s: string) | Arr(items: seq<Json>) | Obj(fields: map<string, Json>)

  datatype Pattern = Email | Url | Uuid | Alpha | Alphanumeric | Numeric | Custom(name: string)

  /** Custom patterns by name, each as the predicate its regular expression decides; no registry is an empty one. */
  type Registry = map<string, string -> bool>

  datatype Property = Property(key: string, field: Field)

  /** The properties of an object, when the schema lists any. */
  datatype Properties = Unlisted | Listed(list: seq<Property>)

  /** A compiled field. */
  datatype Field =
    | StringField(required: bool, min: Option<real>, max: Option<real>, pattern: Option<Pattern>, enumValues: Option<seq<string>>)
    | NumberField(required: bool, min: Option<real>, max: Option<real>, whole: bool)
    | IntegerField(required: bool, min: Option<real>, max: Option<real>)
    | BooleanField(required: bool)
    | ObjectField(required: bool, properties: Properties)
    | ArrayField(required: bool, items: Option<Field>, min: Option<real>, max: Option<real>)

  /** The error codes `min_length`, `max_length`, `pattern`, `enum`, `integer`, `min`, `max`, `type`, `min_items`,
      `max_items` and `required`. */
  datatype Code = MinLength | MaxLength | PatternCode | EnumCode | IntegerCode | Min | Max | TypeCode | MinItems | MaxItems | Required

  // ---- Texts and numbers ----

  /** Length in UTF-8. */
  function ByteLength(s: string): nat {
    if s == [] then 0 else
      (if s[0] as int < 0x80 then 1 else if s[0] as int < 0x800 then 2 else if s[0] as int < 0x1_0000 then 3 else 4) + ByteLength(s[1..])
  }

  predicate IsAlpha(c: char) {
    'a' <= c <= 'z' || 'A' <= c <= 'Z'
  }

  predicate Matches(p: Pattern, s: string, registry: Registry) {
    match p
    case Email => ByteLength(s) >= 5 && '@' in s && '.' in s
    case Url => "http://" <= s || "https://" <= s
    case Uuid =>
      |s| == 36 && forall i :: 0 <= i < |s| ==>
        FloatParser.IsDigit(s[i]) || 'a' <= s[i] <= 'f' || 'A' <= s[i] <= 'F' || ((i == 8 || i == 13 || i == 18 || i == 23) && s[i] == '-')
    case Alpha => forall c :: c in s ==> IsAlpha(c)
    case Alphanumeric => forall c :: c in s ==> IsAlpha(c) || FloatParser.IsDigit(c)
    case Numeric => forall c :: c in s ==> FloatParser.IsDigit(c)
    case Custom(name) => name in registry && registry[name](s)
  }

  predicate IsInteger(n: real) {
    n == n.Floor as real
  }

  predicate Below(n: real, bound: Option<real>) {
    bound.Some? && n < bound.value
  }

  predicate Above(n: real, bound: Option<real>) {
    bound.Some? && n > bound.value
  }

  // ---- What a schema demands ----

  /** The value breaks the constraint of `code` that its own field states. */
  predicate Breaks(v: Json, f: Field, registry: Registry, code: Code) {
    match code
    case MinLength => f.StringField? && v.Str? && f.min.Some? && ByteLength(v.s) as real < f.min.value
    case MaxLength => f.StringField? && v.Str? && f.max.Some? && ByteLength(v.s) as real > f.max.value
    case PatternCode => f.StringField? && v.Str? && f.pattern.Some? && !Matches(f.pattern.value, v.s, registry)
    case EnumCode => f.StringField? && v.Str? && f.enumValues.Some? && v.s !in f.enumValues.value
    case IntegerCode => ((f.NumberField? && f.whole) || f.IntegerField?) && v.Num? && !IsInteger(v.n)
    case Min => (f.NumberField? || f.IntegerField?) && v.Num? && f.min.Some? && v.n < f.min.value
    case Max => (f.NumberField? || f.IntegerField?) && v.Num? && f.max.Some? && v.n > f.max.value
    case TypeCode => !HasType(v, f)
    case MinItems => f.ArrayField? && v.Arr? && f.min.Some? && |v.items| as real < f.min.value
    case MaxItems => f.ArrayField? && v.Arr? && f.max.Some? && |v.items| as real > f.max.value
    case Required => false
  }

  predicate HasType(v: Json, f: Field) {
    match f
    case StringField(_, _, _, _, _) => v.Str?
    case NumberField(_, _, _, _) => v.Num?
    case IntegerField(_, _, _) => v.Num?
    case BooleanField(_) => v.Bool?
    case ObjectField(_, _) => v.Obj?
    case ArrayField(_, _, _, _) => v.Arr?
  }

  /** Missing keys and null count alike. */
  predicate Absent(fields: map<string, Json>, key: string) {
    key !in fields || fields[key].Null?
  }

  /** One step into a value. */
  datatype Step = Key(key: string) | Index(index: nat)

  /** A constraint broken at a place below a value. */
  datatype Violation = Violation(place: seq<Step>, code: Code)

  /** Following `place` down the value and the field at once leads to a broken constraint, or to a required key that is
      missing. */
  ghost predicate Violated(v: Json, f: Field, registry: Registry, place: seq<Step>, code: Code)
    decreases f, 1
  {
    if place == [] then Breaks(v, f, registry, code)
    else match place[0]
      case Key(k) =>
        f.ObjectField? && f.properties.Listed? && v.Obj? && ViolatedKey(v.fields, f.properties.list, registry, place, code)
      case Index(i) =>
        f.ArrayField? && f.items.Some? && v.Arr? && i < |v.items| && Violated(v.items[i], f.items.value, registry, place[1..], code)
  }

  ghost predicate ViolatedKey(fields: map<string, Json>, props: seq<Property>, registry: Registry, place: seq<Step>, code: Code)
    requires place != [] && place[0].Key?
    decreases props, 0
  {
    exists j :: 0 <= j < |props| && props[j].key == place[0].key &&
      if props[j].key !in fields || fields[props[j].key] == Null then props[j].field.required && place[1..] == [] && code == Required
      else Violated(fields[props[j].key], props[j].field, registry, place[1..], code)
  }

  /** The value meets its schema. */
  ghost predicate Conforms(v: Json, f: Field, registry: Registry)
    decreases f, 1
  {
    && (forall code :: !Breaks(v, f, registry, code))
    && (f.ObjectField? && f.properties.Listed? && v.Obj? ==> ConformsKeys(v.fields, f.properties.list, registry))
    && (f.ArrayField? && f.items.Some? && v.Arr? ==> forall i :: 0 <= i < |v.items| ==> Conforms(v.items[i], f.items.value, registry))
  }

  ghost predicate ConformsKeys(fields: map<string, Json>, props: seq<Property>, registry: Registry)
    decreases props, 0
  {
    forall j :: 0 <= j < |props| ==>
      if props[j].key !in fields || fields[props[j].key] == Null then !props[j].field.required
      else Conforms(fields[props[j].key], props[j].field, registry)
  }

  // ---- The violations in the order the schema states them ----

  function Codes(v: Json, f: Field, registry: Registry): seq<Code> {
    if !HasType(v, f) then [TypeCode]
    else match f
      case StringField(_, min, max, pattern, enumValues) => StringCodes(v.s, min, max, pattern, enumValues, registry)
      case NumberField(_, min, max, whole) => NumberCodes(v.n, min, max, whole)
      case IntegerField(_, min, max) => NumberCodes(v.n, min, max, true)
      case BooleanField(_) => []
      case ObjectField(_, _) => []
      case ArrayField(_, _, min, max) => LengthCodes(|v.items| as real, min, max)
  }

  function StringCodes(s: string, min: Option<real>, max: Option<real>, pattern: Option<Pattern>,
                       enumValues: Option<seq<string>>, registry: Registry): seq<Code> {
    var byLength := Note(Note([], Below(ByteLength(s) as real, min), MinLength), Above(ByteLength(s) as real, max), MaxLength);
    var byPattern := Note(byLength, pattern.Some? && !Matches(pattern.value, s, registry), PatternCode);
    Note(byPattern, enumValues.Some? && s !in enumValues.value, EnumCode)
  }

  function NumberCodes(n: real, min: Option<real>, max: Option<real>, mustBeInt: bool): seq<Code> {
    Note(Note(Note([], mustBeInt && !IsInteger(n), IntegerCode), Below(n, min), Min), Above(n, max), Max)
  }

  function LengthCodes(length: real, min: Option<real>, max: Option<real>): seq<Code> {
    Note(Note([], Below(length, min), MinItems), Above(length, max), MaxItems)
  }

  /** One more code, if its constraint is broken. */
  function Note(codes: seq<Code>, broken: bool, code: Code): seq<Code> {
    if broken then codes + [code] else codes
  }

  function AtRoot(codes: seq<Code>): seq<Violation> {
    seq(|codes|, i requires 0 <= i < |codes| => Violation([], codes[i]))
  }

  function Under(step: Step, vs: seq<Violation>): seq<Violation> {
    seq(|vs|, i requires 0 <= i < |vs| => Violation([step] + vs[i].place, vs[i].code))
  }

  function Violations(v: Json, f: Field, registry: Registry): seq<Violation>
    decreases f, 3
  {
    AtRoot(Codes(v, f, registry)) + Nested(v, f, registry)
  }

  /** Those below the value itself. */
  function Nested(v: Json, f: Field, registry: Registry): seq<Violation>
    decreases f, 2
  {
    if f.ObjectField? && f.properties.Listed? && v.Obj? then KeyViolations(v.fields, f.properties.list, |f.properties.list|, registry)
    else if f.ArrayField? && f.items.Some? && v.Arr? then ItemViolations(v.items, f.items.value, |v.items|, registry)
    else []
  }

  function KeyViolation(fields: map<string, Json>, prop: Property, registry: Registry): seq<Violation>
    decreases prop, 4
  {
    if Absent(fields, prop.key) then if prop.field.required then [Violation([Key(prop.key)], Required)] else []
    else Under(Key(prop.key), Violations(fields[prop.key], prop.field, registry))
  }

  /** Those of the first `n` properties. */
  function KeyViolations(fields: map<string, Json>, props: seq<Property>, n: nat, registry: Registry): seq<Violation>
    requires n <= |props|
    decreases props, 1, n
  {
    if n == 0 then [] else KeyViolations(fields, props, n - 1, registry) + KeyViolation(fields, props[n - 1], registry)
  }

  /** Those of the first `n` items. */
  function ItemViolations(items: seq<Json>, f: Field, n: nat, registry: Registry): seq<Violation>
    requires n <= |items|
    decreases f, 4, n
  {
    if n == 0 then [] else ItemViolations(items, f, n - 1, registry) + Under(Index(n - 1), Violations(items[n - 1], f, registry))
  }
}
