/** The JSON validator of `src/schema.rs`, and the checks it shares with the query validator. */
module Validator {
  import opened Wrappers
  import opened Schema
  import opened SchemaMeaning
  import FloatParser
  import opened Sequences

  datatype ValidationError = ValidationError(field: string, code: Code)

  /** How a step into a value is written in the path of an error. */
  function StepText(step: Step): string {
    match step
    case Key(k) => "." + k
    case Index(i) => "[" + FloatParser.Print(i) + "]"
  }

  function PathText(path: string, place: seq<Step>): string
    decreases |place|
  {
    if place == [] then path else PathText(path + StepText(place[0]), place[1..])
  }

  /** Violations as errors, for a value at `path`. */
  function Render(path: string, vs: seq<Violation>): seq<ValidationError> {
    seq(|vs|, i requires 0 <= i < |vs| => ValidationError(PathText(path, vs[i].place), vs[i].code))
  }

  function RenderCodes(path: string, codes: seq<Code>): seq<ValidationError> {
    seq(|codes|, i requires 0 <= i < |codes| => ValidationError(path, codes[i]))
  }

  lemma RenderRoot(path: string, codes: seq<Code>)
    ensures Render(path, AtRoot(codes)) == RenderCodes(path, codes)
  {
  }

  lemma RenderConcat(path: string, p: seq<Violation>, q: seq<Violation>)
    ensures Render(path, p + q) == Render(path, p) + Render(path, q)
  {
  }

  lemma RenderUnder(path: string, step: Step, vs: seq<Violation>)
    ensures Render(path, Under(step, vs)) == Render(path + StepText(step), vs)
  {
    forall i | 0 <= i < |vs| ensures PathText(path, [step] + vs[i].place) == PathText(path + StepText(step), vs[i].place) {
      assert ([step] + vs[i].place)[1..] == vs[i].place;
    }
  }

  lemma RenderNext(path: string, codes: seq<Code>, code: Code)
    ensures RenderCodes(path, codes + [code]) == RenderCodes(path, codes) + [ValidationError(path, code)]
    ensures RenderCodes(path, []) == []
  {
  }

  lemma Pushed(start: seq<ValidationError>, path: string, codes: seq<Code>, code: Code)
    ensures start + RenderCodes(path, codes) + [ValidationError(path, code)] == start + RenderCodes(path, codes + [code])
  {
    RenderNext(path, codes, code);
    Associate(start, RenderCodes(path, codes), [ValidationError(path, code)]);
  }

  class ErrorBuffer {
    var errors: seq<ValidationError>

    constructor ()
      ensures errors == []
    {
      errors := [];
    }

    method Push(field: string, code: Code)
      modifies this
      ensures errors == old(errors) + [ValidationError(field, code)]
    {
      errors := errors + [ValidationError(field, code)];
    }
  }

  method ValidateStringFast(value: string, min: Option<real>, max: Option<real>, pattern: Option<Pattern>,
                            enumValues: Option<seq<string>>, err: ErrorBuffer, fieldPath: string, registry: Registry)
    modifies err
    ensures err.errors == old(err.errors) + RenderCodes(fieldPath, StringCodes(value, min, max, pattern, enumValues, registry))
  {
    hide RenderCodes, ByteLength, Matches;
    ghost var start, codes: seq<Code> := err.errors, [];
    RenderNext(fieldPath, [], TypeCode);
    var len := ByteLength(value) as real;
    if min.Some? && len < min.value {
      Pushed(start, fieldPath, codes, MinLength);
      err.Push(fieldPath, MinLength);
      codes := codes + [MinLength];
    }
    assert codes == Note([], Below(len, min), MinLength) && err.errors == start + RenderCodes(fieldPath, codes);
    if max.Some? && len > max.value {
      Pushed(start, fieldPath, codes, MaxLength);
      err.Push(fieldPath, MaxLength);
      codes := codes + [MaxLength];
    }
    ghost var byLength := Note(Note([], Below(len, min), MinLength), Above(len, max), MaxLength);
    assert codes == byLength && err.errors == start + RenderCodes(fieldPath, codes);
    if pattern.Some? && !Matches(pattern.value, value, registry) {
      Pushed(start, fieldPath, codes, PatternCode);
      err.Push(fieldPath, PatternCode);
      codes := codes + [PatternCode];
    }
    assert codes == Note(byLength, pattern.Some? && !Matches(pattern.value, value, registry), PatternCode);
    if enumValues.Some? && value !in enumValues.value {
      Pushed(start, fieldPath, codes, EnumCode);
      err.Push(fieldPath, EnumCode);
      codes := codes + [EnumCode];
    }
  }

  method ValidateNumberFast(value: real, min: Option<real>, max: Option<real>, mustBeInt: bool, err: ErrorBuffer, fieldPath: string)
    modifies err
    ensures err.errors == old(err.errors) + RenderCodes(fieldPath, NumberCodes(value, min, max, mustBeInt))
  {
    hide RenderCodes;
    ghost var start, codes: seq<Code> := err.errors, [];
    RenderNext(fieldPath, [], TypeCode);
    if mustBeInt && value - value.Floor as real != 0.0 {
      Pushed(start, fieldPath, codes, IntegerCode);
      err.Push(fieldPath, IntegerCode);
      codes := codes + [IntegerCode];
    }
    if min.Some? && value < min.value {
      Pushed(start, fieldPath, codes, Min);
      err.Push(fieldPath, Min);
      codes := codes + [Min];
    }
    if max.Some? && value > max.value {
      Pushed(start, fieldPath, codes, Max);
      err.Push(fieldPath, Max);
      codes := codes + [Max];
    }
    assert codes == NumberCodes(value, min, max, mustBeInt);
  }

  /** The bounds on an array's length. */
  method ValidateLength(len: real, min: Option<real>, max: Option<real>, err: ErrorBuffer, fieldPath: string)
    modifies err
    ensures err.errors == old(err.errors) + RenderCodes(fieldPath, LengthCodes(len, min, max))
  {
    hide RenderCodes;
    ghost var start, codes: seq<Code> := err.errors, [];
    RenderNext(fieldPath, [], TypeCode);
    if min.Some? && len < min.value {
      Pushed(start, fieldPath, codes, MinItems);
      err.Push(fieldPath, MinItems);
      codes := codes + [MinItems];
    }
    if max.Some? && len > max.value {
      Pushed(start, fieldPath, codes, MaxItems);
      err.Push(fieldPath, MaxItems);
      codes := codes + [MaxItems];
    }
  }

  // ---- JSON values ----

  method ValidateCompiledField(value: Json, field: Field, err: ErrorBuffer, fieldPath: string, registry: Registry)
    modifies err
    ensures err.errors == old(err.errors) + Render(fieldPath, Violations(value, field, registry))
    decreases field, 1
  {
    Parts(value, field, fieldPath, registry);
    hide Render, RenderCodes, Violations, StringCodes, NumberCodes, LengthCodes, KeyViolations, ItemViolations;
    match field
    case StringField(_, min, max, pattern, enumValues) =>
      if value.Str? {
        ValidateStringFast(value.s, min, max, pattern, enumValues, err, fieldPath, registry);
      } else {
        err.Push(fieldPath, TypeCode);
      }
    case NumberField(_, min, max, whole) =>
      if value.Num? {
        ValidateNumberFast(value.n, min, max, whole, err, fieldPath);
      } else {
        err.Push(fieldPath, TypeCode);
      }
    case IntegerField(_, min, max) =>
      if value.Num? {
        ValidateNumberFast(value.n, min, max, true, err, fieldPath);
      } else {
        err.Push(fieldPath, TypeCode);
      }
    case BooleanField(_) =>
      if !value.Bool? {
        err.Push(fieldPath, TypeCode);
      }
    case ObjectField(_, properties) =>
      if !value.Obj? {
        err.Push(fieldPath, TypeCode);
        return;
      }
      if properties.Listed? {
        ValidateKeys(value.fields, properties.list, err, fieldPath, registry);
      }
    case ArrayField(_, items, min, max) =>
      if value.Arr? {
        ValidateLength(|value.items| as real, min, max, err, fieldPath);
        if items.Some? {
          ValidateItems(value.items, items.value, err, fieldPath, registry);
        }
      } else {
        err.Push(fieldPath, TypeCode);
      }
  }

  /** A value's errors are those of the value itself, then those below. */
  lemma Parts(value: Json, field: Field, path: string, registry: Registry)
    ensures Render(path, Violations(value, field, registry)) ==
            RenderCodes(path, Codes(value, field, registry)) + Render(path, Nested(value, field, registry))
    ensures RenderCodes(path, []) == [] && RenderCodes(path, [TypeCode]) == [ValidationError(path, TypeCode)] && Render(path, []) == []
  {
    RenderRoot(path, Codes(value, field, registry));
    RenderConcat(path, AtRoot(Codes(value, field, registry)), Nested(value, field, registry));
  }

  method ValidateItems(items: seq<Json>, field: Field, err: ErrorBuffer, path: string, registry: Registry)
    modifies err
    ensures err.errors == old(err.errors) + Render(path, ItemViolations(items, field, |items|, registry))
    decreases field, 2
  {
    hide Render, ItemViolations, Violations, StepText;
    ghost var start := err.errors;
    NothingRendered(path, field, registry);
    for i := 0 to |items|
      invariant err.errors == start + Render(path, ItemViolations(items, field, i, registry))
    {
      var itemPath := path + "[" + FloatParser.Print(i) + "]";
      ItemRendered(start, items, field, i, registry, path);
      ValidateCompiledField(items[i], field, err, itemPath, registry);
    }
  }

  lemma NothingRendered(path: string, f: Field, registry: Registry)
    ensures Render(path, []) == []
    ensures forall items {:trigger ItemViolations(items, f, 0, registry)} :: ItemViolations(items, f, 0, registry) == []
    ensures forall fields, props {:trigger KeyViolations(fields, props, 0, registry)} :: KeyViolations(fields, props, 0, registry) == []
  {
  }

  /** One item more, behind what was there. */
  lemma ItemRendered(start: seq<ValidationError>, items: seq<Json>, f: Field, i: nat, registry: Registry, path: string)
    requires i < |items|
    ensures start + Render(path, ItemViolations(items, f, i + 1, registry)) ==
            start + Render(path, ItemViolations(items, f, i, registry)) +
            Render(path + "[" + FloatParser.Print(i) + "]", Violations(items[i], f, registry))
  {
    var done, more := ItemViolations(items, f, i, registry), Violations(items[i], f, registry);
    RenderConcat(path, done, Under(Index(i), more));
    RenderUnder(path, Index(i), more);
    assert path + "[" + FloatParser.Print(i) + "]" == path + StepText(Index(i));
    Associate(start, Render(path, done), Render(path + StepText(Index(i)), more));
  }

  lemma KeyRendered(fields: map<string, Json>, props: seq<Property>, i: nat, registry: Registry, path: string)
    requires i < |props|
    ensures var key := props[i].key;
            && path + "." + key == path + StepText(Key(key))
            && Render(path, KeyViolations(fields, props, i + 1, registry)) ==
               Render(path, KeyViolations(fields, props, i, registry)) +
               if Absent(fields, key) then if props[i].field.required then [ValidationError(path + "." + key, Required)] else []
               else Render(path + "." + key, Violations(fields[key], props[i].field, registry))
  {
    var key := props[i].key;
    RenderConcat(path, KeyViolations(fields, props, i, registry), KeyViolation(fields, props[i], registry));
    if Absent(fields, key) {
      assert PathText(path, [Key(key)]) == PathText(path + StepText(Key(key)), []);
    } else {
      RenderUnder(path, Key(key), Violations(fields[key], props[i].field, registry));
    }
  }

  /** The loop over the properties of an object, which the top level shares. */
  method ValidateKeys(fields: map<string, Json>, props: seq<Property>, err: ErrorBuffer, path: string, registry: Registry)
    modifies err
    ensures err.errors == old(err.errors) + Render(path, KeyViolations(fields, props, |props|, registry))
    decreases props, 0
  {
    ghost var start := err.errors;
    NothingRendered(path, BooleanField(false), registry);
    hide Render, KeyViolations, Violations, StepText;
    for i := 0 to |props|
      invariant err.errors == start + Render(path, KeyViolations(fields, props, i, registry))
    {
      var key, field := props[i].key, props[i].field;
      var childPath := path + "." + key;
      KeyRendered(fields, props, i, registry, path);
      ghost var done := Render(path, KeyViolations(fields, props, i, registry));
      if key !in fields || fields[key].Null? {
        if field.required {
          Associate(start, done, [ValidationError(childPath, Required)]);
          err.Push(childPath, Required);
        }
      } else {
        Associate(start, done, Render(childPath, Violations(fields[key], field, registry)));
        ValidateCompiledField(fields[key], field, err, childPath, registry);
      }
    }
  }

  /** A value that is not an object has no key. */
  function FieldsOf(value: Json): map<string, Json> {
    if value.Obj? then value.fields else map[]
  }

  /** The errors of a whole document: those of every property in schema order, none shadowing another. */
  function DocumentErrors(value: Json, schema: seq<Property>, prefix: string, registry: Registry): seq<ValidationError> {
    Render(prefix, KeyViolations(FieldsOf(value), schema, |schema|, registry))
  }

  /** A document passes exactly when every property conforms: present and conforming, or absent and not required. */
  lemma DocumentVerdict(value: Json, schema: seq<Property>, prefix: string, registry: Registry)
    ensures DocumentErrors(value, schema, prefix, registry) == [] <==> ConformsKeys(FieldsOf(value), schema, registry)
  {
    EmptyKeys(FieldsOf(value), schema, |schema|, registry);
    assert |DocumentErrors(value, schema, prefix, registry)| == |KeyViolations(FieldsOf(value), schema, |schema|, registry)|;
  }

  method ValidateJsonCompiled(value: Json, schema: seq<Property>, prefix: string, registry: Registry) returns (errors: seq<ValidationError>)
    ensures errors == DocumentErrors(value, schema, prefix, registry)
  {
    var err := new ErrorBuffer();
    ValidateKeys(FieldsOf(value), schema, err, prefix, registry);
    return err.errors;
  }
}
