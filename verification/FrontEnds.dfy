/** The two front ends side by side: which definitions builders can spell out, and when they compile to what the JSON front
    end compiles: `src/builders.rs` against `src/schema.rs`. */
module FrontEnds {
  import opened Wrappers
  import opened Schema
  import opened SchemaMeaning
  import opened Compiler
  import opened Query
  import opened Builders
  import opened Sequences
  import Text

  /** What builders can say: every object lists its properties, and no number asks for a whole value. */
  ghost predicate Expressible(def: FieldDef)
    decreases def
  {
    match def
    case NumberDef(_, _, _, whole) => !whole
    case ObjectDef(_, properties) => properties.Defs? && forall k :: k in properties.defs ==> Expressible(properties.defs[k])
    case ArrayDef(_, items, _, _) => items.Some? ==> Expressible(items.value)
    case _ => true
  }

  /** Every pattern the definition names is built in or registered. */
  ghost predicate Known(def: FieldDef, registry: Registry)
    decreases def
  {
    match def
    case StringDef(_, _, _, pattern, _) => pattern.Some? ==> BuiltIn(pattern.value).Some? || pattern.value in registry
    case ObjectDef(_, properties) =>
      properties.Defs? ==> forall k :: k in properties.defs ==> Known(properties.defs[k], registry)
    case ArrayDef(_, items, _, _) => items.Some? ==> Known(items.value, registry)
    case _ => true
  }

  // ---- Spelling out a definition ----

  /** The calls say what the definition says. */
  ghost predicate Spells(script: Script, def: FieldDef)
    decreases script
  {
    match script
    case StringScript(calls) =>
      var d := SpelledString(calls);
      def == StringDef(d.0.required, d.0.min, d.0.max, d.1, d.2)
    case NumberScript(calls) =>
      var d := SpelledNumber(calls);
      def == if d.1 then IntegerDef(d.0.required, d.0.min, d.0.max) else NumberDef(d.0.required, d.0.min, d.0.max, false)
    case BooleanScript(calls) => def == BooleanDef(calls != [])
    case ObjectScript(calls) =>
      def.ObjectDef? && def.required == SpelledRequired(calls) && def.properties.Defs? && SpellsEntries(calls, def.properties.defs)
    case ArrayScript(calls) =>
      var d := SpelledArray(calls);
      def.ArrayDef? && def == ArrayDef(d.required, def.items, d.min, d.max) && SpellsItems(calls, def.items)
  }

  /** Each property is added once, in any order. */
  ghost predicate SpellsEntries(calls: seq<ObjectCall>, defs: map<string, FieldDef>)
    decreases calls
  {
    if calls == [] then defs == map[]
    else
      var front, c := calls[..|calls| - 1], calls[|calls| - 1];
      assert calls decreases to c;
      if c.ObjectRequired? then SpellsEntries(front, defs)
      else c.key in defs && Spells(c.script, defs[c.key]) && SpellsEntries(front, defs - {c.key})
  }

  ghost predicate SpellsItems(calls: seq<ArrayCall>, items: Option<FieldDef>)
    decreases calls
  {
    if calls == [] then items == None
    else
      var c := calls[|calls| - 1];
      assert calls decreases to c;
      if c.Of? then items.Some? && Spells(c.script, items.value) else SpellsItems(calls[..|calls| - 1], items)
  }

  /** What builders make of a definition they can spell out. */
  ghost function Built(def: FieldDef): Field
    requires Expressible(def)
    decreases def, 1
  {
    match def
    case StringDef(required, min, max, pattern, enumValues) =>
      StringField(required, min, max, if pattern.Some? then Some(CompilePatternName(pattern.value)) else None, enumValues)
    case NumberDef(required, min, max, _) => NumberField(required, min, max, false)
    case IntegerDef(required, min, max) => IntegerField(required, min, max)
    case BooleanDef(required) => BooleanField(required)
    case ObjectDef(required, properties) => ObjectField(required, Listed(Listing(BuiltDefs(properties))))
    case ArrayDef(required, items, min, max) =>
      ArrayField(required, if items.Some? then Some(Built(items.value)) else None, min, max)
  }

  ghost predicate AllExpressible(defs: map<string, FieldDef>) {
    forall k :: k in defs ==> Expressible(defs[k])
  }

  ghost function BuiltDefs(properties: DefMap): map<string, Field>
    requires properties.Defs? && AllExpressible(properties.defs)
    decreases properties, 0
  {
    map k | k in properties.defs :: Built(properties.defs[k])
  }

  // ---- Spelled-out definitions compile in one way ----

  /** Sorting any list of properties is possible. */
  lemma {:induction false} CanArrange(entries: seq<Property>) returns (list: seq<Property>)
    ensures Arranged(entries, list)
  {
    list := [];
    if entries != [] {
      var front := entries[..|entries| - 1];
      var sorted := CanArrange(front);
      list := InsertByKey(sorted, entries[|entries| - 1]);
      assert entries == front + [entries[|entries| - 1]];
    }
  }

  /** Calls that spell out a definition compile to what it is built to, and to nothing else. */
  lemma {:induction false} SpelledMakes(script: Script, def: FieldDef, f: Field)
    requires Spells(script, def)
    ensures Expressible(def) && (Makes(script, f) <==> f == Built(def))
    decreases script
  {
    match script {
      case ObjectScript(calls) => SpelledObject(calls, def, f);
      case ArrayScript(calls) =>
        SpelledItems(calls, def.items, if f.ArrayField? then f.items else None);
      case _ =>
    }
  }

  lemma {:induction false} SpelledItems(calls: seq<ArrayCall>, def: Option<FieldDef>, items: Option<Field>)
    requires SpellsItems(calls, def)
    ensures def.Some? ==> Expressible(def.value)
    ensures MakesItems(calls, items) <==> items == if def.Some? then Some(Built(def.value)) else None
    decreases calls
  {
    if calls != [] {
      var c := calls[|calls| - 1];
      assert calls decreases to c;
      if c.Of? {
        SpelledMakes(c.script, def.value, if items.Some? then items.value else BooleanField(false));
      } else {
        SpelledItems(calls[..|calls| - 1], def, items);
      }
    }
  }

  /** The properties added are the listed ones, in the order of the calls. */
  lemma {:induction false} SpelledEntries(calls: seq<ObjectCall>, defs: map<string, FieldDef>, entries: seq<Property>)
    requires SpellsEntries(calls, defs) && MakesEntries(calls, entries)
    ensures AllExpressible(defs) && Lists(entries, BuiltDefs(Defs(defs)))
    decreases calls, 0
  {
    if calls == [] {
      NothingListed();
      assert BuiltDefs(Defs(defs)) == map[];
    } else {
      var front, c := calls[..|calls| - 1], calls[|calls| - 1];
      assert calls decreases to c;
      if c.ObjectRequired? {
        SpelledEntries(front, defs, entries);
      } else {
        var before := entries[..|entries| - 1];
        SpelledEntries(front, defs - {c.key}, before);
        SpelledMakes(c.script, defs[c.key], entries[|entries| - 1].field);
        ListedWithKey(defs, c.key, before, entries);
      }
    }
  }

  lemma ListedWithKey(defs: map<string, FieldDef>, key: string, before: seq<Property>, entries: seq<Property>)
    requires key in defs && Expressible(defs[key]) && AllExpressible(defs - {key})
    requires Lists(before, BuiltDefs(Defs(defs - {key}))) && entries == before + [Property(key, Built(defs[key]))]
    ensures AllExpressible(defs) && Lists(entries, BuiltDefs(Defs(defs)))
  {
    hide Lists, Expressible, Built;
    assert forall k :: k in defs ==> k == key || k in defs - {key};
    ListsOneMore(before, BuiltDefs(Defs(defs - {key})), key, Built(defs[key]));
    assert BuiltDefs(Defs(defs - {key}))[key := Built(defs[key])] == BuiltDefs(Defs(defs));
  }

  lemma {:induction false} SomeEntries(calls: seq<ObjectCall>) returns (entries: seq<Property>)
    ensures MakesEntries(calls, entries)
    decreases calls
  {
    entries := [];
    if calls != [] {
      var front, c := calls[..|calls| - 1], calls[|calls| - 1];
      assert calls decreases to c;
      entries := SomeEntries(front);
      if c.Add? {
        var f := SomeField(c.script);
        var before := entries;
        entries := entries + [Property(c.key, f)];
        assert entries[..|entries| - 1] == before;
      }
    }
  }

  /** Every sequence of calls compiles. */
  lemma {:induction false} SomeField(script: Script) returns (f: Field)
    ensures Makes(script, f)
    decreases script
  {
    match script {
      case StringScript(calls) => f := StringMade(SpelledString(calls));
      case NumberScript(calls) => f := NumberMade(SpelledNumber(calls));
      case BooleanScript(calls) => f := BooleanField(calls != []);
      case ObjectScript(calls) =>
        var entries := SomeEntries(calls);
        var list := CanArrange(entries);
        f := ObjectField(SpelledRequired(calls), Listed(list));
      case ArrayScript(calls) =>
        var items := SomeItems(calls);
        var d := SpelledArray(calls);
        f := ArrayField(d.required, items, d.min, d.max);
    }
  }

  lemma {:induction false} SomeItems(calls: seq<ArrayCall>) returns (items: Option<Field>)
    ensures MakesItems(calls, items)
    decreases calls
  {
    items := None;
    if calls != [] {
      var c := calls[|calls| - 1];
      assert calls decreases to c;
      if c.Of? {
        var f := SomeField(c.script);
        items := Some(f);
      } else {
        items := SomeItems(calls[..|calls| - 1]);
      }
    }
  }

  lemma {:induction false} SpelledObject(calls: seq<ObjectCall>, def: FieldDef, f: Field)
    requires Spells(ObjectScript(calls), def)
    ensures Expressible(def) && (Makes(ObjectScript(calls), f) <==> f == Built(def))
    decreases calls, 1
  {
    var defs := def.properties.defs;
    var entries := SomeEntries(calls);
    SpelledEntries(calls, defs, entries);
    assert def.properties == Defs(defs);
    hide MakesEntries, Lists;
    var list := CanArrange(entries);
    OrderDoesNotMatter(entries, list, BuiltDefs(Defs(defs)));
    assert Makes(ObjectScript(calls), Built(def));
    if Makes(ObjectScript(calls), f) {
      var others: seq<Property> :| MakesEntries(calls, others) && Arranged(others, f.properties.list);
      SpelledEntries(calls, defs, others);
      OrderDoesNotMatter(others, f.properties.list, BuiltDefs(Defs(defs)));
    }
  }

  // ---- What can be spelled out ----

  lemma SettingsOfString(d: FieldDef) returns (calls: seq<StringCall>)
    requires d.StringDef?
    ensures SpelledString(calls) == (Settings(d.required, d.min, d.max), d.pattern, d.enumValues)
  {
    calls := [];
    if d.required { calls := StringSnoc(calls, StringRequired); }
    if d.min.Some? { calls := StringSnoc(calls, StringMin(d.min.value)); }
    if d.max.Some? { calls := StringSnoc(calls, StringMax(d.max.value)); }
    if d.pattern.Some? { calls := StringSnoc(calls, StringPattern(d.pattern.value)); }
    if d.enumValues.Some? { calls := StringSnoc(calls, StringEnum(d.enumValues.value)); }
  }

  lemma StringSnoc(calls: seq<StringCall>, c: StringCall) returns (r: seq<StringCall>)
    ensures SpelledString(r) == AfterString(SpelledString(calls), c)
  {
    r := calls + [c];
    assert r[..|r| - 1] == calls;
  }

  lemma SettingsOfNumber(settings: Settings, whole: bool) returns (calls: seq<NumberCall>)
    ensures SpelledNumber(calls) == (settings, whole)
  {
    calls := [];
    if settings.required { calls := NumberSnoc(calls, NumberRequired); }
    if settings.min.Some? { calls := NumberSnoc(calls, NumberMin(settings.min.value)); }
    if settings.max.Some? { calls := NumberSnoc(calls, NumberMax(settings.max.value)); }
    if whole { calls := NumberSnoc(calls, NumberInteger); }
  }

  lemma NumberSnoc(calls: seq<NumberCall>, c: NumberCall) returns (r: seq<NumberCall>)
    ensures SpelledNumber(r) == AfterNumber(SpelledNumber(calls), c)
  {
    r := calls + [c];
    assert r[..|r| - 1] == calls;
  }

  lemma SettingsOfArray(settings: Settings, items: Option<FieldDef>, script: Script) returns (calls: seq<ArrayCall>)
    requires items.Some? ==> Spells(script, items.value)
    ensures SpelledArray(calls) == settings && SpellsItems(calls, items)
  {
    calls := [];
    if items.Some? {
      calls := [Of(script)];
      assert calls[..0] == [];
    }
    if settings.required { calls := ArraySnoc(calls, ArrayRequired, items); }
    if settings.min.Some? { calls := ArraySnoc(calls, ArrayMin(settings.min.value), items); }
    if settings.max.Some? { calls := ArraySnoc(calls, ArrayMax(settings.max.value), items); }
  }

  lemma ArraySnoc(calls: seq<ArrayCall>, c: ArrayCall, items: Option<FieldDef>) returns (r: seq<ArrayCall>)
    requires !c.Of? && SpellsItems(calls, items)
    ensures SpelledArray(r) == AfterArray(SpelledArray(calls), c) && SpellsItems(r, items)
  {
    r := calls + [c];
    assert r[..|r| - 1] == calls;
  }

  /** Every expressible definition is spelled out by some calls. */
  lemma {:induction false} ExpressibleIsSpelled(def: FieldDef) returns (script: Script)
    requires Expressible(def)
    ensures Spells(script, def)
    decreases def, 1
  {
    match def {
      case StringDef(_, _, _, _, _) =>
        var calls := SettingsOfString(def);
        script := StringScript(calls);
      case NumberDef(required, min, max, _) =>
        var calls := SettingsOfNumber(Settings(required, min, max), false);
        script := NumberScript(calls);
      case IntegerDef(required, min, max) =>
        var calls := SettingsOfNumber(Settings(required, min, max), true);
        script := NumberScript(calls);
      case BooleanDef(required) => script := BooleanScript(if required then [BooleanRequired] else []);
      case ObjectDef(required, properties) =>
        var calls := KeysSpelled(properties, properties.defs.Keys);
        assert (map k | k in properties.defs.Keys :: properties.defs[k]) == properties.defs;
        if required {
          script := ObjectScript(calls + [ObjectRequired]);
          assert (calls + [ObjectRequired])[..|calls|] == calls;
        } else {
          script := ObjectScript(calls);
        }
      case ArrayDef(required, items, min, max) =>
        var item := BooleanScript([]);
        if items.Some? {
          item := ExpressibleIsSpelled(items.value);
        }
        var calls := SettingsOfArray(Settings(required, min, max), items, item);
        script := ArrayScript(calls);
    }
  }

  lemma {:induction false} KeysSpelled(properties: DefMap, keys: set<string>) returns (calls: seq<ObjectCall>)
    requires properties.Defs? && AllExpressible(properties.defs) && keys <= properties.defs.Keys
    ensures SpellsEntries(calls, map k | k in keys :: properties.defs[k])
    ensures forall c :: c in calls ==> c.Add? && c.key in keys && Spells(c.script, properties.defs[c.key])
    decreases properties, 0, |keys|
  {
    calls := [];
    if keys != {} {
      var key :| key in keys;
      var front := KeysSpelled(properties, keys - {key});
      var script := ExpressibleIsSpelled(properties.defs[key]);
      calls := front + [Add(key, script)];
      assert calls[..|calls| - 1] == front;
      var defs := map k | k in keys :: properties.defs[k];
      assert defs - {key} == map k | k in keys - {key} :: properties.defs[k];
    }
  }

  // ---- When the front ends agree ----

  lemma MapsAgree(properties: DefMap, registry: Registry)
    requires properties.Defs? && AllExpressible(properties.defs)
    ensures Listing(BuiltDefs(properties)) == Listing(CompileDefs(properties, registry)) <==>
            forall k :: k in properties.defs ==> Built(properties.defs[k]) == Compile(properties.defs[k], registry)
  {
    var built, compiled := BuiltDefs(properties), CompileDefs(properties, registry);
    if Listing(built) == Listing(compiled) {
      ListingInjective(built, compiled);
    }
    hide Built, Compile, Listing;
    assert built == compiled <==> forall k :: k in properties.defs ==> built[k] == compiled[k];
  }

  lemma {:induction false} BuiltIsCompiled(def: FieldDef, registry: Registry)
    requires Expressible(def)
    ensures Built(def) == Compile(def, registry) <==> Known(def, registry)
    decreases def
  {
    match def {
      case ObjectDef(_, properties) =>
        forall k | k in properties.defs
          ensures Built(properties.defs[k]) == Compile(properties.defs[k], registry) <==> Known(properties.defs[k], registry)
        {
          BuiltIsCompiled(properties.defs[k], registry);
        }
        MapsAgree(properties, registry);
      case ArrayDef(_, items, _, _) =>
        if items.Some? {
          BuiltIsCompiled(items.value, registry);
        }
      case _ =>
    }
  }

  /** Some calls spell out a definition and compile to what the JSON front end makes of it, exactly when builders can express
      it and every pattern it names is built in or registered. */
  lemma FrontEndsAgree(def: FieldDef, registry: Registry)
    ensures (exists script :: Spells(script, def) && Makes(script, Compile(def, registry))) <==>
            Expressible(def) && Known(def, registry)
  {
    if script :| Spells(script, def) && Makes(script, Compile(def, registry)) {
      SpelledMakes(script, def, Compile(def, registry));
      BuiltIsCompiled(def, registry);
    }
    if Expressible(def) && Known(def, registry) {
      var script := ExpressibleIsSpelled(def);
      SpelledMakes(script, def, Compile(def, registry));
      BuiltIsCompiled(def, registry);
    }
  }

  // ---- What any calls at all can compile to ----

  /** No object without a list of properties, no number that must be whole. */
  ghost predicate Makeable(f: Field)
    decreases f
  {
    match f
    case NumberField(_, _, _, whole) => !whole
    case ObjectField(_, properties) => properties.Listed? && forall j :: 0 <= j < |properties.list| ==> Makeable(properties.list[j].field)
    case ArrayField(_, items, _, _) => items.Some? ==> Makeable(items.value)
    case _ => true
  }

  lemma {:induction false} MadeIsMakeable(script: Script, f: Field)
    requires Makes(script, f)
    ensures Makeable(f)
    decreases script
  {
    match script {
      case ObjectScript(calls) =>
        var entries: seq<Property> :| MakesEntries(calls, entries) && Arranged(entries, f.properties.list);
        EntriesAreMakeable(calls, entries);
        forall j | 0 <= j < |f.properties.list| ensures Makeable(f.properties.list[j].field) {
          assert f.properties.list[j] in multiset(f.properties.list);
          assert f.properties.list[j] in entries;
        }
      case ArrayScript(calls) => ItemsAreMakeable(calls, f.items);
      case _ =>
    }
  }

  lemma {:induction false} EntriesAreMakeable(calls: seq<ObjectCall>, entries: seq<Property>)
    requires MakesEntries(calls, entries)
    ensures forall p :: p in entries ==> Makeable(p.field)
    decreases calls
  {
    if calls != [] {
      var front, c := calls[..|calls| - 1], calls[|calls| - 1];
      assert calls decreases to c;
      if c.ObjectRequired? {
        EntriesAreMakeable(front, entries);
      } else {
        EntriesAreMakeable(front, entries[..|entries| - 1]);
        MadeIsMakeable(c.script, entries[|entries| - 1].field);
        assert entries == entries[..|entries| - 1] + [entries[|entries| - 1]];
      }
    }
  }

  lemma {:induction false} ItemsAreMakeable(calls: seq<ArrayCall>, items: Option<Field>)
    requires MakesItems(calls, items)
    ensures items.Some? ==> Makeable(items.value)
    decreases calls
  {
    if calls != [] {
      var c := calls[|calls| - 1];
      assert calls decreases to c;
      if c.Of? {
        MadeIsMakeable(c.script, items.value);
      } else {
        ItemsAreMakeable(calls[..|calls| - 1], items);
      }
    }
  }

  lemma {:induction false} MakeableIsExpressible(def: FieldDef, registry: Registry)
    requires Makeable(Compile(def, registry))
    ensures Expressible(def)
    decreases def
  {
    match def {
      case ObjectDef(_, properties) =>
        var fields := CompileDefs(properties, registry);
        var list := Listing(fields);
        forall k | k in properties.defs ensures Expressible(properties.defs[k]) {
          ListedKey(fields, k);
          var j :| 0 <= j < |list| && list[j].key == k;
          assert Makeable(list[j].field);
          MakeableIsExpressible(properties.defs[k], registry);
        }
      case ArrayDef(_, items, _, _) =>
        if items.Some? {
          MakeableIsExpressible(items.value, registry);
        }
      case _ =>
    }
  }

  /** A definition in the words of builders: unknown patterns dropped, whole numbers as integers, an object without a list
      of properties as one that lists none. */
  ghost function Respelled(def: FieldDef, registry: Registry): FieldDef
    decreases def
  {
    match def
    case StringDef(required, min, max, pattern, enumValues) =>
      StringDef(required, min, max,
                if pattern.Some? && CompilePattern(pattern.value, registry).None? then None else pattern, enumValues)
    case NumberDef(required, min, max, whole) => if whole then IntegerDef(required, min, max) else def
    case ObjectDef(required, properties) =>
      ObjectDef(required, Defs(if properties.Defs? then map k | k in properties.defs :: Respelled(properties.defs[k], registry) else map[]))
    case ArrayDef(required, items, min, max) =>
      ArrayDef(required, if items.Some? then Some(Respelled(items.value, registry)) else None, min, max)
    case _ => def
  }

  lemma {:induction false} RespelledFits(def: FieldDef, registry: Registry)
    ensures Expressible(Respelled(def, registry)) && Known(Respelled(def, registry), registry)
    decreases def
  {
    match def {
      case ObjectDef(_, properties) =>
        if properties.Defs? {
          forall k | k in properties.defs
            ensures Expressible(Respelled(properties.defs[k], registry)) && Known(Respelled(properties.defs[k], registry), registry)
          {
            RespelledFits(properties.defs[k], registry);
          }
        }
      case ArrayDef(_, items, _, _) =>
        if items.Some? {
          RespelledFits(items.value, registry);
        }
      case _ =>
    }
  }

  lemma {:induction false} RespelledCompiles(def: FieldDef, registry: Registry)
    requires Expressible(def)
    ensures Compile(Respelled(def, registry), registry) == Compile(def, registry)
    decreases def
  {
    match def {
      case ObjectDef(_, properties) =>
        var defs' := map k | k in properties.defs :: Respelled(properties.defs[k], registry);
        forall k | k in properties.defs
          ensures Compile(Respelled(properties.defs[k], registry), registry) == Compile(properties.defs[k], registry)
        {
          RespelledCompiles(properties.defs[k], registry);
        }
        assert CompileDefs(Defs(defs'), registry) == CompileDefs(properties, registry);
      case ArrayDef(_, items, _, _) =>
        if items.Some? {
          RespelledCompiles(items.value, registry);
        }
      case _ =>
    }
  }

  /** Some calls, whatever they say, compile to what the JSON front end makes of a definition exactly when builders can
      express it: an unknown pattern, which that front end drops, can be left unsaid. */
  lemma ExpressedExactly(def: FieldDef, registry: Registry)
    ensures (exists script :: Makes(script, Compile(def, registry))) <==> Expressible(def)
  {
    if script :| Makes(script, Compile(def, registry)) {
      MadeIsMakeable(script, Compile(def, registry));
      MakeableIsExpressible(def, registry);
    }
    if Expressible(def) {
      RespelledFits(def, registry);
      RespelledCompiles(def, registry);
      FrontEndsAgree(Respelled(def, registry), registry);
    }
  }

  // ---- What builders cannot say, they can say otherwise ----

  /** No JSON value and no query text tells the fields apart. */
  ghost predicate SameMeaning(f: Field, g: Field) {
    && f.required == g.required
    && (forall v, registry :: Violations(v, f, registry) == Violations(v, g, registry))
    && (forall s, fallback :: Coerce(s, f, fallback) == Coerce(s, g, fallback))
  }

  /** Lists of the same keys, the fields meaning the same. */
  ghost predicate SameList(p: seq<Property>, q: seq<Property>) {
    |p| == |q| && forall j :: 0 <= j < |p| ==> p[j].key == q[j].key && SameMeaning(p[j].field, q[j].field)
  }

  lemma {:induction false} SameKeyViolations(fields: map<string, Json>, p: seq<Property>, q: seq<Property>, n: nat, registry: Registry)
    requires SameList(p, q) && n <= |p|
    ensures KeyViolations(fields, p, n, registry) == KeyViolations(fields, q, n, registry)
  {
    hide Violations, Coerce;
    if n > 0 {
      SameKeyViolations(fields, p, q, n - 1, registry);
      var f, g, key := p[n - 1].field, q[n - 1].field, p[n - 1].key;
      assert SameMeaning(f, g);
      if !Absent(fields, key) {
        assert Violations(fields[key], f, registry) == Violations(fields[key], g, registry);
      }
    }
  }

  lemma {:induction false} SameItemViolations(items: seq<Json>, f: Field, g: Field, n: nat, registry: Registry)
    requires SameMeaning(f, g) && n <= |items|
    ensures ItemViolations(items, f, n, registry) == ItemViolations(items, g, n, registry)
  {
    hide Violations, Coerce;
    if n > 0 {
      SameItemViolations(items, f, g, n - 1, registry);
    }
  }

  lemma SameNumber(required: bool, min: Option<real>, max: Option<real>)
    ensures SameMeaning(IntegerField(required, min, max), NumberField(required, min, max, true))
  {
    var f, g := IntegerField(required, min, max), NumberField(required, min, max, true);
    forall v, registry ensures Violations(v, f, registry) == Violations(v, g, registry) {
      assert Codes(v, f, registry) == Codes(v, g, registry);
    }
  }

  lemma SameObject(required: bool, p: Properties, q: Properties)
    requires SameList(if p.Listed? then p.list else [], if q.Listed? then q.list else [])
    ensures SameMeaning(ObjectField(required, p), ObjectField(required, q))
  {
    var f, g := ObjectField(required, p), ObjectField(required, q);
    var ps, qs := if p.Listed? then p.list else [], if q.Listed? then q.list else [];
    forall v, registry ensures Violations(v, f, registry) == Violations(v, g, registry) {
      assert Codes(v, f, registry) == Codes(v, g, registry);
      if v.Obj? {
        SameKeyViolations(v.fields, ps, qs, |ps|, registry);
        assert Nested(v, f, registry) == KeyViolations(v.fields, ps, |ps|, registry);
        assert Nested(v, g, registry) == KeyViolations(v.fields, qs, |qs|, registry);
      }
    }
  }

  lemma SameArray(required: bool, f: Field, g: Field, min: Option<real>, max: Option<real>)
    requires SameMeaning(f, g)
    ensures SameMeaning(ArrayField(required, Some(f), min, max), ArrayField(required, Some(g), min, max))
  {
    var af, ag := ArrayField(required, Some(f), min, max), ArrayField(required, Some(g), min, max);
    forall v, registry ensures Violations(v, af, registry) == Violations(v, ag, registry) {
      assert Codes(v, af, registry) == Codes(v, ag, registry);
      if v.Arr? {
        SameItemViolations(v.items, f, g, |v.items|, registry);
      }
    }
    forall s, fallback ensures Coerce(s, af, fallback) == Coerce(s, ag, fallback) {
      var parts := Text.Split(s, ',');
      forall i | 0 <= i < |parts| ensures Coerce(Trim(parts[i]), f, fallback) == Coerce(Trim(parts[i]), g, fallback) {}
      assert Coerce(s, af, fallback).items == Coerce(s, ag, fallback).items;
    }
  }

  lemma SameMap(p: map<string, Field>, q: map<string, Field>)
    requires p.Keys == q.Keys && forall k :: k in p ==> SameMeaning(p[k], q[k])
    ensures SameList(Listing(p), Listing(q))
  {
    hide SameMeaning;
    var keys := SortedKeys(p.Keys);
    forall j | 0 <= j < |keys| ensures keys[j] in p {
      assert keys[j] in keys;
    }
  }

  lemma {:induction false} RespelledMeans(def: FieldDef, registry: Registry)
    ensures SameMeaning(Compile(Respelled(def, registry), registry), Compile(def, registry))
    decreases def
  {
    match def {
      case NumberDef(required, min, max, whole) =>
        SameNumber(required, min, max);
      case ObjectDef(required, properties) =>
        hide SameMeaning;
        var fields', p := CompileDefs(Respelled(def, registry).properties, registry), Compile(def, registry).properties;
        if properties.Defs? {
          forall k | k in properties.defs
            ensures SameMeaning(Compile(Respelled(properties.defs[k], registry), registry), Compile(properties.defs[k], registry))
          {
            RespelledMeans(properties.defs[k], registry);
          }
          SameMap(fields', CompileDefs(properties, registry));
        } else {
          assert fields' == map[];
          assert Listing(map[]) == [];
        }
        SameObject(required, Listed(Listing(fields')), p);
      case ArrayDef(required, items, min, max) =>
        if items.Some? {
          RespelledMeans(items.value, registry);
          SameArray(required, Compile(Respelled(items.value, registry), registry), Compile(items.value, registry), min, max);
        }
      case _ =>
    }
  }

  /** Every definition, expressible or not, has calls that compile to a schema no value and no query tells from the one
      the JSON front end compiles. */
  lemma EveryMeaningIsExpressed(def: FieldDef, registry: Registry)
    ensures exists script, f :: Makes(script, f) && SameMeaning(f, Compile(def, registry))
  {
    RespelledFits(def, registry);
    RespelledMeans(def, registry);
    FrontEndsAgree(Respelled(def, registry), registry);
  }

  // ---- Whole routes ----

  function Definitions(defs: Option<map<string, FieldDef>>): map<string, FieldDef> {
    if defs.Some? then defs.value else map[]
  }

  ghost predicate SpellsSection(calls: seq<ObjectCall>, defs: Option<map<string, FieldDef>>) {
    SpellsEntries(calls, Definitions(defs))
  }

  ghost predicate SpellsRoute(calls: seq<RouteCall>, def: RouteDef) {
    && SpellsSection(CallsFor(calls, Body), def.body)
    && SpellsSection(CallsFor(calls, Part.Query), def.query)
    && SpellsSection(CallsFor(calls, Params), def.params)
  }

  /** The section is absent, or it has a property, and builders can spell out all of them with the same result. */
  ghost predicate SectionFits(defs: Option<map<string, FieldDef>>, registry: Registry) {
    defs.Some? ==> defs.value != map[] && forall k :: k in defs.value ==> Expressible(defs.value[k]) && Known(defs.value[k], registry)
  }

  /** Only texts and numbers. */
  ghost predicate PlainSection(defs: Option<map<string, FieldDef>>) {
    defs.Some? ==> forall k :: k in defs.value ==> PlainDef(defs.value[k])
  }

  predicate PlainDef(def: FieldDef) {
    def.StringDef? || def.NumberDef? || def.IntegerDef?
  }

  /** One way of adding the properties and sorting them, against what JSON compiles. */
  lemma SectionOf(calls: seq<ObjectCall>, defs: Option<map<string, FieldDef>>, registry: Registry,
                  entries: seq<Property>, section: Option<seq<Property>>)
    requires SpellsSection(calls, defs) && MakesEntries(calls, entries) && SectionCompiled(entries, section)
    ensures section == CompileSectionDefs(defs, registry) <==> SectionFits(defs, registry)
  {
    var properties := Defs(Definitions(defs));
    SpelledEntries(calls, properties.defs, entries);
    EntriesEmpty(entries, properties.defs);
    hide Lists, MakesEntries, SpellsEntries, Expressible, Known;
    if entries != [] {
      SectionsArranged(properties, registry, entries, section.value);
    }
  }

  lemma SectionAgrees(calls: seq<ObjectCall>, defs: Option<map<string, FieldDef>>, registry: Registry)
    requires SpellsSection(calls, defs)
    ensures MakesSection(calls, CompileSectionDefs(defs, registry)) <==> SectionFits(defs, registry)
  {
    hide SpellsSection, MakesEntries, CompileSectionDefs, SectionFits;
    if MakesSection(calls, CompileSectionDefs(defs, registry)) {
      var others :| MakesEntries(calls, others) && SectionCompiled(others, CompileSectionDefs(defs, registry));
      SectionOf(calls, defs, registry, others, CompileSectionDefs(defs, registry));
    }
    var entries := SomeEntries(calls);
    var list := CanArrange(entries);
    var section := if entries == [] then None else Some(list);
    SectionOf(calls, defs, registry, entries, section);
  }

  lemma EntriesEmpty(entries: seq<Property>, defs: map<string, FieldDef>)
    requires AllExpressible(defs) && Lists(entries, BuiltDefs(Defs(defs)))
    ensures entries == [] <==> defs == map[]
  {
    assert BuiltDefs(Defs(defs)).Keys == defs.Keys;
    if entries != [] {
      assert entries[0].key in defs;
    }
    if defs != map[] {
      var k :| k in defs;
      assert k in BuiltDefs(Defs(defs));
      assert Names(entries, k);
    }
  }

  /** Sorted entries are what JSON compiles exactly when every pattern is known. */
  lemma SectionsArranged(properties: DefMap, registry: Registry, entries: seq<Property>, list: seq<Property>)
    requires properties.Defs? && AllExpressible(properties.defs) && Lists(entries, BuiltDefs(properties)) && Arranged(entries, list)
    ensures list == Listing(CompileDefs(properties, registry)) <==>
            forall k :: k in properties.defs ==> Known(properties.defs[k], registry)
  {
    OrderDoesNotMatter(entries, list, BuiltDefs(properties));
    MapsAgree(properties, registry);
    hide Built, Compile, Listing;
    forall k | k in properties.defs
      ensures Built(properties.defs[k]) == Compile(properties.defs[k], registry) <==> Known(properties.defs[k], registry)
    {
      BuiltIsCompiled(properties.defs[k], registry);
    }
  }

  lemma {:induction false} SpelledPlain(calls: seq<ObjectCall>, defs: map<string, FieldDef>)
    requires SpellsEntries(calls, defs) && forall c :: c in calls ==> c.Add? && PlainScript(c.script)
    ensures forall k :: k in defs ==> PlainDef(defs[k])
  {
    if calls != [] {
      var front, c := calls[..|calls| - 1], calls[|calls| - 1];
      assert c in calls && forall d :: d in front ==> d in calls;
      SpelledPlain(front, defs - {c.key});
      assert forall k :: k in defs ==> k == c.key || k in defs - {c.key};
    }
  }

  lemma {:induction false} CallsForPart(calls: seq<RouteCall>, part: Part)
    requires Callable(calls)
    ensures forall c :: c in CallsFor(calls, part) ==> c.Add? && (part != Body ==> PlainScript(c.script))
  {
    if calls != [] {
      var front, c := calls[..|calls| - 1], calls[|calls| - 1];
      assert c in calls && forall d :: d in front ==> d in calls;
      CallsForPart(front, part);
    }
  }

  function InPart(part: Part, key: string, script: Script): (c: RouteCall)
    ensures c.key == key && c.script == script && forall other :: Into(c, other) <==> other == part
  {
    match part
    case Body => AddBody(key, script)
    case Query => AddQuery(key, script)
    case Params => AddParam(key, script)
  }

  /** The calls of a section, as calls of the route. */
  function Routed(calls: seq<ObjectCall>, part: Part): seq<RouteCall>
    requires forall c :: c in calls ==> c.Add?
  {
    seq(|calls|, i requires 0 <= i < |calls| =>
      assert calls[i] in calls;
      InPart(part, calls[i].key, calls[i].script))
  }

  lemma RoutedNext(front: seq<ObjectCall>, c: ObjectCall, part: Part)
    requires c.Add? && forall d :: d in front ==> d.Add?
    ensures forall d :: d in front + [c] ==> d.Add?
    ensures Routed(front + [c], part) == Routed(front, part) + [InPart(part, c.key, c.script)]
  {
    hide InPart;
  }

  lemma {:induction false} CallsForRouted(before: seq<RouteCall>, calls: seq<ObjectCall>, part: Part, other: Part)
    requires forall c :: c in calls ==> c.Add?
    ensures CallsFor(before + Routed(calls, part), other) == CallsFor(before, other) + if part == other then calls else []
  {
    if calls == [] {
      assert before + Routed(calls, part) == before;
    } else {
      hide InPart, Into, Routed, CallsFor;
      var front, c := calls[..|calls| - 1], calls[|calls| - 1];
      assert c in calls && forall d :: d in front ==> d in calls;
      assert calls == front + [c];
      CallsForRouted(before, front, part, other);
      RoutedNext(front, c, part);
      CallsForNext(before + Routed(front, part), InPart(part, c.key, c.script), other);
      Associate(before, Routed(front, part), [InPart(part, c.key, c.script)]);
      Associate(CallsFor(before, other), front, [c]);
    }
  }

  lemma CallsForNext(calls: seq<RouteCall>, c: RouteCall, part: Part)
    ensures CallsFor(calls + [c], part) == CallsFor(calls, part) + if Into(c, part) then [Add(c.key, c.script)] else []
  {
    assert (calls + [c])[..|calls|] == calls;
  }

  /** Each call on a schema builder adds to its own section, behind what was there, and to no other. */
  lemma OneMoreRouteCall(calls: seq<RouteCall>, key: string, script: Script, part: Part)
    ensures CallsFor([], part) == []
    ensures CallsFor(calls + [AddBody(key, script)], part) == CallsFor(calls, part) + if part == Body then [Add(key, script)] else []
    ensures CallsFor(calls + [AddQuery(key, script)], part) ==
            CallsFor(calls, part) + if part == Part.Query then [Add(key, script)] else []
    ensures CallsFor(calls + [AddParam(key, script)], part) == CallsFor(calls, part) + if part == Params then [Add(key, script)] else []
  {
    CallsForNext(calls, AddBody(key, script), part);
    CallsForNext(calls, AddQuery(key, script), part);
    CallsForNext(calls, AddParam(key, script), part);
  }

  lemma SectionSpelled(defs: Option<map<string, FieldDef>>, registry: Registry) returns (calls: seq<ObjectCall>)
    requires SectionFits(defs, registry)
    ensures SpellsSection(calls, defs) && forall c :: c in calls ==> c.Add?
    ensures PlainSection(defs) ==> forall c :: c in calls ==> PlainScript(c.script)
  {
    calls := [];
    if defs.Some? {
      calls := KeysSpelled(Defs(defs.value), defs.value.Keys);
      assert (map k | k in defs.value.Keys :: defs.value[k]) == defs.value;
    }
  }

  /** Some calls spell out a route and compile to what the JSON front end makes of it, exactly when its query and path
      parameters are texts and numbers, no section is present but empty, and builders can spell out every definition in it
      with every pattern known. */
  lemma RoutesAgree(def: RouteDef, registry: Registry)
    ensures (exists calls :: Callable(calls) && SpellsRoute(calls, def) && MakesRoute(calls, CompileRoute(def, registry))) <==>
            && SectionFits(def.body, registry) && SectionFits(def.query, registry) && SectionFits(def.params, registry)
            && PlainSection(def.query) && PlainSection(def.params)
  {
    if calls :| Callable(calls) && SpellsRoute(calls, def) && MakesRoute(calls, CompileRoute(def, registry)) {
      SectionAgrees(CallsFor(calls, Body), def.body, registry);
      SectionAgrees(CallsFor(calls, Part.Query), def.query, registry);
      SectionAgrees(CallsFor(calls, Params), def.params, registry);
      CallsForPart(calls, Part.Query);
      CallsForPart(calls, Params);
      SpelledPlain(CallsFor(calls, Part.Query), Definitions(def.query));
      SpelledPlain(CallsFor(calls, Params), Definitions(def.params));
    }
    if SectionFits(def.body, registry) && SectionFits(def.query, registry) && SectionFits(def.params, registry)
       && PlainSection(def.query) && PlainSection(def.params) {
      RouteSpelled(def, registry);
    }
  }

  lemma RouteSpelled(def: RouteDef, registry: Registry)
    requires SectionFits(def.body, registry) && SectionFits(def.query, registry) && SectionFits(def.params, registry)
    requires PlainSection(def.query) && PlainSection(def.params)
    ensures exists calls :: Callable(calls) && SpellsRoute(calls, def) && MakesRoute(calls, CompileRoute(def, registry))
  {
    var body := SectionSpelled(def.body, registry);
    var query := SectionSpelled(def.query, registry);
    var params := SectionSpelled(def.params, registry);
    hide SectionFits, PlainSection, CallsFor, SpellsSection, MakesSection, CompileSectionDefs;
    var calls := PartsRouted(body, query, params);
    SectionAgrees(body, def.body, registry);
    SectionAgrees(query, def.query, registry);
    SectionAgrees(params, def.params, registry);
    assert SpellsRoute(calls, def) && MakesRoute(calls, CompileRoute(def, registry));
  }

  lemma PartsRouted(body: seq<ObjectCall>, query: seq<ObjectCall>, params: seq<ObjectCall>) returns (calls: seq<RouteCall>)
    requires forall c :: c in body || c in query || c in params ==> c.Add?
    requires forall c :: c in query || c in params ==> PlainScript(c.script)
    ensures Callable(calls)
    ensures CallsFor(calls, Body) == body && CallsFor(calls, Part.Query) == query && CallsFor(calls, Params) == params
  {
    var first := [] + Routed(body, Body);
    var second := first + Routed(query, Part.Query);
    calls := second + Routed(params, Params);
    forall part {:trigger CallsFor(calls, part)}
      ensures CallsFor(calls, part) ==
              (if part == Body then body else []) + (if part == Part.Query then query else []) + (if part == Params then params else [])
    {
      CallsForRouted([], body, Body, part);
      CallsForRouted(first, query, Part.Query, part);
      CallsForRouted(second, params, Params, part);
      assert CallsFor([], part) == [];
    }
    RoutedPlain(query, Part.Query);
    RoutedPlain(params, Params);
    RoutedPlain(body, Body);
  }

  lemma RoutedPlain(calls: seq<ObjectCall>, part: Part)
    requires forall c :: c in calls ==> c.Add? && (part != Body ==> PlainScript(c.script))
    ensures Callable(Routed(calls, part))
  {
    forall c | c in Routed(calls, part) && !c.AddBody? ensures PlainScript(c.script) {
      var i :| 0 <= i < |calls| && Routed(calls, part)[i] == c;
      assert calls[i] in calls;
    }
  }

  /** Whatever either front end compiles, its query section lists each key once, or holds plain fields only. */
  lemma QuerySectionsAreListable(def: RouteDef, registry: Registry, calls: seq<RouteCall>, route: CompiledRoute)
    ensures CompileRoute(def, registry).query.Some? ==> Listable(CompileRoute(def, registry).query.value)
    ensures Callable(calls) && MakesRoute(calls, route) && route.query.Some? ==> Listable(route.query.value)
  {
    if def.query.Some? {
      ListingAscends(CompileDefs(Defs(def.query.value), registry));
    }
    if Callable(calls) && MakesRoute(calls, route) && route.query.Some? {
      var entries :| MakesEntries(CallsFor(calls, Part.Query), entries) && SectionCompiled(entries, route.query);
      CallsForPart(calls, Part.Query);
      EntriesArePlain(CallsFor(calls, Part.Query), entries);
      forall j | 0 <= j < |route.query.value| ensures Plain(route.query.value[j].field) {
        assert route.query.value[j] in multiset(route.query.value);
        assert route.query.value[j] in entries;
      }
    }
  }

  lemma {:induction false} EntriesArePlain(calls: seq<ObjectCall>, entries: seq<Property>)
    requires MakesEntries(calls, entries) && forall c :: c in calls ==> c.Add? && PlainScript(c.script)
    ensures forall p :: p in entries ==> Plain(p.field)
  {
    if calls != [] {
      var front, c := calls[..|calls| - 1], calls[|calls| - 1];
      assert c in calls && forall d :: d in front ==> d in calls;
      EntriesArePlain(front, entries[..|entries| - 1]);
      PlainMade(c.script, entries[|entries| - 1].field);
      assert entries == entries[..|entries| - 1] + [entries[|entries| - 1]];
    }
  }
}
