/** The builder front end of `src/builders.rs`, run by arbitrary sequences of calls. */
module Builders {
  import opened Wrappers
  import opened Schema
  import opened Compiler
  import opened Query

  /** Builders keep every custom pattern name, registered or not. */
  function CompilePatternName(name: string): Pattern {
    if BuiltIn(name).Some? then BuiltIn(name).value else Custom(name)
  }

  // ---- What can be called ----

  datatype StringCall =
    | StringRequired | StringMin(value: real) | StringMax(value: real) | StringPattern(name: string) | StringEnum(values: seq<string>)

  datatype NumberCall = NumberRequired | NumberInteger | NumberMin(value: real) | NumberMax(value: real)

  datatype BooleanCall = BooleanRequired

  datatype ObjectCall = ObjectRequired | Add(key: string, script: Script)

  datatype ArrayCall = ArrayRequired | ArrayMin(value: real) | ArrayMax(value: real) | Of(script: Script)

  /** A builder, as the calls made on it; a builder handed to another one is compiled there and then. */
  datatype Script =
    | StringScript(strings: seq<StringCall>)
    | NumberScript(numbers: seq<NumberCall>)
    | BooleanScript(booleans: seq<BooleanCall>)
    | ObjectScript(objects: seq<ObjectCall>)
    | ArrayScript(arrays: seq<ArrayCall>)

  // ---- What the calls spell out ----

  datatype Settings = Settings(required: bool, min: Option<real>, max: Option<real>)

  const UNSET := Settings(false, None, None)

  function AfterString(d: (Settings, Option<string>, Option<seq<string>>), c: StringCall): (Settings, Option<string>, Option<seq<string>>) {
    match c
    case StringRequired => (d.0.(required := true), d.1, d.2)
    case StringMin(value) => (d.0.(min := Some(value)), d.1, d.2)
    case StringMax(value) => (d.0.(max := Some(value)), d.1, d.2)
    case StringPattern(name) => (d.0, Some(name), d.2)
    case StringEnum(values) => (d.0, d.1, Some(values))
  }

  /** Settings, pattern and allowed values after the calls. */
  function SpelledString(calls: seq<StringCall>): (Settings, Option<string>, Option<seq<string>>) {
    if calls == [] then (UNSET, None, None) else AfterString(SpelledString(calls[..|calls| - 1]), calls[|calls| - 1])
  }

  function AfterNumber(d: (Settings, bool), c: NumberCall): (Settings, bool) {
    match c
    case NumberRequired => (d.0.(required := true), d.1)
    case NumberInteger => (d.0, true)
    case NumberMin(value) => (d.0.(min := Some(value)), d.1)
    case NumberMax(value) => (d.0.(max := Some(value)), d.1)
  }

  /** Settings after the calls, and whether the number is an integer. */
  function SpelledNumber(calls: seq<NumberCall>): (Settings, bool) {
    if calls == [] then (UNSET, false) else AfterNumber(SpelledNumber(calls[..|calls| - 1]), calls[|calls| - 1])
  }

  function AfterArray(d: Settings, c: ArrayCall): Settings {
    match c
    case ArrayRequired => d.(required := true)
    case ArrayMin(value) => d.(min := Some(value))
    case ArrayMax(value) => d.(max := Some(value))
    case Of(_) => d
  }

  function SpelledArray(calls: seq<ArrayCall>): Settings {
    if calls == [] then UNSET else AfterArray(SpelledArray(calls[..|calls| - 1]), calls[|calls| - 1])
  }

  predicate SpelledRequired(calls: seq<ObjectCall>) {
    ObjectRequired in calls
  }

  // ---- What the calls compile to ----

  function StringMade(d: (Settings, Option<string>, Option<seq<string>>)): Field {
    StringField(d.0.required, d.0.min, d.0.max, if d.1.Some? then Some(CompilePatternName(d.1.value)) else None, d.2)
  }

  function NumberMade(d: (Settings, bool)): Field {
    if d.1 then IntegerField(d.0.required, d.0.min, d.0.max) else NumberField(d.0.required, d.0.min, d.0.max, false)
  }

  /** Sorted by key, equal keys next to each other in some order. */
  ghost predicate Arranged(entries: seq<Property>, list: seq<Property>) {
    Sorted(list) && multiset(list) == multiset(entries)
  }

  /** The calls compile to `f`; to other fields, too, when an object lists a key twice and the sort may go either way. */
  ghost predicate Makes(script: Script, f: Field)
    decreases script
  {
    match script
    case StringScript(calls) => f == StringMade(SpelledString(calls))
    case NumberScript(calls) => f == NumberMade(SpelledNumber(calls))
    case BooleanScript(calls) => f == BooleanField(calls != [])
    case ObjectScript(calls) =>
      && f.ObjectField? && f.required == SpelledRequired(calls) && f.properties.Listed?
      && exists entries: seq<Property> :: MakesEntries(calls, entries) && Arranged(entries, f.properties.list)
    case ArrayScript(calls) =>
      var d := SpelledArray(calls);
      f.ArrayField? && f == ArrayField(d.required, f.items, d.min, d.max) && MakesItems(calls, f.items)
  }

  /** The properties as they were added. */
  ghost predicate MakesEntries(calls: seq<ObjectCall>, entries: seq<Property>)
    decreases calls
  {
    if calls == [] then entries == []
    else
      var front := calls[..|calls| - 1];
      match calls[|calls| - 1]
      case ObjectRequired => MakesEntries(front, entries)
      case Add(key, script) =>
        && entries != [] && entries[|entries| - 1].key == key && Makes(script, entries[|entries| - 1].field)
        && MakesEntries(front, entries[..|entries| - 1])
  }

  /** The last item schema set, if any. */
  ghost predicate MakesItems(calls: seq<ArrayCall>, items: Option<Field>)
    decreases calls
  {
    if calls == [] then items == None
    else
      var c := calls[|calls| - 1];
      assert calls decreases to c;
      if c.Of? then items.Some? && Makes(c.script, items.value) else MakesItems(calls[..|calls| - 1], items)
  }

  // ---- One call more ----

  lemma SpelledNext<T>(calls: seq<T>, c: T)
    ensures calls + [c] != [] && (calls + [c])[..|calls + [c]| - 1] == calls && (calls + [c])[|calls + [c]| - 1] == c
  {
  }

  /** One more call on a string builder changes its own part of the result. */
  lemma OneMoreStringCall(calls: seq<StringCall>, f: Field, value: real, name: string, values: seq<string>)
    requires Makes(StringScript(calls), f)
    ensures f.StringField?
    ensures Makes(StringScript([]), StringField(false, None, None, None, None))
    ensures Makes(StringScript(calls + [StringRequired]), StringField(true, f.min, f.max, f.pattern, f.enumValues))
    ensures Makes(StringScript(calls + [StringMin(value)]), StringField(f.required, Some(value), f.max, f.pattern, f.enumValues))
    ensures Makes(StringScript(calls + [StringMax(value)]), StringField(f.required, f.min, Some(value), f.pattern, f.enumValues))
    ensures Makes(StringScript(calls + [StringEnum(values)]), StringField(f.required, f.min, f.max, f.pattern, Some(values)))
    ensures Makes(StringScript(calls + [StringPattern(name)]),
                  StringField(f.required, f.min, f.max,
                              Some(match name case "email" => Email case "url" => Url case "uuid" => Uuid case "alpha" => Alpha
                                              case "alphanumeric" => Alphanumeric case "numeric" => Numeric case _ => Custom(name)),
                              f.enumValues))
  {
    SpelledNext(calls, StringRequired);
    SpelledNext(calls, StringMin(value));
    SpelledNext(calls, StringMax(value));
    SpelledNext(calls, StringEnum(values));
    SpelledNext(calls, StringPattern(name));
  }

  /** On a number builder; an integer has no other way back. */
  lemma OneMoreNumberCall(calls: seq<NumberCall>, f: Field, value: real)
    requires Makes(NumberScript(calls), f)
    ensures f.IntegerField? || (f.NumberField? && !f.whole)
    ensures Makes(NumberScript([]), NumberField(false, None, None, false))
    ensures Makes(NumberScript(calls + [NumberInteger]), IntegerField(f.required, f.min, f.max))
    ensures Makes(NumberScript(calls + [NumberRequired]),
                  if f.IntegerField? then IntegerField(true, f.min, f.max) else NumberField(true, f.min, f.max, false))
    ensures Makes(NumberScript(calls + [NumberMin(value)]),
                  if f.IntegerField? then IntegerField(f.required, Some(value), f.max) else NumberField(f.required, Some(value), f.max, false))
    ensures Makes(NumberScript(calls + [NumberMax(value)]),
                  if f.IntegerField? then IntegerField(f.required, f.min, Some(value)) else NumberField(f.required, f.min, Some(value), false))
  {
    SpelledNext(calls, NumberInteger);
    SpelledNext(calls, NumberRequired);
    SpelledNext(calls, NumberMin(value));
    SpelledNext(calls, NumberMax(value));
  }

  /** On an array builder, and on a boolean one. */
  lemma OneMoreArrayCall(calls: seq<ArrayCall>, f: Field, value: real, script: Script, item: Field)
    requires Makes(ArrayScript(calls), f) && Makes(script, item)
    ensures f.ArrayField? && Makes(ArrayScript([]), ArrayField(false, None, None, None))
    ensures Makes(ArrayScript(calls + [ArrayRequired]), ArrayField(true, f.items, f.min, f.max))
    ensures Makes(ArrayScript(calls + [ArrayMin(value)]), ArrayField(f.required, f.items, Some(value), f.max))
    ensures Makes(ArrayScript(calls + [ArrayMax(value)]), ArrayField(f.required, f.items, f.min, Some(value)))
    ensures Makes(ArrayScript(calls + [Of(script)]), ArrayField(f.required, Some(item), f.min, f.max))
    ensures Makes(BooleanScript([]), BooleanField(false)) && Makes(BooleanScript([BooleanRequired]), BooleanField(true))
  {
    SpelledNext(calls, ArrayRequired);
    SpelledNext(calls, ArrayMin(value));
    SpelledNext(calls, ArrayMax(value));
    SpelledNext(calls, Of(script));
  }

  // ---- The code ----

  class StringBuilder {
    var required: bool
    var min: Option<real>
    var max: Option<real>
    var pattern: Option<string>
    var enumValues: Option<seq<string>>

    /** What the calls so far have spelled out. */
    function Spelled(): (Settings, Option<string>, Option<seq<string>>)
      reads this
    {
      (Settings(required, min, max), pattern, enumValues)
    }

    constructor ()
      ensures Spelled() == SpelledString([])
    {
      required, min, max, pattern, enumValues := false, None, None, None, None;
    }

    method Require()
      modifies this
      ensures Spelled() == AfterString(old(Spelled()), StringRequired)
    {
      required := true;
    }

    method SetMin(length: real)
      modifies this
      ensures Spelled() == AfterString(old(Spelled()), StringMin(length))
    {
      min := Some(length);
    }

    method SetMax(length: real)
      modifies this
      ensures Spelled() == AfterString(old(Spelled()), StringMax(length))
    {
      max := Some(length);
    }

    method SetPattern(name: string)
      modifies this
      ensures Spelled() == AfterString(old(Spelled()), StringPattern(name))
    {
      pattern := Some(name);
    }

    method SetEnum(values: seq<string>)
      modifies this
      ensures Spelled() == AfterString(old(Spelled()), StringEnum(values))
    {
      enumValues := Some(values);
    }

    method Compile() returns (field: Field)
      ensures field == StringMade(Spelled())
    {
      return StringField(required, min, max, if pattern.Some? then Some(CompilePatternName(pattern.value)) else None, enumValues);
    }
  }

  class NumberBuilder {
    var isInteger: bool
    var required: bool
    var min: Option<real>
    var max: Option<real>

    function Spelled(): (Settings, bool)
      reads this
    {
      (Settings(required, min, max), isInteger)
    }

    constructor ()
      ensures Spelled() == SpelledNumber([])
    {
      isInteger, required, min, max := false, false, None, None;
    }

    method Require()
      modifies this
      ensures Spelled() == AfterNumber(old(Spelled()), NumberRequired)
    {
      required := true;
    }

    method SetInteger()
      modifies this
      ensures Spelled() == AfterNumber(old(Spelled()), NumberInteger)
    {
      isInteger := true;
    }

    method SetMin(value: real)
      modifies this
      ensures Spelled() == AfterNumber(old(Spelled()), NumberMin(value))
    {
      min := Some(value);
    }

    method SetMax(value: real)
      modifies this
      ensures Spelled() == AfterNumber(old(Spelled()), NumberMax(value))
    {
      max := Some(value);
    }

    method Compile() returns (field: Field)
      ensures field == NumberMade(Spelled())
    {
      if isInteger {
        return IntegerField(required, min, max);
      } else {
        return NumberField(required, min, max, false);
      }
    }
  }

  class BooleanBuilder {
    var required: bool

    constructor ()
      ensures !required
    {
      required := false;
    }

    method Require()
      modifies this
      ensures required
    {
      required := true;
    }

    method Compile() returns (field: Field)
      ensures field == BooleanField(required)
    {
      return BooleanField(required);
    }
  }

  class ObjectBuilder {
    var required: bool
    var properties: seq<Property>

    constructor ()
      ensures !required && properties == []
    {
      required, properties := false, [];
    }

    method Require()
      modifies this`required
      ensures required
    {
      required := true;
    }

    /** Any of the `add` methods: the field is compiled when it is added. */
    method AddProperty(key: string, field: Field)
      modifies this`properties
      ensures properties == old(properties) + [Property(key, field)]
    {
      properties := properties + [Property(key, field)];
    }

    method Compile() returns (field: Field)
      ensures field.ObjectField? && field.required == required && field.properties.Listed?
      ensures Arranged(properties, field.properties.list)
    {
      var props := SortByKey(properties);
      return ObjectField(required, Listed(props));
    }
  }

  class ArrayBuilder {
    var required: bool
    var items: Option<Field>
    var min: Option<real>
    var max: Option<real>

    function Spelled(): Settings
      reads this
    {
      Settings(required, min, max)
    }

    constructor ()
      ensures Spelled() == SpelledArray([]) && items == None
    {
      required, items, min, max := false, None, None, None;
    }

    method Require()
      modifies this
      ensures Spelled() == AfterArray(old(Spelled()), ArrayRequired) && items == old(items)
    {
      required := true;
    }

    method SetMin(length: real)
      modifies this
      ensures Spelled() == AfterArray(old(Spelled()), ArrayMin(length)) && items == old(items)
    {
      min := Some(length);
    }

    method SetMax(length: real)
      modifies this
      ensures Spelled() == AfterArray(old(Spelled()), ArrayMax(length)) && items == old(items)
    {
      max := Some(length);
    }

    /** Any of the `of` methods. */
    method SetItems(field: Field)
      modifies this`items
      ensures items == Some(field)
    {
      items := Some(field);
    }

    method Compile() returns (field: Field)
      ensures field == ArrayField(required, items, min, max)
    {
      return ArrayField(required, items, min, max);
    }
  }

  // ---- Running the calls ----

  method RunString(calls: seq<StringCall>) returns (field: Field)
    ensures Makes(StringScript(calls), field)
  {
    var b := new StringBuilder();
    for i := 0 to |calls|
      invariant b.Spelled() == SpelledString(calls[..i])
    {
      assert calls[..i + 1][..i] == calls[..i];
      match calls[i] {
        case StringRequired => b.Require();
        case StringMin(value) => b.SetMin(value);
        case StringMax(value) => b.SetMax(value);
        case StringPattern(name) => b.SetPattern(name);
        case StringEnum(values) => b.SetEnum(values);
      }
    }
    assert calls[..|calls|] == calls;
    field := b.Compile();
  }

  method RunNumber(calls: seq<NumberCall>) returns (field: Field)
    ensures Makes(NumberScript(calls), field)
  {
    var b := new NumberBuilder();
    for i := 0 to |calls|
      invariant b.Spelled() == SpelledNumber(calls[..i])
    {
      assert calls[..i + 1][..i] == calls[..i];
      match calls[i] {
        case NumberRequired => b.Require();
        case NumberInteger => b.SetInteger();
        case NumberMin(value) => b.SetMin(value);
        case NumberMax(value) => b.SetMax(value);
      }
    }
    assert calls[..|calls|] == calls;
    field := b.Compile();
  }

  method RunBoolean(calls: seq<BooleanCall>) returns (field: Field)
    ensures Makes(BooleanScript(calls), field)
  {
    var b := new BooleanBuilder();
    for i := 0 to |calls|
      invariant b.required == (i > 0)
    {
      b.Require();
    }
    field := b.Compile();
  }

  method RunObject(calls: seq<ObjectCall>) returns (field: Field)
    ensures Makes(ObjectScript(calls), field)
    decreases calls, 0
  {
    var b := new ObjectBuilder();
    for i := 0 to |calls|
      invariant b.required == SpelledRequired(calls[..i]) && MakesEntries(calls[..i], b.properties)
    {
      EntryNext(calls, i);
      match calls[i] {
        case ObjectRequired => b.Require();
        case Add(key, script) =>
          var property := RunScript(script);
          ghost var before := b.properties;
          b.AddProperty(key, property);
          assert b.properties[..|b.properties| - 1] == before;
      }
    }
    assert calls[..|calls|] == calls;
    field := b.Compile();
  }

  lemma EntryNext(calls: seq<ObjectCall>, i: nat)
    requires i < |calls|
    ensures var next := calls[..i + 1];
            && next != [] && next[..|next| - 1] == calls[..i] && next[|next| - 1] == calls[i]
            && (SpelledRequired(next) <==> SpelledRequired(calls[..i]) || calls[i].ObjectRequired?)
  {
    assert calls[..i + 1] == calls[..i] + [calls[i]];
  }

  method RunArray(calls: seq<ArrayCall>) returns (field: Field)
    ensures Makes(ArrayScript(calls), field)
    decreases calls, 0
  {
    var b := new ArrayBuilder();
    for i := 0 to |calls|
      invariant b.Spelled() == SpelledArray(calls[..i]) && MakesItems(calls[..i], b.items)
    {
      assert calls[..i + 1][..i] == calls[..i];
      match calls[i] {
        case ArrayRequired => b.Require();
        case ArrayMin(value) => b.SetMin(value);
        case ArrayMax(value) => b.SetMax(value);
        case Of(script) =>
          assert calls decreases to calls[i];
          var items := RunScript(script);
          b.SetItems(items);
      }
    }
    assert calls[..|calls|] == calls;
    field := b.Compile();
  }

  /** Whatever is called, in whatever order and however often, compiles as described. */
  method RunScript(script: Script) returns (field: Field)
    ensures Makes(script, field)
    decreases script, 1
  {
    match script
    case StringScript(calls) => field := RunString(calls);
    case NumberScript(calls) => field := RunNumber(calls);
    case BooleanScript(calls) => field := RunBoolean(calls);
    case ObjectScript(calls) => field := RunObject(calls);
    case ArrayScript(calls) => field := RunArray(calls);
  }

  // ---- Whole routes ----

  /** The query and parameter sections take string and number builders only. */
  datatype RouteCall = AddBody(key: string, script: Script) | AddQuery(key: string, script: Script) | AddParam(key: string, script: Script)

  predicate PlainScript(script: Script) {
    script.StringScript? || script.NumberScript?
  }

  predicate Callable(calls: seq<RouteCall>) {
    forall c :: c in calls && !c.AddBody? ==> PlainScript(c.script)
  }

  datatype Part = Body | Query | Params

  predicate Into(c: RouteCall, part: Part) {
    match part
    case Body => c.AddBody?
    case Query => c.AddQuery?
    case Params => c.AddParam?
  }

  /** The calls that go into one section. */
  function CallsFor(calls: seq<RouteCall>, part: Part): seq<ObjectCall> {
    if calls == [] then [] else
      var c := calls[|calls| - 1];
      CallsFor(calls[..|calls| - 1], part) + if Into(c, part) then [Add(c.key, c.script)] else []
  }

  /** An empty section is absent; any other one is sorted. */
  ghost predicate SectionCompiled(entries: seq<Property>, section: Option<seq<Property>>) {
    if entries == [] then section == None else section.Some? && Arranged(entries, section.value)
  }

  ghost predicate MakesSection(calls: seq<ObjectCall>, section: Option<seq<Property>>) {
    exists entries :: MakesEntries(calls, entries) && SectionCompiled(entries, section)
  }

  ghost predicate MakesRoute(calls: seq<RouteCall>, route: CompiledRoute) {
    && MakesSection(CallsFor(calls, Body), route.body)
    && MakesSection(CallsFor(calls, Query), route.query)
    && MakesSection(CallsFor(calls, Params), route.params)
  }

  class SchemaBuilder {
    var body: seq<Property>
    var query: seq<Property>
    var params: seq<Property>

    constructor ()
      ensures body == [] && query == [] && params == []
    {
      body, query, params := [], [], [];
    }

    method AddBody(key: string, field: Field)
      modifies this`body
      ensures body == old(body) + [Property(key, field)]
    {
      body := body + [Property(key, field)];
    }

    method AddQuery(key: string, field: Field)
      requires Plain(field)
      modifies this`query
      ensures query == old(query) + [Property(key, field)]
    {
      query := query + [Property(key, field)];
    }

    method AddParam(key: string, field: Field)
      requires Plain(field)
      modifies this`params
      ensures params == old(params) + [Property(key, field)]
    {
      params := params + [Property(key, field)];
    }

    method CompileWithRegistry() returns (route: CompiledRoute)
      ensures SectionCompiled(body, route.body) && SectionCompiled(query, route.query) && SectionCompiled(params, route.params)
    {
      var b := CompileSection(body);
      var q := CompileSection(query);
      var p := CompileSection(params);
      return CompiledRoute(b, q, p);
    }
  }

  method CompileSection(entries: seq<Property>) returns (section: Option<seq<Property>>)
    ensures SectionCompiled(entries, section)
  {
    if entries == [] {
      return None;
    }
    var props := SortByKey(entries);
    return Some(props);
  }

  lemma RouteNext(calls: seq<RouteCall>, i: nat, part: Part)
    requires i < |calls|
    ensures var before, c := CallsFor(calls[..i], part), calls[i];
            CallsFor(calls[..i + 1], part) == if Into(c, part) then before + [Add(c.key, c.script)] else before
  {
    assert calls[..i + 1][..i] == calls[..i];
  }

  lemma EntryAdded(calls: seq<ObjectCall>, entries: seq<Property>, key: string, script: Script, f: Field)
    requires MakesEntries(calls, entries) && Makes(script, f)
    ensures MakesEntries(calls + [Add(key, script)], entries + [Property(key, f)])
  {
    var calls', entries' := calls + [Add(key, script)], entries + [Property(key, f)];
    assert calls'[..|calls'| - 1] == calls && entries'[..|entries'| - 1] == entries;
  }

  method RunRoute(calls: seq<RouteCall>) returns (route: CompiledRoute)
    requires Callable(calls)
    ensures MakesRoute(calls, route)
  {
    hide Makes, MakesEntries, CallsFor, SectionCompiled;
    var b := new SchemaBuilder();
    NoEntries();
    for i := 0 to |calls|
      invariant MakesEntries(CallsFor(calls[..i], Body), b.body)
      invariant MakesEntries(CallsFor(calls[..i], Query), b.query)
      invariant MakesEntries(CallsFor(calls[..i], Params), b.params)
    {
      RouteNext(calls, i, Body);
      RouteNext(calls, i, Query);
      RouteNext(calls, i, Params);
      var key, script := calls[i].key, calls[i].script;
      var field := RunScript(script);
      if PlainScript(script) {
        PlainMade(script, field);
      }
      match calls[i] {
        case AddBody(_, _) =>
          EntryAdded(CallsFor(calls[..i], Body), b.body, key, script, field);
          b.AddBody(key, field);
        case AddQuery(_, _) =>
          EntryAdded(CallsFor(calls[..i], Query), b.query, key, script, field);
          b.AddQuery(key, field);
        case AddParam(_, _) =>
          EntryAdded(CallsFor(calls[..i], Params), b.params, key, script, field);
          b.AddParam(key, field);
      }
    }
    assert calls[..|calls|] == calls;
    route := b.CompileWithRegistry();
  }

  lemma NoEntries()
    ensures MakesEntries([], []) && forall part :: CallsFor([], part) == []
  {
  }

  lemma PlainMade(script: Script, f: Field)
    requires Makes(script, f) && PlainScript(script)
    ensures Plain(f)
  {
  }
}
