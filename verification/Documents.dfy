/** What validation says of documents and queries as they are written: `src/schema.rs`. */
module Documents {
  import opened Wrappers
  import opened Sequences
  import opened Schema
  import opened SchemaMeaning
  import opened Validator
  import opened Query
  import Text
  import FloatParser

  // ---- Missing keys and null ----

  lemma {:induction false} NullIsMissingAmong(fields: map<string, Json>, k: string, props: seq<Property>, n: nat, registry: Registry)
    requires n <= |props|
    ensures KeyViolations(fields[k := Null], props, n, registry) == KeyViolations(fields - {k}, props, n, registry)
  {
    hide Violations;
    if n > 0 {
      NullIsMissingAmong(fields, k, props, n - 1, registry);
      assert props[n - 1].key != k ==> (props[n - 1].key in fields[k := Null] <==> props[n - 1].key in fields - {k});
    }
  }

  /** A document that gives null for a key has the errors of the document without the key, under every schema; and so has
      every object inside a document. */
  lemma NullIsMissing(fields: map<string, Json>, k: string, schema: seq<Property>, prefix: string, registry: Registry, required: bool)
    ensures DocumentErrors(Obj(fields[k := Null]), schema, prefix, registry) == DocumentErrors(Obj(fields - {k}), schema, prefix, registry)
    ensures Violations(Obj(fields[k := Null]), ObjectField(required, Listed(schema)), registry) ==
            Violations(Obj(fields - {k}), ObjectField(required, Listed(schema)), registry)
  {
    NullIsMissingAmong(fields, k, schema, |schema|, registry);
    assert Codes(Obj(fields[k := Null]), ObjectField(required, Listed(schema)), registry) == [];
    assert Codes(Obj(fields - {k}), ObjectField(required, Listed(schema)), registry) == [];
  }

  /** A section of one property. */
  lemma OneProperty(fields: map<string, Json>, k: string, f: Field, prefix: string, registry: Registry)
    ensures DocumentErrors(Obj(fields), [Property(k, f)], prefix, registry) ==
            if k !in fields || fields[k] == Null then
              if f.required then [ValidationError(prefix + "." + k, Required)] else []
            else Render(prefix + "." + k, Violations(fields[k], f, registry))
  {
    KeyRendered(fields, [Property(k, f)], 0, registry, prefix);
    NothingRendered(prefix, f, registry);
    hide Render, Violations;
    assert KeyViolations(fields, [Property(k, f)], 0, registry) == [];
    var errors := DocumentErrors(Obj(fields), [Property(k, f)], prefix, registry);
    assert forall es: seq<ValidationError> :: [] + es == es;
  }

  /** A section is validated property by property, in its order, whatever errors there are. */
  lemma {:induction false} SectionsConcatenate(fields: map<string, Json>, a: seq<Property>, b: seq<Property>, n: nat, registry: Registry)
    requires n <= |b|
    ensures KeyViolations(fields, a + b, |a| + n, registry) == KeyViolations(fields, a, |a|, registry) + KeyViolations(fields, b, n, registry)
    decreases n
  {
    hide KeyViolation;
    if n == 0 {
      PrefixOfSection(fields, a, b, |a|, registry);
    } else {
      SectionsConcatenate(fields, a, b, n - 1, registry);
      assert (a + b)[|a| + n - 1] == b[n - 1];
      Associate(KeyViolations(fields, a, |a|, registry), KeyViolations(fields, b, n - 1, registry), KeyViolation(fields, b[n - 1], registry));
    }
  }

  lemma {:induction false} PrefixOfSection(fields: map<string, Json>, a: seq<Property>, b: seq<Property>, n: nat, registry: Registry)
    requires n <= |a|
    ensures KeyViolations(fields, a + b, n, registry) == KeyViolations(fields, a, n, registry)
  {
    hide KeyViolation;
    if n > 0 {
      PrefixOfSection(fields, a, b, n - 1, registry);
      assert (a + b)[n - 1] == a[n - 1];
    }
  }

  lemma PropertyByProperty(v: Json, a: seq<Property>, b: seq<Property>, prefix: string, registry: Registry)
    ensures DocumentErrors(v, a + b, prefix, registry) == DocumentErrors(v, a, prefix, registry) + DocumentErrors(v, b, prefix, registry)
  {
    SectionsConcatenate(FieldsOf(v), a, b, |b|, registry);
    RenderConcat(prefix, KeyViolations(FieldsOf(v), a, |a|, registry), KeyViolations(FieldsOf(v), b, |b|, registry));
  }

  /** What is no object has no key at all; an object inside a document is a document of its own, further down the path. */
  lemma OtherDocuments(v: Json, fields: map<string, Json>, k: string, required: bool, list: seq<Property>, prefix: string, registry: Registry)
    ensures !v.Obj? ==> DocumentErrors(v, list, prefix, registry) == DocumentErrors(Obj(map[]), list, prefix, registry)
    ensures DocumentErrors(Obj(map[k := Obj(fields)]), [Property(k, ObjectField(required, Listed(list)))], prefix, registry) ==
            DocumentErrors(Obj(fields), list, prefix + "." + k, registry)
  {
    var f := ObjectField(required, Listed(list));
    OneProperty(map[k := Obj(fields)], k, f, prefix, registry);
    assert Codes(Obj(fields), f, registry) == [];
    assert AtRoot([]) == [];
    assert [] + KeyViolations(fields, list, |list|, registry) == KeyViolations(fields, list, |list|, registry);
  }

  /** Null is a value where it is an item of an array, and has no type a schema can ask for. */
  lemma NullItem(f: Field, k: string, required: bool, prefix: string, registry: Registry)
    ensures Violations(Null, f, registry) == [Violation([], TypeCode)]
    ensures DocumentErrors(Obj(map[k := Arr([Null])]), [Property(k, ArrayField(required, Some(f), None, None))], prefix, registry) ==
            [ValidationError(prefix + "." + k + "[0]", TypeCode)]
  {
    NullViolates(f, registry);
    OneItemArray(Null, f, k, required, prefix, registry);
  }

  lemma NullViolates(f: Field, registry: Registry)
    ensures Violations(Null, f, registry) == [Violation([], TypeCode)]
  {
    assert Codes(Null, f, registry) == [TypeCode] && Nested(Null, f, registry) == [];
  }

  /** An array of one item. */
  lemma OneItemArray(v: Json, f: Field, k: string, required: bool, prefix: string, registry: Registry)
    ensures DocumentErrors(Obj(map[k := Arr([v])]), [Property(k, ArrayField(required, Some(f), None, None))], prefix, registry) ==
            Render(prefix + "." + k + "[0]", Violations(v, f, registry))
  {
    var af := ArrayField(required, Some(f), None, None);
    OneProperty(map[k := Arr([v])], k, af, prefix, registry);
    assert Codes(Arr([v]), af, registry) == [];
    OneItem(v, af, registry);
    assert AtRoot([]) == [];
    assert Violations(Arr([v]), af, registry) == [] + Under(Index(0), Violations(v, f, registry));
    hide Violations;
    assert [] + Under(Index(0), Violations(v, f, registry)) == Under(Index(0), Violations(v, f, registry));
    RenderUnder(prefix + "." + k, Index(0), Violations(v, f, registry));
    assert StepText(Index(0)) == "[0]";
  }

  // ---- Texts ----

  /** Lengths are counted in bytes of UTF-8. */
  lemma {:induction false} LengthInBytes(a: string, b: string)
    ensures ByteLength(a + b) == ByteLength(a) + ByteLength(b)
    ensures forall c: char :: ByteLength([c]) ==
              if (c as int) < 128 then 1 else if (c as int) < 2048 then 2 else if (c as int) < 65536 then 3 else 4
  {
    if a == [] {
      assert a + b == b;
    } else {
      assert (a + b)[1..] == a[1..] + b;
      LengthInBytes(a[1..], b);
    }
  }

  /** The built-in patterns, letter by letter. */
  lemma LetterPatterns(s: string, registry: Registry)
    ensures Matches(Alpha, s, registry) <==> forall i :: 0 <= i < |s| ==> 'a' <= s[i] <= 'z' || 'A' <= s[i] <= 'Z'
    ensures Matches(Numeric, s, registry) <==> forall i :: 0 <= i < |s| ==> '0' <= s[i] <= '9'
    ensures Matches(Alphanumeric, s, registry) <==>
            forall i :: 0 <= i < |s| ==> 'a' <= s[i] <= 'z' || 'A' <= s[i] <= 'Z' || '0' <= s[i] <= '9'
  {
    hide ByteLength;
    LettersAt(s, c => IsAlpha(c));
    LettersAt(s, c => FloatParser.IsDigit(c));
    LettersAt(s, c => IsAlpha(c) || FloatParser.IsDigit(c));
  }

  lemma PrefixPatterns(s: string, registry: Registry)
    ensures Matches(Url, s, registry) <==> (|s| >= 7 && s[..7] == "http://") || (|s| >= 8 && s[..8] == "https://")
    ensures Matches(Email, s, registry) <==> ByteLength(s) >= 5 && '@' in s && '.' in s
  {
    hide ByteLength;
  }

  lemma LettersAt(s: string, p: char -> bool)
    ensures (forall c :: c in s ==> p(c)) <==> forall i :: 0 <= i < |s| ==> p(s[i])
  {
    if forall c :: c in s ==> p(c) {
      forall i | 0 <= i < |s| ensures p(s[i]) {
        assert s[i] in s;
      }
    }
  }

  predicate HexDigit(c: char) {
    '0' <= c <= '9' || 'a' <= c <= 'f' || 'A' <= c <= 'F'
  }

  /** Any 36 hexadecimal digits are a UUID, in which four places may also hold a dash. */
  lemma UuidMeans(s: string, registry: Registry)
    ensures Matches(Uuid, s, registry) <==>
            |s| == 36 && forall i :: 0 <= i < 36 ==> HexDigit(s[i]) || (i in [8, 13, 18, 23] && s[i] == '-')
  {
  }

  predicate Is(n: real, z: int) {
    n == z as real
  }

  lemma WholeNumbers(n: real)
    ensures IsInteger(n) <==> exists z :: Is(n, z)
  {
    if IsInteger(n) {
      assert Is(n, n.Floor);
    }
    if z :| Is(n, z) {
      assert n.Floor == z;
    }
  }

  // ---- Constraints, one by one and all at once ----

  /** The errors of a text, in full. */
  lemma TextErrors(s: string, required: bool, min: Option<real>, max: Option<real>, pattern: Option<Pattern>,
                   enumValues: Option<seq<string>>, registry: Registry)
    ensures var length := ByteLength(s) as real;
            Codes(Str(s), StringField(required, min, max, pattern, enumValues), registry) ==
            (if min.Some? && length < min.value then [MinLength] else []) +
            (if max.Some? && length > max.value then [MaxLength] else []) +
            (if pattern.Some? && !Matches(pattern.value, s, registry) then [PatternCode] else []) +
            (if enumValues.Some? && s !in enumValues.value then [EnumCode] else [])
  {
    hide ByteLength, Matches;
  }

  /** The errors of a number; only an integer field, or a number field that says so, asks for a whole one. */
  lemma NumberErrors(n: real, required: bool, min: Option<real>, max: Option<real>, whole: bool, registry: Registry)
    ensures Codes(Num(n), NumberField(required, min, max, whole), registry) ==
            (if whole && !IsInteger(n) then [IntegerCode] else []) +
            (if min.Some? && n < min.value then [Min] else []) + (if max.Some? && n > max.value then [Max] else [])
    ensures Codes(Num(n), IntegerField(required, min, max), registry) == Codes(Num(n), NumberField(required, min, max, true), registry)
  {
    hide IsInteger;
    var codes := NumberCodes(n, min, max, whole);
    assert codes == (if whole && !IsInteger(n) then [IntegerCode] else []) +
                    (if min.Some? && n < min.value then [Min] else []) + (if max.Some? && n > max.value then [Max] else []);
  }

  /** The errors of an array itself. */
  lemma ArrayErrors(items: seq<Json>, required: bool, item: Option<Field>, min: Option<real>, max: Option<real>, registry: Registry)
    ensures Codes(Arr(items), ArrayField(required, item, min, max), registry) ==
            (if min.Some? && |items| as real < min.value then [MinItems] else []) +
            (if max.Some? && |items| as real > max.value then [MaxItems] else [])
  {
  }

  predicate Suits(v: Json, f: Field) {
    (v.Str? && f.StringField?) || (v.Num? && (f.NumberField? || f.IntegerField?)) || (v.Bool? && f.BooleanField?) ||
    (v.Obj? && f.ObjectField?) || (v.Arr? && f.ArrayField?)
  }

  /** A value of another type is only that. */
  lemma WrongTypes(v: Json, f: Field, registry: Registry)
    ensures Suits(v, f) ==> TypeCode !in Codes(v, f, registry)
    ensures !Suits(v, f) ==> Violations(v, f, registry) == [Violation([], TypeCode)]
  {
    hide ByteLength, Matches, IsInteger;
    CodesMean(v, f, registry, TypeCode);
    if !HasType(v, f) {
      assert Codes(v, f, registry) == [TypeCode] && Nested(v, f, registry) == [];
    }
  }

  // ---- Queries ----

  ghost function QueryErrors(params: map<string, string>, schema: seq<Property>, registry: Registry, fallback: Fallback): seq<ValidationError> {
    Render("query", QueryViolations(params, schema, |schema|, registry, fallback))
  }

  /** A query section of one property. */
  lemma OneParameter(params: map<string, string>, k: string, f: Field, registry: Registry, fallback: Fallback)
    ensures QueryErrors(params, [Property(k, f)], registry, fallback) ==
            if k !in params then if f.required then [ValidationError("query." + k, Required)] else []
            else Render("query." + k, Violations(Coerce(params[k], f, fallback), f, registry))
  {
    QueryRendered(params, [Property(k, f)], 0, registry, fallback, "query");
    QueryStart(params, [Property(k, f)], registry, fallback);
    hide Render, Violations, Coerce;
    assert "query" + "." + k == "query." + k;
    assert forall es: seq<ValidationError> :: [] + es == es;
  }

  /** Eight texts are booleans. */
  lemma BooleanParameter(s: string, k: string, required: bool, registry: Registry, fallback: Fallback)
    ensures QueryErrors(map[k := s], [Property(k, BooleanField(required))], registry, fallback) ==
            if s == "true" || s == "false" || s == "1" || s == "0" || s == "yes" || s == "no" || s == "TRUE" || s == "FALSE" then []
            else [ValidationError("query." + k, TypeCode)]
  {
    var f := BooleanField(required);
    OneParameter(map[k := s], k, f, registry, fallback);
    if !MatchesBoolean(s) {
      OnlyTypeError("query." + k, Coerce(s, f, fallback), f, registry);
    } else {
      assert Codes(Coerce(s, f, fallback), f, registry) == [] && Nested(Coerce(s, f, fallback), f, registry) == [];
      assert Violations(Coerce(s, f, fallback), f, registry) == [];
    }
  }

  lemma OnlyTypeError(path: string, v: Json, f: Field, registry: Registry)
    requires !HasType(v, f)
    ensures Render(path, Violations(v, f, registry)) == [ValidationError(path, TypeCode)]
  {
    assert Codes(v, f, registry) == [TypeCode] && Nested(v, f, registry) == [];
    assert PathText(path, []) == path;
  }

  /** No text is an object. */
  lemma ObjectParameter(s: string, k: string, required: bool, properties: Properties, registry: Registry, fallback: Fallback)
    ensures QueryErrors(map[k := s], [Property(k, ObjectField(required, properties))], registry, fallback) ==
            [ValidationError("query." + k, TypeCode)]
  {
    var f := ObjectField(required, properties);
    OneParameter(map[k := s], k, f, registry, fallback);
    OnlyTypeError("query." + k, Coerce(s, f, fallback), f, registry);
  }

  /** A text field sees the text, a number field the number that the text is, if any. */
  lemma PlainParameters(s: string, required: bool, min: Option<real>, max: Option<real>, whole: bool, fallback: Fallback)
    ensures Coerce(s, StringField(required, min, max, None, None), fallback) == Str(s)
    ensures var n := FloatParser.Number(s, fallback);
            && Coerce(s, NumberField(required, min, max, whole), fallback) == (if n.Some? then Num(n.value) else Str(s))
            && Coerce(s, IntegerField(required, min, max), fallback) == if n.Some? then Num(n.value) else Str(s)
  {
    hide FloatParser.Number;
  }

  /** A list is separated by commas; its parts are trimmed where an item schema reads them. */
  lemma ListParameter(parts: seq<string>, f: Field, required: bool, min: Option<real>, max: Option<real>, fallback: Fallback)
    requires parts != [] && forall i :: 0 <= i < |parts| ==> ',' !in parts[i]
    ensures var v := Coerce(Text.Join(parts, ','), ArrayField(required, Some(f), min, max), fallback);
            v.Arr? && |v.items| == |parts| && forall i :: 0 <= i < |parts| ==> v.items[i] == Coerce(Trim(parts[i]), f, fallback)
    ensures var v := Coerce(Text.Join(parts, ','), ArrayField(required, None, min, max), fallback);
            v.Arr? && |v.items| == |parts| && forall i :: 0 <= i < |parts| ==> v.items[i] == Str(parts[i])
  {
    Text.SplitJoin(parts, ',');
  }

  predicate Blank(c: char) {
    c as int in [9, 10, 11, 12, 13, 32, 0x85, 0xA0, 0x1680, 0x2000, 0x2001, 0x2002, 0x2003, 0x2004, 0x2005, 0x2006, 0x2007,
                 0x2008, 0x2009, 0x200A, 0x2028, 0x2029, 0x202F, 0x205F, 0x3000]
  }

  lemma BlankIsWhitespace(c: char)
    ensures IsWhitespace(c) <==> Blank(c)
  {
  }

  /** Trimming takes white space off both ends and nothing else. */
  lemma TrimExactly(s: string) returns (i: nat, j: nat)
    ensures i <= j <= |s| && Trim(s) == s[i..j]
    ensures (forall k :: 0 <= k < i ==> Blank(s[k])) && (forall k :: j <= k < |s| ==> Blank(s[k]))
    ensures i < j ==> !Blank(s[i]) && !Blank(s[j - 1])
  {
    hide Blank, IsWhitespace;
    i := TrimmedStart(s);
    var n := TrimmedEnd(TrimStart(s));
    j := i + n;
    assert forall k :: j <= k < |s| ==> s[k] == TrimStart(s)[k - i];
  }

  lemma {:induction false} TrimmedStart(s: string) returns (i: nat)
    ensures i <= |s| && TrimStart(s) == s[i..] && (forall k :: 0 <= k < i ==> Blank(s[k])) && (i < |s| ==> !Blank(s[i]))
  {
    hide Blank, IsWhitespace;
    i := 0;
    if s != [] {
      BlankIsWhitespace(s[0]);
      if IsWhitespace(s[0]) {
        var n := TrimmedStart(s[1..]);
        i := n + 1;
        assert s[1..][n..] == s[i..];
      }
    }
  }

  lemma {:induction false} TrimmedEnd(s: string) returns (n: nat)
    ensures n <= |s| && TrimEnd(s) == s[..n] && (forall k :: n <= k < |s| ==> Blank(s[k])) && (n > 0 ==> !Blank(s[n - 1]))
  {
    hide Blank, IsWhitespace;
    n := |s|;
    if s != [] {
      BlankIsWhitespace(s[|s| - 1]);
      if IsWhitespace(s[|s| - 1]) {
        n := TrimmedEnd(s[..|s| - 1]);
        assert s[..|s| - 1][..n] == s[..n];
        assert forall k :: n <= k < |s| - 1 ==> s[k] == s[..|s| - 1][k];
      }
    }
  }
}
