/** Path normalisation: `adapter/router/path.ts`, and the path concatenation of `adapter/router/router.ts`. */
module Path {
  import opened Wrappers
  import opened Text

  const WILDCARD := "*"
  const DOUBLE_WILDCARD := "**"

  /** A split path; the empty list stands for `undefined`, the root. */
  type SplitPath = seq<string>

  function TrimLeft(s: string): string {
    if s != [] && s[0] == ' ' then TrimLeft(s[1..]) else s
  }

  function TrimRight(s: string): string {
    if s != [] && s[|s| - 1] == ' ' then TrimRight(s[..|s| - 1]) else s
  }

  function Trim(s: string): string {
    TrimRight(TrimLeft(s))
  }

  /** Trims every part and drops the parts that are left empty. */
  function Clean(parts: seq<string>): seq<string> {
    if parts == [] then [] else
      (if Trim(parts[0]) == [] then [] else [Trim(parts[0])]) + Clean(parts[1..])
  }

  /** What normalising a path means: split on slash, trim each part, drop empties. */
  function Segments(path: string): SplitPath {
    Clean(Split(path, '/'))
  }

  /** The shape of every normalised path. */
  ghost predicate Normal(p: SplitPath) {
    forall i :: 0 <= i < |p| ==> p[i] != [] && '/' !in p[i] && Trim(p[i]) == p[i]
  }

  // ---- Trimming ----

  lemma {:induction false} TrimLeftFacts(s: string)
    ensures var t := TrimLeft(s);
            |t| <= |s| && t == s[|s| - |t|..] && (t == [] || t[0] != ' ')
  {
    if s != [] && s[0] == ' ' {
      TrimLeftFacts(s[1..]);
    }
  }

  lemma {:induction false} TrimRightFacts(s: string)
    ensures var t := TrimRight(s);
            |t| <= |s| && t == s[..|t|] && (t == [] || t[|t| - 1] != ' ')
  {
    if s != [] && s[|s| - 1] == ' ' {
      TrimRightFacts(s[..|s| - 1]);
    }
  }

  lemma TrimIdempotent(s: string)
    ensures Trim(Trim(s)) == Trim(s)
    ensures forall c :: c !in s ==> c !in Trim(s)
  {
    TrimLeftFacts(s);
    TrimRightFacts(TrimLeft(s));
  }

  lemma {:induction false} TrimTrailingSpace(s: string)
    ensures Trim(s + [' ']) == Trim(s)
  {
    if s == [] {
      assert (s + [' '])[1..] == [];
    } else if s[0] == ' ' {
      assert (s + [' '])[1..] == s[1..] + [' '];
      TrimTrailingSpace(s[1..]);
    } else {
      assert (s + [' '])[..|s|] == s;
    }
  }

  // ---- Cleaning ----

  lemma {:induction false} CleanConcat(p: seq<string>, q: seq<string>)
    ensures Clean(p + q) == Clean(p) + Clean(q)
  {
    if p == [] {
      assert p + q == q;
    } else {
      assert (p + q)[1..] == p[1..] + q;
      CleanConcat(p[1..], q);
    }
  }

  lemma {:induction false} CleanNormal(parts: seq<string>)
    requires SeparatorFree(parts, '/')
    ensures Normal(Clean(parts))
  {
    if parts != [] {
      TrimIdempotent(parts[0]);
      CleanNormal(parts[1..]);
    }
  }

  lemma {:induction false} CleanOfNormal(p: SplitPath)
    requires Normal(p)
    ensures Clean(p) == p
  {
    if p != [] {
      CleanOfNormal(p[1..]);
    }
  }

  // ---- Properties of normalisation ----

  lemma SegmentsNormal(path: string)
    ensures Normal(Segments(path))
  {
    SplitHasNoSeparator(path, '/');
    CleanNormal(Split(path, '/'));
  }

  /** A leading slash or space never matters. */
  lemma SegmentsDropHead(path: string)
    requires path != [] && (path[0] == '/' || path[0] == ' ')
    ensures Segments(path) == Segments(path[1..])
  {
    var rest := Split(path[1..], '/');
    if path[0] == '/' {
      assert ([[]] + rest)[1..] == rest;
    } else {
      assert ([[' '] + rest[0]] + rest[1..])[1..] == rest[1..];
      assert ([' '] + rest[0])[1..] == rest[0];
    }
  }

  /** Nor does a trailing one. */
  lemma SegmentsDropLast(path: string)
    requires path != [] && (path[|path| - 1] == '/' || path[|path| - 1] == ' ')
    ensures Segments(path) == Segments(path[..|path| - 1])
  {
    var front := path[..|path| - 1];
    var p := Split(front, '/');
    if path[|path| - 1] == '/' {
      assert path == front + ['/'] + [];
      SplitConcat(front, [], '/');
      CleanConcat(p, [[]]);
    } else {
      assert path == front + [' '];
      SplitAppend(front, ' ', '/');
      var last := p[|p| - 1];
      TrimTrailingSpace(last);
      CleanConcat(p[..|p| - 1], [last + [' ']]);
      CleanConcat(p[..|p| - 1], [last]);
      assert p == p[..|p| - 1] + [last];
    }
  }

  /** Normalising is idempotent through joining. */
  lemma SegmentsIdempotent(path: string)
    ensures Segments(Join(Segments(path), '/')) == Segments(path)
  {
    var p := Segments(path);
    SegmentsNormal(path);
    if p != [] {
      SplitJoin(p, '/');
      CleanOfNormal(p);
    }
  }

  function MergeSplitPaths(prefix: SplitPath, suffix: SplitPath): SplitPath {
    if prefix == [] && suffix == [] then []
    else if prefix == [] then suffix
    else if suffix == [] then prefix
    else prefix + suffix
  }

  /** Merging two normalised paths is normalising the slash-joined text. */
  lemma MergeIsTextual(a: string, b: string)
    ensures Segments(a + "/" + b) == MergeSplitPaths(Segments(a), Segments(b))
  {
    SplitConcat(a, b, '/');
    CleanConcat(Split(a, '/'), Split(b, '/'));
  }

  // ---- The code ----

  method TrimPart(part: string) returns (r: string)
    requires '/' !in part
    ensures r == Trim(part)
  {
    r := part;
    while r != [] && (r[0] == '/' || r[0] == ' ')
      invariant '/' !in r && TrimLeft(r) == TrimLeft(part)
    {
      r := r[1..];
    }
    if |r| == 0 {
      return [];
    }
    while r != [] && (r[|r| - 1] == '/' || r[|r| - 1] == ' ')
      invariant '/' !in r && TrimRight(r) == Trim(part)
    {
      r := r[..|r| - 1];
    }
  }

  method SplitPathOf(path: Option<string>) returns (r: SplitPath)
    ensures r == if path.None? then [] else Segments(path.value)
  {
    if path.None? {
      return [];
    }
    var s := path.value;
    while s != [] && (s[0] == '/' || s[0] == ' ')
      invariant Segments(s) == Segments(path.value)
    {
      SegmentsDropHead(s);
      s := s[1..];
    }
    if |s| == 0 {
      return [];
    }
    while s != [] && (s[|s| - 1] == '/' || s[|s| - 1] == ' ')
      invariant Segments(s) == Segments(path.value)
    {
      SegmentsDropLast(s);
      s := s[..|s| - 1];
    }
    var parts := Split(s, '/');
    SplitHasNoSeparator(s, '/');
    r := [];
    for i := 0 to |parts|
      invariant r == Clean(parts[..i])
    {
      var t := TrimPart(parts[i]);
      CleanConcat(parts[..i], [parts[i]]);
      assert parts[..i + 1] == parts[..i] + [parts[i]];
      if |t| != 0 {
        r := r + [t];
      }
    }
    assert parts[..|parts|] == parts;
  }

  /** A selector is legal when a double wildcard can only be its last segment. */
  ghost predicate Legal(sel: SplitPath) {
    forall i :: 0 <= i < |sel| - 1 ==> sel[i] != DOUBLE_WILDCARD
  }

  /** The selector of a registration, or None where the source throws. */
  method SplitRoutePath(path: Option<string>) returns (r: Option<SplitPath>)
    ensures var p := if path.None? then [] else Segments(path.value);
            r == if Legal(p) then Some(p) else None
  {
    var p := SplitPathOf(path);
    if |p| > 1 && DOUBLE_WILDCARD in p[..|p| - 1] {
      return None;
    }
    assert forall i :: 0 <= i < |p| - 1 ==> p[i] == p[..|p| - 1][i];
    return Some(p);
  }

  /** A mounted selector is legal exactly when the prefix has no double wildcard before another segment. */
  lemma MergeLegal(prefix: SplitPath, suffix: SplitPath)
    ensures Legal(MergeSplitPaths(prefix, suffix)) <==>
            Legal(prefix) && Legal(suffix) && (suffix != [] ==> DOUBLE_WILDCARD !in prefix)
  {
    var m := MergeSplitPaths(prefix, suffix);
    if suffix != [] && prefix != [] {
      if DOUBLE_WILDCARD in prefix {
        var i :| 0 <= i < |prefix| && prefix[i] == DOUBLE_WILDCARD;
        assert m[i] == DOUBLE_WILDCARD;
      }
      forall i | 0 <= i < |suffix| - 1 && suffix[i] == DOUBLE_WILDCARD
        ensures m[|prefix| + i] == DOUBLE_WILDCARD
      {}
    }
  }
}
