/** Paths and selectors as they are written: `adapter/router/path.ts`. */
module Selectors {
  import opened Sequences
  import opened Text
  import opened Path
  import opened Matcher

  // ---- Paths ----

  /** Trimming takes spaces off both ends and nothing else. */
  lemma TrimExactly(s: string) returns (i: nat, j: nat)
    ensures i <= j <= |s| && Trim(s) == s[i..j]
    ensures (forall k :: 0 <= k < i ==> s[k] == ' ') && (forall k :: j <= k < |s| ==> s[k] == ' ')
    ensures i < j ==> s[i] != ' ' && s[j - 1] != ' '
  {
    TrimLeftFacts(s);
    TrimRightFacts(TrimLeft(s));
    i := |s| - |TrimLeft(s)|;
    j := i + |Trim(s)|;
    TrimmedLeft(s);
    TrimmedRight(TrimLeft(s));
    assert forall k :: j <= k < |s| ==> s[k] == TrimLeft(s)[k - i];
  }

  lemma {:induction false} TrimmedLeft(s: string)
    ensures |TrimLeft(s)| <= |s| && forall k :: 0 <= k < |s| - |TrimLeft(s)| ==> s[k] == ' '
  {
    if s != [] && s[0] == ' ' {
      TrimmedLeft(s[1..]);
    }
  }

  lemma {:induction false} TrimmedRight(s: string)
    ensures |TrimRight(s)| <= |s| && forall k :: |TrimRight(s)| <= k < |s| ==> s[k] == ' '
  {
    if s != [] && s[|s| - 1] == ' ' {
      TrimmedRight(s[..|s| - 1]);
    }
  }

  /** Every part between slashes is a segment of its own, trimmed, unless it is blank. */
  lemma PartsAreSegments(before: string, part: string, behind: string)
    requires '/' !in part
    ensures Segments(part) == if forall k :: 0 <= k < |part| ==> part[k] == ' ' then [] else [Trim(part)]
    ensures Segments(before + "/" + part + "/" + behind) == Segments(before) + Segments(part) + Segments(behind)
  {
    var i, j := TrimExactly(part);
    SplitSeparatorFree(part, '/');
    assert Clean([part]) == if Trim(part) == [] then [] else [Trim(part)];
    SegmentsJoined(before + "/" + part, behind);
    SegmentsJoined(before, part);
  }

  lemma SegmentsJoined(a: string, b: string)
    ensures Segments(a + "/" + b) == Segments(a) + Segments(b)
  {
    MergeIsTextual(a, b);
  }

  // ---- Selectors ----

  /** Segments that stand for themselves. */
  predicate Words(p: SplitPath) {
    forall s :: s in p ==> s != "*" && s != "**" && !(|s| > 1 && s[0] == ':')
  }

  lemma WordsAreLiteral(p: SplitPath)
    ensures Literal(p) <==> Words(p)
  {
  }

  lemma BetweenAdmits(p: SplitPath, q: SplitPath, req: SplitPath, sel: SplitPath)
    requires Words(p) && Words(q) && |req| == |sel| && DOUBLE_WILDCARD !in sel
    ensures Admits(p + req + q, p + sel + q) <==> Admits(req, sel)
    ensures Admits(req, sel) ==>
              Captured(p + req + q, p + sel + q) == Captured(req, sel) && Params(p + req + q, p + sel + q) == Params(req, sel)
  {
    hide Admits, Captured, Params;
    WordsAreLiteral(p);
    WordsAreLiteral(q);
    LiteralAdmits(p);
    LiteralAdmits(q);
    Associate(p, req, q);
    Associate(p, sel, q);
    PrefixSplits(p, p, req + q, sel + q);
    PrefixSplits(sel, req, q, q);
    if Admits(req, sel) {
      var captured, params := Captured(req, sel), Params(req, sel);
      assert [] + (captured + []) == captured && map[] + (params + map[]) == params;
    }
  }

  lemma BetweenLegal(p: SplitPath, q: SplitPath, sel: SplitPath)
    requires Words(p) && Words(q) && DOUBLE_WILDCARD !in sel
    ensures Legal(p + sel + q) && !Tailed(p + sel + q)
  {
    var s := p + sel + q;
    forall i | 0 <= i < |s| ensures s[i] != DOUBLE_WILDCARD {
      assert s[i] in p || s[i] in sel || s[i] in q;
    }
  }

  /** The request and the selector agree on the words before and behind one piece of both. */
  lemma Between(p: SplitPath, q: SplitPath, req: SplitPath, sel: SplitPath)
    requires Words(p) && Words(q) && |req| == |sel| && DOUBLE_WILDCARD !in sel && p + sel + q != []
    ensures MatchRoute(p + req + q, p + sel + q) ==
            if !Admits(req, sel) then NoMatch
            else if Params(req, sel) != map[] then Named(Params(req, sel))
            else Pack(Captured(req, sel))
  {
    hide MatchRoute, Admits, Captured, Params, Words, Legal, Tailed;
    BetweenAdmits(p, q, req, sel);
    BetweenLegal(p, q, sel);
    MatchMeaning(p + req + q, p + sel + q);
  }

  /** One segment of a selector. */
  lemma OneSegment(x: string, selector: string)
    requires selector != "**"
    ensures Admits([x], [selector]) <==> selector == "*" || (|selector| > 1 && selector[0] == ':') || selector == x
    ensures Admits([x], [selector]) ==>
              && Captured([x], [selector]) == (if selector == "*" then [x] else [])
              && Params([x], [selector]) == if |selector| > 1 && selector[0] == ':' then map[selector[1..] := x] else map[]
  {
    assert [x][1..] == [] && [selector][1..] == [];
  }

  /** Words match themselves, with nothing captured. */
  lemma WordsMatchThemselves(p: SplitPath, q: SplitPath)
    requires Words(p) && p != []
    ensures MatchRoute(p, p) == Matched
    ensures Words(q) ==> (MatchRoute(q, p) != NoMatch <==> q == p)
  {
    Between(p, [], [], []);
    assert p + [] + [] == p;
    if Words(q) {
      WordsDiffer(q, p);
      WordsAreLiteral(p);
      LiteralIsLegal(p);
      MatchMeaning(q, p);
    }
  }

  lemma LiteralIsLegal(p: SplitPath)
    requires Literal(p)
    ensures Legal(p) && !Tailed(p)
  {
    assert forall i :: 0 <= i < |p| ==> p[i] in p;
  }

  lemma {:induction false} WordsDiffer(q: SplitPath, p: SplitPath)
    requires Words(p)
    ensures Admits(q, p) <==> q == p
  {
    if p != [] {
      assert p[0] in p && p[0] != "**";
      if q != [] {
        WordsDiffer(q[1..], p[1..]);
        assert q == [q[0]] + q[1..] && p == [p[0]] + p[1..];
      }
    }
  }

  /** `*` takes one segment, whatever it is. */
  lemma StarTakesOne(p: SplitPath, q: SplitPath, x: string)
    requires Words(p) && Words(q)
    ensures MatchRoute(p + [x] + q, p + ["*"] + q) == Captures([x])
  {
    OneSegment(x, "*");
    Between(p, q, [x], ["*"]);
  }

  /** `:name` takes one and calls it `name`. */
  lemma NameTakesOne(p: SplitPath, q: SplitPath, name: string, x: string)
    requires Words(p) && Words(q) && name != ""
    ensures MatchRoute(p + [x] + q, p + [":" + name] + q) == Named(map[name := x])
  {
    assert (":" + name)[1..] == name && (":" + name)[0] == ':';
    OneSegment(x, ":" + name);
    assert name in Params([x], [":" + name]);
    Between(p, q, [x], [":" + name]);
  }

  /** A lone colon is a word. */
  lemma ColonIsAWord(p: SplitPath)
    ensures Words([":"])
  {
  }

  /** `**` at the end takes the rest, even an empty one. */
  lemma DoubleStarTakesRest(p: SplitPath, rest: SplitPath)
    requires Words(p)
    ensures MatchRoute(p + rest, p + ["**"]) == if rest == [] then Matched else Captures(rest)
  {
    WordsAreLiteral(p);
    LiteralAdmits(p);
    PrefixSplits(p, p, rest, ["**"]);
    TailedConcat(p, ["**"]);
    WordsThenDouble(p);
    MatchMeaning(p + rest, p + ["**"]);
    hide MatchRoute, Captured, Params, Admits;
    assert [] + rest == rest;
    TailAdmits(rest);
  }

  lemma TailAdmits(rest: SplitPath)
    ensures Admits(rest, ["**"]) && Captured(rest, ["**"]) == rest && Params(rest, ["**"]) == map[]
  {
  }

  lemma WordsThenDouble(p: SplitPath)
    requires DOUBLE_WILDCARD !in p
    ensures Legal(p + ["**"])
  {
    forall i | 0 <= i < |p + ["**"]| - 1 ensures (p + ["**"])[i] != DOUBLE_WILDCARD {
      assert p[i] in p;
    }
  }

  /** Names oust captures. */
  lemma NamesOustCaptures(name: string, x: string, y: string)
    requires name != ""
    ensures MatchRoute([x, y], ["*", ":" + name]) == Named(map[name := y])
  {
    var named := ":" + name;
    assert named[1..] == name && named[0] == ':';
    TwoSegments(x, "*", y, named);
    assert name in Params([x, y], ["*", named]);
  }

  /** A name used twice has its last value. */
  lemma LastValueCounts(name: string, x: string, y: string)
    requires name != ""
    ensures MatchRoute([x, y], [":" + name, ":" + name]) == Named(map[name := y])
  {
    var named := ":" + name;
    assert named[1..] == name && named[0] == ':';
    TwoSegments(x, named, y, named);
    assert name in Params([x, y], [named, named]);
  }

  lemma TwoSegments(x: string, selector: string, y: string, selector': string)
    requires selector != "**" && selector' != "**"
    ensures Admits([x, y], [selector, selector']) <==> Admits([x], [selector]) && Admits([y], [selector'])
    ensures Admits([x], [selector]) && Admits([y], [selector']) ==>
              && Captured([x, y], [selector, selector']) == Captured([x], [selector]) + Captured([y], [selector'])
              && Params([x, y], [selector, selector']) == Params([x], [selector]) + Params([y], [selector'])
    ensures MatchRoute([x, y], [selector, selector']) ==
            if !Admits([x, y], [selector, selector']) then NoMatch
            else if Params([x, y], [selector, selector']) != map[] then Named(Params([x, y], [selector, selector']))
            else Pack(Captured([x, y], [selector, selector']))
    ensures forall z, t {:trigger Admits([z], [t])} :: t != "**" ==>
              && (Admits([z], [t]) <==> t == "*" || (|t| > 1 && t[0] == ':') || t == z)
              && (Admits([z], [t]) ==>
                    && Captured([z], [t]) == (if t == "*" then [z] else [])
                    && Params([z], [t]) == if |t| > 1 && t[0] == ':' then map[t[1..] := z] else map[])
  {
    hide MatchRoute, Admits, Captured, Params;
    assert [x, y] == [x] + [y] && [selector, selector'] == [selector] + [selector'];
    PrefixSplits([selector], [x], [y], [selector']);
    assert Words([]);
    Between([], [], [x, y], [selector, selector']);
    assert [] + [x, y] + [] == [x, y] && [] + [selector, selector'] + [] == [selector, selector'];
    forall z, t {:trigger Admits([z], [t])} | t != "**"
      ensures Admits([z], [t]) <==> t == "*" || (|t| > 1 && t[0] == ':') || t == z
      ensures Admits([z], [t]) ==>
                && Captured([z], [t]) == (if t == "*" then [z] else [])
                && Params([z], [t]) == if |t| > 1 && t[0] == ':' then map[t[1..] := z] else map[]
    {
      OneSegment(z, t);
    }
  }

  /** A final `**` ousts names. */
  lemma NamedThenDouble(named: string, x: string, rest: SplitPath)
    requires |named| > 1 && named[0] == ':'
    ensures MatchRoute([x] + rest, [named, "**"]) == if rest == [] then Matched else Captures(rest)
  {
    hide Admits, Captured, Params, MatchRoute;
    OneSegment(x, named);
    TailAdmits(rest);
    PrefixSplits([named], [x], rest, ["**"]);
    assert [named, "**"] == [named] + ["**"];
    MatchMeaning([x] + rest, [named, "**"]);
    assert [] + rest == rest;
  }

  /** Root on root. */
  lemma RootOnRoot(sel: SplitPath)
    ensures MatchRoute([], []) == Named(map[])
    ensures Legal(sel) && sel != [] ==> MatchRoute([], sel) == if sel == ["**"] then Matched else NoMatch
  {
    MatchMeaning([], []);
    if Legal(sel) {
      MatchMeaning([], sel);
    }
  }
}
