/** The route selector matcher of `adapter/router/path.ts`, with wildcards and named parameters. */
module Matcher {
  import opened Path
  import opened Sequences

  /** `false`, `true`, a list of wildcard captures, or a record of named parameters. */
  datatype Match = NoMatch | Matched | Captures(parts: seq<string>) | Named(params: map<string, string>)

  predicate IsNamed(segment: string) {
    |segment| > 1 && segment[0] == ':'
  }

  function NameOf(segment: string): string
    requires IsNamed(segment)
  {
    segment[1..]
  }

  /** `true` is what the matcher answers instead of an empty capture list. */
  function Pack(captures: seq<string>): Match {
    if captures == [] then Matched else Captures(captures)
  }

  // ---- The matcher as a function of its inputs, for every selector ----

  function Walk(req: SplitPath, sel: SplitPath, i: nat, captures: seq<string>, named: map<string, string>): Match
    requires i <= |sel|
    decreases |sel| - i
  {
    if i == |sel| then
      if named != map[] then Named(named) else Pack(captures)
    else if IsNamed(sel[i]) then
      if |req| <= i then NoMatch else Walk(req, sel, i + 1, captures, named[NameOf(sel[i]) := req[i]])
    else if sel[i] == WILDCARD then
      if |req| <= i then NoMatch else Walk(req, sel, i + 1, captures + [req[i]], named)
    else if sel[i] == DOUBLE_WILDCARD then
      Pack(if |req| - i > 0 then captures + req[i..] else captures)
    else if i < |req| && sel[i] == req[i] then Walk(req, sel, i + 1, captures, named)
    else NoMatch
  }

  function MatchRoute(req: SplitPath, sel: SplitPath): Match {
    if req == [] && sel == [] then Named(map[])
    else if sel == [] then NoMatch
    else if req == [] then if sel[0] == DOUBLE_WILDCARD then Matched else NoMatch
    else if sel[0] == DOUBLE_WILDCARD then Captures(req)
    else if |sel| < |req| && sel[|sel| - 1] != DOUBLE_WILDCARD then NoMatch
    else Walk(req, sel, 0, [], map[])
  }

  method RequestPathMatchesRouteDefinition(req: SplitPath, sel: SplitPath) returns (r: Match)
    ensures r == MatchRoute(req, sel)
  {
    if req == [] && sel == [] {
      return Named(map[]);
    } else if sel == [] {
      return NoMatch;
    } else if req == [] {
      return if sel[0] == DOUBLE_WILDCARD then Matched else NoMatch;
    } else if sel[0] == DOUBLE_WILDCARD {
      return Captures(req);
    } else if |sel| < |req| {
      if sel[|sel| - 1] != DOUBLE_WILDCARD {
        return NoMatch;
      }
    }
    var captures: seq<string> := [];
    var named: map<string, string> := map[];
    for i := 0 to |sel|
      invariant Walk(req, sel, i, captures, named) == MatchRoute(req, sel)
    {
      var selector := sel[i];
      if IsNamed(selector) {
        if |req| <= i {
          return NoMatch;
        }
        named := named[NameOf(selector) := req[i]];
      } else if selector == WILDCARD {
        if |req| <= i {
          return NoMatch;
        }
        captures := captures + [req[i]];
      } else if selector == DOUBLE_WILDCARD {
        if |req| - i > 0 {
          captures := captures + req[i..];
        }
        return Pack(captures);
      } else if !(i < |req| && selector == req[i]) {
        return NoMatch;
      }
    }
    if named != map[] {
      return Named(named);
    }
    return Pack(captures);
  }

  // ---- What a match means ----

  predicate Tailed(sel: SplitPath) {
    sel != [] && sel[|sel| - 1] == DOUBLE_WILDCARD
  }

  predicate Fits(selector: string, segment: string) {
    IsNamed(selector) || selector == WILDCARD || selector == segment
  }

  /** Segment by segment, with a final double wildcard taking any rest, even an empty one. */
  predicate Admits(req: SplitPath, sel: SplitPath) {
    if sel == [] then req == []
    else if sel == [DOUBLE_WILDCARD] then true
    else req != [] && Fits(sel[0], req[0]) && Admits(req[1..], sel[1..])
  }

  /** The segments the wildcards of `sel` stand for. */
  function Captured(req: SplitPath, sel: SplitPath): seq<string>
    requires Admits(req, sel)
  {
    if sel == [] then []
    else if sel == [DOUBLE_WILDCARD] then req
    else (if sel[0] == WILDCARD then [req[0]] else []) + Captured(req[1..], sel[1..])
  }

  /** The value of each named parameter; a name used twice keeps its last value. */
  function Params(req: SplitPath, sel: SplitPath): map<string, string>
    requires Admits(req, sel)
  {
    if sel == [] || sel == [DOUBLE_WILDCARD] then map[]
    else (if IsNamed(sel[0]) then map[NameOf(sel[0]) := req[0]] else map[]) + Params(req[1..], sel[1..])
  }

  function Meaning(req: SplitPath, sel: SplitPath): Match {
    if !Admits(req, sel) then NoMatch
    else if sel == [] then Named(map[])
    else if Tailed(sel) then Pack(Captured(req, sel))
    else if Params(req, sel) != map[] then Named(Params(req, sel))
    else Pack(Captured(req, sel))
  }

  function Answer(req: SplitPath, sel: SplitPath, captures: seq<string>, named: map<string, string>): Match {
    if !Admits(req, sel) then NoMatch
    else if Tailed(sel) || named + Params(req, sel) == map[] then Pack(captures + Captured(req, sel))
    else Named(named + Params(req, sel))
  }

  /** What one segment adds to the captures and to the parameters. */
  function CapturedHere(segment: string, selector: string): seq<string> {
    if selector == WILDCARD then [segment] else []
  }

  function ParamsHere(segment: string, selector: string): map<string, string> {
    if IsNamed(selector) then map[NameOf(selector) := segment] else map[]
  }

  lemma FirstSegment(req: SplitPath, sel: SplitPath)
    requires req != [] && sel != [] && sel[0] != DOUBLE_WILDCARD
    ensures Admits(req, sel) <==> Fits(sel[0], req[0]) && Admits(req[1..], sel[1..])
    ensures Admits(req, sel) ==>
              && Captured(req, sel) == CapturedHere(req[0], sel[0]) + Captured(req[1..], sel[1..])
              && Params(req, sel) == ParamsHere(req[0], sel[0]) + Params(req[1..], sel[1..])
  {
  }

  /** The same behind what was captured before. */
  lemma Unfolded(req: SplitPath, sel: SplitPath, captures: seq<string>, named: map<string, string>)
    requires sel != [] && sel[0] != DOUBLE_WILDCARD && Admits(req, sel)
    ensures req != [] && Fits(sel[0], req[0]) && Admits(req[1..], sel[1..])
    ensures captures + Captured(req, sel) ==
            (if sel[0] == WILDCARD then captures + [req[0]] else captures) + Captured(req[1..], sel[1..])
    ensures named + Params(req, sel) ==
            (if IsNamed(sel[0]) then named[NameOf(sel[0]) := req[0]] else named) + Params(req[1..], sel[1..])
  {
    hide Captured, Params, IsNamed, NameOf, Fits;
    FirstSegment(req, sel);
    Associate(captures, CapturedHere(req[0], sel[0]), Captured(req[1..], sel[1..]));
    assert captures + [] == captures;
  }

  lemma AnswerStep(req: SplitPath, sel: SplitPath, captures: seq<string>, named: map<string, string>)
    requires req != [] && sel != [] && sel[0] != DOUBLE_WILDCARD
    ensures var captures' := if sel[0] == WILDCARD then captures + [req[0]] else captures;
            var named' := if IsNamed(sel[0]) then named[NameOf(sel[0]) := req[0]] else named;
            Answer(req, sel, captures, named) ==
            if Fits(sel[0], req[0]) then Answer(req[1..], sel[1..], captures', named') else NoMatch
  {
    assert Tailed(sel) == Tailed(sel[1..]);
    if Admits(req, sel) {
      Unfolded(req, sel, captures, named);
      hide Captured, Params, IsNamed, NameOf, Fits, Admits;
    } else {
      hide Captured, Params, IsNamed, NameOf, Fits;
    }
  }

  lemma {:induction false} WalkAnswers(req: SplitPath, sel: SplitPath, i: nat,
                                       captures: seq<string>, named: map<string, string>)
    requires Legal(sel) && i <= |sel| && i <= |req| && (Tailed(sel) || |req| <= |sel|)
    requires i == |sel| ==> !Tailed(sel)
    ensures Walk(req, sel, i, captures, named) == Answer(req[i..], sel[i..], captures, named)
    decreases |sel| - i
  {
    if i == |sel| {
      assert captures + [] == captures && named + map[] == named;
    } else if sel[i] == DOUBLE_WILDCARD {
      assert sel[i..] == [DOUBLE_WILDCARD];
      assert req[i..] == [] ==> captures + req[i..] == captures;
    } else if i < |req| {
      assert sel[i..][1..] == sel[i + 1..] && req[i..][1..] == req[i + 1..];
      AnswerStep(req[i..], sel[i..], captures, named);
      var captures' := if sel[i] == WILDCARD then captures + [req[i]] else captures;
      var named' := if IsNamed(sel[i]) then named[NameOf(sel[i]) := req[i]] else named;
      WalkAnswers(req, sel, i + 1, captures', named');
    }
  }

  /** The code answers what the declarative reading says, for every legal selector. */
  lemma MatchMeaning(req: SplitPath, sel: SplitPath)
    requires Legal(sel)
    ensures MatchRoute(req, sel) == Meaning(req, sel)
  {
    if sel != [] && sel[0] == DOUBLE_WILDCARD {
      assert |sel| == 1;
      assert sel == [DOUBLE_WILDCARD];
    } else if sel != [] && req != [] {
      if |sel| < |req| && !Tailed(sel) {
        if Admits(req, sel) {
          AdmitsLength(req, sel);
        }
      } else {
        WalkAnswers(req, sel, 0, [], map[]);
        assert req[0..] == req && sel[0..] == sel;
        if Admits(req, sel) {
          assert map[] + Params(req, sel) == Params(req, sel);
        }
      }
    }
  }

  lemma {:induction false} AdmitsLength(req: SplitPath, sel: SplitPath)
    requires Admits(req, sel) && !Tailed(sel)
    ensures |req| == |sel|
  {
    if sel != [] {
      AdmitsLength(req[1..], sel[1..]);
    }
  }

  /** A selector up to its first double wildcard, which is all that is ever looked at segment by segment. */
  function Cut(sel: SplitPath): SplitPath {
    if sel == [] then [] else if sel[0] == DOUBLE_WILDCARD then [sel[0]] else [sel[0]] + Cut(sel[1..])
  }

  /** A longer request is turned away by its length alone, unless the selector starts or ends with a double wildcard. */
  predicate Overlong(req: SplitPath, sel: SplitPath) {
    |sel| < |req| && sel != [] && sel[0] != DOUBLE_WILDCARD && !Tailed(sel)
  }

  lemma {:induction false} CutFacts(sel: SplitPath)
    ensures Legal(Cut(sel)) && (Legal(sel) ==> Cut(sel) == sel)
    ensures |Cut(sel)| <= |sel| && Cut(sel) == sel[..|Cut(sel)|] && (sel != [] ==> Cut(sel) != [])
    ensures Cut(sel) != sel ==> Tailed(Cut(sel))
  {
    if sel != [] && sel[0] != DOUBLE_WILDCARD {
      CutFacts(sel[1..]);
      var rest := Cut(sel[1..]);
      assert Legal(sel) ==> Legal(sel[1..]) by {
        if Legal(sel) {
          forall i | 0 <= i < |sel[1..]| - 1 ensures sel[1..][i] != DOUBLE_WILDCARD {
            assert sel[1..][i] == sel[i + 1];
          }
        }
      }
      assert sel == [sel[0]] + sel[1..];
      assert Tailed(rest) ==> Tailed([sel[0]] + rest);
    } else if sel != [] {
      assert Legal(sel) ==> |sel| == 1;
    }
  }

  /** Behind a double wildcard the walk never goes. */
  lemma {:induction false} WalkCut(req: SplitPath, sel: SplitPath, n: nat, i: nat, captures: seq<string>, named: map<string, string>)
    requires i < n <= |sel| && sel[n - 1] == DOUBLE_WILDCARD
    ensures Walk(req, sel, i, captures, named) == Walk(req, sel[..n], i, captures, named)
    decreases n - i
  {
    if i + 1 < n {
      if i < |req| {
        WalkCut(req, sel, n, i + 1, captures, named);
        WalkCut(req, sel, n, i + 1, captures + [req[i]], named);
        if IsNamed(sel[i]) {
          WalkCut(req, sel, n, i + 1, captures, named[NameOf(sel[i]) := req[i]]);
        }
      }
    }
  }

  /** The answer for every selector, legal or not: mounting can put a double wildcard in front of other segments. */
  lemma MatchMeaningOfAll(req: SplitPath, sel: SplitPath)
    ensures MatchRoute(req, sel) == if Overlong(req, sel) then NoMatch else Meaning(req, Cut(sel))
  {
    CutFacts(sel);
    MatchMeaning(req, Cut(sel));
    if Cut(sel) == sel {
      MatchMeaning(req, sel);
    } else if sel[0] != DOUBLE_WILDCARD && req != [] && !Overlong(req, sel) {
      WalkCut(req, sel, |Cut(sel)|, 0, [], map[]);
    }
  }

  // ---- Captures rebuild the path ----

  predicate Unnamed(sel: SplitPath) {
    forall s :: s in sel ==> !IsNamed(s)
  }

  /** Puts captures back in place of the wildcards. */
  function Fill(sel: SplitPath, captures: seq<string>): SplitPath {
    if sel == [] then []
    else if sel == [DOUBLE_WILDCARD] then captures
    else if sel[0] != WILDCARD then [sel[0]] + Fill(sel[1..], captures)
    else if captures == [] then []
    else [captures[0]] + Fill(sel[1..], captures[1..])
  }

  /** As many captures as the selector has wildcards, or more when it ends in a double one. */
  predicate Suits(sel: SplitPath, captures: seq<string>) {
    if sel == [] then captures == []
    else if sel == [DOUBLE_WILDCARD] then true
    else if sel[0] != WILDCARD then Suits(sel[1..], captures)
    else captures != [] && Suits(sel[1..], captures[1..])
  }

  lemma {:induction false} FillInverse(req: SplitPath, sel: SplitPath, captures: seq<string>)
    requires Unnamed(sel)
    ensures Admits(req, sel) && Captured(req, sel) == captures <==> Suits(sel, captures) && Fill(sel, captures) == req
  {
    if sel != [] && sel != [DOUBLE_WILDCARD] {
      if req != [] {
        assert [req[0]] + req[1..] == req;
      }
      if sel[0] != WILDCARD {
        FillInverse(if req == [] then [] else req[1..], sel[1..], captures);
        if Fill(sel, captures) == req {
          assert req[1..] == Fill(sel[1..], captures);
        }
        if Admits(req, sel) {
          assert [] + Captured(req[1..], sel[1..]) == Captured(req[1..], sel[1..]);
        }
      } else if captures != [] && req != [] {
        FillInverse(req[1..], sel[1..], captures[1..]);
        assert [captures[0]] + captures[1..] == captures;
        if Fill(sel, captures) == req {
          assert req[1..] == Fill(sel[1..], captures[1..]);
        }
        if Admits(req, sel) {
          assert Captured(req, sel)[1..] == Captured(req[1..], sel[1..]);
        }
      }
    }
  }

  /** Without named parameters, the matcher answers a capture list exactly when filling it in gives the request. */
  lemma CapturesRebuildRequest(req: SplitPath, sel: SplitPath, captures: seq<string>)
    requires Legal(sel) && Unnamed(sel) && sel != []
    ensures MatchRoute(req, sel) == Pack(captures) <==> Suits(sel, captures) && Fill(sel, captures) == req
  {
    MatchMeaning(req, sel);
    FillInverse(req, sel, captures);
    if Admits(req, sel) {
      UnnamedHasNoParams(req, sel);
    }
  }

  lemma {:induction false} UnnamedHasNoParams(req: SplitPath, sel: SplitPath)
    requires Admits(req, sel) && Unnamed(sel)
    ensures Params(req, sel) == map[]
  {
    if sel != [] && sel != [DOUBLE_WILDCARD] {
      UnnamedHasNoParams(req[1..], sel[1..]);
    }
  }

  /** Only literals and named parameters, each name used once. */
  predicate NamedOnly(sel: SplitPath) {
    (forall s :: s in sel ==> s != WILDCARD && s != DOUBLE_WILDCARD) &&
    (forall i, j :: 0 <= i < j < |sel| && IsNamed(sel[i]) ==> sel[i] != sel[j])
  }

  /** Replaces each named segment by its value. */
  function FillNamed(sel: SplitPath, params: map<string, string>): SplitPath {
    seq(|sel|, i requires 0 <= i < |sel| =>
      if IsNamed(sel[i]) && NameOf(sel[i]) in params then params[NameOf(sel[i])] else sel[i])
  }

  lemma NameIdentifies(s: string, t: string)
    requires IsNamed(s) && IsNamed(t)
    ensures NameOf(s) == NameOf(t) <==> s == t
  {
    assert s == [':'] + NameOf(s) && t == [':'] + NameOf(t);
  }

  /** Every key of the record is the name of some segment. */
  lemma {:induction false} ParamsAreNames(req: SplitPath, sel: SplitPath, name: string)
    requires Admits(req, sel) && name in Params(req, sel)
    ensures exists i :: 0 <= i < |sel| && IsNamed(sel[i]) && NameOf(sel[i]) == name
  {
    if name in Params(req[1..], sel[1..]) {
      ParamsAreNames(req[1..], sel[1..], name);
      var k :| 0 <= k < |sel[1..]| && IsNamed(sel[1..][k]) && NameOf(sel[1..][k]) == name;
      assert IsNamed(sel[k + 1]) && NameOf(sel[k + 1]) == name;
    }
  }

  lemma {:induction false} ParamsAt(req: SplitPath, sel: SplitPath, i: nat)
    requires Admits(req, sel) && NamedOnly(sel)
    ensures |req| == |sel|
    ensures i < |sel| ==>
              if IsNamed(sel[i]) then NameOf(sel[i]) in Params(req, sel) && Params(req, sel)[NameOf(sel[i])] == req[i]
              else sel[i] == req[i]
  {
    if sel != [] {
      assert sel[0] in sel && forall s :: s in sel[1..] ==> s in sel;
      ParamsAt(req[1..], sel[1..], if i == 0 then 0 else i - 1);
      if i > 0 && i < |sel| {
        assert sel[i] == sel[1..][i - 1] && req[i] == req[1..][i - 1];
      } else if IsNamed(sel[0]) {
        forall name | name in Params(req[1..], sel[1..]) ensures name != NameOf(sel[0]) {
          ParamsAreNames(req[1..], sel[1..], name);
          var k :| 0 <= k < |sel[1..]| && IsNamed(sel[1..][k]) && NameOf(sel[1..][k]) == name;
          NameIdentifies(sel[1..][k], sel[0]);
          assert sel[1..][k] == sel[k + 1];
        }
      }
    }
  }

  function NamesOf(sel: SplitPath): set<string> {
    set s | s in sel && IsNamed(s) :: NameOf(s)
  }

  /** A selector without wildcards admits a request as long as itself that it fits segment by segment. */
  lemma {:induction false} AdmitsAt(req: SplitPath, sel: SplitPath)
    requires |req| == |sel| && DOUBLE_WILDCARD !in sel && forall i :: 0 <= i < |sel| ==> Fits(sel[i], req[i])
    ensures Admits(req, sel)
  {
    if sel != [] {
      assert sel[0] in sel;
      AdmitsAt(req[1..], sel[1..]);
    }
  }

  /** With literals and distinct named parameters only, the matcher answers a record exactly when it gives every name a
      value, and putting the values in place of the names gives the request. */
  lemma ParamsRebuildRequest(req: SplitPath, sel: SplitPath, params: map<string, string>)
    requires NamedOnly(sel)
    ensures MatchRoute(req, sel) == Named(params) <==>
            (sel == [] || NamesOf(sel) != {}) && params.Keys == NamesOf(sel) && FillNamed(sel, params) == req
  {
    NamedOnlyMeaning(req, sel);
    MatchMeaning(req, sel);
    hide MatchRoute, Meaning, Params, Admits, NamedOnly;
    if FillNamed(sel, params) == req {
      FilledIsAdmitted(req, sel, params);
    }
    if Admits(req, sel) {
      ParamsKeys(req, sel);
      ParamsFill(req, sel);
      if params.Keys == NamesOf(sel) && FillNamed(sel, params) == req {
        FilledAlike(sel, params, Params(req, sel));
      }
    }
  }

  /** Of a selector without wildcards, the matcher answers the record of its parameters, if there is one. */
  lemma NamedOnlyMeaning(req: SplitPath, sel: SplitPath)
    requires NamedOnly(sel)
    ensures Legal(sel)
    ensures Meaning(req, sel) == if !Admits(req, sel) then NoMatch
                                 else if sel == [] || Params(req, sel) != map[] then Named(Params(req, sel))
                                 else Pack(Captured(req, sel))
  {
    assert forall i :: 0 <= i < |sel| ==> sel[i] in sel;
  }

  lemma FilledIsAdmitted(req: SplitPath, sel: SplitPath, params: map<string, string>)
    requires NamedOnly(sel) && FillNamed(sel, params) == req
    ensures Admits(req, sel)
  {
    forall i | 0 <= i < |sel| ensures Fits(sel[i], req[i]) {
      assert req[i] == FillNamed(sel, params)[i];
    }
    AdmitsAt(req, sel);
  }

  /** Records of the same names that fill a selector alike are equal. */
  lemma FilledAlike(sel: SplitPath, params: map<string, string>, params': map<string, string>)
    requires params.Keys == NamesOf(sel) == params'.Keys && FillNamed(sel, params) == FillNamed(sel, params')
    ensures params == params'
  {
    forall name | name in params ensures params[name] == params'[name] {
      var s :| s in sel && IsNamed(s) && NameOf(s) == name;
      var i :| 0 <= i < |sel| && sel[i] == s;
      assert FillNamed(sel, params)[i] == params[name] && FillNamed(sel, params')[i] == params'[name];
    }
  }

  lemma ParamsKeys(req: SplitPath, sel: SplitPath)
    requires Admits(req, sel) && NamedOnly(sel)
    ensures Params(req, sel).Keys == NamesOf(sel)
  {
    forall name ensures name in Params(req, sel) <==> name in NamesOf(sel) {
      if name in Params(req, sel) {
        ParamsAreNames(req, sel, name);
      }
      if name in NamesOf(sel) {
        var s :| s in sel && IsNamed(s) && NameOf(s) == name;
        var i :| 0 <= i < |sel| && sel[i] == s;
        ParamsAt(req, sel, i);
      }
    }
  }

  lemma ParamsFill(req: SplitPath, sel: SplitPath)
    requires Admits(req, sel) && NamedOnly(sel)
    ensures FillNamed(sel, Params(req, sel)) == req
  {
    ParamsAt(req, sel, 0);
    forall i | 0 <= i < |sel| ensures FillNamed(sel, Params(req, sel))[i] == req[i] {
      ParamsAt(req, sel, i);
    }
  }

  // ---- Mounting ----

  lemma {:induction false} CutConcat(p: SplitPath, sel: SplitPath)
    ensures Cut(p + sel) == if DOUBLE_WILDCARD in p then Cut(p) else p + Cut(sel)
  {
    if p == [] {
      assert p + sel == sel;
    } else {
      assert p == [p[0]] + p[1..] && (p + sel)[1..] == p[1..] + sel;
      CutConcat(p[1..], sel);
    }
  }

  /** A prefix without double wildcards takes as many segments of the request as it has, and leaves the rest to the selector. */
  lemma {:induction false} PrefixSplits(p: SplitPath, q: SplitPath, req: SplitPath, sel: SplitPath)
    requires |q| == |p| && DOUBLE_WILDCARD !in p
    ensures Admits(q + req, p + sel) <==> Admits(q, p) && Admits(req, sel)
    ensures Admits(q, p) && Admits(req, sel) ==>
              && Captured(q + req, p + sel) == Captured(q, p) + Captured(req, sel)
              && Params(q + req, p + sel) == Params(q, p) + Params(req, sel)
    decreases p, 1
  {
    if p == [] {
      assert q + req == req && p + sel == sel;
      assert Admits(req, sel) ==> [] + Captured(req, sel) == Captured(req, sel) && map[] + Params(req, sel) == Params(req, sel);
    } else {
      PrefixStep(p, q, req, sel);
    }
  }

  lemma {:induction false} PrefixStep(p: SplitPath, q: SplitPath, req: SplitPath, sel: SplitPath)
    requires |q| == |p| && DOUBLE_WILDCARD !in p && p != []
    ensures Admits(q + req, p + sel) <==> Admits(q, p) && Admits(req, sel)
    ensures Admits(q, p) && Admits(req, sel) ==>
              && Captured(q + req, p + sel) == Captured(q, p) + Captured(req, sel)
              && Params(q + req, p + sel) == Params(q, p) + Params(req, sel)
    decreases p, 0
  {
    hide Admits, Captured, Params, Fits, CapturedHere, ParamsHere;
    assert p[0] in p;
    assert (q + req)[1..] == q[1..] + req && (p + sel)[1..] == p[1..] + sel;
    PrefixSplits(p[1..], q[1..], req, sel);
    FirstSegment(q, p);
    FirstSegment(q + req, p + sel);
    if Admits(q, p) && Admits(req, sel) {
      Associate(CapturedHere(q[0], p[0]), Captured(q[1..], p[1..]), Captured(req, sel));
      var here, rest, own := ParamsHere(q[0], p[0]), Params(q[1..], p[1..]), Params(req, sel);
      assert here + rest + own == here + (rest + own);
    }
  }

  lemma TailedConcat(p: SplitPath, sel: SplitPath)
    requires DOUBLE_WILDCARD !in p
    ensures Tailed(p + sel) <==> Tailed(sel)
  {
    if sel == [] && p != [] {
      assert (p + sel)[|p + sel| - 1] == p[|p| - 1] && p[|p| - 1] in p;
    }
  }

  /** Below a prefix without double wildcards, the captures of both parts concatenate and their parameters merge; a length
      test that the selector escapes by starting with a double wildcard applies to it once it is mounted. */
  lemma MountBelow(p: SplitPath, q: SplitPath, req: SplitPath, sel: SplitPath)
    requires p != [] && |q| == |p| && DOUBLE_WILDCARD !in p
    ensures var cut := Cut(sel);
            MatchRoute(q + req, p + sel) ==
            if !Admits(q, p) || !Admits(req, cut) || (|sel| < |req| && !Tailed(sel)) then NoMatch
            else if !Tailed(cut) && Params(q, p) + Params(req, cut) != map[] then Named(Params(q, p) + Params(req, cut))
            else Pack(Captured(q, p) + Captured(req, cut))
  {
    MatchMeaningOfAll(q + req, p + sel);
    CutConcat(p, sel);
    PrefixSplits(p, q, req, Cut(sel));
    TailedConcat(p, sel);
    TailedConcat(p, Cut(sel));
    assert p[0] in p && (p + sel)[0] == p[0];
    hide MatchRoute, Admits, Captured, Params, Cut;
  }

  /** Below a double wildcard, what is mounted matters by its length and its end only. */
  lemma MountBehindDoubleWildcard(p: SplitPath, req: SplitPath, sel: SplitPath)
    requires DOUBLE_WILDCARD in p
    ensures MatchRoute(req, p + sel) == if Overlong(req, p + sel) then NoMatch else Meaning(req, Cut(p))
  {
    MatchMeaningOfAll(req, p + sel);
    CutConcat(p, sel);
  }

  /** No wildcard and no named parameter. */
  predicate Literal(p: SplitPath) {
    forall s :: s in p ==> !IsNamed(s) && s != WILDCARD && s != DOUBLE_WILDCARD
  }

  lemma {:induction false} LiteralAdmits(p: SplitPath)
    requires Literal(p)
    ensures Admits(p, p) && Captured(p, p) == [] && Params(p, p) == map[]
  {
    if p != [] {
      assert p[0] in p;
      LiteralAdmits(p[1..]);
    }
  }

  /** Only the length test that a selector meets once it is mounted keeps it from this request. */
  predicate Outgrown(req: SplitPath, sel: SplitPath) {
    |sel| < |req| && sel != [] && sel[0] == DOUBLE_WILDCARD && !Tailed(sel)
  }

  /** Under a literal prefix every selector answers as before, but for two cases: root on root turns from `{}` into `true`,
      and a selector that starts with a double wildcard without ending in one, as mounting makes them, no longer answers
      requests longer than itself. */
  lemma MountTransparent(p: SplitPath, req: SplitPath, sel: SplitPath)
    requires p != [] && Literal(p)
    ensures MatchRoute(p + req, p + sel) ==
            if req == [] && sel == [] then Matched else if Outgrown(req, sel) then NoMatch else MatchRoute(req, sel)
  {
    hide MatchRoute, Captured, Params, Admits, Cut;
    MountBelow(p, p, req, sel);
    LiteralAdmits(p);
    MatchMeaningOfAll(req, sel);
    CutFacts(sel);
    EmptyCut(req, sel);
    if Admits(req, Cut(sel)) {
      assert [] + Captured(req, Cut(sel)) == Captured(req, Cut(sel)) && map[] + Params(req, Cut(sel)) == Params(req, Cut(sel));
    }
  }

  lemma EmptyCut(req: SplitPath, sel: SplitPath)
    ensures sel == [] ==> Cut(sel) == [] && (Admits(req, []) <==> req == [])
    ensures Admits([], []) && Captured([], []) == [] && Params([], []) == map[]
  {
  }
}
