/** What a run of the dispatch loop does, stated without the loop. */
module Serving {
  import opened Wrappers
  import opened Path
  import opened Matcher
  import opened Dispatch
  import opened Merging

  // ---- First answer wins ----

  /** The routes that accept the request, in table order. */
  function Candidates(table: seq<EndpointRoute>, req: Request): seq<EndpointRoute> {
    if table == [] then [] else
      (if Accepts(table[0], req) then [table[0]] else []) + Candidates(table[1..], req)
  }

  /** Context, calls and awaiting state once the first `n` candidates have run, whatever they answered. */
  function After(b: Behaviour, cs: seq<EndpointRoute>, req: Request, ctx: Ctx, n: nat): Outcome
    requires n <= |cs|
    decreases n, 0
  {
    if n == 0 then Outcome(ctx, [], false, None)
    else
      var before := After(b, cs, req, ctx, n - 1);
      var o := At(b, cs, req, ctx, n - 1);
      Outcome(o.ctx, before.calls + o.calls, before.async || o.async, None)
  }

  /** What candidate `k` yields when all earlier ones have run. */
  function At(b: Behaviour, cs: seq<EndpointRoute>, req: Request, ctx: Ctx, k: nat): Outcome
    requires k < |cs|
    decreases k, 1
  {
    Run(b, cs[k].handler, WithParams(cs[k], req, After(b, cs, req, ctx, k).ctx))
  }

  predicate Answers(b: Behaviour, cs: seq<EndpointRoute>, req: Request, ctx: Ctx, k: nat)
    requires k < |cs|
  {
    Ends(At(b, cs, req, ctx, k), After(b, cs, req, ctx, k).async)
  }

  lemma {:induction false} OnlyCandidatesMatter(b: Behaviour, table: seq<EndpointRoute>, req: Request, awaited: bool, ctx: Ctx)
    ensures Serve(b, table, req, awaited, ctx) == Serve(b, Candidates(table, req), req, awaited, ctx)
  {
    if table != [] {
      if Accepts(table[0], req) {
        assert Candidates(table, req) == [table[0]] + Candidates(table[1..], req);
        var o := Run(b, table[0].handler, WithParams(table[0], req, ctx));
        OnlyCandidatesMatter(b, table[1..], req, awaited || o.async, o.ctx);
      } else {
        assert Candidates(table, req) == Candidates(table[1..], req);
        OnlyCandidatesMatter(b, table[1..], req, awaited, ctx);
      }
    }
  }

  lemma {:induction false} CandidatesAccept(table: seq<EndpointRoute>, req: Request)
    ensures forall r :: r in Candidates(table, req) ==> Accepts(r, req)
  {
    if table != [] {
      CandidatesAccept(table[1..], req);
    }
  }

  lemma {:induction false} ServeAfter(b: Behaviour, cs: seq<EndpointRoute>, req: Request, ctx: Ctx, n: nat)
    requires n <= |cs| && forall r :: r in cs ==> Accepts(r, req)
    requires forall k :: 0 <= k < n ==> !Answers(b, cs, req, ctx, k)
    ensures var p := After(b, cs, req, ctx, n);
            Serve(b, cs, req, false, ctx) == Prefix(p.calls, Serve(b, cs[n..], req, p.async, p.ctx))
  {
    if n == 0 {
      assert cs[0..] == cs;
      var o := Serve(b, cs, req, false, ctx);
      assert [] + o.calls == o.calls;
    } else {
      ServeAfter(b, cs, req, ctx, n - 1);
      var p := After(b, cs, req, ctx, n - 1);
      UnfoldServe(b, cs, n - 1, req, p.async, p.ctx, p.calls);
      assert !Answers(b, cs, req, ctx, n - 1);
    }
  }

  /** If the first `n` matching handlers do not answer, each of them has run once, in table order; then the next one
      answers and nothing follows, or there is no next one and the builder says 404. */
  lemma FirstAnswerWins(b: Behaviour, table: seq<EndpointRoute>, req: Request, ctx: Ctx, n: nat)
    requires n <= |Candidates(table, req)|
    requires forall k :: 0 <= k < n ==> !Answers(b, Candidates(table, req), req, ctx, k)
    ensures var cs := Candidates(table, req);
            var p := After(b, cs, req, ctx, n);
            var r := Serve(b, table, req, false, ctx);
            if n == |cs| then
              r == Outcome(if p.ctx.upgraded then p.ctx else NotFound(p.ctx), p.calls, p.async, None)
            else
              var o := At(b, cs, req, ctx, n);
              Answers(b, cs, req, ctx, n) ==>
                r == Outcome(o.ctx, p.calls + o.calls, p.async || o.async, if Returned(o, p.async) then o.value else None)
  {
    var cs := Candidates(table, req);
    var p := After(b, cs, req, ctx, n);
    OnlyCandidatesMatter(b, table, req, false, ctx);
    CandidatesAccept(table, req);
    ServeAfter(b, cs, req, ctx, n);
    if n == |cs| {
      EndServe(b, cs, req, p.async, p.ctx, p.calls);
    } else {
      UnfoldServe(b, cs, n, req, p.async, p.ctx, p.calls);
    }
  }

  // ---- Dropped Responses ----

  /** The loop as its callers may expect it: any Response a handler returns or resolves to is the answer. */
  function ServeKeeping(b: Behaviour, table: seq<EndpointRoute>, req: Request, awaited: bool, ctx: Ctx): Outcome {
    if table == [] then
      Outcome(if ctx.upgraded then ctx else NotFound(ctx), [], awaited, None)
    else if !Accepts(table[0], req) then
      ServeKeeping(b, table[1..], req, awaited, ctx)
    else
      var o := Run(b, table[0].handler, WithParams(table[0], req, ctx));
      if o.value.Some? || Settled(o.ctx) then o.(async := awaited || o.async)
      else Prefix(o.calls, ServeKeeping(b, table[1..], req, awaited || o.async, o.ctx))
  }

  /** The Response of a handler is dropped when two of these hold: a promise was awaited before its group, one was returned
      earlier in its group, it resolves a promise itself. */
  predicate Dropped(s: Step, awaited: bool, inner: bool) {
    s.value.Some? && ((awaited && inner) || (awaited && s.async) || (inner && s.async))
  }

  /** The run of a group, entered with a promise `awaited` or not, reaches a handler whose Response is dropped; `inner` says
      whether an earlier member has returned a promise. */
  predicate GroupDrops(b: Behaviour, base: seq<HandlerId>, awaited: bool, inner: bool, ctx: Ctx) {
    base != [] &&
    var s := b(base[0], ctx);
    Dropped(s, awaited, inner) ||
    (s.value.None? && !Settled(s.ctx) && GroupDrops(b, base[1..], awaited, inner || s.async, s.ctx))
  }

  /** The run of the table reaches such a handler. */
  predicate TableDrops(b: Behaviour, table: seq<EndpointRoute>, req: Request, awaited: bool, ctx: Ctx) {
    table != [] &&
    if !Accepts(table[0], req) then
      TableDrops(b, table[1..], req, awaited, ctx)
    else
      var start := WithParams(table[0], req, ctx);
      var o := Run(b, table[0].handler, start);
      GroupDrops(b, Leaves(table[0].handler), awaited, false, start) ||
      (!Ends(o, awaited) && TableDrops(b, table[1..], req, awaited || o.async, o.ctx))
  }

  /** The keeping loop on the head of a spread group, and the group run at once. */
  lemma KeepingHead(b: Behaviour, r: EndpointRoute, base: seq<HandlerId>, rest: seq<EndpointRoute>,
                    req: Request, awaited: bool, inner: bool, ctx: Ctx)
    requires base != [] && Accepts(r, req) && WithParams(r, req, ctx) == ctx
    ensures var s := b(base[0], ctx);
            var o := Outcome(s.ctx, [base[0]], s.async, s.value);
            && ServeKeeping(b, Spread(r, base) + rest, req, awaited, ctx) ==
               (if s.value.Some? || Settled(s.ctx) then o.(async := awaited || s.async)
                else Prefix([base[0]], ServeKeeping(b, Spread(r, base[1..]) + rest, req, awaited || s.async, s.ctx)))
            && RunAll(b, Plains(base), inner, ctx) ==
               Continue(o, inner, RunAll(b, Plains(base[1..]), inner || s.async, s.ctx))
  {
    GroupHead(b, r, base, rest, req, awaited, inner, ctx);
    assert (Spread(r, base) + rest)[1..] == Spread(r, base[1..]) + rest;
    assert Run(b, Plain(base[0]), ctx) == Outcome(b(base[0], ctx).ctx, [base[0]], b(base[0], ctx).async, b(base[0], ctx).value);
  }

  /** A group that drops nothing gives, with the rest of the table behind it, what its members give when all is kept. */
  lemma {:induction false} GroupKeeps(b: Behaviour, r: EndpointRoute, base: seq<HandlerId>, rest: seq<EndpointRoute>,
                                      req: Request, awaited: bool, inner: bool, ctx: Ctx)
    requires KeepsParams(b) && Accepts(r, req) && WithParams(r, req, ctx) == ctx
    requires base == [] ==> !Settled(ctx)
    requires !GroupDrops(b, base, awaited, inner, ctx)
    ensures var g := RunAll(b, Plains(base), inner, ctx);
            ServeKeeping(b, Spread(r, base) + rest, req, awaited || inner, ctx) ==
            Continue(g, awaited, ServeKeeping(b, rest, req, awaited || g.async, g.ctx))
  {
    if base == [] {
      assert Spread(r, base) + rest == rest;
      var k := ServeKeeping(b, rest, req, awaited || inner, ctx);
      assert [] + k.calls == k.calls;
    } else {
      KeepingHead(b, r, base, rest, req, awaited || inner, inner, ctx);
      hide ServeKeeping, RunAll, Run, MatchRoute, Accepts;
      var s := b(base[0], ctx);
      var o := Outcome(s.ctx, [base[0]], s.async, s.value);
      if !Ends(o, inner) {
        var g := RunAll(b, Plains(base[1..]), inner || s.async, s.ctx);
        GroupKeeps(b, r, base[1..], rest, req, awaited, inner || s.async, s.ctx);
        ContinueAssoc(o, inner, g, awaited, ServeKeeping(b, rest, req, awaited || g.async, g.ctx));
      }
    }
  }

  lemma RunAllCalls(b: Behaviour, base: seq<HandlerId>, inner: bool, ctx: Ctx)
    ensures RunAll(b, Plains(base), inner, ctx).calls == [] ==> RunAll(b, Plains(base), inner, ctx).value == None
  {
    if base != [] {
      var o := Run(b, Plains(base)[0], ctx);
      assert Plains(base)[0] == Plain(base[0]) && o.calls == [base[0]];
    }
  }

  /** A group that drops a Response differs from its members with all kept, whatever comes behind it. */
  lemma {:induction false} GroupLoses(b: Behaviour, r: EndpointRoute, base: seq<HandlerId>, rest: seq<EndpointRoute>,
                                      req: Request, awaited: bool, inner: bool, ctx: Ctx, tail: Outcome)
    requires KeepsParams(b) && Accepts(r, req) && WithParams(r, req, ctx) == ctx
    requires GroupDrops(b, base, awaited, inner, ctx) && (tail.calls == [] ==> tail.value == None)
    ensures ServeKeeping(b, Spread(r, base) + rest, req, awaited || inner, ctx) !=
            Continue(RunAll(b, Plains(base), inner, ctx), awaited, tail)
  {
    KeepingHead(b, r, base, rest, req, awaited || inner, inner, ctx);
    var s := b(base[0], ctx);
    RunAllCalls(b, base[1..], inner || s.async, s.ctx);
    hide ServeKeeping, RunAll, Run, MatchRoute, Accepts;
    var o := Outcome(s.ctx, [base[0]], s.async, s.value);
    var g := RunAll(b, Plains(base[1..]), inner || s.async, s.ctx);
    var whole := Continue(Continue(o, inner, g), awaited, tail);
    if !Dropped(s, awaited, inner) {
      var kept := ServeKeeping(b, Spread(r, base[1..]) + rest, req, awaited || inner || s.async, s.ctx);
      GroupLoses(b, r, base[1..], rest, req, awaited, inner || s.async, s.ctx, tail);
      ContinueAssoc(o, inner, g, awaited, tail);
      if Prefix([base[0]], kept) == Prefix([base[0]], Continue(g, awaited, tail)) {
        PrefixCancels([base[0]], kept, Continue(g, awaited, tail));
      }
    } else if !Ends(o, inner) {
      ContinueAssoc(o, inner, g, awaited, tail);
      LostBehind([base[0]], g, awaited, tail, s.value);
    } else if !Settled(s.ctx) {
      assert tail.calls != [] ==> |[base[0]] + tail.calls| > 1;
    }
  }

  /** Whatever carries on without a Response does not end with one unless it calls something. */
  lemma LostBehind(calls: seq<HandlerId>, g: Outcome, awaited: bool, tail: Outcome, value: Option<Response>)
    requires (g.calls == [] ==> g.value == None) && (tail.calls == [] ==> tail.value == None) && value.Some?
    ensures var o := Prefix(calls, Continue(g, awaited, tail)); o.calls != calls || o.value != value
  {
    var o := Continue(g, awaited, tail);
    if calls + o.calls == calls {
      assert |calls + o.calls| == |calls| + |o.calls|;
    }
  }

  /** Dispatch on the table answers as the registrations would with every Response kept exactly when its run reaches no
      handler whose Response is dropped. */
  lemma {:induction false} ResponsesKept(b: Behaviour, table: seq<EndpointRoute>, req: Request, awaited: bool, ctx: Ctx)
    requires KeepsParams(b) && AllMade(table)
    ensures Serve(b, table, req, awaited, ctx) == ServeKeeping(b, Flatten(table), req, awaited, ctx) <==>
            !TableDrops(b, table, req, awaited, ctx)
    decreases table, 1
  {
    if table != [] {
      var r, rest := table[0], table[1..];
      var base := Leaves(r.handler);
      if !Accepts(r, req) {
        SkipKeeping(b, r, base, Flatten(rest), req, awaited, ctx);
        ResponsesKept(b, rest, req, awaited, ctx);
      } else {
        ResponsesKeptBehind(b, table, req, awaited, ctx);
      }
    }
  }

  lemma {:induction false} ResponsesKeptBehind(b: Behaviour, table: seq<EndpointRoute>, req: Request, awaited: bool, ctx: Ctx)
    requires KeepsParams(b) && AllMade(table) && table != [] && Accepts(table[0], req)
    ensures Serve(b, table, req, awaited, ctx) == ServeKeeping(b, Flatten(table), req, awaited, ctx) <==>
            !TableDrops(b, table, req, awaited, ctx)
    decreases table, 0
  {
    var r, rest := table[0], table[1..];
    var base := Leaves(r.handler);
    AcceptedGroup(b, table, req, awaited, ctx);
    AcceptedKeeping(b, table, req, awaited, ctx);
    hide Serve, ServeKeeping, RunAll, Run, MatchRoute, Accepts, Flatten;
    var start := WithParams(r, req, ctx);
    var o := Run(b, r.handler, start);
    var tail := Serve(b, rest, req, awaited || o.async, o.ctx);
    var kept := ServeKeeping(b, Flatten(rest), req, awaited || o.async, o.ctx);
    if GroupDrops(b, base, awaited, false, start) {
      ServeTail(b, rest, req, awaited || o.async, o.ctx);
      GroupLoses(b, r, base, Flatten(rest), req, awaited, false, start, tail);
    } else {
      GroupKeeps(b, r, base, Flatten(rest), req, awaited, false, start);
      if !Ends(o, awaited) {
        ResponsesKept(b, rest, req, awaited || o.async, o.ctx);
        if Prefix(o.calls, tail) == Prefix(o.calls, kept) {
          PrefixCancels(o.calls, tail, kept);
        }
      }
    }
  }

  lemma {:induction false} SkipKeeping(b: Behaviour, r: EndpointRoute, base: seq<HandlerId>, rest: seq<EndpointRoute>,
                                       req: Request, awaited: bool, ctx: Ctx)
    requires !Accepts(r, req)
    ensures ServeKeeping(b, Spread(r, base) + rest, req, awaited, ctx) == ServeKeeping(b, rest, req, awaited, ctx)
  {
    if base == [] {
      assert Spread(r, base) + rest == rest;
    } else {
      assert (Spread(r, base) + rest)[1..] == Spread(r, base[1..]) + rest;
      SkipKeeping(b, r, base[1..], rest, req, awaited, ctx);
    }
  }

  /** The parameters of the match are set by the first member, and the others find them set. */
  lemma AcceptedKeeping(b: Behaviour, table: seq<EndpointRoute>, req: Request, awaited: bool, ctx: Ctx)
    requires table != [] && Accepts(table[0], req) && Made(table[0].handler)
    ensures var r := table[0];
            ServeKeeping(b, Flatten(table), req, awaited, ctx) ==
            ServeKeeping(b, Spread(r, Leaves(r.handler)) + Flatten(table[1..]), req, awaited, WithParams(r, req, ctx))
  {
    var r := table[0];
    var base := Leaves(r.handler);
    RunIsRunAll(b, r.handler, WithParams(r, req, ctx));
    var flat := Flatten(table);
    assert flat == Spread(r, base) + Flatten(table[1..]);
    assert flat[0] == r.(handler := Plain(base[0]));
  }

  // ---- Mounted tables ----

  function Mounted(prefix: SplitPath, table: seq<EndpointRoute>): seq<EndpointRoute> {
    seq(|table|, i requires 0 <= i < |table| => table[i].(splitPath := MergeSplitPaths(prefix, table[i].splitPath)))
  }

  /** Mounting a mounted table is mounting once, under the concatenated prefix. */
  lemma MountAssociative(p: SplitPath, q: SplitPath, table: seq<EndpointRoute>)
    ensures Mounted(p, Mounted(q, table)) == Mounted(MergeSplitPaths(p, q), table)
  {
    var once := Mounted(MergeSplitPaths(p, q), table);
    forall i | 0 <= i < |table| ensures Mounted(p, Mounted(q, table))[i] == once[i] {
      assert p + (q + table[i].splitPath) == p + q + table[i].splitPath;
    }
  }

  lemma MountConcat(p: SplitPath, a: seq<EndpointRoute>, b: seq<EndpointRoute>)
    ensures Mounted(p, a + b) == Mounted(p, a) + Mounted(p, b)
  {
  }

  /** Mounting a merged table is merging the mounted registrations: the flat lists correspond route by route. */
  lemma {:induction false} MountFlattens(p: SplitPath, table: seq<EndpointRoute>)
    ensures Flatten(Mounted(p, table)) == Mounted(p, Flatten(table))
  {
    if table != [] {
      var r := table[0];
      MountFlattens(p, table[1..]);
      assert Mounted(p, table)[1..] == Mounted(p, table[1..]);
      var ids := Leaves(r.handler);
      assert Mounted(p, Spread(r, ids)) == Spread(Mounted(p, table)[0], ids);
      MountConcat(p, Spread(r, ids), Flatten(table[1..]));
    }
  }

  /** The run of a request enters a route that, once mounted, no longer answers requests longer than its selector. */
  predicate EntersOutgrown(b: Behaviour, table: seq<EndpointRoute>, req: Request, awaited: bool, ctx: Ctx) {
    table != [] &&
    if !Accepts(table[0], req) then
      EntersOutgrown(b, table[1..], req, awaited, ctx)
    else
      var o := Run(b, table[0].handler, WithParams(table[0], req, ctx));
      Outgrown(req.splitPath, table[0].splitPath) ||
      (!Ends(o, awaited) && EntersOutgrown(b, table[1..], req, awaited || o.async, o.ctx))
  }

  /** Below a literal prefix the mounted table serves as the sub-router did when its run enters no outgrown route, and, with
      registrations told apart by their numbers, only then; a root route, which a root request enters with other parameters
      once mounted, is another matter. */
  lemma {:induction false} MountedServesAlike(b: Behaviour, p: SplitPath, table: seq<EndpointRoute>, verb: HttpMethod,
                                              path: SplitPath, awaited: bool, ctx: Ctx)
    requires p != [] && Literal(p) && AllMade(table)
    requires path == [] ==> forall r :: r in table ==> r.splitPath != []
    ensures !EntersOutgrown(b, table, Request(verb, path), awaited, ctx) ==>
              Serve(b, Mounted(p, table), Request(verb, p + path), awaited, ctx) ==
              Serve(b, table, Request(verb, path), awaited, ctx)
    ensures Distinct(Ids(table)) && EntersOutgrown(b, table, Request(verb, path), awaited, ctx) ==>
              Serve(b, Mounted(p, table), Request(verb, p + path), awaited, ctx) !=
              Serve(b, table, Request(verb, path), awaited, ctx)
  {
    if table != [] {
      var r, rest := table[0], table[1..];
      var req, req' := Request(verb, path), Request(verb, p + path);
      assert r in table && forall q :: q in rest ==> q in table;
      assert Mounted(p, table)[1..] == Mounted(p, rest);
      MountedAt(p, table, 0);
      MountTransparent(p, path, r.splitPath);
      DistinctParts(table);
      if !Accepts(r, req) {
        MountedServesAlike(b, p, rest, verb, path, awaited, ctx);
      } else {
        var o := Run(b, r.handler, WithParams(r, req, ctx));
        if Outgrown(path, r.splitPath) {
          if Distinct(Ids(table)) {
            OutgrownShows(b, p, table, req, req', awaited, ctx);
          }
        } else {
          MountedServesAlike(b, p, rest, verb, path, awaited || o.async, o.ctx);
          var tail := Serve(b, rest, req, awaited || o.async, o.ctx);
          var tail' := Serve(b, Mounted(p, rest), req', awaited || o.async, o.ctx);
          if !Ends(o, awaited) && Prefix(o.calls, tail) == Prefix(o.calls, tail') {
            PrefixCancels(o.calls, tail, tail');
          }
        }
      }
    }
  }

  lemma {:induction false} MountedIds(p: SplitPath, table: seq<EndpointRoute>)
    ensures Ids(Mounted(p, table)) == Ids(table) && (AllMade(table) ==> AllMade(Mounted(p, table)))
  {
    if table != [] {
      assert Mounted(p, table)[1..] == Mounted(p, table[1..]);
      MountedIds(p, table[1..]);
    }
  }

  /** The original calls the head route, the mounted table does not, now or later. */
  lemma OutgrownShows(b: Behaviour, p: SplitPath, table: seq<EndpointRoute>, req: Request, req': Request, awaited: bool, ctx: Ctx)
    requires AllMade(table) && table != [] && Distinct(Ids(table)) && Accepts(table[0], req) && !Accepts(Mounted(p, table)[0], req')
    ensures Serve(b, Mounted(p, table), req', awaited, ctx) != Serve(b, table, req, awaited, ctx)
  {
    var r, rest := table[0], table[1..];
    assert Mounted(p, table)[1..] == Mounted(p, rest);
    MountedIds(p, rest);
    ServeTail(b, Mounted(p, rest), req', awaited, ctx);
    DistinctParts(table);
    RunCalls(b, r.handler, WithParams(r, req, ctx));
  }

  // ---- Root routes below a prefix ----

  /** Handlers that leave the parameters alone leave them alone when merged, too. */
  lemma {:induction false} RunKeepsParams(b: Behaviour, h: Handler, ctx: Ctx)
    requires KeepsParams(b)
    ensures Run(b, h, ctx).ctx.pathParams == ctx.pathParams
    decreases h
  {
    if h.Merged? {
      RunAllKeepsParams(b, h.base, false, ctx);
    }
  }

  lemma {:induction false} RunAllKeepsParams(b: Behaviour, base: seq<Handler>, awaited: bool, ctx: Ctx)
    requires KeepsParams(b)
    ensures RunAll(b, base, awaited, ctx).ctx.pathParams == ctx.pathParams
    decreases base
  {
    if base != [] {
      var o := Run(b, base[0], ctx);
      RunKeepsParams(b, base[0], ctx);
      RunAllKeepsParams(b, base[1..], awaited || o.async, o.ctx);
    }
  }

  /** When every route that accepts the request sets the parameters to `params` or leaves them, they stay at `params`. */
  lemma {:induction false} ServeKeepsParams(b: Behaviour, table: seq<EndpointRoute>, req: Request, awaited: bool, ctx: Ctx)
    requires KeepsParams(b)
    requires forall r :: r in table && Accepts(r, req) ==> MatchRoute(req.splitPath, r.splitPath) in {Matched, ctx.pathParams}
    ensures Serve(b, table, req, awaited, ctx).ctx.pathParams == ctx.pathParams
  {
    if table != [] {
      if Accepts(table[0], req) {
        assert table[0] in table;
        var o := Run(b, table[0].handler, WithParams(table[0], req, ctx));
        RunKeepsParams(b, table[0].handler, WithParams(table[0], req, ctx));
        ServeKeepsParams(b, table[1..], req, awaited || o.async, o.ctx);
      } else {
        ServeKeepsParams(b, table[1..], req, awaited, ctx);
      }
    }
  }

  /** The run of a request for the root enters a route registered at the root. */
  predicate EntersRoot(b: Behaviour, table: seq<EndpointRoute>, verb: HttpMethod, awaited: bool, ctx: Ctx) {
    var req := Request(verb, []);
    table != [] &&
    if !Accepts(table[0], req) then
      EntersRoot(b, table[1..], verb, awaited, ctx)
    else
      var o := Run(b, table[0].handler, WithParams(table[0], req, ctx));
      table[0].splitPath == [] || (!Ends(o, awaited) && EntersRoot(b, table[1..], verb, awaited || o.async, o.ctx))
  }

  /** At the root, only root routes and double wildcards accept; the former answer `{}`, and `true` once mounted. */
  lemma RootMatches(p: SplitPath, sel: SplitPath)
    requires p != [] && Literal(p)
    ensures MatchRoute([], sel) ==
            if sel == [] then Named(map[]) else if sel[0] == DOUBLE_WILDCARD then Matched else NoMatch
    ensures MatchRoute(p, p + sel) == if sel == [] || sel[0] == DOUBLE_WILDCARD then Matched else NoMatch
  {
    MountTransparent(p, [], sel);
    assert p + [] == p;
  }

  /** A request for the prefix itself is served as the sub-router serves its root, exactly when no root route is entered,
      or the parameters were `{}` before: nothing else tells a mounted router from the original. */
  lemma {:induction false} MountedRootServesAlike(b: Behaviour, p: SplitPath, table: seq<EndpointRoute>, verb: HttpMethod,
                                                  awaited: bool, ctx: Ctx)
    requires p != [] && Literal(p) && KeepsParams(b) && AllMade(table)
    ensures Serve(b, Mounted(p, table), Request(verb, p), awaited, ctx) == Serve(b, table, Request(verb, []), awaited, ctx) <==>
            ctx.pathParams == Named(map[]) || !EntersRoot(b, table, verb, awaited, ctx)
  {
    if table != [] {
      var r, rest := table[0], table[1..];
      var req, req' := Request(verb, []), Request(verb, p);
      assert Mounted(p, table)[1..] == Mounted(p, rest);
      MountedAt(p, table, 0);
      assert r in table;
      RootMatches(p, r.splitPath);
      if !Accepts(r, req) {
        MountedRootServesAlike(b, p, rest, verb, awaited, ctx);
      } else if r.splitPath == [] && ctx.pathParams != Named(map[]) {
        RootRouteShows(b, p, table, verb, awaited, ctx);
      } else {
        var o := Run(b, r.handler, ctx);
        RunKeepsParams(b, r.handler, ctx);
        MountedRootServesAlike(b, p, rest, verb, awaited || o.async, o.ctx);
        var tail, tail' := Serve(b, rest, req, awaited || o.async, o.ctx), Serve(b, Mounted(p, rest), req', awaited || o.async, o.ctx);
        if !Ends(o, awaited) && Prefix(o.calls, tail) == Prefix(o.calls, tail') {
          PrefixCancels(o.calls, tail, tail');
        }
      }
    }
  }

  lemma MountedAt(p: SplitPath, table: seq<EndpointRoute>, i: nat)
    requires i < |table| && p != []
    ensures Mounted(p, table)[i] == table[i].(splitPath := p + table[i].splitPath)
  {
    assert table[i].splitPath == [] ==> p + table[i].splitPath == p;
  }

  /** Entering a root route shows in the parameters at the end. */
  lemma RootRouteShows(b: Behaviour, p: SplitPath, table: seq<EndpointRoute>, verb: HttpMethod, awaited: bool, ctx: Ctx)
    requires p != [] && Literal(p) && KeepsParams(b)
    requires table != [] && Accepts(table[0], Request(verb, [])) && table[0].splitPath == []
    ensures Serve(b, table, Request(verb, []), awaited, ctx).ctx.pathParams == Named(map[])
    ensures Serve(b, Mounted(p, table), Request(verb, p), awaited, ctx).ctx.pathParams == ctx.pathParams
  {
    var req, req' := Request(verb, []), Request(verb, p);
    forall r | r in table && Accepts(r, req) ensures MatchRoute([], r.splitPath) in {Matched, Named(map[])} {
      RootMatches(p, r.splitPath);
    }
    var start := ctx.(pathParams := Named(map[]));
    RootMatches(p, []);
    ServeKeepsParams(b, table, req, awaited, start);
    assert Serve(b, table, req, awaited, ctx) == Serve(b, table, req, awaited, start);
    forall r | r in Mounted(p, table) && Accepts(r, req') ensures MatchRoute(p, r.splitPath) in {Matched, ctx.pathParams} {
      var i :| 0 <= i < |table| && Mounted(p, table)[i] == r;
      MountedAt(p, table, i);
      assert table[i] in table;
      RootMatches(p, table[i].splitPath);
    }
    ServeKeepsParams(b, Mounted(p, table), req', awaited, ctx);
  }
}
