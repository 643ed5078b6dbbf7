/** What the specification loop of dispatch comes to, spelled out route by route and member by member:
    `adapter/router/router/handler.ts`, `adapter/router/middleware.ts` and `adapter/router/method.ts`. */
module Handling {
  import opened Wrappers
  import opened Path
  import opened Matcher
  import opened Dispatch

  /** A route with a plain handler, in front of others: entered iff it is for the request's method or for all, and the
      selector admits the path; the handler sees the captures or parameters, unless there are none; a Response ends the
      dispatch, unless a promise resolves to it when one was awaited before; so do a submitted response and an upgrade. */
  lemma OneMoreRoute(b: Behaviour, verb: HttpMethod, sel: SplitPath, id: HandlerId, rest: seq<EndpointRoute>,
                     req: Request, awaited: bool, ctx: Ctx)
    requires Legal(sel)
    ensures Serve(b, [EndpointRoute(verb, sel, Plain(id))] + rest, req, awaited, ctx) ==
            if !((verb == ALL || verb == req.verb) && Admits(req.splitPath, sel)) then
              Serve(b, rest, req, awaited, ctx)
            else
              var m := Meaning(req.splitPath, sel);
              var s := b(id, if m == Matched then ctx else ctx.(pathParams := m));
              if s.value.Some? && !(awaited && s.async) then Outcome(s.ctx, [id], awaited || s.async, s.value)
              else if s.ctx.submit || s.ctx.upgraded then Outcome(s.ctx, [id], awaited || s.async, None)
              else
                var k := Serve(b, rest, req, awaited || s.async, s.ctx);
                Outcome(k.ctx, [id] + k.calls, k.async, k.value)
  {
    MatchMeaning(req.splitPath, sel);
    NeverNoMatch(req.splitPath, sel);
    hide MatchRoute, Meaning, Admits;
    var r := EndpointRoute(verb, sel, Plain(id));
    assert ([r] + rest)[1..] == rest;
    assert Accepts(r, req) <==> (verb == ALL || verb == req.verb) && Admits(req.splitPath, sel);
  }

  lemma NeverNoMatch(req: SplitPath, sel: SplitPath)
    ensures Meaning(req, sel) == NoMatch <==> !Admits(req, sel)
  {
  }

  /** At the end of the table the response is a 404, whatever handlers have put into it, unless the request was upgraded. */
  lemma NoMoreRoutes(b: Behaviour, req: Request, awaited: bool, ctx: Ctx)
    ensures Serve(b, [], req, awaited, ctx) ==
            Outcome(if ctx.upgraded then ctx else Ctx(ctx.pathParams, false, false, 404, "Not found", [], ctx.data), [], awaited, None)
  {
  }

  /** A route with a merged handler counts as one handler, whose promise and Response are those of the group. */
  lemma OneMoreGroup(b: Behaviour, verb: HttpMethod, sel: SplitPath, base: seq<Handler>, rest: seq<EndpointRoute>,
                     req: Request, awaited: bool, ctx: Ctx)
    requires Legal(sel)
    ensures Serve(b, [EndpointRoute(verb, sel, Merged(base))] + rest, req, awaited, ctx) ==
            if !((verb == ALL || verb == req.verb) && Admits(req.splitPath, sel)) then
              Serve(b, rest, req, awaited, ctx)
            else
              var m := Meaning(req.splitPath, sel);
              var g := RunAll(b, base, false, if m == Matched then ctx else ctx.(pathParams := m));
              if g.value.Some? && !(awaited && g.async) then Outcome(g.ctx, g.calls, awaited || g.async, g.value)
              else if g.ctx.submit || g.ctx.upgraded then Outcome(g.ctx, g.calls, awaited || g.async, None)
              else
                var k := Serve(b, rest, req, awaited || g.async, g.ctx);
                Outcome(k.ctx, g.calls + k.calls, k.async, k.value)
  {
    MatchMeaning(req.splitPath, sel);
    NeverNoMatch(req.splitPath, sel);
    hide MatchRoute, Meaning, Admits;
    var r := EndpointRoute(verb, sel, Merged(base));
    assert ([r] + rest)[1..] == rest;
    assert Accepts(r, req) <==> (verb == ALL || verb == req.verb) && Admits(req.splitPath, sel);
  }

  /** The members of a group, likewise. */
  lemma OneMoreMember(b: Behaviour, id: HandlerId, rest: seq<Handler>, awaited: bool, ctx: Ctx)
    ensures RunAll(b, [], awaited, ctx) == Outcome(ctx, [], awaited, None)
    ensures RunAll(b, [Plain(id)] + rest, awaited, ctx) ==
            var s := b(id, ctx);
            if s.value.Some? && !(awaited && s.async) then Outcome(s.ctx, [id], awaited || s.async, s.value)
            else if s.ctx.submit || s.ctx.upgraded then Outcome(s.ctx, [id], awaited || s.async, None)
            else
              var k := RunAll(b, rest, awaited || s.async, s.ctx);
              Outcome(k.ctx, [id] + k.calls, k.async, k.value)
  {
    assert ([Plain(id)] + rest)[1..] == rest;
  }

  /** A handler that is alone in its table is called exactly when its selector admits the path and it was registered for the
      method of the request, or for all. */
  lemma CalledExactly(b: Behaviour, verb: HttpMethod, sel: SplitPath, id: HandlerId, req: Request, ctx: Ctx)
    requires Legal(sel)
    ensures Serve(b, [EndpointRoute(verb, sel, Plain(id))], req, false, ctx).calls ==
            if (verb == ALL || verb == req.verb) && Admits(req.splitPath, sel) then [id] else []
  {
    OneMoreRoute(b, verb, sel, id, [], req, false, ctx);
    assert [EndpointRoute(verb, sel, Plain(id))] + [] == [EndpointRoute(verb, sel, Plain(id))];
    hide Admits, Meaning, MatchRoute;
    var m := Meaning(req.splitPath, sel);
    var s := b(id, if m == Matched then ctx else ctx.(pathParams := m));
    NoMoreRoutes(b, req, s.async, s.ctx);
    assert [id] + [] == [id];
  }

  /** To registrations for all methods, the method of a request makes no difference. */
  lemma {:induction false} MethodDoesNotMatter(b: Behaviour, table: seq<EndpointRoute>, path: SplitPath, v: HttpMethod, w: HttpMethod,
                                               awaited: bool, ctx: Ctx)
    requires forall r :: r in table ==> r.verb == ALL
    ensures Serve(b, table, Request(v, path), awaited, ctx) == Serve(b, table, Request(w, path), awaited, ctx)
  {
    if table != [] {
      assert table[0] in table;
      if Accepts(table[0], Request(v, path)) {
        var o := Run(b, table[0].handler, WithParams(table[0], Request(v, path), ctx));
        MethodDoesNotMatter(b, table[1..], path, v, w, awaited || o.async, o.ctx);
      } else {
        MethodDoesNotMatter(b, table[1..], path, v, w, awaited, ctx);
      }
    }
  }

  /** And every method other than that of the request makes a route as good as absent. */
  lemma {:induction false} OtherMethodsAreAbsent(b: Behaviour, table: seq<EndpointRoute>, req: Request, awaited: bool, ctx: Ctx)
    requires forall r :: r in table ==> r.verb != ALL && r.verb != req.verb
    ensures Serve(b, table, req, awaited, ctx) == Serve(b, [], req, awaited, ctx)
  {
    if table != [] {
      assert table[0] in table;
      OtherMethodsAreAbsent(b, table[1..], req, awaited, ctx);
    }
  }

  /** Method names are read as they are spelled, in capitals; anything else is unknown. */
  lemma MethodNames(name: string)
    ensures ParseHttpMethods("*") == ALL && ParseHttpMethods("GET") == GET && ParseHttpMethods("PUT") == PUT
    ensures ParseHttpMethods("POST") == POST && ParseHttpMethods("PATCH") == PATCH && ParseHttpMethods("DELETE") == DELETE
    ensures ParseHttpMethods("HEAD") == HEAD && ParseHttpMethods("OPTIONS") == OPTIONS
    ensures ParseHttpMethods("TRACE") == TRACE && ParseHttpMethods("CONNECT") == CONNECT
    ensures ParseHttpMethods(name) == UNKNOWN <==>
            name !in ["*", "GET", "PUT", "POST", "PATCH", "DELETE", "HEAD", "OPTIONS", "TRACE", "CONNECT"]
  {
  }
}
