/** The dispatch loops of `adapter/router/router/handler.ts` and the merged handlers of
    `adapter/router/middleware.ts`, related to one specification loop. */
module Dispatch {
  import opened Wrappers
  import opened Path
  import opened Matcher

  datatype HttpMethod = ALL | GET | PUT | POST | PATCH | DELETE | HEAD | OPTIONS | TRACE | CONNECT | UNKNOWN

  function ParseHttpMethods(name: string): HttpMethod {
    match name
    case "*" => ALL
    case "GET" => GET
    case "PUT" => PUT
    case "POST" => POST
    case "PATCH" => PATCH
    case "DELETE" => DELETE
    case "HEAD" => HEAD
    case "OPTIONS" => OPTIONS
    case "TRACE" => TRACE
    case "CONNECT" => CONNECT
    case _ => UNKNOWN
  }

  /** One registration of a handler. */
  type HandlerId = nat

  datatype Response = Response(status: int, body: string)

  /** What a handler can read and change of the request and the response builder. */
  datatype Ctx = Ctx(
    pathParams: Match,
    submit: bool,
    upgraded: bool,
    status: int,
    body: string,
    headers: seq<(string, string)>,
    data: map<string, string>)

  /** What calling a handler yields: the context once its promise, if any, has settled,
      whether there was a promise, and the Response it returned or resolved to, if any. */
  datatype Step = Step(ctx: Ctx, async: bool, value: Option<Response>)

  type Behaviour = (HandlerId, Ctx) -> Step

  datatype Handler = Plain(id: HandlerId) | Merged(base: seq<Handler>)

  datatype EndpointRoute = EndpointRoute(verb: HttpMethod, splitPath: SplitPath, handler: Handler)

  datatype Request = Request(verb: HttpMethod, splitPath: SplitPath)

  /** A finished piece of dispatch: the context, the handlers called, whether it was asynchronous, the Response. */
  datatype Outcome = Outcome(ctx: Ctx, calls: seq<HandlerId>, async: bool, value: Option<Response>)

  predicate Settled(ctx: Ctx) {
    ctx.submit || ctx.upgraded
  }

  /** The builder after `reset().status(404).body("Not found")`. */
  function NotFound(ctx: Ctx): Ctx {
    ctx.(submit := false, headers := [], status := 404, body := "Not found")
  }

  /** A Response counts, except one a promise resolves to once a promise has already been awaited. */
  predicate Returned(o: Outcome, awaited: bool) {
    o.value.Some? && !(o.async && awaited)
  }

  predicate Ends(o: Outcome, awaited: bool) {
    Returned(o, awaited) || Settled(o.ctx)
  }

  /** How a loop that has awaited a promise, or not, carries on after `o`; `rest` is the remainder of the loop. */
  function Continue(o: Outcome, awaited: bool, rest: Outcome): Outcome {
    if Ends(o, awaited) then
      Outcome(o.ctx, o.calls, awaited || o.async, if Returned(o, awaited) then o.value else None)
    else
      Outcome(rest.ctx, o.calls + rest.calls, rest.async, rest.value)
  }

  function Run(b: Behaviour, h: Handler, ctx: Ctx): Outcome
    decreases h
  {
    match h
    case Plain(id) => var s := b(id, ctx); Outcome(s.ctx, [id], s.async, s.value)
    case Merged(base) => RunAll(b, base, false, ctx)
  }

  /** The handlers of a merged one, in order. */
  function RunAll(b: Behaviour, base: seq<Handler>, awaited: bool, ctx: Ctx): Outcome
    decreases base
  {
    if base == [] then Outcome(ctx, [], awaited, None)
    else
      var o := Run(b, base[0], ctx);
      Continue(o, awaited, RunAll(b, base[1..], awaited || o.async, o.ctx))
  }

  predicate Accepts(r: EndpointRoute, req: Request) {
    (r.verb == ALL || r.verb == req.verb) && MatchRoute(req.splitPath, r.splitPath) != NoMatch
  }

  /** A bare `true` leaves the parameters of an earlier match in place. */
  function WithParams(r: EndpointRoute, req: Request, ctx: Ctx): Ctx {
    var m := MatchRoute(req.splitPath, r.splitPath);
    if m == Matched then ctx else ctx.(pathParams := m)
  }

  /** The one loop that both dispatchers implement: matching handlers in table order until one answers, else 404. */
  function Serve(b: Behaviour, table: seq<EndpointRoute>, req: Request, awaited: bool, ctx: Ctx): Outcome {
    if table == [] then
      Outcome(if ctx.upgraded then ctx else NotFound(ctx), [], awaited, None)
    else if !Accepts(table[0], req) then
      Serve(b, table[1..], req, awaited, ctx)
    else
      var o := Run(b, table[0].handler, WithParams(table[0], req, ctx));
      Continue(o, awaited, Serve(b, table[1..], req, awaited || o.async, o.ctx))
  }

  function Prefix(calls: seq<HandlerId>, o: Outcome): Outcome {
    o.(calls := calls + o.calls)
  }

  lemma PrefixContinue(done: seq<HandlerId>, o: Outcome, awaited: bool, rest: Outcome)
    ensures Prefix(done, Continue(o, awaited, rest)) ==
            if Ends(o, awaited) then Prefix(done, Continue(o, awaited, o)) else Prefix(done + o.calls, rest)
  {
    assert done + (o.calls + rest.calls) == done + o.calls + rest.calls;
  }

  lemma UnfoldRunAll(b: Behaviour, base: seq<Handler>, i: nat, awaited: bool, ctx: Ctx, done: seq<HandlerId>)
    requires i < |base|
    ensures var o := Run(b, base[i], ctx);
            Prefix(done, RunAll(b, base[i..], awaited, ctx)) ==
            if Ends(o, awaited) then Prefix(done, Continue(o, awaited, o))
            else Prefix(done + o.calls, RunAll(b, base[i + 1..], awaited || o.async, o.ctx))
  {
    var o := Run(b, base[i], ctx);
    assert base[i..][1..] == base[i + 1..];
    PrefixContinue(done, o, awaited, RunAll(b, base[i + 1..], awaited || o.async, o.ctx));
  }

  lemma EndRunAll(b: Behaviour, base: seq<Handler>, awaited: bool, ctx: Ctx, done: seq<HandlerId>)
    ensures Prefix(done, RunAll(b, base[|base|..], awaited, ctx)) == Outcome(ctx, done, awaited, None)
  {
  }

  lemma EndServe(b: Behaviour, table: seq<EndpointRoute>, req: Request, awaited: bool, ctx: Ctx, done: seq<HandlerId>)
    ensures Prefix(done, Serve(b, table[|table|..], req, awaited, ctx)) ==
            Outcome(if ctx.upgraded then ctx else NotFound(ctx), done, awaited, None)
  {
  }

  lemma UnfoldServe(b: Behaviour, table: seq<EndpointRoute>, i: nat, req: Request, awaited: bool, ctx: Ctx, done: seq<HandlerId>)
    requires i < |table|
    ensures Prefix(done, Serve(b, table[i..], req, awaited, ctx)) ==
            if !Accepts(table[i], req) then Prefix(done, Serve(b, table[i + 1..], req, awaited, ctx))
            else
              var o := Run(b, table[i].handler, WithParams(table[i], req, ctx));
              if Ends(o, awaited) then Prefix(done, Continue(o, awaited, o))
              else Prefix(done + o.calls, Serve(b, table[i + 1..], req, awaited || o.async, o.ctx))
  {
    assert table[i..][1..] == table[i + 1..];
    if Accepts(table[i], req) {
      var o := Run(b, table[i].handler, WithParams(table[i], req, ctx));
      PrefixContinue(done, o, awaited, Serve(b, table[i + 1..], req, awaited || o.async, o.ctx));
    }
  }

  /** Once awaited, always asynchronous. */
  lemma {:induction false} RunAllStaysAsync(b: Behaviour, base: seq<Handler>, ctx: Ctx)
    ensures RunAll(b, base, true, ctx).async
  {
    if base != [] {
      RunAllStaysAsync(b, base[1..], Run(b, base[0], ctx).ctx);
    }
  }

  lemma {:induction false} ServeStaysAsync(b: Behaviour, table: seq<EndpointRoute>, req: Request, ctx: Ctx)
    ensures Serve(b, table, req, true, ctx).async
  {
    if table != [] {
      ServeStaysAsync(b, table[1..], req, ctx);
      ServeStaysAsync(b, table[1..], req, Run(b, table[0].handler, WithParams(table[0], req, ctx)).ctx);
    }
  }

  // ---- The code, on a mutable request and response builder ----

  class Exchange {
    var pathParams: Match
    var submit: bool
    var upgraded: bool
    var status: int
    var body: string
    var headers: seq<(string, string)>
    var data: map<string, string>
    ghost var calls: seq<HandlerId>

    ghost function View(): Ctx
      reads this
    {
      Ctx(pathParams, submit, upgraded, status, body, headers, data)
    }

    method Invoke(b: Behaviour, id: HandlerId) returns (async: bool, value: Option<Response>)
      modifies this
      ensures var s := b(id, old(View())); View() == s.ctx && async == s.async && value == s.value
      ensures calls == old(calls) + [id]
    {
      var s := b(id, Ctx(pathParams, submit, upgraded, status, body, headers, data));
      pathParams, submit, upgraded, status := s.ctx.pathParams, s.ctx.submit, s.ctx.upgraded, s.ctx.status;
      body, headers, data := s.ctx.body, s.ctx.headers, s.ctx.data;
      calls := calls + [id];
      return s.async, s.value;
    }

    method ReplyNotFound()
      modifies this
      ensures View() == NotFound(old(View())) && calls == old(calls)
    {
      submit, headers, status, body := false, [], 404, "Not found";
    }
  }

  method Call(b: Behaviour, h: Handler, x: Exchange) returns (async: bool, value: Option<Response>)
    modifies x
    ensures var o := Run(b, h, old(x.View()));
            Outcome(x.View(), x.calls, async, value) == Prefix(old(x.calls), o)
    decreases h, 2
  {
    match h
    case Plain(id) => async, value := x.Invoke(b, id);
    case Merged(base) => async, value := BaseMerged(b, base, x);
  }

  /** The synchronous loop of a merged handler; it hands over at the first promise. */
  method BaseMerged(b: Behaviour, middlewares: seq<Handler>, x: Exchange) returns (async: bool, value: Option<Response>)
    modifies x
    ensures var o := RunAll(b, middlewares, false, old(x.View()));
            Outcome(x.View(), x.calls, async, value) == Prefix(old(x.calls), o)
    decreases middlewares, 1
  {
    hide Run, Serve, RunAll, MatchRoute;
    ghost var whole := Prefix(x.calls, RunAll(b, middlewares, false, x.View()));
    for i := 0 to |middlewares|
      invariant whole == Prefix(x.calls, RunAll(b, middlewares[i..], false, x.View()))
    {
      UnfoldRunAll(b, middlewares, i, false, x.View(), x.calls);
      var p, v := Call(b, middlewares[i], x);
      if !p && v.Some? {
        return false, v;
      }
      if p {
        RunAllStaysAsync(b, middlewares[i + 1..], x.View());
        v := MergedAsync(b, middlewares, i, v, x);
        return true, v;
      }
      if x.submit || x.upgraded {
        return false, None;
      }
    }
    EndRunAll(b, middlewares, false, x.View(), x.calls);
    return false, None;
  }

  /** What follows once the promise of handler `initialDefIndex` has resolved to `result`. */
  method MergedAsync(b: Behaviour, middlewares: seq<Handler>, initialDefIndex: nat, result: Option<Response>, x: Exchange)
    returns (value: Option<Response>)
    requires initialDefIndex < |middlewares|
    modifies x
    ensures var o := Continue(Outcome(old(x.View()), [], true, result), false,
                              RunAll(b, middlewares[initialDefIndex + 1..], true, old(x.View())));
            Outcome(x.View(), x.calls, true, value) == Prefix(old(x.calls), o)
    decreases middlewares, 0
  {
    hide Run, Serve, RunAll, MatchRoute;
    if result.Some? {
      return result;
    }
    if x.submit || x.upgraded {
      return None;
    }
    ghost var whole := Prefix(x.calls, RunAll(b, middlewares[initialDefIndex + 1..], true, x.View()));
    for i := initialDefIndex + 1 to |middlewares|
      invariant whole == Prefix(x.calls, RunAll(b, middlewares[i..], true, x.View()))
    {
      UnfoldRunAll(b, middlewares, i, true, x.View(), x.calls);
      var p, v := Call(b, middlewares[i], x);
      if !p && v.Some? {
        return v;
      }
      if x.submit || x.upgraded {
        return None;
      }
    }
    EndRunAll(b, middlewares, true, x.View(), x.calls);
    return None;
  }

  /** The test both loops make before calling a route's handler. */
  method Enter(route: EndpointRoute, req: Request, x: Exchange) returns (entered: bool)
    modifies x`pathParams
    ensures entered == Accepts(route, req)
    ensures x.View() == if entered then WithParams(route, req, old(x.View())) else old(x.View())
  {
    if route.verb != ALL && route.verb != req.verb {
      return false;
    }
    var pathParams := RequestPathMatchesRouteDefinition(req.splitPath, route.splitPath);
    if pathParams == NoMatch {
      return false;
    } else if pathParams != Matched {
      x.pathParams := pathParams;
    }
    return true;
  }

  method Route(b: Behaviour, routes: seq<EndpointRoute>, req: Request, x: Exchange)
    returns (async: bool, value: Option<Response>)
    modifies x
    ensures var o := Serve(b, routes, req, false, old(x.View()));
            Outcome(x.View(), x.calls, async, value) == Prefix(old(x.calls), o)
  {
    hide Run, Serve, RunAll, MatchRoute, Accepts, WithParams;
    ghost var whole := Prefix(x.calls, Serve(b, routes, req, false, x.View()));
    for i := 0 to |routes|
      invariant whole == Prefix(x.calls, Serve(b, routes[i..], req, false, x.View()))
    {
      ghost var before := x.View();
      UnfoldServe(b, routes, i, req, false, before, x.calls);
      var entered := Enter(routes[i], req, x);
      if !entered {
        continue;
      }
      var p, v := Call(b, routes[i].handler, x);
      if !p && v.Some? {
        return false, v;
      }
      if p {
        ServeStaysAsync(b, routes[i + 1..], req, x.View());
        v := RouteAsync(b, routes, i, v, req, x);
        return true, v;
      }
      if x.submit || x.upgraded {
        return false, None;
      }
    }
    EndServe(b, routes, req, false, x.View(), x.calls);
    if x.upgraded {
      return false, None;
    }
    x.ReplyNotFound();
    return false, None;
  }

  method RouteAsync(b: Behaviour, routes: seq<EndpointRoute>, initialDefIndex: nat, result: Option<Response>,
                    req: Request, x: Exchange)
    returns (value: Option<Response>)
    requires initialDefIndex < |routes|
    modifies x
    ensures var o := Continue(Outcome(old(x.View()), [], true, result), false,
                              Serve(b, routes[initialDefIndex + 1..], req, true, old(x.View())));
            Outcome(x.View(), x.calls, true, value) == Prefix(old(x.calls), o)
  {
    hide Run, Serve, RunAll, MatchRoute, Accepts, WithParams;
    if result.Some? {
      return result;
    }
    if x.submit || x.upgraded {
      return None;
    }
    ghost var whole := Prefix(x.calls, Serve(b, routes[initialDefIndex + 1..], req, true, x.View()));
    for i := initialDefIndex + 1 to |routes|
      invariant whole == Prefix(x.calls, Serve(b, routes[i..], req, true, x.View()))
    {
      ghost var before := x.View();
      UnfoldServe(b, routes, i, req, true, before, x.calls);
      var entered := Enter(routes[i], req, x);
      if !entered {
        continue;
      }
      var p, v := Call(b, routes[i].handler, x);
      if !p && v.Some? {
        return v;
      }
      if x.submit || x.upgraded {
        return None;
      }
    }
    EndServe(b, routes, req, true, x.View(), x.calls);
    if x.upgraded {
      return None;
    }
    x.ReplyNotFound();
    return None;
  }
}
