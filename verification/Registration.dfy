/** Registering handlers: `adapter/router/router/registration.ts`, `adapter/router/middleware.ts`,
    and `mount` of `adapter/router/router.ts`. */
module Registration {
  import opened Sequences
  import opened Text
  import opened Wrappers
  import opened Path
  import opened Matcher
  import opened Dispatch
  import opened Merging
  import opened Serving

  // ---- Comparing and merging ----

  predicate IsMergeableEndpointRoute(route: EndpointRoute, route2: EndpointRoute) {
    route.verb == route2.verb &&
    if route.splitPath == [] && route2.splitPath == [] then true
    else route.splitPath != [] && route2.splitPath != [] && Join(route.splitPath, '/') == Join(route2.splitPath, '/')
  }

  /** Comparing slash-joined paths decides equality of the paths. */
  lemma MergeableIffSamePath(route: EndpointRoute, route2: EndpointRoute)
    requires Normal(route.splitPath) && Normal(route2.splitPath)
    ensures IsMergeableEndpointRoute(route, route2) <==> route.verb == route2.verb && route.splitPath == route2.splitPath
  {
    if route.splitPath != [] && route2.splitPath != [] {
      JoinInjective(route.splitPath, route2.splitPath, '/');
    }
  }

  lemma {:induction false} AllLeavesConcat(p: seq<Handler>, q: seq<Handler>)
    ensures AllLeaves(p + q) == AllLeaves(p) + AllLeaves(q)
  {
    if p == [] {
      assert p + q == q;
    } else {
      assert (p + q)[1..] == p[1..] + q;
      AllLeavesConcat(p[1..], q);
    }
  }

  lemma {:induction false} LeavesOfPlains(ids: seq<HandlerId>)
    ensures AllLeaves(Plains(ids)) == ids
  {
    if ids != [] {
      assert Plains(ids)[1..] == Plains(ids[1..]);
      LeavesOfPlains(ids[1..]);
    }
  }

  method UnmergeRequestMiddleware(middlewares: seq<Handler>) returns (found: seq<Handler>)
    ensures found == Plains(AllLeaves(middlewares))
    decreases middlewares
  {
    found := [];
    for i := 0 to |middlewares|
      invariant found == Plains(AllLeaves(middlewares[..i]))
    {
      assert middlewares[..i + 1] == middlewares[..i] + [middlewares[i]];
      AllLeavesConcat(middlewares[..i], [middlewares[i]]);
      assert AllLeaves([middlewares[i]]) == Leaves(middlewares[i]) + AllLeaves([]);
      match middlewares[i] {
        case Merged(base) =>
          var inner := UnmergeRequestMiddleware(base);
          found := found + inner;
        case Plain(_) =>
          found := found + [middlewares[i]];
      }
    }
    assert middlewares[..|middlewares|] == middlewares;
  }

  /** The handler that stands for a list of them. */
  function MergeOf(hs: seq<Handler>): Handler {
    var ids := AllLeaves(hs);
    if |ids| == 1 then Plain(ids[0]) else Merged(Plains(ids))
  }

  lemma LeavesOfMergeOf(hs: seq<Handler>)
    ensures Leaves(MergeOf(hs)) == AllLeaves(hs)
    ensures AllLeaves(hs) != [] ==> Made(MergeOf(hs))
  {
    LeavesOfPlains(AllLeaves(hs));
  }

  /** Merging an unmerged list again gives the handler that stands for it. */
  lemma MergeUnmerged(hs: seq<Handler>)
    requires hs != [] && Made(hs[0])
    ensures var flat := Plains(AllLeaves(hs));
            flat != [] && MergeOf(hs) == if |flat| == 1 then flat[0] else Merged(Plains(AllLeaves(flat)))
  {
    MadeHasLeaves(hs[0]);
    LeavesOfPlains(AllLeaves(hs));
  }

  /** None where the source throws, on an empty list. */
  method MergeRequestMiddlewares(middlewares: seq<Handler>) returns (merged: Option<Handler>)
    ensures merged == if middlewares == [] then None
                      else if |middlewares| == 1 then Some(middlewares[0])
                      else Some(Merged(Plains(AllLeaves(middlewares))))
  {
    if |middlewares| == 0 {
      return None;
    } else if |middlewares| == 1 {
      return Some(middlewares[0]);
    }
    var base := UnmergeRequestMiddleware(middlewares);
    return Some(Merged(base));
  }

  // ---- The table ----

  ghost predicate WellMade(table: seq<EndpointRoute>) {
    AllMade(table) && forall i :: 0 <= i < |table| ==> Normal(table[i].splitPath)
  }

  /** The table after registering handlers, merging with the last route where allowed. */
  function Registered(table: seq<EndpointRoute>, merge: bool, verb: HttpMethod, sel: SplitPath, hs: seq<Handler>): seq<EndpointRoute> {
    var route := EndpointRoute(verb, sel, MergeOf(hs));
    var n := |table|;
    if merge && n > 0 && IsMergeableEndpointRoute(table[n - 1], route) then
      table[..n - 1] + [route.(handler := MergeOf([table[n - 1].handler] + hs))]
    else
      table + [route]
  }

  lemma {:induction false} FlattenConcat(p: seq<EndpointRoute>, q: seq<EndpointRoute>)
    ensures Flatten(p + q) == Flatten(p) + Flatten(q)
  {
    if p == [] {
      assert p + q == q;
    } else {
      assert (p + q)[1..] == p[1..] + q;
      FlattenConcat(p[1..], q);
    }
  }

  lemma FlattenSnoc(front: seq<EndpointRoute>, r: EndpointRoute)
    ensures Flatten(front + [r]) == Flatten(front) + Spread(r, Leaves(r.handler))
  {
    FlattenConcat(front, [r]);
    assert Flatten([r]) == Spread(r, Leaves(r.handler)) + Flatten([]);
  }

  /** Replacing the last route by one that also holds `hs`. */
  lemma MergedFlattens(front: seq<EndpointRoute>, last: EndpointRoute, hs: seq<Handler>)
    requires Made(last.handler)
    ensures var merged := last.(handler := MergeOf([last.handler] + hs));
            && Made(merged.handler)
            && Flatten(front + [merged]) == Flatten(front + [last]) + Spread(last, AllLeaves(hs))
  {
    var merged := last.(handler := MergeOf([last.handler] + hs));
    MadeHasLeaves(last.handler);
    LeavesOfMergeOf([last.handler] + hs);
    LeavesBehind(last.handler, hs);
    FlattenSnoc(front, last);
    FlattenSnoc(front, merged);
    SpreadConcat(last, merged.handler, Leaves(last.handler), AllLeaves(hs));
    hide *;
    Associate(Flatten(front), Spread(last, Leaves(last.handler)), Spread(last, AllLeaves(hs)));
  }

  lemma LeavesBehind(h: Handler, hs: seq<Handler>)
    ensures AllLeaves([h] + hs) == Leaves(h) + AllLeaves(hs)
    ensures Leaves(h) != [] ==> AllLeaves([h] + hs) != []
  {
    assert ([h] + hs)[1..] == hs;
  }

  lemma SpreadConcat(r: EndpointRoute, h: Handler, p: seq<HandlerId>, q: seq<HandlerId>)
    ensures Spread(r.(handler := h), p + q) == Spread(r, p) + Spread(r, q)
  {
  }

  /** Registering appends exactly the new handlers, in order, to the flat list the table stands for. */
  lemma RegisteredFlattens(table: seq<EndpointRoute>, merge: bool, verb: HttpMethod, sel: SplitPath, hs: seq<Handler>)
    requires WellMade(table) && Normal(sel) && AllLeaves(hs) != []
    ensures var table' := Registered(table, merge, verb, sel, hs);
            && WellMade(table')
            && Flatten(table') == Flatten(table) + Spread(EndpointRoute(verb, sel, MergeOf(hs)), AllLeaves(hs))
  {
    var route := EndpointRoute(verb, sel, MergeOf(hs));
    var n := |table|;
    LeavesOfMergeOf(hs);
    if merge && n > 0 && IsMergeableEndpointRoute(table[n - 1], route) {
      var last := table[n - 1];
      MergeableIffSamePath(last, route);
      MergedFlattens(table[..n - 1], last, hs);
      assert table == table[..n - 1] + [last];
      assert Spread(last, AllLeaves(hs)) == Spread(route, AllLeaves(hs));
    } else {
      FlattenSnoc(table, route);
    }
  }

  /** A registration takes a place of its own in the table, unless merging is on and the last route is for the same method
      and path. */
  lemma TakesAPlace(table: seq<EndpointRoute>, merge: bool, verb: HttpMethod, sel: SplitPath, hs: seq<Handler>)
    requires WellMade(table) && Normal(sel)
    ensures var n, table' := |table|, Registered(table, merge, verb, sel, hs);
            if merge && n > 0 && table[n - 1].verb == verb && table[n - 1].splitPath == sel then
              |table'| == n && table'[..n - 1] == table[..n - 1] && table'[n - 1].verb == verb && table'[n - 1].splitPath == sel
            else
              |table'| == n + 1 && table'[..n] == table && table'[n].verb == verb && table'[n].splitPath == sel
  {
    if table != [] {
      MergeableIffSamePath(table[|table| - 1], EndpointRoute(verb, sel, MergeOf(hs)));
    }
  }

  /** Plain handlers are listed one by one, in the order they were given, whether they are merged or not. */
  lemma PlainRegistration(table: seq<EndpointRoute>, merge: bool, verb: HttpMethod, sel: SplitPath, ids: seq<HandlerId>)
    requires WellMade(table) && Normal(sel) && ids != []
    ensures Flatten(Registered(table, merge, verb, sel, seq(|ids|, i requires 0 <= i < |ids| => Plain(ids[i])))) ==
            Flatten(table) + seq(|ids|, i requires 0 <= i < |ids| => EndpointRoute(verb, sel, Plain(ids[i])))
  {
    var hs := Plains(ids);
    LeavesOfPlains(ids);
    RegisteredFlattens(table, merge, verb, sel, hs);
    assert hs == seq(|ids|, i requires 0 <= i < |ids| => Plain(ids[i]));
    assert Spread(EndpointRoute(verb, sel, MergeOf(hs)), ids) == seq(|ids|, i requires 0 <= i < |ids| => EndpointRoute(verb, sel, Plain(ids[i])));
  }

  lemma WellMadeAppend(table: seq<EndpointRoute>, route: EndpointRoute)
    requires WellMade(table) && Made(route.handler) && Normal(route.splitPath)
    ensures WellMade(table + [route])
  {
  }

  lemma LastIsMade(table: seq<EndpointRoute>)
    requires WellMade(table) && table != []
    ensures Made(table[|table| - 1].handler)
  {
  }

  lemma UseKeepsTable(table: seq<EndpointRoute>, merge: bool, verb: HttpMethod, path: Option<string>, hs: seq<Handler>)
    requires WellMade(table) && hs != [] && Made(hs[0])
    ensures WellMade(Registered(table, merge, verb, if path.None? then [] else Segments(path.value), hs))
  {
    if path.Some? {
      SegmentsNormal(path.value);
    }
    MadeHasLeaves(hs[0]);
    RegisteredFlattens(table, merge, verb, if path.None? then [] else Segments(path.value), hs);
  }

  /** What a registration leaves, by whether it merges with the last route. */
  lemma UseResult(table: seq<EndpointRoute>, merge: bool, route: EndpointRoute, hs: seq<Handler>)
    requires WellMade(table) && hs != [] && Made(hs[0]) && route.handler == hs[0]
    ensures var flat := Plains(AllLeaves(hs));
            var n := |table|;
            && flat != [] && MergeOf(hs) == (if |flat| == 1 then flat[0] else Merged(Plains(AllLeaves(flat))))
            && (n > 0 ==>
                  table == table[..n - 1] + [table[n - 1]] &&
                  var both := Plains(AllLeaves([table[n - 1].handler] + hs));
                  both != [] &&
                  MergeOf([table[n - 1].handler] + hs) == if |both| == 1 then both[0] else Merged(Plains(AllLeaves(both))))
            && Registered(table, merge, route.verb, route.splitPath, hs) ==
               if merge && n > 0 && IsMergeableEndpointRoute(table[n - 1], route) then
                 table[..n - 1] + [route.(handler := MergeOf([table[n - 1].handler] + hs))]
               else table + [route.(handler := MergeOf(hs))]
  {
    MergeUnmerged(hs);
    if table != [] {
      LastIsMade(table);
      MergeUnmerged([table[|table| - 1].handler] + hs);
    }
    hide AllLeaves, Plains, MergeOf, Join, WellMade, Made;
  }

  class Router {
    var routes: seq<EndpointRoute>
    var mergeHandlers: bool

    ghost predicate Valid()
      reads this
    {
      WellMade(routes)
    }

    constructor (mergeHandlers: bool)
      ensures Valid() && routes == [] && this.mergeHandlers == mergeHandlers
    {
      routes := [];
      this.mergeHandlers := mergeHandlers;
    }

    /** `ok` is false where the source throws, on an illegal path; the table is then as before. */
    method Use(verb: string, path: Option<string>, handlers: seq<Handler>) returns (ok: bool)
      requires Valid() && handlers != [] && forall h :: h in handlers ==> Made(h)
      modifies this`routes
      ensures var sel := if path.None? then [] else Segments(path.value);
              && ok == Legal(sel)
              && routes == (if ok then Registered(old(routes), mergeHandlers, ParseHttpMethods(verb), sel, handlers) else old(routes))
      ensures Valid()
    {
      var splitted := SplitRoutePath(path);
      if splitted.None? {
        return false;
      }
      ghost var table := routes;
      var route := EndpointRoute(ParseHttpMethods(verb), splitted.value, handlers[0]);
      UseKeepsTable(table, mergeHandlers, route.verb, path, handlers);
      UseResult(table, mergeHandlers, route, handlers);
      hide *;
      var all := handlers;
      if mergeHandlers && |routes| > 0 {
        var lastDef := routes[|routes| - 1];
        routes := routes[..|routes| - 1];
        if IsMergeableEndpointRoute(lastDef, route) {
          all := [lastDef.handler] + all;
        } else {
          routes := routes + [lastDef];
        }
      }
      var flat := UnmergeRequestMiddleware(all);
      var merged := MergeRequestMiddlewares(flat);
      route := route.(handler := merged.value);
      routes := routes + [route];
      return true;
    }

    /** Mounts a router; `ok` is false where the source throws, on the first route below an illegal prefix. The source
        never comes to an end mounting a router on itself, unless it throws or there is nothing to mount. */
    method Mount(prefix: Option<string>, sub: Router) returns (ok: bool)
      requires Valid() && sub.Valid()
      requires sub == this ==> routes == [] || !Legal(if prefix.None? then [] else Segments(prefix.value))
      modifies this`routes
      ensures var p := if prefix.None? then [] else Segments(prefix.value);
              && ok == (Legal(p) || old(sub.routes) == [])
              && routes == old(routes) + (if ok then Mounted(p, old(sub.routes)) else [])
      ensures Valid()
    {
      ghost var p := if prefix.None? then [] else Segments(prefix.value);
      if prefix.Some? {
        SegmentsNormal(prefix.value);
      }
      hide Segments, Legal, WellMade, MergeSplitPaths;
      for i := 0 to |sub.routes|
        invariant sub.routes == old(sub.routes) && (i > 0 ==> Legal(p) && sub != this)
        invariant routes == old(routes) + Mounted(p, sub.routes)[..i]
        invariant WellMade(routes)
      {
        var splitted := SplitRoutePath(prefix);
        if splitted.None? {
          return false;
        }
        var merged := MergeSplitPaths(splitted.value, sub.routes[i].splitPath);
        var route := sub.routes[i].(splitPath := merged);
        MountOneMore(routes, p, sub.routes, i);
        Associate(old(routes), Mounted(p, sub.routes)[..i], [route]);
        routes := routes + [route];
      }
      return true;
    }
  }

  /** One more route of a mounted table. */
  lemma MountOneMore(table: seq<EndpointRoute>, p: SplitPath, sub: seq<EndpointRoute>, i: nat)
    requires WellMade(table) && WellMade(sub) && Normal(p) && i < |sub|
    ensures var route := sub[i].(splitPath := MergeSplitPaths(p, sub[i].splitPath));
            && WellMade(table + [route])
            && Mounted(p, sub)[..i + 1] == Mounted(p, sub)[..i] + [route]
  {
    WellMadeAppend(table, sub[i].(splitPath := MergeSplitPaths(p, sub[i].splitPath)));
  }

  lemma MadeHasLeaves(h: Handler)
    requires Made(h)
    ensures Leaves(h) != []
  {
    if h.Merged? {
      assert h.base[0].Plain?;
      assert AllLeaves(h.base) == Leaves(h.base[0]) + AllLeaves(h.base[1..]);
    }
  }

  // ---- Any sequence of registrations and mounts ----

  /** A `use` call, with the merge setting it ran under, or a router mounted as it was after calls of its own. */
  datatype Call =
    | UseCall(merge: bool, verb: HttpMethod, path: string, handlers: seq<Handler>)
    | MountCall(prefix: string, sub: seq<Call>)

  predicate Proper(calls: seq<Call>)
    decreases calls
  {
    calls == [] ||
    var c := calls[|calls| - 1];
    && Proper(calls[..|calls| - 1])
    && match c
       case UseCall(_, _, _, handlers) => handlers != [] && forall h :: h in handlers ==> Made(h)
       case MountCall(_, sub) => Proper(sub)
  }

  /** The table after the calls; a call the source rejects leaves it alone. */
  ghost function Table(calls: seq<Call>): seq<EndpointRoute>
    decreases calls
  {
    if calls == [] then [] else
      var before := Table(calls[..|calls| - 1]);
      match calls[|calls| - 1]
      case UseCall(merge, verb, path, handlers) =>
        if Legal(Segments(path)) then Registered(before, merge, verb, Segments(path), handlers) else before
      case MountCall(prefix, sub) =>
        if Legal(Segments(prefix)) then before + Mounted(Segments(prefix), Table(sub)) else before
  }

  /** The same registrations as separate routes, in order. */
  ghost function Listed(calls: seq<Call>): seq<EndpointRoute>
    decreases calls
  {
    if calls == [] then [] else
      Listed(calls[..|calls| - 1]) +
      match calls[|calls| - 1]
      case UseCall(_, verb, path, handlers) =>
        if Legal(Segments(path)) then Spread(EndpointRoute(verb, Segments(path), MergeOf(handlers)), AllLeaves(handlers)) else []
      case MountCall(prefix, sub) =>
        if Legal(Segments(prefix)) then Mounted(Segments(prefix), Listed(sub)) else []
  }

  lemma {:induction false} TableFlattens(calls: seq<Call>)
    requires Proper(calls)
    ensures WellMade(Table(calls)) && Flatten(Table(calls)) == Listed(calls)
    decreases calls
  {
    if calls != [] {
      var before := Table(calls[..|calls| - 1]);
      TableFlattens(calls[..|calls| - 1]);
      match calls[|calls| - 1] {
        case UseCall(merge, verb, path, handlers) =>
          SegmentsNormal(path);
          MadeHasLeaves(handlers[0]);
          if Legal(Segments(path)) {
            RegisteredFlattens(before, merge, verb, Segments(path), handlers);
          }
        case MountCall(prefix, sub) =>
          SegmentsNormal(prefix);
          TableFlattens(sub);
          MountFlattens(Segments(prefix), Table(sub));
          FlattenConcat(before, Mounted(Segments(prefix), Table(sub)));
          MountedIsWellMade(Segments(prefix), Table(sub));
      }
    }
  }

  lemma MountedIsWellMade(p: SplitPath, table: seq<EndpointRoute>)
    requires Normal(p) && WellMade(table)
    ensures WellMade(Mounted(p, table))
  {
  }

  lemma {:induction false} IdsOfFlatten(table: seq<EndpointRoute>)
    ensures Ids(Flatten(table)) == Ids(table)
  {
    if table != [] {
      IdsOfFlatten(table[1..]);
      var head := Spread(table[0], Leaves(table[0].handler));
      IdsConcat(head, Flatten(table[1..]));
      IdsOfSpread(table[0], Leaves(table[0].handler));
    }
  }

  lemma {:induction false} IdsConcat(p: seq<EndpointRoute>, q: seq<EndpointRoute>)
    ensures Ids(p + q) == Ids(p) + Ids(q)
  {
    if p == [] {
      assert p + q == q;
    } else {
      assert (p + q)[1..] == p[1..] + q;
      IdsConcat(p[1..], q);
    }
  }

  lemma {:induction false} IdsOfSpread(r: EndpointRoute, ids: seq<HandlerId>)
    ensures Ids(Spread(r, ids)) == ids
  {
    if ids != [] {
      assert Spread(r, ids)[1..] == Spread(r, ids[1..]);
      IdsOfSpread(r, ids[1..]);
    }
  }

  /** However the calls were merged and mounted, a request sees the registrations in the order they were made when no
      merged handler that its run reaches diverges; and only then, when each of them has its own number. */
  lemma RegistrationsServed(b: Behaviour, calls: seq<Call>, req: Request, ctx: Ctx)
    requires KeepsParams(b) && Proper(calls)
    ensures !Diverges(b, Table(calls), req, false, ctx) ==>
              Serve(b, Table(calls), req, false, ctx) == Serve(b, Listed(calls), req, false, ctx)
    ensures Distinct(Ids(Listed(calls))) && Diverges(b, Table(calls), req, false, ctx) ==>
              Serve(b, Table(calls), req, false, ctx) != Serve(b, Listed(calls), req, false, ctx)
  {
    TableFlattens(calls);
    IdsOfFlatten(Table(calls));
    MergingIsInvisible(b, Table(calls), req, false, ctx);
  }

  /** And as they would with every Response kept, exactly when its run reaches no handler whose Response is dropped. */
  lemma RegistrationsAnswered(b: Behaviour, calls: seq<Call>, req: Request, ctx: Ctx)
    requires KeepsParams(b) && Proper(calls)
    ensures Serve(b, Table(calls), req, false, ctx) == ServeKeeping(b, Listed(calls), req, false, ctx) <==>
            !TableDrops(b, Table(calls), req, false, ctx)
  {
    TableFlattens(calls);
    ResponsesKept(b, Table(calls), req, false, ctx);
  }

  /** Handlers that answer through the response builder, never by a Response of their own, or that never return a
      promise, cannot diverge. */
  lemma {:induction false} BuilderHandlersNeverDiverge(b: Behaviour, table: seq<EndpointRoute>, req: Request, awaited: bool, ctx: Ctx)
    requires (forall id, c :: b(id, c).value.None?) || (!awaited && forall id, c :: !b(id, c).async)
    requires AllMade(table)
    ensures !Diverges(b, table, req, awaited, ctx)
  {
    if table != [] {
      if Accepts(table[0], req) {
        var start := WithParams(table[0], req, ctx);
        var o := Run(b, table[0].handler, start);
        GroupNeverDiverges(b, Leaves(table[0].handler), awaited, start);
        RunIsRunAll(b, table[0].handler, start);
        BuilderHandlersNeverDiverge(b, table[1..], req, awaited || o.async, o.ctx);
      } else {
        BuilderHandlersNeverDiverge(b, table[1..], req, awaited, ctx);
      }
    }
  }

  lemma {:induction false} GroupNeverDiverges(b: Behaviour, base: seq<HandlerId>, awaited: bool, ctx: Ctx)
    requires (forall id, c :: b(id, c).value.None?) || (!awaited && forall id, c :: !b(id, c).async)
    ensures forall inner :: (inner ==> forall id, c :: b(id, c).value.None?) ==> !GroupDiverges(b, base, awaited, inner, ctx)
    ensures (forall id, c :: !b(id, c).async) ==> !RunAll(b, Plains(base), false, ctx).async
  {
    if base != [] {
      var s := b(base[0], ctx);
      GroupNeverDiverges(b, base[1..], awaited, s.ctx);
      assert Plains(base)[1..] == Plains(base[1..]);
    }
  }

  /** Nor do they lose a Response. */
  lemma {:induction false} BuilderHandlersNeverDrop(b: Behaviour, table: seq<EndpointRoute>, req: Request, awaited: bool, ctx: Ctx)
    requires (forall id, c :: b(id, c).value.None?) || (!awaited && forall id, c :: !b(id, c).async)
    requires AllMade(table)
    ensures !TableDrops(b, table, req, awaited, ctx)
  {
    if table != [] {
      if Accepts(table[0], req) {
        var start := WithParams(table[0], req, ctx);
        var o := Run(b, table[0].handler, start);
        GroupNeverDrops(b, Leaves(table[0].handler), awaited, false, start);
        GroupNeverDiverges(b, Leaves(table[0].handler), awaited, start);
        RunIsRunAll(b, table[0].handler, start);
        BuilderHandlersNeverDrop(b, table[1..], req, awaited || o.async, o.ctx);
      } else {
        BuilderHandlersNeverDrop(b, table[1..], req, awaited, ctx);
      }
    }
  }

  lemma {:induction false} GroupNeverDrops(b: Behaviour, base: seq<HandlerId>, awaited: bool, inner: bool, ctx: Ctx)
    requires (forall id, c :: b(id, c).value.None?) || (!awaited && !inner && forall id, c :: !b(id, c).async)
    ensures !GroupDrops(b, base, awaited, inner, ctx)
  {
    if base != [] {
      var s := b(base[0], ctx);
      if s.value.None? {
        GroupNeverDrops(b, base[1..], awaited, inner || s.async, s.ctx);
      }
    }
  }

  /** An ordinary case that does: two asynchronous handlers of one route, the second of which resolves to a Response. The
      client is told that nothing was found. */
  lemma SecondPromiseIsDropped()
    ensures exists b, ctx :: KeepsParams(b) &&
              var calls := [UseCall(true, GET, "/", [Plain(1), Plain(2)])];
              var o := Serve(b, Table(calls), Request(GET, []), false, ctx);
              b(2, ctx).value.Some? && o.calls == [1, 2] && o.value == None && o.ctx.status == 404
  {
    var b: Behaviour := (id, c: Ctx) => Step(c, true, if id == 2 then Some(Response(200, "two")) else None);
    var ctx := Ctx(NoMatch, false, false, 200, "", [], map[]);
    var pair := EndpointRoute(GET, [], Merged([Plain(1), Plain(2)]));
    PairRegistered(pair);
    PairDrops(b, pair, ctx);
    assert KeepsParams(b);
    hide Serve, Table;
    assert b(2, ctx).value.Some?;
  }

  lemma PairRegistered(pair: EndpointRoute)
    requires pair == EndpointRoute(GET, [], Merged([Plain(1), Plain(2)]))
    ensures Table([UseCall(true, GET, "/", [Plain(1), Plain(2)])]) == [pair]
  {
    var call := UseCall(true, GET, "/", [Plain(1), Plain(2)]);
    SegmentsDropHead("/");
    assert "/"[1..] == "";
    assert Segments("") == [];
    assert [call][..0] == [];
    LeavesOfPlains([1, 2]);
    assert Plains([1, 2]) == [Plain(1), Plain(2)];
    assert MergeOf(call.handlers) == pair.handler;
    assert Table([]) == [];
    assert [] + [pair] == [pair];
  }

  lemma PairDrops(b: Behaviour, pair: EndpointRoute, ctx: Ctx)
    requires pair == EndpointRoute(GET, [], Merged([Plain(1), Plain(2)]))
    requires forall id, c :: b(id, c).ctx == c && b(id, c).async && (id == 1 ==> b(id, c).value.None?)
    requires !Settled(ctx)
    ensures var o := Serve(b, [pair], Request(GET, []), false, ctx);
            o.calls == [1, 2] && o.value == None && o.ctx.status == 404
  {
    var req := Request(GET, []);
    var start := WithParams(pair, req, ctx);
    var base := [Plain(1), Plain(2)];
    assert base[1..] == [Plain(2)] && [Plain(2)][1..] == [];
    var last := RunAll(b, [Plain(2)], true, start);
    assert last.calls == [2] + [] && last.value == None && last.ctx == start;
    var o := Run(b, pair.handler, start);
    assert o == RunAll(b, base, false, start);
    assert o.calls == [1] + last.calls && o.value == None && o.ctx == start;
    assert [pair][1..] == [];
    assert Accepts(pair, req);
  }

  /** Such a divergence exists: a promise, then a merged pair whose first member resolves to a Response. */
  lemma DivergenceExists()
    ensures exists b, table, req, ctx ::
              KeepsParams(b) && AllMade(table) && Distinct(Ids(table)) && Diverges(b, table, req, false, ctx)
  {
    var b: Behaviour := (id, c: Ctx) => Step(c, true, if id == 1 then Some(Response(200, "one")) else None);
    var first := EndpointRoute(ALL, [], Plain(0));
    var pair := EndpointRoute(GET, [], Merged([Plain(1), Plain(2)]));
    var req := Request(GET, []);
    var ctx := Ctx(NoMatch, false, false, 200, "", [], map[]);
    PairDiverges(b, pair, req, WithParams(first, req, ctx));
    PairTable(first, pair);
    var table := [first] + [pair];
    assert Diverges(b, table, req, false, ctx) by {
      hide GroupDiverges, MatchRoute, Leaves;
      assert table[1..] == [pair];
      assert MatchRoute([], []) != NoMatch by { MatchMeaning([], []); }
    }
    hide *;
    assert KeepsParams(b) by { KeepsParamsOf(b); }
  }

  lemma KeepsParamsOf(b: Behaviour)
    requires forall id, ctx :: b(id, ctx).ctx.pathParams == ctx.pathParams
    ensures KeepsParams(b)
  {
  }

  lemma PairTable(first: EndpointRoute, pair: EndpointRoute)
    requires first.handler == Plain(0) && pair.handler == Merged([Plain(1), Plain(2)])
    ensures AllMade([first] + [pair]) && Distinct(Ids([first] + [pair]))
  {
    IdsConcat([first], [pair]);
    assert AllLeaves([Plain(2)]) == Leaves(Plain(2)) + AllLeaves([]);
    var base := [Plain(1), Plain(2)];
    assert base[1..] == [Plain(2)] && AllLeaves(base) == Leaves(base[0]) + AllLeaves(base[1..]);
    assert Ids([first]) == [0] + Ids([]) && Ids([pair]) == [1, 2] + Ids([]);
  }

  lemma PairDiverges(b: Behaviour, pair: EndpointRoute, req: Request, ctx: Ctx)
    requires pair.handler == Merged([Plain(1), Plain(2)]) && Accepts(pair, req)
    requires forall c :: var s := b(1, c); s.async && s.value.Some? && !Settled(s.ctx) == !Settled(c)
    requires !Settled(ctx)
    ensures Leaves(pair.handler) == [1, 2] && Diverges(b, [pair], req, true, ctx)
  {
    var base := [Plain(1), Plain(2)];
    assert base[1..] == [Plain(2)];
    assert AllLeaves(base) == Leaves(base[0]) + AllLeaves(base[1..]);
    assert AllLeaves([Plain(2)]) == Leaves(Plain(2)) + AllLeaves([]);
    assert GroupDiverges(b, [1, 2], true, false, WithParams(pair, req, ctx));
  }
}
