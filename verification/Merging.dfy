/** Merging neighbouring registrations, and when a merged table serves a request as the registrations would. */
module Merging {
  import opened Wrappers
  import opened Matcher
  import opened Dispatch

  // ---- Merged handlers and their members ----

  /** The registrations inside a handler, in order. */
  function Leaves(h: Handler): seq<HandlerId>
    decreases h
  {
    match h
    case Plain(id) => [id]
    case Merged(base) => AllLeaves(base)
  }

  function AllLeaves(hs: seq<Handler>): seq<HandlerId>
    decreases hs
  {
    if hs == [] then [] else Leaves(hs[0]) + AllLeaves(hs[1..])
  }

  function Plains(ids: seq<HandlerId>): seq<Handler> {
    seq(|ids|, i requires 0 <= i < |ids| => Plain(ids[i]))
  }

  /** What merging builds: one registration, or at least two unmerged ones. */
  predicate Made(h: Handler) {
    h.Merged? ==> |h.base| >= 2 && forall i :: 0 <= i < |h.base| ==> h.base[i].Plain?
  }

  predicate AllMade(table: seq<EndpointRoute>) {
    forall i :: 0 <= i < |table| ==> Made(table[i].handler)
  }

  /** The route once per registration. */
  function Spread(r: EndpointRoute, ids: seq<HandlerId>): seq<EndpointRoute> {
    seq(|ids|, i requires 0 <= i < |ids| => r.(handler := Plain(ids[i])))
  }

  /** The table as the flat list of (method, path, registration) it stands for. */
  function Flatten(table: seq<EndpointRoute>): seq<EndpointRoute> {
    if table == [] then [] else Spread(table[0], Leaves(table[0].handler)) + Flatten(table[1..])
  }

  function Ids(table: seq<EndpointRoute>): seq<HandlerId> {
    if table == [] then [] else Leaves(table[0].handler) + Ids(table[1..])
  }

  ghost predicate Distinct(ids: seq<HandlerId>) {
    forall i, j :: 0 <= i < j < |ids| ==> ids[i] != ids[j]
  }

  /** Handlers leave the parameters of the match alone. */
  ghost predicate KeepsParams(b: Behaviour) {
    forall id, ctx :: b(id, ctx).ctx.pathParams == ctx.pathParams
  }

  // ---- When merging is visible ----

  /** Running `base` as one merged handler from a loop that has `awaited` before differs from running it as
      separate routes: the promise of the merged handler resolves to a Response, which the loop drops, while a
      separate route would have returned it, or the members after the one that produced it would have run.
      `inner` says whether an earlier member of this group returned a promise. */
  predicate GroupDiverges(b: Behaviour, base: seq<HandlerId>, awaited: bool, inner: bool, ctx: Ctx) {
    base != [] &&
    var s := b(base[0], ctx);
    if s.value.Some? && !(s.async && inner) then
      awaited && (if s.async then !Settled(s.ctx) && |base| > 1 else inner)
    else
      !Settled(s.ctx) && GroupDiverges(b, base[1..], awaited, inner || s.async, s.ctx)
  }

  /** Some merged handler that the run of the merged table reaches diverges. */
  predicate Diverges(b: Behaviour, table: seq<EndpointRoute>, req: Request, awaited: bool, ctx: Ctx) {
    table != [] &&
    if !Accepts(table[0], req) then
      Diverges(b, table[1..], req, awaited, ctx)
    else
      var start := WithParams(table[0], req, ctx);
      var o := Run(b, table[0].handler, start);
      GroupDiverges(b, Leaves(table[0].handler), awaited, false, start) ||
      (!Ends(o, awaited) && Diverges(b, table[1..], req, awaited || o.async, o.ctx))
  }

  // ---- One group ----

  lemma {:induction false} PlainsLeaves(base: seq<Handler>)
    requires forall i :: 0 <= i < |base| ==> base[i].Plain?
    ensures Plains(AllLeaves(base)) == base
  {
    if base != [] {
      PlainsLeaves(base[1..]);
      assert Plains(AllLeaves(base)) == [base[0]] + Plains(AllLeaves(base[1..]));
    }
  }

  /** A made handler runs as the list of its members. */
  lemma RunIsRunAll(b: Behaviour, h: Handler, ctx: Ctx)
    requires Made(h)
    ensures Leaves(h) != []
    ensures Run(b, h, ctx) == RunAll(b, Plains(Leaves(h)), false, ctx)
  {
    match h
    case Plain(id) =>
      assert Plains([id]) == [h];
      assert RunAll(b, [h][1..], true, ctx) == Outcome(ctx, [], true, None);
    case Merged(base) =>
      PlainsLeaves(base);
  }

  /** The calls of a run of the rest of a table: nothing to return if there are none. */
  ghost predicate Tail(o: Outcome, ids: seq<HandlerId>) {
    if o.calls == [] then o.value == None else o.calls[0] in ids
  }

  lemma {:induction false} RunCalls(b: Behaviour, h: Handler, ctx: Ctx)
    requires Made(h)
    ensures Leaves(h) != [] && Run(b, h, ctx).calls != [] && Run(b, h, ctx).calls[0] == Leaves(h)[0]
  {
    if h.Merged? {
      var first := h.base[0];
      assert first.Plain?;
      assert Leaves(h) == Leaves(first) + AllLeaves(h.base[1..]);
      assert Run(b, first, ctx).calls == [first.id];
    }
  }

  lemma {:induction false} ServeTail(b: Behaviour, table: seq<EndpointRoute>, req: Request, awaited: bool, ctx: Ctx)
    requires AllMade(table)
    ensures Tail(Serve(b, table, req, awaited, ctx), Ids(table))
  {
    if table != [] {
      if !Accepts(table[0], req) {
        ServeTail(b, table[1..], req, awaited, ctx);
      } else {
        RunCalls(b, table[0].handler, WithParams(table[0], req, ctx));
        assert Ids(table)[0] == Leaves(table[0].handler)[0];
      }
    }
  }

  /** Dispatch of the head of a spread group, and of the same group run at once. */
  lemma GroupHead(b: Behaviour, r: EndpointRoute, base: seq<HandlerId>, rest: seq<EndpointRoute>,
                  req: Request, awaited: bool, inner: bool, ctx: Ctx)
    requires base != [] && Accepts(r, req) && WithParams(r, req, ctx) == ctx
    ensures var s := b(base[0], ctx);
            var o := Outcome(s.ctx, [base[0]], s.async, s.value);
            && Serve(b, Spread(r, base) + rest, req, awaited, ctx) ==
               Continue(o, awaited, Serve(b, Spread(r, base[1..]) + rest, req, awaited || s.async, s.ctx))
            && RunAll(b, Plains(base), inner, ctx) ==
               Continue(o, inner, RunAll(b, Plains(base[1..]), inner || s.async, s.ctx))
  {
    assert Plains(base)[1..] == Plains(base[1..]);
    assert (Spread(r, base) + rest)[1..] == Spread(r, base[1..]) + rest;
    assert Run(b, Plain(base[0]), ctx).calls == [base[0]];
  }

  lemma ContinueAssoc(o: Outcome, inner: bool, g: Outcome, awaited: bool, k: Outcome)
    requires !Ends(o, inner)
    ensures Continue(Continue(o, inner, g), awaited, k) == Prefix(o.calls, Continue(g, awaited, k))
    ensures Continue(o, awaited || inner, g) == Prefix(o.calls, g)
  {
    assert o.calls + (g.calls + k.calls) == (o.calls + g.calls) + k.calls;
  }

  /** Separate routes of one accepted group, against the group run at once and then `rest`. */
  lemma {:induction false} GroupAgrees(b: Behaviour, r: EndpointRoute, base: seq<HandlerId>, rest: seq<EndpointRoute>,
                                       req: Request, awaited: bool, inner: bool, ctx: Ctx)
    requires KeepsParams(b) && Accepts(r, req) && WithParams(r, req, ctx) == ctx
    requires base == [] ==> !Settled(ctx)
    requires !GroupDiverges(b, base, awaited, inner, ctx)
    ensures var g := RunAll(b, Plains(base), inner, ctx);
            Serve(b, Spread(r, base) + rest, req, awaited || inner, ctx) ==
            Continue(g, awaited, Serve(b, rest, req, awaited || g.async, g.ctx))
  {
    if base == [] {
      assert Spread(r, base) + rest == rest;
      var k := Serve(b, rest, req, awaited || inner, ctx);
      assert [] + k.calls == k.calls;
    } else {
      GroupHead(b, r, base, rest, req, awaited || inner, inner, ctx);
      hide Serve, RunAll, Run, MatchRoute, Accepts;
      var s := b(base[0], ctx);
      var o := Outcome(s.ctx, [base[0]], s.async, s.value);
      var g := RunAll(b, Plains(base[1..]), inner || s.async, s.ctx);
      if !Ends(o, inner) {
        GroupAgrees(b, r, base[1..], rest, req, awaited, inner || s.async, s.ctx);
        ContinueAssoc(o, inner, g, awaited, Serve(b, rest, req, awaited || g.async, g.ctx));
        ContinueAssoc(o, inner, Serve(b, Spread(r, base[1..]) + rest, req, awaited || inner || s.async, s.ctx), awaited, o);
      } else if s.async && awaited && |base| == 1 {
        assert Spread(r, base[1..]) + rest == rest;
      }
    }
  }

  /** When the group diverges, no continuation of it that starts elsewhere can make up for it. */
  lemma {:induction false} GroupDiffers(b: Behaviour, r: EndpointRoute, base: seq<HandlerId>, rest: seq<EndpointRoute>,
                                        req: Request, awaited: bool, inner: bool, ctx: Ctx, tail: Outcome, ids: seq<HandlerId>)
    requires KeepsParams(b) && Accepts(r, req) && WithParams(r, req, ctx) == ctx
    requires GroupDiverges(b, base, awaited, inner, ctx)
    requires Tail(tail, ids) && forall i :: 0 <= i < |base| ==> base[i] !in ids
    ensures Serve(b, Spread(r, base) + rest, req, awaited || inner, ctx) !=
            Continue(RunAll(b, Plains(base), inner, ctx), awaited, tail)
  {
    GroupHead(b, r, base, rest, req, awaited || inner, inner, ctx);
    hide Serve, RunAll, Run, MatchRoute, Accepts;
    var s := b(base[0], ctx);
    var o := Outcome(s.ctx, [base[0]], s.async, s.value);
    var g := RunAll(b, Plains(base[1..]), inner || s.async, s.ctx);
    var flat := Serve(b, Spread(r, base[1..]) + rest, req, awaited || inner || s.async, s.ctx);
    if !Ends(o, inner) {
      GroupDiffers(b, r, base[1..], rest, req, awaited, inner || s.async, s.ctx, tail, ids);
      ContinueAssoc(o, inner, g, awaited, tail);
      ContinueAssoc(o, inner, flat, awaited, o);
      if Prefix(o.calls, flat) == Prefix(o.calls, Continue(g, awaited, tail)) {
        PrefixCancels(o.calls, flat, Continue(g, awaited, tail));
      }
    } else if s.async {
      // The Response is dropped; the flat table goes on with the next member, the merged one leaves the group.
      GroupHead(b, r, base[1..], rest, req, true, false, s.ctx);
      assert flat.calls[0] == base[1];
      var whole := Continue(Continue(o, inner, g), awaited, tail);
      assert whole.calls == [base[0]] + tail.calls;
      assert Continue(o, true, flat).calls == [base[0]] + flat.calls;
      if tail.calls != [] {
        assert whole.calls[1] == tail.calls[0] && ([base[0]] + flat.calls)[1] == base[1];
      }
    } else if !Settled(s.ctx) && tail.calls != [] {
      assert |[base[0]] + tail.calls| > 1;
    }
  }

  lemma PrefixCancels(calls: seq<HandlerId>, o: Outcome, o': Outcome)
    requires Prefix(calls, o) == Prefix(calls, o')
    ensures o == o'
  {
    assert o.calls == (calls + o.calls)[|calls|..] == (calls + o'.calls)[|calls|..] == o'.calls;
  }

  // ---- The whole table ----

  /** Routes that do not accept the request are passed over, merged or not. */
  lemma {:induction false} SkipSpread(b: Behaviour, r: EndpointRoute, base: seq<HandlerId>, rest: seq<EndpointRoute>,
                                      req: Request, awaited: bool, ctx: Ctx)
    requires !Accepts(r, req)
    ensures Serve(b, Spread(r, base) + rest, req, awaited, ctx) == Serve(b, rest, req, awaited, ctx)
  {
    if base == [] {
      assert Spread(r, base) + rest == rest;
    } else {
      assert (Spread(r, base) + rest)[1..] == Spread(r, base[1..]) + rest;
      SkipSpread(b, r, base[1..], rest, req, awaited, ctx);
    }
  }

  /** A merged table serves every request as its flat list of registrations does, with the same calls in the same
      order, final context and Response, when no merged handler that it reaches diverges; and only then, when every
      registration has its own number, so that the calls tell them apart. */
  lemma {:induction false} MergingIsInvisible(b: Behaviour, table: seq<EndpointRoute>, req: Request, awaited: bool, ctx: Ctx)
    requires KeepsParams(b) && AllMade(table)
    ensures !Diverges(b, table, req, awaited, ctx) ==>
              Serve(b, table, req, awaited, ctx) == Serve(b, Flatten(table), req, awaited, ctx)
    ensures Distinct(Ids(table)) && Diverges(b, table, req, awaited, ctx) ==>
              Serve(b, table, req, awaited, ctx) != Serve(b, Flatten(table), req, awaited, ctx)
  {
    if table != [] {
      var r, rest := table[0], table[1..];
      var base := Leaves(r.handler);
      DistinctParts(table);
      if !Accepts(r, req) {
        SkipSpread(b, r, base, Flatten(rest), req, awaited, ctx);
        MergingIsInvisible(b, rest, req, awaited, ctx);
      } else {
        AcceptedGroup(b, table, req, awaited, ctx);
        var start := WithParams(r, req, ctx);
        var o := Run(b, r.handler, start);
        hide Serve, RunAll, Run, MatchRoute, Accepts, Ids, Distinct;
        var tail := Serve(b, rest, req, awaited || o.async, o.ctx);
        var flatTail := Serve(b, Flatten(rest), req, awaited || o.async, o.ctx);
        if !GroupDiverges(b, base, awaited, false, start) {
          GroupAgrees(b, r, base, Flatten(rest), req, awaited, false, start);
          if !Ends(o, awaited) {
            MergingIsInvisible(b, rest, req, awaited || o.async, o.ctx);
            if Prefix(o.calls, tail) == Prefix(o.calls, flatTail) {
              PrefixCancels(o.calls, tail, flatTail);
            }
          }
        } else if Distinct(Ids(table)) {
          ServeTail(b, rest, req, awaited || o.async, o.ctx);
          GroupDiffers(b, r, base, Flatten(rest), req, awaited, false, start, tail, Ids(rest));
        }
      }
    }
  }

  lemma DistinctParts(table: seq<EndpointRoute>)
    requires table != []
    ensures Distinct(Ids(table)) ==>
              && Distinct(Ids(table[1..]))
              && forall i :: 0 <= i < |Leaves(table[0].handler)| ==> Leaves(table[0].handler)[i] !in Ids(table[1..])
  {
    var base, rest := Leaves(table[0].handler), Ids(table[1..]);
    if Distinct(Ids(table)) {
      assert rest == Ids(table)[|base|..];
      forall i, j | 0 <= i < |base| && 0 <= j < |rest| ensures rest[j] != base[i] {
        assert Ids(table)[i] == base[i] && Ids(table)[|base| + j] == rest[j];
      }
    }
  }

  /** The first steps of dispatch on an accepted head route, in the table and in its flattening. */
  lemma AcceptedGroup(b: Behaviour, table: seq<EndpointRoute>, req: Request, awaited: bool, ctx: Ctx)
    requires table != [] && Accepts(table[0], req) && Made(table[0].handler)
    ensures var r := table[0];
            var start := WithParams(r, req, ctx);
            var o := Run(b, r.handler, start);
            && Leaves(r.handler) != []
            && WithParams(r, req, start) == start
            && o == RunAll(b, Plains(Leaves(r.handler)), false, start)
            && Serve(b, table, req, awaited, ctx) ==
               Continue(o, awaited, Serve(b, table[1..], req, awaited || o.async, o.ctx))
            && Serve(b, Flatten(table), req, awaited, ctx) ==
               Serve(b, Spread(r, Leaves(r.handler)) + Flatten(table[1..]), req, awaited, start)
  {
    var r := table[0];
    var base := Leaves(r.handler);
    RunIsRunAll(b, r.handler, WithParams(r, req, ctx));
    var flat := Flatten(table);
    assert flat == Spread(r, base) + Flatten(table[1..]);
    assert flat[0] == r.(handler := Plain(base[0]));
  }
}
