/** What a client of the rate limiter sees, in terms of the requests made with its key: `adapter/router/router/rateLimit.ts`. */
module Windows {
  import opened RateLimit

  /** Request `i` reads the clock no earlier than the one before it, or its cleanup, did. */
  predicate InOrder(events: seq<Event>, start: int, i: nat)
    requires i < |events|
  {
    (if i == 0 then start else events[i - 1].cleanupNow) <= events[i].now <= events[i].cleanupNow
  }

  /** The clock may stand still or go on, between requests and during a cleanup, but never goes back. */
  lemma {:induction false} ClockedMeans(events: seq<Event>, start: int)
    ensures Clocked(events, start) <==> forall i: nat :: i < |events| ==> InOrder(events, start, i)
    decreases |events|
  {
    if events != [] {
      var rest, later := events[1..], events[0].cleanupNow;
      ClockedMeans(rest, later);
      assert InOrder(events, start, 0) <==> start <= events[0].now <= later;
      assert forall i: nat :: i < |rest| ==> (InOrder(rest, later, i) <==> InOrder(events, start, i + 1));
      if Clocked(events, start) {
        forall i: nat | i < |events| ensures InOrder(events, start, i) {
          assert i > 0 ==> InOrder(rest, later, i - 1);
        }
      }
    }
  }

  // ---- Each verdict by the one before it ----

  /** No request of the key lies strictly between the two. */
  predicate Consecutive(events: seq<Event>, p: nat, i: nat) {
    p < i < |events| && events[p].key == events[i].key && forall m :: p < m < i ==> events[m].key != events[i].key
  }

  predicate FirstOfKey(events: seq<Event>, i: nat) {
    i < |events| && forall m :: 0 <= m < i ==> events[m].key != events[i].key
  }

  lemma {:induction false} AnswersLength(cfg: Config, s: Limiter, store: Store, events: seq<Event>)
    ensures |Answers(cfg, s, events)| == |events| == |PlainAnswers(cfg, store, events)|
    decreases |events|
  {
    if events != [] {
      AnswersLength(cfg, Next(cfg, s, events[0]), store[events[0].key := Counted(cfg, store, events[0].now, events[0].key)], events[1..]);
    }
  }

  /** The limiter that never deletes answers request `i` by the entry that the requests before it have left. */
  lemma {:induction false} PlainAt(cfg: Config, store: Store, events: seq<Event>, i: nat)
    requires i < |events|
    ensures |PlainAnswers(cfg, store, events)| == |events|
    ensures PlainAnswers(cfg, store, events)[i] ==
            Judge(cfg, Counted(cfg, PlainStore(cfg, store, events[..i]), events[i].now, events[i].key))
    decreases |events|
  {
    AnswersLength(cfg, Limiter(store, 0), store, events);
    if i > 0 {
      var e := events[0];
      var store' := store[e.key := Counted(cfg, store, e.now, e.key)];
      PlainAt(cfg, store', events[1..], i - 1);
      assert events[..i][1..] == events[1..][..i - 1] && events[..i][0] == e;
      assert PlainAnswers(cfg, store, events)[i] == PlainAnswers(cfg, store', events[1..])[i - 1];
    }
  }

  function PlainStore(cfg: Config, store: Store, events: seq<Event>): Store
    decreases |events|
  {
    if events == [] then store
    else PlainStore(cfg, store[events[0].key := Counted(cfg, store, events[0].now, events[0].key)], events[1..])
  }

  lemma {:induction false} PlainStoreSnoc(cfg: Config, store: Store, events: seq<Event>, e: Event)
    ensures PlainStore(cfg, store, events + [e]) ==
            var s := PlainStore(cfg, store, events); s[e.key := Counted(cfg, s, e.now, e.key)]
    decreases |events|
  {
    if events == [] {
      assert (events + [e])[1..] == [];
    } else {
      assert (events + [e])[1..] == events[1..] + [e];
      PlainStoreSnoc(cfg, store[events[0].key := Counted(cfg, store, events[0].now, events[0].key)], events[1..], e);
    }
  }

  /** A request leaves its verdict in the entry of its key, and later requests of other keys leave it there. */
  lemma {:induction false} EntryOfLast(cfg: Config, events: seq<Event>, p: nat, n: nat)
    requires p < n <= |events| && forall m :: p < m < n ==> events[m].key != events[p].key
    ensures |PlainAnswers(cfg, map[], events)| == |events|
    ensures var v := PlainAnswers(cfg, map[], events)[p];
            var store := PlainStore(cfg, map[], events[..n]);
            events[p].key in store && store[events[p].key] == Entry(v.count, v.resetAt)
    decreases n
  {
    assert events[..n] == events[..n - 1] + [events[n - 1]];
    PlainStoreSnoc(cfg, map[], events[..n - 1], events[n - 1]);
    PlainAt(cfg, map[], events, p);
    if p < n - 1 {
      EntryOfLast(cfg, events, p, n - 1);
    }
  }

  lemma {:induction false} NoEntryYet(cfg: Config, events: seq<Event>, n: nat, key: string)
    requires n <= |events| && forall m :: 0 <= m < n ==> events[m].key != key
    ensures key !in PlainStore(cfg, map[], events[..n])
    decreases n
  {
    if n > 0 {
      assert events[..n] == events[..n - 1] + [events[n - 1]];
      PlainStoreSnoc(cfg, map[], events[..n - 1], events[n - 1]);
      NoEntryYet(cfg, events, n - 1, key);
    }
  }

  /** Without races, a key's first request opens a window; any other one is counted in the window of the request before it,
      which keeps its reset time whether requests are refused or not, until the clock has passed that time; then it opens a
      window of its own. It is refused exactly when the count is above the maximum. */
  lemma VerdictByVerdict(cfg: Config, events: seq<Event>, start: int, i: nat)
    requires Clocked(events, start) && !Races(cfg, Limiter(map[], start), events) && i < |events|
    ensures var vs := Answers(cfg, Limiter(map[], start), events);
            var now := events[i].now;
            && |vs| == |events|
            && (FirstOfKey(events, i) ==> vs[i] == Verdict(1, now + cfg.windowMs, 1 > cfg.max))
            && forall p: nat :: Consecutive(events, p, i) ==>
                 vs[i] == if now <= vs[p].resetAt then Verdict(vs[p].count + 1, vs[p].resetAt, vs[p].count + 1 > cfg.max)
                          else Verdict(1, now + cfg.windowMs, 1 > cfg.max)
  {
    FreshCleanupIsInvisible(cfg, events, start);
    AnswersLength(cfg, Limiter(map[], start), map[], events);
    PlainAt(cfg, map[], events, i);
    if FirstOfKey(events, i) {
      NoEntryYet(cfg, events, i, events[i].key);
    }
    forall p: nat | Consecutive(events, p, i)
      ensures var vs := PlainAnswers(cfg, map[], events);
              var now := events[i].now;
              vs[i] == if now <= vs[p].resetAt then Verdict(vs[p].count + 1, vs[p].resetAt, vs[p].count + 1 > cfg.max)
                       else Verdict(1, now + cfg.windowMs, 1 > cfg.max)
    {
      EntryOfLast(cfg, events, p, i);
    }
  }

  // ---- Whole windows, with races or without ----

  lemma {:induction false} FinalSnoc(cfg: Config, s: Limiter, events: seq<Event>, e: Event)
    ensures Final(cfg, s, events + [e]) == Next(cfg, Final(cfg, s, events), e)
    decreases |events|
  {
    if events == [] {
      assert (events + [e])[1..] == [];
    } else {
      assert (events + [e])[1..] == events[1..] + [e];
      FinalSnoc(cfg, Next(cfg, s, events[0]), events[1..], e);
    }
  }

  lemma {:induction false} AcceptedSnoc(cfg: Config, s: Limiter, events: seq<Event>, e: Event, key: string, from: int, to: int)
    ensures Accepted(cfg, s, events + [e], key, from, to) ==
            Accepted(cfg, s, events, key, from, to) +
            if e.key == key && from <= e.now <= to && !Answer(cfg, Final(cfg, s, events), e).refused then 1 else 0
    decreases |events|
  {
    if events == [] {
      assert (events + [e])[1..] == [];
    } else {
      assert (events + [e])[1..] == events[1..] + [e];
      AcceptedSnoc(cfg, Next(cfg, s, events[0]), events[1..], e, key, from, to);
    }
  }

  lemma {:induction false} ClockedSnoc(events: seq<Event>, e: Event, start: int)
    requires Clocked(events + [e], start)
    ensures Clocked(events, start) && LastNow(events, start) <= e.now && start <= e.now
    decreases |events|
  {
    if events != [] {
      assert (events + [e])[1..] == events[1..] + [e];
      ClockedSnoc(events[1..], e, events[0].cleanupNow);
      LastNowLater(events[1..], events[0].now, events[0].cleanupNow);
    }
  }

  lemma LastNowLater(events: seq<Event>, start: int, later: int)
    requires start <= later
    ensures LastNow(events, start) <= LastNow(events, later)
  {
  }

  function Least(a: int, b: int): int {
    if a < b then a else b
  }

  /** An entry was opened by a request of its key, a window before its reset time, and the requests accepted since are as
      many as it has counted, up to the maximum. */
  ghost predicate Backed(cfg: Config, s: Limiter, events: seq<Event>, start: int, key: string) {
    var s' := Final(cfg, s, events);
    key in s'.store ==>
      var entry := s'.store[key];
      var since := entry.resetAt - cfg.windowMs;
      && RequestedAt(events, key, since)
      && since <= LastNow(events, start)
      && forall from, to :: from <= since && LastNow(events, start) <= to ==>
           Accepted(cfg, s, events, key, from, to) >= Least(entry.count, NonNeg(cfg.max))
  }

  predicate RequestedAt(events: seq<Event>, key: string, now: int) {
    exists m :: 0 <= m < |events| && events[m].key == key && events[m].now == now
  }

  lemma RequestedBefore(front: seq<Event>, e: Event, key: string, now: int)
    ensures RequestedAt(front + [e], key, now) <==> RequestedAt(front, key, now) || (e.key == key && e.now == now)
  {
    var events := front + [e];
    assert events[|front|] == e;
    if m :| 0 <= m < |front| && front[m].key == key && front[m].now == now {
      assert events[m] == front[m];
    }
    if m :| 0 <= m < |events| && events[m].key == key && events[m].now == now {
      assert m < |front| ==> events[m] == front[m];
    }
  }

  lemma {:induction false} EntriesAreBacked(cfg: Config, events: seq<Event>, start: int, key: string)
    requires Clocked(events, start)
    ensures Backed(cfg, Limiter(map[], start), events, start, key)
    decreases |events|
  {
    if events != [] {
      var n := |events| - 1;
      var front, e := events[..n], events[n];
      assert events == front + [e];
      ClockedSnoc(front, e, start);
      EntriesAreBacked(cfg, front, start, key);
      BackedNext(cfg, Limiter(map[], start), front, e, start, key);
    }
  }

  lemma {:induction false} LastNowSnoc(events: seq<Event>, e: Event, start: int)
    ensures LastNow(events + [e], start) == e.now
  {
    if events == [] {
      assert (events + [e])[1..] == [];
    } else {
      assert (events + [e])[1..] == events[1..] + [e];
      LastNowSnoc(events[1..], e, events[0].now);
    }
  }

  /** How one request changes the entry of a key, if at all. */
  lemma EntryNext(cfg: Config, s: Limiter, e: Event, key: string)
    requires key in Next(cfg, s, e).store
    ensures var entry := Next(cfg, s, e).store[key];
            if key != e.key then key in s.store && entry == s.store[key]
            else if entry.count == 1 && entry.resetAt == e.now + cfg.windowMs then Answer(cfg, s, e) == Verdict(1, entry.resetAt, 1 > cfg.max)
            else
              && key in s.store && entry == Entry(s.store[key].count + 1, s.store[key].resetAt)
              && Answer(cfg, s, e) == Verdict(entry.count, entry.resetAt, entry.count > cfg.max)
  {
  }

  lemma BackedNext(cfg: Config, s: Limiter, front: seq<Event>, e: Event, start: int, key: string)
    requires Backed(cfg, s, front, start, key) && LastNow(front, start) <= e.now
    ensures Backed(cfg, s, front + [e], start, key)
  {
    var events := front + [e];
    FinalSnoc(cfg, s, front, e);
    LastNowSnoc(front, e, start);
    var before := Final(cfg, s, front);
    var after := Next(cfg, before, e);
    if key in after.store {
      EntryNext(cfg, before, e, key);
      var entry := after.store[key];
      var since := entry.resetAt - cfg.windowMs;
      assert since <= e.now;
      RequestedBefore(front, e, key, since);
      forall from, to | from <= since && e.now <= to
        ensures Accepted(cfg, s, events, key, from, to) >= Least(entry.count, NonNeg(cfg.max))
      {
        AcceptedSnoc(cfg, s, front, e, key, from, to);
        if key in before.store && since == before.store[key].resetAt - cfg.windowMs {
          assert Accepted(cfg, s, front, key, from, to) >= Least(before.store[key].count, NonNeg(cfg.max));
        }
      }
    }
  }

  /** In every run, races or not: the reset time told to a client is a window after a request of its key. */
  lemma ResetIsAWindowAfterARequest(cfg: Config, before: seq<Event>, e: Event, start: int)
    requires Clocked(before + [e], start)
    ensures var v := Answer(cfg, Final(cfg, Limiter(map[], start), before), e);
            RequestedAt(before + [e], e.key, v.resetAt - cfg.windowMs)
  {
    EntriesAreBacked(cfg, before + [e], start, e.key);
    FinalSnoc(cfg, Limiter(map[], start), before, e);
    assert Backed(cfg, Limiter(map[], start), before + [e], start, e.key);
  }

  /** In every run, races or not: a request is refused only if the maximum was accepted, with its key, within the window up to
      it. */
  lemma RefusedOnlyWhenFull(cfg: Config, before: seq<Event>, e: Event, start: int)
    requires Clocked(before + [e], start)
    ensures var s := Limiter(map[], start);
            Answer(cfg, Final(cfg, s, before), e).refused ==>
              Accepted(cfg, s, before, e.key, e.now - cfg.windowMs, e.now) >= NonNeg(cfg.max)
  {
    ClockedSnoc(before, e, start);
    EntriesAreBacked(cfg, before, start, e.key);
    var s := Limiter(map[], start);
    assert Backed(cfg, s, before, start, e.key);
  }

  // ---- When cleanup runs ----

  /** A request cleans up exactly when more than the window and more than a minute have passed since the last time, and then
      no entry that had expired by the cleanup's own reading survives but its own. */
  lemma CleanupRuns(cfg: Config, s: Limiter, e: Event, key: string)
    requires s.lastCleanup != e.now && key != e.key
    ensures var due := e.now - s.lastCleanup > cfg.windowMs && e.now - s.lastCleanup > 60000;
            var s' := Next(cfg, s, e);
            && s'.lastCleanup == (if due then e.now else s.lastCleanup)
            && (key in s'.store <==> key in s.store && (due ==> s.store[key].resetAt >= e.cleanupNow))
            && (key in s'.store ==> s'.store[key] == s.store[key])
  {
  }
}
