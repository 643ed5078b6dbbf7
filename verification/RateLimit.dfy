/** The fixed-window rate limiter of `adapter/router/router/rateLimit.ts`: a store with lazy cleanup. */
module RateLimit {

  datatype Entry = Entry(count: nat, resetAt: int)

  type Store = map<string, Entry>

  datatype Config = Config(max: int, windowMs: int)

  /** One request. The handler reads the clock once, and a cleanup it starts reads it again. */
  datatype Event = Event(now: int, cleanupNow: int, key: string)

  /** What the handler tells the client: the count and reset time of its window, and whether it was refused. */
  datatype Verdict = Verdict(count: nat, resetAt: int, refused: bool)

  datatype Limiter = Limiter(store: Store, lastCleanup: int)

  function CleanupInterval(cfg: Config): int {
    if cfg.windowMs >= 60000 then cfg.windowMs else 60000
  }

  predicate CleanupDue(cfg: Config, s: Limiter, now: int) {
    now - s.lastCleanup > CleanupInterval(cfg)
  }

  /** The store without the entries expired at `now`. */
  function Expire(store: Store, now: int): Store {
    map k | k in store && now <= store[k].resetAt :: store[k]
  }

  function Swept(cfg: Config, s: Limiter, e: Event): Limiter {
    if CleanupDue(cfg, s, e.now) then Limiter(Expire(s.store, e.cleanupNow), e.now) else s
  }

  /** The entry of the key once this request is counted. */
  function Counted(cfg: Config, store: Store, now: int, key: string): Entry {
    if key !in store || now > store[key].resetAt then Entry(1, now + cfg.windowMs)
    else store[key].(count := store[key].count + 1)
  }

  function Judge(cfg: Config, entry: Entry): Verdict {
    Verdict(entry.count, entry.resetAt, entry.count > cfg.max)
  }

  function Next(cfg: Config, s: Limiter, e: Event): Limiter {
    var s' := Swept(cfg, s, e);
    s'.(store := s'.store[e.key := Counted(cfg, s'.store, e.now, e.key)])
  }

  function Answer(cfg: Config, s: Limiter, e: Event): Verdict {
    Judge(cfg, Counted(cfg, Swept(cfg, s, e).store, e.now, e.key))
  }

  // ---- The code ----

  class RateLimiter {
    var store: Store
    var lastCleanup: int
    const cfg: Config

    ghost function State(): Limiter
      reads this
    {
      Limiter(store, lastCleanup)
    }

    constructor (cfg: Config, now: int)
      ensures this.cfg == cfg && State() == Limiter(map[], now)
    {
      this.cfg := cfg;
      store := map[];
      lastCleanup := now;
    }

    method Cleanup(now: int)
      modifies this`store
      ensures store == Expire(old(store), now)
    {
      var rest := store.Keys;
      while rest != {}
        invariant rest <= old(store).Keys
        invariant store == map k | k in old(store) && (k in rest || now <= old(store)[k].resetAt) :: old(store)[k]
        decreases |rest|
      {
        var key :| key in rest;
        if now > store[key].resetAt {
          store := store - {key};
        }
        rest := rest - {key};
      }
    }

    method Handle(now: int, cleanupNow: int, key: string) returns (verdict: Verdict)
      modifies this
      ensures var e := Event(now, cleanupNow, key);
              State() == Next(cfg, old(State()), e) && verdict == Answer(cfg, old(State()), e)
    {
      if now - lastCleanup > (if cfg.windowMs >= 60000 then cfg.windowMs else 60000) {
        Cleanup(cleanupNow);
        lastCleanup := now;
      }
      var entry := if key in store then store[key] else Entry(0, now + cfg.windowMs);
      if now > entry.resetAt {
        entry := Entry(0, now + cfg.windowMs);
      }
      entry := entry.(count := entry.count + 1);
      store := store[key := entry];
      verdict := Verdict(entry.count, entry.resetAt, entry.count > cfg.max);
    }
  }

  // ---- Runs ----

  /** Clock readings in the order they are taken: never decreasing. */
  ghost predicate Clocked(events: seq<Event>, start: int) {
    events == [] ||
    (start <= events[0].now <= events[0].cleanupNow && Clocked(events[1..], events[0].cleanupNow))
  }

  function Answers(cfg: Config, s: Limiter, events: seq<Event>): seq<Verdict>
    decreases |events|
  {
    if events == [] then [] else [Answer(cfg, s, events[0])] + Answers(cfg, Next(cfg, s, events[0]), events[1..])
  }

  /** The limiter that never deletes an entry. */
  function PlainAnswers(cfg: Config, store: Store, events: seq<Event>): seq<Verdict>
    decreases |events|
  {
    if events == [] then [] else
      var entry := Counted(cfg, store, events[0].now, events[0].key);
      [Judge(cfg, entry)] + PlainAnswers(cfg, store[events[0].key := entry], events[1..])
  }

  /** A cleanup deletes the entry its own request still needs: it expires between the two clock readings. */
  predicate Race(cfg: Config, s: Limiter, e: Event) {
    CleanupDue(cfg, s, e.now) && e.key in s.store && e.now <= s.store[e.key].resetAt < e.cleanupNow
  }

  predicate Races(cfg: Config, s: Limiter, events: seq<Event>)
    decreases |events|
  {
    events != [] && (Race(cfg, s, events[0]) || Races(cfg, Next(cfg, s, events[0]), events[1..]))
  }

  // ---- Cleanup is unobservable ----

  /** Two stores that tell apart nothing from `now` on: they agree up to entries already expired. */
  ghost predicate Alike(lazy: Store, plain: Store, now: int) {
    && (forall k :: k in lazy ==> k in plain && plain[k] == lazy[k])
    && (forall k :: k in plain && k !in lazy ==> plain[k].resetAt < now)
    && (forall k :: k in lazy ==> lazy[k].count >= 1)
  }

  lemma StepAlike(cfg: Config, s: Limiter, plain: Store, e: Event, now: int)
    requires now <= e.now <= e.cleanupNow && Alike(s.store, plain, now) && !Race(cfg, s, e)
    ensures Answer(cfg, s, e) == Judge(cfg, Counted(cfg, plain, e.now, e.key))
    ensures Alike(Next(cfg, s, e).store, plain[e.key := Counted(cfg, plain, e.now, e.key)], e.cleanupNow)
  {
  }

  /** The limiter answers as one that never deletes entries, exactly when no cleanup races its own request. */
  lemma {:induction false} CleanupIsInvisible(cfg: Config, s: Limiter, plain: Store, events: seq<Event>, now: int)
    requires Clocked(events, now) && Alike(s.store, plain, now)
    ensures Answers(cfg, s, events) == PlainAnswers(cfg, plain, events) <==> !Races(cfg, s, events)
    decreases |events|
  {
    if events != [] {
      var e := events[0];
      var entry := Counted(cfg, plain, e.now, e.key);
      if Race(cfg, s, e) {
        assert Answer(cfg, s, e).count == 1 && entry.count >= 2;
        assert Answers(cfg, s, events)[0] != PlainAnswers(cfg, plain, events)[0];
      } else {
        StepAlike(cfg, s, plain, e, now);
        CleanupIsInvisible(cfg, Next(cfg, s, e), plain[e.key := entry], events[1..], e.cleanupNow);
        assert Answers(cfg, s, events)[1..] == Answers(cfg, Next(cfg, s, e), events[1..]);
        assert PlainAnswers(cfg, plain, events)[1..] == PlainAnswers(cfg, plain[e.key := entry], events[1..]);
      }
    }
  }

  /** A fresh limiter, on any run. */
  lemma FreshCleanupIsInvisible(cfg: Config, events: seq<Event>, start: int)
    requires Clocked(events, start)
    ensures Answers(cfg, Limiter(map[], start), events) == PlainAnswers(cfg, map[], events) <==>
            !Races(cfg, Limiter(map[], start), events)
  {
    CleanupIsInvisible(cfg, Limiter(map[], start), map[], events, start);
  }

  // ---- Stored entries are never long dead ----

  function Final(cfg: Config, s: Limiter, events: seq<Event>): Limiter
    decreases |events|
  {
    if events == [] then s else Final(cfg, Next(cfg, s, events[0]), events[1..])
  }

  function LastNow(events: seq<Event>, start: int): int {
    if events == [] then start else LastNow(events[1..], events[0].now)
  }

  /** Entries outlive the last cleanup, up to a negative window. */
  ghost predicate Recent(cfg: Config, s: Limiter) {
    forall k :: k in s.store ==> s.store[k].resetAt >= s.lastCleanup + (if cfg.windowMs < 0 then cfg.windowMs else 0)
  }

  /** After each call no stored entry expired more than a cleanup interval ago. */
  lemma {:induction false} StoreStaysSmall(cfg: Config, s: Limiter, events: seq<Event>, start: int)
    requires Clocked(events, start) && s.lastCleanup <= start && Recent(cfg, s)
    requires start - s.lastCleanup <= CleanupInterval(cfg)
    ensures var s' := Final(cfg, s, events);
            forall k :: k in s'.store ==>
              s'.store[k].resetAt >= LastNow(events, start) - CleanupInterval(cfg) + (if cfg.windowMs < 0 then cfg.windowMs else 0)
    decreases |events|
  {
    if events == [] {
      assert Final(cfg, s, events) == s;
    } else {
      var s1 := Next(cfg, s, events[0]);
      assert Final(cfg, s, events) == Final(cfg, s1, events[1..]);
      assert Recent(cfg, s1) && s1.lastCleanup <= events[0].now;
      ClockedLater(events[1..], events[0].now, events[0].cleanupNow);
      StoreStaysSmall(cfg, s1, events[1..], events[0].now);
    }
  }

  lemma ClockedLater(events: seq<Event>, start: int, later: int)
    requires start <= later && Clocked(events, later)
    ensures Clocked(events, start)
  {
  }

  // ---- The sliding bound ----

  /** Accepted requests of `key` with a clock reading in the closed interval. */
  function Accepted(cfg: Config, s: Limiter, events: seq<Event>, key: string, from: int, to: int): nat
    decreases |events|
  {
    if events == [] then 0 else
      (if events[0].key == key && from <= events[0].now <= to && !Answer(cfg, s, events[0]).refused then 1 else 0) +
      Accepted(cfg, Next(cfg, s, events[0]), events[1..], key, from, to)
  }

  function NonNeg(x: int): nat {
    if x < 0 then 0 else x
  }

  /** How many more requests an interval starting at `from` can accept. */
  function Allowance(cfg: Config, store: Store, key: string, from: int): nat {
    if key !in store then NonNeg(cfg.max)
    else
      NonNeg(cfg.max - store[key].count) +
      (if store[key].resetAt - cfg.windowMs >= from then 0 else NonNeg(cfg.max))
  }

  lemma {:induction false} NothingLater(cfg: Config, s: Limiter, events: seq<Event>, key: string, from: int, now: int)
    requires from + cfg.windowMs < now && Clocked(events, now)
    ensures Accepted(cfg, s, events, key, from, from + cfg.windowMs) == 0
    decreases |events|
  {
    if events != [] {
      NothingLater(cfg, Next(cfg, s, events[0]), events[1..], key, from, events[0].cleanupNow);
    }
  }

  /** From inside the interval on, the allowance is kept, but for the one request that may race its cleanup: that
      cleanup reads a clock past the end of the interval. */
  lemma {:induction false} InsideBound(cfg: Config, s: Limiter, events: seq<Event>, key: string, from: int, now: int)
    requires from <= now && Clocked(events, now)
    ensures Accepted(cfg, s, events, key, from, from + cfg.windowMs) <= Allowance(cfg, s.store, key, from) + 1
    ensures !Races(cfg, s, events) || cfg.max <= 0 ==>
              Accepted(cfg, s, events, key, from, from + cfg.windowMs) <= Allowance(cfg, s.store, key, from)
    decreases |events|
  {
    if events != [] {
      var e := events[0];
      var s' := Next(cfg, s, e);
      if e.cleanupNow > from + cfg.windowMs {
        NothingLater(cfg, s', events[1..], key, from, e.cleanupNow);
      } else {
        InsideBound(cfg, s', events[1..], key, from, e.cleanupNow);
      }
    }
  }

  /** No closed interval as long as the window accepts more than twice the maximum for a key; one less, when no cleanup
      races its own request. */
  lemma {:induction false} SlidingBound(cfg: Config, s: Limiter, events: seq<Event>, key: string, from: int, now: int)
    requires Clocked(events, now) && forall k :: k in s.store ==> s.store[k].count >= 1
    ensures Accepted(cfg, s, events, key, from, from + cfg.windowMs) <= 2 * NonNeg(cfg.max)
    ensures !Races(cfg, s, events) ==>
              Accepted(cfg, s, events, key, from, from + cfg.windowMs) <= NonNeg(2 * cfg.max - 1)
    decreases |events|
  {
    if events != [] {
      if events[0].now < from {
        SlidingBound(cfg, Next(cfg, s, events[0]), events[1..], key, from, events[0].cleanupNow);
      } else {
        ClockedFrom(events, now, from);
        InsideBound(cfg, s, events, key, from, if now < from then from else now);
      }
    }
  }

  lemma ClockedFrom(events: seq<Event>, now: int, from: int)
    requires Clocked(events, now) && events != [] && from <= events[0].now
    ensures Clocked(events, if now < from then from else now)
  {
  }

  /** Twice the maximum is reached: two windows, and a third opened by a cleanup that the clock overtakes. */
  lemma RaceReachesTwiceTheMaximum()
    ensures var cfg := Config(2, 60000);
            var events := [Event(60000, 60000, "a"), Event(60001, 60001, "b"), Event(60002, 60002, "a"),
                           Event(120001, 120001, "a"), Event(120001, 120001, "a"), Event(120002, 200000, "a")];
            && Clocked(events, 0)
            && Races(cfg, Limiter(map[], 0), events)
            && Accepted(cfg, Limiter(map[], 0), events, "a", 60002, 120002) == 4
  {
  }
}
