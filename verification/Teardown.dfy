/** What a connection leaves behind in the topics when its disconnect task runs between the writes of the JS thread, told
    by the order of steps alone: `src/server.rs` and `src/websocket.rs`. */
module Teardown {
  import opened PubSub

  // ---- When a topic holds a connection ----

  /** The last JS step before position `n` is `begin`, so that the call it begins is half done. */
  ghost predicate HalfAt(trace: seq<Action>, n: nat, begin: JsStep)
    requires n <= |trace|
  {
    exists b :: 0 <= b < n && BeginsAt(trace, b, n, begin)
  }

  ghost predicate BeginsAt(trace: seq<Action>, b: nat, n: nat, begin: JsStep)
    requires b < n <= |trace|
  {
    trace[b] == ByJs(begin) && forall i :: b < i < n ==> trace[i].ByTask?
  }

  /** At position `e` a subscribe call makes its second write. */
  ghost predicate Subscribes(trace: seq<Action>, e: nat, c: Conn, t: Topic)
    requires e < |trace|
  {
    trace[e] == ByJs(SubEnd) && HalfAt(trace, e, SubBegin(c, t))
  }

  /** At position `e` an unsubscribe call makes its second write, or the disconnect task leaves the topic. */
  ghost predicate Removes(trace: seq<Action>, e: nat, c: Conn, t: Topic)
    requires e < |trace|
  {
    trace[e] == ByTask(LeaveTopic(c, t)) || (trace[e] == ByJs(UnsubEnd) && HalfAt(trace, e, UnsubBegin(c, t)))
  }

  ghost predicate SubscribedLast(trace: seq<Action>, c: Conn, t: Topic) {
    exists e :: 0 <= e < |trace| && SubscribedAt(trace, e, c, t)
  }

  ghost predicate SubscribedAt(trace: seq<Action>, e: nat, c: Conn, t: Topic)
    requires e < |trace|
  {
    Subscribes(trace, e, c, t) && forall i :: e < i < |trace| ==> !Removes(trace, i, c, t)
  }

  lemma HalfWithin(front: seq<Action>, a: Action, n: nat, begin: JsStep)
    requires n <= |front|
    ensures HalfAt(front + [a], n, begin) <==> HalfAt(front, n, begin)
  {
    var trace := front + [a];
    assert forall b :: 0 <= b < n ==> (BeginsAt(trace, b, n, begin) <==> BeginsAt(front, b, n, begin)) by {
      assert forall i :: 0 <= i < n ==> trace[i] == front[i];
    }
    if b :| 0 <= b < n && BeginsAt(front, b, n, begin) {
      assert BeginsAt(trace, b, n, begin);
    }
    if b :| 0 <= b < n && BeginsAt(trace, b, n, begin) {
      assert BeginsAt(front, b, n, begin);
    }
  }

  lemma HalfNext(front: seq<Action>, a: Action, begin: JsStep)
    ensures HalfAt(front + [a], |front| + 1, begin) <==> a == ByJs(begin) || (a.ByTask? && HalfAt(front, |front|, begin))
  {
    var trace, n := front + [a], |front|;
    if a == ByJs(begin) {
      assert BeginsAt(trace, n, n + 1, begin);
    }
    if b :| 0 <= b < n && BeginsAt(front, b, n, begin) && a.ByTask? {
      assert BeginsAt(trace, b, n + 1, begin);
    }
    if b :| 0 <= b < |trace| && BeginsAt(trace, b, |trace|, begin) {
      assert trace[n] == a;
      if b < n {
        forall i | b < i < n ensures front[i].ByTask? {
          assert trace[i] == front[i];
        }
        assert BeginsAt(front, b, n, begin);
      }
    }
  }

  lemma SubscribedNext(front: seq<Action>, a: Action, c: Conn, t: Topic)
    ensures SubscribedLast(front + [a], c, t) <==>
            || (a == ByJs(SubEnd) && HalfAt(front, |front|, SubBegin(c, t)))
            || (SubscribedLast(front, c, t) && a != ByTask(LeaveTopic(c, t)) &&
                !(a == ByJs(UnsubEnd) && HalfAt(front, |front|, UnsubBegin(c, t))))
  {
    var trace, n := front + [a], |front|;
    forall e | 0 <= e <= n
      ensures HalfAt(trace, e, SubBegin(c, t)) <==> HalfAt(front, e, SubBegin(c, t))
      ensures HalfAt(trace, e, UnsubBegin(c, t)) <==> HalfAt(front, e, UnsubBegin(c, t))
    {
      HalfWithin(front, a, e, SubBegin(c, t));
      HalfWithin(front, a, e, UnsubBegin(c, t));
    }
    hide HalfAt;
    assert trace[n] == a && forall i :: 0 <= i < n ==> trace[i] == front[i];
    assert forall i :: 0 <= i < n ==> (Removes(trace, i, c, t) <==> Removes(front, i, c, t));
    assert forall i :: 0 <= i < n ==> (Subscribes(trace, i, c, t) <==> Subscribes(front, i, c, t));
    if a == ByJs(SubEnd) && HalfAt(front, n, SubBegin(c, t)) {
      assert SubscribedAt(trace, n, c, t);
    }
    if e :| 0 <= e < n && SubscribedAt(front, e, c, t) && !Removes(trace, n, c, t) {
      assert SubscribedAt(trace, e, c, t);
    }
    if e :| 0 <= e < n + 1 && SubscribedAt(trace, e, c, t) {
      assert e < n ==> SubscribedAt(front, e, c, t) && !Removes(trace, n, c, t);
    }
  }

  /** In every run a topic holds a connection exactly when a subscribe call for the pair has made its second write, and
      neither an unsubscribe call for the pair nor the disconnect task has written to the topic after it. */
  lemma {:induction false} MembersByTrace(trace: seq<Action>, c: Conn, t: Topic)
    requires Possible(INIT, trace)
    ensures c in Members(After(INIT, trace), t) <==> SubscribedLast(trace, c, t)
    ensures After(INIT, trace).js == SubHalf(c, t) <==> HalfAt(trace, |trace|, SubBegin(c, t))
    ensures After(INIT, trace).js == UnsubHalf(c, t) <==> HalfAt(trace, |trace|, UnsubBegin(c, t))
    decreases |trace|
  {
    if trace != [] {
      var front, a := trace[..|trace| - 1], trace[|trace| - 1];
      TraceLast(INIT, trace);
      MembersByTrace(front, c, t);
      HalfNext(front, a, SubBegin(c, t));
      HalfNext(front, a, UnsubBegin(c, t));
      SubscribedNext(front, a, c, t);
      hide HalfAt, SubscribedLast, Possible, After;
      StepMembers(After(INIT, front), a, c, t);
    }
  }

  /** What a step does to the pair in the topics and to a call for it. */
  ghost predicate PairStep(s: State, a: Action, s': State, c: Conn, t: Topic) {
    && (c in Members(s', t) <==>
          || (a == ByJs(SubEnd) && s.js == SubHalf(c, t))
          || (c in Members(s, t) && a != ByTask(LeaveTopic(c, t)) && !(a == ByJs(UnsubEnd) && s.js == UnsubHalf(c, t))))
    && (s'.js == SubHalf(c, t) <==> a == ByJs(SubBegin(c, t)) || (a.ByTask? && s.js == SubHalf(c, t)))
    && (s'.js == UnsubHalf(c, t) <==> a == ByJs(UnsubBegin(c, t)) || (a.ByTask? && s.js == UnsubHalf(c, t)))
  }

  lemma StepMembers(s: State, a: Action, c: Conn, t: Topic)
    requires Can(s, a)
    ensures PairStep(s, a, Do(s, a), c, t)
  {
    hide DoJs, DoTask, CanJs, CanTask, PairStep;
    match a
    case ByJs(j) => JsMembers(s, j, c, t);
    case ByTask(k) => TaskMembers(s, k, c, t);
  }

  lemma JsMembers(s: State, a: JsStep, c: Conn, t: Topic)
    requires CanJs(s, a)
    ensures PairStep(s, ByJs(a), DoJs(s, a), c, t)
  {
    hide Room, Push, Audience, Subscribers;
  }

  lemma TaskMembers(s: State, a: TaskStep, c: Conn, t: Topic)
    requires CanTask(s, a)
    ensures PairStep(s, ByTask(a), DoTask(s, a), c, t)
  {
  }

  predicate TakesBack(a: Action, c: Conn, t: Topic) {
    a == ByJs(UnsubBegin(c, t)) || a == ByTask(TakeSubscriptions(c))
  }

  /** What a step does to the pair in the subscriptions. */
  lemma StepSubs(s: State, a: Action, c: Conn, t: Topic)
    requires Can(s, a)
    ensures t in Subs(Do(s, a), c) <==> a == ByJs(SubBegin(c, t)) || (t in Subs(s, c) && !TakesBack(a, c, t))
  {
    hide DoJs, DoTask, CanJs, CanTask, Subs;
    match a
    case ByJs(j) => JsSubs(s, j, c, t);
    case ByTask(k) => TaskSubs(s, k, c, t);
  }

  lemma JsSubs(s: State, a: JsStep, c: Conn, t: Topic)
    requires CanJs(s, a)
    ensures t in Subs(DoJs(s, a), c) <==> a == SubBegin(c, t) || (t in Subs(s, c) && a != UnsubBegin(c, t))
  {
    hide Room, Push, Audience, Subscribers;
  }

  lemma TaskSubs(s: State, a: TaskStep, c: Conn, t: Topic)
    requires CanTask(s, a)
    ensures t in Subs(DoTask(s, a), c) <==> t in Subs(s, c) && a != TakeSubscriptions(c)
  {
  }

  // ---- Entries without a subscription ----

  /** The disconnect task is still to take the connection out of the topic. */
  predicate Due(s: State, c: Conn, t: Topic) {
    PhaseOf(s, c).Cleaning? && t in PhaseOf(s, c).todo
  }

  /** JS is between the two writes of a call for the pair. */
  predicate HalfDoneFor(s: State, c: Conn, t: Topic) {
    s.js == SubHalf(c, t) || s.js == UnsubHalf(c, t)
  }

  predicate Stale(s: State, c: Conn, t: Topic) {
    c in Members(s, t) && t !in Subs(s, c)
  }

  /** A subscribe call began at `b`, the disconnect task took the subscriptions at `take` and left the topic at `leave`,
      then the call made its second write at `e`; no call for the pair began after that. */
  ghost predicate LeftBehindAt(trace: seq<Action>, c: Conn, t: Topic, b: nat, take: nat, leave: nat, e: nat) {
    && b < take < leave < e < |trace|
    && trace[b] == ByJs(SubBegin(c, t)) && trace[take] == ByTask(TakeSubscriptions(c))
    && trace[leave] == ByTask(LeaveTopic(c, t)) && trace[e] == ByJs(SubEnd)
    && (forall i :: b < i < e ==> trace[i].ByTask?)
    && (forall i :: e < i < |trace| ==> !Begins(trace[i], c, t))
  }

  predicate Begins(a: Action, c: Conn, t: Topic) {
    a == ByJs(SubBegin(c, t)) || a == ByJs(UnsubBegin(c, t))
  }

  ghost predicate LeftBehind(trace: seq<Action>, c: Conn, t: Topic) {
    exists b: nat, take: nat, leave: nat, e: nat :: LeftBehindAt(trace, c, t, b, take, leave, e)
  }

  /** How far a run has come on the way to leaving an entry behind. */
  datatype Tale = Quiet | Begun | Overtaken | Left | Stuck

  function Tell(tale: Tale, a: Action, c: Conn, t: Topic): Tale {
    match a
    case ByTask(k) =>
      if tale == Begun && k == TakeSubscriptions(c) then Overtaken
      else if tale == Overtaken && k == LeaveTopic(c, t) then Left
      else tale
    case ByJs(j) =>
      if j == SubBegin(c, t) then Begun
      else if j == UnsubBegin(c, t) then Quiet
      else if tale == Stuck || (tale == Left && j == SubEnd) then Stuck
      else Quiet
  }

  function Told(trace: seq<Action>, c: Conn, t: Topic): Tale
    decreases |trace|
  {
    if trace == [] then Quiet else Tell(Told(trace[..|trace| - 1], c, t), trace[|trace| - 1], c, t)
  }

  predicate TaleInv(s: State, tale: Tale, c: Conn, t: Topic) {
    match tale
    case Quiet => s.js != SubHalf(c, t) && (Stale(s, c, t) && !Due(s, c, t) ==> s.js == UnsubHalf(c, t))
    case Begun => s.js == SubHalf(c, t) && t in Subs(s, c)
    case Overtaken => s.js == SubHalf(c, t) && t !in Subs(s, c) && Due(s, c, t)
    case Left => s.js == SubHalf(c, t) && t !in Subs(s, c) && Taken(PhaseOf(s, c)) && !Due(s, c, t)
    case Stuck => !HalfDoneFor(s, c, t) && Stale(s, c, t) && Taken(PhaseOf(s, c)) && !Due(s, c, t)
  }

  lemma JsTale(s: State, a: JsStep, tale: Tale, c: Conn, t: Topic)
    requires CanJs(s, a) && TaleInv(s, tale, c, t)
    ensures TaleInv(DoJs(s, a), Tell(tale, ByJs(a), c, t), c, t)
  {
    hide Room, Push, Audience, Subscribers;
  }

  lemma TaskTale(s: State, a: TaskStep, tale: Tale, c: Conn, t: Topic)
    requires CanTask(s, a) && TaleInv(s, tale, c, t)
    ensures TaleInv(DoTask(s, a), Tell(tale, ByTask(a), c, t), c, t)
  {
  }

  lemma {:induction false} RunTale(trace: seq<Action>, c: Conn, t: Topic)
    requires Possible(INIT, trace)
    ensures TaleInv(After(INIT, trace), Told(trace, c, t), c, t)
    decreases |trace|
  {
    if trace != [] {
      var front, a := trace[..|trace| - 1], trace[|trace| - 1];
      TraceLast(INIT, trace);
      RunTale(front, c, t);
      match a
      case ByJs(j) => JsTale(After(INIT, front), j, Told(front, c, t), c, t);
      case ByTask(k) => TaskTale(After(INIT, front), k, Told(front, c, t), c, t);
    }
  }

  // ---- The tale in terms of positions ----

  /** What the positions are, as far as the tale has come. */
  ghost predicate Positions(trace: seq<Action>, c: Conn, t: Topic, tale: Tale) {
    match tale
    case Quiet => true
    case Begun => exists b: nat :: SinceBegun(trace, c, t, b)
    case Overtaken => exists b: nat, take: nat :: SinceBegun(trace, c, t, b) && SinceTaken(trace, c, b, take)
    case Left => exists b: nat, take: nat, leave: nat ::
      SinceBegun(trace, c, t, b) && SinceTaken(trace, c, b, take) && SinceLeft(trace, c, t, take, leave)
    case Stuck => LeftBehind(trace, c, t)
  }

  ghost predicate SinceBegun(trace: seq<Action>, c: Conn, t: Topic, b: nat) {
    b < |trace| && trace[b] == ByJs(SubBegin(c, t)) && forall i :: b < i < |trace| ==> trace[i].ByTask?
  }

  predicate SinceTaken(trace: seq<Action>, c: Conn, b: nat, take: nat) {
    b < take < |trace| && trace[take] == ByTask(TakeSubscriptions(c))
  }

  predicate SinceLeft(trace: seq<Action>, c: Conn, t: Topic, take: nat, leave: nat) {
    take < leave < |trace| && trace[leave] == ByTask(LeaveTopic(c, t))
  }

  lemma {:induction false} ToldPositions(trace: seq<Action>, c: Conn, t: Topic)
    ensures Positions(trace, c, t, Told(trace, c, t))
    decreases |trace|
  {
    if trace != [] {
      var n := |trace| - 1;
      var front, a := trace[..n], trace[n];
      ToldPositions(front, c, t);
      assert forall i :: 0 <= i < n ==> trace[i] == front[i];
      match Told(front, c, t) {
        case Quiet => assert a == ByJs(SubBegin(c, t)) ==> SinceBegun(trace, c, t, n);
        case Begun =>
          var b: nat :| SinceBegun(front, c, t, b);
          assert if a.ByTask? then SinceBegun(trace, c, t, b) else a == ByJs(SubBegin(c, t)) ==> SinceBegun(trace, c, t, n);
          assert a == ByTask(TakeSubscriptions(c)) ==> SinceTaken(trace, c, b, n);
        case Overtaken =>
          var b: nat, take: nat :| SinceBegun(front, c, t, b) && SinceTaken(front, c, b, take);
          assert if a.ByTask? then SinceBegun(trace, c, t, b) else a == ByJs(SubBegin(c, t)) ==> SinceBegun(trace, c, t, n);
          assert SinceTaken(trace, c, b, take);
          assert a == ByTask(LeaveTopic(c, t)) ==> SinceLeft(trace, c, t, take, n);
        case Left =>
          var b: nat, take: nat, leave: nat :|
            SinceBegun(front, c, t, b) && SinceTaken(front, c, b, take) && SinceLeft(front, c, t, take, leave);
          assert if a.ByTask? then SinceBegun(trace, c, t, b) else a == ByJs(SubBegin(c, t)) ==> SinceBegun(trace, c, t, n);
          assert SinceTaken(trace, c, b, take) && SinceLeft(trace, c, t, take, leave);
          assert a == ByJs(SubEnd) ==> LeftBehindAt(trace, c, t, b, take, leave, n);
        case Stuck =>
          var b: nat, take: nat, leave: nat, e: nat :| LeftBehindAt(front, c, t, b, take, leave, e);
          assert if !Begins(a, c, t) then LeftBehindAt(trace, c, t, b, take, leave, e)
                 else a == ByJs(SubBegin(c, t)) ==> SinceBegun(trace, c, t, n);
      }
    }
  }

  lemma {:induction false} PositionsTold(trace: seq<Action>, c: Conn, t: Topic, b: nat, take: nat, leave: nat, e: nat, n: nat)
    requires LeftBehindAt(trace, c, t, b, take, leave, e) && b < n <= |trace|
    ensures var tale := Told(trace[..n], c, t);
            && (n <= e ==> tale in {Begun, Overtaken, Left})
            && (take < n <= e ==> tale in {Overtaken, Left})
            && (leave < n <= e ==> tale == Left)
            && (e < n ==> tale == Stuck)
    decreases n
  {
    assert trace[..n][..n - 1] == trace[..n - 1] && trace[..n][n - 1] == trace[n - 1];
    if n > b + 1 {
      PositionsTold(trace, c, t, b, take, leave, e, n - 1);
    }
  }

  lemma StuckMeansLeftBehind(trace: seq<Action>, c: Conn, t: Topic)
    ensures Told(trace, c, t) == Stuck <==> LeftBehind(trace, c, t)
  {
    ToldPositions(trace, c, t);
    if LeftBehind(trace, c, t) {
      var b: nat, take: nat, leave: nat, e: nat :| LeftBehindAt(trace, c, t, b, take, leave, e);
      PositionsTold(trace, c, t, b, take, leave, e, |trace|);
      assert trace[..|trace|] == trace;
    }
  }

  // ---- What is left behind ----

  /** Exactly when a topic keeps a connection that is not subscribed to it, while no call for the pair is half done and no
      removal is due, and so for every connection torn down: the pair's last subscribe call began before the disconnect
      task took the subscriptions and made its second write after that task had left the topic. */
  lemma StaleExactly(trace: seq<Action>, c: Conn, t: Topic)
    requires Possible(INIT, trace)
    ensures var s := After(INIT, trace);
            !HalfDoneFor(s, c, t) && !Due(s, c, t) ==> (Stale(s, c, t) <==> LeftBehind(trace, c, t))
    ensures PhaseOf(After(INIT, trace), c).Gone? ==> !Due(After(INIT, trace), c, t)
  {
    RunTale(trace, c, t);
    StuckMeansLeftBehind(trace, c, t);
  }

  /** Such an entry is mute: its connection has no sender. */
  lemma StaleEntriesAreMute(trace: seq<Action>, c: Conn, t: Topic)
    requires Possible(INIT, trace)
    ensures var s := After(INIT, trace);
            !HalfDoneFor(s, c, t) && Stale(s, c, t) ==> c !in s.senders && (Due(s, c, t) || LeftBehind(trace, c, t))
  {
    StaleExactly(trace, c, t);
    Reachable(trace);
    var s := After(INIT, trace);
    assert PairInv(s, c, t);
    assert c in s.senders <==> PhaseOf(s, c) == Open;
  }

  /** An entry of a connection that is past leaving the topic stays in every continuation in which no call for the pair
      begins, and so does its being stale or not. */
  lemma {:induction false} EntryStays(s: State, trace: seq<Action>, c: Conn, t: Topic)
    requires Possible(s, trace) && forall a :: a in trace ==> !Begins(a, c, t)
    requires Taken(PhaseOf(s, c)) && !Due(s, c, t) && !HalfDoneFor(s, c, t) && c in Members(s, t)
    ensures var s' := After(s, trace);
            c in Members(s', t) && (Stale(s', c, t) <==> Stale(s, c, t)) && !HalfDoneFor(s', c, t)
    decreases |trace|
  {
    if trace != [] {
      var a := trace[0];
      StayedOneStep(s, a, c, t);
      EntryStays(Do(s, a), trace[1..], c, t);
    }
  }

  lemma StayedOneStep(s: State, a: Action, c: Conn, t: Topic)
    requires Can(s, a) && !Begins(a, c, t)
    requires Taken(PhaseOf(s, c)) && !Due(s, c, t) && !HalfDoneFor(s, c, t) && c in Members(s, t)
    ensures var s' := Do(s, a);
            && Taken(PhaseOf(s', c)) && !Due(s', c, t) && !HalfDoneFor(s', c, t) && c in Members(s', t)
            && (t in Subs(s', c) <==> t in Subs(s, c))
  {
    StepMembers(s, a, c, t);
    StepSubs(s, a, c, t);
    hide Members, Subs, Taken, Due, PhaseOf, DoJs, DoTask, CanJs, CanTask;
    match a
    case ByJs(j) => JsDue(s, j, c, t);
    case ByTask(k) => TaskDue(s, k, c, t);
  }

  lemma JsDue(s: State, a: JsStep, c: Conn, t: Topic)
    requires CanJs(s, a)
    ensures var s' := DoJs(s, a); (Taken(PhaseOf(s', c)) <==> Taken(PhaseOf(s, c))) && (Due(s', c, t) <==> Due(s, c, t))
  {
    JsKeepsPhases(s, a);
    hide DoJs, CanJs;
  }

  /** Past leaving the topic, neither that step nor the one that takes the subscriptions comes again. */
  lemma TaskDue(s: State, a: TaskStep, c: Conn, t: Topic)
    requires CanTask(s, a) && Taken(PhaseOf(s, c)) && !Due(s, c, t)
    ensures var s' := DoTask(s, a);
            a != LeaveTopic(c, t) && a != TakeSubscriptions(c) && Taken(PhaseOf(s', c)) && !Due(s', c, t)
  {
  }

  /** An unsubscribe call for the pair removes it. */
  lemma UnsubscribeClears(s: State, c: Conn, t: Topic)
    requires s.js.Idle?
    ensures Possible(s, [ByJs(UnsubBegin(c, t)), ByJs(UnsubEnd)])
    ensures var s' := After(s, [ByJs(UnsubBegin(c, t)), ByJs(UnsubEnd)]);
            c !in Members(s', t) && t !in Subs(s', c)
  {
    TwoSteps(s, ByJs(UnsubBegin(c, t)), ByJs(UnsubEnd));
  }

  /** An entry can be left behind for every connection and topic: teardown runs between the writes of a subscribe call. */
  lemma LateSubscribeLeavesEntry(c: Conn, t: Topic)
    ensures exists trace :: Possible(INIT, trace) && LeftBehind(trace, c, t) &&
              var s := After(INIT, trace);
              s.js.Idle? && PhaseOf(s, c).Gone? && Stale(s, c, t)
  {
    var start := HalfSubscribed(c, t);
    var rest := TornDownInBetween(start.1, c, t);
    TraceConcat(INIT, start.0, rest);
    StaleExactly(start.0 + rest, c, t);
  }

  /** A connection whose teardown has just taken a subscription that JS has half made. */
  lemma HalfSubscribed(c: Conn, t: Topic) returns (r: (seq<Action>, State))
    ensures Possible(INIT, r.0) && After(INIT, r.0) == r.1
    ensures r.1.js == SubHalf(c, t) && PhaseOf(r.1, c) == Cleaning({t}) && c !in r.1.subs
  {
    hide Possible, After;
    var a0, a1, a2, a3 := ByTask(Connect(c)), ByJs(SubBegin(c, t)), ByTask(RemoveSender(c)), ByTask(TakeSubscriptions(c));
    var s1 := Do(INIT, a0);
    var s2 := Do(s1, a1);
    var s3 := Do(s2, a2);
    var s4 := Do(s3, a3);
    NothingDone(s4);
    FirstStep(s3, a3, []);
    FirstStep(s2, a2, [a3] + []);
    FirstStep(s1, a1, [a2] + ([a3] + []));
    FirstStep(INIT, a0, [a1] + ([a2] + ([a3] + [])));
    r := ([a0] + ([a1] + ([a2] + ([a3] + []))), s4);
  }

  lemma TornDownInBetween(s: State, c: Conn, t: Topic) returns (trace: seq<Action>)
    requires s.js == SubHalf(c, t) && PhaseOf(s, c) == Cleaning({t}) && c !in s.subs
    ensures Possible(s, trace)
    ensures var s' := After(s, trace);
            s'.js.Idle? && PhaseOf(s', c).Gone? && c in Members(s', t) && t !in Subs(s', c)
  {
    hide Possible, After;
    var a0, a1, a2 := ByTask(LeaveTopic(c, t)), ByTask(FinishCleanup(c)), ByJs(SubEnd);
    var s1 := Do(s, a0);
    assert {t} - {t} == {};
    var s2 := Do(s1, a1);
    var s3 := Do(s2, a2);
    NothingDone(s3);
    FirstStep(s2, a2, []);
    FirstStep(s1, a1, [a2] + []);
    FirstStep(s, a0, [a1] + ([a2] + []));
    trace := [a0] + ([a1] + ([a2] + []));
  }

  // ---- When a connection is subscribed ----

  /** At `b` a subscribe call for the pair makes its first write, and neither an unsubscribe call for the pair nor the
      disconnect task takes it back. */
  ghost predicate SubscribedSince(trace: seq<Action>, b: nat, c: Conn, t: Topic)
    requires b < |trace|
  {
    trace[b] == ByJs(SubBegin(c, t)) && forall i :: b < i < |trace| ==> !TakesBack(trace[i], c, t)
  }

  ghost predicate Subscribed(trace: seq<Action>, c: Conn, t: Topic) {
    exists b :: 0 <= b < |trace| && SubscribedSince(trace, b, c, t)
  }

  lemma SinceNext(front: seq<Action>, a: Action, c: Conn, t: Topic)
    ensures Subscribed(front + [a], c, t) <==> a == ByJs(SubBegin(c, t)) || (Subscribed(front, c, t) && !TakesBack(a, c, t))
  {
    var trace, n := front + [a], |front|;
    assert trace[n] == a && forall i :: 0 <= i < n ==> trace[i] == front[i];
    if a == ByJs(SubBegin(c, t)) {
      assert SubscribedSince(trace, n, c, t);
    }
    if b :| 0 <= b < n && SubscribedSince(front, b, c, t) && !TakesBack(a, c, t) {
      assert SubscribedSince(trace, b, c, t);
    }
    if b :| 0 <= b < |trace| && SubscribedSince(trace, b, c, t) {
      assert b < n ==> SubscribedSince(front, b, c, t) && !TakesBack(a, c, t);
    }
  }

  /** In every run a connection is subscribed to a topic exactly when a subscribe call for the pair has made its first write,
      and neither an unsubscribe call for the pair nor the disconnect task has taken it back. */
  lemma {:induction false} SubsByTrace(trace: seq<Action>, c: Conn, t: Topic)
    requires Possible(INIT, trace)
    ensures t in Subs(After(INIT, trace), c) <==> Subscribed(trace, c, t)
    decreases |trace|
  {
    if trace != [] {
      var front, a := trace[..|trace| - 1], trace[|trace| - 1];
      TraceLast(INIT, trace);
      SubsByTrace(front, c, t);
      SinceNext(front, a, c, t);
      hide Subscribed, Possible, After;
      StepSubs(After(INIT, front), a, c, t);
    }
  }

  // ---- Subscriptions without an entry ----

  /** The disconnect task took the subscriptions at `take`, a subscribe call for the pair began at `b` and ended at `e`, and
      the disconnect task left the topic at `leave`; no call for the pair began after that call. */
  ghost predicate OrphanedAt(trace: seq<Action>, c: Conn, t: Topic, take: nat, b: nat, e: nat, leave: nat) {
    && CallAfter(trace, c, t, take, b, e)
    && e < leave < |trace| && trace[leave] == ByTask(LeaveTopic(c, t))
  }

  ghost predicate CallAfter(trace: seq<Action>, c: Conn, t: Topic, take: nat, b: nat, e: nat) {
    && take < b < e < |trace|
    && trace[take] == ByTask(TakeSubscriptions(c)) && trace[b] == ByJs(SubBegin(c, t)) && trace[e] == ByJs(SubEnd)
    && (forall i :: b < i < e ==> trace[i].ByTask?)
    && (forall i :: e < i < |trace| ==> !Begins(trace[i], c, t))
  }

  ghost predicate Orphaned(trace: seq<Action>, c: Conn, t: Topic) {
    exists take: nat, b: nat, e: nat, leave: nat :: OrphanedAt(trace, c, t, take, b, e, leave)
  }

  /** How far a run has come on the way to a subscription that loses its entry. */
  datatype Loss = Alive | Dead | Again | Back | Orphan

  function TellLoss(loss: Loss, a: Action, c: Conn, t: Topic): Loss {
    match a
    case ByTask(k) =>
      if loss == Alive && k == TakeSubscriptions(c) then Dead
      else if loss == Back && k == LeaveTopic(c, t) then Orphan
      else loss
    case ByJs(j) =>
      if loss == Alive then Alive
      else if j == SubBegin(c, t) then Again
      else if j == UnsubBegin(c, t) then Dead
      else if loss != Again then loss
      else if j == SubEnd then Back
      else Dead
  }

  function ToldLoss(trace: seq<Action>, c: Conn, t: Topic): Loss
    decreases |trace|
  {
    if trace == [] then Alive else TellLoss(ToldLoss(trace[..|trace| - 1], c, t), trace[|trace| - 1], c, t)
  }

  predicate LossInv(s: State, loss: Loss, c: Conn, t: Topic) {
    (loss == Alive <==> !Taken(PhaseOf(s, c))) &&
    match loss
    case Alive => true
    case Dead => t !in Subs(s, c)
    case Again => t in Subs(s, c) && s.js == SubHalf(c, t)
    case Back => t in Subs(s, c) && c in Members(s, t) && !HalfDoneFor(s, c, t)
    case Orphan => t in Subs(s, c) && c !in Members(s, t) && !HalfDoneFor(s, c, t)
  }

  lemma JsLoss(s: State, a: JsStep, loss: Loss, c: Conn, t: Topic)
    requires CanJs(s, a) && LossInv(s, loss, c, t)
    ensures LossInv(DoJs(s, a), TellLoss(loss, ByJs(a), c, t), c, t)
  {
    hide Room, Push, Audience, Subscribers;
  }

  lemma TaskLoss(s: State, a: TaskStep, loss: Loss, c: Conn, t: Topic)
    requires CanTask(s, a) && LossInv(s, loss, c, t)
    ensures LossInv(DoTask(s, a), TellLoss(loss, ByTask(a), c, t), c, t)
  {
  }

  lemma {:induction false} RunLoss(trace: seq<Action>, c: Conn, t: Topic)
    requires Possible(INIT, trace)
    ensures LossInv(After(INIT, trace), ToldLoss(trace, c, t), c, t)
    decreases |trace|
  {
    if trace != [] {
      var front, a := trace[..|trace| - 1], trace[|trace| - 1];
      TraceLast(INIT, trace);
      RunLoss(front, c, t);
      match a
      case ByJs(j) => JsLoss(After(INIT, front), j, ToldLoss(front, c, t), c, t);
      case ByTask(k) => TaskLoss(After(INIT, front), k, ToldLoss(front, c, t), c, t);
    }
  }

  ghost predicate LossPositions(trace: seq<Action>, c: Conn, t: Topic, loss: Loss) {
    (loss != Alive ==> exists take: nat :: TakenAt(trace, c, take)) &&
    match loss
    case Again => exists take: nat, b: nat :: TakenAt(trace, c, take) && take < b && SinceBegun(trace, c, t, b)
    case Back => exists take: nat, b: nat, e: nat :: CallAfter(trace, c, t, take, b, e)
    case Orphan => Orphaned(trace, c, t)
    case _ => true
  }

  predicate TakenAt(trace: seq<Action>, c: Conn, take: nat) {
    take < |trace| && trace[take] == ByTask(TakeSubscriptions(c))
  }

  lemma {:induction false} ToldLossPositions(trace: seq<Action>, c: Conn, t: Topic)
    ensures LossPositions(trace, c, t, ToldLoss(trace, c, t))
    decreases |trace|
  {
    if trace != [] {
      var n := |trace| - 1;
      var front, a := trace[..n], trace[n];
      ToldLossPositions(front, c, t);
      assert forall i :: 0 <= i < n ==> trace[i] == front[i];
      assert trace == front + [a];
      var loss := ToldLoss(front, c, t);
      if loss == Alive {
        assert a == ByTask(TakeSubscriptions(c)) ==> TakenAt(trace, c, n);
      } else {
        var first: nat :| TakenAt(front, c, first);
        assert TakenAt(trace, c, first);
        if a == ByJs(SubBegin(c, t)) {
          assert SinceBegun(trace, c, t, n);
        } else if a != ByJs(UnsubBegin(c, t)) {
          LossGoesOn(front, a, c, t, loss);
        }
      }
    }
  }

  lemma LossGoesOn(front: seq<Action>, a: Action, c: Conn, t: Topic, loss: Loss)
    requires LossPositions(front, c, t, loss) && loss in {Again, Back, Orphan, Dead} && !Begins(a, c, t)
    ensures LossPositions(front + [a], c, t, TellLoss(loss, a, c, t))
  {
    var trace, n := front + [a], |front|;
    assert trace[n] == a && forall i :: 0 <= i < n ==> trace[i] == front[i];
    var first: nat :| TakenAt(front, c, first);
    assert TakenAt(trace, c, first);
    match loss {
      case Again =>
        var take: nat, b: nat :| TakenAt(front, c, take) && take < b && SinceBegun(front, c, t, b);
        assert TakenAt(trace, c, take) && (a.ByTask? ==> SinceBegun(trace, c, t, b));
        assert a == ByJs(SubEnd) ==> CallAfter(trace, c, t, take, b, n);
      case Back =>
        var take: nat, b: nat, e: nat :| CallAfter(front, c, t, take, b, e);
        assert CallAfter(trace, c, t, take, b, e);
        assert a == ByTask(LeaveTopic(c, t)) ==> OrphanedAt(trace, c, t, take, b, e, n);
      case Orphan =>
        var take: nat, b: nat, e: nat, leave: nat :| OrphanedAt(front, c, t, take, b, e, leave);
        assert CallAfter(trace, c, t, take, b, e) && OrphanedAt(trace, c, t, take, b, e, leave);
      case _ =>
    }
  }

  lemma {:induction false} PositionsToldLoss(trace: seq<Action>, c: Conn, t: Topic, take: nat, b: nat, e: nat, leave: nat, n: nat)
    requires OrphanedAt(trace, c, t, take, b, e, leave) && take < n <= |trace|
    ensures var loss := ToldLoss(trace[..n], c, t);
            && loss != Alive
            && (b < n <= e ==> loss == Again)
            && (e < n <= leave ==> loss in {Back, Orphan})
            && (leave < n ==> loss == Orphan)
    decreases n
  {
    assert trace[..n][..n - 1] == trace[..n - 1] && trace[..n][n - 1] == trace[n - 1];
    if n > take + 1 {
      PositionsToldLoss(trace, c, t, take, b, e, leave, n - 1);
    }
  }

  lemma OrphanMeansOrphaned(trace: seq<Action>, c: Conn, t: Topic)
    ensures ToldLoss(trace, c, t) == Orphan <==> Orphaned(trace, c, t)
  {
    ToldLossPositions(trace, c, t);
    if Orphaned(trace, c, t) {
      var take: nat, b: nat, e: nat, leave: nat :| OrphanedAt(trace, c, t, take, b, e, leave);
      PositionsToldLoss(trace, c, t, take, b, e, leave, |trace|);
      assert trace[..|trace|] == trace;
    }
  }

  /** Exactly when a connection is subscribed to a topic that does not hold it, while no call for the pair is half done: the
      pair's last call is a subscribe that began after the disconnect task took the subscriptions, and ended before that
      task left the topic. */
  lemma LostExactly(trace: seq<Action>, c: Conn, t: Topic)
    requires Possible(INIT, trace)
    ensures var s := After(INIT, trace);
            !HalfDoneFor(s, c, t) ==> (t in Subs(s, c) && c !in Members(s, t) <==> Orphaned(trace, c, t))
  {
    RunLoss(trace, c, t);
    OrphanMeansOrphaned(trace, c, t);
    Reachable(trace);
    assert PairInv(After(INIT, trace), c, t);
  }
}
