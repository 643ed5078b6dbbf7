/** Who gets a published message when other steps interleave with the call: `publish_internal` of `src/server.rs`. */
module Publishing {
  import opened Wrappers
  import opened PubSub

  /** The state before step `i` of a run. */
  ghost function At(s: State, trace: seq<Action>, i: nat): State
    requires Possible(s, trace) && i <= |trace|
  {
    TraceSplit(s, trace, i);
    After(s, trace[..i])
  }

  /** At its turn the connection had no sender. */
  ghost predicate Absent(s: State, trace: seq<Action>, g: nat, c: Conn)
    requires Possible(s, trace) && g < |trace|
  {
    trace[g] == ByJs(PublishGet(c)) && c !in At(s, trace, g).senders
  }

  /** At its turn the connection had a sender, and the message is still to be queued there. */
  ghost predicate Fetched(s: State, trace: seq<Action>, g: nat, r: nat, c: Conn)
    requires Possible(s, trace) && g < r <= |trace|
  {
    && trace[g] == ByJs(PublishGet(c)) && c in At(s, trace, g).senders
    && forall i :: g < i < r ==> trace[i].ByTask?
  }

  predicate HasRoom(s: State, c: Conn) {
    c in s.channels && !s.channels[c].closed && |s.channels[c].queue| < 256
  }

  /** The connection had a sender at its turn `g`, but when the message was to be queued, its channel was full or closed. */
  ghost predicate Refused(s: State, trace: seq<Action>, g: nat, r: nat, c: Conn)
    requires Possible(s, trace) && g < r < |trace|
  {
    Fetched(s, trace, g, r, c) && trace[r] == ByJs(PublishTrySend) && !HasRoom(At(s, trace, r), c)
  }

  ghost predicate Missed(s: State, trace: seq<Action>, c: Conn)
    requires Possible(s, trace)
  {
    (exists g :: 0 <= g < |trace| && Absent(s, trace, g, c)) ||
    (exists g, r :: 0 <= g < r < |trace| && Refused(s, trace, g, r, c))
  }

  ghost predicate Underway(s: State, trace: seq<Action>, c: Conn)
    requires Possible(s, trace)
  {
    exists g :: 0 <= g < |trace| && Fetched(s, trace, g, |trace|, c)
  }

  // ---- One step more ----

  lemma AtFront(s: State, front: seq<Action>, a: Action, i: nat)
    requires Possible(s, front + [a]) && i <= |front|
    ensures Possible(s, front) && At(s, front + [a], i) == At(s, front, i)
    ensures At(s, front, |front|) == After(s, front)
  {
    TraceSplit(s, front + [a], |front|);
    assert (front + [a])[..|front|] == front && front[..|front|] == front;
    assert (front + [a])[..i] == front[..i];
  }

  lemma FetchedNext(s: State, front: seq<Action>, a: Action, g: nat, r: nat, c: Conn)
    requires Possible(s, front + [a]) && Possible(s, front) && g < r <= |front|
    ensures Fetched(s, front + [a], g, r, c) <==> Fetched(s, front, g, r, c)
    ensures Fetched(s, front + [a], g, |front| + 1, c) <==> Fetched(s, front, g, |front|, c) && a.ByTask?
  {
    AtFront(s, front, a, g);
    hide At;
    var trace := front + [a];
    assert trace[|front|] == a && forall i :: 0 <= i < |front| ==> trace[i] == front[i];
  }

  lemma UnderwayNext(s: State, front: seq<Action>, a: Action, c: Conn)
    requires Possible(s, front + [a]) && Possible(s, front)
    ensures Underway(s, front + [a], c) <==>
            (a == ByJs(PublishGet(c)) && c in After(s, front).senders) || (a.ByTask? && Underway(s, front, c))
  {
    var trace, n := front + [a], |front|;
    AtFront(s, front, a, n);
    if a == ByJs(PublishGet(c)) && c in After(s, front).senders {
      assert Fetched(s, trace, n, |trace|, c);
    }
    if g :| 0 <= g < n && Fetched(s, front, g, n, c) && a.ByTask? {
      FetchedNext(s, front, a, g, n, c);
      assert Fetched(s, trace, g, |trace|, c);
    }
    if g :| 0 <= g < |trace| && Fetched(s, trace, g, |trace|, c) {
      if g < n {
        FetchedNext(s, front, a, g, n, c);
      }
    }
  }

  lemma MissedNext(s: State, front: seq<Action>, a: Action, c: Conn)
    requires Possible(s, front + [a]) && Possible(s, front)
    ensures Missed(s, front + [a], c) <==>
            || Missed(s, front, c)
            || (a == ByJs(PublishGet(c)) && c !in After(s, front).senders)
            || (a == ByJs(PublishTrySend) && Underway(s, front, c) && !HasRoom(After(s, front), c))
  {
    var trace, n := front + [a], |front|;
    AtFront(s, front, a, n);
    assert trace[n] == a && forall i :: 0 <= i < n ==> trace[i] == front[i];
    forall g | 0 <= g < n ensures Absent(s, trace, g, c) <==> Absent(s, front, g, c) {
      AtFront(s, front, a, g);
    }
    forall g, r | 0 <= g < r <= n ensures Fetched(s, trace, g, r, c) <==> Fetched(s, front, g, r, c) {
      FetchedNext(s, front, a, g, r, c);
    }
    forall g, r | 0 <= g < r < n ensures Refused(s, trace, g, r, c) <==> Refused(s, front, g, r, c) {
      AtFront(s, front, a, r);
    }
    assert Absent(s, trace, n, c) <==> a == ByJs(PublishGet(c)) && c !in After(s, front).senders;
    forall g | 0 <= g < n
      ensures Refused(s, trace, g, n, c) <==>
              Fetched(s, front, g, n, c) && a == ByJs(PublishTrySend) && !HasRoom(After(s, front), c)
    {}
  }

  // ---- Over a whole call ----

  /** Where connection `c` of the snapshot stands in publish call `n`: still to come, being served, or done with. */
  ghost predicate TurnInv(s: State, trace: seq<Action>, n: nat, c: Conn)
    requires Possible(s, trace)
  {
    var s' := After(s, trace);
    && n in s'.pubs && (s'.js.Publishing? || s'.js.Sending?) && s'.js.serial == n
    && (c in s'.js.todo <==> ByJs(PublishGet(c)) !in trace)
    && (s'.js.Sending? && s'.js.conn == c <==> Underway(s, trace, c))
    && (if c in s'.js.todo || Underway(s, trace, c) then c !in s'.pubs[n].hits && !Missed(s, trace, c)
        else c in s'.pubs[n].hits <==> !Missed(s, trace, c))
  }

  lemma {:induction false} Turns(s: State, trace: seq<Action>, n: nat, c: Conn)
    requires Inv(s) && s.js.Publishing? && s.js.serial == n && n in s.pubs && s.pubs[n].hits == {} && c in s.js.todo
    requires Possible(s, trace) && ByJs(PublishEnd) !in trace
    ensures TurnInv(s, trace, n, c)
    decreases |trace|
  {
    if trace == [] {
      assert !Underway(s, [], c) && !Missed(s, [], c);
    } else {
      var front, a := trace[..|trace| - 1], trace[|trace| - 1];
      TraceLast(s, trace);
      assert a in trace && forall b :: b in trace <==> b in front || b == a;
      Turns(s, front, n, c);
      RunKeepsInv(s, front);
      UnderwayNext(s, front, a, c);
      MissedNext(s, front, a, c);
      hide Possible, Underway, Missed, Inv, Do, Can, After;
      TurnStep(After(s, front), a, n, c);
    }
  }

  /** What one step of a publish call, or of any task meanwhile, does to the turn of `c`. */
  lemma TurnStep(s: State, a: Action, n: nat, c: Conn)
    requires Inv(s) && Can(s, a) && a != ByJs(PublishEnd)
    requires n in s.pubs && (s.js.Publishing? || s.js.Sending?) && s.js.serial == n
    ensures var s' := Do(s, a);
            && n in s'.pubs && (s'.js.Publishing? || s'.js.Sending?) && s'.js.serial == n
            && (c in s'.js.todo <==> c in s.js.todo && a != ByJs(PublishGet(c)))
            && (s'.js.Sending? && s'.js.conn == c <==>
                  (a == ByJs(PublishGet(c)) && c in s.senders) || (a.ByTask? && s.js.Sending? && s.js.conn == c))
            && (c in s'.pubs[n].hits <==>
                  c in s.pubs[n].hits || (a == ByJs(PublishTrySend) && s.js.Sending? && s.js.conn == c && HasRoom(s, c)))
            && (a == ByJs(PublishGet(c)) ==> c in s.js.todo && s.js.Publishing?)
            && (a == ByJs(PublishTrySend) ==> s.js.Sending?)
            && (a.ByJs? ==> a.js.PublishGet? || a.js.PublishTrySend?)
  {
    match a
    case ByTask(k) => TaskPubs(s, k);
    case ByJs(j) =>
  }

  /** In every interleaving, when a publish call is about to end, each connection of its snapshot has had its turn, and has
      accepted the message unless it was missed: it had no sender at its turn, or its channel had no room when the message
      was to be queued. Nobody else has accepted it. */
  lemma PublishMissesExactly(before: seq<Action>, exclude: Option<Conn>, t: Topic, text: string, during: seq<Action>, c: Conn)
    requires Possible(INIT, before) && Can(After(INIT, before), ByJs(PublishBegin(exclude, t, text)))
    requires Possible(Do(After(INIT, before), ByJs(PublishBegin(exclude, t, text))), during) && ByJs(PublishEnd) !in during
    ensures var s := After(INIT, before);
            var s1 := Do(s, ByJs(PublishBegin(exclude, t, text)));
            var s' := After(s1, during);
            Can(s', ByJs(PublishEnd)) ==>
              var due := t in s.topics && c in s.topics[t] && exclude != Some(c);
              && (due ==> ByJs(PublishGet(c)) in during)
              && (c in s'.channels && Holds(s'.channels[c], s.next) <==> due && !Missed(s1, during, c))
  {
    hide Can, CanJs, CanTask, Do, DoJs, DoTask, Possible, After, IndexInv, PhasesInv, ChannelsInv, JsInv, Holds, Missed;
    Reachable(before);
    var s := After(INIT, before);
    var n := s.next;
    var begin := ByJs(PublishBegin(exclude, t, text));
    var s1 := Do(s, begin);
    IdleBefore(s, exclude, t, text);
    PublishSteps(s, exclude, t, text, "");
    StepKeepsInv(s, begin);
    RunKeepsInv(s1, during);
    OrdersStay(s1, during, n);
    var s' := After(s1, during);
    assert PublicationInv(s', n);
    if c in Audience(s, exclude, t) && Can(s', ByJs(PublishEnd)) {
      Turns(s1, during, n, c);
      EndMeansDone(s1, during, n, c);
    }
  }

  lemma EndMeansDone(s: State, trace: seq<Action>, n: nat, c: Conn)
    requires Possible(s, trace) && TurnInv(s, trace, n, c) && Can(After(s, trace), ByJs(PublishEnd))
    ensures n in After(s, trace).pubs && ByJs(PublishGet(c)) in trace
    ensures c in After(s, trace).pubs[n].hits <==> !Missed(s, trace, c)
  {
    hide Missed;
  }
}
