/** Topics and connections: the concurrent maps of `src/server.rs` written by the JS thread and by the disconnect task
    of `src/websocket.rs`. Every map or channel operation is one atomic step, and steps of the two sides interleave. */
module PubSub {
  import opened Wrappers

  type Conn = string
  type Topic = string

  const QUEUE_LIMIT := 256

  /** Messages carry the number of the call that sent them. */
  datatype Message = Message(serial: nat, text: string)

  /** A bounded channel: what it ever accepted, what the send task took out, what is queued. */
  datatype Channel = Channel(accepted: seq<Message>, delivered: seq<Message>, queue: seq<Message>, closed: bool)

  /** Life of a connection: no sender yet, sender listed, sender removed, subscriptions taken, torn down. */
  datatype Phase = Fresh | Open | Unlisted | Cleaning(todo: set<Topic>) | Gone

  /** Where the one JS thread stands between two atomic steps. */
  datatype Js =
    | Idle
    | SubHalf(conn: Conn, topic: Topic)
    | UnsubHalf(conn: Conn, topic: Topic)
    | Publishing(serial: nat, todo: set<Conn>)
    | Sending(serial: nat, todo: set<Conn>, conn: Conn)
    | Direct(serial: nat, conn: Conn, text: string)

  /** One publish call: its arguments, the ids it copied, who was subscribed then, who accepted the message, the count. */
  datatype Publication = Publication(topic: Topic, exclude: Option<Conn>, text: string,
                                     audience: set<Conn>, subscribers: set<Conn>, hits: set<Conn>, sent: nat)

  datatype State = State(
    subs: map<Conn, set<Topic>>,
    topics: map<Topic, set<Conn>>,
    senders: set<Conn>,
    channels: map<Conn, Channel>,
    phases: map<Conn, Phase>,
    js: Js,
    pubs: map<nat, Publication>,
    next: nat)

  /** Steps of the JS thread. */
  datatype JsStep =
    | SubBegin(conn: Conn, topic: Topic) | SubEnd
    | UnsubBegin(conn: Conn, topic: Topic) | UnsubEnd
    | PublishBegin(exclude: Option<Conn>, topic: Topic, text: string) | PublishGet(conn: Conn) | PublishTrySend | PublishEnd
    | SendGet(conn: Conn, text: string) | SendTrySend

  /** Steps of a connection's tasks: connecting, sending out, and tearing down. */
  datatype TaskStep =
    | Connect(conn: Conn) | Receive(conn: Conn) | CloseChannel(conn: Conn)
    | RemoveSender(conn: Conn) | TakeSubscriptions(conn: Conn) | LeaveTopic(conn: Conn, topic: Topic) | FinishCleanup(conn: Conn)

  datatype Action = ByJs(js: JsStep) | ByTask(task: TaskStep)

  const INIT := State(map[], map[], {}, map[], map[], Idle, map[], 0)

  function Subs(s: State, c: Conn): set<Topic> {
    if c in s.subs then s.subs[c] else {}
  }

  function Members(s: State, t: Topic): set<Conn> {
    if t in s.topics then s.topics[t] else {}
  }

  function PhaseOf(s: State, c: Conn): Phase {
    if c in s.phases then s.phases[c] else Fresh
  }

  /** The connection's subscriptions have been taken by its disconnect task. */
  predicate Taken(p: Phase) {
    p.Cleaning? || p.Gone?
  }

  predicate Room(ch: Channel) {
    !ch.closed && |ch.queue| < QUEUE_LIMIT
  }

  function Push(ch: Channel, m: Message): Channel {
    ch.(accepted := ch.accepted + [m], queue := ch.queue + [m])
  }

  function Audience(s: State, exclude: Option<Conn>, t: Topic): set<Conn> {
    set c | c in Members(s, t) && exclude != Some(c)
  }

  function Subscribers(s: State, t: Topic): set<Conn> {
    set c | c in s.subs && t in s.subs[c]
  }

  /** Adds `v` to the set kept under `k`, creating the set if need be. */
  function Link(m: map<string, set<string>>, k: string, v: string): map<string, set<string>> {
    m[k := (if k in m then m[k] else {}) + {v}]
  }

  /** Takes `v` out of the set kept under `k`, if there is one. */
  function Unlink(m: map<string, set<string>>, k: string, v: string): map<string, set<string>> {
    if k in m then m[k := m[k] - {v}] else m
  }

  // ---- Atomic steps ----

  predicate CanJs(s: State, a: JsStep) {
    match a
    case SubBegin(_, _) => s.js.Idle?
    case SubEnd => s.js.SubHalf?
    case UnsubBegin(_, _) => s.js.Idle?
    case UnsubEnd => s.js.UnsubHalf?
    case PublishBegin(_, _, _) => s.js.Idle?
    case PublishGet(c) => s.js.Publishing? && c in s.js.todo
    case PublishTrySend => s.js.Sending? && s.js.conn in s.channels && s.js.serial in s.pubs
    case PublishEnd => s.js.Publishing? && s.js.todo == {}
    case SendGet(_, _) => s.js.Idle?
    case SendTrySend => s.js.Direct? && s.js.conn in s.channels
  }

  function DoJs(s: State, a: JsStep): State
    requires CanJs(s, a)
  {
    match a
    case SubBegin(c, t) => s.(subs := Link(s.subs, c, t), js := SubHalf(c, t))
    case SubEnd =>
      var c, t := s.js.conn, s.js.topic;
      s.(topics := Link(s.topics, t, c), js := Idle)
    case UnsubBegin(c, t) =>
      s.(subs := Unlink(s.subs, c, t), js := UnsubHalf(c, t))
    case UnsubEnd =>
      var c, t := s.js.conn, s.js.topic;
      s.(topics := Unlink(s.topics, t, c), js := Idle)
    case PublishBegin(x, t, text) =>
      s.(js := Publishing(s.next, Audience(s, x, t)), next := s.next + 1,
         pubs := s.pubs[s.next := Publication(t, x, text, Audience(s, x, t), Subscribers(s, t), {}, 0)])
    case PublishGet(c) =>
      s.(js := if c in s.senders then Sending(s.js.serial, s.js.todo - {c}, c) else Publishing(s.js.serial, s.js.todo - {c}))
    case PublishTrySend =>
      var n, c := s.js.serial, s.js.conn;
      var s' := s.(js := Publishing(n, s.js.todo));
      if Room(s.channels[c]) then
        s'.(channels := s.channels[c := Push(s.channels[c], Message(n, s.pubs[n].text))],
            pubs := s.pubs[n := s.pubs[n].(hits := s.pubs[n].hits + {c}, sent := s.pubs[n].sent + 1)])
      else s'
    case PublishEnd => s.(js := Idle)
    case SendGet(c, text) =>
      if c in s.senders then s.(js := Direct(s.next, c, text), next := s.next + 1) else s
    case SendTrySend =>
      var c := s.js.conn;
      var s' := s.(js := Idle);
      if Room(s.channels[c]) then
        s'.(channels := s.channels[c := Push(s.channels[c], Message(s.js.serial, s.js.text))])
      else s'
  }

  predicate CanTask(s: State, a: TaskStep) {
    match a
    case Connect(c) => PhaseOf(s, c) == Fresh
    case Receive(c) => c in s.channels && !s.channels[c].closed && s.channels[c].queue != []
    case CloseChannel(c) => c in s.channels
    case RemoveSender(c) => PhaseOf(s, c) == Open
    case TakeSubscriptions(c) => PhaseOf(s, c) == Unlisted
    case LeaveTopic(c, t) => PhaseOf(s, c).Cleaning? && t in PhaseOf(s, c).todo
    case FinishCleanup(c) => PhaseOf(s, c) == Cleaning({})
  }

  function DoTask(s: State, a: TaskStep): State
    requires CanTask(s, a)
  {
    match a
    case Connect(c) =>
      s.(senders := s.senders + {c}, channels := s.channels[c := Channel([], [], [], false)], phases := s.phases[c := Open])
    case Receive(c) =>
      var ch := s.channels[c];
      s.(channels := s.channels[c := ch.(delivered := ch.delivered + [ch.queue[0]], queue := ch.queue[1..])])
    case CloseChannel(c) => s.(channels := s.channels[c := s.channels[c].(closed := true, queue := [])])
    case RemoveSender(c) => s.(senders := s.senders - {c}, phases := s.phases[c := Unlisted])
    case TakeSubscriptions(c) =>
      s.(subs := s.subs - {c}, phases := s.phases[c := if c in s.subs then Cleaning(s.subs[c]) else Gone])
    case LeaveTopic(c, t) =>
      s.(topics := Unlink(s.topics, t, c),
         phases := s.phases[c := Cleaning(PhaseOf(s, c).todo - {t})])
    case FinishCleanup(c) => s.(phases := s.phases[c := Gone])
  }

  predicate Can(s: State, a: Action) {
    match a
    case ByJs(j) => CanJs(s, j)
    case ByTask(t) => CanTask(s, t)
  }

  function Do(s: State, a: Action): State
    requires Can(s, a)
  {
    match a
    case ByJs(j) => DoJs(s, j)
    case ByTask(t) => DoTask(s, t)
  }

  ghost predicate Possible(s: State, trace: seq<Action>)
    decreases |trace|
  {
    trace == [] || (Can(s, trace[0]) && Possible(Do(s, trace[0]), trace[1..]))
  }

  ghost function After(s: State, trace: seq<Action>): State
    requires Possible(s, trace)
    decreases |trace|
  {
    if trace == [] then s else After(Do(s, trace[0]), trace[1..])
  }

  // ---- Traces ----

  lemma NothingDone(s: State)
    ensures Possible(s, []) && After(s, []) == s
  {
  }

  lemma FirstStep(s: State, a: Action, rest: seq<Action>)
    requires Can(s, a) && Possible(Do(s, a), rest)
    ensures Possible(s, [a] + rest) && After(s, [a] + rest) == After(Do(s, a), rest)
  {
    assert ([a] + rest)[1..] == rest;
  }

  lemma {:induction false} TraceConcat(s: State, a: seq<Action>, b: seq<Action>)
    requires Possible(s, a) && Possible(After(s, a), b)
    ensures Possible(s, a + b) && After(s, a + b) == After(After(s, a), b)
    decreases |a|
  {
    if a == [] {
      assert a + b == b;
    } else {
      TraceConcat(Do(s, a[0]), a[1..], b);
      assert (a + b)[1..] == a[1..] + b;
    }
  }

  /** A run is possible up to any point, and goes on from there. */
  lemma {:induction false} TraceSplit(s: State, trace: seq<Action>, i: nat)
    requires Possible(s, trace) && i <= |trace|
    ensures Possible(s, trace[..i]) && Possible(After(s, trace[..i]), trace[i..])
    ensures After(s, trace) == After(After(s, trace[..i]), trace[i..])
    decreases i
  {
    if i == 0 {
      assert trace[0..] == trace;
    } else {
      TraceSplit(Do(s, trace[0]), trace[1..], i - 1);
      assert trace[..i][1..] == trace[1..][..i - 1] && trace[i..] == trace[1..][i - 1..];
    }
  }

  /** The last step of a run. */
  lemma TraceLast(s: State, trace: seq<Action>)
    requires Possible(s, trace) && trace != []
    ensures var front, a := trace[..|trace| - 1], trace[|trace| - 1];
            trace == front + [a] && Possible(s, front) && Can(After(s, front), a) && After(s, trace) == Do(After(s, front), a)
  {
    var i := |trace| - 1;
    TraceSplit(s, trace, i);
    assert trace[i..] == [trace[i]] && trace[i..][1..] == [];
  }

  // ---- Invariants ----

  ghost predicate PhasesInv(s: State) {
    && (forall c :: c in s.senders <==> PhaseOf(s, c) == Open)
    && (forall c :: c in s.channels <==> PhaseOf(s, c) != Fresh)
  }

  /** The two directions of the index, and the only reasons for them to disagree. */
  predicate PairInv(s: State, c: Conn, t: Topic) {
    && (t in Subs(s, c) && c !in Members(s, t) ==> s.js == SubHalf(c, t) || Taken(PhaseOf(s, c)))
    && (c in Members(s, t) && t !in Subs(s, c) ==> s.js == UnsubHalf(c, t) || Taken(PhaseOf(s, c)))
    && (s.js == UnsubHalf(c, t) ==> t !in Subs(s, c))
    && (s.js == SubHalf(c, t) ==> t in Subs(s, c) || Taken(PhaseOf(s, c)))
  }

  ghost predicate IndexInv(s: State) {
    forall c, t :: PairInv(s, c, t)
  }

  ghost predicate ChannelInv(ch: Channel) {
    && |ch.queue| <= QUEUE_LIMIT
    && (if ch.closed then ch.delivered <= ch.accepted else ch.accepted == ch.delivered + ch.queue)
  }

  predicate Holds(ch: Channel, n: nat) {
    exists i :: 0 <= i < |ch.accepted| && ch.accepted[i].serial == n
  }

  /** Accepted messages come from calls made so far, and carry the text published. */
  ghost predicate MessagesInv(s: State, ch: Channel) {
    forall i :: 0 <= i < |ch.accepted| ==>
      var m := ch.accepted[i];
      m.serial < s.next && (m.serial in s.pubs ==> m.text == s.pubs[m.serial].text)
  }

  ghost predicate ChannelsInv(s: State) {
    && (forall c :: c in s.channels ==> ChannelInv(s.channels[c]))
    && (forall c :: c in s.channels ==> MessagesInv(s, s.channels[c]))
  }

  /** What is known of a publication at any time during and after it. */
  ghost predicate PublicationInv(s: State, n: nat)
    requires n in s.pubs
  {
    var p := s.pubs[n];
    && n < s.next
    && p.sent == |p.hits|
    && (forall c :: c in p.hits <==> c in s.channels && Holds(s.channels[c], n))
    && p.hits <= p.audience
    && (forall c :: c in p.audience ==> p.exclude != Some(c))
    && (forall c :: c in p.audience ==> c in p.subscribers || Taken(PhaseOf(s, c)))
    && p.hits <= p.subscribers
  }

  ghost predicate JsInv(s: State) {
    match s.js
    case Publishing(n, todo) => n in s.pubs && todo <= s.pubs[n].audience && todo !! s.pubs[n].hits
    case Sending(n, todo, c) =>
      && n in s.pubs && todo <= s.pubs[n].audience && todo !! s.pubs[n].hits
      && c in s.channels && c in s.pubs[n].audience && c in s.pubs[n].subscribers && c !in s.pubs[n].hits && c !in todo
    case Direct(n, c, _) =>
      n < s.next && n !in s.pubs && c in s.channels && forall d :: d in s.channels ==> !Holds(s.channels[d], n)
    case _ => true
  }

  ghost predicate Inv(s: State) {
    && PhasesInv(s) && IndexInv(s) && ChannelsInv(s) && JsInv(s)
    && forall n :: n in s.pubs ==> PublicationInv(s, n)
  }

  // ---- What one step changes ----

  lemma JsKeepsPhases(s: State, a: JsStep)
    requires CanJs(s, a)
    ensures DoJs(s, a).phases == s.phases && DoJs(s, a).senders == s.senders && DoJs(s, a).channels.Keys == s.channels.Keys
  {
  }

  lemma TaskPhase(s: State, a: TaskStep, c: Conn)
    requires CanTask(s, a)
    requires (c in s.senders <==> PhaseOf(s, c) == Open) && (c in s.channels <==> PhaseOf(s, c) != Fresh)
    ensures var s' := DoTask(s, a);
            && (c in s'.senders <==> PhaseOf(s', c) == Open)
            && (c in s'.channels <==> PhaseOf(s', c) != Fresh)
            && (Taken(PhaseOf(s, c)) ==> Taken(PhaseOf(s', c)))
  {
  }

  lemma StepPhases(s: State, a: Action)
    requires Can(s, a) && PhasesInv(s)
    ensures PhasesInv(Do(s, a)) && s.channels.Keys <= Do(s, a).channels.Keys
    ensures forall c :: Taken(PhaseOf(s, c)) ==> Taken(PhaseOf(Do(s, a), c))
  {
    hide DoJs, DoTask, CanJs, CanTask;
    match a
    case ByJs(j) => JsKeepsPhases(s, j);
    case ByTask(t) =>
      forall c
        ensures c in DoTask(s, t).senders <==> PhaseOf(DoTask(s, t), c) == Open
        ensures c in DoTask(s, t).channels <==> PhaseOf(DoTask(s, t), c) != Fresh
        ensures Taken(PhaseOf(s, c)) ==> Taken(PhaseOf(DoTask(s, t), c))
      {
        TaskPhase(s, t, c);
      }
      TaskKeepsChannels(s, t);
  }

  lemma TaskKeepsChannels(s: State, a: TaskStep)
    requires CanTask(s, a)
    ensures s.channels.Keys <= DoTask(s, a).channels.Keys
  {
  }

  lemma JsKeepsPair(s: State, a: JsStep, c: Conn, t: Topic)
    requires CanJs(s, a) && PairInv(s, c, t)
    ensures PairInv(DoJs(s, a), c, t)
  {
    hide Room, Push, Audience, Subscribers;
  }

  lemma TaskKeepsPair(s: State, a: TaskStep, c: Conn, t: Topic)
    requires CanTask(s, a) && PairInv(s, c, t)
    ensures PairInv(DoTask(s, a), c, t)
  {
  }

  /** The message that a JS step puts into the channel of `c`, if any. */
  function Landing(s: State, a: JsStep, c: Conn): seq<Message>
    requires CanJs(s, a)
  {
    if !(a.PublishTrySend? || a.SendTrySend?) || c != s.js.conn || !Room(s.channels[c]) then []
    else [Message(s.js.serial, if a.PublishTrySend? then s.pubs[s.js.serial].text else s.js.text)]
  }

  lemma JsChannel(s: State, a: JsStep, c: Conn)
    requires CanJs(s, a) && c in s.channels && ChannelInv(s.channels[c])
    ensures c in DoJs(s, a).channels && ChannelInv(DoJs(s, a).channels[c])
    ensures DoJs(s, a).channels[c].accepted == s.channels[c].accepted + Landing(s, a, c)
  {
    if Landing(s, a, c) == [] {
      assert s.channels[c].accepted + [] == s.channels[c].accepted;
    }
  }

  lemma TaskChannel(s: State, a: TaskStep, c: Conn)
    requires CanTask(s, a) && c in DoTask(s, a).channels && (c in s.channels ==> ChannelInv(s.channels[c]))
    ensures var ch' := DoTask(s, a).channels[c];
            ChannelInv(ch') && ch'.accepted == if c !in s.channels || a == Connect(c) then [] else s.channels[c].accepted
  {
    if a == Receive(c) {
      var ch, ch' := s.channels[c], DoTask(s, a).channels[c];
      assert ch.queue == [ch.queue[0]] + ch.queue[1..];
      assert ch.delivered + ch.queue == ch'.delivered + ch'.queue;
    }
  }

  /** Accepted messages over a step. */
  function Gained(s: State, a: Action, c: Conn): seq<Message>
    requires Can(s, a)
  {
    match a
    case ByJs(j) => Landing(s, j, c)
    case ByTask(_) => []
  }

  lemma StepChannel(s: State, a: Action, c: Conn)
    requires Can(s, a) && PhasesInv(s) && c in Do(s, a).channels && (c in s.channels ==> ChannelInv(s.channels[c]))
    ensures ChannelInv(Do(s, a).channels[c])
    ensures Do(s, a).channels[c].accepted == (if c in s.channels then s.channels[c].accepted else []) + Gained(s, a, c)
  {
    hide DoJs, DoTask, ChannelInv;
    match a
    case ByJs(j) =>
      JsKeepsPhases(s, j);
      JsChannel(s, j, c);
    case ByTask(t) =>
      TaskChannel(s, t, c);
  }

  lemma HoldsAppend(ch: Channel, ch': Channel, gained: seq<Message>, n: nat)
    requires ch'.accepted == ch.accepted + gained && |gained| <= 1
    ensures Holds(ch', n) <==> Holds(ch, n) || (|gained| == 1 && gained[0].serial == n)
  {
    if Holds(ch, n) {
      var i :| 0 <= i < |ch.accepted| && ch.accepted[i].serial == n;
      assert ch'.accepted[i].serial == n;
    }
    if |gained| == 1 {
      assert ch'.accepted[|ch.accepted|] == gained[0];
    }
  }

  /** The connections a step adds to the hits of publication `n`. */
  function Hit(s: State, a: Action, n: nat): set<Conn>
    requires Can(s, a)
  {
    if a == ByJs(PublishTrySend) && s.js.serial == n && Room(s.channels[s.js.conn]) then {s.js.conn} else {}
  }

  /** Which publications a step creates or updates. */
  lemma JsPubs(s: State, a: JsStep, n: nat)
    requires CanJs(s, a) && s.next !in s.pubs && n in DoJs(s, a).pubs
    ensures var s' := DoJs(s, a);
            && s.next <= s'.next
            && (n !in s.pubs ==>
                  a.PublishBegin? && n == s.next < s'.next &&
                  s'.pubs[n] == Publication(a.topic, a.exclude, a.text, Audience(s, a.exclude, a.topic), Subscribers(s, a.topic), {}, 0))
            && (n in s.pubs ==>
                  var hit := Hit(s, ByJs(a), n);
                  s'.pubs[n] == s.pubs[n].(hits := s.pubs[n].hits + hit, sent := s.pubs[n].sent + |hit|))
  {
    if n in s.pubs && Hit(s, ByJs(a), n) == {} {
      assert s.pubs[n].hits + {} == s.pubs[n].hits;
    }
  }

  lemma TaskPubs(s: State, a: TaskStep)
    requires CanTask(s, a)
    ensures var s' := DoTask(s, a); s'.pubs == s.pubs && s'.next == s.next && s'.js == s.js
  {
  }

  // ---- Every step keeps the invariant ----

  lemma JsNext(s: State, a: JsStep)
    requires CanJs(s, a)
    ensures s.next <= DoJs(s, a).next
    ensures DoJs(s, a).pubs.Keys == s.pubs.Keys + if a.PublishBegin? then {s.next} else {}
  {
  }

  lemma StepMessages(s: State, a: Action, c: Conn)
    requires Can(s, a) && Inv(s) && c in Do(s, a).channels
    ensures ChannelInv(Do(s, a).channels[c]) && MessagesInv(Do(s, a), Do(s, a).channels[c])
  {
    StepChannel(s, a, c);
    hide DoJs, DoTask, ChannelInv, IndexInv, PublicationInv, CanTask, CanJs;
    match a
    case ByTask(t) =>
      TaskPubs(s, t);
    case ByJs(j) =>
      JsNext(s, j);
      JsKeepsPhases(s, j);
      var ch, ch' := s.channels[c], DoJs(s, j).channels[c];
      forall i | 0 <= i < |ch'.accepted|
        ensures var m := ch'.accepted[i]; m.serial < DoJs(s, j).next && (m.serial in DoJs(s, j).pubs ==> m.text == DoJs(s, j).pubs[m.serial].text)
      {
        var m := ch'.accepted[i];
        if m.serial in DoJs(s, j).pubs {
          assert s.next !in s.pubs by { NextIsNew(s); }
          JsPubs(s, j, m.serial);
        }
        if i < |ch.accepted| {
          assert m == ch.accepted[i];
        } else {
          assert m == Landing(s, j, c)[0];
          LandingIsFresh(s, j, c);
        }
      }
  }

  lemma NextIsNew(s: State)
    requires Inv(s)
    ensures s.next !in s.pubs
  {
    forall n | n in s.pubs ensures n < s.next {
      assert PublicationInv(s, n);
    }
  }

  lemma LandingIsFresh(s: State, a: JsStep, c: Conn)
    requires CanJs(s, a) && Inv(s) && Landing(s, a, c) != []
    ensures var m := Landing(s, a, c)[0];
            m.serial < s.next && !a.PublishBegin? && (m.serial in s.pubs ==> a.PublishTrySend? && m.text == s.pubs[m.serial].text)
  {
    if a.PublishTrySend? {
      assert PublicationInv(s, s.js.serial);
    }
  }

  /** A channel holds a message of call `n` after the step if it did before, or has just accepted it. */
  lemma StepHolds(s: State, a: Action, c: Conn, n: nat)
    requires Can(s, a) && Inv(s) && c in Do(s, a).channels
    ensures Holds(Do(s, a).channels[c], n) <==>
            (c in s.channels && Holds(s.channels[c], n)) || (Gained(s, a, c) != [] && Gained(s, a, c)[0].serial == n)
  {
    StepChannel(s, a, c);
    hide DoJs, DoTask, CanJs, CanTask, IndexInv, PublicationInv, ChannelInv;
    var before := if c in s.channels then s.channels[c] else Channel([], [], [], false);
    HoldsAppend(before, Do(s, a).channels[c], Gained(s, a, c), n);
  }

  lemma StepHits(s: State, a: Action, c: Conn, n: nat)
    requires Can(s, a) && Inv(s) && n in s.pubs && c in Do(s, a).channels
    ensures Holds(Do(s, a).channels[c], n) <==> (c in s.channels && Holds(s.channels[c], n)) || c in Hit(s, a, n)
  {
    StepHolds(s, a, c, n);
    hide DoJs, DoTask, Holds, CanTask, IndexInv, ChannelsInv, PublicationInv;
  }

  /** A publication over any change that adds `hit` to its hits. */
  lemma PublicationKept(s: State, s': State, n: nat, hit: set<Conn>)
    requires n in s.pubs && n in s'.pubs && PublicationInv(s, n)
    requires s.next <= s'.next && s.channels.Keys <= s'.channels.Keys
    requires forall c :: Taken(PhaseOf(s, c)) ==> Taken(PhaseOf(s', c))
    requires hit <= s.pubs[n].audience * s.pubs[n].subscribers * s.channels.Keys && hit !! s.pubs[n].hits
    requires s'.pubs[n] == s.pubs[n].(hits := s.pubs[n].hits + hit, sent := s.pubs[n].sent + |hit|)
    requires forall c :: c in s'.channels ==>
               (Holds(s'.channels[c], n) <==> (c in s.channels && Holds(s.channels[c], n)) || c in hit)
    ensures PublicationInv(s', n)
  {
    hide Holds;
  }

  lemma StepPublication(s: State, a: Action, n: nat)
    requires Can(s, a) && Inv(s) && n in Do(s, a).pubs
    ensures PublicationInv(Do(s, a), n)
  {
    if n !in s.pubs {
      NextIsNew(s);
      if a.ByJs? {
        JsPubs(s, a.js, n);
        NewPublication(s, a.js);
      } else {
        TaskPubs(s, a.task);
        assert false;
      }
    } else {
      StepPhases(s, a);
      forall c | c in Do(s, a).channels
        ensures Holds(Do(s, a).channels[c], n) <==> (c in s.channels && Holds(s.channels[c], n)) || c in Hit(s, a, n)
      {
        StepHits(s, a, c, n);
      }
      NextIsNew(s);
      PubUpdated(s, a, n);
      assert PublicationInv(s, n);
      hide Do, Holds, PublicationInv, Can;
      PublicationKept(s, Do(s, a), n, Hit(s, a, n));
    }
  }

  lemma PubUpdated(s: State, a: Action, n: nat)
    requires Can(s, a) && JsInv(s) && s.next !in s.pubs && n in s.pubs
    ensures var s', hit := Do(s, a), Hit(s, a, n);
            && s.next <= s'.next && n in s'.pubs
            && s'.pubs[n] == s.pubs[n].(hits := s.pubs[n].hits + hit, sent := s.pubs[n].sent + |hit|)
            && hit <= s.pubs[n].audience * s.pubs[n].subscribers * s.channels.Keys && hit !! s.pubs[n].hits
  {
    match a
    case ByJs(j) =>
      JsNext(s, j);
      JsPubs(s, j, n);
    case ByTask(t) =>
      TaskPubs(s, t);
      assert s.pubs[n].hits + {} == s.pubs[n].hits;
  }

  lemma NewPublication(s: State, a: JsStep)
    requires CanJs(s, a) && Inv(s) && a.PublishBegin?
    ensures s.next in DoJs(s, a).pubs && PublicationInv(DoJs(s, a), s.next)
  {
    var s' := DoJs(s, a);
    forall c | c in s'.channels ensures !Holds(s'.channels[c], s.next) {
      assert MessagesInv(s, s.channels[c]);
    }
    forall c | c in Audience(s, a.exclude, a.topic)
      ensures c in Subscribers(s, a.topic) || Taken(PhaseOf(s', c))
    {
      assert PairInv(s, c, a.topic);
    }
  }

  lemma JsKeepsJs(s: State, a: JsStep)
    requires CanJs(s, a) && Inv(s)
    ensures JsInv(DoJs(s, a))
  {
    match a {
      case PublishGet(c) =>
        hide IndexInv, ChannelsInv, Holds;
        assert PublicationInv(s, s.js.serial);
        assert PhaseOf(s, c) == Open <==> c in s.senders;
      case SendGet(c, text) => SendGetKeepsJs(s, c, text);
      case PublishTrySend => TrySendKeepsJs(s);
      case _ =>
    }
  }

  lemma SendGetKeepsJs(s: State, c: Conn, text: string)
    requires CanJs(s, SendGet(c, text)) && Inv(s)
    ensures JsInv(DoJs(s, SendGet(c, text)))
  {
    hide IndexInv;
    NextIsNew(s);
    forall d | d in s.channels ensures !Holds(s.channels[d], s.next) {
      assert MessagesInv(s, s.channels[d]);
    }
    assert PhaseOf(s, c) == Open <==> c in s.senders;
  }

  lemma TrySendKeepsJs(s: State)
    requires CanJs(s, PublishTrySend) && Inv(s)
    ensures JsInv(DoJs(s, PublishTrySend))
  {
    hide IndexInv, ChannelsInv, Holds, PublicationInv;
  }

  lemma TaskKeepsJs(s: State, a: TaskStep)
    requires CanTask(s, a) && Inv(s)
    ensures JsInv(DoTask(s, a))
  {
    TaskPubs(s, a);
    TaskKeepsChannels(s, a);
    if s.js.Direct? {
      forall d | d in DoTask(s, a).channels ensures !Holds(DoTask(s, a).channels[d], s.js.serial) {
        StepHolds(s, ByTask(a), d, s.js.serial);
      }
    }
    hide DoTask, IndexInv, ChannelsInv, Holds, PublicationInv;
  }

  lemma StepKeepsInv(s: State, a: Action)
    requires Can(s, a) && Inv(s)
    ensures Inv(Do(s, a))
  {
    StepPhases(s, a);
    forall c, t ensures PairInv(Do(s, a), c, t) {
      assert PairInv(s, c, t);
      match a
      case ByJs(j) => JsKeepsPair(s, j, c, t);
      case ByTask(k) => TaskKeepsPair(s, k, c, t);
    }
    forall c | c in Do(s, a).channels
      ensures ChannelInv(Do(s, a).channels[c]) && MessagesInv(Do(s, a), Do(s, a).channels[c])
    {
      StepMessages(s, a, c);
    }
    match a {
      case ByJs(j) => JsKeepsJs(s, j);
      case ByTask(k) => TaskKeepsJs(s, k);
    }
    forall n | n in Do(s, a).pubs ensures PublicationInv(Do(s, a), n) {
      StepPublication(s, a, n);
    }
  }

  // ---- Over every run ----

  lemma {:induction false} RunKeepsInv(s: State, trace: seq<Action>)
    requires Inv(s) && Possible(s, trace)
    ensures Inv(After(s, trace))
    decreases |trace|
  {
    if trace != [] {
      StepKeepsInv(s, trace[0]);
      RunKeepsInv(Do(s, trace[0]), trace[1..]);
    }
  }

  lemma Reachable(trace: seq<Action>)
    requires Possible(INIT, trace)
    ensures Inv(After(INIT, trace))
  {
    RunKeepsInv(INIT, trace);
  }

  predicate HalfDone(js: Js) {
    js.SubHalf? || js.UnsubHalf?
  }

  /** Whenever no subscribe or unsubscribe is half done, both directions of the index agree on every connection whose
      subscriptions its disconnect task has not taken. */
  lemma IndexAgrees(trace: seq<Action>, c: Conn, t: Topic)
    requires Possible(INIT, trace)
    ensures var s := After(INIT, trace);
            !HalfDone(s.js) && !Taken(PhaseOf(s, c)) ==> (t in Subs(s, c) <==> c in Members(s, t))
  {
    Reachable(trace);
    assert PairInv(After(INIT, trace), c, t);
  }

  /** What a publication was asked to do, and the snapshot it took. */
  ghost predicate SameOrder(p: Publication, q: Publication) {
    p.topic == q.topic && p.exclude == q.exclude && p.text == q.text && p.audience == q.audience && p.subscribers == q.subscribers
  }

  lemma {:induction false} OrdersStay(s: State, trace: seq<Action>, n: nat)
    requires Inv(s) && Possible(s, trace) && n in s.pubs
    ensures n in After(s, trace).pubs && SameOrder(s.pubs[n], After(s, trace).pubs[n])
    decreases |trace|
  {
    if trace != [] {
      NextIsNew(s);
      PubUpdated(s, trace[0], n);
      StepKeepsInv(s, trace[0]);
      OrdersStay(Do(s, trace[0]), trace[1..], n);
    }
  }

  lemma IdleBefore(s: State, exclude: Option<Conn>, t: Topic, text: string)
    requires Can(s, ByJs(PublishBegin(exclude, t, text)))
    ensures s.js.Idle?
  {
  }

  /** In any run, at any time after a publish call has begun: every connection that accepted its message was subscribed
      to the topic when the call began and is not the excluded one, and the message has the published text; the count
      so far is the number of those connections. */
  lemma PublishReachesSubscribers(before: seq<Action>, exclude: Option<Conn>, t: Topic, text: string, rest: seq<Action>)
    requires Possible(INIT, before) && Can(After(INIT, before), ByJs(PublishBegin(exclude, t, text)))
    requires Possible(Do(After(INIT, before), ByJs(PublishBegin(exclude, t, text))), rest)
    ensures var s := After(INIT, before);
            var n := s.next;
            var s' := After(Do(s, ByJs(PublishBegin(exclude, t, text))), rest);
            && n in s'.pubs
            && s'.pubs[n].sent == |set c | c in s'.channels && Holds(s'.channels[c], n)|
            && (forall c :: c in s'.channels && Holds(s'.channels[c], n) ==> t in Subs(s, c) && exclude != Some(c))
            && (forall c, i :: c in s'.channels && 0 <= i < |s'.channels[c].accepted| && s'.channels[c].accepted[i].serial == n ==>
                  s'.channels[c].accepted[i].text == text)
  {
    hide Can, CanJs, CanTask, Do, DoJs, DoTask, Possible, After, IndexInv, PhasesInv, ChannelInv, JsInv, Holds;
    Reachable(before);
    var s := After(INIT, before);
    var n := s.next;
    var s1 := Do(s, ByJs(PublishBegin(exclude, t, text)));
    IdleBefore(s, exclude, t, text);
    PublishSteps(s, exclude, t, text, "");
    StepKeepsInv(s, ByJs(PublishBegin(exclude, t, text)));
    RunKeepsInv(s1, rest);
    OrdersStay(s1, rest, n);
    var s' := After(s1, rest);
    assert PublicationInv(s', n);
    assert s'.pubs[n].hits == set c | c in s'.channels && Holds(s'.channels[c], n);
    forall c, i | c in s'.channels && 0 <= i < |s'.channels[c].accepted| && s'.channels[c].accepted[i].serial == n
      ensures s'.channels[c].accepted[i].text == text
    {
      assert MessagesInv(s', s'.channels[c]);
    }
  }

  /** A channel not closed holds, in order, exactly the accepted messages not yet delivered, never more than the limit;
      a closed one delivered a prefix of what it accepted. */
  lemma QueuesAreFaithful(trace: seq<Action>, c: Conn)
    requires Possible(INIT, trace) && c in After(INIT, trace).channels
    ensures var ch := After(INIT, trace).channels[c];
            && |ch.queue| <= 256
            && (!ch.closed ==> ch.accepted == ch.delivered + ch.queue)
            && ch.delivered <= ch.accepted
  {
    Reachable(trace);
    assert ChannelInv(After(INIT, trace).channels[c]);
  }

  /** The steps of a publish call, each as the change it makes. */
  lemma PublishSteps(s: State, x: Option<Conn>, t: Topic, text: string, c: Conn)
    requires Inv(s)
    ensures s.js.Idle? ==>
              Can(s, ByJs(PublishBegin(x, t, text))) &&
              Do(s, ByJs(PublishBegin(x, t, text))) ==
                s.(js := Publishing(s.next, Audience(s, x, t)), next := s.next + 1,
                   pubs := s.pubs[s.next := Publication(t, x, text, Audience(s, x, t), Subscribers(s, t), {}, 0)])
    ensures s.js.Publishing? && c in s.js.todo ==>
              Can(s, ByJs(PublishGet(c))) &&
              Do(s, ByJs(PublishGet(c))) ==
                s.(js := if c in s.senders then Sending(s.js.serial, s.js.todo - {c}, c) else Publishing(s.js.serial, s.js.todo - {c}))
    ensures s.js.Sending? ==>
              s.js.conn in s.channels && s.js.serial in s.pubs && Can(s, ByJs(PublishTrySend)) &&
              var n, d := s.js.serial, s.js.conn;
              var s' := Do(s, ByJs(PublishTrySend));
              && n in s'.pubs && s'.pubs[n].text == s.pubs[n].text
              && s' == s.(js := Publishing(n, s.js.todo), pubs := s'.pubs,
                          channels := if Room(s.channels[d]) then s.channels[d := Push(s.channels[d], Message(n, s.pubs[n].text))]
                                      else s.channels)
    ensures s.js.Publishing? && s.js.todo == {} ==>
              Can(s, ByJs(PublishEnd)) && Do(s, ByJs(PublishEnd)) == s.(js := Idle)
  {
  }

  /** The steps of a cleanup, each as the change it makes. */
  lemma CleanupSteps(s: State, c: Conn, t: Topic)
    ensures PhaseOf(s, c) == Unlisted ==>
              Can(s, ByTask(TakeSubscriptions(c))) &&
              Do(s, ByTask(TakeSubscriptions(c))) ==
                s.(subs := s.subs - {c}, phases := s.phases[c := if c in s.subs then Cleaning(s.subs[c]) else Gone])
    ensures PhaseOf(s, c).Cleaning? && t in PhaseOf(s, c).todo ==>
              Can(s, ByTask(LeaveTopic(c, t))) &&
              Do(s, ByTask(LeaveTopic(c, t))) ==
                s.(topics := Unlink(s.topics, t, c),
                   phases := s.phases[c := Cleaning(PhaseOf(s, c).todo - {t})])
    ensures PhaseOf(s, c) == Cleaning({}) ==>
              Can(s, ByTask(FinishCleanup(c))) &&
              Do(s, ByTask(FinishCleanup(c))) == s.(phases := s.phases[c := Gone])
  {
  }

  /** `topics` with `c` taken out of the members of every topic in `left`. */
  function Without(topics: map<Topic, set<Conn>>, c: Conn, left: set<Topic>): map<Topic, set<Conn>> {
    map t | t in topics :: if t in left then topics[t] - {c} else topics[t]
  }

  /** `channels` after `m` was queued at each of `receivers`. */
  function Delivered(channels: map<Conn, Channel>, receivers: set<Conn>, m: Message): map<Conn, Channel> {
    map c | c in channels :: if c in receivers then Push(channels[c], m) else channels[c]
  }

  /** The members of `ids` that a message can be queued at. */
  function Reachables(ids: set<Conn>, senders: set<Conn>, channels: map<Conn, Channel>): set<Conn> {
    set c | c in ids && c in senders && c in channels && Room(channels[c])
  }

  // ---- The code ----

  class Hub {
    var subscriptions: map<Conn, set<Topic>>
    var topics: map<Topic, set<Conn>>
    var senders: set<Conn>
    var channels: map<Conn, Channel>

    predicate Valid()
      reads this
    {
      senders <= channels.Keys
    }

    constructor ()
      ensures Valid() && subscriptions == map[] && topics == map[] && senders == {} && channels == map[]
    {
      subscriptions, topics, senders, channels := map[], map[], {}, map[];
    }

    method WsSubscribe(connectionId: Conn, topic: Topic)
      modifies this`subscriptions, this`topics
      ensures subscriptions == Link(old(subscriptions), connectionId, topic) && topics == Link(old(topics), topic, connectionId)
    {
      subscriptions := subscriptions[connectionId := (if connectionId in subscriptions then subscriptions[connectionId] else {}) + {topic}];
      topics := topics[topic := (if topic in topics then topics[topic] else {}) + {connectionId}];
    }

    method WsUnsubscribe(connectionId: Conn, topic: Topic)
      modifies this`subscriptions, this`topics
      ensures subscriptions == Unlink(old(subscriptions), connectionId, topic) && topics == Unlink(old(topics), topic, connectionId)
    {
      if connectionId in subscriptions {
        subscriptions := subscriptions[connectionId := subscriptions[connectionId] - {topic}];
      }
      if topic in topics {
        topics := topics[topic := topics[topic] - {connectionId}];
      }
    }

    /** The cleanup of the disconnect task. */
    method Cleanup(connectionId: Conn)
      modifies this`subscriptions, this`topics
      ensures subscriptions == old(subscriptions) - {connectionId}
      ensures topics == Without(old(topics), connectionId,
                                if connectionId in old(subscriptions) then old(subscriptions)[connectionId] else {})
    {
      if connectionId in subscriptions {
        var userTopics := subscriptions[connectionId];
        subscriptions := subscriptions - {connectionId};
        var todo := userTopics;
        while todo != {}
          invariant todo <= userTopics && subscriptions == old(subscriptions) - {connectionId}
          invariant topics == Without(old(topics), connectionId, userTopics - todo)
          decreases |todo|
        {
          var topic :| topic in todo;
          if topic in topics {
            topics := topics[topic := topics[topic] - {connectionId}];
          }
          todo := todo - {topic};
        }
        assert userTopics - todo == userTopics;
      } else {
        assert subscriptions == subscriptions - {connectionId} && topics == Without(topics, connectionId, {});
      }
    }

    /** Sends `message`, with the number `serial` of this call, to every member of the topic but the excluded one that
        has a sender with room, and counts them. */
    method PublishInternal(excludeId: Option<Conn>, topic: Topic, message: string, serial: nat) returns (sentCount: nat)
      requires Valid()
      modifies this`channels
      ensures Valid()
      ensures var receivers := set c | c in old(channels) && topic in topics && c in topics[topic] && excludeId != Some(c) &&
                                       c in senders && !old(channels)[c].closed && |old(channels)[c].queue| < 256;
              && sentCount == |receivers| && channels.Keys == old(channels).Keys
              && forall c :: c in channels ==>
                   var ch, m := old(channels)[c], Message(serial, message);
                   channels[c] == if c in receivers then Channel(ch.accepted + [m], ch.delivered, ch.queue + [m], false) else ch
    {
      hide Reachables, Delivered, Room, Push;
      ghost var m := Message(serial, message);
      if topic !in topics {
        NothingDelivered(channels, {}, senders, m);
        DeliveredMeans(topics, senders, channels, excludeId, topic, m);
        return 0;
      }
      var ids := set c | c in topics[topic] && excludeId != Some(c);
      var todo := ids;
      sentCount := 0;
      NothingDelivered(channels, ids, senders, m);
      while todo != {}
        invariant todo <= ids && Valid()
        invariant sentCount == |Reachables(ids - todo, senders, old(channels))|
        invariant channels == Delivered(old(channels), Reachables(ids - todo, senders, old(channels)), m)
        decreases |todo|
      {
        var id :| id in todo;
        OneMore(ids, todo, senders, old(channels), id, m);
        if id in senders {
          var tx := channels[id];
          if Room(tx) {
            channels := channels[id := Push(tx, Message(serial, message))];
            sentCount := sentCount + 1;
          }
        }
        todo := todo - {id};
      }
      assert ids - todo == ids;
      DeliveredMeans(topics, senders, old(channels), excludeId, topic, m);
    }
  }

  lemma NothingDelivered(channels: map<Conn, Channel>, ids: set<Conn>, senders: set<Conn>, m: Message)
    ensures Reachables({}, senders, channels) == {} == Reachables(ids - ids, senders, channels)
    ensures Delivered(channels, {}, m) == channels
  {
  }

  /** One more id of a publish. */
  lemma OneMore(ids: set<Conn>, todo: set<Conn>, senders: set<Conn>, channels: map<Conn, Channel>, c: Conn, m: Message)
    requires c in ids && c in todo && senders <= channels.Keys
    ensures var before := Reachables(ids - todo, senders, channels);
            var after := Reachables(ids - (todo - {c}), senders, channels);
            var sent := Delivered(channels, before, m);
            && sent.Keys == channels.Keys
            && (c in channels ==> sent[c] == channels[c])
            && (if c in senders && Room(channels[c]) then
                  |after| == |before| + 1 && Delivered(channels, after, m) == sent[c := Push(channels[c], m)]
                else after == before)
  {
    var before := Reachables(ids - todo, senders, channels);
    var after := Reachables(ids - (todo - {c}), senders, channels);
    if c in senders && Room(channels[c]) {
      assert after == before + {c};
    } else {
      assert after == before;
    }
  }

  // ---- A call that runs alone is the sequence of its atomic steps ----

  lemma SubscribeAlone(s: State, c: Conn, t: Topic)
    requires s.js.Idle?
    ensures var s' := Do(Do(s, ByJs(SubBegin(c, t))), ByJs(SubEnd));
            s' == s.(subs := Link(s.subs, c, t), topics := Link(s.topics, t, c))
    ensures var s' := Do(Do(s, ByJs(UnsubBegin(c, t))), ByJs(UnsubEnd));
            s' == s.(subs := Unlink(s.subs, c, t), topics := Unlink(s.topics, t, c))
  {
  }

  lemma {:induction false} LeavingAlone(s: State, c: Conn, todo: set<Topic>) returns (trace: seq<Action>)
    requires PhaseOf(s, c) == Cleaning(todo)
    ensures Possible(s, trace)
    ensures After(s, trace) == s.(topics := Without(s.topics, c, todo), phases := s.phases[c := Gone])
    decreases |todo|
  {
    hide Do, DoJs, DoTask, Can, CanJs, CanTask, Possible, After;
    CleanupSteps(s, c, "");
    if todo == {} {
      NothingDone(Do(s, ByTask(FinishCleanup(c))));
      FirstStep(s, ByTask(FinishCleanup(c)), []);
      trace := [ByTask(FinishCleanup(c))] + [];
    } else {
      var t :| t in todo;
      CleanupSteps(s, c, t);
      var s' := Do(s, ByTask(LeaveTopic(c, t)));
      var rest := LeavingAlone(s', c, todo - {t});
      FirstStep(s, ByTask(LeaveTopic(c, t)), rest);
      trace := [ByTask(LeaveTopic(c, t))] + rest;
      assert Without(s.topics, c, todo) == Without(s'.topics, c, todo - {t});
      assert s'.phases[c := Gone] == s.phases[c := Gone];
    }
  }

  lemma CleanupAlone(s: State, c: Conn)
    requires PhaseOf(s, c) == Unlisted
    ensures exists trace :: Possible(s, trace) &&
              After(s, trace) == s.(subs := s.subs - {c}, topics := Without(s.topics, c, Subs(s, c)), phases := s.phases[c := Gone])
  {
    hide Do, DoJs, DoTask, Can, CanJs, CanTask, Possible, After;
    CleanupSteps(s, c, "");
    var s1 := Do(s, ByTask(TakeSubscriptions(c)));
    var rest: seq<Action> := [];
    NothingDone(s1);
    if c in s.subs {
      rest := LeavingAlone(s1, c, s.subs[c]);
      assert s1.phases[c := Gone] == s.phases[c := Gone];
    } else {
      assert Without(s.topics, c, {}) == s.topics;
    }
    FirstStep(s, ByTask(TakeSubscriptions(c)), rest);
  }

  lemma {:induction false} DeliveringAlone(s: State, todo: set<Conn>) returns (trace: seq<Action>)
    requires Inv(s) && s.js.Publishing? && s.js.todo == todo && s.js.serial in s.pubs
    ensures Possible(s, trace)
    ensures var n := s.js.serial;
            var m := Message(n, s.pubs[n].text);
            var receivers := Reachables(todo, s.senders, s.channels);
            var s' := After(s, trace);
            && n in s'.pubs && s'.pubs[n].sent == s.pubs[n].sent + |receivers|
            && s' == s.(js := Idle, pubs := s'.pubs, channels := Delivered(s.channels, receivers, m))
    decreases |todo|
  {
    hide Do, DoJs, DoTask, Can, CanJs, CanTask, Possible, After, Inv;
    PublishSteps(s, None, "", "", "");
    hide Reachables, Delivered, Room, Push;
    var n := s.js.serial;
    var m := Message(n, s.pubs[n].text);
    NothingDelivered(s.channels, {}, s.senders, m);
    if todo == {} {
      NothingDone(Do(s, ByJs(PublishEnd)));
      FirstStep(s, ByJs(PublishEnd), []);
      trace := [ByJs(PublishEnd)] + [];
    } else {
      var c :| c in todo;
      var mid := DeliveredOne(s, c);
      var rest := DeliveringAlone(mid.1, todo - {c});
      TraceConcat(s, mid.0, rest);
      trace := mid.0 + rest;
      DeliveredSplit(s.channels, s.senders, todo, c, m);
    }
  }

  /** Delivering to `c` first and then to the others is delivering to all. */
  lemma DeliveredSplit(channels: map<Conn, Channel>, senders: set<Conn>, todo: set<Conn>, c: Conn, m: Message)
    requires c in todo
    ensures var first := Reachables({c}, senders, channels);
            var mid := Delivered(channels, first, m);
            var others := Reachables(todo - {c}, senders, mid);
            var all := Reachables(todo, senders, channels);
            |all| == |first| + |others| && Delivered(mid, others, m) == Delivered(channels, all, m)
  {
    var first := Reachables({c}, senders, channels);
    var mid := Delivered(channels, first, m);
    var others := Reachables(todo - {c}, senders, mid);
    assert Reachables(todo, senders, channels) == first + others;
  }

  /** One iteration. */
  lemma DeliveredOne(s: State, c: Conn) returns (r: (seq<Action>, State))
    requires Inv(s) && s.js.Publishing? && c in s.js.todo && s.js.serial in s.pubs
    ensures Possible(s, r.0) && After(s, r.0) == r.1 && Inv(r.1)
    ensures var n := s.js.serial;
            var first := Reachables({c}, s.senders, s.channels);
            && n in r.1.pubs && r.1.pubs[n].text == s.pubs[n].text && r.1.pubs[n].sent == s.pubs[n].sent + |first|
            && r.1 == s.(js := Publishing(n, s.js.todo - {c}), pubs := r.1.pubs,
                         channels := Delivered(s.channels, first, Message(n, s.pubs[n].text)))
  {
    var n := s.js.serial;
    var get, send := ByJs(PublishGet(c)), ByJs(PublishTrySend);
    hide Do, DoJs, DoTask, Can, CanJs, CanTask, Possible, After, Inv, Reachables, Delivered, Room, Push;
    PublishSteps(s, None, "", "", c);
    StepKeepsInv(s, get);
    var s1 := Do(s, get);
    DeliveredHere(s.channels, s.senders, c, Message(n, s.pubs[n].text));
    if c in s.senders {
      PublishSteps(s1, None, "", "", c);
      StepKeepsInv(s1, send);
      PubUpdatedBySend(s1);
      TwoSteps(s, get, send);
      r := ([get, send], Do(s1, send));
    } else {
      OneStep(s, get);
      r := ([get], s1);
    }
  }

  lemma OneStep(s: State, a: Action)
    requires Can(s, a)
    ensures Possible(s, [a]) && After(s, [a]) == Do(s, a)
  {
    NothingDone(Do(s, a));
    FirstStep(s, a, []);
    assert [a] + [] == [a];
  }

  lemma TwoSteps(s: State, a: Action, a': Action)
    requires Can(s, a) && Can(Do(s, a), a')
    ensures Possible(s, [a, a']) && After(s, [a, a']) == Do(Do(s, a), a')
  {
    OneStep(Do(s, a), a');
    FirstStep(s, a, [a']);
    assert [a] + [a'] == [a, a'];
  }

  lemma DeliveredHere(channels: map<Conn, Channel>, senders: set<Conn>, c: Conn, m: Message)
    ensures var first := Reachables({c}, senders, channels);
            if c in senders && c in channels && Room(channels[c]) then
              first == {c} && Delivered(channels, first, m) == channels[c := Push(channels[c], m)]
            else first == {} && Delivered(channels, first, m) == channels
  {
    var first := Reachables({c}, senders, channels);
    assert first == if c in senders && c in channels && Room(channels[c]) then {c} else {};
  }

  lemma PubUpdatedBySend(s: State)
    requires Inv(s) && s.js.Sending?
    ensures s.js.conn in s.channels && s.js.serial in s.pubs
    ensures var s' := Do(s, ByJs(PublishTrySend));
            s.js.serial in s'.pubs &&
            s'.pubs[s.js.serial].sent == s.pubs[s.js.serial].sent + if Room(s.channels[s.js.conn]) then 1 else 0
  {
  }

  /** Who a message is queued at, and how, in full. */
  lemma DeliveredMeans(topics: map<Topic, set<Conn>>, senders: set<Conn>, channels: map<Conn, Channel>,
                       exclude: Option<Conn>, t: Topic, m: Message)
    ensures var ids := if t in topics then set c | c in topics[t] && exclude != Some(c) else {};
            var receivers := set c | c in channels && t in topics && c in topics[t] && exclude != Some(c) &&
                                     c in senders && !channels[c].closed && |channels[c].queue| < 256;
            && Reachables(ids, senders, channels) == receivers
            && Delivered(channels, receivers, m).Keys == channels.Keys
            && forall c :: c in channels ==>
                 var ch := channels[c];
                 Delivered(channels, receivers, m)[c] ==
                   if c in receivers then Channel(ch.accepted + [m], ch.delivered, ch.queue + [m], false) else ch
  {
  }

  /** The snapshot of a publish: all members of the topic but the excluded one. */
  lemma SnapshotTaken(s: State, exclude: Option<Conn>, t: Topic, text: string, c: Conn)
    requires s.js.Idle?
    ensures Can(s, ByJs(PublishBegin(exclude, t, text)))
    ensures var s' := Do(s, ByJs(PublishBegin(exclude, t, text)));
            && s'.js == Publishing(s.next, s'.js.todo) && s.next in s'.pubs && s'.pubs[s.next].audience == s'.js.todo
            && (c in s'.js.todo <==> t in s.topics && c in s.topics[t] && exclude != Some(c))
  {
  }

  /** A publish that nothing interleaves with does what the method does: it queues the message at every member of the topic
      but the excluded one that has a sender with room, and counts them. */
  lemma PublishAlone(s: State, exclude: Option<Conn>, t: Topic, text: string)
    requires Inv(s) && s.js.Idle?
    ensures exists trace :: Possible(s, trace) &&
              var s' := After(s, trace);
              var receivers := set c | c in s.channels && t in s.topics && c in s.topics[t] && exclude != Some(c) &&
                                       c in s.senders && !s.channels[c].closed && |s.channels[c].queue| < 256;
              && s'.js.Idle? && s.next in s'.pubs && s'.pubs[s.next].sent == |receivers| && s'.channels.Keys == s.channels.Keys
              && forall c :: c in s.channels ==>
                   var ch, m := s.channels[c], Message(s.next, text);
                   s'.channels[c] == if c in receivers then Channel(ch.accepted + [m], ch.delivered, ch.queue + [m], false) else ch
  {
    hide Do, DoJs, DoTask, Can, CanJs, CanTask, Possible, After, Inv, Reachables, Delivered;
    var begin := ByJs(PublishBegin(exclude, t, text));
    PublishSteps(s, exclude, t, text, "");
    StepKeepsInv(s, begin);
    var s1 := Do(s, begin);
    DeliveredMeans(s.topics, s.senders, s.channels, exclude, t, Message(s.next, text));
    assert Audience(s, exclude, t) == if t in s.topics then set c | c in s.topics[t] && exclude != Some(c) else {};
    var rest := DeliveringAlone(s1, Audience(s, exclude, t));
    FirstStep(s, begin, rest);
  }

  /** A direct send that nothing interleaves with queues its message exactly if the connection has a sender with room. */
  lemma SendAlone(s: State, c: Conn, text: string)
    requires Inv(s) && s.js.Idle?
    ensures var s1 := Do(s, ByJs(SendGet(c, text)));
            if c !in s.senders then s1 == s
            else
              && Can(s1, ByJs(SendTrySend)) && c in s.channels
              && var ch, m := s.channels[c], Message(s.next, text);
              Do(s1, ByJs(SendTrySend)) ==
                s.(next := s.next + 1,
                   channels := if !ch.closed && |ch.queue| < 256
                               then s.channels[c := Channel(ch.accepted + [m], ch.delivered, ch.queue + [m], false)] else s.channels)
  {
    assert c in s.senders <==> PhaseOf(s, c) == Open;
    assert c in s.channels <==> PhaseOf(s, c) != Fresh;
  }

  /** The send task takes messages out in the order of the queue, and an abort closes the channel with what is left in it. */
  lemma QueueSteps(s: State, c: Conn)
    requires c in s.channels
    ensures var ch := s.channels[c];
            && (Can(s, ByTask(Receive(c))) <==> !ch.closed && ch.queue != [])
            && (ch.queue != [] && !ch.closed ==>
                  Do(s, ByTask(Receive(c))) ==
                    s.(channels := s.channels[c := Channel(ch.accepted, ch.delivered + [ch.queue[0]], ch.queue[1..], false)]))
            && Do(s, ByTask(CloseChannel(c))) == s.(channels := s.channels[c := Channel(ch.accepted, ch.delivered, [], true)])
  {
  }
}
