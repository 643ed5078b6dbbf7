/** The pending-request table of `src/server.rs`: requests register and wait, JS answers by id, and `close` clears the
    table. Every map, channel or callback-slot operation is one atomic step, a map is cleared one shard after another, and
    the steps of all requests, of JS and of any number of `close` calls interleave. */
module Pending {
  const SHARDS := 16
  const ID_SPACE := 0x1_0000_0000

  /** The n-th request; its id is the counter cut to 32 bits. */
  type Serial = nat
  type Id = nat

  function IdOf(r: Serial): Id {
    r % ID_SPACE
  }

  type Reply = string

  /** The one-shot channel a request waits on. */
  datatype Chan = Unsent | Sent(reply: Reply) | Dropped

  /** Where a request stands: numbered, address stored, sender stored; no callback found, address removed again;
      waiting; channel dropped; finished with a reply of JS, with an error of its own, or abandoned by the client. */
  datatype Phase =
    | Numbered | WithAddr | Registered
    | Refusing | RefusingToo
    | Waiting | Cancelling
    | Answered(reply: Reply) | Failed | Abandoned

  /** How far a call of `close` has come. */
  datatype Stage = ClearingPending(shard: nat) | ClearingAddrs(shard: nat) | Closed

  /** A call of `close` that has cleared the callback; `quiet` while no callback was registered since. */
  datatype Closer = Closer(stage: Stage, quiet: bool)

  /** Where an answer of JS stands: address removed; sender taken out of the table, and about to be sent on. */
  datatype Answering = Silent | Removing(id: Id, reply: Reply) | Holding(serial: Serial, reply: Reply)

  datatype State = State(
    next: Serial,
    callback: bool,
    pending: map<Id, Serial>,
    addrs: set<Id>,
    chans: map<Serial, Chan>,
    phases: map<Serial, Phase>,
    answering: Answering,
    closers: map<nat, Closer>)

  datatype RequestStep = StoreAddr | StoreSender | ReadCallback | ForgetAddr | ForgetSender | Wake | ForgetCancelled | Abandon

  datatype Action =
    | Arrive
    | Request(serial: Serial, step: RequestStep)
    | OnRequest
    | AnswerBegin(id: Id, reply: Reply) | AnswerTake | AnswerSend
    | CloseBegin(closer: nat) | CloseStep(closer: nat)

  const INIT := State(1, false, map[], {}, map[], map[], Silent, map[])

  /** How ids are spread over the shards of a map. */
  type Sharding = Id -> nat

  predicate Finished(p: Phase) {
    p.Answered? || p.Failed? || p.Abandoned?
  }

  /** Removing the entry of `id` drops its sender, and so fails the wait, unless something was sent first. */
  function Drop(s: State, ids: set<Id>): State {
    s.(pending := s.pending - ids,
       chans := map r | r in s.chans ::
         if s.chans[r].Unsent? && IdOf(r) in ids && IdOf(r) in s.pending && s.pending[IdOf(r)] == r then Dropped else s.chans[r])
  }

  // ---- Atomic steps ----

  predicate CanRequest(s: State, r: Serial, a: RequestStep) {
    r in s.phases &&
    match a
    case StoreAddr => s.phases[r] == Numbered
    case StoreSender => s.phases[r] == WithAddr
    case ReadCallback => s.phases[r] == Registered
    case ForgetAddr => s.phases[r] == Refusing
    case ForgetSender => s.phases[r] == RefusingToo
    case Wake => s.phases[r] == Waiting && r in s.chans && !s.chans[r].Unsent?
    case ForgetCancelled => s.phases[r] == Cancelling
    case Abandon => s.phases[r] == Waiting
  }

  function DoRequest(s: State, r: Serial, a: RequestStep): State
    requires CanRequest(s, r, a)
  {
    match a
    case StoreAddr => s.(addrs := s.addrs + {IdOf(r)}, phases := s.phases[r := WithAddr])
    case StoreSender =>
      var s' := Drop(s, {IdOf(r)});
      s'.(pending := s'.pending[IdOf(r) := r], chans := s'.chans[r := Unsent], phases := s.phases[r := Registered])
    case ReadCallback => s.(phases := s.phases[r := if s.callback then Waiting else Refusing])
    case ForgetAddr => s.(addrs := s.addrs - {IdOf(r)}, phases := s.phases[r := RefusingToo])
    case ForgetSender => Drop(s, {IdOf(r)}).(phases := s.phases[r := Failed])
    case Wake => s.(phases := s.phases[r := if s.chans[r].Sent? then Answered(s.chans[r].reply) else Cancelling])
    case ForgetCancelled => s.(addrs := s.addrs - {IdOf(r)}, phases := s.phases[r := Failed])
    case Abandon => s.(phases := s.phases[r := Abandoned])
  }

  function Shard(sh: Sharding, ids: set<Id>, k: nat): set<Id> {
    set id | id in ids && sh(id) == k
  }

  predicate Can(s: State, a: Action) {
    match a
    case Arrive => true
    case Request(r, step) => CanRequest(s, r, step)
    case OnRequest => true
    case AnswerBegin(_, _) => s.answering.Silent?
    case AnswerTake => s.answering.Removing?
    case AnswerSend => s.answering.Holding?
    case CloseBegin(k) => k !in s.closers
    case CloseStep(k) => k in s.closers && !s.closers[k].stage.Closed?
  }

  function Do(sh: Sharding, s: State, a: Action): State
    requires Can(s, a)
  {
    match a
    case Arrive => s.(next := s.next + 1, phases := s.phases[s.next := Numbered])
    case Request(r, step) => DoRequest(s, r, step)
    case OnRequest => s.(callback := true, closers := map k | k in s.closers :: s.closers[k].(quiet := false))
    case AnswerBegin(id, reply) => s.(addrs := s.addrs - {id}, answering := Removing(id, reply))
    case AnswerTake =>
      var id := s.answering.id;
      if id in s.pending then
        s.(pending := s.pending - {id}, answering := Holding(s.pending[id], s.answering.reply))
      else s.(answering := Silent)
    case AnswerSend => s.(chans := s.chans[s.answering.serial := Sent(s.answering.reply)], answering := Silent)
    case CloseBegin(k) => s.(callback := false, closers := s.closers[k := Closer(ClearingPending(0), true)])
    case CloseStep(k) => DoClose(sh, s, k)
  }

  /** One shard more. */
  function DoClose(sh: Sharding, s: State, k: nat): State
    requires Can(s, CloseStep(k))
  {
    var (stage, s') := match s.closers[k].stage
      case ClearingPending(n) =>
        (if n + 1 < SHARDS then ClearingPending(n + 1) else ClearingAddrs(0), Drop(s, Shard(sh, s.pending.Keys, n)))
      case ClearingAddrs(n) =>
        (if n + 1 < SHARDS then ClearingAddrs(n + 1) else Closed, s.(addrs := s.addrs - Shard(sh, s.addrs, n)));
    s'.(closers := s.closers[k := s.closers[k].(stage := stage)])
  }

  ghost predicate Possible(sh: Sharding, s: State, trace: seq<Action>)
    decreases |trace|
  {
    trace == [] || (Can(s, trace[0]) && Possible(sh, Do(sh, s, trace[0]), trace[1..]))
  }

  ghost function After(sh: Sharding, s: State, trace: seq<Action>): State
    requires Possible(sh, s, trace)
    decreases |trace|
  {
    if trace == [] then s else After(sh, Do(sh, s, trace[0]), trace[1..])
  }

  // ---- Invariant ----

  /** How many shards of `pending`, and of `request_addrs`, a call of `close` has cleared so far. */
  function PendingCleared(stage: Stage): nat {
    if stage.ClearingPending? then stage.shard else SHARDS
  }

  function AddrsCleared(stage: Stage): nat {
    match stage
    case ClearingPending(_) => 0
    case ClearingAddrs(n) => n
    case Closed => SHARDS
  }

  /** The request has stored its sender and has not yet given it up. */
  predicate Listed(p: Phase) {
    p.Registered? || p.Refusing? || p.RefusingToo? || p.Waiting? || p.Abandoned?
  }

  /** The request will still read the empty callback slot, or has, and will remove its entries itself. */
  predicate Leaving(p: Phase) {
    p.Registered? || p.Refusing? || p.RefusingToo?
  }

  /** A quiet close has been through the shard of `id` in `pending`. */
  predicate SweptPending(sh: Sharding, s: State, id: Id, k: nat) {
    k in s.closers && s.closers[k].quiet && sh(id) < PendingCleared(s.closers[k].stage)
  }

  /** And in `request_addrs`. */
  predicate SweptAddrs(sh: Sharding, s: State, id: Id, k: nat) {
    k in s.closers && s.closers[k].quiet && sh(id) < AddrsCleared(s.closers[k].stage)
  }

  predicate Held(s: State, r: Serial) {
    s.answering.Holding? && s.answering.serial == r
  }

  predicate EntryInv(s: State, id: Id) {
    id in s.pending ==>
      var r := s.pending[id];
      IdOf(r) == id && r in s.phases && Listed(s.phases[r]) && r in s.chans && s.chans[r] == Unsent && !Held(s, r)
  }

  predicate RequestInv(s: State, r: Serial) {
    r in s.phases ==>
      && r < s.next
      && (s.phases[r].Numbered? || s.phases[r].WithAddr? <==> r !in s.chans)
      && ((s.phases[r].Registered? || s.phases[r].Waiting?) && s.chans[r].Unsent? ==>
            (IdOf(r) in s.pending && s.pending[IdOf(r)] == r) || Held(s, r))
      && (s.phases[r].Answered? ==> s.chans[r] == Sent(s.phases[r].reply))
  }

  /** An entry behind a quiet close belongs to a request that will remove it itself. */
  predicate LateEntryInv(sh: Sharding, s: State, id: Id, k: nat) {
    SweptPending(sh, s, id, k) && id in s.pending && s.pending[id] in s.phases ==> Leaving(s.phases[s.pending[id]])
  }

  /** Somebody is still to remove the address. */
  ghost predicate AddrInv(sh: Sharding, s: State, id: Id, k: nat) {
    SweptAddrs(sh, s, id, k) && id in s.addrs ==> exists r :: r in s.phases && WillForget(s, id, r)
  }

  predicate WillForget(s: State, id: Id, r: Serial)
    requires r in s.phases
  {
    IdOf(r) == id && (s.phases[r].WithAddr? || s.phases[r].Registered? || s.phases[r].Refusing?)
  }

  predicate Tidy(s: State) {
    && s.chans.Keys <= s.phases.Keys
    && (s.answering.Holding? ==> s.answering.serial in s.chans && s.chans[s.answering.serial] == Unsent)
    && (forall k :: k in s.closers && s.closers[k].quiet ==> !s.callback)
  }

  ghost predicate Inv(sh: Sharding, s: State) {
    && Tidy(s)
    && (forall id :: EntryInv(s, id))
    && (forall r :: RequestInv(s, r))
    && (forall id, k :: LateEntryInv(sh, s, id, k))
    && (forall id, k :: AddrInv(sh, s, id, k))
  }

  // ---- What a step does to the phases ----

  /** How many steps of its own a request has left at most. */
  function StepsLeft(p: Phase): nat {
    match p
    case Numbered => 6
    case WithAddr => 5
    case Registered => 4
    case Refusing => 2
    case RefusingToo => 1
    case Waiting => 2
    case Cancelling => 1
    case _ => 0
  }

  /** A request's own step brings it nearer to its end, and leaves the other requests where they are. */
  lemma RequestPhases(s: State, r: Serial, a: RequestStep)
    requires CanRequest(s, r, a)
    ensures var s' := DoRequest(s, r, a);
            r in s'.phases && s'.phases == s.phases[r := s'.phases[r]] && StepsLeft(s'.phases[r]) < StepsLeft(s.phases[r])
  {
    hide Drop;
  }

  lemma PhasesChange(sh: Sharding, s: State, a: Action)
    requires Can(s, a) && !a.Request?
    ensures Do(sh, s, a).phases == if a.Arrive? then s.phases[s.next := Numbered] else s.phases
  {
    hide DoRequest;
  }

  // ---- Every step keeps the invariant ----

  lemma RequestKeepsEntry(s: State, r: Serial, a: RequestStep, id: Id)
    requires CanRequest(s, r, a) && EntryInv(s, id) && EntryInv(s, IdOf(r)) && RequestInv(s, r) && Tidy(s)
    ensures EntryInv(DoRequest(s, r, a), id)
  {
  }

  lemma RequestKeepsRequest(s: State, r: Serial, a: RequestStep, q: Serial)
    requires CanRequest(s, r, a) && RequestInv(s, q) && RequestInv(s, r) && EntryInv(s, IdOf(q)) && EntryInv(s, IdOf(r))
    ensures RequestInv(DoRequest(s, r, a), q)
  {
  }

  lemma RequestKeepsLate(sh: Sharding, s: State, r: Serial, a: RequestStep, id: Id, k: nat)
    requires CanRequest(s, r, a) && LateEntryInv(sh, s, id, k) && EntryInv(s, id) && RequestInv(s, r) && EntryInv(s, IdOf(r))
    requires Tidy(s)
    ensures LateEntryInv(sh, DoRequest(s, r, a), id, k)
  {
  }

  lemma RequestKeepsTidy(s: State, r: Serial, a: RequestStep)
    requires CanRequest(s, r, a) && Tidy(s) && RequestInv(s, r) && EntryInv(s, IdOf(r))
    ensures Tidy(DoRequest(s, r, a))
  {
  }

  lemma OtherKeepsEntry(sh: Sharding, s: State, a: Action, id: Id)
    requires Can(s, a) && !a.Request? && Inv(sh, s)
    ensures EntryInv(Do(sh, s, a), id)
  {
    hide LateEntryInv, AddrInv;
    assert EntryInv(s, id) && RequestInv(s, s.next);
    if a.AnswerTake? {
      assert EntryInv(s, s.answering.id);
    }
  }

  lemma OtherKeepsRequest(sh: Sharding, s: State, a: Action, r: Serial)
    requires Can(s, a) && !a.Request? && Inv(sh, s)
    ensures RequestInv(Do(sh, s, a), r)
  {
    hide LateEntryInv, AddrInv, DoRequest, DoClose;
    assert EntryInv(s, IdOf(r)) && RequestInv(s, r) && RequestInv(s, s.next);
    if a.AnswerTake? {
      assert EntryInv(s, s.answering.id);
    }
    if a.CloseStep? {
      hide Do;
      CloseKeepsRequest(sh, s, a.closer, r);
    }
  }

  lemma CloseKeepsRequest(sh: Sharding, s: State, k: nat, r: Serial)
    requires Can(s, CloseStep(k)) && RequestInv(s, r)
    ensures Do(sh, s, CloseStep(k)) == DoClose(sh, s, k) && RequestInv(DoClose(sh, s, k), r)
  {
  }

  lemma OtherKeepsTidy(sh: Sharding, s: State, a: Action)
    requires Can(s, a) && !a.Request? && Inv(sh, s)
    ensures Tidy(Do(sh, s, a))
  {
    hide LateEntryInv, AddrInv;
    if a.AnswerTake? {
      assert EntryInv(s, s.answering.id);
    }
    if s.answering.Holding? {
      assert EntryInv(s, IdOf(s.answering.serial));
    }
  }

  lemma OtherKeepsLate(sh: Sharding, s: State, a: Action, id: Id, k: nat)
    requires Can(s, a) && !a.Request? && Inv(sh, s)
    ensures LateEntryInv(sh, Do(sh, s, a), id, k)
  {
    hide AddrInv;
    assert EntryInv(s, id) && LateEntryInv(sh, s, id, k) && RequestInv(s, s.next);
  }

  lemma StepAddr(sh: Sharding, s: State, a: Action, id: Id, k: nat)
    requires Can(s, a) && Inv(sh, s)
    ensures AddrInv(sh, Do(sh, s, a), id, k)
  {
    assert AddrInv(sh, s, id, k) && RequestInv(s, s.next);
    hide EntryInv, LateEntryInv, RequestInv, SweptAddrs, Can, Do, WillForget;
    SweptBefore(sh, s, a, id, k);
    var s' := Do(sh, s, a);
    if SweptAddrs(sh, s', id, k) && id in s'.addrs {
      if r :| r in s.phases && WillForget(s, id, r) && SweptAddrs(sh, s, id, k) && id in s.addrs {
        StillToForget(sh, s, a, id, r);
      }
    }
  }

  /** An address behind a close is one that was there before, or has just been stored. */
  lemma SweptBefore(sh: Sharding, s: State, a: Action, id: Id, k: nat)
    requires Can(s, a) && Tidy(s)
    ensures var s' := Do(sh, s, a);
            SweptAddrs(sh, s', id, k) && id in s'.addrs ==>
              (exists r :: r in s'.phases && WillForget(s', id, r)) || (SweptAddrs(sh, s, id, k) && id in s.addrs && !s.callback)
  {
    if a.Request? && a.step.StoreAddr? && IdOf(a.serial) == id {
      assert WillForget(Do(sh, s, a), id, a.serial);
    }
  }

  lemma StillToForget(sh: Sharding, s: State, a: Action, id: Id, r: Serial)
    requires Can(s, a) && r in s.phases && WillForget(s, id, r) && RequestInv(s, s.next) && !s.callback
    ensures var s' := Do(sh, s, a); r in s'.phases && (id in s'.addrs ==> WillForget(s', id, r))
  {
    if a.Request? {
      RequestPhases(s, a.serial, a.step);
    } else {
      PhasesChange(sh, s, a);
    }
  }

  lemma StepKeepsInv(sh: Sharding, s: State, a: Action)
    requires Can(s, a) && Inv(sh, s)
    ensures Inv(sh, Do(sh, s, a))
  {
    if a.Request? {
      RequestStepKeepsInv(sh, s, a.serial, a.step);
    } else {
      OtherKeepsTidy(sh, s, a);
      forall id ensures EntryInv(Do(sh, s, a), id) {
        OtherKeepsEntry(sh, s, a, id);
      }
      forall r ensures RequestInv(Do(sh, s, a), r) {
        OtherKeepsRequest(sh, s, a, r);
      }
      forall id, k ensures LateEntryInv(sh, Do(sh, s, a), id, k) {
        OtherKeepsLate(sh, s, a, id, k);
      }
    }
    forall id, k ensures AddrInv(sh, Do(sh, s, a), id, k) {
      StepAddr(sh, s, a, id, k);
    }
  }

  lemma RequestStepKeepsInv(sh: Sharding, s: State, r: Serial, a: RequestStep)
    requires CanRequest(s, r, a) && Inv(sh, s)
    ensures var s' := DoRequest(s, r, a);
            && Tidy(s') && (forall id :: EntryInv(s', id)) && (forall q :: RequestInv(s', q))
            && forall id, k :: LateEntryInv(sh, s', id, k)
  {
    assert RequestInv(s, r) && EntryInv(s, IdOf(r));
    hide EntryInv, RequestInv, LateEntryInv, AddrInv, Tidy, CanRequest, DoRequest;
    RequestKeepsTidy(s, r, a);
    forall id ensures EntryInv(DoRequest(s, r, a), id) {
      RequestKeepsEntry(s, r, a, id);
    }
    forall q ensures RequestInv(DoRequest(s, r, a), q) {
      RequestKeepsRequest(s, r, a, q);
    }
    forall id, k ensures LateEntryInv(sh, DoRequest(s, r, a), id, k) {
      RequestKeepsLate(sh, s, r, a, id, k);
    }
  }

  lemma {:induction false} RunKeepsInv(sh: Sharding, s: State, trace: seq<Action>)
    requires Inv(sh, s) && Possible(sh, s, trace)
    ensures Inv(sh, After(sh, s, trace))
    decreases |trace|
  {
    if trace != [] {
      StepKeepsInv(sh, s, trace[0]);
      RunKeepsInv(sh, Do(sh, s, trace[0]), trace[1..]);
    }
  }

  lemma Reachable(sh: Sharding, trace: seq<Action>)
    requires Possible(sh, INIT, trace)
    ensures Inv(sh, After(sh, INIT, trace))
  {
    RunKeepsInv(sh, INIT, trace);
  }
}
