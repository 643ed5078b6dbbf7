/** What the invariant of the pending-request table means for requests: nobody waits forever because of `close`, nobody gets
    two responses, and ids clash only after 2^32 requests. */
module Waiting {
  import opened Pending

  // ---- Nobody waits forever because of close ----

  /** A waiting request is either about to wake, or its sender is in the table under its id, where an answer of JS will
      find it, or JS has taken it out and sends on it next; every other unfinished request has a step of its own to take. */
  lemma NobodyIsForgotten(sh: Sharding, trace: seq<Action>, r: Serial)
    requires Possible(sh, INIT, trace)
    ensures var s := After(sh, INIT, trace);
            r in s.phases && !Finished(s.phases[r]) ==>
              || (exists a :: a != Abandon && CanRequest(s, r, a))
              || (s.phases[r].Waiting? && ((IdOf(r) in s.pending && s.pending[IdOf(r)] == r) || Held(s, r)))
  {
    Reachable(sh, trace);
    var s := After(sh, INIT, trace);
    assert RequestInv(s, r);
    if r in s.phases {
      match s.phases[r]
      case Numbered => assert CanRequest(s, r, StoreAddr);
      case WithAddr => assert CanRequest(s, r, StoreSender);
      case Registered => assert CanRequest(s, r, ReadCallback);
      case Refusing => assert CanRequest(s, r, ForgetAddr);
      case RefusingToo => assert CanRequest(s, r, ForgetSender);
      case Waiting => assert !s.chans[r].Unsent? ==> CanRequest(s, r, Wake);
      case Cancelling => assert CanRequest(s, r, ForgetCancelled);
      case _ =>
    }
  }

  /** Once a call of `close` is through, and as long as no callback is registered anew, every unfinished request has a step
      of its own to take, or JS is about to send to it: nobody waits for an answer that cannot come. */
  lemma CloseReleasesEveryone(sh: Sharding, trace: seq<Action>, k: nat, r: Serial)
    requires Possible(sh, INIT, trace) && forall id :: sh(id) < SHARDS
    ensures var s := After(sh, INIT, trace);
            k in s.closers && s.closers[k] == Closer(Closed, true) && r in s.phases && !Finished(s.phases[r]) ==>
              (exists a :: a != Abandon && CanRequest(s, r, a)) || Held(s, r)
  {
    NobodyIsForgotten(sh, trace, r);
    Reachable(sh, trace);
    var s := After(sh, INIT, trace);
    assert EntryInv(s, IdOf(r)) && LateEntryInv(sh, s, IdOf(r), k);
  }

  /** Each own step is progress, and no other step undoes it. */
  lemma StepsRunOut(sh: Sharding, s: State, a: Action, r: Serial)
    requires Can(s, a) && Inv(sh, s) && r in s.phases
    ensures r in Do(sh, s, a).phases
    ensures if a.Request? && a.serial == r then StepsLeft(Do(sh, s, a).phases[r]) < StepsLeft(s.phases[r])
            else Do(sh, s, a).phases[r] == s.phases[r]
    ensures Finished(s.phases[r]) <==> StepsLeft(s.phases[r]) == 0
  {
    assert RequestInv(s, s.next);
    hide Inv, RequestInv, DoRequest;
    if a.Request? {
      RequestPhases(s, a.serial, a.step);
    } else {
      PhasesChange(sh, s, a);
      hide Do;
    }
  }

  /** When a quiet `close` is through and every request has finished, both tables are empty. */
  lemma CloseEmptiesTables(sh: Sharding, trace: seq<Action>, k: nat)
    requires Possible(sh, INIT, trace) && forall id :: sh(id) < SHARDS
    ensures var s := After(sh, INIT, trace);
            k in s.closers && s.closers[k] == Closer(Closed, true) && (forall r :: r in s.phases ==> Finished(s.phases[r])) ==>
              s.pending == map[] && s.addrs == {}
  {
    Reachable(sh, trace);
    var s := After(sh, INIT, trace);
    if k in s.closers && s.closers[k] == Closer(Closed, true) && forall r :: r in s.phases ==> Finished(s.phases[r]) {
      forall id ensures id !in s.pending && id !in s.addrs {
        assert EntryInv(s, id) && LateEntryInv(sh, s, id, k) && AddrInv(sh, s, id, k);
      }
    }
  }

  // ---- At most one response ----

  /** How often a run sends something down the channel of `r`. */
  ghost function Sends(sh: Sharding, s: State, trace: seq<Action>, r: Serial): nat
    requires Possible(sh, s, trace)
    decreases |trace|
  {
    if trace == [] then 0 else
      (if trace[0].AnswerSend? && s.answering.serial == r then 1 else 0) +
      Sends(sh, Do(sh, s, trace[0]), trace[1..], r)
  }

  /** A channel settles once: what was sent, or that it was dropped, stays. */
  lemma SettledStep(sh: Sharding, s: State, a: Action, r: Serial)
    requires Can(s, a) && Inv(sh, s) && r in s.chans && !s.chans[r].Unsent?
    ensures r in Do(sh, s, a).chans && Do(sh, s, a).chans[r] == s.chans[r]
    ensures !Held(s, r)
  {
    assert RequestInv(s, r);
    hide EntryInv, LateEntryInv, AddrInv;
  }

  /** Whatever ids JS answers, how often and when, a request is sent at most one response; and a request that finishes
      with a reply finishes with the one that was sent. */
  lemma {:induction false} AtMostOneResponse(sh: Sharding, s: State, trace: seq<Action>, r: Serial)
    requires Inv(sh, s) && Possible(sh, s, trace)
    ensures Sends(sh, s, trace, r) <= if r in s.chans && !s.chans[r].Unsent? then 0 else 1
    ensures var s' := After(sh, s, trace);
            r in s'.phases && s'.phases[r].Answered? ==> r in s'.chans && s'.chans[r] == Sent(s'.phases[r].reply)
    ensures var s' := After(sh, s, trace);
            r in s.chans && !s.chans[r].Unsent? ==> r in s'.chans && s'.chans[r] == s.chans[r]
    decreases |trace|
  {
    assert RequestInv(s, r);
    if trace != [] {
      var a := trace[0];
      StepKeepsInv(sh, s, a);
      if r in s.chans && !s.chans[r].Unsent? {
        SettledStep(sh, s, a, r);
      }
      AtMostOneResponse(sh, Do(sh, s, a), trace[1..], r);
    }
  }

  // ---- Ids are reused only after 2^32 requests ----

  /** Storing a sender evicts the sender of another request exactly when that one holds the same 32-bit id. */
  lemma EvictionIsIdReuse(sh: Sharding, s: State, r: Serial, q: Serial)
    requires Inv(sh, s) && CanRequest(s, r, StoreSender) && q in s.chans && s.chans[q].Unsent?
    ensures DoRequest(s, r, StoreSender).chans[q].Dropped? <==>
            q % 4294967296 == r % 4294967296 && q % 4294967296 in s.pending && s.pending[q % 4294967296] == q
  {
    assert RequestInv(s, r) && RequestInv(s, q);
  }

  /** While every request in the table, and the one about to enter it, were issued within the last 2^32, none is evicted. */
  lemma NoEvictionWithinIdSpace(sh: Sharding, s: State, r: Serial)
    requires Inv(sh, s) && CanRequest(s, r, StoreSender)
    requires s.next - r <= 4294967296 && forall id :: id in s.pending ==> s.next - s.pending[id] <= 4294967296
    ensures r % 4294967296 !in s.pending && r % 4294967296 in DoRequest(s, r, StoreSender).pending
    ensures forall id :: id in s.pending ==> id in DoRequest(s, r, StoreSender).pending &&
                                             DoRequest(s, r, StoreSender).pending[id] == s.pending[id]
  {
    assert EntryInv(s, IdOf(r)) && RequestInv(s, r);
    if IdOf(r) in s.pending {
      var q := s.pending[IdOf(r)];
      assert RequestInv(s, q);
      SameIdFarApart(r, q);
    }
  }

  lemma SameIdFarApart(r: Serial, q: Serial)
    ensures IdOf(r) == IdOf(q) && r != q ==> r - q >= ID_SPACE || q - r >= ID_SPACE
  {
    assert r == ID_SPACE * (r / ID_SPACE) + IdOf(r) && q == ID_SPACE * (q / ID_SPACE) + IdOf(q);
  }

  // ---- How a request ends ----

  /** A waiting request whose channel holds a reply finishes with that reply; one whose channel was dropped fails, and
      removes its address. */
  lemma WakesWithItsReply(s: State, r: Serial)
    requires r in s.phases && s.phases[r] == Waiting && r in s.chans
    ensures CanRequest(s, r, Wake) <==> s.chans[r].Sent? || s.chans[r].Dropped?
    ensures s.chans[r].Sent? ==> DoRequest(s, r, Wake) == s.(phases := s.phases[r := Answered(s.chans[r].reply)])
    ensures s.chans[r].Dropped? ==>
              var s' := DoRequest(s, r, Wake);
              && CanRequest(s', r, ForgetCancelled)
              && DoRequest(s', r, ForgetCancelled).phases == s.phases[r := Failed]
              && DoRequest(s', r, ForgetCancelled).addrs == s.addrs - {r % 4294967296}
  {
    if s.chans[r].Dropped? {
      assert s.phases[r := Cancelling][r := Failed] == s.phases[r := Failed];
    }
  }

  /** An answer to a waiting request, uninterrupted, brings its reply to the client. */
  lemma AnswerArrives(sh: Sharding, s: State, r: Serial, reply: Reply)
    requires Inv(sh, s) && s.answering.Silent?
    requires r in s.phases && s.phases[r] == Waiting && r % 4294967296 in s.pending && s.pending[r % 4294967296] == r
    ensures var s3 := Do(sh, Do(sh, Do(sh, s, AnswerBegin(r % 4294967296, reply)), AnswerTake), AnswerSend);
            CanRequest(s3, r, Wake) && DoRequest(s3, r, Wake).phases == s.phases[r := Answered(reply)]
  {
    assert EntryInv(s, r % 4294967296);
  }
}
