/** The tables of pending requests as `src/server.rs` writes them, each call against its atomic steps. */
module Requests {
  import opened Wrappers
  import opened Pending

  // ---- The code ----

  class Table {
    var onRequest: bool
    var pending: map<Id, Serial>
    var requestAddrs: set<Id>

    constructor ()
      ensures !onRequest && pending == map[] && requestAddrs == {}
    {
      onRequest, pending, requestAddrs := false, map[], {};
    }

    /** Any of the `send_response` calls; the result is the request whose channel receives the response, if any. */
    method SendResponse(requestId: Id) returns (target: Option<Serial>)
      modifies this`pending, this`requestAddrs
      ensures requestAddrs == old(requestAddrs) - {requestId} && pending == old(pending) - {requestId}
      ensures target == if requestId in old(pending) then Some(old(pending)[requestId]) else None
    {
      requestAddrs := requestAddrs - {requestId};
      target := None;
      if requestId in pending {
        target := Some(pending[requestId]);
        pending := pending - {requestId};
      }
    }

    /** The part of `handle_request` that registers request `r`; `waits` tells whether it goes on to wait. */
    method Register(r: Serial) returns (waits: bool)
      modifies this`pending, this`requestAddrs
      ensures waits == onRequest
      ensures var id := r % 4294967296;
              && pending == (if waits then old(pending)[id := r] else old(pending) - {id})
              && requestAddrs == if waits then old(requestAddrs) + {id} else old(requestAddrs) - {id}
    {
      var requestId := r % ID_SPACE;
      requestAddrs := requestAddrs + {requestId};
      pending := pending[requestId := r];
      if !onRequest {
        requestAddrs := requestAddrs - {requestId};
        pending := pending - {requestId};
        return false;
      }
      return true;
    }

    method Close()
      modifies this
      ensures !onRequest && pending == map[] && requestAddrs == {}
    {
      onRequest := false;
      pending := map[];
      requestAddrs := {};
    }
  }

  /** Run without interleaving, the atomic steps of a registration do to the tables what the method does. */
  lemma RegisterAlone(sh: Sharding, s: State, r: Serial)
    requires r in s.phases && s.phases[r].Numbered?
    ensures var s3 := DoRequest(DoRequest(DoRequest(s, r, StoreAddr), r, StoreSender), r, ReadCallback);
            var id := r % 4294967296;
            if s.callback then
              s3.phases[r] == Waiting && s3.pending == s.pending[id := r] && s3.addrs == s.addrs + {id}
            else
              var s5 := DoRequest(DoRequest(s3, r, ForgetAddr), r, ForgetSender);
              s5.phases[r] == Failed && s5.pending == s.pending - {id} && s5.addrs == s.addrs - {id}
  {
    var s1 := DoRequest(s, r, StoreAddr);
    var s2 := DoRequest(s1, r, StoreSender);
    assert s2.pending == s.pending[IdOf(r) := r];
  }

  /** So do those of an answer, and the request found gets the reply. */
  lemma AnswerAlone(sh: Sharding, s: State, id: Id, reply: Reply)
    requires s.answering.Silent?
    ensures var s2 := Do(sh, Do(sh, s, AnswerBegin(id, reply)), AnswerTake);
            var s' := if id in s.pending then Do(sh, s2, AnswerSend) else s2;
            && s'.pending == s.pending - {id} && s'.addrs == s.addrs - {id} && s'.phases == s.phases && s'.answering.Silent?
            && s'.chans == if id in s.pending then s.chans[s.pending[id] := Sent(reply)] else s.chans
  {
    assert id !in s.pending ==> s.pending - {id} == s.pending;
  }

  /** And those of a close, shard by shard: every request whose sender is in the table is cancelled. */
  lemma CloseAlone(sh: Sharding, s: State, k: nat)
    requires k !in s.closers && forall id :: sh(id) < SHARDS
    ensures exists trace: seq<Action> :: (forall a: Action :: a in trace ==> a == CloseStep(k)) && Possible(sh, s, [CloseBegin(k)] + trace) &&
              var s' := After(sh, s, [CloseBegin(k)] + trace);
              !s'.callback && s'.pending == map[] && s'.addrs == {} && k in s'.closers && s'.closers[k].stage.Closed? && Cancelled(s, s')
  {
    var s1 := Do(sh, s, CloseBegin(k));
    var trace := ClearAlone(sh, s1, k, 0);
    assert ([CloseBegin(k)] + trace)[1..] == trace;
  }

  /** Every request with a sender in the table has its channel dropped, unless that was settled; no other channel changes. */
  ghost predicate Cancelled(s: State, s': State) {
    s'.chans.Keys == s.chans.Keys && forall r :: r in s.chans ==>
      s'.chans[r] == if s.chans[r].Unsent? && IdOf(r) in s.pending && s.pending[IdOf(r)] == r then Dropped else s.chans[r]
  }

  /** The stage after `n` shards of the two maps. */
  function StageAt(n: nat): Stage {
    if n < SHARDS then ClearingPending(n) else if n < 2 * SHARDS then ClearingAddrs(n - SHARDS) else Closed
  }

  /** The clearing that a close has left to do after `n` shards of the two maps. */
  lemma {:induction false} ClearAlone(sh: Sharding, s: State, k: nat, n: nat) returns (trace: seq<Action>)
    requires forall id :: sh(id) < SHARDS
    requires n <= 2 * SHARDS && k in s.closers && s.closers[k].stage == StageAt(n)
    requires forall id :: id in s.pending ==> n <= sh(id)
    requires forall id :: id in s.addrs ==> n - SHARDS <= sh(id)
    ensures forall a: Action :: a in trace ==> a == CloseStep(k)
    ensures Possible(sh, s, trace)
    ensures var s' := After(sh, s, trace);
            && s'.callback == s.callback && s'.pending == map[] && s'.addrs == {}
            && k in s'.closers && s'.closers[k].stage.Closed? && Cancelled(s, s')
    decreases 2 * SHARDS - n
  {
    if n == 2 * SHARDS {
      assert s.pending == map[] && s.addrs == {};
      trace := [];
    } else {
      var s1 := Do(sh, s, CloseStep(k));
      assert s1.closers[k].stage == StageAt(n + 1);
      var rest := ClearAlone(sh, s1, k, n + 1);
      trace := [CloseStep(k)] + rest;
      assert trace[1..] == rest;
    }
  }
}
