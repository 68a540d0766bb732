/**
 Waiting for completions through a completion channel: get an event, re-arm the queue, poll
 until enough completions are in hand, acknowledge the event.  A completion that arrives
 while the queue is not armed raises no event, so the order of these steps decides whether
 a later call can wait for ever.
 */
module CompletionEvents {

  const SUCCESS: nat := 0

  // room for the 8 sends and 8 receives that the queue pair takes
  const CQ_CAPACITY := 16

  datatype Completion = Completion(id: nat, status: nat)

  datatype Result =
    | Done(completions: seq<Completion>)
    | Failed(ret: int)
    | Blocked      // ibv_get_cq_event never returns
    | Spinning     // the polling loop never ends

  ghost predicate AllGood(cs: seq<Completion>) {
    forall i :: 0 <= i < |cs| ==> cs[i].status == SUCCESS
  }

  /** The value returned when `cs` was polled: its length, or minus its first bad status. */
  function Verdict(cs: seq<Completion>): Result {
    var bad := FirstBad(cs);
    if bad < |cs| then Failed(-(cs[bad].status as int)) else Done(cs)
  }

  /** What the value means: all completions, or minus the status of the first that failed. */
  ghost predicate Reports(cs: seq<Completion>, r: Result) {
    && (AllGood(cs) ==> r == Done(cs))
    && (forall i :: 0 <= i < |cs| && cs[i].status != SUCCESS && AllGood(cs[..i]) ==> r == Failed(-(cs[i].status as int)))
  }

  lemma VerdictReports(cs: seq<Completion>)
    ensures Reports(cs, Verdict(cs))
  {
    forall i | 0 <= i < |cs| && cs[i].status != SUCCESS && AllGood(cs[..i])
      ensures FirstBad(cs) == i
    {
      assert forall k :: 0 <= k < i ==> cs[..i][k] == cs[k];
    }
  }

  function FirstBad(cs: seq<Completion>): (i: nat)
    ensures i <= |cs| && forall k :: 0 <= k < i ==> cs[k].status == SUCCESS
    ensures i < |cs| ==> cs[i].status != SUCCESS
  {
    if cs == [] || cs[0].status != SUCCESS then 0
    else
      assert forall k :: 0 < k < |cs| ==> cs[k] == cs[1..][k - 1];
      1 + FirstBad(cs[1..])
  }

  /** A completion queue bound to a completion channel, and the work requests that will
      still complete into it. */
  class CompletionQueue {
    var queue: seq<Completion>
    var armed: bool
    var events: nat
    var unacked: nat
    var pending: seq<Completion>
    var overrun: bool

    /** No completion was lost, nor can one be: there is room for all that will arrive. */
    ghost predicate Fits()
      reads this
    {
      !overrun && |queue| + |pending| <= CQ_CAPACITY
    }

    /** Between calls the queue is either armed or has raised an event that nobody took. */
    ghost predicate Balanced()
      reads this
    {
      Fits() && (if armed then 1 else 0) + events == 1
    }

    /** Everything that has arrived or will arrive, in order. */
    ghost function Stream(): seq<Completion>
      reads this
    {
      queue + pending
    }

    constructor ()
      ensures Balanced() && armed && queue == [] && pending == [] && unacked == 0
    {
      queue, armed, events, unacked, pending, overrun := [], false, 0, 0, [], false;
      new;
      ReqNotify();
    }

    // ibv_req_notify_cq
    method ReqNotify()
      modifies this`armed
      ensures armed
    {
      armed := true;
    }

    /** A posted request, or the peer's message, will complete. */
    method Expect(c: Completion)
      modifies this`pending
      ensures pending == old(pending) + [c]
    {
      pending := pending + [c];
    }

    /** The adapter writes the next completion; into a full queue it cannot, and the completion
        is lost. */
    method Arrive()
      requires pending != []
      modifies this`queue, this`pending, this`armed, this`events, this`overrun
      ensures pending == old(pending)[1..]
      ensures if old(|queue|) < CQ_CAPACITY
              then
                && queue == old(queue) + [old(pending)[0]] && overrun == old(overrun)
                && !armed && events == old(events) + (if old(armed) then 1 else 0)
                && Stream() == old(Stream())
              else queue == old(queue) && overrun
    {
      if |queue| < CQ_CAPACITY {
        queue := queue + [pending[0]];
        if armed {
          armed, events := false, events + 1;
        }
      } else {
        overrun := true;
      }
      pending := pending[1..];
    }

    /** Any number of completions may arrive between two statements of the program. */
    method Interlude()
      requires Fits()
      modifies this`queue, this`pending, this`armed, this`events, this`overrun
      ensures Fits() && Stream() == old(Stream()) && |pending| <= |old(pending)|
      ensures old(pending) == [] ==> pending == [] && armed == old(armed)
      ensures (if armed then 1 else 0) + events == old((if armed then 1 else 0) + events) && events >= old(events)
      ensures old(armed) && events == old(events) ==> queue == old(queue) && pending == old(pending)
    {
      var n: nat :| n <= |pending|;
      for i := 0 to n
        invariant Fits() && Stream() == old(Stream()) && |queue| == |old(queue)| + i && |pending| + i == |old(pending)|
        invariant (if armed then 1 else 0) + events == old((if armed then 1 else 0) + events) && events >= old(events)
        invariant old(armed) && events == old(events) ==> i == 0
        invariant i == 0 ==> queue == old(queue) && pending == old(pending) && armed == old(armed)
      {
        Arrive();
      }
    }

    /** ibv_get_cq_event: returns once there is an event; false if there never will be. */
    method GetCqEvent() returns (got: bool)
      requires Fits()
      modifies this`queue, this`pending, this`armed, this`events, this`unacked, this`overrun
      ensures Fits()
      ensures got <==> old(events > 0 || (armed && pending != []))
      ensures Stream() == old(Stream())
      ensures got ==> unacked == old(unacked) + 1
      ensures |pending| <= |old(pending)|
      ensures got && old(Balanced()) ==> !armed && events == 0
      ensures !got && old(Balanced()) ==> Balanced() && queue == old(queue) && pending == old(pending) && unacked == old(unacked)
    {
      while events == 0 && pending != []
        invariant Fits() && Stream() == old(Stream()) && unacked == old(unacked) && |pending| <= |old(pending)|
        invariant old(events > 0) ==> events == old(events) && armed == old(armed)
        invariant old(events == 0) ==>
                    || (events == 0 && armed == old(armed) && queue == old(queue) && pending == old(pending))
                    || (events == 1 && !armed && old(armed) && old(pending) != [])
                    || (events == 0 && !armed && !old(armed))
        decreases |pending|
      {
        Arrive();
      }
      got := events > 0;
      if got {
        events, unacked := events - 1, unacked + 1;
      }
    }

    // ibv_poll_cq
    method PollCq(n: nat) returns (part: seq<Completion>)
      modifies this`queue
      ensures part + Stream() == old(Stream())
      ensures |part| == if n < |old(queue)| then n else |old(queue)|
      ensures old(Fits()) ==> Fits()
    {
      var k := if n < |queue| then n else |queue|;
      part, queue := queue[..k], queue[k..];
    }

    /** The polling loop: takes the next `maxWc` completions, or finds that they never come. */
    method Poll(maxWc: nat) returns (wc: seq<Completion>, ended: bool)
      requires Balanced()
      modifies this`queue, this`pending, this`armed, this`events, this`overrun
      ensures Balanced() && wc + Stream() == old(Stream())
      ensures ended <==> maxWc <= |old(Stream())|
      ensures ended ==> |wc| == maxWc
      ensures old(pending) == [] ==> pending == [] && armed == old(armed)
    {
      wc := [];
      while |wc| < maxWc
        invariant |wc| <= maxWc && Balanced() && wc + Stream() == old(Stream())
        invariant old(pending) == [] ==> pending == [] && armed == old(armed)
        decreases maxWc - |wc|
      {
        Interlude();
        if queue == [] && pending == [] {
          assert |old(Stream())| == |wc|;
          return wc, false;
        }
        if queue == [] {
          Arrive();
        }
        ghost var before := wc;
        var part := PollCq(maxWc - |wc|);
        wc := wc + part;
        assert wc + Stream() == before + (part + Stream());
      }
      assert |wc| <= |wc + Stream()|;
      ended := true;
    }

    /** process_work_completion_events.  Its contract says exactly when it never returns,
        which completions it takes otherwise, and that it leaves the channel balanced, so
        that no later call can miss a completion that arrived meanwhile. */
    method ProcessWorkCompletionEvents(maxWc: nat) returns (r: Result)
      requires Balanced()
      modifies this
      ensures r.Blocked? <==> old(events == 0 && pending == [])
      ensures r.Spinning? <==> !r.Blocked? && |old(Stream())| < maxWc
      ensures !r.Blocked? && !r.Spinning? ==>
                && maxWc <= |old(Stream())|
                && r == Verdict(old(Stream())[..maxWc]) && Reports(old(Stream())[..maxWc], r)
                && Stream() == old(Stream())[maxWc..]
      ensures Balanced()
      ensures old(pending) == [] ==> pending == [] && (!r.Blocked? ==> armed)
      ensures r.Blocked? ==> queue == old(queue)
      ensures unacked == old(unacked) + if r.Spinning? || r.Failed? then 1 else 0
    {
      var got := GetCqEvent();
      if !got {
        return Blocked;
      }
      Interlude();
      ReqNotify();
      var wc, ended := Poll(maxWc);
      if !ended {
        return Spinning;
      }
      assert wc == (wc + Stream())[..maxWc] && Stream() == (wc + Stream())[maxWc..];
      r := CheckStatus(wc);
      if r.Done? {
        unacked := unacked - 1;
      }
    }

    /** The requests of one step of a program: they are posted, and will complete with `batch`. */
    method ExpectAll(batch: seq<Completion>)
      modifies this`pending
      ensures pending == old(pending) + batch
    {
      for i := 0 to |batch|
        invariant pending == old(pending) + batch[..i]
      {
        Expect(batch[i]);
      }
      assert batch[..|batch|] == batch;
    }

    /** One such step, followed by a call that asks for just these completions: whenever they
        arrive and whatever event an earlier call left behind, it gets them. */
    method AskOnce(batch: seq<Completion>) returns (r: Result)
      requires Balanced() && Stream() == [] && 0 < |batch| <= CQ_CAPACITY
      modifies this
      ensures Balanced() && Stream() == []
      ensures r == Verdict(batch)
    {
      ExpectAll(batch);
      assert Stream() == batch;
      Interlude();
      assert batch[..|batch|] == batch && batch[|batch|..] == [];
      r := ProcessWorkCompletionEvents(|batch|);
    }

    /** A program that always asks for exactly what is outstanding: no call ever waits or spins
        for ever, each takes just the completions of its own step, and between the calls the
        queue is empty and balanced. */
    method AskForWhatIsOutstanding(batches: seq<seq<Completion>>) returns (rs: seq<Result>)
      requires Balanced() && Stream() == []
      requires forall i :: 0 <= i < |batches| ==> 0 < |batches[i]| <= CQ_CAPACITY
      modifies this
      ensures Balanced() && Stream() == []
      ensures |rs| == |batches| && forall i :: 0 <= i < |rs| ==> rs[i] == Verdict(batches[i])
      ensures forall i :: 0 <= i < |rs| ==> !rs[i].Blocked? && !rs[i].Spinning?
    {
      rs := [];
      for i := 0 to |batches|
        invariant Balanced() && Stream() == []
        invariant |rs| == i && forall k :: 0 <= k < i ==> rs[k] == Verdict(batches[k])
      {
        var r := AskOnce(batches[i]);
        rs := rs + [r];
      }
    }

    /** The bound is exact: when everything outstanding arrives before anything is polled, a
        completion is lost if and only if more requests were posted than the queue has room for. */
    method Flood(batch: seq<Completion>)
      requires Balanced() && Stream() == []
      modifies this
      ensures overrun <==> |batch| > 16
      ensures queue == batch[..if |batch| > 16 then 16 else |batch|] && pending == []
    {
      ExpectAll(batch);
      for i := 0 to |batch|
        invariant pending == batch[i..]
        invariant queue == batch[..if i > CQ_CAPACITY then CQ_CAPACITY else i]
        invariant overrun <==> i > CQ_CAPACITY
      {
        Arrive();
      }
    }
  }

  method CheckStatus(wc: seq<Completion>) returns (r: Result)
    ensures r == Verdict(wc) && Reports(wc, r)
    ensures r.Done? <==> AllGood(wc)
    ensures r.Done? || r.Failed?
  {
    VerdictReports(wc);
    for i := 0 to |wc|
      invariant forall k :: 0 <= k < i ==> wc[k].status == SUCCESS
    {
      if wc[i].status != SUCCESS {
        return Failed(-(wc[i].status as int));
      }
    }
    r := Done(wc);
  }

  /** The other side of the contract: a caller that takes fewer completions than have arrived
      is blocked by its next call although a completion is waiting for it. */
  method TakingTooFewBlocks(first: Completion, second: Completion) returns (q: CompletionQueue, r: Result)
    ensures r.Blocked? && q.queue == [second]
  {
    q := new CompletionQueue();
    q.Expect(first);
    q.Expect(second);
    q.Arrive();
    q.Arrive();
    r := q.ProcessWorkCompletionEvents(1);
    r := q.ProcessWorkCompletionEvents(1);
  }
}
