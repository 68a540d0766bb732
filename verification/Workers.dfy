/**
 The worker loops in the shape the benchmarks have them, with everybody else allowed to act
 between any two calls.  Each call is one turn of the transition system, so all that is
 proved about runs holds wherever a worker stands and whenever it returns.
 */
module Workers {
  import opened Machine
  import opened Protocol
  import opened Invariant
  import opened Progress
  import opened Safety

  datatype CqIndex = SendCqIndex | RecvCqIndex

  /** How one pass through a worker's loop body ended. */
  datatype End = Finished | Returned | StillPolling

  // ---------------------------------------------------------------- interleavings

  /** The state after the turns of `log` came up in this order. */
  function Replay(cfg: Config, log: seq<Step>): State
    decreases |log|, 1
  {
    if log == [] then Init(cfg) else LastTurn(cfg, log)
  }

  // a turn that was not enabled when it came up is lost
  function LastTurn(cfg: Config, log: seq<Step>): State
    requires log != []
    decreases |log|, 0
  {
    var s, step := Replay(cfg, log[..|log| - 1]), log[|log| - 1];
    if Enabled(cfg, s, step) then Apply(cfg, s, step) else s
  }

  /** The turns of `log` that were not `me`'s. */
  function Others(me: Step, log: seq<Step>): (others: seq<Step>)
    ensures |others| <= |log|
    decreases |log|
  {
    if log == [] then []
    else Others(me, log[..|log| - 1]) + if log[|log| - 1] == me then [] else [log[|log| - 1]]
  }

  lemma LogGrows(cfg: Config, me: Step, log: seq<Step>, step: Step)
    ensures var s := Replay(cfg, log);
      Replay(cfg, log + [step]) == if Enabled(cfg, s, step) then Apply(cfg, s, step) else s
    ensures Others(me, log + [step]) == Others(me, log) + if step == me then [] else [step]
  {
    assert (log + [step])[..|log|] == log;
  }

  lemma StepReaches(cfg: Config, s: State, step: Step)
    requires Reachable(cfg, s) && Enabled(cfg, s, step)
    ensures Reachable(cfg, Apply(cfg, s, step))
  {
    var trace :| Run(cfg, trace) == Reached(s);
    RunExtends(cfg, trace, step);
  }

  // where the worker stands, and what it has counted
  predicate SameClient(s: State, t: State) {
    t.client.pc == s.client.pc && t.client.ops == s.client.ops
  }

  predicate SameServer(s: State, t: State) {
    && t.server.pc == s.server.pc && t.server.received == s.server.received
    && t.server.persists == s.server.persists && t.server.sent == s.server.sent
  }

  predicate SameWorker(me: Step, s: State, t: State) {
    (me.ClientStep? ==> SameClient(s, t)) && (me.ServerStep? ==> SameServer(s, t))
  }

  lemma OthersLeaveMe(cfg: Config, s: State, me: Step, step: Step)
    requires Enabled(cfg, s, step) && step != me
    ensures SameWorker(me, s, Apply(cfg, s, step))
  {}

  // ---------------------------------------------------------------- what a poll takes

  /** What a client that polled this queue with success finds of its queues. */
  predicate Emptied(index: CqIndex, s: State) {
    match index
    case SendCqIndex => s.client.ep.sq == [] && s.client.ep.sendCq == []
    case RecvCqIndex => s.client.ep.rq == [] && s.client.ep.recvCq == [] && s.server.persists == s.client.ops + 1
  }

  lemma PollEmpties(cfg: Config, s: State)
    requires cfg.connected && Reachable(cfg, s) && !ClientWaits(s.client)
    ensures s.client.pc.PollWrite? || s.client.pc.PollTrigger? ==> Emptied(SendCqIndex, ClientAct(cfg, s))
    ensures s.client.pc.PollNotification? ==> Emptied(RecvCqIndex, ClientAct(cfg, s))
  {
    if s.client.pc.PollWrite? || s.client.pc.PollTrigger? {
      PollTakesItsOwnCompletion(cfg, s);
    } else if s.client.pc.PollNotification? {
      PollTakesItsOwnMessage(cfg, s);
    }
  }

  lemma EmptyPoll(cfg: Config, s: State)
    requires cfg.connected
    ensures ClientWaits(s.client) ==> ClientAct(cfg, s) == s
    ensures ServerWaits(s.server) ==> ServerAct(cfg, s) == s
  {}

  /** Between two operations the slot holds exactly what was counted, durably where the
      options flush. */
  predicate Settled(cfg: Config, s: State) {
    cfg.connected ==> s.vol == Filled(cfg.size, s.client.ops) && (Flushes(cfg) ==> s.per == s.vol)
  }

  lemma LoopHeadIsSettled(cfg: Config, s: State)
    requires Reachable(cfg, s) && s.client.pc.LoopHead?
    ensures Settled(cfg, s)
  {
    if cfg.connected {
      var trace :| Run(cfg, trace) == Reached(s);
      RunKeeps(cfg, trace);
      NothingOpen(cfg, s);
      if Flushes(cfg) { CrashImage(cfg, s); }
    }
  }

  lemma NothingOpen(cfg: Config, s: State)
    requires Inv(cfg, s) && s.client.pc.LoopHead?
    ensures s.client.issued == s.client.ops && s.vol == Filled(cfg.size, s.client.ops)
  {
    Counts(cfg, s);
    assert !WriteInFlight(cfg, s.client);
  }

  /** What the server has served is persisted and, once its worker polls again, answered. */
  ghost predicate Answered(cfg: Config, s: State) {
    && s.server.persists == s.server.received
    && s.server.sent == s.server.received + 1
    && (s.server.pc.PollRecv? ==> s.server.ep.sq == [] && s.server.ep.sendCq == [])
    && (cfg.usePmem ==> forall b :: 0 <= b < |s.per| ==> s.server.received <= s.per[b])
  }

  lemma ServedIsAnswered(cfg: Config, s: State)
    requires cfg.connected && !cfg.kind.Wr? && Reachable(cfg, s) && (s.server.pc.PollRecv? || s.server.pc.PollNotify?)
    ensures Answered(cfg, s)
  {
    var trace :| Run(cfg, trace) == Reached(s);
    RunKeeps(cfg, trace);
  }

  /** A server and one client, as they are at this moment, and one of their two workers. */
  class Testbed {
    const cfg: Config
    const me: Step
    var s: State

    /** All turns so far, those offered to the others, and how many were the worker's own. */
    ghost var log: seq<Step>
    ghost var offered: seq<Step>
    ghost var own: nat

    ghost predicate Valid()
      reads this
    {
      && (me.ClientStep? || me.ServerStep?)
      && Reachable(cfg, s) && s.fault == NoFault && !s.server.pc.Dead?
      && s == Replay(cfg, log) && offered == Others(me, log) && own + |offered| == |log|
    }

    /** Since `before` was offered, the turns of `wanted` were, in their order, except `rest`. */
    ghost predicate Interleaved(before: seq<Step>, wanted: seq<Step>, rest: seq<Step>)
      reads this
    {
      offered + rest == before + wanted && me !in rest
    }

    constructor (cfg: Config, me: Step)
      requires me.ClientStep? || me.ServerStep?
      ensures Valid() && this.cfg == cfg && this.me == me && s == Init(cfg) && own == 0
    {
      this.cfg, this.me := cfg, me;
      s, log, offered, own := Init(cfg), [], [], 0;
      new;
      assert Run(cfg, []) == Reached(s);
    }

    /** One turn of the worker. */
    method Turn()
      requires Valid() && Enabled(cfg, s, me)
      modifies this
      ensures Valid() && s == Apply(cfg, old(s), me)
      ensures offered == old(offered) && own == old(own) + 1
    {
      StepReaches(cfg, s, me);
      LogGrows(cfg, me, log, me);
      s, log, own := Apply(cfg, s, me), log + [me], own + 1;
      QueuesNeverOverflow(cfg, s);
    }

    /** A turn of somebody else comes up. */
    method Offer(step: Step)
      requires Valid() && step != me
      modifies this
      ensures Valid() && SameWorker(me, old(s), s)
      ensures s == if Enabled(cfg, old(s), step) then Apply(cfg, old(s), step) else old(s)
      ensures offered == old(offered) + [step] && own == old(own)
    {
      LogGrows(cfg, me, log, step);
      log, offered := log + [step], offered + [step];
      if Enabled(cfg, s, step) {
        StepReaches(cfg, s, step);
        OthersLeaveMe(cfg, s, me, step);
        s := Apply(cfg, s, step);
        QueuesNeverOverflow(cfg, s);
      }
    }

    /** Some of the turns the others want come up, in their order, at least one if there is any. */
    method Interfere(wanted: seq<Step>) returns (rest: seq<Step>)
      requires Valid() && me !in wanted
      modifies this
      ensures Valid() && SameWorker(me, old(s), s) && own == old(own)
      ensures Interleaved(old(offered), wanted, rest)
      ensures if wanted == [] then rest == [] && s == old(s) else |rest| < |wanted|
    {
      var n: nat :| n <= |wanted| && (wanted != [] ==> n > 0);
      for i := 0 to n
        invariant Valid() && SameWorker(me, old(s), s) && own == old(own)
        invariant offered == old(offered) + wanted[..i]
        invariant i == 0 ==> s == old(s)
      {
        Offer(wanted[i]);
      }
      rest := wanted[n..];
      assert wanted == wanted[..n] + rest;
    }

    // ---------------------------------------------------------------- the client worker

    /** post_send_write, post_send_write_with_imm, post_send_flush, post_send_read: the request
        joins the send queue, except on an unconnected node, or there is no room for it. */
    method PostSend(op: Opcode) returns (ret: int)
      requires Valid() && me.ClientStep?
      requires (op.Write? && s.client.pc.PostWrite?) || (op == cfg.Trigger() && s.client.pc.PostTrigger?)
      modifies this
      ensures Valid() && s.client.ops == old(s.client.ops) && offered == old(offered)
      ensures ret != 0 <==> cfg.connected && |old(s.client.ep.sq)| >= cfg.MaxSendWr()
      ensures s.client.pc == if ret == 0 then ClientAfter(cfg, old(s.client.pc)) else Failed
      ensures s.client.ep.sq == old(s.client.ep.sq) +
                if ret == 0 && cfg.connected then [Slot(Request(op, s.client.issued, cfg.Signaled(op)), Posted)] else []
    {
      Turn();
      ret := if s.client.pc.Failed? then ENOMEM else 0;
    }

    method PostRecvNotification() returns (ret: int)
      requires Valid() && me.ClientStep? && s.client.pc.PostRecv?
      modifies this
      ensures Valid() && s.client.ops == old(s.client.ops) && offered == old(offered)
      ensures ret != 0 <==> |old(s.client.ep.rq)| >= MAX_RECV_WR
      ensures s.client.pc == if ret == 0 then PostTrigger else Failed
      ensures s.client.ep.rq == old(s.client.ep.rq) + if ret == 0 then [NotificationBuffer] else []
    {
      Turn();
      ret := if s.client.pc.Failed? then ENOMEM else 0;
    }

    // the worker is about to poll this queue
    predicate Polls(index: CqIndex)
      reads this
    {
      match index
      case SendCqIndex => s.client.pc.PollWrite? || s.client.pc.PollTrigger?
      case RecvCqIndex => s.client.pc.PollNotification?
    }

    /** Everybody else has had every turn they wanted, and the completion is still missing. */
    ghost predicate ClientStuck(rest: seq<Step>)
      reads this
    {
      rest == [] && cfg.connected && ClientWaits(s.client) && !s.client.pc.AwaitMetadata?
    }

    // one ibv_poll_cq of the loop in node_poll_n_cq
    method PollClientCq(index: CqIndex) returns (taken: bool)
      requires Valid() && me.ClientStep? && Polls(index)
      modifies this
      ensures Valid() && s.client.ops == old(s.client.ops) && offered == old(offered)
      ensures taken <==> !cfg.connected || !ClientWaits(old(s).client)
      ensures if taken then s.client.pc == ClientAfter(cfg, old(s.client.pc)) else s == old(s)
      ensures taken && cfg.connected ==> Emptied(index, s)
    {
      taken := !cfg.connected || !ClientWaits(s.client);
      if cfg.connected {
        EmptyPoll(cfg, s);
        if taken { PollEmpties(cfg, s); }
      }
      Turn();
    }

    /** node_poll_n_cq(node, index, 1): it ends with the completion taken, or everybody else
        has had their turns and it is still missing. */
    method NodePollNCq(index: CqIndex, wanted: seq<Step>) returns (rest: seq<Step>, done: bool)
      requires Valid() && me.ClientStep? && Polls(index) && me !in wanted
      modifies this
      ensures Valid() && s.client.ops == old(s.client.ops) && Interleaved(old(offered), wanted, rest)
      ensures s.client.pc == if done then ClientAfter(cfg, old(s.client.pc)) else old(s.client.pc)
      ensures if done then cfg.connected ==> Emptied(index, s) else ClientStuck(rest)
      ensures !cfg.connected ==> rest == wanted
    {
      rest := wanted;
      done := PollClientCq(index);
      while !done && rest != []
        invariant Valid() && s.client.ops == old(s.client.ops) && Interleaved(old(offered), wanted, rest)
        invariant s.client.pc == if done then ClientAfter(cfg, old(s.client.pc)) else old(s.client.pc)
        invariant if done then cfg.connected ==> Emptied(index, s) else cfg.connected && ClientWaits(s.client)
        invariant !cfg.connected ==> rest == wanted
        decreases |rest|
      {
        rest := Interfere(rest);
        done := PollClientCq(index);
      }
    }

    /** What may be said of a worker that has returned or was observed for some rounds. */
    ghost predicate WorkerOutcome(returned: bool)
      reads this
    {
      && Valid()
      && (returned ==> s.client.pc.Left? || s.client.pc.Failed?)
      && (s.client.pc.Failed? ==> if cfg.connected then NeverRetires(cfg) else !cfg.kind.Wr?)
      && (s.client.pc.Left? && cfg.connected ==>
           Drained(cfg, s) && s.vol == Filled(cfg.size, s.client.ops) && (Flushes(cfg) ==> s.per == s.vol))
    }

    lemma OutcomeHolds(returned: bool)
      requires Valid() && (returned ==> s.client.pc.Left? || s.client.pc.Failed?)
      ensures WorkerOutcome(returned)
    {
      assert Reachable(cfg, s);
      WorkerFailsIff(cfg);
      if s.client.pc.Left? && cfg.connected { QuiescentAtStop(cfg, s); }
    }

    // the test of `while (!stop)`
    method LoopTest() returns (leave: bool)
      requires Valid() && me.ClientStep? && s.client.pc.LoopHead?
      modifies this
      ensures Valid() && leave == s.stop == old(s.stop)
      ensures s.client.pc == if leave then Left else ClientAfter(cfg, LoopHead)
      ensures s.client.ops == old(s.client.ops) && offered == old(offered)
    {
      Turn();
      leave := s.stop;
    }

    // node->stats->ops++
    method CountOp()
      requires Valid() && me.ClientStep? && s.client.pc.Count?
      modifies this
      ensures Valid() && s.client.pc.LoopHead? && s.client.ops == old(s.client.ops) + 1
      ensures offered == old(offered) && Settled(cfg, s)
    {
      Turn();
      LoopHeadIsSettled(cfg, s);
    }

    /** Where a pass through the loop body may stop short of counting. */
    ghost predicate Stopped(e: End, rest: seq<Step>)
      reads this
    {
      && (e.Returned? ==> (s.client.pc.Left? && s.stop) || s.client.pc.Failed?)
      && (e.StillPolling? ==> ClientStuck(rest))
    }

    /** Ends of one pass through the loop body. */
    ghost predicate After(e: End, rest: seq<Step>, ops: nat)
      reads this
    {
      && Valid()
      && Stopped(e, rest)
      && (if e.Finished? then s.client.pc.LoopHead? && s.client.ops == ops + 1 && Settled(cfg, s) else s.client.ops == ops)
    }

    /** The first half of the loop body of Ws and Wr: the WRITE, and the wait for it. */
    method WritePhase(wanted: seq<Step>) returns (rest: seq<Step>, end: End)
      requires Valid() && me.ClientStep? && !cfg.kind.Wi? && s.client.pc.LoopHead? && me !in wanted
      modifies this
      ensures Valid() && s.client.ops == old(s.client.ops) && Interleaved(old(offered), wanted, rest)
      ensures Stopped(end, rest)
      ensures end.Finished? ==> s.client.pc == if cfg.kind.Ws? then PostRecv else PostTrigger
    {
      rest := Interfere(wanted);
      end := Finished;
      var leave := LoopTest();
      if leave { return rest, Returned; }
      var ret := PostSend(Write);
      if ret != 0 { return rest, Returned; }
      rest := Interfere(rest);
      if !cfg.noAck {
        var done;
        rest, done := NodePollNCq(SendCqIndex, rest);
        if !done { return rest, StillPolling; }
      }
    }

    /** The receive for the notification of Ws and Wi. */
    method ReceivePhase(wanted: seq<Step>) returns (rest: seq<Step>, end: End)
      requires Valid() && me.ClientStep? && s.client.pc.PostRecv? && me !in wanted
      modifies this
      ensures Valid() && s.client.ops == old(s.client.ops) && Interleaved(old(offered), wanted, rest)
      ensures Stopped(end, rest) && (end.Finished? ==> s.client.pc.PostTrigger?)
    {
      rest, end := wanted, Finished;
      var ret := PostRecvNotification();
      if ret != 0 { return rest, Returned; }
      rest := Interfere(rest);
    }

    /** The request that ends an operation, and the wait for it unless Wi was built with NO_ACK. */
    method TriggerPhase(op: Opcode, wanted: seq<Step>) returns (rest: seq<Step>, end: End)
      requires Valid() && me.ClientStep? && s.client.pc.PostTrigger? && op == cfg.Trigger() && me !in wanted
      modifies this
      ensures Valid() && s.client.ops == old(s.client.ops) && Interleaved(old(offered), wanted, rest)
      ensures Stopped(end, rest)
      ensures end.Finished? ==> s.client.pc == if cfg.kind.Wr? then Count else PollNotification
    {
      rest, end := wanted, Finished;
      var ret := PostSend(op);
      if ret != 0 { return rest, Returned; }
      rest := Interfere(rest);
      if !op.WriteWithImm? || !cfg.noAck {
        var done;
        rest, done := NodePollNCq(SendCqIndex, rest);
        if !done { return rest, StillPolling; }
      }
    }

    /** The wait for the notification, which ends an operation of Ws and Wi. */
    method NotificationPhase(wanted: seq<Step>) returns (rest: seq<Step>, end: End)
      requires Valid() && me.ClientStep? && s.client.pc.PollNotification? && me !in wanted
      modifies this
      ensures After(end, rest, old(s.client.ops)) && Interleaved(old(offered), wanted, rest)
    {
      var done;
      rest, done := NodePollNCq(RecvCqIndex, wanted);
      if !done { return rest, StillPolling; }
      CountOp();
      end := Finished;
    }

    method WsOperation(wanted: seq<Step>) returns (rest: seq<Step>, end: End)
      requires Valid() && me.ClientStep? && cfg.kind.Ws? && s.client.pc.LoopHead? && me !in wanted
      modifies this
      ensures After(end, rest, old(s.client.ops)) && Interleaved(old(offered), wanted, rest)
    {
      rest, end := WritePhase(wanted);
      if !end.Finished? { return; }
      rest, end := ReceivePhase(rest);
      if !end.Finished? { return; }
      rest, end := TriggerPhase(Flush, rest);
      if !end.Finished? { return; }
      rest, end := NotificationPhase(rest);
    }

    method WiOperation(wanted: seq<Step>) returns (rest: seq<Step>, end: End)
      requires Valid() && me.ClientStep? && cfg.kind.Wi? && s.client.pc.LoopHead? && me !in wanted
      modifies this
      ensures After(end, rest, old(s.client.ops)) && Interleaved(old(offered), wanted, rest)
    {
      rest := Interfere(wanted);
      var leave := LoopTest();
      if leave { return rest, Returned; }
      rest, end := ReceivePhase(rest);
      if !end.Finished? { return; }
      rest, end := TriggerPhase(WriteWithImm, rest);
      if !end.Finished? { return; }
      rest, end := NotificationPhase(rest);
    }

    method WrOperation(wanted: seq<Step>) returns (rest: seq<Step>, end: End)
      requires Valid() && me.ClientStep? && cfg.kind.Wr? && s.client.pc.LoopHead? && me !in wanted
      modifies this
      ensures After(end, rest, old(s.client.ops)) && Interleaved(old(offered), wanted, rest)
    {
      rest, end := WritePhase(wanted);
      if !end.Finished? { return; }
      rest, end := TriggerPhase(Read, rest);
      if !end.Finished? { return; }
      CountOp();
    }

    /** `worker`, observed for `rounds` operations, whatever the others want to do meanwhile:
        it counted that many, or returned, or waits although they had all their turns. */
    method Worker(rounds: nat, wanted: seq<Step>) returns (rest: seq<Step>, returned: bool, counted: nat)
      requires Valid() && me.ClientStep? && s.client.pc.LoopHead? && me !in wanted
      modifies this
      ensures WorkerOutcome(returned) && Interleaved(old(offered), wanted, rest)
      ensures counted <= rounds && s.client.ops == old(s.client.ops) + counted
      ensures !returned ==> (counted == rounds && s.client.pc.LoopHead? && Settled(cfg, s)) || ClientStuck(rest)
    {
      var end;
      rest, end, counted := wanted, Finished, 0;
      LoopHeadIsSettled(cfg, s);
      while counted < rounds && end.Finished?
        invariant Valid() && counted <= rounds && s.client.ops == old(s.client.ops) + counted
        invariant Interleaved(old(offered), wanted, rest) && Stopped(end, rest)
        invariant end.Finished? ==> s.client.pc.LoopHead? && Settled(cfg, s)
        decreases rounds - counted, end.Finished?
      {
        match cfg.kind {
          case Ws => rest, end := WsOperation(rest);
          case Wi => rest, end := WiOperation(rest);
          case Wr => rest, end := WrOperation(rest);
        }
        if end.Finished? {
          counted := counted + 1;
        }
      }
      returned := end.Returned?;
      OutcomeHolds(returned);
    }

    // ---------------------------------------------------------------- the server worker

    // post_recv_flush, post_recv_imm
    method PostRecvTrigger()
      requires Valid() && me.ServerStep? && s.server.pc.Repost?
      modifies this
      ensures Valid() && s.server == old(s.server).(pc := s.server.pc, ep := s.server.ep)
      ensures s.server.pc == ServerAfter(cfg, Repost)
      ensures s.server.ep.rq == old(s.server.ep.rq) + [if cfg.kind.Ws? then FlushBuffer else EmptyBuffer]
      ensures offered == old(offered) && own == old(own) + 1
    {
      Turn();
    }

    // if (use_pmem) pmem_persist(node->mem, message_size)
    method PersistSlot()
      requires Valid() && me.ServerStep? && s.server.pc.Persist?
      modifies this
      ensures Valid()
      ensures s.server == old(s.server).(pc := ServerAfter(cfg, Persist), persists := old(s.server.persists) + 1)
      ensures s.vol == old(s.vol) && s.per == if cfg.usePmem then s.vol else old(s.per)
      ensures offered == old(offered) && own == old(own) + 1
    {
      Turn();
    }

    method PostSendNotification()
      requires Valid() && me.ServerStep? && s.server.pc.Notify?
      modifies this
      ensures Valid() && s.server.pc.PollNotify?
      ensures s.server.persists == old(s.server.persists) && s.server.received == old(s.server.received)
      ensures s.server.ep.sq == old(s.server.ep.sq) +
                if cfg.connected then [Slot(Request(Notification, old(s.server.sent), cfg.Signaled(Notification)), Posted)] else []
      ensures offered == old(offered) && own == old(own) + 1
    {
      Turn();
    }

    ghost predicate ServerStuck(rest: seq<Step>)
      reads this
    {
      rest == [] && cfg.connected && ServerWaits(s.server) && s.server.pc.PollNotify?
    }

    // one ibv_poll_cq of node_poll_n_cq(node, SEND_CQ_INDEX, 1)
    method PollServerCq() returns (taken: bool)
      requires Valid() && me.ServerStep? && s.server.pc.PollNotify?
      modifies this
      ensures Valid() && s.server.persists == old(s.server.persists) && s.server.received == old(s.server.received)
      ensures taken <==> !cfg.connected || !ServerWaits(old(s).server)
      ensures if taken then s.server.pc.PollRecv? else s == old(s)
      ensures offered == old(offered) && own == old(own) + 1
    {
      taken := !cfg.connected || !ServerWaits(s.server);
      if cfg.connected { EmptyPoll(cfg, s); }
      Turn();
    }

    method ServerPollN(wanted: seq<Step>) returns (rest: seq<Step>, done: bool)
      requires Valid() && me.ServerStep? && s.server.pc.PollNotify? && me !in wanted
      modifies this
      ensures Valid() && Interleaved(old(offered), wanted, rest) && own > old(own)
      ensures s.server.persists == old(s.server.persists) && s.server.received == old(s.server.received)
      ensures if done then s.server.pc.PollRecv? else ServerStuck(rest)
    {
      rest := wanted;
      done := PollServerCq();
      while !done && rest != []
        invariant Valid() && Interleaved(old(offered), wanted, rest) && own > old(own)
        invariant s.server.persists == old(s.server.persists) && s.server.received == old(s.server.received)
        invariant if done then s.server.pc.PollRecv? else cfg.connected && ServerWaits(s.server) && s.server.pc.PollNotify?
        decreases |rest|
      {
        rest := Interfere(rest);
        done := PollServerCq();
      }
    }

    // ibv_poll_cq(node->cq[RECV_CQ_INDEX], 1, &wc) and the test of the opcode
    method PollRequest() returns (one: bool)
      requires Valid() && me.ServerStep? && !cfg.kind.Wr? && s.server.pc.PollRecv?
      modifies this
      ensures Valid() && s.server.persists == old(s.server.persists)
      ensures one <==> old(s.server.ep.recvCq) != []
      ensures s.server.received == old(s.server.received) + Bit(one)
      ensures if one then s.server.pc == ServerAfter(cfg, PollRecv) else s == old(s)
      ensures offered == old(offered) && own == old(own) + 1
    {
      one := s.server.ep.recvCq != [];
      if one { RequestsAreTriggers(cfg, s); }
      Turn();
    }

    /** From a request polled to its notification sent, in the order of Ws or of Wi. */
    method Serve(wanted: seq<Step>) returns (rest: seq<Step>)
      requires Valid() && me.ServerStep? && !cfg.kind.Wr? && s.server.pc == ServerAfter(cfg, PollRecv) && me !in wanted
      modifies this
      ensures Valid() && Interleaved(old(offered), wanted, rest) && own == old(own) + 3
      ensures s.server.pc.PollNotify? && s.server.received == old(s.server.received)
      ensures s.server.persists == old(s.server.persists) + 1
    {
      rest := Interfere(wanted);
      if cfg.kind.Ws? {
        PostRecvTrigger();
        rest := Interfere(rest);
        PersistSlot();
      } else {
        PersistSlot();
        rest := Interfere(rest);
        PostRecvTrigger();
      }
      rest := Interfere(rest);
      PostSendNotification();
    }

    /** One pass through the loop of `server_worker`: a request was served exactly if one was
        there when the pass polled; it is persisted and answered then. */
    method ServerPass(wanted: seq<Step>) returns (rest: seq<Step>, served: bool, done: bool)
      requires Valid() && me.ServerStep? && !cfg.kind.Wr? && s.server.pc.PollRecv? && me !in wanted
      modifies this
      ensures Valid() && Interleaved(old(offered), wanted, rest)
      ensures s.server.received == old(s.server.received) + Bit(served)
      ensures s.server.persists == old(s.server.persists) + Bit(served)
      ensures !served ==> done && s.server.ep.recvCq == []
      ensures if done then s.server.pc.PollRecv? else ServerStuck(rest)
      ensures own >= old(own) + 1 + 4 * Bit(served)
    {
      rest := Interfere(wanted);
      served := PollRequest();
      done := true;
      if served {
        rest := Serve(rest);
        rest, done := ServerPollN(rest);
      }
    }

    /** `server_worker`, for any number of passes: it never returns, each request it received
        was persisted once, and it stops short only when everybody else had their turns and
        its notification is still not acknowledged. */
    method ServerWorker(passes: nat, wanted: seq<Step>) returns (rest: seq<Step>, served: nat, done: bool)
      requires Valid() && me.ServerStep? && !cfg.kind.Wr? && s.server.pc.PollRecv? && me !in wanted
      modifies this
      ensures Valid() && Interleaved(old(offered), wanted, rest)
      ensures served <= passes
      ensures s.server.received == old(s.server.received) + served
      ensures s.server.persists == old(s.server.persists) + served
      ensures if done then s.server.pc.PollRecv? && own >= old(own) + passes + 4 * served else ServerStuck(rest)
      ensures cfg.connected ==> Answered(cfg, s)
    {
      var one, pass := false, 0;
      rest, served, done := wanted, 0, true;
      while pass < passes && done
        invariant Valid() && Interleaved(old(offered), wanted, rest)
        invariant served <= pass <= passes
        invariant s.server.received == old(s.server.received) + served
        invariant s.server.persists == old(s.server.persists) + served
        invariant if done then s.server.pc.PollRecv? else ServerStuck(rest)
        invariant own >= old(own) + pass + 4 * served
      {
        rest, one, done := ServerPass(rest);
        served, pass := served + Bit(one), pass + 1;
      }
      if cfg.connected { ServedIsAnswered(cfg, s); }
    }
  }

  /** A completion in the server's receive queue is that of a request, never of another message. */
  lemma RequestsAreTriggers(cfg: Config, s: State)
    requires Reachable(cfg, s) && s.server.pc.PollRecv? && s.server.ep.recvCq != []
    ensures cfg.connected && s.server.ep.recvCq == [TriggerRecvOpcode(cfg)]
  {
    if cfg.connected {
      ServerPollTakesTheRequest(cfg, s);
    } else {
      var trace :| Run(cfg, trace) == Reached(s);
      UnconnectedRun(cfg, trace);
    }
  }
}
