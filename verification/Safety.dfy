/**
 What holds in every reachable state of the three protocols, and exactly which builds and
 command lines make what the client counted survive a crash.
 */
module Safety {
  import opened Machine
  import opened Protocol
  import opened Invariant
  import opened Progress

  // ---------------------------------------------------------------- unconnected nodes

  /** A node that was never established: the posts return 0 without posting, but the receive
      posted before rdma_connect is still there. */
  ghost predicate UnconnectedInv(cfg: Config, s: State) {
    && s.fault == NoFault && !s.server.pc.Dead?
    && s.client.ep == Init(cfg).client.ep
    && s.server.ep == Init(cfg).server.ep
    && s.vol == Filled(cfg.size, 0)
    && s.per == Filled(cfg.size, 0)
    && (s.server.pc.SendMetadata? || s.server.pc.PollMetadata? || s.server.pc.PollRecv? || s.server.pc.Idle?)
    && (if cfg.kind.Wr? then !s.client.pc.PostRecv? && !s.client.pc.PollNotification? && !s.client.pc.Failed?
        else
          && s.client.ops == 0
          && !s.client.pc.PostTrigger? && !s.client.pc.PollTrigger?
          && !s.client.pc.PollNotification? && !s.client.pc.Count?
          && (cfg.kind.Wi? ==> !s.client.pc.PostWrite? && !s.client.pc.PollWrite?))
  }

  lemma UnconnectedStep(cfg: Config, s: State, step: Step)
    requires !cfg.connected && UnconnectedInv(cfg, s) && Enabled(cfg, s, step)
    ensures UnconnectedInv(cfg, Apply(cfg, s, step))
  {}

  lemma {:induction false} UnconnectedRun(cfg: Config, trace: seq<Step>)
    requires !cfg.connected && Run(cfg, trace).Reached?
    ensures UnconnectedInv(cfg, Run(cfg, trace).state)
    decreases |trace|
  {
    if trace != [] {
      var before := trace[..|trace| - 1];
      UnconnectedRun(cfg, before);
      UnconnectedStep(cfg, Run(cfg, before).state, trace[|trace| - 1]);
    }
  }

  // ---------------------------------------------------------------- safety of the queues

  ghost predicate WithinLimits(cfg: Config, ep: Endpoint) {
    && |ep.sq| <= (if cfg.noAck then 2 else 1) == cfg.MaxSendWr()
    && |ep.rq| <= 1 == MAX_RECV_WR
    && |ep.sendCq| <= 1 == CQ_SIZE && |ep.recvCq| <= 1
  }

  /** The receives that are posted are of the kind their messages need: on the server one with
      room for a flush request in Ws, one without any in Wi and none in Wr; on the client the
      metadata buffer until its message was polled, and the notification buffer from then on. */
  lemma ReceivesAreOfTheRightKind(cfg: Config, s: State)
    requires cfg.connected && Reachable(cfg, s)
    ensures s.server.ep.rq != [] ==> match cfg.kind
                                     case Ws => s.server.ep.rq == [FlushBuffer]
                                     case Wi => s.server.ep.rq == [EmptyBuffer]
                                     case Wr => false
    ensures s.client.ep.rq != [] ==>
              s.client.ep.rq == [if s.client.received == 0 then MetadataBuffer else NotificationBuffer]
  {
    var trace :| Run(cfg, trace) == Reached(s);
    RunKeeps(cfg, trace);
  }

  /** No message ever finds its receive missing or meant for another message, no queue ever
      holds more than it was created for, and the server never fails a post. */
  lemma QueuesNeverOverflow(cfg: Config, s: State)
    requires Reachable(cfg, s)
    ensures s.fault == NoFault && !s.server.pc.Dead?
    ensures WithinLimits(cfg, s.client.ep) && WithinLimits(cfg, s.server.ep)
  {
    var trace :| Run(cfg, trace) == Reached(s);
    if cfg.connected { RunKeeps(cfg, trace); } else { UnconnectedRun(cfg, trace); }
  }

  /** A poll of a completion queue for up to eight completions takes exactly one, the one of
      the current operation's newest request, and frees the whole send queue. */
  lemma PollTakesItsOwnCompletion(cfg: Config, s: State)
    requires cfg.connected && Reachable(cfg, s)
    requires (s.client.pc.PollWrite? || s.client.pc.PollTrigger?) && s.client.ep.sendCq != []
    ensures s.client.ep.sq != []
    ensures var newest := s.client.ep.sq[|s.client.ep.sq| - 1].request;
      s.client.ep.sendCq == [newest.op] && newest.version == s.client.ops + 1
    ensures ClientAct(cfg, s).client.ep == s.client.ep.(sq := [], sendCq := [])
  {
    var trace :| Run(cfg, trace) == Reached(s);
    RunKeeps(cfg, trace);
    PollFrees(cfg, s);
  }

  lemma PollFrees(cfg: Config, s: State)
    requires cfg.connected && ClientInv(cfg, s.client)
    requires (s.client.pc.PollWrite? || s.client.pc.PollTrigger?) && s.client.ep.sendCq != []
    ensures s.client.ep.sq != []
    ensures var newest := s.client.ep.sq[|s.client.ep.sq| - 1].request;
      s.client.ep.sendCq == [newest.op] && newest.version == s.client.ops + 1
    ensures ClientAct(cfg, s).client.ep == s.client.ep.(sq := [], sendCq := [])
  {
    RetireAll(s.client.ep.sq);
    assert Min(cfg.Batch(), |s.client.ep.sendCq|) == 1;
  }

  /** A poll of the client's receive queue, also for up to eight, takes exactly one completion
      and leaves no receive posted: the metadata first, then the notification that answers the
      current operation, which the server has persisted by then. */
  lemma PollTakesItsOwnMessage(cfg: Config, s: State)
    requires cfg.connected && Reachable(cfg, s)
    requires (s.client.pc.AwaitMetadata? || s.client.pc.PollNotification?) && s.client.ep.recvCq != []
    ensures |s.client.ep.recvCq| == 1 && s.client.ep.rq == []
    ensures ClientAct(cfg, s).client == s.client.(
              pc := ClientAfter(cfg, s.client.pc), received := s.client.received + 1, ep := s.client.ep.(recvCq := []))
    ensures s.server.sent == s.client.received + 1
    ensures s.client.pc.AwaitMetadata? ==> s.client.received == 0
    ensures s.client.pc.PollNotification? ==>
              s.client.received == s.client.ops + 1 && s.server.persists == s.client.ops + 1
  {
    var trace :| Run(cfg, trace) == Reached(s);
    RunKeeps(cfg, trace);
    MessageAnswers(cfg, s);
  }

  lemma MessageAnswers(cfg: Config, s: State)
    requires cfg.connected && Inv(cfg, s)
    requires (s.client.pc.AwaitMetadata? || s.client.pc.PollNotification?) && s.client.ep.recvCq != []
    ensures |s.client.ep.recvCq| == 1 && s.client.ep.rq == []
    ensures ClientAct(cfg, s).client == s.client.(
              pc := ClientAfter(cfg, s.client.pc), received := s.client.received + 1, ep := s.client.ep.(recvCq := []))
    ensures s.server.sent == s.client.received + 1
    ensures s.client.pc.AwaitMetadata? ==> s.client.received == 0
    ensures s.client.pc.PollNotification? ==>
              s.client.received == s.client.ops + 1 && s.server.persists == s.client.ops + 1
  {
    assert s.client.arrived == s.client.received + 1;
    Counts(cfg, s);
  }

  /** The server's poll of its send queue takes exactly the completion of the message it sent
      last, and frees its send queue. */
  lemma ServerPollTakesItsOwnCompletion(cfg: Config, s: State)
    requires cfg.connected && Reachable(cfg, s)
    requires (s.server.pc.PollMetadata? || s.server.pc.PollNotify?) && s.server.ep.sendCq != []
    ensures s.server.ep.sendCq == [if s.server.pc.PollMetadata? then Metadata else Notification]
    ensures ServerAct(cfg, s).server == s.server.(
              pc := ServerAfter(cfg, s.server.pc), ep := s.server.ep.(sq := [], sendCq := []))
    ensures s.server.sent == s.server.received + 1
  {
    var trace :| Run(cfg, trace) == Reached(s);
    RunKeeps(cfg, trace);
    ServerPollFrees(cfg, s);
  }

  lemma ServerPollFrees(cfg: Config, s: State)
    requires cfg.connected && ServerInv(cfg, s.server)
    requires (s.server.pc.PollMetadata? || s.server.pc.PollNotify?) && s.server.ep.sendCq != []
    ensures s.server.ep.sendCq == [if s.server.pc.PollMetadata? then Metadata else Notification]
    ensures ServerAct(cfg, s).server == s.server.(
              pc := ServerAfter(cfg, s.server.pc), ep := s.server.ep.(sq := [], sendCq := []))
    ensures s.server.sent == s.server.received + 1
  {
    RetireAll(s.server.ep.sq);
    assert Min(cfg.Batch(), |s.server.ep.sendCq|) == 1;
  }

  /** The server's poll of its receive queue takes the one request of the open operation and
      never drops it for its opcode. */
  lemma ServerPollTakesTheRequest(cfg: Config, s: State)
    requires cfg.connected && Reachable(cfg, s)
    requires s.server.pc.PollRecv? && s.server.ep.recvCq != []
    ensures s.server.ep.recvCq == [TriggerRecvOpcode(cfg)] && s.server.ep.rq == []
    ensures ServerAct(cfg, s).server == s.server.(
              pc := ServerAfter(cfg, PollRecv), received := s.server.received + 1, ep := s.server.ep.(recvCq := []))
    ensures s.server.received == s.client.ops && s.client.issued == s.client.ops + 1
  {
    var trace :| Run(cfg, trace) == Reached(s);
    RunKeeps(cfg, trace);
    RequestIsOpen(cfg, s);
    Counts(cfg, s);
  }

  lemma RequestIsOpen(cfg: Config, s: State)
    requires cfg.connected && Inv(cfg, s) && s.server.pc.PollRecv? && s.server.ep.recvCq != []
    ensures s.server.ep.recvCq == [TriggerRecvOpcode(cfg)] && s.server.ep.rq == []
    ensures ServerAct(cfg, s).server == s.server.(
              pc := ServerAfter(cfg, PollRecv), received := s.server.received + 1, ep := s.server.ep.(recvCq := []))
    ensures s.server.received == s.client.ops && s.client.issued == s.client.ops + 1
  {
    Counts(cfg, s);
    assert s.server.arrived == s.server.received + 1;
    assert s.client.triggered >= s.server.arrived;
    assert s.server.sent == s.server.received + 1;
  }

  // ---------------------------------------------------------------- runs made by the scheduler

  // a persist or a read makes the slot durable
  predicate Flushes(cfg: Config) { cfg.usePmem && (cfg.kind.Wr? ==> cfg.readFlushes) }

  lemma EffectiveTurnLeaves(cfg: Config, s: State, step: Step)
    requires Enabled(cfg, s, step) && Effective(s, step) && ServerPcValid(cfg, s.server.pc)
    ensures var t := Apply(cfg, s, step);
      t.stop == s.stop && (!s.stop && !s.client.pc.Left? ==> !t.client.pc.Left?)
      && (!Flushes(cfg) ==> t.per == s.per)
  {
    match step
    case ClientStep =>
    case ServerStep =>
    case ClientNic(i) =>
    case ServerNic(i) =>
  }

  lemma RunExtends(cfg: Config, trace: seq<Step>, step: Step)
    requires Run(cfg, trace).Reached? && Enabled(cfg, Run(cfg, trace).state, step)
    ensures Run(cfg, trace + [step]) == Reached(Apply(cfg, Run(cfg, trace).state, step))
  {
    assert (trace + [step])[..|trace|] == trace;
  }

  /** From any run that was not told to stop, the scheduler reaches the next counted
      operation, or the post that fails, without any write-back by chance. */
  lemma {:induction false} Drive(cfg: Config, trace: seq<Step>) returns (more: seq<Step>)
    requires cfg.connected && Run(cfg, trace).Reached?
    requires var s := Run(cfg, trace).state; !s.stop && !s.client.pc.Left? && !s.client.pc.Failed?
    ensures Run(cfg, more).Reached?
    ensures var s, t := Run(cfg, trace).state, Run(cfg, more).state;
      && !t.stop && !t.client.pc.Left?
      && ((t.client.ops == s.client.ops + 1 && t.client.pc.LoopHead?) || (t.client.ops == s.client.ops && t.client.pc.Failed?))
      && (!Flushes(cfg) ==> t.per == s.per)
    decreases Rank(cfg, Run(cfg, trace).state)
  {
    var s := Run(cfg, trace).state;
    RunKeeps(cfg, trace);
    NotStuck(cfg, s);
    var step := NextTurn(s);
    EffectiveTurn(cfg, s, step);
    EffectiveTurnLeaves(cfg, s, step);
    RunExtends(cfg, trace, step);
    more := trace + [step];
    var t := Run(cfg, more).state;
    if t.client.ops == s.client.ops && !t.client.pc.Failed? {
      more := Drive(cfg, more);
    } else {
      CountingSucceeds(cfg, s, step);
    }
  }

  lemma CountingSucceeds(cfg: Config, s: State, step: Step)
    requires Enabled(cfg, s, step)
    ensures var t := Apply(cfg, s, step);
      t.client.ops == s.client.ops || (t.client.pc.LoopHead? && t.client.ops == s.client.ops + 1)
  {}

  // ---------------------------------------------------------------- the build that cannot go on

  /** Under NO_ACK the Wi client posts at most two writes successfully, ever. */
  lemma NeverRetiresStopsAtTwo(cfg: Config, s: State)
    requires cfg.connected && NeverRetires(cfg) && Reachable(cfg, s)
    ensures s.client.issued == |s.client.ep.sq| <= 2 && s.client.ops <= 2
    ensures s.client.pc.Failed? ==> s.client.ops == 2
  {
    var trace :| Run(cfg, trace) == Reached(s);
    RunKeeps(cfg, trace);
  }

  /** ... and every undisturbed run of it does get there and fails the third post. */
  lemma NeverRetiresFails(cfg: Config) returns (s: State)
    requires cfg.connected && NeverRetires(cfg)
    ensures Reachable(cfg, s) && s.client.pc.Failed? && s.client.ops == 2
  {
    var trace := Drive(cfg, []);
    RunKeeps(cfg, trace);
    trace := Drive(cfg, trace);
    RunKeeps(cfg, trace);
    trace := Drive(cfg, trace);
    RunKeeps(cfg, trace);
    s := Run(cfg, trace).state;
  }

  // ---------------------------------------------------------------- unconnected runs that fail or count

  /** A worker on an unconnected node, on its own: `n` turns of the client and of nobody else. */
  function Alone(n: nat): seq<Step> { seq(n, i => ClientStep) }

  lemma AloneRun(cfg: Config, n: nat)
    requires Run(cfg, Alone(n)).Reached? && Enabled(cfg, Run(cfg, Alone(n)).state, ClientStep)
    ensures Run(cfg, Alone(n + 1)) == Reached(ClientAct(cfg, Run(cfg, Alone(n)).state))
  {
    assert Alone(n + 1) == Alone(n) + [ClientStep];
    RunExtends(cfg, Alone(n), ClientStep);
  }

  /** Where nothing is posted and nothing is awaited, a turn only moves the worker on. */
  lemma AloneGoesOn(cfg: Config, n: nat, pc: ClientPc)
    requires !cfg.connected && Run(cfg, Alone(n)) == Reached(Goto(Init(cfg), pc))
    requires pc != PostRecv && pc != Count && pc != Left && pc != Failed
    ensures Run(cfg, Alone(n + 1)) == Reached(Goto(Init(cfg), ClientAfter(cfg, pc)))
  {
    AloneRun(cfg, n);
  }

  lemma UnconnectedStarts(cfg: Config)
    requires !cfg.connected
    ensures Run(cfg, Alone(2)) == Reached(Goto(Init(cfg), ClientAfter(cfg, LoopHead)))
  {
    assert Alone(0) == [];
    AloneGoesOn(cfg, 0, AwaitMetadata);
    AloneGoesOn(cfg, 1, LoopHead);
  }

  lemma UnconnectedReceiveFails(cfg: Config) returns (s: State)
    requires !cfg.connected && !cfg.kind.Wr?
    ensures Reachable(cfg, s) && s.client.pc.Failed? && s.client.ops == 0
  {
    var n := 2;
    UnconnectedStarts(cfg);
    if cfg.kind.Ws? {
      AloneGoesOn(cfg, n, PostWrite);
      n := n + 1;
      if !cfg.noAck {
        AloneGoesOn(cfg, n, PollWrite);
        n := n + 1;
      }
    }
    AloneRun(cfg, n);
    s := Run(cfg, Alone(n + 1)).state;
  }

  lemma UnconnectedCounts(cfg: Config) returns (s: State)
    requires !cfg.connected && cfg.kind.Wr?
    ensures Reachable(cfg, s) && s.client.ops == 1 && s.per == Filled(cfg.size, 0)
  {
    var n := UnconnectedReachesCount(cfg);
    AloneRun(cfg, n);
    s := Run(cfg, Alone(n + 1)).state;
  }

  lemma UnconnectedReachesCount(cfg: Config) returns (n: nat)
    requires !cfg.connected && cfg.kind.Wr?
    ensures Run(cfg, Alone(n)) == Reached(Goto(Init(cfg), Count))
  {
    n := 3;
    UnconnectedStarts(cfg);
    AloneGoesOn(cfg, 2, PostWrite);
    if !cfg.noAck {
      AloneGoesOn(cfg, n, PollWrite);
      n := n + 1;
    }
    AloneGoesOn(cfg, n, PostTrigger);
    AloneGoesOn(cfg, n + 1, PollTrigger);
    n := n + 2;
  }

  /** Exactly when the client worker can run into a post that fails. */
  lemma WorkerFailsIff(cfg: Config)
    ensures (exists s :: Reachable(cfg, s) && s.client.pc.Failed?)
            <==> if cfg.connected then NeverRetires(cfg) else !cfg.kind.Wr?
  {
    if cfg.connected && NeverRetires(cfg) {
      var s := NeverRetiresFails(cfg);
    } else if !cfg.connected && !cfg.kind.Wr? {
      var s := UnconnectedReceiveFails(cfg);
    } else {
      forall s | Reachable(cfg, s)
        ensures !s.client.pc.Failed?
      {
        var trace :| Run(cfg, trace) == Reached(s);
        if cfg.connected { RunKeeps(cfg, trace); } else { UnconnectedRun(cfg, trace); }
      }
    }
  }

  // ---------------------------------------------------------------- durability

  /** What was counted survives a crash: no byte of the slot is older than `ops`. */
  ghost predicate CountedIsDurable(s: State) {
    forall b :: 0 <= b < |s.per| ==> s.client.ops <= s.per[b]
  }

  predicate MakesDurable(cfg: Config) {
    if cfg.kind.Wr? then cfg.connected && cfg.usePmem && cfg.readFlushes
    else !cfg.connected || cfg.usePmem
  }

  /** A crash at any moment leaves, byte by byte, the last counted write or the one in flight. */
  lemma CrashImage(cfg: Config, s: State)
    requires cfg.connected && Flushes(cfg) && Reachable(cfg, s)
    ensures |s.per| == cfg.size
    ensures forall b :: 0 <= b < cfg.size ==> s.per[b] == s.client.ops || s.per[b] == s.client.ops + 1
    ensures s.client.issued == s.client.ops ==> s.per == Filled(cfg.size, s.client.ops)
  {
    var trace :| Run(cfg, trace) == Reached(s);
    RunKeeps(cfg, trace);
    Counts(cfg, s);
    DurableCovers(cfg, s);
  }

  lemma DurableCovers(cfg: Config, s: State)
    requires Inv(cfg, s) && Flushes(cfg)
    ensures s.client.ops <= Durable(cfg, s) <= s.client.issued
    ensures s.client.pc.Count? ==> Durable(cfg, s) == s.client.ops + 1
  {
    Counts(cfg, s);
  }

  /** Even where nothing is flushed, what was counted has at least been placed: the server
      would read it from its memory. */
  lemma CountedIsPlaced(cfg: Config, s: State)
    requires cfg.connected && Reachable(cfg, s)
    ensures |s.vol| == cfg.size
    ensures forall b :: 0 <= b < cfg.size ==> s.client.ops <= s.vol[b] <= s.client.ops + 1
  {
    var trace :| Run(cfg, trace) == Reached(s);
    RunKeeps(cfg, trace);
  }

  /** Without persistent memory nothing ever becomes durable. */
  lemma {:induction false} NothingPersistsWithoutPmem(cfg: Config, trace: seq<Step>)
    requires !cfg.usePmem && Run(cfg, trace).Reached?
    ensures Run(cfg, trace).state.per == Filled(cfg.size, 0)
    decreases |trace|
  {
    if trace != [] {
      var before := trace[..|trace| - 1];
      NothingPersistsWithoutPmem(cfg, before);
      PersistsNothing(cfg, Run(cfg, before).state, trace[|trace| - 1]);
    }
  }

  lemma PersistsNothing(cfg: Config, s: State, step: Step)
    requires !cfg.usePmem && Enabled(cfg, s, step)
    ensures Apply(cfg, s, step).per == s.per
  {}

  /** The exact set of builds and options under which counting means durable. */
  lemma DurableIff(cfg: Config)
    ensures (forall s :: Reachable(cfg, s) ==> CountedIsDurable(s)) <==> cfg.size == 0 || MakesDurable(cfg)
  {
    if cfg.size == 0 || MakesDurable(cfg) {
      forall s | Reachable(cfg, s) ensures CountedIsDurable(s) {
        var trace :| Run(cfg, trace) == Reached(s);
        if !cfg.connected {
          UnconnectedRun(cfg, trace);
        } else if cfg.size > 0 {
          CrashImage(cfg, s);
          RunKeeps(cfg, trace);
        } else {
          RunKeeps(cfg, trace);
        }
      }
    } else {
      var s := LosesCountedWrite(cfg);
    }
  }

  lemma LosesCountedWrite(cfg: Config) returns (s: State)
    requires cfg.size > 0 && !MakesDurable(cfg)
    ensures Reachable(cfg, s) && !CountedIsDurable(s)
  {
    if cfg.connected {
      var trace := Drive(cfg, []);
      RunKeeps(cfg, trace);
      s := Run(cfg, trace).state;
      assert s.per == Filled(cfg.size, 0);
      assert s.per[0] == 0 && s.client.ops == 1;
    } else {
      s := UnconnectedCounts(cfg);
      assert s.per[0] == 0;
    }
  }

  // ---------------------------------------------------------------- stopping

  /** A worker that leaves its loop through `stop` has drained its queue pair, and every
      operation it began has been counted, placed and answered. */
  lemma QuiescentAtStop(cfg: Config, s: State)
    requires cfg.connected && Reachable(cfg, s) && s.client.pc.Left?
    ensures Drained(cfg, s) && s.vol == Filled(cfg.size, s.client.ops)
    ensures Flushes(cfg) ==> s.per == s.vol
  {
    var trace :| Run(cfg, trace) == Reached(s);
    RunKeeps(cfg, trace);
    LeftIsIdle(cfg, s);
    if Flushes(cfg) { CrashImage(cfg, s); }
  }

  ghost predicate Drained(cfg: Config, s: State) {
    var c := s.client;
    && c.ep.rq == [] && c.ep.sendCq == [] && c.ep.recvCq == []
    && |c.ep.sq| == (if NeverRetires(cfg) then c.ops else 0)
    && c.issued == c.ops && c.triggered == c.ops && s.server.arrived == c.ops
    && (!cfg.kind.Wr? ==> c.received == 1 + c.ops && s.server.persists == c.ops)
  }

  lemma LeftIsIdle(cfg: Config, s: State)
    requires Inv(cfg, s) && s.client.pc.Left?
    ensures !WriteInFlight(cfg, s.client) && Drained(cfg, s)
  {
    Counts(cfg, s);
  }

  /** Once `stop` is raised: the turns that can still be made before the worker has ended. */
  function StopRank(cfg: Config, s: State): int {
    if Ended(s.client) then 0
    else Rank(cfg, s) + 1 - if s.client.pc.LoopHead? || s.client.pc.AwaitMetadata? then OpCost(cfg) else 0
  }

  lemma StopRankIsPositive(cfg: Config, s: State)
    requires cfg.connected && Inv(cfg, s) && !Ended(s.client)
    ensures 0 < StopRank(cfg, s) <= Rank(cfg, s) + 1
  {
    Counts(cfg, s);
    if s.client.pc.AwaitMetadata? {
      assert TurnsLeft(cfg, AwaitMetadata) == 1 + TurnsLeft(cfg, LoopHead);
    }
  }

  /** Where a turn of the client leaves it, with `stop` raised. */
  lemma StopLeaves(cfg: Config, s: State)
    requires cfg.connected && s.stop && !Ended(s.client) && !ClientWaits(s.client)
    ensures var t := ClientAct(cfg, s);
      && t.client.ops == s.client.ops + Bit(s.client.pc.Count?)
      && (s.client.pc.LoopHead? ==> t.client.pc.Left?)
      && (t.client.pc.LoopHead? <==> s.client.pc.Count? || s.client.pc.AwaitMetadata?)
      && !t.client.pc.AwaitMetadata?
  {}

  lemma OthersKeepPlace(cfg: Config, s: State, step: Step)
    requires Enabled(cfg, s, step) && !step.ClientStep?
    ensures var t := Apply(cfg, s, step);
      t.client.pc == s.client.pc && t.client.ops == s.client.ops && (s.stop ==> t.stop)
  {}

  /** With `stop` raised every effective turn, the counting ones too, brings the end nearer by one. */
  lemma StopTurn(cfg: Config, s: State, step: Step)
    requires cfg.connected && Inv(cfg, s) && Enabled(cfg, s, step) && Effective(s, step)
    requires s.stop && !Ended(s.client)
    ensures var t := Apply(cfg, s, step);
      t.stop && (Ended(t.client) || StopRank(cfg, t) + 1 == StopRank(cfg, s))
  {
    var t := Apply(cfg, s, step);
    EffectiveTurn(cfg, s, step);
    if step.ClientStep? {
      assert t.stop;
      StopLeaves(cfg, s);
    } else {
      OthersKeepPlace(cfg, s, step);
    }
    StopPays(cfg, s, t);
  }

  lemma StopPays(cfg: Config, s: State, t: State)
    requires Paid(cfg, s, t) && !Ended(s.client)
    requires || (t.client.pc == s.client.pc && t.client.ops == s.client.ops)
             || (&& t.client.ops == s.client.ops + Bit(s.client.pc.Count?)
                 && (s.client.pc.LoopHead? ==> t.client.pc.Left?)
                 && (t.client.pc.LoopHead? <==> s.client.pc.Count? || s.client.pc.AwaitMetadata?)
                 && !t.client.pc.AwaitMetadata?)
    ensures Ended(t.client) || StopRank(cfg, t) + 1 == StopRank(cfg, s)
  {}

  lemma StopIdles(cfg: Config, s: State, step: Step)
    requires cfg.connected && Enabled(cfg, s, step) && !Effective(s, step) && s.stop
    ensures var t := Apply(cfg, s, step);
      t.stop && StopRank(cfg, t) == StopRank(cfg, s) && t.client == s.client
  {
    IdleTurn(cfg, s, step);
  }

  /** From the moment `stop` is raised, effort is taken from a budget that is not renewed. */
  lemma {:induction false} StopBudget(cfg: Config, trace: seq<Step>, i: nat)
    requires cfg.connected && i <= |trace| && Run(cfg, trace).Reached? && Run(cfg, trace[..i]).Reached?
    requires Run(cfg, trace[..i]).state.stop
    ensures var s, t := Run(cfg, trace[..i]).state, Run(cfg, trace).state;
      && t.stop
      && (Ended(t.client) || Effort(cfg, trace) + StopRank(cfg, t) == Effort(cfg, trace[..i]) + StopRank(cfg, s))
    decreases |trace|
  {
    if i == |trace| {
      assert trace[..i] == trace;
    } else {
      var before := trace[..|trace| - 1];
      assert before[..i] == trace[..i];
      StopBudget(cfg, before, i);
      RunKeeps(cfg, before);
      StopStep(cfg, Run(cfg, before).state, trace[|trace| - 1]);
    }
  }

  lemma StopStep(cfg: Config, s: State, step: Step)
    requires cfg.connected && Inv(cfg, s) && Enabled(cfg, s, step) && s.stop
    ensures var t := Apply(cfg, s, step);
      && t.stop
      && (Ended(t.client) || (!Ended(s.client) && StopRank(cfg, t) + Bit(Effective(s, step)) == StopRank(cfg, s)))
  {
    if Ended(s.client) {
      EndedStays(cfg, s, step);
      StopStays(cfg, s, step);
    } else if Effective(s, step) {
      StopTurn(cfg, s, step);
    } else {
      StopIdles(cfg, s, step);
    }
  }

  lemma StopStays(cfg: Config, s: State, step: Step)
    requires Enabled(cfg, s, step) && s.stop
    ensures Apply(cfg, s, step).stop
  {}

  /** A worker that was told to stop ends in bounded time: after as many effective turns as
      StopRank said, it has left its loop, or failed in the build that can fail. */
  lemma StoppedWorkerEnds(cfg: Config, trace: seq<Step>, i: nat)
    requires cfg.connected && i <= |trace| && Run(cfg, trace).Reached? && Run(cfg, trace[..i]).Reached?
    requires Run(cfg, trace[..i]).state.stop
    requires Effort(cfg, trace) >= Effort(cfg, trace[..i]) + StopRank(cfg, Run(cfg, trace[..i]).state)
    ensures Ended(Run(cfg, trace).state.client)
    ensures !NeverRetires(cfg) ==> Run(cfg, trace).state.client.pc.Left?
  {
    var t := Run(cfg, trace).state;
    StopBudget(cfg, trace, i);
    RunKeeps(cfg, trace);
    if !Ended(t.client) { StopRankIsPositive(cfg, t); }
  }

  lemma StopNext(cfg: Config, trace: seq<Step>) returns (step: Step)
    requires cfg.connected && Run(cfg, trace).Reached?
    requires var s := Run(cfg, trace).state; s.stop && !Ended(s.client)
    ensures Run(cfg, trace + [step]).Reached?
    ensures var s, t := Run(cfg, trace).state, Run(cfg, trace + [step]).state;
      t.stop && StopRank(cfg, t) < StopRank(cfg, s) && 0 < StopRank(cfg, s)
  {
    var s := Run(cfg, trace).state;
    RunKeeps(cfg, trace);
    NotStuck(cfg, s);
    step := NextTurn(s);
    RunExtends(cfg, trace, step);
    StopRankIsPositive(cfg, s);
    StopStep(cfg, s, step);
  }

  /** And it does end: from every reachable state in which `stop` is raised, the scheduler leads
      out of the loop. */
  lemma {:induction false} StoppedWorkerCanEnd(cfg: Config, trace: seq<Step>) returns (all: seq<Step>)
    requires cfg.connected && Run(cfg, trace).Reached? && Run(cfg, trace).state.stop
    ensures trace <= all && Run(cfg, all).Reached? && Ended(Run(cfg, all).state.client) && Run(cfg, all).state.stop
    ensures !NeverRetires(cfg) ==> Run(cfg, all).state.client.pc.Left?
    decreases StopRank(cfg, Run(cfg, trace).state)
  {
    all := trace;
    if Ended(Run(cfg, trace).state.client) {
      RunKeeps(cfg, trace);
    } else {
      var step := StopNext(cfg, trace);
      all := StoppedWorkerCanEnd(cfg, trace + [step]);
    }
  }

  /** Raising `stop` does end the worker: every run goes on to one in which the worker has left
      its loop, drained and with everything it counted in place. */
  lemma StopEndsTheWorker(cfg: Config, trace: seq<Step>) returns (all: seq<Step>)
    requires cfg.connected && !NeverRetires(cfg) && Run(cfg, trace).Reached?
    ensures trace < all && Run(cfg, all).Reached?
    ensures var s := Run(cfg, all).state;
      s.client.pc.Left? && s.stop && Drained(cfg, s) && s.vol == Filled(cfg.size, s.client.ops)
  {
    var told := TellToStop(cfg, trace);
    all := StoppedWorkerCanEnd(cfg, told);
    QuiescentAtStop(cfg, Run(cfg, all).state);
  }

  lemma TellToStop(cfg: Config, trace: seq<Step>) returns (told: seq<Step>)
    requires cfg.connected && Run(cfg, trace).Reached?
    ensures trace < told && Run(cfg, told) == Reached(Run(cfg, trace).state.(stop := true))
  {
    RunKeeps(cfg, trace);
    RunExtends(cfg, trace, RaiseStop);
    told := trace + [RaiseStop];
  }

  /** And nobody else raises it. */
  lemma OnlyTheOperatorStops(cfg: Config, s: State, step: Step)
    requires Enabled(cfg, s, step)
    ensures Apply(cfg, s, step).stop <==> s.stop || step.RaiseStop?
  {}

  /** After `stop` at most the operation that is open is still counted. */
  lemma {:induction false} StoppedWorkerCountsAtMostOne(cfg: Config, trace: seq<Step>, i: nat)
    requires cfg.connected && i <= |trace| && Run(cfg, trace).Reached? && Run(cfg, trace[..i]).Reached?
    requires Run(cfg, trace[..i]).state.stop
    ensures var s, t := Run(cfg, trace[..i]).state, Run(cfg, trace).state;
      t.stop && t.client.ops + OpenOperation(t.client) <= s.client.ops + OpenOperation(s.client)
    decreases |trace|
  {
    if i == |trace| {
      assert trace[..i] == trace;
    } else {
      var before := trace[..|trace| - 1];
      assert before[..i] == trace[..i];
      StoppedWorkerCountsAtMostOne(cfg, before, i);
      StopOpensNothing(cfg, Run(cfg, before).state, trace[|trace| - 1]);
    }
  }

  // an operation has begun and is neither counted nor given up
  function OpenOperation(c: Client): nat {
    if c.pc.AwaitMetadata? || c.pc.LoopHead? || Ended(c) then 0 else 1
  }

  lemma StopOpensNothing(cfg: Config, s: State, step: Step)
    requires cfg.connected && Enabled(cfg, s, step) && s.stop
    ensures var t := Apply(cfg, s, step);
      t.stop && t.client.ops + OpenOperation(t.client) <= s.client.ops + OpenOperation(s.client)
  {}
}
