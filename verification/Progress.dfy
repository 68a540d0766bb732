/**
 Nobody waits for ever: as long as the client worker has not left its loop, some turn is
 enabled that is not an empty poll, and each operation takes a bounded number of them.
 */
module Progress {
  import opened Machine
  import opened Protocol
  import opened Invariant

  // ---------------------------------------------------------------- waiting and working

  predicate ClientWaits(c: Client) {
    || ((c.pc.AwaitMetadata? || c.pc.PollNotification?) && c.ep.recvCq == [])
    || ((c.pc.PollWrite? || c.pc.PollTrigger?) && c.ep.sendCq == [])
  }

  predicate ServerWaits(v: Server) {
    || (v.pc.PollRecv? && v.ep.recvCq == [])
    || ((v.pc.PollMetadata? || v.pc.PollNotify?) && v.ep.sendCq == [])
  }

  /** The turn moves the protocol on: not an empty poll, and not one of the memory system's
      or the operator's own moves. */
  predicate Effective(s: State, step: Step) {
    match step
    case ClientStep => !ClientWaits(s.client)
    case ServerStep => !ServerWaits(s.server)
    case ClientNic(i) => true
    case ServerNic(i) => true
    case _ => false
  }

  // ---------------------------------------------------------------- a turn that is always there

  function FirstUnacked(sq: seq<Slot>): nat {
    if sq == [] || !sq[0].stage.Acked? then 0 else 1 + FirstUnacked(sq[1..])
  }

  lemma FirstUnackedAdvances(sq: seq<Slot>, i: nat)
    requires i < |sq| && !sq[i].stage.Acked?
    requires forall k :: 0 < k < |sq| ==> sq[k - 1].stage.Rank() >= sq[k].stage.Rank()
    ensures FirstUnacked(sq) <= i && CanAdvance(sq, FirstUnacked(sq))
  {
    if sq[0].stage.Acked? {
      var rest := sq[1..];
      assert rest[i - 1] == sq[i];
      forall k | 0 < k < |rest| ensures rest[k - 1].stage.Rank() >= rest[k].stage.Rank() {
        assert rest[k] == sq[k + 1] && rest[k - 1] == sq[k];
      }
      FirstUnackedAdvances(rest, i - 1);
      var f := FirstUnacked(rest);
      assert FirstUnacked(sq) == f + 1 && sq[f + 1] == rest[f];
      assert sq[f].stage.Acked? || (f > 0 && sq[f] == rest[f - 1]);
    }
  }

  /** A scheduler: the client when it has something to do, else its adapter, else the
      server's adapter, else the server. */
  function NextTurn(s: State): Step {
    if !ClientWaits(s.client) then ClientStep
    else if FirstUnacked(s.client.ep.sq) < |s.client.ep.sq| then ClientNic(FirstUnacked(s.client.ep.sq))
    else if FirstUnacked(s.server.ep.sq) < |s.server.ep.sq| then ServerNic(FirstUnacked(s.server.ep.sq))
    else ServerStep
  }

  lemma AllAcked(sq: seq<Slot>)
    requires FirstUnacked(sq) >= |sq|
    ensures forall k :: 0 <= k < |sq| ==> sq[k].stage.Acked?
  {
    if sq != [] {
      AllAcked(sq[1..]);
      assert forall k :: 0 < k < |sq| ==> sq[k] == sq[1..][k - 1];
    }
  }

  lemma InRange(sq: seq<Slot>)
    ensures FirstUnacked(sq) <= |sq|
    ensures FirstUnacked(sq) < |sq| ==> !sq[FirstUnacked(sq)].stage.Acked?
  {
    if sq != [] && sq[0].stage.Acked? {
      InRange(sq[1..]);
    }
  }

  lemma ServerNotWaiting(cfg: Config, s: State)
    requires cfg.connected && Inv(cfg, s) && ClientWaits(s.client)
    requires FirstUnacked(s.client.ep.sq) >= |s.client.ep.sq| && FirstUnacked(s.server.ep.sq) >= |s.server.ep.sq|
    ensures !s.server.pc.Idle? && !ServerWaits(s.server)
  {
    AllAcked(s.client.ep.sq);
    AllAcked(s.server.ep.sq);
    var c, v := s.client, s.server;
    assert Unexecuted(c.ep.sq) == 0 && Unexecuted(v.ep.sq) == 0;
    assert c.arrived == v.sent && v.arrived == c.triggered;
  }

  /** Deadlock freedom: until the worker leaves or gives up, an effective turn is enabled. */
  lemma NotStuck(cfg: Config, s: State)
    requires cfg.connected && Inv(cfg, s) && !s.client.pc.Left? && !s.client.pc.Failed?
    ensures Enabled(cfg, s, NextTurn(s)) && Effective(s, NextTurn(s))
  {
    var csq, vsq := s.client.ep.sq, s.server.ep.sq;
    if !ClientWaits(s.client) {
    } else if FirstUnacked(csq) < |csq| {
      InRange(csq);
      FirstUnackedAdvances(csq, FirstUnacked(csq));
    } else if FirstUnacked(vsq) < |vsq| {
      InRange(vsq);
      FirstUnackedAdvances(vsq, FirstUnacked(vsq));
    } else {
      ServerNotWaiting(cfg, s);
    }
  }

  // ---------------------------------------------------------------- the ranking function

  function Position(pc: ClientPc): nat {
    match pc
    case AwaitMetadata => 9 case LoopHead => 8 case PostWrite => 7 case PollWrite => 6
    case PostRecv => 5 case PostTrigger => 4 case PollTrigger => 3 case PollNotification => 2
    case Count => 1 case Left => 0 case Failed => 0
  }

  /** Client turns, and adapter moves of requests still to be posted, until the operation is counted. */
  function TurnsLeft(cfg: Config, pc: ClientPc): nat
    decreases Position(pc)
  {
    match pc
    case Left => 0
    case Failed => 0
    case Count => 1
    case PostWrite => 4 + TurnsLeft(cfg, ClientAfter(cfg, pc))
    case PostTrigger => 4 + TurnsLeft(cfg, ClientAfter(cfg, pc))
    case _ => 1 + TurnsLeft(cfg, ClientAfter(cfg, pc))
  }

  function ServerTurnsLeft(cfg: Config, pc: ServerPc): nat {
    match pc
    case SendMetadata => 5
    case PollMetadata => 1
    case PollRecv => 0
    case Repost => if cfg.kind.Wi? then 6 else 7
    case Persist => if cfg.kind.Wi? then 7 else 6
    case Notify => 5
    case PollNotify => 1
    case Idle => 0
    case Dead => 0
  }

  function SlotMoves(sq: seq<Slot>, i: nat): nat {
    if i < |sq| then 3 - sq[i].stage.Rank() else 0
  }

  // adapter moves left for the requests that are posted; there are never more than two
  function Moves(sq: seq<Slot>): nat { SlotMoves(sq, 0) + SlotMoves(sq, 1) }

  const SERVER_TURNS_PER_OP := 8

  function ServerWork(cfg: Config, ops: nat, received: nat): nat {
    if cfg.kind.Wr? || received > ops then 0 else SERVER_TURNS_PER_OP * (ops + 1 - received)
  }

  function ClientRank(cfg: Config, c: Client): nat { TurnsLeft(cfg, c.pc) + Moves(c.ep.sq) }

  function ServerRank(cfg: Config, v: Server): nat { ServerTurnsLeft(cfg, v.pc) + Moves(v.ep.sq) }

  function Rank(cfg: Config, s: State): nat {
    ClientRank(cfg, s.client) + ServerRank(cfg, s.server) + ServerWork(cfg, s.client.ops, s.server.received)
  }

  function OpCost(cfg: Config): nat {
    TurnsLeft(cfg, LoopHead) + if cfg.kind.Wr? then 0 else SERVER_TURNS_PER_OP
  }

  lemma MovesDown(ep: Endpoint, i: nat)
    requires |ep.sq| <= 2 && CanAdvance(ep.sq, i)
    ensures Moves(Advanced(ep, i).sq) + 1 == Moves(ep.sq)
  {}

  predicate Ended(c: Client) { c.pc.Left? || c.pc.Failed? }

  /** A turn was paid for: exactly by one, or by more if it ended the worker. */
  ghost predicate PaidBy(before: nat, after: nat, credit: nat, ended: bool) {
    if ended then after + 1 <= before + credit else after + 1 == before + credit
  }

  /** One effective turn of the client costs one, wherever it stands. */
  ghost predicate ClientWorked(cfg: Config, c: Client, c': Client) {
    && c'.ops == c.ops + Bit(c.pc.Count?)
    && PaidBy(ClientRank(cfg, c), ClientRank(cfg, c'), if c.pc.Count? then TurnsLeft(cfg, LoopHead) else 0, Ended(c'))
  }

  lemma ClientWorksPolling(cfg: Config, s: State)
    requires cfg.connected && ClientInv(cfg, s.client) && s.client.ep.sendCq != []
    requires s.client.pc.PollWrite? || s.client.pc.PollTrigger?
    ensures ClientWorked(cfg, s.client, ClientAct(cfg, s).client)
  {
    RetireAll(s.client.ep.sq);
    assert Min(cfg.Batch(), |s.client.ep.sendCq|) == 1;
  }

  lemma ClientWorksPosting(cfg: Config, s: State)
    requires cfg.connected && |s.client.ep.sq| <= 2 && (s.client.pc.PostWrite? || s.client.pc.PostTrigger?)
    ensures ClientWorked(cfg, s.client, ClientAct(cfg, s).client)
  {}

  lemma ClientWorksOtherwise(cfg: Config, s: State)
    requires cfg.connected && Enabled(cfg, s, ClientStep) && !ClientWaits(s.client)
    requires !s.client.pc.PostWrite? && !s.client.pc.PostTrigger?
    requires !s.client.pc.PollWrite? && !s.client.pc.PollTrigger?
    ensures ClientWorked(cfg, s.client, ClientAct(cfg, s).client)
  {}

  lemma ClientWorks(cfg: Config, s: State)
    requires cfg.connected && ClientInv(cfg, s.client) && Enabled(cfg, s, ClientStep) && !ClientWaits(s.client)
    ensures ClientWorked(cfg, s.client, ClientAct(cfg, s).client)
  {
    match s.client.pc
    case PollWrite => ClientWorksPolling(cfg, s);
    case PollTrigger => ClientWorksPolling(cfg, s);
    case PostWrite => ClientWorksPosting(cfg, s);
    case PostTrigger => ClientWorksPosting(cfg, s);
    case _ => ClientWorksOtherwise(cfg, s);
  }

  /** While an operation is being counted the server has polled its request, and no other. */
  lemma CountedIsReceived(cfg: Config, s: State)
    requires Inv(cfg, s) && s.client.pc.Count? && !cfg.kind.Wr?
    ensures s.server.received == s.client.ops + 1
  {
    Counts(cfg, s);
  }

  /** A turn that only the client took is paid for, the server's work for a next operation included. */
  lemma ClientPays(cfg: Config, s: State, t: State)
    requires t.server == s.server && ClientWorked(cfg, s.client, t.client)
    requires s.client.pc.Count? && !cfg.kind.Wr? ==> s.server.received == s.client.ops + 1
    ensures PaidBy(Rank(cfg, s), Rank(cfg, t), if s.client.pc.Count? then OpCost(cfg) else 0, Ended(t.client))
  {}

  lemma ClientTurnRank(cfg: Config, s: State)
    requires cfg.connected && Inv(cfg, s) && Enabled(cfg, s, ClientStep) && !ClientWaits(s.client)
    ensures var t := ClientAct(cfg, s);
      && t.client.ops == s.client.ops + Bit(s.client.pc.Count?)
      && PaidBy(Rank(cfg, s), Rank(cfg, t), if s.client.pc.Count? then OpCost(cfg) else 0, Ended(t.client))
  {
    ClientWorks(cfg, s);
    if s.client.pc.Count? && !cfg.kind.Wr? { CountedIsReceived(cfg, s); }
    assert ClientAct(cfg, s).server == s.server;
    ClientPays(cfg, s, ClientAct(cfg, s));
  }

  lemma ServerTurnRank(cfg: Config, s: State)
    requires cfg.connected && Inv(cfg, s) && Enabled(cfg, s, ServerStep) && !ServerWaits(s.server)
    ensures var t := ServerAct(cfg, s);
      t.client == s.client && Rank(cfg, t) + 1 == Rank(cfg, s)
  {
    Counts(cfg, s);
    ServerQueues(cfg, s);
    ServerWorks(cfg, s);
  }

  ghost predicate ServerWorked(cfg: Config, v: Server, v': Server) {
    if v.pc.PollRecv?
    then v'.received == v.received + 1 && ServerRank(cfg, v') + 1 == ServerRank(cfg, v) + SERVER_TURNS_PER_OP
    else v'.received == v.received && ServerRank(cfg, v') + 1 == ServerRank(cfg, v)
  }

  lemma ServerWorksPolling(cfg: Config, s: State)
    requires cfg.connected && ServerInv(cfg, s.server) && s.server.ep.sendCq != []
    requires s.server.pc.PollMetadata? || s.server.pc.PollNotify?
    ensures ServerWorked(cfg, s.server, ServerAct(cfg, s).server)
  {
    RetireAll(s.server.ep.sq);
    assert Min(cfg.Batch(), |s.server.ep.sendCq|) == 1;
  }

  lemma ServerWorksOtherwise(cfg: Config, s: State)
    requires cfg.connected && ServerInv(cfg, s.server) && !s.server.pc.Idle? && !ServerWaits(s.server)
    requires !s.server.pc.PollMetadata? && !s.server.pc.PollNotify?
    ensures ServerWorked(cfg, s.server, ServerAct(cfg, s).server)
  {
    assert s.server.ep.sq == [];
  }

  lemma ServerWorks(cfg: Config, s: State)
    requires cfg.connected && ServerInv(cfg, s.server) && !s.server.pc.Idle? && !ServerWaits(s.server)
    ensures ServerWorked(cfg, s.server, ServerAct(cfg, s).server)
  {
    if s.server.pc.PollMetadata? || s.server.pc.PollNotify? {
      ServerWorksPolling(cfg, s);
    } else {
      ServerWorksOtherwise(cfg, s);
    }
  }

  lemma ClientNicMoves(cfg: Config, s: State, i: nat)
    requires |s.client.ep.sq| <= 2 && CanAdvance(s.client.ep.sq, i) && ClientNicAct(cfg, s, i).fault == NoFault
    ensures var t := ClientNicAct(cfg, s, i);
      && Moves(t.client.ep.sq) + 1 == Moves(s.client.ep.sq)
      && t.client.pc == s.client.pc && t.client.ops == s.client.ops
      && t.server.pc == s.server.pc && t.server.ep.sq == s.server.ep.sq && t.server.received == s.server.received
  {
    MovesDown(s.client.ep, i);
  }

  lemma ServerNicMoves(s: State, i: nat)
    requires |s.server.ep.sq| <= 2 && CanAdvance(s.server.ep.sq, i) && ServerNicAct(s, i).fault == NoFault
    ensures var t := ServerNicAct(s, i);
      && Moves(t.server.ep.sq) + 1 == Moves(s.server.ep.sq)
      && t.server.pc == s.server.pc && t.server.received == s.server.received
      && t.client.pc == s.client.pc && t.client.ep.sq == s.client.ep.sq && t.client.ops == s.client.ops
  {
    MovesDown(s.server.ep, i);
  }

  lemma ClientNicRank(cfg: Config, s: State, i: nat)
    requires Inv(cfg, s) && CanAdvance(s.client.ep.sq, i)
    ensures var t := ClientNicAct(cfg, s, i);
      t.client.ops == s.client.ops && Rank(cfg, t) + 1 == Rank(cfg, s)
  {
    ClientNicTurn(cfg, s, i);
    ClientNicMoves(cfg, s, i);
  }

  lemma ServerNicRank(cfg: Config, s: State, i: nat)
    requires Inv(cfg, s) && CanAdvance(s.server.ep.sq, i)
    ensures var t := ServerNicAct(s, i);
      t.client.ops == s.client.ops && Rank(cfg, t) + 1 == Rank(cfg, s)
  {
    ServerNicTurn(cfg, s, i);
    ServerNicMoves(s, i);
  }

  ghost predicate Paid(cfg: Config, s: State, t: State) {
    || (t.client.ops == s.client.ops && PaidBy(Rank(cfg, s), Rank(cfg, t), 0, Ended(t.client)))
    || (t.client.ops == s.client.ops + 1 && PaidBy(Rank(cfg, s), Rank(cfg, t), OpCost(cfg), Ended(t.client)))
  }

  /** Every effective turn lowers the rank by one; only counting an operation raises it, by a
      fixed amount. */
  lemma EffectiveTurn(cfg: Config, s: State, step: Step)
    requires cfg.connected && Inv(cfg, s) && Enabled(cfg, s, step) && Effective(s, step)
    ensures Paid(cfg, s, Apply(cfg, s, step))
  {
    match step
    case ClientStep => ClientTurnRank(cfg, s);
    case ServerStep => ServerTurnRank(cfg, s);
    case ClientNic(i) => ClientNicRank(cfg, s, i);
    case ServerNic(i) => ServerNicRank(cfg, s, i);
    case _ => assert false;
  }

  lemma IdleTurn(cfg: Config, s: State, step: Step)
    requires cfg.connected && Enabled(cfg, s, step) && !Effective(s, step)
    ensures var t := Apply(cfg, s, step);
      t.client == s.client && t.server == s.server
  {}

  lemma EndedStays(cfg: Config, s: State, step: Step)
    requires Enabled(cfg, s, step) && Ended(s.client)
    ensures Ended(Apply(cfg, s, step).client)
  {}

  // ---------------------------------------------------------------- whole runs

  lemma {:induction false} RunKeeps(cfg: Config, trace: seq<Step>)
    requires cfg.connected && Run(cfg, trace).Reached?
    ensures Inv(cfg, Run(cfg, trace).state)
    decreases |trace|
  {
    if trace == [] {
      InitInv(cfg);
    } else {
      var before := trace[..|trace| - 1];
      RunKeeps(cfg, before);
      StepKeeps(cfg, Run(cfg, before).state, trace[|trace| - 1]);
    }
  }

  /** How many of the turns of a run were effective. */
  function Effort(cfg: Config, trace: seq<Step>): nat
    requires Run(cfg, trace).Reached?
    decreases |trace|
  {
    if trace == [] then 0
    else
      var before := trace[..|trace| - 1];
      Effort(cfg, before) + if Effective(Run(cfg, before).state, trace[|trace| - 1]) then 1 else 0
  }

  // the effort that `n` counted operations pay for
  function Budget(cfg: Config, n: nat): int { Rank(cfg, Init(cfg)) + OpCost(cfg) * n }

  lemma BudgetGrows(cfg: Config, n: nat)
    ensures Budget(cfg, n + 1) == Budget(cfg, n) + OpCost(cfg)
  {
    Distributes(OpCost(cfg), n);
  }

  lemma Distributes(c: nat, n: nat)
    ensures c * (n + 1) == c * n + c
  {}

  /** The ledger of one state: effort spent and work left against the budget. */
  ghost predicate Balanced(effort: nat, rank: nat, budget: int, ended: bool) {
    effort + rank <= budget && (!ended ==> effort + rank == budget)
  }

  lemma PaymentBalances(effort: nat, before: nat, after: nat, credit: nat, budget: int, wasEnded: bool, ended: bool)
    requires PaidBy(before, after, credit, ended) && (wasEnded ==> ended)
    requires Balanced(effort, before, budget, wasEnded)
    ensures Balanced(effort + 1, after, budget + credit, ended)
  {}

  /** What a turn from `s` to `t` was paid for with. */
  function Credit(cfg: Config, s: State, t: State): nat {
    if t.client.ops == s.client.ops then 0 else OpCost(cfg)
  }

  lemma TurnBalances(cfg: Config, s: State, t: State, effort: nat)
    requires Paid(cfg, s, t) && (Ended(s.client) ==> Ended(t.client))
    requires Balanced(effort, Rank(cfg, s), Budget(cfg, s.client.ops), Ended(s.client))
    ensures Balanced(effort + 1, Rank(cfg, t), Budget(cfg, t.client.ops), Ended(t.client))
  {
    BudgetGrows(cfg, s.client.ops);
    PaymentBalances(effort, Rank(cfg, s), Rank(cfg, t), Credit(cfg, s, t), Budget(cfg, s.client.ops),
                    Ended(s.client), Ended(t.client));
  }

  /** Conservation of work: the effective turns of a run and the ones still outstanding are
      paid for by the operations counted, exactly so as long as the worker has not ended. */
  lemma {:induction false} EffortIsConserved(cfg: Config, trace: seq<Step>)
    requires cfg.connected && Run(cfg, trace).Reached?
    ensures var s := Run(cfg, trace).state;
      Balanced(Effort(cfg, trace), Rank(cfg, s), Budget(cfg, s.client.ops), Ended(s.client))
    decreases |trace|
  {
    if trace != [] {
      var before := trace[..|trace| - 1];
      EffortIsConserved(cfg, before);
      RunKeeps(cfg, before);
      var s, step := Run(cfg, before).state, trace[|trace| - 1];
      if Effective(s, step) {
        EffectiveTurn(cfg, s, step);
        if Ended(s.client) { EndedStays(cfg, s, step); }
        TurnBalances(cfg, s, Run(cfg, trace).state, Effort(cfg, before));
      } else {
        IdleTurn(cfg, s, step);
      }
    }
  }

  /** What one operation costs in each build: client turns, server turns and three adapter
      moves for each message. */
  lemma Costs(cfg: Config)
    ensures OpCost(cfg) == (match cfg.kind case Ws => 21 case Wi => 16 case Wr => 11) + if cfg.noAck then 0 else 1
    ensures Rank(cfg, Init(cfg)) == OpCost(cfg) + 6
  {
    assert TurnsLeft(cfg, PollNotification) == 2;
    assert TurnsLeft(cfg, PollTrigger) == if cfg.kind.Wr? then 2 else 3;
    assert TurnsLeft(cfg, PostTrigger) == 4 + TurnsLeft(cfg, ClientAfter(cfg, PostTrigger));
    assert TurnsLeft(cfg, PostRecv) == 1 + TurnsLeft(cfg, PostTrigger);
    assert TurnsLeft(cfg, PollWrite) == 1 + TurnsLeft(cfg, ClientAfter(cfg, PollWrite));
    assert TurnsLeft(cfg, PostWrite) == 4 + TurnsLeft(cfg, ClientAfter(cfg, PostWrite));
  }

  lemma {:induction false} BudgetMonotone(cfg: Config, m: nat, n: nat)
    requires m <= n
    ensures Budget(cfg, m) <= Budget(cfg, n)
  {
    if m < n {
      BudgetMonotone(cfg, m, n - 1);
      BudgetGrows(cfg, n - 1);
    }
  }

  /** Bounded response: a run with more effective turns than `n` operations pay for has
      counted more than `n`. */
  lemma EnoughTurnsCount(cfg: Config, trace: seq<Step>, n: nat)
    requires cfg.connected && Run(cfg, trace).Reached?
    requires Effort(cfg, trace) > Budget(cfg, n)
    ensures Run(cfg, trace).state.client.ops > n
  {
    EffortIsConserved(cfg, trace);
    if Run(cfg, trace).state.client.ops <= n {
      BudgetMonotone(cfg, Run(cfg, trace).state.client.ops, n);
    }
  }
}
