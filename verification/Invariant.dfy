/**
 The global invariant behind the three protocols.  The program states it nowhere: that
 queues of one or two entries never overflow, that every message finds its buffer, and
 that what was counted has been persisted all follow from it.
 */
module Invariant {
  import opened Machine
  import opened Protocol

  /** The build whose send slots are never freed: the client of Wi under NO_ACK posts
      only unsignaled requests and never polls its send CQ. */
  predicate NeverRetires(cfg: Config) { cfg.kind.Wi? && cfg.noAck }

  // ---------------------------------------------------------------- shapes

  function Req(cfg: Config, op: Opcode, version: nat): Request {
    Request(op, version, cfg.Signaled(op))
  }

  /** The requests that occupy the client's send queue when it stands at `pc`. */
  function ClientRequests(cfg: Config, pc: ClientPc, issued: nat): seq<Request> {
    if NeverRetires(cfg) then
      if issued == 0 then []
      else if issued == 1 then [Req(cfg, WriteWithImm, 1)]
      else [Req(cfg, WriteWithImm, 1), Req(cfg, WriteWithImm, 2)]
    else match pc
      case PollWrite => [Req(cfg, Write, issued)]
      case PostRecv => if cfg.noAck && cfg.kind.Ws? then [Req(cfg, Write, issued)] else []
      case PostTrigger => if cfg.noAck then [Req(cfg, Write, issued)] else []
      case PollTrigger =>
        if cfg.noAck then [Req(cfg, Write, issued), Req(cfg, cfg.Trigger(), issued)]
        else [Req(cfg, cfg.Trigger(), issued)]
      case _ => []
  }

  function ServerRequests(cfg: Config, pc: ServerPc, sent: nat): seq<Request> {
    match pc
    case PollMetadata => [Req(cfg, Metadata, 0)]
    case PollNotify => if sent > 0 then [Req(cfg, Notification, sent - 1)] else []
    case _ => []
  }

  ghost predicate Holds(sq: seq<Slot>, rs: seq<Request>) {
    && |sq| == |rs| <= 2
    && (|sq| > 0 ==> sq[0].request == rs[0])
    && (|sq| > 1 ==> sq[1].request == rs[1] && sq[0].stage.Rank() >= sq[1].stage.Rank())
  }

  /** The send CQ has exactly the completion of the newest request, if that one asked for
      a completion and was acknowledged. */
  ghost predicate Completions(ep: Endpoint) {
    ep.sendCq ==
      if ep.sq != [] && ep.sq[|ep.sq| - 1].request.signaled && ep.sq[|ep.sq| - 1].stage.Acked?
      then [ep.sq[|ep.sq| - 1].request.op] else []
  }

  function Unexecuted(sq: seq<Slot>): nat {
    if sq != [] && sq[|sq| - 1].stage.Rank() < 2 then 1 else 0
  }

  // ---------------------------------------------------------------- client

  predicate ClientPcValid(cfg: Config, pc: ClientPc) {
    match pc
    case PostWrite => !cfg.kind.Wi?
    case PollWrite => !cfg.kind.Wi? && !cfg.noAck
    case PostRecv => !cfg.kind.Wr?
    case PollTrigger => !NeverRetires(cfg)
    case PollNotification => !cfg.kind.Wr?
    case Failed => NeverRetires(cfg)
    case _ => true
  }

  // the current operation's write is posted
  predicate WriteIssued(cfg: Config, pc: ClientPc) {
    (pc.PollWrite? || pc.PollTrigger? || pc.PollNotification? || pc.Count?)
    || (!cfg.kind.Wi? && (pc.PostRecv? || pc.PostTrigger?))
  }

  predicate TriggerIssued(pc: ClientPc) { (pc.PollTrigger? || pc.PollNotification? || pc.Count?) }

  // a receive is posted or its completion is still in the CQ
  predicate ExpectsMessage(cfg: Config, pc: ClientPc) {
    pc.AwaitMetadata?
    || (!cfg.kind.Wr? && (pc.PostTrigger? || pc.PollTrigger? || pc.PollNotification? || pc.Failed?))
  }

  function Bit(b: bool): nat { if b then 1 else 0 }

  ghost predicate ClientInv(cfg: Config, c: Client) {
    && ClientPcValid(cfg, c.pc)
    && Holds(c.ep.sq, ClientRequests(cfg, c.pc, c.issued))
    && Completions(c.ep)
    && c.issued == c.ops + Bit(WriteIssued(cfg, c.pc))
    && c.triggered == c.ops + Bit(TriggerIssued(c.pc))
    && (NeverRetires(cfg) ==>
         && c.issued <= 2
         && (c.issued == 2 ==> c.ep.sq[0].stage.Rank() >= 2)
         && (c.pc.Failed? ==> c.ops == 2))
    && c.received + |c.ep.recvCq| == c.arrived
    && |c.ep.rq| + |c.ep.recvCq| == Bit(ExpectsMessage(cfg, c.pc))
    && (c.ep.rq != [] ==> c.ep.rq[0] == if c.pc.AwaitMetadata? then MetadataBuffer else NotificationBuffer)
    && c.received == (
         if c.pc.AwaitMetadata? then 0
         else if cfg.kind.Wr? then 1
         else 1 + c.ops + Bit(c.pc.Count?))
    && (c.pc.AwaitMetadata? ==> c.ops == 0)
  }

  // ---------------------------------------------------------------- server

  predicate ServerPcValid(cfg: Config, pc: ServerPc) {
    match pc
    case SendMetadata => true
    case PollMetadata => true
    case Idle => cfg.kind.Wr?
    case Dead => false
    case _ => !cfg.kind.Wr?
  }

  // polled a trigger whose receive is not posted again yet
  predicate MustRepost(cfg: Config, pc: ServerPc) {
    pc.Repost? || (cfg.kind.Wi? && pc.Persist?)
  }

  predicate MustPersist(cfg: Config, pc: ServerPc) {
    pc.Persist? || (!cfg.kind.Wi? && pc.Repost?)
  }

  predicate MustNotify(pc: ServerPc) { (pc.Repost? || pc.Persist? || pc.Notify?) }

  ghost predicate ServerInv(cfg: Config, v: Server) {
    && ServerPcValid(cfg, v.pc)
    && Holds(v.ep.sq, ServerRequests(cfg, v.pc, v.sent))
    && Completions(v.ep)
    && (if v.pc.SendMetadata? then v.sent == 0 && v.received == 0
        else v.sent + Bit(MustNotify(v.pc)) == 1 + v.received)
    && (v.pc.PollMetadata? ==> v.received == 0)
    && (MustNotify(v.pc) || v.pc.PollNotify? ==> v.received > 0)
    && v.persists + Bit(MustPersist(cfg, v.pc)) == v.received
    && (if cfg.kind.Wr? then v.ep.rq == [] && v.ep.recvCq == [] && v.received == 0
        else
          && |v.ep.rq| + |v.ep.recvCq| + Bit(MustRepost(cfg, v.pc)) == 1
          && v.received + |v.ep.recvCq| == v.arrived)
    && (v.ep.rq != [] ==> v.ep.rq[0] == ServerBuffer(cfg))
    && (v.ep.recvCq != [] ==> v.ep.recvCq[0] == TriggerRecvOpcode(cfg))
  }

  // ---------------------------------------------------------------- both sides

  /** Triggers posted but not yet executed by the server's adapter: the newest request of
      the client, when that is the trigger of the current operation. */
  function InFlight(cfg: Config, c: Client): nat {
    if c.pc.PollTrigger? || NeverRetires(cfg) then Unexecuted(c.ep.sq) else 0
  }

  /** Every message posted by one side has arrived at the other, except the newest one
      while its slot is not executed. */
  ghost predicate LinkInv(cfg: Config, c: Client, v: Server) {
    && v.arrived + InFlight(cfg, c) == c.triggered
    && c.arrived + Unexecuted(v.ep.sq) == v.sent
  }

  // ---------------------------------------------------------------- memory

  /** The current write is posted but not executed, so any byte may be old or new. */
  predicate WriteInFlight(cfg: Config, c: Client) {
    c.ep.sq != [] &&
    if cfg.kind.Wi? then c.ep.sq[|c.ep.sq| - 1].stage.Rank() < 2
    else c.ep.sq[0].request.op.Write? && c.ep.sq[0].stage.Rank() < 2
  }

  /** How many operations the server side has made durable. */
  function Durable(cfg: Config, s: State): nat {
    if !cfg.usePmem then 0
    else if cfg.kind.Wr? then if cfg.readFlushes then s.server.arrived else 0
    else s.server.persists
  }

  ghost predicate MemoryInv(cfg: Config, s: State) {
    && |s.vol| == cfg.size
    && |s.per| == cfg.size
    && (forall b :: 0 <= b < cfg.size ==>
         s.vol[b] == s.client.issued || (WriteInFlight(cfg, s.client) && s.vol[b] + 1 == s.client.issued))
    && (forall b :: 0 <= b < cfg.size ==> Durable(cfg, s) <= s.per[b] <= s.vol[b])
  }

  ghost predicate Inv(cfg: Config, s: State) {
    && s.fault == NoFault
    && ClientInv(cfg, s.client)
    && ServerInv(cfg, s.server)
    && LinkInv(cfg, s.client, s.server)
    && MemoryInv(cfg, s)
  }

  lemma InitInv(cfg: Config)
    ensures Inv(cfg, Init(cfg))
  {}

  // ---------------------------------------------------------------- consequences of Inv

  /** Counting messages: who can be how far ahead of whom. */
  lemma Counts(cfg: Config, s: State)
    requires Inv(cfg, s)
    ensures !cfg.kind.Wr? && !s.client.pc.AwaitMetadata? ==>
              s.client.ops + Bit(s.client.pc.Count?) <= s.server.persists
    ensures !cfg.kind.Wr? ==> s.server.persists <= s.server.received <= s.server.arrived
    ensures s.server.arrived <= s.client.triggered <= s.client.issued <= s.client.ops + 1
  {}

  // ---------------------------------------------------------------- turns of the client worker

  /** What a turn of the client leaves for the other side to see: nothing executed yet,
      except that a new write may have been posted. */
  ghost predicate Unnoticed(cfg: Config, c: Client, c': Client) {
    && c'.arrived == c.arrived
    && c'.triggered + InFlight(cfg, c) == c.triggered + InFlight(cfg, c')
    && if c'.issued == c.issued then WriteInFlight(cfg, c') == WriteInFlight(cfg, c)
       else c'.issued == c.issued + 1 && !WriteInFlight(cfg, c) && WriteInFlight(cfg, c')
  }

  lemma UnnoticedKeeps(cfg: Config, s: State, c': Client)
    requires Inv(cfg, s) && ClientInv(cfg, c') && Unnoticed(cfg, s.client, c')
    ensures Inv(cfg, s.(client := c'))
  {
    var t := s.(client := c');
    assert LinkInv(cfg, c', s.server);
    assert MemoryInv(cfg, t);
  }

  ghost predicate ClientTurnOk(cfg: Config, s: State, t: State) {
    t == s.(client := t.client) && ClientInv(cfg, t.client) && Unnoticed(cfg, s.client, t.client)
  }

  lemma RetireAll(sq: seq<Slot>)
    requires sq != [] && sq[|sq| - 1].request.signaled
    requires forall k :: 0 <= k < |sq| - 1 ==> !sq[k].request.signaled
    ensures Retire(sq, 1) == []
  {
    if |sq| > 1 {
      RetireAll(sq[1..]);
      assert Retire(sq[1..], 1) == RetireOne(sq[1..]);
    }
  }

  /** Polling the completion of a signaled request frees its slot and those of the unsignaled
      ones before it, and nothing after it. */
  lemma {:induction false} RetireFrees(before: seq<Slot>, done: Slot, after: seq<Slot>)
    requires done.request.signaled && forall k :: 0 <= k < |before| ==> !before[k].request.signaled
    ensures Retire(before + [done] + after, 1) == after
  {
    var sq := before + [done] + after;
    assert Retire(sq, 1) == RetireOne(sq);
    if before == [] {
      assert sq[0] == done && sq[1..] == after;
    } else {
      RetireFrees(before[1..], done, after);
      assert sq[1..] == before[1..] + [done] + after;
      assert Retire(sq[1..], 1) == RetireOne(sq[1..]);
    }
  }

  /** When a message or a completion cannot be stored. */
  lemma WhenAdaptersFail(ep: Endpoint, want: Buffer, i: nat)
    requires i < |ep.sq|
    ensures ArrivalFault(ep, want) == NoFault <==> ep.rq != [] && ep.rq[0] == want && |ep.recvCq| != 1
    ensures ArrivalFault(ep, want) == ReceiverNotReady <==> ep.rq == []
    ensures Overruns(ep, i) <==> ep.sq[i].request.signaled && |ep.sendCq| >= 1
  {}

  /** When a call fails: a send when max_send_wr slots are occupied, a receive when one is posted. */
  lemma WhenClientPostsFail(cfg: Config, s: State, op: Opcode)
    requires cfg.connected
    ensures ClientPost(cfg, s, op) == Goto(s, Failed) <==> |s.client.ep.sq| >= if cfg.noAck then 2 else 1
    ensures ClientPostRecv(cfg, s) == Goto(s, Failed) <==> |s.client.ep.rq| >= 1
  {
    if |s.client.ep.sq| < cfg.MaxSendWr() { assert |ClientPost(cfg, s, op).client.ep.sq| == |s.client.ep.sq| + 1; }
    if s.client.ep.rq == [] { assert |ClientPostRecv(cfg, s).client.ep.rq| == 1; }
  }

  lemma WhenServerPostsFail(cfg: Config, s: State, op: Opcode)
    requires cfg.connected
    ensures ServerPost(cfg, s, op) == s.(server := s.server.(pc := Dead)) <==> |s.server.ep.sq| >= if cfg.noAck then 2 else 1
    ensures ServerRepost(cfg, s) == s.(server := s.server.(pc := Dead)) <==> |s.server.ep.rq| >= 1
  {
    if |s.server.ep.sq| < cfg.MaxSendWr() { assert |ServerPost(cfg, s, op).server.ep.sq| == |s.server.ep.sq| + 1; }
    if s.server.ep.rq == [] { assert |ServerRepost(cfg, s).server.ep.rq| == 1; }
  }

  /** A poll of node_poll_n_cq takes the oldest completions, one in Ws and up to eight in the others. */
  lemma PollsTakeUpTo(cfg: Config, s: State)
    requires cfg.connected
    ensures var n := Min(if cfg.kind.Ws? then 1 else 8, |s.client.ep.sendCq|);
      ClientPollSend(cfg, s).client.ep.sendCq == s.client.ep.sendCq[n..]
    ensures s.client.pc.PollNotification? ==>
              var n := Min(if cfg.kind.Ws? then 1 else 8, |s.client.ep.recvCq|);
              ClientAct(cfg, s).client.ep.recvCq == s.client.ep.recvCq[n..]
  {}

  /** The server takes a completion whose opcode is not the one it tests for and goes on polling. */
  lemma OtherCompletionIsDropped(cfg: Config, s: State)
    requires s.server.ep.recvCq != []
    requires s.server.ep.recvCq[0] != if cfg.kind.Wi? then RecvWithImm else Recv
    ensures ServerPollRecv(cfg, s) == s.(server := s.server.(ep := s.server.ep.(recvCq := s.server.ep.recvCq[1..])))
  {}

  lemma ClientPostsWrite(cfg: Config, s: State)
    requires cfg.connected && ClientInv(cfg, s.client) && s.client.pc.PostWrite?
    ensures ClientTurnOk(cfg, s, ClientAct(cfg, s))
  {}

  lemma ClientPostsUnretired(cfg: Config, s: State)
    requires cfg.connected && ClientInv(cfg, s.client) && s.client.pc.PostTrigger?
    requires NeverRetires(cfg) && InFlight(cfg, s.client) == 0
    ensures ClientTurnOk(cfg, s, ClientAct(cfg, s))
  {
    if s.client.issued < 2 {
      assert |s.client.ep.sq| == s.client.issued;
    } else {
      assert ClientAct(cfg, s) == Goto(s, Failed);
    }
  }

  lemma ClientPostsSecond(cfg: Config, s: State)
    requires cfg.connected && ClientInv(cfg, s.client) && s.client.pc.PostTrigger?
    requires cfg.noAck && !cfg.kind.Wi?
    ensures ClientTurnOk(cfg, s, ClientAct(cfg, s))
  {}

  lemma ClientPostsOnly(cfg: Config, s: State)
    requires cfg.connected && ClientInv(cfg, s.client) && s.client.pc.PostTrigger? && !cfg.noAck
    ensures ClientTurnOk(cfg, s, ClientAct(cfg, s))
  {
    assert s.client.ep.sq == [];
  }

  lemma ClientPostsTrigger(cfg: Config, s: State)
    requires cfg.connected && ClientInv(cfg, s.client) && s.client.pc.PostTrigger? && !NeverRetires(cfg)
    ensures ClientTurnOk(cfg, s, ClientAct(cfg, s))
  {
    if cfg.noAck { ClientPostsSecond(cfg, s); } else { ClientPostsOnly(cfg, s); }
  }

  lemma ClientPollsSend(cfg: Config, s: State)
    requires cfg.connected && ClientInv(cfg, s.client)
    requires s.client.pc.PollWrite? || s.client.pc.PollTrigger?
    ensures ClientTurnOk(cfg, s, ClientAct(cfg, s))
  {
    var ep := s.client.ep;
    if ep.sendCq != [] {
      RetireAll(ep.sq);
      assert Min(cfg.Batch(), |ep.sendCq|) == 1;
    }
  }

  lemma ClientPollsMetadata(cfg: Config, s: State)
    requires cfg.connected && ClientInv(cfg, s.client) && s.client.pc.AwaitMetadata?
    ensures ClientTurnOk(cfg, s, ClientAct(cfg, s))
  {}

  lemma ClientPollsNotification(cfg: Config, s: State)
    requires cfg.connected && ClientInv(cfg, s.client) && s.client.pc.PollNotification?
    ensures ClientTurnOk(cfg, s, ClientAct(cfg, s))
  {}

  lemma ClientPostsReceive(cfg: Config, s: State)
    requires cfg.connected && ClientInv(cfg, s.client) && s.client.pc.PostRecv?
    ensures ClientTurnOk(cfg, s, ClientAct(cfg, s))
  {}

  lemma ClientLoops(cfg: Config, s: State)
    requires cfg.connected && ClientInv(cfg, s.client) && (s.client.pc.LoopHead? || s.client.pc.Count?)
    ensures ClientTurnOk(cfg, s, ClientAct(cfg, s))
  {}

  lemma NothingInFlight(cfg: Config, s: State)
    requires Inv(cfg, s) && (s.client.pc.PostTrigger? || s.client.pc.LoopHead?)
    ensures InFlight(cfg, s.client) == 0
  {}

  lemma ClientQueues(cfg: Config, s: State)
    requires cfg.connected && ClientInv(cfg, s.client)
    requires NeverRetires(cfg) && s.client.pc.PostTrigger? ==> InFlight(cfg, s.client) == 0
    ensures ClientTurnOk(cfg, s, ClientAct(cfg, s))
  {
    match s.client.pc
    case PostWrite => ClientPostsWrite(cfg, s);
    case PostTrigger => if NeverRetires(cfg) { ClientPostsUnretired(cfg, s); } else { ClientPostsTrigger(cfg, s); }
    case PollWrite => ClientPollsSend(cfg, s);
    case PollTrigger => ClientPollsSend(cfg, s);
    case AwaitMetadata => ClientPollsMetadata(cfg, s);
    case PollNotification => ClientPollsNotification(cfg, s);
    case PostRecv => ClientPostsReceive(cfg, s);
    case Left =>
    case Failed =>
    case _ => ClientLoops(cfg, s);
  }

  lemma ClientTurn(cfg: Config, s: State)
    requires cfg.connected && Inv(cfg, s)
    ensures Inv(cfg, ClientAct(cfg, s))
  {
    if s.client.pc.PostTrigger? { NothingInFlight(cfg, s); }
    ClientQueues(cfg, s);
    UnnoticedKeeps(cfg, s, ClientAct(cfg, s).client);
  }

  // ---------------------------------------------------------------- turns of the server

  /** What a turn of the server keeps of its own queues, and what the client may notice. */
  ghost predicate ServerTurnOk(cfg: Config, s: State, t: State) {
    && t == s.(server := t.server, per := t.per)
    && ServerInv(cfg, t.server)
    && t.server.arrived == s.server.arrived
    && t.server.sent + Unexecuted(s.server.ep.sq) == s.server.sent + Unexecuted(t.server.ep.sq)
    && if s.server.pc.Persist?
       then t.server.persists == s.server.persists + 1 && t.per == if cfg.usePmem then s.vol else s.per
       else t.server.persists == s.server.persists && t.per == s.per
  }

  lemma ServerPollsSend(cfg: Config, s: State)
    requires cfg.connected && ServerInv(cfg, s.server) && (s.server.pc.PollMetadata? || s.server.pc.PollNotify?)
    ensures ServerTurnOk(cfg, s, ServerAct(cfg, s))
  {
    var ep := s.server.ep;
    if ep.sendCq != [] {
      RetireAll(ep.sq);
      assert Min(cfg.Batch(), |ep.sendCq|) == 1;
    }
  }

  lemma ServerPosts(cfg: Config, s: State)
    requires cfg.connected && ServerInv(cfg, s.server) && (s.server.pc.SendMetadata? || s.server.pc.Notify?)
    ensures ServerTurnOk(cfg, s, ServerAct(cfg, s))
  {}

  lemma ServerOther(cfg: Config, s: State)
    requires cfg.connected && ServerInv(cfg, s.server)
    requires s.server.pc.PollRecv? || s.server.pc.Repost? || s.server.pc.Persist?
    ensures ServerTurnOk(cfg, s, ServerAct(cfg, s))
  {}

  /** What the server is about to persist is in its memory already. */
  lemma PersistCovers(cfg: Config, s: State)
    requires Inv(cfg, s) && s.server.pc.Persist?
    ensures forall b :: 0 <= b < cfg.size ==> s.server.persists + 1 <= s.vol[b]
  {}

  lemma ServerQueues(cfg: Config, s: State)
    requires cfg.connected && ServerInv(cfg, s.server)
    ensures ServerTurnOk(cfg, s, ServerAct(cfg, s))
  {
    match s.server.pc
    case PollMetadata => ServerPollsSend(cfg, s);
    case PollNotify => ServerPollsSend(cfg, s);
    case SendMetadata => ServerPosts(cfg, s);
    case Notify => ServerPosts(cfg, s);
    case Idle =>
    case Dead =>
    case _ => ServerOther(cfg, s);
  }

  lemma ServerTurn(cfg: Config, s: State)
    requires cfg.connected && Inv(cfg, s)
    ensures Inv(cfg, ServerAct(cfg, s))
  {
    var t := ServerAct(cfg, s);
    ServerQueues(cfg, s);
    if s.server.pc.Persist? { PersistCovers(cfg, s); }
    ServerTurnKeeps(cfg, s, t);
  }

  lemma ServerTurnKeeps(cfg: Config, s: State, t: State)
    requires Inv(cfg, s) && ServerTurnOk(cfg, s, t)
    requires s.server.pc.Persist? ==> forall b :: 0 <= b < cfg.size ==> s.server.persists + 1 <= s.vol[b]
    ensures Inv(cfg, t)
  {
    assert LinkInv(cfg, t.client, t.server);
    assert MemoryInv(cfg, t);
  }

  // ---------------------------------------------------------------- turns of the client's adapter

  lemma ClientAdvances(cfg: Config, c: Client, i: nat)
    requires ClientInv(cfg, c) && CanAdvance(c.ep.sq, i) && c.ep.sq[i].stage.Rank() < 2
    ensures var c' := c.(ep := Advanced(c.ep, i));
      && ClientInv(cfg, c')
      && (c.ep.sq[i].stage.Posted? ==> Unnoticed(cfg, c, c'))
      && (c.ep.sq[i].stage.OnWire? ==>
           match c.ep.sq[i].request.op
           case Write => InFlight(cfg, c') == InFlight(cfg, c) && !WriteInFlight(cfg, c') && !cfg.kind.Wi?
           case WriteWithImm =>
             InFlight(cfg, c) == 1 && InFlight(cfg, c') == 0 && !WriteInFlight(cfg, c') && cfg.kind.Wi?
           case Flush =>
             && InFlight(cfg, c) == 1 && InFlight(cfg, c') == 0 && cfg.kind.Ws?
             && !WriteInFlight(cfg, c') && !WriteInFlight(cfg, c)
           case Read =>
             && InFlight(cfg, c) == 1 && InFlight(cfg, c') == 0 && cfg.kind.Wr?
             && !WriteInFlight(cfg, c') && !WriteInFlight(cfg, c)
           case _ => false)
      && (c.ep.sq[i].stage.OnWire? && c.ep.sq[i].request.op.IsWrite() ==> c.ep.sq[i].request.version == c.issued)
  {}

  lemma ClientCompletes(cfg: Config, c: Client, i: nat)
    requires ClientInv(cfg, c) && CanAdvance(c.ep.sq, i) && c.ep.sq[i].stage.Executed?
    ensures !Overruns(c.ep, i)
    ensures ClientInv(cfg, c.(ep := Completed(c.ep, i)))
    ensures Unnoticed(cfg, c, c.(ep := Completed(c.ep, i)))
  {}

  /** A flush SEND or a WRITE_WITH_IMM that reaches the server finds its receive posted. */
  lemma TriggerFindsReceive(cfg: Config, c: Client, v: Server)
    requires ClientInv(cfg, c) && ServerInv(cfg, v) && LinkInv(cfg, c, v)
    requires !cfg.kind.Wr? && InFlight(cfg, c) == 1
    ensures ArrivalFault(v.ep, WantedAtServer(cfg.Trigger())) == NoFault && v.ep.recvCq == []
    ensures forall code :: code == TriggerRecvOpcode(cfg) ==>
              ServerInv(cfg, v.(arrived := v.arrived + 1, ep := Consume(v.ep, code)))
  {
    assert v.arrived == c.ops && c.triggered == c.ops + 1;
    assert c.arrived >= 1 + c.ops;
  }

  lemma ClientNicTurn(cfg: Config, s: State, i: nat)
    requires Inv(cfg, s) && CanAdvance(s.client.ep.sq, i)
    ensures Inv(cfg, ClientNicAct(cfg, s, i))
  {
    var c := s.client;
    if c.ep.sq[i].stage.Executed? {
      ClientCompletes(cfg, c, i);
      UnnoticedKeeps(cfg, s, c.(ep := Completed(c.ep, i)));
    } else {
      ClientAdvances(cfg, c, i);
      if c.ep.sq[i].stage.Posted? {
        UnnoticedKeeps(cfg, s, c.(ep := Advanced(c.ep, i)));
      } else {
        ClientExecutes(cfg, s, i);
      }
    }
  }

  lemma ClientExecutes(cfg: Config, s: State, i: nat)
    requires Inv(cfg, s) && CanAdvance(s.client.ep.sq, i) && s.client.ep.sq[i].stage.OnWire?
    ensures Inv(cfg, ClientNicAct(cfg, s, i))
  {
    match s.client.ep.sq[i].request.op
    case Write => WriteExecutes(cfg, s, i);
    case Read => ReadExecutes(cfg, s, i);
    case _ => TriggerKeeps(cfg, s, i);
  }

  lemma WriteExecutes(cfg: Config, s: State, i: nat)
    requires Inv(cfg, s) && CanAdvance(s.client.ep.sq, i) && s.client.ep.sq[i].stage.OnWire?
    requires s.client.ep.sq[i].request.op.Write?
    ensures Inv(cfg, ClientNicAct(cfg, s, i))
  {
    var c := s.client;
    ClientAdvances(cfg, c, i);
    ExecutedKeeps(cfg, s, c.(ep := Advanced(c.ep, i)), s.server, Filled(cfg.size, c.issued), s.per);
  }

  lemma ReadExecutes(cfg: Config, s: State, i: nat)
    requires Inv(cfg, s) && CanAdvance(s.client.ep.sq, i) && s.client.ep.sq[i].stage.OnWire?
    requires s.client.ep.sq[i].request.op.Read?
    ensures Inv(cfg, ClientNicAct(cfg, s, i))
  {
    var c, v := s.client, s.server;
    ClientAdvances(cfg, c, i);
    ExecutedKeeps(cfg, s, c.(ep := Advanced(c.ep, i)), v.(arrived := v.arrived + 1), s.vol,
      if cfg.usePmem && cfg.readFlushes then s.vol else s.per);
  }

  /** The state after the trigger in slot `i` was executed. */
  function AfterTrigger(cfg: Config, s: State, i: nat): State
    requires i < |s.client.ep.sq| && s.server.ep.rq != []
  {
    var c, v := s.client, s.server;
    s.(client := c.(ep := Advanced(c.ep, i)),
       server := v.(arrived := v.arrived + 1, ep := Consume(v.ep, TriggerRecvOpcode(cfg))),
       vol := if cfg.kind.Wi? then Filled(cfg.size, c.issued) else s.vol)
  }

  lemma TriggerKeeps(cfg: Config, s: State, i: nat)
    requires Inv(cfg, s) && CanAdvance(s.client.ep.sq, i) && s.client.ep.sq[i].stage.OnWire?
    requires !s.client.ep.sq[i].request.op.Write? && !s.client.ep.sq[i].request.op.Read?
    ensures s.server.ep.rq != [] && Inv(cfg, AfterTrigger(cfg, s, i))
    ensures ClientNicAct(cfg, s, i) == AfterTrigger(cfg, s, i)
  {
    TriggerSides(cfg, s.client, s.server, i);
    TriggerExecution(cfg, s, i);
    var t := AfterTrigger(cfg, s, i);
    ExecutedKeeps(cfg, s, t.client, t.server, t.vol, s.per);
  }

  /** What both sides look like after a trigger was executed. */
  lemma TriggerSides(cfg: Config, c: Client, v: Server, i: nat)
    requires ClientInv(cfg, c) && ServerInv(cfg, v) && LinkInv(cfg, c, v)
    requires CanAdvance(c.ep.sq, i) && c.ep.sq[i].stage.OnWire?
    requires !c.ep.sq[i].request.op.Write? && !c.ep.sq[i].request.op.Read?
    ensures ArrivalFault(v.ep, WantedAtServer(c.ep.sq[i].request.op)) == NoFault
    ensures var r := c.ep.sq[i].request;
      (r.op.Flush? && cfg.kind.Ws?) || (r.op.WriteWithImm? && cfg.kind.Wi? && r.version == c.issued)
    ensures var c' := c.(ep := Advanced(c.ep, i));
      && ClientInv(cfg, c') && !WriteInFlight(cfg, c')
      && (cfg.kind.Ws? ==> !WriteInFlight(cfg, c))
      && InFlight(cfg, c) == 1 && InFlight(cfg, c') == 0
    ensures ServerInv(cfg, v.(arrived := v.arrived + 1, ep := Consume(v.ep, TriggerRecvOpcode(cfg))))
  {
    ClientAdvances(cfg, c, i);
    TriggerFindsReceive(cfg, c, v);
  }

  lemma TriggerExecution(cfg: Config, s: State, i: nat)
    requires i < |s.client.ep.sq| && s.client.ep.sq[i].stage.OnWire? && |s.vol| == cfg.size
    requires var r := s.client.ep.sq[i].request;
      (r.op.Flush? && cfg.kind.Ws?) || (r.op.WriteWithImm? && cfg.kind.Wi? && r.version == s.client.issued)
    requires ArrivalFault(s.server.ep, WantedAtServer(s.client.ep.sq[i].request.op)) == NoFault
    ensures ClientNicAct(cfg, s, i) == AfterTrigger(cfg, s, i)
  {}

  lemma ExecutedKeeps(cfg: Config, s: State, c': Client, v': Server, vol': seq<nat>, per': seq<nat>)
    requires Inv(cfg, s) && ClientInv(cfg, c') && ServerInv(cfg, v')
    requires c'.issued == s.client.issued && c'.triggered == s.client.triggered && c'.arrived == s.client.arrived
    requires v'.sent == s.server.sent && v'.persists == s.server.persists && v'.ep.sq == s.server.ep.sq
    requires v'.arrived + InFlight(cfg, c') == s.server.arrived + InFlight(cfg, s.client)
    requires !WriteInFlight(cfg, c')
    requires vol' == Filled(cfg.size, s.client.issued) || (vol' == s.vol && !WriteInFlight(cfg, s.client))
    requires var d := Durable(cfg, s.(server := v'));
      (per' == s.per && d == Durable(cfg, s)) || (per' == vol' && d <= s.client.issued)
    ensures Inv(cfg, s.(client := c', server := v', vol := vol', per := per'))
  {
    assert LinkInv(cfg, c', v');
    ExecutedMemory(cfg, s, s.(client := c', server := v', vol := vol', per := per'));
  }

  lemma ExecutedMemory(cfg: Config, s: State, t: State)
    requires MemoryInv(cfg, s) && t.client.issued == s.client.issued && !WriteInFlight(cfg, t.client)
    requires t.vol == Filled(cfg.size, s.client.issued) || (t.vol == s.vol && !WriteInFlight(cfg, s.client))
    requires || (t.per == s.per && Durable(cfg, t) == Durable(cfg, s))
             || (t.per == t.vol && Durable(cfg, t) <= s.client.issued)
    ensures MemoryInv(cfg, t)
  {}

  // ---------------------------------------------------------------- turns of the server's adapter

  lemma ServerAdvances(cfg: Config, v: Server, i: nat)
    requires ServerInv(cfg, v) && CanAdvance(v.ep.sq, i)
    ensures i == 0 && |v.ep.sq| == 1
    ensures v.ep.sq[i].stage.Rank() < 2 ==> ServerInv(cfg, v.(ep := Advanced(v.ep, i)))
    ensures v.ep.sq[i].stage.Executed? ==>
              !Overruns(v.ep, i) && ServerInv(cfg, v.(ep := Completed(v.ep, i)))
  {}

  /** Metadata and every later notification reach the buffer that was posted for them. */
  lemma MessageFindsReceive(cfg: Config, c: Client, v: Server)
    requires ClientInv(cfg, c) && ServerInv(cfg, v) && LinkInv(cfg, c, v)
    requires v.ep.sq != [] && v.ep.sq[0].stage.OnWire?
    ensures ArrivalFault(c.ep, WantedAtClient(v.ep.sq[0].request.op)) == NoFault
    ensures ClientInv(cfg, c.(arrived := c.arrived + 1, ep := Consume(c.ep, Recv)))
  {
    assert c.arrived + 1 == v.sent;
  }

  /** A turn of the server's adapter that the client does not notice. */
  lemma QuietKeeps(cfg: Config, s: State, ep: Endpoint)
    requires Inv(cfg, s) && ServerInv(cfg, s.server.(ep := ep))
    requires Unexecuted(ep.sq) == Unexecuted(s.server.ep.sq)
    ensures Inv(cfg, s.(server := s.server.(ep := ep)))
  {
    assert MemoryInv(cfg, s.(server := s.server.(ep := ep)));
  }

  lemma DeliveredKeeps(cfg: Config, s: State, cep: Endpoint, vep: Endpoint)
    requires Inv(cfg, s) && cep.sq == s.client.ep.sq
    requires ClientInv(cfg, s.client.(arrived := s.client.arrived + 1, ep := cep)) && ServerInv(cfg, s.server.(ep := vep))
    requires Unexecuted(vep.sq) + 1 == Unexecuted(s.server.ep.sq)
    ensures Inv(cfg, s.(client := s.client.(arrived := s.client.arrived + 1, ep := cep), server := s.server.(ep := vep)))
  {
    var t := s.(client := s.client.(arrived := s.client.arrived + 1, ep := cep), server := s.server.(ep := vep));
    assert LinkInv(cfg, t.client, t.server);
    assert MemoryInv(cfg, t);
  }

  lemma OneSlotMoves(ep: Endpoint)
    requires |ep.sq| == 1 && CanAdvance(ep.sq, 0)
    ensures Unexecuted(Advanced(ep, 0).sq) + (if ep.sq[0].stage.OnWire? then 1 else 0) == Unexecuted(ep.sq)
    ensures ep.sq[0].stage.Executed? ==> Unexecuted(Completed(ep, 0).sq) == Unexecuted(ep.sq)
  {}

  function AfterMessage(s: State): State
    requires s.client.ep.rq != [] && s.server.ep.sq != []
  {
    s.(client := s.client.(arrived := s.client.arrived + 1, ep := Consume(s.client.ep, Recv)),
       server := s.server.(ep := Advanced(s.server.ep, 0)))
  }

  lemma MessageExecution(s: State)
    requires s.server.ep.sq != [] && s.server.ep.sq[0].stage.OnWire?
    requires ArrivalFault(s.client.ep, WantedAtClient(s.server.ep.sq[0].request.op)) == NoFault
    ensures ServerNicAct(s, 0) == AfterMessage(s)
  {}

  lemma MessageKeeps(cfg: Config, s: State)
    requires Inv(cfg, s) && |s.server.ep.sq| == 1 && s.client.ep.rq != []
    requires ClientInv(cfg, s.client.(arrived := s.client.arrived + 1, ep := Consume(s.client.ep, Recv)))
    requires ServerInv(cfg, s.server.(ep := Advanced(s.server.ep, 0)))
    requires Unexecuted(Advanced(s.server.ep, 0).sq) + 1 == Unexecuted(s.server.ep.sq)
    ensures Inv(cfg, AfterMessage(s))
  {
    DeliveredKeeps(cfg, s, Consume(s.client.ep, Recv), Advanced(s.server.ep, 0));
  }

  lemma MessageExecutes(cfg: Config, s: State)
    requires Inv(cfg, s) && CanAdvance(s.server.ep.sq, 0) && s.server.ep.sq[0].stage.OnWire?
    ensures s.client.ep.rq != [] && Inv(cfg, AfterMessage(s)) && ServerNicAct(s, 0) == AfterMessage(s)
  {
    MessageFindsReceive(cfg, s.client, s.server);
    MessageExecution(s);
    ServerAdvances(cfg, s.server, 0);
    OneSlotMoves(s.server.ep);
    MessageKeeps(cfg, s);
  }

  lemma ServerNicTurn(cfg: Config, s: State, i: nat)
    requires Inv(cfg, s) && CanAdvance(s.server.ep.sq, i)
    ensures Inv(cfg, ServerNicAct(s, i))
  {
    ServerAdvances(cfg, s.server, i);
    OneSlotMoves(s.server.ep);
    match s.server.ep.sq[0].stage
    case Posted => QuietKeeps(cfg, s, Advanced(s.server.ep, 0));
    case OnWire => MessageExecutes(cfg, s);
    case Executed => QuietKeeps(cfg, s, Completed(s.server.ep, 0));
    case Acked =>
  }

  // ---------------------------------------------------------------- every turn

  lemma WriteOnWire(cfg: Config, c: Client, i: nat)
    requires ClientInv(cfg, c) && CanAdvance(c.ep.sq, i) && c.ep.sq[i].stage.OnWire? && c.ep.sq[i].request.op.IsWrite()
    ensures WriteInFlight(cfg, c) && c.ep.sq[i].request.version == c.issued
  {}

  lemma PlaceKeeps(cfg: Config, s: State, i: nat, b: nat)
    requires Inv(cfg, s) && Enabled(cfg, s, Place(i, b))
    ensures Inv(cfg, Apply(cfg, s, Place(i, b)))
  {
    WriteOnWire(cfg, s.client, i);
    assert MemoryInv(cfg, Apply(cfg, s, Place(i, b)));
  }

  lemma EvictKeeps(cfg: Config, s: State, b: nat)
    requires Inv(cfg, s) && Enabled(cfg, s, Evict(b))
    ensures Inv(cfg, Apply(cfg, s, Evict(b)))
  {
    assert MemoryInv(cfg, Apply(cfg, s, Evict(b)));
  }

  lemma StepKeeps(cfg: Config, s: State, step: Step)
    requires cfg.connected && Inv(cfg, s) && Enabled(cfg, s, step)
    ensures Inv(cfg, Apply(cfg, s, step))
  {
    match step
    case ClientStep => ClientTurn(cfg, s);
    case ServerStep => ServerTurn(cfg, s);
    case ClientNic(i) => ClientNicTurn(cfg, s, i);
    case ServerNic(i) => ServerNicTurn(cfg, s, i);
    case Place(i, b) => PlaceKeeps(cfg, s, i, b);
    case Evict(b) => EvictKeeps(cfg, s, b);
    case RaiseStop =>
  }
}
