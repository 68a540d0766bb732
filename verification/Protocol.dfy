/**
 The three remote-persistence protocols of the benchmarks as one labelled
 transition system.  A client worker, a server worker and the two network
 adapters take turns; `Apply` is one atomic turn of one of them.

 - Ws: RDMA WRITE followed by a SEND that asks the server to flush
 - Wi: RDMA WRITE_WITH_IMM that also wakes the server
 - Wr: RDMA WRITE followed by a zero-length RDMA READ, no server worker

 Numbers that the programs do not keep (the version carried by a write and the
 message counts) are history: nothing branches on them.
 */
module Protocol {
  import opened Machine

  datatype Kind = Ws | Wi | Wr

  /** What is fixed at build time or on the command line.  `readFlushes` is the
      platform hypothesis that a READ drives earlier writes into the persistence
      domain; `connected` is the flag set by the ESTABLISHED event. */
  datatype Config = Config(kind: Kind, noAck: bool, usePmem: bool, readFlushes: bool, connected: bool, size: nat)
  {
    function MaxSendWr(): nat { if noAck then 2 else 1 }

    // how many completions one ibv_poll_cq call asks for in node_poll_n_cq
    function Batch(): nat { if kind.Ws? then 1 else 8 }

    // sq_sig_all is set exactly when NO_ACK is 0; otherwise the flags of each post decide
    predicate Signaled(op: Opcode) { !noAck || !op.IsWrite() }

    // the request that ends an operation
    function Trigger(): Opcode {
      match kind case Ws => Flush case Wi => WriteWithImm case Wr => Read
    }
  }

  const MAX_RECV_WR := 1
  const CQ_SIZE := 1

  datatype Opcode = Write | WriteWithImm | Flush | Read | Notification | Metadata
  {
    predicate IsWrite() { Write? || WriteWithImm? }
  }

  /** Life of a send request: posted, on the wire, executed by the responder, acknowledged. */
  datatype Stage = Posted | OnWire | Executed | Acked
  {
    function Rank(): nat {
      match this case Posted => 0 case OnWire => 1 case Executed => 2 case Acked => 3
    }
  }

  datatype Request = Request(op: Opcode, version: nat, signaled: bool)
  datatype Slot = Slot(request: Request, stage: Stage)
  datatype Buffer = MetadataBuffer | NotificationBuffer | FlushBuffer | EmptyBuffer
  datatype RecvOpcode = Recv | RecvWithImm

  /** A queue pair with its two completion queues.  A send slot stays occupied until a
      completion of this or a later request has been polled. */
  datatype Endpoint = Endpoint(sq: seq<Slot>, rq: seq<Buffer>, sendCq: seq<Opcode>, recvCq: seq<RecvOpcode>)

  datatype ClientPc =
    | AwaitMetadata | LoopHead | PostWrite | PollWrite | PostRecv | PostTrigger | PollTrigger
    | PollNotification | Count | Left | Failed

  datatype ServerPc =
    | SendMetadata | PollMetadata | PollRecv | Repost | Persist | Notify | PollNotify | Idle | Dead

  /** `issued`/`triggered`: writes and triggers posted; `arrived`: messages the adapter has
      put into a receive buffer; `received`: receive completions polled. */
  datatype Client = Client(pc: ClientPc, ep: Endpoint, issued: nat, triggered: nat, arrived: nat, received: nat, ops: nat)

  datatype Server = Server(pc: ServerPc, ep: Endpoint, arrived: nat, received: nat, persists: nat, sent: nat)

  datatype Fault = NoFault | ReceiverNotReady | WrongBuffer | CqOverrun

  /** `vol` is what the server's CPU would read from the slot, `per` what a crash would
      leave there; both give the version of the write each byte comes from. */
  datatype State = State(client: Client, server: Server, vol: seq<nat>, per: seq<nat>, stop: bool, fault: Fault)

  datatype Step =
    | ClientStep
    | ServerStep
    | ClientNic(i: nat)
    | ServerNic(i: nat)
    | Place(i: nat, b: nat)
    | Evict(b: nat)
    | RaiseStop

  // ---------------------------------------------------------------- control flow

  /** The statement that follows `pc` in the client worker's loop body. */
  function ClientAfter(cfg: Config, pc: ClientPc): ClientPc {
    match pc
    case AwaitMetadata => LoopHead
    case LoopHead => if cfg.kind.Wi? then PostRecv else PostWrite
    case PostWrite => if !cfg.noAck then PollWrite else if cfg.kind.Ws? then PostRecv else PostTrigger
    case PollWrite => if cfg.kind.Ws? then PostRecv else PostTrigger
    case PostRecv => PostTrigger
    case PostTrigger => if cfg.kind.Wi? && cfg.noAck then PollNotification else PollTrigger
    case PollTrigger => if cfg.kind.Wr? then Count else PollNotification
    case PollNotification => Count
    case Count => LoopHead
    case Left => Left
    case Failed => Failed
  }

  /** The statement that follows `pc` on the server.  Ws re-posts its receive before it
      persists, Wi persists first; Wr has no server worker. */
  function ServerAfter(cfg: Config, pc: ServerPc): ServerPc {
    match pc
    case SendMetadata => PollMetadata
    case PollMetadata => if cfg.kind.Wr? then Idle else PollRecv
    case PollRecv => if cfg.kind.Wi? then Persist else Repost
    case Repost => if cfg.kind.Wi? then Notify else Persist
    case Persist => if cfg.kind.Wi? then Repost else Notify
    case Notify => PollNotify
    case PollNotify => PollRecv
    case Idle => Idle
    case Dead => Dead
  }

  // what post_recv_flush and post_recv_imm post
  function ServerBuffer(cfg: Config): Buffer {
    if cfg.kind.Ws? then FlushBuffer else EmptyBuffer
  }

  function TriggerRecvOpcode(cfg: Config): RecvOpcode {
    if cfg.kind.Wi? then RecvWithImm else Recv
  }

  // ---------------------------------------------------------------- queue pair

  /** The send queue after the completion of its oldest signaled request was polled: that
      slot and all older ones are free. */
  function RetireOne(sq: seq<Slot>): seq<Slot> {
    if sq == [] then []
    else if sq[0].request.signaled then sq[1..]
    else RetireOne(sq[1..])
  }

  function Retire(sq: seq<Slot>, n: nat): seq<Slot>
    decreases n
  {
    if n == 0 then sq else Retire(RetireOne(sq), n - 1)
  }

  // ibv_post_send on a queue pair with room
  function Enqueue(ep: Endpoint, r: Request): Endpoint {
    ep.(sq := ep.sq + [Slot(r, Posted)])
  }

  /** The adapter moves slot `i` one stage on; requests keep their order in every stage. */
  predicate CanAdvance(sq: seq<Slot>, i: nat) {
    && i < |sq|
    && !sq[i].stage.Acked?
    && (i > 0 ==> sq[i - 1].stage.Rank() > sq[i].stage.Rank())
  }

  function NextStage(g: Stage): Stage {
    match g case Posted => OnWire case OnWire => Executed case Executed => Acked case Acked => Acked
  }

  function Advanced(ep: Endpoint, i: nat): Endpoint
    requires i < |ep.sq|
  {
    ep.(sq := ep.sq[i := ep.sq[i].(stage := NextStage(ep.sq[i].stage))])
  }

  /** What goes wrong, if anything, when a message meant for a buffer of kind `want` arrives. */
  function ArrivalFault(ep: Endpoint, want: Buffer): Fault {
    if ep.rq == [] then ReceiverNotReady
    else if ep.rq[0] != want then WrongBuffer
    else if |ep.recvCq| == CQ_SIZE then CqOverrun
    else NoFault
  }

  function Consume(ep: Endpoint, code: RecvOpcode): Endpoint
    requires ep.rq != []
  {
    ep.(rq := ep.rq[1..], recvCq := ep.recvCq + [code])
  }

  // ---------------------------------------------------------------- client worker

  function Goto(s: State, pc: ClientPc): State { s.(client := s.client.(pc := pc)) }

  // post_send_write, post_send_write_with_imm, post_send_flush, post_send_read
  function ClientPost(cfg: Config, s: State, op: Opcode): State {
    var c := s.client;
    var next := ClientAfter(cfg, c.pc);
    if !cfg.connected then Goto(s, next)
    else if |c.ep.sq| >= cfg.MaxSendWr() then Goto(s, Failed)
    else
      var version := if op.IsWrite() then c.issued + 1 else c.issued;
      s.(client := c.(
        pc := next,
        ep := Enqueue(c.ep, Request(op, version, cfg.Signaled(op))),
        issued := version,
        triggered := if op == cfg.Trigger() then c.triggered + 1 else c.triggered))
  }

  // node_poll_n_cq(node, SEND_CQ_INDEX, 1): one pass of its loop
  function ClientPollSend(cfg: Config, s: State): State {
    var c := s.client;
    var n := Min(cfg.Batch(), |c.ep.sendCq|);
    if !cfg.connected then Goto(s, ClientAfter(cfg, c.pc))
    else if n == 0 then s
    else s.(client := c.(
      pc := ClientAfter(cfg, c.pc),
      ep := c.ep.(sq := Retire(c.ep.sq, n), sendCq := c.ep.sendCq[n..])))
  }

  // one pass of the loop that polls the receive CQ, `batch` completions at a time
  function ClientPollRecv(cfg: Config, s: State, batch: nat): State {
    var c := s.client;
    var n := Min(batch, |c.ep.recvCq|);
    if !cfg.connected then Goto(s, ClientAfter(cfg, c.pc))
    else if n == 0 then s
    else s.(client := c.(
      pc := ClientAfter(cfg, c.pc),
      received := c.received + n,
      ep := c.ep.(recvCq := c.ep.recvCq[n..])))
  }

  function ClientPostRecv(cfg: Config, s: State): State {
    var c := s.client;
    if |c.ep.rq| >= MAX_RECV_WR then Goto(s, Failed)
    else s.(client := c.(
      pc := ClientAfter(cfg, c.pc),
      ep := c.ep.(rq := c.ep.rq + [NotificationBuffer])))
  }

  function ClientAct(cfg: Config, s: State): State {
    match s.client.pc
    case AwaitMetadata => ClientPollRecv(cfg, s, 1)
    case LoopHead => Goto(s, if s.stop then Left else ClientAfter(cfg, LoopHead))
    case PostWrite => ClientPost(cfg, s, Write)
    case PollWrite => ClientPollSend(cfg, s)
    case PostRecv => ClientPostRecv(cfg, s)
    case PostTrigger => ClientPost(cfg, s, cfg.Trigger())
    case PollTrigger => ClientPollSend(cfg, s)
    case PollNotification => ClientPollRecv(cfg, s, cfg.Batch())
    case Count => s.(client := s.client.(pc := LoopHead, ops := s.client.ops + 1))
    case Left => s
    case Failed => s
  }

  // ---------------------------------------------------------------- server

  // post_send_metadata, post_send_notification
  function ServerPost(cfg: Config, s: State, op: Opcode): State {
    var v := s.server;
    var next := ServerAfter(cfg, v.pc);
    if !cfg.connected then s.(server := v.(pc := next))
    else if |v.ep.sq| >= cfg.MaxSendWr() then s.(server := v.(pc := Dead))
    else s.(server := v.(
      pc := next,
      ep := Enqueue(v.ep, Request(op, v.sent, cfg.Signaled(op))),
      sent := v.sent + 1))
  }

  function ServerPollSend(cfg: Config, s: State, batch: nat): State {
    var v := s.server;
    var n := Min(batch, |v.ep.sendCq|);
    if !cfg.connected then s.(server := v.(pc := ServerAfter(cfg, v.pc)))
    else if n == 0 then s
    else s.(server := v.(
      pc := ServerAfter(cfg, v.pc),
      ep := v.ep.(sq := Retire(v.ep.sq, n), sendCq := v.ep.sendCq[n..])))
  }

  /** A completion whose opcode is not the one the worker tests for is dropped. */
  function ServerPollRecv(cfg: Config, s: State): State {
    var v := s.server;
    if v.ep.recvCq == [] then s
    else
      var ep := v.ep.(recvCq := v.ep.recvCq[1..]);
      if v.ep.recvCq[0] == TriggerRecvOpcode(cfg)
      then s.(server := v.(pc := ServerAfter(cfg, PollRecv), ep := ep, received := v.received + 1))
      else s.(server := v.(ep := ep))
  }

  function ServerRepost(cfg: Config, s: State): State {
    var v := s.server;
    if |v.ep.rq| >= MAX_RECV_WR then s.(server := v.(pc := Dead))
    else s.(server := v.(
      pc := ServerAfter(cfg, Repost),
      ep := v.ep.(rq := v.ep.rq + [ServerBuffer(cfg)])))
  }

  /** pmem_persist may write back in any order; the orders are covered by `Evict` steps
      taken before this one, which is the moment the call returns. */
  function ServerPersist(cfg: Config, s: State): State {
    var v := s.server;
    s.(server := v.(pc := ServerAfter(cfg, Persist), persists := v.persists + 1),
       per := if cfg.usePmem then s.vol else s.per)
  }

  function ServerAct(cfg: Config, s: State): State {
    match s.server.pc
    case SendMetadata => ServerPost(cfg, s, Metadata)
    case PollMetadata => ServerPollSend(cfg, s, 1)
    case PollRecv => ServerPollRecv(cfg, s)
    case Repost => ServerRepost(cfg, s)
    case Persist => ServerPersist(cfg, s)
    case Notify => ServerPost(cfg, s, Notification)
    case PollNotify => ServerPollSend(cfg, s, cfg.Batch())
    case Idle => s
    case Dead => s
  }

  // ---------------------------------------------------------------- adapters

  function Filled(n: nat, version: nat): seq<nat> { seq(n, i => version) }

  /** The receive a request needs at the server: a flush SEND one with room for its data, a
      WRITE_WITH_IMM one without any. */
  function WantedAtServer(op: Opcode): Buffer {
    if op.Flush? then FlushBuffer else EmptyBuffer
  }

  /** The responder executes the client's request at the head of the wire. */
  function ExecuteAtServer(cfg: Config, s: State, r: Request): State {
    var v := s.server;
    match r.op
    case Write => s.(vol := Filled(|s.vol|, r.version))
    case Read => s.(server := v.(arrived := v.arrived + 1),
                    per := if cfg.usePmem && cfg.readFlushes then s.vol else s.per)
    case WriteWithImm =>
      if ArrivalFault(v.ep, WantedAtServer(r.op)) != NoFault then s.(fault := ArrivalFault(v.ep, WantedAtServer(r.op)))
      else s.(vol := Filled(|s.vol|, r.version),
              server := v.(arrived := v.arrived + 1, ep := Consume(v.ep, RecvWithImm)))
    case _ =>
      if ArrivalFault(v.ep, WantedAtServer(r.op)) != NoFault then s.(fault := ArrivalFault(v.ep, WantedAtServer(r.op)))
      else s.(server := v.(arrived := v.arrived + 1, ep := Consume(v.ep, Recv)))
  }

  function WantedAtClient(op: Opcode): Buffer {
    if op.Metadata? then MetadataBuffer else NotificationBuffer
  }

  function ExecuteAtClient(s: State, r: Request): State {
    var c := s.client;
    var f := ArrivalFault(c.ep, WantedAtClient(r.op));
    if f != NoFault then s.(fault := f)
    else s.(client := c.(arrived := c.arrived + 1, ep := Consume(c.ep, Recv)))
  }

  /** Acknowledging a signaled request writes a completion. */
  function Completed(ep: Endpoint, i: nat): Endpoint
    requires i < |ep.sq|
  {
    var e := Advanced(ep, i);
    if ep.sq[i].request.signaled then e.(sendCq := e.sendCq + [ep.sq[i].request.op]) else e
  }

  predicate Overruns(ep: Endpoint, i: nat)
    requires i < |ep.sq|
  {
    ep.sq[i].request.signaled && |ep.sendCq| >= CQ_SIZE
  }

  function ClientNicAct(cfg: Config, s: State, i: nat): State
    requires i < |s.client.ep.sq|
  {
    var ep := s.client.ep;
    match ep.sq[i].stage
    case Posted => s.(client := s.client.(ep := Advanced(ep, i)))
    case OnWire =>
      var t := ExecuteAtServer(cfg, s, ep.sq[i].request);
      t.(client := t.client.(ep := Advanced(ep, i)))
    case _ =>
      if Overruns(ep, i) then s.(fault := CqOverrun)
      else s.(client := s.client.(ep := Completed(ep, i)))
  }

  function ServerNicAct(s: State, i: nat): State
    requires i < |s.server.ep.sq|
  {
    var ep := s.server.ep;
    match ep.sq[i].stage
    case Posted => s.(server := s.server.(ep := Advanced(ep, i)))
    case OnWire =>
      var t := ExecuteAtClient(s, ep.sq[i].request);
      t.(server := t.server.(ep := Advanced(ep, i)))
    case _ =>
      if Overruns(ep, i) then s.(fault := CqOverrun)
      else s.(server := s.server.(ep := Completed(ep, i)))
  }

  // ---------------------------------------------------------------- one turn

  predicate Enabled(cfg: Config, s: State, step: Step) {
    && s.fault.NoFault?
    && match step
       case ClientStep => !s.client.pc.Left? && !s.client.pc.Failed?
       case ServerStep => !s.server.pc.Idle? && !s.server.pc.Dead?
       case ClientNic(i) => CanAdvance(s.client.ep.sq, i)
       case ServerNic(i) => CanAdvance(s.server.ep.sq, i)
       case Place(i, b) =>
         // a write that is being received may already show in any of its bytes
         && CanAdvance(s.client.ep.sq, i)
         && s.client.ep.sq[i].stage.OnWire?
         && s.client.ep.sq[i].request.op.IsWrite()
         && b < |s.vol|
       case Evict(b) => cfg.usePmem && b < |s.vol| && b < |s.per|
       case RaiseStop => true
  }

  function Apply(cfg: Config, s: State, step: Step): State
    requires Enabled(cfg, s, step)
  {
    match step
    case ClientStep => ClientAct(cfg, s)
    case ServerStep => ServerAct(cfg, s)
    case ClientNic(i) => ClientNicAct(cfg, s, i)
    case ServerNic(i) => ServerNicAct(s, i)
    case Place(i, b) => s.(vol := s.vol[b := s.client.ep.sq[i].request.version])
    case Evict(b) => s.(per := s.per[b := s.vol[b]])
    case RaiseStop => s.(stop := true)
  }

  function Init(cfg: Config): State {
    State(
      Client(AwaitMetadata, Endpoint([], [MetadataBuffer], [], []), 0, 0, 0, 0, 0),
      Server(SendMetadata, Endpoint([], if cfg.kind.Wr? then [] else [ServerBuffer(cfg)], [], []), 0, 0, 0, 0),
      Filled(cfg.size, 0), Filled(cfg.size, 0), false, NoFault)
  }

  // ---------------------------------------------------------------- runs

  datatype Outcome = Stuck | Reached(state: State)

  /** The state after the turns of `trace`, in order, or Stuck if one was not enabled. */
  function Run(cfg: Config, trace: seq<Step>): Outcome
    decreases |trace|
  {
    if trace == [] then Reached(Init(cfg))
    else
      var last := trace[|trace| - 1];
      match Run(cfg, trace[..|trace| - 1])
      case Stuck => Stuck
      case Reached(s) => if Enabled(cfg, s, last) then Reached(Apply(cfg, s, last)) else Stuck
  }

  ghost predicate Reachable(cfg: Config, s: State) {
    exists trace :: Run(cfg, trace) == Reached(s)
  }
}
