/**
 Many connections on one server, each with its own queue pair and workers, writing into one
 mapped memory.  A write goes to the address that the client found in the metadata it was
 sent.  As long as the slots of the nodes are apart, each connection behaves as if it were
 the only one.
 */
module Cluster {
  import opened Machine
  import opened Protocol
  import opened Invariant
  import opened Progress
  import opened Safety
  import Slots
  import C = Connections

  /** A place in the mapping, as it travels in the metadata; the buffers start zeroed, which
      is no place in it. */
  datatype Address = Nowhere | At(offset: nat)

  /** One connection: its queues and workers (their memory lies in the mapping), the node that
      the server has given it, the metadata buffers of both sides, and the remote address that
      each write so far was posted with. */
  datatype Link = Link(state: State, node: nat, serverMetadata: Address, clientMetadata: Address, targets: seq<Address>)

  datatype ClusterState = ClusterState(links: seq<Link>, vol: seq<nat>, per: seq<nat>)

  datatype Turn = Turn(conn: nat, step: Step)

  datatype ClusterOutcome = ClusterStuck | ClusterReached(state: ClusterState)

  // ---------------------------------------------------------------- the mapping

  function Slice(cfg: Config, m: seq<nat>, node: nat): seq<nat>
    requires Slots.Inside(cfg.size, node, |m|)
  {
    m[Slots.Offset(cfg.size, node)..Slots.Offset(cfg.size, node) + cfg.size]
  }

  function Splice(cfg: Config, m: seq<nat>, node: nat, part: seq<nat>): seq<nat>
    requires Slots.Inside(cfg.size, node, |m|) && |part| == cfg.size
  {
    m[..Slots.Offset(cfg.size, node)] + part + m[Slots.Offset(cfg.size, node) + cfg.size..]
  }

  /** An access to `n` bytes from `a` on is within the mapping. */
  predicate Reaches(m: seq<nat>, a: Address, n: nat) { a.At? && a.offset + n <= |m| }

  /** The adapter writes `part` to the address in the request; elsewhere it is refused. */
  function WriteAt(m: seq<nat>, a: Address, part: seq<nat>): seq<nat> {
    if Reaches(m, a, |part|) then m[..a.offset] + part + m[a.offset + |part|..] else m
  }

  /** `n` bytes from `a` on go from the memory `vol` to the persistence domain `per`. */
  function FlushAt(vol: seq<nat>, per: seq<nat>, a: Address, n: nat): seq<nat>
    requires |vol| == |per|
  {
    if Reaches(vol, a, n) then WriteAt(per, a, vol[a.offset..a.offset + n]) else per
  }

  // node->mem = pmem + message_size*node->id
  function SlotOf(cfg: Config, node: nat): Address { At(Slots.Offset(cfg.size, node)) }

  // ---------------------------------------------------------------- turns

  ghost predicate Valid(cfg: Config, cs: ClusterState) {
    && |cs.vol| == |cs.per|
    && (forall i :: 0 <= i < |cs.links| ==> Slots.Inside(cfg.size, cs.links[i].node, |cs.vol|))
    && (forall i, j :: 0 <= i < j < |cs.links| ==> Slots.Apart(cfg.size, cs.links[i].node, cs.links[j].node))
  }

  /** What connection i sees: its own queues and workers, and the slot of its node. */
  ghost function View(cfg: Config, cs: ClusterState, i: nat): (s: State)
    requires Valid(cfg, cs) && i < |cs.links|
    ensures |s.vol| == |s.per| == cfg.size
  {
    var link := cs.links[i];
    link.state.(vol := Slice(cfg, cs.vol, link.node), per := Slice(cfg, cs.per, link.node))
  }

  /** The address that the write of this version was posted with. */
  function Target(link: Link, version: nat): Address {
    if 0 < version <= |link.targets| then link.targets[version - 1] else Nowhere
  }

  /** The server executes the client's request in slot `k` next. */
  predicate Executes(s: State, k: nat) {
    k < |s.client.ep.sq| && s.client.ep.sq[k].stage.OnWire?
  }

  /** The client's request in slot `k` puts its write into the memory of the server. */
  predicate Lands(cfg: Config, s: State, k: nat) {
    && Executes(s, k)
    && var op := s.client.ep.sq[k].request.op;
       op.Write? || (op.WriteWithImm? && ArrivalFault(s.server.ep, WantedAtServer(op)) == NoFault)
  }

  predicate ReadFlushes(cfg: Config, s: State, k: nat) {
    Executes(s, k) && s.client.ep.sq[k].request.op.Read? && cfg.usePmem && cfg.readFlushes
  }

  /** The memory after a turn: only the client's writes change it, where their requests say. */
  function VolAfter(cfg: Config, link: Link, vol: seq<nat>, s: State, step: Step): seq<nat> {
    match step
    case ClientNic(k) =>
      if !Lands(cfg, s, k) then vol
      else
        var version := s.client.ep.sq[k].request.version;
        WriteAt(vol, Target(link, version), Filled(cfg.size, version))
    case Place(k, b) =>
      if k >= |s.client.ep.sq| then vol
      else
        var version := s.client.ep.sq[k].request.version;
        if Target(link, version).At? then WriteAt(vol, At(Target(link, version).offset + b), [version]) else vol
    case _ => vol
  }

  /** The persistence domain after a turn: the server flushes the slot of its node, a READ the
      place of the write before it. */
  function PerAfter(cfg: Config, link: Link, vol: seq<nat>, per: seq<nat>, s: State, step: Step): seq<nat>
    requires |vol| == |per|
  {
    match step
    case ServerStep =>
      if s.server.pc.Persist? && cfg.usePmem then FlushAt(vol, per, SlotOf(cfg, link.node), cfg.size) else per
    case ClientNic(k) =>
      if ReadFlushes(cfg, s, k) then FlushAt(vol, per, Target(link, s.client.ep.sq[k].request.version), cfg.size) else per
    case Evict(b) => FlushAt(vol, per, At(Slots.Offset(cfg.size, link.node) + b), 1)
    case _ => per
  }

  /** The metadata message is put into the client's buffer. */
  predicate DeliversMetadata(s: State, step: Step) {
    && step.ServerNic? && step.i < |s.server.ep.sq| && s.server.ep.sq[step.i].stage.OnWire?
    && s.server.ep.sq[step.i].request.op.Metadata?
    && ArrivalFault(s.client.ep, MetadataBuffer) == NoFault
  }

  /** The connection after a turn from `s` to `t`: server_set_metadata fills the server's buffer
      before it is sent, delivery copies it to the client's, and a write is posted with the
      address that the client's buffer holds at that moment. */
  function LinkAfter(cfg: Config, link: Link, s: State, step: Step, t: State): Link {
    Link(
      t, link.node,
      if step.ServerStep? && s.server.pc.SendMetadata? then SlotOf(cfg, link.node) else link.serverMetadata,
      if DeliversMetadata(s, step) then link.serverMetadata else link.clientMetadata,
      if t.client.issued > s.client.issued then link.targets + [link.clientMetadata] else link.targets)
  }

  ghost predicate TurnEnabled(cfg: Config, cs: ClusterState, turn: Turn) {
    Valid(cfg, cs) && turn.conn < |cs.links| && Enabled(cfg, View(cfg, cs, turn.conn), turn.step)
  }

  ghost function TakeTurn(cfg: Config, cs: ClusterState, turn: Turn): ClusterState
    requires TurnEnabled(cfg, cs, turn)
  {
    var s, link := View(cfg, cs, turn.conn), cs.links[turn.conn];
    ClusterState(
      cs.links[turn.conn := LinkAfter(cfg, link, s, turn.step, Apply(cfg, s, turn.step))],
      VolAfter(cfg, link, cs.vol, s, turn.step),
      PerAfter(cfg, link, cs.vol, cs.per, s, turn.step))
  }

  function ClusterInit(cfg: Config, nodes: seq<nat>, mappedLen: nat): ClusterState {
    ClusterState(
      seq(|nodes|, i requires 0 <= i < |nodes| => Link(Init(cfg), nodes[i], Nowhere, Nowhere, [])),
      Filled(mappedLen, 0), Filled(mappedLen, 0))
  }

  ghost function ClusterRun(cfg: Config, start: ClusterState, turns: seq<Turn>): ClusterOutcome
    decreases |turns|
  {
    if turns == [] then ClusterReached(start)
    else
      match ClusterRun(cfg, start, turns[..|turns| - 1])
      case ClusterStuck => ClusterStuck
      case ClusterReached(cs) =>
        if TurnEnabled(cfg, cs, turns[|turns| - 1])
        then ClusterReached(TakeTurn(cfg, cs, turns[|turns| - 1])) else ClusterStuck
  }

  /** The turns connection i took part in. */
  function Project(turns: seq<Turn>, i: nat): seq<Step>
    decreases |turns|
  {
    if turns == [] then []
    else
      var before, last := turns[..|turns| - 1], turns[|turns| - 1];
      if last.conn == i then Project(before, i) + [last.step] else Project(before, i)
  }

  // ---------------------------------------------------------------- addresses

  /** What holds of a connection in every reachable state, established or not. */
  ghost predicate Known(cfg: Config, s: State) {
    if cfg.connected then Inv(cfg, s) else UnconnectedInv(cfg, s)
  }

  /** Every address on this connection is that of its node's slot: the one in the server's
      buffer once it was sent, the one in the client's once it arrived, and that of each write. */
  ghost predicate Addressed(cfg: Config, link: Link, s: State) {
    && link.serverMetadata == (if s.server.pc.SendMetadata? then Nowhere else SlotOf(cfg, link.node))
    && link.clientMetadata == (if s.client.arrived == 0 then Nowhere else SlotOf(cfg, link.node))
    && |link.targets| == s.client.issued
    && forall k :: 0 <= k < |link.targets| ==> link.targets[k] == SlotOf(cfg, link.node)
  }

  lemma IssuesAtPost(cfg: Config, s: State)
    ensures var t := ClientAct(cfg, s);
      && t.server == s.server && t.client.arrived == s.client.arrived
      && s.client.issued <= t.client.issued <= s.client.issued + 1
      && (t.client.issued > s.client.issued ==> cfg.connected && (s.client.pc.PostWrite? || s.client.pc.PostTrigger?))
  {}

  lemma PostsAfterArrival(cfg: Config, c: Client)
    requires ClientInv(cfg, c) && (c.pc.PostWrite? || c.pc.PostTrigger?)
    ensures c.arrived > 0
  {}

  /** A write is posted only when the metadata has arrived. */
  lemma PostedAfterArrival(cfg: Config, s: State)
    requires Known(cfg, s)
    ensures var t := ClientAct(cfg, s);
      && t.client.arrived == s.client.arrived && t.server == s.server
      && s.client.issued <= t.client.issued <= s.client.issued + 1
      && (t.client.issued > s.client.issued ==> s.client.arrived > 0)
  {
    IssuesAtPost(cfg, s);
    if cfg.connected && (s.client.pc.PostWrite? || s.client.pc.PostTrigger?) { PostsAfterArrival(cfg, s.client); }
  }

  lemma ServerPasses(cfg: Config, s: State)
    ensures var t := ServerAct(cfg, s);
      && t.client == s.client
      && (t.server.pc.SendMetadata? ==> s.server.pc.SendMetadata? && t == s)
  {}

  lemma SendMetadataPasses(cfg: Config, s: State)
    requires s.server.pc.SendMetadata?
    ensures !ServerAct(cfg, s).server.pc.SendMetadata?
  {}

  /** The first message to arrive, and no other, is the metadata, and the server had sent it. */
  lemma MetadataArrivesFirst(cfg: Config, s: State, i: nat)
    requires Known(cfg, s) && CanAdvance(s.server.ep.sq, i)
    ensures var t := ServerNicAct(s, i);
      && t.client.issued == s.client.issued && t.server.pc == s.server.pc
      && !s.server.pc.SendMetadata?
      && if DeliversMetadata(s, ServerNic(i)) then s.client.arrived == 0 && t.client.arrived == 1
         else t.client.arrived == s.client.arrived || (t.client.arrived > s.client.arrived > 0)
  {
    if cfg.connected {
      ServerAdvances(cfg, s.server, i);
      if s.server.ep.sq[i].stage.OnWire? { MessageFindsReceive(cfg, s.client, s.server); }
    }
  }

  lemma OthersKeepCounts(cfg: Config, s: State, step: Step)
    requires Enabled(cfg, s, step) && !step.ClientStep? && !step.ServerStep? && !step.ServerNic?
    ensures var t := Apply(cfg, s, step);
      && t.client.arrived == s.client.arrived && t.client.issued == s.client.issued
      && t.server.pc == s.server.pc
  {}

  lemma AddressedKeeps(cfg: Config, link: Link, s: State, step: Step)
    requires Known(cfg, s) && Enabled(cfg, s, step) && Addressed(cfg, link, s)
    ensures var t := Apply(cfg, s, step); Addressed(cfg, LinkAfter(cfg, link, s, step, t), t)
  {
    match step
    case ClientStep => PostedAfterArrival(cfg, s);
    case ServerStep =>
      ServerPasses(cfg, s);
      if s.server.pc.SendMetadata? { SendMetadataPasses(cfg, s); }
    case ServerNic(i) => MetadataArrivesFirst(cfg, s, i);
    case _ => OthersKeepCounts(cfg, s, step);
  }

  // ---------------------------------------------------------------- memory

  /** A write that is executed or placed is the newest one, and a READ follows it. */
  lemma VersionIsPosted(cfg: Config, s: State, k: nat)
    requires Known(cfg, s) && CanAdvance(s.client.ep.sq, k) && s.client.ep.sq[k].stage.OnWire?
    ensures var r := s.client.ep.sq[k].request;
      r.op.IsWrite() || r.op.Read? ==> r.version == s.client.issued > 0
  {}

  lemma WriteInSlot(cfg: Config, m: seq<nat>, node: nat, part: seq<nat>)
    requires Slots.Inside(cfg.size, node, |m|) && |part| == cfg.size
    ensures WriteAt(m, SlotOf(cfg, node), part) == Splice(cfg, m, node, part)
  {}

  lemma FlushSlot(cfg: Config, vol: seq<nat>, per: seq<nat>, node: nat)
    requires |vol| == |per| && Slots.Inside(cfg.size, node, |vol|)
    ensures FlushAt(vol, per, SlotOf(cfg, node), cfg.size) == Splice(cfg, per, node, Slice(cfg, vol, node))
  {}

  lemma WriteByteInSlot(cfg: Config, m: seq<nat>, node: nat, b: nat, x: nat)
    requires Slots.Inside(cfg.size, node, |m|) && b < cfg.size
    ensures WriteAt(m, At(Slots.Offset(cfg.size, node) + b), [x]) == Splice(cfg, m, node, Slice(cfg, m, node)[b := x])
  {}

  lemma FlushByteInSlot(cfg: Config, vol: seq<nat>, per: seq<nat>, node: nat, b: nat)
    requires |vol| == |per| && Slots.Inside(cfg.size, node, |vol|) && b < cfg.size
    ensures FlushAt(vol, per, At(Slots.Offset(cfg.size, node) + b), 1)
            == Splice(cfg, per, node, Slice(cfg, per, node)[b := Slice(cfg, vol, node)[b]])
  {
    var o, x := Slots.Offset(cfg.size, node) + b, Slice(cfg, vol, node)[b];
    assert vol[o..o + 1] == [x];
    WriteByteInSlot(cfg, per, node, b, x);
  }

  lemma NoChange(cfg: Config, m: seq<nat>, node: nat)
    requires Slots.Inside(cfg.size, node, |m|)
    ensures Splice(cfg, m, node, Slice(cfg, m, node)) == m
  {}

  /** What the turn's own step does to the slot is what the turn does to the mapping. */
  ghost predicate StaysInSlot(cfg: Config, link: Link, vol: seq<nat>, per: seq<nat>, s: State, step: Step)
    requires |vol| == |per| && Slots.Inside(cfg.size, link.node, |vol|)
    requires |s.vol| == |s.per| == cfg.size && Enabled(cfg, s, step)
  {
    var t := Apply(cfg, s, step);
    && |t.vol| == |t.per| == cfg.size
    && VolAfter(cfg, link, vol, s, step) == Splice(cfg, vol, link.node, t.vol)
    && PerAfter(cfg, link, vol, per, s, step) == Splice(cfg, per, link.node, t.per)
  }

  /** The slot of `link` in the mapping is the memory of `s`. */
  ghost predicate InSlot(cfg: Config, link: Link, vol: seq<nat>, per: seq<nat>, s: State) {
    && |vol| == |per| && Slots.Inside(cfg.size, link.node, |vol|)
    && s.vol == Slice(cfg, vol, link.node) && s.per == Slice(cfg, per, link.node)
  }

  lemma ExecutionMemory(cfg: Config, s: State, k: nat)
    requires Enabled(cfg, s, ClientNic(k)) && |s.vol| == |s.per| == cfg.size
    ensures var t := ClientNicAct(cfg, s, k);
      && t.vol == (if Lands(cfg, s, k) then Filled(cfg.size, s.client.ep.sq[k].request.version) else s.vol)
      && t.per == (if ReadFlushes(cfg, s, k) then s.vol else s.per)
  {}

  lemma LandingStays(cfg: Config, link: Link, vol: seq<nat>, s: State, k: nat)
    requires Slots.Inside(cfg.size, link.node, |vol|) && s.vol == Slice(cfg, vol, link.node)
    requires Lands(cfg, s, k) ==> Target(link, s.client.ep.sq[k].request.version) == SlotOf(cfg, link.node)
    ensures VolAfter(cfg, link, vol, s, ClientNic(k))
            == Splice(cfg, vol, link.node, if Lands(cfg, s, k) then Filled(cfg.size, s.client.ep.sq[k].request.version) else s.vol)
  {
    NoChange(cfg, vol, link.node);
    if Lands(cfg, s, k) { WriteInSlot(cfg, vol, link.node, Filled(cfg.size, s.client.ep.sq[k].request.version)); }
  }

  lemma ReadFlushStays(cfg: Config, link: Link, vol: seq<nat>, per: seq<nat>, s: State, k: nat)
    requires InSlot(cfg, link, vol, per, s)
    requires ReadFlushes(cfg, s, k) ==> Target(link, s.client.ep.sq[k].request.version) == SlotOf(cfg, link.node)
    ensures PerAfter(cfg, link, vol, per, s, ClientNic(k))
            == Splice(cfg, per, link.node, if ReadFlushes(cfg, s, k) then s.vol else s.per)
  {
    NoChange(cfg, per, link.node);
    if ReadFlushes(cfg, s, k) { FlushSlot(cfg, vol, per, link.node); }
  }

  lemma ExecutionStays(cfg: Config, link: Link, vol: seq<nat>, per: seq<nat>, s: State, k: nat)
    requires InSlot(cfg, link, vol, per, s) && Known(cfg, s) && Addressed(cfg, link, s)
    requires Enabled(cfg, s, ClientNic(k))
    ensures StaysInSlot(cfg, link, vol, per, s, ClientNic(k))
  {
    if Executes(s, k) { VersionIsPosted(cfg, s, k); }
    ExecutionMemory(cfg, s, k);
    LandingStays(cfg, link, vol, s, k);
    ReadFlushStays(cfg, link, vol, per, s, k);
  }

  lemma PlacementStays(cfg: Config, link: Link, vol: seq<nat>, per: seq<nat>, s: State, k: nat, b: nat)
    requires InSlot(cfg, link, vol, per, s) && Known(cfg, s) && Addressed(cfg, link, s)
    requires Enabled(cfg, s, Place(k, b))
    ensures StaysInSlot(cfg, link, vol, per, s, Place(k, b))
  {
    NoChange(cfg, per, link.node);
    VersionIsPosted(cfg, s, k);
    WriteByteInSlot(cfg, vol, link.node, b, s.client.ep.sq[k].request.version);
  }

  lemma EvictionStays(cfg: Config, link: Link, vol: seq<nat>, per: seq<nat>, s: State, b: nat)
    requires InSlot(cfg, link, vol, per, s) && Enabled(cfg, s, Evict(b))
    ensures StaysInSlot(cfg, link, vol, per, s, Evict(b))
  {
    NoChange(cfg, vol, link.node);
    FlushByteInSlot(cfg, vol, per, link.node, b);
  }

  lemma ServerMemory(cfg: Config, s: State)
    ensures var t := ServerAct(cfg, s);
      t.vol == s.vol && t.per == if s.server.pc.Persist? && cfg.usePmem then s.vol else s.per
  {}

  lemma ServerStays(cfg: Config, link: Link, vol: seq<nat>, per: seq<nat>, s: State)
    requires InSlot(cfg, link, vol, per, s) && Enabled(cfg, s, ServerStep)
    ensures StaysInSlot(cfg, link, vol, per, s, ServerStep)
  {
    NoChange(cfg, vol, link.node);
    NoChange(cfg, per, link.node);
    FlushSlot(cfg, vol, per, link.node);
    ServerMemory(cfg, s);
  }

  lemma MemoryUntouched(cfg: Config, s: State, step: Step)
    requires Enabled(cfg, s, step) && (step.ClientStep? || step.ServerNic? || step.RaiseStop?)
    ensures var t := Apply(cfg, s, step); t.vol == s.vol && t.per == s.per
  {}

  lemma TurnStays(cfg: Config, link: Link, vol: seq<nat>, per: seq<nat>, s: State, step: Step)
    requires InSlot(cfg, link, vol, per, s) && Known(cfg, s) && Addressed(cfg, link, s)
    requires Enabled(cfg, s, step)
    ensures StaysInSlot(cfg, link, vol, per, s, step)
  {
    match step
    case ClientNic(k) => ExecutionStays(cfg, link, vol, per, s, k);
    case Place(k, b) => PlacementStays(cfg, link, vol, per, s, k, b);
    case ServerStep => ServerStays(cfg, link, vol, per, s);
    case Evict(b) => EvictionStays(cfg, link, vol, per, s, b);
    case _ =>
      NoChange(cfg, vol, link.node);
      NoChange(cfg, per, link.node);
      MemoryUntouched(cfg, s, step);
  }

  // ---------------------------------------------------------------- projection

  lemma SpliceElsewhere(m: seq<nat>, at: nat, part: seq<nat>, from: nat, n: nat)
    requires at + |part| <= |m| && from + n <= |m|
    requires from + n <= at || at + |part| <= from
    ensures (m[..at] + part + m[at + |part|..])[from..from + n] == m[from..from + n]
  {
    var m' := m[..at] + part + m[at + |part|..];
    assert forall k :: from <= k < from + n ==> m'[k] == m[k];
  }

  lemma SliceOfSplice(cfg: Config, m: seq<nat>, node: nat, other: nat, part: seq<nat>)
    requires Slots.Inside(cfg.size, node, |m|) && Slots.Inside(cfg.size, other, |m|) && |part| == cfg.size
    ensures |Splice(cfg, m, node, part)| == |m|
    ensures Slice(cfg, Splice(cfg, m, node, part), node) == part
    ensures Slots.Apart(cfg.size, node, other) ==> Slice(cfg, Splice(cfg, m, node, part), other) == Slice(cfg, m, other)
  {
    if Slots.Apart(cfg.size, node, other) {
      SpliceElsewhere(m, Slots.Offset(cfg.size, node), part, Slots.Offset(cfg.size, other), cfg.size);
    }
  }

  /** A turn of one connection is that connection's own step, and no other sees anything of it,
      because the addresses it uses are those of its node. */
  lemma TurnIsLocal(cfg: Config, cs: ClusterState, turn: Turn, j: nat)
    requires TurnEnabled(cfg, cs, turn) && j < |cs.links|
    requires var s := View(cfg, cs, turn.conn); Known(cfg, s) && Addressed(cfg, cs.links[turn.conn], s)
    ensures var cs' := TakeTurn(cfg, cs, turn);
      && Valid(cfg, cs') && |cs'.links| == |cs.links| && |cs'.per| == |cs.per|
      && cs'.links[j].node == cs.links[j].node
      && View(cfg, cs', j) ==
           if j == turn.conn then Apply(cfg, View(cfg, cs, j), turn.step) else View(cfg, cs, j)
  {
    var s, link := View(cfg, cs, turn.conn), cs.links[turn.conn];
    var t := Apply(cfg, s, turn.step);
    TurnStays(cfg, link, cs.vol, cs.per, s, turn.step);
    SliceOfSplice(cfg, cs.vol, link.node, cs.links[j].node, t.vol);
    SliceOfSplice(cfg, cs.per, link.node, cs.links[j].node, t.per);
  }

  lemma RunIsKnown(cfg: Config, trace: seq<Step>)
    requires Run(cfg, trace).Reached?
    ensures Known(cfg, Run(cfg, trace).state)
  {
    if cfg.connected { RunKeeps(cfg, trace); } else { UnconnectedRun(cfg, trace); }
  }

  /** The nodes lie in the mapping, no two of them overlapping. */
  ghost predicate SoundNodes(cfg: Config, nodes: seq<nat>, mappedLen: nat) {
    && (forall i :: 0 <= i < |nodes| ==> Slots.Inside(cfg.size, nodes[i], mappedLen))
    && (forall i, j :: 0 <= i < j < |nodes| ==> Slots.Apart(cfg.size, nodes[i], nodes[j]))
  }

  lemma InitViews(cfg: Config, nodes: seq<nat>, mappedLen: nat, i: nat)
    requires SoundNodes(cfg, nodes, mappedLen) && i < |nodes|
    ensures var cs := ClusterInit(cfg, nodes, mappedLen);
      Valid(cfg, cs) && View(cfg, cs, i) == Init(cfg) && Addressed(cfg, cs.links[i], Init(cfg))
  {
    assert Slice(cfg, Filled(mappedLen, 0), nodes[i]) == Filled(cfg.size, 0);
  }

  /** Projection: a run of the whole server, seen from one connection, is a run of the protocol
      on its own, whatever the other connections do and however they interleave, and every
      address on the connection is that of its node's slot. */
  lemma {:induction false} ClusterProjects(cfg: Config, nodes: seq<nat>, mappedLen: nat,
                                           turns: seq<Turn>, cs: ClusterState, i: nat)
    requires SoundNodes(cfg, nodes, mappedLen) && i < |nodes|
    requires ClusterRun(cfg, ClusterInit(cfg, nodes, mappedLen), turns) == ClusterReached(cs)
    ensures Valid(cfg, cs) && |cs.links| == |nodes| && |cs.per| == mappedLen && cs.links[i].node == nodes[i]
    ensures Run(cfg, Project(turns, i)) == Reached(View(cfg, cs, i))
    ensures Addressed(cfg, cs.links[i], View(cfg, cs, i))
    decreases |turns|
  {
    if turns == [] {
      InitViews(cfg, nodes, mappedLen, i);
    } else {
      var before, last := turns[..|turns| - 1], turns[|turns| - 1];
      var cs0 := ClusterRun(cfg, ClusterInit(cfg, nodes, mappedLen), before).state;
      ClusterProjects(cfg, nodes, mappedLen, before, cs0, i);
      ClusterProjects(cfg, nodes, mappedLen, before, cs0, last.conn);
      RunIsKnown(cfg, Project(before, last.conn));
      TurnIsLocal(cfg, cs0, last, i);
      if last.conn == i {
        RunExtends(cfg, Project(before, i), last.step);
        AddressedKeeps(cfg, cs0.links[i], View(cfg, cs0, i), last.step);
      }
    }
  }

  // ---------------------------------------------------------------- the server's nodes

  /** The nodes of the connections `ids`, in the order in which the clients count them. */
  function NodesOf(ledger: C.Ledger, ids: seq<nat>): seq<nat>
    requires forall k :: 0 <= k < |ids| ==> ids[k] in ledger.context
  {
    seq(|ids|, k requires 0 <= k < |ids| => ledger.context[ids[k]])
  }

  ghost predicate Distinct(ids: seq<nat>) {
    forall j, k :: 0 <= j < k < |ids| ==> ids[j] != ids[k]
  }

  /** Whatever the order in which connection requests arrive, the nodes that connect_handler
      hands out have slots apart in an accepted mapping, unless the size test wraps. */
  lemma HandedOutNodesAreSound(cfg: Config, connections: nat, mappedLen: nat, events: seq<C.CmEvent>, ids: seq<nat>)
    requires C.WellBehaved(connections, false, C.Begun(connections, false), events)
    requires cfg.size * connections < UINT32 && Slots.Accepts(cfg.size, connections, mappedLen)
    requires var ledger := C.Loop(connections, C.Connecting, C.Start(connections, false), 0, events).ledger;
      forall k :: 0 <= k < |ids| ==> ids[k] in ledger.context
    requires Distinct(ids)
    ensures var ledger := C.Loop(connections, C.Connecting, C.Start(connections, false), 0, events).ledger;
      SoundNodes(cfg, NodesOf(ledger, ids), mappedLen)
  {
    var o := C.Loop(connections, C.Connecting, C.Start(connections, false), 0, events);
    C.StartAgrees(connections, false);
    C.LoopAgrees(connections, false, C.Connecting, C.Start(connections, false), C.Begun(connections, false), events);
    Slots.NoWrapIsSound(cfg.size, connections, mappedLen);
    var h := C.After(connections, C.Begun(connections, false), C.Taken(events, o));
    AgreedNodesAreSound(cfg, connections, mappedLen, o.ledger, h, ids);
  }

  lemma AgreedNodesAreSound(cfg: Config, connections: nat, mappedLen: nat, ledger: C.Ledger, h: C.History, ids: seq<nat>)
    requires C.Agrees(connections, false, ledger, h) && Distinct(ids)
    requires Slots.SoundLayout(cfg.size, connections, mappedLen)
    requires forall k :: 0 <= k < |ids| ==> ids[k] in ledger.context
    ensures SoundNodes(cfg, NodesOf(ledger, ids), mappedLen)
  {
    forall i | 0 <= i < |ids|
      ensures Slots.Inside(cfg.size, ledger.context[ids[i]], mappedLen)
    {
      assert ledger.context[ids[i]] < connections;
    }
    forall i, j | 0 <= i < j < |ids|
      ensures Slots.Apart(cfg.size, ledger.context[ids[i]], ledger.context[ids[j]])
    {
      assert ids[i] != ids[j];
      DifferentNodesAreApart(cfg, connections, mappedLen, ledger.context[ids[i]], ledger.context[ids[j]]);
    }
  }

  lemma DifferentNodesAreApart(cfg: Config, connections: nat, mappedLen: nat, a: nat, b: nat)
    requires Slots.SoundLayout(cfg.size, connections, mappedLen)
    requires a < connections && b < connections && a != b
    ensures Slots.Apart(cfg.size, a, b)
  {
    assert if a < b then Slots.Apart(cfg.size, a, b) else Slots.Apart(cfg.size, b, a);
  }

  /** With a mapping that alloc_nodes accepts and sizes that do not wrap, and whatever the order
      in which the clients' requests arrived: every connection of a durable configuration finds
      what it counted in the slot of its node after a crash, and none of its writes was posted
      with any other address. */
  lemma EveryConnectionIsDurable(cfg: Config, connections: nat, mappedLen: nat, events: seq<C.CmEvent>, ids: seq<nat>,
                                 turns: seq<Turn>, cs: ClusterState, i: nat)
    requires cfg.connected && Flushes(cfg) && i < |ids|
    requires C.WellBehaved(connections, false, C.Begun(connections, false), events)
    requires cfg.size * connections < UINT32 && Slots.Accepts(cfg.size, connections, mappedLen)
    requires var ledger := C.Loop(connections, C.Connecting, C.Start(connections, false), 0, events).ledger;
      && (forall k :: 0 <= k < |ids| ==> ids[k] in ledger.context)
      && ClusterRun(cfg, ClusterInit(cfg, NodesOf(ledger, ids), mappedLen), turns) == ClusterReached(cs)
    requires Distinct(ids)
    ensures var ledger := C.Loop(connections, C.Connecting, C.Start(connections, false), 0, events).ledger;
      && |cs.links| == |ids| && cs.links[i].node == ledger.context[ids[i]]
      && Slots.Inside(cfg.size, cs.links[i].node, |cs.per|)
    ensures var link := cs.links[i];
      && (forall b :: 0 <= b < cfg.size ==>
           link.state.client.ops <= Slice(cfg, cs.per, link.node)[b] <= link.state.client.ops + 1)
      && |link.targets| == link.state.client.issued
      && (forall k :: 0 <= k < |link.targets| ==> link.targets[k] == SlotOf(cfg, link.node))
  {
    var ledger := C.Loop(connections, C.Connecting, C.Start(connections, false), 0, events).ledger;
    HandedOutNodesAreSound(cfg, connections, mappedLen, events, ids);
    ClusterProjects(cfg, NodesOf(ledger, ids), mappedLen, turns, cs, i);
    ViewIsDurable(cfg, Project(turns, i), View(cfg, cs, i));
  }

  lemma ViewIsDurable(cfg: Config, trace: seq<Step>, s: State)
    requires cfg.connected && Flushes(cfg) && Run(cfg, trace) == Reached(s)
    ensures forall b :: 0 <= b < |s.per| ==> s.client.ops <= s.per[b] <= s.client.ops + 1
  {
    CrashImage(cfg, s);
  }
}
