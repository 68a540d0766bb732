/**
 From the connection events to the workers: run_client starts one worker for each node as
 soon as connect_events has returned 0.
 */
module Startup {
  import opened Protocol
  import opened Invariant
  import opened Safety
  import C = Connections

  /** The options of the benchmark as the worker of node `i` meets them. */
  function NodeConfig(cfg: Config, ledger: C.Ledger, i: nat): Config
    requires i < |ledger.connected|
  {
    cfg.(connected := ledger.connected[i])
  }

  /** The worker never runs into a failing post, and what it has counted survives a crash. */
  ghost predicate NodeSound(cfg: Config) {
    forall s :: Reachable(cfg, s) ==> !s.client.pc.Failed? && CountedIsDurable(s)
  }

  // options that make the protocols durable once they run on a connection
  predicate GoodOptions(cfg: Config) { cfg.size > 0 && Flushes(cfg) && !NeverRetires(cfg) }

  lemma NodeSoundIff(cfg: Config)
    requires GoodOptions(cfg)
    ensures NodeSound(cfg) <==> cfg.connected
  {
    WorkerFailsIff(cfg);
    DurableIff(cfg);
  }

  /** The node's connection is there when its worker starts, and the worker is sound on it. */
  ghost predicate StartsSoundly(cfg: Config, ledger: C.Ledger, up: set<nat>, down: set<nat>, i: nat)
    requires i < |ledger.connected|
  {
    C.Live(ledger, up, down, i) && NodeSound(NodeConfig(cfg, ledger, i))
  }

  /** With durable options, every worker that run_client starts has a connection and is sound on
      it exactly when connect_events took neither an error with status 0, which it takes for
      success, nor a DISCONNECTED, after which the node's flag stays set. */
  lemma StartedWorkersAreSoundIff(cfg: Config, connections: nat, events: seq<C.CmEvent>)
    requires GoodOptions(cfg)
    requires C.WellBehaved(connections, true, C.Begun(connections, true), events)
    requires var o := C.Loop(connections, C.Connecting, C.Start(connections, true), 0, events);
      o.Returned? && o.ret == 0
    ensures var o := C.Loop(connections, C.Connecting, C.Start(connections, true), 0, events);
      var taken := C.Consumed(events, o.rest);
      && |o.ledger.connected| == connections
      && ((forall i: nat :: i < connections ==> StartsSoundly(cfg, o.ledger, C.UpIds(taken), C.DownIds(taken), i))
          <==> C.SilentErrors(taken) == 0 && C.DownIds(taken) == {})
      && (forall i: nat :: i < connections ==> (NodeSound(NodeConfig(cfg, o.ledger, i)) <==> o.ledger.connected[i]))
  {
    var o := C.Loop(connections, C.Connecting, C.Start(connections, true), 0, events);
    var taken := C.Consumed(events, o.rest);
    C.ConnectEventsIff(connections, true, events);
    forall i: nat | i < connections
      ensures StartsSoundly(cfg, o.ledger, C.UpIds(taken), C.DownIds(taken), i)
              <==> C.Live(o.ledger, C.UpIds(taken), C.DownIds(taken), i)
      ensures NodeSound(NodeConfig(cfg, o.ledger, i)) <==> o.ledger.connected[i]
    {
      NodeSoundIff(NodeConfig(cfg, o.ledger, i));
      LiveIsConnected(connections, o.ledger, C.After(connections, C.Begun(connections, true), taken), i);
    }
  }

  lemma LiveIsConnected(connections: nat, ledger: C.Ledger, h: C.History, i: nat)
    requires C.Agrees(connections, true, ledger, h) && i < connections
    ensures C.Live(ledger, h.up, h.down, i) ==> ledger.connected[i]
  {}

  /** The worker of a node whose connection went down before the last one came up is started on
      the flag alone. */
  lemma WorkerStartsWithoutConnection(cfg: Config)
    ensures var events := [C.Established(0), C.Disconnected(0), C.Established(1)];
      var o := C.Loop(2, C.Connecting, C.Start(2, true), 0, events);
      && o.Returned? && o.ret == 0 && C.SilentErrors(events) == 0
      && o.ledger.connected == [true, true] && NodeConfig(cfg, o.ledger, 0).connected
      && !StartsSoundly(cfg, o.ledger, C.UpIds(events), C.DownIds(events), 0)
  {
    C.DisconnectedWhileConnecting();
  }
}
