/**
 The bounds on what a crash leaves are exact: each image that they allow is left by some run.
 */
module CrashImages {
  import opened Protocol
  import opened Invariant
  import opened Progress
  import opened Safety
  import opened Refinement
  import opened Workers

  /** After `n` counted operations every byte is from the last of them or from the next write,
      where there can be one. */
  predicate Allowed(cfg: Config, n: nat, image: seq<nat>) {
    && |image| == cfg.size
    && (NeverRetires(cfg) ==> n <= 2)
    && forall b :: 0 <= b < |image| ==> image[b] == n || (image[b] == n + 1 && (NeverRetires(cfg) ==> n < 2))
  }

  /** From waiting for the metadata, or right there: a run to the head of the worker's loop. */
  lemma {:induction false} ToLoopHead(cfg: Config, trace: seq<Step>) returns (all: seq<Step>)
    requires cfg.connected && Run(cfg, trace).Reached?
    requires var s := Run(cfg, trace).state; !s.stop && (s.client.pc.LoopHead? || s.client.pc.AwaitMetadata?)
    ensures Run(cfg, all).Reached?
    ensures var s, t := Run(cfg, trace).state, Run(cfg, all).state;
      !t.stop && t.client.pc.LoopHead? && t.client.ops == s.client.ops
    decreases Rank(cfg, Run(cfg, trace).state)
  {
    var s := Run(cfg, trace).state;
    all := trace;
    if s.client.pc.AwaitMetadata? {
      RunKeeps(cfg, trace);
      NotStuck(cfg, s);
      var step := NextTurn(s);
      EffectiveTurn(cfg, s, step);
      MetadataTurn(cfg, s, step);
      RunExtends(cfg, trace, step);
      all := ToLoopHead(cfg, trace + [step]);
    }
  }

  lemma MetadataTurn(cfg: Config, s: State, step: Step)
    requires Enabled(cfg, s, step) && Effective(s, step) && s.client.pc.AwaitMetadata? && !s.stop
    ensures var t := Apply(cfg, s, step);
      !t.stop && (t.client.pc.LoopHead? || t.client.pc.AwaitMetadata?) && t.client.ops == s.client.ops
  {}

  /** The newest request of the client is a write of the version after `n`, on the wire. */
  ghost predicate InTransit(cfg: Config, s: State, i: nat, n: nat) {
    && s.fault.NoFault? && s.client.ops == n
    && |s.client.ep.sq| == i + 1 && CanAdvance(s.client.ep.sq, i)
    && s.client.ep.sq[i].stage.OnWire? && s.client.ep.sq[i].request.op.IsWrite()
    && s.client.ep.sq[i].request.version == n + 1
  }

  ghost predicate AtLoopHead(cfg: Config, s: State) {
    Inv(cfg, s) && s.client.pc.LoopHead? && !s.stop && (NeverRetires(cfg) ==> s.client.ops < 2)
  }

  predicate CanTurn(s: State) { s.fault.NoFault? && !s.client.pc.Left? && !s.client.pc.Failed? }

  lemma ClientTurns(cfg: Config, s: State, t: State)
    requires Reachable(cfg, s) && CanTurn(s) && ClientAct(cfg, s) == t
    ensures Reachable(cfg, t)
  {
    StepReaches(cfg, s, ClientStep);
  }

  /** What the client's queue is at the head of the loop. */
  lemma LoopHeadQueue(cfg: Config, s: State)
    requires AtLoopHead(cfg, s)
    ensures s.client.ep.rq == [] && s.client.issued == s.client.ops
    ensures |s.client.ep.sq| == if NeverRetires(cfg) then s.client.ops else 0
    ensures s.client.ep.sq != [] ==> s.client.ep.sq[|s.client.ep.sq| - 1].stage.Rank() >= 2
  {
    NothingInFlight(cfg, s);
  }

  /** The state with the next write posted. */
  function Posted1(cfg: Config, s: State): State {
    var op := if cfg.kind.Wi? then WriteWithImm else Write;
    var c := s.client;
    s.(client := c.(
      pc := if cfg.kind.Wi? then ClientAfter(cfg, PostTrigger) else ClientAfter(cfg, PostWrite),
      ep := c.ep.(sq := c.ep.sq + [Slot(Request(op, c.issued + 1, cfg.Signaled(op)), Posted)],
                  rq := if cfg.kind.Wi? then [NotificationBuffer] else c.ep.rq),
      issued := c.issued + 1,
      triggered := if cfg.kind.Wi? then c.triggered + 1 else c.triggered))
  }

  predicate ReadyToPost(cfg: Config, s: State) {
    && cfg.connected && CanTurn(s) && s.client.pc.LoopHead? && !s.stop
    && s.client.ep.rq == [] && |s.client.ep.sq| < cfg.MaxSendWr()
  }

  /** The worker between the receive and the write of Wi. */
  function Received(s: State): State {
    s.(client := s.client.(pc := PostTrigger, ep := s.client.ep.(rq := [NotificationBuffer])))
  }

  /** In Ws and Wr the write is posted first. */
  lemma WritePosts(cfg: Config, s: State)
    requires ReadyToPost(cfg, s) && !cfg.kind.Wi?
    ensures ClientAct(cfg, s) == Goto(s, PostWrite)
    ensures ClientAct(cfg, Goto(s, PostWrite)) == Posted1(cfg, s)
  {}

  /** In Wi it follows the receive. */
  lemma WriteWithImmPosts(cfg: Config, s: State)
    requires ReadyToPost(cfg, s) && cfg.kind.Wi?
    ensures ClientAct(cfg, s) == Goto(s, PostRecv)
    ensures ClientAct(cfg, Goto(s, PostRecv)) == Received(s)
    ensures ClientAct(cfg, Received(s)) == Posted1(cfg, s)
  {}

  lemma WritePosted(cfg: Config, s: State)
    requires Reachable(cfg, s) && ReadyToPost(cfg, s)
    ensures Reachable(cfg, Posted1(cfg, s))
  {
    if cfg.kind.Wi? {
      WriteWithImmPosts(cfg, s);
      ClientTurns(cfg, s, Goto(s, PostRecv));
      ClientTurns(cfg, Goto(s, PostRecv), Received(s));
      ClientTurns(cfg, Received(s), Posted1(cfg, s));
    } else {
      WritePosts(cfg, s);
      ClientTurns(cfg, s, Goto(s, PostWrite));
      ClientTurns(cfg, Goto(s, PostWrite), Posted1(cfg, s));
    }
  }

  lemma PostedGoesOut(cfg: Config, s: State, i: nat)
    requires s.fault.NoFault? && s.client.issued == s.client.ops && i == |s.client.ep.sq|
    requires i > 0 ==> s.client.ep.sq[i - 1].stage.Rank() >= 2
    ensures Enabled(cfg, Posted1(cfg, s), ClientNic(i))
    ensures var t := Apply(cfg, Posted1(cfg, s), ClientNic(i));
      InTransit(cfg, t, i, s.client.ops) && t.vol == s.vol && t.per == s.per
  {}

  /** A run to the moment when the next write is on the wire, with memory as it was. */
  lemma WriteOnItsWay(cfg: Config, s: State) returns (t: State, i: nat)
    requires cfg.connected && Reachable(cfg, s) && AtLoopHead(cfg, s)
    ensures Reachable(cfg, t) && InTransit(cfg, t, i, s.client.ops) && t.vol == s.vol && t.per == s.per
  {
    LoopHeadQueue(cfg, s);
    i := |s.client.ep.sq|;
    WritePosted(cfg, s);
    PostedGoesOut(cfg, s, i);
    StepReaches(cfg, Posted1(cfg, s), ClientNic(i));
    t := Apply(cfg, Posted1(cfg, s), ClientNic(i));
  }

  /** The memory with the first `k` bytes of the image in it. */
  function Partly(image: seq<nat>, n: nat, k: nat): seq<nat>
    requires k <= |image|
  {
    image[..k] + Filled(|image| - k, n)
  }

  lemma PartlyGrows(image: seq<nat>, n: nat, k: nat)
    requires k < |image|
    ensures Partly(image, n, k)[k := image[k]] == Partly(image, n, k + 1)
    ensures image[k] == n ==> Partly(image, n, k) == Partly(image, n, k + 1)
  {
    assert Partly(image, n, k)[k] == n;
  }

  function WithMemory(s: State, m: seq<nat>): State { s.(vol := m, per := m) }

  /** One byte of the write in transit is placed and written back. */
  lemma TearByte(cfg: Config, s: State, m: seq<nat>, i: nat, n: nat, b: nat)
    requires cfg.usePmem && Reachable(cfg, WithMemory(s, m)) && InTransit(cfg, s, i, n) && b < |m|
    ensures Reachable(cfg, WithMemory(s, m[b := n + 1]))
  {
    var placed := s.(vol := m[b := n + 1], per := m);
    StepReaches(cfg, WithMemory(s, m), Place(i, b));
    assert Apply(cfg, WithMemory(s, m), Place(i, b)) == placed;
    StepReaches(cfg, placed, Evict(b));
  }

  /** The write reaches some of its bytes, and the cache lines of these are written back. */
  lemma {:induction false} Tear(cfg: Config, s: State, i: nat, n: nat, image: seq<nat>, k: nat)
    requires cfg.usePmem && InTransit(cfg, s, i, n) && k <= |image|
    requires Reachable(cfg, WithMemory(s, Filled(|image|, n)))
    requires forall b :: 0 <= b < |image| ==> image[b] == n || image[b] == n + 1
    ensures Reachable(cfg, WithMemory(s, Partly(image, n, k)))
  {
    if k == 0 {
      assert Partly(image, n, 0) == Filled(|image|, n);
    } else {
      Tear(cfg, s, i, n, image, k - 1);
      PartlyGrows(image, n, k - 1);
      if image[k - 1] != n {
        TearByte(cfg, s, Partly(image, n, k - 1), i, n, k - 1);
      }
    }
  }

  lemma ImageIsLeft(cfg: Config, n: nat, image: seq<nat>) returns (s: State)
    requires cfg.connected && Flushes(cfg) && Allowed(cfg, n, image)
    ensures Reachable(cfg, s) && s.client.ops == n && s.per == image
  {
    var trace := EveryCountReachable(cfg, n);
    trace := ToLoopHead(cfg, trace);
    s := Run(cfg, trace).state;
    RunKeeps(cfg, trace);
    LoopHeadIsSettled(cfg, s);
    if NeverRetires(cfg) && n == 2 {
      assert image == Filled(cfg.size, 2);
    } else {
      var t, i := WriteOnItsWay(cfg, s);
      assert t == WithMemory(t, Filled(|image|, n));
      Tear(cfg, t, i, n, image, |image|);
      assert Partly(image, n, |image|) == image;
      s := WithMemory(t, image);
    }
  }

  /** Exactly these images can a crash leave of a durable configuration, byte by byte in any
      mixture: neither more, nor fewer. */
  lemma CrashImageIff(cfg: Config, n: nat, image: seq<nat>)
    requires cfg.connected && Flushes(cfg)
    ensures (exists s :: Reachable(cfg, s) && s.client.ops == n && s.per == image) <==> Allowed(cfg, n, image)
  {
    if Allowed(cfg, n, image) {
      var s := ImageIsLeft(cfg, n, image);
    }
    if s :| Reachable(cfg, s) && s.client.ops == n && s.per == image {
      CrashImage(cfg, s);
      if NeverRetires(cfg) { AtMostTwoWritten(cfg, s); }
    }
  }

  lemma AtMostTwoWritten(cfg: Config, s: State)
    requires cfg.connected && NeverRetires(cfg) && Reachable(cfg, s)
    ensures s.client.ops <= 2 && forall b :: 0 <= b < |s.per| ==> s.per[b] <= 2
  {
    NeverRetiresStopsAtTwo(cfg, s);
    var trace :| Run(cfg, trace) == Reached(s);
    RunKeeps(cfg, trace);
  }
}
