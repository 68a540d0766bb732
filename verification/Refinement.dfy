/**
 Forward simulation: every build of the three protocols, with or without waiting for the
 WRITE completion, is an implementation of the one durable register.
 */
module Refinement {
  import opened Protocol
  import opened Invariant
  import opened Progress
  import opened Safety
  import opened DurableRegister

  function Abs(cfg: Config, s: State): Register {
    Register(s.client.ops, Durable(cfg, s), s.client.issued > s.client.ops)
  }

  function StateAfter(cfg: Config, trace: seq<Step>, i: nat): State
    requires i <= |trace|
  {
    match Run(cfg, trace[..i]) case Reached(s) => s case Stuck => Init(cfg)
  }

  function AbsRun(cfg: Config, trace: seq<Step>): seq<Register> {
    seq(|trace| + 1, i requires 0 <= i <= |trace| => Abs(cfg, StateAfter(cfg, trace, i)))
  }

  lemma ClientCounts(cfg: Config, s: State)
    ensures var t := ClientAct(cfg, s);
      && t.server == s.server
      && t.client.ops == s.client.ops + Bit(s.client.pc.Count?)
      && (s.client.pc.Count? ==> t.client.issued == s.client.issued)
  {}

  /** A new write begins only when no other is open. */
  lemma ClientBegins(cfg: Config, c: Client, c': Client)
    requires ClientInv(cfg, c) && ClientInv(cfg, c') && c'.ops == c.ops
    requires c'.issued == c.issued || c'.issued == c.issued + 1
    ensures c'.issued == c.issued || c.issued == c.ops
  {}

  lemma ClientSimulates(cfg: Config, s: State)
    requires cfg.connected && Flushes(cfg) && Inv(cfg, s)
    ensures Next(Abs(cfg, s), Abs(cfg, ClientAct(cfg, s)))
  {
    if s.client.pc.PostTrigger? { NothingInFlight(cfg, s); }
    ClientCounts(cfg, s);
    ClientQueues(cfg, s);
    if !s.client.pc.Count? { ClientBegins(cfg, s.client, ClientAct(cfg, s).client); }
    DurableCovers(cfg, s);
  }

  /** While nothing is begun or counted, all that can happen is that the open write becomes durable. */
  lemma BecomesDurable(cfg: Config, s: State, t: State)
    requires Flushes(cfg) && Inv(cfg, s) && Inv(cfg, t)
    requires t.client.ops == s.client.ops && t.client.issued == s.client.issued
    requires t.server.persists >= s.server.persists && t.server.arrived >= s.server.arrived
    ensures Next(Abs(cfg, s), Abs(cfg, t))
  {
    DurableCovers(cfg, s);
    DurableCovers(cfg, t);
    Counts(cfg, s);
  }

  lemma ServerSimulates(cfg: Config, s: State)
    requires cfg.connected && Flushes(cfg) && Inv(cfg, s)
    ensures Next(Abs(cfg, s), Abs(cfg, ServerAct(cfg, s)))
  {
    ServerTurn(cfg, s);
    ServerQueues(cfg, s);
    BecomesDurable(cfg, s, ServerAct(cfg, s));
  }

  lemma NicLeaves(cfg: Config, s: State, step: Step)
    requires Enabled(cfg, s, step) && !step.ClientStep? && !step.ServerStep?
    ensures var t := Apply(cfg, s, step);
      && t.client.ops == s.client.ops && t.client.issued == s.client.issued
      && t.server.persists == s.server.persists
      && s.server.arrived <= t.server.arrived <= s.server.arrived + 1
  {}

  lemma StepSimulates(cfg: Config, s: State, step: Step)
    requires cfg.connected && Flushes(cfg) && Inv(cfg, s) && Enabled(cfg, s, step)
    ensures Next(Abs(cfg, s), Abs(cfg, Apply(cfg, s, step)))
  {
    match step
    case ClientStep => ClientSimulates(cfg, s);
    case ServerStep => ServerSimulates(cfg, s);
    case _ =>
      NicLeaves(cfg, s, step);
      StepKeeps(cfg, s, step);
      BecomesDurable(cfg, s, Apply(cfg, s, step));
  }

  lemma {:induction false} PrefixReached(cfg: Config, trace: seq<Step>, i: nat)
    requires i <= |trace| && Run(cfg, trace).Reached?
    ensures Run(cfg, trace[..i]).Reached?
    decreases |trace| - i
  {
    if i < |trace| {
      PrefixReached(cfg, trace, i + 1);
      assert trace[..i + 1][..i] == trace[..i];
    } else {
      assert trace[..i] == trace;
    }
  }

  /** Every run, seen through `Abs`, is a behaviour of the durable register, and at every
      moment of it a crash leaves an image the register allows. */
  lemma RunRefinesRegister(cfg: Config, trace: seq<Step>)
    requires cfg.connected && Flushes(cfg) && Run(cfg, trace).Reached?
    ensures Behaviour(AbsRun(cfg, trace))
    ensures forall i :: 0 <= i <= |trace| ==> MaySurvive(AbsRun(cfg, trace)[i], StateAfter(cfg, trace, i).per)
  {
    var rs := AbsRun(cfg, trace);
    assert trace[..0] == [];
    forall i | 0 < i < |rs|
      ensures Next(rs[i - 1], rs[i])
    {
      PrefixReached(cfg, trace, i - 1);
      PrefixReached(cfg, trace, i);
      assert trace[..i][..i - 1] == trace[..i - 1] && trace[..i][i - 1] == trace[i - 1];
      RunKeeps(cfg, trace[..i - 1]);
      StepSimulates(cfg, StateAfter(cfg, trace, i - 1), trace[i - 1]);
    }
    forall i | 0 <= i <= |trace|
      ensures MaySurvive(rs[i], StateAfter(cfg, trace, i).per)
    {
      PrefixReached(cfg, trace, i);
      RunKeeps(cfg, trace[..i]);
      CrashImageAllowed(cfg, StateAfter(cfg, trace, i));
    }
  }

  lemma CrashImageAllowed(cfg: Config, s: State)
    requires Inv(cfg, s)
    ensures MaySurvive(Abs(cfg, s), s.per)
  {}

  /** The refinement is not vacuous: every count is reached, except by the build that stops at two. */
  lemma {:induction false} EveryCountReachable(cfg: Config, n: nat) returns (trace: seq<Step>)
    requires cfg.connected && (NeverRetires(cfg) ==> n <= 2)
    ensures Run(cfg, trace).Reached?
    ensures var s := Run(cfg, trace).state; s.client.ops == n && !s.stop && (s.client.pc.LoopHead? || (n == 0 && s.client.pc.AwaitMetadata?))
  {
    if n == 0 {
      trace := [];
    } else {
      var before := EveryCountReachable(cfg, n - 1);
      trace := Drive(cfg, before);
      RunKeeps(cfg, trace);
    }
  }
}
