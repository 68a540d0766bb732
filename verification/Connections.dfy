/**
 The connection bookkeeping: how the counters of `test` follow the connection-manager
 events, and what it means that connect_events returned 0.
 */
module Connections {
  import opened Machine

  /** A connection-manager event together with what the library calls its handler makes
      return.  GetFailed stands for a failing rdma_get_cm_event. */
  datatype CmEvent =
    | AddrResolved(id: nat, resolveRoute: int)
    | RouteResolved(id: nat, initNode: int, postRecv: int, connect: int)
    | ConnectRequest(id: nat, initNode: int, postRecv: int, accept: int)
    | Established(id: nat)
    | Failure(id: nat, status: int)
    | Disconnected(id: nat)
    | Other
    | GetFailed(errno: int)

  /** `context` maps a connection id to the index of its node. */
  datatype Ledger = Ledger(
    context: map<nat, nat>,
    connected: seq<bool>,
    connIndex: nat,
    connectsLeft: int,
    disconnectsLeft: int)

  datatype Phase = Connecting | Disconnecting

  /** What an event loop came to: it returned `ret` before the events `rest`, or it is
      waiting for an event after the last one. */
  datatype Outcome = Returned(ledger: Ledger, ret: int, rest: seq<CmEvent>) | Waiting(ledger: Ledger)

  function FirstError(a: int, b: int, c: int): int {
    if a != 0 then a else if b != 0 then b else c
  }

  function ConnectError(l: Ledger): Ledger { l.(connectsLeft := l.connectsLeft - 1) }

  /** cma_handler: the new ledger and the value returned. */
  function Handle(connections: nat, l: Ledger, e: CmEvent): (Ledger, int) {
    match e
    case AddrResolved(_, r) => (if r != 0 then ConnectError(l) else l, r)
    case RouteResolved(_, i, p, c) =>
      var r := FirstError(i, p, c);
      (if r != 0 then ConnectError(l) else l, r)
    case ConnectRequest(id, i, p, a) =>
      if l.connIndex == connections then (l, -ENOMEM)
      else
        var l' := l.(context := l.context[id := l.connIndex], connIndex := l.connIndex + 1);
        var r := FirstError(i, p, a);
        (if r != 0 then ConnectError(l') else l', r)
    case Established(id) =>
      var connected :=
        if id in l.context && l.context[id] < |l.connected| then l.connected[l.context[id] := true] else l.connected;
      (l.(connected := connected, connectsLeft := l.connectsLeft - 1, disconnectsLeft := l.disconnectsLeft + 1), 0)
    case Failure(_, status) => (ConnectError(l), status)
    case Disconnected(_) => (l.(disconnectsLeft := l.disconnectsLeft - 1), 0)
    case Other => (l, 0)
    case GetFailed(errno) => (l, errno)
  }

  function Left(phase: Phase, l: Ledger): int {
    if phase.Connecting? then l.connectsLeft else l.disconnectsLeft
  }

  /** connect_events and disconnect_events as a function of the events that come. */
  function Loop(connections: nat, phase: Phase, l: Ledger, ret: int, events: seq<CmEvent>): Outcome
    decreases |events|
  {
    if Left(phase, l) == 0 || ret != 0 then Returned(l, ret, events)
    else if events == [] then Waiting(l)
    else
      var (l', ret') := Handle(connections, l, events[0]);
      Loop(connections, phase, l', ret', events[1..])
  }

  // ---------------------------------------------------------------- the program

  /** `struct benchmark test`, with the flags of its nodes. */
  class Benchmark {
    const connections: nat
    var context: map<nat, nat>
    var connected: seq<bool>
    var connIndex: nat
    var connectsLeft: int
    var disconnectsLeft: int

    ghost function Books(): Ledger
      reads this
    {
      Ledger(context, connected, connIndex, connectsLeft, disconnectsLeft)
    }

    /** After alloc_nodes: a client has created one id for each node, a server none. */
    constructor (connections: nat, isClient: bool)
      ensures this.connections == connections
      ensures Books() == Start(connections, isClient)
    {
      this.connections := connections;
      context := map[];
      connected := seq(connections, i => false);
      connIndex := 0;
      connectsLeft := connections;
      disconnectsLeft := 0;
      new;
      if isClient {
        for i := 0 to connections
          invariant Books() == Start(connections, false).(context := NodeIds(i))
        {
          context := context[i := i];
        }
      }
    }

    method ConnectError()
      modifies this`connectsLeft
      ensures connectsLeft == old(connectsLeft) - 1
    {
      connectsLeft := connectsLeft - 1;
    }

    method AddrHandler(e: CmEvent) returns (ret: int)
      requires e.AddrResolved?
      modifies this
      ensures (Books(), ret) == Handle(connections, old(Books()), e)
    {
      ret := e.resolveRoute;
      if ret != 0 {
        ConnectError();
      }
    }

    method RouteHandler(e: CmEvent) returns (ret: int)
      requires e.RouteResolved?
      modifies this
      ensures (Books(), ret) == Handle(connections, old(Books()), e)
    {
      ret := e.initNode;
      if ret == 0 {
        ret := e.postRecv;
      }
      if ret == 0 {
        ret := e.connect;
      }
      if ret != 0 {
        ConnectError();
      }
    }

    method ConnectHandler(e: CmEvent) returns (ret: int)
      requires e.ConnectRequest?
      modifies this
      ensures (Books(), ret) == Handle(connections, old(Books()), e)
    {
      if connIndex == connections {
        return -ENOMEM;
      }
      context := context[e.id := connIndex];
      connIndex := connIndex + 1;
      ret := e.initNode;
      if ret == 0 {
        ret := e.postRecv;
      }
      if ret == 0 {
        ret := e.accept;
      }
      if ret != 0 {
        ConnectError();
      }
    }

    method CmaHandler(e: CmEvent) returns (ret: int)
      modifies this
      ensures (Books(), ret) == Handle(connections, old(Books()), e)
    {
      ret := 0;
      match e {
        case AddrResolved(_, _) => ret := AddrHandler(e);
        case RouteResolved(_, _, _, _) => ret := RouteHandler(e);
        case ConnectRequest(_, _, _, _) => ret := ConnectHandler(e);
        case Established(id) =>
          if id in context && context[id] < |connected| {
            connected := connected[context[id] := true];
          }
          connectsLeft := connectsLeft - 1;
          disconnectsLeft := disconnectsLeft + 1;
        case Failure(_, status) =>
          ConnectError();
          ret := status;
        case Disconnected(_) => disconnectsLeft := disconnectsLeft - 1;
        case Other =>
        case GetFailed(errno) => ret := errno;
      }
    }

    /** Runs until the loop ends or `events` runs out; `done` tells which. */
    method ConnectEvents(events: seq<CmEvent>) returns (ret: int, used: nat, done: bool)
      modifies this
      ensures used <= |events|
      ensures Loop(connections, Connecting, old(Books()), 0, events)
              == if done then Returned(Books(), ret, events[used..]) else Waiting(Books())
    {
      ret, used := 0, 0;
      while connectsLeft != 0 && ret == 0 && used < |events|
        invariant used <= |events|
        decreases |events| - used
        invariant Loop(connections, Connecting, old(Books()), 0, events)
                  == Loop(connections, Connecting, Books(), ret, events[used..])
      {
        ret := CmaHandler(events[used]);
        used := used + 1;
      }
      done := connectsLeft == 0 || ret != 0;
    }

    method DisconnectEvents(events: seq<CmEvent>) returns (ret: int, used: nat, done: bool)
      modifies this
      ensures used <= |events|
      ensures Loop(connections, Disconnecting, old(Books()), 0, events)
              == if done then Returned(Books(), ret, events[used..]) else Waiting(Books())
    {
      ret, used := 0, 0;
      while disconnectsLeft != 0 && ret == 0 && used < |events|
        invariant used <= |events|
        decreases |events| - used
        invariant Loop(connections, Disconnecting, old(Books()), 0, events)
                  == Loop(connections, Disconnecting, Books(), ret, events[used..])
      {
        ret := CmaHandler(events[used]);
        used := used + 1;
      }
      done := disconnectsLeft == 0 || ret != 0;
    }
  }

  // the ids a client creates up front, node i for id i
  function NodeIds(n: nat): (m: map<nat, nat>)
    ensures forall i :: i in m <==> 0 <= i < n
    ensures forall i :: i in m ==> m[i] == i
  {
    if n == 0 then map[] else NodeIds(n - 1)[n - 1 := n - 1]
  }

  function Start(connections: nat, isClient: bool): Ledger {
    Ledger(if isClient then NodeIds(connections) else map[],
           seq(connections, i => false), 0, connections, 0)
  }

  // ---------------------------------------------------------------- what has happened

  /** What the events so far said: the ids the library has reported, those whose connection was
      not refused, those established and those disconnected; how many nodes requests have taken,
      and how many events were failures. */
  datatype History = History(seen: set<nat>, open: set<nat>, up: set<nat>, down: set<nat>, nodes: nat, failed: nat)

  /** A client has created an id for each node, a server knows none. */
  function Begun(connections: nat, isClient: bool): History {
    var ids := if isClient then NodeIds(connections).Keys else {};
    History(ids, ids, {}, {}, 0, 0)
  }

  /** The event is a failed connection: something its handler calls fails, or it reports an
      error.  A request for which no node is free is refused without being one. */
  predicate IsFailure(e: CmEvent, nodeFree: bool) {
    match e
    case AddrResolved(_, r) => r != 0
    case RouteResolved(_, i, p, c) => FirstError(i, p, c) != 0
    case ConnectRequest(_, i, p, a) => nodeFree && FirstError(i, p, a) != 0
    case Failure(_, _) => true
    case _ => false
  }

  function Bit(b: bool): nat { if b then 1 else 0 }

  /** The history after one more event, whether its handler succeeds or not. */
  function Happened(connections: nat, h: History, e: CmEvent): History {
    var free := h.nodes < connections;
    var h' := h.(failed := h.failed + Bit(IsFailure(e, free)));
    match e
    case ConnectRequest(id, _, _, _) =>
      h'.(seen := h.seen + {id},
          open := if free && !IsFailure(e, free) then h.open + {id} else h.open,
          nodes := h.nodes + Bit(free))
    case Established(id) => h'.(up := h.up + {id})
    case Disconnected(id) => h'.(down := h.down + {id})
    case _ => h'
  }

  function After(connections: nat, h: History, events: seq<CmEvent>): History
    decreases |events|
  {
    if events == [] then h else After(connections, Happened(connections, h, events[0]), events[1..])
  }

  /** The library reports a connection id to a server once; it reports at most one ESTABLISHED,
      and that only for an id that was not refused, and then at most one DISCONNECTED. */
  predicate Possible(isClient: bool, h: History, e: CmEvent) {
    match e
    case ConnectRequest(id, _, _, _) => !isClient && id !in h.seen
    case Established(id) => id in h.open && id !in h.up
    case Disconnected(id) => id in h.up && id !in h.down
    case _ => true
  }

  predicate WellBehaved(connections: nat, isClient: bool, h: History, events: seq<CmEvent>)
    decreases |events|
  {
    events == [] ||
    (Possible(isClient, h, events[0]) && WellBehaved(connections, isClient, Happened(connections, h, events[0]), events[1..]))
  }

  /** The ids that `events` report as established, and as disconnected. */
  function UpIds(events: seq<CmEvent>): set<nat> {
    if events == [] then {} else (if events[0].Established? then {events[0].id} else {}) + UpIds(events[1..])
  }

  function DownIds(events: seq<CmEvent>): set<nat> {
    if events == [] then {} else (if events[0].Disconnected? then {events[0].id} else {}) + DownIds(events[1..])
  }

  /** Some error is reported with a zero code, which the loop takes for success. */
  predicate SilentError(e: CmEvent) {
    (e.Failure? && e.status == 0)
  }

  function SilentErrors(events: seq<CmEvent>): nat {
    if events == [] then 0 else SilentErrors(events[1..]) + Bit(SilentError(events[0]))
  }

  /** The history knows exactly the ids that the events establish and disconnect. */
  lemma {:induction false} AfterIs(connections: nat, h: History, events: seq<CmEvent>)
    ensures After(connections, h, events).up == h.up + UpIds(events)
    ensures After(connections, h, events).down == h.down + DownIds(events)
    decreases |events|
  {
    if events == [] {
      assert h.up + {} == h.up && h.down + {} == h.down;
    } else {
      var h' := Happened(connections, h, events[0]);
      AfterIs(connections, h', events[1..]);
      assert h'.up + UpIds(events[1..]) == h.up + UpIds(events);
      assert h'.down + DownIds(events[1..]) == h.down + DownIds(events);
    }
  }

  lemma AfterBegun(connections: nat, isClient: bool, events: seq<CmEvent>)
    ensures var h := After(connections, Begun(connections, isClient), events);
      h.up == UpIds(events) && h.down == DownIds(events)
  {
    AfterIs(connections, Begun(connections, isClient), events);
    assert {} + UpIds(events) == UpIds(events) && {} + DownIds(events) == DownIds(events);
  }

  function CountTrue(bs: seq<bool>): nat {
    if bs == [] then 0 else CountTrue(bs[1..]) + Bit(bs[0])
  }

  // ---------------------------------------------------------------- accounting

  ghost predicate Injective(m: map<nat, nat>) {
    forall i, j :: i in m && j in m && m[i] == m[j] ==> i == j
  }

  /** A node's flag says whether its connection was established. */
  ghost predicate FlagsAgree(context: map<nat, nat>, connected: seq<bool>, up: set<nat>) {
    forall id :: id in context ==> context[id] < |connected| && (id in up <==> connected[context[id]])
  }

  /** The ledger agrees with what has happened. */
  ghost predicate Agrees(connections: nat, isClient: bool, l: Ledger, h: History) {
    && |l.connected| == connections
    && l.connIndex == h.nodes <= connections
    && h.down <= h.up <= h.open <= l.context.Keys <= h.seen
    && Injective(l.context)
    && (forall id :: id in l.context ==> l.context[id] < if isClient then connections else l.connIndex)
    && FlagsAgree(l.context, l.connected, h.up)
    && (!isClient ==> forall k :: l.connIndex <= k < connections ==> !l.connected[k])
    && CountTrue(l.connected) == |h.up|
    && l.connectsLeft + |h.up| + h.failed == connections
    && l.disconnectsLeft + |h.down| == |h.up|
  }

  lemma {:induction false} CountTrueSet(bs: seq<bool>, i: nat)
    requires i < |bs| && !bs[i]
    ensures CountTrue(bs[i := true]) == CountTrue(bs) + 1
  {
    var bs' := bs[i := true];
    if i == 0 {
      assert bs'[1..] == bs[1..];
    } else {
      CountTrueSet(bs[1..], i - 1);
      assert bs'[1..] == bs[1..][i - 1 := true];
    }
  }

  lemma {:induction false} CountTrueAll(bs: seq<bool>)
    ensures CountTrue(bs) <= |bs|
    ensures CountTrue(bs) == |bs| <==> forall i :: 0 <= i < |bs| ==> bs[i]
  {
    if bs != [] {
      CountTrueAll(bs[1..]);
      assert (forall i :: 0 <= i < |bs| ==> bs[i]) ==> forall i :: 0 <= i < |bs[1..]| ==> bs[1..][i];
      assert (bs[0] && forall i :: 0 <= i < |bs[1..]| ==> bs[1..][i]) ==> forall i :: 0 < i < |bs| ==> bs[i] == bs[1..][i - 1];
    }
  }

  lemma {:induction false} CountTrueNone(n: nat)
    ensures CountTrue(seq(n, i => false)) == 0
  {
    if n > 0 {
      CountTrueNone(n - 1);
      assert seq(n, i => false)[1..] == seq(n - 1, i => false);
    }
  }

  lemma StartAgrees(connections: nat, isClient: bool)
    ensures Agrees(connections, isClient, Start(connections, isClient), Begun(connections, isClient))
  {
    CountTrueNone(connections);
  }

  lemma FlagSet(context: map<nat, nat>, connected: seq<bool>, up: set<nat>, id: nat)
    requires Injective(context) && FlagsAgree(context, connected, up) && id in context
    ensures FlagsAgree(context, connected[context[id] := true], up + {id})
  {}

  lemma EstablishedAgrees(connections: nat, isClient: bool, l: Ledger, h: History, id: nat)
    requires Agrees(connections, isClient, l, h) && id in h.open && id !in h.up
    ensures Agrees(connections, isClient, Handle(connections, l, Established(id)).0, h.(up := h.up + {id}))
  {
    CountTrueSet(l.connected, l.context[id]);
    FlagSet(l.context, l.connected, h.up, id);
  }

  /** A request that found a free node; `open` says whether it was refused later. */
  lemma RequestAgrees(connections: nat, l: Ledger, h: History, id: nat, open: set<nat>)
    requires Agrees(connections, false, l, h) && id !in h.seen && h.nodes < connections
    requires open == h.open || open == h.open + {id}
    ensures Agrees(connections, false,
                   l.(context := l.context[id := l.connIndex], connIndex := l.connIndex + 1),
                   h.(seen := h.seen + {id}, open := open, nodes := h.nodes + 1))
  {}

  lemma RequestEventAgrees(connections: nat, l: Ledger, h: History, e: CmEvent)
    requires Agrees(connections, false, l, h) && e.ConnectRequest? && e.id !in h.seen
    ensures Agrees(connections, false, Handle(connections, l, e).0, Happened(connections, h, e))
  {
    if h.nodes < connections {
      RequestAgrees(connections, l, h, e.id, Happened(connections, h, e).open);
    }
  }

  lemma OtherAgrees(connections: nat, isClient: bool, l: Ledger, h: History, e: CmEvent)
    requires Agrees(connections, isClient, l, h) && !e.Established? && !e.ConnectRequest?
    requires Possible(isClient, h, e)
    ensures Agrees(connections, isClient, Handle(connections, l, e).0, Happened(connections, h, e))
  {
    var l' := Handle(connections, l, e).0;
    if e.Disconnected? {
      assert l' == l.(disconnectsLeft := l.disconnectsLeft - 1);
    } else {
      assert l' == if IsFailure(e, h.nodes < connections) then ConnectError(l) else l;
    }
  }

  /** One event keeps the books balanced; whether it was a failure, and so had to be counted by
      connect_error, is read off the event and not off the counter. */
  lemma EventAgrees(connections: nat, isClient: bool, l: Ledger, h: History, e: CmEvent)
    requires Agrees(connections, isClient, l, h) && Possible(isClient, h, e)
    ensures Agrees(connections, isClient, Handle(connections, l, e).0, Happened(connections, h, e))
  {
    match e
    case Established(id) => EstablishedAgrees(connections, isClient, l, h, id);
    case ConnectRequest(_, _, _, _) => RequestEventAgrees(connections, l, h, e);
    case _ => OtherAgrees(connections, isClient, l, h, e);
  }

  /** The failures that a handler does not report are the silent errors. */
  lemma UnreportedFailure(connections: nat, l: Ledger, e: CmEvent)
    requires Handle(connections, l, e).1 == 0
    ensures IsFailure(e, l.connIndex < connections) <==> SilentError(e)
  {}

  /** Every error that a handler reports is a failure, except a request too many and a failing
      rdma_get_cm_event. */
  lemma ReportedError(connections: nat, l: Ledger, e: CmEvent)
    requires l.connIndex <= connections && Handle(connections, l, e).1 != 0
    ensures !SilentError(e)
    ensures IsFailure(e, l.connIndex < connections) <==>
            !e.GetFailed? && (e.ConnectRequest? ==> l.connIndex != connections)
  {}

  /** The value a handler returns: the first failing call of those it makes, the status of an
      error event, -ENOMEM for a request too many, errno when there was no event, and else 0. */
  predicate Returns(e: CmEvent, nodeFree: bool, ret: int) {
    match e
    case AddrResolved(_, r) => ret == r
    case RouteResolved(_, i, p, c) => ReturnsFirst(i, p, c, ret)
    case ConnectRequest(_, i, p, a) => if nodeFree then ReturnsFirst(i, p, a, ret) else ret == -12
    case Failure(_, status) => ret == status
    case GetFailed(errno) => ret == errno
    case _ => ret == 0
  }

  predicate ReturnsFirst(a: int, b: int, c: int, ret: int) {
    && (a != 0 ==> ret == a)
    && (a == 0 && b != 0 ==> ret == b)
    && (a == 0 && b == 0 ==> ret == c)
  }

  lemma HandlerReturns(connections: nat, l: Ledger, e: CmEvent)
    requires l.connIndex <= connections
    ensures Returns(e, l.connIndex < connections, Handle(connections, l, e).1)
  {}

  // ---------------------------------------------------------------- event loops

  function Consumed(events: seq<CmEvent>, rest: seq<CmEvent>): seq<CmEvent> {
    if |rest| <= |events| then events[..|events| - |rest|] else []
  }

  /** The events an event loop has taken: all of them while it waits for more. */
  function Taken(events: seq<CmEvent>, o: Outcome): seq<CmEvent> {
    if o.Returned? then Consumed(events, o.rest) else events
  }

  /** The failures among the events taken: the silent errors and, if the loop returned an
      error, the event that made it return, unless that was a request too many or a failing
      rdma_get_cm_event. */
  function Failures(connections: nat, h: History, taken: seq<CmEvent>, error: bool): nat {
    if !error || taken == [] then SilentErrors(taken)
    else
      var last := taken[|taken| - 1];
      var full := After(connections, h, taken[..|taken| - 1]).nodes == connections;
      SilentErrors(taken) + Bit(!last.GetFailed? && !(last.ConnectRequest? && full))
  }

  predicate ReturnedError(o: Outcome) { o.Returned? && o.ret != 0 }

  /** What an event loop that started with balanced books came to: books balanced over exactly
      the events it has taken, and an environment that is still well-behaved. */
  ghost predicate LoopBooks(connections: nat, isClient: bool, phase: Phase, h: History, events: seq<CmEvent>, o: Outcome) {
    var taken := Taken(events, o);
    var h' := After(connections, h, taken);
    && Agrees(connections, isClient, o.ledger, h')
    && h'.failed == h.failed + Failures(connections, h, taken, ReturnedError(o))
    && (o.Returned? ==> |o.rest| <= |events| && WellBehaved(connections, isClient, h', o.rest))
    && (o.Returned? && o.ret == 0 ==> Left(phase, o.ledger) == 0)
    && (ReturnedError(o) ==> taken != [])
  }

  lemma FailuresGrow(connections: nat, h: History, e: CmEvent, taken: seq<CmEvent>, error: bool)
    requires error ==> taken != []
    ensures Failures(connections, h, [e] + taken, error)
            == Bit(SilentError(e)) + Failures(connections, Happened(connections, h, e), taken, error)
  {
    var all := [e] + taken;
    assert all[1..] == taken;
    if error {
      assert all[..|all| - 1][1..] == taken[..|taken| - 1];
    }
  }

  lemma LoopGoesOn(connections: nat, isClient: bool, phase: Phase, h: History, events: seq<CmEvent>, o: Outcome)
    requires events != [] && LoopBooks(connections, isClient, phase, Happened(connections, h, events[0]), events[1..], o)
    requires Happened(connections, h, events[0]).failed == h.failed + Bit(SilentError(events[0]))
    ensures LoopBooks(connections, isClient, phase, h, events, o)
  {
    var later := Taken(events[1..], o);
    assert Taken(events, o) == [events[0]] + later;
    assert Taken(events, o)[1..] == later;
    FailuresGrow(connections, h, events[0], later, ReturnedError(o));
  }

  lemma LoopFails(connections: nat, isClient: bool, phase: Phase, l: Ledger, h: History, events: seq<CmEvent>)
    requires events != [] && Left(phase, l) != 0 && Handle(connections, l, events[0]).1 != 0
    requires Agrees(connections, isClient, l, h) && WellBehaved(connections, isClient, h, events)
    ensures LoopBooks(connections, isClient, phase, h, events, Loop(connections, phase, l, 0, events))
  {
    var e := events[0];
    EventAgrees(connections, isClient, l, h, e);
    ReportedError(connections, l, e);
    var taken := Taken(events, Loop(connections, phase, l, 0, events));
    assert taken == [e] && taken[1..] == [];
    FailuresOfOne(connections, h, e);
  }

  lemma FailuresOfOne(connections: nat, h: History, e: CmEvent)
    ensures Failures(connections, h, [e], true)
            == Bit(SilentError(e)) + Bit(!e.GetFailed? && !(e.ConnectRequest? && h.nodes == connections))
  {
    var s := [e];
    assert s[..|s| - 1] == [] && s[1..] == [] && s[|s| - 1] == e;
    assert SilentErrors(s) == Bit(SilentError(e));
  }

  /** Whatever events come, the ledger stays balanced: outstanding, established, disconnected
      and failed connections are those of the events taken, for both loops. */
  lemma {:induction false} LoopAgrees(connections: nat, isClient: bool, phase: Phase, l: Ledger, h: History, events: seq<CmEvent>)
    requires Agrees(connections, isClient, l, h) && WellBehaved(connections, isClient, h, events)
    ensures LoopBooks(connections, isClient, phase, h, events, Loop(connections, phase, l, 0, events))
    decreases |events|
  {
    var o := Loop(connections, phase, l, 0, events);
    if Left(phase, l) == 0 || events == [] {
      assert Taken(events, o) == [];
    } else if Handle(connections, l, events[0]).1 != 0 {
      LoopFails(connections, isClient, phase, l, h, events);
    } else {
      EventAgrees(connections, isClient, l, h, events[0]);
      UnreportedFailure(connections, l, events[0]);
      LoopAgrees(connections, isClient, phase, Handle(connections, l, events[0]).0, Happened(connections, h, events[0]), events[1..]);
      LoopGoesOn(connections, isClient, phase, h, events, o);
    }
  }

  /** A loop goes on exactly while its counter is not 0, also below it. */
  lemma LoopGoesOnIff(connections: nat, phase: Phase, l: Ledger, events: seq<CmEvent>)
    ensures Loop(connections, phase, l, 0, events) == Returned(l, 0, events)
            <==> (if phase.Connecting? then l.connectsLeft else l.disconnectsLeft) == 0
    ensures Loop(connections, phase, l, 0, []).Waiting?
            <==> (if phase.Connecting? then l.connectsLeft else l.disconnectsLeft) != 0
  {
    if Left(phase, l) != 0 && events != [] {
      LoopTakes(connections, phase, Handle(connections, l, events[0]).0, Handle(connections, l, events[0]).1, events[1..]);
    }
  }

  lemma {:induction false} LoopTakes(connections: nat, phase: Phase, l: Ledger, ret: int, events: seq<CmEvent>)
    ensures var o := Loop(connections, phase, l, ret, events); o.Returned? ==> |o.rest| <= |events|
    decreases |events|
  {
    if Left(phase, l) != 0 && ret == 0 && events != [] {
      LoopTakes(connections, phase, Handle(connections, l, events[0]).0, Handle(connections, l, events[0]).1, events[1..]);
    }
  }

  /** An event loop that returns an error returns that of the last event it has taken. */
  lemma {:induction false} LoopReturnsLast(connections: nat, isClient: bool, phase: Phase, l: Ledger, h: History, events: seq<CmEvent>)
    requires Agrees(connections, isClient, l, h) && WellBehaved(connections, isClient, h, events)
    ensures var o := Loop(connections, phase, l, 0, events);
      var taken := Taken(events, o);
      ReturnedError(o) ==>
        && taken != []
        && Returns(taken[|taken| - 1], After(connections, h, taken[..|taken| - 1]).nodes < connections, o.ret)
    decreases |events|
  {
    var o := Loop(connections, phase, l, 0, events);
    if Left(phase, l) != 0 && events != [] && ReturnedError(o) {
      var e, rest := events[0], events[1..];
      var (l', ret) := Handle(connections, l, e);
      if ret != 0 {
        FailingEventReturns(connections, l, h, events, Returned(l', ret, rest));
      } else {
        EventAgrees(connections, isClient, l, h, e);
        LoopAgrees(connections, isClient, phase, l', Happened(connections, h, e), rest);
        LoopReturnsLast(connections, isClient, phase, l', Happened(connections, h, e), rest);
        TakenLater(connections, h, events, o);
      }
    }
  }

  lemma FailingEventReturns(connections: nat, l: Ledger, h: History, events: seq<CmEvent>, o: Outcome)
    requires l.connIndex == h.nodes <= connections
    requires events != [] && o == Returned(Handle(connections, l, events[0]).0, Handle(connections, l, events[0]).1, events[1..])
    ensures var taken := Taken(events, o);
      taken != [] && Returns(taken[|taken| - 1], After(connections, h, taken[..|taken| - 1]).nodes < connections, o.ret)
  {
    HandlerReturns(connections, l, events[0]);
    TakenFirst(events, o);
  }

  lemma TakenFirst(events: seq<CmEvent>, o: Outcome)
    requires events != [] && o.Returned? && o.rest == events[1..]
    ensures Taken(events, o) == [events[0]] && Taken(events, o)[..0] == []
  {}

  lemma TakenLater(connections: nat, h: History, events: seq<CmEvent>, o: Outcome)
    requires events != [] && o.Returned? && |o.rest| < |events| && Taken(events[1..], o) != []
    ensures var taken, later := Taken(events, o), Taken(events[1..], o);
      && taken != [] && taken[|taken| - 1] == later[|later| - 1]
      && After(connections, h, taken[..|taken| - 1])
         == After(connections, Happened(connections, h, events[0]), later[..|later| - 1])
  {
    var taken, later := Taken(events, o), Taken(events[1..], o);
    assert taken == [events[0]] + later;
    assert taken[..|taken| - 1] == [events[0]] + later[..|later| - 1];
    assert taken[..|taken| - 1][1..] == later[..|later| - 1];
  }

  /** A rejection with a status is returned with that status. */
  lemma RejectionIsReturned(connections: nat, l: Ledger, id: nat, status: int)
    requires l.connectsLeft != 0 && status != 0
    ensures Loop(connections, Connecting, l, 0, [Failure(id, status)])
            == Returned(l.(connectsLeft := l.connectsLeft - 1), status, [])
  {}

  /** When connect_events returns an error, every failure before it is accounted for: what is
      still outstanding is what was neither established nor failed, and exactly one failure was
      reported, unless rdma_get_cm_event failed or a request found no free node. */
  lemma ConnectErrorIsCounted(connections: nat, isClient: bool, events: seq<CmEvent>)
    requires WellBehaved(connections, isClient, Begun(connections, isClient), events)
    requires ReturnedError(Loop(connections, Connecting, Start(connections, isClient), 0, events))
    ensures var o := Loop(connections, Connecting, Start(connections, isClient), 0, events);
      var taken := Consumed(events, o.rest);
      && o.ledger.connectsLeft + |UpIds(taken)| + Failures(connections, Begun(connections, isClient), taken, true) == connections
      && (isClient ==> taken != [] && !taken[|taken| - 1].ConnectRequest?)
  {
    var o := Loop(connections, Connecting, Start(connections, isClient), 0, events);
    var taken := Consumed(events, o.rest);
    StartAgrees(connections, isClient);
    LoopAgrees(connections, isClient, Connecting, Start(connections, isClient), Begun(connections, isClient), events);
    AfterBegun(connections, isClient, taken);
    if isClient { ClientGetsNoRequest(connections, Begun(connections, true), events, |taken| - 1); }
  }

  lemma {:induction false} ClientGetsNoRequest(connections: nat, h: History, events: seq<CmEvent>, i: nat)
    requires WellBehaved(connections, true, h, events) && i < |events|
    ensures !events[i].ConnectRequest?
    decreases |events|
  {
    if i > 0 { ClientGetsNoRequest(connections, Happened(connections, h, events[0]), events[1..], i - 1); }
  }

  // ---------------------------------------------------------------- connect_events

  /** Node `i` has a connection that was established and is still there.  Its flag says only
      that it was established once. */
  ghost predicate Live(l: Ledger, up: set<nat>, down: set<nat>, i: nat) {
    exists id :: id in l.context && l.context[id] == i && id in up && id !in down
  }

  ghost function Nodes(l: Ledger, ids: set<nat>): set<nat>
    requires ids <= l.context.Keys
  {
    set id | id in ids :: l.context[id]
  }

  lemma {:induction false} NodesAreAsMany(l: Ledger, ids: set<nat>)
    requires ids <= l.context.Keys && Injective(l.context)
    ensures |Nodes(l, ids)| == |ids|
  {
    if ids != {} {
      var id :| id in ids;
      NodesAreAsMany(l, ids - {id});
      assert Nodes(l, ids) == Nodes(l, ids - {id}) + {l.context[id]};
    }
  }

  function Below(n: nat): (s: set<nat>)
    ensures |s| == n && forall i: nat :: i in s <==> i < n
  {
    if n == 0 then {} else Below(n - 1) + {n - 1}
  }

  /** When as many ids are up as there are nodes, every node belongs to one of them. */
  lemma EveryNodeIsUp(connections: nat, isClient: bool, l: Ledger, h: History, i: nat) returns (id: nat)
    requires Agrees(connections, isClient, l, h) && |h.up| == connections && i < connections
    ensures id in h.up && id in l.context && l.context[id] == i
  {
    NodesAreAsMany(l, h.up);
    assert Nodes(l, h.up) <= Below(connections);
    SubsetOfSameSize(Nodes(l, h.up), Below(connections));
    assert i in Nodes(l, h.up);
    id :| id in h.up && l.context[id] == i;
  }

  lemma AllConnectedIff(connections: nat, isClient: bool, l: Ledger, h: History)
    requires Agrees(connections, isClient, l, h) && l.connectsLeft == 0
    ensures (forall i :: 0 <= i < connections ==> l.connected[i]) <==> h.failed == 0
  {
    CountTrueAll(l.connected);
  }

  lemma DownIsNotLive(connections: nat, isClient: bool, l: Ledger, h: History, id: nat)
    requires Agrees(connections, isClient, l, h) && id in h.down
    ensures l.context[id] < connections && !Live(l, h.up, h.down, l.context[id])
  {}

  lemma AllLiveIff(connections: nat, isClient: bool, l: Ledger, h: History)
    requires Agrees(connections, isClient, l, h) && l.connectsLeft == 0
    ensures (forall i: nat :: i < connections ==> Live(l, h.up, h.down, i)) <==> h.failed == 0 && h.down == {}
  {
    AllConnectedIff(connections, isClient, l, h);
    if forall i: nat :: i < connections ==> Live(l, h.up, h.down, i) {
      forall i | 0 <= i < connections ensures l.connected[i] {
        assert Live(l, h.up, h.down, i);
      }
      if id :| id in h.down {
        DownIsNotLive(connections, isClient, l, h, id);
      }
    }
    if h.failed == 0 && h.down == {} {
      forall i: nat | i < connections ensures Live(l, h.up, h.down, i) {
        var id := EveryNodeIsUp(connections, isClient, l, h, i);
      }
    }
  }

  /** When connect_events returns 0: every node's flag is set if and only if no error was
      reported with status 0 on the way; every node has a live connection if and only if,
      besides, no DISCONNECTED was taken on the way; and the books say what the events said. */
  lemma ConnectEventsIff(connections: nat, isClient: bool, events: seq<CmEvent>)
    requires WellBehaved(connections, isClient, Begun(connections, isClient), events)
    requires var o := Loop(connections, Connecting, Start(connections, isClient), 0, events);
      o.Returned? && o.ret == 0
    ensures var o := Loop(connections, Connecting, Start(connections, isClient), 0, events);
      var taken := Consumed(events, o.rest);
      var h := After(connections, Begun(connections, isClient), taken);
      && |o.ledger.connected| == connections
      && ((forall i :: 0 <= i < connections ==> o.ledger.connected[i]) <==> SilentErrors(taken) == 0)
      && ((forall i: nat :: i < connections ==> Live(o.ledger, UpIds(taken), DownIds(taken), i))
          <==> SilentErrors(taken) == 0 && DownIds(taken) == {})
      && h.up == UpIds(taken) && h.down == DownIds(taken) && h.failed == SilentErrors(taken)
      && Agrees(connections, isClient, o.ledger, h)
      && WellBehaved(connections, isClient, h, o.rest)
  {
    var o := Loop(connections, Connecting, Start(connections, isClient), 0, events);
    var taken := Consumed(events, o.rest);
    StartAgrees(connections, isClient);
    LoopAgrees(connections, isClient, Connecting, Start(connections, isClient), Begun(connections, isClient), events);
    AfterBegun(connections, isClient, taken);
    AllConnectedIff(connections, isClient, o.ledger, After(connections, Begun(connections, isClient), taken));
    AllLiveIff(connections, isClient, o.ledger, After(connections, Begun(connections, isClient), taken));
  }

  /** Both conditions are needed.  One rejection with status 0 is taken for a connection. */
  lemma SilentRejectionIsTakenForSuccess(isClient: bool)
    ensures var o := Loop(1, Connecting, Start(1, isClient), 0, [Failure(0, 0)]);
      o.Returned? && o.ret == 0 && !o.ledger.connected[0]
  {}

  /** And a connection that goes down while another is still awaited keeps its flag. */
  lemma DisconnectedWhileConnecting()
    ensures var events := [Established(0), Disconnected(0), Established(1)];
      var o := Loop(2, Connecting, Start(2, true), 0, events);
      && WellBehaved(2, true, Begun(2, true), events)
      && o.Returned? && o.ret == 0 && o.rest == []
      && o.ledger.connected == [true, true]
      && !Live(o.ledger, UpIds(events), DownIds(events), 0)
  {
    var events := [Established(0), Disconnected(0), Established(1)];
    DisconnectedHistory();
    DisconnectedLoop();
    assert events[1..][0] == Disconnected(0);
  }

  lemma DisconnectedHistory()
    ensures WellBehaved(2, true, Begun(2, true), [Established(0), Disconnected(0), Established(1)])
  {
    var events := [Established(0), Disconnected(0), Established(1)];
    var h0 := Begun(2, true);
    assert 0 in NodeIds(2) && 1 in NodeIds(2);
    var h1 := Happened(2, h0, events[0]);
    var h2 := Happened(2, h1, events[1]);
    assert events[2..] == [events[2]] && events[1..][1..] == events[2..];
    assert WellBehaved(2, true, h2, events[2..]) && WellBehaved(2, true, h1, events[1..]);
  }

  lemma DisconnectedLoop()
    ensures var o := Loop(2, Connecting, Start(2, true), 0, [Established(0), Disconnected(0), Established(1)]);
      && o.Returned? && o.ret == 0 && o.rest == []
      && o.ledger.connected == [true, true] && o.ledger.context == NodeIds(2)
  {
    var events := [Established(0), Disconnected(0), Established(1)];
    var l0 := Start(2, true);
    assert 0 in NodeIds(2) && 1 in NodeIds(2);
    var l1 := Handle(2, l0, events[0]).0;
    var l2 := Handle(2, l1, events[1]).0;
    var l3 := Handle(2, l2, events[2]).0;
    assert Loop(2, Connecting, l3, 0, []) == Returned(l3, 0, []);
    assert events[2..] == [events[2]] && events[2..][1..] == [];
    assert Loop(2, Connecting, l2, 0, events[2..]) == Loop(2, Connecting, l3, 0, []);
    assert events[1..][1..] == events[2..];
    assert Loop(2, Connecting, l1, 0, events[1..]) == Loop(2, Connecting, l2, 0, events[2..]);
  }

  // ---------------------------------------------------------------- disconnect_events

  /** When disconnect_events then returns 0, every connection that was up before or came up
      meanwhile has gone down: it was down before or a DISCONNECTED event for it was taken. */
  lemma DisconnectEventsWaitsForAll(connections: nat, isClient: bool, l: Ledger, h: History, events: seq<CmEvent>)
    requires Agrees(connections, isClient, l, h) && WellBehaved(connections, isClient, h, events)
    requires var o := Loop(connections, Disconnecting, l, 0, events); o.Returned? && o.ret == 0
    ensures var o := Loop(connections, Disconnecting, l, 0, events);
      var taken := Consumed(events, o.rest);
      && h.up + UpIds(taken) == h.down + DownIds(taken)
      && Agrees(connections, isClient, o.ledger, After(connections, h, taken))
  {
    var o := Loop(connections, Disconnecting, l, 0, events);
    var taken := Consumed(events, o.rest);
    LoopAgrees(connections, isClient, Disconnecting, l, h, events);
    AllDown(connections, isClient, o.ledger, After(connections, h, taken));
    AfterIs(connections, h, taken);
  }

  lemma AllDown(connections: nat, isClient: bool, l: Ledger, h: History)
    requires Agrees(connections, isClient, l, h) && l.disconnectsLeft == 0
    ensures h.up == h.down
  {
    SubsetOfSameSize(h.down, h.up);
  }

  lemma SubsetOfSameSize(a: set<nat>, b: set<nat>)
    requires a <= b && |a| == |b|
    ensures a == b
  {
    assert b == a + (b - a);
    assert |b - a| == 0;
  }

  /** A whole session, whether connect_events returned 0 or an error: disconnect_events after it
      returns 0 only when each id that was ever established was disconnected again. */
  lemma SessionEndsDisconnected(connections: nat, isClient: bool, events: seq<CmEvent>)
    requires WellBehaved(connections, isClient, Begun(connections, isClient), events)
    requires var o := Loop(connections, Connecting, Start(connections, isClient), 0, events);
      && o.Returned?
      && Loop(connections, Disconnecting, o.ledger, 0, o.rest).Returned?
      && Loop(connections, Disconnecting, o.ledger, 0, o.rest).ret == 0
    ensures var o := Loop(connections, Connecting, Start(connections, isClient), 0, events);
      var first, second := Consumed(events, o.rest), Consumed(o.rest, Loop(connections, Disconnecting, o.ledger, 0, o.rest).rest);
      UpIds(first) + UpIds(second) == DownIds(first) + DownIds(second)
  {
    var o := Loop(connections, Connecting, Start(connections, isClient), 0, events);
    var first := Consumed(events, o.rest);
    StartAgrees(connections, isClient);
    LoopAgrees(connections, isClient, Connecting, Start(connections, isClient), Begun(connections, isClient), events);
    AfterBegun(connections, isClient, first);
    DisconnectEventsWaitsForAll(connections, isClient, o.ledger, After(connections, Begun(connections, isClient), first), o.rest);
  }
}
