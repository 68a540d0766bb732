/**
 The timing statistics: what the worker accumulates over its operations in unsigned 64-bit
 fields, what run_client adds up over the connections, and what is printed from it.
 */
module Statistics {
  import opened Machine

  /** The clock readings of one operation. */
  datatype Sample = Sample(start: nat, sendStart: nat, end: nat)

  function Add(a: nat, b: nat): nat { (a + b) % UINT64 }

  function Subtract(a: nat, b: nat): nat { (a - b) % UINT64 }

  // the cast (long)x
  function ToLong(x: nat): int { if x < INT64_LIMIT then x else x - UINT64 }

  function Abs(x: int): nat { if x < 0 then -x else x }

  // the jitter field after a further latency `l`
  function JitterWith(jitter: nat, last: nat, l: nat): nat {
    if last != 0 then Add(jitter, Abs(ToLong(last) - ToLong(l))) else jitter
  }

  function Distance(a: nat, b: nat): nat { if a < b then b - a else a - b }

  // ---------------------------------------------------------------- the mathematics

  function Sum(ls: seq<nat>): nat {
    if ls == [] then 0 else Sum(ls[..|ls| - 1]) + ls[|ls| - 1]
  }

  /** Sum of the differences to the previous value, where that one is not zero. */
  function Jitter(ls: seq<nat>): nat {
    if |ls| < 2 then 0
    else
      var before, last := ls[|ls| - 2], ls[|ls| - 1];
      Jitter(ls[..|ls| - 1]) + if before != 0 then Distance(before, last) else 0
  }

  function TotalVariation(ls: seq<nat>): nat {
    if |ls| < 2 then 0
    else TotalVariation(ls[..|ls| - 1]) + Distance(ls[|ls| - 2], ls[|ls| - 1])
  }

  function Latency(s: Sample): nat { if s.end < s.start then 0 else s.end - s.start }

  function SendLatency(s: Sample): nat { if s.end < s.sendStart then 0 else s.end - s.sendStart }

  function Latencies(samples: seq<Sample>): seq<nat> { seq(|samples|, i requires 0 <= i < |samples| => Latency(samples[i])) }

  function SendLatencies(samples: seq<Sample>): seq<nat> {
    seq(|samples|, i requires 0 <= i < |samples| => SendLatency(samples[i]))
  }

  /** The readings of a clock that never goes back, from `begin` to `finish`. */
  ghost predicate Monotone(begin: nat, samples: seq<Sample>, finish: nat) {
    && begin <= finish < INT64_LIMIT
    && (forall i :: 0 <= i < |samples| ==>
         begin <= samples[i].start <= samples[i].sendStart <= samples[i].end <= finish)
    && (forall i, j :: 0 <= i < j < |samples| ==> samples[i].end <= samples[j].start)
  }

  lemma {:induction false} JitterBound(ls: seq<nat>)
    ensures ls != [] ==> Jitter(ls) + ls[0] + ls[|ls| - 1] <= 2 * Sum(ls)
    ensures Jitter(ls) <= 2 * Sum(ls)
  {
    if |ls| >= 2 {
      JitterBound(ls[..|ls| - 1]);
    } else if |ls| == 1 {
      assert ls[..0] == [];
    }
  }

  /** The accumulator is the total variation of the latencies exactly when no operation that
      took no measurable time is followed by one that did. */
  lemma {:induction false} JitterIsTotalVariationIff(ls: seq<nat>)
    ensures Jitter(ls) <= TotalVariation(ls)
    ensures Jitter(ls) == TotalVariation(ls) <==> forall i :: 0 < i < |ls| && ls[i - 1] == 0 ==> ls[i] == 0
  {
    if |ls| >= 2 {
      var front := ls[..|ls| - 1];
      JitterIsTotalVariationIff(front);
      assert forall i :: 0 <= i < |front| ==> front[i] == ls[i];
      assert ls[|ls| - 2] == front[|front| - 1];
    }
  }

  /** Operations do not overlap, so their latencies fit into the time between the first and
      the last reading. */
  lemma {:induction false} LatenciesFit(begin: nat, samples: seq<Sample>, finish: nat)
    requires Monotone(begin, samples, finish)
    ensures Sum(SendLatencies(samples)) <= Sum(Latencies(samples)) <= finish - begin
    ensures samples != [] ==> Sum(Latencies(samples)) <= samples[|samples| - 1].end - begin
  {
    if samples != [] {
      var front, last := samples[..|samples| - 1], samples[|samples| - 1];
      assert Monotone(begin, front, last.start);
      LatenciesFit(begin, front, last.start);
      LatenciesSplit(samples);
    }
  }

  /** What is measured: from the start of the operation, and from after the write, to its end. */
  lemma LatenciesAre(begin: nat, samples: seq<Sample>, finish: nat, i: nat)
    requires Monotone(begin, samples, finish) && i < |samples|
    ensures samples[i].start + Latencies(samples)[i] == samples[i].end
    ensures samples[i].sendStart + SendLatencies(samples)[i] == samples[i].end
  {}

  lemma LatenciesSplit(samples: seq<Sample>)
    requires samples != []
    ensures var front, last := samples[..|samples| - 1], samples[|samples| - 1];
      && Sum(Latencies(samples)) == Sum(Latencies(front)) + Latency(last)
      && Sum(SendLatencies(samples)) == Sum(SendLatencies(front)) + SendLatency(last)
  {
    var front := samples[..|samples| - 1];
    assert Latencies(samples)[..|front|] == Latencies(front);
    assert SendLatencies(samples)[..|front|] == SendLatencies(front);
  }

  // ---------------------------------------------------------------- the program

  class Statistics {
    var ops: nat
    var latency: nat
    var lastLatency: nat
    var jitter: nat
    var elapsed: nat
    var sendLatency: nat
    var lastSendLatency: nat
    var sendJitter: nat

    // calloc
    constructor ()
      ensures ops == 0 && latency == 0 && lastLatency == 0 && jitter == 0 && elapsed == 0
      ensures sendLatency == 0 && lastSendLatency == 0 && sendJitter == 0
    {
      ops, latency, lastLatency, jitter, elapsed := 0, 0, 0, 0, 0;
      sendLatency, lastSendLatency, sendJitter := 0, 0, 0;
    }

    /** What the fields hold after the operations `samples`, read as unbounded numbers. */
    ghost predicate Recorded(samples: seq<Sample>)
      reads this
    {
      var ls, ss := Latencies(samples), SendLatencies(samples);
      && ops == |samples|
      && latency == Sum(ls) && sendLatency == Sum(ss)
      && jitter == Jitter(ls) && sendJitter == Jitter(ss)
      && lastLatency == Last(ls) && lastSendLatency == Last(ss)
    }

    /** The end of the worker's loop body, in the machine's arithmetic. */
    method Record(s: Sample)
      modifies this
      ensures elapsed == old(elapsed) && ops == Add(old(ops), 1)
      ensures var l, sl := Subtract(s.end, s.start), Subtract(s.end, s.sendStart);
        && latency == Add(old(latency), l) && lastLatency == l
        && sendLatency == Add(old(sendLatency), sl) && lastSendLatency == sl
        && jitter == JitterWith(old(jitter), old(lastLatency), l)
        && sendJitter == JitterWith(old(sendJitter), old(lastSendLatency), sl)
    {
      ops := Add(ops, 1);
      var currentLatency := Subtract(s.end, s.start);
      var currentSendLatency := Subtract(s.end, s.sendStart);
      latency := Add(latency, currentLatency);
      sendLatency := Add(sendLatency, currentSendLatency);
      if lastLatency != 0 {
        jitter := Add(jitter, Abs(ToLong(lastLatency) - ToLong(currentLatency)));
      }
      lastLatency := currentLatency;
      if lastSendLatency != 0 {
        sendJitter := Add(sendJitter, Abs(ToLong(lastSendLatency) - ToLong(currentSendLatency)));
      }
      lastSendLatency := currentSendLatency;
    }

    /** For readings of a clock that never goes back, the machine's arithmetic does not wrap. */
    method RecordNext(ghost begin: nat, samples: seq<Sample>, ghost finish: nat, i: nat)
      requires Monotone(begin, samples, finish) && i < |samples| < UINT64
      requires Recorded(samples[..i])
      modifies this
      ensures Recorded(samples[..i + 1]) && elapsed == old(elapsed)
    {
      OneMore(begin, samples, finish, i);
      NoWrap(Latencies(samples[..i]), samples[i].end, samples[i].start);
      NoWrap(SendLatencies(samples[..i]), samples[i].end, samples[i].sendStart);
      assert Add(ops, 1) == ops + 1;
      Record(samples[i]);
      assert Latencies(samples[..i + 1]) == Latencies(samples[..i]) + [lastLatency];
      assert SendLatencies(samples[..i + 1]) == SendLatencies(samples[..i]) + [lastSendLatency];
    }

    /** The worker's readings, for a clock that never goes back: no field wraps, and the
        latencies fit into the elapsed time. */
    method Worker(begin: nat, samples: seq<Sample>, finish: nat)
      requires Monotone(begin, samples, finish) && |samples| < UINT64
      requires ops == 0 && latency == 0 && lastLatency == 0 && jitter == 0
      requires sendLatency == 0 && lastSendLatency == 0 && sendJitter == 0
      modifies this
      ensures Recorded(samples)
      ensures elapsed == finish - begin
      ensures sendLatency <= latency <= elapsed
      ensures jitter <= 2 * latency && sendJitter <= 2 * sendLatency
    {
      elapsed := begin;
      var i := 0;
      while i < |samples|
        invariant i <= |samples| && elapsed == begin
        invariant Recorded(samples[..i])
      {
        RecordNext(begin, samples, finish, i);
        i := i + 1;
      }
      assert samples[..i] == samples;
      SubtractExact(finish, begin);
      elapsed := Subtract(finish, elapsed);
      LatenciesFit(begin, samples, finish);
      JitterBound(Latencies(samples));
      JitterBound(SendLatencies(samples));
    }
  }

  function Last(ls: seq<nat>): nat { if ls == [] then 0 else ls[|ls| - 1] }

  lemma Append(ls: seq<nat>, l: nat)
    ensures Sum(ls + [l]) == Sum(ls) + l
    ensures Jitter(ls + [l]) == Jitter(ls) + if Last(ls) != 0 then Distance(Last(ls), l) else 0
    ensures Last(ls) <= Sum(ls)
  {
    assert (ls + [l])[..|ls|] == ls;
  }

  /** One more value, accumulated in 64 bits, is that value accumulated without bounds. */
  lemma NoWrap(ls: seq<nat>, end: nat, start: nat)
    requires start <= end < INT64_LIMIT && Sum(ls) + (end - start) < INT64_LIMIT
    ensures var l := end - start;
      && Subtract(end, start) == l
      && Add(Sum(ls), l) == Sum(ls + [l])
      && JitterWith(Jitter(ls), Last(ls), l) == Jitter(ls + [l])
  {
    Append(ls, end - start);
    JitterBound(ls + [end - start]);
    OneMoreFits(Sum(ls), Jitter(ls), Last(ls), end, start);
  }

  /** The numbers of `NoWrap`. */
  lemma OneMoreFits(sum: nat, jitter: nat, last: nat, end: nat, start: nat)
    requires start <= end < INT64_LIMIT && last <= sum && sum + (end - start) < INT64_LIMIT
    requires last != 0 ==> jitter + Distance(last, end - start) < UINT64
    ensures var l := end - start;
      && Subtract(end, start) == l
      && Add(sum, l) == sum + l
      && JitterWith(jitter, last, l) == jitter + if last != 0 then Distance(last, l) else 0
  {
    SubtractExact(end, start);
    AddExact(sum, end - start);
    JitterExact(jitter, last, end - start);
  }

  lemma SubtractExact(a: nat, b: nat)
    requires b <= a < UINT64
    ensures Subtract(a, b) == a - b
  {}

  lemma JitterExact(jitter: nat, last: nat, l: nat)
    requires last < INT64_LIMIT && l < INT64_LIMIT
    requires last != 0 ==> jitter + Distance(last, l) < UINT64
    ensures JitterWith(jitter, last, l) == jitter + if last != 0 then Distance(last, l) else 0
  {
    if last != 0 { AddExact(jitter, Distance(last, l)); }
  }

  /** The latencies of the operations up to `i`, and room for them in 63 bits. */
  lemma OneMore(begin: nat, samples: seq<Sample>, finish: nat, i: nat)
    requires Monotone(begin, samples, finish) && i < |samples|
    ensures Latencies(samples[..i + 1]) == Latencies(samples[..i]) + [Latency(samples[i])]
    ensures SendLatencies(samples[..i + 1]) == SendLatencies(samples[..i]) + [SendLatency(samples[i])]
    ensures Sum(Latencies(samples[..i])) + Latency(samples[i]) < INT64_LIMIT
    ensures Sum(SendLatencies(samples[..i])) + SendLatency(samples[i]) < INT64_LIMIT
  {
    LatenciesFit(begin, samples[..i + 1], finish);
    assert Latencies(samples[..i + 1]) == Latencies(samples[..i]) + [Latency(samples[i])];
    assert SendLatencies(samples[..i + 1]) == SendLatencies(samples[..i]) + [SendLatency(samples[i])];
    Append(Latencies(samples[..i]), Latency(samples[i]));
    Append(SendLatencies(samples[..i]), SendLatency(samples[i]));
  }

  // ---------------------------------------------------------------- totals over the connections

  /** The fields that are added up. */
  datatype Values = Values(ops: nat, latency: nat, jitter: nat, elapsed: nat, sendLatency: nat, sendJitter: nat)

  function Plus(a: Values, b: Values): Values {
    Values(a.ops + b.ops, a.latency + b.latency, a.jitter + b.jitter, a.elapsed + b.elapsed,
           a.sendLatency + b.sendLatency, a.sendJitter + b.sendJitter)
  }

  function Total(vs: seq<Values>): Values {
    if vs == [] then Values(0, 0, 0, 0, 0, 0) else Plus(Total(vs[..|vs| - 1]), vs[|vs| - 1])
  }

  datatype Field = Ops | TotalLatency | TotalJitter | Elapsed | TotalSendLatency | TotalSendJitter

  function Get(v: Values, f: Field): nat {
    match f
    case Ops => v.ops
    case TotalLatency => v.latency
    case TotalJitter => v.jitter
    case Elapsed => v.elapsed
    case TotalSendLatency => v.sendLatency
    case TotalSendJitter => v.sendJitter
  }

  function Column(vs: seq<Values>, f: Field): seq<nat> {
    seq(|vs|, i requires 0 <= i < |vs| => Get(vs[i], f))
  }

  /** Each total is the sum of that field over the nodes. */
  lemma {:induction false} TotalIsSum(vs: seq<Values>, f: Field)
    ensures Get(Total(vs), f) == Sum(Column(vs, f))
  {
    if vs != [] {
      TotalIsSum(vs[..|vs| - 1], f);
      assert Column(vs, f)[..|vs| - 1] == Column(vs[..|vs| - 1], f);
    }
  }

  /** What `Worker` ensures of each node. */
  predicate Plausible(v: Values) {
    v.sendLatency <= v.latency <= v.elapsed && v.jitter <= 2 * v.latency && v.sendJitter <= 2 * v.sendLatency
  }

  lemma {:induction false} TotalIsPlausible(vs: seq<Values>)
    requires forall v :: v in vs ==> Plausible(v)
    ensures Plausible(Total(vs))
  {
    if vs != [] {
      TotalIsPlausible(vs[..|vs| - 1]);
      assert Plausible(vs[|vs| - 1]);
    }
  }

  lemma {:induction false} TotalOfPrefix(vs: seq<Values>, k: nat)
    requires k <= |vs|
    ensures Total(vs[..k]).elapsed <= Total(vs).elapsed && Total(vs[..k]).ops <= Total(vs).ops
    decreases |vs| - k
  {
    if k < |vs| {
      TotalOfPrefix(vs, k + 1);
      assert vs[..k + 1][..k] == vs[..k];
    } else {
      assert vs[..k] == vs;
    }
  }

  function Quotient(a: nat, b: nat): nat
    requires b > 0
  {
    a / b
  }

  predicate IsQuotient(a: nat, b: nat, q: nat) { q * b <= a < (q + 1) * b }

  lemma QuotientBounds(a: nat, b: nat)
    requires b > 0
    ensures IsQuotient(a, b, a / b)
    ensures (a / b) * b <= a < (a / b) * b + b
  {
    assert a == (a / b) * b + a % b;
    assert (a / b + 1) * b == (a / b) * b + b;
  }

  /** The average is the quotient: as many whole units as each connection took on average. */
  lemma AverageIs(total: Values, connections: nat)
    requires connections > 0
    ensures IsQuotient(total.elapsed, connections, AverageTime(total, connections).elapsed)
    ensures AverageTime(total, connections).(elapsed := total.elapsed) == total
  {
    QuotientBounds(total.elapsed, connections);
  }

  /** Dividing the elapsed time by the number of connections truncates, yet the latencies of
      all connections stay below what is printed as the average time, rounded up. */
  lemma TruncationLosesLessThanOne(total: Values, connections: nat)
    requires Plausible(total) && connections > 0
    ensures total.latency < connections * (AverageTime(total, connections).elapsed + 1)
  {
    var q := total.elapsed / connections;
    assert total.elapsed == connections * q + total.elapsed % connections;
    assert connections * (q + 1) == connections * q + connections;
  }

  function AverageTime(total: Values, connections: nat): Values
    requires connections > 0
  {
    total.(elapsed := total.elapsed / connections)
  }

  // the six additions, in the machine's arithmetic
  function AddUp(a: Values, b: Values): Values {
    Values(Add(a.ops, b.ops), Add(a.latency, b.latency), Add(a.jitter, b.jitter), Add(a.elapsed, b.elapsed),
           Add(a.sendLatency, b.sendLatency), Add(a.sendJitter, b.sendJitter))
  }

  lemma NoWrapInTotal(a: Values, b: Values)
    requires Plausible(Plus(a, b)) && Plus(a, b).elapsed < INT64_LIMIT && Plus(a, b).ops < UINT64
    ensures AddUp(a, b) == Plus(a, b)
  {
    AddExact(a.ops, b.ops);
    AddExact(a.latency, b.latency);
    AddExact(a.jitter, b.jitter);
    AddExact(a.elapsed, b.elapsed);
    AddExact(a.sendLatency, b.sendLatency);
    AddExact(a.sendJitter, b.sendJitter);
  }

  lemma AddExact(a: nat, b: nat)
    requires a + b < UINT64
    ensures Add(a, b) == a + b
  {}

  class TotalStatistics {
    var values: Values

    // memset
    constructor ()
      ensures values == Total([])
    {
      values := Values(0, 0, 0, 0, 0, 0);
    }

    /** The loop of run_client over the nodes. */
    method AddAll(nodes: seq<Values>)
      requires forall v :: v in nodes ==> Plausible(v)
      requires Total(nodes).elapsed < INT64_LIMIT && Total(nodes).ops < UINT64
      requires values == Total([])
      modifies this
      ensures values == Total(nodes)
      ensures forall f: Field :: Get(values, f) == Sum(Column(nodes, f))
    {
      var i := 0;
      while i < |nodes|
        invariant i <= |nodes| && values == Total(nodes[..i])
      {
        assert nodes[..i + 1][..i] == nodes[..i];
        TotalOfPrefix(nodes, i + 1);
        TotalIsPlausible(nodes[..i + 1]);
        NoWrapInTotal(values, nodes[i]);
        values := AddUp(values, nodes[i]);
        i := i + 1;
      }
      assert nodes[..i] == nodes;
      forall f: Field ensures Get(values, f) == Sum(Column(nodes, f)) { TotalIsSum(nodes, f); }
    }

    /** ... and the division after it. */
    method Aggregate(nodes: seq<Values>)
      requires nodes != [] && forall v :: v in nodes ==> Plausible(v)
      requires Total(nodes).elapsed < INT64_LIMIT && Total(nodes).ops < UINT64
      requires values == Total([])
      modifies this
      ensures values == AverageTime(Total(nodes), |nodes|)
      ensures IsQuotient(Total(nodes).elapsed, |nodes|, values.elapsed)
      ensures values.(elapsed := Total(nodes).elapsed) == Total(nodes)
      ensures values.sendLatency <= values.latency < |nodes| * (values.elapsed + 1)
      ensures values.jitter <= 2 * values.latency
    {
      AddAll(nodes);
      TotalIsPlausible(nodes);
      TruncationLosesLessThanOne(values, |nodes|);
      AverageIs(values, |nodes|);
      values := AverageTime(values, |nodes|);
    }
  }

  // ---------------------------------------------------------------- printing

  datatype Report = DivisionByZero | Averages(latency: nat, jitter: nat, sendLatency: nat, sendJitter: nat)

  /** print_stats: all divisions are done before anything is printed (the two of the send
      latencies only where they are printed). */
  function Printed(v: Values): Report {
    var differences := Subtract(v.ops, 1);
    if v.ops == 0 || differences == 0 then DivisionByZero
    else Averages(Quotient(v.latency, v.ops), Quotient(v.jitter, differences),
                  Quotient(v.sendLatency, v.ops), Quotient(v.sendJitter, differences))
  }

  lemma ProductsOrder(q: nat, p: nat, b: nat, c: nat)
    requires c <= b && q * b < p * c + c
    ensures q <= p
  {
    assert q * b >= q * c;
    assert q >= p + 1 ==> q * c >= (p + 1) * c;
  }

  lemma QuotientShrinks(a: nat, b: nat, c: nat)
    requires 0 < c <= b
    ensures a / b <= a / c
  {
    QuotientBounds(a, b);
    QuotientBounds(a, c);
    ProductsOrder(a / b, a / c, b, c);
  }

  /** What is printed are the averages: latencies over operations, jitters over one fewer. */
  lemma PrintedAre(v: Values)
    requires 2 <= v.ops < UINT64
    ensures var r := Printed(v);
      && r.Averages?
      && IsQuotient(v.latency, v.ops, r.latency) && IsQuotient(v.sendLatency, v.ops, r.sendLatency)
      && IsQuotient(v.jitter, v.ops - 1, r.jitter) && IsQuotient(v.sendJitter, v.ops - 1, r.sendJitter)
  {
    SubtractExact(v.ops, 1);
    QuotientBounds(v.latency, v.ops);
    QuotientBounds(v.sendLatency, v.ops);
    QuotientBounds(v.jitter, v.ops - 1);
    QuotientBounds(v.sendJitter, v.ops - 1);
  }

  /** Printing needs two operations; then the printed jitter is at most the total divided by
      operations less connections, and over all differences it adds up to at most twice the
      latency. */
  lemma PrintedAverages(v: Values, connections: nat)
    requires Plausible(v) && v.ops < UINT64 && connections > 0
    ensures Printed(v).DivisionByZero? <==> v.ops < 2
    ensures v.ops >= 2 && connections < v.ops ==> Printed(v).jitter <= v.jitter / (v.ops - connections)
    ensures v.ops >= 2 ==> Printed(v).jitter * (v.ops - 1) <= 2 * v.latency
  {
    if v.ops >= 2 {
      QuotientBounds(v.jitter, v.ops - 1);
      if connections < v.ops {
        QuotientShrinks(v.jitter, v.ops - 1, v.ops - connections);
      }
    }
  }

  // ---------------------------------------------------------------- the mean over what was added up

  /** How many differences the jitter of `ls` adds up. */
  function Formed(ls: seq<nat>): nat {
    if |ls| < 2 then 0 else Formed(ls[..|ls| - 1]) + if ls[|ls| - 2] != 0 then 1 else 0
  }

  lemma {:induction false} FormedFewer(ls: seq<nat>)
    ensures ls != [] ==> Formed(ls) + 1 <= |ls|
    ensures Formed(ls) == 0 ==> Jitter(ls) == 0
  {
    if |ls| >= 2 {
      FormedFewer(ls[..|ls| - 1]);
    }
  }

  /** The differences formed on all nodes, each with its own list of latencies. */
  function FormedOnAll(lists: seq<seq<nat>>): nat {
    if lists == [] then 0 else FormedOnAll(lists[..|lists| - 1]) + Formed(lists[|lists| - 1])
  }

  // what the fields of the nodes hold, as `Recorded` says of each
  ghost predicate FieldsOf(nodes: seq<Values>, lists: seq<seq<nat>>) {
    |nodes| == |lists| && forall i :: 0 <= i < |nodes| ==> nodes[i].ops == |lists[i]| && nodes[i].jitter == Jitter(lists[i])
  }

  /** Fewer differences than operations are formed: one fewer for each node that did any. */
  lemma {:induction false} FormedOnAllFewer(nodes: seq<Values>, lists: seq<seq<nat>>)
    requires FieldsOf(nodes, lists)
    ensures Total(nodes).ops > 0 ==> FormedOnAll(lists) + 1 <= Total(nodes).ops
    ensures Total(nodes).ops == 0 ==> FormedOnAll(lists) == 0
    ensures (forall i :: 0 <= i < |lists| ==> lists[i] != []) ==> FormedOnAll(lists) + |lists| <= Total(nodes).ops
    ensures FormedOnAll(lists) == 0 ==> Total(nodes).jitter == 0
    decreases |nodes|
  {
    if nodes != [] {
      var n := |nodes| - 1;
      assert FieldsOf(nodes[..n], lists[..n]);
      FormedOnAllFewer(nodes[..n], lists[..n]);
      FormedFewer(lists[n]);
      assert nodes[n].ops == |lists[n]| && nodes[n].jitter == Jitter(lists[n]);
    }
  }

  /** The printed jitter never exceeds the mean over the differences that were added up, and
      of these there is one fewer than operations for each node that did any operation. */
  lemma PrintedJitterIsBelowMean(nodes: seq<Values>, lists: seq<seq<nat>>)
    requires FieldsOf(nodes, lists) && 2 <= Total(nodes).ops < UINT64
    ensures !Printed(Total(nodes)).DivisionByZero?
    ensures if FormedOnAll(lists) == 0 then Printed(Total(nodes)).jitter == 0
            else Printed(Total(nodes)).jitter <= Total(nodes).jitter / FormedOnAll(lists)
    ensures (forall i :: 0 <= i < |lists| ==> lists[i] != []) ==> FormedOnAll(lists) <= Total(nodes).ops - |lists|
  {
    FormedOnAllFewer(nodes, lists);
    var v := Total(nodes);
    assert Subtract(v.ops, 1) == v.ops - 1;
    if FormedOnAll(lists) > 0 {
      QuotientShrinks(v.jitter, v.ops - 1, FormedOnAll(lists));
    }
  }
}
