/**
 Metrics collected for who wants them (`want_metrics`, `Collector::retime`, `Drop for
 Want` and the throttle in `subscribe` of `bins/nlink-labd/src/hub.rs`): one collector per
 wanted lab, at the pace of its fastest subscriber, and each subscriber given samples at
 its own pace. Times are in nanoseconds.
 */
module Metrics {
  import opened Prelude

  const MIN_INTERVAL := 250_000_000
  const HALF := MIN_INTERVAL / 2

  // ---- collectors

  /** A lab's collector: who wants it and how often, its pace, and its stop flag (by number). */
  datatype Collector = Collector(wants: map<nat, nat>, interval: nat, stop: nat)

  /** A want alive: the lab, and how often. */
  datatype Want = Want(lab: string, every: nat)

  ghost predicate IsMin(wants: map<nat, nat>, x: nat) {
    x in wants.Values && forall id :: id in wants ==> x <= wants[id]
  }

  method Fastest(wants: map<nat, nat>) returns (x: nat)
    requires wants.Keys != {}
    ensures IsMin(wants, x)
  {
    var left := wants.Keys;
    var id :| id in left;
    x := wants[id];
    left := left - {id};
    while left != {}
      invariant left <= wants.Keys
      invariant x in wants.Values
      invariant forall i :: i in wants && i !in left ==> x <= wants[i]
      decreases left
    {
      var next :| next in left;
      if wants[next] < x {
        x := wants[next];
      }
      left := left - {next};
    }
  }

  /**
   The collectors; for every collector thread started so far its stop flag and the lab it
   is for; the next want's id; the wants alive.
   */
  datatype Pool = Pool(
    collectors: map<string, Collector>,
    stopped: seq<bool>,
    labs: seq<string>,
    nextWant: nat,
    alive: map<nat, Want>)

  /** Every want alive is at its lab's collector, as it was asked for. */
  ghost predicate Served(p: Pool) {
    forall id :: id in p.alive ==>
      && id < p.nextWant && p.alive[id].lab in p.collectors
      && id in p.collectors[p.alive[id].lab].wants && p.collectors[p.alive[id].lab].wants[id] == p.alive[id].every
  }

  ghost predicate WantedOnly(p: Pool, lab: string, c: Collector) {
    IsMin(c.wants, c.interval) && forall id :: id in c.wants ==> id in p.alive && p.alive[id].lab == lab
  }

  /** A collector has only wants alive, some, and the least interval of them. */
  ghost predicate Wanted(p: Pool) {
    forall lab :: lab in p.collectors ==> WantedOnly(p, lab, p.collectors[lab])
  }

  /** For every collector one thread was not told to stop, and all others were. */
  ghost predicate Running(p: Pool) {
    && |p.stopped| == |p.labs|
    && (forall lab :: lab in p.collectors ==>
          var f := p.collectors[lab].stop; f < |p.stopped| && !p.stopped[f] && p.labs[f] == lab)
    && (forall f :: 0 <= f < |p.stopped| && !p.stopped[f] ==>
          p.labs[f] in p.collectors && p.collectors[p.labs[f]].stop == f)
  }

  ghost predicate PoolOk(p: Pool) {
    Served(p) && Wanted(p) && Running(p)
  }

  function Taken(p: Pool, lab: string, every: nat, pace: nat): Pool {
    var id := p.nextWant;
    var isNew := lab !in p.collectors;
    var c := if isNew then Collector(map[], every, |p.stopped|) else p.collectors[lab];
    Pool(p.collectors[lab := Collector(c.wants[id := every], pace, c.stop)],
         if isNew then p.stopped + [false] else p.stopped,
         if isNew then p.labs + [lab] else p.labs,
         id + 1,
         p.alive[id := Want(lab, every)])
  }

  function Given(p: Pool, lab: string, id: nat, pace: nat): Pool
    requires lab in p.collectors && p.collectors[lab].stop < |p.stopped|
  {
    var c := p.collectors[lab];
    if c.wants.Keys == {id} then
      p.(collectors := p.collectors - {lab}, stopped := p.stopped[c.stop := true], alive := p.alive - {id})
    else p.(collectors := p.collectors[lab := Collector(c.wants - {id}, pace, c.stop)], alive := p.alive - {id})
  }

  lemma TakenServed(p: Pool, lab: string, every: nat, pace: nat)
    requires Served(p)
    ensures Served(Taken(p, lab, every, pace))
  {
    var q := Taken(p, lab, every, pace);
    assert p.nextWant !in p.alive;
    forall id | id in q.alive
      ensures q.alive[id].lab in q.collectors
      ensures id in q.collectors[q.alive[id].lab].wants && q.collectors[q.alive[id].lab].wants[id] == q.alive[id].every
    {
    }
  }

  lemma TakenWanted(p: Pool, lab: string, every: nat, pace: nat, other: string)
    requires Wanted(p) && p.nextWant !in p.alive && other in Taken(p, lab, every, pace).collectors
    requires IsMin(Taken(p, lab, every, pace).collectors[lab].wants, pace)
    ensures WantedOnly(Taken(p, lab, every, pace), other, Taken(p, lab, every, pace).collectors[other])
  {
    if other in p.collectors {
      assert WantedOnly(p, other, p.collectors[other]);
    }
  }

  lemma TakenRunning(p: Pool, lab: string, every: nat, pace: nat)
    requires Running(p)
    ensures Running(Taken(p, lab, every, pace))
  {
    var q := Taken(p, lab, every, pace);
    assert forall x :: x in q.collectors ==> x in p.collectors || x == lab;
  }

  lemma TakenOk(p: Pool, lab: string, every: nat, pace: nat)
    requires PoolOk(p) && IsMin(Taken(p, lab, every, pace).collectors[lab].wants, pace)
    ensures PoolOk(Taken(p, lab, every, pace))
  {
    var q := Taken(p, lab, every, pace);
    TakenServed(p, lab, every, pace);
    TakenRunning(p, lab, every, pace);
    forall other | other in q.collectors
      ensures WantedOnly(q, other, q.collectors[other])
    {
      TakenWanted(p, lab, every, pace, other);
    }
  }

  lemma GivenServed(p: Pool, lab: string, id: nat, pace: nat)
    requires Served(p) && lab in p.collectors && p.collectors[lab].stop < |p.stopped|
    requires forall i :: i in p.collectors[lab].wants ==> i in p.alive && p.alive[i].lab == lab
    ensures Served(Given(p, lab, id, pace))
  {
    var q := Given(p, lab, id, pace);
    forall i | i in q.alive
      ensures q.alive[i].lab in q.collectors
      ensures i in q.collectors[q.alive[i].lab].wants && q.collectors[q.alive[i].lab].wants[i] == q.alive[i].every
    {
      assert i in p.alive && i != id;
    }
  }

  lemma GivenWanted(p: Pool, lab: string, id: nat, pace: nat, other: string)
    requires Wanted(p) && lab in p.collectors && p.collectors[lab].stop < |p.stopped|
    requires id in p.alive && p.alive[id].lab == lab
    requires p.collectors[lab].wants.Keys != {id} ==> IsMin(p.collectors[lab].wants - {id}, pace)
    requires other in Given(p, lab, id, pace).collectors
    ensures WantedOnly(Given(p, lab, id, pace), other, Given(p, lab, id, pace).collectors[other])
  {
    assert WantedOnly(p, other, p.collectors[other]);
  }

  lemma GivenRunning(p: Pool, lab: string, id: nat, pace: nat)
    requires Running(p) && lab in p.collectors && p.collectors[lab].stop < |p.stopped|
    ensures Running(Given(p, lab, id, pace))
  {
    var q := Given(p, lab, id, pace);
    forall x | x in q.collectors
      ensures var f := q.collectors[x].stop; f < |q.stopped| && !q.stopped[f] && q.labs[f] == x
    {
      assert x in p.collectors;
    }
  }

  lemma GivenOk(p: Pool, lab: string, id: nat, pace: nat)
    requires PoolOk(p) && id in p.alive && p.alive[id].lab == lab
    requires lab in p.collectors && p.collectors[lab].stop < |p.stopped|
    requires p.collectors[lab].wants.Keys != {id} ==> IsMin(p.collectors[lab].wants - {id}, pace)
    ensures PoolOk(Given(p, lab, id, pace))
  {
    var q := Given(p, lab, id, pace);
    assert WantedOnly(p, lab, p.collectors[lab]);
    GivenServed(p, lab, id, pace);
    GivenRunning(p, lab, id, pace);
    forall other | other in q.collectors
      ensures WantedOnly(q, other, q.collectors[other])
    {
      GivenWanted(p, lab, id, pace, other);
    }
  }

  class Hub {
    var collectors: map<string, Collector>
    var stopped: seq<bool>
    var nextWant: nat
    ghost var labs: seq<string>
    ghost var alive: map<nat, Want>

    ghost function Now(): Pool
      reads this
    {
      Pool(collectors, stopped, labs, nextWant, alive)
    }

    constructor ()
      ensures PoolOk(Now()) && alive == map[]
    {
      collectors, stopped, labs, nextWant, alive := map[], [], [], 1, map[];
    }

    /** Someone wants a lab's metrics: its collector runs, at the fastest pace wanted. */
    method WantMetrics(lab: string, every: nat) returns (id: nat)
      requires PoolOk(Now())
      modifies this
      ensures PoolOk(Now()) && id !in old(alive) && alive == old(alive)[id := Want(lab, every)]
    {
      ghost var p := Now();
      ghost var pace;
      id, pace := Take(lab, every);
      TakenOk(p, lab, every, pace);
      assert p.nextWant !in p.alive;
    }

    method Take(lab: string, every: nat) returns (id: nat, ghost paced: nat)
      modifies this
      ensures id == old(nextWant) && Now() == Taken(old(Now()), lab, every, paced)
      ensures IsMin(collectors[lab].wants, paced)
    {
      id := nextWant;
      nextWant := nextWant + 1;
      var c;
      if lab in collectors {
        c := collectors[lab];
      } else {
        c := Collector(map[], every, |stopped|);
        stopped, labs := stopped + [false], labs + [lab];
      }
      var wants := c.wants[id := every];
      assert id in wants.Keys;
      var pace := Fastest(wants);
      collectors := collectors[lab := Collector(wants, pace, c.stop)];
      alive := alive[id := Want(lab, every)];
      paced := pace;
    }

    /** A want is dropped: the collector stops when it was the last, and goes on at the pace of the rest. */
    method DropWant(lab: string, id: nat)
      requires PoolOk(Now()) && id in alive && alive[id].lab == lab
      modifies this
      ensures PoolOk(Now()) && alive == old(alive) - {id}
    {
      ghost var p := Now();
      assert lab in collectors && collectors[lab].stop < |stopped|;
      var c := collectors[lab];
      var wants, pace := c.wants - {id}, c.interval;
      if wants.Keys == {} {
        stopped := stopped[c.stop := true];
        collectors := collectors - {lab};
      } else {
        pace := Fastest(wants);
        collectors := collectors[lab := Collector(wants, pace, c.stop)];
      }
      alive := alive - {id};
      assert Now() == Given(p, lab, id, pace);
      GivenOk(p, lab, id, pace);
    }
  }

  // ---- every sequence of wants and drops

  /** A want taken or given up, with the interval the collector then has. */
  datatype Step = Take(lab: string, every: nat, pace: nat) | Give(id: nat, pace: nat)

  ghost predicate Enabled(p: Pool, step: Step) {
    match step
    case Take(lab, every, pace) => IsMin(Taken(p, lab, every, pace).collectors[lab].wants, pace)
    case Give(id, pace) =>
      && id in p.alive && p.alive[id].lab in p.collectors && p.collectors[p.alive[id].lab].stop < |p.stopped|
      && (p.collectors[p.alive[id].lab].wants.Keys != {id} ==> IsMin(p.collectors[p.alive[id].lab].wants - {id}, pace))
  }

  ghost function Next(p: Pool, step: Step): Pool
    requires Enabled(p, step)
  {
    match step
    case Take(lab, every, pace) => Taken(p, lab, every, pace)
    case Give(id, pace) => Given(p, p.alive[id].lab, id, pace)
  }

  ghost predicate IsRun(pools: seq<Pool>, steps: seq<Step>) {
    && |pools| == |steps| + 1 && pools[0] == Pool(map[], [], [], 1, map[])
    && forall k :: 0 <= k < |steps| ==> Enabled(pools[k], steps[k]) && pools[k + 1] == Next(pools[k], steps[k])
  }

  lemma {:induction false} RunKeepsPool(pools: seq<Pool>, steps: seq<Step>)
    requires IsRun(pools, steps)
    ensures PoolOk(pools[|steps|])
  {
    var n := |steps|;
    if n > 0 {
      RunKeepsPool(pools[..n], steps[..n - 1]);
      var p := pools[n - 1];
      match steps[n - 1]
      case Take(lab, every, pace) => TakenOk(p, lab, every, pace);
      case Give(id, pace) => GivenOk(p, p.alive[id].lab, id, pace);
    }
  }

  /**
   After every sequence of wants and drops a lab has a collector exactly when someone
   wants it, at exactly the least interval wanted, with exactly one thread not stopped.
   */
  lemma CollectsWhatIsWanted(pools: seq<Pool>, steps: seq<Step>, lab: string)
    requires IsRun(pools, steps)
    ensures var p := pools[|steps|];
            && (lab in p.collectors <==> exists id :: id in p.alive && p.alive[id].lab == lab)
            && (lab in p.collectors ==>
                  var least := p.collectors[lab].interval;
                  && (exists id :: id in p.alive && p.alive[id].lab == lab && p.alive[id].every == least)
                  && (forall id :: id in p.alive && p.alive[id].lab == lab ==> least <= p.alive[id].every))
            && (forall f :: 0 <= f < |p.stopped| && f < |p.labs| && p.labs[f] == lab ==>
                  (!p.stopped[f] <==> lab in p.collectors && p.collectors[lab].stop == f))
  {
    RunKeepsPool(pools, steps);
    var p := pools[|steps|];
    if lab in p.collectors {
      var c := p.collectors[lab];
      assert WantedOnly(p, lab, c);
      var id :| id in c.wants && c.wants[id] == c.interval;
      assert p.alive[id].lab == lab && p.alive[id].every == c.interval;
    }
  }

  // ---- a subscriber's samples

  /** The interval a subscription gets. */
  function Every(asked: nat): nat {
    if asked < MIN_INTERVAL then MIN_INTERVAL else asked
  }

  /** When the last of the first `k` ticks that was passed on came. */
  function LastPassed(ticks: seq<nat>, every: nat, k: nat): Option<nat>
    requires k <= |ticks|
    decreases k, 0
  {
    if k == 0 then None
    else if Passes(ticks, every, k - 1) then Some(ticks[k - 1])
    else LastPassed(ticks, every, k - 1)
  }

  /** Whether tick `k` is passed on: not when too little time passed since the last one was. */
  predicate Passes(ticks: seq<nat>, every: nat, k: nat)
    requires k < |ticks|
    decreases k, 1
  {
    var last := LastPassed(ticks, every, k);
    !(last.Some? && ticks[k] - last.value + HALF < every)
  }

  ghost predicate Steady(ticks: seq<nat>) {
    forall i, j :: 0 <= i < j < |ticks| ==> ticks[i] <= ticks[j]
  }

  /** The loop of the subscription over the collector's samples: which it passes on. */
  method Throttle(ticks: seq<nat>, every: nat) returns (passed: seq<nat>)
    ensures forall i :: 0 <= i < |passed| ==> passed[i] < |ticks| && Passes(ticks, every, passed[i])
    ensures forall i, j :: 0 <= i < j < |passed| ==> passed[i] < passed[j]
    ensures forall k :: 0 <= k < |ticks| && Passes(ticks, every, k) ==> k in passed
  {
    passed := [];
    var last: Option<nat> := None;
    for k := 0 to |ticks|
      invariant last == LastPassed(ticks, every, k)
      invariant forall i :: 0 <= i < |passed| ==> passed[i] < k && Passes(ticks, every, passed[i])
      invariant forall i, j :: 0 <= i < j < |passed| ==> passed[i] < passed[j]
      invariant forall i :: 0 <= i < k && Passes(ticks, every, i) ==> i in passed
    {
      if !(last.Some? && ticks[k] - last.value + HALF < every) {
        last := Some(ticks[k]);
        passed := passed + [k];
      }
    }
  }

  lemma {:induction false} LastIs(ticks: seq<nat>, every: nat, i: nat, k: nat)
    requires i < k <= |ticks| && Passes(ticks, every, i)
    requires forall m :: i < m < k ==> !Passes(ticks, every, m)
    ensures LastPassed(ticks, every, k) == Some(ticks[i])
  {
    if i < k - 1 {
      LastIs(ticks, every, i, k - 1);
    }
  }

  /** The first tick is passed on. */
  lemma FirstTickPasses(ticks: seq<nat>, asked: nat)
    requires ticks != []
    ensures Passes(ticks, Every(asked), 0)
  {
  }

  /** The next one passed on is the first to come no earlier than the interval, less the slack, after the last. */
  lemma PassesIff(ticks: seq<nat>, asked: nat, i: nat, k: nat)
    requires Steady(ticks) && i < k < |ticks| && Passes(ticks, Every(asked), i)
    requires forall m :: i < m < k ==> !Passes(ticks, Every(asked), m)
    ensures Passes(ticks, Every(asked), k) <==> ticks[k] >= ticks[i] + Every(asked) - HALF
  {
    LastIs(ticks, Every(asked), i, k);
  }

  /** A subscription's interval is what it asked for, and never below the least. */
  lemma IntervalIsAsked(asked: nat)
    ensures Every(asked) >= MIN_INTERVAL && Every(asked) >= asked
    ensures Every(asked) == asked || Every(asked) == MIN_INTERVAL
  {
  }

  /**
   Two samples a subscriber gets one after the other are at least its interval less half
   the least interval apart; and when ticks are at most `d` apart, less than that plus `d`.
   */
  lemma SamplesAreSpaced(ticks: seq<nat>, asked: nat, i: nat, j: nat, d: nat)
    requires Steady(ticks) && i < j < |ticks|
    requires Passes(ticks, Every(asked), i) && Passes(ticks, Every(asked), j)
    requires forall m :: i < m < j ==> !Passes(ticks, Every(asked), m)
    ensures ticks[j] - ticks[i] >= Every(asked) - HALF
    ensures (forall m :: 0 < m < |ticks| ==> ticks[m] - ticks[m - 1] <= d) ==>
              ticks[j] - ticks[i] < Every(asked) - HALF + d
  {
    LastIs(ticks, Every(asked), i, j);
    if i < j - 1 {
      LastIs(ticks, Every(asked), i, j - 1);
      assert !Passes(ticks, Every(asked), j - 1);
    }
  }
}
