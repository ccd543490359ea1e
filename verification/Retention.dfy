/**
 What is forgotten, and what never is: the daemon's finished operations
 (`bins/nlink-labd/src/jobs.rs`), the GUI's jobs and a lab's sessions
 (`bins/gui/src/reduce.rs`).
 */
module Retention {
  import opened Prelude

  // ---- the daemon's listed operations

  /** Finished operations kept, and for how long, in seconds. */
  const KEEP := 200
  const KEEP_FOR := 30 * 60

  /** The listed operations by number: when each ended, if it did. */
  type Listing = map<nat, Option<int>>

  ghost function Finished(jobs: Listing): set<nat> {
    set k | k in jobs && jobs[k].Some?
  }

  ghost function Older(jobs: Listing, k: nat): set<nat> {
    set j | j in Finished(jobs) && j < k
  }

  /** How many finished operations are older than `k`. */
  ghost function Rank(jobs: Listing, k: nat): nat {
    |Older(jobs, k)|
  }

  ghost function Surplus(jobs: Listing): nat {
    if |Finished(jobs)| > KEEP then |Finished(jobs)| - KEEP else 0
  }

  /** Whether `k` stays when another is listed; `clock(i)` is the time at which the i-th finished one is looked at. */
  ghost predicate Stays(jobs: Listing, k: nat, clock: nat -> int)
    requires k in jobs
  {
    jobs[k].Some? ==> Rank(jobs, k) >= Surplus(jobs) && clock(Rank(jobs, k)) - jobs[k].value <= KEEP_FOR
  }

  ghost function Remaining(jobs: Listing, clock: nat -> int): Listing {
    map k | k in jobs && Stays(jobs, k, clock) :: jobs[k]
  }

  /** The finished operations in order. */
  ghost predicate Lists(s: seq<nat>, jobs: Listing) {
    Ascending(s) && forall k: nat :: k in s <==> k in Finished(jobs)
  }

  lemma ListCount(s: seq<nat>, jobs: Listing)
    requires Lists(s, jobs)
    ensures |Finished(jobs)| == |s|
  {
    ElementsCount(s);
    assert Elements(s) == Finished(jobs);
  }

  /** In such a list, a place is a rank. */
  lemma RankIsPlace(s: seq<nat>, jobs: Listing, i: nat)
    requires Lists(s, jobs) && i < |s|
    ensures s[i] in Finished(jobs) && Rank(jobs, s[i]) == i
  {
    assert s[i] in s;
    var init := s[..i];
    ElementsCount(init);
    forall j: nat
      ensures j in Elements(init) <==> j in Older(jobs, s[i])
    {
      if j in Older(jobs, s[i]) {
        assert j in s;
        var x :| 0 <= x < |s| && s[x] == j;
        assert init[x] == j;
      }
    }
    assert Older(jobs, s[i]) == Elements(init);
  }

  /** What is left once the `i` oldest finished operations have been looked at. */
  ghost function LookedAt(jobs: Listing, i: nat, clock: nat -> int): Listing {
    map k | k in jobs && (Rank(jobs, k) < i ==> Stays(jobs, k, clock)) :: jobs[k]
  }

  lemma LookAtNext(s: seq<nat>, jobs: Listing, i: nat, clock: nat -> int)
    requires Lists(s, jobs) && i < |s|
    ensures s[i] in jobs && jobs[s[i]].Some?
    ensures s[i] in LookedAt(jobs, i, clock) && LookedAt(jobs, i, clock)[s[i]] == jobs[s[i]]
    ensures i < Surplus(jobs) || clock(i) - jobs[s[i]].value > KEEP_FOR ==>
              LookedAt(jobs, i + 1, clock) == LookedAt(jobs, i, clock) - {s[i]}
    ensures !(i < Surplus(jobs) || clock(i) - jobs[s[i]].value > KEEP_FOR) ==>
              LookedAt(jobs, i + 1, clock) == LookedAt(jobs, i, clock)
  {
    RankIsPlace(s, jobs, i);
    var now, next := LookedAt(jobs, i, clock), LookedAt(jobs, i + 1, clock);
    forall k | k in jobs
      ensures k in next <==> k in now && (k == s[i] ==> Stays(jobs, k, clock))
    {
      LookStep(s, jobs, i, clock, k);
    }
    if Stays(jobs, s[i], clock) {
      assert next == now;
    } else {
      assert next == now - {s[i]};
    }
  }

  lemma LookStep(s: seq<nat>, jobs: Listing, i: nat, clock: nat -> int, k: nat)
    requires Lists(s, jobs) && i < |s| && k in jobs
    ensures (Rank(jobs, k) < i + 1 ==> Stays(jobs, k, clock)) <==>
            (Rank(jobs, k) < i ==> Stays(jobs, k, clock)) && (k == s[i] ==> Stays(jobs, k, clock))
  {
    RankIsPlace(s, jobs, i);
    PlaceIsRank(s, jobs, i);
    assert !Stays(jobs, k, clock) ==> k in Finished(jobs);
  }

  lemma PlaceIsRank(s: seq<nat>, jobs: Listing, i: nat)
    requires Lists(s, jobs) && i < |s|
    ensures forall k :: k in Finished(jobs) && Rank(jobs, k) == i ==> k == s[i]
  {
    forall k | k in Finished(jobs) && Rank(jobs, k) == i
      ensures k == s[i]
    {
      assert k in s;
      var x :| 0 <= x < |s| && s[x] == k;
      RankIsPlace(s, jobs, x);
    }
  }

  lemma AllLookedAt(s: seq<nat>, jobs: Listing, clock: nat -> int)
    requires Lists(s, jobs)
    ensures LookedAt(jobs, 0, clock) == jobs && LookedAt(jobs, |s|, clock) == Remaining(jobs, clock)
  {
    forall k | k in Finished(jobs)
      ensures Rank(jobs, k) < |s|
    {
      assert k in s;
      var x :| 0 <= x < |s| && s[x] == k;
      RankIsPlace(s, jobs, x);
    }
    assert forall k :: k in jobs && !Stays(jobs, k, clock) ==> k in Finished(jobs);
  }

  lemma {:induction false} ListExists(jobs: Listing, top: nat) returns (s: seq<nat>)
    ensures Ascending(s) && forall k: nat :: k in s <==> k in Finished(jobs) && k < top
  {
    if top == 0 {
      s := [];
    } else {
      var below := ListExists(jobs, top - 1);
      s := if top - 1 in Finished(jobs) then below + [top - 1] else below;
      forall i, j | 0 <= i < j < |s|
        ensures s[i] < s[j]
      {
        assert s[i] == below[i];
        assert below[i] in below;
      }
    }
  }

  lemma {:induction false} Bound(jobs: Listing) returns (top: nat)
    ensures forall k :: k in jobs ==> k < top
    decreases |jobs|
  {
    if jobs == map[] {
      top := 0;
    } else {
      var k :| k in jobs;
      var rest := jobs - {k};
      assert jobs.Keys == rest.Keys + {k};
      var t := Bound(rest);
      assert forall j :: j in jobs ==> j == k || j in rest;
      top := if k < t then t else k + 1;
    }
  }

  lemma InOrder(jobs: Listing) returns (s: seq<nat>)
    ensures Lists(s, jobs)
  {
    var top := Bound(jobs);
    s := ListExists(jobs, top);
  }

  class Operations {
    var jobs: Listing
    var next: nat

    ghost predicate Valid()
      reads this
    {
      forall k :: k in jobs ==> k < next
    }

    constructor ()
      ensures Valid() && jobs == map[] && next == 1
    {
      jobs, next := map[], 1;
    }

    /** The numbers of the finished operations, in the map's order. */
    method FinishedInOrder() returns (s: seq<nat>)
      requires Valid()
      ensures Lists(s, jobs)
    {
      s := [];
      for k := 0 to next
        invariant Ascending(s)
        invariant forall j: nat :: j in s <==> j in Finished(jobs) && j < k
      {
        if k in jobs && jobs[k].Some? {
          assert forall i :: 0 <= i < |s| ==> s[i] in s;
          s := s + [k];
        }
      }
    }

    /** The oldest finished operations over the bound go, and those kept too long. */
    method Forget(clock: nat -> int)
      requires Valid()
      modifies this`jobs
      ensures jobs == Remaining(old(jobs), clock)
    {
      var finished := FinishedInOrder();
      var surplus := if |finished| > KEEP then |finished| - KEEP else 0;
      ListCount(finished, jobs);
      AllLookedAt(finished, jobs, clock);
      for i := 0 to |finished|
        invariant jobs == LookedAt(old(jobs), i, clock)
      {
        var k := finished[i];
        LookAtNext(finished, old(jobs), i, clock);
        var expired := jobs[k].Some? && clock(i) - jobs[k].value > KEEP_FOR;
        if i < surplus || expired {
          jobs := jobs - {k};
        }
      }
    }

    /** A new operation. Listing it forgets finished ones, and only those; one that is not listed changes no other. */
    method Start(listed: bool, clock: nat -> int) returns (number: nat)
      requires Valid()
      modifies this
      ensures Valid() && number == old(next) && next == old(next) + 1 && number !in old(jobs)
      ensures jobs == if listed then Remaining(old(jobs), clock)[number := None] else old(jobs)
    {
      number := next;
      next := next + 1;
      if listed {
        Forget(clock);
        jobs := jobs[number := None];
      }
    }

    /** An operation ended; it stays listed if it was. */
    method End(number: nat, now: int)
      requires Valid()
      modifies this`jobs
      ensures Valid() && jobs == if number in old(jobs) then old(jobs)[number := Some(now)] else old(jobs)
    {
      if number in jobs {
        jobs := jobs[number := Some(now)];
      }
    }
  }

  /** Live work is never forgotten, and at most `KEEP` finished operations are remembered. */
  lemma LiveWorkStays(jobs: Listing, clock: nat -> int)
    ensures forall k :: k in jobs && jobs[k].None? ==> k in Remaining(jobs, clock)
    ensures |Finished(Remaining(jobs, clock))| <= KEEP
  {
    var s := InOrder(jobs);
    ListCount(s, jobs);
    var late := s[Surplus(jobs)..];
    ElementsCount(late);
    forall k | k in Finished(Remaining(jobs, clock))
      ensures k in late
    {
      assert k in Finished(jobs);
      assert k in s;
      var i :| 0 <= i < |s| && s[i] == k;
      RankIsPlace(s, jobs, i);
      assert late[i - Surplus(jobs)] == k;
    }
    SubsetSize(Finished(Remaining(jobs, clock)), Elements(late));
  }

  lemma {:induction false} SubsetSize(a: set<nat>, b: set<nat>)
    requires a <= b
    ensures |a| <= |b|
  {
    assert b == a + (b - a);
  }

  /** Forgetting goes by age: an operation forgotten before its time takes every older finished one with it. */
  lemma OldestGoFirst(jobs: Listing, clock: nat -> int, older: nat, k: nat)
    requires older in Finished(jobs) && k in Finished(jobs) && older < k
    requires k !in Remaining(jobs, clock) && clock(Rank(jobs, k)) - jobs[k].value <= KEEP_FOR
    ensures older !in Remaining(jobs, clock)
  {
    SubsetSize(Older(jobs, older), Older(jobs, k));
  }

  /** A run of listings and ends: what each asks. */
  datatype Event = Listed(clock: nat -> int) | EndedAt(number: nat, now: int)

  ghost function After(jobs: Listing, next: nat, events: seq<Event>): (Listing, nat)
  {
    if events == [] then (jobs, next)
    else
      var (j, n) := After(jobs, next, events[..|events| - 1]);
      match events[|events| - 1] {
        case Listed(clock) => (Remaining(j, clock)[n := None], n + 1)
        case EndedAt(number, now) => (if number in j then j[number := Some(now)] else j, n)
      }
  }

  /** Over every run, an operation listed and not ended since is still listed, as live. */
  lemma {:induction false} LiveWorkIsNeverForgotten(jobs: Listing, next: nat, events: seq<Event>, k: nat)
    requires forall j :: j in jobs ==> j < next
    requires k in jobs && jobs[k].None?
    requires forall i :: 0 <= i < |events| && events[i].EndedAt? ==> events[i].number != k
    ensures var (j, n) := After(jobs, next, events); n >= next && k in j && j[k].None?
  {
    if events != [] {
      var before := events[..|events| - 1];
      LiveWorkIsNeverForgotten(jobs, next, before, k);
    }
  }

  // ---- the GUI's jobs and sessions

  /** Jobs the GUI keeps, and sessions a lab's tab keeps. */
  const JOBS := 20
  const SESSIONS := 12

  datatype Entry = Entry(id: nat, running: bool, op: Option<string>)

  /** Without the first `n` ended entries. */
  function DropEnded(s: seq<Entry>, n: nat): seq<Entry> {
    if s == [] || n == 0 then s
    else if s[0].running then [s[0]] + DropEnded(s[1..], n)
    else DropEnded(s[1..], n - 1)
  }

  function Pruned(s: seq<Entry>, bound: nat): seq<Entry> {
    DropEnded(s, if |s| > bound then |s| - bound else 0)
  }

  function Those(s: seq<Entry>, running: bool): seq<Entry> {
    if s == [] then []
    else (if s[0].running == running then [s[0]] else []) + Those(s[1..], running)
  }

  /** Only ended entries go, the oldest, as many as asked or all there are. */
  lemma {:induction false} DropsTheOldestEnded(s: seq<Entry>, n: nat)
    ensures var r := DropEnded(s, n); var ended := Those(s, false); var gone := Min(n, |ended|);
            Those(r, true) == Those(s, true) && Those(r, false) == ended[gone..] && |r| == |s| - gone
  {
    if s != [] && n != 0 {
      if s[0].running {
        DropsTheOldestEnded(s[1..], n);
        assert ([s[0]] + DropEnded(s[1..], n))[1..] == DropEnded(s[1..], n);
      } else {
        DropsTheOldestEnded(s[1..], n - 1);
      }
    }
  }

  /** Pruning meets the bound or leaves only running entries, and no running entry goes. */
  lemma PruneMeetsTheBound(s: seq<Entry>, bound: nat)
    ensures var r := Pruned(s, bound);
            && Those(r, true) == Those(s, true)
            && (|r| <= bound || Those(r, false) == [])
            && (|s| >= bound ==> |r| >= bound) && (|s| <= bound ==> r == s)
  {
    DropsTheOldestEnded(s, if |s| > bound then |s| - bound else 0);
  }

  /** The entry just pushed is running: it stays, and stays last. */
  lemma {:induction false} NewestStays(s: seq<Entry>, e: Entry, n: nat)
    requires e.running
    ensures DropEnded(s + [e], n) == DropEnded(s, n) + [e]
  {
    if s == [] {
      assert DropEnded([e], n) == [e];
    } else if n != 0 {
      assert (s + [e])[1..] == s[1..] + [e];
      NewestStays(s[1..], e, if s[0].running then n else n - 1);
    }
  }

  /** Dropping one at a time is dropping them all. */
  lemma {:induction false} DropOneMore(s: seq<Entry>, n: nat)
    ensures DropEnded(s, n + 1) == DropEnded(DropEnded(s, 1), n)
  {
    if s != [] && s[0].running {
      DropOneMore(s[1..], n);
      var one := DropEnded(s, 1);
      assert one == [s[0]] + DropEnded(s[1..], 1) && one[1..] == DropEnded(s[1..], 1);
    }
  }

  /** Removing the first ended entry, where there is one. */
  lemma {:induction false} RemoveFirst(s: seq<Entry>, i: nat)
    requires i <= |s| && (i < |s| ==> !s[i].running)
    requires forall j :: 0 <= j < i ==> s[j].running
    ensures i < |s| ==> DropEnded(s, 1) == s[..i] + s[i + 1..]
    ensures i == |s| ==> forall n: nat :: DropEnded(s, n) == s
  {
    if i > 0 {
      RemoveFirst(s[1..], i - 1);
      if i < |s| {
        assert [s[0]] + (s[1..][..i - 1] + s[1..][i..]) == s[..i] + s[i + 1..];
      }
    }
  }

  method FirstEnded(s: seq<Entry>) returns (i: nat)
    ensures i <= |s| && (i < |s| ==> !s[i].running)
    ensures forall j :: 0 <= j < i ==> s[j].running
  {
    i := 0;
    while i < |s| && s[i].running
      invariant i <= |s| && forall j :: 0 <= j < i ==> s[j].running
    {
      i := i + 1;
    }
  }

  /** The loop both prunings are: while over the bound, the first ended entry goes. */
  method Prune(s: seq<Entry>, bound: nat) returns (r: seq<Entry>)
    ensures r == Pruned(s, bound)
  {
    r := s;
    while |r| > bound
      invariant Pruned(r, bound) == Pruned(s, bound)
      decreases |r|
    {
      var i := FirstEnded(r);
      RemoveFirst(r, i);
      if i == |r| {
        break;
      }
      DropOneMore(r, |r| - bound - 1);
      r := r[..i] + r[i + 1..];
    }
  }

  /** A lab's sessions. */
  class Live {
    var sessions: seq<Entry>
    var active: Option<nat>

    constructor ()
      ensures sessions == [] && active == None
    {
      sessions, active := [], None;
    }

    /** A session starts: it is the last and the one shown; no running one goes. */
    method Start(id: nat)
      modifies this
      ensures active == Some(id) && sessions != [] && sessions[|sessions| - 1] == Entry(id, true, None)
      ensures Those(sessions, true) == Those(old(sessions), true) + [Entry(id, true, None)]
      ensures |sessions| <= SESSIONS || Those(sessions, false) == []
    {
      var all := sessions + [Entry(id, true, None)];
      sessions := Prune(all, SESSIONS);
      PruneMeetsTheBound(all, SESSIONS);
      NewestStays(old(sessions), Entry(id, true, None), if |all| > SESSIONS then |all| - SESSIONS else 0);
      ThosePush(old(sessions), Entry(id, true, None), true);
      active := Some(id);
    }
  }

  lemma {:induction false} ThosePush(s: seq<Entry>, e: Entry, running: bool)
    ensures Those(s + [e], running) == Those(s, running) + (if e.running == running then [e] else [])
  {
    if s == [] {
      assert s + [e] == [e] && [e][1..] == [];
    } else {
      assert (s + [e])[1..] == s[1..] + [e];
      ThosePush(s[1..], e, running);
      Regroup(if s[0].running == running then [s[0]] else [],
              Those(s[1..], running),
              if e.running == running then [e] else []);
    }
  }

  function Without(ops: seq<string>, op: string): seq<string> {
    if ops == [] then []
    else Without(ops[..|ops| - 1], op) + (if ops[|ops| - 1] == op then [] else [ops[|ops| - 1]])
  }

  method Remove(ops: seq<string>, op: string) returns (kept: seq<string>, found: bool)
    ensures kept == Without(ops, op) && (found <==> op in ops)
  {
    kept, found := [], false;
    for i := 0 to |ops|
      invariant kept == Without(ops[..i], op) && (found <==> op in ops[..i])
    {
      assert ops[..i + 1][..i] == ops[..i];
      if ops[i] == op {
        found := true;
      } else {
        kept := kept + [ops[i]];
      }
    }
    assert ops[..|ops|] == ops;
  }

  /** The GUI's jobs, and the operations of others it could follow. */
  class JobList {
    var jobs: seq<Entry>
    var active: Option<nat>
    var next: nat
    var others: seq<string>
    var operator: bool
    var connected: bool

    constructor ()
      ensures jobs == [] && active == None && next == 1 && others == [] && !operator && !connected
    {
      jobs, active, next, others, operator, connected := [], None, 1, [], false, false;
    }

    method PruneJobs()
      modifies this`jobs
      ensures jobs == Pruned(old(jobs), JOBS)
    {
      jobs := Prune(jobs, JOBS);
    }

    /** Start a job, unless there is no daemon: then only a toast takes an id. */
    method StartJob()
      modifies this`jobs, this`active, this`next
      ensures next == old(next) + 1
      ensures !connected ==> jobs == old(jobs) && active == old(active)
      ensures connected ==> active == Some(old(next))
      ensures connected ==> jobs == Pruned(old(jobs) + [Entry(old(next), true, None)], JOBS)
    {
      var id := next;
      next := next + 1;
      if !connected {
        return;
      }
      jobs := jobs + [Entry(id, true, None)];
      PruneJobs();
      active := Some(id);
    }

    /**
     Follow an operation of another's. The job it labels is the one it started, no other
     job's label changes, and running jobs all stay.
     */
    method Follow(op: string)
      modifies this
      ensures operator == old(operator) && connected == old(connected)
      ensures !(operator && connected && op in old(others)) ==>
                jobs == old(jobs) && active == old(active) && others == old(others)
      ensures operator && connected && op in old(others) ==>
        var was := old(jobs) + [Entry(old(next), true, None)];
        && active == Some(old(next)) && others == Without(old(others), op)
        && jobs == DropEnded(old(jobs), if |was| > JOBS then |was| - JOBS else 0) + [Entry(old(next), true, Some(op))]
        && Those(jobs, true) == Those(old(jobs), true) + [Entry(old(next), true, Some(op))]
    {
      if !operator || !connected {
        next := next + 1;
        return;
      }
      var kept, found := Remove(others, op);
      if !found {
        return;
      }
      others := kept;
      StartJob();
      ghost var e := Entry(old(next), true, None);
      ghost var n := if |old(jobs)| + 1 > JOBS then |old(jobs)| + 1 - JOBS else 0;
      NewestStays(old(jobs), e, n);
      DropsTheOldestEnded(old(jobs), n);
      ThosePush(DropEnded(old(jobs), n), e.(op := Some(op)), true);
      if jobs != [] {
        jobs := jobs[|jobs| - 1 := jobs[|jobs| - 1].(op := Some(op))];
      }
    }
  }
}
