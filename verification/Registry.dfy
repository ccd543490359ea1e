/**
 The lab registry and its replicas (`bins/nlink-labd/src/hub.rs`, `labs_changed`
 and `set_labs` of `bins/gui/src/reduce.rs`): the hub diffs successive scans into
 deltas, a subscriber opens its channel before it reads its first state, and the
 GUI applies what arrives.
 */
module Registry {
  import opened Prelude

  /** A lab as a scan saw it; `details` stands for the fields only compared. */
  datatype LabSummary = LabSummary(lab: string, revision: string, details: string)

  type Labs = map<string, LabSummary>

  datatype Delta = Delta(added: seq<LabSummary>, updated: seq<LabSummary>, removed: seq<string>)

  ghost predicate Keyed(m: Labs) {
    forall n :: n in m ==> m[n].lab == n
  }

  function Get(m: Labs, n: string): Option<LabSummary> {
    if n in m then Some(m[n]) else None
  }

  /** Summaries taken in one after the other: the last one of a name stays. */
  ghost function Put(m: Labs, ss: seq<LabSummary>): Labs {
    if ss == [] then m else Put(m, ss[..|ss| - 1])[ss[|ss| - 1].lab := ss[|ss| - 1]]
  }

  /** What a delta means for a set of labs. */
  ghost function Apply(m: Labs, d: Delta): Labs {
    Put(m - (set n | n in d.removed), d.added + d.updated)
  }

  ghost function ApplyAll(m: Labs, ds: seq<Delta>): Labs {
    if ds == [] then m else Apply(ApplyAll(m, ds[..|ds| - 1]), ds[|ds| - 1])
  }

  ghost predicate Names(ss: seq<LabSummary>, n: string) {
    exists s :: s in ss && s.lab == n
  }

  ghost predicate Touches(d: Delta, n: string) {
    n in d.removed || Names(d.added + d.updated, n)
  }

  ghost predicate Distinct(ss: seq<LabSummary>) {
    forall i, j :: 0 <= i < j < |ss| ==> ss[i].lab != ss[j].lab
  }

  /** `ss` lists the labs of `m` named in `keep`, each once. */
  ghost predicate Lists(ss: seq<LabSummary>, m: Labs, keep: set<string>) {
    && Distinct(ss)
    && (forall s :: s in ss ==> s.lab in m && m[s.lab] == s && s.lab in keep)
    && (forall n :: n in keep && n in m ==> m[n] in ss)
  }

  function Added(prev: Labs, next: Labs): set<string> {
    set n | n in next && n !in prev
  }

  function Updated(prev: Labs, next: Labs): set<string> {
    set n | n in next && n in prev && prev[n] != next[n]
  }

  function Removed(prev: Labs, next: Labs): set<string> {
    set n | n in prev && n !in next
  }

  /** `d` is what the hub announces when its labs go from `prev` to `next`. */
  ghost predicate IsDelta(prev: Labs, next: Labs, d: Delta) {
    && Keyed(prev) && Keyed(next)
    && Lists(d.added, next, Added(prev, next))
    && Lists(d.updated, next, Updated(prev, next))
    && (forall n :: n in d.removed <==> n in Removed(prev, next))
  }

  // ---- a name at a time

  lemma {:induction false} PutAt(m: Labs, ss: seq<LabSummary>, n: string)
    ensures !Names(ss, n) ==> Get(Put(m, ss), n) == Get(m, n)
    ensures Names(ss, n) ==> n in Put(m, ss) && Put(m, ss)[n] in ss && Put(m, ss)[n].lab == n
  {
    if ss != [] {
      var init, last := ss[..|ss| - 1], ss[|ss| - 1];
      PutAt(m, init, n);
      assert ss == init + [last];
      if Names(ss, n) && last.lab != n {
        var s :| s in ss && s.lab == n;
        assert s in init;
      }
    }
  }

  /** A delta answers for the names it touches and leaves every other. */
  lemma ApplyAt(m: Labs, d: Delta, n: string)
    ensures !Touches(d, n) ==> Get(Apply(m, d), n) == Get(m, n)
    ensures Names(d.added + d.updated, n) ==>
              n in Apply(m, d) && Apply(m, d)[n] in d.added + d.updated && Apply(m, d)[n].lab == n
    ensures Touches(d, n) && !Names(d.added + d.updated, n) ==> n !in Apply(m, d)
  {
    PutAt(m - (set x | x in d.removed), d.added + d.updated, n);
  }

  /** After a delta a touched name is as in the version announced, whatever it was. */
  lemma TouchedSettles(prev: Labs, next: Labs, d: Delta, m: Labs, n: string)
    requires IsDelta(prev, next, d)
    ensures Touches(d, n) ==> Get(Apply(m, d), n) == Get(next, n)
    ensures !Touches(d, n) ==> Get(prev, n) == Get(next, n)
  {
    ApplyAt(m, d, n);
    if Names(d.added + d.updated, n) {
      var s := Apply(m, d)[n];
      assert s in d.added || s in d.updated;
    } else if Touches(d, n) {
      assert n in Removed(prev, next);
    } else {
      assert n !in Removed(prev, next);
      assert forall s :: s in d.added || s in d.updated ==> s in d.added + d.updated;
    }
  }

  lemma SameLabs(a: Labs, b: Labs)
    requires forall n :: Get(a, n) == Get(b, n)
    ensures a == b
  {
    forall n | n in a
      ensures n in b && a[n] == b[n]
    {
      assert Get(a, n) == Get(b, n);
    }
    forall n | n in b
      ensures n in a
    {
      assert Get(a, n) == Get(b, n);
    }
  }

  lemma DeltaIsExact(prev: Labs, next: Labs, d: Delta)
    requires IsDelta(prev, next, d)
    ensures Apply(prev, d) == next
  {
    forall n
      ensures Get(Apply(prev, d), n) == Get(next, n)
    {
      TouchedSettles(prev, next, d, prev, n);
      ApplyAt(prev, d, n);
    }
    SameLabs(Apply(prev, d), next);
  }

  /** What a run of deltas leaves at a name depends only on what was there. */
  lemma {:induction false} ApplyAllAt(a: Labs, b: Labs, ds: seq<Delta>, n: string)
    requires Get(a, n) == Get(b, n)
    ensures Get(ApplyAll(a, ds), n) == Get(ApplyAll(b, ds), n)
  {
    if ds != [] {
      var last := ds[|ds| - 1];
      var x, y := ApplyAll(a, ds[..|ds| - 1]), ApplyAll(b, ds[..|ds| - 1]);
      ApplyAllAt(a, b, ds[..|ds| - 1], n);
      ApplyAt(x, last, n);
      ApplyAt(y, last, n);
      if Names(last.added + last.updated, n) {
        PutDetermined(x - (set k | k in last.removed), y - (set k | k in last.removed), last.added + last.updated, n);
      }
    }
  }

  lemma {:induction false} PutDetermined(a: Labs, b: Labs, ss: seq<LabSummary>, n: string)
    requires Names(ss, n)
    ensures Get(Put(a, ss), n) == Get(Put(b, ss), n)
  {
    var init, last := ss[..|ss| - 1], ss[|ss| - 1];
    assert ss == init + [last];
    if last.lab != n {
      var s :| s in ss && s.lab == n;
      assert s in init;
      PutDetermined(a, b, init, n);
    }
  }

  /** Announcing a version keeps an already absorbed backlog absorbed. */
  lemma AbsorbStep(prev: Labs, next: Labs, d: Delta, ds: seq<Delta>)
    requires IsDelta(prev, next, d)
    requires ApplyAll(prev, ds) == prev
    ensures ApplyAll(next, ds + [d]) == next
  {
    assert (ds + [d])[..|ds|] == ds;
    var m := ApplyAll(next, ds);
    forall n
      ensures Get(Apply(m, d), n) == Get(next, n)
    {
      TouchedSettles(prev, next, d, m, n);
      ApplyAt(m, d, n);
      if !Touches(d, n) {
        ApplyAllAt(next, prev, ds, n);
      }
    }
    SameLabs(Apply(m, d), next);
  }

  /**
   Overlap-tolerant replication, over versions: `versions[k]` becomes
   `versions[k + 1]` with `deltas[k]`. A subscriber whose channel was opened after
   delta `i` and whose snapshot is of any version `j` from `i` on reaches the last
   version by applying the snapshot to an empty list and then every later delta.
   */
  lemma OverlapConverges(versions: seq<Labs>, deltas: seq<Delta>, i: nat, j: nat, snapshot: seq<LabSummary>)
    requires IsHistory(versions, deltas)
    requires i <= j <= |deltas| && Keyed(versions[j])
    requires Lists(snapshot, versions[j], versions[j].Keys)
    ensures ApplyAll(map[], [Delta(snapshot, [], [])] + deltas[i..]) == versions[|deltas|]
  {
    SnapshotFirst(versions[j], snapshot);
    ApplyAllConcat(map[], [Delta(snapshot, [], [])], deltas[i..]);
    HistoryAfter(versions, deltas, i);
    CatchUp(versions[i..], deltas[i..], j - i);
  }

  lemma SnapshotFirst(m: Labs, snapshot: seq<LabSummary>)
    requires Keyed(m) && Lists(snapshot, m, m.Keys)
    ensures ApplyAll(map[], [Delta(snapshot, [], [])]) == m
  {
    SnapshotIsWhole(m, snapshot);
    assert [Delta(snapshot, [], [])][..0] == [];
  }

  /** Each version with the delta that made the next one of it. */
  ghost predicate IsHistory(versions: seq<Labs>, deltas: seq<Delta>) {
    && |versions| == |deltas| + 1
    && forall k :: 0 <= k < |deltas| ==> IsDelta(versions[k], versions[k + 1], deltas[k])
  }

  lemma HistoryAfter(versions: seq<Labs>, deltas: seq<Delta>, i: nat)
    requires IsHistory(versions, deltas) && i <= |deltas|
    ensures IsHistory(versions[i..], deltas[i..])
  {
    var vs, ds := versions[i..], deltas[i..];
    forall k | 0 <= k < |ds|
      ensures IsDelta(vs[k], vs[k + 1], ds[k])
    {
      assert deltas[i + k] == ds[k];
    }
  }

  lemma {:induction false} CatchUp(versions: seq<Labs>, deltas: seq<Delta>, j: nat)
    requires IsHistory(versions, deltas)
    requires j <= |deltas|
    ensures ApplyAll(versions[j], deltas) == versions[|deltas|]
  {
    var n := |deltas|;
    if n > 0 {
      var vs, ds := versions[..n], deltas[..n - 1];
      if j < n {
        CatchUp(vs, ds, j);
        DeltaIsExact(versions[n - 1], versions[n], deltas[n - 1]);
      } else {
        CatchUp(vs, ds, n - 1);
        assert deltas == ds + [deltas[n - 1]];
        AbsorbStep(versions[n - 1], versions[n], deltas[n - 1], ds);
      }
    }
  }

  lemma {:induction false} ApplyAllConcat(m: Labs, a: seq<Delta>, b: seq<Delta>)
    ensures ApplyAll(m, a + b) == ApplyAll(ApplyAll(m, a), b)
  {
    if b == [] {
      assert a + b == a;
    } else {
      var c, init := a + b, b[..|b| - 1];
      ApplyAllConcat(m, a, init);
      assert c != [] && c[..|c| - 1] == a + init && c[|c| - 1] == b[|b| - 1];
      assert ApplyAll(m, c) == Apply(ApplyAll(m, a + init), b[|b| - 1]);
    }
  }

  /** The first thing a subscriber is told: every lab there is, as added. */
  lemma SnapshotIsWhole(m: Labs, ss: seq<LabSummary>)
    requires Keyed(m) && Lists(ss, m, m.Keys)
    ensures Apply(map[], Delta(ss, [], [])) == m
  {
    var d := Delta(ss, [], []);
    assert ss + [] == ss;
    forall n
      ensures Get(Apply(map[], d), n) == Get(m, n)
    {
      ApplyAt(map[], d, n);
      if n in m {
        assert m[n] in ss;
      }
    }
    SameLabs(Apply(map[], d), m);
  }

  // ---- every interleaving of the hub, the subscription and the GUI

  /**
   The hub stores a scan under its lock and publishes the delta after releasing
   it; the subscription opens its channel, reads the labs, then forwards; the GUI
   receives. `channel` is what was published to the subscription and not forwarded,
   `wire` what was forwarded and not received.
   */
  datatype System = System(
    labs: Labs,
    staged: seq<Delta>,
    open: bool,
    channel: seq<Delta>,
    told: bool,
    wire: seq<Delta>,
    replica: Labs)

  datatype Step =
    | Store(next: Labs, delta: Delta)
    | Publish
    | Open
    | Tell(snapshot: seq<LabSummary>)
    | Forward
    | Receive

  const START := System(map[], [], false, [], false, [], map[])

  ghost predicate Empty(d: Delta) {
    d.added == [] && d.updated == [] && d.removed == []
  }

  ghost predicate Enabled(s: System, step: Step) {
    match step
    case Store(next, delta) => s.staged == [] && IsDelta(s.labs, next, delta)
    case Publish => s.staged != []
    case Open => !s.open
    case Tell(snapshot) => s.open && !s.told && Lists(snapshot, s.labs, s.labs.Keys)
    case Forward => s.told && s.channel != []
    case Receive => s.wire != []
  }

  ghost function Next(s: System, step: Step): System
    requires Enabled(s, step)
  {
    match step
    case Store(next, delta) => s.(labs := next, staged := if Empty(delta) then [] else [delta])
    case Publish => s.(staged := [], channel := if s.open then s.channel + s.staged else [])
    case Open => s.(open := true)
    case Tell(snapshot) => s.(told := true, wire := s.wire + [Delta(snapshot, [], [])])
    case Forward => s.(channel := s.channel[1..], wire := s.wire + [s.channel[0]])
    case Receive => s.(wire := s.wire[1..], replica := Apply(s.replica, s.wire[0]))
  }

  /** `states` is what the system goes through with `steps`, from its start. */
  ghost predicate IsRun(states: seq<System>, steps: seq<Step>) {
    && |states| == |steps| + 1
    && states[0] == START
    && forall k :: 0 <= k < |steps| ==> Enabled(states[k], steps[k]) && states[k + 1] == Next(states[k], steps[k])
  }

  /** What is on its way to the GUI, in the order it will arrive. */
  ghost function InFlight(s: System): seq<Delta> {
    s.wire + s.channel + s.staged
  }

  ghost predicate Converging(s: System) {
    && Keyed(s.labs)
    && (!s.open ==> s.channel == [] && !s.told)
    && (!s.told ==> s.wire == [] && s.replica == map[])
    && (!s.told ==> ApplyAll(s.labs, s.channel + s.staged) == s.labs)
    && (s.told ==> ApplyAll(s.replica, InFlight(s)) == s.labs)
  }

  lemma StepConverges(s: System, step: Step)
    requires Converging(s) && Enabled(s, step)
    ensures Converging(Next(s, step))
  {
    var t := Next(s, step);
    match step
    case Store(next, d) => StoreConverges(s, next, d);
    case Publish =>
      assert s.channel + s.staged == (s.channel + s.staged) + [];
      if s.open {
        assert InFlight(t) == InFlight(s);
        assert t.channel + t.staged == s.channel + s.staged;
      } else {
        assert t.channel + t.staged == [];
      }
    case Open =>
    case Tell(snapshot) => TellConverges(s, snapshot);
    case Forward =>
      assert InFlight(t) == InFlight(s);
    case Receive =>
      assert InFlight(s) == [s.wire[0]] + InFlight(t);
      ApplyAllConcat(s.replica, [s.wire[0]], InFlight(t));
      assert [s.wire[0]][..0] == [];
      assert ApplyAll(s.replica, [s.wire[0]]) == Apply(ApplyAll(s.replica, []), s.wire[0]);
  }

  lemma StoreConverges(s: System, next: Labs, d: Delta)
    requires Converging(s) && s.staged == [] && IsDelta(s.labs, next, d)
    ensures Converging(Next(s, Store(next, d)))
  {
    var t := Next(s, Store(next, d));
    DeltaIsExact(s.labs, next, d);
    if Empty(d) {
      assert d.added + d.updated == [];
      assert s.labs - (set n | n in d.removed) == s.labs;
      assert next == s.labs;
      assert t == s;
    } else {
      assert t.staged == [d];
      if s.told {
        assert InFlight(t) == InFlight(s) + [d];
        assert InFlight(t)[..|InFlight(t)| - 1] == InFlight(s);
      } else {
        assert s.channel + s.staged == s.channel;
        AbsorbStep(s.labs, next, d, s.channel);
      }
    }
  }

  lemma TellConverges(s: System, snapshot: seq<LabSummary>)
    requires Converging(s) && Enabled(s, Tell(snapshot))
    ensures Converging(Next(s, Tell(snapshot)))
  {
    var t := Next(s, Tell(snapshot));
    var first := Delta(snapshot, [], []);
    SnapshotIsWhole(s.labs, snapshot);
    assert InFlight(t) == [first] + (s.channel + s.staged);
    ApplyAllConcat(map[], [first], s.channel + s.staged);
    assert [first][..0] == [];
    assert ApplyAll(map[], [first]) == Apply(ApplyAll(map[], []), first);
  }

  lemma {:induction false} RunConverges(states: seq<System>, steps: seq<Step>)
    requires IsRun(states, steps)
    ensures Converging(states[|steps|])
  {
    var n := |steps|;
    if n > 0 {
      RunConverges(states[..n], steps[..n - 1]);
      StepConverges(states[n - 1], steps[n - 1]);
    }
  }

  /**
   In every run, a subscriber that was told its first state holds, once it took in
   what is on its way, exactly the hub's labs; with nothing on its way, it holds
   them already.
   */
  lemma ReplicaConverges(states: seq<System>, steps: seq<Step>)
    requires IsRun(states, steps)
    ensures var s := states[|steps|];
            s.told ==> ApplyAll(s.replica, InFlight(s)) == s.labs && (InFlight(s) == [] ==> s.replica == s.labs)
  {
    RunConverges(states, steps);
  }

  /** What the last scan stored, or nothing before the first. */
  ghost function LastScan(steps: seq<Step>): Labs {
    if steps == [] then map[]
    else if steps[|steps| - 1].Store? then steps[|steps| - 1].next
    else LastScan(steps[..|steps| - 1])
  }

  lemma RunBefore(states: seq<System>, steps: seq<Step>)
    requires IsRun(states, steps) && steps != []
    ensures var n := |steps| - 1; IsRun(states[..n + 1], steps[..n]) && states[..n + 1][n] == states[n]
    ensures var n := |steps| - 1; Enabled(states[n], steps[n]) && states[n + 1] == Next(states[n], steps[n])
  {
  }

  /** In every run the hub's labs are those of the last scan. */
  lemma {:induction false} LabsAreTheLastScan(states: seq<System>, steps: seq<Step>)
    requires IsRun(states, steps)
    ensures states[|steps|].labs == LastScan(steps)
  {
    var n := |steps|;
    if n > 0 {
      RunBefore(states, steps);
      LabsAreTheLastScan(states[..n], steps[..n - 1]);
    }
  }

  /** The steps of a subscription, and the publishing of what was stored: no scan comes between. */
  predicate Moves(step: Step) {
    !step.Store?
  }

  ghost predicate IsWay(states: seq<System>, steps: seq<Step>) {
    && |states| == |steps| + 1
    && forall k :: 0 <= k < |steps| ==>
         Enabled(states[k], steps[k]) && states[k + 1] == Next(states[k], steps[k]) && Moves(steps[k])
  }

  lemma WayFrom(s: System, step: Step, states: seq<System>, steps: seq<Step>)
    requires Enabled(s, step) && Moves(step) && IsWay(states, steps) && states[0] == Next(s, step)
    ensures IsWay([s] + states, [step] + steps)
  {
  }

  /** Every set of labs can be listed. */
  lemma {:induction false} SnapshotExists(m: Labs, names: set<string>) returns (ss: seq<LabSummary>)
    requires Keyed(m) && names <= m.Keys
    ensures Lists(ss, m, names)
    decreases names
  {
    if names == {} {
      ss := [];
    } else {
      var n :| n in names;
      var rest := SnapshotExists(m, names - {n});
      assert forall s :: s in rest ==> s.lab != n;
      ss := rest + [m[n]];
    }
  }

  function Toil(s: System): nat {
    3 * |s.staged| + 2 * |s.channel| + |s.wire| + (if s.told then 0 else if s.open then 2 else 3)
  }

  lemma {:induction false} WayToCatchUp(s: System) returns (states: seq<System>, steps: seq<Step>)
    requires Converging(s)
    ensures IsWay(states, steps) && states[0] == s
    ensures states[|steps|].labs == s.labs && states[|steps|].replica == s.labs
    decreases Toil(s)
  {
    if s.told && InFlight(s) == [] {
      states, steps := [s], [];
    } else {
      var step;
      if !s.open {
        step := Open;
      } else if !s.told {
        var snapshot := SnapshotExists(s.labs, s.labs.Keys);
        step := Tell(snapshot);
      } else {
        step := if s.wire != [] then Receive else if s.channel != [] then Forward else Publish;
      }
      StepConverges(s, step);
      var rest, more := WayToCatchUp(Next(s, step));
      WayFrom(s, step, rest, more);
      states, steps := [s] + rest, [step] + more;
      assert states[|steps|] == rest[|more|];
    }
  }

  /**
   In every run, wherever the subscription is, its own steps and the publishing of what was
   stored bring its replica to the labs of the hub's last scan.
   */
  lemma ReplicaCatchesUp(states: seq<System>, steps: seq<Step>) returns (way: seq<System>, taken: seq<Step>)
    requires IsRun(states, steps)
    ensures IsWay(way, taken) && way[0] == states[|steps|] && way[|taken|].replica == LastScan(steps)
  {
    RunConverges(states, steps);
    LabsAreTheLastScan(states, steps);
    way, taken := WayToCatchUp(states[|steps|]);
  }

  // ---- the hub's half: the diff of a scan

  class Hub {
    var labs: Labs

    constructor ()
      ensures labs == map[]
    {
      labs := map[];
    }

    /** Take a scan in: what changed, and which topologies moved to a new revision. */
    method Update(summaries: seq<LabSummary>) returns (delta: Delta, moved: seq<(string, string)>)
      requires Keyed(labs)
      modifies this
      ensures Keyed(labs) && labs == Put(map[], summaries)
      ensures IsDelta(old(labs), labs, delta) && NoRepeats(delta.removed)
      ensures forall i, j :: 0 <= i < j < |moved| ==> moved[i].0 != moved[j].0
      ensures forall n, r :: (n, r) in moved <==>
                n in old(labs) && n in labs && labs[n].revision == r && old(labs)[n].revision != r
    {
      var next: Labs := map[];
      for i := 0 to |summaries|
        invariant Keyed(next) && next == Put(map[], summaries[..i])
      {
        assert summaries[..i + 1][..i] == summaries[..i];
        next := next[summaries[i].lab := summaries[i]];
      }
      assert summaries[..|summaries|] == summaries;
      var added := ListOf(next, Added(labs, next));
      var updated := ListOf(next, Updated(labs, next));
      moved := [];
      for i := 0 to |updated|
        invariant forall a, b :: 0 <= a < b < |moved| ==> moved[a].0 != moved[b].0
        invariant forall n, r :: (n, r) in moved <==>
                    exists k :: 0 <= k < i && updated[k].lab == n && updated[k].revision == r && labs[n].revision != r
      {
        ghost var before := moved;
        if labs[updated[i].lab].revision != updated[i].revision {
          assert forall a :: 0 <= a < |moved| ==> (moved[a].0, moved[a].1) in moved;
          moved := moved + [(updated[i].lab, updated[i].revision)];
        }
      }
      var removed := NamesOf(Removed(labs, next));
      delta := Delta(added, updated, removed);
      forall n, r
        ensures (n, r) in moved <==> n in labs && n in next && next[n].revision == r && labs[n].revision != r
      {
        if n in labs && n in next && next[n].revision == r && labs[n].revision != r {
          assert n in Updated(labs, next);
          assert next[n] in updated;
        }
      }
      labs := next;
    }
  }

  method ListOf(m: Labs, names: set<string>) returns (ss: seq<LabSummary>)
    requires Keyed(m) && names <= m.Keys
    ensures Lists(ss, m, names)
  {
    ss := [];
    var left := names;
    while left != {}
      invariant left <= names
      invariant Lists(ss, m, names - left)
      decreases left
    {
      var n :| n in left;
      assert forall s :: s in ss ==> s.lab != n;
      ss := ss + [m[n]];
      left := left - {n};
    }
    assert names - left == names;
  }

  ghost predicate NoRepeats(ns: seq<string>) {
    forall i, j :: 0 <= i < j < |ns| ==> ns[i] != ns[j]
  }

  method NamesOf(names: set<string>) returns (ns: seq<string>)
    ensures NoRepeats(ns) && forall n :: n in ns <==> n in names
  {
    ns := [];
    var left := names;
    while left != {}
      invariant left <= names
      invariant NoRepeats(ns) && forall n :: n in ns <==> n in names - left
      decreases left
    {
      var n :| n in left;
      assert forall i :: 0 <= i < |ns| ==> ns[i] in ns;
      ns := ns + [n];
      left := left - {n};
    }
  }
}
