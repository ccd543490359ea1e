/**
 The GUI's copy of the registry: `labs_changed` and `set_labs` of
 `bins/gui/src/reduce.rs`, which keep the list of labs and, in every tab that
 follows a lab, the lab's summary and whether it is gone.
 */
module LabList {
  import opened Prelude
  import opened Registry

  datatype LiveTab = LiveTab(lab: string, summary: Option<LabSummary>, gone: bool, feed: nat, failed: bool)

  type Order = (string, string) -> bool

  /** The first summary of a name. */
  function Find(ss: seq<LabSummary>, n: string): (r: Option<LabSummary>)
    ensures r.Some? ==> r.value in ss && r.value.lab == n
    ensures r.None? <==> forall s :: s in ss ==> s.lab != n
  {
    if ss == [] then None else if ss[0].lab == n then Some(ss[0]) else Find(ss[1..], n)
  }

  ghost function AsLabs(ss: seq<LabSummary>): Labs {
    map n | n in (set s | s in ss :: s.lab) :: Find(ss, n).value
  }

  lemma AsLabsAt(ss: seq<LabSummary>, n: string)
    ensures Get(AsLabs(ss), n) == Find(ss, n)
  {
  }

  lemma MemberIsFound(ss: seq<LabSummary>, s: LabSummary)
    requires Distinct(ss) && s in ss
    ensures Find(ss, s.lab) == Some(s)
  {
    var f := Find(ss, s.lab).value;
    var i :| 0 <= i < |ss| && ss[i] == s;
    var j :| 0 <= j < |ss| && ss[j] == f;
  }

  /** Two lists of the same distinct summaries are the same labs. */
  lemma SameMembers(a: seq<LabSummary>, b: seq<LabSummary>)
    requires Distinct(a) && Distinct(b)
    requires forall s :: s in a <==> s in b
    ensures AsLabs(a) == AsLabs(b)
  {
    forall n
      ensures Get(AsLabs(a), n) == Get(AsLabs(b), n)
    {
      AsLabsAt(a, n);
      AsLabsAt(b, n);
      if Find(a, n).Some? {
        MemberIsFound(b, Find(a, n).value);
      }
    }
    SameLabs(AsLabs(a), AsLabs(b));
  }

  // ---- the order labs are shown in

  function Insert(s: LabSummary, ss: seq<LabSummary>, le: Order): (r: seq<LabSummary>)
    ensures multiset(r) == multiset(ss) + multiset{s}
  {
    if ss == [] then [s]
    else if le(s.lab, ss[0].lab) then [s] + ss
    else
      assert ss == [ss[0]] + ss[1..];
      [ss[0]] + Insert(s, ss[1..], le)
  }

  function Sorted(ss: seq<LabSummary>, le: Order): (r: seq<LabSummary>)
    ensures multiset(r) == multiset(ss)
  {
    if ss == [] then []
    else
      assert ss == [ss[0]] + ss[1..];
      Insert(ss[0], Sorted(ss[1..], le), le)
  }

  ghost predicate TotalOrder(le: Order) {
    && (forall a, b :: le(a, b) || le(b, a))
    && (forall a, b, c :: le(a, b) && le(b, c) ==> le(a, c))
  }

  ghost predicate InOrder(ss: seq<LabSummary>, le: Order) {
    forall i, j :: 0 <= i < j < |ss| ==> le(ss[i].lab, ss[j].lab)
  }

  lemma {:induction false} InsertKeepsOrder(s: LabSummary, ss: seq<LabSummary>, le: Order)
    requires TotalOrder(le) && InOrder(ss, le)
    ensures InOrder(Insert(s, ss, le), le)
  {
    if ss != [] && !le(s.lab, ss[0].lab) {
      InsertKeepsOrder(s, ss[1..], le);
      var rest := Insert(s, ss[1..], le);
      forall k | 0 <= k < |rest|
        ensures le(ss[0].lab, rest[k].lab)
      {
        assert rest[k] in multiset(rest);
        assert rest[k] == s || rest[k] in ss[1..];
      }
    }
  }

  lemma {:induction false} SortedIsInOrder(ss: seq<LabSummary>, le: Order)
    requires TotalOrder(le)
    ensures InOrder(Sorted(ss, le), le)
  {
    if ss != [] {
      SortedIsInOrder(ss[1..], le);
      InsertKeepsOrder(ss[0], Sorted(ss[1..], le), le);
    }
  }

  lemma PermutationKeepsDistinct(a: seq<LabSummary>, b: seq<LabSummary>)
    requires multiset(a) == multiset(b) && Distinct(a)
    ensures Distinct(b)
  {
    forall i, j | 0 <= i < j < |b|
      ensures b[i].lab != b[j].lab
    {
      if b[i].lab == b[j].lab {
        assert b[i] in multiset(b) && b[j] in multiset(b);
        assert b[i] in a && b[j] in a;
        MemberIsFound(a, b[i]);
        MemberIsFound(a, b[j]);
        assert b == b[..i] + [b[i]] + b[i + 1..j] + [b[j]] + b[j + 1..];
        assert multiset(a)[b[i]] >= 2;
        TwiceIsNotDistinct(a, b[i]);
      }
    }
  }

  lemma {:induction false} TwiceIsNotDistinct(a: seq<LabSummary>, s: LabSummary)
    requires multiset(a)[s] >= 2
    ensures !Distinct(a)
  {
    if a[0] == s {
      assert a == [a[0]] + a[1..];
      assert s in multiset(a[1..]);
      var k :| 0 <= k < |a[1..]| && a[1..][k] == s;
      assert a[k + 1] == s;
    } else {
      assert a == [a[0]] + a[1..];
      TwiceIsNotDistinct(a[1..], s);
      var i, j :| 0 <= i < j < |a[1..]| && a[1..][i].lab == a[1..][j].lab;
      assert a[i + 1].lab == a[j + 1].lab;
    }
  }

  lemma SortedIsSame(ss: seq<LabSummary>, le: Order)
    requires Distinct(ss)
    ensures Distinct(Sorted(ss, le)) && AsLabs(Sorted(ss, le)) == AsLabs(ss)
  {
    PermutationKeepsDistinct(ss, Sorted(ss, le));
    forall s
      ensures s in ss <==> s in Sorted(ss, le)
    {
      assert s in ss <==> s in multiset(ss);
      assert s in Sorted(ss, le) <==> s in multiset(Sorted(ss, le));
    }
    SameMembers(Sorted(ss, le), ss);
  }

  // ---- the list as deltas change it

  lemma {:induction false} FindAppended(ss: seq<LabSummary>, s: LabSummary, n: string)
    ensures Find(ss + [s], n) == (if Find(ss, n).Some? then Find(ss, n) else if s.lab == n then Some(s) else None)
  {
    if ss != [] {
      assert (ss + [s])[1..] == ss[1..] + [s];
      FindAppended(ss[1..], s, n);
    }
  }

  lemma {:induction false} FindReplaced(ss: seq<LabSummary>, i: nat, s: LabSummary, n: string)
    requires i < |ss| && ss[i].lab == s.lab && Distinct(ss)
    ensures Find(ss[i := s], n) == if n == s.lab then Some(s) else Find(ss, n)
  {
    if i == 0 {
      assert ss[i := s][1..] == ss[1..];
    } else {
      assert ss[i := s][1..] == ss[1..][i - 1 := s];
      FindReplaced(ss[1..], i - 1, s, n);
    }
  }

  class Gui {
    var labs: seq<LabSummary>
    var tabs: seq<LiveTab>

    ghost predicate Valid()
      reads this
    {
      Distinct(labs) && forall i, j :: 0 <= i < j < |tabs| ==> tabs[i].lab != tabs[j].lab
    }

    constructor ()
      ensures Valid() && labs == [] && tabs == []
    {
      labs, tabs := [], [];
    }

    /** Every lab there is: shown in order, and told to the tabs. */
    method SetLabs(all: seq<LabSummary>, le: Order)
      modifies this
      ensures labs == Sorted(all, le)
      ensures |tabs| == |old(tabs)|
      ensures forall i :: 0 <= i < |tabs| ==> tabs[i] == Told(old(tabs)[i], labs)
    {
      var sorted := Sorted(all, le);
      for i := 0 to |tabs|
        modifies this`tabs
        invariant |tabs| == |old(tabs)|
        invariant forall k :: 0 <= k < i ==> tabs[k] == Told(old(tabs)[k], sorted)
        invariant forall k :: i <= k < |tabs| ==> tabs[k] == old(tabs)[k]
      {
        tabs := tabs[i := Told(tabs[i], sorted)];
      }
      labs := sorted;
    }

    /**
     Take a delta in. The list becomes what the delta means for it, each tab says
     `gone` exactly when its lab is absent, and a tab subscribes again exactly when
     its lab came back under the name it follows.
     */
    method LabsChanged(added: seq<LabSummary>, updated: seq<LabSummary>, removed: seq<string>, le: Order)
      requires Valid()
      modifies this
      ensures Valid()
      ensures AsLabs(labs) == Apply(old(AsLabs(labs)), Delta(added, updated, removed))
      ensures TotalOrder(le) ==> InOrder(labs, le)
      ensures |tabs| == |old(tabs)|
      ensures forall i :: 0 <= i < |tabs| ==>
                && tabs[i].lab == old(tabs)[i].lab
                && tabs[i].summary == Get(AsLabs(labs), tabs[i].lab)
                && (tabs[i].gone <==> tabs[i].lab !in AsLabs(labs))
      ensures forall i :: 0 <= i < |tabs| ==>
                var back := CameBack(old(AsLabs(labs)), Delta(added, updated, removed), tabs[i].lab);
                && tabs[i].feed == old(tabs)[i].feed + (if back then 1 else 0)
                && tabs[i].failed == (old(tabs)[i].failed && !back)
    {
      var back := TakeIn(added, updated, removed, le);
      Resubscribe(back);
    }

    /** Each tab says what the list says of its lab. */
    ghost predicate TabsTold()
      reads this
    {
      forall i :: 0 <= i < |tabs| ==>
        && tabs[i].summary == Get(AsLabs(labs), tabs[i].lab)
        && (tabs[i].gone <==> tabs[i].lab !in AsLabs(labs))
    }

    /** Everything a subscription brings, delta after delta. */
    method TakeAll(ds: seq<Delta>, le: Order)
      requires Valid()
      modifies this
      ensures Valid() && AsLabs(labs) == ApplyAll(old(AsLabs(labs)), ds)
      ensures ds != [] ==> TabsTold()
      ensures |tabs| == |old(tabs)| && forall i :: 0 <= i < |tabs| ==> tabs[i].lab == old(tabs)[i].lab
    {
      for k := 0 to |ds|
        invariant Valid() && AsLabs(labs) == ApplyAll(old(AsLabs(labs)), ds[..k])
        invariant k > 0 ==> TabsTold()
        invariant |tabs| == |old(tabs)| && forall i :: 0 <= i < |tabs| ==> tabs[i].lab == old(tabs)[i].lab
      {
        assert ds[..k + 1][..k] == ds[..k];
        LabsChanged(ds[k].added, ds[k].updated, ds[k].removed, le);
      }
      assert ds[..|ds|] == ds;
    }

    /**
     A subscription from an empty list, its channel opened after delta `i` and its first
     state read at version `j`, later: the list ends as the hub's labs of the last version,
     and a tab says `gone` exactly when its lab is not among them.
     */
    method Subscribe(
      ghost versions: seq<Labs>, deltas: seq<Delta>, i: nat, ghost j: nat, snapshot: seq<LabSummary>, le: Order)
      requires Valid() && labs == []
      requires IsHistory(versions, deltas) && i <= j <= |deltas| && Keyed(versions[j])
      requires Lists(snapshot, versions[j], versions[j].Keys)
      modifies this
      ensures Valid() && AsLabs(labs) == versions[|deltas|] && |tabs| == |old(tabs)|
      ensures forall k :: 0 <= k < |tabs| ==>
                && tabs[k].lab == old(tabs)[k].lab
                && tabs[k].summary == Get(versions[|deltas|], tabs[k].lab)
                && (tabs[k].gone <==> tabs[k].lab !in versions[|deltas|])
    {
      OverlapConverges(versions, deltas, i, j, snapshot);
      assert AsLabs([]) == map[];
      TakeAll([Delta(snapshot, [], [])] + deltas[i..], le);
    }

    /** The list and the tabs before any subscribes again, and which labs came back. */
    method TakeIn(added: seq<LabSummary>, updated: seq<LabSummary>, removed: seq<string>, le: Order)
      returns (back: seq<string>)
      requires Valid()
      modifies this
      ensures Valid()
      ensures AsLabs(labs) == Apply(old(AsLabs(labs)), Delta(added, updated, removed))
      ensures TotalOrder(le) ==> InOrder(labs, le)
      ensures |tabs| == |old(tabs)|
      ensures forall i :: 0 <= i < |tabs| ==>
                tabs[i] == Told(old(tabs)[i], labs) && Find(labs, tabs[i].lab) == Get(AsLabs(labs), tabs[i].lab)
      ensures forall a, b :: 0 <= a < b < |back| ==> back[a] != back[b]
      ensures forall n :: n in back <==> CameBack(old(AsLabs(labs)), Delta(added, updated, removed), n)
    {
      ghost var d := Delta(added, updated, removed);
      ghost var was := AsLabs(labs);
      var ls := Retain(labs, removed);
      RetainedIsBase(labs, removed, ls);
      var merged;
      merged, back := Merge(ls, added + updated);
      assert forall n :: n in back <==> CameBack(was, d, n);
      SetLabs(merged, le);
      SortedIsSame(merged, le);
      if TotalOrder(le) {
        SortedIsInOrder(merged, le);
      }
      forall i | 0 <= i < |tabs|
        ensures Find(labs, tabs[i].lab) == Get(AsLabs(labs), tabs[i].lab)
      {
        AsLabsAt(labs, tabs[i].lab);
      }
    }

    /** The tabs of labs that came back get fresh data. */
    method Resubscribe(back: seq<string>)
      requires Valid()
      requires forall a, b :: 0 <= a < b < |back| ==> back[a] != back[b]
      modifies this`tabs
      ensures |tabs| == |old(tabs)|
      ensures forall k :: 0 <= k < |tabs| ==>
                tabs[k] == if old(tabs)[k].lab in back then Again(old(tabs)[k]) else old(tabs)[k]
    {
      for i := 0 to |back|
        invariant |tabs| == |old(tabs)|
        invariant forall k :: 0 <= k < |tabs| ==>
                    tabs[k] == if old(tabs)[k].lab in back[..i] then Again(old(tabs)[k]) else old(tabs)[k]
      {
        var k := TabOf(back[i]);
        if k < |tabs| {
          tabs := tabs[k := Again(tabs[k])];
        }
      }
      assert back[..|back|] == back;
    }

    method TabOf(lab: string) returns (k: nat)
      ensures k <= |tabs|
      ensures k < |tabs| ==> tabs[k].lab == lab
      ensures forall i :: 0 <= i < k ==> tabs[i].lab != lab
    {
      k := 0;
      while k < |tabs| && tabs[k].lab != lab
        invariant k <= |tabs|
        invariant forall i :: 0 <= i < k ==> tabs[i].lab != lab
      {
        k := k + 1;
      }
    }
  }

  function Told(t: LiveTab, labs: seq<LabSummary>): LiveTab {
    var s := Find(labs, t.lab);
    t.(summary := s, gone := s.None?)
  }

  function Again(t: LiveTab): LiveTab {
    t.(feed := t.feed + 1, failed := false)
  }

  /** The delta brings lab `n` to a list that, its removals made, lacked it. */
  ghost predicate CameBack(was: Labs, d: Delta, n: string) {
    Names(d.added + d.updated, n) && (n !in was || n in d.removed)
  }

  /** Summaries taken in: one whose name is listed replaces it, another is new. */
  method Merge(list: seq<LabSummary>, all: seq<LabSummary>) returns (merged: seq<LabSummary>, back: seq<string>)
    requires Distinct(list)
    ensures Distinct(merged) && AsLabs(merged) == Put(AsLabs(list), all)
    ensures forall n :: n in back <==> Names(all, n) && n !in AsLabs(list)
    ensures forall a, b :: 0 <= a < b < |back| ==> back[a] != back[b]
  {
    ghost var base := AsLabs(list);
    merged, back := list, [];
    for i := 0 to |all|
      invariant Distinct(merged)
      invariant AsLabs(merged) == Put(base, all[..i])
      invariant forall n :: n in back <==> Names(all[..i], n) && n !in base
      invariant forall a, b :: 0 <= a < b < |back| ==> back[a] != back[b]
    {
      var s := all[i];
      assert all[..i + 1][..i] == all[..i];
      assert all[..i + 1] == all[..i] + [s];
      var k := IndexOf(merged, s.lab);
      PutAt(base, all[..i], s.lab);
      AsLabsAt(merged, s.lab);
      NamesMore(all[..i], s);
      if k < |merged| {
        Replaced(merged, k, s);
        merged := merged[k := s];
      } else {
        Appended(merged, s);
        merged, back := merged + [s], back + [s.lab];
      }
    }
    assert all[..|all|] == all;
  }

  lemma NamesMore(ss: seq<LabSummary>, s: LabSummary)
    ensures forall n :: Names(ss + [s], n) <==> Names(ss, n) || n == s.lab
  {
    forall n
      ensures Names(ss + [s], n) <==> Names(ss, n) || n == s.lab
    {
      if Names(ss, n) {
        var x :| x in ss && x.lab == n;
        assert x in ss + [s];
      }
      assert s in ss + [s];
    }
  }

  method IndexOf(ss: seq<LabSummary>, n: string) returns (k: nat)
    ensures k <= |ss|
    ensures k < |ss| ==> ss[k].lab == n
    ensures forall i :: 0 <= i < k ==> ss[i].lab != n
  {
    k := 0;
    while k < |ss| && ss[k].lab != n
      invariant k <= |ss|
      invariant forall i :: 0 <= i < k ==> ss[i].lab != n
    {
      k := k + 1;
    }
  }

  method Retain(ss: seq<LabSummary>, removed: seq<string>) returns (kept: seq<LabSummary>)
    requires Distinct(ss)
    ensures Distinct(kept)
    ensures forall s :: s in kept <==> s in ss && s.lab !in removed
  {
    kept := [];
    for i := 0 to |ss|
      invariant Distinct(kept)
      invariant forall s :: s in kept <==> s in ss[..i] && s.lab !in removed
    {
      if ss[i].lab !in removed {
        forall s | s in kept
          ensures s.lab != ss[i].lab
        {
          var j :| 0 <= j < |ss[..i]| && ss[..i][j] == s;
        }
        kept := kept + [ss[i]];
      }
    }
  }

  lemma RetainedIsBase(ss: seq<LabSummary>, removed: seq<string>, kept: seq<LabSummary>)
    requires Distinct(ss) && Distinct(kept)
    requires forall s :: s in kept <==> s in ss && s.lab !in removed
    ensures AsLabs(kept) == AsLabs(ss) - (set n | n in removed)
  {
    var base := AsLabs(ss) - (set n | n in removed);
    forall n
      ensures Get(AsLabs(kept), n) == Get(base, n)
    {
      AsLabsAt(kept, n);
      AsLabsAt(ss, n);
      if Find(ss, n).Some? && n !in removed {
        MemberIsFound(kept, Find(ss, n).value);
      }
      if Find(kept, n).Some? {
        MemberIsFound(ss, Find(kept, n).value);
      }
    }
    SameLabs(AsLabs(kept), base);
  }

  lemma Appended(ss: seq<LabSummary>, s: LabSummary)
    requires Distinct(ss) && forall x :: x in ss ==> x.lab != s.lab
    ensures Distinct(ss + [s]) && AsLabs(ss + [s]) == AsLabs(ss)[s.lab := s]
  {
    var now, want := AsLabs(ss + [s]), AsLabs(ss)[s.lab := s];
    forall n
      ensures Get(now, n) == Get(want, n)
    {
      AsLabsAt(ss + [s], n);
      AsLabsAt(ss, n);
      FindAppended(ss, s, n);
    }
    SameLabs(now, want);
  }

  lemma Replaced(ss: seq<LabSummary>, k: nat, s: LabSummary)
    requires Distinct(ss) && k < |ss| && ss[k].lab == s.lab
    ensures Distinct(ss[k := s]) && AsLabs(ss[k := s]) == AsLabs(ss)[s.lab := s]
  {
    var now, want := AsLabs(ss[k := s]), AsLabs(ss)[s.lab := s];
    forall n
      ensures Get(now, n) == Get(want, n)
    {
      AsLabsAt(ss[k := s], n);
      AsLabsAt(ss, n);
      FindReplaced(ss, k, s, n);
    }
    SameLabs(now, want);
  }
}
