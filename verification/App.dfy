/**
 The GUI's tabs (`bins/gui/src/reduce.rs`: `open`, `close`, `close_now`, `OpenLab`,
 `SelectTab`, `Discard`, the tab and quit shortcuts, and the arms that act on a
 design): which tabs there are, which is in front, and what asks before edits are
 lost.
 */
module App {
  import opened Prelude
  import Design

  datatype Kind = DesignTab(doc: Design.Doc) | LabTab(lab: string)
  datatype Tab = Tab(id: nat, kind: Kind)
  datatype Route = Home | Workspace
  datatype Pending = Nothing | CloseOf(id: nat) | Quitting

  /** A save-as under way: the tab it was asked in, and the text it writes. */
  datatype Asking = Asking(tab: nat, text: string)

  datatype State = State(
    route: Route,
    tabs: seq<Tab>,
    active: Option<nat>,
    discard: Pending,
    nextId: nat,
    asking: seq<Asking>,
    quit: bool)

  datatype Message =
    | GoHome
    | SelectTab(id: nat)
    | CloseTab(id: nat)
    | CloseInFront
    | Open(path: Option<string>)
    | OpenLab(lab: string)
    | Discard(yes: bool)
    | Quit
    | Escape
    | Turn(forward: bool)
    | Toast
    | SaveAs
    | SavedAs(which: nat, to: Option<string>)
    | InFront(event: Design.Event)
    | Of(id: nat, event: Design.Event)

  const START := State(Home, [], None, Nothing, 1, [], false)

  /** The first tab of an id: its place, or the number of tabs. */
  function IndexOf(tabs: seq<Tab>, id: nat): (i: nat)
    ensures i <= |tabs|
    ensures i < |tabs| ==> tabs[i].id == id
    ensures forall j :: 0 <= j < i ==> tabs[j].id != id
  {
    if tabs == [] then 0 else if tabs[0].id == id then 0 else 1 + IndexOf(tabs[1..], id)
  }

  predicate Opens(t: Tab, path: string) {
    t.kind.DesignTab? && t.kind.doc.path == Some(path)
  }

  predicate Follows(t: Tab, lab: string) {
    t.kind == LabTab(lab)
  }

  function Find(tabs: seq<Tab>, wanted: Tab -> bool): (i: nat)
    ensures i <= |tabs|
    ensures i < |tabs| ==> wanted(tabs[i])
    ensures forall j :: 0 <= j < i ==> !wanted(tabs[j])
  {
    if tabs == [] then 0 else if wanted(tabs[0]) then 0 else 1 + Find(tabs[1..], wanted)
  }

  predicate EditedTab(t: Tab) {
    t.kind.DesignTab? && t.kind.doc.edited
  }

  predicate AnyEdited(tabs: seq<Tab>) {
    exists i :: 0 <= i < |tabs| && EditedTab(tabs[i])
  }

  function Show(s: State, id: nat): State {
    s.(active := Some(id), route := Workspace)
  }

  function Added(s: State, kind: Kind): State {
    Show(s.(tabs := s.tabs + [Tab(s.nextId, kind)], nextId := s.nextId + 1), s.nextId)
  }

  /** The tab in front, when it is a design. */
  function FrontDesign(s: State): (i: nat)
    ensures i <= |s.tabs|
    ensures i < |s.tabs| ==> s.tabs[i].kind.DesignTab? && s.active == Some(s.tabs[i].id)
  {
    if s.active.None? then |s.tabs|
    else
      var i := IndexOf(s.tabs, s.active.value);
      if i < |s.tabs| && s.tabs[i].kind.DesignTab? then i else |s.tabs|
  }

  function WithDoc(s: State, i: nat, doc: Design.Doc): State
    requires i < |s.tabs|
  {
    s.(tabs := s.tabs[i := Tab(s.tabs[i].id, DesignTab(doc))])
  }

  function CloseNow(s: State, id: nat): State {
    var i := IndexOf(s.tabs, id);
    if i == |s.tabs| then s
    else
      var left := s.tabs[..i] + s.tabs[i + 1..];
      var beside := if i == 0 then 0 else i - 1;
      s.(tabs := left,
         active := if s.active != Some(id) then s.active else if left == [] then None else Some(left[beside].id),
         route := if left == [] then Home else s.route)
  }

  function Close(s: State, id: nat): State {
    var i := IndexOf(s.tabs, id);
    if i < |s.tabs| && EditedTab(s.tabs[i]) then s.(discard := CloseOf(id)) else CloseNow(s, id)
  }

  /** The design's share of a message: what the world can bring it. */
  predicate Possible(s: State, m: Message) {
    match m
    case InFront(e) =>
      && !e.Loaded? && !e.Saved? && !e.Changed? && !e.SavedAs?
    case Of(id, e) =>
      && (e.Loaded? || e.Saved? || e.Changed?)
      && var i := IndexOf(s.tabs, id);
         i < |s.tabs| && s.tabs[i].kind.DesignTab? ==> Design.Possible(s.tabs[i].kind.doc, e)
    case SavedAs(which, _) => which < |s.asking|
    case _ => true
  }

  function Reduce(s: State, m: Message): State
    requires Possible(s, m)
  {
    match m
    case GoHome => s.(route := Home)
    case SelectTab(id) => if IndexOf(s.tabs, id) < |s.tabs| then Show(s, id) else s
    case CloseTab(id) => Close(s, id)
    case CloseInFront => if s.route.Workspace? && s.active.Some? then Close(s, s.active.value) else s
    case Open(path) =>
      var i := if path.Some? then Find(s.tabs, t => Opens(t, path.value)) else |s.tabs|;
      if i < |s.tabs| then Show(s, s.tabs[i].id) else Added(s, DesignTab(Design.Opening(path)))
    case OpenLab(lab) =>
      var i := Find(s.tabs, t => Follows(t, lab));
      if i < |s.tabs| then Show(s, s.tabs[i].id) else Added(s, LabTab(lab))
    case Discard(yes) =>
      var t := s.(discard := Nothing);
      if yes && s.discard.CloseOf? then CloseNow(t, s.discard.id)
      else if yes && s.discard.Quitting? then t.(quit := true)
      else t
    case Quit => if AnyEdited(s.tabs) then s.(discard := Quitting) else s.(quit := true)
    case Escape => s.(discard := Nothing)
    case Turn(forward) =>
      if s.tabs == [] then s
      else
        var n := |s.tabs|;
        var at := if s.active.Some? then IndexOf(s.tabs, s.active.value) else 0;
        var i := if at < n then at else 0;
        var next := if s.route.Home? then i else if forward then (i + 1) % n else (i + n - 1) % n;
        Show(s, s.tabs[next].id)
    case Toast => s.(nextId := s.nextId + 1)
    case SaveAs =>
      var i := FrontDesign(s);
      if i < |s.tabs| then s.(asking := s.asking + [Asking(s.tabs[i].id, s.tabs[i].kind.doc.editor)]) else s
    case SavedAs(which, to) =>
      var t := s.(asking := s.asking[..which] + s.asking[which + 1..]);
      var i := FrontDesign(s);
      if to.None? || i == |s.tabs| then t
      else WithDoc(t, i, Design.Step(s.tabs[i].kind.doc, Design.SavedAs(to.value, s.asking[which].text)))
    case InFront(e) =>
      var i := FrontDesign(s);
      if i < |s.tabs| then WithDoc(s, i, Design.Step(s.tabs[i].kind.doc, e)) else s
    case Of(id, e) =>
      var i := IndexOf(s.tabs, id);
      if i < |s.tabs| && s.tabs[i].kind.DesignTab? then WithDoc(s, i, Design.Step(s.tabs[i].kind.doc, e)) else s
  }

  ghost predicate IsRun(states: seq<State>, ms: seq<Message>) {
    && |states| == |ms| + 1
    && states[0] == START
    && forall k :: 0 <= k < |ms| ==> Possible(states[k], ms[k]) && states[k + 1] == Reduce(states[k], ms[k])
  }

  // ---- what every message keeps

  ghost predicate DistinctIds(s: State) {
    && (forall i, j :: 0 <= i < j < |s.tabs| ==> s.tabs[i].id != s.tabs[j].id)
    && (forall i :: 0 <= i < |s.tabs| ==> s.tabs[i].id < s.nextId)
  }

  ghost predicate OneTabPerLab(s: State) {
    forall i, j :: 0 <= i < j < |s.tabs| && s.tabs[i].kind.LabTab? ==> s.tabs[i].kind != s.tabs[j].kind
  }

  ghost predicate FrontOk(s: State) {
    && (s.active.None? <==> s.tabs == [])
    && (s.active.Some? ==> IndexOf(s.tabs, s.active.value) < |s.tabs|)
    && (s.route.Workspace? ==> s.active.Some?)
  }

  ghost predicate DocsSafe(s: State) {
    forall i :: 0 <= i < |s.tabs| && s.tabs[i].kind.DesignTab? ==> Design.Safe(s.tabs[i].kind.doc)
  }

  ghost predicate Invariant(s: State) {
    DistinctIds(s) && OneTabPerLab(s) && FrontOk(s) && DocsSafe(s)
  }

  lemma Present(tabs: seq<Tab>, i: nat)
    requires i < |tabs|
    ensures IndexOf(tabs, tabs[i].id) < |tabs|
  {
  }

  lemma AddedKeeps(s: State, kind: Kind)
    requires Invariant(s)
    requires kind.LabTab? ==> forall i :: 0 <= i < |s.tabs| ==> s.tabs[i].kind != kind
    requires kind.DesignTab? ==> Design.Safe(kind.doc)
    ensures Invariant(Added(s, kind))
  {
    Present(Added(s, kind).tabs, |s.tabs|);
  }

  lemma ShowKeeps(s: State, i: nat)
    requires Invariant(s) && i < |s.tabs|
    ensures Invariant(Show(s, s.tabs[i].id))
  {
    Present(s.tabs, i);
  }

  /** A tab taken out: the others keep their order. */
  lemma WithoutOne(tabs: seq<Tab>, i: nat, j: nat)
    requires i < |tabs| && j < |tabs| - 1
    ensures var left := tabs[..i] + tabs[i + 1..];
            |left| == |tabs| - 1 && left[j] == tabs[if j < i then j else j + 1]
  {
  }

  lemma CloseNowKeepsTabs(s: State, id: nat)
    requires DistinctIds(s) && OneTabPerLab(s) && DocsSafe(s)
    ensures var t := CloseNow(s, id); DistinctIds(t) && OneTabPerLab(t) && DocsSafe(t)
  {
    var i := IndexOf(s.tabs, id);
    if i < |s.tabs| {
      var t := CloseNow(s, id);
      forall j | 0 <= j < |t.tabs|
        ensures t.tabs[j] == s.tabs[if j < i then j else j + 1]
      {
        WithoutOne(s.tabs, i, j);
      }
    }
  }

  lemma CloseNowKeepsFront(s: State, id: nat)
    requires DistinctIds(s) && FrontOk(s)
    ensures FrontOk(CloseNow(s, id))
  {
    var i := IndexOf(s.tabs, id);
    if i < |s.tabs| {
      var left := CloseNow(s, id).tabs;
      if s.active == Some(id) {
        if left != [] {
          Present(left, if i == 0 then 0 else i - 1);
        }
      } else {
        StillIn(s.tabs, i, s.active.value);
      }
    }
  }

  lemma StillIn(tabs: seq<Tab>, i: nat, id: nat)
    requires i < |tabs| && tabs[i].id != id && IndexOf(tabs, id) < |tabs|
    ensures var left := tabs[..i] + tabs[i + 1..]; left != [] && IndexOf(left, id) < |left|
  {
    var a := IndexOf(tabs, id);
    var j := if a < i then a else a - 1;
    WithoutOne(tabs, i, j);
    Present(tabs[..i] + tabs[i + 1..], j);
  }

  lemma CloseNowKeeps(s: State, id: nat)
    requires Invariant(s)
    ensures Invariant(CloseNow(s, id))
  {
    CloseNowKeepsTabs(s, id);
    CloseNowKeepsFront(s, id);
  }

  lemma SameTabs(s: State, t: State)
    requires Invariant(s) && t.tabs == s.tabs && t.active == s.active && t.route == s.route && t.nextId == s.nextId
    ensures Invariant(t)
  {
  }

  lemma CloseOneKeeps(s: State, id: nat)
    requires Invariant(s)
    ensures Invariant(Close(s, id))
  {
    if Close(s, id) == CloseNow(s, id) {
      CloseNowKeeps(s, id);
    } else {
      SameTabs(s, Close(s, id));
    }
  }

  lemma DiscardKeeps(s: State, yes: bool)
    requires Invariant(s)
    ensures Invariant(Reduce(s, Discard(yes)))
  {
    var t := s.(discard := Nothing);
    SameTabs(s, t);
    if yes && s.discard.CloseOf? {
      CloseNowKeeps(t, s.discard.id);
    } else {
      SameTabs(s, Reduce(s, Discard(yes)));
    }
  }

  lemma OpenKeeps(s: State, m: Message)
    requires Invariant(s) && (m.Open? || m.OpenLab?)
    ensures Invariant(Reduce(s, m))
  {
    if m.OpenLab? {
      var i := Find(s.tabs, t => Follows(t, m.lab));
      if i < |s.tabs| {
        ShowKeeps(s, i);
      } else {
        AddedKeeps(s, LabTab(m.lab));
      }
    } else {
      var i := if m.path.Some? then Find(s.tabs, t => Opens(t, m.path.value)) else |s.tabs|;
      if i < |s.tabs| {
        ShowKeeps(s, i);
      } else {
        OpeningIsSafe(m.path);
        AddedKeeps(s, DesignTab(Design.Opening(m.path)));
      }
    }
  }

  lemma TurnKeeps(s: State, m: Message)
    requires Invariant(s) && (m.SelectTab? || m.Turn?)
    ensures Invariant(Reduce(s, m))
  {
    var t := Reduce(s, m);
    if m.SelectTab? {
      var i := IndexOf(s.tabs, m.id);
      if i < |s.tabs| {
        ShowKeeps(s, i);
      }
    } else if s.tabs != [] {
      var k :| 0 <= k < |s.tabs| && t.active == Some(s.tabs[k].id);
      ShowKeeps(s, k);
    }
  }

  lemma WithDocKeeps(s: State, i: nat, doc: Design.Doc)
    requires Invariant(s) && i < |s.tabs| && s.tabs[i].kind.DesignTab? && Design.Safe(doc)
    ensures Invariant(WithDoc(s, i, doc))
  {
    var t := WithDoc(s, i, doc);
    Present(t.tabs, IndexOf(s.tabs, s.active.value));
  }

  lemma OpeningIsSafe(path: Option<string>)
    ensures Design.Safe(Design.Opening(path))
  {
  }

  lemma DesignKeeps(s: State, m: Message)
    requires Invariant(s) && Possible(s, m) && (m.InFront? || m.Of? || m.SavedAs?)
    ensures Invariant(Reduce(s, m))
  {
    var i := if m.Of? then IndexOf(s.tabs, m.id) else FrontDesign(s);
    var t := if m.SavedAs? then s.(asking := s.asking[..m.which] + s.asking[m.which + 1..]) else s;
    if i < |s.tabs| && s.tabs[i].kind.DesignTab? && !(m.SavedAs? && m.to.None?) {
      var e := if m.SavedAs? then Design.SavedAs(m.to.value, s.asking[m.which].text) else m.event;
      Design.StepIsSafe(s.tabs[i].kind.doc, e);
      WithDocKeeps(t, i, Design.Step(s.tabs[i].kind.doc, e));
    }
  }

  lemma StepKeepsInvariant(s: State, m: Message)
    requires Invariant(s) && Possible(s, m)
    ensures Invariant(Reduce(s, m))
  {
    if m.SelectTab? || m.Turn? {
      TurnKeeps(s, m);
    } else if m.CloseTab? {
      CloseOneKeeps(s, m.id);
    } else if m.CloseInFront? {
      if s.active.Some? {
        CloseOneKeeps(s, s.active.value);
      }
    } else if m.Discard? {
      DiscardKeeps(s, m.yes);
    } else if m.Open? || m.OpenLab? {
      OpenKeeps(s, m);
    } else if m.InFront? || m.Of? || m.SavedAs? {
      DesignKeeps(s, m);
    }
  }

  lemma {:induction false} RunKeepsInvariant(states: seq<State>, ms: seq<Message>)
    requires IsRun(states, ms)
    ensures forall k :: 0 <= k < |states| ==> Invariant(states[k])
  {
    var n := |ms|;
    if n > 0 {
      RunKeepsInvariant(states[..n], ms[..n - 1]);
      assert forall k :: 0 <= k < n ==> states[..n][k] == states[k];
      StepKeepsInvariant(states[n - 1], ms[n - 1]);
    }
  }

  /**
   In every run: tab ids are distinct and below the next one, a lab is followed in one
   tab at most, a tab is in front exactly when there is one, and the workspace shows
   only then.
   */
  lemma TabsAreConsistent(states: seq<State>, ms: seq<Message>)
    requires IsRun(states, ms)
    ensures var s := states[|ms|];
            && DistinctIds(s) && OneTabPerLab(s)
            && (s.tabs != [] <==> s.active.Some?)
            && (s.active.Some? ==> exists i :: 0 <= i < |s.tabs| && s.tabs[i].id == s.active.value)
            && (s.route.Workspace? ==> s.active.Some?)
  {
    RunKeepsInvariant(states, ms);
    var s := states[|ms|];
    assert Invariant(s);
    if s.active.Some? {
      assert s.tabs[IndexOf(s.tabs, s.active.value)].id == s.active.value;
    }
  }

  // ---- nothing edited goes without asking

  ghost predicate Has(s: State, id: nat) {
    exists i :: 0 <= i < |s.tabs| && s.tabs[i].id == id
  }

  lemma CloseNowLeavesOthers(s: State, id: nat, other: nat)
    requires Has(s, other) && other != id
    ensures Has(CloseNow(s, id), other)
  {
    var i := IndexOf(s.tabs, id);
    if i < |s.tabs| {
      var j :| 0 <= j < |s.tabs| && s.tabs[j].id == other;
      var k := if j < i then j else j - 1;
      WithoutOne(s.tabs, i, k);
      assert CloseNow(s, id).tabs[k].id == other;
    }
  }

  lemma CloseLeavesEdited(s: State, id: nat, i: nat)
    requires DistinctIds(s) && i < |s.tabs| && EditedTab(s.tabs[i])
    ensures Has(Close(s, id), s.tabs[i].id)
  {
    assert Has(s, s.tabs[i].id);
    if id == s.tabs[i].id {
      assert IndexOf(s.tabs, id) == i;
    } else {
      CloseNowLeavesOthers(s, id, s.tabs[i].id);
    }
  }

  lemma StillThere(s: State, t: State, i: nat)
    requires i < |s.tabs| <= |t.tabs|
    requires forall j :: 0 <= j < |s.tabs| ==> t.tabs[j].id == s.tabs[j].id
    ensures Has(t, s.tabs[i].id)
  {
    assert t.tabs[i].id == s.tabs[i].id;
  }

  /** A tab with unsaved edits goes only when the user was asked about it and said yes. */
  lemma EditedTabStays(s: State, m: Message, i: nat)
    requires Invariant(s) && Possible(s, m) && i < |s.tabs| && EditedTab(s.tabs[i])
    requires !(m == Discard(true) && s.discard == CloseOf(s.tabs[i].id))
    ensures Has(Reduce(s, m), s.tabs[i].id)
  {
    assert Has(s, s.tabs[i].id);
    if m.CloseTab? {
      CloseLeavesEdited(s, m.id, i);
    } else if m.CloseInFront? && s.active.Some? {
      CloseLeavesEdited(s, s.active.value, i);
    } else if m.Discard? && m.yes && s.discard.CloseOf? {
      var t := s.(discard := Nothing);
      StillThere(s, t, i);
      CloseNowLeavesOthers(t, s.discard.id, s.tabs[i].id);
    } else if !m.CloseInFront? {
      NoneGoes(s, m, i);
    }
  }

  /** Messages that close nothing. */
  lemma NoneGoes(s: State, m: Message, i: nat)
    requires Possible(s, m) && i < |s.tabs| && !m.CloseTab? && !m.CloseInFront?
    requires !(m.Discard? && m.yes && s.discard.CloseOf?)
    ensures Has(Reduce(s, m), s.tabs[i].id)
  {
    StillThere(s, Reduce(s, m), i);
  }

  /**
   In every run, an edited design disappears, or the app quits with one open, only in
   the step that says yes to the question asked about exactly that.
   */
  lemma NothingEditedGoesUnasked(states: seq<State>, ms: seq<Message>, k: nat)
    requires IsRun(states, ms) && k < |ms|
    ensures forall i :: 0 <= i < |states[k].tabs| && EditedTab(states[k].tabs[i]) &&
                        !Has(states[k + 1], states[k].tabs[i].id) ==>
              ms[k] == Discard(true) && states[k].discard == CloseOf(states[k].tabs[i].id)
    ensures !states[k].quit && states[k + 1].quit && AnyEdited(states[k].tabs) ==>
              ms[k] == Discard(true) && states[k].discard == Quitting
  {
    RunKeepsInvariant(states, ms);
    var s := states[k];
    assert Invariant(s);
    forall i | 0 <= i < |s.tabs| && EditedTab(s.tabs[i])
      ensures Has(states[k + 1], s.tabs[i].id) || (ms[k] == Discard(true) && s.discard == CloseOf(s.tabs[i].id))
    {
      if !(ms[k] == Discard(true) && s.discard == CloseOf(s.tabs[i].id)) {
        EditedTabStays(s, ms[k], i);
      }
    }
  }

  lemma FrontIs(s: State, i: nat)
    requires DistinctIds(s) && i < |s.tabs|
    ensures IndexOf(s.tabs, s.tabs[i].id) == i
  {
  }

  /**
   The answer to a save-as goes to whichever design is in front when it comes, also
   when it was asked for in another one: that design's `edited` flag is cleared and the
   text written is what it shows next, and nothing asked.
   */
  lemma SavedAsTakesTheTabInFront(s: State, which: nat, to: string, i: nat)
    requires Invariant(s) && which < |s.asking|
    requires i < |s.tabs| && EditedTab(s.tabs[i])
    requires s.active == Some(s.tabs[i].id) && s.asking[which].tab != s.tabs[i].id
    ensures var t := Reduce(s, SavedAs(which, Some(to)));
            && t.tabs == s.tabs[i := t.tabs[i]] && !EditedTab(t.tabs[i])
            && t.tabs[i].kind == DesignTab(Design.Step(s.tabs[i].kind.doc, Design.SavedAs(to, s.asking[which].text)))
  {
    FrontIs(s, i);
    assert FrontDesign(s) == i;
  }

  /** The save-as answered by `which` reaches the design it was asked in, or none. */
  predicate ReachesItsTab(s: State, which: nat) {
    FrontDesign(s) == |s.tabs| || (which < |s.asking| && s.tabs[FrontDesign(s)].id == s.asking[which].tab)
  }

  /**
   A save-as that worked changes no tab but the one it was asked in if and only if, when
   its answer comes, that design is in front or no design is; and the design it was asked
   in loses its `edited` flag by it if and only if it is the one in front.
   */
  lemma SavedAsReachesItsTabIff(s: State, which: nat, to: string)
    requires Invariant(s) && which < |s.asking|
    ensures var t := Reduce(s, SavedAs(which, Some(to)));
            && |t.tabs| == |s.tabs|
            && ((forall j :: 0 <= j < |s.tabs| && s.tabs[j].id != s.asking[which].tab ==> t.tabs[j] == s.tabs[j]) <==>
                ReachesItsTab(s, which))
            && (forall j :: 0 <= j < |s.tabs| && s.tabs[j].id == s.asking[which].tab && EditedTab(s.tabs[j]) ==>
                  (!EditedTab(t.tabs[j]) <==> s.active == Some(s.asking[which].tab)))
  {
    var t := Reduce(s, SavedAs(which, Some(to)));
    var i := FrontDesign(s);
    if i < |s.tabs| {
      assert t.tabs[i].kind.doc.generation == s.tabs[i].kind.doc.generation + 1;
    }
    forall j | 0 <= j < |s.tabs| && s.tabs[j].id == s.asking[which].tab && EditedTab(s.tabs[j])
      ensures !EditedTab(t.tabs[j]) <==> s.active == Some(s.asking[which].tab)
    {
      FrontIs(s, j);
    }
  }

  /** So in every run. */
  lemma SaveAsAnswers(states: seq<State>, ms: seq<Message>, k: nat)
    requires IsRun(states, ms) && k < |ms| && ms[k].SavedAs? && ms[k].to.Some?
    ensures var s, t, asked := states[k], states[k + 1], states[k].asking[ms[k].which].tab;
            && |t.tabs| == |s.tabs|
            && ((forall j :: 0 <= j < |s.tabs| && s.tabs[j].id != asked ==> t.tabs[j] == s.tabs[j]) <==>
                ReachesItsTab(s, ms[k].which))
            && (forall j :: 0 <= j < |s.tabs| && s.tabs[j].id == asked && EditedTab(s.tabs[j]) ==>
                  (!EditedTab(t.tabs[j]) <==> s.active == Some(asked)))
  {
    RunKeepsInvariant(states, ms);
    assert Invariant(states[k]);
    SavedAsReachesItsTabIff(states[k], ms[k].which, ms[k].to.value);
  }

  // ---- what the steps mean

  /** Closing takes the tab of an id out, and no other. */
  lemma CloseTakesOne(s: State, id: nat)
    requires DistinctIds(s)
    ensures !Has(CloseNow(s, id), id)
    ensures forall other: nat :: other != id ==> (Has(s, other) <==> Has(CloseNow(s, id), other))
  {
    var i, t := IndexOf(s.tabs, id), CloseNow(s, id);
    if i < |s.tabs| {
      forall j | 0 <= j < |t.tabs|
        ensures t.tabs[j].id != id && Has(s, t.tabs[j].id)
      {
        WithoutOne(s.tabs, i, j);
        assert t.tabs[j] == s.tabs[if j < i then j else j + 1];
      }
      forall other: nat | other != id && Has(s, other)
        ensures Has(t, other)
      {
        CloseNowLeavesOthers(s, id, other);
      }
    }
  }

  /** A tab there is shown, and nothing else changes. */
  lemma SelectMeans(s: State, id: nat)
    ensures var t := Reduce(s, SelectTab(id));
            if Has(s, id) then t == s.(active := Some(id), route := Workspace) else t == s
  {
    if Has(s, id) {
      var i :| 0 <= i < |s.tabs| && s.tabs[i].id == id;
      Present(s.tabs, i);
    }
  }

  /** Closing a tab with edits asks about it and closes nothing; any other goes at once and nothing is asked. */
  lemma CloseMeans(s: State, i: nat)
    requires Invariant(s) && i < |s.tabs|
    ensures var t := Reduce(s, CloseTab(s.tabs[i].id));
            if EditedTab(s.tabs[i]) then t == s.(discard := CloseOf(s.tabs[i].id))
            else !Has(t, s.tabs[i].id) && t.discard == s.discard
  {
    FrontIs(s, i);
    CloseTakesOne(s, s.tabs[i].id);
  }

  /** When the tab in front goes, the one to its left comes, or the first; when the last goes, home shows. */
  lemma CloseShowsBeside(s: State, i: nat)
    requires Invariant(s) && i < |s.tabs|
    ensures var t := CloseNow(s, s.tabs[i].id);
            && |t.tabs| == |s.tabs| - 1
            && (t.tabs == [] ==> t.active.None? && t.route == Home)
            && (t.tabs != [] ==> t.route == s.route)
            && (s.active != Some(s.tabs[i].id) ==> t.active == s.active)
            && (s.active == Some(s.tabs[i].id) && t.tabs != [] ==>
                  t.active == Some(s.tabs[if i > 0 then i - 1 else 1].id))
  {
    FrontIs(s, i);
  }

  /** Home keeps the tab in front, an escape drops the question, and neither touches a tab; a toast takes an id. */
  lemma KeysMean(s: State)
    ensures Reduce(s, GoHome).route == Home && Reduce(s, GoHome) == s.(route := Home)
    ensures Reduce(s, Escape).discard == Nothing && Reduce(s, Escape) == s.(discard := Nothing)
    ensures Reduce(s, Toast) == s.(nextId := s.nextId + 1)
    ensures Invariant(s) && s.route.Workspace? ==> Reduce(s, CloseInFront) == Reduce(s, CloseTab(s.active.value))
    ensures s.route.Home? ==> Reduce(s, CloseInFront) == s
  {
  }

  /** Quitting asks if and only if something is edited, and otherwise quits. */
  lemma QuitMeans(s: State)
    ensures var t := Reduce(s, Quit);
            if AnyEdited(s.tabs) then t == s.(discard := Quitting) else t == s.(quit := true)
  {
  }

  /** What a design is told goes to it, and what is typed to the one in front; every other tab stays as it is. */
  lemma DesignMeans(s: State, i: nat, e: Design.Event)
    requires Invariant(s) && i < |s.tabs| && s.tabs[i].kind.DesignTab? && Design.Possible(s.tabs[i].kind.doc, e)
    ensures Possible(s, Of(s.tabs[i].id, e)) ==>
              Reduce(s, Of(s.tabs[i].id, e)).tabs ==
              s.tabs[i := Tab(s.tabs[i].id, DesignTab(Design.Step(s.tabs[i].kind.doc, e)))]
    ensures Possible(s, InFront(e)) && s.active == Some(s.tabs[i].id) ==>
              Reduce(s, InFront(e)).tabs ==
              s.tabs[i := Tab(s.tabs[i].id, DesignTab(Design.Step(s.tabs[i].kind.doc, e)))]
  {
    FrontIs(s, i);
  }

  /** A save-as asked for holds the text of the design in front, under its id. */
  lemma SaveAsMeans(s: State, i: nat)
    requires Invariant(s) && i < |s.tabs| && s.tabs[i].kind.DesignTab? && s.active == Some(s.tabs[i].id)
    ensures Reduce(s, SaveAs) ==
            s.(asking := s.asking + [Asking(s.tabs[i].id, s.tabs[i].kind.doc.editor)])
  {
    FrontIs(s, i);
  }

  /** An answer to a save-as settles that one, and no other; one that was called off changes no tab. */
  lemma AnsweredMeans(s: State, which: nat, to: Option<string>)
    requires which < |s.asking|
    ensures var t := Reduce(s, SavedAs(which, to));
            && |t.asking| == |s.asking| - 1
            && (forall j :: 0 <= j < |t.asking| ==> t.asking[j] == s.asking[if j < which then j else j + 1])
            && (to.None? ==> t.tabs == s.tabs)
            && t.active == s.active && t.route == s.route && t.discard == s.discard && t.quit == s.quit
  {
  }

  /** An answer takes a tab out exactly when it is a yes about that tab, and quits exactly when it is one about that. */
  lemma AnswerMeans(s: State, yes: bool)
    requires Invariant(s)
    ensures var t := Reduce(s, Discard(yes));
            && t.discard == Nothing
            && (forall id: nat :: Has(s, id) ==> (!Has(t, id) <==> yes && s.discard == CloseOf(id)))
            && (t.quit <==> s.quit || (yes && s.discard == Quitting))
  {
    var t, asked := Reduce(s, Discard(yes)), s.(discard := Nothing);
    assert forall id: nat :: Has(s, id) <==> Has(asked, id);
    if yes && s.discard.CloseOf? {
      CloseTakesOne(asked, s.discard.id);
    } else {
      assert forall id: nat :: Has(s, id) <==> Has(t, id);
    }
  }

  /** The lab is followed in front, in its one tab; no tab went, and one came exactly when it was not followed. */
  lemma OpenLabMeans(s: State, lab: string)
    requires Invariant(s)
    ensures var t := Reduce(s, OpenLab(lab));
            && s.tabs <= t.tabs && t.route == Workspace
            && (|t.tabs| == |s.tabs| + 1 <==> forall i :: 0 <= i < |s.tabs| ==> !Follows(s.tabs[i], lab))
            && (|t.tabs| == |s.tabs| + 1 ==> t.tabs[|s.tabs|].id == s.nextId && t.nextId == s.nextId + 1)
            && exists i :: 0 <= i < |t.tabs| && Follows(t.tabs[i], lab) && t.active == Some(t.tabs[i].id)
  {
    var t, i := Reduce(s, OpenLab(lab)), Find(s.tabs, t => Follows(t, lab));
    assert Follows(t.tabs[i], lab) && t.active == Some(t.tabs[i].id);
  }

  /** The file is open in front; no tab went, and one came exactly when no tab had the file. */
  lemma OpenMeans(s: State, path: Option<string>)
    requires Invariant(s)
    ensures var t := Reduce(s, Open(path));
            && s.tabs <= t.tabs && t.route == Workspace
            && (|t.tabs| == |s.tabs| + 1 <==>
                path.None? || forall i :: 0 <= i < |s.tabs| ==> !Opens(s.tabs[i], path.value))
            && (|t.tabs| == |s.tabs| + 1 ==> t.tabs[|s.tabs|].id == s.nextId && t.nextId == s.nextId + 1)
            && FrontDesign(t) < |t.tabs| && t.tabs[FrontDesign(t)].kind.doc.path == path
  {
    var t := Reduce(s, Open(path));
    var i := if path.Some? then Find(s.tabs, t => Opens(t, path.value)) else |s.tabs|;
    OpenKeeps(s, Open(path));
    FrontIs(t, i);
  }

  /** The tab beside the one in front, going round. */
  function Beside(i: nat, n: nat, forward: bool): (j: nat)
    requires i < n
    ensures j < n
  {
    if forward then if i + 1 < n then i + 1 else 0 else if i > 0 then i - 1 else n - 1
  }

  /** From home a turn shows the tab that was in front, in the workspace the one beside it. */
  lemma TurnMeans(s: State, forward: bool)
    requires Invariant(s) && s.tabs != []
    ensures var at := IndexOf(s.tabs, s.active.value);
            Reduce(s, Turn(forward)) ==
            Show(s, s.tabs[if s.route.Home? then at else Beside(at, |s.tabs|, forward)].id)
  {
    GoingRound(IndexOf(s.tabs, s.active.value), |s.tabs|);
  }

  lemma GoingRound(i: nat, n: nat)
    requires i < n
    ensures (i + 1) % n == Beside(i, n, true) && (i + n - 1) % n == Beside(i, n, false)
  {
    if i + 1 < n {
      OnceRound(i + 1, n, 0);
    } else {
      OnceRound(i + 1, n, 1);
    }
    if i > 0 {
      OnceRound(i + n - 1, n, 1);
    } else {
      OnceRound(i + n - 1, n, 0);
    }
  }

  lemma OnceRound(x: nat, n: nat, q: nat)
    requires q <= 1 && q * n <= x < q * n + n
    ensures x % n == x - q * n
  {
    var k, r := x / n, x % n;
    assert x == k * n + r && 0 <= r < n;
    assert k > q ==> k * n >= (q + 1) * n;
    assert k < q ==> (k + 1) * n <= q * n;
  }

  /** In the workspace, a turn the other way undoes a turn. */
  lemma TurningBack(s: State, forward: bool)
    requires Invariant(s) && s.route.Workspace?
    ensures Reduce(Reduce(s, Turn(forward)), Turn(!forward)) == s
  {
    var n, i := |s.tabs|, IndexOf(s.tabs, s.active.value);
    var j := Beside(i, n, forward);
    TurnMeans(s, forward);
    TurnKeeps(s, Turn(forward));
    var t := Show(s, s.tabs[j].id);
    FrontIs(t, j);
    TurnMeans(t, !forward);
    assert Beside(j, n, !forward) == i;
  }

  /** Everything edited in `s` is still there in `t`, but for the tab `but`. */
  ghost predicate EditedStay(s: State, t: State, but: Option<nat>) {
    forall i :: 0 <= i < |s.tabs| && EditedTab(s.tabs[i]) && but != Some(s.tabs[i].id) ==> Has(t, s.tabs[i].id)
  }

  function AskedAbout(p: Pending): Option<nat> {
    if p.CloseOf? then Some(p.id) else None
  }

  lemma StepsSpareEdited(s: State, m: Message)
    requires Invariant(s) && Possible(s, m)
    ensures EditedStay(s, Reduce(s, m), if m == Discard(true) then AskedAbout(s.discard) else None)
  {
    forall i | 0 <= i < |s.tabs| && EditedTab(s.tabs[i])
      && !(m == Discard(true) && AskedAbout(s.discard) == Some(s.tabs[i].id))
      ensures Has(Reduce(s, m), s.tabs[i].id)
    {
      EditedTabStays(s, m, i);
    }
  }

  // ---- the code

  class Tabs {
    var route: Route
    var tabs: seq<Tab>
    var active: Option<nat>
    var discard: Pending
    var nextId: nat
    var asking: seq<Asking>
    var quit: bool

    ghost function Now(): State
      reads this
    {
      State(route, tabs, active, discard, nextId, asking, quit)
    }

    ghost predicate Valid()
      reads this
    {
      Invariant(Now())
    }

    constructor ()
      ensures Valid() && Now() == START
    {
      route, tabs, active, discard, nextId, asking, quit := Home, [], None, Nothing, 1, [], false;
    }

    /**
     A message, taken in place: a step of the model. Tabs stay consistent and designs safe;
     everything edited stays, but for a tab whose discarding is what was just agreed to; and
     with something edited the app quits only if quitting is.
     */
    method Take(m: Message)
      requires Valid() && Possible(Now(), m)
      modifies this
      ensures Valid() && Now() == Reduce(old(Now()), m)
      ensures EditedStay(old(Now()), Now(), if m == Discard(true) then AskedAbout(old(discard)) else None)
      ensures quit && !old(quit) && AnyEdited(old(tabs)) ==> m == Discard(true) && old(discard) == Quitting
    {
      StepKeepsInvariant(Now(), m);
      StepsSpareEdited(Now(), m);
      TakeAny(m);
    }

    method TakeAny(m: Message)
      requires Possible(Now(), m)
      modifies this
      ensures Now() == Reduce(old(Now()), m)
    {
      match m
      case GoHome => route := Home;
      case SelectTab(id) => Select(id);
      case CloseTab(id) => Ask(id);
      case CloseInFront =>
        if route.Workspace? && active.Some? {
          Ask(active.value);
        }
      case Open(path) => OpenDesign(path);
      case OpenLab(lab) => OpenLabTab(lab);
      case Discard(yes) => Answer(yes);
      case Quit => TryQuit();
      case Escape => discard := Nothing;
      case Turn(forward) => TurnTo(forward);
      case Toast => nextId := nextId + 1;
      case SaveAs => AskWhere();
      case SavedAs(which, to) => Written(which, to);
      case InFront(e) =>
        var i := PositionOfFront();
        StepDesign(i, e);
      case Of(id, e) =>
        var i := PositionOf(id);
        StepDesign(i, e);
    }

    /** The place of the first tab wanted, or the number of tabs. */
    method Position(wanted: Tab -> bool) returns (i: nat)
      ensures i == Find(tabs, wanted)
    {
      i := 0;
      while i < |tabs| && !wanted(tabs[i])
        invariant i <= |tabs| && Find(tabs, wanted) == i + Find(tabs[i..], wanted)
      {
        assert tabs[i..][1..] == tabs[i + 1..];
        i := i + 1;
      }
    }

    method PositionOf(id: nat) returns (i: nat)
      ensures i == IndexOf(tabs, id)
    {
      i := 0;
      while i < |tabs| && tabs[i].id != id
        invariant i <= |tabs| && IndexOf(tabs, id) == i + IndexOf(tabs[i..], id)
      {
        assert tabs[i..][1..] == tabs[i + 1..];
        i := i + 1;
      }
    }

    method PositionOfFront() returns (i: nat)
      ensures i == FrontDesign(Now())
    {
      i := |tabs|;
      if active.Some? {
        i := PositionOf(active.value);
        if i < |tabs| && !tabs[i].kind.DesignTab? {
          i := |tabs|;
        }
      }
    }

    method Front(id: nat)
      modifies this`active, this`route
      ensures Now() == Show(old(Now()), id)
    {
      active := Some(id);
      route := Workspace;
    }

    method Select(id: nat)
      modifies this`active, this`route
      ensures Now() == Reduce(old(Now()), SelectTab(id))
    {
      var i := PositionOf(id);
      if i < |tabs| {
        Front(id);
      }
    }

    method Push(kind: Kind)
      modifies this
      ensures Now() == Added(old(Now()), kind)
    {
      var id := nextId;
      nextId := nextId + 1;
      tabs := tabs + [Tab(id, kind)];
      Front(id);
    }

    method CloseTabNow(id: nat)
      modifies this`tabs, this`active, this`route
      ensures Now() == CloseNow(old(Now()), id)
    {
      var i := PositionOf(id);
      if i == |tabs| {
        return;
      }
      tabs := tabs[..i] + tabs[i + 1..];
      if active == Some(id) {
        var beside := if i == 0 then 0 else i - 1;
        active := if beside < |tabs| then Some(tabs[beside].id) else None;
      }
      if tabs == [] {
        route := Home;
      }
    }

    method Ask(id: nat)
      modifies this`tabs, this`active, this`route, this`discard
      ensures Now() == Close(old(Now()), id)
    {
      var i := PositionOf(id);
      if i < |tabs| && EditedTab(tabs[i]) {
        discard := CloseOf(id);
      } else {
        CloseTabNow(id);
      }
    }

    method OpenLabTab(lab: string)
      modifies this
      ensures Now() == Reduce(old(Now()), OpenLab(lab))
    {
      var i := Position(t => Follows(t, lab));
      if i < |tabs| {
        Front(tabs[i].id);
      } else {
        Push(LabTab(lab));
      }
    }

    method OpenDesign(path: Option<string>)
      modifies this
      ensures Now() == Reduce(old(Now()), Open(path))
    {
      var i := |tabs|;
      if path.Some? {
        i := Position(t => Opens(t, path.value));
      }
      if i < |tabs| {
        Front(tabs[i].id);
      } else {
        Push(DesignTab(Design.Opening(path)));
      }
    }

    method Answer(yes: bool)
      modifies this
      ensures Now() == Reduce(old(Now()), Discard(yes))
    {
      var asked := discard;
      discard := Nothing;
      if yes && asked.CloseOf? {
        CloseTabNow(asked.id);
      } else if yes && asked.Quitting? {
        quit := true;
      }
    }

    method TryQuit()
      modifies this`discard, this`quit
      ensures Now() == Reduce(old(Now()), Quit)
    {
      var i := Position(t => EditedTab(t));
      if i < |tabs| {
        discard := Quitting;
      } else {
        quit := true;
      }
    }

    method TurnTo(forward: bool)
      modifies this`active, this`route
      ensures Now() == Reduce(old(Now()), Turn(forward))
    {
      if tabs == [] {
        return;
      }
      var n, i := |tabs|, 0;
      if active.Some? {
        i := PositionOf(active.value);
        i := if i < n then i else 0;
      }
      var next := if route.Home? then i else if forward then (i + 1) % n else (i + n - 1) % n;
      Front(tabs[next].id);
    }

    method AskWhere()
      modifies this`asking
      ensures Now() == Reduce(old(Now()), SaveAs)
    {
      var i := PositionOfFront();
      if i < |tabs| {
        asking := asking + [Asking(tabs[i].id, tabs[i].kind.doc.editor)];
      }
    }

    method Written(which: nat, to: Option<string>)
      requires which < |asking|
      modifies this
      ensures Now() == Reduce(old(Now()), SavedAs(which, to))
    {
      var text := asking[which].text;
      var i := PositionOfFront();
      asking := asking[..which] + asking[which + 1..];
      if to.Some? {
        StepDesign(i, Design.SavedAs(to.value, text));
      }
    }

    method StepDesign(i: nat, e: Design.Event)
      requires i < |tabs| && tabs[i].kind.DesignTab? ==> Design.Possible(tabs[i].kind.doc, e)
      modifies this`tabs
      ensures i < |old(tabs)| && old(tabs)[i].kind.DesignTab? ==>
                Now() == WithDoc(old(Now()), i, Design.Step(old(tabs)[i].kind.doc, e))
      ensures !(i < |old(tabs)| && old(tabs)[i].kind.DesignTab?) ==> Now() == old(Now())
      ensures |tabs| == |old(tabs)|
    {
      if i < |tabs| && tabs[i].kind.DesignTab? {
        tabs := tabs[i := Tab(tabs[i].id, DesignTab(Design.Step(tabs[i].kind.doc, e)))];
      }
    }
  }
}
