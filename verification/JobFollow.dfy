/**
 An operation and who follows it (`Job` and `follow` of
 `bins/nlink-labd/src/jobs.rs`, `CallHandle::leave` of
 `bins/nlink-labd/src/server.rs`): every event is kept for replay and broadcast
 under one lock, a follower gets the log so far and then the live events, and the
 job ends with one result.
 */
module JobFollow {
  import opened Prelude

  /** The most events in a job's log. */
  const REPLAY := 10_000
  /** Events the broadcast channel holds for a receiver that is behind. */
  const CAPACITY := 1024

  datatype OpState = Queued | Running | Succeeded | Failed | Cancelled | RolledBack
  datatype Phase = QueuedAt(position: nat) | Begun | Ended(state: OpState) | Other
  datatype Event = Event(phase: Phase, detail: string)
  datatype Result = Ok(response: string) | Err(cancelled: bool, message: string)

  function Kept(history: seq<Event>): seq<Event> {
    history[..Min(|history|, REPLAY)]
  }

  // ---- the job

  /** The state an `Ended` event said last, if any did. */
  function Said(history: seq<Event>): Option<OpState> {
    if history == [] then None
    else if history[|history| - 1].phase.Ended? then Some(history[|history| - 1].phase.state)
    else Said(history[..|history| - 1])
  }

  lemma KeptMore(history: seq<Event>, e: Event)
    ensures Kept(history + [e]) == if |Kept(history)| < REPLAY then Kept(history) + [e] else Kept(history)
    ensures Said(history + [e]) == if e.phase.Ended? then Some(e.phase.state) else Said(history)
  {
    assert (history + [e])[..|history|] == history;
  }

  class Job {
    ghost var history: seq<Event>
    var state: OpState
    var outcome: Option<OpState>
    var log: seq<Event>
    var result: Option<Result>
    var done: bool

    /** The log is the history up to its bound; a job that is done has a result. */
    ghost predicate Valid()
      reads this
    {
      log == Kept(history) && outcome == Said(history) && (done ==> result.Some?)
    }

    constructor ()
      ensures Valid() && history == [] && result.None? && !done && state == Running
    {
      history, state, outcome, log, result, done := [], Running, None, [], None, false;
    }

    /** One more event of the history: in the log while there is room, and in the state if its phase says one. */
    method Record(e: Event)
      requires Valid()
      modifies this
      ensures Valid() && history == old(history) + [e]
      ensures result == old(result) && done == old(done)
      ensures state == if e.phase.QueuedAt? then Queued else if e.phase.Begun? then Running else old(state)
    {
      match e.phase {
        case QueuedAt(_) => state := Queued;
        case Begun => state := Running;
        case Ended(s) => outcome := Some(s);
        case Other =>
      }
      if |log| < REPLAY {
        log := log + [e];
      }
      KeptMore(history, e);
      history := history + [e];
    }

    /** The end: the result stored, then said. What an event said of the end wins over the result. */
    method Finish(r: Result)
      requires Valid()
      modifies this`state, this`result, this`done
      ensures Valid() && done && result == Some(r)
      ensures match Said(history)
              case Some(s) => state == s
              case None => state == match r case Ok(_) => Succeeded case Err(c, _) => if c then Cancelled else Failed
    {
      match (r, outcome) {
        case (_, Some(s)) => state := s;
        case (Ok(_), None) => state := Succeeded;
        case (Err(c, _), None) => state := if c then Cancelled else Failed;
      }
      result := Some(r);
      done := true;
    }
  }

  // ---- every interleaving of the job, its followers and their clients

  datatype Item = Started | Op(e: Event) | Lagged(n: nat)
  datatype Return = Detached | Own(r: Result) | NoResult

  /**
   Where a `follow` is. Its `select!` looks in a fixed order: at the channel (`Polling`);
   finding it empty, at the job's end (`Checked`); the end not said, at the detach token
   (`NotDone`); not detached, at the cancel token (`NotDetached`).
   */
  datatype At =
    | Fresh
    | Replaying(k: nat)
    | Polling
    | Checked
    | NotDone
    | NotDetached
    | Draining
    | Left(with: Return, at: nat)

  /**
   A call that follows the job: what its client does when it leaves, its cancel and
   detach tokens, the log it copied when `base` events existed, the next event its
   receiver has, and what it was sent.
   */
  datatype Follower = Follower(
    onLeave: OnLeave,
    cancel: bool,
    detached: bool,
    cancelling: bool,
    at: At,
    copied: seq<Event>,
    base: nat,
    next: nat,
    sent: seq<Item>)

  datatype World = World(
    listed: bool,
    history: seq<Event>,
    log: seq<Event>,
    result: Option<Result>,
    done: bool,
    cancelled: bool,
    followers: seq<Follower>)

  datatype Step =
    | Record(e: Event)
    | Store(r: Result)
    | SayDone
    | Join(onLeave: OnLeave)
    | Subscribe(f: nat)
    | Replay(f: nat)
    | EndReplay(f: nat)
    | Receive(f: nat)
    | SeeEmpty(f: nat)
    | SeeDone(f: nat)
    | SeeNotDone(f: nat)
    | SeeDetached(f: nat)
    | SeeNotDetached(f: nat)
    | SeeCancel(f: nat)
    | Wait(f: nat)
    | Drain(f: nat)
    | EndDrain(f: nat)
    | AskCancel(f: nat)
    | Leave(f: nat)
    | CancelOp

  function Start(listed: bool): World {
    World(listed, [], [], None, false, false, [])
  }

  function Head(w: World): seq<Item> {
    if w.listed then [Started] else []
  }

  function Behind(w: World, x: Follower): int {
    |w.history| - x.next
  }

  predicate Has(w: World, f: nat) {
    f < |w.followers|
  }

  /** Its call is cancelled, and it has not passed that on. */
  predicate SeesCancel(x: Follower) {
    x.cancel && !x.cancelling
  }

  predicate Enabled(w: World, step: Step) {
    match step
    case Record(_) => true
    case Store(_) => w.result.None?
    case SayDone => w.result.Some? && !w.done
    case Join(_) => true
    case Subscribe(f) => Has(w, f) && w.followers[f].at.Fresh?
    case Replay(f) => Has(w, f) && w.followers[f].at.Replaying? && w.followers[f].at.k < |w.followers[f].copied|
    case EndReplay(f) => Has(w, f) && w.followers[f].at.Replaying? && w.followers[f].at.k >= |w.followers[f].copied|
    case Receive(f) => Has(w, f) && w.followers[f].at.Polling? && Behind(w, w.followers[f]) > 0
    case SeeEmpty(f) => Has(w, f) && w.followers[f].at.Polling? && Behind(w, w.followers[f]) <= 0
    case SeeDone(f) => Has(w, f) && w.followers[f].at.Checked? && w.done
    case SeeNotDone(f) => Has(w, f) && w.followers[f].at.Checked? && !w.done
    case SeeDetached(f) => Has(w, f) && w.followers[f].at.NotDone? && w.followers[f].detached
    case SeeNotDetached(f) => Has(w, f) && w.followers[f].at.NotDone? && !w.followers[f].detached
    case SeeCancel(f) => Has(w, f) && w.followers[f].at.NotDetached? && SeesCancel(w.followers[f])
    case Wait(f) => Has(w, f) && w.followers[f].at.NotDetached? && !SeesCancel(w.followers[f])
    case Drain(f) => Has(w, f) && w.followers[f].at.Draining? && 0 < Behind(w, w.followers[f]) <= CAPACITY
    case EndDrain(f) => Has(w, f) && w.followers[f].at.Draining? && !(0 < Behind(w, w.followers[f]) <= CAPACITY)
    case AskCancel(f) => Has(w, f)
    case Leave(f) => Has(w, f)
    case CancelOp => w.listed
  }

  function Taken(w: World, x: Follower): Follower
    requires Behind(w, x) > 0
  {
    var lag := Behind(w, x) - CAPACITY;
    if lag > 0 then x.(next := x.next + lag, sent := x.sent + [Lagged(lag)])
    else x.(next := x.next + 1, sent := x.sent + [Op(w.history[x.next])])
  }

  /** What follower `x` becomes in a step of its own or of its client. */
  function Moved(w: World, x: Follower, step: Step): Follower
    requires step.Receive? || step.Drain? ==> Behind(w, x) > 0
    requires step.Replay? ==> x.at.Replaying? && x.at.k < |x.copied|
  {
    match step
    case Subscribe(_) => x.(at := Replaying(0), copied := w.log, base := |w.history|, next := |w.history|)
    case Replay(_) => x.(at := Replaying(x.at.k + 1), sent := x.sent + [Op(x.copied[x.at.k])])
    case EndReplay(_) => x.(at := Polling)
    case Receive(_) => Taken(w, x)
    case SeeEmpty(_) => x.(at := Checked)
    case SeeDone(_) => x.(at := Draining)
    case SeeNotDone(_) => x.(at := NotDone)
    case SeeNotDetached(_) => x.(at := NotDetached)
    case SeeDetached(_) => x.(at := Left(Detached, |w.history|))
    case SeeCancel(_) => x.(at := Polling, cancelling := true)
    case Wait(_) => x.(at := Polling)
    case Drain(_) => Taken(w, x)
    case EndDrain(_) => x.(at := Left(if w.result.Some? then Own(w.result.value) else NoResult, |w.history|))
    case AskCancel(_) => x.(cancel := true)
    case Leave(_) => if x.onLeave.Continue? then x.(detached := true) else x.(cancel := true)
    case _ => x
  }

  predicate Joint(step: Step) {
    step.Record? || step.Store? || step.SayDone? || step.Join? || step.CancelOp?
  }

  function Next(w: World, step: Step): World
    requires Enabled(w, step)
  {
    if Joint(step) then
      match step
      case Record(e) => w.(history := w.history + [e], log := if |w.log| < REPLAY then w.log + [e] else w.log)
      case Store(r) => w.(result := Some(r))
      case SayDone => w.(done := true)
      case Join(onLeave) =>
        w.(followers := w.followers + [Follower(onLeave, false, false, false, Fresh, [], 0, 0, Head(w))])
      case _ => w.(cancelled := true)
    else
      w.(followers := w.followers[step.f := Moved(w, w.followers[step.f], step)],
         cancelled := w.cancelled || step.SeeCancel?)
  }

  ghost predicate IsPath(states: seq<World>, steps: seq<Step>) {
    && |states| == |steps| + 1
    && forall k :: 0 <= k < |steps| ==> Enabled(states[k], steps[k]) && states[k + 1] == Next(states[k], steps[k])
  }

  ghost predicate IsRun(listed: bool, states: seq<World>, steps: seq<Step>) {
    IsPath(states, steps) && states[0] == Start(listed)
  }

  // ---- what a follower was sent, against the history

  function Ops(es: seq<Event>): seq<Item> {
    seq(|es|, i requires 0 <= i < |es| => Op(es[i]))
  }

  /**
   `items` account for the events from `from` up to `to`: each event sent is the
   one at its place, and each `Lagged` says exactly how many were dropped there.
   */
  ghost predicate Explains(items: seq<Item>, history: seq<Event>, from: nat, to: nat) {
    if items == [] then from == to
    else
      var init := items[..|items| - 1];
      match items[|items| - 1]
      case Op(e) => from < to <= |history| && history[to - 1] == e && Explains(init, history, from, to - 1)
      case Lagged(n) => 0 < n && from + n <= to <= |history| && Explains(init, history, from, to - n)
      case Started => false
  }

  lemma {:induction false} ExplainsMore(items: seq<Item>, history: seq<Event>, longer: seq<Event>, from: nat, to: nat)
    requires Explains(items, history, from, to) && history <= longer
    ensures Explains(items, longer, from, to)
  {
    if items != [] {
      var init := items[..|items| - 1];
      match items[|items| - 1]
      case Op(_) => ExplainsMore(init, history, longer, from, to - 1);
      case Lagged(n) => ExplainsMore(init, history, longer, from, to - n);
      case Started =>
    }
  }

  function Played(listed: bool, copied: seq<Event>): seq<Item> {
    (if listed then [Started] else []) + Ops(copied)
  }

  /** A stream that is the log it copied, then an account of the events from `base` to `next`. */
  ghost predicate Accounts(sent: seq<Item>, played: seq<Item>, history: seq<Event>, base: nat, next: nat) {
    played <= sent && Explains(sent[|played|..], history, base, next)
  }

  lemma AccountsMore(sent: seq<Item>, played: seq<Item>, history: seq<Event>, base: nat, next: nat, item: Item, to: nat)
    requires Accounts(sent, played, history, base, next) && base <= next
    requires item.Op? ==> to == next + 1 <= |history| && history[next] == item.e
    requires item.Lagged? ==> 0 < item.n && to == next + item.n <= |history|
    requires !item.Started?
    ensures Accounts(sent + [item], played, history, base, to)
  {
    var items := sent[|played|..];
    assert (sent + [item])[|played|..] == items + [item];
    assert (items + [item])[..|items|] == items;
  }

  ghost predicate Copied(w: World, x: Follower) {
    x.base <= x.next <= |w.history| && x.copied == Kept(w.history[..x.base])
  }

  /** The follower's stream is its replay so far, or the whole replay and an account of the rest. */
  ghost predicate FollowerOk(w: World, x: Follower) {
    match x.at
    case Fresh => x.sent == Head(w)
    case Replaying(k) =>
      Copied(w, x) && x.next == x.base && k <= |x.copied| && x.sent == Played(w.listed, x.copied[..k])
    case _ =>
      Copied(w, x) && Accounts(x.sent, Played(w.listed, x.copied), w.history, x.base, x.next)
  }

  /** How a follower that left came to it. */
  ghost predicate LeftOk(w: World, x: Follower) {
    && (x.cancelling ==> w.cancelled)
    && (x.detached ==> x.onLeave.Continue?)
    && (x.at.Draining? ==> w.done)
    && (x.at.Left? ==> x.next <= x.at.at <= |w.history|)
    && (x.at.Left? && x.at.with.Detached? ==> x.detached)
    && (x.at.Left? && !x.at.with.Detached? ==>
          && w.done && w.result.Some? && x.at.with == Own(w.result.value)
          && (x.at.at == x.next || x.at.at - x.next > CAPACITY))
  }

  ghost predicate Ok(w: World, x: Follower) {
    FollowerOk(w, x) && LeftOk(w, x)
  }

  ghost predicate Followed(w: World) {
    forall f :: 0 <= f < |w.followers| ==> Ok(w, w.followers[f])
  }

  ghost predicate Invariant(w: World) {
    w.log == Kept(w.history) && (w.done ==> w.result.Some?) && Followed(w)
  }

  lemma TakenOk(w: World, x: Follower)
    requires (x.at.Polling? || x.at.Draining?) && Ok(w, x) && Behind(w, x) > 0
    ensures Ok(w, Taken(w, x))
  {
    var y := Taken(w, x);
    AccountsMore(x.sent, Played(w.listed, x.copied), w.history, x.base, x.next, y.sent[|x.sent|], y.next);
  }

  lemma JointKeepsFollower(w: World, step: Step, x: Follower)
    requires Enabled(w, step) && Joint(step) && Ok(w, x)
    ensures Ok(Next(w, step), x)
  {
    var t := Next(w, step);
    if step.Record? && !x.at.Fresh? {
      assert t.history[..x.base] == w.history[..x.base];
      if !x.at.Replaying? {
        ExplainsMore(x.sent[|Played(w.listed, x.copied)|..], w.history, t.history, x.base, x.next);
      }
    }
  }

  lemma SubscribedOk(w: World, x: Follower, step: Step)
    requires w.log == Kept(w.history) && Ok(w, x) && x.at.Fresh? && step.Subscribe?
    ensures Ok(w, Moved(w, x, step))
  {
    var y := Moved(w, x, step);
    assert w.history[..|w.history|] == w.history;
    assert y.copied[..0] == [] && Ops([]) == [];
    assert Played(w.listed, []) == Head(w);
  }

  lemma ReplayedOk(w: World, x: Follower, step: Step)
    requires Ok(w, x) && x.at.Replaying? && step.Replay? && x.at.k < |x.copied|
    ensures Ok(w, Moved(w, x, step))
  {
    var y := Moved(w, x, step);
    var k := x.at.k;
    assert x.copied[..k + 1] == x.copied[..k] + [x.copied[k]];
    assert Ops(x.copied[..k + 1]) == Ops(x.copied[..k]) + [Op(x.copied[k])];
    assert y.sent == Played(w.listed, x.copied[..k + 1]);
  }

  lemma ReplayEndedOk(w: World, x: Follower, step: Step)
    requires Ok(w, x) && x.at.Replaying? && step.EndReplay? && x.at.k >= |x.copied|
    ensures Ok(w, Moved(w, x, step))
  {
    var y := Moved(w, x, step);
    assert x.copied[..x.at.k] == x.copied;
    assert y.sent == Played(w.listed, x.copied);
    assert y.sent[|y.sent|..] == [];
  }

  lemma MovedOk(w: World, step: Step, x: Follower)
    requires Enabled(w, step) && !Joint(step) && x == w.followers[step.f]
    requires w.log == Kept(w.history) && (w.done ==> w.result.Some?) && Ok(w, x)
    ensures Ok(w.(cancelled := w.cancelled || step.SeeCancel?), Moved(w, x, step))
  {
    if step.Receive? || step.Drain? {
      TakenOk(w, x);
    } else if step.Subscribe? {
      SubscribedOk(w, x, step);
    } else if step.Replay? {
      ReplayedOk(w, x, step);
    } else if step.EndReplay? {
      ReplayEndedOk(w, x, step);
    }
  }

  lemma OwnTouchesOne(w: World, step: Step, f: nat)
    requires Enabled(w, step) && !Joint(step) && Has(w, f)
    ensures var t := Next(w, step);
            && Has(t, f) && t.followers[f] == (if f == step.f then Moved(w, w.followers[f], step) else w.followers[f])
            && t.listed == w.listed && t.history == w.history && t.result == w.result && t.done == w.done
            && t.cancelled == (w.cancelled || step.SeeCancel?)
  {
  }

  lemma OwnKeepsFollower(w: World, step: Step, f: nat)
    requires Invariant(w) && Enabled(w, step) && !Joint(step) && Has(w, f)
    ensures Has(Next(w, step), f) && Ok(Next(w, step), Next(w, step).followers[f])
  {
    var x, t := w.followers[f], Next(w, step);
    assert Ok(w, x);
    OwnTouchesOne(w, step, f);
    if f == step.f {
      MovedOk(w, step, x);
    } else {
    }
  }

  lemma StepKeepsInvariant(w: World, step: Step)
    requires Invariant(w) && Enabled(w, step)
    ensures Invariant(Next(w, step))
  {
    var t := Next(w, step);
    forall f | 0 <= f < |t.followers|
      ensures Ok(t, t.followers[f])
    {
      if f < |w.followers| {
        assert Ok(w, w.followers[f]);
        if Joint(step) {
          JointKeepsFollower(w, step, w.followers[f]);
        } else {
          OwnKeepsFollower(w, step, f);
        }
      }
    }
  }

  lemma RunBefore(listed: bool, states: seq<World>, steps: seq<Step>)
    requires IsRun(listed, states, steps) && steps != []
    ensures var n := |steps| - 1; IsRun(listed, states[..n + 1], steps[..n]) && states[..n + 1][n] == states[n]
    ensures var n := |steps| - 1; Enabled(states[n], steps[n]) && states[n + 1] == Next(states[n], steps[n])
  {
  }

  lemma {:induction false} RunInvariant(listed: bool, states: seq<World>, steps: seq<Step>)
    requires IsRun(listed, states, steps)
    ensures Invariant(states[|steps|]) && states[|steps|].listed == listed
  {
    var n := |steps|;
    if n > 0 {
      RunInvariant(listed, states[..n], steps[..n - 1]);
      StepKeepsInvariant(states[n - 1], steps[n - 1]);
    }
  }

  // ---- what the job is

  /** The events recorded, in order. */
  function Recorded(steps: seq<Step>): seq<Event> {
    if steps == [] then []
    else Recorded(steps[..|steps| - 1]) + (if steps[|steps| - 1].Record? then [steps[|steps| - 1].e] else [])
  }

  /**
   In every run the history is the events recorded, the result is the one stored, and the end
   is said exactly once that is done.
   */
  lemma {:induction false} JobIsWhatHappened(listed: bool, states: seq<World>, steps: seq<Step>)
    requires IsRun(listed, states, steps)
    ensures states[|steps|].history == Recorded(steps)
    ensures forall r :: states[|steps|].result == Some(r) <==> Store(r) in steps
    ensures states[|steps|].done <==> SayDone in steps
  {
    var n := |steps|;
    if n > 0 {
      var past, step, w := steps[..n - 1], steps[n - 1], states[n - 1];
      JobIsWhatHappened(listed, states[..n], past);
      JobStep(w, step);
      assert steps == past + [step];
      assert forall s :: s in steps <==> s in past || s == step;
      if step.Store? && w.result.None? {
        assert forall r :: Store(r) !in past by {
          forall r
            ensures Store(r) !in past
          {
            assert w.result == Some(r) <==> Store(r) in past;
          }
        }
      }
    }
  }

  lemma JobStep(w: World, step: Step)
    requires Enabled(w, step)
    ensures var t := Next(w, step);
            && t.history == w.history + (if step.Record? then [step.e] else [])
            && t.result == (if step.Store? then Some(step.r) else w.result)
            && (t.done <==> w.done || step.SayDone?)
  {
  }

  // ---- what a follower gets

  ghost function EventsOf(items: seq<Item>): seq<Event> {
    if items == [] then []
    else EventsOf(items[..|items| - 1]) + (if items[|items| - 1].Op? then [items[|items| - 1].e] else [])
  }

  ghost function DroppedOf(items: seq<Item>): nat {
    if items == [] then 0
    else DroppedOf(items[..|items| - 1]) + (if items[|items| - 1].Lagged? then items[|items| - 1].n else 0)
  }

  ghost predicate NoLag(items: seq<Item>) {
    forall i :: 0 <= i < |items| ==> !items[i].Lagged?
  }

  lemma {:induction false} Account(items: seq<Item>, history: seq<Event>, from: nat, to: nat)
    requires Explains(items, history, from, to)
    ensures from <= to && (items != [] ==> to <= |history|)
    ensures |EventsOf(items)| + DroppedOf(items) == to - from
    ensures NoLag(items) ==> to <= |history| || items == []
    ensures NoLag(items) && to <= |history| ==> EventsOf(items) == history[from..to]
  {
    if items != [] {
      var init := items[..|items| - 1];
      assert NoLag(items) ==> NoLag(init) by {
        assert forall i :: 0 <= i < |init| ==> init[i] == items[i];
      }
      match items[|items| - 1] {
        case Op(e) =>
          Account(init, history, from, to - 1);
          assert history[from..to] == history[from..to - 1] + [e];
        case Lagged(n) =>
          Account(init, history, from, to - n);
          assert !NoLag(items);
        case Started =>
      }
    }
  }

  lemma {:induction false} EventsOfConcat(a: seq<Item>, b: seq<Item>)
    ensures EventsOf(a + b) == EventsOf(a) + EventsOf(b)
    ensures DroppedOf(a + b) == DroppedOf(a) + DroppedOf(b)
  {
    if b == [] {
      assert a + b == a;
    } else {
      EventsOfConcat(a, b[..|b| - 1]);
      assert (a + b)[..|a + b| - 1] == a + b[..|b| - 1];
    }
  }

  lemma {:induction false} EventsOfOps(es: seq<Event>)
    ensures EventsOf(Ops(es)) == es && DroppedOf(Ops(es)) == 0
  {
    if es != [] {
      EventsOfOps(es[..|es| - 1]);
      assert Ops(es)[..|es| - 1] == Ops(es[..|es| - 1]);
      assert es == es[..|es| - 1] + [es[|es| - 1]];
    }
  }

  lemma PlayedEvents(listed: bool, copied: seq<Event>)
    ensures EventsOf(Played(listed, copied)) == copied && DroppedOf(Played(listed, copied)) == 0
  {
    var head := if listed then [Started] else [];
    EventsOfConcat(head, Ops(copied));
    EventsOfOps(copied);
    if listed {
      assert head[..0] == [];
    }
    assert [] + copied == copied;
  }

  /**
   In every run, whatever a follower past its replay was sent and told it missed adds
   up: the log's events, then each later event sent in its place or counted as
   dropped, up to the event its receiver is at.
   */
  lemma StreamAddsUp(listed: bool, states: seq<World>, steps: seq<Step>, f: nat)
    requires IsRun(listed, states, steps) && Has(states[|steps|], f)
    requires var x := states[|steps|].followers[f]; !x.at.Fresh? && !x.at.Replaying?
    ensures var w := states[|steps|];
            var x := w.followers[f];
            && x.base <= x.next <= |w.history|
            && |EventsOf(x.sent)| + DroppedOf(x.sent) == Min(x.base, REPLAY) + (x.next - x.base)
            && (NoLag(x.sent) ==> EventsOf(x.sent) == Kept(w.history[..x.base]) + w.history[x.base..x.next])
  {
    RunInvariant(listed, states, steps);
    var w := states[|steps|];
    var x := w.followers[f];
    assert Ok(w, x);
    AccountsAddUp(w.listed, x.sent, x.copied, w.history, x.base, x.next);
  }

  lemma AccountsAddUp(listed: bool, sent: seq<Item>, copied: seq<Event>, history: seq<Event>, base: nat, next: nat)
    requires base <= next <= |history| && Accounts(sent, Played(listed, copied), history, base, next)
    ensures |EventsOf(sent)| + DroppedOf(sent) == |copied| + (next - base)
    ensures NoLag(sent) ==> EventsOf(sent) == copied + history[base..next]
  {
    var played := Played(listed, copied);
    var live := sent[|played|..];
    assert sent == played + live;
    PlayedEvents(listed, copied);
    EventsOfConcat(played, live);
    Account(live, history, base, next);
    if NoLag(sent) {
      forall i | 0 <= i < |live|
        ensures !live[i].Lagged?
      {
        assert live[i] == sent[|played| + i];
      }
    }
  }

  /**
   A follower misses nothing: one that followed to the end without lag was sent every
   event recorded until it left, once and in order; the only gap is between the
   replay bound and the events that existed when it subscribed.
   */
  lemma NothingIsMissed(listed: bool, states: seq<World>, steps: seq<Step>, f: nat)
    requires IsRun(listed, states, steps) && Has(states[|steps|], f)
    requires var x := states[|steps|].followers[f];
             x.at.Left? && !x.at.with.Detached? && NoLag(x.sent) && x.at.at - x.next <= CAPACITY
    ensures var w := states[|steps|];
            var x := w.followers[f];
            && x.base <= x.at.at <= |w.history|
            && EventsOf(x.sent) == w.history[..Min(x.base, REPLAY)] + w.history[x.base..x.at.at]
            && (x.base <= REPLAY ==> EventsOf(x.sent) == w.history[..x.at.at])
  {
    StreamAddsUp(listed, states, steps, f);
    RunInvariant(listed, states, steps);
    var w := states[|steps|];
    var x := w.followers[f];
    assert Ok(w, x);
    assert w.history[..x.base][..Min(x.base, REPLAY)] == w.history[..Min(x.base, REPLAY)];
    assert w.history[..x.at.at] == w.history[..x.base] + w.history[x.base..x.at.at];
  }

  lemma {:induction false} DroppedIsLag(items: seq<Item>, history: seq<Event>, from: nat, to: nat)
    requires Explains(items, history, from, to) && DroppedOf(items) == 0
    ensures NoLag(items)
  {
    if items != [] {
      var init := items[..|items| - 1];
      match items[|items| - 1] {
        case Op(_) => DroppedIsLag(init, history, from, to - 1);
        case Lagged(_) =>
        case Started =>
      }
      assert forall i :: 0 <= i < |init| ==> init[i] == items[i];
    }
  }

  lemma AllSentIsNoLag(listed: bool, sent: seq<Item>, copied: seq<Event>, history: seq<Event>, base: nat, next: nat)
    requires base <= next <= |history| && Accounts(sent, Played(listed, copied), history, base, next)
    requires DroppedOf(sent) == 0
    ensures NoLag(sent)
  {
    var played := Played(listed, copied);
    var live := sent[|played|..];
    assert sent == played + live;
    PlayedEvents(listed, copied);
    EventsOfConcat(played, live);
    DroppedIsLag(live, history, base, next);
    forall i | 0 <= i < |sent|
      ensures !sent[i].Lagged?
    {
      assert sent[i] == if i < |played| then played[i] else live[i - |played|];
    }
  }

  /** A step that lags the follower: it receives when more is unread than the channel holds. */
  ghost predicate Lags(w: World, step: Step, f: nat) {
    step == Receive(f) && Has(w, f) && Behind(w, w.followers[f]) > CAPACITY
  }

  ghost predicate NeverLags(states: seq<World>, steps: seq<Step>, f: nat) {
    forall k :: 0 <= k < |steps| && k < |states| ==> !Lags(states[k], steps[k], f)
  }

  lemma NoLagMore(items: seq<Item>, item: Item)
    ensures NoLag(items + [item]) <==> NoLag(items) && !item.Lagged?
  {
    var all := items + [item];
    assert all[|items|] == item && forall i :: 0 <= i < |items| ==> all[i] == items[i];
  }

  /** A follower is told it lagged in exactly the steps that lag it. */
  lemma StepLags(w: World, step: Step, f: nat)
    requires Enabled(w, step) && Has(w, f)
    ensures Has(Next(w, step), f)
    ensures NoLag(Next(w, step).followers[f].sent) <==> NoLag(w.followers[f].sent) && !Lags(w, step, f)
  {
    if !Joint(step) && step.f == f {
      MovedLags(w, w.followers[f], step);
    }
  }

  lemma MovedLags(w: World, x: Follower, step: Step)
    requires !Joint(step) && Has(w, step.f) && w.followers[step.f] == x && Enabled(w, step)
    ensures NoLag(Moved(w, x, step).sent) <==> NoLag(x.sent) && !(step.Receive? && Behind(w, x) > CAPACITY)
  {
    var y := Moved(w, x, step);
    if step.Receive? || step.Drain? || step.Replay? {
      NoLagMore(x.sent, y.sent[|x.sent|]);
      assert y.sent == x.sent + [y.sent[|x.sent|]];
    }
  }

  lemma {:induction false} LagIsTold(listed: bool, states: seq<World>, steps: seq<Step>, f: nat)
    requires IsRun(listed, states, steps) && Has(states[|steps|], f)
    ensures NoLag(states[|steps|].followers[f].sent) <==> NeverLags(states, steps, f)
  {
    var n := |steps|;
    if n > 0 {
      if Has(states[n - 1], f) {
        LagIsTold(listed, states[..n], steps[..n - 1], f);
        StepLags(states[n - 1], steps[n - 1], f);
        NeverLagsMore(states, steps, f);
      } else {
        NotThereYet(listed, states, steps, f);
      }
    }
  }

  lemma NeverLagsMore(states: seq<World>, steps: seq<Step>, f: nat)
    requires |states| == |steps| + 1 && steps != []
    ensures var n := |steps| - 1;
            NeverLags(states, steps, f) <==> NeverLags(states[..n + 1], steps[..n], f) && !Lags(states[n], steps[n], f)
  {
    var n := |steps| - 1;
    var before, past := states[..n + 1], steps[..n];
    assert forall k :: 0 <= k < n ==> Lags(before[k], past[k], f) == Lags(states[k], steps[k], f);
  }

  /** A follower that has just joined was sent nothing that lags, and no step lagged it. */
  lemma NotThereYet(listed: bool, states: seq<World>, steps: seq<Step>, f: nat)
    requires IsRun(listed, states, steps) && steps != []
    requires Has(states[|steps|], f) && !Has(states[|steps| - 1], f)
    ensures NoLag(states[|steps|].followers[f].sent) && NeverLags(states, steps, f)
  {
    var n := |steps|;
    forall k | 0 <= k < n
      ensures !Lags(states[k], steps[k], f)
    {
      if Has(states[k], f) && k < n - 1 {
        FollowersStay(listed, states[..n], steps[..n - 1], k, f);
      }
    }
  }

  /**
   And only then: a follower that left with the job's result was sent the replay and every
   event since if and only if in no step of the run it received with more unread than the
   channel holds, nor had more unread when it drained the rest.
   */
  lemma MissesNothingIff(listed: bool, states: seq<World>, steps: seq<Step>, f: nat)
    requires IsRun(listed, states, steps) && Has(states[|steps|], f)
    requires states[|steps|].followers[f].at.Left? && !states[|steps|].followers[f].at.with.Detached?
    ensures var w := states[|steps|];
            var x := w.followers[f];
            && x.base <= x.at.at <= |w.history|
            && (EventsOf(x.sent) == w.history[..Min(x.base, REPLAY)] + w.history[x.base..x.at.at] <==>
                NeverLags(states, steps, f) && x.at.at - x.next <= CAPACITY)
  {
    LagIsTold(listed, states, steps, f);
    StreamAddsUp(listed, states, steps, f);
    RunInvariant(listed, states, steps);
    var w := states[|steps|];
    var x := w.followers[f];
    assert Ok(w, x);
    if NoLag(x.sent) && x.at.at - x.next <= CAPACITY {
      NothingIsMissed(listed, states, steps, f);
    } else if EventsOf(x.sent) == w.history[..Min(x.base, REPLAY)] + w.history[x.base..x.at.at] {
      assert |EventsOf(x.sent)| == Min(x.base, REPLAY) + (x.at.at - x.base);
      AllSentIsNoLag(w.listed, x.sent, x.copied, w.history, x.base, x.next);
      assert false;
    }
  }

  /** In every run, a follower leaves with the job's own final result, or because it was detached. */
  lemma EndsWithTheJobsResult(listed: bool, states: seq<World>, steps: seq<Step>, f: nat)
    requires IsRun(listed, states, steps) && Has(states[|steps|], f)
    requires states[|steps|].followers[f].at.Left?
    ensures var w := states[|steps|];
            var x := w.followers[f];
            || (x.at.with == Detached && x.detached)
            || (w.done && w.result.Some? && x.at.with == Own(w.result.value))
  {
    RunInvariant(listed, states, steps);
    assert Ok(states[|steps|], states[|steps|].followers[f]);
  }

  // ---- what cancels an operation

  /** The steps that ask for a cancel: of the operation, of a call, or a leave that means one. */
  ghost predicate Asks(w: World, step: Step) {
    step.CancelOp? || step.AskCancel? || (step.Leave? && Has(w, step.f) && w.followers[step.f].onLeave == Cancel)
  }

  ghost predicate Asked(states: seq<World>, steps: seq<Step>) {
    exists k :: 0 <= k < |steps| && k < |states| && Asks(states[k], steps[k])
  }

  lemma {:induction false} CancelWasAsked(listed: bool, states: seq<World>, steps: seq<Step>)
    requires IsRun(listed, states, steps)
    ensures states[|steps|].cancelled ==> Asked(states, steps)
    ensures forall f :: 0 <= f < |states[|steps|].followers| && states[|steps|].followers[f].cancel ==>
              Asked(states, steps)
  {
    var n := |steps|;
    if n > 0 {
      CancelWasAsked(listed, states[..n], steps[..n - 1]);
      if Asked(states[..n], steps[..n - 1]) {
        var k :| 0 <= k < n - 1 && Asks(states[..n][k], steps[..n - 1][k]);
        assert Asks(states[k], steps[k]);
      } else if !Asks(states[n - 1], steps[n - 1]) {
        UnaskedStaysSo(states[n - 1], steps[n - 1]);
      }
    }
  }

  ghost predicate Unasked(w: World) {
    !w.cancelled && forall f :: 0 <= f < |w.followers| ==> !w.followers[f].cancel
  }

  lemma UnaskedStaysSo(w: World, step: Step)
    requires Enabled(w, step) && Unasked(w) && !Asks(w, step)
    ensures Unasked(Next(w, step))
  {
    var t := Next(w, step);
    forall f | 0 <= f < |t.followers|
      ensures !t.followers[f].cancel
    {
      if !Joint(step) {
        OwnTouchesOne(w, step, f);
      }
    }
  }

  lemma StepKeepsFollower(w: World, step: Step, f: nat)
    requires Enabled(w, step) && Has(w, f)
    ensures Has(Next(w, step), f) && Next(w, step).followers[f].onLeave == w.followers[f].onLeave
  {
  }

  lemma {:induction false} FollowersStay(listed: bool, states: seq<World>, steps: seq<Step>, k: nat, f: nat)
    requires IsRun(listed, states, steps) && k <= |steps| && Has(states[k], f)
    ensures Has(states[|steps|], f) && states[|steps|].followers[f].onLeave == states[k].followers[f].onLeave
  {
    var n := |steps|;
    if k < n {
      FollowersStay(listed, states[..n], steps[..n - 1], k, f);
      StepKeepsFollower(states[n - 1], steps[n - 1], f);
    }
  }

  /**
   Leaving does not cancel: in every run, a job followed only by calls that go on
   without their client is cancelled only if a cancel was asked for in so many words.
   */
  lemma LeavingDoesNotCancel(listed: bool, states: seq<World>, steps: seq<Step>)
    requires IsRun(listed, states, steps)
    requires forall f :: 0 <= f < |states[|steps|].followers| ==> states[|steps|].followers[f].onLeave == Continue
    requires forall k :: 0 <= k < |steps| ==> !steps[k].CancelOp? && !steps[k].AskCancel?
    ensures !states[|steps|].cancelled
  {
    CancelWasAsked(listed, states, steps);
    if states[|steps|].cancelled {
      var k :| 0 <= k < |steps| && Asks(states[k], steps[k]);
      FollowersStay(listed, states, steps, k, steps[k].f);
      assert false;
    }
  }

  lemma Extended(listed: bool, states: seq<World>, steps: seq<Step>, step: Step)
    returns (more: seq<World>, taken: seq<Step>)
    requires IsRun(listed, states, steps) && Enabled(states[|steps|], step)
    ensures IsRun(listed, more, taken) && taken == steps + [step] && more[|taken|] == Next(states[|steps|], step)
  {
    more, taken := states + [Next(states[|steps|], step)], steps + [step];
  }

  // ---- what a client that goes does to the operation

  /** The steps a follower takes by itself. */
  predicate ByItself(step: Step, f: nat) {
    !Joint(step) && !step.AskCancel? && !step.Leave? && step.f == f
  }

  ghost predicate OwnPath(states: seq<World>, steps: seq<Step>, f: nat) {
    IsPath(states, steps) && forall k :: 0 <= k < |steps| ==> ByItself(steps[k], f)
  }

  /** By its own steps follower `f` can come to cancel the operation. */
  ghost predicate CanCancel(w: World, f: nat) {
    exists states: seq<World>, steps: seq<Step> ::
      OwnPath(states, steps, f) && states[0] == w && states[|steps|].cancelled
  }

  /** It has looked at nothing in its `select!` since it last looked at the job's end. */
  predicate BeforeTheEnd(at: At) {
    at.Fresh? || at.Replaying? || at.Polling? || at.Checked?
  }

  /** By its own steps the follower comes to look at its cancel token: it is there, or nothing comes before it. */
  predicate Reaches(w: World, x: Follower) {
    x.at.NotDetached? || (!x.detached && (x.at.NotDone? || (BeforeTheEnd(x.at) && !w.done)))
  }

  function Rank(at: At): nat {
    match at
    case Fresh => 5
    case Replaying(_) => 4
    case Polling => 3
    case Checked => 2
    case NotDone => 1
    case NotDetached => 6
    case _ => 0
  }

  function Togo(w: World, x: Follower): nat {
    var n := if x.at.Replaying? then |x.copied| - x.at.k else Behind(w, x);
    if n > 0 then n else 0
  }

  /** What a follower does next on a job that has not said its end. */
  function NextOwn(w: World, f: nat): Step
    requires Has(w, f)
  {
    var x := w.followers[f];
    match x.at
    case Fresh => Subscribe(f)
    case Replaying(k) => if k < |x.copied| then Replay(f) else EndReplay(f)
    case Polling => if Behind(w, x) > 0 then Receive(f) else SeeEmpty(f)
    case Checked => SeeNotDone(f)
    case NotDone => if x.detached then SeeDetached(f) else SeeNotDetached(f)
    case _ => if SeesCancel(x) then SeeCancel(f) else Wait(f)
  }

  /** Its next step is one it takes by itself. */
  lemma NextOwnIsEnabled(w: World, f: nat)
    requires Has(w, f) && !w.followers[f].at.Left? && !w.followers[f].at.Draining?
    requires w.followers[f].at.Checked? ==> !w.done
    ensures Enabled(w, NextOwn(w, f)) && ByItself(NextOwn(w, f), f)
  {
  }

  predicate Nearer(w: World, x: Follower, y: Follower) {
    Rank(y.at) < Rank(x.at) || (Rank(y.at) == Rank(x.at) && Togo(w, y) < Togo(w, x))
  }

  lemma Prepended(w: World, step: Step, states: seq<World>, steps: seq<Step>, f: nat)
    requires Enabled(w, step) && ByItself(step, f) && OwnPath(states, steps, f) && states[0] == Next(w, step)
    ensures OwnPath([w] + states, [step] + steps, f)
  {
    var all, taken := [w] + states, [step] + steps;
    forall k | 0 <= k < |taken|
      ensures Enabled(all[k], taken[k]) && all[k + 1] == Next(all[k], taken[k]) && ByItself(taken[k], f)
    {
      assert k > 0 ==> all[k] == states[k - 1] && taken[k] == steps[k - 1];
    }
  }

  /** A follower whose call is cancelled and that comes to look at the token cancels the operation. */
  lemma {:induction false} WayToCancel(w: World, f: nat) returns (states: seq<World>, steps: seq<Step>)
    requires Has(w, f) && SeesCancel(w.followers[f]) && Reaches(w, w.followers[f])
    ensures OwnPath(states, steps, f) && states[0] == w && states[|steps|].cancelled
    decreases if w.followers[f].at.NotDetached? then 0 else Rank(w.followers[f].at), Togo(w, w.followers[f])
  {
    NextOwnIsEnabled(w, f);
    var x, step := w.followers[f], NextOwn(w, f);
    var next := Next(w, step);
    var rest, more := [next], [];
    if !x.at.NotDetached? {
      rest, more := WayToCancel(next, f);
    }
    Prepended(w, step, rest, more, f);
    states, steps := [w] + rest, [step] + more;
    assert states[|steps|] == rest[|more|];
  }

  /** A follower whose call is not cancelled, or that does not come to look, cancels nothing by itself. */
  lemma {:induction false} NoWayToCancel(w: World, f: nat, states: seq<World>, steps: seq<Step>)
    requires Has(w, f) && !w.cancelled && !(w.followers[f].cancel && Reaches(w, w.followers[f]))
    requires OwnPath(states, steps, f) && states[0] == w
    ensures !states[|steps|].cancelled && Has(states[|steps|], f)
    ensures var x := states[|steps|].followers[f]; !(x.cancel && Reaches(states[|steps|], x))
  {
    var n := |steps|;
    if n > 0 {
      NoWayToCancel(w, f, states[..n], steps[..n - 1]);
      NoWayByAStep(states[n - 1], steps[n - 1], f);
    }
  }

  lemma NoWayByAStep(w: World, step: Step, f: nat)
    requires Has(w, f) && Enabled(w, step) && ByItself(step, f)
    requires !(w.followers[f].cancel && Reaches(w, w.followers[f]))
    ensures !step.SeeCancel?
    ensures var y := Moved(w, w.followers[f], step); !(y.cancel && Reaches(w, y))
  {
  }

  /** Exactly when a follower can come to cancel the operation by itself. */
  lemma CanCancelIff(w: World, f: nat)
    requires Invariant(w) && Has(w, f) && !w.cancelled
    ensures CanCancel(w, f) <==> w.followers[f].cancel && Reaches(w, w.followers[f])
  {
    assert Ok(w, w.followers[f]);
    if w.followers[f].cancel && Reaches(w, w.followers[f]) {
      var states, steps := WayToCancel(w, f);
    } else {
      forall states: seq<World>, steps: seq<Step> | OwnPath(states, steps, f) && states[0] == w
        ensures !states[|steps|].cancelled
      {
        NoWayToCancel(w, f, states, steps);
      }
    }
  }

  /**
   In every run, the client of a call that follows the operation goes, wherever the call
   is and with no cancel asked of it: by itself the call can then come to cancel the
   operation if and only if leaving is what cancels it, and either it has not looked for
   the job's end yet and the end is not said, or it is past its look.
   */
  lemma LeavingCancelsIff(listed: bool, states: seq<World>, steps: seq<Step>, f: nat)
    requires IsRun(listed, states, steps) && Has(states[|steps|], f)
    requires !states[|steps|].cancelled && !states[|steps|].followers[f].cancel
    ensures var w := states[|steps|];
            var x := w.followers[f];
            && !Next(w, Leave(f)).cancelled
            && (CanCancel(Next(w, Leave(f)), f) <==>
                && x.onLeave == Cancel
                && (x.at.NotDone? || x.at.NotDetached? || (BeforeTheEnd(x.at) && !w.done)))
  {
    RunInvariant(listed, states, steps);
    var w := states[|steps|];
    var left := Next(w, Leave(f));
    assert Ok(w, w.followers[f]);
    assert left.followers[f] == Moved(w, w.followers[f], Leave(f));
    StepKeepsInvariant(w, Leave(f));
    CanCancelIff(left, f);
  }

  /** A follower of a job whose end is not said, once detached, has a way out. */
  lemma {:induction false} WayOut(w: World, f: nat) returns (states: seq<World>, steps: seq<Step>)
    requires Has(w, f) && w.followers[f].detached && !w.done
    requires !w.followers[f].at.Left? && !w.followers[f].at.Draining?
    ensures OwnPath(states, steps, f) && states[0] == w
    ensures Has(states[|steps|], f) && states[|steps|].followers[f].at.Left?
    decreases Rank(w.followers[f].at), Togo(w, w.followers[f])
  {
    NextOwnIsEnabled(w, f);
    var x, step := w.followers[f], NextOwn(w, f);
    var next := Next(w, step);
    var rest, more := [next], [];
    if !x.at.NotDone? {
      rest, more := WayOut(next, f);
    }
    Prepended(w, step, rest, more, f);
    states, steps := [w] + rest, [step] + more;
    assert states[|steps|] == rest[|more|];
  }

  /** While the end is not said, the only way a follower leaves by itself is as detached. */
  lemma {:induction false} OnlyAsDetached(w: World, f: nat, states: seq<World>, steps: seq<Step>)
    requires Has(w, f) && !w.done && !w.followers[f].at.Left? && !w.followers[f].at.Draining?
    requires OwnPath(states, steps, f) && states[0] == w
    ensures Has(states[|steps|], f) && !states[|steps|].done
    ensures var at := states[|steps|].followers[f].at; !at.Draining? && (at.Left? ==> at.with == Detached)
  {
    var n := |steps|;
    if n > 0 {
      OnlyAsDetached(w, f, states[..n], steps[..n - 1]);
      NotByTheEnd(states[n - 1], steps[n - 1], f);
    }
  }

  lemma NotByTheEnd(w: World, step: Step, f: nat)
    requires Has(w, f) && Enabled(w, step) && ByItself(step, f) && !w.done && !w.followers[f].at.Draining?
    ensures var x, y := w.followers[f], Moved(w, w.followers[f], step);
            !y.at.Draining? && (y.at.Left? ==> y.at.with == Detached || y.at == x.at)
  {
  }

  /**
   In every run, the client of a call that continues goes while the job's end is not said:
   by itself the call can leave, and however it does, it leaves as detached.
   */
  lemma LeavingDetaches(listed: bool, states: seq<World>, steps: seq<Step>, f: nat)
    returns (out: seq<World>, taken: seq<Step>)
    requires IsRun(listed, states, steps) && Has(states[|steps|], f) && !states[|steps|].done
    requires states[|steps|].followers[f].onLeave == Continue && !states[|steps|].followers[f].at.Left?
    ensures OwnPath(out, taken, f) && out[0] == Next(states[|steps|], Leave(f))
    ensures Has(out[|taken|], f) && out[|taken|].followers[f].at.Left?
    ensures forall ws: seq<World>, ss: seq<Step> ::
              OwnPath(ws, ss, f) && ws[0] == Next(states[|steps|], Leave(f)) ==>
                Has(ws[|ss|], f) && (ws[|ss|].followers[f].at.Left? ==> ws[|ss|].followers[f].at.with == Detached)
  {
    RunInvariant(listed, states, steps);
    var w := states[|steps|];
    assert Ok(w, w.followers[f]);
    var left := Next(w, Leave(f));
    assert left.followers[f] == Moved(w, w.followers[f], Leave(f));
    out, taken := WayOut(left, f);
    forall ws: seq<World>, ss: seq<Step> | OwnPath(ws, ss, f) && ws[0] == left
      ensures Has(ws[|ss|], f) && (ws[|ss|].followers[f].at.Left? ==> ws[|ss|].followers[f].at.with == Detached)
    {
      OnlyAsDetached(left, f, ws, ss);
    }
  }

  /** A path goes on from where a run ended. */
  lemma {:induction false} GoesOn(
      listed: bool, states: seq<World>, steps: seq<Step>, path: seq<World>, taken: seq<Step>, f: nat)
    returns (more: seq<World>, all: seq<Step>)
    requires IsRun(listed, states, steps) && OwnPath(path, taken, f) && path[0] == states[|steps|]
    ensures IsRun(listed, more, all) && all == steps + taken && more[|all|] == path[|taken|]
  {
    var n := |taken|;
    if n == 0 {
      more, all := states, steps;
    } else {
      more, all := GoesOn(listed, states, steps, path[..n], taken[..n - 1], f);
      more, all := Extended(listed, more, all, taken[n - 1]);
      assert taken == taken[..n - 1] + [taken[n - 1]];
    }
  }

  // ---- a follower gets to the end

  /** What a follower does next on a job that said its end. */
  function NextToEnd(w: World, f: nat): Step
    requires Has(w, f)
  {
    var x := w.followers[f];
    match x.at
    case Checked => SeeDone(f)
    case Draining => if 0 < Behind(w, x) <= CAPACITY then Drain(f) else EndDrain(f)
    case _ => NextOwn(w, f)
  }

  function RankToEnd(at: At): nat {
    match at
    case NotDone => 7
    case NotDetached => 6
    case Fresh => 5
    case Replaying(_) => 4
    case Polling => 3
    case Checked => 2
    case Draining => 1
    case Left(_, _) => 0
  }

  lemma EndStep(w: World, f: nat)
    requires Has(w, f) && w.done && !w.followers[f].at.Left?
    ensures Enabled(w, NextToEnd(w, f)) && ByItself(NextToEnd(w, f), f)
  {
  }

  lemma EndStepMoves(w: World, f: nat)
    requires Has(w, f) && w.done && !w.followers[f].at.Left? && Enabled(w, NextToEnd(w, f))
    ensures var x, y := w.followers[f], Moved(w, w.followers[f], NextToEnd(w, f));
            NearerTheEnd(w, x, y)
  {
    var x := w.followers[f];
    if x.at.Draining? {
    } else if !x.at.Checked? {
    }
  }

  predicate NearerTheEnd(w: World, x: Follower, y: Follower) {
    RankToEnd(y.at) < RankToEnd(x.at) || (RankToEnd(y.at) == RankToEnd(x.at) && Togo(w, y) < Togo(w, x))
  }

  lemma {:induction false} WayToTheEnd(w: World, f: nat) returns (states: seq<World>, steps: seq<Step>)
    requires Has(w, f) && w.done && w.result.Some? && !w.followers[f].at.Left?
    ensures OwnPath(states, steps, f) && states[0] == w
    ensures Has(states[|steps|], f) && states[|steps|].followers[f].at.Left?
    ensures var with := states[|steps|].followers[f].at.with;
            with == Own(w.result.value) || (with == Detached && w.followers[f].detached)
    decreases RankToEnd(w.followers[f].at), Togo(w, w.followers[f])
  {
    EndStep(w, f);
    EndStepMoves(w, f);
    var step := NextToEnd(w, f);
    OwnTouchesOne(w, step, f);
    var next := Next(w, step);
    var rest, more := [next], [];
    if !next.followers[f].at.Left? {
      rest, more := WayToTheEnd(next, f);
    }
    Prepended(w, step, rest, more, f);
    states, steps := [w] + rest, [step] + more;
    assert states[|steps|] == rest[|more|];
  }

  /**
   In every run, once the job said its end, a follower that has not left gets, by its own
   steps, to leave with the job's result, or as detached if it was.
   */
  lemma FollowerGetsToTheEnd(listed: bool, states: seq<World>, steps: seq<Step>, f: nat)
    returns (way: seq<World>, taken: seq<Step>)
    requires IsRun(listed, states, steps) && Has(states[|steps|], f)
    requires states[|steps|].done && !states[|steps|].followers[f].at.Left?
    ensures OwnPath(way, taken, f) && way[0] == states[|steps|] && states[|steps|].result.Some?
    ensures Has(way[|taken|], f) && way[|taken|].followers[f].at.Left?
    ensures var with := way[|taken|].followers[f].at.with;
            || with == Own(states[|steps|].result.value)
            || (with == Detached && states[|steps|].followers[f].detached)
  {
    RunInvariant(listed, states, steps);
    way, taken := WayToTheEnd(states[|steps|], f);
  }

  // ---- what a cancel does

  /** The steps that set the operation's token: a cancel of it, or a follower passing on its call's. */
  predicate SetsToken(step: Step) {
    step.CancelOp? || step.SeeCancel?
  }

  /** The steps that cancel call `f`, and those that detach it. */
  ghost predicate CancelsCall(w: World, step: Step, f: nat) {
    Has(w, f) && (step == AskCancel(f) || (step == Leave(f) && w.followers[f].onLeave == Cancel))
  }

  ghost predicate DetachesCall(w: World, step: Step, f: nat) {
    Has(w, f) && step == Leave(f) && w.followers[f].onLeave == Continue
  }

  /** A cancel of the operation is in effect at once, and for good. */
  lemma StepCancels(w: World, step: Step)
    requires Enabled(w, step)
    ensures Next(w, step).cancelled <==> w.cancelled || SetsToken(step)
  {
  }

  lemma StepSetsTokens(w: World, step: Step, f: nat)
    requires Enabled(w, step) && Has(w, f)
    ensures Has(Next(w, step), f)
    ensures Next(w, step).followers[f].cancel <==> w.followers[f].cancel || CancelsCall(w, step, f)
    ensures Next(w, step).followers[f].detached <==> w.followers[f].detached || DetachesCall(w, step, f)
  {
    if !Joint(step) {
      OwnTouchesOne(w, step, f);
    }
  }

  /**
   In every run the operation is cancelled if and only if it was cancelled in so many words,
   or a follower whose call was cancelled passed that on.
   */
  lemma {:induction false} CancelledIff(listed: bool, states: seq<World>, steps: seq<Step>)
    requires IsRun(listed, states, steps)
    ensures states[|steps|].cancelled <==> TokenWasSet(steps)
    ensures forall k :: 0 <= k < |steps| ==> PassesOn(states[k], steps[k])
  {
    var n := |steps|;
    if n > 0 {
      CancelledIff(listed, states[..n], steps[..n - 1]);
      StepCancels(states[n - 1], steps[n - 1]);
      TokenMore(steps);
      forall k | 0 <= k < n
        ensures PassesOn(states[k], steps[k])
      {
        assert Enabled(states[k], steps[k]);
      }
    }
  }

  ghost predicate TokenWasSet(steps: seq<Step>) {
    exists k :: 0 <= k < |steps| && SetsToken(steps[k])
  }

  /** A follower that passes a cancel on has one. */
  ghost predicate PassesOn(w: World, step: Step) {
    step.SeeCancel? ==> Has(w, step.f) && w.followers[step.f].cancel
  }

  lemma TokenMore(steps: seq<Step>)
    requires steps != []
    ensures TokenWasSet(steps) <==> TokenWasSet(steps[..|steps| - 1]) || SetsToken(steps[|steps| - 1])
  {
    var n := |steps| - 1;
    assert forall k :: 0 <= k < n ==> steps[..n][k] == steps[k];
  }

  ghost predicate WasCancelled(states: seq<World>, steps: seq<Step>, f: nat) {
    exists k :: 0 <= k < |steps| && k < |states| && CancelsCall(states[k], steps[k], f)
  }

  ghost predicate WasDetached(states: seq<World>, steps: seq<Step>, f: nat) {
    exists k :: 0 <= k < |steps| && k < |states| && DetachesCall(states[k], steps[k], f)
  }

  lemma TokensMore(states: seq<World>, steps: seq<Step>, f: nat)
    requires |states| == |steps| + 1 && steps != []
    ensures var n := |steps| - 1;
            && (WasCancelled(states, steps, f) <==>
                WasCancelled(states[..n + 1], steps[..n], f) || CancelsCall(states[n], steps[n], f))
            && (WasDetached(states, steps, f) <==>
                WasDetached(states[..n + 1], steps[..n], f) || DetachesCall(states[n], steps[n], f))
  {
    var n := |steps| - 1;
    var before, past := states[..n + 1], steps[..n];
    assert forall k :: 0 <= k < n ==> CancelsCall(before[k], past[k], f) == CancelsCall(states[k], steps[k], f);
    assert forall k :: 0 <= k < n ==> DetachesCall(before[k], past[k], f) == DetachesCall(states[k], steps[k], f);
  }

  /**
   In every run a call is cancelled if and only if that was asked of it or its client left and
   leaving cancels it, and detached if and only if its client left and it continues.
   */
  lemma {:induction false} TokensTellWhatHappened(listed: bool, states: seq<World>, steps: seq<Step>, f: nat)
    requires IsRun(listed, states, steps) && Has(states[|steps|], f)
    ensures states[|steps|].followers[f].cancel <==> WasCancelled(states, steps, f)
    ensures states[|steps|].followers[f].detached <==> WasDetached(states, steps, f)
  {
    var n := |steps|;
    if n > 0 {
      RunBefore(listed, states, steps);
      TokensMore(states, steps, f);
      if Has(states[n - 1], f) {
        TokensTellWhatHappened(listed, states[..n], steps[..n - 1], f);
        StepSetsTokens(states[n - 1], steps[n - 1], f);
      } else {
        NoTokensYet(listed, states[..n], steps[..n - 1], f);
      }
    }
  }

  lemma NoTokensYet(listed: bool, states: seq<World>, steps: seq<Step>, f: nat)
    requires IsRun(listed, states, steps) && !Has(states[|steps|], f)
    ensures !WasCancelled(states, steps, f) && !WasDetached(states, steps, f)
  {
    forall k | 0 <= k < |steps|
      ensures !Has(states[k], f)
    {
      if Has(states[k], f) {
        FollowersStay(listed, states, steps, k, f);
      }
    }
  }

  /**
   In every run, a cancel asked of a call on an operation not cancelled yet: by itself the
   call can then come to cancel the operation if and only if it reaches its cancel token.
   */
  lemma AskingCancels(listed: bool, states: seq<World>, steps: seq<Step>, f: nat)
    requires IsRun(listed, states, steps) && Has(states[|steps|], f) && !states[|steps|].cancelled
    ensures var t := Next(states[|steps|], AskCancel(f));
            Has(t, f) && (CanCancel(t, f) <==> Reaches(t, t.followers[f]))
  {
    RunInvariant(listed, states, steps);
    var w := states[|steps|];
    StepKeepsInvariant(w, AskCancel(f));
    StepSetsTokens(w, AskCancel(f), f);
    StepCancels(w, AskCancel(f));
    CanCancelIff(Next(w, AskCancel(f)), f);
  }

  /** An operation, and a second call attached to it whose client is gone. */
  lemma AttachedRun() returns (states: seq<World>, steps: seq<Step>)
    ensures IsRun(true, states, steps) && steps == [Join(Continue), Join(Cancel), Leave(1)]
    ensures var w := states[|steps|];
            && |w.followers| == 2 && w.followers[0].onLeave == Continue && w.followers[1].onLeave == Cancel
            && SeesCancel(w.followers[1]) && Reaches(w, w.followers[1]) && !w.cancelled
  {
    states, steps := [Start(true)], [];
    states, steps := Extended(true, states, steps, Join(Continue));
    states, steps := Extended(true, states, steps, Join(Cancel));
    states, steps := Extended(true, states, steps, Leave(1));
  }

  /**
   A call that attaches to a running operation is one its leaving cancels (its method
   is described as a read): the client of an attached call goes, and the operation
   its own client left running is cancelled, though nobody asked for it.
   */
  lemma LeavingAnAttachedCallCancels() returns (states: seq<World>, steps: seq<Step>)
    ensures IsRun(true, states, steps)
    ensures forall k :: 0 <= k < |steps| ==> !steps[k].CancelOp? && !steps[k].AskCancel?
    ensures states[|steps|].cancelled
  {
    var before, past := AttachedRun();
    var path, taken := WayToCancel(before[|past|], 1);
    states, steps := GoesOn(true, before, past, path, taken, 1);
    forall k | 0 <= k < |steps|
      ensures !steps[k].CancelOp? && !steps[k].AskCancel?
    {
      if k >= |past| {
        assert ByItself(taken[k - |past|], 1);
      }
    }
  }
}
