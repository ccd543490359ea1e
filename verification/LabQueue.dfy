/**
 The daemon's change queues (`Jobs::enqueue` and `spawn_queue` of
 `bins/nlink-labd/src/jobs.rs`): one queue and one worker thread per lab, workers
 that leave when idle and may die, and enqueueing that starts a worker when there
 is none. Every lock-protected block and every atomic operation is one step.
 */
module LabQueue {
  import opened Prelude

  /** What a worker thread is at. `Dying`: it stopped, its channel not dropped yet. */
  datatype Status = Idle | Running(c: nat) | Replying(c: nat) | Dying | Dead

  /**
   What `enqueue` sees of a lab, with the thread that serves it: the channel, and the
   pending counter. `lost` is history: how many changes went down with the thread,
   running or waiting.
   */
  datatype Worker = Worker(lab: string, channel: seq<nat>, pending: nat, status: Status, lost: nat)

  /** Who holds the queues' lock: an `enqueue` with a change in hand, at its last try or not. */
  datatype Sending = NoOne | Sending(lab: string, c: nat, worker: nat, last: bool)

  datatype Outcome = Finished | Stopped | CannotStart

  /**
   Changes are numbered in the order `enqueue` took them: change `c` is the one for
   lab `handed[c]`. `started` and `answers` are what happened so far.
   */
  datatype World = World(
    handed: seq<string>,
    queues: map<string, nat>,
    workers: seq<Worker>,
    sending: Sending,
    started: seq<nat>,
    answers: seq<(nat, Outcome)>)

  datatype Step =
    | Enqueue(lab: string, spawns: bool)
    | Send
    | Retry(spawns: bool)
    | GiveUp
    | Receive(i: nat)
    | Finish(i: nat)
    | Reply(i: nat)
    | Panic(i: nat)
    | DropChannel(i: nat)
    | IdleExit(i: nat)
    | Hangup(i: nat)

  const START := World([], map[], [], NoOne, [], [])

  predicate Live(s: Status) {
    s.Idle? || s.Running? || s.Replying?
  }

  predicate Executing(s: Status) {
    s.Running? || s.Replying?
  }

  predicate Is(w: World, i: nat, s: Status) {
    i < |w.workers| && w.workers[i].status == s
  }

  predicate Enabled(w: World, step: Step) {
    match step
    case Enqueue(lab, _) => w.sending.NoOne? && (lab in w.queues ==> w.queues[lab] < |w.workers|)
    case Send => w.sending.Sending? && w.sending.worker < |w.workers| && !w.workers[w.sending.worker].status.Dead?
    case Retry(_) => w.sending.Sending? && Is(w, w.sending.worker, Dead) && !w.sending.last
    case GiveUp => w.sending.Sending? && Is(w, w.sending.worker, Dead) && w.sending.last
    case Receive(i) => Is(w, i, Idle) && w.workers[i].channel != []
    case Finish(i) => i < |w.workers| && w.workers[i].status.Running? && w.workers[i].pending > 0
    case Reply(i) => i < |w.workers| && w.workers[i].status.Replying?
    case Panic(i) => i < |w.workers| && (w.workers[i].status.Running? || w.workers[i].status.Idle?)
    case DropChannel(i) => Is(w, i, Dying)
    case IdleExit(i) => w.sending.NoOne? && Is(w, i, Idle) && w.workers[i].channel == []
    case Hangup(i) =>
      && Is(w, i, Idle) && w.workers[i].channel == []
      && !(w.workers[i].lab in w.queues && w.queues[w.workers[i].lab] == i)
  }

  /** The lab's queue, made when there is none; its thread may fail to start. */
  function Spawned(w: World, lab: string, spawns: bool): World {
    if lab in w.queues then w
    else w.(queues := w.queues[lab := |w.workers|],
            workers := w.workers + [Worker(lab, [], 0, if spawns then Idle else Dead, 0)])
  }

  function Bumped(w: World, i: nat): World
    requires i < |w.workers|
  {
    w.(workers := w.workers[i := w.workers[i].(pending := w.workers[i].pending + 1)])
  }

  function Become(w: World, i: nat, x: Worker): World
    requires i < |w.workers|
  {
    w.(workers := w.workers[i := x])
  }

  function StopAll(cs: seq<nat>): seq<(nat, Outcome)> {
    if cs == [] then [] else StopAll(cs[..|cs| - 1]) + [(cs[|cs| - 1], Stopped)]
  }

  function Next(w: World, step: Step): World
    requires Enabled(w, step)
  {
    match step
    case Enqueue(lab, spawns) =>
      var m := Spawned(w, lab, spawns);
      var i := m.queues[lab];
      Bumped(m, i).(handed := w.handed + [lab], sending := Sending(lab, |w.handed|, i, false))
    case Send =>
      var i := w.sending.worker;
      Become(w, i, w.workers[i].(channel := w.workers[i].channel + [w.sending.c])).(sending := NoOne)
    case Retry(spawns) =>
      var m := Spawned(w.(queues := w.queues - {w.sending.lab}), w.sending.lab, spawns);
      Bumped(m, |w.workers|).(sending := w.sending.(worker := |w.workers|, last := true))
    case GiveUp =>
      w.(queues := w.queues - {w.sending.lab}, answers := w.answers + [(w.sending.c, CannotStart)], sending := NoOne)
    case Receive(i) =>
      var x := w.workers[i];
      Become(w, i, x.(channel := x.channel[1..], status := Running(x.channel[0])))
        .(started := w.started + [x.channel[0]])
    case Finish(i) =>
      var x := w.workers[i];
      Become(w, i, x.(pending := x.pending - 1, status := Replying(x.status.c)))
    case Reply(i) =>
      var x := w.workers[i];
      Become(w, i, x.(status := Idle)).(answers := w.answers + [(x.status.c, Finished)])
    case Panic(i) =>
      var x := w.workers[i];
      Become(w, i, x.(status := Dying, lost := x.lost + (if x.status.Running? then 1 else 0)))
        .(answers := if x.status.Running? then w.answers + [(x.status.c, Stopped)] else w.answers)
    case DropChannel(i) =>
      var x := w.workers[i];
      Become(w, i, x.(channel := [], status := Dead, lost := x.lost + |x.channel|))
        .(answers := w.answers + StopAll(x.channel))
    case IdleExit(i) =>
      var x := w.workers[i];
      Become(w, i, x.(status := Dead)).(queues := w.queues - {x.lab})
    case Hangup(i) =>
      Become(w, i, w.workers[i].(status := Dead))
  }

  ghost predicate IsPath(states: seq<World>, steps: seq<Step>) {
    && |states| == |steps| + 1
    && forall k :: 0 <= k < |steps| ==> Enabled(states[k], steps[k]) && states[k + 1] == Next(states[k], steps[k])
  }

  ghost predicate IsRun(states: seq<World>, steps: seq<Step>) {
    IsPath(states, steps) && states[0] == START
  }

  // ---- what every step keeps

  /** A thread that is not gone is the one its lab's queue leads to. */
  ghost predicate Registered(w: World) {
    && (forall lab :: lab in w.queues ==> w.queues[lab] < |w.workers| && w.workers[w.queues[lab]].lab == lab)
    && (forall i :: 0 <= i < |w.workers| && !w.workers[i].status.Dead? ==>
          w.workers[i].lab in w.queues && w.queues[w.workers[i].lab] == i)
    && (w.sending.Sending? ==>
          && w.sending.lab in w.queues && w.queues[w.sending.lab] == w.sending.worker
          && w.handed != [] && w.sending.c == |w.handed| - 1 && w.handed[w.sending.c] == w.sending.lab)
  }

  function Share(w: World, i: nat): nat {
    if w.sending.Sending? && w.sending.worker == i then 1 else 0
  }

  predicate Leads(w: World, i: nat) {
    i < |w.workers| && w.workers[i].lab in w.queues && w.queues[w.workers[i].lab] == i
  }

  ghost predicate CountedAt(x: Worker, share: nat, leads: bool) {
    && (x.status.Dead? ==> x.channel == [])
    && (Live(x.status) ==> x.lost == 0)
    && (leads ==> x.pending == |x.channel| + (if x.status.Running? then 1 else 0) + share + x.lost)
  }

  /** The counter of a queue is what waits, runs, is being handed to it and went down with its thread. */
  ghost predicate Counted(w: World) {
    forall i :: 0 <= i < |w.workers| ==> CountedAt(w.workers[i], Share(w, i), Leads(w, i))
  }

  /** The changes whose `enqueue` is through: the ones below this number. */
  function Through(w: World): nat {
    if w.sending.Sending? then w.sending.c else |w.handed|
  }

  /** Everything that started on `lab` started before change `c`. */
  ghost predicate NotYet(w: World, lab: string, c: nat) {
    forall a :: 0 <= a < |w.started| && w.started[a] < |w.handed| && w.handed[w.started[a]] == lab ==> w.started[a] < c
  }

  ghost predicate Waits(w: World, lab: string, c: nat) {
    c < Through(w) <= |w.handed| && w.handed[c] == lab && NotYet(w, lab, c)
  }

  ghost predicate OrderedAt(w: World, x: Worker) {
    && Ascending(x.channel)
    && (forall k :: 0 <= k < |x.channel| ==> Waits(w, x.lab, x.channel[k]))
    && (Executing(x.status) ==> x.status.c in w.started && x.status.c < |w.handed| && w.handed[x.status.c] == x.lab)
  }

  ghost predicate StartedInOrder(w: World) {
    && Through(w) <= |w.handed|
    && (forall a :: 0 <= a < |w.started| ==> w.started[a] < Through(w))
    && (forall a, b :: 0 <= a < b < |w.started| && w.handed[w.started[a]] == w.handed[w.started[b]] ==>
          w.started[a] < w.started[b])
  }

  ghost predicate Ordered(w: World) {
    StartedInOrder(w) && forall i :: 0 <= i < |w.workers| ==> OrderedAt(w, w.workers[i])
  }

  lemma StepKeepsRegistered(w: World, step: Step)
    requires Registered(w) && Enabled(w, step)
    ensures Registered(Next(w, step))
  {
    var t := Next(w, step);
    forall lab | lab in t.queues
      ensures t.queues[lab] < |t.workers| && t.workers[t.queues[lab]].lab == lab
    {
    }
    forall i | 0 <= i < |t.workers| && !t.workers[i].status.Dead?
      ensures t.workers[i].lab in t.queues && t.queues[t.workers[i].lab] == i
    {
      LiveStaysRegistered(w, step, i);
    }
  }

  lemma LiveStaysRegistered(w: World, step: Step, i: nat)
    requires Registered(w) && Enabled(w, step) && i < |Next(w, step).workers|
    requires !Next(w, step).workers[i].status.Dead?
    ensures Leads(Next(w, step), i)
  {
    var t := Next(w, step);
    assert i < |w.workers| ==> t.workers[i].lab == w.workers[i].lab;
  }

  /** A queue being handed a change: the counter goes up before the change is there. */
  lemma HandKeepsCounted(w: World, step: Step, j: nat)
    requires Registered(w) && Counted(w) && Enabled(w, step) && (step.Enqueue? || step.Retry?)
    requires j < |Next(w, step).workers|
    ensures var t := Next(w, step); CountedAt(t.workers[j], Share(t, j), Leads(t, j))
  {
    var t := Next(w, step);
    if j < |w.workers| {
      assert CountedAt(w.workers[j], Share(w, j), Leads(w, j));
      assert step.Retry? ==> t.workers[j] == w.workers[j];
    }
  }

  lemma WorkerKeepsCounted(w: World, step: Step, j: nat)
    requires Registered(w) && Counted(w) && Enabled(w, step) && !step.Enqueue? && !step.Retry?
    requires j < |w.workers|
    ensures var t := Next(w, step); |t.workers| == |w.workers| && CountedAt(t.workers[j], Share(t, j), Leads(t, j))
  {
    assert CountedAt(w.workers[j], Share(w, j), Leads(w, j));
  }

  lemma StepKeepsCounted(w: World, step: Step)
    requires Registered(w) && Counted(w) && Enabled(w, step)
    ensures Counted(Next(w, step))
  {
    var t := Next(w, step);
    forall j | 0 <= j < |t.workers|
      ensures CountedAt(t.workers[j], Share(t, j), Leads(t, j))
    {
      if step.Enqueue? || step.Retry? {
        HandKeepsCounted(w, step, j);
      } else {
        WorkerKeepsCounted(w, step, j);
      }
    }
  }

  /** Nothing started and nothing was taken back: a worker's order stands. */
  lemma KeepsWorker(w: World, t: World, x: Worker)
    requires OrderedAt(w, x) && StartedInOrder(w)
    requires w.handed <= t.handed && t.started == w.started && Through(w) <= Through(t) <= |t.handed|
    ensures OrderedAt(t, x)
  {
    forall k | 0 <= k < |x.channel|
      ensures Waits(t, x.lab, x.channel[k])
    {
      assert Waits(w, x.lab, x.channel[k]);
      assert NotYet(w, x.lab, x.channel[k]);
    }
  }

  lemma ReceiveKeepsOrdered(w: World, i: nat)
    requires Registered(w) && Counted(w) && Ordered(w) && Enabled(w, Receive(i))
    ensures Ordered(Next(w, Receive(i)))
  {
    var t := Next(w, Receive(i));
    var x := w.workers[i];
    var c := x.channel[0];
    assert OrderedAt(w, x);
    assert Waits(w, x.lab, c);
    assert NotYet(w, x.lab, c);
    assert StartedInOrder(t);
    forall j | 0 <= j < |t.workers|
      ensures OrderedAt(t, t.workers[j])
    {
      var y := w.workers[j];
      assert OrderedAt(w, y) && CountedAt(y, Share(w, j), Leads(w, j));
      forall k | 0 <= k < |t.workers[j].channel|
        ensures Waits(t, y.lab, t.workers[j].channel[k])
      {
        var d := t.workers[j].channel[k];
        if j == i {
          assert d == y.channel[k + 1];
        }
        assert Waits(w, y.lab, d);
        assert NotYet(w, y.lab, d);
        assert j != i ==> y.lab != x.lab;
      }
      assert t.started[|w.started|] == c;
    }
  }

  lemma SendKeepsOrdered(w: World)
    requires Registered(w) && Ordered(w) && Enabled(w, Send)
    ensures Ordered(Next(w, Send))
  {
    var t := Next(w, Send);
    var i := w.sending.worker;
    forall j | 0 <= j < |t.workers|
      ensures OrderedAt(t, t.workers[j])
    {
      assert OrderedAt(w, w.workers[j]);
      KeepsWorker(w, t, w.workers[j]);
      if j == i {
        assert forall k :: 0 <= k < |w.workers[i].channel| ==> Waits(w, w.workers[i].lab, w.workers[i].channel[k]);
        assert NotYet(t, w.sending.lab, w.sending.c);
        assert Waits(t, w.sending.lab, w.sending.c);
        forall k | 0 <= k < |t.workers[j].channel|
          ensures Waits(t, t.workers[j].lab, t.workers[j].channel[k])
        {
          assert k < |w.workers[j].channel| ==> t.workers[j].channel[k] == w.workers[j].channel[k];
        }
      }
    }
  }

  lemma StepKeepsOrdered(w: World, step: Step)
    requires Registered(w) && Counted(w) && Ordered(w) && Enabled(w, step)
    ensures Ordered(Next(w, step))
  {
    if step.Receive? {
      ReceiveKeepsOrdered(w, step.i);
    } else if step.Send? {
      SendKeepsOrdered(w);
    } else {
      OtherKeepsOrdered(w, step);
    }
  }

  /** Where nothing starts and nothing is sent, a worker's channel stays or empties, and what it executes stays. */
  lemma OtherKeepsOrdered(w: World, step: Step)
    requires Ordered(w) && Enabled(w, step) && !step.Receive? && !step.Send?
    ensures Ordered(Next(w, step))
  {
    var t := Next(w, step);
    forall j | 0 <= j < |t.workers|
      ensures OrderedAt(t, t.workers[j])
    {
      if j < |w.workers| {
        OtherKeepsWorker(w, step, j);
      }
    }
  }

  lemma OtherKeepsWorker(w: World, step: Step, j: nat)
    requires Ordered(w) && Enabled(w, step) && !step.Receive? && !step.Send? && j < |w.workers|
    ensures OrderedAt(Next(w, step), Next(w, step).workers[j])
  {
    var t, x := Next(w, step), w.workers[j];
    assert OrderedAt(w, x);
    KeepsWorker(w, t, x);
    var y := t.workers[j];
    assert y.lab == x.lab && (y.channel == x.channel || y.channel == []);
    assert Executing(y.status) ==> Executing(x.status) && y.status.c == x.status.c;
  }

  // ---- where each change is

  function InHand(s: Sending, c: nat): nat {
    if s.Sending? && s.c == c then 1 else 0
  }

  function Occurs(cs: seq<nat>, c: nat): nat {
    if cs == [] then 0 else Occurs(cs[..|cs| - 1], c) + (if cs[|cs| - 1] == c then 1 else 0)
  }

  /** How often a worker has change `c`: waiting, or executing. */
  function InWork(x: Worker, c: nat): nat {
    Occurs(x.channel, c) + (if Executing(x.status) && x.status.c == c then 1 else 0)
  }

  ghost function InWorks(xs: seq<Worker>, c: nat): nat {
    if xs == [] then 0 else InWorks(xs[..|xs| - 1], c) + InWork(xs[|xs| - 1], c)
  }

  ghost function Answers(answers: seq<(nat, Outcome)>, c: nat): nat {
    if answers == [] then 0 else Answers(answers[..|answers| - 1], c) + (if answers[|answers| - 1].0 == c then 1 else 0)
  }

  /** How many places change `c` is in: in hand, waiting or executing, answered. */
  ghost function Places(w: World, c: nat): nat {
    InHand(w.sending, c) + InWorks(w.workers, c) + Answers(w.answers, c)
  }

  /** Each change taken in is in exactly one place, once. */
  ghost predicate Conserved(w: World) {
    forall c: nat :: Places(w, c) == if c < |w.handed| then 1 else 0
  }

  lemma {:induction false} UpdateWork(xs: seq<Worker>, i: nat, x: Worker, c: nat)
    requires i < |xs|
    ensures InWorks(xs[i := x], c) + InWork(xs[i], c) == InWorks(xs, c) + InWork(x, c)
  {
    var n := |xs| - 1;
    if i < n {
      UpdateWork(xs[..n], i, x, c);
      assert xs[i := x][..n] == xs[..n][i := x];
    } else {
      assert xs[i := x][..n] == xs[..n];
    }
  }

  lemma AppendWork(xs: seq<Worker>, x: Worker, c: nat)
    ensures InWorks(xs + [x], c) == InWorks(xs, c) + InWork(x, c)
  {
    assert (xs + [x])[..|xs|] == xs;
  }

  lemma AppendAnswer(answers: seq<(nat, Outcome)>, a: (nat, Outcome), c: nat)
    ensures Answers(answers + [a], c) == Answers(answers, c) + (if a.0 == c then 1 else 0)
  {
    assert (answers + [a])[..|answers|] == answers;
  }

  lemma AppendOccurs(cs: seq<nat>, d: nat, c: nat)
    ensures Occurs(cs + [d], c) == Occurs(cs, c) + (if d == c then 1 else 0)
  {
    assert (cs + [d])[..|cs|] == cs;
  }

  lemma {:induction false} HeadOccurs(cs: seq<nat>, c: nat)
    requires cs != []
    ensures Occurs(cs, c) == (if cs[0] == c then 1 else 0) + Occurs(cs[1..], c)
  {
    if |cs| == 1 {
      assert cs[..0] == [];
    } else {
      HeadOccurs(cs[..|cs| - 1], c);
      assert cs[1..][..|cs| - 2] == cs[..|cs| - 1][1..];
    }
  }

  lemma {:induction false} StopAllAnswers(answers: seq<(nat, Outcome)>, cs: seq<nat>, c: nat)
    ensures Answers(answers + StopAll(cs), c) == Answers(answers, c) + Occurs(cs, c)
  {
    if cs == [] {
      assert answers + StopAll(cs) == answers;
    } else {
      var init, last := cs[..|cs| - 1], cs[|cs| - 1];
      StopAllAnswers(answers, init, c);
      assert answers + StopAll(cs) == (answers + StopAll(init)) + [(last, Stopped)];
      AppendAnswer(answers + StopAll(init), (last, Stopped), c);
    }
  }

  lemma SpawnPlaces(w: World, lab: string, spawns: bool, c: nat)
    ensures InWorks(Spawned(w, lab, spawns).workers, c) == InWorks(w.workers, c)
  {
    if lab !in w.queues {
      AppendWork(w.workers, Worker(lab, [], 0, if spawns then Idle else Dead, 0), c);
    }
  }

  lemma BumpPlaces(w: World, i: nat, c: nat)
    requires i < |w.workers|
    ensures InWorks(Bumped(w, i).workers, c) == InWorks(w.workers, c)
  {
    UpdateWork(w.workers, i, w.workers[i].(pending := w.workers[i].pending + 1), c);
  }

  lemma EnqueuePlaces(w: World, step: Step, c: nat)
    requires Enabled(w, step) && step.Enqueue?
    ensures Places(Next(w, step), c) == Places(w, c) + (if c == |w.handed| then 1 else 0)
  {
    SpawnPlaces(w, step.lab, step.spawns, c);
    var m := Spawned(w, step.lab, step.spawns);
    BumpPlaces(m, m.queues[step.lab], c);
  }

  lemma RetryPlaces(w: World, step: Step, c: nat)
    requires Enabled(w, step) && step.Retry?
    ensures Places(Next(w, step), c) == Places(w, c)
  {
    var v := w.(queues := w.queues - {w.sending.lab});
    SpawnPlaces(v, w.sending.lab, step.spawns, c);
    BumpPlaces(Spawned(v, w.sending.lab, step.spawns), |w.workers|, c);
  }

  lemma SendPlaces(w: World, c: nat)
    requires Enabled(w, Send)
    ensures Places(Next(w, Send), c) == Places(w, c)
  {
    var i := w.sending.worker;
    UpdateWork(w.workers, i, Next(w, Send).workers[i], c);
    AppendOccurs(w.workers[i].channel, w.sending.c, c);
  }

  /** The steps of a worker thread: what they take from it is answered. */
  lemma WorkerPlaces(w: World, step: Step, i: nat, c: nat)
    requires Enabled(w, step) && !step.Enqueue? && !step.Retry? && !step.Send? && !step.GiveUp? && step.i == i
    ensures Places(Next(w, step), c) == Places(w, c)
  {
    var x, y := w.workers[i], Next(w, step).workers[i];
    UpdateWork(w.workers, i, y, c);
    match step
    case Receive(_) => HeadOccurs(x.channel, c);
    case Reply(_) => AppendAnswer(w.answers, (x.status.c, Finished), c);
    case Panic(_) =>
      if x.status.Running? {
        AppendAnswer(w.answers, (x.status.c, Stopped), c);
      }
    case DropChannel(_) => StopAllAnswers(w.answers, x.channel, c);
    case _ =>
  }

  lemma StepPlaces(w: World, step: Step, c: nat)
    requires Enabled(w, step)
    ensures Places(Next(w, step), c) == Places(w, c) + (if step.Enqueue? && c == |w.handed| then 1 else 0)
  {
    match step
    case Enqueue(_, _) => EnqueuePlaces(w, step, c);
    case Retry(_) => RetryPlaces(w, step, c);
    case Send => SendPlaces(w, c);
    case GiveUp => AppendAnswer(w.answers, (w.sending.c, CannotStart), c);
    case _ => WorkerPlaces(w, step, step.i, c);
  }

  // ---- every run

  ghost predicate Invariant(w: World) {
    Registered(w) && Counted(w) && Ordered(w) && Conserved(w)
  }

  lemma StepKeepsInvariant(w: World, step: Step)
    requires Invariant(w) && Enabled(w, step)
    ensures Invariant(Next(w, step))
  {
    StepKeepsRegistered(w, step);
    StepKeepsCounted(w, step);
    StepKeepsOrdered(w, step);
    var t := Next(w, step);
    forall c: nat
      ensures Places(t, c) == if c < |t.handed| then 1 else 0
    {
      StepPlaces(w, step, c);
    }
  }

  lemma {:induction false} RunInvariant(states: seq<World>, steps: seq<Step>)
    requires IsPath(states, steps) && Invariant(states[0])
    ensures Invariant(states[|steps|])
  {
    var n := |steps|;
    if n > 0 {
      RunInvariant(states[..n], steps[..n - 1]);
      StepKeepsInvariant(states[n - 1], steps[n - 1]);
    }
  }

  lemma RunBefore(states: seq<World>, steps: seq<Step>)
    requires IsRun(states, steps) && steps != []
    ensures var n := |steps| - 1; IsRun(states[..n + 1], steps[..n]) && states[..n + 1][n] == states[n]
    ensures var n := |steps| - 1; Enabled(states[n], steps[n]) && states[n + 1] == Next(states[n], steps[n])
  {
  }

  lemma StartInvariant()
    ensures Invariant(START)
  {
  }

  /** In every run, at most one change of a lab is executing. */
  lemma OneAtATime(states: seq<World>, steps: seq<Step>, i: nat, j: nat)
    requires IsRun(states, steps)
    requires var w := states[|steps|];
             && i < |w.workers| && Executing(w.workers[i].status)
             && j < |w.workers| && Executing(w.workers[j].status) && w.workers[i].lab == w.workers[j].lab
    ensures i == j
  {
    StartInvariant();
    RunInvariant(states, steps);
  }

  /** In every run, the changes of a lab start in the order they were enqueued. */
  lemma StartsInOrder(states: seq<World>, steps: seq<Step>, a: nat, b: nat)
    requires IsRun(states, steps)
    requires a < b < |states[|steps|].started|
    ensures var w := states[|steps|];
            && w.started[a] < |w.handed| && w.started[b] < |w.handed|
            && (w.handed[w.started[a]] == w.handed[w.started[b]] ==> w.started[a] < w.started[b])
  {
    StartInvariant();
    RunInvariant(states, steps);
  }

  /** In every run, each change is in one place; it is answered at most once, and never forgotten. */
  lemma WorkIsConserved(states: seq<World>, steps: seq<Step>, c: nat)
    requires IsRun(states, steps) && c < |states[|steps|].handed|
    ensures var w := states[|steps|];
            && InHand(w.sending, c) + InWorks(w.workers, c) + Answers(w.answers, c) == 1
            && Answers(w.answers, c) <= 1
  {
    StartInvariant();
    RunInvariant(states, steps);
    assert Places(states[|steps|], c) == 1;
  }

  // ---- what a change is answered

  /** The step answers change `c` with `o`: its worker replies, or goes down with it, or it is given up. */
  ghost predicate Says(w: World, step: Step, c: nat, o: Outcome) {
    match o
    case Finished => step.Reply? && Is(w, step.i, Replying(c))
    case Stopped =>
      || (step.Panic? && Is(w, step.i, Running(c)))
      || (step.DropChannel? && step.i < |w.workers| && c in w.workers[step.i].channel)
    case CannotStart => step.GiveUp? && w.sending.Sending? && w.sending.c == c
  }

  lemma {:induction false} StopAllSays(cs: seq<nat>, c: nat, o: Outcome)
    ensures (c, o) in StopAll(cs) <==> o == Stopped && c in cs
  {
    if cs != [] {
      StopAllSays(cs[..|cs| - 1], c, o);
      assert cs == cs[..|cs| - 1] + [cs[|cs| - 1]];
    }
  }

  lemma StepSays(w: World, step: Step, c: nat, o: Outcome)
    requires Enabled(w, step)
    ensures (c, o) in Next(w, step).answers <==> (c, o) in w.answers || Says(w, step, c, o)
  {
    if step.DropChannel? {
      StopAllSays(w.workers[step.i].channel, c, o);
    }
  }

  ghost predicate Said(states: seq<World>, steps: seq<Step>, c: nat, o: Outcome) {
    exists k :: 0 <= k < |steps| && k < |states| && Says(states[k], steps[k], c, o)
  }

  /**
   In every run, a change is answered as finished exactly when the worker that executed it
   replied, as stopped exactly when it was running or waiting where a thread went down,
   and as not startable exactly when `enqueue` gave it up.
   */
  lemma {:induction false} AnswersTellWhatHappened(states: seq<World>, steps: seq<Step>, c: nat, o: Outcome)
    requires IsRun(states, steps)
    ensures (c, o) in states[|steps|].answers <==> Said(states, steps, c, o)
  {
    var n := |steps|;
    if n > 0 {
      var before, past := states[..n], steps[..n - 1];
      AnswersTellWhatHappened(before, past, c, o);
      StepSays(states[n - 1], steps[n - 1], c, o);
      if Said(before, past, c, o) {
        var k :| 0 <= k < n - 1 && Says(before[k], past[k], c, o);
        assert Says(states[k], steps[k], c, o);
      }
      if Said(states, steps, c, o) {
        var k :| 0 <= k < n && Says(states[k], steps[k], c, o);
        assert k < n - 1 ==> Says(before[k], past[k], c, o);
      }
    }
  }

  lemma {:induction false} AnsweredIsCounted(answers: seq<(nat, Outcome)>, c: nat, o: Outcome)
    requires (c, o) in answers
    ensures Answers(answers, c) > 0
  {
    var n := |answers| - 1;
    if answers[n] != (c, o) {
      assert answers == answers[..n] + [answers[n]];
      AnsweredIsCounted(answers[..n], c, o);
    }
  }

  /** What was answered as finished had started; what was answered as not startable had not, and does not. */
  ghost predicate Startable(w: World) {
    && (forall c: nat :: (c, Finished) in w.answers ==> c in w.started)
    && (forall c: nat :: (c, CannotStart) in w.answers ==> c !in w.started)
  }

  lemma StepKeepsStartable(w: World, step: Step)
    requires Invariant(w) && Startable(w) && Enabled(w, step)
    ensures Startable(Next(w, step))
  {
    var t := Next(w, step);
    forall c: nat
      ensures (c, Finished) in t.answers ==> c in t.started
      ensures (c, CannotStart) in t.answers ==> c !in t.started
    {
      StepSays(w, step, c, Finished);
      StepSays(w, step, c, CannotStart);
      if Says(w, step, c, Finished) {
        assert OrderedAt(w, w.workers[step.i]);
      }
      if step.Receive? && (c, CannotStart) in w.answers {
        AnsweredIsCounted(w.answers, c, CannotStart);
        assert Places(w, c) <= 1;
        OneOfTheWorks(w.workers, step.i, c);
        OccursIffIn(w.workers[step.i].channel, c);
      }
    }
  }

  lemma {:induction false} AnsweredAndStarted(states: seq<World>, steps: seq<Step>)
    requires IsRun(states, steps)
    ensures Startable(states[|steps|])
  {
    var n := |steps|;
    if n > 0 {
      AnsweredAndStarted(states[..n], steps[..n - 1]);
      StartInvariant();
      RunInvariant(states[..n], steps[..n - 1]);
      StepKeepsStartable(states[n - 1], steps[n - 1]);
    }
  }

  /** The worker's thread went down, and its queue, if it still has one, is not being handed a change. */
  ghost predicate LiesThere(w: World, i: nat) {
    i < |w.workers| &&
    (w.workers[i].status.Dying? ||
     (w.workers[i].status.Dead? && Leads(w, i) && !(w.sending.Sending? && w.sending.worker == i)))
  }

  lemma StepLiesThere(w: World, step: Step, i: nat)
    requires Registered(w) && Enabled(w, step) && LiesThere(Next(w, step), i)
    ensures LiesThere(w, i) || step == Panic(i)
  {
  }

  /**
   In every run, a queue whose thread is gone is one whose thread died: a thread that leaves
   for lack of work takes its queue with it.
   */
  lemma {:induction false} OnlyADeathLeavesAQueue(states: seq<World>, steps: seq<Step>, i: nat) returns (k: nat)
    requires IsRun(states, steps) && LiesThere(states[|steps|], i)
    ensures k < |steps| && steps[k] == Panic(i)
  {
    var n := |steps|;
    assert n > 0;
    RunBefore(states, steps);
    StartInvariant();
    RunInvariant(states[..n], steps[..n - 1]);
    StepLiesThere(states[n - 1], steps[n - 1], i);
    if LiesThere(states[n - 1], i) {
      k := OnlyADeathLeavesAQueue(states[..n], steps[..n - 1], i);
    } else {
      k := n - 1;
    }
  }

  /** In every run, no thread finds its channel without senders: its lab's queue leads to it until it goes. */
  lemma NoThreadIsHungUp(states: seq<World>, steps: seq<Step>, i: nat)
    requires IsRun(states, steps)
    ensures !Enabled(states[|steps|], Hangup(i))
  {
    StartInvariant();
    RunInvariant(states, steps);
  }

  // ---- the position a queued change is told

  /** The position `enqueue` reports: the counter as it finds it. */
  function Position(w: World, lab: string): nat {
    if lab in w.queues && w.queues[lab] < |w.workers| then w.workers[w.queues[lab]].pending else 0
  }

  ghost predicate Done(w: World, c: nat) {
    Answers(w.answers, c) > 0 || exists i :: 0 <= i < |w.workers| && w.workers[i].status == Replying(c)
  }

  /** The lab's changes that are not through. */
  ghost function Unfinished(w: World, lab: string): set<nat> {
    set c: nat | c < |w.handed| && w.handed[c] == lab && !Done(w, c)
  }

  lemma {:induction false} WorkIsSomewhere(xs: seq<Worker>, c: nat) returns (i: nat)
    requires InWorks(xs, c) > 0
    ensures i < |xs| && InWork(xs[i], c) > 0
  {
    var n := |xs| - 1;
    if InWork(xs[n], c) > 0 {
      i := n;
    } else {
      i := WorkIsSomewhere(xs[..n], c);
    }
  }

  lemma {:induction false} OneOfTheWorks(xs: seq<Worker>, i: nat, c: nat)
    requires i < |xs|
    ensures InWork(xs[i], c) <= InWorks(xs, c)
  {
    if i < |xs| - 1 {
      OneOfTheWorks(xs[..|xs| - 1], i, c);
    }
  }

  lemma {:induction false} OccursIffIn(cs: seq<nat>, c: nat)
    ensures Occurs(cs, c) > 0 <==> c in cs
  {
    if cs != [] {
      OccursIffIn(cs[..|cs| - 1], c);
      assert cs == cs[..|cs| - 1] + [cs[|cs| - 1]];
    }
  }

  /** An unfinished change is with its lab's own worker, which is not gone. */
  lemma UnfinishedIsQueued(w: World, lab: string, c: nat)
    requires Invariant(w) && w.sending.NoOne? && c in Unfinished(w, lab)
    ensures lab in w.queues && w.queues[lab] < |w.workers|
    ensures var x := w.workers[w.queues[lab]]; !x.status.Dead? && (c in x.channel || x.status == Running(c))
  {
    assert Places(w, c) == 1;
    var j := WorkIsSomewhere(w.workers, c);
    OccursIffIn(w.workers[j].channel, c);
    assert OrderedAt(w, w.workers[j]) && CountedAt(w.workers[j], Share(w, j), Leads(w, j));
    if c in w.workers[j].channel {
      var k :| 0 <= k < |w.workers[j].channel| && w.workers[j].channel[k] == c;
      assert Waits(w, w.workers[j].lab, c);
    }
  }

  /** What waits or runs at a live worker is unfinished, and a running change does not wait too. */
  lemma QueuedIsUnfinished(w: World, i: nat, c: nat)
    requires Invariant(w) && w.sending.NoOne? && i < |w.workers|
    requires c in w.workers[i].channel || w.workers[i].status == Running(c)
    ensures c in Unfinished(w, w.workers[i].lab)
    ensures !(c in w.workers[i].channel && w.workers[i].status == Running(c))
  {
    var x := w.workers[i];
    assert OrderedAt(w, x) && CountedAt(x, Share(w, i), Leads(w, i));
    if c in x.channel {
      var k :| 0 <= k < |x.channel| && x.channel[k] == c;
      assert Waits(w, x.lab, c);
    }
    assert c < |w.handed| && w.handed[c] == x.lab;
    OccursIffIn(x.channel, c);
    OneOfTheWorks(w.workers, i, c);
    assert Places(w, c) == 1;
    forall j | 0 <= j < |w.workers|
      ensures w.workers[j].status != Replying(c)
    {
      assert OrderedAt(w, w.workers[j]);
    }
  }

  /** What a lab's worker has waiting or running is what is unfinished of the lab. */
  lemma QueueIsUnfinished(w: World, lab: string)
    requires Invariant(w) && w.sending.NoOne? && lab in w.queues
    ensures var x := w.workers[w.queues[lab]];
            Unfinished(w, lab) == Elements(x.channel) + (if x.status.Running? then {x.status.c} else {})
  {
    var i := w.queues[lab];
    var x := w.workers[i];
    var all := Elements(x.channel) + (if x.status.Running? then {x.status.c} else {});
    forall c
      ensures c in all <==> c in Unfinished(w, lab)
    {
      if c in all {
        QueuedIsUnfinished(w, i, c);
      }
      if c in Unfinished(w, lab) {
        UnfinishedIsQueued(w, lab, c);
      }
    }
  }

  ghost predicate WorkerIs(w: World, lab: string, live: bool) {
    lab in w.queues && w.queues[lab] < |w.workers| &&
    (if live then Live(w.workers[w.queues[lab]].status) else w.workers[w.queues[lab]].status.Dead?)
  }

  /** How many changes went down with the thread of the lab's queue, when the queue is still there. */
  function Lost(w: World, lab: string): nat {
    if lab in w.queues && w.queues[lab] < |w.workers| then w.workers[w.queues[lab]].lost else 0
  }

  /** The position reported is the number of unfinished changes ahead, and of those lost with the thread. */
  lemma PositionCounts(w: World, lab: string)
    requires Invariant(w) && w.sending.NoOne?
    ensures Position(w, lab) == |Unfinished(w, lab)| + Lost(w, lab)
  {
    if lab in w.queues {
      var i := w.queues[lab];
      var x := w.workers[i];
      assert CountedAt(x, Share(w, i), Leads(w, i));
      assert Ascending(x.channel) by {
        assert OrderedAt(w, x);
      }
      QueueIsUnfinished(w, lab);
      ElementsCount(x.channel);
      if x.status.Running? {
        QueuedIsUnfinished(w, i, x.status.c);
        assert x.status.c !in Elements(x.channel);
      }
    } else {
      NoQueueNoWork(w, lab);
    }
  }

  /** While the lab's worker lives, the position reported is exactly the number of unfinished changes ahead. */
  lemma PositionIsExact(w: World, lab: string)
    requires Invariant(w) && w.sending.NoOne? && WorkerIs(w, lab, true)
    ensures Position(w, lab) == |Unfinished(w, lab)|
  {
    var i := w.queues[lab];
    assert CountedAt(w.workers[i], Share(w, i), Leads(w, i));
    PositionCounts(w, lab);
  }

  /** Without a queue nothing of the lab is unfinished, and no position is reported. */
  lemma NoQueueNoWork(w: World, lab: string)
    requires Invariant(w) && w.sending.NoOne? && lab !in w.queues
    ensures Unfinished(w, lab) == {} && Position(w, lab) == 0
  {
    if Unfinished(w, lab) != {} {
      var c :| c in Unfinished(w, lab);
      UnfinishedIsQueued(w, lab, c);
      assert false;
    }
  }

  /** A worker that is gone leaves nothing unfinished: every position told of its queue is of changes lost. */
  lemma DeadQueueIsEmpty(w: World, lab: string)
    requires Invariant(w) && w.sending.NoOne? && WorkerIs(w, lab, false)
    ensures Unfinished(w, lab) == {}
  {
    QueueIsUnfinished(w, lab);
    assert CountedAt(w.workers[w.queues[lab]], Share(w, w.queues[lab]), Leads(w, w.queues[lab]));
  }

  /**
   In every run, `Queued` tells the truth if and only if no change went down with the
   thread of the lab's queue; it is too high by as many as did, and none did while the
   thread lives.
   */
  lemma ReportedPositions(states: seq<World>, steps: seq<Step>, lab: string)
    requires IsRun(states, steps) && states[|steps|].sending.NoOne?
    ensures var w := states[|steps|];
            && Position(w, lab) == |Unfinished(w, lab)| + Lost(w, lab)
            && (Position(w, lab) == |Unfinished(w, lab)| <==> Lost(w, lab) == 0)
            && (WorkerIs(w, lab, true) ==> Lost(w, lab) == 0)
            && (lab !in w.queues ==> Position(w, lab) == 0 && Unfinished(w, lab) == {})
            && (WorkerIs(w, lab, false) ==> Unfinished(w, lab) == {})
  {
    StartInvariant();
    RunInvariant(states, steps);
    var w := states[|steps|];
    PositionCounts(w, lab);
    if WorkerIs(w, lab, true) {
      PositionIsExact(w, lab);
    } else if lab !in w.queues {
      NoQueueNoWork(w, lab);
    } else if WorkerIs(w, lab, false) {
      DeadQueueIsEmpty(w, lab);
    }
  }

  /** A change of a lab whose worker dies in it. */
  lemma CrashRun(lab: string) returns (states: seq<World>, steps: seq<Step>)
    ensures IsRun(states, steps)
    ensures var w := states[|steps|];
            && w.handed == [lab] && w.queues == map[lab := 0] && w.sending.NoOne?
            && w.workers == [Worker(lab, [], 1, Dead, 1)] && w.answers == [(0, Stopped)]
  {
    states, steps := [START], [];
    states, steps := Extended(states, steps, Enqueue(lab, true));
    assert states[1].workers == [Worker(lab, [], 1, Idle, 0)];
    states, steps := Extended(states, steps, Send);
    assert states[2].workers[0].channel == [0];
    states, steps := Extended(states, steps, Receive(0));
    assert states[3].workers[0].channel == [];
    states, steps := Extended(states, steps, Panic(0));
    assert states[4].workers == [Worker(lab, [], 1, Dying, 1)];
    states, steps := Extended(states, steps, DropChannel(0));
  }

  /**
   The worker of a lab dies in a change; the next change is told it is behind one,
   and there is none: a crash leaves the counter as it was.
   */
  lemma StalePosition(lab: string) returns (states: seq<World>, steps: seq<Step>)
    ensures IsRun(states, steps)
    ensures var w := states[|steps|]; w.sending.NoOne? && Position(w, lab) == 1 && Unfinished(w, lab) == {}
  {
    states, steps := CrashRun(lab);
    var w := states[|steps|];
    AppendAnswer([], (0, Stopped), 0);
    assert [] + [(0, Stopped)] == w.answers;
    assert Done(w, 0);
  }

  // ---- no work is left behind

  /** The steps of the daemon's own threads that move a change on. */
  predicate Moves(step: Step) {
    step.Send? || step.Retry? || step.GiveUp? || step.Receive? || step.Finish? || step.Reply? || step.DropChannel?
  }

  function Toil(x: Worker): nat {
    3 * |x.channel| + (if x.status.Running? then 2 else if x.status.Replying? || x.status.Dying? then 1 else 0)
  }

  ghost function Toils(xs: seq<Worker>): nat {
    if xs == [] then 0 else Toils(xs[..|xs| - 1]) + Toil(xs[|xs| - 1])
  }

  ghost function Left(w: World): nat {
    Toils(w.workers) + (if w.sending.NoOne? then 0 else if w.sending.last then 4 else 5)
  }

  lemma {:induction false} UpdateToil(xs: seq<Worker>, i: nat, x: Worker)
    requires i < |xs|
    ensures Toils(xs[i := x]) + Toil(xs[i]) == Toils(xs) + Toil(x)
  {
    var n := |xs| - 1;
    if i < n {
      UpdateToil(xs[..n], i, x);
      assert xs[i := x][..n] == xs[..n][i := x];
    } else {
      assert xs[i := x][..n] == xs[..n];
    }
  }

  lemma MovingOnIsProgress(w: World, step: Step)
    requires Enabled(w, step) && Moves(step)
    ensures Left(Next(w, step)) < Left(w)
  {
    if step.Send? {
      UpdateToil(w.workers, w.sending.worker, Next(w, step).workers[w.sending.worker]);
    } else if step.Retry? {
      RetryIsNoToil(w, step);
    } else if !step.GiveUp? {
      WorkerToils(w, step);
    }
  }

  lemma RetryIsNoToil(w: World, step: Step)
    requires Enabled(w, step) && step.Retry?
    ensures Toils(Next(w, step).workers) == Toils(w.workers)
  {
    var xs, ys, n := w.workers, Next(w, step).workers, |w.workers|;
    assert |ys| == n + 1 && ys[..n] == xs && Toil(ys[n]) == 0;
  }

  lemma WorkerToils(w: World, step: Step)
    requires Enabled(w, step) && (step.Receive? || step.Finish? || step.Reply? || step.DropChannel?)
    ensures Next(w, step).sending == w.sending && Toils(Next(w, step).workers) < Toils(w.workers)
  {
    UpdateToil(w.workers, step.i, Next(w, step).workers[step.i]);
  }

  /** An unanswered change can always be moved on. */
  lemma NeverStuck(w: World, c: nat) returns (step: Step)
    requires Invariant(w) && c < |w.handed| && Answers(w.answers, c) == 0
    ensures Enabled(w, step) && Moves(step)
  {
    assert Places(w, c) == 1;
    if w.sending.Sending? {
      var x := w.workers[w.sending.worker];
      step := if !x.status.Dead? then Send else if w.sending.last then GiveUp else Retry(true);
    } else {
      var i := WorkIsSomewhere(w.workers, c);
      var x := w.workers[i];
      OccursIffIn(x.channel, c);
      assert CountedAt(x, Share(w, i), Leads(w, i));
      step := match x.status
        case Idle => Receive(i)
        case Running(_) => Finish(i)
        case Replying(_) => Reply(i)
        case Dying => DropChannel(i)
        case Dead => DropChannel(i);
    }
  }

  ghost predicate AllAnswered(w: World) {
    forall c: nat :: c < |w.handed| ==> Answers(w.answers, c) == 1
  }

  lemma PrependPath(w: World, step: Step, states: seq<World>, steps: seq<Step>)
    requires Enabled(w, step) && IsPath(states, steps) && states[0] == Next(w, step)
    ensures IsPath([w] + states, [step] + steps)
  {
  }

  /** From every reachable state, its own steps alone bring the daemon to where every change is answered, once. */
  lemma {:induction false} EveryChangeIsAnswered(w: World) returns (states: seq<World>, steps: seq<Step>)
    requires Invariant(w)
    ensures IsPath(states, steps) && states[0] == w
    ensures forall k :: 0 <= k < |steps| ==> Moves(steps[k])
    ensures states[|steps|].handed == w.handed && AllAnswered(states[|steps|])
    decreases Left(w)
  {
    if c: nat :| c < |w.handed| && Answers(w.answers, c) == 0 {
      var step := NeverStuck(w, c);
      MovingOnIsProgress(w, step);
      StepKeepsInvariant(w, step);
      var after, rest := EveryChangeIsAnswered(Next(w, step));
      PrependPath(w, step, after, rest);
      states, steps := [w] + after, [step] + rest;
      assert states[|steps|] == after[|rest|];
    } else {
      states, steps := [w], [];
      forall c: nat | c < |w.handed|
        ensures Answers(w.answers, c) == 1
      {
        assert Places(w, c) == 1;
      }
    }
  }

  // ---- the code of `enqueue`

  class Queues {
    var handed: seq<string>
    var queues: map<string, nat>
    var workers: seq<Worker>
    var started: seq<nat>
    var answers: seq<(nat, Outcome)>

    ghost function State(s: Sending): World
      reads this
    {
      World(handed, queues, workers, s, started, answers)
    }

    constructor ()
      ensures State(NoOne) == START
    {
      handed, queues, workers, started, answers := [], map[], [], [], [];
    }

    /** One try: the lab's queue (made when there is none), the counter, the channel. */
    method Try(lab: string, c: nat, spawns: bool) returns (position: nat, sent: bool)
      requires lab in queues ==> queues[lab] < |workers|
      modifies this`queues, this`workers
      ensures position == old(Position(State(NoOne), lab))
      ensures sent == Sent(old(State(NoOne)), lab, spawns)
      ensures State(NoOne) == Tried(old(State(NoOne)), lab, c, spawns)
    {
      if lab !in queues {
        queues := queues[lab := |workers|];
        workers := workers + [Worker(lab, [], 0, if spawns then Idle else Dead, 0)];
      }
      var i := queues[lab];
      position := workers[i].pending;
      workers := workers[i := workers[i].(pending := position + 1)];
      sent := !workers[i].status.Dead?;
      if sent {
        workers := workers[i := workers[i].(channel := workers[i].channel + [c])];
      } else {
        queues := queues - {lab};
      }
    }

    /**
     A change handed in: two tries. What the loop does under the lock is a run of the
     steps above; it ends with the change last in the lab's channel, or answered as not
     startable.
     */
    method Enqueue(lab: string, threads: seq<bool>)
      returns (reported: seq<nat>, ghost states: seq<World>, ghost steps: seq<Step>)
      requires lab in queues ==> queues[lab] < |workers|
      requires |threads| == 2
      modifies this
      ensures IsPath(states, steps) && states[0] == old(State(NoOne)) && states[|steps|] == State(NoOne)
      ensures handed == old(handed) + [lab]
      ensures reported == if old(Position(State(NoOne), lab)) > 0 then [old(Position(State(NoOne), lab))] else []
      ensures || (answers == old(answers) && Last(State(NoOne), lab, |old(handed)|))
              || answers == old(answers) + [(|old(handed)|, CannotStart)]
    {
      ghost var w := State(NoOne);
      states, steps, reported := [w], [], [];
      var c := |handed|;
      handed := handed + [lab];
      var tries, sent := 0, false;
      while tries < 2 && !sent
        invariant 0 <= tries <= 2
        invariant handed == w.handed + [lab] && answers == w.answers
        invariant tries == 0 ==> !sent && steps == [] && states == [w] && State(NoOne) == w.(handed := handed)
        invariant IsPath(states, steps) && states[0] == w
        invariant tries > 0 && !sent ==> Failed(states[|steps|], State(NoOne), lab, c, tries == 2)
        invariant sent ==> states[|steps|] == State(NoOne) && Last(State(NoOne), lab, c)
        invariant reported == if tries > 0 && Position(w, lab) > 0 then [Position(w, lab)] else []
      {
        ghost var step := if tries == 0 then Step.Enqueue(lab, threads[0]) else Retry(threads[1]);
        TryIsSteps(states[|steps|], State(NoOne), lab, c, step, tries == 0);
        var position;
        position, sent := Try(lab, c, threads[tries]);
        if position > 0 {
          reported := reported + [position];
        }
        states, steps := Extended(states, steps, step);
        if sent {
          states, steps := Extended(states, steps, Send);
        }
        tries := tries + 1;
      }
      if !sent {
        answers := answers + [(c, CannotStart)];
        states, steps := Extended(states, steps, GiveUp);
      }
    }
  }

  predicate Sent(v: World, lab: string, spawns: bool)
    requires lab in v.queues ==> v.queues[lab] < |v.workers|
  {
    var m := Spawned(v, lab, spawns);
    !m.workers[m.queues[lab]].status.Dead?
  }

  function Tried(v: World, lab: string, c: nat, spawns: bool): World
    requires lab in v.queues ==> v.queues[lab] < |v.workers|
  {
    var m := Spawned(v, lab, spawns);
    var i := m.queues[lab];
    var b := Bumped(m, i);
    if Sent(v, lab, spawns) then Become(b, i, b.workers[i].(channel := b.workers[i].channel + [c]))
    else b.(queues := m.queues - {lab})
  }

  /** A try failed: the dead queue is out of the map, the change still in hand. */
  ghost predicate Failed(s: World, v: World, lab: string, c: nat, last: bool) {
    && s.sending.Sending? && s.sending.lab == lab && s.sending.c == c && s.sending.last == last
    && Is(s, s.sending.worker, Dead)
    && lab !in v.queues && v == s.(queues := s.queues - {lab}, sending := NoOne)
  }

  lemma TryIsSteps(s: World, v: World, lab: string, c: nat, step: Step, first: bool)
    requires first ==> step.Enqueue? && step.lab == lab && s.sending.NoOne? && c == |s.handed|
                       && v == s.(handed := s.handed + [lab]) && (lab in s.queues ==> s.queues[lab] < |s.workers|)
    requires !first ==> step.Retry? && Failed(s, v, lab, c, false)
    ensures Enabled(s, step)
    ensures var t := Next(s, step);
            var u := Tried(v, lab, c, step.spawns);
            if Sent(v, lab, step.spawns) then Enabled(t, Send) && Next(t, Send) == u && Last(u, lab, c)
            else Failed(t, u, lab, c, !first)
  {
    var t := Next(s, step);
    var m := Spawned(v, lab, step.spawns);
    var b := Bumped(m, m.queues[lab]);
    assert t == b.(sending := Sending(lab, c, m.queues[lab], !first));
  }

  ghost predicate Last(w: World, lab: string, c: nat) {
    && lab in w.queues && w.queues[lab] < |w.workers|
    && var ch := w.workers[w.queues[lab]].channel; ch != [] && ch[|ch| - 1] == c
  }

  lemma Extended(states: seq<World>, steps: seq<Step>, step: Step) returns (more: seq<World>, taken: seq<Step>)
    requires IsPath(states, steps) && Enabled(states[|steps|], step)
    ensures IsPath(more, taken) && |taken| == |steps| + 1 && more[|taken|] == Next(states[|steps|], step)
    ensures more[0] == states[0]
  {
    more, taken := states + [Next(states[|steps|], step)], steps + [step];
  }
}
