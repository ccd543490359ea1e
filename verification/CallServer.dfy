/**
 The daemon's half of the call protocol (`connection`, `start`, `welcome` and
 `CallHandle::leave` of `bins/nlink-labd/src/server.rs`): who is let in, which calls
 run, which table entry is whose, and what is owed to every message. The connection's loop
 and the calls' tasks take turns in any order.
 */
module CallServer {
  import opened Prelude

  datatype Role = Viewer | Operator

  /** A message of the client; `Call` says which role its request is for and what leaving means for it. */
  datatype Msg =
    | Hello(major: nat)
    | Call(needs: Role, onLeave: OnLeave)
    | CancelCall
    | Detach
    | Input
    | Ping
    | Garbage

  datatype Why = Finished | BadMessage | NoHello | NotAllowed | AlreadyRunning | Refused

  /** A frame sent; an end also says here which message (by number) it answers. */
  datatype Frame = Welcome | Pong | End(call: nat, of: nat, why: Why)

  /** A call's task: running, its table entry removed, its end sent. */
  datatype Stage = Running | Removed | Ended

  datatype Task = Task(call: nat, of: nat, needs: Role, onLeave: OnLeave, stage: Stage, cancel: bool, detached: bool)

  datatype Conn = Open | Leaving | Gone

  datatype World = World(
    role: Option<Role>,
    conn: Conn,
    welcomed: bool,
    processed: seq<(nat, Msg)>,
    table: map<nat, nat>,
    tasks: seq<Task>,
    out: seq<Frame>)

  datatype Step =
    | Process(call: nat, msg: Msg)
    | Disconnect
    | LeaveAll
    | Remove(t: nat)
    | SendEnd(t: nat)

  const API_MAJOR := 1

  function Start(role: Option<Role>): World {
    World(role, Open, false, [], map[], [], [])
  }

  predicate May(role: Option<Role>, needs: Role) {
    role.Some? && (needs.Operator? ==> role.value.Operator?)
  }

  /** The task of a call its client left: told so when the call continues, cancelled otherwise. */
  function Left(t: Task): Task {
    if t.onLeave.Continue? then t.(detached := true) else t.(cancel := true)
  }

  predicate Enabled(w: World, step: Step) {
    match step
    case Process(_, _) => w.conn.Open?
    case Disconnect => w.conn.Open?
    case LeaveAll => w.conn.Leaving?
    case Remove(t) => t < |w.tasks| && w.tasks[t].stage.Running?
    case SendEnd(t) => t < |w.tasks| && w.tasks[t].stage.Removed?
  }

  function Say(w: World, f: Frame): World {
    w.(out := w.out + [f])
  }

  /** A running call's handle, when the table has one. */
  function Handle(w: World, call: nat): Option<nat> {
    if call in w.table && w.table[call] < |w.tasks| then Some(w.table[call]) else None
  }

  /** `start`: an end for a role too low, an end for an id in the table, or a new entry with a new task. */
  function StartCall(w: World, call: nat, msg: Msg, of: nat): World
    requires msg.Call?
  {
    if !May(w.role, msg.needs) then Say(w, End(call, of, NotAllowed))
    else if call in w.table then Say(w, End(call, of, AlreadyRunning))
    else w.(table := w.table[call := |w.tasks|],
            tasks := w.tasks + [Task(call, of, msg.needs, msg.onLeave, Running, false, false)])
  }

  /** One message of the client, through the connection's loop. */
  function Processed(w: World, call: nat, msg: Msg): World {
    var of := |w.processed|;
    var v := w.(processed := w.processed + [(call, msg)]);
    if msg.Garbage? then
      Say(v, End(call, of, BadMessage)).(conn := if call == 0 then Leaving else w.conn)
    else if call == 0 then
      if msg.Hello? && !w.welcomed then
        if msg.major == API_MAJOR && w.role.Some? then Say(v, Welcome).(welcomed := true)
        else Say(v, End(0, of, Refused)).(conn := Leaving)
      else if msg.Ping? then Say(v, Pong)
      else v
    else if w.role.None? || !w.welcomed then Say(v, End(call, of, NoHello)).(conn := Leaving)
    else if msg.Call? then StartCall(v, call, msg, of)
    else if Handle(w, call).None? then v
    else
      var t := Handle(w, call).value;
      if msg.CancelCall? then v.(tasks := v.tasks[t := v.tasks[t].(cancel := true)])
      else if msg.Detach? then v.(tasks := v.tasks[t := Left(v.tasks[t])])
      else v
  }

  function Next(w: World, step: Step): World
    requires Enabled(w, step)
  {
    match step
    case Process(call, msg) => Processed(w, call, msg)
    case Disconnect => w.(conn := Leaving)
    case LeaveAll =>
      w.(conn := Gone, table := map[],
         tasks := seq(|w.tasks|, i requires 0 <= i < |w.tasks| =>
           if w.tasks[i].call in w.table && w.table[w.tasks[i].call] == i then Left(w.tasks[i]) else w.tasks[i]))
    case Remove(t) =>
      w.(tasks := w.tasks[t := w.tasks[t].(stage := Removed)], table := w.table - {w.tasks[t].call})
    case SendEnd(t) =>
      var x := w.tasks[t];
      Say(w, End(x.call, x.of, Finished)).(tasks := w.tasks[t := x.(stage := Ended)])
  }

  ghost predicate IsRun(role: Option<Role>, states: seq<World>, steps: seq<Step>) {
    && |states| == |steps| + 1
    && states[0] == Start(role)
    && forall k :: 0 <= k < |steps| ==> Enabled(states[k], steps[k]) && states[k + 1] == Next(states[k], steps[k])
  }

  // ---- the table

  /** The table leads each id to its own running task, and to every one while the connection is there. */
  ghost predicate TableOk(w: World) {
    && (forall id :: id in w.table ==>
          w.table[id] < |w.tasks| && w.tasks[w.table[id]].call == id && w.tasks[w.table[id]].stage.Running?)
    && (!w.conn.Gone? ==> forall t :: 0 <= t < |w.tasks| && w.tasks[t].stage.Running? ==>
          w.tasks[t].call in w.table && w.table[w.tasks[t].call] == t)
    && (w.conn.Gone? ==> w.table == map[])
  }

  /** Every task was allowed: after a welcome, for a peer with a role, of its role, not on the connection's own id. */
  ghost predicate AllowedTask(w: World, x: Task) {
    w.welcomed && May(w.role, x.needs) && x.call != 0
  }

  ghost predicate Allowed(w: World) {
    forall t :: 0 <= t < |w.tasks| ==> AllowedTask(w, w.tasks[t])
  }

  lemma MoreTable(w: World, v: World, call: nat)
    requires TableOk(w) && !w.conn.Gone? && !v.conn.Gone? && call !in w.table && v.table == w.table[call := |w.tasks|]
    requires |v.tasks| == |w.tasks| + 1 && v.tasks[..|w.tasks|] == w.tasks
    requires v.tasks[|w.tasks|].call == call && v.tasks[|w.tasks|].stage.Running?
    ensures TableOk(v)
  {
    assert forall t :: 0 <= t < |w.tasks| ==> v.tasks[t] == w.tasks[t];
  }

  lemma ProcessKeepsTable(w: World, call: nat, msg: Msg)
    requires TableOk(w) && w.conn.Open?
    ensures TableOk(Processed(w, call, msg))
  {
    var v := Processed(w, call, msg);
    if |v.tasks| == |w.tasks| {
      assert v.table == w.table && !v.conn.Gone?;
    } else {
      assert v.table == w.table[call := |w.tasks|] && call !in w.table;
      assert v.tasks[..|w.tasks|] == w.tasks && v.tasks[|w.tasks|].call == call;
      MoreTable(w, v, call);
    }
  }

  lemma StepKeepsTable(w: World, step: Step)
    requires TableOk(w) && Enabled(w, step)
    ensures TableOk(Next(w, step))
  {
    if step.Process? {
      ProcessKeepsTable(w, step.call, step.msg);
    } else {
      var v := Next(w, step);
      forall id | id in v.table
        ensures v.table[id] < |v.tasks| && v.tasks[v.table[id]].call == id && v.tasks[v.table[id]].stage.Running?
      {
      }
    }
  }

  lemma StepKeepsAllowed(w: World, step: Step)
    requires Allowed(w) && Enabled(w, step)
    ensures Allowed(Next(w, step))
  {
    var v := Next(w, step);
    forall t | 0 <= t < |v.tasks|
      ensures AllowedTask(v, v.tasks[t])
    {
      if t < |w.tasks| {
        assert AllowedTask(w, w.tasks[t]);
        assert w.tasks[t].needs == v.tasks[t].needs && w.tasks[t].call == v.tasks[t].call;
      }
    }
  }

  /** A task that ends takes its own entry out of the table, and no other. */
  lemma RemovesItsOwnEntry(w: World, t: nat)
    requires TableOk(w) && Enabled(w, Remove(t))
    ensures var v := Next(w, Remove(t));
            && (forall id :: id in w.table && id !in v.table ==> w.table[id] == t)
            && (forall id :: id in v.table ==> id in w.table && v.table[id] == w.table[id])
  {
  }

  // ---- one end for each call

  function EndsOf(out: seq<Frame>, m: nat): nat {
    if out == [] then 0
    else EndsOf(out[..|out| - 1], m) + (if out[|out| - 1].End? && out[|out| - 1].of == m then 1 else 0)
  }

  function LiveOf(tasks: seq<Task>, m: nat): nat {
    if tasks == [] then 0
    else LiveOf(tasks[..|tasks| - 1], m) + Live(tasks[|tasks| - 1], m)
  }

  function Live(x: Task, m: nat): nat {
    if !x.stage.Ended? && x.of == m then 1 else 0
  }

  /** How often message `m` is answered or still to be. */
  function Answers(w: World, m: nat): nat {
    EndsOf(w.out, m) + LiveOf(w.tasks, m)
  }

  lemma SayEnds(out: seq<Frame>, f: Frame, m: nat)
    ensures EndsOf(out + [f], m) == EndsOf(out, m) + (if f.End? && f.of == m then 1 else 0)
  {
    assert (out + [f])[..|out|] == out;
  }

  lemma {:induction false} UpdateLive(tasks: seq<Task>, t: nat, x: Task, m: nat)
    requires t < |tasks|
    ensures LiveOf(tasks[t := x], m) + Live(tasks[t], m) == LiveOf(tasks, m) + Live(x, m)
  {
    var n := |tasks| - 1;
    if t < n {
      UpdateLive(tasks[..n], t, x, m);
      assert tasks[t := x][..n] == tasks[..n][t := x];
    } else {
      assert tasks[t := x][..n] == tasks[..n];
    }
  }

  lemma {:induction false} SameLive(a: seq<Task>, b: seq<Task>, m: nat)
    requires |a| == |b| && forall i :: 0 <= i < |a| ==> a[i].stage == b[i].stage && a[i].of == b[i].of
    ensures LiveOf(a, m) == LiveOf(b, m)
  {
    if a != [] {
      SameLive(a[..|a| - 1], b[..|b| - 1], m);
    }
  }

  /** The messages that get an end: every one the server cannot read, and every call not on id 0. */
  predicate IsAnswered(call: nat, msg: Msg) {
    msg.Garbage? || (call != 0 && msg.Call?)
  }

  lemma ProcessAnswers(w: World, call: nat, msg: Msg, m: nat)
    ensures m != |w.processed| ==> Answers(Processed(w, call, msg), m) == Answers(w, m)
    ensures m == |w.processed| && IsAnswered(call, msg) ==> Answers(Processed(w, call, msg), m) == Answers(w, m) + 1
    ensures m == |w.processed| && call == 0 && msg.Call? ==> Answers(Processed(w, call, msg), m) == Answers(w, m)
  {
    ProcessEnds(w, call, msg, m);
    ProcessLive(w, call, msg, m);
  }

  /** Whether the message becomes a task. */
  predicate Starts(w: World, call: nat, msg: Msg) {
    call != 0 && w.welcomed && msg.Call? && May(w.role, msg.needs) && call !in w.table
  }

  lemma ProcessEnds(w: World, call: nat, msg: Msg, m: nat)
    ensures var ends := EndsOf(Processed(w, call, msg).out, m);
            && (m != |w.processed| ==> ends == EndsOf(w.out, m))
            && (m == |w.processed| && IsAnswered(call, msg) ==>
                  ends == EndsOf(w.out, m) + (if Starts(w, call, msg) then 0 else 1))
            && (call == 0 && msg.Call? ==> ends == EndsOf(w.out, m))
  {
    var v := Processed(w, call, msg);
    if |v.out| == |w.out| + 1 {
      SayEnds(w.out, v.out[|w.out|], m);
      assert v.out == w.out + [v.out[|w.out|]];
    }
  }

  lemma ProcessLive(w: World, call: nat, msg: Msg, m: nat)
    ensures LiveOf(Processed(w, call, msg).tasks, m) ==
            LiveOf(w.tasks, m) + (if Starts(w, call, msg) && m == |w.processed| then 1 else 0)
  {
    var v := Processed(w, call, msg);
    if Starts(w, call, msg) {
      assert v.tasks[..|w.tasks|] == w.tasks;
    } else {
      SameLive(v.tasks, w.tasks, m);
    }
  }

  lemma TaskAnswers(w: World, step: Step, m: nat)
    requires Enabled(w, step) && !step.Process?
    ensures Answers(Next(w, step), m) == Answers(w, m)
  {
    var v := Next(w, step);
    if step.Remove? {
      UpdateLive(w.tasks, step.t, v.tasks[step.t], m);
    } else if step.SendEnd? {
      UpdateLive(w.tasks, step.t, v.tasks[step.t], m);
      SayEnds(w.out, v.out[|w.out|], m);
    } else {
      SameLive(v.tasks, w.tasks, m);
    }
  }

  ghost predicate AnsweredOnce(w: World, m: nat) {
    && (m >= |w.processed| ==> Answers(w, m) == 0)
    && (m < |w.processed| && IsAnswered(w.processed[m].0, w.processed[m].1) ==> Answers(w, m) == 1)
    && (m < |w.processed| && w.processed[m].0 == 0 && w.processed[m].1.Call? ==> Answers(w, m) == 0)
  }

  /** Each call message (not on id 0) answered exactly once, in the end. */
  ghost predicate Answered(w: World) {
    forall m: nat :: AnsweredOnce(w, m)
  }

  lemma StepKeepsAnswered(w: World, step: Step)
    requires Answered(w) && Enabled(w, step)
    ensures Answered(Next(w, step))
  {
    var v := Next(w, step);
    forall m: nat
      ensures AnsweredOnce(v, m)
    {
      assert AnsweredOnce(w, m);
      if step.Process? {
        ProcessAnswers(w, step.call, step.msg, m);
        assert v.processed == w.processed + [(step.call, step.msg)];
      } else {
        TaskAnswers(w, step, m);
        assert v.processed == w.processed;
      }
    }
  }

  /** What every step keeps. */
  ghost predicate Kept(w: World) {
    TableOk(w) && Allowed(w) && Answered(w)
  }

  lemma StepKeeps(w: World, step: Step)
    requires Kept(w) && Enabled(w, step)
    ensures Kept(Next(w, step))
  {
    StepKeepsTable(w, step);
    StepKeepsAllowed(w, step);
    StepKeepsAnswered(w, step);
  }

  lemma RunBefore(role: Option<Role>, states: seq<World>, steps: seq<Step>)
    requires IsRun(role, states, steps) && steps != []
    ensures var n := |steps| - 1; IsRun(role, states[..n + 1], steps[..n]) && states[..n + 1][n] == states[n]
    ensures var n := |steps| - 1; Enabled(states[n], steps[n]) && states[n + 1] == Next(states[n], steps[n])
  {
  }

  lemma {:induction false} RunKeeps(role: Option<Role>, states: seq<World>, steps: seq<Step>)
    requires IsRun(role, states, steps)
    ensures Kept(states[|steps|])
  {
    var n := |steps|;
    if n > 0 {
      RunKeeps(role, states[..n], steps[..n - 1]);
      StepKeeps(states[n - 1], steps[n - 1]);
    }
  }

  /**
   In every run, a call message gets exactly one end, sent or still its task's to send,
   if and only if it is not on id 0, which gets none.
   */
  lemma OneEndPerCall(role: Option<Role>, states: seq<World>, steps: seq<Step>, m: nat)
    requires IsRun(role, states, steps) && m < |states[|steps|].processed| && states[|steps|].processed[m].1.Call?
    ensures var w := states[|steps|];
            && EndsOf(w.out, m) + LiveOf(w.tasks, m) == (if w.processed[m].0 != 0 then 1 else 0)
            && (LiveOf(w.tasks, m) == 0 ==> (EndsOf(w.out, m) == 1 <==> w.processed[m].0 != 0))
  {
    RunKeeps(role, states, steps);
    var w := states[|steps|];
    assert AnsweredOnce(w, m);
    assert Answers(w, m) == if w.processed[m].0 != 0 then 1 else 0;
  }

  /** In every run, no call runs before a welcome, for a peer without a role, or above its role. */
  lemma CallsAreAllowed(role: Option<Role>, states: seq<World>, steps: seq<Step>, t: nat)
    requires IsRun(role, states, steps) && t < |states[|steps|].tasks|
    ensures var w := states[|steps|];
            w.welcomed && w.role.Some? && (w.tasks[t].needs.Operator? ==> w.role.value.Operator?)
  {
    RunKeeps(role, states, steps);
    assert AllowedTask(states[|steps|], states[|steps|].tasks[t]);
  }

  // ---- which token is set when

  /** A message for the running call of task `t` comes through. */
  ghost predicate ForTask(w: World, step: Step, t: nat) {
    && step.Process? && step.call != 0 && w.welcomed && w.role.Some?
    && step.call in w.table && w.table[step.call] == t < |w.tasks|
  }

  /** The client of task `t` leaves it: it detaches the call, or is gone with the call still in the table. */
  ghost predicate LeavesTask(w: World, step: Step, t: nat) {
    || (ForTask(w, step, t) && step.msg.Detach?)
    || (step.LeaveAll? && t < |w.tasks| && w.tasks[t].call in w.table && w.table[w.tasks[t].call] == t)
  }

  ghost predicate CancelsTask(w: World, step: Step, t: nat) {
    (ForTask(w, step, t) && step.msg.CancelCall?) || (LeavesTask(w, step, t) && w.tasks[t].onLeave == Cancel)
  }

  ghost predicate DetachesTask(w: World, step: Step, t: nat) {
    LeavesTask(w, step, t) && w.tasks[t].onLeave == Continue
  }

  lemma StepSetsTokens(w: World, step: Step, t: nat)
    requires TableOk(w) && Enabled(w, step) && t < |w.tasks|
    ensures t < |Next(w, step).tasks|
    ensures var x, y := w.tasks[t], Next(w, step).tasks[t];
            && (y.cancel <==> x.cancel || CancelsTask(w, step, t))
            && (y.detached <==> x.detached || DetachesTask(w, step, t))
            && y.call == x.call && y.of == x.of && y.needs == x.needs && y.onLeave == x.onLeave
            && (y.stage != x.stage ==> step == (if y.stage.Removed? then Remove(t) else SendEnd(t)))
  {
  }

  lemma NewTask(w: World, step: Step, t: nat)
    requires TableOk(w) && Enabled(w, step) && |w.tasks| <= t < |Next(w, step).tasks|
    ensures t == |w.tasks| && step.Process? && step.msg.Call?
    ensures Next(w, step).tasks[t] ==
            Task(step.call, |w.processed|, step.msg.needs, step.msg.onLeave, Running, false, false)
  {
  }

  ghost predicate Happened(states: seq<World>, steps: seq<Step>, t: nat, cancel: bool) {
    exists k :: 0 <= k < |steps| && k < |states| &&
      if cancel then CancelsTask(states[k], steps[k], t) else DetachesTask(states[k], steps[k], t)
  }

  lemma HappenedMore(states: seq<World>, steps: seq<Step>, t: nat, cancel: bool)
    requires |states| == |steps| + 1 && steps != []
    ensures var n := |steps| - 1;
            Happened(states, steps, t, cancel) <==>
            Happened(states[..n + 1], steps[..n], t, cancel) ||
            (if cancel then CancelsTask(states[n], steps[n], t) else DetachesTask(states[n], steps[n], t))
  {
    var n := |steps| - 1;
    var before, past := states[..n + 1], steps[..n];
    assert forall k :: 0 <= k < n ==> before[k] == states[k] && past[k] == steps[k];
  }

  lemma {:induction false} TasksStay(role: Option<Role>, states: seq<World>, steps: seq<Step>, k: nat)
    requires IsRun(role, states, steps) && k <= |steps|
    ensures |states[k].tasks| <= |states[|steps|].tasks|
  {
    var n := |steps|;
    if k < n {
      TasksStay(role, states[..n], steps[..n - 1], k);
    }
  }

  /**
   In every run, a call's task is cancelled if and only if a cancel of the call came through
   while it ran, or its client left it and leaving cancels it; and it is told it was left if
   and only if its client left it and it continues.
   */
  lemma {:induction false} TokensTellWhatHappened(role: Option<Role>, states: seq<World>, steps: seq<Step>, t: nat)
    requires IsRun(role, states, steps) && t < |states[|steps|].tasks|
    ensures states[|steps|].tasks[t].cancel <==> Happened(states, steps, t, true)
    ensures states[|steps|].tasks[t].detached <==> Happened(states, steps, t, false)
  {
    var n := |steps|;
    if n > 0 {
      RunBefore(role, states, steps);
      HappenedMore(states, steps, t, true);
      HappenedMore(states, steps, t, false);
      RunKeeps(role, states[..n], steps[..n - 1]);
      if t < |states[n - 1].tasks| {
        TokensTellWhatHappened(role, states[..n], steps[..n - 1], t);
        StepSetsTokens(states[n - 1], steps[n - 1], t);
      } else {
        NewTask(states[n - 1], steps[n - 1], t);
        NothingHappenedYet(role, states[..n], steps[..n - 1], t);
      }
    }
  }

  lemma NothingHappenedYet(role: Option<Role>, states: seq<World>, steps: seq<Step>, t: nat)
    requires IsRun(role, states, steps) && t >= |states[|steps|].tasks|
    ensures !Happened(states, steps, t, true) && !Happened(states, steps, t, false)
  {
    forall k | 0 <= k < |steps|
      ensures t >= |states[k].tasks|
    {
      TasksStay(role, states, steps, k);
    }
  }

  /** When the client is gone, every running call is told so: detached if it continues, cancelled if not. */
  lemma LeaveAllMeans(w: World, t: nat)
    requires TableOk(w) && w.conn.Leaving? && t < |w.tasks|
    ensures var x, y := w.tasks[t], Next(w, LeaveAll).tasks[t];
            if !x.stage.Running? then y == x
            else if x.onLeave == Continue then y.detached && y.cancel == x.cancel
            else y.cancel && y.detached == x.detached
  {
  }

  // ---- who is let in, what starts and what is said

  predicate Enough(role: Option<Role>, needs: Role) {
    role.Some? && (role.value.Operator? || needs.Viewer?)
  }

  /** A call starts if and only if it is not on id 0, after a welcome, of a sufficient role, and on a free id. */
  lemma StartsIff(w: World, call: nat, msg: Msg)
    ensures |Processed(w, call, msg).tasks| > |w.tasks| <==>
            call != 0 && msg.Call? && w.welcomed && Enough(w.role, msg.needs) && call !in w.table
  {
  }

  /** A peer is welcomed by the first hello of the server's major version, if it has a role. */
  lemma WelcomedIff(w: World, call: nat, msg: Msg)
    ensures Processed(w, call, msg).welcomed <==>
            w.welcomed || (call == 0 && msg.Hello? && msg.major == API_MAJOR && w.role.Some?)
  {
  }

  /** A ping gets a pong, the first good hello a welcome, and nothing else does. */
  lemma OwnAnswers(w: World, call: nat, msg: Msg)
    ensures Processed(w, call, msg).out == w.out + [Pong] <==> call == 0 && msg.Ping?
    ensures Processed(w, call, msg).out == w.out + [Welcome] <==>
            call == 0 && !w.welcomed && msg.Hello? && msg.major == API_MAJOR && w.role.Some?
  {
    var v := Processed(w, call, msg);
    assert |v.out| == |w.out| + 1 ==> v.out == w.out + [v.out[|w.out|]];
    assert (w.out + [Pong])[|w.out|] == Pong && (w.out + [Welcome])[|w.out|] == Welcome;
  }

  /** The connection ends for what cannot be read on id 0, for a hello that is not welcomed, and for the lack of one. */
  lemma HangsUpIff(w: World, call: nat, msg: Msg)
    requires w.conn.Open?
    ensures !Processed(w, call, msg).conn.Open? <==>
            if call == 0 then msg.Garbage? || (msg.Hello? && !w.welcomed && !(msg.major == API_MAJOR && w.role.Some?))
            else !msg.Garbage? && !(w.welcomed && w.role.Some?)
  {
  }

  /** A call that runs gets its end whenever its task is through: its entry goes, then the end says so. */
  lemma CallGetsItsEnd(w: World, t: nat)
    requires TableOk(w) && t < |w.tasks| && w.tasks[t].stage.Running?
    ensures Enabled(w, Remove(t))
    ensures var removed := Next(w, Remove(t));
            && removed.tasks[t].call !in removed.table && Enabled(removed, SendEnd(t))
            && Next(removed, SendEnd(t)).out == w.out + [End(w.tasks[t].call, w.tasks[t].of, Finished)]
            && Next(removed, SendEnd(t)).tasks[t].stage.Ended?
  {
  }

  /** A frame is the truth about the message it answers. */
  ghost predicate IsTrue(w: World, f: Frame) {
    match f
    case Welcome => w.welcomed && w.role.Some?
    case Pong => true
    case End(call, of, why) =>
      && of < |w.processed| && w.processed[of].0 == call
      && var msg := w.processed[of].1;
         match why
         case Finished => call != 0 && msg.Call? && Enough(w.role, msg.needs)
         case AlreadyRunning => call != 0 && msg.Call? && Enough(w.role, msg.needs)
         case NotAllowed => call != 0 && msg.Call? && w.role.Some? && !Enough(w.role, msg.needs)
         case BadMessage => msg.Garbage?
         case NoHello => call != 0 && !(w.welcomed && w.role.Some?) && !w.conn.Open?
         case Refused => call == 0 && msg.Hello? && !(msg.major == API_MAJOR && w.role.Some?)
  }

  /** A task is that of the message it runs for. */
  ghost predicate IsOf(w: World, x: Task) {
    && x.of < |w.processed| && w.processed[x.of] == (x.call, Call(x.needs, x.onLeave))
    && x.call != 0 && Enough(w.role, x.needs)
  }

  ghost predicate Truthful(w: World) {
    && (forall i :: 0 <= i < |w.out| ==> IsTrue(w, w.out[i]))
    && (forall t :: 0 <= t < |w.tasks| ==> IsOf(w, w.tasks[t]))
  }

  lemma SaidStaysTrue(w: World, step: Step, f: Frame)
    requires Enabled(w, step) && IsTrue(w, f)
    ensures IsTrue(Next(w, step), f)
  {
    var v := Next(w, step);
    assert w.processed <= v.processed;
  }

  lemma TaskStaysOf(w: World, step: Step, t: nat)
    requires TableOk(w) && Enabled(w, step) && t < |w.tasks| && IsOf(w, w.tasks[t])
    ensures t < |Next(w, step).tasks| && IsOf(Next(w, step), Next(w, step).tasks[t])
  {
    StepSetsTokens(w, step, t);
    assert w.processed <= Next(w, step).processed;
  }

  lemma NewlySaidIsTrue(w: World, step: Step)
    requires TableOk(w) && Truthful(w) && Enabled(w, step)
    ensures var v := Next(w, step);
            && w.out <= v.out && |v.out| <= |w.out| + 1
            && (|v.out| == |w.out| + 1 ==> IsTrue(v, v.out[|w.out|]))
  {
    if step.SendEnd? {
      assert IsOf(w, w.tasks[step.t]);
    }
  }

  lemma StepKeepsTruthful(w: World, step: Step)
    requires TableOk(w) && Truthful(w) && Enabled(w, step)
    ensures Truthful(Next(w, step))
  {
    var v := Next(w, step);
    NewlySaidIsTrue(w, step);
    forall i | 0 <= i < |v.out|
      ensures IsTrue(v, v.out[i])
    {
      if i < |w.out| {
        SaidStaysTrue(w, step, w.out[i]);
      }
    }
    forall t | 0 <= t < |v.tasks|
      ensures IsOf(v, v.tasks[t])
    {
      if t < |w.tasks| {
        TaskStaysOf(w, step, t);
      } else {
        NewTask(w, step, t);
        StartsIff(w, step.call, step.msg);
      }
    }
  }

  /**
   In every run, what is said of a message is so: a call is refused for its role exactly when
   the role is too low, and every task runs the request, with the leaving, of its own message.
   */
  lemma {:induction false} WhatIsSaidIsTrue(role: Option<Role>, states: seq<World>, steps: seq<Step>)
    requires IsRun(role, states, steps)
    ensures Truthful(states[|steps|])
  {
    var n := |steps|;
    if n > 0 {
      RunBefore(role, states, steps);
      WhatIsSaidIsTrue(role, states[..n], steps[..n - 1]);
      RunKeeps(role, states[..n], steps[..n - 1]);
      StepKeepsTruthful(states[n - 1], steps[n - 1]);
    }
  }

  // ---- the connection's loop, message by message

  /** One connection: what its loop and its calls' tasks share. */
  class Connection {
    const role: Option<Role>
    var conn: Conn
    var welcomed: bool
    ghost var processed: seq<(nat, Msg)>
    var table: map<nat, nat>
    var tasks: seq<Task>
    var out: seq<Frame>
    var count: nat

    ghost function Now(): World
      reads this
    {
      World(role, conn, welcomed, processed, table, tasks, out)
    }

    ghost predicate Valid()
      reads this
    {
      Kept(Now()) && count == |processed|
    }

    constructor (role: Option<Role>)
      ensures Valid() && Now() == Start(role)
    {
      this.role := role;
      conn, welcomed, table, tasks, out := Open, false, map[], [], [];
      count, processed := 0, [];
    }

    method Send(f: Frame)
      modifies this`out
      ensures Now() == Say(old(Now()), f)
    {
      out := out + [f];
    }

    /** Either the call gets the one task and entry, or an end says why not; no other call's entry or task changes. */
    method StartOne(call: nat, msg: Msg, of: nat)
      requires msg.Call?
      modifies this`table, this`tasks, this`out
      ensures Now() == StartCall(old(Now()), call, msg, of)
      ensures |tasks| + |out| == |old(tasks)| + |old(out)| + 1 && old(tasks) <= tasks && old(out) <= out
      ensures forall id :: id != call && id in old(table) ==> id in table && table[id] == old(table)[id]
    {
      if !May(role, msg.needs) {
        Send(End(call, of, NotAllowed));
        return;
      }
      var inUse := call in table;
      if !inUse {
        table := table[call := |tasks|];
      }
      if inUse {
        Send(End(call, of, AlreadyRunning));
        return;
      }
      tasks := tasks + [Task(call, of, msg.needs, msg.onLeave, Running, false, false)];
    }

    /** A message on the connection's own id: the handshake and pings. */
    method ReceiveOwn(msg: Msg, of: nat)
      requires conn.Open? && !msg.Garbage?
      modifies this`conn, this`welcomed, this`out
      ensures var w := old(Now());
              Now() ==
              if msg.Hello? && !w.welcomed then
                if msg.major == API_MAJOR && w.role.Some? then Say(w, Welcome).(welcomed := true)
                else Say(w, End(0, of, Refused)).(conn := Leaving)
              else if msg.Ping? then Say(w, Pong)
              else w
    {
      if msg.Hello? && !welcomed {
        if msg.major == API_MAJOR && role.Some? {
          welcomed := true;
          Send(Welcome);
        } else {
          Send(End(0, of, Refused));
          conn := Leaving;
        }
      } else if msg.Ping? {
        Send(Pong);
      }
    }

    /** A message for a running call, when the table has it. */
    method ReceiveFor(call: nat, msg: Msg)
      requires call in table && table[call] < |tasks|
      modifies this`tasks
      ensures tasks ==
              var t := table[call];
              if msg.CancelCall? then old(tasks)[t := old(tasks)[t].(cancel := true)]
              else if msg.Detach? then old(tasks)[t := Left(old(tasks)[t])]
              else old(tasks)
    {
      var t := table[call];
      if msg.CancelCall? {
        tasks := tasks[t := tasks[t].(cancel := true)];
      } else if msg.Detach? {
        tasks := tasks[t := Left(tasks[t])];
      }
    }

    /**
     One message in: a step of the protocol. The table stays right, tasks allowed and ends
     counted: a call not on id 0 has its one end, sent or owed.
     */
    method Receive(call: nat, msg: Msg)
      requires Valid() && conn.Open?
      modifies this
      ensures Valid() && Now() == Processed(old(Now()), call, msg)
      ensures msg.Call? && call != 0 ==> Answers(Now(), old(count)) == 1
      ensures |tasks| > |old(tasks)| ==> welcomed && May(role, msg.needs)
    {
      ghost var was := Now();
      StepKeeps(was, Process(call, msg));
      ProcessAnswers(was, call, msg, count);
      assert AnsweredOnce(was, count);
      Dispatch(call, msg);
    }

    method Dispatch(call: nat, msg: Msg)
      requires TableOk(Now()) && conn.Open? && count == |processed|
      modifies this
      ensures Now() == Processed(old(Now()), call, msg) && count == |processed|
    {
      var of := count;
      count, processed := count + 1, processed + [(call, msg)];
      if msg.Garbage? {
        Send(End(call, of, BadMessage));
        if call == 0 {
          conn := Leaving;
        }
      } else if call == 0 {
        ReceiveOwn(msg, of);
      } else if role.None? || !welcomed {
        Send(End(call, of, NoHello));
        conn := Leaving;
      } else if msg.Call? {
        StartOne(call, msg, of);
      } else if call in table {
        ReceiveFor(call, msg);
      }
    }

    method Drain()
      requires TableOk(Now())
      modifies this`table, this`tasks
      ensures table == map[] && tasks == LeftSince(old(Now()), map[])
    {
      ghost var was := Now();
      NoneLeft(was);
      while table != map[]
        invariant tasks == LeftSince(was, table)
        invariant forall id :: id in table ==> id in was.table && table[id] == was.table[id]
        decreases |table|
      {
        var id :| id in table;
        LeaveNext(was, table, id);
        tasks := tasks[table[id] := Left(tasks[table[id]])];
        table := table - {id};
      }
    }

    /** The client is gone: every running call is left, detached if it continues and cancelled if not, and no other. */
    method Leave()
      requires Valid() && conn.Leaving?
      modifies this
      ensures Valid() && Now() == Next(old(Now()), LeaveAll) && |tasks| == |old(tasks)|
      ensures forall t :: 0 <= t < |tasks| ==>
                var x := old(tasks)[t];
                if !x.stage.Running? then tasks[t] == x
                else if x.onLeave == Continue then tasks[t].detached && tasks[t].cancel == x.cancel
                else tasks[t].cancel && tasks[t].detached == x.detached
    {
      forall t | 0 <= t < |tasks|
        ensures var x, y := tasks[t], Next(Now(), LeaveAll).tasks[t];
                if !x.stage.Running? then y == x
                else if x.onLeave == Continue then y.detached && y.cancel == x.cancel
                else y.cancel && y.detached == x.detached
      {
        LeaveAllMeans(Now(), t);
      }
      NoneLeft(Now());
      StepKeeps(Now(), LeaveAll);
      Drain();
      conn := Gone;
    }

    /** A call's task is through: first its own entry goes, and no other. */
    method TaskRemoves(t: nat)
      requires Valid() && t < |tasks| && tasks[t].stage.Running?
      modifies this`tasks, this`table
      ensures Valid() && Now() == Next(old(Now()), Remove(t))
      ensures forall id :: id in old(table) && id !in table ==> old(table)[id] == t
    {
      StepKeeps(Now(), Remove(t));
      RemovesItsOwnEntry(Now(), t);
      table := table - {tasks[t].call};
      tasks := tasks[t := tasks[t].(stage := Removed)];
    }

    /** Then its end goes out, when the id is free already. */
    method TaskEnds(t: nat)
      requires Valid() && t < |tasks| && tasks[t].stage.Removed?
      modifies this`tasks, this`out
      ensures Valid() && Now() == Next(old(Now()), SendEnd(t))
      ensures EndsOf(out, tasks[t].of) == EndsOf(old(out), tasks[t].of) + 1
    {
      StepKeeps(Now(), SendEnd(t));
      SayEnds(out, End(tasks[t].call, tasks[t].of, Finished), tasks[t].of);
      Send(End(tasks[t].call, tasks[t].of, Finished));
      tasks := tasks[t := tasks[t].(stage := Ended)];
    }
  }

  /** The tasks after the entries not in `table` any more were left. */
  ghost function LeftSince(was: World, table: map<nat, nat>): seq<Task> {
    seq(|was.tasks|, i requires 0 <= i < |was.tasks| =>
      var x := was.tasks[i];
      if x.call in was.table && was.table[x.call] == i && x.call !in table then Left(x) else x)
  }

  lemma NoneLeft(was: World)
    ensures LeftSince(was, was.table) == was.tasks
    ensures was.conn.Leaving? ==> LeftSince(was, map[]) == Next(was, LeaveAll).tasks
  {
  }

  lemma LeaveNext(was: World, table: map<nat, nat>, id: nat)
    requires TableOk(was) && id in table
    requires forall k :: k in table ==> k in was.table && table[k] == was.table[k]
    ensures table[id] < |was.tasks| && |table - {id}| < |table|
    ensures var all := LeftSince(was, table); LeftSince(was, table - {id}) == all[table[id] := Left(all[table[id]])]
  {
    assert table.Keys == (table - {id}).Keys + {id};
    assert was.tasks[table[id]].call == id;
    assert LeftSince(was, table)[table[id]] == was.tasks[table[id]];
  }
}
