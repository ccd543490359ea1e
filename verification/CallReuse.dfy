/**
 A client that uses a call id again only after it saw the end of the call before
 (`bins/nlink-labd/src/server.rs`, where a task leaves the table first and then sends its end), over
 every interleaving of the client, the connection and the tasks.
 */
module CallReuse {
  import opened Prelude
  import opened CallServer

  /** The server, what is on the wire to it, how many of its frames the client read, and the ids the client waits on. */
  datatype Net = Net(server: World, wire: seq<(nat, Msg)>, read: nat, waiting: set<nat>)

  datatype Move =
    | SendCall(id: nat, needs: Role, onLeave: OnLeave)
    | SendOther(id: nat, msg: Msg)
    | Arrive
    | Serve(step: Step)
    | Read

  predicate CanMove(n: Net, m: Move) {
    match m
    case SendCall(id, _, _) => id != 0 && id !in n.waiting
    case SendOther(_, msg) => !msg.Call? && !msg.Garbage?
    case Arrive => n.wire != [] && n.server.conn.Open?
    case Serve(step) => !step.Process? && Enabled(n.server, step)
    case Read => n.read < |n.server.out|
  }

  function Moved(n: Net, m: Move): Net
    requires CanMove(n, m)
  {
    match m
    case SendCall(id, needs, onLeave) => n.(wire := n.wire + [(id, Call(needs, onLeave))], waiting := n.waiting + {id})
    case SendOther(id, msg) => n.(wire := n.wire + [(id, msg)])
    case Arrive => n.(server := Processed(n.server, n.wire[0].0, n.wire[0].1), wire := n.wire[1..])
    case Serve(step) => n.(server := Next(n.server, step))
    case Read =>
      var f := n.server.out[n.read];
      n.(read := n.read + 1, waiting := if f.End? then n.waiting - {f.call} else n.waiting)
  }

  ghost predicate IsRun(role: Option<Role>, nets: seq<Net>, moves: seq<Move>) {
    && |nets| == |moves| + 1
    && nets[0] == Net(Start(role), [], 0, {})
    && forall k :: 0 <= k < |moves| ==> CanMove(nets[k], moves[k]) && nets[k + 1] == Moved(nets[k], moves[k])
  }

  // ---- where a call of an id is: on the wire, in a task, in an end not read

  function IsCall(x: (nat, Msg), id: nat): nat {
    if x.0 == id && x.1.Call? then 1 else 0
  }

  function OnWire(wire: seq<(nat, Msg)>, id: nat): nat {
    if wire == [] then 0 else IsCall(wire[0], id) + OnWire(wire[1..], id)
  }

  function IsLive(x: Task, id: nat): nat {
    if !x.stage.Ended? && x.call == id then 1 else 0
  }

  function InTasks(tasks: seq<Task>, id: nat): nat {
    if tasks == [] then 0 else InTasks(tasks[..|tasks| - 1], id) + IsLive(tasks[|tasks| - 1], id)
  }

  function IsEnd(f: Frame, id: nat): nat {
    if f.End? && f.call == id then 1 else 0
  }

  function Unread(frames: seq<Frame>, id: nat): nat {
    if frames == [] then 0 else IsEnd(frames[0], id) + Unread(frames[1..], id)
  }

  ghost predicate Balanced(n: Net, id: nat) {
    n.read <= |n.server.out| &&
    OnWire(n.wire, id) + InTasks(n.server.tasks, id) + Unread(n.server.out[n.read..], id) ==
    if id in n.waiting then 1 else 0
  }

  ghost predicate NeverRefused(out: seq<Frame>) {
    forall i :: 0 <= i < |out| && out[i].End? ==> out[i].why != AlreadyRunning
  }

  /** While the connection is there, each id the client waits on has one call somewhere, and no other id has any. */
  ghost predicate Invariant(n: Net) {
    && TableOk(n.server) && NeverRefused(n.server.out) && n.read <= |n.server.out|
    && (forall i :: 0 <= i < |n.wire| ==> !n.wire[i].1.Garbage?)
    && (n.server.conn.Open? ==> forall id :: id > 0 ==> Balanced(n, id))
  }

  lemma {:induction false} WireMore(wire: seq<(nat, Msg)>, x: (nat, Msg), id: nat)
    ensures OnWire(wire + [x], id) == OnWire(wire, id) + IsCall(x, id)
  {
    if wire != [] {
      assert (wire + [x])[1..] == wire[1..] + [x];
      WireMore(wire[1..], x, id);
    }
  }

  lemma {:induction false} UnreadMore(frames: seq<Frame>, f: Frame, id: nat)
    ensures Unread(frames + [f], id) == Unread(frames, id) + IsEnd(f, id)
  {
    if frames != [] {
      assert (frames + [f])[1..] == frames[1..] + [f];
      UnreadMore(frames[1..], f, id);
    }
  }

  lemma Said(out: seq<Frame>, f: Frame, read: nat, id: nat)
    requires read <= |out|
    ensures Unread((out + [f])[read..], id) == Unread(out[read..], id) + IsEnd(f, id)
  {
    assert (out + [f])[read..] == out[read..] + [f];
    UnreadMore(out[read..], f, id);
  }

  lemma {:induction false} UpdateTasks(tasks: seq<Task>, t: nat, x: Task, id: nat)
    requires t < |tasks|
    ensures InTasks(tasks[t := x], id) + IsLive(tasks[t], id) == InTasks(tasks, id) + IsLive(x, id)
  {
    var n := |tasks| - 1;
    if t < n {
      UpdateTasks(tasks[..n], t, x, id);
      assert tasks[t := x][..n] == tasks[..n][t := x];
    } else {
      assert tasks[t := x][..n] == tasks[..n];
    }
  }

  lemma {:induction false} OneOfTheTasks(tasks: seq<Task>, t: nat, id: nat)
    requires t < |tasks|
    ensures IsLive(tasks[t], id) <= InTasks(tasks, id)
  {
    if t < |tasks| - 1 {
      OneOfTheTasks(tasks[..|tasks| - 1], t, id);
    }
  }

  /** A call that arrives is never one whose id is running. */
  lemma ArrivingIsNew(n: Net)
    requires Invariant(n) && CanMove(n, Arrive) && n.wire[0].1.Call? && n.wire[0].0 > 0
    ensures n.wire[0].0 !in n.server.table
  {
    var id := n.wire[0].0;
    assert Balanced(n, id);
    if id in n.server.table {
      OneOfTheTasks(n.server.tasks, n.server.table[id], id);
      assert false;
    }
  }

  /** What processing a message does to an id's call, on a connection that stays. */
  lemma ProcessBalances(w: World, call: nat, msg: Msg, read: nat, id: nat)
    requires w.conn.Open? && read <= |w.out| && id > 0 && !msg.Garbage?
    requires msg.Call? && call > 0 ==> call !in w.table
    ensures var v := Processed(w, call, msg);
            v.conn.Open? ==>
              InTasks(v.tasks, id) + Unread(v.out[read..], id) ==
              InTasks(w.tasks, id) + Unread(w.out[read..], id) + IsCall((call, msg), id)
  {
    var v := Processed(w, call, msg);
    if call == 0 {
      Said(w.out, if msg.Ping? then Pong else Welcome, read, id);
    } else if w.role.None? || !w.welcomed {
      assert !v.conn.Open?;
    } else if msg.Call? {
      if May(w.role, msg.needs) {
        assert v.out == w.out && v.tasks[..|w.tasks|] == w.tasks;
      } else {
        Said(w.out, End(call, |w.processed|, NotAllowed), read, id);
      }
    } else if v.tasks != w.tasks {
      assert v.out == w.out;
      var t := Handle(w, call).value;
      UpdateTasks(w.tasks, t, v.tasks[t], id);
    }
  }

  lemma ArriveKeeps(n: Net)
    requires Invariant(n) && CanMove(n, Arrive)
    ensures Invariant(Moved(n, Arrive))
  {
    var (call, msg) := n.wire[0];
    var v := Moved(n, Arrive);
    ProcessKeepsTable(n.server, call, msg);
    if msg.Call? && call > 0 {
      ArrivingIsNew(n);
    }
    assert |v.server.out| > |n.server.out| ==> v.server.out == n.server.out + [v.server.out[|n.server.out|]];
    if v.server.conn.Open? {
      forall id: nat | id > 0
        ensures Balanced(v, id)
      {
        assert Balanced(n, id);
        ProcessBalances(n.server, call, msg, n.read, id);
      }
    }
  }

  lemma ServeKeeps(n: Net, step: Step)
    requires Invariant(n) && CanMove(n, Serve(step))
    ensures Invariant(Moved(n, Serve(step)))
  {
    var v := Moved(n, Serve(step));
    StepKeepsTable(n.server, step);
    if v.server.conn.Open? {
      forall id: nat | id > 0
        ensures Balanced(v, id)
      {
        assert Balanced(n, id);
        UpdateTasks(n.server.tasks, step.t, v.server.tasks[step.t], id);
        if step.SendEnd? {
          Said(n.server.out, v.server.out[|n.server.out|], n.read, id);
        }
      }
    }
  }

  lemma ClientKeeps(n: Net, m: Move)
    requires Invariant(n) && CanMove(n, m) && (m.SendCall? || m.SendOther? || m.Read?)
    ensures Invariant(Moved(n, m))
  {
    var v := Moved(n, m);
    if n.server.conn.Open? {
      forall id: nat | id > 0
        ensures Balanced(v, id)
      {
        assert Balanced(n, id);
        if m.Read? {
          assert n.server.out[n.read..][1..] == n.server.out[v.read..];
        } else {
          WireMore(n.wire, v.wire[|n.wire|], id);
        }
      }
    }
  }

  lemma {:induction false} RunKeepsInvariant(role: Option<Role>, nets: seq<Net>, moves: seq<Move>)
    requires IsRun(role, nets, moves)
    ensures Invariant(nets[|moves|])
  {
    var k := |moves|;
    if k > 0 {
      RunKeepsInvariant(role, nets[..k], moves[..k - 1]);
      var m := moves[k - 1];
      if m.Arrive? {
        ArriveKeeps(nets[k - 1]);
      } else if m.Serve? {
        ServeKeeps(nets[k - 1], m.step);
      } else {
        ClientKeeps(nets[k - 1], m);
      }
    }
  }

  /** In every run, a client that waits for the end before it uses an id again is never told the id is running. */
  lemma ReuseIsNeverRefused(role: Option<Role>, nets: seq<Net>, moves: seq<Move>, i: nat)
    requires IsRun(role, nets, moves) && i < |nets[|moves|].server.out|
    ensures var f := nets[|moves|].server.out[i]; f.End? ==> f.why != AlreadyRunning
  {
    RunKeepsInvariant(role, nets, moves);
  }
}
