/**
 The client's half of the call protocol (`crates/nlink-lab-client/src/conn.rs`,
 `crates/nlink-lab-client/src/call.rs`): calls started while the reader may be shutting
 down, and what a call brings to its caller.
 */
module ClientCalls {
  import opened Prelude

  /** What a call's channel carries. `NotForCalls` stands for messages that `next` passes over. */
  datatype Incoming =
    | Data(bytes: seq<int>)
    | Item(item: string)
    | End(ok: Option<string>, err: Option<string>)
    | NotForCalls

  // ---- starting calls while the connection closes

  /**
   Where a `start` is: its channel is in the table; it found the connection open; it
   failed and has to forget its entry; it returned a call; it returned an error. A
   returned call ends when its caller saw the end or dropped it.
   */
  datatype Stage = Inserted | FoundOpen | Failing | Returned | Failed | Over

  datatype Caller = Caller(id: nat, stage: Stage, queue: seq<Incoming>)

  /** The reader: reading, with a frame for a call it looked up, its flag set, its table cleared. */
  datatype Reader = Reading | Holding(c: nat, msg: Incoming) | Closing | Done

  datatype World = World(
    next: nat,
    table: map<nat, nat>,
    callers: seq<Caller>,
    closed: bool,
    reader: Reader,
    writerGone: bool)

  datatype Step =
    | Insert
    | Check(c: nat)
    | Send(c: nat)
    | Forget(c: nat)
    | LookUp(id: nat, msg: Incoming)
    | Deliver
    | SetClosed
    | Clear
    | Finish(c: nat)
    | WriterDies

  const IDS := 0x1_0000_0000
  const START := World(1, map[], [], false, Reading, false)

  predicate At(w: World, c: nat, stage: Stage) {
    c < |w.callers| && w.callers[c].stage == stage
  }

  predicate Enabled(w: World, step: Step) {
    match step
    case Insert => true
    case Check(c) => At(w, c, Inserted)
    case Send(c) => At(w, c, FoundOpen)
    case Forget(c) => At(w, c, Failing)
    case LookUp(_, _) => w.reader.Reading?
    case Deliver => w.reader.Holding? && w.reader.c < |w.callers|
    case SetClosed => w.reader.Reading?
    case Clear => w.reader.Closing?
    case Finish(c) => At(w, c, Returned)
    case WriterDies => true
  }

  function To(w: World, c: nat, stage: Stage): World
    requires c < |w.callers|
  {
    w.(callers := w.callers[c := w.callers[c].(stage := stage)])
  }

  function Next(w: World, step: Step): World
    requires Enabled(w, step)
  {
    match step
    case Insert =>
      var id := w.next % IDS;
      w.(next := w.next + 1, callers := w.callers + [Caller(id, Inserted, [])], table := w.table[id := |w.callers|])
    case Check(c) => To(w, c, if w.closed then Failing else FoundOpen)
    case Send(c) => To(w, c, if w.writerGone then Failing else Returned)
    case Forget(c) => To(w, c, Failed).(table := w.table - {w.callers[c].id})
    case LookUp(id, msg) => if id in w.table then w.(reader := Holding(w.table[id], msg)) else w
    case Deliver =>
      var c := w.reader.c;
      w.(reader := Reading, callers := w.callers[c := w.callers[c].(queue := w.callers[c].queue + [w.reader.msg])])
    case SetClosed => w.(reader := Closing, closed := true)
    case Clear => w.(reader := Done, table := map[])
    case Finish(c) => To(w, c, Over).(table := w.table - {w.callers[c].id})
    case WriterDies => w.(writerGone := true)
  }

  ghost predicate IsRun(states: seq<World>, steps: seq<Step>) {
    && |states| == |steps| + 1
    && states[0] == START
    && forall k :: 0 <= k < |steps| ==> Enabled(states[k], steps[k]) && states[k + 1] == Next(states[k], steps[k])
  }

  /** Some sender of the call's channel is left: in the table, or in the reader's hand. */
  ghost predicate HasSender(w: World, c: nat) {
    (exists id :: id in w.table && w.table[id] == c) || (w.reader.Holding? && w.reader.c == c)
  }

  /**
   Entries lead to their own calls, none of them failed or over; the flag is set exactly once the reader is past
   reading; and once it cleared the table, only calls that have yet to look at the
   flag, or did and failed, are in it.
   */
  ghost predicate Invariant(w: World) {
    && (forall id :: id in w.table ==>
          && w.table[id] < |w.callers| && w.callers[w.table[id]].id == id
          && !w.callers[w.table[id]].stage.Failed? && !w.callers[w.table[id]].stage.Over?)
    && (w.closed <==> w.reader.Closing? || w.reader.Done?)
    && (w.reader.Holding? ==> w.reader.c < |w.callers|)
    && (w.reader.Done? ==> forall id :: id in w.table ==>
          w.callers[w.table[id]].stage.Inserted? || w.callers[w.table[id]].stage.Failing?)
  }

  lemma StepKeepsInvariant(w: World, step: Step)
    requires Invariant(w) && Enabled(w, step)
    ensures Invariant(Next(w, step))
  {
    var t := Next(w, step);
    forall id | id in t.table
      ensures t.table[id] < |t.callers| && t.callers[t.table[id]].id == id
      ensures !t.callers[t.table[id]].stage.Failed? && !t.callers[t.table[id]].stage.Over?
    {
    }
  }

  lemma RunBefore(states: seq<World>, steps: seq<Step>)
    requires IsRun(states, steps) && steps != []
    ensures var n := |steps| - 1; IsRun(states[..n + 1], steps[..n]) && states[..n + 1][n] == states[n]
    ensures var n := |steps| - 1; Enabled(states[n], steps[n]) && states[n + 1] == Next(states[n], steps[n])
  {
  }

  lemma {:induction false} RunKeepsInvariant(states: seq<World>, steps: seq<Step>)
    requires IsRun(states, steps)
    ensures Invariant(states[|steps|])
  {
    var n := |steps|;
    if n > 0 {
      RunKeepsInvariant(states[..n], steps[..n - 1]);
      StepKeepsInvariant(states[n - 1], steps[n - 1]);
    }
  }

  /**
   No call hangs on close: in every interleaving of starts with the reader's shutdown,
   once the reader is done no call that was returned has a sender left, however often
   the ids went round, so its receiver ends after what is queued.
   */
  lemma NoCallHangsOnClose(states: seq<World>, steps: seq<Step>, c: nat)
    requires IsRun(states, steps) && states[|steps|].reader.Done?
    requires At(states[|steps|], c, Returned)
    ensures !HasSender(states[|steps|], c)
  {
    RunKeepsInvariant(states, steps);
  }

  /** A call that failed to start, was dropped or saw its end gets nothing any more. */
  lemma NoEntryWhenOver(states: seq<World>, steps: seq<Step>, c: nat, id: nat)
    requires IsRun(states, steps) && (At(states[|steps|], c, Failed) || At(states[|steps|], c, Over))
    ensures id in states[|steps|].table ==> states[|steps|].table[id] != c
  {
    RunKeepsInvariant(states, steps);
  }

  /** And it stays so: nothing the client does afterwards gives the call a sender again, or a message. */
  lemma ClosedStaysClosed(w: World, step: Step, c: nat)
    requires Invariant(w) && Enabled(w, step) && w.reader.Done? && At(w, c, Returned)
    ensures Next(w, step).reader.Done?
    ensures !HasSender(w, c) && !HasSender(Next(w, step), c)
    ensures c < |Next(w, step).callers| && Next(w, step).callers[c].queue == w.callers[c].queue
  {
    StepKeepsInvariant(w, step);
  }

  /** In every run, calls are numbered from 1 on, and a call's id is its number modulo 2^32. */
  lemma {:induction false} IdsAreNumbers(states: seq<World>, steps: seq<Step>)
    requires IsRun(states, steps)
    ensures var w := states[|steps|];
            w.next == |w.callers| + 1 && forall c :: 0 <= c < |w.callers| ==> w.callers[c].id == (c + 1) % IDS
  {
    var n := |steps|;
    if n > 0 {
      RunBefore(states, steps);
      IdsAreNumbers(states[..n], steps[..n - 1]);
    }
  }

  /** A start that finds the connection open and the writer there is a call returned; any other fails. */
  lemma StartMeans(w: World, c: nat)
    requires At(w, c, Inserted)
    ensures var checked := Next(w, Check(c));
            if w.closed then At(checked, c, Failing) && At(Next(checked, Forget(c)), c, Failed)
            else
              && At(checked, c, FoundOpen)
              && At(Next(checked, Send(c)), c, if w.writerGone then Failing else Returned)
  {
  }

  /** A reader that stops sets the flag, then clears the table. */
  lemma ClosingMeans(w: World)
    requires w.reader.Reading?
    ensures Enabled(w, SetClosed) && Next(w, SetClosed).closed && Enabled(Next(w, SetClosed), Clear)
    ensures var done := Next(Next(w, SetClosed), Clear); done.reader.Done? && done.closed && done.table == map[]
  {
  }

  // ---- what reaches a call's channel

  /** What the reader looks up the channel of call `c` for, in the order it is read. */
  ghost function Routed(states: seq<World>, steps: seq<Step>, c: nat): seq<Incoming>
    requires |states| == |steps| + 1
  {
    if steps == [] then []
    else
      var n := |steps| - 1;
      Routed(states[..n + 1], steps[..n], c) + (if Routes(states[n], steps[n], c) then [steps[n].msg] else [])
  }

  predicate Routes(w: World, step: Step, c: nat) {
    step.LookUp? && step.id in w.table && w.table[step.id] == c
  }

  function InHand(r: Reader, c: nat): seq<Incoming> {
    if r.Holding? && r.c == c then [r.msg] else []
  }

  lemma StepRoutes(w: World, step: Step, c: nat)
    requires Enabled(w, step) && c < |w.callers|
    ensures c < |Next(w, step).callers|
    ensures var t := Next(w, step);
            t.callers[c].queue + InHand(t.reader, c) ==
            w.callers[c].queue + InHand(w.reader, c) + (if Routes(w, step, c) then [step.msg] else [])
  {
  }

  /**
   In every run, what a call's channel holds, and then what the reader has in its hand for it,
   is every message read while the call's entry was there, each once and in the order read.
   */
  lemma {:induction false} ChannelInOrder(states: seq<World>, steps: seq<Step>, c: nat)
    requires IsRun(states, steps) && c < |states[|steps|].callers|
    ensures var w := states[|steps|]; w.callers[c].queue + InHand(w.reader, c) == Routed(states, steps, c)
  {
    var n := |steps|;
    if n > 0 {
      if c < |states[n - 1].callers| {
        ChannelInOrder(states[..n], steps[..n - 1], c);
        StepRoutes(states[n - 1], steps[n - 1], c);
      } else {
        RunKeepsInvariant(states[..n], steps[..n - 1]);
        NothingRoutedYet(states[..n], steps[..n - 1], c);
        NewCallHasNothing(states[n - 1], steps[n - 1], c);
      }
      RoutedMore(states, steps, c);
    }
  }

  lemma RoutedMore(states: seq<World>, steps: seq<Step>, c: nat)
    requires |states| == |steps| + 1 && steps != []
    ensures var n := |steps| - 1;
            Routed(states, steps, c) ==
            Routed(states[..n + 1], steps[..n], c) + (if Routes(states[n], steps[n], c) then [steps[n].msg] else [])
  {
  }

  lemma NewCallHasNothing(w: World, step: Step, c: nat)
    requires Invariant(w) && Enabled(w, step) && |w.callers| <= c < |Next(w, step).callers|
    ensures var t := Next(w, step);
            t.callers[c].queue == [] && InHand(t.reader, c) == [] && !Routes(w, step, c)
  {
  }

  lemma {:induction false} NothingRoutedYet(states: seq<World>, steps: seq<Step>, c: nat)
    requires IsRun(states, steps) && c >= |states[|steps|].callers|
    ensures Routed(states, steps, c) == []
  {
    var n := |steps|;
    if n > 0 {
      NothingRoutedYet(states[..n], steps[..n - 1], c);
      RunKeepsInvariant(states[..n], steps[..n - 1]);
    }
  }

  /** What is routed to a call was read on the call's own id. */
  lemma RoutedOnItsId(states: seq<World>, steps: seq<Step>, k: nat, c: nat)
    requires IsRun(states, steps) && k < |steps| && Routes(states[k], steps[k], c)
    ensures c < |states[k].callers| && states[k].callers[c].id == steps[k].id
  {
    RunUpTo(states, steps, k);
    RunKeepsInvariant(states[..k + 1], steps[..k]);
  }

  lemma RunUpTo(states: seq<World>, steps: seq<Step>, k: nat)
    requires IsRun(states, steps) && k <= |steps|
    ensures IsRun(states[..k + 1], steps[..k])
  {
  }

  // ---- what a call brings

  datatype CallEvent = GotItem(item: string) | GotData(bytes: seq<int>) | GotEnd(result: Result)
  datatype Result = Ok(response: string) | ApiError(message: string) | Closed

  function EndOf(ok: Option<string>, err: Option<string>): Result {
    if err.Some? then ApiError(err.value) else if ok.Some? then Ok(ok.value) else Ok("ok")
  }

  function EventOf(m: Incoming): Option<CallEvent> {
    match m
    case Data(b) => Some(GotData(b))
    case Item(i) => Some(GotItem(i))
    case End(ok, err) => Some(GotEnd(EndOf(ok, err)))
    case NotForCalls => None
  }

  /** The events of a call: what its channel holds, without what is not for calls, up to its end. */
  function Events(rx: seq<Incoming>): seq<CallEvent> {
    if rx == [] then []
    else if rx[0].NotForCalls? then Events(rx[1..])
    else if rx[0].End? then [EventOf(rx[0]).value]
    else [EventOf(rx[0]).value] + Events(rx[1..])
  }

  /** How a call that ends with these events answers: its end, or a closed connection. */
  function Answer(es: seq<CallEvent>): Result {
    if es == [] then Closed else if es[0].GotEnd? then es[0].result else Answer(es[1..])
  }

  /** An error wins over a response; an end with neither is a success without one. */
  lemma EndMeans(ok: Option<string>, err: Option<string>)
    ensures err.Some? <==> EndOf(ok, err).ApiError?
    ensures err.Some? ==> EndOf(ok, err).message == err.value
    ensures err.None? ==> EndOf(ok, err) == Ok(if ok.Some? then ok.value else "ok")
  {
  }

  /** How many of the first messages of a channel a call comes to see: all up to its end. */
  function Seen(rx: seq<Incoming>): (n: nat)
    ensures n <= |rx|
    ensures forall k :: 0 <= k < n - 1 ==> !rx[k].End?
    ensures if n < |rx| then n > 0 && rx[n - 1].End? else forall k :: 0 <= k < |rx| - 1 ==> !rx[k].End?
  {
    if rx == [] then 0 else if rx[0].End? then 1
    else
      assert forall k :: 0 < k < |rx| ==> rx[k] == rx[1..][k - 1];
      1 + Seen(rx[1..])
  }

  predicate Matches(m: Incoming, e: CallEvent) {
    match m
    case Data(b) => e == GotData(b)
    case Item(i) => e == GotItem(i)
    case End(ok, err) =>
      && e.GotEnd?
      && e.result == if err.Some? then ApiError(err.value) else Ok(if ok.Some? then ok.value else "ok")
    case NotForCalls => false
  }

  /** Event `k` is that of message `from[k]`; every message for calls up to the end has its one event. */
  ghost predicate OnePerMessage(rx: seq<Incoming>, es: seq<CallEvent>, from: seq<nat>) {
    && |from| == |es| && Ascending(from)
    && (forall k :: 0 <= k < |es| ==> from[k] < Seen(rx) && Matches(rx[from[k]], es[k]))
    && (forall i: nat :: i < Seen(rx) && !rx[i].NotForCalls? ==> i in from)
  }

  /** A call's events are its channel's messages in order, each once, without what is not for calls, up to the end. */
  lemma {:induction false} EventsAreTheMessages(rx: seq<Incoming>) returns (from: seq<nat>)
    ensures OnePerMessage(rx, Events(rx), from)
  {
    if rx == [] {
      from := [];
    } else if rx[0].End? {
      from := [0];
    } else {
      var rest := EventsAreTheMessages(rx[1..]);
      var later := seq(|rest|, k requires 0 <= k < |rest| => rest[k] + 1);
      from := if rx[0].NotForCalls? then later else [0] + later;
      OneMessageMore(rx, Events(rx[1..]), rest, later);
    }
  }

  /** Counted from the message before, the messages of the events are one further on. */
  lemma OneFurther(rx: seq<Incoming>, es: seq<CallEvent>, rest: seq<nat>, later: seq<nat>)
    requires rx != [] && !rx[0].End? && OnePerMessage(rx[1..], es, rest)
    requires |later| == |rest| && forall k :: 0 <= k < |rest| ==> later[k] == rest[k] + 1
    ensures Ascending(later) && forall k :: 0 <= k < |es| ==> 0 < later[k] < Seen(rx) && Matches(rx[later[k]], es[k])
    ensures forall i: nat :: 0 < i < Seen(rx) && !rx[i].NotForCalls? ==> i in later
  {
    forall k | 0 <= k < |es|
      ensures 0 < later[k] < Seen(rx) && Matches(rx[later[k]], es[k])
    {
      assert rx[1..][rest[k]] == rx[later[k]];
    }
    forall i: nat | 0 < i < Seen(rx) && !rx[i].NotForCalls?
      ensures i in later
    {
      assert rx[1..][i - 1] == rx[i];
      var k :| 0 <= k < |rest| && rest[k] == i - 1;
      assert later[k] == i;
    }
  }

  lemma OneMessageMore(rx: seq<Incoming>, es: seq<CallEvent>, rest: seq<nat>, later: seq<nat>)
    requires rx != [] && !rx[0].End? && OnePerMessage(rx[1..], es, rest)
    requires |later| == |rest| && forall k :: 0 <= k < |rest| ==> later[k] == rest[k] + 1
    ensures if rx[0].NotForCalls? then OnePerMessage(rx, es, later)
            else OnePerMessage(rx, [EventOf(rx[0]).value] + es, [0] + later)
  {
    OneFurther(rx, es, rest, later);
    if !rx[0].NotForCalls? {
      FirstToo(rx, EventOf(rx[0]).value, es, later);
    }
  }

  lemma FirstToo(rx: seq<Incoming>, e: CallEvent, es: seq<CallEvent>, later: seq<nat>)
    requires rx != [] && Matches(rx[0], e) && |later| == |es| && Ascending(later)
    requires forall k :: 0 <= k < |es| ==> 0 < later[k] < Seen(rx) && Matches(rx[later[k]], es[k])
    requires forall i: nat :: 0 < i < Seen(rx) && !rx[i].NotForCalls? ==> i in later
    ensures OnePerMessage(rx, [e] + es, [0] + later)
  {
    var from, all := [0] + later, [e] + es;
    AscendingFromZero(later);
    forall k | 0 <= k < |all|
      ensures from[k] < Seen(rx) && Matches(rx[from[k]], all[k])
    {
      assert k > 0 ==> from[k] == later[k - 1] && all[k] == es[k - 1];
    }
    forall i: nat | i < Seen(rx) && !rx[i].NotForCalls?
      ensures i in from
    {
      InLonger(later, i);
    }
  }

  lemma AscendingFromZero(later: seq<nat>)
    requires Ascending(later) && forall k :: 0 <= k < |later| ==> 0 < later[k]
    ensures Ascending([0] + later)
  {
    var from := [0] + later;
    assert forall j :: 0 < j < |from| ==> from[j] == later[j - 1];
  }

  lemma InLonger(later: seq<nat>, i: nat)
    ensures i in [0] + later <==> i == 0 || i in later
  {
    assert ([0] + later)[0] == 0;
  }

  /**
   In every run, once the reader is done, a call that was returned brings, in order and up to
   its end, what was read on its id while its entry was there: its channel holds all of it.
   */
  lemma CallBringsWhatWasRead(states: seq<World>, steps: seq<Step>, c: nat)
    requires IsRun(states, steps) && states[|steps|].reader.Done? && At(states[|steps|], c, Returned)
    ensures states[|steps|].callers[c].queue == Routed(states, steps, c)
    ensures Events(states[|steps|].callers[c].queue) == Events(Routed(states, steps, c))
  {
    ChannelInOrder(states, steps, c);
  }

  /** A call answers with its first end, and as closed if and only if there is none. */
  lemma {:induction false} AnswerMeans(es: seq<CallEvent>, k: nat)
    requires k <= |es| && (forall i :: 0 <= i < k ==> !es[i].GotEnd?) && (k < |es| ==> es[k].GotEnd?)
    ensures Answer(es) == if k < |es| then es[k].result else Closed
  {
    if k > 0 {
      assert forall i :: 0 <= i < k - 1 ==> es[1..][i] == es[i + 1];
      AnswerMeans(es[1..], k - 1);
    }
  }

  /** A call whose connection is closed: what its channel still holds is all there will be. */
  class Call {
    var rx: seq<Incoming>
    var ended: bool
    var forgotten: bool

    ghost function Left(): seq<CallEvent>
      reads this
    {
      if ended then [] else Events(rx)
    }

    constructor (rx: seq<Incoming>)
      ensures this.rx == rx && !ended && !forgotten && Left() == Events(rx)
    {
      this.rx, ended, forgotten := rx, false, false;
    }

    /** The next event, `None` when there is none left: events come in order, and nothing after the end. */
    method Next() returns (e: Option<CallEvent>)
      modifies this
      ensures old(Left()) == [] ==> e.None? && Left() == []
      ensures old(Left()) != [] ==> e == Some(old(Left())[0]) && Left() == old(Left())[1..]
      ensures ended == (old(ended) || (e.Some? && e.value.GotEnd?))
      ensures forgotten == (old(forgotten) || (e.Some? && e.value.GotEnd?))
      ensures |rx| <= |old(rx)| && (e.Some? ==> |rx| < |old(rx)|)
    {
      if ended {
        return None;
      }
      while rx != []
        invariant !ended && forgotten == old(forgotten) && !old(ended)
        invariant |rx| <= |old(rx)| && Events(rx) == Events(old(rx))
      {
        var m := rx[0];
        rx := rx[1..];
        if m.Data? {
          return Some(GotData(m.bytes));
        } else if m.Item? {
          return Some(GotItem(m.item));
        } else if m.End? {
          ended := true;
          forgotten := true;
          return Some(GotEnd(EndOf(m.ok, m.err)));
        }
      }
      return None;
    }

    /** Wait for the end: its result, or a closed connection when there is no end to come. */
    method Finish() returns (r: Result)
      modifies this
      ensures r == Answer(old(Left()))
    {
      var e := Next();
      while e.Some?
        invariant Answer(old(Left())) == if e.Some? then Answer([e.value] + Left()) else Closed
        decreases |rx|, if e.Some? then 1 else 0
      {
        assert ([e.value] + Left())[1..] == Left();
        if e.value.GotEnd? {
          return e.value.result;
        }
        ghost var left := Left();
        e := Next();
        assert left != [] ==> left == [left[0]] + left[1..];
      }
      r := Closed;
    }
  }
}
