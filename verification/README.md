# nlink-lab: a verified model of the daemon's machinery and its clients

nlink-lab runs network labs. Its daemon (`nlink-labd`) queues changes to labs, keeps a log
of every operation, tells subscribers what changed, tails the labs' event files and
collects metrics; a client library and a GUI sit on the other side of a framed call
protocol. This project models the parts of it where the order of things matters, and proves
what they promise in every run.

The model has two kinds of members. Code that threads, tasks and clients run against each
other is a transition system: a step per lock-protected block or atomic operation, `IsRun`
for a sequence of states joined by steps that are enabled, an invariant that every step
keeps, and theorems about every run. Code that changes an object step by step is a class
whose methods are proved against a specification, with the laws proved about that
specification.

| file | what it models |
|---|---|
| `Registry.dfy`, `LabList.dfy` | the hub's diff of successive scans, a subscription's overlap of snapshot and deltas, the GUI's list and tabs |
| `LabQueue.dfy` | one queue and one worker thread per lab, idle exit, crash, restart |
| `JobFollow.dfy` | an operation's log, its followers, lag, cancel, detach and disconnect |
| `CallServer.dfy`, `CallReuse.dfy` | the daemon's half of the call protocol, and a client that reuses ids |
| `ClientCalls.dfy` | the client's half: starting calls while the reader shuts down, and what a call brings |
| `Highlight.dfy`, `Marks.dfy` | the incremental NLL highlighter, and spans turned into line marks |
| `Design.dfy`, `App.dfy` | loads, edits and saves of a design; tabs, questions and quitting |
| `Tail.dfy`, `Metrics.dfy` | event files tailed by cursors; metrics collectors and the throttle |
| `Session.dfy`, `Retention.dfy` | bounded session output; which jobs and sessions are forgotten |

Where the code does not do what one would expect of it, the code is modelled as it is, a
lemma gives the run or the input, and another says exactly when the expectation holds:

- A `Call` message on call 0 is ignored and never gets an `End`; every other one gets
  exactly one (`CallServer.OneEndPerCall`).
- The position reported as `Queued` is exact if and only if no change went down with the
  thread of the lab's queue, and otherwise counts those too (`LabQueue.ReportedPositions`,
  `LabQueue.StalePosition`).
- Leaving never cancels an operation followed only by calls that continue; but a call that
  attaches to an operation is described as a read, so when its client goes before the
  operation's end is said the operation is cancelled (`JobFollow.LeavingCancelsIff`,
  `JobFollow.LeavingAnAttachedCallCancels`).
- What is typed while a save is under way is not marked edited when the save ends, and what is
  typed while a save-as is under way is replaced (`Design.TypingWhileSaving`,
  `Design.TypingWhileSavingAs`); the flag tells the truth all along if and only if no save
  ends while the editor shows another text than it wrote (`Design.FlagIsTrueIff`).
- The answer to a save-as goes to the design in front (`App.SavedAsTakesTheTabInFront`): it
  changes no design but the one that asked if and only if that one is in front, or none is
  (`App.SavedAsReachesItsTabIff`).
- Apart from the bound of the log, a follower that leaves with the result misses events if
  and only if it lags or is too far behind at the final drain,
  which stops at a lag (`JobFollow.MissesNothingIff`).
- A lab's cursor goes with a scan that dies, and with a list that misses the lab because its
  state could not be read at that moment; and a first scan that cannot list the labs is not
  followed by another first one. The next scan then publishes whole files
  (`Tail.PublishedAgain`); `Tail.PublishedOnceIff` says that tailing is exactly-once in every
  other run, and in these only if there was nothing to show it.

## Model

| member | source | states |
|---|---|---|
| `Registry.Hub.Update` | bins/nlink-labd/src/hub.rs:172-253 | a scan becomes the hub's labs (the last summary of a name wins); the delta lists exactly the labs that are new, different and gone, each once; the revisions that moved are exactly those of labs in both whose revision differs, each once |
| `Registry.DeltaIsExact` | bins/nlink-labd/src/hub.rs:177-230 | for any two versions, applying the delta between them to the first gives the second |
| `Registry.TouchedSettles` | bins/nlink-labd/src/hub.rs:177-212 | a name a delta touches ends as in the version announced, whatever the replica held; a name it does not touch is the same in both versions |
| `Registry.AbsorbStep` | bins/nlink-labd/src/hub.rs:293-321 | a backlog of deltas that changes nothing of one version still changes nothing of the next once its delta is added: overlap is harmless |
| `Registry.CatchUp` | bins/nlink-labd/src/hub.rs:293-321 | any version of a history, with all deltas of the history applied again, ends at the last version |
| `Registry.OverlapConverges` | bins/nlink-labd/src/hub.rs:293-321 | channel opened after delta i, snapshot of any version j >= i: snapshot on an empty list, then deltas i+1..n, is exactly version n |
| `Registry.SnapshotIsWhole` | bins/nlink-labd/src/hub.rs:303-318 | the first notification, everything as added, makes an empty list the hub's labs |
| `Registry.StepConverges` | bins/nlink-labd/src/hub.rs:146-230 | storing, publishing, opening the channel, telling the first state, forwarding and receiving, in any order, each keep the replica converging |
| `Registry.ReplicaConverges` | bins/nlink-labd/src/hub.rs:257-321 | in every interleaving without broadcast lag, a subscriber that was told its first state holds the hub's labs once it took in what is on its way |
| `Registry.LabsAreTheLastScan` | bins/nlink-labd/src/hub.rs:172-200 | in every run the hub's labs are those of the last scan taken in |
| `Registry.ReplicaCatchesUp` | bins/nlink-labd/src/hub.rs:257-321 | in every run, wherever the subscription is, its own steps and the publishing of what was stored bring its replica to the labs of the last scan |
| `LabList.Gui.LabsChanged` | bins/gui/src/reduce.rs:1028-1062 | the list becomes what the delta means for it, in order; each tab has its lab's summary and is `gone` iff the lab is absent; a tab's feed restarts and its error clears iff its lab came back |
| `LabList.Gui.SetLabs` | bins/gui/src/reduce.rs:1017-1026 | the list is the labs sorted and every tab is told what the list has of its lab |
| `LabList.Gui.TakeAll` | bins/gui/src/reduce.rs:1028-1062 | any number of deltas taken in one after the other are their composition, and the tabs agree with the list |
| `LabList.Gui.Subscribe` | bins/gui/src/reduce.rs:1017-1062 | end to end: a GUI that starts empty and takes in an overlapping subscription has exactly the hub's last version, and its tabs are `gone` iff their lab is not in it |
| `LabList.Merge` | bins/gui/src/reduce.rs:1034-1045 | the merged list has each name once and is the map update; the names that came back are exactly those announced and not listed, each once |
| `LabList.Retain` | bins/gui/src/reduce.rs:1034-1036 | exactly the labs not removed stay, each once |
| `LabList.SortedIsInOrder` | bins/gui/src/reduce.rs:1018-1018 | for every total order of names the list shown is in order |
| `LabList.SortedIsSame` | bins/gui/src/reduce.rs:1018-1018 | sorting loses, doubles and changes no lab |
| `LabQueue.StepKeepsInvariant` | bins/nlink-labd/src/jobs.rs:264-288 | every step of enqueueing, receiving, finishing, replying, idle exit, crash, dropped channel and hang-up keeps the queue's invariant (registration, counters, order, conservation) |
| `LabQueue.RunInvariant` | bins/nlink-labd/src/jobs.rs:371-424 | every run from the start keeps it |
| `LabQueue.OneAtATime` | bins/nlink-labd/src/jobs.rs:391-418 | in every run at most one change of a lab executes |
| `LabQueue.StartsInOrder` | bins/nlink-labd/src/jobs.rs:391-418 | in every run the changes of a lab start in the order they were enqueued |
| `LabQueue.WorkIsConserved` | bins/nlink-labd/src/jobs.rs:193-208 | in every run each change is in exactly one of in hand, waiting, running or answered, and is answered at most once |
| `LabQueue.AnswersTellWhatHappened` | bins/nlink-labd/src/jobs.rs:264-288 | in every run a change is answered as finished if and only if the worker that executed it replied, as stopped if and only if it was running or waiting where a thread went down, as not startable if and only if `enqueue` gave it up |
| `LabQueue.AnsweredAndStarted` | bins/nlink-labd/src/jobs.rs:410-418 | in every run what was answered as finished had started, and what was answered as not startable has not |
| `LabQueue.OnlyADeathLeavesAQueue` | bins/nlink-labd/src/jobs.rs:396-405 | in every run a queue whose thread is gone is one whose thread died: a thread that leaves for lack of work takes its queue with it |
| `LabQueue.NoThreadIsHungUp` | bins/nlink-labd/src/jobs.rs:393-396 | in every run no thread finds its channel without senders |
| `LabQueue.PositionCounts` | bins/nlink-labd/src/jobs.rs:264-288 | the position reported is the number of the lab's unfinished changes plus the changes lost with the thread of its queue |
| `LabQueue.PositionIsExact` | bins/nlink-labd/src/jobs.rs:264-288 | while the lab's worker lives, the position reported is the number of the lab's unfinished changes |
| `LabQueue.NoQueueNoWork` | bins/nlink-labd/src/jobs.rs:264-288 | with no queue for a lab, nothing of it is unfinished and no position is reported |
| `LabQueue.DeadQueueIsEmpty` | bins/nlink-labd/src/jobs.rs:264-288 | a queue whose worker is gone holds nothing unfinished |
| `LabQueue.ReportedPositions` | bins/nlink-labd/src/jobs.rs:264-288 | in every run the position is right if and only if no change went down with the thread of the lab's queue, too high by as many as did, and none did while the thread lives; once it is gone nothing is ahead at all |
| `LabQueue.StalePosition` | bins/nlink-labd/src/jobs.rs:264-288 | a run in which a worker died in a change and the next change is told it is behind one |
| `LabQueue.NeverStuck` | bins/nlink-labd/src/jobs.rs:264-288 | whenever a change is unanswered, some step of the daemon's own threads moves work on |
| `LabQueue.MovingOnIsProgress` | bins/nlink-labd/src/jobs.rs:391-418 | every such step lessens a measure of the work left |
| `LabQueue.EveryChangeIsAnswered` | bins/nlink-labd/src/jobs.rs:193-208 | from every reachable state the daemon's own steps lead to one where every change handed in is answered exactly once |
| `LabQueue.Queues.Try` | bins/nlink-labd/src/jobs.rs:264-288 | one try: the position is the counter found, the change is sent iff the worker is there, a dead queue leaves the map |
| `LabQueue.Queues.Enqueue` | bins/nlink-labd/src/jobs.rs:264-288 | the two-try loop is a run of the transition system's steps; at most the first try reports a position; the change ends last in its lab's channel or answered as not startable |
| `LabQueue.TryIsSteps` | bins/nlink-labd/src/jobs.rs:264-288 | each try of the loop is one or two steps of the system, and a failed one leaves the dead queue out of the map |
| `JobFollow.Job.Record` | bins/nlink-labd/src/jobs.rs:81-102 | an event goes to the history, to the log while it is below the replay bound, and to the state its phase says |
| `JobFollow.Job.Finish` | bins/nlink-labd/src/jobs.rs:109-124 | done implies a stored result; the state an event said of the end wins over the result's |
| `JobFollow.StepKeepsInvariant` | bins/nlink-labd/src/jobs.rs:325-367 | every step of the job, its followers and their clients keeps each follower's stream accounted for |
| `JobFollow.RunInvariant` | bins/nlink-labd/src/jobs.rs:325-367 | every run keeps it |
| `JobFollow.JobIsWhatHappened` | bins/nlink-labd/src/jobs.rs:81-124 | in every run the history is the events recorded, in order, the result is the one stored, and the end is said if and only if that was done |
| `JobFollow.StreamAddsUp` | bins/nlink-labd/src/jobs.rs:325-367 | in every run, with lag: events sent plus events reported dropped are the replayed ones plus those since; without lag they are these events, in order |
| `JobFollow.NothingIsMissed` | bins/nlink-labd/src/jobs.rs:325-367 | a follower to the end without lag was sent the whole history, each event once and in order; when more than the replay bound existed at subscription, the gap is exactly those between |
| `JobFollow.MissesNothingIff` | bins/nlink-labd/src/jobs.rs:325-367 | in every run a follower that left with the job's result was sent the replay and everything since if and only if in no step it received with more unread than the channel holds, nor had more unread at the final drain |
| `JobFollow.LagIsTold` | bins/nlink-labd/src/jobs.rs:340-348 | in every run a follower's stream has a lag notice if and only if some step of it received with more unread than the channel holds |
| `JobFollow.EndsWithTheJobsResult` | bins/nlink-labd/src/jobs.rs:353-366 | in every run a follower leaves with the job's stored result, or because it was detached; never with the no-result fallback |
| `JobFollow.FollowerGetsToTheEnd` | bins/nlink-labd/src/jobs.rs:338-366 | in every run, once the job said its end, a follower gets by its own steps to leave with the job's result, or as detached if it was |
| `JobFollow.CancelWasAsked` | bins/nlink-labd/src/server.rs:415-437 | in every run a cancelled job was cancelled by a cancel in so many words or by a call whose leaving means cancel |
| `JobFollow.CancelledIff` | bins/nlink-labd/src/jobs.rs:310-360 | in every run the operation is cancelled if and only if it was cancelled in so many words or a follower whose call was cancelled passed that on |
| `JobFollow.StepCancels` | bins/nlink-labd/src/jobs.rs:310-313 | a cancel of the operation is in effect at once, and no step undoes it |
| `JobFollow.TokensTellWhatHappened` | bins/nlink-labd/src/server.rs:71-80 | in every run a call is cancelled if and only if that was asked of it or its client left and leaving cancels it, and detached if and only if its client left and it continues |
| `JobFollow.AskingCancels` | bins/nlink-labd/src/server.rs:415-419 | in every run, after a cancel is asked of a call, the call can by itself come to cancel the operation if and only if it reaches its cancel token |
| `JobFollow.LeavingDoesNotCancel` | bins/nlink-labd/src/server.rs:71-80 | a job followed only by calls that continue is not cancelled by any leaving, in any run |
| `JobFollow.CanCancelIff` | bins/nlink-labd/src/jobs.rs:338-360 | by its own steps a follower can come to cancel the operation if and only if its call is cancelled and its ordered looks (channel, end, detach, cancel) let it reach the cancel token: it is there, or not detached and past the look for the end, or not detached and the end not said |
| `JobFollow.LeavingCancelsIff` | bins/nlink-labd/src/server.rs:71-80 | in every run the client of any following call goes: by itself the call can then come to cancel the operation if and only if leaving is what cancels it, and either it has yet to look for the job's end and the end is not said, or it is past its look |
| `JobFollow.WayToCancel` | bins/nlink-labd/src/jobs.rs:338-360 | a cancelled call that reaches its cancel token gets through its replay, what is queued and the looks before, and cancels the operation, by its own steps |
| `JobFollow.NoWayToCancel` | bins/nlink-labd/src/jobs.rs:338-360 | a call that is not cancelled, or whose looks stop at the end or the detach, cancels nothing by any of its own paths |
| `JobFollow.LeavingDetaches` | bins/nlink-labd/src/jobs.rs:353-366 | in every run, the client of a call that continues goes before the job's end is said: by its own steps the call can leave, and on every such path on which it does it leaves as detached |
| `JobFollow.LeavingAnAttachedCallCancels` | crates/nlink-lab-shared/src/api/request.rs:395-450 | a run in which nobody asks for a cancel and an attached call's leaving cancels the operation |
| `CallServer.StepKeepsTable` | bins/nlink-labd/src/server.rs:376-437 | every step of the connection and the tasks keeps the table leading each id to its own running task, and to every running one while the connection is there |
| `CallServer.ProcessKeepsTable` | bins/nlink-labd/src/server.rs:376-431 | so does every message, of any kind on any id |
| `CallServer.StepKeepsAllowed` | bins/nlink-labd/src/server.rs:461-480 | every step keeps every task one that was allowed |
| `CallServer.StepKeepsAnswered` | bins/nlink-labd/src/server.rs:517-525 | every step keeps the count of ends sent and still owed for every message |
| `CallServer.RemovesItsOwnEntry` | bins/nlink-labd/src/server.rs:517-525 | a task that ends removes its own entry and no other call's |
| `CallServer.OneEndPerCall` | bins/nlink-labd/src/server.rs:376-431 | in every run a call message gets exactly one end, sent or owed by its task, iff it is not on id 0, which gets none |
| `CallServer.CallsAreAllowed` | bins/nlink-labd/src/server.rs:256-297 | in every run no call runs before a welcome, for a peer without a role, or above its role |
| `CallServer.RunKeeps` | bins/nlink-labd/src/server.rs:332-442 | every run keeps table, permissions and answers |
| `CallServer.TokensTellWhatHappened` | bins/nlink-labd/src/server.rs:71-80 | in every run a call's task is cancelled if and only if a cancel of the call came through while it ran, or its client left it and leaving cancels it; and it is told it was left if and only if its client left it and it continues |
| `CallServer.LeaveAllMeans` | bins/nlink-labd/src/server.rs:433-437 | when the client is gone every running call is detached if it continues and cancelled if not, and every other task is as it was |
| `CallServer.StartsIff` | bins/nlink-labd/src/server.rs:461-504 | a message starts a call if and only if it is a call not on id 0, after a welcome, of a sufficient role, on a free id |
| `CallServer.WelcomedIff` | bins/nlink-labd/src/server.rs:256-297 | a peer is welcomed by a hello on id 0 of the server's major version, if it has a role, and by nothing else |
| `CallServer.OwnAnswers` | bins/nlink-labd/src/server.rs:376-404 | a ping on id 0 gets a pong, the first good hello a welcome, and nothing else does |
| `CallServer.HangsUpIff` | bins/nlink-labd/src/server.rs:362-412 | the server hangs up for what it cannot read on id 0, a hello it does not welcome and a message before one, and for nothing else |
| `CallServer.CallGetsItsEnd` | bins/nlink-labd/src/server.rs:517-525 | a running call whose task is through leaves the table and then gets its end |
| `CallServer.WhatIsSaidIsTrue` | bins/nlink-labd/src/server.rs:461-525 | in every run each end gives the true reason (a call is refused for its role if and only if the role is too low), and every task runs for its own message, with its leaving |
| `CallServer.Connection.Receive` | bins/nlink-labd/src/server.rs:376-431 | the loop's handling of a message is the protocol's step; the table stays right, every task allowed and every end counted, and a call not on id 0 has its one end, sent or owed |
| `CallServer.Connection.Leave` | bins/nlink-labd/src/server.rs:433-437 | when the client is gone every running call is left, detached if it continues and cancelled if not, and no other task is touched |
| `CallServer.Connection.TaskRemoves` | bins/nlink-labd/src/server.rs:517-524 | a task that is through takes its own entry out of the table and no other, and what every step keeps is kept |
| `CallServer.Connection.TaskEnds` | bins/nlink-labd/src/server.rs:517-525 | its message then gets one more end, the one owed, and what every step keeps is kept |
| `CallReuse.RunKeepsInvariant` | bins/nlink-labd/src/server.rs:481-525 | in every interleaving of client, connection and tasks each id waited on has exactly one call on the wire, in a task or in an unread end |
| `CallReuse.ArrivingIsNew` | bins/nlink-labd/src/server.rs:481-504 | a call that arrives is on an id with no table entry |
| `CallReuse.ReuseIsNeverRefused` | bins/nlink-labd/src/server.rs:517-525 | in every run a client that reuses an id only after its end is never told the id is running |
| `ClientCalls.StepKeepsInvariant` | crates/nlink-lab-client/src/conn.rs:191-217 | every step of starting calls, routing, closing and dropping keeps the client's invariant, with ids that wrap at 2^32 |
| `ClientCalls.RunKeepsInvariant` | crates/nlink-lab-client/src/conn.rs:256-294 | every run keeps it |
| `ClientCalls.NoCallHangsOnClose` | crates/nlink-lab-client/src/conn.rs:289-293 | in every interleaving, once the reader is done no call that was returned has a sender left |
| `ClientCalls.ClosedStaysClosed` | crates/nlink-lab-client/src/conn.rs:203-217 | and no later step gives it a sender or a message again |
| `ClientCalls.NoEntryWhenOver` | crates/nlink-lab-client/src/conn.rs:198-217 | in every run a call that failed, was dropped or saw its end has no entry, however ids go round |
| `ClientCalls.IdsAreNumbers` | crates/nlink-lab-client/src/conn.rs:203-210 | in every run a call's id is its number, from 1 on, modulo 2^32 |
| `ClientCalls.StartMeans` | crates/nlink-lab-client/src/conn.rs:203-217 | a start that finds the connection open and the writer there is a call returned; any other fails |
| `ClientCalls.ChannelInOrder` | crates/nlink-lab-client/src/conn.rs:270-287 | in every run a call's channel, and then what the reader has in hand for it, is every message read while its entry was there, each once and in the order read |
| `ClientCalls.RoutedOnItsId` | crates/nlink-lab-client/src/conn.rs:283-286 | what is routed to a call was read on the call's own id |
| `ClientCalls.EventsAreTheMessages` | crates/nlink-lab-client/src/call.rs:56-81 | a call's events are the messages of its channel in order, each once, without those not for calls, up to the first end; an error wins over a response |
| `ClientCalls.EndMeans` | crates/nlink-lab-client/src/call.rs:66-74 | an error wins over a response, and an end with neither is a success |
| `ClientCalls.CallBringsWhatWasRead` | crates/nlink-lab-client/src/conn.rs:256-294 | in every run, once the reader is done, a returned call brings what was read on its id while its entry was there, up to its end |
| `ClientCalls.AnswerMeans` | crates/nlink-lab-client/src/call.rs:84-91 | a call answers with its first end, and as closed if and only if there is none |
| `ClientCalls.Call.Next` | crates/nlink-lab-client/src/call.rs:56-81 | events come in order, each once, none after the end; with nothing left it is `None` |
| `ClientCalls.Call.Finish` | crates/nlink-lab-client/src/call.rs:84-91 | the result of the first end, or a closed connection when there is none |
| `Highlight.PiecesTile` | bins/gui/src/highlight.rs:120-173 | from any place and mode, comments, strings and code ranges tile the rest of the line in order, each of the automaton's kind |
| `Highlight.RegionsTile` | bins/gui/src/highlight.rs:120-173 | for every line and starting depth the regions tile the line as the character automaton paints it |
| `Highlight.TokensInPlace` | bins/gui/src/highlight.rs:176-189 | a code range's spans are its tokens with a class, each once, in order, at their place in the line |
| `Highlight.AllDrawnInPlace` | bins/gui/src/highlight.rs:120-189 | with a lexer that stays within its text, every span is within one region, and strings and comments are drawn whole, as such |
| `Highlight.MarksInPlace` | bins/gui/src/highlight.rs:73-86 | the marks of a line are drawn once each, in order, within the line, as errors or warnings as they are |
| `Highlight.StepOver` | bins/gui/src/highlight.rs:130-140 | stepping over a character is stepping over its bytes: no marker starts inside one |
| `Highlight.EndOfComment` | bins/gui/src/highlight.rs:126-140 | the loop over a nested block comment ends where the automaton leaves it, with the automaton's depth |
| `Highlight.EndOfText` | bins/gui/src/highlight.rs:159-168 | a string ends after the next quote or with the line |
| `Highlight.Classes` | bins/gui/src/highlight.rs:120-173 | the line's spans are its regions drawn in order, and the depth returned is the automaton's, without slicing inside a character |
| `Highlight.DepthFromAbove` | bins/gui/src/highlight.rs:68-71 | the depth at a line depends only on the lines above it |
| `Highlight.EditKeepsAbove` | bins/gui/src/highlight.rs:68-71 | an edit leaves every line above it highlighted as from scratch |
| `Highlight.Nll.Update` | bins/gui/src/highlight.rs:61-66 | new marks: everything is to be highlighted again, from the right depth |
| `Highlight.Nll.ChangeLine` | bins/gui/src/highlight.rs:68-71 | after an edit the kept depths and the lines still shown are those of the edited document |
| `Highlight.Nll.HighlightLine` | bins/gui/src/highlight.rs:73-86 | the spans are what highlighting the whole document from scratch gives that line, marks included |
| `Design.StepIsSafe` | bins/gui/src/reduce.rs:161-281 | every message keeps: the last load asked for saw every edit, reads the file over edits only if it is a reload, and analysed text is shown text when nothing loads |
| `Design.RunIsSafe` | bins/gui/src/reduce.rs:750-788 | every run keeps it |
| `Design.LoadsSpareEdits` | bins/gui/src/reduce.rs:75-109 | in every run a load taken in saw every edit so far; one that clears `edited` was an explicit reload; any other load changes nothing |
| `Design.MarksAreOfTheTextShown` | bins/gui/src/reduce.rs:75-109 | in every run, with no load on its way, the text analysed is the text shown |
| `Design.ChangedMeans` | bins/gui/src/reduce.rs:161-181 | a change of the file makes a tab read it if and only if it is idle, unedited and not saving, and ask if and only if it is edited and not saving; the text stays |
| `Design.AskedMeans` | bins/gui/src/reduce.rs:750-788 | a reload reads the file, new parameters keep edits, typing is what is analysed, formatting is typing unless it changes nothing |
| `Design.SaveMeans` | bins/gui/src/reduce.rs:205-243 | a save writes what the editor shows; its end clears the flag and the question only if it worked, and settles no other save |
| `Design.LoadedMeans` | bins/gui/src/reduce.rs:75-109 | the last load asked for: what it found is what was analysed, and what a file gave is shown, unedited |
| `Design.OpenedMeans` | bins/gui/src/reduce.rs:713-730 | a design just opened asks for its file and shows nothing yet; a save-as turns to the file written and asks for it |
| `Design.StepKeepsInStep` | bins/gui/src/reduce.rs:205-243 | a message that does not disturb a save keeps: unedited text is the file's |
| `Design.UneditedIsTheFile` | bins/gui/src/reduce.rs:205-243 | in every run without typing during a save, what is not marked edited is the text last read from or written to the file (an unreadable file is read as empty), so a load without a reload replaces no other text |
| `Design.TruthfulIff` | bins/gui/src/reduce.rs:225-243 | a message keeps the flag true (text not marked edited is the text last read or written) if and only if it does not end a save or save-as that wrote another text than the editor shows |
| `Design.FlagIsTrueIff` | bins/gui/src/reduce.rs:205-243 | in every run the flag is true all along if and only if no such save ended |
| `Design.TypingWhileSaving` | bins/gui/src/reduce.rs:225-243 | text typed while a save is under way is unmarked when it ends, though the file does not hold it |
| `Design.SavedAsShowsTheFile` | bins/gui/src/reduce.rs:646-670 | after a save-as the tab shows the text written, whatever the editor held |
| `Design.TypingWhileSavingAs` | bins/gui/src/reduce.rs:646-670 | text typed while a save-as is under way is replaced without a reload |
| `Design.Tab.Reduce` | bins/gui/src/reduce.rs:161-281 | the arms, field by field, are the protocol's steps and keep the tab safe; a load that clears `edited` is a reload that saw every edit |
| `App.StepKeepsInvariant` | bins/gui/src/reduce.rs:28-39 | every message keeps tab ids distinct and below the next, one tab per lab, the front tab present iff there is one, and every design safe |
| `App.RunKeepsInvariant` | bins/gui/src/reduce.rs:28-39 | every run keeps it |
| `App.TabsAreConsistent` | bins/gui/src/reduce.rs:889-922 | in every run: distinct ids below the next, a tab in front iff there is one, the workspace only with one, at most one tab per lab |
| `App.EditedTabStays` | bins/gui/src/reduce.rs:889-922 | an edited design survives every message but a yes to the question about that very tab |
| `App.NothingEditedGoesUnasked` | bins/gui/src/reduce.rs:282-286 | in every run an edited design goes, or the app quits with one open, only in a `Discard(true)` that answers exactly that question |
| `App.SavedAsTakesTheTabInFront` | bins/gui/src/reduce.rs:646-670 | a save-as answered while another edited design is in front clears that one's flag |
| `App.SavedAsReachesItsTabIff` | bins/gui/src/reduce.rs:646-670 | a save-as that worked changes no tab but the one it was asked in if and only if that design is in front when the answer comes, or no design is; and the asking design loses `edited` by it if and only if it is in front |
| `App.SaveAsAnswers` | bins/gui/src/reduce.rs:646-670 | so for every answer in every run |
| `App.CloseTakesOne` | bins/gui/src/reduce.rs:897-922 | closing takes the tab of an id out and no other |
| `App.AnswerMeans` | bins/gui/src/reduce.rs:282-286 | an answer takes a tab out if and only if it is a yes to the question about that tab, and quits if and only if it is a yes to that question |
| `App.SelectMeans` | bins/gui/src/reduce.rs:32-38 | a tab that is there comes to the front, and nothing else changes |
| `App.CloseMeans` | bins/gui/src/reduce.rs:889-895 | closing a tab with edits asks about it and closes nothing; any other goes and nothing is asked |
| `App.CloseShowsBeside` | bins/gui/src/reduce.rs:897-922 | when the tab in front goes the one to its left comes, or the first; when the last goes, home shows |
| `App.QuitMeans` | bins/gui/src/reduce.rs:2252-2259 | quitting asks if and only if something is edited, and otherwise quits |
| `App.KeysMean` | bins/gui/src/reduce.rs:2247-2306 | home keeps the tab in front, an escape drops the question, closing in front closes the tab in front in the workspace only, and none of them touches another tab |
| `App.AnsweredMeans` | bins/gui/src/reduce.rs:646-670 | an answer to a save-as settles that one and no other, and one called off changes no tab |
| `App.DesignMeans` | bins/gui/src/reduce.rs:75-109 | what is said of a design goes to that design, what is typed to the one in front, and every other tab stays as it is |
| `App.OpenLabMeans` | bins/gui/src/reduce.rs:361-380 | the lab is followed in front; no tab goes, and one comes if and only if no tab followed it |
| `App.OpenMeans` | bins/gui/src/reduce.rs:713-730 | the file is open in front; no tab goes, and one comes if and only if no tab had it (always for a template) |
| `App.TurningBack` | bins/gui/src/reduce.rs:2280-2302 | in the workspace a turn the other way undoes a turn |
| `App.Tabs.Take` | bins/gui/src/reduce.rs:26-39 | every message, taken in place, is the model's step; the tabs stay consistent and the designs safe, everything edited stays but a tab whose discarding was just agreed to, and with something edited the app quits only if quitting was |
| `Tail.ReadEvents` | crates/nlink-lab/src/ops/view.rs:495-535 | one event for each whole line from the offset on that is one, once and in order, and the offset after the last newline; an offset past the end is read as 0 |
| `Tail.RecordsAreTheLines` | crates/nlink-lab/src/ops/view.rs:518-530 | the records from a place on are, in order, the events of the whole lines there, strictly later line after line, every line that is an event once: as many as there are such lines |
| `Tail.ConsumedIsLast` | crates/nlink-lab/src/ops/view.rs:518-530 | the next read starts after the last newline, or where this one did |
| `Tail.RecordsGrow` | crates/nlink-lab/src/ops/view.rs:518-530 | the records of a grown file are those read already, then those from where the read ended |
| `Tail.ScanOnce` | bins/nlink-labd/src/hub.rs:627-661 | one more scan of a growing file, read or failed, keeps what was published in place |
| `Tail.TailedExactlyOnce` | bins/nlink-labd/src/hub.rs:627-661 | over any run of scans of a growing file, what was published is its records from the first cursor on, each once and in order, up to the last read that worked |
| `Tail.ReplacedStartsAgain` | bins/nlink-labd/src/hub.rs:640-652 | scans of a file and of one with another inode: the second is tailed as if it were new, after all that was published of the first |
| `Tail.ReplacedIsReadWhole` | bins/nlink-labd/src/hub.rs:640-652 | over any run of scans that spans a replacement, the old file's records as far as they were read, then the new file's from its start, each once and in order |
| `Tail.EachLabAlone` | bins/nlink-labd/src/hub.rs:627-661 | in a scan of many labs each one's cursor moves as if it were alone, and the news has of it exactly what it found, once, or nothing |
| `Tail.Scanner.Scan` | bins/nlink-labd/src/hub.rs:627-661 | labs not listed lose their cursors, each listed one moves its own, the news are those found |
| `Tail.Scanner.Run` | bins/nlink-labd/src/hub.rs:146-169 | the loop, over scans that come back, scans that could not list the labs and scans that died, is the model's run, and publishes its news |
| `Tail.Scanner.Visit` | bins/nlink-labd/src/hub.rs:635-660 | one lab's cursor is made or moved on and what it found is returned; a failed read moves nothing |
| `Tail.OneLabOfTheRun` | bins/nlink-labd/src/hub.rs:146-169 | over every run of the loop any lab sees its own turns (seen, missing from the list, no list, scan died): its cursor and all that is published of it depend on these alone |
| `Tail.ToldOnceIff` | bins/nlink-labd/src/hub.rs:627-661 | any lab with a growing file, at any read that works: its records from where it is to be read (the file's end as the first list found it, the start for a lab that list lacks) were published, each once, unless its cursor was dropped after a look or a listing failed before the first list that has it; then what was published before and the file from its start; with that place at a line's end this is an if-and-only-if, but for a file with no record to show it |
| `Tail.PublishedOnceIff` | bins/nlink-labd/src/hub.rs:146-169 | the same of what every run of the loop publishes of any lab |
| `Tail.NewLabFromItsStart` | bins/nlink-labd/src/hub.rs:639-652 | over every run, a lab that the first list lacks and that keeps being listed once it is has its file published from its start, each record once and in order |
| `Tail.PublishedAgain` | bins/nlink-labd/src/hub.rs:146-169 | the runs that show it: a failed first listing publishes a whole file older than the daemon; after a scan that dies, or a list that misses the lab once, the file is published again from its start |
| `Metrics.Fastest` | bins/nlink-labd/src/hub.rs:55-61 | the least interval wanted, and one that is wanted |
| `Metrics.Hub.WantMetrics` | bins/nlink-labd/src/hub.rs:396-409 | a want with a new id is added and the pool stays consistent |
| `Metrics.Hub.DropWant` | bins/nlink-labd/src/hub.rs:465-479 | the want goes, the collector stops with its last one, and the pool stays consistent |
| `Metrics.TakenOk` | bins/nlink-labd/src/hub.rs:396-409 | taking a want keeps wants served, intervals least, and one thread not stopped per collector |
| `Metrics.GivenOk` | bins/nlink-labd/src/hub.rs:465-479 | giving one up keeps the same |
| `Metrics.RunKeepsPool` | bins/nlink-labd/src/hub.rs:396-409 | every sequence of wants and drops keeps the pool consistent |
| `Metrics.CollectsWhatIsWanted` | bins/nlink-labd/src/hub.rs:437-479 | after every sequence of wants and drops a lab has a collector iff someone wants it, at exactly the least interval wanted, with exactly one of its threads not stopped |
| `Metrics.Throttle` | bins/nlink-labd/src/hub.rs:377-385 | the loop passes on exactly the ticks that pass, in order |
| `Metrics.FirstTickPasses` | bins/nlink-labd/src/hub.rs:377-385 | the first tick is passed on |
| `Metrics.IntervalIsAsked` | bins/nlink-labd/src/hub.rs:289-292 | a subscription's interval is what it asked for, never below the least |
| `Metrics.PassesIff` | bins/nlink-labd/src/hub.rs:377-385 | after one that was, the next passed on is the first to come no earlier than the interval less half the least |
| `Metrics.SamplesAreSpaced` | bins/nlink-labd/src/hub.rs:377-385 | successive samples are at least the interval less half the least interval apart, and with ticks at most d apart less than that plus d |
| `Session.ChunksJoin` | bins/gui/src/session.rs:123-135 | lines and held text of two chunks are those of their concatenation |
| `Session.SplitChunk` | bins/gui/src/session.rs:123-135 | any split of a chunk gives the same state |
| `Session.FedStream` | bins/gui/src/session.rs:123-135 | a chunk adds to its own stream's lines and held text and to no other's |
| `Session.StreamsAreIndependent` | bins/gui/src/session.rs:123-135 | each stream's lines and held text depend only on its own text, whatever the chunks and interleaving |
| `Session.TextComesBack` | bins/gui/src/session.rs:123-135 | text without carriage returns is its lines joined with what is held |
| `Session.ReturnAndNewline` | bins/gui/src/session.rs:123-135 | a carriage return discards what is held and ends no line; a newline makes what is held, and the text since, a line |
| `Session.HeldIsShown` | bins/gui/src/session.rs:149-157 | what a stream holds is shown as a line of that stream, unless it is nothing |
| `Session.Session.Push` | bins/gui/src/session.rs:109-114 | the kept lines are exactly the last 2000 of all there were |
| `Session.Session.Output` | bins/gui/src/session.rs:123-135 | the lines a text ends are added, the rest is held, the other stream is left alone |
| `Session.Session.End` | bins/gui/src/session.rs:137-147 | held text becomes lines, the end is said, nothing is held |
| `Session.Session.Shown` | bins/gui/src/session.rs:149-157 | the kept lines, then what each stream holds |
| `Marks.FirstMark` | bins/gui/src/doc.rs:219-228 | a line's mark lies within its line and covers exactly what the span has there |
| `Marks.MarksAreOnLines` | bins/gui/src/doc.rs:215-233 | a span's marks are on consecutive lines from the one it starts on, each within its line |
| `Marks.MarksCoverTheSpan` | bins/gui/src/doc.rs:215-233 | the bytes the marks cover are exactly the span's that are not newlines |
| `Marks.MarkSpan` | bins/gui/src/doc.rs:215-233 | the loop ends, never subtracts below zero or slices inside a character, and gives the span's marks |
| `Marks.AllMarks` | bins/gui/src/doc.rs:207-235 | every error's and warning's clipped span gives its marks in order, a hint's none |
| `Marks.MarksCoverTheProblems` | bins/gui/src/doc.rs:207-235 | as errors and as warnings, the marks cover exactly the bytes, newlines apart, that problems of that severity are about |
| `Retention.Operations.FinishedInOrder` | bins/nlink-labd/src/jobs.rs:241-245 | the finished operations' numbers, all of them, ascending |
| `Retention.Operations.Forget` | bins/nlink-labd/src/jobs.rs:238-256 | what remains is exactly the unfinished operations and the finished ones that are neither among the oldest over 200 nor older than 30 minutes |
| `Retention.Operations.Start` | bins/nlink-labd/src/jobs.rs:213-260 | a new number; listing it forgets exactly that, not listing it changes no other |
| `Retention.LiveWorkStays` | bins/nlink-labd/src/jobs.rs:238-256 | no unfinished operation is forgotten, and at most 200 finished ones remain |
| `Retention.OldestGoFirst` | bins/nlink-labd/src/jobs.rs:246-255 | an operation forgotten before its time takes every older finished one with it |
| `Retention.LiveWorkIsNeverForgotten` | bins/nlink-labd/src/jobs.rs:238-258 | over every run of listings and ends an operation that has not ended stays listed |
| `Retention.DropsTheOldestEnded` | bins/gui/src/reduce.rs:1617-1626 | pruning drops exactly the oldest ended entries, as many as asked or all there are, and keeps the running ones in order |
| `Retention.PruneMeetsTheBound` | bins/gui/src/reduce.rs:1984-1993 | after pruning the bound is met or every entry runs; no more go than needed |
| `Retention.NewestStays` | bins/gui/src/reduce.rs:1629-1648 | the running entry just pushed is never removed and stays last |
| `Retention.Prune` | bins/gui/src/reduce.rs:1617-1626 | the loop of removals is dropping the first ended entries over the bound |
| `Retention.Live.Start` | bins/gui/src/reduce.rs:2109-2115 | a new session is last and shown, no running session goes, the bound is met or all run |
| `Retention.JobList.StartJob` | bins/gui/src/reduce.rs:1629-1656 | connected: the new job is pushed, the rest pruned, and it is the active one; not connected: nothing but an id is used |
| `Retention.JobList.Follow` | bins/gui/src/reduce.rs:1885-1901 | the job labelled with the operation is the one just started, no other job's label changes, and nothing happens to a viewer, without a daemon or for an unknown operation |

## Left out

- Registry.ReplicaConverges: states nothing for a subscriber whose channel lagged, because the dropped deltas are not sent again; nor for a reconnected GUI, whose list is not cleared.
- JobFollow.NothingIsMissed: asks that no more than 1024 events were unread at the final drain, because the drain stops at the lag error; MissesNothingIff says that this is exactly the condition, and StreamAddsUp accounts for lag.
- LabQueue.PositionIsExact: is for a lab whose worker lives, because after a crash the counter is stale (StalePosition); ReportedPositions has the exact condition.
- Design.UneditedIsTheFile: is for runs without typing during a save, because the code forgets such typing (TypingWhileSaving); FlagIsTrueIff has the exact condition.
- CallServer.OneEndPerCall: counts ends handed to the connection's writer; a task whose handler panics is not modelled, nor is a writer that is gone.
- Tail.TailedExactlyOnce: is for a file that keeps its inode and only grows, ReplacedIsReadWhole for one that is replaced between scans; what is written to the old file after its last scan is not read by the code, and a file replaced between its `stat` and its read is not modelled. Event kinds, limits and the rotated file of `read_events` are not used by the tail and not modelled.
- Tail.PublishedOnceIff: its if-and-only-if asks that the place the lab is to be read from is at the end of a line, as it is when events are written a line at a time; without that its two halves are equations (ToldOnceIff).
- Marks.AllMarks: asks that a span with something to mark starts between characters, because the code slices the text there.
- Highlight.Classes: takes the lexer of code ranges as a function; a line is UTF-8, of which only what slicing relies on is asked.
- Retention.Operations.Forget: takes listing as one step; operations that end while it runs are seen as before or after it.
- App.NothingEditedGoesUnasked: does not cover a window closed by the window manager.
- Subscriptions scoped to one lab, drift watches, runtime notifications and the `latest` metrics a collector in flight may still write.
- Toasts (but the ids they take), settings, recent files and the effects a message returns, except the loads and saves whose answers come back.
- The palette, help, canvas, terminals and forms of the GUI; a palette entry only sends other messages.
- Frame encoding, JSON, the natural order of names and `mutate::handle`: parameters, or not part of this model.
- Wall-clock time is a nondecreasing number; memory ordering and scheduling are not modelled, a lock-protected block is one step.
- Processes, ptys, sockets, authorisation lookups, Zenoh, HTTP, audit, configuration, export and the command line: I/O and plumbing with little to prove.
