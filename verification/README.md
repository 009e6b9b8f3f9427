# A verified model of the TarsFramework services

This project models the stateful parts of the TarsFramework repository and proves what they promise. It covers seven
components, each in its own modules:

- **Trace pipeline (LogServer).** A reader cuts a growing log file into lines (`LogLines`, `LogReader`). A collector
  assembles the lines into traces (`TraceData`, `TraceAssembly`), closes traces on a timer, turns each into two call
  graphs (`TraceGraph`, `CallStats`) and sums the graphs into buckets (`Aggregation`). Reader and collector are saved
  and restored together (`Recovery`). `PackedRecord` is the older bit-packed form of the statistics.
- **Connection index (AdminRegistryServer).** Which connection to use for a node (`NodeIndex`).
- **Patch protocol (NodeServer and the poller in AdminRegistryServer).** The states of a server, its heartbeats and
  commands, the queue of accepted patches, the worker threads, and the poll for the outcome (`PatchProtocol`).
- **Task scheduling (AdminRegistryServer).** Slices, threads and cancellation (`ElegantTask`).
- **Patch distribution (PatchServer, NodeServer).** The piecewise transfer of a file (`PatchTransfer`) and the counted
  buffer pool behind it (`PatchCache`).
- **Limiters.** Restarts of a server (`StartLimiter`), requests to the config server (`ConfigLimiter`).
- **Configuration layers and thread allocation.** `ConfigMerge` and `DbThreads`.

`Basics` holds what several modules share.

Each object whose methods write its fields is a class, and each method is proved equal to a step of a specification on
values. The main theorems are about that specification: about every run, every interleaving of the locked steps and
every input. Methods that hold a lock are atomic steps; times are inputs.

Several promises hold only under a condition. Where that is so, the exact condition is proved (if and only if), and
often a run that fails without it:

- Assembling a trace does not depend on the order of its lines exactly when no two lines offer different texts for one
  field or different times for one slot (`OrderIndependence`). Then its graphs do not depend on it either
  (`AnyOrderSameGraph`).
- Building a graph ends exactly when no path through the child lists comes back to a span; three lines suffice to build
  a trace for which it does not (`EndlessTraceExists`).
- A restored process has the traces and graphs of an uninterrupted one, but not the times of its traces, so it may close
  a trace later (`RestoreDelaysClosing`).
- The polls for a patch tell the truth, whatever quiet steps follow, exactly as long as no event takes the server out of
  the patching state during the patch (`PollIsTruthfulExactly`, `DisturbingEvents`); a failed start does
  (`FailedStartFakesSuccess`).
- No server of a node is ever left in the patching state without a patch, whatever quiet steps are taken, exactly if no
  two of its servers have names that run together to the same key (`NoServerStrandsExactly`); one that is left there
  stays there (`StrandedForGood`).
- A cancellation stops a task exactly when an item that is still to come is no patch or has not been prepared yet
  (`CancelStopsExactly`).
- A request served through the cache finds what its file holds by then, except exactly when the file looks as it did
  when it was last read (in size, inode and second of modification) but holds something else than was read then, or, if
  that read failed, than was left in the buffer (`ServedContent`). A second copy of equal size within one second does it
  (`SecondCopyIsMissed`), and so does a failed read (`FailedReadIsServed`). As the copy is made without the lock, it is
  what was loaded exactly if no other request finds the file changed in between (`CopyIsSafeExactly`,
  `ReloadUnderReader`).
- The timer loses a pending task exactly when a new one is due at the same second and was scheduled a multiple of 2^32
  tasks later (`KeyTakenExactly`, `OneTraceTooMany`).
- The start limiter keeps its bound exactly when its interval is at most the punishment (`SpanBoundExactly`).
- Packed statistics are exact below 2^23 calls and 2^39 time units, and only there (`UnpacksExactly`).

Where the code and its documentation differ, the model follows the code. A trace's time is set by its first line only
and not refreshed by later ones. The config limiter's comment speaks of ten requests a minute; the code allows up to
twice the limit plus two in a window (`FewAllowedInAnySpan`, `SoManyAreAllowed`).

## Model

| member | source | states |
|---|---|---|
| TraceAssembly.OrderIndependence | LogServer/LogAggregation.cpp:99-204 | All orders of the same log lines build the same trace, up to the order of spans and children, if and only if the lines are consistent: no two offer different texts for one field or stamp different times on one slot |
| TraceAssembly.UpdateWritesText | LogServer/LogAggregation.cpp:99-204 | Every text of every span and of the trace is first-writer-wins: a line changes exactly the empty texts it offers something for |
| TraceAssembly.UpdateWritesTime | LogServer/LogAggregation.cpp:99-169 | Every time is last-writer-wins, and a line stamps at most the slots its type names |
| TraceAssembly.LineSetsRoot | LogServer/LogAggregation.cpp:138-171 | By kind, parent and span of a line: a ts, or a cs that is its own parent, sets the start of the trace, a te or such a cr its end; exactly these fill an empty root and its master |
| TraceAssembly.LineLinks | LogServer/LogAggregation.cpp:172-186 | A cs or cr line makes its span a child of its parent iff that is another span; no other line links anything |
| TraceAssembly.LineMentions | LogServer/LogAggregation.cpp:172-202 | A line makes its own span known, and by cs or cr its parent, and no other |
| TraceAssembly.AssembleKnown | LogServer/LogAggregation.cpp:172-202 | The spans of an assembled trace are exactly the span ids its lines mention |
| TraceAssembly.AssembleLinked | LogServer/LogAggregation.cpp:172-186 | Its parent-child pairs are exactly those the caller-side lines state |
| TraceAssembly.AssembleWrites | LogServer/LogAggregation.cpp:99-204 | Each text is the first one offered by any line, each time the last one stamped, over the whole sequence |
| TraceAssembly.UpdateKeepsWellFormed | LogServer/LogAggregation.cpp:138-204 | One line keeps span ids distinct, children without duplicates and never the span itself, every child a span of the trace, and the root span present |
| TraceAssembly.AssembledIsWellFormed | LogServer/LogAggregation.cpp:138-204 | So every sequence of lines from an empty trace builds a well-formed one |
| TraceAssembly.TraceBuilder.FindOrAdd | LogServer/LogAggregation.cpp:174-202 | Finds the span of an id in place or appends it, and leaves all other spans alone |
| TraceAssembly.TraceBuilder.InsertChild | LogServer/LogAggregation.cpp:63-70 | Adds a child to a span in place unless it is listed, and nothing else |
| TraceAssembly.TraceBuilder.Update | LogServer/LogAggregation.cpp:138-204 | The in-place update of a trace by one line equals the specified step |
| CallStats.InsertAllOf | LogServer/LogAggregation.cpp:206-214 | Merging statistics adds, under each key, exactly what is merged in |
| CallStats.InsertAllTotal | LogServer/LogAggregation.cpp:206-214 | Total calls and total time are conserved by merging |
| CallStats.InsertAllKeys | LogServer/LogAggregation.cpp:41-61 | No key is ever stored twice, none is lost and none is invented |
| CallStats.Table.Add | LogServer/LogAggregation.cpp:41-61 | The in-place insertion of an edge or a vertex equals the specified one |
| CallStats.Table.AddAll | LogServer/LogAggregation.cpp:206-214 | So does the loop that merges a whole graph |
| TraceGraph.FinishesIffNoPathReturns | LogServer/LogAggregation.cpp:221-255 | The recursion from a span ends if and only if no path through the child lists visits a span twice, and then within as many nested calls as there are spans |
| TraceGraph.EndlessTraceExists | LogServer/LogAggregation.cpp:273-304 | Three log lines build a trace for which the recursion ends at no depth |
| TraceGraph.GraphConserves | LogServer/LogAggregation.cpp:257-320 | A graph's vertex calls and times sum to the root's plus those of the valid server intervals of the visited spans, its edges' to the valid client intervals, and no vertex or edge key occurs twice |
| TraceGraph.TreesFinish | LogServer/LogAggregation.cpp:252-254 | If no span has two parents and none lists the root, the recursion ends |
| TraceGraph.TreeGraphCountsEachSpanOnce | LogServer/LogAggregation.cpp:221-320 | On such a tree the graph counts every span that the root reaches exactly once and no other |
| TraceGraph.TreeGraphUnderEveryKey | LogServer/LogAggregation.cpp:221-320 | Under every single vertex and edge of both graphs of a tree, from the fields of the spans: a vertex holds the sr-ss intervals of the reached spans whose slave (or slave and function) it names, and the trace's own at its master; an edge the cs-cr intervals of those called from what it names, with order 0 between servers and the depth between functions |
| TraceGraph.AgreeingLogsBuildTrees | LogServer/LogAggregation.cpp:172-186 | Lines build such a tree if and only if they name one parent for each called span, and never the root among the called |
| TraceGraph.SameViewSameGraph | LogServer/LogAggregation.cpp:221-320 | Two traces that differ in the order of spans and children only end their recursions together and have graphs with the same calls and times under every vertex and every edge |
| TraceGraph.AnyOrderSameGraph | LogServer/LogAggregation.cpp:99-320 | So consistent lines for which the recursion ends give the same statistics in whatever order they arrive |
| TraceGraph.VisitedIsKnown | LogServer/LogAggregation.cpp:230-232 | In a well-formed trace the builder never meets a span that does not exist |
| TraceGraph.GraphBuilder.AddSpan | LogServer/LogAggregation.cpp:273-304 | The recursion fills the two tables with exactly the specified visits, on top of what they held |
| TraceGraph.GraphBuilder.AddChildren | LogServer/LogAggregation.cpp:301-303 | So does its loop over the children |
| TraceGraph.GraphBuilder.Build | LogServer/LogAggregation.cpp:306-320 | The whole builder, with the root vertex, equals the specified graph and never fails on a well-formed trace |
| LogLines.LinesCutExactly | LogServer/LogReader.cpp:110-137 | Lines and remainder put together are the text; each line has its only line end at its end, the remainder has none |
| LogLines.LinesAreUnique | LogServer/LogReader.cpp:110-137 | There is only one such way to cut a text |
| LogLines.CutResumes | LogServer/LogReader.cpp:124-129 | Cutting a text piecewise from the kept remainder gives the lines and the remainder of the whole |
| LogLines.CutWithoutRest | LogServer/LogReader.cpp:62-63 | Dropping the kept bytes leaves the lines as they are |
| LogLines.ColumnsIgnoreTail | LogServer/LogReader.cpp:132-134 | Bytes left behind a line in the line buffer cannot change its columns |
| LogLines.WrittenRecordIsLine | LogServer/LogReader.cpp:110-137 | Columns written with a bar after each and a newline behind the last bar are one line, whatever follows and even with newlines inside columns |
| LogLines.ParsedRecord | LogServer/LogReader.cpp:139-209 | Parsing a written record gives it back: each field is its own column, the kind the one named, the slave cut before its second dot, the time every decimal number of 64 bits |
| LogLines.NumberOfDecimal | LogServer/LogReader.cpp:193-194 | A decimal text of any size is read back, cut at the limits of 64 bits; a text that begins with no number gives 0 |
| LogLines.NumberSkips | LogServer/LogReader.cpp:193-194 | White space and a plus sign in front of it make no difference |
| LogReader.ReadKeepsStep | LogServer/LogReader.cpp:47-75 | One read hands out exactly the lines that end in the bytes it adds, and keeps exactly the unfinished rest |
| LogReader.ReadOpensAndCloses | LogServer/LogReader.cpp:11-75 | When a read opens the file, when an idle one closes it (more than 60 seconds after the last that found something), and the position it leaves |
| LogReader.ChunksDoNotMatter | LogServer/LogReader.cpp:11-75 | Over any run of reads of any sizes of a growing file, with idle closes and reopens, the lines handed out are those of the newly read part of the file |
| LogReader.FreshRunDelivers | LogServer/LogReader.cpp:47-75 | From a new reader on, they are exactly the complete lines of the prefix read so far |
| LogReader.TruncatedFileStartsOver | LogServer/LogReader.cpp:31-36 | A file found shorter than what was read of it is read from its start, and the reader is in step with it at once |
| LogReader.PendingIsSuffix | LogServer/LogReader.cpp:126-127 | The kept bytes are the last ones read and contain no line end |
| LogReader.SavedPositionResumes | LogServer/LogReader.cpp:211-226 | The position saved is the start of the first line not handed out: reading on from there gives the rest of the lines, each once |
| LogReader.FileReader.ReopenFile | LogServer/LogReader.cpp:11-45 | Opening the file, or starting over when it has been truncated, equals the specified step |
| LogReader.FileReader.ReadFile | LogServer/LogReader.cpp:47-75 | One read on the real buffers equals the specified step, and the parsed lines are the delivered ones |
| LogReader.FileReader.FindLineEnd | LogServer/LogReader.cpp:77-108 | The search finds the first line end at or after a position, or none |
| LogReader.FileReader.SplitLine | LogServer/LogReader.cpp:110-137 | The cutting loop parses every complete line and moves the rest to the front of the buffer |
| LogReader.FileReader.ParseLine | LogServer/LogReader.cpp:139-209 | A line parsed out of the line buffer gives the record of its columns, whatever is behind it |
| LogReader.FileReader.SplitColumns | LogServer/LogReader.cpp:145-207 | The column loop finds the fourteen columns of the line |
| Aggregation.ScheduleLosesExactly | LogServer/TimerTaskQueue.h:29-37 | Scheduling adds a task and keeps all others exactly if no pending task has its key; otherwise one is overwritten |
| Aggregation.KeyTakenExactly | LogServer/TimerTaskQueue.h:29-66 | Over any use of the queue, a key is taken iff a task due at the same second still waits that was scheduled a multiple of 2^32 tasks earlier |
| Aggregation.ShortWaitsKeepKeysFree | LogServer/TimerTaskQueue.h:31-35 | As long as every task waits for fewer than 2^32 others, no task is lost, however many the process has scheduled |
| Aggregation.PushKeepsTasksExactly | LogServer/LogAggregation.cpp:322-335 | A push keeps exactly one task for each trace and bucket iff it goes to a live trace or finds its key free |
| Aggregation.TaskKeepsTasksExactly | LogServer/LogAggregation.cpp:337-402 | So does running a task, iff every key it schedules under is free: its own next one, or those of the buckets its trace opens |
| Aggregation.PushSetsTimes | LogServer/LogAggregation.cpp:322-335 | A line of a live trace leaves its time and all timers alone; any other opens its trace now, with one check due after the first period |
| Aggregation.CheckClosesExactly | LogServer/LogAggregation.cpp:337-402 | A check closes its trace iff it was opened more than the period ago, the long one if the trace has ended and some span lacks one of its four times, else the short one; exactly then both graphs are added under every key, and otherwise the check is due again |
| Aggregation.AddGraphSetsTimes | LogServer/LogAggregation.cpp:357-391 | A new bucket is posted after one second and then every 300; a present one keeps its task |
| Aggregation.OtherTasksByKind | LogServer/LogAggregation.cpp:337-342 | The check of a trace that is gone ends; the post of a bucket is due again after its period |
| Aggregation.OneTraceTooMany | LogServer/LogAggregation.cpp:325-330 | The first lines of 2^32 traces in one second make a run that loses nothing, and the line of one more loses the check of the first |
| Aggregation.PushKeepsInv | LogServer/LogAggregation.cpp:322-335 | Pushing a line keeps everything below: it joins the one open life of its trace, which is opened with one check task if need be |
| Aggregation.TaskKeepsInv | LogServer/LogAggregation.cpp:337-402 | Running a due task keeps everything below, whether it closes its trace, waits or posts a graph |
| Aggregation.RunsLoseNothing | LogServer/LogAggregation.cpp:322-402 | Over any run of pushes and timer steps: each live trace has exactly one pending check and each bucket one post; the lines of each trace id are cut without loss into its lives, so each life is closed at most once; every bucket holds, per key and in total, the sum of the graphs of all closed lives that hash to it |
| Aggregation.TimerTaskQueue.PushTimerTask | LogServer/TimerTaskQueue.h:29-37 | Adds the task under its due second and sequence number |
| Aggregation.TimerTaskQueue.TakeDue | LogServer/TimerTaskQueue.h:53-66 | Takes out the earliest task exactly if its second has come |
| Aggregation.TimerTaskQueue.First | LogServer/TimerTaskQueue.h:56-57 | Finds the least key |
| Aggregation.LogAggregation.PushRawLog | LogServer/LogAggregation.cpp:322-335 | The method on the real maps equals the specified push |
| Aggregation.LogAggregation.MergeGraph | LogServer/LogAggregation.cpp:367-378 | Adding a graph to its bucket equals the specified step |
| Aggregation.LogAggregation.CheckAndUpdateITrace | LogServer/LogAggregation.cpp:337-402 | The check closes its trace exactly if it is overdue, and says when to check again |
| Aggregation.LogAggregation.RunTimer | LogServer/TimerTaskQueue.h:83-94 | A turn of the timer thread equals the specified step, including the next period of a cyclic task |
| Recovery.RunKeepsUpToDate | LogServer/TraceService.cpp:132-153 | Over any run of reads and timer steps, the collector has been given exactly the complete lines of the bytes read, each once and in order |
| Recovery.RestartKeepsUpToDate | LogServer/SnapshotDraftsman.cpp:40-82 | A snapshot taken between reads and restored into a new process is up to date in that sense |
| Recovery.CrashRecovery | LogServer/SnapshotDraftsman.cpp:40-82 | Run, snapshot, crash, restart, run on: the collector has again been given exactly the complete lines of the file up to the reader's position, each once, and all its invariants hold |
| Recovery.RestartChangesNothing | LogServer/LogAggregation.cpp:414-452 | Two processes at the same position that have closed the same lives, in whatever order, have the same traces and the same statistics under every key of every bucket, restarted or not; with the same order also the same graphs and kinds |
| Recovery.RestoreDelaysClosing | LogServer/LogAggregation.cpp:431-438 | A restore never brings a closing forward; by the times of the trace, the two processes agree whether it is overdue exactly before the old deadline and after the new one |
| Recovery.CreateSnapshot | LogServer/SnapshotDraftsman.cpp:40-55 | Saves exactly the position of the first line not handed out, the traces and the graphs |
| Recovery.RestoreSnapshot | LogServer/SnapshotDraftsman.cpp:57-82 | Restores a new reader and collector to the saved state with one check per trace, in the default period, and one post per graph; ignores a snapshot of another file |
| Recovery.ReadAndPush | LogServer/TraceService.cpp:138-151 | One turn of the read-until-empty loop equals the specified step |
| NodeIndex.ReportKeepsConsistent | AdminRegistryServer/NodeManager.cpp:239-271 | A report keeps the maps inverse to each other: uid lists non-empty, without duplicates and in agreement with their iterators, node in a uid's set iff uid in the node's list, same keys in both uid maps |
| NodeIndex.DeleteKeepsConsistent | AdminRegistryServer/NodeManager.cpp:273-294 | So does taking a node off line |
| NodeIndex.CloseKeepsConsistent | AdminRegistryServer/NodeManager.cpp:319-346 | So does closing a connection |
| NodeIndex.IndexFollowsHistory | AdminRegistryServer/NodeManager.cpp:239-346 | After any sequence of events the index is consistent, each node's list is its open connections by latest report, and each connection is kept as last reported |
| NodeIndex.AnswerIsLatestAlive | AdminRegistryServer/NodeManager.cpp:296-317 | The index has an answer for a node iff some report of it is still alive, and then it is the connection of the last alive report |
| NodeIndex.NodeManager.CreateNodeCurrent | AdminRegistryServer/NodeManager.cpp:239-271 | The method on the three maps equals the specified report |
| NodeIndex.NodeManager.DeleteNodeCurrent | AdminRegistryServer/NodeManager.cpp:273-294 | The loop over the node's connections equals the specified step |
| NodeIndex.NodeManager.GetNodeCurrent | AdminRegistryServer/NodeManager.cpp:296-317 | The lookup of the chosen uid cannot miss, and a listed node always has a connection |
| NodeIndex.NodeManager.EraseNodeCurrent | AdminRegistryServer/NodeManager.cpp:319-346 | The loop over the connection's nodes equals the specified step |
| PatchProtocol.StepKeepsInv | NodeServer/ServerManager.cpp:323-363 | Every step of acceptance, queue, worker, heartbeat or command that is not a disturbance keeps the protocol in order |
| PatchProtocol.OnlyQuietStepsKeepInv | NodeServer/ServerCommand.h:77-101 | The order of the protocol is kept by a step if and only if it is not a disturbance |
| PatchProtocol.RunKeepsInv | NodeServer/BatchPatchThread.cpp:67-107 | It is kept over every quiet run |
| PatchProtocol.DisturbingEvents | NodeServer/CommandStop.cpp:34-84 | Which events take a server out of the patching state: keep-activating, the unconditional writes of Inactive, adding a file, a stop after 600 idle seconds, and the restore of an older command |
| PatchProtocol.KeyIsFree | NodeServer/BatchPatchThread.cpp:71-77 | With distinct keys a patch that was accepted is never refused by the queue |
| PatchProtocol.PatchingIffOngoing | NodeServer/ServerManager.cpp:323-363 | A server is in the patching state iff a patch of it is waiting or being executed; that is at most one, the latest accepted |
| PatchProtocol.RunRestoresState | NodeServer/ServerCommand.h:87-101 | When a patch ends, its server is back in the state it was accepted in, over every quiet run |
| PatchProtocol.RequestByState | NodeServer/ServerManager.cpp:323-360 | A valid request is accepted iff the server is Inactive, Active, Destroyed or Activating; then the state is saved, progress is 0 and one patch more goes on; otherwise nothing changes |
| PatchProtocol.PatchRoundTrip | NodeServer/BatchPatchThread.cpp:67-183 | From each of these four states: accepted, queued, taken and executed with any progress and result, the server is back in that state, at 100 percent, successful iff the result is 0 |
| PatchProtocol.FirstInFirstOut | NodeServer/BatchPatchThread.cpp:67-107 | Patches leave the queue in the order in which they entered it, over every run |
| PatchProtocol.HeartbeatByState | NodeServer/ServerObject.cpp:497-501 | A heartbeat makes the server Active in exactly these four states |
| PatchProtocol.SetInAnyState | NodeServer/CommandStart.cpp:653-675 | A failed start makes any server Inactive, the report of a starting process makes any Activating |
| PatchProtocol.StartByState | NodeServer/CommandStart.cpp:49-150 | A start goes ahead from Inactive only, and with something to execute; the progress becomes 100 in either case |
| PatchProtocol.StopByState | NodeServer/CommandStop.cpp:34-84 | A stop goes ahead in all states but Inactive and Destroying, during a patch only after 10 or 600 idle seconds |
| PatchProtocol.DeadByState | NodeServer/ServerObject.cpp:840-847 | A dead process makes its server Inactive except while patching, or while Activating in time |
| PatchProtocol.HoldByState | NodeServer/CommandLoad.cpp:36-60 | Loading goes ahead in the same four states, adding a file in all; both restore the state they found |
| PatchProtocol.PollTellsTheTruth | AdminRegistryServer/ExecuteTask.cpp:413-449 | In every state a quiet run reaches, a poll says success iff the latest accepted patch ended with 0, and failure iff it ended otherwise and is over; the progress is at 100 iff that patch has been executed |
| PatchProtocol.PollIsTruthfulExactly | AdminRegistryServer/ExecuteTask.cpp:425-445 | After an event, the polls of its server tell the truth in every quiet continuation iff the event does not take the server out of the patching state |
| PatchProtocol.FreshNodeInv | NodeServer/ServerObject.h:39-51 | A node as constructed, without patches, with no command at work and nothing queued, is in order if its servers' keys are distinct |
| PatchProtocol.FailedStartFakesSuccess | NodeServer/CommandStart.cpp:653-675 | A start that fails during a patch leads to a poll that says success while the latest patch is still waiting |
| PatchProtocol.SharedKeyStrands | NodeServer/BatchPatchThread.cpp:71-77 | If two servers share a key, a patch of one accepted while the other's waits leaves its server in the patching state without a patch |
| PatchProtocol.NoServerStrandsExactly | NodeServer/BatchPatchThread.cpp:67-91 | From a node as constructed, no quiet run leaves a server in the patching state without a patch, if and only if no two of its servers share a key |
| PatchProtocol.StrandedForGood | NodeServer/ServerManager.cpp:328-333 | Only a disturbance frees such a server: no patch of it is accepted again |
| PatchProtocol.ExecutionByItself | NodeServer/CommandPatch.cpp:75-91 | Executed without interruption, whatever progress is reported, a patch leaves its server in the saved state, at 100 percent and with its result |
| PatchProtocol.WaitForPatch | AdminRegistryServer/ExecuteTask.cpp:413-449 | The poller succeeds iff the first decisive answer in time is a success |
| PatchProtocol.PollerSeesItsPatch | AdminRegistryServer/ExecuteTask.cpp:400-449 | In a quiet run, with no later patch of the same server accepted, a poller that succeeds has seen its own patch end with 0, and one told of a failure has seen it end otherwise and be over |
| PatchProtocol.ServerObject.PatchPro | NodeServer/ServerManager.cpp:323-360 | The locked part of accepting a request equals the specified step and says whether it was accepted |
| PatchProtocol.ServerObject.DoPatchRequest | NodeServer/BatchPatchThread.cpp:131-183 | Executing a patch equals the whole sequence of specified worker steps, and restores state, progress and result as stated there |
| PatchProtocol.ServerObject.GetPatchPercent | NodeServer/ServerObject.cpp:698-718 | Answers with an error exactly when the last result is a failure and no patch is going on |
| PatchProtocol.ServerObject.KeepAlive | NodeServer/ServerObject.cpp:481-519 | A heartbeat makes a server active except in a transitional state other than Activating |
| PatchProtocol.ServerObject.KeepActiving | NodeServer/ServerObject.cpp:521-542 | Makes any server Activating |
| PatchProtocol.ServerObject.CanStart | NodeServer/CommandStart.cpp:49-150 | Goes ahead exactly for an enabled, inactive server with something to execute; sets the progress to 100 even if there is nothing |
| PatchProtocol.ServerObject.StartFinish | NodeServer/CommandStart.cpp:653-675 | A failed start makes any server Inactive |
| PatchProtocol.ServerObject.CanStop | NodeServer/CommandStop.cpp:34-84 | Goes ahead exactly for servers that are not inactive, being destroyed, or in a patch that has lately made progress |
| PatchProtocol.ServerObject.CheckServer | NodeServer/ServerObject.cpp:840-847 | A dead process makes its server Inactive unless it is being patched or just being started |
| PatchProtocol.ServerObject.CanLoad | NodeServer/CommandLoad.cpp:36-60 | Holds the Loading state and keeps the one before, except in a transitional state other than Activating |
| PatchProtocol.ServerObject.CanAddFile | NodeServer/CommandAddFile.cpp:32-56 | Holds its state whatever the one before |
| PatchProtocol.ServerObject.RestoreState | NodeServer/ServerCommand.h:98-101 | Restores the state the command found, whatever the present one |
| PatchProtocol.BatchPatch.PushBack | NodeServer/BatchPatchThread.cpp:67-91 | Queues a patch exactly if its key is free |
| PatchProtocol.BatchPatch.PopFront | NodeServer/BatchPatchThread.cpp:93-107 | Hands out the first patch and frees its key |
| ElegantTask.OneSliceAtATime | AdminRegistryServer/ExecuteTask.cpp:727-845 | At any time in any run no item has been started twice, items with stopped traffic or in execution lie in one slice of at most eachNum, and no more are executed than there are threads |
| ElegantTask.EndedTask | AdminRegistryServer/ExecuteTask.cpp:727-828 | At the end the items taken into slices were executed exactly once and are final, the others never; without a cancellation all were |
| ElegantTask.StatusIsReported | AdminRegistryServer/ExecuteTask.cpp:97-131 | Over every run an item stands at success iff its thread, while executing it, reported that, and at failure iff it reported that or the preparation failed |
| ElegantTask.CancelByStatus | AdminRegistryServer/ExecuteTask.cpp:75-95 | A cancellation turns exactly the items not started into cancelled ones, and cancels the task iff there are any |
| ElegantTask.CancelledForGood | AdminRegistryServer/ExecuteTask.cpp:774-779 | Once a cancellation has taken effect no slice begins in any continuation, and what it found not started is never executed |
| ElegantTask.CanEnd | AdminRegistryServer/ExecuteTask.cpp:727-828 | From every reachable state, unless the preparation has failed, the scheduler can bring the task to its end by itself |
| ElegantTask.CancelStopsExactly | AdminRegistryServer/ExecuteTask.cpp:75-95 | With items left, a cancellation at any time, also during the preparation, keeps every continuation from beginning a slice iff one of those items is no patch or still to be prepared |
| ElegantTask.TaskListElegant.CancelTask | AdminRegistryServer/ExecuteTask.cpp:75-95 | The loop cancels exactly the items not started, and the task iff there was one |
| ElegantTask.TaskListElegant.BeginSliceAt | AdminRegistryServer/ExecuteTask.cpp:772-787 | The locked part of the loop marks exactly the items of the slice, or ends |
| ElegantTask.TaskListElegant.SetRspInfo | AdminRegistryServer/ExecuteTask.cpp:97-131 | A thread's beginning or end with an item equals the specified step |
| PatchTransfer.AnswersThePiece | PatchServer/PatchImp.cpp:251-339 | The server answers with the piece at the position, cut at the end of the file, and says "end" exactly there, from cache or file |
| PatchTransfer.CacheAgreesWithFile | PatchServer/PatchImp.cpp:104-123 | Cache and file give the same answer iff the position is not negative and pieces are not empty |
| PatchTransfer.SenselessRequests | PatchServer/PatchImp.cpp:251-339 | A negative position or an empty piece is answered by the cache as the end or nothing, by the file with its two error codes |
| PatchTransfer.FetchFile | NodeServer/SingleFileDownloader.cpp:74-143 | The download ends; what is written is always a first part of the file, and the whole of it if success is reported; success is reported iff the file is below 2 GB, pieces are not empty and the rounds needed get through, failed calls and partial writes included |
| PatchCache.LoadKeepsInv | PatchServer/PatchCache.cpp:25-138 | A request keeps files and slots one to one and within the number allowed, and counts itself iff it is served |
| PatchCache.LoadKeepsOthers | PatchServer/PatchCache.cpp:178-191 | A request for one file leaves every other file's count alone, and the slot of any other file in use untouched |
| PatchCache.ServedExactly | PatchServer/PatchCache.cpp:25-225 | A request is served iff the file exists in a size that is cached, and it looks as its slot remembers it, or it can be read and has a slot, gets a new one within the number, or a spare one (unused and expired) |
| PatchCache.ServedSlot | PatchServer/PatchCache.cpp:64-137 | The slot is the file's own, with its present look and time; only the owner of a spare slot ever loses it |
| PatchCache.PoolFollowsHistory | PatchServer/PatchCache.cpp:25-225 | In every reachable state a slot's count is the successful loads of its file minus its releases |
| PatchCache.UsedSlotKeepsFile | PatchServer/PatchCache.cpp:178-191 | A slot in use is never given to another file |
| PatchCache.PoolIsFresh | PatchServer/PatchCache.cpp:25-225 | In every reachable state a loaded slot has the look, and its buffer begins with the bytes, of the last request that read its file |
| PatchCache.LoadedContent | PatchServer/PatchCache.cpp:64-137 | A served request finds what its file holds iff either the file looks as before and the slot holds that, or it does not and the read, with what was left in the buffer where it is short, comes to that |
| PatchCache.ServedContent | PatchServer/PatchCache.cpp:64-86 | Over every run of complete reads, a served request finds what its file holds by now, except exactly when the file looks as when it was last read but holds something else than was read then, or, if that read failed, than is in the buffer |
| PatchCache.SecondCopyIsMissed | PatchServer/PatchCache.cpp:67-75 | A file overwritten with another content of the same size within the same second goes on being served with the old one, although no read failed |
| PatchCache.StepKeepsHeld | PatchServer/PatchCache.cpp:25-170 | A slot in use keeps its file and stays in use through any fair step, and keeps its buffer unless a request for the file finds it changed |
| PatchCache.HeldBufferStaysExactly | PatchServer/PatchCache.cpp:76-88 | A request leaves a buffer in use alone, whatever it reads, iff it is not one for the same file that finds it changed |
| PatchCache.CopyIsSafeExactly | PatchServer/PatchImp.cpp:256-279 | Between load and copy any fair run of other requests may happen: whatever they read of the file, the copy is what was loaded iff none of them finds the file changed |
| PatchCache.CachedAnswer | PatchServer/PatchImp.cpp:251-282 | With no such request in between, the answers at all positions are those the file itself gave at the load iff the load found what the file held |
| PatchCache.ReloadUnderReader | PatchServer/PatchCache.cpp:76-88 | Without any failed read, a second request that finds the file changed overwrites the buffer the first is using |
| PatchCache.FailedReadIsServed | PatchServer/PatchCache.cpp:122-137 | After a failed read the next request is served with what the read left behind |
| PatchCache.Pool.FindFree | PatchServer/PatchCache.cpp:178-191 | Finds the first slot that is unused and old enough, or none |
| PatchCache.Pool.GetMem | PatchServer/PatchCache.cpp:172-225 | Takes a free slot, forgetting its file, or makes a new one within the number allowed |
| PatchCache.Pool.LoadFile | PatchServer/PatchCache.cpp:25-138 | The method on the real fields equals the specified load |
| PatchCache.Pool.ReleaseFile | PatchServer/PatchCache.cpp:140-170 | Takes one user off the file's slot, or reports that there is none |
| PatchCache.Pool.BeginDownload | PatchServer/PatchImp.cpp:255-260 | The first half of a request: the slot to copy from and the size of the file at the load |
| PatchCache.Pool.FinishDownload | PatchServer/PatchImp.cpp:262-281 | The second half, in whatever state the pool is by then: the piece out of the buffer as it is, and one user fewer |
| StartLimiter.FewStartsInAnySpan | NodeServer/Activator.cpp:370-408 | No span shorter than the interval holds more than maxCount + 2 automatic starts, whatever is started by hand in between |
| StartLimiter.SpanBoundExactly | NodeServer/Activator.h:104-114 | That holds for all runs iff the interval is at most the punishment interval |
| StartLimiter.SoManyStartsHappen | NodeServer/Activator.cpp:382-408 | maxCount + 2 starts at one moment do happen |
| StartLimiter.LimitedStartsKeepApart | NodeServer/Activator.cpp:370-408 | Over whole runs: of two consecutive starts with the record limited in between, the second keeps the punishment distance if it is automatic, and lifts the limitation iff it comes more than one and a half times later |
| StartLimiter.LimitedIffTooMany | NodeServer/Activator.cpp:402-405 | A reachable record is limited iff it counts more than maxCount close starts |
| StartLimiter.RecordIsHistory | NodeServer/Activator.cpp:382-408 | In every reachable state the record holds the latest starts, its count is the number of them that follow closely on the one before, and it is limited iff there are more than maxCount |
| StartLimiter.StartBeginsRecord | NodeServer/Activator.cpp:391-400 | A start begins a new record iff the old one is limited and more than one and a half punishment intervals have passed |
| StartLimiter.Activator.IsActivatingLimited | NodeServer/Activator.cpp:370-381 | Refuses exactly while the record is limited and the last start lies less than the punishment interval back |
| StartLimiter.Activator.AddActivatingRecord | NodeServer/Activator.cpp:382-408 | Counts a close start, lifts a limitation after one and a half punishment intervals, begins one above maxCount, and records the time |
| ConfigLimiter.FewAllowedInAnySpan | ConfigServer/ConfigImp.cpp:855-897 | Any span of one window, ends included, allows at most 2 * limit + 2 requests of a key |
| ConfigLimiter.SoManyAreAllowed | ConfigServer/ConfigImp.cpp:885-893 | Some run allows exactly that many |
| ConfigLimiter.OtherKeysDoNotMatter | ConfigServer/ConfigImp.cpp:862-869 | Requests of other keys change neither the answer nor the entry of a key, whose count lies between 1 and limit + 1 |
| ConfigLimiter.ConfigServer.IsLimited | ConfigServer/ConfigImp.cpp:855-897 | Refuses exactly a request above the limit within its window; an expired entry is dropped and its request let through |
| PackedRecord.UnpacksExactly | LogServer/Link.h:64-80 | The 64-bit sum of the records of any list of intervals unpacks to the number and the total time of the valid ones iff the number is below 2^23 and the time below 2^39 |
| PackedRecord.Link.AddAll | LogServer/Link.cpp:169-183 | Adds, under every key and modulo 2^64, exactly the records given; fails iff a key is unknown after the first graph |
| PackedRecord.Link.Update | LogServer/Link.cpp:169-197 | So for the edges and the vertexes of a graph |
| DbThreads.Allocate | PropertyServer/PropertyDbManager.cpp:130-196 | The constructor's loops compute the round-robin allocation of machines to thread groups and of databases to the threads of a group |
| DbThreads.ThreadCount | PropertyServer/PropertyDbManager.cpp:130-163 | There are as many groups as configured but no more than machines, and in each as many threads as configured but no more than the fewest databases on a machine |
| DbThreads.ThreadExists | PropertyServer/PropertyDbManager.h:86-86 | Every database is given one of the threads there are |
| DbThreads.NoThreadIsIdle | PropertyServer/PropertyDbManager.cpp:164-196 | Every thread is given a database |
| DbThreads.MachineIsBalanced | PropertyServer/PropertyDbManager.cpp:178-191 | One machine's databases stay in one group of threads, whose loads differ by at most one |
| ConfigMerge.MergeIsMonoid | ConfigServer/ConfigImp.cpp:837-852 | Merging is associative and the empty text is its identity |
| ConfigMerge.MergeAllSplits | ConfigServer/ConfigImp.cpp:837-852 | A list of layers can be merged in any grouping |
| ConfigMerge.LoadConfigByHost | ConfigServer/ConfigImp.cpp:241-393 | The appending request answers with the merged layers, failed queries included |
| ConfigMerge.LoadConfigByInfo | ConfigServer/ConfigImp.cpp:604-755 | The merging request answers with the same specification, so both agree whenever no set is given |
| ConfigMerge.MergeReferenced | ConfigServer/ConfigImp.cpp:455-519 | The referenced texts that can be read are merged in order, and the code is that of the last lookup |
| ConfigMerge.LayersAreKept | ConfigServer/ConfigImp.cpp:837-852 | Each layer's text is in the answer in one piece, at the place the earlier layers determine |
| ConfigMerge.OwnRowByFields | ConfigServer/ConfigImp.cpp:649-720 | A level's own text is that of the one row with the server, file, level and set asked for, and on a host's level the host |
| ConfigMerge.NoOwnRow | ConfigServer/ConfigImp.cpp:649-720 | Without such a row, or with several, there is none |
| ConfigMerge.SetTextByFields | ConfigServer/ConfigImp.cpp:455-519 | A referenced text is that of the one row with the id, merged with the one row of its server and file for the set asked for |
| ConfigMerge.TargetsSplit | ConfigServer/ConfigImp.cpp:521-556 | The referenced ids come in the order of the references |
| ConfigMerge.TargetsOne | ConfigServer/ConfigImp.cpp:521-556 | and are the targets of the configuration's own references |

## Left out

- Aggregation.RunsLoseNothing: speaks of runs in which the graphs of every closed trace can be built and every new task finds its key free; `TraceGraph.FinishesIffNoPathReturns`, `Aggregation.PushKeepsTasksExactly`, `Aggregation.TaskKeepsTasksExactly` and `Aggregation.KeyTakenExactly` say when. Its queue is the collector's own; in the source the queue and its sequence numbers belong to the process (LogServer/TimerTaskQueue.h:19) and also serve the file tick, the snapshot task (LogServer/TraceService.cpp:77, 163) and the collectors of other files. `Aggregation.KeyTakenExactly` covers every use of the queue.
- LogReader.ChunksDoNotMatter: covers growing files; after a truncation that is noticed a new run begins (`LogReader.TruncatedFileStartsOver`), and one that is not noticed, because the file has grown past the position again, is not modelled.
- PatchCache.ServedContent: is about runs of complete reads; the source also takes a short read for a success, and what that leads to is stated by `PatchCache.LoadedContent` and `PatchCache.PoolIsFresh`.
- PatchCache.LoadedContent: takes a read to get a first part of what the file holds; a file that is overwritten while it is being read is not modelled.
- PatchCache.CachedAnswer: is about files below 2 GB, as no position reaches further.
- StartLimiter.FewStartsInAnySpan: is about fixed limits; new limits start a new record (`StartLimiter.Activator.SetLimitInfo`), so the bound holds between two changes.
- PatchTransfer.FetchFile: takes the remote file to stay the same during the transfer and a reply to be below 2 GB; the answers out of a cached copy that is overwritten meanwhile are the subject of `PatchCache.CopyIsSafeExactly`. A failure of the last flush when the local file is closed, which the source ignores (NodeServer/SingleFileDownloader.cpp:141), is not modelled.
- Malformed log lines and lines longer than the line buffer: the methods that parse require readable lines.
- Integer widths of counts, times and the depth of a function edge in the graphs; the widths that matter are modelled in `Aggregation` (sequence numbers), `PatchTransfer` and `PackedRecord`.
- LogServer's generated header TraceData.h is not part of this model; its fields are inferred from their uses.
- The two graph builders of LogServer differ only in the name of a vertex and the depth of an edge, and are one builder with a parameter; the final sorting is covered by taking the hash to be any function of the graph.
- Traces and graphs behind shared pointers are values in the collector's maps; list nodes and their iterators in the connection index are elements with addresses.
- The check of a server's process and the first step of a patch command are taken as atomic; an outdated check is the event of an unconditional write. Commands are reduced to their effect on state, progress and result.
- A call of the poller that fails is taken to give no verdict, as the default answer is not at 100 percent.
- Saving a snapshot to a file and reading it back is taken to be faithful.
- Memory allocation in the buffer pool always succeeds.
- The query for the file before a download, and the comparison of checksums after it.
- The reading of the database settings: the machine of each database and the machines without repetition are inputs of `DbThreads.Allocate`.
- Resuming an interrupted database insertion, `getGcd` and the weights of databases.
- The serial and parallel task lists, the preparation of patch files and the sending of task states.
- `GlobeInfo::getLogger`, and the graph builders in LogServer/Link.cpp, which drop equal elements.
- Posting to Elasticsearch, MySQL, RPC, Docker, processes, signals and logging.
