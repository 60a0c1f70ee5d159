# Verification model of generic_init

`services/generic_init` is the boot-time event processor: it reads kernel uevents, hands them to handlers in
parallel, loads its configuration, finds the block devices of the system, mounts them and switches the root.
This project models these parts in Dafny and proves what they guarantee over whole runs. Classes with fields
stand for the objects and namespaces whose state the program updates in place; each of their methods is proved
against a pure specification, and the theorems are about that specification.

| part | modules |
|---|---|
| uevent scheduler | Strings, PosixPath, EventPaths, SchedulerModel, UeventDependencyGraphs, ReadyOrder, DispatchOrder, OrderedRuns, ParallelMainLoop |
| thread pool | ThreadPools, PoolModel, PoolCounts, PoolRuns |
| configuration | TokenizerSpec, Tokenizer, TokenizerRoundTrip, TokenizerForms, ConfigText, ParserSpec, Parsers, SectionTraces, LineLaws, UeventdParser, UeventdConfigs, ConfigSections, LoadOrder, SortedNames, UeventdConfigLoader |
| mounting | MountTypes, MountHandlers, BootParams, KnownDevices, Readiness, FirstRuns, MountPlans, PlanSafety, BindSources, PlanShape, PlanOrder, FstabListing, ImageNames, FstabPlanner, MountExecution, MountTraces, MountHelpers, PlanExecution, FailedMounts, LiveBoots |
| root switch | SwitchRootModel, SwitchRootTheorem, SwitchRoots |
| uevent messages | UeventMessages, UeventRoundTrip, UeventListeners |
| cold boot | Coldboots |
| shared | Wrappers, Sequences |

## How the program is read

- A lock-guarded section is one step. Sleeping on a condition variable, owing a notify, notifying and a spurious
  wakeup are steps of their own, so the endless loops of `RunWorker`, of the workers of `parallel_main_loop` and of
  `Wait` appear as the position each thread has reached, and theorems range over every interleaving.
- Sequence numbers are unique and increasing in [0, 2^31), because `FindDependency` compares them through an `int`
  that starts at -1. The `action` of an event plays no part in its dependencies, although the comment above
  `FindDependency` speaks of remove actions; the model follows the code.
- What a callback, a section parser, a mount, a fork or a waitpid answers is an oracle that may depend on everything
  done before. What probing finds on a device is a value; `MountTypes.ProbeValid` says what probing guarantees.
- `LOG(FATAL)` and a failed `CHECK` are outcomes of their own, as is dereferencing a null device.
- `atoi` is `strtol` cut to 32 bits, both as on a 64 bit system; numbers out of 64 bit range saturate.
- Line numbers count the newlines and continuations up to the end of a line, but no newline within quotes, as
  `next_token` does.
- Bytes are characters. `front()` of an empty `dirname` argument reads the terminating NUL.

## What does not hold

Where the code misses a property that its comments or tests suggest, there is a concrete run and the exact condition.

- An event is not always handed out after all earlier related ones: `OrderedRuns.SiblingHidesSameDevice`,
  `OrderedRuns.NamePrefixHidesSameDevice`; exact condition `DispatchOrder.AllRelatedFirstIff`.
- A pool or a parallel main loop with zero workers, which `hardware_concurrency()` and
  `parallel_ueventd_main_loop_max_workers` allow, loses work: `PoolRuns.LosesTaskIffNoWorkers`,
  `ParallelMainLoop.StrandsIffNoWorkers`.
- The android target is unmounted before the bind mounts that need it are made: `LiveBoots.DataSourceUnmounted`;
  exact condition `BindSources.BindSourcesLeftIff`.
- Image files whose names differ only in the case of the suffix are planned for one mount point. In a row they become
  one run and the second image is never tried, otherwise both are mounted: `LiveBoots.CollidingNeighbours`,
  `LiveBoots.CollidingApart`; exact conditions `PlanShape.PlanMountsEachPointOnce` and
  `PlanExecution.PlanRunsAsPlannedIff`.
- Readiness can be lost again: `Readiness.ReadinessLost`; exact condition `Readiness.ReadyLostIff`.
- A cold boot subprocess whose 32 bit index wraps does not end with the events of its stride: `Coldboots.WrappingQueue`;
  exact condition `Coldboots.StridesDoneIff`.
- The root switch can lose or swap mounts: `SwitchRoots.PrefixIsNotParent`, `SwitchRoots.MountInsideNewRoot`; exact
  condition `SwitchRootTheorem.PreservedIff`.

## Model

| member | source | states |
|---|---|---|
| UeventDependencyGraphs.UeventDependencyGraph.FindDependency | services/generic_init/uevent_dependency_graph.cpp:40-73 | the two-part search through the sorted set returns exactly the largest earlier number among all pending events whose path extends the event's path as a string or is its Dirname-ancestor-or-self, and none if and only if there is none |
| UeventDependencyGraphs.UeventDependencyGraph.FindDescendant | services/generic_init/uevent_dependency_graph.cpp:42-52 | the scan from upper_bound bounds every earlier event on a strictly extending path and returns -1 or a candidate |
| UeventDependencyGraphs.UeventDependencyGraph.LatestOnPath | services/generic_init/uevent_dependency_graph.cpp:58-65 | the predecessor of upper_bound({path, bound}) is the latest event on that path up to the bound, or there is none |
| UeventDependencyGraphs.ExtensionsFound | services/generic_init/uevent_dependency_graph.cpp:44-52 | string extensions of a path form one interval of the sorted set that starts at upper_bound, so the scan cannot stop too early |
| UeventDependencyGraphs.PredecessorFound | services/generic_init/uevent_dependency_graph.cpp:58-65 | an event on the ancestor path with a number up to the bound makes the predecessor of upper_bound one of that path, with at least that number |
| UeventDependencyGraphs.UeventDependencyGraph.Add | services/generic_init/uevent_dependency_graph.cpp:75-92 | one Add step of the state machine, the class invariant is kept, and a wakeup is asked for exactly when the event has no dependency |
| UeventDependencyGraphs.UeventDependencyGraph.PopDependencyFreeEvent | services/generic_init/uevent_dependency_graph.cpp:94-106 | hands out the front of the ready queue, nothing exactly when it is empty; one Pop step, invariant kept |
| UeventDependencyGraphs.UeventDependencyGraph.MarkEventCompleted | services/generic_init/uevent_dependency_graph.cpp:123-139 | one Complete step: all dependents become ready in insertion order, the event leaves every container, a wakeup is asked for exactly when something was freed |
| EventPaths.UpperBound | services/generic_init/uevent_dependency_graph.cpp:46 | everything before the returned index is not greater than the key, everything from it on is greater |
| EventPaths.Insert | services/generic_init/uevent_dependency_graph.cpp:86 | inserting keeps the set sorted and adds exactly the key |
| EventPaths.Erase | services/generic_init/uevent_dependency_graph.cpp:133 | erasing keeps the set sorted and removes exactly the key |
| Strings.PrefixInterval | services/generic_init/uevent_dependency_graph.cpp:46-52 | under std::string order the extensions of a string form an interval starting at it |
| Strings.LexTransitive | services/generic_init/uevent_dependency_graph.cpp:46 | std::string order is transitive, which the sorted set relies on |
| PosixPath.Dirname | services/generic_init/uevent_dependency_graph.cpp:56-57 | dirname() of POSIX.1-2017 System Interfaces: the result is "/" or ".", or a strictly shorter prefix |
| PosixPath.AncestorIffSlashPrefix | services/generic_init/uevent_dependency_graph.cpp:54-57 | on normalised absolute paths the Dirname walk visits exactly the path and its proper '/'-prefixes |
| PosixPath.AncestorsComparable | services/generic_init/uevent_dependency_graph.cpp:54-57 | of two names on one Dirname walk one is on the walk from the other |
| SchedulerModel.InvNext | services/generic_init/uevent_dependency_graph.cpp:75-139 | every step keeps: each pending event is in exactly one of the ready queue (once), in flight, or waiting under the one event it depends on, which is the latest related pending one |
| SchedulerModel.InvRun | services/generic_init/uevent_dependency_graph.cpp:75-139 | the same over every run |
| SchedulerModel.EdgesDescend | services/generic_init/uevent_dependency_graph.cpp:79-81 | edges lead from smaller to larger sequence numbers, so they are acyclic |
| SchedulerModel.NoDeadlock | services/generic_init/uevent_dependency_graph.cpp:75-139 | a non-empty graph always has a ready event or one in flight |
| SchedulerModel.PoppedConservation | services/generic_init/uevent_dependency_graph.cpp:75-139 | over any run, events unpopped before plus events added equal events popped plus events unpopped after, number by number |
| SchedulerModel.DrainedRunPopsEachOnce | services/generic_init/uevent_dependency_graph.cpp:75-139 | a run that ends with an empty graph has popped every added event exactly once and nothing else |
| SchedulerModel.GoneForGood | services/generic_init/uevent_dependency_graph.cpp:123-135 | a completed event never comes back |
| ReadyOrder.FirstReadyFirstOut | services/generic_init/uevent_dependency_graph.cpp:85-131 | in every run an event that is ready is handed out before every event that was not ready then, whichever step made that one ready |
| ReadyOrder.ReadyIsOutWithin | services/generic_init/uevent_dependency_graph.cpp:94-106 | so fewer events are handed out before a ready event than are ready with it, however many become ready meanwhile |
| ReadyOrder.FreedTogetherOutInOrder | services/generic_init/uevent_dependency_graph.cpp:123-131 | of two events made ready by one completion the one added first is handed out first |
| DispatchOrder.GuaranteedIffOnChain | services/generic_init/uevent_dependency_graph.cpp:40-135 | of two pending events the earlier is complete before the later is handed out, in every schedule, if and only if it is on the later one's chain of edges |
| DispatchOrder.ChainGuarantees | services/generic_init/uevent_dependency_graph.cpp:75-135 | what is on an event's chain is complete before the event is handed out, whatever is added later |
| DispatchOrder.OvertakingRun | services/generic_init/uevent_dependency_graph.cpp:75-135 | for an event off the chain there is a schedule in which it is still pending while the later event is in flight |
| DispatchOrder.AllRelatedFirstIff | services/generic_init/uevent_dependency_graph.cpp:30-73 | "all earlier related events are complete before dispatch" holds for a new event if and only if each of them is what FindDependency returns or on that one's chain |
| OrderedRuns.AncestorsCompleteBeforeDispatch | services/generic_init/uevent_dependency_graph.cpp:40-135 | in runs that add no event while a different pending path extends its path, an event that is ready or in flight has no earlier event on its own or an ancestor path still pending |
| OrderedRuns.OrderedRun | services/generic_init/uevent_dependency_graph.cpp:40-135 | in such runs the single edge to the latest ancestor covers the whole ancestor chain, at every moment |
| OrderedRuns.SiblingHidesSameDevice | services/generic_init/uevent_dependency_graph.cpp:40-73 | the run /a/b, /a/c, /a, /a/b hands out the fourth event while the first, on the same path, is pending |
| OrderedRuns.NamePrefixHidesSameDevice | services/generic_init/uevent_dependency_graph.cpp:47 | the run /a/b, /a/bc, /a/b does the same because the prefix test knows no '/' |
| ParallelMainLoop.NoLostWakeup | services/generic_init/ueventd.cpp:163-187 | in every interleaving of the workers and the listener: a non-empty ready queue implies a worker that is not asleep or a notify still owed, and every event in flight is with exactly one worker |
| ParallelMainLoop.QuietMeansDrained | services/generic_init/ueventd.cpp:171-187 | a state in which no worker step is possible has no pending event and all workers asleep |
| ParallelMainLoop.DrainIsBounded | services/generic_init/ueventd.cpp:171-187 | without new events the workers make boundedly many steps |
| ParallelMainLoop.EveryEventIsHandled | services/generic_init/ueventd.cpp:163-187 | with at least one worker every maximal run without new events has handled every event |
| ParallelMainLoop.StrandsIffNoWorkers | services/generic_init/ueventd.cpp:265-272 | a run can strand an event for ever if and only if the configured number of workers is zero |
| ParallelMainLoop.LoopRunsGraph | services/generic_init/ueventd.cpp:171-186 | the graph operations inside any interleaving are a run of the scheduler |
| ParallelMainLoop.HandledInOrder | services/generic_init/ueventd.cpp:171-186 | so under the same condition on arrivals no worker handles an event while an earlier one on its path or an ancestor's is pending |
| ThreadPools.ThreadPool.Enqueue | services/generic_init/thread_pool.h:59-67 | pushes the task unless the pool is stopped, where the CHECK would abort |
| ThreadPools.ThreadPool.BeginWait | services/generic_init/thread_pool.cpp:29-37 | Stopped when nothing is queued or running, else Stopping |
| ThreadPools.ThreadPool.TakeOrBlock | services/generic_init/thread_pool.cpp:53-76 | exits exactly when stopped, blocks exactly when running without a task, else takes a task of minimal priority number |
| ThreadPools.ThreadPool.AfterTask | services/generic_init/thread_pool.cpp:78-88 | the worker that finishes the last task of a stopping pool, and only that one, stops it |
| ThreadPools.ThreadPool.PopTop | services/generic_init/thread_pool.h:32-38 | removes one task of minimal priority number and nothing else |
| PoolRuns.PoolInvRun | services/generic_init/thread_pool.cpp:29-94 | every interleaving keeps: each task is in exactly one place, the busy counter is right, Stopped implies no queued and no running task, Stopping implies one, and a queued task always has an awake worker or an owed notify |
| PoolRuns.WaitReturnsWhenAllDone | services/generic_init/thread_pool.cpp:29-51 | no CHECK fails in any interleaving with at least one worker, no task runs twice, and when Wait has returned every task, also one enqueued by a task, has run exactly once |
| PoolRuns.LosesTaskIffNoWorkers | services/generic_init/thread_pool.cpp:22-27 | Wait can return over an unfinished task if and only if the pool has no workers |
| PoolRuns.NoWorkersLoseTasks | services/generic_init/thread_pool.cpp:22-51 | a concrete run of an empty pool that returns from Wait with its only task unrun |
| PoolRuns.NeverStuck | services/generic_init/thread_pool.cpp:29-90 | until Wait has returned some step of the pool itself is possible |
| PoolRuns.RunsAreBounded | services/generic_init/thread_pool.cpp:29-90 | the number of steps is bounded by the number of enqueues and spurious wakeups |
| PoolRuns.MaximalRunsReturn | services/generic_init/thread_pool.cpp:29-90 | a run that cannot go on has returned from Wait with everything done |
| Tokenizer.ParseState.NextToken | services/generic_init/tokenizer.cpp:8-129 | the in-place lexer stays inside the buffer, returns the token of the pure lexer on the original bytes, leaves the bytes from ptr on untouched, and decreases a measure with every token |
| Tokenizer.ParseState.TextToken | services/generic_init/tokenizer.cpp:47-127 | the text token left in the buffer is NUL-terminated and is the word scanned from the original bytes |
| Tokenizer.ParseState.CopyQuoted | services/generic_init/tokenizer.cpp:67-82 | the quoted stretch: write cursor at most the read cursor, same characters as the specification, or end of file at an unterminated quote |
| Tokenizer.ParseState.CopyEscape | services/generic_init/tokenizer.cpp:83-123 | every escape and both forms of line continuation, as in the specification |
| TokenizerSpec.Lex | services/generic_init/tokenizer.cpp:19-129 | every token but the end of the file makes progress; ConfigText says what each form is read as |
| TokenizerSpec.WordsHaveNoNul | services/generic_init/tokenizer.cpp:53-127 | no word holds a NUL, so C strings carry words faithfully |
| TokenizerRoundTrip.RoundTrip | services/generic_init/tokenizer.cpp:19-126 | printing any non-empty lines of NUL-free words, with escapes and "" for the empty word, and lexing the text gives the same lines of words with the right line numbers |
| TokenizerRoundTrip.ReadsPrintedWord | services/generic_init/tokenizer.cpp:51-127 | a printed word is read back as that word, up to the separator after it |
| ConfigText.TextMeans | services/generic_init/tokenizer.cpp:19-127 | any text written with plain characters, escapes, quotes with content, continuations of both kinds, blanks and comments, in any mixture, has the lines of words it means with their numbers, and any text behind it keeps its lines, renumbered |
| ConfigText.CommentLine | services/generic_init/tokenizer.cpp:33-41 | "#", a comment and a newline in front of any text only add one to the line numbers |
| ConfigText.CommentBehind | services/generic_init/tokenizer.cpp:33-41 | a comment behind the words of a line, written in any form, changes nothing |
| ConfigText.OpenQuoteDrops | services/generic_init/tokenizer.cpp:71-74 | a quote that is never closed drops the line it is in and everything behind |
| ConfigText.NulEnds | services/generic_init/tokenizer.cpp:21-23 | a NUL ends the text, whatever stands behind it |
| TokenizerForms.TokensMoved | services/generic_init/tokenizer.cpp:8-129 | the tokens from a position on do not depend on what stands before it |
| Parsers.Parser.ParseData | services/generic_init/parser.cpp:45-132 | the in-place lexer and the token loop make exactly the calls, in order, and count exactly the errors of the line-by-line reading of the original text; terminates on every input; for section parsers whose EndFile does not call the parser |
| Parsers.Parser.HandleToken | services/generic_init/parser.cpp:75-130 | one token: what is still to come decreases and leads to the same progress |
| Parsers.Parser.Dispatch | services/generic_init/parser.cpp:85-125 | one line of words: prefix callback, section start, section line, orphan or suppressed orphan |
| ParserSpec.FindPrefix | services/generic_init/parser.cpp:91-93 | the first registered prefix of the word, or none if and only if no prefix matches |
| SectionTraces.FileKeepsDiscipline | services/generic_init/parser.cpp:54-131 | for every file and every behaviour of the callbacks: events follow the section rules, no section is left open, and the errors counted are the failed calls and the stray lines reported in the trace |
| SectionTraces.OpenedIsClosed | services/generic_init/parser.cpp:62-73 | each successful ParseSection is followed by its EndSection with nothing but its own lines between |
| SectionTraces.EveryEndHasItsStart | services/generic_init/parser.cpp:101-118 | each EndSection and each section line goes back to one successful ParseSection of that name, so a failed one gets neither |
| LineLaws.FileLine | services/generic_init/parser.cpp:85-125 | every line of every file makes exactly its calls, said of the line and the calls before it: the first matching prefix, a section start, a line of the open section, or one report if it is stray; and it makes none exactly if it is stray and the last call was a failed section start |
| LineLaws.StrayLinesAreReported | services/generic_init/parser.cpp:119-123 | a file reports exactly as many stray lines as it has that are not suppressed |
| LineLaws.FileIsItsLines | services/generic_init/parser.cpp:77-84 | the calls of a file are those of its lines one after the other, the end of its last section and the ends of file |
| LineLaws.EndFileAt | services/generic_init/parser.cpp:80-82 | each section parser gets one end of file, in the order of the map |
| UeventdParser.SubsystemParser.ParseSection | services/generic_init/ueventd_parser.cpp:203-216 | starts a section exactly for one argument that is not yet a committed name |
| UeventdParser.SubsystemParser.ParseLineSection | services/generic_init/ueventd_parser.cpp:218-258 | devname and dirname with exactly one valid argument, else an error that changes nothing |
| UeventdParser.SubsystemParser.EndSection | services/generic_init/ueventd_parser.cpp:260-264 | appends the section read to the list |
| UeventdConfigs.ParsedConfigIsValid | services/generic_init/ueventd_parser.cpp:266-306 | for every input, every acyclic import tree and whatever the single-line parsers answer after the lines accepted before, the subsystem list and the driver list have pairwise distinct names and directories that start with '/' |
| ConfigSections.SectionIsAdded | services/generic_init/ueventd_parser.cpp:203-264 | the end of a section adds one entry with its name, the devname source of its last valid devname line and the directory of its last valid dirname line, or the defaults |
| ConfigSections.OnlyEndsAdd | services/generic_init/ueventd_parser.cpp:203-264 | and nothing else changes the list |
| ConfigSections.AcceptedLines | services/generic_init/ueventd_parser.cpp:276-299 | every line that a single-line parser accepts is remembered for the lines after it |
| LoadOrder.LoadRunsScript | services/generic_init/parser.cpp:134-195 | the nested loading makes exactly the calls of a flat script: a file is read, ended for drivers and imports, followed by the files it imports in order and each with everything it imports, and then ended for subsystems |
| LoadOrder.FileReadsItsImports | services/generic_init/import_parser.cpp:48-54 | every readable file that a file imports is read with it |
| UeventdConfigs.ImportsInTurn | services/generic_init/import_parser.cpp:51-53 | imports are loaded one after the other in the order of the list |
| UeventdConfigLoader.ConfigLoader.ParseConfigs | services/generic_init/ueventd_parser.cpp:301-303 | one parser object, called back by the import parser in the middle of a file's end, makes exactly the calls of the nested loading that the theorems above are about |
| UeventdConfigLoader.ConfigLoader.EndImports | services/generic_init/import_parser.cpp:48-54 | takes the collected list over, leaves it empty and loads its files in order |
| UeventdConfigLoader.ConfigLoader.ParseConfig | services/generic_init/parser.cpp:144-195 | a directory is its regular files, an unreadable file is passed over, and a readable one is followed by its imports, for every acyclic import tree |
| Parsers.Parser.ReadData | services/generic_init/parser.cpp:45-78 | the calls of a file up to the ends of file, whatever was called before |
| UeventdConfigs.LoadSettles | services/generic_init/import_parser.cpp:48-54 | every file of the tree, imported ones included, is entered and left with no section open and an empty import list |
| UeventdConfigs.ImportsAreCollected | services/generic_init/import_parser.cpp:27-54 | the files that EndFile imports are exactly the file's well-formed import lines, in order |
| UeventdConfigs.RegistryTakesImports | services/generic_init/ueventd_parser.cpp:270-299 | no registered line prefix hides the import keyword |
| MountHandlers.MountHandler.ParseConfig | services/generic_init/mount_handler.cpp:302-348 | unset and invalid parameters keep their defaults, and the need flags follow from the parameters |
| BootParams.FirmwareValues | services/generic_init/mount_handler.cpp:197-205 | the way of mounting that each value of mount_firmware stands for |
| BootParams.SystemValues | services/generic_init/mount_handler.cpp:207-212 | the same for mount_system |
| BootParams.UserdataValues | services/generic_init/mount_handler.cpp:214-219 | the same for mount_userdata |
| BootParams.NeedsFollow | services/generic_init/mount_handler.cpp:335-347 | which ways of mounting need the firmware and the android directory |
| MountHandlers.MountHandler.UpdateMountInfo | services/generic_init/mount_handler.cpp:587-636 | which map or directory device a block device becomes |
| MountHandlers.MountHandler.OnBlockDeviceAdd | services/generic_init/mount_handler.cpp:682-707 | a known or ignored device changes nothing, any other is recorded and classified |
| MountHandlers.MountHandler.CanQuitUeventd | services/generic_init/mount_handler.cpp:711-756 | answers whether every needed device has been found |
| MountHandlers.ReportedAllInv | services/generic_init/mount_handler.cpp:587-707 | over every sequence of devices: fixed map keys, userdata devices under their own names, a device with the android directory only when one is needed, and nothing found is lost again |
| KnownDevices.SlotUpdated | services/generic_init/mount_handler.cpp:587-636 | a device is kept for exactly what it serves: its system partition and every directory of one found on it, or its userdata partition, or the directories needed; everything else stays |
| KnownDevices.FilledLast | services/generic_init/mount_handler.cpp:587-707 | after any devices each purpose has the last accepted device that serves it |
| KnownDevices.NeverFilled | services/generic_init/mount_handler.cpp:587-707 | and what no accepted device serves stays as it was |
| KnownDevices.FoundIffServed | services/generic_init/mount_handler.cpp:587-707 | a purpose has a device if and only if it had one or an accepted device serves it |
| KnownDevices.ReadyIffServed | services/generic_init/mount_handler.cpp:711-756 | from boot parameters the handler is ready if and only if the reported devices serve everything the parameters ask for, the cache partition only if a /cache directory was found |
| KnownDevices.IgnoredNames | services/generic_init/mount_handler.cpp:682-707 | the four name prefixes of devices that are not looked at |
| Readiness.ReadyLostIff | services/generic_init/mount_handler.cpp:554-756 | a ready handler stops being ready after some reports if and only if userdata is on partitions, a /cache directory is already known or on a device that is probed, and no cache partition is known or among the devices probed |
| Readiness.ReadinessLost | services/generic_init/mount_handler.cpp:554-757 | ready with metadata and userdata found, then a system device with /cache is probed, and the handler is not ready |
| FirstRuns.Ueventd.UeventdMain | services/generic_init/ueventd.cpp:189-279 | all regenerated events are handled; a first run that is ready then exits there, any other goes on with the main loop; whenever it exits the mount handler is ready, and planning cannot dereference a missing device |
| FirstRuns.Ueventd.MainLoop | services/generic_init/ueventd.cpp:142-161 | the events delivered are handled in order; the first run leaves at the first event after which the handler is ready, a later run at the end of the first poll that leaves it ready, and otherwise everything delivered is handled and the handler was not ready after any poll |
| FirstRuns.Ueventd.Poll | services/generic_init/ueventd.cpp:145-160 | a poll handles what is delivered in order and is only left early in the first run, at the first event after which the handler is ready |
| FirstRuns.FirstRunLeavesFirst | services/generic_init/ueventd.cpp:142-161 | however the events are cut into polls, a first run handles exactly the shortest stretch of them after which the handler is ready, and goes on as long as there is none |
| PlanSafety.NullDereferenceIff | services/generic_init/mount_handler.cpp:758-989 | with working system calls the planner dereferences a null device if and only if something its boot mode needs is missing |
| PlanSafety.ReadyPlannerIsSafe | services/generic_init/mount_handler.cpp:711-989 | after any boot parameters and any devices, readiness means no null dereference for both boot modes and whatever the system calls answer |
| PlanSafety.SufficientNeverNull | services/generic_init/mount_handler.cpp:758-989 | the same for any state that has what its boot mode needs |
| PlanSafety.InsufficientIsNull | services/generic_init/mount_handler.cpp:758-989 | a state that lacks something the boot mode needs leads to a null dereference when no system call fails first |
| BindSources.BindSourcesMounted | services/generic_init/mount_handler.cpp:764-771 | every bind source lies under a target that planning has mounted |
| BindSources.BindSourcesLeftIff | services/generic_init/mount_handler.cpp:991-995 | after the unmount that precedes execution all bind sources are still mounted if and only if the boot is in recovery, the unmount fails, or nothing is bound from the android device |
| LiveBoots.DataSourceUnmounted | services/generic_init/mount_handler.cpp:935-995 | a ready state with mount_system=imgs_ram and mount_userdata=bind_mount_dir whose plan succeeds and whose source of /data is unmounted before it is bound |
| BindSources.PlanAvailability | services/generic_init/mount_handler.cpp:773-989 | which mounted targets the bind entries of a plan need |
| PlanShape.PlanMountsEachPointOnce | services/generic_init/mount_handler.cpp:773-989 | each group of the plan has one mount point and one source, mount points are pairwise different if and only if the planned images have pairwise different base names, and neighbours differ if and only if images in a row do |
| LiveBoots.CollidingNeighbours | services/generic_init/mount_handler.cpp:433-436 | a ready state with system.img and system.IMG: the plan succeeds and is not executed as planned, because both groups are one run that is tried from the first image only |
| LiveBoots.CollidingApart | services/generic_init/mount_handler.cpp:433-436 | a ready state with vendor.img, product.img and vendor.IMG: the plan succeeds with a repeated mount point, and when every mount works both vendor images are mounted at /vendor |
| PlanOrder.PlanAsDeclared | services/generic_init/mount_handler.cpp:773-989 | every group of every plan is one entry tried with the whole declared list of file systems, in order: system file systems with the retry, userdata or firmware file systems, or one bind or tmpfs entry, as its name and the parameters say |
| FstabListing.PlanListed | services/generic_init/mount_handler.cpp:758-989 | planning gets through if and only if every device needed is there and every call made works, and then the plan is this fstab: every group in order, every entry with its source, mount point, file system, read-only and bind flags and no_fail written out from the state |
| FailedMounts.PlanFlags | services/generic_init/mount_handler.cpp:773-989 | no_fail is set exactly for the firmware, and for /cache and /metadata when userdata is on partitions or tmpfs; no entry is formattable; bind mounts are exactly the entries without file system |
| FailedMounts.FailedMountsEndBoot | services/generic_init/mount_helpers.cpp:186-262 | mounting a plan ends well if and only if the system run mounts and every other run visited does, but for those mount points |
| PlanOrder.SystemListRetries | services/generic_init/mount_handler.cpp:786-796 | that list for a system partition has every writable ext4 candidate followed at once by its read-only retry and is otherwise in the declared order |
| PlanShape.RetryFollows | services/generic_init/mount_handler.cpp:786-796 | every writable ext4 candidate is followed at once by its read-only retry |
| PlanShape.RetryKeepsOrder | services/generic_init/mount_handler.cpp:786-796 | without the retries the candidates are the declared file systems in order |
| FstabPlanner.OnPostBlockDevices | services/generic_init/mount_handler.cpp:758-1001 | the loops append exactly the planned groups, whose entries FstabListing.PlanListed spells out, then the addon entries outside recovery, and leave exactly the stated targets mounted |
| FstabPlanner.PlanSystem | services/generic_init/mount_handler.cpp:773-798 | the loop over the system partitions appends the planned groups or meets a null device |
| FstabPlanner.PlanUserdata | services/generic_init/mount_handler.cpp:800-816 | the same for the userdata partitions |
| FstabPlanner.SelectImages | services/generic_init/mount_handler.cpp:827-876 | filters, copies to RAM, the last firmware image and the list of partition images |
| FstabPlanner.PlanPartitionImages | services/generic_init/mount_handler.cpp:903-932 | loop devices and candidates for the selected images |
| FstabPlanner.PlanBinds | services/generic_init/mount_handler.cpp:935-957 | the bind entries for the userdata directories |
| FstabPlanner.PushWithRetry | services/generic_init/mount_handler.cpp:786-796 | the inner loop appends the candidates with the read-only retry |
| MountHelpers.MountHelper.MountPartition | services/generic_init/mount_helpers.cpp:154-184 | in place: tries the run from begin up to the first success with begin's device, or advances by one entry when the mount point cannot be created |
| MountHelpers.MountHelper.TrySwitchSystemAsRoot | services/generic_init/mount_helpers.cpp:247-262 | mounts the first run for /system, if any, and then switches the root |
| MountHelpers.MountHelper.MountRuns | services/generic_init/mount_helpers.cpp:186-224 | the main loop visits the runs as specified and stops at the first failure that may not be ignored |
| MountHelpers.MountHelper.MountPartitions | services/generic_init/mount_helpers.cpp:186-245 | the whole: /system, the main loop, overlays, the root entry, in this order |
| MountHelpers.AfterTheLoop | services/generic_init/mount_helpers.cpp:226-242 | after the loop each overlay entry is mounted once, in order; the root entry is read exactly when no entry is for /system or /, and kept exactly when that works; everything is overlaid last |
| MountExecution.VisitTriesInOrder | services/generic_init/mount_helpers.cpp:154-184 | a visit tries its candidates in order, all but the last tried fail, at most one mounts, and none is left out when none mounts |
| MountExecution.PassVisitsAll | services/generic_init/mount_helpers.cpp:189-224 | the pass ends well if and only if every visited run mounts or its first entry is no_fail or formattable, and then it has left out only skipped entries |
| MountExecution.NoRunMountedTwice | services/generic_init/mount_helpers.cpp:189-224 | visits do not overlap and a run that was mounted is not visited again |
| MountTraces.PassTrace | services/generic_init/mount_helpers.cpp:189-224 | the trace of a whole pass is, visit after visit, the creation of the mount point and the candidates tried, all taken from the fstab as it was given, although visits change it in place |
| MountTraces.PassSuccesses | services/generic_init/mount_helpers.cpp:154-224 | in a whole pass exactly as many mounts succeed as visits end mounted, so with NoRunMountedTwice each run has at most one |
| MountTraces.MountAllTrace | services/generic_init/mount_helpers.cpp:186-262 | the same for the switch to the system run followed by the main loop |
| MountTraces.LoopLeavesOut | services/generic_init/mount_helpers.cpp:189-209 | no visit starts at an entry for /system, an overlay entry or an emmc entry, and a loop that ends well has had every other entry in a visit |
| MountTraces.VisitSuccesses | services/generic_init/mount_helpers.cpp:154-184 | one successful mount in a visit that ends mounted and none in any other |
| MountExecution.MountAllIff | services/generic_init/mount_helpers.cpp:186-262 | the result is true if and only if the first /system run mounts and every visited run mounts or is forgiven |
| PlanExecution.PlanRunsAsPlannedIff | services/generic_init/mount_helpers.cpp:154-262 | every plan holds the declared candidate lists, and mounting it changes no entry and makes every group exactly one run whose candidates are tried as planned from any point on, if and only if no two planned images in a row have the same base name |
| PlanExecution.RunsAsPlannedIff | services/generic_init/mount_helpers.cpp:167-176 | the same for any list of groups: exactly when no two groups in a row share a mount point |
| PlanExecution.GroupSits | services/generic_init/mount_helpers.cpp:167-176 | the same separation holds with addon entries behind, unless they go on with the last mount point |
| PlanExecution.NeighboursMerge | services/generic_init/mount_helpers.cpp:167-176 | anywhere in a plan, two groups in a row for one mount point are in one run in which the second source is never tried |
| SwitchRootTheorem.PreservedIff | services/generic_init/switch_root.cpp:72-97 | for every mount table and every list of moves that is free of string prefixes, the namespace survives the root switch if and only if the moves cover every mount, list parents before children, and no mount is moved into itself or onto, above or below one still to be moved |
| SwitchRootTheorem.SoundMovesPreserve | services/generic_init/switch_root.cpp:72-97 | under these conditions every move succeeds, every mount gets its old path back and the new root is / |
| SwitchRoots.SwitchPreservesIff | services/generic_init/switch_root.cpp:37-97 | with prefixes that are parents and parents listed first, the namespace survives if and only if there is no such clash |
| SwitchRoots.LonelyRootPreserves | services/generic_init/switch_root.cpp:37-97 | with nothing mounted above or below the new root it always survives |
| SwitchRoots.ChosenIsAntichainCover | services/generic_init/switch_root.cpp:57-64 | the mounts to move form an antichain that covers every other mount |
| SwitchRoots.ChosenOk | services/generic_init/switch_root.cpp:44-67 | no chosen mount starts with an earlier one, and every mount but / and the new root starts with a chosen one |
| SwitchRoots.PrefixIsNotParent | services/generic_init/switch_root.cpp:57-62 | /devfoo is skipped as a child of /dev and lost |
| SwitchRoots.MountInsideNewRoot | services/generic_init/switch_root.cpp:77-84 | with /system/dev mounted, moving /dev buries it and the namespace does not survive |
| SwitchRoots.MountNamespace.GetMounts | services/generic_init/switch_root.cpp:37-68 | the loop computes the chosen mounts |
| SwitchRoots.MountNamespace.SwitchRoot | services/generic_init/switch_root.cpp:72-97 | performs the moves in order up to the first that the table or the system refuses, gets through exactly when all moves, chdir, the final move and chroot do, and then shows every mount below the new root |
| SwitchRoots.SwitchedIff | services/generic_init/switch_root.cpp:72-97 | whatever the calls answer, the switch gets through with every path preserved if and only if every call works and the moves cover the mounts, parents first, without a clash |
| UeventListeners.ParseEvent | services/generic_init/uevent_listener.cpp:32-90 | terminates inside n bytes and two terminators and leaves exactly the fields of the message's records over the cleared uevent |
| UeventListeners.ReadUevent | services/generic_init/uevent_listener.cpp:108-128 | fails, discards at 8192 bytes or more, or parses, and only the last changes the uevent |
| UeventListeners.KeyAt | services/generic_init/uevent_listener.cpp:46-85 | the chain of prefix tests finds the key of the record |
| UeventListeners.StartsWith | services/generic_init/uevent_listener.cpp:46 | the comparison never looks past the end of the record |
| UeventMessages.MessageFields | services/generic_init/uevent_listener.cpp:32-90 | each field has the value of the last record with its key before the first empty record, else its default, which for the partition uuid is its prior value |
| UeventMessages.MessageIsItsRecords | services/generic_init/uevent_listener.cpp:45-90 | the records are the pieces between NULs up to the first empty one |
| UeventMessages.OneKeyPerRecord | services/generic_init/uevent_listener.cpp:46-85 | no record starts with two keys, so the order of the tests does not matter |
| UeventRoundTrip.MessageRoundTrip | services/generic_init/uevent_listener.cpp:32-90 | writing all fields of a representable uevent as a message and parsing it over any uevent gives it back |
| UeventRoundTrip.DecimalRead | services/generic_init/uevent_listener.cpp:61-72 | canonical decimals in range are read back exactly, 32 and 64 bits wide |
| UeventRoundTrip.TextRecords | services/generic_init/uevent_listener.cpp:46-84 | a record with the text of a key, spelled out, and any value sets that field and no other |
| UeventRoundTrip.NumberRecords | services/generic_init/uevent_listener.cpp:61-72 | the same for the four numbers |
| UeventRoundTrip.NumberRead | services/generic_init/uevent_listener.cpp:61-72 | spaces before a number and what is no digit behind it do not count; it saturates beyond 64 bits and a 32 bit field keeps the low 32 bits |
| Coldboots.ColdbootRunnerSubprocess.UeventHandlerMain | services/generic_init/coldboot_runner_subprocess.cpp:33-42 | after any number of rounds a process has made exactly the calls at its indices, which are 32 bit numbers and wrap |
| Coldboots.ColdbootRunnerSubprocess.StartInBackground | services/generic_init/coldboot_runner_subprocess.cpp:44-58 | what each child has done after any number of rounds, and that the pids are recorded unless a fork fails |
| Coldboots.StridesDoneIff | services/generic_init/coldboot_runner_subprocess.cpp:33-42 | there is a number of rounds after which all children have ended with exactly the calls of their strides, if and only if queue length plus processes is at most 2^32 |
| Coldboots.WrappingQueue | services/generic_init/coldboot_runner_subprocess.cpp:35 | two processes and 2^32 - 1 events never do their strides |
| Coldboots.WrappedIsNotStride | services/generic_init/coldboot_runner_subprocess.cpp:35 | a process whose stride leaves 32 bits never ends with exactly its stride |
| Coldboots.ColdbootRunnerSubprocess.Wait | services/generic_init/coldboot_runner_subprocess.cpp:60-91 | reaps as specified |
| Coldboots.WaitMeansAllSucceeded | services/generic_init/coldboot_runner_subprocess.cpp:60-91 | Wait returns only after every child exited successfully and dies only of a child that crashed without having succeeded |
| Coldboots.WaitOutcome | services/generic_init/coldboot_runner_subprocess.cpp:60-91 | Wait dies if and only if a child is reported to have crashed without having succeeded before, and returns if and only if there is none and every child is reported to have succeeded |
| Coldboots.ColdbootRunnerNoParallel.UeventHandlerMain | services/generic_init/coldboot_runner_noparallel.cpp:28-34 | every event in order, each with all handlers in order |
| Coldboots.ParallelIsSequential | services/generic_init/coldboot_runner_subprocess.cpp:33-58 | any interleaving of the strides is a permutation of the sequential calls that agrees with them within every residue class |
| Coldboots.ClassOfSequential | services/generic_init/coldboot_runner_subprocess.cpp:35 | a residue class of the sequential order is a stride |
| Coldboots.EachCallOnce | services/generic_init/coldboot_runner_noparallel.cpp:28-34 | every event meets every handler exactly once |

## Left out

- UeventDependencyGraphs.UeventDependencyGraph.Add: sequence numbers are required to be new and increasing, as the kernel issues them; the program does not test this.
- ParallelMainLoop.EveryEventIsHandled: fairness is not modelled; the result is about runs that cannot go on, and DrainIsBounded says every run gets there.
- PoolRuns.WaitReturnsWhenAllDone: one outside thread enqueues and calls Wait once, as every user of the pool does.
- Parsers.Parser.ParseData: its ends of file do not call the parser; ImportParser does, and UeventdConfigLoader.ConfigLoader models that on the same parser object.
- UeventdConfigs.ParsedConfigIsValid: import cycles, on which the program recurses without end, are excluded, and what the single-line parsers answer is an oracle over the lines they have accepted.
- UeventdConfigLoader.ConfigLoader.ParseConfig: import cycles are excluded here too; the section parsers answer through the specification of their calls, and the import parser object is given the list that its own calls have collected.
- SwitchRootTheorem.PreservedIff: a mount that is buried under another counts as lost at once; stacked mounts at one path are not followed further.
- FstabPlanner.OnPostBlockDevices: fstab entries carry their source, mount point, type, read-only and bind flags, no_fail and formattable; mount options are not modelled.
- MountHelpers.MountHelper.MountPartition: erase_same_mounts, which no caller sets, is not modelled.
- Coldboots.ColdbootRunnerSubprocess.UeventHandlerMain: the loop may run for ever, so the method does at most a given number of rounds.
- FirstRuns.Ueventd.UeventdMain: the parallel loop never returns and has no place in it; modalias and firmware handlers change nothing that mounting looks at.
- The addon fstab files and the android_dir parameter of ParseConfig: the addon entries are a parameter of the planner, the directory belongs to probing.
- The probing of block devices (including the loop over APFS volumes), loop devices, fork, exec, netlink and logging are oracles or ghost events.
- With mount_firmware=only_android_dir and no android directory the probe still tries usr/lib/firmware, because the empty first entry is skipped before the test that ends the loop; probing is an oracle here.
- Permissions, device nodes and symlinks, the firmware handler, modalias handling, the console and reboot code, and the string helpers of util.cpp: input and output, or easy members.
- The thread pool variant of the cold boot runner: the pool's own theorems say all that is particular to it.
