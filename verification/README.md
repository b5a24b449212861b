# Apache Traffic Server 8.0.3: stateful components

This project models eight stateful components of Apache Traffic Server 8.0.3 and proves what each of
them keeps over whole runs. `dafny verify dfyconfig.toml` checks all of it.

| File | Modules | What it is about |
|---|---|---|
| `PluginVC.dfy` | `PluginVirtualConnection` | the in-process duplex connection: two halves, one bounded buffer per direction, retry events, close and joint deletion |
| `RangeTransform.dfy` | `RangeCutting`, `RangeFraming`, `RangeTransforming` | cutting byte ranges out of a chunked stream, and multipart/byteranges framing |
| `TransformTerminus.dfy` | `TransformTermination` | deletion by counting events, with four concurrent parties |
| `Rollback.dfy` | `VersionedStore` | the versioned configuration store, with every system call able to fail |
| `ParentSelection.dfy` | `ParentMarking`, `ParentSelecting` | round-robin parent selection, failover runs, failure windows |
| `ConfigProcessor.dfy` | `ConfigCounting` | reference counts of configuration objects |
| `SessionHooks.dfy` | `SessionHooks` | the walk over global and session hooks |
| `RuleMatching.dfy` | `RuleMatching` | first-line-wins matching of configuration records |
| `Options.dfy` | `Options` | a value that may be missing |

Objects whose methods update their fields are classes here, with the same fields; loops are loops. A
method is proved against a specification (a predicate or a function of the old state), and the laws
are stated about that. Where several threads may interleave (`TransformTermination`) each access to a
shared variable is a step of its own.

What stands for the surroundings:

* A try-lock, a clock reading, a plugin's or a user's behaviour and the outcome of a system call are
  parameters or nondeterministic choices, so every theorem holds for all of them.
* The event processor is a set, list or count of scheduled, undelivered events.
* In `PluginVirtualConnection` the user behind a callback may perform any sequence of operations on
  either half, including the re-entrant `reenable_re`. `fuel` bounds one finite behaviour of the users,
  and every contract holds for every fuel; `Run` takes any number of steps.
* `IOBuffer`s are byte sequences whose cutting into blocks is chosen anew at each step. The space left
  in a reader's buffer is a nondeterministic `room`.
* Files are identified by version number; 0 is the active file, as in the program.
* Ghost fields (`taken`, `delivered`, `log`, `readVisits`, `writeVisits`, `renewals`, `passes`, `history`, `accepted`,
  `marks`, `given`, `leaked`, `invoked`) record what has happened, so that contracts can speak about runs.

## What was found

Each of these is stated and proved; the member is named.

* An end-of-stream signal can leave bytes behind in the intermediate buffer, exactly if the reader has
  set its byte count below what it has received (`EosStrandsBytesIff`, `EosStrandsBytesExample`).
  Otherwise every byte accepted is delivered before the end.
* If the configuration directory cannot be listed at start, the current version is 0, whose file is the
  active file; then every update fails and its cleaning up deletes the active configuration
  (`FailureKeepsActive`, `UnlistedLosesActive`). For every other current version a failure keeps it.
* If the active file was missing at start, the number of versions is one too large, and the
  assertion that there is a backup to evict can fail (`MissingActiveAborts`). It never fails on runs that
  keep the active file, whichever system calls fail (`Run`).
* Reverting reports success whether or not the update inside it succeeded (`RevertToVersion`,
  `RevertReportsSuccess`).
* Closing a transform connection closes its transforms and then the terminus, also for a second time. For an
  owner that closes between events or inside a callback of the terminus, under every interleaving that
  follows, the connection is deleted in the end exactly if, at the close, the chain is intact or an event is
  scheduled, when the transforms have the mutex of the terminus (`CloseThenRun`, `CloseLast`). With other
  mutexes an operation of a transform in progress counts too, and while a transform is about to
  cut the link, with nothing else to come, it depends on who is first (`EitherWay`, `AboutToUnlink`). `CutChain` is
  a run in which the chain was cut before the owner closed, and the connection is left; `ClosedTwice` is one in
  which the terminus was closed first, and it is not.
* Counting events alone does not make the deletion safe. No run uses a connection after its deletion if the
  transforms have the mutex of the terminus (`Run`), which those of `TSTransformCreate` and the range
  transform are given; without it one can (`RacingTransform`), exactly if at the deletion a transform is in an
  operation on the terminus, or has scheduled an event since the decision (`TouchedIffStray`).
* A configuration object given an index beyond the last slot keeps a reference that nobody gives up, and
  is never deleted (`Set`, `Run`; `SetBeyondLastSlot` for index 101).
* All failover runs end, in every environment, exactly on lines that may go direct: `FailoverRun` for those, and
  for every other line, in every mode, an environment in which a run never ends (`Endless`). In an
  environment that stays as it is a run never ends exactly if the line may not go direct and the parent before
  the start may be chosen (`FixedRun`). A transaction that marks every failure, within one retry window, ends
  after at most the threshold times the number of parents (`MarkingRun`).
* Strict round robin computes an invalid index once its counter passes 2^31, unless the number of
  parents divides (`StrictIndexInRange`, `StrictIndexNegative`).
* A failed retry of a parent with no recorded failure sets its time of failure and its count of failures
  apart (`MarkDown`, `RetrySetsApart`).
* `never_cache` is not decided by the earliest line if a ttl line is visited later
  (`NeverIsEarliestIff`, `NeverDependsOnOrder`), and the setting for responses to cookies is taken from
  the record visited last, even if its modifiers do not hold (`CookiesAreLast`, `CookiesIgnoreModifiers`).
* A regular expression on the host that fails with an error counts as a match (`VisitedIff`, `ErrorsMatchHosts`).

## Model

| member | source | states |
|---|---|---|
| PluginVirtualConnection.TransferBytes | trafficserver-8.0.3/proxy/PluginVC.cc:420-458 | however the source is cut into blocks, exactly the first `actOn` bytes move, in order |
| PluginVirtualConnection.CoreBuffer.Fill | trafficserver-8.0.3/proxy/PluginVC.cc:531-540 | bytes taken equal bytes delivered followed by the buffer, which stays within 32768 bytes; nothing may enter after the end of the stream |
| PluginVirtualConnection.CoreBuffer.Drain | trafficserver-8.0.3/proxy/PluginVC.cc:646-655 | the same conservation law when bytes go out to the reader |
| PluginVirtualConnection.CoreBuffer.EndIsFinal | trafficserver-8.0.3/proxy/PluginVC.cc:626-632 | after the end mark no byte enters or is delivered, and every byte taken has been delivered |
| PluginVirtualConnection.EosStrandsBytesIff | trafficserver-8.0.3/proxy/PluginVC.cc:615-632 | end-of-stream with bytes left in the buffer happens exactly if the byte count of the reader is exceeded; otherwise it means an empty buffer, a peer that is done, and bytes still expected |
| PluginVirtualConnection.EosStrandsBytesExample | trafficserver-8.0.3/proxy/PluginVC.cc:615-632 | a concrete reader that lowered its byte count and is told of the end with five bytes left |
| PluginVirtualConnection.PluginVC.SetupEventCb | trafficserver-8.0.3/proxy/PluginVC.cc:807-829 | at most one event per pointer, and the scheduled events are exactly those pointed to |
| PluginVirtualConnection.PluginVC.ClearEvent | trafficserver-8.0.3/proxy/PluginVC.cc:779-789 | a delivered one-shot timer is forgotten, a periodic one cancelled |
| PluginVirtualConnection.PluginVC.DoIoRead | trafficserver-8.0.3/proxy/PluginVC.cc:245-273 | starts a read operation and keeps the half sound: the wake-up is scheduled |
| PluginVirtualConnection.PluginVC.DoIoWrite | trafficserver-8.0.3/proxy/PluginVC.cc:276-305 | starts a write operation and keeps the half sound |
| PluginVirtualConnection.PluginVC.Reenable | trafficserver-8.0.3/proxy/PluginVC.cc:308-328 | sets the need-flag and leaves a retry event pending |
| PluginVirtualConnection.PluginVC.DoIoClose | trafficserver-8.0.3/proxy/PluginVC.cc:364-382 | a half closed outside a handler gets the event that will delete it; inside one the handler will |
| PluginVirtualConnection.PluginVC.DoIoShutdown | trafficserver-8.0.3/proxy/PluginVC.cc:384-402 | shutdown flags are only ever set |
| PluginVirtualConnection.PluginVC.UserStep | trafficserver-8.0.3/proxy/PluginVC.cc:245-402 | any single operation of a user keeps every invariant of the half |
| PluginVirtualConnection.PluginVC.Send | trafficserver-8.0.3/proxy/PluginVC.cc:531-540 | the first bytes of the writer's buffer are appended to what was taken, and counted |
| PluginVirtualConnection.PluginVC.Receive | trafficserver-8.0.3/proxy/PluginVC.cc:646-655 | the first bytes of the core buffer are appended to what was delivered, and counted |
| PluginVirtualConnection.PluginVC.TryWrite | trafficserver-8.0.3/proxy/PluginVC.cc:469-541 | what a visit of the write side does in all cases, with its lock and without; a lock miss leaves a retry pending; its need-flag is cleared only by this |
| PluginVirtualConnection.PluginVC.PutOut | trafficserver-8.0.3/proxy/PluginVC.cc:503-548 | with the lock, as many bytes move as there are, are wanted and have a place; the write is reported complete exactly if it then is, and an error exactly if the peer will not read |
| PluginVirtualConnection.PluginVC.TryRead | trafficserver-8.0.3/proxy/PluginVC.cc:571-656 | the same for the read side; the end is marked final exactly if it is reported with an empty buffer |
| PluginVirtualConnection.PluginVC.TakeIn | trafficserver-8.0.3/proxy/PluginVC.cc:604-662 | the same for the read side: the greatest amount that fits, completion exactly at the byte count, the end exactly if the peer is done and the count exceeded or the buffer empty |
| PluginVirtualConnection.PluginVC.UpdateInactiveTime | trafficserver-8.0.3/proxy/PluginVC.cc:791-799 | a transfer puts off the inactivity timeout, if there is one |
| PluginVirtualConnection.PluginVC.TimeoutFires | trafficserver-8.0.3/proxy/PluginVC.cc:740-777 | a timer reports exactly if its user's lock is obtained, the half is open and a read or a write still expects bytes and is not shut down; otherwise it stays or is cleared |
| PluginVirtualConnection.PluginVC.Arrive | trafficserver-8.0.3/proxy/PluginVC.cc:202-217 | entering the handler forgets the event that called it and keeps the rest; exactly when a timer is to be reported |
| PluginVirtualConnection.PluginVC.Missed | trafficserver-8.0.3/proxy/PluginVC.cc:130-184 | an event that misses the locks is scheduled again, and nothing has changed |
| PluginVirtualConnection.PluginVCCore.ReenableRe | trafficserver-8.0.3/proxy/PluginVC.cc:330-362 | the re-entrant processing visits the side and does all that visit owes, keeps the pair valid, and a half closed meanwhile gets its event |
| PluginVirtualConnection.PluginVCCore.VisitWrite | trafficserver-8.0.3/proxy/PluginVC.cc:469-541 | one visit of a write side in the pair: the bytes that must move have moved, an error exactly if the peer is closed or shut down for reading, and no invariant lost |
| PluginVirtualConnection.PluginVCCore.VisitRead | trafficserver-8.0.3/proxy/PluginVC.cc:571-656 | one visit of a read side in the pair: the bytes that must be delivered are, and the end exactly if the peer is closed or shut down for writing |
| PluginVirtualConnection.PluginVCCore.ProcessWriteSide | trafficserver-8.0.3/proxy/PluginVC.cc:469-560 | through arbitrary callbacks and re-entry: the bytes are taken, the signal is the first thing said, the inactivity timeout is put off, the reader at the other end is visited or re-enabled, and all invariants hold |
| PluginVirtualConnection.PluginVCCore.ProcessReadSide | trafficserver-8.0.3/proxy/PluginVC.cc:571-676 | the same for the read side and the writer at the other end; an end of stream said with an empty buffer is final |
| PluginVirtualConnection.PluginVCCore.Report | trafficserver-8.0.3/proxy/PluginVC.cc:544-560 | the user is called, and after a transfer the other half is visited, has an event pending, or is closed, so that all the visit owes is done |
| PluginVirtualConnection.PluginVCCore.Wake | trafficserver-8.0.3/proxy/PluginVC.cc:552-560 | the other half is visited directly, or re-enabled if the visit was itself on its behalf |
| PluginVirtualConnection.PluginVCCore.UserTurn | trafficserver-8.0.3/proxy/PluginVC.cc:309-402 | any finite behaviour of the users keeps the pair valid and only appends to the byte totals |
| PluginVirtualConnection.PluginVCCore.RetryTurn | trafficserver-8.0.3/proxy/PluginVC.cc:210-225 | a side that needs it is visited and does what it owes; afterwards a need-flag that is set on an open half has a retry pending |
| PluginVirtualConnection.PluginVCCore.FulfilledAnswers | trafficserver-8.0.3/proxy/PluginVC.cc:210-225 | in terms of the fields: a retry visits the sides that need it, and a waiting reader gets the most bytes that are there, are wanted and have a place |
| PluginVirtualConnection.PluginVCCore.ProcessClose | trafficserver-8.0.3/proxy/PluginVC.cc:685-727 | the half becomes deletable with no event left, an open connected peer is made to look, and the pair is freed exactly when nobody is left |
| PluginVirtualConnection.PluginVCCore.AttemptDelete | trafficserver-8.0.3/proxy/PluginVC.cc:1165-1175 | freed exactly if both halves are deletable, or the active one is and the pair was never connected |
| PluginVirtualConnection.PluginVCCore.MainHandler | trafficserver-8.0.3/proxy/PluginVC.cc:117-243 | any delivered event, in any outcome of the locks, keeps every invariant, and no need for a visit is forgotten; with the locks of an open half a retry visits the sides that need it and delivers as many bytes as fit, and a timer reports its own timeout exactly if it is due |
| PluginVirtualConnection.PluginVCCore.Handle | trafficserver-8.0.3/proxy/PluginVC.cc:187-232 | an event that reaches a closed half deletes it without saying anything |
| PluginVirtualConnection.PluginVCCore.NothingLeft | trafficserver-8.0.3/proxy/PluginVC.cc:121-125 | a half with an event scheduled is not deletable and the pair is not freed |
| PluginVirtualConnection.PluginVCCore.SendAccept | trafficserver-8.0.3/proxy/PluginVC.cc:1142-1159 | the passive half is handed over exactly when the acceptor's lock is obtained, else a retry is queued |
| PluginVirtualConnection.PluginVCCore.SendAcceptFailed | trafficserver-8.0.3/proxy/PluginVC.cc:1121-1140 | a pair never connected is freed once, when the acceptor's lock is obtained |
| PluginVirtualConnection.PluginVCCore.Run | trafficserver-8.0.3/proxy/PluginVC.cc:117-1175 | over any run: conservation and order of bytes in both directions, bounded buffers, an end of stream reported only if the peer is done, nothing after a final end, no need for a visit forgotten but by a visit of that side, no orphaned event, freed at most once |
| RangeCutting.UptoStable | trafficserver-8.0.3/proxy/Transform.cc:852-954 | what is written for a prefix of the entries depends only on the bytes up to their end |
| RangeCutting.WrittenSkips | trafficserver-8.0.3/proxy/Transform.cc:866-878 | consuming bytes before the current range writes nothing |
| RangeCutting.WrittenGrows | trafficserver-8.0.3/proxy/Transform.cc:880-892 | consuming bytes inside the range writes exactly those |
| RangeCutting.WrittenWhole | trafficserver-8.0.3/proxy/Transform.cc:894-900 | a range whose last byte is consumed has been written completely |
| RangeCutting.BodyStable | trafficserver-8.0.3/proxy/Transform.cc:852-954 | input after the last range makes no difference |
| RangeFraming.NumbersFit | trafficserver-8.0.3/proxy/Transform.cc:987-1007 | the numbers of a part header are never truncated for 64-bit values |
| RangeFraming.DecimalReads | trafficserver-8.0.3/proxy/Transform.cc:1000-1001 | what is printed for a number is digits, without a zero in front, that read from left to right as that number |
| RangeFraming.NumeralIsDecimal | trafficserver-8.0.3/proxy/Transform.cc:1000-1001 | and it is the only such text |
| RangeFraming.NumbersExample | trafficserver-8.0.3/proxy/Transform.cc:1000-1001 | bytes 10 to 19 of 100 are announced as 10-19/100 |
| RangeFraming.SingleRangeBody | trafficserver-8.0.3/proxy/Transform.cc:852-954 | a single entry yields exactly the requested bytes |
| RangeFraming.GoodPartsAre | trafficserver-8.0.3/proxy/Transform.cc:894-1007 | the parts are one for each good range, in order, each with the bytes of its range and a header whose numbers read as its first byte, its last byte and the whole length |
| RangeFraming.SeveralRangesBody | trafficserver-8.0.3/proxy/Transform.cc:811-1007 | several entries yield the multipart message of section 4.1 and Appendix A of RFC 7233, with one part for each good range, whose header says which bytes it has |
| RangeFraming.UptoIsEncapsulations | trafficserver-8.0.3/proxy/Transform.cc:898-943 | after k entries the output is the encapsulation of the good parts among them; bad entries produce nothing |
| RangeFraming.CalculatedLengthIsExact | trafficserver-8.0.3/proxy/http/HttpSM.cc:4353-4382 | the length computed before the transform starts is the length of what it writes |
| RangeTransforming.BodyIsResponse | trafficserver-8.0.3/proxy/Transform.cc:785-1007 | the body that is written is the bytes of the one range, or the multipart message of the good ranges, of the length computed before |
| RangeTransforming.RangeTransform.Skip | trafficserver-8.0.3/proxy/Transform.cc:866-878 | drops the bytes before the range, no more |
| RangeTransforming.RangeTransform.Send | trafficserver-8.0.3/proxy/Transform.cc:880-892 | copies bytes of the range, at least one, and all that have arrived |
| RangeTransforming.RangeTransform.AddBoundary | trafficserver-8.0.3/proxy/Transform.cc:968-985 | appends the delimiter and counts its length |
| RangeTransforming.RangeTransform.AddSubHeader | trafficserver-8.0.3/proxy/Transform.cc:987-1007 | appends the part header and counts its length |
| RangeTransforming.RangeTransform.NextRange | trafficserver-8.0.3/proxy/Transform.cc:894-943 | from a completed range to the middle of the next good one or to the finished body, over any number of bad entries |
| RangeTransforming.RangeTransform.TransformToRange | trafficserver-8.0.3/proxy/Transform.cc:852-954 | consumed bytes are `_done_byte` plus one, `m_done` is the output length, all input is consumed unless finished, and the loop terminates |
| RangeTransforming.RangeTransform.HandleEvent | trafficserver-8.0.3/proxy/Transform.cc:785-846 | a missed lock loses nothing; a detached upstream announces the length so far |
| RangeTransforming.Respond | trafficserver-8.0.3/proxy/Transform.cc:785-1007 | for every way of cutting the input into chunks and missing locks the output is the bytes of the one range or the multipart message of the good ranges, its true length is announced, and it is the length computed before |
| TransformTermination.TransformTerminus.WriterStep | trafficserver-8.0.3/proxy/Transform.cc:275-382 | a step of the last transform, between any steps of the others, keeps the count exact and the decision to delete sound |
| TransformTermination.TransformTerminus.OwnerTerminusStep | trafficserver-8.0.3/proxy/Transform.cc:322-345 | the same for the owner, in its own operations and at the end of its close |
| TransformTermination.TransformTerminus.OwnerOperates | trafficserver-8.0.3/proxy/Transform.cc:275-382 | after an operation of the owner an event is pending, and reenable adds one only if there was none |
| TransformTermination.TransformTerminus.OwnerPassOn | trafficserver-8.0.3/proxy/Transform.cc:456-473 | the owner's close goes down the chain, and notes whether it reaches the terminus |
| TransformTermination.TransformTerminus.OwnerUnlink | trafficserver-8.0.3/src/traffic_server/InkAPI.cc:1192-1195 | the link is cut when the close of the terminus returns |
| TransformTermination.TransformTerminus.ReadFlags | trafficserver-8.0.3/proxy/Transform.cc:146-146 | the handler reads the two flags one after the other, and what it has found set stays set |
| TransformTermination.TransformTerminus.CountOff | trafficserver-8.0.3/proxy/Transform.cc:148-156 | there is an event to count off, and the handler decides to delete exactly if it found both flags and it was the last |
| TransformTermination.TransformTerminus.Decide | trafficserver-8.0.3/proxy/Transform.cc:158-163 | deletes exactly after that decision |
| TransformTermination.TransformTerminus.Work | trafficserver-8.0.3/proxy/Transform.cc:134-241 | the handler calls back only with its locks; a missed one adds one to the count and, in the next step, one to the events scheduled |
| TransformTermination.TransformTerminus.HandlerStep | trafficserver-8.0.3/proxy/Transform.cc:141-269 | each step of the handler between any steps of the others; its callbacks come after its locks alone, and its retry after a miss alone |
| TransformTermination.TransformTerminus.Step | trafficserver-8.0.3/proxy/Transform.cc:134-473 | any step of any party moves that party alone and keeps the count exact; the handler calls back only with its locks; a deleted connection is used exactly by a step outside the last transform |
| TransformTermination.TransformTerminus.TouchedIffStray | trafficserver-8.0.3/proxy/Transform.cc:141-163 | a deleted connection is used again exactly if an operation of a transform, or an event, is left; never with a shared mutex |
| TransformTermination.TransformTerminus.DoIoClose | trafficserver-8.0.3/proxy/Transform.cc:456-473 | the owner's uninterrupted close schedules an event exactly if the chain is intact |
| TransformTermination.TransformTerminus.HandleEvent | trafficserver-8.0.3/proxy/Transform.cc:141-269 | the uninterrupted handler deletes exactly if both sides are closed and this was the last event; unless both are closed it calls back with its locks, and after a miss leaves as many events scheduled as it found and calls nobody |
| TransformTermination.TransformTerminus.Run | trafficserver-8.0.3/proxy/Transform.cc:134-473 | over any interleaving: deleted at most once; with a shared mutex only at rest and never used afterwards; at the end deleted exactly if some event found the connection closed, and always if the owner's close found the chain intact |
| TransformTermination.TransformTerminus.CloseLast | trafficserver-8.0.3/proxy/Transform.cc:456-473 | an owner that closes when nothing else is at work gets the connection deleted, after the events that are left, exactly if the chain is intact or an event is scheduled |
| TransformTermination.TransformTerminus.CloseThenRun | trafficserver-8.0.3/proxy/Transform.cc:456-473 | after a close between events or in a callback, under any interleaving: deleted in the end exactly if at the close an event was to find it closed, which with a shared mutex means an intact chain or an event scheduled |
| TransformTermination.TransformTerminus.EitherWay | trafficserver-8.0.3/src/traffic_server/InkAPI.cc:1192-1195 | in the states left open by that, those in which a link is about to be cut and nothing else is to come, either outcome can follow |
| TransformTermination.AboutToUnlink | trafficserver-8.0.3/src/traffic_server/InkAPI.cc:1192-1195 | such a state arises |
| TransformTermination.ClosedTwice | trafficserver-8.0.3/proxy/Transform.cc:456-473 | closing the terminus first and the connection later deletes the connection |
| TransformTermination.CutChain | trafficserver-8.0.3/src/traffic_server/InkAPI.cc:1171-1199 | a run in which the chain was cut before the owner closed, and the connection is left |
| TransformTermination.RacingTransform | trafficserver-8.0.3/proxy/Transform.cc:367-382 | a null transform with a mutex of its own, past the test in reenable, uses a deleted connection |
| VersionedStore.Sorted | trafficserver-8.0.3/mgmt/Rollback.cc:732-757 | the versions found are queued in strictly increasing order, each once |
| VersionedStore.Rollback.constructor | trafficserver-8.0.3/mgmt/Rollback.cc:47-220 | the state after start in each case: unlisted directory, missing active file, no backup, and the ordinary one |
| VersionedStore.Rollback.FindVersions | trafficserver-8.0.3/mgmt/Rollback.cc:632-757 | the highest version, and -1 if the directory cannot be opened |
| VersionedStore.Rollback.Restore | trafficserver-8.0.3/mgmt/Rollback.cc:116-175 | a missing active file becomes the highest backup, or an empty file |
| VersionedStore.Rollback.Attempt | trafficserver-8.0.3/mgmt/Rollback.cc:401-442 | when the new contents become active, and which files change otherwise |
| VersionedStore.Rollback.Install | trafficserver-8.0.3/mgmt/Rollback.cc:400-493 | a failure at any system call leaves all retained backups intact |
| VersionedStore.Rollback.Finish | trafficserver-8.0.3/mgmt/Rollback.cc:444-468 | the eviction of the oldest backup and the bookkeeping, or the failing assertion, exactly if there is no backup to evict |
| VersionedStore.Rollback.InternalUpdate | trafficserver-8.0.3/mgmt/Rollback.cc:365-500 | the outcome code exactly, what each outcome leaves, and that a tidy directory stays tidy and bounded |
| VersionedStore.Rollback.UpdateKeepsTidy | trafficserver-8.0.3/mgmt/Rollback.cc:444-468 | with removals that work, the counter equals the queue, the queue is exactly the backups, and their number never exceeds the larger of its old value and the limit |
| VersionedStore.Rollback.FailureKeepsActive | trafficserver-8.0.3/mgmt/Rollback.cc:477-493 | a failed update keeps the active contents exactly if the current version is not 0 or unlinking fails, and keeps every queued backup |
| VersionedStore.Rollback.GetVersion | trafficserver-8.0.3/mgmt/Rollback.cc:516-574 | exactly when a version can be read; a retained version reads as what was active when it was superseded |
| VersionedStore.Rollback.UpdateVersion | trafficserver-8.0.3/mgmt/Rollback.cc:328-339 | the outcome code exactly: accepted if based on the current version, with a newer number, with working calls and a backup to evict when one is due; the bases that succeed strictly increase, so no base succeeds twice |
| VersionedStore.Rollback.RevertToVersion | trafficserver-8.0.3/mgmt/Rollback.cc:597-615 | reports success exactly if the version could be read, whatever the update did |
| VersionedStore.Rollback.RevertAndBack | trafficserver-8.0.3/mgmt/Rollback.cc:597-615 | reverting and reverting back restores the contents, even through evictions, and does so whenever the first revert and the calls of the second work |
| VersionedStore.Rollback.CheckForUserUpdate | trafficserver-8.0.3/mgmt/Rollback.cc:882-922 | the outcome code exactly; an outside edit that is found and rolled with working calls becomes a new version whose predecessor has the same contents |
| VersionedStore.Rollback.RemoveVersion | trafficserver-8.0.3/mgmt/Rollback.cc:772-811 | exactly when a removal succeeds, and what it removes from directory and queue |
| VersionedStore.Rollback.Step | trafficserver-8.0.3/mgmt/Rollback.cc:328-922 | whichever operation comes next, and when its calls work it has done what it is for |
| VersionedStore.Rollback.Run | trafficserver-8.0.3/mgmt/Rollback.cc:328-811 | over any run of operations and outside edits the store refines its history; while the active file is kept the eviction assertion never fails, whatever calls do; if removals work too the counter, queue and bound hold |
| VersionedStore.RevertReportsSuccess | trafficserver-8.0.3/mgmt/Rollback.cc:608-614 | a concrete revert that reports success though its update failed |
| VersionedStore.UnlistedLosesActive | trafficserver-8.0.3/mgmt/Rollback.cc:108-193 | an unlisted directory and one update with working calls: the active file is gone |
| VersionedStore.MissingActiveAborts | trafficserver-8.0.3/mgmt/Rollback.cc:116-141 | a missing active file and one backup: the first update meets the failing assertion |
| ParentMarking.Parent.MarkDown | trafficserver-8.0.3/proxy/ParentSelectionStrategy.cc:26-96 | the window stays open or a new one opens; the parent becomes unavailable exactly when the count meets the threshold; only a retry of an unfailed parent sets time and count apart |
| ParentMarking.Parent.MarkUp | trafficserver-8.0.3/proxy/ParentSelectionStrategy.cc:98-128 | a recovered parent is available and has no failures |
| ParentMarking.Parent.Marked | trafficserver-8.0.3/proxy/ParentSelectionStrategy.cc:26-128 | over any run of failures and recoveries without retry results the count is the number of failures since the current window opened, and the time is that of its opener; the parent is available exactly if it was and no count since the last recovery has met the threshold |
| ParentMarking.WindowHolds | trafficserver-8.0.3/proxy/ParentSelectionStrategy.cc:75-86 | from its opener on a window holds failures only, each reported within the retry time |
| ParentMarking.Parent.RetrySetsApart | trafficserver-8.0.3/proxy/ParentSelectionStrategy.cc:56-72 | a failed retry of a parent without a failure leaves a time without a count |
| ParentMarking.Parent.Burst | trafficserver-8.0.3/proxy/ParentSelectionStrategy.cc:56-95 | failures within one window make the parent unavailable from the one that reaches the threshold on |
| ParentSelecting.StrictIndexInRange | trafficserver-8.0.3/proxy/ParentRoundRobin.cc:101-104 | the strict start index is valid exactly below 2^31 or where the signed counter is divisible |
| ParentSelecting.StrictIndexNegative | trafficserver-8.0.3/proxy/ParentRoundRobin.cc:101-104 | three parents and a counter of 2^31 give index -2 |
| ParentSelecting.StrictIndexMovesOn | trafficserver-8.0.3/proxy/ParentRoundRobin.cc:101-104 | below 2^31 the strict start index begins with the first parent and moves on by one with the counter |
| ParentSelecting.ParentConfigParams.StrictTurns | trafficserver-8.0.3/proxy/ParentRoundRobin.cc:101-104 | successive transactions on a line with strict round robin start each one parent further than the one before |
| ParentSelecting.Around | trafficserver-8.0.3/proxy/ParentRoundRobin.cc:176-177 | the cyclic walk visits position k at step k and is back at the start exactly at the last |
| ParentSelecting.ParentRecord.Examine | trafficserver-8.0.3/proxy/ParentRoundRobin.cc:138-163 | a parent is taken exactly if its host is up and it is unfailed, below the threshold or past its retry time |
| ParentSelecting.ParentRecord.Scan | trafficserver-8.0.3/proxy/ParentRoundRobin.cc:136-177 | the first eligible parent in cyclic order, or none exactly if none of those searched is eligible; how many are examined, at most all |
| ParentSelecting.ParentResult.SelectFirst | trafficserver-8.0.3/proxy/ParentRoundRobin.cc:57-186 | a first call in each mode: the first eligible parent from the mode's start, and if none of all is eligible, direct exactly if the line may go direct and its parents are proxies, and failed otherwise |
| ParentSelecting.ParentResult.SelectAgain | trafficserver-8.0.3/proxy/ParentRoundRobin.cc:115-186 | failover: the search ends at the start where the line may go direct; before that the distance from the start increases; without a parent, direct exactly if the line may go direct and its parents are proxies |
| ParentSelecting.ParentConfigParams.FindParent | trafficserver-8.0.3/proxy/ParentSelection.cc:111-175 | a plugin's parent before the table before the default line; the chosen parent is the first eligible from the mode's start, and without one the request goes direct exactly if the line allows it and its parents are proxies |
| ParentSelecting.ParentConfigParams.NextParent | trafficserver-8.0.3/proxy/ParentSelection.cc:188-213 | no failover for a plugin's parent; with go_direct each chosen parent is further from the start; without a parent, direct exactly if the line allows it and its parents are proxies |
| ParentSelecting.ParentConfigParams.FailoverRun | trafficserver-8.0.3/proxy/ParentRoundRobin.cc:57-186 | while other transactions interfere, no parent is tried twice, at most n are, and the run ends direct if the parents are proxies and failed otherwise, in every mode; only strict round robin needs its counter below 2^31 |
| ParentSelecting.AscendingIsShort | trafficserver-8.0.3/proxy/ParentRoundRobin.cc:119-134 | parents ever further from the start are at most n |
| ParentSelecting.ParentConfigParams.FixedRun | trafficserver-8.0.3/proxy/ParentRoundRobin.cc:115-186 | in a fixed environment a run still has a parent after n failures exactly if the line may not go direct and the parent before the start may be chosen, and then after any number |
| ParentSelecting.ParentConfigParams.Endless | trafficserver-8.0.3/proxy/ParentRoundRobin.cc:119-134 | on every line that may not go direct, in every mode, there is a run without end |
| ParentSelecting.ParentConfigParams.MarkingRun | trafficserver-8.0.3/proxy/http/HttpTransact.cc:3344-3383 | a run that marks each failure within one retry window ends after at most the threshold times the number of parents |
| ParentSelecting.ParentRecord.LeftBound | trafficserver-8.0.3/proxy/ParentSelectionStrategy.cc:56-95 | the failures left to take are at most the threshold for each parent |
| ConfigCounting.ConfigProcessor.Set | trafficserver-8.0.3/mgmt/ProxyConfig.cc:123-163 | the slot is replaced and the old reference goes to a releaser; an invalid index leaks exactly the new object |
| ConfigCounting.ConfigProcessor.Choose | trafficserver-8.0.3/mgmt/ProxyConfig.cc:129-133 | index 0 takes a slot number that was not given out before |
| ConfigCounting.SetBeyondLastSlot | trafficserver-8.0.3/mgmt/ProxyConfig.cc:123-147 | an object set at index 101 keeps its reference with nothing holding it |
| ConfigCounting.ConfigProcessor.Get | trafficserver-8.0.3/mgmt/ProxyConfig.cc:165-185 | hands out one more reference to what is installed, of which there is at least one already |
| ConfigCounting.ConfigProcessor.Decrement | trafficserver-8.0.3/mgmt/ProxyConfig.cc:196-205 | deleted exactly at zero, and then nothing holds the object, as the source asserts of its slot |
| ConfigCounting.ConfigProcessor.Release | trafficserver-8.0.3/mgmt/ProxyConfig.cc:187-205 | gives up one outstanding reference and keeps every count exact |
| ConfigCounting.ConfigProcessor.Fire | trafficserver-8.0.3/mgmt/ProxyConfig.cc:93-112 | a releaser gives up the reference of the slot it was made for |
| ConfigCounting.ConfigProcessor.DeletedIffUnused | trafficserver-8.0.3/mgmt/ProxyConfig.cc:123-205 | an object has been deleted, once, exactly if no slot, releaser, client or lost reference holds it |
| ConfigCounting.ConfigProcessor.Run | trafficserver-8.0.3/mgmt/ProxyConfig.cc:93-205 | over any run every count is exact, and leaked objects are never deleted |
| SessionHooks.ProxyClientSession.NextList | trafficserver-8.0.3/proxy/ProxyClientSession.cc:109-118 | moving on to the next list changes nothing about which hooks remain |
| SessionHooks.ProxyClientSession.StateApiCallout | trafficserver-8.0.3/proxy/ProxyClientSession.cc:96-160 | the next hook is invoked if it has no mutex or its lock is obtained, and otherwise left for one retry; the hooks invoked stay a prefix of the global list followed by the session's; the callout waits for one thing or ends in one return |
| SessionHooks.ProxyClientSession.Invoke | trafficserver-8.0.3/proxy/ProxyClientSession.cc:138-144 | the same through a plugin that answers before it returns |
| SessionHooks.ProxyClientSession.HandleApiReturn | trafficserver-8.0.3/proxy/ProxyClientSession.cc:180-207 | a session is freed after its close hooks, and after its start hooks closed on an error and started otherwise |
| SessionHooks.ProxyClientSession.DoApiCallout | trafficserver-8.0.3/proxy/ProxyClientSession.cc:162-178 | with hooks off none is invoked; otherwise the walk starts with all of them to come, and the first is invoked or waits for its lock |
| SessionHooks.ProxyClientSession.Callout | trafficserver-8.0.3/proxy/ProxyClientSession.cc:96-207 | a whole callout: one return, and without an error only after every hook was invoked once, in order |
| SessionHooks.ProxyClientSession.Unhindered | trafficserver-8.0.3/proxy/ProxyClientSession.cc:96-207 | a callout whose retries get their locks and whose plugins go on ends after no more events than there are hooks |
| RuleMatching.VisitedIff | trafficserver-8.0.3/proxy/ControlMatcher.cc:489-571 | which records of a regular-expression table are visited |
| RuleMatching.ErrorsMatchHosts | trafficserver-8.0.3/proxy/ControlMatcher.cc:505-571 | an error of matching counts as a match in the table of host expressions only |
| RuleMatching.VisitsAll | trafficserver-8.0.3/proxy/ControlMatcher.cc:752-769 | a record is visited exactly if one of the five tables finds it |
| RuleMatching.VisitsInOrder | trafficserver-8.0.3/proxy/ControlMatcher.cc:752-769 | hosts, URL expressions, URL, address, host expressions, in this order |
| RuleMatching.DeciderIsEarliest | trafficserver-8.0.3/proxy/ControlBase.h:102-106 | the deciding record has the smallest line of those that apply, and exists exactly if one applies |
| RuleMatching.OrderIsIrrelevant | trafficserver-8.0.3/proxy/ControlMatcher.cc:752-769 | neither the order of the tables nor repeated visits make a difference |
| RuleMatching.SettingsIgnoreOrder | trafficserver-8.0.3/proxy/CacheControl.cc:356-420 | every cache-control setting but never_cache and the one for cookies is independent of the order |
| RuleMatching.ControlMatcher.Match | trafficserver-8.0.3/proxy/ControlMatcher.cc:752-769 | the records visited, table after table: those the tables find and no others |
| RuleMatching.ParentLookup.Match | trafficserver-8.0.3/proxy/ParentSelection.cc:784-792 | the parent line found is the earliest whose modifiers hold |
| RuleMatching.CacheControlResult.UpdateMatch | trafficserver-8.0.3/proxy/CacheControl.cc:356-432 | one record updates exactly the settings it decides |
| RuleMatching.CacheControlResult.Match | trafficserver-8.0.3/proxy/CacheControl.cc:356-432 | the settings for a request are those of the deciding records |
| RuleMatching.NeverWithoutTtl | trafficserver-8.0.3/proxy/CacheControl.cc:369-383 | without a ttl record never_cache is decided by the earliest line |
| RuleMatching.NeverFrom | trafficserver-8.0.3/proxy/CacheControl.cc:411-420 | the deciding ttl record discards what was set before its first visit |
| RuleMatching.NeverIsEarliestIff | trafficserver-8.0.3/proxy/CacheControl.cc:369-420 | never_cache is decided by the earliest line about it exactly if that is visited no earlier than the deciding ttl record |
| RuleMatching.NeverDependsOnOrder | trafficserver-8.0.3/proxy/CacheControl.cc:369-420 | two lines that give different answers in different tables |
| RuleMatching.CookiesAreLast | trafficserver-8.0.3/proxy/CacheControl.cc:430-432 | the setting for cookies is that of the last record visited that has one |
| RuleMatching.CookiesIgnoreModifiers | trafficserver-8.0.3/proxy/CacheControl.cc:430-432 | a record whose modifiers fail overrides the cookie setting of an earlier line |

## Left out

- PluginVirtualConnection.TransferBytes: a small copy that stops early because its destination gets no more
  memory; buffers are taken to grow.
- Threads, mutexes, clocks and the event processor themselves: only their outcomes are modelled. That the
  operations of a `PluginVC` user (`do_io_read`, `do_io_write`, `reenable`, `do_io_shutdown`), which do not take
  the mutex of the `PluginVC`, are not interleaved with its handlers is assumed; users hold the mutex of
  the VIO by convention.
- `PluginVC`: operations on a half its user has closed (the source asserts against them), null buffers,
  locks swapped between two attempts (they count as missed), connecting after `kill_no_connect`, socket
  options and addresses, and the keep-alive and active queues.
- `PluginVC` liveness: that the event processor eventually delivers a pending event is not stated.
- `RangeTransform`: calls after the transform has finished, which would index past the range array; the
  choice of completion event, since `ndone` of the write VIO is never advanced; rewriting of the response
  header; the parser of the Range header, whose guarantees are the precondition `InOrder`.
- `TransformTerminus`: the bytes it moves and the signals it sends. The transforms before the last are one party
  that may close the rest of the chain; whether a closed transform still exists is not modelled. A
  transform is taken to start no operation once it is closed, and the owner, as the continuation whose mutex
  the terminus has, to call in with that mutex and only once to close.
- `Rollback`: hard links are copies, as a backup's file is never written again; path strings, file modes,
  modification times and alarms; the directory scan of later callers of `findVersions`; overflow of version
  numbers; files such as `f_0` or `f_01` beside `f_1`; files found but not statable at start; the fatal exits
  of the constructor; stores without backups (`CONFIG_FLAG_UNVERSIONED`).
- Parent selection: consistent hashing, secondary parents, and `wrap_around`, which is cleared and never set
  in the program. The state of a host is read once per call.
- `ConfigProcessor`: `get` is one step. Between reading the slot and taking its reference the program relies on
  the releaser's delay.
- `ProxyClientSession`: a plugin that lets the session go on twice for one hook; hook lists that change during
  a callout; the locks a hook's invocation holds.
- Matching: parsing of configuration files, the look-up structures for hosts, URLs and addresses (what they
  return is given), and the modifiers (whether they hold is given with the record).
- Consistent-hash selection, `IPAllow`, statistics pages, plugin loading, process and file managers: wrappers
  over libraries, sockets or tables.
