# Verified model of the agent's core state machines and algorithms

This project models, in Dafny, the parts of the agent whose behaviour is hardest to see from one
function at a time, and proves what they promise over all inputs, all runs and all interleavings.

| file | what it models |
|---|---|
| `Paths.dfy`, `Mounts.dfy`, `Routing.dfy` | the file-tool mount stack, longest-prefix routing, and why routing agrees with the order in which Bubblewrap applies mounts |
| `Hosts.dfy`, `Validation.dfy` | a host with symbolic links that obeys the laws of path resolution, and the configuration checks that come before routing |
| `Mutation.dfy`, `Deletion.dfy`, `LinkedFile.dfy` | which backend may write or delete a routed path, where that write lands, and a configuration on which it lands elsewhere |
| `Mirror.dfy`, `Spine.dfy` | the recursive host-root mirror of full-access mode: what it shows and which directories it creates |
| `Output.dfy` | the bounded rolling tail of a command's output, with its spill log |
| `Transcript.dfy`, `Grouping.dfy`, `Document.dfy` | the memoised grouping pass of the transcript, what its units are, the render cache and the indexed document |
| `Bridge.dfy` | the cancellable stream bridge between a consumer thread and the event loop |
| `Generations.dfy`, `Interrupts.dfy`, `Membership.dfy`, `Control.dfy` | run generations and cancellation, who is registered and who is told of a cancel in every interleaving, the controller itself, the steering and follow-up queues |
| `Leases.dfy`, `LeaseEffects.dfy`, `RuntimeConfig.dfy` | exclusive thread leases over many runners and what each operation on them achieves; deferred model, permission and effort changes |
| `Performance.dfy`, `RunHistory.dfy` | the interval-union sweep, the timing part of the run metrics, and what it says about the events of a run |
| `Think.dfy` | the streaming splitter of think tags |
| `Attachments.dfy` | the reachability search for attachment references and the cleanup that relies on it |
| `Framing.dfy`, `Worker.dfy` | incremental line framing, the end marker of an event stream, and the sandbox worker's control channel and kills |

`dafny verify dfyconfig.toml` checks everything.

## How the model is built

* Code that updates objects or runs loops is modelled by classes and methods; each method is proved
  against a specification function, and the theorems are about those functions. Pure code is
  modelled by functions.
* Three protocols whose steps interleave between threads or processes are step relations: the stream
  bridge (`Bridge.Do`), the leases of many runners (`Leases.Do`), and who is told of a cancel
  (`Interrupts.Do`). Their theorems quantify over every finite interleaving. The methods of
  `Control.RunController` are the parts that run under one hold of its lock; each is proved to be one
  step of `Interrupts`, so a method of the source that takes the lock more than once is several of them.
* What the outside world does is a parameter: the host file system is the record `Mounts.Host`, and
  each result names the laws of path resolution that it needs (`Hosts.LinkedIsLawful` shows that a
  host with symbolic links obeys all of them); rendering is a function of what it reads
  (`Document.Look`) and the width, the log of a command may fail at any chunk, a build or catalog
  write may fail at any call, and the encoding of control messages is any encoding that escapes line feeds
  and can be read back.

## Where the code does less than one might expect

* A write is judged by where its path resolves to. When that is a mounted file, which a link can make
  possible from anywhere, the write can be admitted and land elsewhere or nowhere: strictly below the
  file it hits the file if the file's own name is all that is left of the path, and nothing otherwise;
  and a file whose own name its backend refuses is never hit. `Mutation.WriteLandsIff` is the exact
  condition, with the inputs in `LinkedFile.WriteBelowFile` and `LinkedFile.WriteThroughLink`.
* The rolling tail depends on chunking when the output holds a run of more than `limit` UTF-8
  continuation bytes, which valid text never has once the limit is three or more:
  `Output.TailIsChunkIndependent` is the exact condition. With a limit of one or two the tail can
  start inside a character (`Output.SmallLimit`).
* The visible half of `_split_think` can shrink when a `<` stands directly before a tag:
  `Think.VisibleGrowsIff` is the exact condition and `Think.VisibleCanShrink` an instance.
* A later `cancel` of the stream bridge returns as soon as it finds the flag set. It can rely on the
  effect of the first one exactly when that one has queued its wake item and found the bridge not
  running, or is complete and the source lets cancellations through (`Bridge.LaterCancelIsSettledIff`).
* A tool that opens while its run is cancelled may never be told: exactly when the cancel fell between
  the check of `open_tool_context` and its registration, and no later cancel took stock
  (`Interrupts.UntoldIffMissed`, with a run in `Interrupts.UntoldTool`). The event of its run stops it
  all the same (`Interrupts.OwnRunStops`), unless it opened across a change of runs
  (`Interrupts.OutlivingTool`).
* A child controller that joins while one run is active and the next one is reserved and already
  cancelled is not told, and no cancel of that next run will tell it: `Membership.NoticedIff` says exactly
  who is told, with a run in `Membership.UntoldChild`.
* A cancel that selects a reservation leaves the event of the active run alone, but tells the active
  tools and the child controllers all the same, exactly when the reservation had not been cancelled
  before (`Interrupts.CancelOfReservation`, with a run in `Interrupts.ReservationStopsTool`), although
  a scope is documented never to affect another generation.
* The attachment search recognises objects by address. An object dumped during the search is a
  temporary whose address can be handed out again, and then a live reference can be missed. The search
  is exact on all data in which it dumps at most `n` models if and only if `n` is at most one
  (`Attachments.ExactIffOneDump`, with the missed reference in `Attachments.ReusedDump`).
* The end marker of an event stream is searched line by line while streaming, but with `splitlines` in
  a response that was read at once. A line that carries the marker is found by the second search
  exactly when no carriage return divides it (`Framing.MarkingLinePieces`), and another line exactly
  when it buries a marker between carriage returns (`Framing.OtherLinePieces`). `Framing.AgreeIff`
  derives from this, for every response, the two ways in which the searches differ.

## Model

| member | source | states |
|---|---|---|
| Paths.TextWithinIsPrefix | agent/sandbox.py:112-119 | a string-prefix test on a slash boundary is the component-prefix test |
| Mounts.Check | agent/sandbox.py:272-305 | one entry is accepted exactly when its source is usable and it fits on the mounts before it; otherwise the first broken rule, in the order of the checks, is reported |
| Mounts.MountPoints | agent/sandbox.py:253-306 | accepts exactly the acceptable stacks, with sources resolved, and otherwise names the first entry that breaks the stack and the first rule it breaks |
| Mounts.Deepest | agent/sandbox.py:291-296 | the parent that the nesting rule compares with is a covering mount of greatest depth |
| Mounts.CoveringOrder | agent/sandbox.py:283-289 | of two mounts that cover one path, the later one is strictly deeper |
| Mounts.DeepestIsLastApplied | agent/sandbox.py:253-306 | on an accepted stack the deepest covering mount is the last applied one, for every path |
| Mounts.CoveringMountsAgree | agent/sandbox.py:291-304 | all mounts covering a path send it to the same host path, so they differ only in permission |
| Routing.SortedRoutes | agent/sandbox.py:605-609 | the published routes are the same mounts, longest key first |
| Routing.RoutePoint | agent/sandbox.py:809-814 | the route point contains the path and is deepest among those that do |
| Routing.ComponentWithinIsPrefix | agent/sandbox.py:112-119 | for every root but "/" the string test is component containment; under "/" it accepts only "/" and paths that begin with two slashes |
| Routing.RoutesIsCovers | agent/sandbox.py:605-609 | a registered route matches exactly the paths its mount covers, except for a mount at "/" |
| Routing.RoutingIsLastMountWins | agent/sandbox.py:605-609 | longest-prefix routing finds the mount applied last over the path if and only if that mount is not at "/" or the path begins with two slashes |
| Routing.RoutePointIsRoute | agent/sandbox.py:809-814 | without a mount at "/", route point, route and last applied mount are the same for every path |
| Hosts.LinkedIsLawful | agent/sandbox.py:273 | a host that resolves paths component by component, ".." and links included, obeys every law that the results below rely on |
| Validation.Validate | agent/sandbox.py:1535-1556 | a configuration passes exactly when it is valid; its stack is then, entry by entry, the workspace, the read-only and the read-write mounts of the user and the skills directory, at distinct destinations and with only the second kind read-only, and meets the assumptions of the write and delete theorems; otherwise the first failing check is reported |
| Validation.CheckMounts | agent/sandbox.py:1580-1601 | the mounts of one kind pass exactly when each may be mounted; otherwise the first refused one is named |
| Validation.ValidIsServed | agent/sandbox.py:1332-1347 | no valid stack has a mount at "/": the workspace would hold the skills directory, and a user mount would conflict with the skills destination |
| Validation.WritesFollowConfig | agent/sandbox.py:264-269 | on the stack of a valid configuration a write is refused as read-only exactly when the mount that owns its location is one of the user's read-only mounts, and is admitted to that owner otherwise |
| Validation.UserMountsKeepOff | agent/sandbox.py:1580-1601 | no mount of the user replaces the workspace, the temporary or the home directory, covers anything at or below the worker's or the skills directory, or lies there; a device node is only mounted read-write and as a device |
| Validation.SkillsAreOutside | agent/sandbox.py:1332-1347 | the skills directory that is mounted is a directory, no link, and outside the workspace |
| Mutation.MoreSpecific | agent/sandbox.py:821-837 | the owner is a nested mount that contains the host path, with no nested mount of a longer source or, for equal sources, a longer destination |
| Mutation.AcceptedIsServed | agent/sandbox.py:253-306 | every accepted stack of proper names without a mount at "/" meets the assumptions of the write and delete theorems |
| Mutation.OwnerIsVisible | agent/sandbox.py:946-954 | the owner is the mount that Bubblewrap shows at the owner's virtual path of the location |
| Mutation.PlanIsSound | agent/sandbox.py:926-957 | a write is admitted exactly when the path is routed, resolves inside its route, and the deepest mount beneath the route that holds the real location (or the route) is read-write; it goes to that mount, and where it lands, or that it is refused there, is said for every case |
| Mutation.WriteLandsIff | agent/sandbox.py:926-957 | an admitted write lands on the judged location exactly when its mount is a file mounted there whose own name is not refused, or a directory whose backend accepts the key |
| LinkedFile.WriteBelowFile | agent/sandbox.py:951-954 | on a valid configuration and a lawful host, whatever names its backends refuse, every path below a link to a mounted file is admitted; the write hits the file for the file's own name unless that is refused, and is refused for any other |
| LinkedFile.WriteThroughLink | agent/sandbox.py:418-421 | on the same configuration a write to the link itself is judged as the mounted file and admitted, and lands there exactly when the file's own name is not refused |
| Deletion.RemovedIsCandidate | agent/sandbox.py:1034-1063 | what the backend removes is the location that was checked |
| Deletion.SameOwner | agent/sandbox.py:1040-1044 | a location that holds no mount source has the owner of its parent directory |
| Deletion.DeleteKeepsMounts | agent/sandbox.py:1013-1063 | an admitted delete leaves every mount source in place, and removes or unlinks only below read-write mounts |
| Deletion.DeleteIsAdmittedIff | agent/sandbox.py:1013-1063 | exactly which deletes unlink, which remove and which are refused, for every path: by the permissions of the route and of the owner of the parent directory, the kind of the candidate, the mount sources it holds and the backend |
| Deletion.IsMountVirtualIff | agent/sandbox.py:816-819 | the string test for a mount's own path is equality of components |
| Deletion.UnfollowedIff | agent/sandbox.py:231-250 | a key has an unfollowed location exactly when its names are safe, the last one is proper, and its parent is located |
| Mirror.ContainsCreatedIsSpine | agent/sandbox.py:1394-1396 | the string test holds exactly for ancestors of, and paths equal to, a created path; for "/" only if "/" itself is created |
| Mirror.MirrorHostDirectory | agent/sandbox.py:1424-1462 | the recursion ends on every tree, symlink cycles included, with the arguments of the specification |
| Mirror.NothingAboveCreated | agent/sandbox.py:1424-1462 | no bind or symlink is placed at or above a created path, and none outside the call's own destination |
| Mirror.ShownExactlyOnce | agent/sandbox.py:1424-1462 | every path is shown by exactly one bind or symlink if it can be reached off the rebuilt spine, and by none otherwise |
| Mirror.ReadablePathsAreShown | agent/sandbox.py:1424-1462 | every readable host path outside /proc and /dev that is not on the spine is shown exactly once |
| Mirror.MirrorIsInPlace | agent/sandbox.py:1424-1462 | on a tree without symlinks along the spine every bind shows a host path at its own place |
| Spine.DirIff | agent/sandbox.py:1424-1462 | exactly which directories one call creates: those it rebuilds on the way down the spine, and the created paths that the host directory above, or the root at the top, does not list |
| Spine.SpineIsCreated | agent/sandbox.py:1424-1462 | a path that the sandbox adds and every directory above it are created when the host directories above it are plainly readable |
| Spine.DirsOnSpine | agent/sandbox.py:1424-1462 | directories are created only on the spine, at or below the destination of the call |
| Output.DropPartialHead | agent/sandbox.py:1653-1662 | the buffer loses exactly its leading continuation bytes |
| Output.OutputCollector.Append | agent/sandbox.py:1704-1736 | truncated iff more than the limit arrived; the tail is a suffix of the output within the limit, all of it before truncation, and a function of the chunks; the log holds everything unless writing failed; the decoder saw exactly the first `limit` bytes |
| Output.OutputCollector.Spill | agent/sandbox.py:1714-1727 | after truncation the log is open with all output so far or has failed for good |
| Output.StepKeepsWindow | agent/sandbox.py:1729-1732 | one chunk takes the tail of the output so far to the tail of the longer output, if and only if the tail had not been emptied in the middle of a character |
| Output.TailIsChunkIndependent | agent/sandbox.py:1704-1736 | the tail depends only on the output, for every way of chunking it, if and only if no run of limit + 1 continuation bytes occurs after the first byte |
| Output.TailIsNearlyFull | agent/sandbox.py:1729-1732 | with runs of at most three continuation bytes the truncated tail is a suffix of limit - 3 to limit bytes that, from a limit of three on, starts a character, for every way of chunking |
| Output.SmallLimit | agent/sandbox.py:1729-1732 | an instance with limit one in which the tail starts inside a character |
| Output.ContinuationIff | agent/sandbox.py:1653-1662 | the bytes that are dropped are those whose two highest bits are 10 |
| Transcript.TranscriptUnitMemo.Kept | agent/cli/rendering.py:176-186 | the units that the bisection keeps, followed by the pass from where they end, are the units of a rebuild |
| Transcript.UnitIsLocal | agent/cli/rendering.py:212-259 | a unit depends only on the block before it, its members and the one block after it |
| Transcript.KeptPrefix | agent/cli/rendering.py:153-192 | the units kept from the previous pass are a prefix of the units of a rebuild |
| Transcript.TranscriptUnitMemo.FirstChanged | agent/cli/rendering.py:139-150 | the first block that is new, changed or still running |
| Transcript.TranscriptUnitMemo.TranscriptUnits | agent/cli/rendering.py:153-192 | after any edits and settings changes the memoised pass returns the units of a rebuild from scratch |
| Transcript.UnitsFrom | agent/cli/rendering.py:195-209 | the greedy pass from an index |
| Grouping.RebuildIff | agent/cli/rendering.py:195-259 | a list of units is the rebuild exactly when it covers the shown blocks in order and every unit fits: messages and summaries are single; a creation or edit group has two members at least and goes on as far as it can; explorations are grouped exactly in a collapsed view; a tool unit starts none of these; the margin and the spinner follow the blocks |
| Grouping.ShownIs | agent/cli/rendering.py:164-170 | what is laid out is every block but the placeholders, in order |
| Document.TranscriptRenderer.RenderUnit | agent/cli/rendering.py:385-424 | a cached or new render shows the unit as it looks now: its blocks at their present revisions, the settings that matter to its kind and the width |
| Document.PrintDetermines | agent/cli/rendering.py:262-345 | units with one key, owner and fingerprint have the same blocks and revisions and are drawn from the same settings |
| Document.TranscriptRenderer.RenderDocument | agent/cli/rendering.py:385-424 | through cache and document reuse the document is that of rendering every unit of a rebuild afresh |
| Document.GetLine | agent/cli/rendering.py:100-104 | the line at an index is that line of the concatenated units, for every valid index |
| Document.StartsAscend | agent/cli/rendering.py:95-104 | every rendered unit has a line, so the starts ascend and the bisection is defined |
| Bridge.ReachableIsSafe | agent/llm_stream.py:149-303 | in every interleaving: data stays in order, slots balance, a done item is last, the life cycle and the cancellation invariant hold, and no consumer is left waiting |
| Bridge.CancelTakesEffect | agent/llm_stream.py:185-198 | once the `cancel` that set the flag has returned, the consumer has stopped or will be stopped by a queued item, and a running request is over, being cancelled or certain to be, unless a source that catches cancellations has swallowed this one |
| Bridge.LaterCancelIsSettledIff | agent/llm_stream.py:185-198 | a `cancel` that finds the flag set can rely on that guarantee exactly when the first one has woken the consumer and found the bridge not running, or is complete and the source lets cancellations through |
| Bridge.SecondCancelMayReturnEarly | agent/llm_stream.py:185-198 | a run in which a second `cancel` finds the flag set while nothing is queued or scheduled yet |
| Bridge.ConsumerSeesPrefix | agent/llm_stream.py:208-229 | what the consumer received is an in-order prefix of the source, all of it on normal return, and at most the limit is ever queued |
| Bridge.NothingAfterSeenCancel | agent/llm_stream.py:208-229 | nothing is handed out any more once the caller abandons the iteration or the consumer takes a further item with the cancel flag set |
| Bridge.ReasonOfLeaving | agent/llm_stream.py:208-229 | why a consumer has stopped, in every interleaving: unless it was abandoned it raised exactly when the request had failed by then and no cancel had come, it was interrupted only after a cancel, and it returned exactly when it had taken the end of the source, with the whole source received |
| Bridge.UndisturbedCompletes | agent/llm_stream.py:149-303 | a request that nobody cancels or abandons and that does not fail returns with the whole source after a bounded number of steps, in every interleaving |
| Bridge.EveryRunEnds | agent/llm_stream.py:149-303 | no interleaving has more than 8 n + 27 steps of all threads together, for n items |
| Bridge.StuckIsDone | agent/llm_stream.py:149-303 | a run that can only go on by a cancel, an abandonment or a failure has served its consumer to the end |
| Bridge.AnythingMayFail | agent/llm_stream.py:185-303 | the model leaves out no failure: starting and every read can fail, a cancellation can come out as any exception, every item can be the last that the caller takes |
| Bridge.NothingLeftRunning | agent/llm_stream.py:200-206 | a consumer that is gone, however it left, leaves no request running that is not cancelled |
| Bridge.FinishedIsNotCancelled | agent/llm_stream.py:200-206 | closing cancels nothing that had finished before the consumer stopped |
| Bridge.NeverDeadlocks | agent/llm_stream.py:208-303 | a consumer that waits on an empty queue always leaves the loop side a step to take |
| Bridge.WaitIsBounded | agent/llm_stream.py:208-303 | in every interleaving the consumer waits on an empty queue through a bounded number of steps, whichever threads take them |
| Generations.EventIsSetIff | agent/control.py:82-135 | over all histories, the event of a generation is set exactly when some cancel selected a generation from which an unbroken chain of begins leads to it, with no end between a begin and the next |
| Generations.ActiveIff | agent/control.py:108-135 | a run is active exactly from its begin to the next end or begin |
| Generations.FreshRunIsClean | agent/control.py:108-135 | after an end, and without a later cancel, no run is cancelled unless its reservation was cancelled before |
| Generations.RetiredForGood | agent/control.py:82-135 | a generation that is neither reserved nor active never runs again |
| Generations.CancelIsIsolated | agent/control.py:233-256 | a cancel that selected the run active at the end found it reserved, or active with nothing reserved |
| Generations.ReleasedNeverRuns | agent/control.py:98-106 | a released reservation never becomes a run |
| Generations.ReservationKeepsCancel | agent/control.py:108-127 | a cancel accepted on a reservation is still set when that run begins |
| Interrupts.ReachableIsSound | agent/control.py:82-135 | what holds of generations, streams, graphs and tools and of who is told, in every interleaving of the parts under the lock and the notices after it |
| Interrupts.RunIsInterrupted | agent/control.py:233-275 | in every interleaving the graph and every stream of a cancelled active run is told or about to be; a graph is told only if its event is set |
| Interrupts.UntoldIffMissed | agent/control.py:319-332 | a registered tool of a cancelled active run is neither told nor about to be exactly when its check saw no cancel, its run was cancelled at its registration, and no cancel took stock after that |
| Interrupts.OwnRunStops | agent/cancel.py:25-27 | told or not, a tool sees the cancel of the active run through its event if no run began or ended since it read the scope |
| Interrupts.UntoldTool | agent/control.py:319-332 | a run in which the cancel falls between check and registration: the tool is never told, and its event stops it |
| Interrupts.OutlivingTool | agent/control.py:319-332 | a run in which a tool that opened across a change of runs is stopped by nothing |
| Interrupts.CancelOfReservation | agent/control.py:239-256 | a cancel that selects a reservation leaves the active run uncancelled, and takes stock of exactly the tools and children, if the reservation was not cancelled before |
| Interrupts.ReservationStopsTool | agent/control.py:239-264 | a run in which the cancel of a reservation is about to stop a tool of the active run |
| Interrupts.CancelIsSeenIff | agent/control.py:147-154 | after a cancel the controller reports one exactly unless it went to a reservation beside an active run that is not cancelled |
| Membership.LedgerFollows | agent/control.py:82-135 | in every interleaving the generations and events are those of the history of reservations, begins, ends and cancels |
| Membership.ToolsIff | agent/control.py:108-135 | a tool is registered from its opening until it is closed or a run begins or ends |
| Membership.ChildrenIff | agent/control.py:63-71 | a child is registered from its coming until its going |
| Membership.StreamsIff | agent/control.py:267-275 | a stream is one of the active run exactly when it joined while that run was active and not cancelled, and has not left |
| Membership.NoticedIff | agent/control.py:233-265 | exactly who is told, or will be once the pending notices are delivered |
| Membership.Delivered | agent/control.py:257-264 | a notice stays pending until it is delivered, and is delivered for good |
| Membership.UntoldChild | agent/control.py:63-67 | a run in which a child of a cancelled active run is never told |
| Control.RunController.ReserveRun | agent/control.py:82-91 | the step of the protocol, with the generation reserved |
| Control.RunController.ReleaseReservation | agent/control.py:98-106 | the step of the protocol: only the given reservation is dropped |
| Control.RunController.BeginRun | agent/control.py:108-127 | the step of the protocol: the reservation is consumed, an un-ended cancelled predecessor is inherited, and a graph that begins cancelled is owed a notice |
| Control.RunController.EndRun | agent/control.py:129-135 | the step of the protocol: the run is over, its streams and tools are dropped |
| Control.RunController.Cancel | agent/control.py:239-256 | the part under the lock: it clears the pause and, the first time, sets the event of the selected run and takes stock of its streams and graph and of every tool and child; nobody is told yet |
| Control.RunController.RegisterChild | agent/control.py:63-67 | a child that joins after the cancel is told within the same step |
| Control.RunController.RegisterModelStream | agent/control.py:267-275 | accepted exactly when a run is active and not cancelled |
| Control.RunController.ReadScope | agent/control.py:320-322 | first part of opening a tool: it carries the event of the current scope |
| Control.RunController.CheckCancelled | agent/control.py:328-329 | second part: the tool is told at once exactly when the current scope is cancelled by then |
| Control.RunController.RegisterTool | agent/control.py:311-313 | third part: the tool joins those that a cancel takes stock of |
| Control.RunController.UnregisterTool | agent/control.py:315-317 | closing: the tool leaves them again |
| Control.MergedIsSorted | agent/control.py:225-231 | merging the two queues gives submission order |
| Control.InputQueues.Submit | agent/control.py:177-189 | the message joins the queue of its mode with the next order number |
| Control.InputQueues.PopSteering | agent/control.py:191-202 | takes the oldest steering message exactly when steering is not deferred, nothing is cancelled and no follow-up is older |
| Control.InputQueues.PopFollowUp | agent/control.py:217-223 | takes the oldest follow-up |
| Control.InputQueues.TakeUnapplied | agent/control.py:225-231 | hands back exactly the queued messages in submission order; every submitted message is queued, applied or reclaimed, never two of them |
| Control.InputQueues.DrainBoundary | agent/runner.py:1403-1408 | with nothing cancelled or submitted meanwhile the run boundary consumes exactly the pending messages in submission order, or the follow-ups when steering is deferred; what it consumed is in order |
| Leases.ReachableIsSound | agent/session_runtime.py:79-207 | the lease invariant holds in every interleaving of any number of runners |
| Leases.LeasesAreExclusive | agent/session_lock.py:84-129 | no lock has two unreleased leases, and a lease is unreleased exactly while one runner holds it; between operations a runner holds at most its adopted lease |
| Leases.RunnersAreConsistent | agent/session_runtime.py:79-207 | a held lease names the current thread, a pending switch means no lease, a draft is the current thread, and a persisted thread that is no draft is held by its file lock |
| Leases.AtMostOneWriter | agent/runner.py:320-328 | of the runners that share storage at most one may write a thread |
| Leases.TryLockKeeps | agent/session_lock.py:84-100 | acquiring a free lock keeps the lock table exact and leaves one lease to be adopted |
| Leases.UnlockKeeps | agent/session_lock.py:53-61 | releasing a lease keeps the lock table exact and leaks nothing, also when it was released before |
| Leases.WaitAcquireKeeps | agent/runner.py:831-861 | completing a switch keeps the invariant when it proceeds, when it is cancelled after the lock was won and when the session is gone |
| Leases.CreateKeeps | agent/session_runtime.py:169-190 | creating a session, persisted or as a draft, keeps the invariant |
| Leases.CommitPersistKeeps | agent/session_runtime.py:192-207 | promoting a draft swaps its lease for the file lock and keeps the invariant |
| LeaseEffects.StepsTakeEffect | agent/session_runtime.py:79-207 | in every reachable world each operation achieves what it is for, and touches no other runner: a committed switch is on its target under an unreleased lease with the previous one released; a promotion holds the file lock of the same thread, now listed; a new session is on a fresh thread; a switch or wait acquires its target exactly when that is free; an abort releases what it acquired and stays |
| LeaseEffects.SwitchSucceeds | agent/runner.py:863-955 | a switch to a listed thread whose lock is free, or to the own thread, can be committed and puts the runner on it |
| LeaseEffects.WaitSucceeds | agent/runner.py:831-861 | so does the second phase once the awaited lock is free |
| LeaseEffects.PromotionSucceeds | agent/session_runtime.py:192-207 | a draft whose file lock is free can be promoted, and its thread may be written then |
| LeaseEffects.CreationSucceeds | agent/session_runtime.py:169-190 | a new session can always be had: a fresh identifier is never locked |
| LeaseEffects.AbortSucceeds | agent/session_runtime.py:192-207 | an operation that waits for its commit can always be given up, and the runner stays where it was |
| RuntimeConfig.ProfileFound | agent/config.py:245-258 | a key finds the profile it names, or else the only one it is a prefix of; it finds none when it is empty, matches nothing or is ambiguous |
| RuntimeConfig.RestorePlan | agent/session_runtime.py:231-256 | a restored plan is legal here: Allow only in the sandbox, a configured model, and the saved effort only if that model lists it |
| RuntimeConfig.RestoreKeeps | agent/session_runtime.py:231-256 | a restored plan keeps the saved permission, model and effort wherever they can be had |
| RuntimeConfig.RunnerConfig.SavedIsRestored | agent/session_runtime.py:231-256 | a session that is saved and restored here keeps its configuration |
| RuntimeConfig.RunnerConfig.RequestModelChange | agent/runner.py:396-416 | accepted exactly when the key names one profile that lists the effort asked for; changes only what is pending |
| RuntimeConfig.RunnerConfig.RequestPermissionChange | agent/runner.py:418-432 | accepted exactly when Allow is not asked for outside the sandbox; changes only what is pending |
| RuntimeConfig.RunnerConfig.RequestIsHonoured | agent/runner.py:396-416 | what an accepted request leaves pending resolves to the requested model and to the requested effort, or without one to the present effort for the present model and the default for another |
| RuntimeConfig.RunnerConfig.PermissionIsHonoured | agent/runner.py:418-432 | so does an accepted permission request; what is not queued stays |
| RuntimeConfig.RunnerConfig.UnavailableIsDropped | agent/runner.py:467-487 | queued changes that cannot be had are dropped or replaced by the default, one by one |
| RuntimeConfig.RunnerConfig.WantedIsLegal | agent/runner.py:467-487 | whatever is queued, it resolves to a permission, a model and an effort that are allowed here |
| RuntimeConfig.RunnerConfig.ApplyPending | agent/runner.py:459-550 | the agent and the recorded model, effort and permission move together to what the queue resolves to, or stay on any failure |
| RuntimeConfig.RunnerConfig.ApplyPlan | agent/runner.py:967-985 | a restore plan takes effect as a whole, or nothing recorded changes |
| RuntimeConfig.RunnerConfig.Switch | agent/runner.py:884-955 | a switch installs the restore plan of the target and its queued changes, less those that are unavailable here, or rolls the configuration back entirely |
| RuntimeConfig.RunnerConfig.UnavailableIff | agent/runner.py:937-944 | a queued model is unavailable exactly when it is the id of no profile and not the prefix of exactly one |
| Performance.UnionTicks | agent/performance.py:157-170 | the sweep is the number of ticks covered by at least one interval |
| Performance.SameCoverage | agent/performance.py:157-170 | only the set of intervals matters, not their order or repetition |
| Performance.UnionAtMostSum | agent/performance.py:157-170 | the union is at most the sum of the lengths |
| Performance.UnionWithinSpan | agent/performance.py:157-170 | the union is at most an enclosing span |
| Performance.AddSpanAdds | agent/performance.py:217-221 | a recorded tool call adds one call and its ticks to the totals, whatever its name |
| Performance.AddSpanFiles | agent/performance.py:217-221 | and files its ticks under its own name |
| Performance.RecordedIsSound | agent/performance.py:200-227 | over every event: what is recorded lies between the start of the run and now, model calls do not overlap, and the two tables of tool calls agree in number and total |
| RunHistory.OpenIff | agent/performance.py:217-221 | a call is open exactly when it was reported as started and neither its completion nor a new run came after that |
| RunHistory.CompletedCall | agent/performance.py:217-221 | a completed call covers the time from its first report to now under the reported name, or no time if it was never reported |
| RunHistory.CompletedModelCall | agent/performance.py:206-211 | a completed model call covers the time from the last report of its start |
| RunHistory.StartForgets | agent/performance.py:203-205 | the start of a run forgets everything before it |
| RunHistory.RunSpans | agent/performance.py:203-225 | over the events of one run: its start and its last end |
| RunHistory.RunAddsUp | agent/performance.py:212-216 | and the sums of its tokens and its times to the first token |
| Performance.RunMetrics.OnEvent | agent/performance.py:200-227 | the fields change as the event says, and stay sound |
| Performance.RunMetrics.Summarize | agent/performance.py:229-243 | tool and model time are the ticks covered by some call, tool time is at most the total by name, neither exceeds the wall time, and the three parts add up to it exactly when the first two leave room |
| Think.FindShift | agent/stream.py:34-49 | searching from a cursor is searching the rest of the text |
| Think.SplitThink | agent/stream.py:34-49 | the cursor loop computes the recursive specification of both halves |
| Think.KeptGrows | agent/stream.py:52-58 | more text never takes back what was kept before a partial tag |
| Think.StraddleIsCut | agent/stream.py:52-58 | a tag that straddles the end of what has arrived is exactly what is held back |
| Think.ReasoningGrows | agent/stream.py:34-58 | the reasoning half of a prefix is a prefix of the reasoning half of the whole |
| Think.VisibleGrowsIff | agent/stream.py:34-58 | the visible half never shrinks, whatever follows, if and only if the text does not end outside the tags in a partial opening tag behind another partial tag |
| Think.VisibleCanShrink | agent/stream.py:34-58 | an instance in which it shrinks |
| Attachments.FindStorageKeys | agent/attachments.py:138-165 | ends on cyclic data; finds only keys of valid references reachable without passing through one, and all of them when at most one model is dumped, or all reachable containers happen to have addresses of their own |
| Attachments.PathIff | agent/attachments.py:138-165 | the search leads from containers to what is directly inside them, and never through a valid reference |
| Attachments.ExactIffOneDump | agent/attachments.py:138-165 | wherever the interpreter places the objects, the search is exact on all data in which it dumps at most n models, if and only if n is at most one |
| Attachments.OneDumpIsDistinct | agent/attachments.py:138-165 | with at most one dumped model no two containers that the search reaches share an address |
| Attachments.ReusedDump | agent/attachments.py:138-165 | a possible instance with two dumped models in which a reference is missed |
| Attachments.AttachmentStore.Cleanup | agent/attachments.py:246-279 | skipped exactly when the lock is held; otherwise removes exactly the attachments that are neither live nor protected, the counts add up and the freed bytes are those gone from the directory; the own lease is restored |
| Attachments.AttachmentStore.DeleteUnreferenced | agent/attachments.py:262-276 | the deletion loop, against the same specification |
| Attachments.StorageKeyIff | agent/attachments.py:22 | an attachment is named by 64 hexadecimal digits, a dot and one of five suffixes |
| Attachments.AttachmentStorageKeys | agent/session.py:210-216 | the union over every retained checkpoint and pending write |
| Attachments.CleanupAttachments | agent/session.py:218-229 | no protected file is removed, none that is referenced from data on which the search is reliable, and no other attachment is kept |
| Framing.FeedMore | agent/llm.py:49-58 | splitting the kept rest with new data continues the split of everything so far |
| Framing.JoinOfLines | agent/llm.py:49-58 | lines and rest make up the stream again |
| Framing.LinesOfJoin | agent/sandbox_pool.py:237-238 | the split of joined unbroken lines gives them back |
| Framing.Track | agent/llm.py:49-58 | the end marker is seen exactly when some complete line of the stream carries it, however it was chunked, and the chunks pass unchanged |
| Framing.SpacedMarkerIff | agent/llm.py:49-58 | one byte between the colon and the marker is passed over exactly when it is white space |
| Framing.BreaksAre | agent/llm.py:64-75 | a response that is read at once is cut at line feeds and at carriage returns, which take a line feed behind them along |
| Framing.BufferedSearch | agent/llm.py:64-75 | the search in a buffered response finds the marker exactly when a piece between carriage returns, of a complete line or of the unfinished last one, carries it |
| Framing.MarkingLinePieces | agent/llm.py:64-75 | a line that carries the marker has a piece that does exactly when no carriage return stands between its colon and the marker |
| Framing.OtherLinePieces | agent/llm.py:64-75 | any other line has such a piece exactly when that piece stands behind a carriage return or is followed by a piece that is not blank |
| Framing.AgreeIff | agent/llm.py:49-75 | for every response: only the streaming search finds the marker exactly when some complete line carries it, all that do are divided by carriage returns and no line buries one; only the other search finds it exactly when no complete line carries it but one buries it, or the unfinished last line carries it undivided or buries it; otherwise they agree |
| Framing.AgreeOnLineFeeds | agent/llm.py:49-75 | without bare carriage returns they agree unless the unfinished last line is the only marker |
| Framing.UnfinishedMarker | agent/llm.py:49-75 | a marker in an unfinished last line is found only in the buffered response |
| Framing.MarkerBeforeReturn | agent/llm.py:49-75 | a marker that a bare carriage return separates from more text is found only in the buffered response |
| Framing.MarkerAcrossReturn | agent/llm.py:49-75 | a marker that a bare carriage return divides is found only while streaming |
| Worker.WorkerHearsHost | agent/sandbox_pool.py:237-248 | whatever part of the host's bytes has arrived, the worker has decoded its first messages in order, and all of them in the end |
| Worker.Worker.Turn | agent/sandbox_worker.py:202-230 | one read handles exactly the messages of the complete lines received so far, and stops at the end of input or at the first malformed line |
| Worker.Worker.Dispatch | agent/sandbox_worker.py:219-230 | one message starts its thread or asks for its kill |
| Worker.Worker.KillRequest | agent/sandbox_worker.py:164-170 | a running command is signalled, any other is remembered |
| Worker.Worker.Register | agent/sandbox_worker.py:122-126 | a command whose kill came before its process is signalled as it is registered; no kill is lost and nobody else is signalled |
| Worker.Worker.Finish | agent/sandbox_worker.py:159-160 | the command leaves the table |
| Worker.Worker.Stop | agent/sandbox_worker.py:173-177 | every running command is signalled |

## Left out

- Validation.Validate: restricted mode only; the checks of full-access mode and of environment names are left out, the skills directory is taken to exist by then, and a destination that begins with exactly two slashes, which `pathlib` keeps apart, is not modelled.
- Think.SplitThink: lower-casing is a function on single characters, so characters whose lower case has another length are not modelled.
- RuntimeConfig.ProfileFound: the key is taken as already stripped of white space.
- Performance.UnionTicks: times are integer ticks; rounding of floating-point seconds is not modelled.
- Performance.RunMetrics.Summarize: the names of tools come in the order of their first call, not sorted.
- Attachments.FindStorageKeys: whether a mapping spells a valid reference is part of the data; every object that can be dumped is taken to have a `__dict__`, and dumping it gives one fixed result; which objects can share an address is over-approximated, so `Attachments.Possible` allows two dumps that are alive together to do so.
- Attachments.AttachmentStore.Cleanup: one process with a fixed directory; what other processes do between the search and the deletion is not modelled.
- Worker.Worker.Turn: a message lacking a field of its own operation, which ends the worker with an error, is not told apart from the operation it names.
- Worker.Worker.Register: request identifiers are taken to be unique, which the host's counter provides.
- Bridge.ReachableIsSafe: the event loop is taken to be alive; the branch for a loop that is already gone is not modelled; waits are counted in steps, not in time.
- Control.RunController.Cancel: what a stream, tool, child or graph does when told, the order of the notices of one cancel, the emitted event and the index of streams by scope are not modelled; every tool context is taken to have a call id of its own.
- Leases.ReachableIsSound: a runner without any checkpointer, interpreter exit and failures inside a rollback are not modelled; a database is an owner table of locks.
- Document.TranscriptRenderer.RenderDocument: rendering is taken to be a function of what `Document.Look` holds and the width, the summary of a turn never to change, and a block with the same identity and revision to have the same classification.
- Transcript.TranscriptUnitMemo.TranscriptUnits: the classification of a block (its tool, paths and role) is a parameter.
- Mirror.MirrorHostDirectory: the tree does not change during the mirror; arguments are compared as component lists; a loop of links along the spine, on which resolving can raise an error that is not caught, is not modelled.
- Attachments.ExactIffOneDump: bounds the number of dumps; for one given piece of data it does not say at which placements the search is exact.
- Protected and hidden paths of full-access mode, the outside-workspace backend, uploads, reading and searching through routes.
- Backends, rendering widgets, the event loop, the model client, the graph library and the database themselves.
- The sandbox pool's reuse of sandboxes, start-up and idle timeouts, and the host's reader of worker output.
- Image detection, storing and reading attachments, and parsing of attachment references.
- The summary tables of model metrics and the retry delays of interrupted streams.
- Configuration files, user interface, prompts, previews and the MCP client.
