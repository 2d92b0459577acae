# Verified model of the nrz monorepo tool's hard core

This project models, in Dafny 4.11, the parts of the repository whose correctness is hardest to see from the
code, and proves what they are for. Nothing is executed: every statement below is a theorem about all inputs, all
interleavings or all runs of the model. `dafny verify dfyconfig.toml` checks the whole project.

**File-hash watcher** (`Debouncer`, `HashState`, `HashWatcher`, `HashSafety`, `HashReports`, `HashFreshness`,
`HashSubscriber`, `PackagePaths`). An event loop keeps a table of file hashes per package and input set. Hashes are
computed by spawned tasks, each behind its own debouncer; completions carry a version stamp and are ignored when the
entry has moved on. The model is a transition system in which the loop, every task, the bounded channel, clients,
discovery and the file watcher interleave freely. A task's read of the repository is stamped with the logical time at
which it began, so freshness is a statement about times. Safety (fresh answers, no lost client, tracked packages) and
termination (the system settles, and rests only when everybody is answered) are proved over every run. What the table
holds and what clients are told is also given by the run's events alone: which read of which spec ended how, which
file names concern which spec, who asked when. The object with its mutable fields carries the system as a ghost field:
every handler is proved to be one step of it and to keep its invariant, so the theorems about runs are theorems about
the object.

**Cookies and glob tracker** (`Cookies`, `Globs`, `GlobTracker`, `CookiedGlobs`, `CookiedHistory`, `GlobEvents`).
Queries are ordered after file events by cookie files. The tracker's two cross-indexed maps are proved equal to a
definition by history, for every history; the end-to-end system (clients, cookie writer, event stream, lag, errors,
priority queue, tracker) is proved to answer every query it handles, in order, and never to call a glob unchanged that
changed before the request's cookie.

**Graph utilities** (`Digraph`, `Walker`, `CycleDetector`, `GraphValidation`). The concurrent walker is a protocol of
one task per node; safety, the effect of cancellation, completeness and finiteness hold for every interleaving. The
cycle detector is the in-place depth-first search, and the cut search returns all minimum cuts and nothing else.

**JSONC rewriting** (`Jsonc`, `SetPath`, `UnsetText`, `UnsetPath`, `UnsetReading`). Documents are trees that keep
their whitespace and comments, so printing gives back the text and the ranges of all nodes. Splicing the text is proved
to be printing the rewritten tree, and the rewritten tree is proved to mean what setting or removing the path should mean. For removal it
is also proved exactly which outputs can be read at all, for every scanner that finds the same pieces in a text however
the text goes on.

**Package watcher** (`PackageWatcher`, `PackageSafety`, `PackageReports`, `PackageSubscriber`). Discoveries run beside
the loop that holds and publishes the workspaces. What is held is given by the events of the run alone: what the
accepted discovery reported, patched with the disk's last answer about every directory that was named since.

**Import tracer** (`Tracing`), **upload progress** (`UploadProgress`), **glob base paths** (`CollapsePath`) and
**asynchronous cache** (`AsyncCache`).

How the outside world appears: time is a strictly increasing logical clock handed to every step; glob matching is a
parameter `matcher(glob, path)`; iteration orders of hash sets are parameters constrained to list the set; the disk's
answers, parsing and import resolution, the discovery result and the Tarjan components are parameters; channels are
sequences with their capacities. Integers are unbounded.

## Where the code and its description differ

The model follows the code. Each difference is proved, with a concrete input and with the exact condition; for the
depth limit of the tracer, two sufficient conditions stand in place of an exact one.

- `set_path` is documented to synthesize missing members (crates/nrzrepo-lib/src/rewrite_json.rs:29-41). When the path
  stops inside a nested object the code replaces that object whole, so its other members are lost: `KeepsSiblingsIff`,
  `ClobberExample`. With a root that is not an object, the member is spliced behind the root's first character.
- `unset_path` leaves a stray comma when an object on the path starts with two matching members followed by another
  one, or loses all its members but has a trailing comma. Exactly then the output is the text of no well-formed value:
  `CutTextIsRightIff`, `ReadableIff`, `StrayCommaExample`.
- `Walker::cancel` is documented to stop new nodes (crates/nrzrepo-graph-utils/src/walker.rs:158-160). A further node can
  still be emitted, exactly if the receiver is open and some task is about to emit, or is in the middle of a poll with
  all its dependencies emitted: `OvertakenIff`, `CancelCanBeOvertaken`.
- A file event with several paths stops at the first new cookie or at a path outside the repository, so later changes
  in it are lost (crates/nrzrepo-filewatch/src/globwatcher.rs:409-413): `AllChangesAppliedIff`,
  `ChangeAfterCookieIsLost`.
- A hash registered again without a glob that is still unchanged for it leaves a reference from that glob to the hash.
  The tracker can then meet a hash it does not track, which is meant never to happen
  (crates/nrzrepo-filewatch/src/globwatcher.rs:452-462): `NeverDanglesIff`, `UntrackedHashIsMet`.
- The trie lookup takes the longest string prefix. With one package nested in another, a file of the outer one whose
  path merely continues the inner one's name is found in no package: `LookupIsRightIffFlat`.
- A `nrz.json` that appears in a known workspace, or goes from it, is recorded but not published:
  `PublishedIsHeldIff`, `NrzJsonIsNotRepublished`.
- `average_bps` is documented to cover the last `BUCKETS` intervals
  (crates/nrzrepo-cache/src/upload_progress.rs:142-144). It also counts the interval before them as long as its bucket
  has not been reused: `WindowIsRightIff`, `LeftoverExample`.
- `collapse_path` turns an absolute path that collapses to the root into the empty string, and can move an empty segment
  to the front: `CollapsedReadsIff`, `UnreadableExamples`.
- `trace` with a depth limit can drop files within the limit: `LimitMayCutTooEarly`. It drops none if each file is the
  same number of imports away on every way to it, or if the limit is at least the number of files less one:
  `Tracer.Trace`.
- `AsyncCache::wait` comes back successfully although earlier writes are running, exactly if its request is dropped
  behind a shutdown while a write is running: `AnswersAreHonestIff`, `BehindShutdownIff`, `FlushMayReturnEarly`.

## Model

| member | source | states |
|---|---|---|
| Debouncing.BumpKeepsValid | crates/nrzrepo-filewatch/src/debouncer.rs:41-51 | a bump keeps the debouncer's invariant, is recorded with its time exactly if it is accepted, and then wakes a waiting `debounce` |
| Debouncing.TurnKeepsValid | crates/nrzrepo-filewatch/src/debouncer.rs:53-94 | every turn of `debounce`, whichever ready select branch it takes, keeps the invariant |
| Debouncing.QuietPeriod | crates/nrzrepo-filewatch/src/debouncer.rs:41-95 | in every interleaving of bumps and turns, `debounce` returns no earlier than one timeout after its first turn and after every bump that came before its return, bumps are refused exactly once it has returned, and no turn finds the serial missing |
| Debouncing.TurnMakesProgress | crates/nrzrepo-filewatch/src/debouncer.rs:53-94 | between bumps `debounce` can always take another turn later on, and each turn lowers a rank of at most 18 |
| Debouncing.Debouncer.Debounce | crates/nrzrepo-filewatch/src/debouncer.rs:53-94 | the loop, with bumps squeezed in anywhere, is one of the interleavings; it returns only after a quiet timeout, takes the serial away exactly then, and does return if nobody bumps |
| PackagePaths.ContainsAsStrings | crates/nrzrepo-filewatch/src/hash_watcher.rs:233-256 | containment by components is, on strings, equality up to a slash; the root contains everything |
| PackagePaths.LookupIsSound | crates/nrzrepo-filewatch/src/hash_watcher.rs:233-256 | a package that is found is tracked and contains the file by components |
| PackagePaths.FlatLookupAgrees | crates/nrzrepo-filewatch/src/hash_watcher.rs:233-256 | without nested packages the trie lookup finds what a scan of all packages finds |
| PackagePaths.LookupIsRightIffFlat | crates/nrzrepo-filewatch/src/hash_watcher.rs:233-256 | lookup and scan agree for all files exactly if no package is nested in another |
| HashSafety.QueueKeeps | crates/nrzrepo-filewatch/src/hash_watcher.rs:516-563 | queueing a computation for a spec keeps the four-part invariant and the spec's waiting list |
| HashSafety.BumpKeeps | crates/nrzrepo-filewatch/src/hash_watcher.rs:609-613 | a successful bump on a file event keeps it: the read has not begun, so it will see the change |
| HashSafety.TouchKeeps | crates/nrzrepo-filewatch/src/hash_watcher.rs:565-631 | a changed spec, in whatever state it is, keeps the invariant with the change recorded |
| HashSafety.DropKeeps | crates/nrzrepo-filewatch/src/hash_watcher.rs:201-231 | dropping packages answers their waiters and loses nobody else |
| HashSafety.QueryKeeps | crates/nrzrepo-filewatch/src/hash_watcher.rs:430-478 | every branch of a query keeps the invariant with the new client recorded |
| HashSafety.DeliverKeeps | crates/nrzrepo-filewatch/src/hash_watcher.rs:480-514 | handling an update, current or stale, keeps the invariant |
| HashSafety.RunKeeps | crates/nrzrepo-filewatch/src/hash_watcher.rs:337-412 | the invariant and the tracked set hold after every run |
| HashSafety.TableIsFresh | crates/nrzrepo-filewatch/src/hash_watcher.rs:480-631 | in every run, hashes in the table come from a read of that very spec that began after the last processed file event touching it and after the last loss of events |
| HashSafety.AnswersAreFresh | crates/nrzrepo-filewatch/src/hash_watcher.rs:430-514 | at every step of every run, given answers stay, and a client that gets hashes gets fresh ones of the spec it asked for |
| HashSafety.NoClientIsLost | crates/nrzrepo-filewatch/src/hash_watcher.rs:430-514 | in every run each client is answered or waits in exactly one list, for its spec, behind one computation under way or exactly one update in the channel |
| HashSafety.PackagesTracked | crates/nrzrepo-filewatch/src/hash_watcher.rs:633-679 | after a discovery update exactly its packages are tracked, each with its default inputs |
| HashSafety.UnknownPackageIff | crates/nrzrepo-filewatch/src/hash_watcher.rs:430-478 | in every run a query is answered "unknown package" exactly if it is package-local and its package is not in the last discovery |
| HashSafety.TouchedSpecsAreFound | crates/nrzrepo-filewatch/src/hash_watcher.rs:600-608 | while a file event is handled every spec it names has an entry, so the branch for missing entries is dead |
| HashSafety.InternalStepCosts | crates/nrzrepo-filewatch/src/hash_watcher.rs:516-563 | every internal step lowers the budget |
| HashSafety.Settles | crates/nrzrepo-filewatch/src/hash_watcher.rs:337-412 | after any run, no sequence of internal steps is longer than the budget |
| HashSafety.RestMeansAnswered | crates/nrzrepo-filewatch/src/hash_watcher.rs:337-412 | with at least one permit, a run that has come to rest has answered every client |
| HashSafety.ClosedMeansAnswered | crates/nrzrepo-filewatch/src/hash_watcher.rs:386-390 | once the loop has ended, nobody waits |
| HashReports.QueryAnswers | crates/nrzrepo-filewatch/src/hash_watcher.rs:430-478 | in the step of a query, the client is turned away if a glob starts with ../ or the package was not discovered, told the hashes or the error the table holds, or waits: last in the list of the computation under way, or for a new one without delay; nothing else changes |
| HashReports.DeliveryReports | crates/nrzrepo-filewatch/src/hash_watcher.rs:480-514 | when the update a spec waits for is delivered in a run, its read has ended; without a failure the hashes of that read are in the table and every waiter has them, otherwise the failure is and every waiter is told it; nothing else changes |
| HashReports.OutdatedUpdate | crates/nrzrepo-filewatch/src/hash_watcher.rs:488-496 | an update for a version nobody waits for changes nothing |
| HashReports.DiscoveryStep | crates/nrzrepo-filewatch/src/hash_watcher.rs:633-679 | a discovery leaves kept packages as they are, starts the default inputs of new ones after a quiet period, forgets the others and tells exactly those who waited for them why |
| HashReports.LossStep | crates/nrzrepo-filewatch/src/hash_watcher.rs:414-428 | a loss of events starts the default inputs of every package anew, forgets the rest and tells everybody who waited |
| HashReports.CloseStep | crates/nrzrepo-filewatch/src/hash_watcher.rs:386-390 | at the end the table is empty and everybody who waited is told |
| HashReports.FileStep | crates/nrzrepo-filewatch/src/hash_watcher.rs:598-631 | a file event puts off the computation a touched spec waits for if it has not started, hands its waiters to a new one otherwise, leaves every other spec alone and answers nobody |
| HashReports.TableIsTrue | crates/nrzrepo-filewatch/src/hash_watcher.rs:480-563 | in every run, hashes in the table are those of a read of that very spec that ended without a failure, and an error in the table is one such a read ended with |
| HashReports.AnswersAreTrue | crates/nrzrepo-filewatch/src/hash_watcher.rs:430-514 | and the same goes for every answer a client was given about the spec it asked for |
| HashReports.DiscoveredAreTracked | crates/nrzrepo-filewatch/src/hash_watcher.rs:633-679 | in every run exactly the packages of the last discovery value are tracked, each with its default inputs; none if that was an error |
| HashReports.ReadsAreBounded | crates/nrzrepo-filewatch/src/hash_watcher.rs:535-556 | in every run no more computations are between acquiring and sending than there are permits |
| HashFreshness.ChangedIff | crates/nrzrepo-filewatch/src/hash_watcher.rs:233-283 | a change touches exactly the tracked specs whose package path it is or lies below, for specific inputs only if some include and no exclude matches the path from there, unless a longer tracked path is a string prefix of the file |
| HashFreshness.TouchedIff | crates/nrzrepo-filewatch/src/hash_watcher.rs:565-597 | so the specs a file event touches are exactly those that one of its files concerns |
| HashFreshness.FlatTouches | crates/nrzrepo-filewatch/src/hash_watcher.rs:233-283 | with flat packages the exception never applies |
| HashFreshness.StepReads | crates/nrzrepo-filewatch/src/hash_watcher.rs:337-412 | after any step, the read behind an entry was there before and the step neither touched the spec nor lost events, or it began with the step |
| HashFreshness.ReadsAreFresh | crates/nrzrepo-filewatch/src/hash_watcher.rs:480-631 | in every run with flat packages, a read behind an entry began after every loss of events and after every processed file event with a file that is or lies below the package and, for specific inputs, is selected by the globs, whether the spec was tracked then or not |
| HashFreshness.HashesAreFresh | crates/nrzrepo-filewatch/src/hash_watcher.rs:480-631 | so the hashes in the table are newer than every such event |
| HashFreshness.AnswersAreNewer | crates/nrzrepo-filewatch/src/hash_watcher.rs:430-514 | and so are the hashes a client is told |
| HashFreshness.HashesAreQuiet | crates/nrzrepo-filewatch/src/hash_watcher.rs:516-563 | default hashes in the table were read a whole quiet period after every such event |
| HashSubscriber.GetAncestor | crates/nrzrepo-filewatch/src/hash_watcher.rs:233-256 | the scan returns the longest key that is a string prefix of the file, if there is one |
| HashSubscriber.Subscriber.HandleQueryNow | crates/nrzrepo-filewatch/src/hash_watcher.rs:430-478 | the in-place branches are the query step of the system and keep its invariant |
| HashSubscriber.Subscriber.HandleHashUpdate | crates/nrzrepo-filewatch/src/hash_watcher.rs:480-514 | receiving the oldest update, with the loop over its waiters, is a step of the system and keeps its invariant |
| HashSubscriber.Subscriber.GetChangedSpecs | crates/nrzrepo-filewatch/src/hash_watcher.rs:233-283 | looking up the ancestor and checking components gives exactly the changed specs |
| HashSubscriber.Subscriber.HandleFileEvent | crates/nrzrepo-filewatch/src/hash_watcher.rs:565-631 | collecting specs over all files and touching them in some order is a step of the system and keeps its invariant |
| HashSubscriber.Subscriber.DropMatching | crates/nrzrepo-filewatch/src/hash_watcher.rs:201-231 | the loop keeps exactly the specs of kept packages and answers all waiters of the others |
| HashSubscriber.Subscriber.HandlePackageDataUpdate | crates/nrzrepo-filewatch/src/hash_watcher.rs:633-679 | dropping and adding packages in some order is a step of the system and keeps its invariant |
| HashSubscriber.Subscriber.Flush | crates/nrzrepo-filewatch/src/hash_watcher.rs:414-428 | dropping everything and adding all packages anew is a step of the system and keeps its invariant |
| HashSubscriber.Subscriber.Close | crates/nrzrepo-filewatch/src/hash_watcher.rs:386-390 | when the file watcher is gone the table is empty and everybody who ever asked is answered |
| Cookies.ReleaseIsDetermined | crates/nrzrepo-filewatch/src/cookies.rs:152-175 | what a cookie releases, and what it leaves, is determined by the state before |
| Cookies.CookieWatcher.CheckRequest | crates/nrzrepo-filewatch/src/cookies.rs:137-150 | a request goes through exactly if its cookie has been seen, otherwise it is kept |
| Cookies.CookieWatcher.PopReadyRequests | crates/nrzrepo-filewatch/src/cookies.rs:152-175 | the loop over the queue releases exactly the requests due, in ascending order of serials, and keeps the rest |
| GlobTracker.HistoryIsFaithful | crates/nrzrepo-filewatch/src/globwatcher.rs:345-480 | for every history the two maps hold exactly the globs that are registered and unchanged since, and the excludes of the current registration |
| GlobTracker.QueryMeansHistory | crates/nrzrepo-filewatch/src/globwatcher.rs:369-388 | after any history a query returns exactly the candidates that are not unchanged since their registration |
| GlobTracker.NeverDanglesIff | crates/nrzrepo-filewatch/src/globwatcher.rs:345-480 | for every history, no glob ever refers to a hash that is not tracked or no longer has it, exactly if every registration covers the globs still unchanged for its hash |
| GlobTracker.SameGlobsMeansNoDangling | crates/nrzrepo-filewatch/src/globwatcher.rs:442-480 | if a hash is always registered with the same globs, no glob refers to a hash that is not tracked |
| GlobTracker.UntrackedHashIsMet | crates/nrzrepo-filewatch/src/globwatcher.rs:442-480 | a history after which a change finds, through a glob it was once registered with, a hash that is not tracked |
| GlobTracker.GlobTracker.HandleWatchGlobs | crates/nrzrepo-filewatch/src/globwatcher.rs:345-368 | the loop over the includes and the assignment are the registration step |
| GlobTracker.GlobTracker.HandleGetChangedGlobs | crates/nrzrepo-filewatch/src/globwatcher.rs:369-388 | the answer is the candidates without the remaining globs of the hash |
| GlobTracker.GlobTracker.HandlePathChange | crates/nrzrepo-filewatch/src/globwatcher.rs:442-480 | the nested in-place loops over both maps do exactly the change step; the branch for an untracked hash is taken if the change finds one, and not unless it finds a hash that no longer has the glob |
| GlobTracker.GlobTracker.OnError | crates/nrzrepo-filewatch/src/globwatcher.rs:433-440 | after an error nothing is tracked |
| CookiedGlobs.RunKeeps | crates/nrzrepo-filewatch/src/globwatcher.rs:390-440 | the end-to-end invariant holds after every run of clients, stream, lag, errors and tracker |
| CookiedGlobs.AnswersRespectCookies | crates/nrzrepo-filewatch/src/globwatcher.rs:339-440 | in every run, an answer was given after its cookie was passed and calls a candidate unchanged exactly if the tracker had not been told otherwise by then; that candidate is in the registration then in force, and no change in the stream from there up to the answer invalidates it, whether it was seen or lost by lag |
| CookiedGlobs.RequestsAreConserved | crates/nrzrepo-filewatch/src/cookies.rs:137-175 | requests are neither lost nor repeated, and those that wait have a cookie behind the latest one |
| CookiedHistory.QueriesAreAnswered | crates/nrzrepo-filewatch/src/globwatcher.rs:339-388 | in every run there are as many answers as queries handled; the n-th is for the n-th query, with its hash, candidates and serial, and was given when the tracker had been told exactly the registrations handled before it |
| CookiedHistory.TrackerIsToldTheTruth | crates/nrzrepo-filewatch/src/globwatcher.rs:346-440 | in every run the tracker was told the handled registrations in order, one error for each lag or failure, and changes only as the stream has them, each once and in order |
| CookiedHistory.ReceivedIsHandled | crates/nrzrepo-filewatch/src/cookies.rs:137-146 | a request is handled as it is received exactly if its cookie or a later one was the last delivered; otherwise it waits |
| CookiedHistory.CookieReleases | crates/nrzrepo-filewatch/src/cookies.rs:152-177 | the delivery of a cookie handles exactly the waiting requests with that cookie or an earlier one |
| CookiedHistory.SerialsCountRequests | crates/nrzrepo-filewatch/src/cookies.rs:301-327 | every request takes a serial of its own, whether its cookie could be written or not |
| GlobEvents.AllChangesAppliedIff | crates/nrzrepo-filewatch/src/globwatcher.rs:390-419 | all changes of a notification reach the tracker exactly if nothing but cookies and outside paths follows the first of these |
| GlobEvents.ChangeAfterCookieIsLost | crates/nrzrepo-filewatch/src/globwatcher.rs:390-419 | a change behind a new cookie in the same notification is not applied |
| GlobEvents.CookiedTracker.HandleFileEvent | crates/nrzrepo-filewatch/src/globwatcher.rs:390-419 | the loop applies the changes before the stop, then releases the requests of the cookie and answers each in the state the ones before it left |
| GlobEvents.BatchIsHandled | crates/nrzrepo-filewatch/src/globwatcher.rs:346-388 | applied one by one, released requests do to the tracker what handling them in the end-to-end system does |
| GlobEvents.BatchIsAnswered | crates/nrzrepo-filewatch/src/globwatcher.rs:346-388 | and each query among them gets the answer it gets there |
| GlobEvents.ChangesAreTold | crates/nrzrepo-filewatch/src/globwatcher.rs:409-419 | a list of changes does to the tracker what telling it of each in turn does |
| Walker.RunKeeps | crates/nrzrepo-graph-utils/src/walker.rs:34-129 | the protocol's invariant holds after every run |
| Walker.WalkIsSafe | crates/nrzrepo-graph-utils/src/walker.rs:34-129 | in every interleaving no signal is sent before all tasks subscribed, no node is emitted twice, each comes after all its dependencies have finished, and the channel is never full |
| Walker.ReceivedInOrder | crates/nrzrepo-graph-utils/src/walker.rs:98-106 | in every run what is in the channel is what was emitted last, in order, so the consumer gets the nodes in the order of emission |
| Walker.CancelStopsSelects | crates/nrzrepo-graph-utils/src/walker.rs:161-163 | a task suspended in its select when the walk is cancelled never emits |
| Walker.NoMoreEmissions | crates/nrzrepo-graph-utils/src/walker.rs:161-163 | once cancelled with nobody under way, no continuation emits a node |
| Walker.OvertakenIff | crates/nrzrepo-graph-utils/src/walker.rs:161-163 | some continuation after a cancellation emits a further node exactly if at that moment the receiver is open and some task is about to emit, or in mid-poll with all its dependencies emitted |
| Walker.CancelCanBeOvertaken | crates/nrzrepo-graph-utils/src/walker.rs:161-163 | a run in which a task in mid-poll emits after the cancellation |
| Walker.CancelledWalkEnds | crates/nrzrepo-graph-utils/src/walker.rs:168-178 | after a cancellation, at rest, every task has ended |
| Walker.CancelledWalkIsFinite | crates/nrzrepo-graph-utils/src/walker.rs:168-178 | after a cancellation no more steps follow than the budget, whatever the consumer does |
| Walker.WalkIsComplete | crates/nrzrepo-graph-utils/src/walker.rs:50-118 | without cancellation a run at rest has emitted exactly the nodes from which no cycle can be reached |
| Walker.DagIsWalked | crates/nrzrepo-graph-utils/src/walker.rs:50-118 | on an acyclic graph a run at rest has emitted every node |
| Walker.WalkIsFinite | crates/nrzrepo-graph-utils/src/walker.rs:50-118 | no run without cancellation is longer than the initial budget |
| CycleDetector.Detector.Dfs | crates/nrzrepo-graph-utils/src/lib.rs:188-207 | the search answers true only on a cycle; otherwise everything reachable is finished and no finished node lies on a cycle |
| CycleDetector.Detector.HasCycle | crates/nrzrepo-graph-utils/src/lib.rs:173-187 | true exactly if the remaining edges have a directed cycle, self-loops included |
| CycleDetector.Detector.EdgesToBreakCycle | crates/nrzrepo-graph-utils/src/lib.rs:73-113 | the early-exit loop returns every minimum set of edges whose removal leaves no cycle, and no other set |
| CycleDetector.PowersetIsComplete | crates/nrzrepo-graph-utils/src/lib.rs:80-80 | the powerset lists every edge set, smaller ones first |
| GraphValidation.ValidateGraph | crates/nrzrepo-graph-utils/src/lib.rs:115-145 | a graph is accepted exactly if it is acyclic, given components by mutual reachability |
| GraphValidation.CyclesAndCutCandidates | crates/nrzrepo-graph-utils/src/lib.rs:58-71 | one entry per component of more than one node, with all minimum cuts of its subgraph |
| GraphValidation.SuggestionsBreakCycles | crates/nrzrepo-graph-utils/src/lib.rs:115-138 | removing one suggested cut per reported component from the whole graph leaves only self-loops as cycles |
| SetPath.ClosestIsMaximal | crates/nrzrepo-lib/src/rewrite_json.rs:128-166 | the node found is where the path leads, and the path leads no further |
| SetPath.ClosestIsThere | crates/nrzrepo-lib/src/rewrite_json.rs:128-166 | the printed form of the node found stands in the text at the offset computed for it |
| SetPath.GenerateObject | crates/nrzrepo-lib/src/rewrite_json.rs:171-188 | the two loops write nested objects around the value |
| SetPath.ReplacePrints | crates/nrzrepo-lib/src/rewrite_json.rs:66-80 | splicing the found node's range in the text prints the tree with that node replaced |
| SetPath.SetPathInText | crates/nrzrepo-lib/src/rewrite_json.rs:42-102 | one range of the text is replaced and everything around it kept: the node the path leads to as far as it exists by the nested value, or nothing behind the root's first character by a new member; for a root object that is the printed rewritten tree |
| SetPath.SetPathMeans | crates/nrzrepo-lib/src/rewrite_json.rs:42-102 | afterwards the path has the value, and every path not comparable with the rewritten one has what it had |
| SetPath.KeepsSiblingsIff | crates/nrzrepo-lib/src/rewrite_json.rs:66-80 | every path not comparable with the given one keeps its value exactly if the path does not stop at a nested object with members |
| SetPath.ClobberExample | crates/nrzrepo-lib/src/rewrite_json.rs:66-80 | a document in which setting a.c makes a.b disappear |
| SetPath.SetTreeIsWellFormed | crates/nrzrepo-lib/src/rewrite_json.rs:42-102 | for keys that need no escape the rewritten document is well-formed |
| UnsetText.FindAllPaths | crates/nrzrepo-lib/src/rewrite_json.rs:258-340 | the walk collects the ranges of all occurrences, in document order, with their replacements |
| UnsetText.CutLeaves | crates/nrzrepo-lib/src/rewrite_json.rs:215-250 | cutting all ranges back to front with clipping, in any surroundings, never fails and leaves exactly the text given by recursion on the tree |
| UnsetText.UnsetPathInText | crates/nrzrepo-lib/src/rewrite_json.rs:205-252 | nothing exactly if there is no range, else the surroundings around what is left of the root |
| UnsetText.NamedIff | crates/nrzrepo-lib/src/rewrite_json.rs:279-284 | a name matches exactly if it is the same, or, when case does not count, the same but for the case of letters A to Z |
| UnsetPath.RemovalByName | crates/nrzrepo-lib/src/rewrite_json.rs:258-340 | name by name, fields of another name keep their values in order, those of the wanted name are all gone if the path ends there and lose the rest of the path otherwise |
| UnsetPath.SpellingDoesNotCount | crates/nrzrepo-lib/src/rewrite_json.rs:279-284 | when case does not count, another spelling of the path cuts the same ranges |
| UnsetPath.SpellingExample | crates/nrzrepo-lib/src/rewrite_json.rs:279-284 | "experimentalspaces" is left alone by a case-sensitive call for "experimentalSpaces" and found by the other |
| UnsetPath.RemovedMeans | crates/nrzrepo-lib/src/rewrite_json.rs:205-252 | the tree left over means the old value without every occurrence of the path, all other members in order |
| UnsetPath.CutTextIsRightIff | crates/nrzrepo-lib/src/rewrite_json.rs:205-252 | the cut text is the printed tree left over exactly if no object on the path starts badly |
| UnsetReading.ReadableIff | crates/nrzrepo-lib/src/rewrite_json.rs:205-252 | for every scanner that finds the same pieces however a text goes on, what is left of a value for any path is the text of some well-formed value exactly if no object on the path starts badly |
| UnsetReading.ReadValue | crates/nrzrepo-lib/src/rewrite_json.rs:205-252 | if what is left of a value, with what may follow a value behind it, starts as a well-formed value does, it is exactly that value's text, and no object on the path started badly |
| UnsetReading.ReadingIsUnambiguous | crates/nrzrepo-lib/src/rewrite_json.rs:108-122 | two well-formed values whose texts agree, with what may follow a value behind each, have the same text |
| UnsetReading.ReadersExist | crates/nrzrepo-lib/src/rewrite_json.rs:108-122 | there are scanners of that kind |
| UnsetPath.RangesIff | crates/nrzrepo-lib/src/rewrite_json.rs:258-340 | there is a range exactly if the path occurs |
| UnsetPath.WithoutLeavesNone | crates/nrzrepo-lib/src/rewrite_json.rs:205-252 | after the removal the path does not occur |
| UnsetPath.RemovedIsWellFormed | crates/nrzrepo-lib/src/rewrite_json.rs:205-252 | the tree left over is well-formed |
| UnsetPath.UnsetPathMeans | crates/nrzrepo-lib/src/rewrite_json.rs:205-252 | the operation as a whole: nothing to do exactly if the path does not occur, the output is the text of the right document exactly for clean inputs, and a second call finds nothing |
| UnsetPath.StrayCommaExample | crates/nrzrepo-lib/src/rewrite_json.rs:205-252 | two spellings of a name at the start of an object leave a comma behind its brace |
| PackageSafety.BumpOrQueueKeeps | crates/nrzrepo-filewatch/src/package_watcher.rs:364-380 | bumping or queueing keeps the invariant: a pending discovery begins after the event |
| PackageSafety.FileEventKeeps | crates/nrzrepo-filewatch/src/package_watcher.rs:329-478 | every branch of a file event keeps the invariant |
| PackageSafety.DeliverKeeps | crates/nrzrepo-filewatch/src/package_watcher.rs:282-296 | accepting or ignoring a discovery result keeps the invariant |
| PackageSafety.UnchangedKeys | crates/nrzrepo-filewatch/src/package_watcher.rs:460-473 | if nothing counts as changed, no workspace has come or gone |
| PackageSafety.PublishedAgrees | crates/nrzrepo-filewatch/src/package_watcher.rs:480-519 | in every run nothing is published exactly while a rediscovery is pending; otherwise the error, or the package manager and the package.json files, are those held |
| PackageSafety.HeldStateIsCurrent | crates/nrzrepo-filewatch/src/package_watcher.rs:282-478 | in every run the held state goes back to a discovery that began after every event handled before its acceptance and every later one that called for a rediscovery, and each workspace is in it exactly if the disk's latest answer, or else that discovery, says so |
| PackageReports.EventRediscovers | crates/nrzrepo-filewatch/src/package_watcher.rs:323-380 | in every run, lost events, a change of a file that decides about the package manager and any file event while a discovery is pending put a discovery off that has not begun, or queue a new one after a quiet period, with nothing published |
| PackageReports.EventPatches | crates/nrzrepo-filewatch/src/package_watcher.rs:405-478 | in every run, any other file event leaves of each workspace directory it names, by itself or by its package.json, what the disk said at the last such path, and every other directory as it was; it publishes the result exactly if some path made a workspace come or go |
| PackageReports.EventIsIgnored | crates/nrzrepo-filewatch/src/package_watcher.rs:401-409 | without valid workspaces, other file events change nothing |
| PackageReports.DeliveryAccepts | crates/nrzrepo-filewatch/src/package_watcher.rs:282-296 | in every run, the result of the pending discovery becomes the held state as reported and is published; any other result is ignored |
| PackageReports.CollectIs | crates/nrzrepo-filewatch/src/package_watcher.rs:549-558 | a directory is a discovered workspace exactly if its package.json is listed, with the data listed last |
| PackageReports.HeldIsReported | crates/nrzrepo-filewatch/src/package_watcher.rs:282-478 | in every run the held state is what the accepted discovery reported, patched with the disk's last answer about each directory named since |
| PackageReports.DiscoveryIsRecent | crates/nrzrepo-filewatch/src/package_watcher.rs:323-380 | and that discovery began after every event that called for one |
| PackageSafety.RestMeansReady | crates/nrzrepo-filewatch/src/package_watcher.rs:211-236 | the running system comes to rest only with a state held and published |
| PackageSafety.Settles | crates/nrzrepo-filewatch/src/package_watcher.rs:238-280 | after any run, no sequence of internal steps is longer than the budget |
| PackageSafety.PublishedIsHeldIff | crates/nrzrepo-filewatch/src/package_watcher.rs:405-478 | in every run, what is published is what is held exactly if for every workspace the disk's latest answer since the last publication agrees with what was published about its nrz.json |
| PackageSafety.NrzJsonIsNotRepublished | crates/nrzrepo-filewatch/src/package_watcher.rs:460-477 | a run from the start after which a held nrz.json is not published |
| PackageSubscriber.PatchWorkspaces | crates/nrzrepo-filewatch/src/package_watcher.rs:405-473 | the loop over an event's paths patches the map and finds changes as the model says |
| PackageSubscriber.Subscriber.WriteState | crates/nrzrepo-filewatch/src/package_watcher.rs:491-519 | what is published is the given state's error or workspaces |
| PackageSubscriber.Subscriber.HandleResult | crates/nrzrepo-filewatch/src/package_watcher.rs:282-296 | receiving the oldest result is a step of the system and keeps its invariant |
| PackageSubscriber.Subscriber.HandleEvent | crates/nrzrepo-filewatch/src/package_watcher.rs:323-362 | the loop over the paths and the dispatch are a step of the system and keep its invariant |
| PackageSubscriber.Subscriber.HandleError | crates/nrzrepo-filewatch/src/package_watcher.rs:264-275 | a watcher error or lag is a step of the system: afterwards a rediscovery is pending and nothing is published |
| Tracing.StepKeeps | crates/nrz-trace/src/tracer.rs:276-312 | every round keeps the invariant, and sees a new file or shortens the list |
| Tracing.Tracer.TraceFile | crates/nrz-trace/src/tracer.rs:276-312 | a file is looked into at most once; its imports go on the stack one deeper, its errors on the list |
| Tracing.Tracer.Trace | crates/nrz-trace/src/tracer.rs:384-403 | the loop ends if finitely many files can be reached; without a limit, or with one of at least their number less one, exactly the reachable files are seen; with a limit only files within it, and all of them if each is the same number of imports away on every way; each visited once, with the errors of all visits in order |
| Tracing.LimitMayCutTooEarly | crates/nrz-trace/src/tracer.rs:384-397 | a file two imports away is not seen under a limit of two |
| UploadProgress.StoreKeepsRing | crates/nrzrepo-cache/src/upload_progress.rs:52-78 | storing an item keeps every bucket the record of its latest generation |
| UploadProgress.WindowedIs | crates/nrzrepo-cache/src/upload_progress.rs:145-159 | the windowed sum is the bytes of the last BUCKETS generations plus what the one before them still adds |
| UploadProgress.WindowIsRightIff | crates/nrzrepo-cache/src/upload_progress.rs:142-159 | it is the bytes of the last BUCKETS generations exactly if fewer have passed, the current one has been written, or the one before them is empty |
| UploadProgress.LeftoverExample | crates/nrzrepo-cache/src/upload_progress.rs:145-159 | with one bucket, the second interval is given the bytes of the first |
| UploadProgress.Progress.PollNext | crates/nrzrepo-cache/src/upload_progress.rs:52-78 | the in-place update keeps the ring faithful to the history and the total equal to the sum of all lengths |
| UploadProgress.Progress.AverageBps | crates/nrzrepo-cache/src/upload_progress.rs:145-159 | the loop's average times the ring's milliseconds is a thousand times that sum, and there is none once the upload is gone |
| CollapsePath.CollapseFailsIff | crates/nrzrepo-globwalk/src/lib.rs:172-200 | collapsing fails exactly if some prefix climbs above the start |
| CollapsePath.CollapseIsFaithful | crates/nrzrepo-globwalk/src/lib.rs:172-215 | the result has no dots, its length is names less dot-dots, and its first `lowest_index` segments are the input's |
| CollapsePath.KeptIsLowest | crates/nrzrepo-globwalk/src/lib.rs:172-201 | the second component is exactly the height of the lowest point of the walk from the first dot segment on, and all of it without dots |
| CollapsePath.CollapseKeepsPlace | crates/nrzrepo-globwalk/src/lib.rs:172-215 | from any directory the collapsed path leads where the original leads |
| CollapsePath.CollapseIsIdempotent | crates/nrzrepo-globwalk/src/lib.rs:172-215 | a path without dots is left as it is |
| CollapsePath.CollapsedReadsIff | crates/nrzrepo-globwalk/src/lib.rs:172-215 | for every path that does not climb out, the result reads as a path of the same kind with the collapsed segments exactly if there was nothing to collapse, or the walk along the path ends below its start, inside something with a name unless that is all |
| CollapsePath.UnreadableExamples | crates/nrzrepo-globwalk/src/lib.rs:203-214 | "/a/.." comes out as "" and "a/..//b" as "/b" |
| CollapsePath.CollapseText | crates/nrzrepo-globwalk/src/lib.rs:172-215 | the loop with its stack, lowest index and changed flag computes that |
| CollapsePath.JoinedSegments | crates/nrzrepo-globwalk/src/lib.rs:51-53 | below a clean base path the joined path's segments are those of the base and of the glob |
| CollapsePath.WalkBaseCoversIncludes | crates/nrzrepo-globwalk/src/lib.rs:82-108 | the walk base is a component prefix of the base path and of every collapsed include |
| CollapsePath.WalkBaseIsLongest | crates/nrzrepo-globwalk/src/lib.rs:82-108 | the walk starts as far down as it can: no surviving include goes higher up from its first dot segment on, and unless it starts in the base path itself one of them goes just that high |
| CollapsePath.IncludesAre | crates/nrzrepo-globwalk/src/lib.rs:82-98 | exactly the globs that never climb above the root are listed, in order, each as its own text |
| CollapsePath.IncludeLeads | crates/nrzrepo-globwalk/src/lib.rs:82-98 | that text reads as the absolute path to where the glob leads from the base exactly if there was nothing to collapse or the walk ends inside something with a name |
| CollapsePath.PreprocessIncludes | crates/nrzrepo-globwalk/src/lib.rs:82-108 | the fold over the includes computes that base and the collapsed includes that stay below the root, in order |
| AsyncCache.RunKeeps | crates/nrzrepo-cache/src/async_cache.rs:56-127 | the invariant of channel, workers and replies holds after every run |
| AsyncCache.WorkersAreBounded | crates/nrzrepo-cache/src/async_cache.rs:57-92 | never more writes at a time than permits |
| AsyncCache.AnswersAreHonestIff | crates/nrzrepo-cache/src/async_cache.rs:96-127 | an answered flush or shutdown was served exactly if no shutdown was accepted before it, and then every write accepted before it is done |
| AsyncCache.BehindShutdownIff | crates/nrzrepo-cache/src/async_cache.rs:103-112 | a flush or shutdown in the channel's one place behind a shutdown comes back when the channel is closed, and the writes accepted before it are done at that moment exactly if none is running |
| AsyncCache.WritesAheadAreDone | crates/nrzrepo-cache/src/async_cache.rs:103-127 | when the manager has stopped, exactly the writes accepted ahead of any shutdown are done |
| AsyncCache.NeverStuck | crates/nrzrepo-cache/src/async_cache.rs:63-127 | with a permit, the manager only ever waits for a request or is at its end |
| AsyncCache.InternalStepCosts | crates/nrzrepo-cache/src/async_cache.rs:63-127 | every step the cache takes by itself lowers the budget |
| AsyncCache.Settles | crates/nrzrepo-cache/src/async_cache.rs:63-127 | after any run, no sequence of such steps is longer than the budget |
| AsyncCache.RestMeansServed | crates/nrzrepo-cache/src/async_cache.rs:96-127 | with a permit, the cache only comes to rest when every accepted flush and shutdown has come back and every write ahead of any shutdown is done |
| AsyncCache.FlushMayReturnEarly | crates/nrzrepo-cache/src/async_cache.rs:177-187 | a flush behind a shutdown comes back while an earlier write is running |

## Left out

- Everything around the core: network clients, retries, authentication, telemetry, the terminal interface, task
  running, archives, package managers and lockfiles.
- Foreign libraries: glob compilation and matching, the trie, the heap, Tarjan's algorithm, the JSONC parser, the
  module parser and resolver and the file watcher's backends appear through what they provide.
- The trie and the table of one package's specs are one map from specs to entries; a debouncer handle is the version of
  its computation; node weights are node numbers.
- The `unwrap` on answering a client that has gone (crates/nrzrepo-filewatch/src/hash_watcher.rs:451) and panics inside
  hash tasks: clients stay and tasks do not panic.
- `CookieRegister` and `CookiedOptionalWatch`: the watched values behind cookies would repeat the ordering argument of
  `CookiedGlobs`.
- `serial_for_path`: a cookie path is given with its serial.
- CookiedGlobs.AnswersRespectCookies: one path per file event, because of the early stop that `AllChangesAppliedIff`
  describes.
- AsyncCache and Walker are modelled on values, as transition systems: their source is tasks that interleave, and the
  update in place is inside one step.
- The warning counter of the asynchronous cache, and what a second shutdown's caller does when its callback is dropped.
- Tracing.Tracer.Trace: for a depth limit, sufficient conditions for seeing every file within it but no exact one, because
  the order of the stack decides which way to a file comes first.
- The rewriting of glob patterns, the escape of the base path's special characters and the doubling of exclude globs;
  base components are taken as escaped.
- Paths that are not valid Unicode, in the package watcher's events.
- Overflow of counters, versions and byte counts.
