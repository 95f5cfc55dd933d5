# EdgeSync coordination protocols, modelled and proved in Dafny

EdgeSync coordinates repositories of an external library, libfossil: hubs announce commits to each
other over NATS, leaf agents synchronise and check in, a notify service keeps threads of messages in
a repository, and a simulator injects faults. This project models those protocols and proves what
they keep over every run. `dafny verify dfyconfig.toml` checks all of it.

A libfossil repository is an abstract store: a growing table of `ci` events (rid to uuid) with a
config row, a set of check-ins, or a list of file names with contents. Assumptions about the
environment, all visible as preconditions or step guards:

- newly landing events get rids larger than all earlier ones, and each uuid lands once in a repository;
- a pull that succeeds adds all of the peer's events; a pull that fails adds any part of them;
- a push moves all of the local check-ins when it succeeds and any part, with its parents, when it
  fails;
- autosync calls do not overlap, and neither do the operations on the thread cache, which the source
  runs without a lock around the whole of one operation; for the pairing-token file, which has no lock
  either, `TokenStore` takes its operations one after another and `TokenRace` lets them overlap;
- time, randomness and the answers of the database, the network and the sidecar are parameters, so
  every theorem holds for all of them.

| module | component |
|---|---|
| `HubNode` | one hub's commit announcements as a state machine with a crash possible between any two effects |
| `HubRepo` | the hub's repo object; one call of it is shown to be a run of `HubNode` |
| `HubNetwork` | any number of hubs over a network that loses, duplicates and reorders |
| `Autosync` | pull, fork check, check-in, push over a check-in graph, by any number of clients |
| `Watch` | the goroutines around one watch channel and its teardown |
| `Dedup` | the bounded id filter against unbounded deduplication |
| `ThreadStore`, `Text`, `Sorting` | message paths, thread listing and reading, and string order against time order |
| `ThreadCache` | the thread-id cache in front of the repository scan |
| `PairURL` | pairing tokens, the pairing URL printer and parser |
| `TokenStore` | single-use pairing tokens and the conservation of entries |
| `TokenRace` | the same operations overlapping: what one reads may be old when it commits |
| `PollLoop` | the coalescing sync trigger and the report of each cycle |
| `Mesh` | which end of each pair opens a tunnel |
| `WsConn` | a byte stream read out of a bounded channel of messages |
| `FaultSchedule` | the random fault plan, its execution, and that it ends healthy |

Code that updates state is a class or a method with a loop, proved equal to a function of the old
state; the theorems are about that function and about every run of it. Concurrent code is a step
machine whose steps are the source's atomic effects.

Where the code differs from what is written about it, the model follows the code:

- A failed watermark read followed by a failed maximum query leaves the watermark at 0 while a larger
  value stays persisted, so "the persisted value never exceeds the watermark" has one exception:
  `HubNode.RowAheadExactly` says which process runs have it.
- Commits that land between a cold start whose persist failed and the next cold start are passed over
  (`HubNode.ColdRestartPassesCommit`); `HubNode.NoOtherGap` shows that cold starts and failed lookups
  are the only ways to be passed over. The source calls this recoverable by a later commit, and it is:
  a note that has reached a hub has brought everything up to its rid (`HubNetwork.BacklogIsEverywhere`,
  `HubNetwork.HubsConverge`). Until such a commit hubs may disagree (`HubNetwork.SnapshotsCanDisagree`).
- `docs/architecture/checkout-merge.md:99-109` describes a ci-lock in autosync; the code takes none, so
  the claims are for calls that do not overlap. The fork check looks at the checkout's branch only and
  a push sends everything, so a check-in on another branch can fork trunk at the remote
  (`Autosync.SideBranchPushForks`). `Autosync.PushChainExactly` says exactly when a push keeps the
  chain, and `Autosync.RemoteStaysChainExactly` that runs need this at every push and nothing more.
- The table at `docs/architecture/sync-protocol.md:241` has no `peer_id` in the notification; the code
  sends one, requires it, and pulls from that peer.
- `Watch` closes its channel when the flush after subscribing fails although the subscription is live:
  a later message is then sent on a closed channel (`Watch.PanicExactly`).
- `readPendingTokens` takes every read error for a missing file, so a store after a failed read drops
  the pending entries (`TokenStore.LostExactly`).
- The token file is read, changed and committed without a lock, so one token can be used twice: by calls
  that overlap (`TokenRace.OverlapUsesTwice`), and by a later one after an overlapping store has written
  it back (`TokenRace.StaleStoreRevives`). `TokenRace.UseAgainExactly` says exactly when.
- `pruneExpired` drops a token at its expiry instant, `ValidateToken` still accepts it then.
- File names are said to order a thread by time. They do exactly when the text order of its seconds
  agrees with the numeric order (`ThreadStore.ReadThreadOrder`), always so for equal digit counts, and
  not across the second 1000000000 (`ThreadStore.BillionthSecondReadFirst`).
- The thread cache ignores the project (`ThreadCache.CacheIgnoresProject`,
  `ThreadCache.ResolveMeetsScan`).
- A heal time is a 64-bit sum: for fault durations within five seconds of the largest one it wraps
  around and precedes its fault (`FaultSchedule.PartitionsPrecedeHealsExactly`).

## Model

| member | source | states |
|---|---|---|
| `HubNode.StepKeeps` | hub/repo.go:255-355 | every effect of commit, scan, lookup, publish, advance, persist, crash and restart keeps the invariant: no event at or below the row or the live watermark is unaccounted for, the queue holds all that is above, emissions ascend |
| `HubNode.RunKeeps` | hub/repo.go:255-355 | the invariant holds after every run with crashes anywhere and any interleaving of callers |
| `HubNode.FreshHolds` | hub/repo.go:313-322 | a hub that has never persisted a watermark satisfies the invariant whatever its event table holds |
| `HubNode.SkippedOnlyByColdStart` | hub/repo.go:313-323 | an event is passed by a snapshot if and only if some cold start of the run finds it unannounced in the table |
| `HubNode.NoOtherGap` | hub/repo.go:284-300 | over any crashes, failed scans, lookups, persists and restarts, every event is still above the row and the live watermark, or was handed to the hook, or its lookup failed, or a cold start passed it |
| `HubNode.WarmRestartsLoseNothing` | hub/repo.go:307-311 | with a readable row at every start, each event is above the persisted row, or was announced, or its lookup failed: crashes and failed persists give repeats, never gaps |
| `HubNode.OneProcessIsMonotone` | hub/repo.go:251-254 | within one process run emitted rids are strictly ascending, the watermark never goes back, and the row stays at or below it unless the start was blind |
| `HubNode.CommitIsAnnounced` | hub/repo.go:229-230 | a commit call that returned after a scan that worked has its rid emitted, by itself or by another caller, or its lookup failed |
| `HubNode.ScanFailReturns` | hub/repo.go:265-268 | a commit call whose scan fails comes back all the same, and nothing else changes |
| `HubNode.CrashForgets` | hub/repo.go:303-311 | a crash leaves events and row as they are and forgets the section and the calls under way; a start leaves the events and begins an empty run |
| `HubNode.RowStaysBelow` | hub/repo.go:284-300 | a process run that finds the row at or below the watermark keeps it there |
| `HubNode.RowAheadExactly` | hub/repo.go:324-350 | in the whole process run after a start the row is ever ahead of the watermark if and only if it held a positive rid, could not be read, and the maximum query failed too |
| `HubNode.ColdRestartPassesCommit` | hub/repo.go:351-354 | a concrete run in which a commit landing between two cold starts is never announced |
| `HubRepo.Repo.Scan` | hub/repo.go:261-279 | the scan lists exactly the rids above the watermark, ascending |
| `HubRepo.Repo.PublishNewCommits` | hub/repo.go:255-301 | the events above the watermark whose lookup works, and no others, reach the hook with their uuids, once each and ascending; the watermark is the largest of them, the row the largest that could be persisted; nothing happens without a hook or a working scan |
| `HubRepo.Repo.InitPublishWatermark` | hub/repo.go:328-355 | a readable row is loaded, else the largest rid is taken and persisted if possible, else nothing changes |
| `HubRepo.Repo.Commit` | hub/repo.go:204-231 | an empty author or failed libfossil commit is an error that changes nothing; a success lands the event and makes the publish promise for the enlarged table |
| `HubRepo.LoopIsRun` | hub/repo.go:284-300 | the publish loop over any listing is a run of the step machine that empties the queue |
| `HubRepo.AfterLoopMeaning` | hub/repo.go:284-300 | the loop's fold agrees with the promise: emissions are the rids found, the watermark their last, the row the last persisted |
| `HubRepo.PublishIsRun` | hub/repo.go:255-301 | an uninterrupted call is a run of the step machine from one free section to the next, with the same announcements, watermark and row as the object promises |
| `HubRepo.CommitReturns` | hub/repo.go:229-230 | a commit call that gets the section comes back with its rid announced or its lookup failed, no other call is touched, and with working persists the row ends at the watermark |
| `HubRepo.CommitCallIsRun` | hub/repo.go:204-231 | the whole call as a run: its event lands, and it comes back from its publish |
| `HubRepo.RestoreIsStart` | hub/repo.go:328-355 | the promise of the start determines watermark and row, and they are the step machine's after a start |
| `HubRepo.CleanPublishDrains` | hub/repo.go:233-236 | a publish with no failed lookup leaves nothing above the watermark, and each event that was above it reached the hook with its uuid |
| `HubNetwork.FreshNetHolds` | hub/hub.go:469-565 | hubs that have not published yet start in the network invariant, with no backlog owed |
| `HubNetwork.NetStepKeeps` | hub/hub.go:485-546 | every local step and every delivery keeps: notes name what their peer holds, emitted rids have been sent, a note counted as reached is held |
| `HubNetwork.NetRunKeeps` | hub/hub.go:485-546 | the same over every run of N hubs with loss, duplication, reordering, crashes and restarts |
| `HubNetwork.NotesAreHeldAndNoSelfPull` | hub/hub.go:499-509 | each notification ever sent names a commit its announcing peer holds, and no hub pulls from itself |
| `HubNetwork.AnnouncedIsEverywhere` | hub/hub.go:485-522 | once every note has reached every other hub by a pull that succeeded, each announced commit is in every hub |
| `HubNetwork.RunKeepsBacklog` | hub/hub.go:510-522 | over every run, whom a note has reached by a pull that succeeded holds all of its peer's commits at or below the announced rid |
| `HubNetwork.BacklogIsEverywhere` | hub/repo.go:319-323 | once every note has reached every other hub, each commit at or below a rid its hub has announced is in every hub, also one that a failed lookup or a snapshot had passed over |
| `HubNetwork.CaughtUpHubsAgree` | hub/hub.go:485-546 | a hub with nothing above its watermark and an announcement at or above each commit passed over holds nothing that another hub lacks |
| `HubNetwork.NoStorm` | hub/hub.go:505-523 | without restarts H hubs and C commits emit at most H times C announcements, although pulled commits are announced again |
| `HubNetwork.DeliveryIsAPull` | hub/hub.go:499-522 | a hub's own note does nothing; any other is a pull from the hub that sent it, which lands what came, counts as reached only when complete, and announces nothing |
| `HubNetwork.CreatedIsHeld` | hub/hub.go:290-293 | over every run each commit counted as created was there at the start or is held by some hub |
| `HubNetwork.ReachesQuiescence` | hub/hub.go:510-523 | once commits stop, a run holds at most `Work` announcing or newly delivering steps, however often notes are duplicated and hubs rescan |
| `HubNetwork.HubCanStep` | hub/repo.go:255-301 | a running hub with a publish under way, or with anything above its watermark, always has a publishing step to take, and is strictly nearer to idle after it |
| `HubNetwork.CallComesBack` | hub/repo.go:255-257 | from every state of a running hub in which a commit call waits, also while another caller has the section, publishing steps bring it back |
| `HubNetwork.PullExists` | hub/hub.go:510-522 | whatever two repositories hold, there is a pull that gives the one everything of the other at rids above all of its own |
| `HubNetwork.CanProgress` | hub/hub.go:485-546 | short of quiescence some step of a settled network is enabled that lowers the work left, or keeps it and brings some hub nearer to idle |
| `HubNetwork.QuiescenceIsReachable` | hub/hub.go:485-546 | from every state with all hubs up some settled run, with no failure in it, ends where every note has reached every other hub and no hub has anything above its watermark |
| `HubNetwork.HubsConverge` | hub/hub.go:485-546 | if each commit passed over has a rid at or above it that was announced, or is above the watermark and so will be, all hubs hold the same commits at the end of that run |
| `HubNetwork.SnapshotsCanDisagree` | hub/repo.go:313-318 | two hubs on their first start, one over a commit, are quiescent and only one has the commit |
| `Autosync.Session.AutosyncCommit` | leaf/agent/autosync.go:80-134 | for each answer separately the exact condition under which the call gives it, in the source's order of checks, and exactly what it leaves: the new check-in's parents and branch, the local store, the checkout and the remote |
| `Autosync.OutcomesAreExact` | leaf/agent/autosync.go:96-133 | in particular it would fork if and only if it got past the pull, forking is neither allowed nor ruled out by a named branch, and another leaf of the checkout's branch is stored |
| `Autosync.OutcomeTells` | leaf/agent/autosync.go:77-133 | a check-in was made if and only if the call created it or only its push failed, every other failure leaves graph, checkout and remote alone, and only a pushing call changes the remote |
| `Autosync.Session.WouldFork` | docs/architecture/checkout-merge.md:79-84 | true if and only if another leaf is on the checkout's branch |
| `Autosync.LeafBelow` | docs/architecture/checkout-merge.md:84 | below every stored check-in of a finite graph there is a leaf on its branch |
| `Autosync.LinearKept` | leaf/agent/autosync.go:109-123 | a check-in accepted by the fork check keeps histories along the branch linear |
| `Autosync.OneLeafAfterCheckin` | leaf/agent/autosync.go:109-123 | after it, a check-in of the branch is a local leaf if and only if it is the new one |
| `Autosync.AcceptedCallLeavesOneLeaf` | leaf/agent/autosync.go:100-133 | an accepted call leaves exactly one leaf on the client's branch, its own check-in, also when the push failed |
| `Autosync.ChainIsOneLeaf` | docs/architecture/checkout-merge.md:73 | in a store that has its check-ins' parents a branch is a chain if and only if it has at most one leaf |
| `Autosync.PushChainExactly` | leaf/agent/autosync.go:100-133 | a call whose pull, check-in and push succeed leaves a remote branch a chain if and only if the checkout was on that branch or the client and the remote together stored at most one leaf of it |
| `Autosync.FirstCloneHolds` | leaf/agent/autosync.go:48-65 | any number of fresh clones start in the cluster invariant |
| `Autosync.StepKeeps` | leaf/agent/autosync.go:80-134 | every call without bypass that, if it pushes, meets that condition keeps the remote branch a chain, whatever part a failed pull or push moves |
| `Autosync.RemoteStaysChain` | leaf/agent/autosync.go:80-134 | so over every sequence of non-overlapping calls by any number of clients and moves of their checkouts |
| `Autosync.RemoteStaysChainExactly` | leaf/agent/autosync.go:80-134 | over runs whose pushes succeed, the remote branch is a chain before and after every step if and only if every pushing call met the condition |
| `Autosync.RemoteHasOneLeaf` | leaf/agent/autosync.go:80-134 | so the shared branch never has two leaves |
| `Autosync.ClonesKeepOneChain` | leaf/agent/autosync.go:80-134 | any number of fresh clones, with no bypass and nothing else asked of them, keep the remote a single chain with one leaf over every run |
| `Autosync.SideBranchPushForks` | leaf/agent/autosync.go:109-131 | a concrete call with no bypass, from a checkout on another branch, that forks the remote trunk |
| `Watch.RunKeeps` | leaf/agent/notify/notify.go:206-235 | over every interleaving a callback past its check holds the lock on an open channel, and flag and channel close together under the lock |
| `Watch.TeardownIsSafe` | leaf/agent/notify/notify.go:181-190 | on the subscribed path nothing sends on or closes a closed channel, and it has been closed exactly once when the closer is done |
| `Watch.DeliveryIsInOrder` | leaf/agent/notify/notify.go:211-221 | what the consumer gets is an in-order subsequence of what was dispatched; before cancellation nothing is missing |
| `Watch.MessageGetsThrough` | leaf/agent/notify/notify.go:211-221 | before cancellation, with the consumer reading, the message a callback is at reaches the consumer after what was buffered, in at most twenty steps |
| `Watch.DispatchedGetsThrough` | leaf/agent/notify/notify.go:211-221 | and so a message that the subscription dispatches |
| `Watch.AlwaysEnabled` | leaf/agent/notify/notify.go:217-235 | after cancellation the closer, or the callback that holds the lock, can always step, whatever the consumer does |
| `Watch.AfterCancelItFinishes` | leaf/agent/notify/notify.go:228-235 | from any point after cancellation at most nine such steps finish the teardown |
| `Watch.ProgressIsBounded` | leaf/agent/notify/notify.go:211-235 | no run of such steps alone is longer than the remaining measure |
| `Watch.FlushFailurePanics` | leaf/agent/notify/pubsub.go:155-157 | a concrete interleaving in which a failed flush leads to a send on the closed channel |
| `Watch.PanicExactly` | leaf/agent/notify/notify.go:223-226 | a panic is reachable if and only if subscribing ended with a failed flush |
| `Dedup.Subscriber.EnableDedup` | leaf/agent/notify/pubsub.go:63-69 | enabling starts from an empty filter whatever was seen before |
| `Dedup.Subscriber.IsDuplicate` | leaf/agent/notify/pubsub.go:71-92 | with deduplication off the answer is no and nothing changes; with it on the answer is whether the id is in the set, and a new id is added, the eviction loop included |
| `Dedup.OffLetsAllThrough` | leaf/agent/notify/pubsub.go:74-76 | a subscriber that has not enabled deduplication lets every id through |
| `Dedup.CheckedShape` | leaf/agent/notify/pubsub.go:77-91 | the answer is membership in the list; a new id is appended, and over the cap only the newest 5001 stay, list and set in step |
| `Dedup.KeptTail` | leaf/agent/notify/pubsub.go:45-92 | after any ids the list is a repeat-free suffix of the accepted ones, the set is the list's, and its length is at most 10000 and at least the smaller of 5001 and the number accepted |
| `Dedup.BoundedMeetsUnbounded` | leaf/agent/notify/pubsub.go:71-92 | the filter answers like unbounded deduplication if and only if each repeat arrives while its first arrival is in the kept tail |
| `Dedup.RepeatsWithin5000` | leaf/agent/notify/pubsub.go:44-45 | in particular when each repeat arrives within 5000 accepted ids |
| `ThreadStore.ReadThread` | leaf/agent/notify/store.go:141-172 | the contents of exactly the matching names in text order; an error if and only if one of them cannot be read |
| `ThreadStore.HighestPriority` | leaf/agent/notify/store.go:174-195 | urgent if and only if some message is, else action required if and only if some message is, else info |
| `ThreadStore.Summarize` | leaf/agent/notify/store.go:96-129 | a directory's count, a message of latest time, that time, and the highest priority among them; nothing if and only if a file cannot be read |
| `ThreadStore.ListThreads` | leaf/agent/notify/store.go:71-138 | one summary for each thread directory of the project, most recently active first; an error if and only if one of the project's files cannot be read |
| `ThreadStore.CountIsThreadLength` | leaf/agent/notify/store.go:81-93 | the listed count is the length of `ReadThread` if and only if the directory holds only .json files, and otherwise more |
| `ThreadStore.PathInProject` | leaf/agent/notify/message.go:102-106 | a message's path is filed under a project if and only if it is its own |
| `ThreadStore.GeneratedPath` | leaf/agent/notify/message.go:102-128 | the path of a message with generated ids: the first eight characters of each after its prefix, and the whole seconds |
| `ThreadStore.ListingPartitions` | leaf/agent/notify/store.go:79-130 | counts are the lengths of the threads read and add up to the project's own messages, and each message is read under exactly one listed thread |
| `ThreadStore.OtherProjectsDoNotSeeIt` | leaf/agent/notify/store.go:147-155 | no message is listed or read under another project |
| `ThreadStore.CommitKeepsBuilt` | leaf/agent/notify/store.go:26-43 | committing a message keeps names distinct and each under its own message's path, adds exactly that path, with the message as its content, and leaves all other contents |
| `ThreadStore.ReadThreadOrder` | leaf/agent/notify/store.go:149-156 | a thread is read in non-decreasing seconds if and only if the text order of each two of its seconds agrees with the numeric order |
| `ThreadStore.BillionthSecondReadFirst` | leaf/agent/notify/store.go:149-156 | two messages of one thread, at seconds 999999999 and 1000000000, are read later one first |
| `ThreadStore.SameDigitsReadInOrder` | leaf/agent/notify/message.go:105 | in particular when all seconds have the same number of digits |
| `Text.DecimalOrder` | leaf/agent/notify/message.go:105 | on decimals of equal length byte order is numeric order |
| `Text.DashedOrder` | leaf/agent/notify/store.go:156 | of two names with different seconds the smaller second comes first if and only if it is at most what the larger starts with |
| `Text.SortedStringsSorts` | leaf/agent/notify/store.go:156 | the sort is an ordered permutation |
| `Sorting.SortBy` | leaf/agent/notify/store.go:115-135 | an ordered permutation by key with nothing said about ties |
| `ThreadCache.Service.ResolveThread` | leaf/agent/notify/notify.go:242-275 | the cache's entry, else the first readable match in name order, which is then cached; not found if and only if there is neither |
| `ThreadCache.Service.Send` | leaf/agent/notify/notify.go:134-171 | sent if and only if a thread is found, for a reply, and the commit works; then the message is in the repository under its path and its thread is cached, and otherwise the repository is unchanged |
| `ThreadCache.RunKeeps` | leaf/agent/notify/notify.go:134-171 | over any run each cached entry is the thread of some message with that short id |
| `ThreadCache.NewServiceHolds` | leaf/agent/notify/notify.go:134-171 | a new service over a repository of committed messages starts in that invariant |
| `ThreadCache.CacheAgreesWithScan` | leaf/agent/notify/notify.go:158-161 | if short ids are unique, each entry shortens to its key and equals what the scan finds in any project holding the thread |
| `ThreadCache.ResolveMeetsScan` | leaf/agent/notify/notify.go:240-275 | resolving answers like the scan if and only if the short id is not cached or the project has a file of that thread |
| `ThreadCache.CacheIgnoresProject` | leaf/agent/notify/notify.go:243-247 | after one message its short id resolves in every other project, where the scan finds nothing |
| `PairURL.EscapeRoundTrip` | leaf/agent/notify/token.go:50-58 | path-segment unescaping undoes escaping of every byte string, and what is escaped holds no slash |
| `PairURL.PairURLRoundTrip` | leaf/agent/notify/token.go:52-88 | parsing what was printed gives endpoint, address and raw token back if and only if the endpoint holds no slash, for every address and token |
| `PairURL.ParsePrintParse` | leaf/agent/notify/token.go:68-88 | whatever parses can be printed again and parses to the same with the token's dashes removed |
| `PairURL.ParsesExactly` | leaf/agent/notify/token.go:68-88 | exactly the strings of the prefix and three parts parse, the first two without slash and the second unescaping, and to those parts |
| `PairURL.PlainIsUnchanged` | leaf/agent/notify/token.go:55 | an address of characters that stand for themselves is printed as it is |
| `PairURL.HexValueExactly` | leaf/agent/notify/token.go:79 | exactly the hex digits of either case have a value, and it is the digit's |
| `PairURL.RawToken` | leaf/agent/notify/token.go:38-41 | the result holds no dash, and a string without dashes is left alone |
| `PairURL.GenerateToken` | leaf/agent/notify/token.go:22-36 | the token is the first twelve accepted bytes in dashed form, and it fails exactly by running out of random bytes |
| `PairURL.DrawnFromKept` | leaf/agent/notify/token.go:29-33 | each accepted byte, in its place, draws the alphabet's character at its remainder by thirty |
| `PairURL.TokenRawForm` | leaf/agent/notify/token.go:35-41 | stripping a generated token gives its twelve characters |
| `PairURL.NoBias` | leaf/agent/notify/token.go:16-18 | each character of the alphabet is drawn by exactly eight byte values |
| `TokenStore.Repository.PruneExpired` | leaf/agent/notify/token_store.go:127-135 | the in-place filter leaves, in order at the front, exactly the tokens whose expiry is still ahead |
| `TokenStore.Repository.StorePendingToken` | leaf/agent/notify/token_store.go:27-37 | works if and only if the file decodes, or cannot be read, and the commit works; then the token is in it with the unexpired ones, all of them if the file was read, and otherwise nothing changes |
| `TokenStore.Repository.ValidateToken` | leaf/agent/notify/token_store.go:42-71 | the first entry of the hash, and nothing else, is taken out if the file is read and the commit works, and returned if it has not expired; otherwise nothing changes |
| `TokenStore.RunKeeps` | leaf/agent/notify/token_store.go:27-71 | over any run each entry stored is pending, used, expired, pruned or lost, as often as it was stored, and each use is no later than its expiry |
| `TokenStore.ValidatesExactly` | leaf/agent/notify/token_store.go:51-70 | a validation returns an entry if and only if the file was read, the entry is the first with the hash and has not expired, and its removal commits |
| `TokenStore.NeverMoreUsesThanStores` | leaf/agent/notify/token_store.go:39-41 | a hash is never validated successfully more often than it was stored |
| `TokenStore.LostExactly` | leaf/agent/notify/token_store.go:94-98 | an operation loses entries if and only if it is a committed store after a failed read with entries pending |
| `TokenStore.ReadableLosesNothing` | leaf/agent/notify/token_store.go:94-104 | with readable storage no run loses an entry |
| `TokenStore.SecondUseFails` | leaf/agent/notify/token_store.go:62-70 | after a successful use of a hash with one entry the next validation fails |
| `TokenRace.RaceKeeps` | leaf/agent/notify/token_store.go:27-71 | whatever calls overlap, no use is later than its entry's expiry |
| `TokenRace.IsolatedIsSequential` | leaf/agent/notify/token_store.go:27-71 | if no other commit falls between any call's read and its own commit, the run does what its operations do one after another, in the order of their commits |
| `TokenRace.IsolatedUsesOnce` | leaf/agent/notify/token_store.go:39-41 | then a hash is never used more often than it was stored |
| `TokenRace.UseAgainExactly` | leaf/agent/notify/token_store.go:27-71 | once a hash is gone from the file, it can be used again without being stored again if and only if a call is under way that read before that and will use it or write it back |
| `TokenRace.LaterUseNeedsStaleRead` | leaf/agent/notify/token_store.go:42-71 | over any such run, a validation that succeeds read before the hash was gone, or a call that had read before that wrote it back |
| `TokenRace.OverlapUsesTwice` | leaf/agent/notify/token_store.go:42-71 | a run in which two validations read before either commits and use one stored entry twice |
| `TokenRace.StaleStoreRevives` | leaf/agent/notify/token_store.go:27-37 | a run in which a store with an old read brings a used entry back and a validation that begins afterwards uses it again |
| `PollLoop.Agent.SyncNow` | leaf/agent/agent.go:559-564 | never blocks, and a trigger is pending afterwards |
| `PollLoop.Agent.EmitSyncOutcomes` | leaf/agent/sync_outcomes.go:39-81 | the hook runs once for each success, in order, and each failure is logged at the level the whole cycle implies |
| `PollLoop.HookedTargets` | leaf/agent/sync_outcomes.go:48-79 | for targets attempted in order the hook runs for exactly those without an error, once each and in order |
| `PollLoop.LevelOf` | leaf/agent/sync_outcomes.go:48-60 | a failure is logged as an error unless another target succeeded or what it wraps in the end is a cancellation or a lack of responders, and then as debug |
| `PollLoop.Agent.Cycle` | leaf/agent/agent.go:589-600 | a manual cycle takes the trigger; each target is attempted once, in order, and the hook, if set, runs for the successes |
| `PollLoop.ErrorsMeanTheCycleFailed` | leaf/agent/sync_outcomes.go:20-34 | something is logged as an error if and only if no target succeeded and some failure is not benign |
| `PollLoop.NoCallIsLost` | leaf/agent/agent.go:557-607 | each `SyncNow` call has its trigger pending or was taken by a cycle that began after it, and finished cycles attempted each target once in order |
| `PollLoop.PendingCanBeServed` | leaf/agent/agent.go:573-582 | whenever the loop selects, a pending trigger can be taken, and this serves each waiting call |
| `PollLoop.TriggerClearedOnlyByCycle` | leaf/agent/agent.go:579-582 | over any run a pending trigger is cleared only if a further manual cycle has begun |
| `PollLoop.CycleIsRun` | leaf/agent/agent.go:573-600 | what the agent's cycle promises is a run of the loop from one selection to the next, with the same attempts, trigger and hook calls |
| `PollLoop.TimerTicks` | leaf/agent/agent.go:577-587 | a timer tick that is skipped does nothing, one that is not begins a cycle and leaves the trigger |
| `PollLoop.CancelStops` | leaf/agent/agent.go:573-576 | a cancelled loop can stop whenever it selects |
| `PollLoop.StoppedStays` | leaf/agent/agent.go:573-576 | a stopped loop attempts and hooks nothing more, whoever calls `SyncNow` |
| `PollLoop.CyclesAndHooks` | leaf/agent/agent.go:568-607 | manual cycles and the pending trigger never outnumber calls, and over any run a hook that is set has run once for each success, in order |
| `Mesh.NATSMesh.EstablishTunnels` | leaf/agent/nats_mesh.go:149-197 | the last usable port is recorded for exactly the peers that answer and are solicited: all of them by a leaf, those after it in id order by a peer, none by a hub; each other solicited request is an error |
| `Mesh.ExactlyOneSolicits` | leaf/agent/nats_mesh.go:271-282 | of two peers with different ids exactly one solicits the other |
| `Mesh.SolicitingIsAcyclic` | leaf/agent/nats_mesh.go:277-278 | no path of solicitations comes back to where it started |
| `Mesh.TunnelCount` | leaf/agent/nats_mesh.go:166-169 | n peers listing each other solicit n(n-1)/2 tunnels |
| `Mesh.OneTunnelPerPair` | leaf/agent/nats_mesh.go:163-195 | two peers never both record a tunnel to each other, and when their requests are answered exactly one does |
| `Mesh.SolicitedOnly` | leaf/agent/nats_mesh.go:190-194 | whatever fails, recorded ports are not zero and belong to listed, solicited peers |
| `WsConn.Conn.OnMessage` | leaf/wsdialer/conn.go:70-80 | a message goes to the end of the queue, or is dropped when all 256 slots are taken |
| `WsConn.Conn.OnClose` | leaf/wsdialer/conn.go:58-68 | the flag is set and the wake-up marker queued if there is room |
| `WsConn.Conn.Read` | leaf/wsdialer/conn.go:99-118 | answers the first n bytes, or all if fewer, of what is left of the last message or else of the head of the queue, and keeps the rest; exactly when it answers closed, end of file or has to wait |
| `WsConn.ReadsReturnAPrefix` | leaf/wsdialer/conn.go:70-118 | what any reads have answered, put together, is a prefix of the accepted messages' bytes, what is missing is still held in order, and if nothing was dropped it is a prefix of all that was sent |
| `WsConn.NothingDropped` | leaf/wsdialer/conn.go:74-78 | every message is accepted if and only if none arrives at a full queue |
| `WsConn.WaitingReadWakes` | leaf/wsdialer/conn.go:62-66 | a waiting read can proceed once the close callback has run, also when the queue was full |
| `FaultSchedule.GenerateSchedule` | sim/schedule.go:76-171 | the plan of the drawn faults and the final heal, ordered by time with ties in any order; nothing at normal severity |
| `FaultSchedule.PlanFaults` | sim/schedule.go:92-159 | the fault loop appends each fault and its heal, with a clamped 64-bit heal time |
| `FaultSchedule.DrawRanges` | sim/schedule.go:93-150 | exactly the draws the generator can make: offsets before the end, three kinds or five when hostile, listed leaves, heals within their seconds |
| `FaultSchedule.PlanHasEachFault` | sim/schedule.go:92-159 | the plan has each draw's fault, of its kind, target, time and latency, one heal for each partition and latency, and nothing else |
| `FaultSchedule.FaultsBySeverity` | sim/schedule.go:84-90 | an adversarial schedule has two to five faults and no restarts, a hostile one five to ten, any other none, and one final heal |
| `FaultSchedule.FaultProxy.ExecuteSchedule` | sim/harness.go:323-351 | afterwards a target is partitioned if and only if the last event that concerns it partitions it, or there is none and it was before; the latency is what the last event about it sets; connections are gone if an event dropped them |
| `FaultSchedule.NothingAfterTheEnd` | sim/schedule.go:139-164 | no event is later than the duration, and whatever is not a heal is earlier |
| `FaultSchedule.EndsHealthy` | sim/schedule.go:161-168 | for every random choice and tie order, executing the schedule from any proxy state ends with no partition and no latency |
| `FaultSchedule.HealFollowsExactly` | sim/schedule.go:138-158 | a heal comes strictly later than its fault if and only if the 64-bit sum does not overflow |
| `FaultSchedule.PartitionsPrecedeHealsExactly` | sim/schedule.go:138-142 | every partition that can be drawn precedes its heal if and only if the duration leaves five seconds below the largest one |
| `FaultSchedule.FaultsPrecedeHeals` | sim/schedule.go:138-168 | in every schedule, however ties fall, each partition and latency stands before the heal planned with it, at a strictly earlier time: the seconds drawn later, or at the end |

## Left out

- libfossil itself, from its wire format to SQLite: another project's code, present only through the assumptions above.
- What NATS, HTTP, QUIC and the Rust sidecar do to carry a request: a model step says only whether it worked.
- How long anything takes: timeouts, poll intervals and the catchup delay are steps that may come at any point, so nothing here bounds latency.
- How random bytes, hashes, compressed blobs and JSON come about: a draw is a parameter, a hash a string, a file its message or unreadable.
- A publish that fails inside the hook (hub/hub.go:538-545): the same as a notification the network loses.
- Notifications without a peer id (hub/hub.go:495-498), which are dropped: never sent by this code.
- The ci-lock, the post-fork warning and clone: described in documentation, no code for them here.
- Overlapping operations on the thread cache: each access to the map is locked, but what lies between two of them is not modelled.
- Overlapping autosync calls: without a lock nothing stops two clients from passing the fork check together.
- Autosync.RemoteStaysChain: requires each pushing call to be made from a checkout on the branch or with no fork of the branch stored, because otherwise the push forks it, as Autosync.PushChainExactly and Autosync.SideBranchPushForks show.
- FaultSchedule.FaultsPrecedeHeals: requires a duration at least five seconds below the largest 64-bit one, because beyond it a heal can wrap around, as FaultSchedule.PartitionsPrecedeHealsExactly shows.
- ThreadStore.ReadThreadOrder: timestamps before 1970, whose seconds are negative, are not modelled.
- HubNode.CommitIsAnnounced: a call whose scan failed promises nothing, as in the source, where the failure is only logged.
- Watch with no subscriber at all, which returns a closed channel, and Service.Close: no interleaving to speak of.
- WsConn opening, writing and deadlines, and the fault proxy's own connections: foreign calls.
- User administration, the device registry, configuration defaults, the CLI, telemetry and the bridge: they take no part in the protocols above, and each call stands by itself.
