# MicroTAK server: verified core

A Dafny model of the parts of the MicroTAK server whose correctness is not obvious from reading one function, with proofs of what they promise. `dafny verify dfyconfig.toml` checks everything.

The server keeps its state in append-only logs and rebuilds it by replaying them. On that base stand the mission store, the device registry, the enrollment tokens and the groups. Around it stand the enrollment protocol, the mission package archive, the edits of CoT events, the backup, the limiter of failed logins, the cache of latest events and the URL authorization. The files follow that structure.

| files | what they model |
|---|---|
| `LayerOrder`, `LayerChecks`, `LayerMoves`, `LayerSort`, `LayerChains`, `LayerFailures`, `LayerSafety`, `LayerRetries`, `LayerTrees`, `LayerCycles` | map layers: siblings linked by `after`, their order, and the operations that relink them |
| `EventLogs`, `Missions`, `ChangeLog`, `MissionLogs`, `ChangeViews`, `SquashRows`, `SquashTheorems`, `CatchUp`, `MissionStore` | the log, the mission state, the change views, what squashing keeps and what a client makes of it |
| `Registry`, `RegistryStore`, `Tokens`, `Enrollment`, `EnrollmentSafety`, `EnrollmentAnswers`, `EnrollmentDecisions`, `EnrollmentRestarts` | devices, invite tokens, and enrollment as a protocol of interleaved steps |
| `Crc`, `CrcPolynomials`, `Zip`, `ZipDamage` | the checksum and the mission package archive, a reader for it, and what it makes of damage |
| `CotEdit`, `CotLaws` | stripping the routing element and adding a feed source, on token streams |
| `Backup`, `RateLimit`, `LatestCot`, `Access`, `Groups`, `GroupLogs` | the other components |
| `Common` | shared types and facts about sequences and sets |

How things are represented:

- Strings that the code only compares are values of an opaque type `Name`. Paths, patterns and log lines are character sequences.
- Stores are classes. Once a start could read the log, the state is the fold of the log at every point, also when an append fails between two events of one operation. An append that fails leaves the file as it was.
- Enrollment is a state machine. Each request is a session with a program counter; one step is what happens under one lock or in one call. Steps of different requests interleave freely, appends can fail, and the server can crash between any two steps and start again.
- Random tokens, the clock and signatures are parameters. Whether an append or a write succeeds is not determined.
- The iteration order of hash maps is not determined. Where the code sorts afterwards, the result is shown not to depend on it.
- `u16`, `u32` and saturating arithmetic are written out where they matter: archive fields, the checksum, bit positions and failure counts.

What turned out different from what one might expect:

- A log that is there but cannot be opened for reading is taken for a new one (`src/eventlog.rs:85`), and the store starts empty. `EventLogs.EventLog.OpenAndReplay` says exactly when the state is the file's, and `RegistryStores.RevocationOverRestart` what becomes of a revocation.
- A backup pass that cannot look at an existing copy takes it for empty (`src/backup.rs:172`) and appends the whole source to it. `Backup.FilePair.SyncFile` says exactly when a pass leaves a prefix.
- `layer_tree` of a layer that was moved under its own descendant has no finite answer. `LayerCycles.ListingExistsIff` says exactly for which layers there is one.
- An operation on layers that fails between two appends can leave a broken chain (`LayerSafety.AddCanBreak`, `DeleteCanBreak`, `MoveCanBreak`). `LayerSafety` says exactly which operations cannot, from the order shown before them. Repeating an add or a delete completes it. Repeating a move can break the chain for good (`LayerRetries.RepeatCanBreak`), and `LayerRetries.MoveRepeatsIff` says exactly when it completes.
- A backup that is a prefix of its log can end inside a line, and then a server does not start from it (`Backup.BackupStartsIff`, `Backup.TornBackup`).
- `add_feed_source` replaces a self-closed `detail` and drops its attributes. `CotLaws.NothingElseChangesIff` says exactly when nothing is lost.
- A limit of zero failures in `ratelimit.rs` lets one failure through, like a limit of one.
- The limiter's windows are fixed, so an interval as long as a window can see almost twice the limit. The bound is `RateLimit.AtMostTwiceLessOne`, and `RateLimit.BoundReached` shows that it cannot be lower.
- Squashing dates a re-added item by the latest date among the rows it merges. Timestamps survive squashing exactly under `SquashTheorems.ReplaySquashedTimes`, and `SquashTheorems.BackdatedAdd` is a log in which one does not.
- The squashed view drops a removal dated before the mission, and a client that catches up from it then keeps the item (`CatchUp.EarlyRemovalMissed`). `CatchUp.CatchesUpIff` says exactly when it ends with the present items.
- The comment at `src/registry.rs:161` says lifting a block is not implemented. It is (`src/registry.rs:416-431`), and the model follows the code.
- The comment on enrollment tokens says they are needed once the admin has enrolled. In `Auto` mode the code needs them from the start (`src/marti/enrollment.rs:81-86`), and the model follows the code.
- Bit positions are `u32` and wrap. `Groups.BitsRepeatIff` says exactly when two creations share one, and `Groups.AnonymousBitShared` is a log in which a group gets that of the anonymous group.

## Model

| member | source | states |
|---|---|---|
| `LayerOrder.HasCycle` | src/missions.rs:1081-1095 | the walk along `after` links reports a cycle exactly if it comes back to the layer it started from or to a layer already seen; it always ends |
| `LayerOrder.ChainUnique` | src/missions.rs:1040-1079 | the same siblings form at most one after-chain |
| `LayerOrder.OrderedUnique` | src/missions.rs:1040-1079 | the order shown for siblings is a permutation of them and the same for every order they are stored in |
| `LayerChecks.ChainExists` | src/missions.rs:1040-1079 | siblings that pass the checks can be extended from any partial chain to one that takes in all of them |
| `LayerChecks.ChecksDecide` | src/missions.rs:1041-1052 | the checks at the start of the sort pass exactly if the siblings form one chain |
| `LayerSort.FormChain` | src/missions.rs:1041-1052 | the checking loop accepts exactly the siblings that form one chain |
| `LayerMoves.MoveDecreases` | src/missions.rs:1053-1078 | every swap or move to the end keeps a permutation and lowers a three-part measure, so the sorting loop ends |
| `LayerSort.FindStray` | src/missions.rs:1056-1074 | finds a layer that is not followed by its successor, if there is one |
| `LayerSort.SortLayers` | src/missions.rs:1037-1079 | ends on every input and returns a permutation of it: the chain if there is one, else the input unchanged; the result is the order the siblings determine |
| `LayerChains.LinkedIsOrder` | src/missions.rs:1040-1079 | siblings linked along a list of uids are shown in that order |
| `LayerChains.ChainIsLinked` | src/missions.rs:1040-1079 | siblings that form a chain are linked along the order shown |
| `LayerChains.FindFixup` | src/missions.rs:2077-2113 | what the relinking pass does to every single layer of the mission |
| `LayerChains.AddRefines` | src/missions.rs:2115-2132 | adding keeps every chain whole and is insert-after on the ordered list of its parent; other lists stay |
| `LayerChains.AddKeepsChainIff` | src/missions.rs:2115-2132 | adding keeps the chains whole exactly if the uid is fresh and the predecessor, if any, is a sibling under the same parent |
| `LayerChains.DeleteRefines` | src/missions.rs:2203-2227 | deleting keeps every chain whole and removes the uid from the list it was in |
| `LayerChains.MoveIsDeleteThenAdd` | src/missions.rs:2148-2201 | the in-place relinking of a move leaves every layer as a delete followed by an add would: same place, to the head, next to the successor and across parents included |
| `LayerChains.MoveRefines` | src/missions.rs:2148-2201 | moving keeps every chain whole and relocates the uid on the ordered lists |
| `LayerChains.MoveKeepsChainIff` | src/missions.rs:2148-2201 | moving keeps the chains whole exactly if the new predecessor, if any, is another layer under the new parent |
| `LayerChains.RenameRefines` | src/missions.rs:2134-2146 | renaming changes no list |
| `LayerChains.FindRename` | src/missions.rs:2134-2146 | renaming gives the layer its new name and touches nothing else |
| `LayerChains.RunsRefine` | src/missions.rs:2075-2227 | every run of permitted adds, moves, renames and deletes keeps each parent's siblings one chain and shows the lists an abstract list per parent would hold |
| `LayerTrees.PathUnique` | src/missions.rs:2030-2073 | with distinct uids, and no path back to the layer it starts under, there is only one path of parents to a layer |
| `LayerTrees.Build` | src/missions.rs:2033-2046 | the recursion ends even with cyclic parents elsewhere and lists, in chain order, what is below a parent |
| `LayerTrees.LayerTrees` | src/missions.rs:2030-2048 | lists exactly the layers whose parents lead to the top, each once, siblings in order |
| `LayerTrees.LayerTree` | src/missions.rs:2051-2073 | for a layer that is not on a cycle of parents the recursion ends and lists exactly its descendants, each once, every level in order; an unknown uid gives nothing |
| `LayerCycles.ListingExistsIff` | src/missions.rs:2051-2073 | with distinct uids a listing from one layer down exists exactly if the layer is not a proper ancestor of itself |
| `LayerCycles.CycleReachable` | src/missions.rs:2148-2201 | a run of permitted operations that moves a layer under its own child, after which no such listing exists |
| `LayerFailures.OneLink` | src/missions.rs:2077-2113 | the links of a chain other than one determine that one |
| `LayerFailures.FixupKeepsChainIff` | src/missions.rs:2077-2113 | relinking the followers in a chain, and nothing else, leaves a chain exactly if it changes nothing |
| `LayerFailures.FailedAddIff` | src/missions.rs:2115-2132 | an add cut short by a failed append leaves the layers chained exactly if it left them as they were |
| `LayerFailures.FailedDeleteIff` | src/missions.rs:2203-2227 | the same of a delete |
| `LayerFailures.FailedMoveIff` | src/missions.rs:2148-2201 | a permitted move cut short leaves the layers chained exactly if it changed nothing or everything |
| `LayerSafety.BehindIffNotLast` | src/missions.rs:1040-1079 | in a chain something stands behind every place of a list but its last |
| `LayerSafety.FixupSafeIff` | src/missions.rs:2077-2113 | relinking followers alone keeps a chain exactly if there are none |
| `LayerSafety.AddSafeIff` | src/missions.rs:2115-2132 | every point at which an add can fail leaves a chain exactly if nothing else stands right behind its place, or it is put behind itself, which relinks nothing |
| `LayerSafety.PermittedAddSafeIff` | src/missions.rs:2115-2132 | for a permitted add: exactly if it goes last in its list |
| `LayerSafety.DeleteSafeIff` | src/missions.rs:2203-2227 | every point at which a delete can fail leaves a chain exactly if the layer is the last of its list |
| `LayerSafety.MoveSafeIff` | src/missions.rs:2148-2201 | every point at which a permitted move can fail leaves a chain exactly if the layer is the last of its old list, goes last in the new one, and no parent is stored before a predecessor |
| `LayerSafety.RowReached` | src/missions.rs:2115-2132 | permitted adds reach every list of distinct layers |
| `LayerSafety.AddCanBreak` | src/missions.rs:2115-2132 | a layer added before another and not saved: the other comes after a layer that is not there |
| `LayerSafety.DeleteCanBreak` | src/missions.rs:2203-2227 | the first of two layers deleted, the deletion not saved: both come first |
| `LayerSafety.MoveCanBreak` | src/missions.rs:2148-2201 | the second of two layers moved before the first, its place not saved: each comes after the other |
| `LayerRetries.AddRepeats` | src/missions.rs:2115-2132 | repeated, an add that failed at any point ends where it would have |
| `LayerRetries.DeleteRepeats` | src/missions.rs:2203-2227 | the same of a delete |
| `LayerRetries.MoveRepeatsIff` | src/missions.rs:2148-2201 | repeated, a permitted move that failed ends where it would have, wherever it failed, exactly if the layer goes last, or no parent is stored before a predecessor and the layer changes its list, stays where it was or goes one place up |
| `LayerRetries.RepeatedMoveIff` | src/missions.rs:2148-2201 | a repeated move that does not end where it would have leaves a broken chain |
| `LayerRetries.RepeatCanBreak` | src/missions.rs:2148-2201 | the first of three layers moved behind the second, its predecessor not saved, and the move repeated: the other two both come first |
| `EventLogs.FoldConcat` | src/eventlog.rs:78-129 | replaying a log is replaying its tail on the state of its head |
| `EventLogs.EventLog.OpenAndReplay` | src/eventlog.rs:78-129 | the state is the fold of the records that could be read; the first line that does not parse refuses the file and is named; a file that cannot be opened for reading counts as new, so the state is the fold of the file exactly if it could be read or its records lead back to the start |
| `EventLogs.EventLog.Append` | src/eventlog.rs:131-143 | adds one record at the end, or fails and adds nothing |
| `ChangeLog.ReplayIsLatestAdds` | src/missions.rs:890-947 | replaying content rows one by one leaves the items whose latest row is an add, in the order of those rows |
| `ChangeLog.EventKeeps` | src/missions.rs:637-1020 | every event keeps ids dense, rows attached to missions and contents equal to the replay of the rows |
| `ChangeLog.ReachableInv` | src/missions.rs:637-1020 | so in every state a log of the store can lead to, ids equal log positions and contents replay the log |
| `ChangeViews.FullView` | src/missions.rs:1449-1463 | the full view is the rows of the mission in the window, newest id first |
| `ChangeViews.GroupRows` | src/missions.rs:1464-1533 | one pass over the log leaves, for each group of merged rows, the newest row with the greatest times of its group, and lists all other rows that are shown |
| `ChangeViews.SquashCorrect` | src/missions.rs:1457-1541 | grouping, collecting and sorting yields the squashed view, whatever order the map is iterated in |
| `ChangeViews.SquashedView` | src/missions.rs:1449-1543 | the squashed view holds, once each and newest first, the rows that its declarative definition keeps |
| `SquashRows.OnlyInView` | src/missions.rs:1457-1461 | the squashed view shows rows of the mission in the window only |
| `SquashRows.LifecycleShownIff` | src/missions.rs:1479-1483 | creations and deletions are shown as they are, exactly those not dated before any creation of the mission |
| `SquashRows.ListedShownIff` | src/missions.rs:1484-1497 | map layers and feeds are shown as they are, exactly those not dated before the mission |
| `SquashRows.ContentShownIff` | src/missions.rs:1512-1531 | of content exactly the adds of what is there and the removals of what is not are shown, not dated before the mission, the newest of those by one creator, with the latest dates of those |
| `SquashRows.ExternalShownIff` | src/missions.rs:1498-1511 | of external data exactly the newest of those that say the same by one creator, with the latest dates of those |
| `SquashTheorems.SquashFromStart` | src/missions.rs:1457-1541 | if server times never fall, the squashed view from a time on has exactly the ids of the whole squashed view dated at or after it, in strictly falling order |
| `SquashTheorems.PresentIff` | src/missions.rs:890-947 | an item is in the contents exactly if its latest content change is an add |
| `SquashTheorems.ContentsAre` | src/missions.rs:890-947 | the contents carry the time and creator of those adds, in the order of their ids |
| `SquashTheorems.ReplaySquashed` | src/missions.rs:1449-1543 | replaying only the squashed rows rebuilds the contents: same items, same order, same creators |
| `SquashTheorems.ReplaySquashedTimes` | src/missions.rs:1449-1543 | the timestamps are the same too exactly if each latest add is dated last among the rows it stands for |
| `SquashTheorems.BackdatedReached` | src/missions.rs:1384-1417 | a log the store can have written: a mission created at 0, an item added at 5 and again at 3 |
| `SquashTheorems.BackdatedAdd` | src/missions.rs:1449-1543 | its squashed view dates the item 5 while the contents date it 3 |
| `SquashTheorems.RisingTimesDateLast` | src/missions.rs:1457-1541 | which holds whenever times never fall along the log |
| `SquashTheorems.ReplaySquashedExactly` | src/missions.rs:1449-1543 | so with times that never fall the contents are rebuilt exactly |
| `CatchUp.CatchesUp` | src/missions.rs:1449-1543 | the squashed rows since a time, replayed onto what the rows before it lead to, give the present items in order and with their creators, if no item's latest change is dated before the mission |
| `CatchUp.ClientCatchesUp` | src/missions.rs:1449-1543 | so a client with the contents after any number of events gets to the present ones |
| `CatchUp.CatchesUpIff` | src/missions.rs:1449-1543 | whatever the client has, it ends with the present items exactly if the rows since then, not dated before the mission, tell of every item in which it and the mission differ |
| `CatchUp.EarlyRemovalReached` | src/missions.rs:1419-1441 | a log the store can have written in which an item is removed with a date before the mission |
| `CatchUp.EarlyRemovalMissed` | src/missions.rs:1512-1518 | the squashed view does not show that removal, and the client keeps the item |
| `MissionLogs.FeedsReadLog` | src/missions.rs:666-702 | after every log a feed is there exactly if the latest event about it added it |
| `MissionLogs.ExternalReadsLog` | src/missions.rs:739-787 | an external record is stored exactly as the latest event about it set it, if that did not remove it |
| `MissionLogs.MapLayersReadLog` | src/missions.rs:703-738 | a map layer is there exactly if it was ever saved |
| `MissionLogs.MissionsReadLog` | src/missions.rs:788-889 | a mission is there exactly if it was created, as it was created, and deleted exactly if it ever was |
| `MissionLogs.RowsReadLog` | src/missions.rs:637-947 | each row was left by exactly one event, with the mission, creator, dates and subject the event gives |
| `MissionStores.MissionStore.LoadOrCreate` | src/missions.rs:1124-1131 | a restart rebuilds the state the log stands for exactly if the log could be read or leads back to an empty store |
| `MissionStores.MissionStore.Record` | src/missions.rs:1133-1139 | state and log change together or not at all |
| `MissionStores.MissionStore.Create` | src/missions.rs:1150-1179 | a new mission, or the state unchanged; the state stays the fold of the log |
| `MissionStores.MissionStore.Delete` | src/missions.rs:1349-1370 | deletes an existing mission; unknown missions are refused |
| `MissionStores.MissionStore.AddContentAt` | src/missions.rs:1384-1406 | records the add; unknown missions are refused |
| `MissionStores.MissionStore.RemoveContentAt` | src/missions.rs:1419-1441 | records the removal, whether the item is there or not; unknown missions are refused |
| `MissionStores.MissionStore.Changes` | src/missions.rs:1449-1543 | returns the full or the squashed view, or an error for an unknown mission |
| `MissionStores.MissionStore.FixupAfter` | src/missions.rs:2077-2113 | relinks layer by layer; if an append fails part-way the state is still the fold of the log, and with a single follower nothing changed |
| `MissionStores.MissionStore.AddLayer` | src/missions.rs:2115-2132 | on success the layers are those with the layer added; a failure leaves chained layers chained exactly if it left them as they were, and always if the layer was to go last |
| `MissionStores.MissionStore.RenameLayer` | src/missions.rs:2134-2146 | on success the layers are those with the layer renamed |
| `MissionStores.MissionStore.MoveLayer` | src/missions.rs:2148-2201 | on success the layers are those with the layer moved; a permitted move that fails leaves chained layers chained exactly if it changed nothing or everything, and always if nothing follows the layer or its new place and no parent is stored before a predecessor |
| `MissionStores.MissionStore.DeleteLayer` | src/missions.rs:2203-2227 | on success the layers are those without the layer; a failure leaves chained layers chained exactly if it left them as they were, and always if the layer was the last of its list |
| `MissionStores.MissionStore.LayerTreesOf` | src/missions.rs:2030-2048 | the trees of the mission, in whatever state moves left its parent links |
| `MissionStores.MissionStore.LayerTreeOf` | src/missions.rs:2051-2073 | one layer of the mission with exactly its descendants, if it is not on a cycle of parents |
| `Registry.StateReadsLog` | src/registry.rs:447-500 | devices, blocks, revocations and certificate rows are what the log says, event by event |
| `Registry.AccessReadsLog` | src/registry.rs:323-333 | access is allowed exactly if the name is not blocked by the log and the fingerprint was never revoked |
| `Registry.RevokedForGood` | src/registry.rs:380-431 | after a revocation no later events whatever make access allow that fingerprint |
| `Registry.BlockHoldsUntilLifted` | src/registry.rs:303-320 | a block holds through anything but an unblock of that name, re-enrollment included |
| `Registry.IdIssuedOnce` | src/registry.rs:447-500 | two enrollments never get the same certificate id |
| `Registry.IdsNeverReused` | src/registry.rs:350-365 | after deletes an id names the row it was issued for or none |
| `RegistryStores.DeviceRegistry.LoadOrCreate` | src/registry.rs:147-161 | the state is the fold of the file exactly if the file could be read or leads back to an empty registry |
| `RegistryStores.RevocationOverRestart` | src/registry.rs:147-161 | a revocation in the file outlasts a restart, whatever follows, exactly if the file could be read; else only what follows counts |
| `RegistryStores.BlockOverRestart` | src/registry.rs:147-161 | the same of a block that nothing lifts |
| `RegistryStores.UnreadableLogForgets` | src/registry.rs:147-161 | a log that cannot be read, after which a revoked certificate is let in |
| `RegistryStores.DeviceRegistry.Enroll` | src/registry.rs:174-200 | the name gets the certificate, whether it was enrolled or not |
| `RegistryStores.DeviceRegistry.EnrollNew` | src/registry.rs:212-234 | refuses a name that is enrolled and then changes nothing |
| `RegistryStores.DeviceRegistry.Block` | src/registry.rs:303-320 | blocks an enrolled name; unknown names are refused |
| `RegistryStores.DeviceRegistry.Unblock` | src/registry.rs:416-431 | lifts the block; unknown names are refused |
| `RegistryStores.DeviceRegistry.RevokeCert` | src/registry.rs:380-400 | the fingerprint is revoked afterwards |
| `RegistryStores.DeviceRegistry.DeleteCerts` | src/registry.rs:350-365 | removes the rows with the given ids and returns which were there |
| `RegistryStores.DeviceRegistry.GetAccess` | src/registry.rs:323-333 | a block decides before a revocation, a revocation before permission |
| `Tokens.StateReadsLog` | src/enrollment_tokens.rs:242-285 | a token is used exactly if the log consumed it, by whom and when the log says |
| `Tokens.ConsumedAtMostOnce` | src/enrollment_tokens.rs:185-213 | no log of the store consumes a token twice |
| `Tokens.AcceptedIff` | src/enrollment_tokens.rs:61-77 | after every log of the store a token is accepted for a name exactly if it was minted, not consumed or revoked, has not expired and is bound to no other name |
| `Tokens.RefusedBecause` | src/enrollment_tokens.rs:185-201 | and which refusal it gets: unknown, revoked, used, expired or bound to another name, in that order |
| `Tokens.TokenStore.LoadOrCreate` | src/enrollment_tokens.rs:118-130 | the tokens are the fold of the file exactly if the file could be read or leads back to none |
| `Tokens.TokenStore.Mint` | src/enrollment_tokens.rs:155-183 | a new token that passes the check exactly for its name and until it expires |
| `Tokens.TokenStore.ValidateAndConsume` | src/enrollment_tokens.rs:185-213 | refusals in their order leave the token unspent; success spends it for that name and for good |
| `Tokens.TokenStore.Revoke` | src/enrollment_tokens.rs:220-233 | a revoked token is refused for everyone from then on |
| `EnrollmentSafety.NextKeeps` | src/marti/enrollment.rs:231-410 | every step of any request, administrator, crash or start keeps the invariant that ties sessions, tokens, registry and bootstrap together |
| `EnrollmentSafety.RunInv` | src/marti/enrollment.rs:231-410 | so every state of every interleaved run satisfies it |
| `EnrollmentSafety.TokensPayForEnrollments` | src/marti/enrollment.rs:349-390 | when enrolling needs a token, each enrollment that is neither by password nor of the admin was paid with a token consumed by that same name, and no two with the same token |
| `EnrollmentSafety.CreatedAtMostOnce` | src/marti/enrollment.rs:262-390 | a name is newly enrolled at most once: any later enrollment of it had its password verified in that very request |
| `EnrollmentSafety.CertificateChangesByPassword` | src/marti/enrollment.rs:263-315 | the certificate of an enrolled name changes only in a step of a request whose password was verified for that name |
| `EnrollmentSafety.ProofsWereTrue` | src/marti/enrollment.rs:263-279 | each verification a request relies on was true in an earlier state of the run |
| `EnrollmentSafety.AdminEnrolledAtMostOnce` | src/marti/enrollment.rs:316-348 | the admin is enrolled at most once, and only with the bootstrap token; which token is in `EnrollmentAnswers.EntriesAreBacked` |
| `EnrollmentSafety.TokenOutstandingIffNotEnrolled` | src/bootstrap.rs:66-128 | whenever the server runs and the bootstrap lock is free, the token is outstanding exactly if the admin is not enrolled, over failed actions, crashes between insert and file removal, and restarts |
| `EnrollmentSafety.BootstrapTokenStays` | src/bootstrap.rs:66-93 | until the admin is enrolled the same token stays in the file through any crashes and restarts |
| `EnrollmentAnswers.AnswersAreTrue` | src/marti/enrollment.rs:231-410 | in every state of every run a request has an entry in the history exactly if it was inserted and told so, or is about to be; none has two; one that is told its name is enrolled is told the truth |
| `EnrollmentAnswers.EntriesAreBacked` | src/marti/enrollment.rs:316-390 | over every run a new entry is that of a request under way, with its name, certificate and client uid; the admin's carries the token the server and its file held until then and which the request presented, any other token was presented by its request too |
| `EnrollmentAnswers.BlockedGetsNothing` | src/marti/enrollment.rs:263-390 | a request that arrives while its name is blocked, and stays blocked, is not enrolled |
| `EnrollmentDecisions.EnrolledIffEntitled` | src/marti/enrollment.rs:231-410 | a request left alone can be carried to its enrollment exactly if a table of conditions on its credentials and the state it arrives in says so |
| `EnrollmentDecisions.AnswersSayWhy` | src/marti/enrollment.rs:316-410 | a failure is told to one that was entitled; a refusal, elsewhere than where anybody can be refused, and that the name is there, to one that was not |
| `EnrollmentRestarts.StartKeepsIff` | src/eventlog.rs:78-129 | a start that cannot read the registry or the tokens keeps the invariant of the runs exactly if nobody was enrolled yet, and nobody by a token, respectively |
| `EnrollmentRestarts.AdminForgotten` | src/bootstrap.rs:66-93 | a start that cannot read the registry offers a bootstrap token although the admin was enrolled |
| `Crc.FeedByte` | src/zip.rs:9-16 | the bit loop is eight shift steps of the register combined with the byte |
| `Crc.ComputeCrc32` | src/zip.rs:6-19 | the byte loop feeds the data to the register from all ones and complements it |
| `Crc.ShiftLinear` | src/zip.rs:11-15 | the shift step distributes over exclusive or |
| `Crc.ShiftInjective` | src/zip.rs:11-15 | and never maps two registers to one |
| `Crc.BurstDetected` | src/zip.rs:6-19 | any change confined to four consecutive bytes changes the checksum, whatever comes before and after |
| `Crc.Residue` | src/zip.rs:6-19 | data followed by its own checksum, lowest byte first, has the published residue 0x2144df1c |
| `CrcPolynomials.ShiftDivides` | src/zip.rs:11-15 | a shift multiplies by x and takes the generator of IEEE 802.3, given by its exponents, away if the result is too long |
| `CrcPolynomials.FeedDivides` | src/zip.rs:8-17 | feeding data into the register divides by that generator |
| `CrcPolynomials.CrcIsRemainder` | src/zip.rs:6-19 | the checksum is the complement of the remainder of the data, its first 32 bits complemented, with 32 zeros behind it |
| `CrcPolynomials.OneRemainder` | src/zip.rs:6-19 | there is only one remainder |
| `Zip.Stored` | src/zip.rs:22-63 | the loop produces local headers with data, central headers and the end record; under 4 GiB the reader gets the files back exactly if every name and the number of files fit their fields |
| `Zip.ToByteIs` | src/zip.rs:8-9 | the bytes fed into the checksum are those of the file |
| `Zip.LocalPlace` | src/zip.rs:27-45 | every file's local header stands at the offset its central header gives |
| `Zip.CentralPlace` | src/zip.rs:46-62 | every central header stands where the headers before it end |
| `Zip.ReadWithin` | src/zip.rs:22-63 | no archive makes the reader return more files or longer names than the fields can say |
| `Zip.RoundTrip` | src/zip.rs:22-63 | for an archive under 4 GiB, a strict reader (signatures, version, flags, method, dates, both copies of sizes and checksum, one disk, directory in place) that follows sections 4.3.7, 4.3.12 and 4.3.16 of PKWARE's APPNOTE gets back exactly the files, in order, if and only if every name and the number of files fit sixteen bits |
| `ZipDamage.DamageRefused` | src/zip.rs:6-63 | that reader refuses an archive in which any file's stored data was changed within four consecutive bytes |
| `CotEdit.ReadToEnd` | src/cot.rs:335-349 | skipping to the end tag of an element counts nested elements of the same name, and fails on a mismatched tag or the end of input |
| `CotEdit.StripMarti` | src/cot.rs:328-364 | on any token stream the loop computes the step function's run; on every document it removes exactly the first `/event/detail/marti` |
| `CotEdit.AddFeedSource` | src/cot.rs:259-326 | on every document the loop appends the source to the first `detail` of the root, or to a new last one in an `event` without any |
| `CotEdit.ForestPasses` | src/cot.rs:286-364 | away from the elements they look for, both loops pass over any tree unchanged |
| `CotEdit.StripIs` | src/cot.rs:328-364 | the run of the stripping loop over a printed document is the printed stripped document |
| `CotEdit.AddIs` | src/cot.rs:259-326 | the run of the adding loop over a printed document is the printed extended document |
| `CotLaws.EditsCommute` | src/cot.rs:259-364 | the two edits can be made in either order on every document |
| `CotLaws.LoopsCommute` | src/cot.rs:259-364 | so can the two loops on the token stream |
| `CotLaws.StripRemovesOne` | src/cot.rs:328-364 | stripping takes away exactly one `/event/detail/marti` if there is one, and is the identity exactly if there is none |
| `CotLaws.AddKeepsRoutes` | src/cot.rs:259-326 | adding a source leaves their number as it is |
| `CotLaws.NothingElseChangesIff` | src/cot.rs:301-308 | taking the source out again gives back the event, up to an empty `detail`, exactly if its first `detail` is not self-closed with attributes |
| `CotLaws.AttributeLost` | src/cot.rs:301-308 | an event whose self-closed `detail` loses its attribute |
| `Backup.FilePair.CopyTail` | src/backup.rs:182-195 | appends what the source has from a position on, in full or, on a partial write, a part; from the end of a copy that is a prefix it makes another prefix |
| `Backup.FilePair.SyncFile` | src/backup.rs:170-196 | with appends between any two calls and a failure at any call: if the copy was looked at, or is empty, a prefix stays a prefix, a completed pass holds all the source held at its start, and a wrong copy is repaired exactly if it was longer than the source looked; if a look at a copy fails, the whole source goes behind it, and a completed pass leaves a prefix of what it read exactly if it did not |
| `Backup.FilePair.RunPeriodic` | src/backup.rs:119-134 | over any number of passes, while no look at a copy failed, the copy stays a prefix and never shrinks |
| `Backup.MistakenCopy` | src/backup.rs:172-189 | a copy taken for empty: what it then holds agrees with no later state of the file |
| `Backup.PrefixLines` | src/backup.rs:163-169 | the whole lines of a prefix are a prefix of the whole lines |
| `Backup.BackupReplaysAState` | src/backup.rs:163-196 | the whole lines of any backup of a log parse, and replay to the state the store had after some number of its events |
| `Backup.BackupStartsIff` | src/eventlog.rs:85-104 | a server started from a backup finds a line that does not parse, and refuses, exactly if the backup ends inside a line; if only the line break is missing, the last event is replayed too |
| `Backup.TornBackup` | src/backup.rs:192-193 | a copy cut short inside a line is still a prefix, and is refused |
| `Backup.BackupIsRecent` | src/backup.rs:163-196 | a backup completed after some events were written replays at least those |
| `RateLimit.AuthLimiter.IsBlockedAt` | src/ratelimit.rs:79-84 | blocked is: an entry whose window has not passed and whose count reached the limit |
| `RateLimit.AuthLimiter.RecordFailureAt` | src/ratelimit.rs:86-111 | the table after a failure; it stays within its bound and no live entry of another key is dropped |
| `RateLimit.TableBounded` | src/ratelimit.rs:86-111 | over every run the table never exceeds its bound |
| `RateLimit.TrackedIff` | src/ratelimit.rs:86-111 | a failing key is tracked exactly if it was, or there was room, or an expired entry makes room; other keys lose only expired entries, and only then |
| `RateLimit.LiveKept` | src/ratelimit.rs:86-111 | over every run a live entry stays, with its window start, and its count does not fall |
| `RateLimit.BlockEnds` | src/ratelimit.rs:79-111 | a block ends with its window, whatever was recorded meanwhile, unless the key failed again after it |
| `RateLimit.RunFillsWindows` | src/ratelimit.rs:79-111 | the failures of a key that was checked before each fill windows one after another, each from its first failure on and never beyond the limit |
| `RateLimit.FarApart` | src/ratelimit.rs:79-111 | a failure and the one that comes twice the limit less one later are at least a window apart |
| `RateLimit.AtMostTwiceLessOne` | src/ratelimit.rs:79-111 | any interval as long as a window admits at most twice the limit less one failed attempts of a key; a limit of zero works like one |
| `RateLimit.BoundReached` | src/ratelimit.rs:79-111 | for every limit, zero included, and every window of two ticks or more some run reaches that bound |
| `LatestCot.LatestCot.Record` | src/latest_cot.rs:65-88 | a new uid in a full cache replaces one of least time; the cache stays within its bound and stays one the history leads to |
| `LatestCot.LatestCot.Get` | src/latest_cot.rs:90-92 | an answer is always the last event recorded for the uid; if times rose there is one exactly if the uid is among the most recently recorded up to the bound |
| `LatestCot.Oldest` | src/latest_cot.rs:71-76 | the scan returns an entry of least time |
| `LatestCot.RecordReflects` | src/latest_cot.rs:65-88 | one more event keeps the cache equal to what the whole history says |
| `LatestCot.KeptIsLast` | src/latest_cot.rs:65-92 | whatever the times, what the cache keeps for a uid is the last event recorded for it |
| `LatestCot.CacheReflectsHistory` | src/latest_cot.rs:65-92 | after every history with strictly rising times the cache holds exactly the most recently recorded uids up to the bound, each with its last event |
| `Access.MatchSegmentIff` | src/marti/access.rs:997-1009 | a segment matches exactly if its characters can be cut into stretches for the pattern's characters, any stretch for `*`, one equal character for each other |
| `Access.MatchSegmentsIff` | src/marti/access.rs:985-995 | a path matches exactly if its segments can be cut into stretches for the pattern's, any stretch for `**`, one matching segment for each other |
| `Access.SegmentsJoin` | src/marti/access.rs:979-983 | splitting at a slash concatenates the segments of the two parts |
| `Access.Covers` | src/marti/access.rs:985-995 | whatever matches a pattern that starts with given segments matches those segments followed by `**` |
| `Access.Deciding` | src/marti/access.rs:1033-1035 | the rule found applies and none before it does |
| `Access.ShadowedRulesAreDead` | src/marti/access.rs:1027-1041 | in any table, rules for a path or something under it behind a method-free `**` rule for that path can be deleted, any choice of them, without changing a verdict for any method and path |
| `Access.DeletingShadowedRules` | src/marti/access.rs:1027-1041 | so deleting them changes nothing for any user |
| `Access.LastRuleIsDead` | src/marti/access.rs:965-974 | in the table the last rule, behind the one for everything, never decides |
| `Access.AdminHoldsUserRoles` | src/marti/access.rs:1012-1024 | the list of the admin's roles contains that of a user's; what the lists are for is in `Access.UserAllowedIff` |
| `Access.AdminMayWhatUsersMay` | src/marti/access.rs:1012-1041 | so whatever is allowed a user is allowed the admin |
| `Access.AppliesIff` | src/marti/access.rs:1033-1035 | a rule applies exactly to its method, in any case of letters, or to all, and to the paths its pattern can be laid along |
| `Access.UserAllowedIff` | src/marti/access.rs:1012-1041 | in every table a user who is not the admin is allowed exactly what is under the server's own administration, what no rule decides, and what the first rule that applies opens to one of the three roles a user has |
| `Access.AdminAllowedIff` | src/marti/access.rs:1012-1041 | the same of the admin and five roles |
| `Access.AdminOnly` | src/marti/access.rs:1027-1041 | what the first rule that applies opens to admins alone is refused to every other user and open to the admin |
| `Groups.MergeIsUnion` | src/groups.rs:77-94 | merging memberships is the union of their directions |
| `Groups.GrantsFrom` | src/groups.rs:105-126 | each group named in the lists gets the union of what the lists say, each other group nothing |
| `Groups.NamesAlwaysExist` | src/groups.rs:478-526 | over every run memberships and switched-off sets name only existing groups, and the anonymous group keeps bit zero |
| `GroupLogs.MembersReadLog` | src/groups.rs:498-520 | after every log an identity is a member of a group exactly if the latest event on that membership, or deletion of the group, gave it one, and with that membership |
| `GroupLogs.OffReadsLog` | src/groups.rs:498-526 | a group is switched off exactly if the identity's latest choice, or deletion of the group, switched it off |
| `GroupLogs.GroupsReadLog` | src/groups.rs:480-504 | a group exists, with the position of its number, exactly if its latest creation came after its latest deletion |
| `GroupLogs.RoutingReadsLog` | src/groups.rs:408-425 | what routing uses follows from the log: the memberships that cover the direction, or the anonymous group if there are none, unless switched off |
| `Groups.BitsRepeatIff` | src/groups.rs:480-496 | two creations get the same bit position exactly if their numbers differ by a multiple of two to the 32 |
| `Groups.BitsNeverRepeat` | src/groups.rs:480-496 | with fewer than two to the 32 creations no position is assigned twice, nor the anonymous group's at all |
| `Groups.BitsStayDistinct` | src/groups.rs:478-526 | so existing groups have distinct positions |
| `Groups.ChurnLegit` | src/groups.rs:258-298 | one group can be created and deleted any number of times |
| `Groups.AnonymousBitShared` | src/groups.rs:480-496 | a log the store can have written in which creation number two to the 32 gets the anonymous group's position |
| `Groups.NamesOfBits` | src/groups.rs:459-467 | looking positions up gives back the existing groups they came from |
| `Groups.BitsActivateLikeNames` | src/marti/groups.rs:141-161 | activating by bits records exactly what activating by names does |
| `Groups.GrantedBySet` | src/groups.rs:334-358 | order and repetition of grants do not matter |
| `Groups.GrantsCommute` | src/groups.rs:334-358 | two lists of the same grants leave the same memberships |
| `Groups.GroupStore.LoadOrCreate` | src/groups.rs:233-241 | the state is the fold of the file exactly if the file could be read or leads back to a fresh store |
| `Groups.GroupStore.Create` | src/groups.rs:258-277 | refuses bad, anonymous and existing names; otherwise the group exists with the next position |
| `Groups.GroupStore.Delete` | src/groups.rs:281-295 | removes the group from the table, every membership and every switched-off set |
| `Groups.GroupStore.SetMember` | src/groups.rs:311-329 | afterwards the identity is a member of the group exactly if a membership was given, with that one; every other membership is as before |
| `Groups.GroupStore.FirstMissing` | src/groups.rs:302-308 | the first granted group that does not exist |
| `Groups.GroupStore.GrantAll` | src/groups.rs:334-358 | an unknown group refuses the list and changes nothing; success adds up exactly the granted directions; a failing append part-way adds none that were not granted |
| `Groups.GroupStore.SetActive` | src/groups.rs:439-456 | afterwards exactly the named memberships are active, at least one of them, and nothing changes for others |

## Left out

- Mission passwords, roles, keywords, subscriptions, invitations and log entries: they are plain field updates next to the modelled ones.
- Lookups and listings of the stores beyond what the rows above name: they only read.
- EventLogs.EventLog.Append: does not model torn lines or a failed `fsync`, which leaves a line the state does not show; an append either happens or does not. `Backup.BackupReplaysAState` is about the whole lines of a backup; what a start makes of a torn last line is `Backup.BackupStartsIff`.
- EventLogs.EventLog.OpenAndReplay: does not model a read error in the middle of the file or a failed open for appending; both are errors on which the server does not start.
- EnrollmentSafety.RunInv: is about runs in which each start can read its logs; what becomes of the invariant at one that cannot is `EnrollmentRestarts.StartKeepsIff`.
- MissionStores.MissionStore.Create: takes the guid to be new, because callers draw it at random; a guid drawn twice would replace the mission.
- Tokens.TokenStore.Mint: takes the token to be new, because it is drawn at random.
- LayerTrees.LayerTrees: takes uids to be distinct, as clients make them; the store does not check.
- Backups of files that are rewritten instead of appended, the walk over directories and the offsite command.
- X.509, Argon2, HMAC and SHA-256: signatures, password checks and fingerprints are abstract.
- The limiter and the group lookup inside the enrollment protocol: there a request may be refused at those points without a reason.
- Escaping of feed names and tags, and everything of XML below the token level.
- `strip_declaration` and saving `latest-cot.json`: the cache is modelled in memory, with events already stripped.
- The table of URL rules beyond its last two: what is proved holds for every table.
- Descriptions and creation times of groups, the version counter, and the order in which groups are listed.
- Zip.RoundTrip: requires an archive under 4 GiB, because beyond that offsets are truncated and what a reader makes of them depends on the data.
- RateLimit.AtMostTwiceLessOne: is about keys that are tracked at each of their failures; a key that finds the table full of live entries is not limited.
- LatestCot.CacheReflectsHistory: needs strictly rising times, because among equal times the map's iteration order decides which uid goes.
- HTTP routing, response shaping, transport, federation, configuration and metrics.
