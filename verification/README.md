# Leaf Syncthing controller: a verified model

This project models the crash-safe core of a controller that runs Syncthing on a handheld console with
removable cards, and proves what its protocols are for. A folder may sync only after a first-sync
protocol has put a safety snapshot and a completion marker on the card; folder transactions, config edits,
the card registry, identity migration and the destructive reset all have to survive a power loss at any step.
The checks a game launch waits for, the network transition, the pairing limiter and the status summary are
modelled too, because each gives a verdict that has to be sound.

`dafny verify dfyconfig.toml` checks everything.

## How failures are modelled

A stored value is a `Cell`: the values that may still come back after a power loss, and the value read now
(`durable.dfy`). A write keeps the earlier ones possible, a filesystem barrier forgets them, and a power loss
picks any. Every durable step is a method that may fail, and a failed step is also how a run cut at that step
looks; contracts speak about every state that may come back, so they cover all cut points at once. Where the
point is that recovery converges, a run marked `uncut` is one in which every step succeeds.

* `FirstSyncProtocol` is the first-sync protocol as a state machine over one folder; `FirstSync.Controller` is
  the code, which logs the state of one arbitrary folder after each step. Its invariant says the log is a legal
  run, so what holds for all runs of the protocol holds at every step of every method. The cells of one folder lose power
  independently of each other, which is more than a real filesystem does.
* `FolderStore` and `FolderIntents` put the control document and the upstream configuration into one cell, as
  both live on the primary filesystem. `FolderIntents.Goals` says what the intents in such a state amount to:
  every step of every operation moves the goal at one point only, and recovery never moves it.
* `ConfigFiles`, `Identity` and `Registry` are three-file promotion protocols over one directory; `Value` says
  which contents a directory stands for.
* `XmlPauses` and `XmlScalars` compare a streaming token machine with an edit of the tree; `XmlVerify` has the
  separately written read-back.
* `FileTrees`, `ResetPlan` and `Reset` are the reset: walking, planning, and restartable deletion over all
  filesystems.
* `GameCheck`, `Network`, `Pairing`, `Summary` are the remaining verdicts.

## What turned out to need a condition

Each of these is proved with its exact condition or a witness run.

* An invalidation that stops between removing the marker and recording the new epoch leaves first-sync cleared.
  Recovery closes that gap before upstream starts, but within the same run a later change between the two
  receiving types may unpause the folder (`FirstSyncProtocol.GapCanRunUnprotected`). Unpausing is safe exactly if
  the marker on the card is complete and for the folder's epoch (`FirstSyncProtocol.UnpausingIsSafeExactly`,
  `FirstSync.Controller.RunningIsSafeExactly`), which the code does not check there.
* `SetFirstSync` and `RequireFirstSync` keep the changed memory when the write fails. A controller that goes on
  can hand out the same epoch twice (`FirstSyncProtocol.DivergenceCanRevive`); an old marker or snapshot is accepted
  only under an epoch that was already in use (`FirstSyncProtocol.StaleNeedsAnEpochInUse`).
* `BeginMembership` does not look at a pending stop, and with one it stores a document that every later start
  refuses (`FolderStore.MembershipNeedsNoPendingStop`). The running controller does not get there, because
  after a stop that failed it serves no folder any more; `FolderIntents` proves that.
* The read-back after a pause edit decodes the flags of unmanaged folders too (`XmlVerify.EditVerifies`).
* The bounds on the config size and the number of registry records are checked when reading, not before writing.
  A start works again exactly if the written config fits the bound (`ConfigFiles.Directory.PromoteThenRestart`), or
  the written registry is valid or there was one before (`Registry.RegistryFiles.WriteThenRestart`).
* A pending stop is finished exactly if its card is there and nothing but an empty marker is in its way. Two stops
  of configured folders that share a marker in one content tree cannot both be: the first takes the marker the
  second asks for (`FolderIntents.FolderService.RecoverPendingFolderStops`, `FolderIntents.AnyRestarts`).
* A start that finds no reset intent does not flush, so one that an earlier attempt removed without a completed
  flush may still come back after a power loss, with the roots already gone; it cannot exactly if it could not
  before that start (`Reset.Storage.RecoverReset`).
* Completing first sync needs the newest snapshot of the card to be whole: one that lost its manifest blocks every
  older one (`FirstSync.Controller.PrepareThenStart`). A folder of an unsupported type can be completed, but its
  marker is not accepted afterwards (`FirstSync.Controller.Complete`), and a receiving folder whose card is moved to
  another slot is asked for first sync again (`FirstSync.Controller.CompletionLasts`).
* The reset's check against live content compares paths for equality (`ResetPlan.NestedLiveContentIsNotRefused`).
  What the reset needs is that no declared root lies around a live path or below it (`ResetPlan.ApartIsExact`).

## Model

| member | source | states |
|---|---|---|
| FirstSyncProtocol.RunKeepsInv | internal/controller/first_sync.go:127-476 | the invariant behind everything below holds at every state of every legal run: any order of persists, marker and snapshot writes, syncfs calls, failed persists, restarts and power losses |
| FirstSyncProtocol.RunningFolderIsProtected | internal/controller/first_sync.go:701-730 | at every state of every run, a folder that upstream may sync has, for its epoch, a marker and, unless it only sends, a ready snapshot that no power loss can take away if and only if the marker now on the card is complete and for its epoch; and without an interrupted invalidation it always is |
| FirstSyncProtocol.ClearedRecordIsProtected | internal/controller/first_sync.go:405-447 | whatever control record a power loss may leave: first-sync cleared implies a durable complete marker and, in snapshot mode, a durable ready snapshot |
| FirstSyncProtocol.ClearedMemoryIsProtected | internal/controller/first_sync.go:405-447 | the same for the record the controller holds in memory and acts on |
| FirstSyncProtocol.DurableEpochNeverDecreases | internal/controller/folder_state.go:269-283 | the least epoch that may be on disk never decreases along a run, across steps, failures, restarts and power losses, and never exceeds the epoch in memory |
| FirstSyncProtocol.InvalidationMovesDurableEpoch | internal/controller/first_sync.go:455-476 | an invalidation whose persist completed makes the durable epoch strictly larger |
| FirstSyncProtocol.NothingStaleIsAccepted | internal/controller/first_sync.go:683-730 | once the durable epoch has moved, no marker and no snapshot header that existed before is accepted at any later state, unless the controller went on after a failed persist |
| FirstSyncProtocol.StaleNeedsAnEpochInUse | internal/controller/first_sync.go:683-730 | in every run, whatever failed and whatever the controller did after it: what was on the card is accepted later only under an epoch the controller had already been using by then |
| FirstSyncProtocol.MarkerDecides | internal/controller/first_sync.go:701-730 | for the record in memory and for every record a power loss may leave, with first-sync cleared: protection, and being safe to run, hold if and only if the visible marker is complete and for that record and epoch; nothing else on the card need be looked at |
| FirstSyncProtocol.UnpausingIsSafeExactly | internal/controller/run.go:476-534 | the test a change between the receiving types does not make: unpausing from any reachable state is safe if and only if the marker on the card is complete and for the epoch in memory |
| FirstSyncProtocol.GapCanRunUnprotected | internal/controller/run.go:476-534 | the condition of UnpausingIsSafeExactly can fail: from any state with a running send-receive folder there is a legal run, an invalidation cut after removing the marker and then a change between the receiving types, that ends unpaused without the marker and without protection |
| FirstSyncProtocol.DivergenceCanRevive | internal/controller/folder_state.go:254-283 | the guard of NothingStaleIsAccepted is real: after a failed persist that kept the changed memory, a later start hands out the same epoch again and an old marker matches it |
| FirstSync.ReadSnapshotHeader | internal/controller/first_sync.go:683-699 | a header is accepted if and only if it is ready and matches epoch, folder, card, slot, kind and directory name and its manifest is there; a missing manifest is an error, any mismatch is no snapshot |
| FirstSync.ReadFirstSyncMarker | internal/controller/first_sync.go:701-730 | a marker is accepted if and only if it is complete and matches this epoch, folder, card, kind and type class and, for a folder that receives, names a snapshot that reads as accepted |
| FirstSync.LessMeans | internal/controller/first_sync.go:654-681 | the order of the walk: the first difference of two names decides, so of names that begin with their time the later one is the greater |
| FirstSync.Controller.LatestPreparedSnapshot | internal/controller/first_sync.go:654-681 | returns the last snapshot in name order that is anything but no snapshot: accepted exactly if that one is, an error exactly if it has lost its manifest, none exactly if there is no other |
| FirstSync.Controller.Prepare | internal/controller/first_sync.go:258-371 | success leaves a new snapshot that is certainly on the card under its final name, ready, with exactly the entries walked, and that its own reader accepts; no other document on any card changes; uncut it succeeds exactly for a receiving folder with a usable card, a pending first sync, a valid binding, space, a fresh name, no more entries than allowed and a copy that agrees with the scan |
| FirstSync.Controller.Seal | internal/controller/first_sync.go:329-362 | the two-phase header, the promotion and the three barriers end with a snapshot no power loss can undo |
| FirstSync.Controller.PrepareFirstSync | internal/controller/run.go:400-431 | the operation as the user calls it: cards loaded, then a durable ready snapshot of the folder at its current epoch that the reader accepts for the one card of the folder; uncut it succeeds exactly if that card and the folder qualify |
| FirstSync.Controller.WriteBothPhases | internal/controller/first_sync.go:405-441 | the marker is written and flushed as pending before it is written and flushed as complete, and on success exactly the complete one is on the card |
| FirstSync.Controller.Complete | internal/controller/first_sync.go:373-453 | success clears the pause reason durably, leaves the folder protected, changes no other record, no upstream setting and no other document, and leaves a marker its reader accepts, unless the folder type is unsupported; uncut it succeeds exactly with the acknowledgement, a usable card, a pending first sync, a valid binding and, for a folder that receives, an acceptable newest snapshot |
| FirstSync.Controller.StartFirstSync | internal/controller/run.go:432-475 | completing first sync and unpausing leaves the folder durably protected at its epoch with a marker that is accepted, and running if it may run; uncut it succeeds exactly if Complete can |
| FirstSync.Controller.PrepareThenStart | internal/controller/run.go:400-475 | a first sync from beginning to end: uncut, preparing and then starting succeeds exactly if folder, card, space, name and copy qualify, the hub is acknowledged, and no damaged snapshot comes later in name order; then the folder is protected and runs if it may |
| FirstSync.Controller.CompletionLasts | internal/controller/first_sync.go:141-192 | after completion and any power loss the record and the marker are as completed, and the next recovery leaves first sync completed if and only if the folder only sends, its card is away, or the card is in the slot it was in; otherwise it asks for it again under the next epoch |
| FirstSync.Controller.Invalidate | internal/controller/first_sync.go:455-476 | success means the marker is certainly gone from the card and first-sync is recorded under the next epoch; other records and every upstream setting stay as they are; uncut it succeeds exactly with a usable card below the largest epoch |
| FirstSync.Controller.RequireFirstSync | internal/controller/folder_state.go:269-283 | first-sync set under the next epoch, refused rather than wrapped at the largest 64-bit epoch |
| FirstSync.Controller.SetFolderType | internal/controller/run.go:476-534 | crossing into or out of send-only ends with first-sync pending under the next epoch and the folder paused; staying within the class changes no record; upstream ends with the new type, unpaused exactly if the folder as retyped may run; uncut it succeeds exactly for a supported type with a usable card and, when crossing, below the largest epoch |
| FirstSync.Controller.RunningIsSafeExactly | internal/controller/run.go:476-534 | the same for the code: in every state its methods leave, an unpaused folder is safe to run if and only if the marker on its card is complete and for its epoch |
| FirstSync.Controller.DiscardUnfinished | internal/controller/first_sync.go:618-652 | recovery of one card and kind ends with no partial snapshot and no pending marker there, keeps every finished snapshot and a complete marker, and touches no other place |
| FirstSync.Controller.RecoverFolder | internal/controller/first_sync.go:141-192 | one turn of the recovery loop changes at most this record, keeps what upstream and the cards read, and decides by the marker: an accepted one clears first-sync, without one it is pending under a new epoch if it was not before, and without a usable card nothing changes |
| FirstSync.Controller.Recover | internal/controller/first_sync.go:127-194 | after recovery every folder with a usable card has first-sync pending or an accepted marker for its epoch with the interrupted invalidation closed; every record is what the marker found on its card at the beginning demands; every finished snapshot and complete marker is still there and reads the same, cards without a usable row are not touched, and no usable card shows anything unfinished; uncut it gives up exactly if a named or newest snapshot has lost its manifest or an epoch cannot grow |
| FirstSync.Controller.Bootstrap | internal/controller/bootstrap.go:134-285 | upstream starts only after recovery and the pause edit; on success each folder is unpaused exactly when the pause set allows it and each record is what the document and the cards found at the beginning demand; uncut it starts exactly if every record can be recovered |
| FirstSync.Controller.UnpausedFolderIsProtected | internal/controller/bootstrap.go:260-277 | after any history of runs, cuts and power losses and then a successful startup, a receiving folder left unpaused has exactly one usable card, whose marker for the current epoch recovery accepted, and its protection survives any further power loss |
| Folders.OneCandidate | internal/controller/folders.go:53-83 | one candidate card means exactly one inventory row carries the card id, and the candidate is that row |
| Folders.ReconcileManagedFolders | internal/controller/folders.go:14-136 | a folder may run exactly when its record is complete and carries no pause reason and exactly one card row has its id and serves it; each row names exactly the pause reasons of the record, the card the folder must wait for, and each issue if and only if it is one |
| Folders.RequiredOfflinePauseSet | internal/controller/folders.go:138-145 | the pause set names exactly the configured folders and pauses exactly those that may not run |
| Folders.MayRunMeansOneUsableCard | internal/controller/folders.go:85-124 | a receiving folder that may run has exactly one card with its id, and that card is usable |
| FolderStore.ReadBack | internal/controller/folder_state.go:422-537 | reading what persisting a valid state wrote gives that state back, in whatever order the ignored offers were listed, and the next start accepts it |
| FolderStore.EncodedIsReadable | internal/controller/folder_state.go:478-537 | a document that encodes a valid state decodes and validates |
| FolderStore.ReadState | internal/controller/folder_state.go:422-476 | decoding succeeds exactly on documents with a known schema, at most sixteen folders and 32 offers, readable ids and no offer twice, and yields the records as listed and each offer under its normalized key |
| FolderStore.DocumentOf | internal/controller/folder_state.go:478-505 | the document written lists every record and every ignored offer exactly once in the current schema |
| FolderStore.ValidateRecords | internal/controller/folder_state.go:575-603 | accepts exactly the maps in which every record is valid and no two bind the same card and kind |
| FolderStore.LegacyBinding | internal/controller/folder_state.go:553-569 | an unbound record is bound exactly when one single inventory card derives its folder id and marker name |
| FolderStore.FolderControlStore.Migrate | internal/controller/folder_state.go:62-94 | every configured folder gets its stored record with a usable epoch or a new one that requires first sync, completed from its only possible card; a first-schema document loses the others |
| FolderStore.FolderControlStore.Start | internal/controller/folder_state.go:54-108 | an undecodable document is refused untouched; otherwise the records are migrated and valid, offers and the pending removal are as stored, and an acceptable document with nothing to migrate is taken over unchanged |
| FolderStore.MembershipNeedsNoPendingStop | internal/controller/folder_state.go:355-382 | the guard BeginMembership lacks: recording a membership change keeps the records valid if and only if no stop is pending for that folder |
| FolderStore.FolderControlStore.BeginMembership | internal/controller/folder_state.go:355-382 | refused, repeated, stored or rolled back, with the exact condition of each; valid afterwards unless a stop was pending, in which case the document just stored is one every later start refuses |
| FolderStore.FolderControlStore.CompleteMembership | internal/controller/folder_state.go:384-400 | clears exactly the request of that folder and rolls back on a failed write |
| FolderStore.FolderControlStore.BeginStop | internal/controller/folder_state.go:402-420 | refused exactly for unknown folders and those with another pending change; keeps the store valid |
| FolderStore.FolderControlStore.Add | internal/controller/folder_state.go:293-318 | refused exactly for invalid names, a known folder, a card and kind already bound, or sixteen folders; a new record requires first sync at epoch one; rolled back on a failed write |
| FolderStore.FolderControlStore.Activate | internal/controller/folder_state.go:320-338 | clears exactly the pending add, keeps the store valid, rolls back on a failed write |
| FolderStore.FolderControlStore.Remove | internal/controller/folder_state.go:340-353 | forgets exactly that record, keeps the store valid, rolls back on a failed write |
| FolderStore.FolderControlStore.SetFirstSync | internal/controller/folder_state.go:254-267 | sets the flag and keeps the store valid; a failed write leaves the change in memory |
| FolderStore.FolderControlStore.RequireFirstSync | internal/controller/folder_state.go:269-283 | the next epoch with first-sync set, refused at the largest 64-bit epoch; a failed write leaves the change in memory |
| FolderStore.FolderControlStore.SetOfferIgnored | internal/controller/folder_state.go:120-149 | refused exactly for unreadable ids and a 33rd offer, otherwise exactly this offer is added or removed under its normalized key; rolled back on a failed write |
| FolderStore.FolderControlStore.BeginDeviceRemoval | internal/controller/folder_state.go:157-176 | one removal at a time; refused exactly for another pending one or an unreadable id |
| FolderStore.FolderControlStore.CompleteDeviceRemoval | internal/controller/folder_state.go:178-204 | forgets the removal and, in the same write, exactly the ignored offers of that device |
| Identifiers.ReadInAnyForm | internal/syncthing/ui.go:487-514 | a device id is read as the same canonical id however it is written: in any case, as a link of either scheme, with a query or fragment, with space around it |
| Identifiers.NormalizingAgainChangesNothing | internal/syncthing/ui.go:487-514 | a normalized device id is its own normal form |
| Identifiers.OfferKeyIsInjective | internal/controller/folder_state.go:206-208 | folder and device can be read off an offer key |
| FolderIntents.Step | internal/controller/bootstrap.go:231-259 | a change to one folder moves at most what the intents on disk amount to for that folder |
| FolderIntents.BeginAddStep | internal/controller/onboarding.go:231-246 | recording an add means nothing until upstream has the folder; where upstream still has it from an earlier attempt, the record adds it as upstream has it |
| FolderIntents.AddStep | internal/syncthing/managed_folders.go:88-100 | the upstream folder is what adds it: from then on every cut ends with the folder there |
| FolderIntents.BeginMembershipStep | internal/controller/folder_state.go:355-382 | recording the request is what changes the membership |
| FolderIntents.SetDevicesStep | internal/syncthing/managed_folders.go:160-181 | telling upstream what a pending request says changes nothing more, however often |
| FolderIntents.CompleteMembershipStep | internal/controller/folder_state.go:384-400 | clearing a request upstream has carried out changes nothing more |
| FolderIntents.BeginStopStep | internal/controller/folder_state.go:402-420 | recording the stop is what removes the folder |
| FolderIntents.RemoveFolderStep | internal/syncthing/managed_folders.go:186-206 | removing the upstream folder of a pending stop changes nothing more |
| FolderIntents.SurvivorsStayWithin | internal/controller/bootstrap.go:134-285 | whatever a power loss leaves is consistent, acceptable, and amounts to one of the goals that were possible before |
| FolderIntents.FolderWithMembership | internal/controller/membership.go:21-56 | succeeds exactly for a readable peer that is not this device and a clean member list with this device in it; the result is paused, lists this device first and every member once, and its members are exactly the old ones with or without the peer |
| FolderIntents.SelectedFolderDevices | internal/controller/onboarding.go:254-289 | succeeds exactly for one or more distinct configured peers other than this device; the result is this device followed by exactly them |
| FolderIntents.CardForStop | internal/controller/local_stop.go:63-73 | the only inventory card of the record, or none |
| FolderIntents.FolderService.ApplyMembership | internal/controller/membership.go:58-97 | carries out one recorded request and clears it without moving the goal; exactly that folder and record change |
| FolderIntents.FolderService.RecoverFolderMemberships | internal/controller/membership.go:58-97 | all recorded requests are carried out and cleared, nothing else in the records moves, the goal of the state found is kept, and folders that were paused exactly when they may not run still are |
| FolderIntents.FolderService.StopFolder | internal/controller/local_stop.go:22-61 | finishes one stop: exactly this folder goes from the records and from upstream, and on the card at most its own marker in its own content tree, if that is an empty directory; refused exactly when the card or its marker is not safe, before anything is touched |
| FolderIntents.FolderService.RecoverPendingFolderStops | internal/controller/local_stop.go:22-61 | finishing means every pending stop had its card and marker ready when it began, and with no two stops sharing a marker it fails only if one had not; the cards lose only the markers of pending stops, each in the content tree of its own folder; a refusal leaves a stop that is not ready; after a failure the run serves no folder |
| FolderIntents.FolderService.RemoveStopMarker | internal/controller/local_stop.go:100-109 | removes the marker only if it is an empty directory, and nothing else |
| FolderIntents.FolderService.Bootstrap | internal/controller/bootstrap.go:231-277 | no pending add is left, every recorded folder is configured or explained by a pending stop, the goal of the state found is kept, and upstream is configured with exactly the pause set |
| FolderIntents.PendingIsPaused | internal/controller/bootstrap.go:260-277 | a folder with any intent pending, first-sync required or a manual pause is paused in what upstream will read |
| FolderIntents.FolderService.Restart | internal/controller/run.go:149-178 | after any cut, a start that finishes leaves no pending intent, the served, recorded and configured folders equal, each of them paused upstream and in memory exactly if it may not run, and exactly the state the intents on disk were heading for; every further cut on the way stays within the same goals. An uncut start either finishes, and then the card and marker of every stop recorded on disk were ready, or is refused, and then, unless stops share a marker, one was not; the cards lose only the markers of those stops |
| FolderIntents.AnyRestarts | internal/controller/run.go:149-178 | any number of processes cut anywhere with whatever cards, power lost before any of them or not, then one uncut: with no two stops sharing a marker it finishes if and only if every stop pending on the disk it found has its card and its marker ready; then no intent is pending, the folders served, recorded and configured are the same, paused exactly if they may not run, and exactly what that disk was heading for, one of the outcomes possible at first; refused, it leaves a stop that is not ready; either way the cards lose only the markers of those stops |
| FolderIntents.SettledGoal | internal/controller/run.go:149-178 | with nothing pending the goal is the folder as it is: its own record, its upstream folder and its members |
| FolderIntents.FolderService.Create | internal/controller/onboarding.go:172-252 | on disk the outcome is, at every cut, the old folders, the old folders plus exactly the planned one, or, where an earlier attempt left a folder of that id upstream, the old folders plus that one; success has made the marker and the folder durable, with this device and exactly the chosen peers as members; on the card nothing but the marker is new; uncut it succeeds exactly for an accepted plan with a free path, space, selectable peers, a possible marker and a record the store takes |
| FolderIntents.FolderService.ChangeMembership | internal/controller/run.go:535-601 | at every cut the outcome is the old membership or exactly the requested one; success has nothing left pending, and a folder that was changed is paused, upstream and in memory, exactly if it may not run; no other folder is touched, and asking for what is already so changes nothing; uncut it succeeds exactly for a served folder, another readable device and no other request pending |
| FolderIntents.FolderService.StopNow | internal/controller/run.go:666-693 | at every cut the outcome is the old folders or exactly those without the stopped one; success removes it everywhere and leaves the others as they are; uncut and without shared markers it succeeds exactly if the folder is served, has no request pending, and every pending stop has its card and marker ready; the cards lose only the markers of this stop and of those already pending, each only as an empty directory in the content tree of its own folder |
| ConfigFiles.PromotionIsAtomic | internal/syncthing/offline_pause.go:67-123 | a promotion, then any number of power losses and recoveries each cut anywhere: in every state that may come back the config stands for exactly the old or exactly the new contents, and nothing else in the directory moved |
| ConfigFiles.Directory.PromoteThenRecover | internal/syncthing/config_recovery.go:41-142 | a promotion cut anywhere, then any number of recoveries cut anywhere with power lost after each, then one uncut recovery: it reports Ready with exactly the old or exactly the new config |
| ConfigFiles.RecoveryAfterPromotion | internal/syncthing/config_recovery.go:41-142 | from a valid config such a run always has a config to recover, the old or the new one |
| ConfigFiles.PromotionStaysReadable | internal/syncthing/config_recovery.go:209-227 | no cut leaves a file recovery refuses to inspect, if the new contents fit the 8 MiB bound |
| ConfigFiles.Directory.PromoteThenRestart | internal/syncthing/offline_pause.go:67-123 | that bound is exact: a promotion that runs to its end, then any number of starts cut anywhere and one that is not: the config is ready if and only if the contents fit the bound; larger ones are left as a temporary that every start refuses, with the config otherwise as it was |
| ConfigFiles.Directory.Promote | internal/syncthing/offline_pause.go:67-123 | every state on the way has the old or the new value; contents that do not verify never replace the config; success leaves the new config with the old one as backup, durably; a stale temporary refuses untouched; an uncut promotion of contents that verify succeeds exactly if they verify again in place, and otherwise has put the old config back, durably; an uncut one leaves a directory recovery can read exactly when the contents fit the bound |
| ConfigFiles.Directory.RestoreBackup | internal/syncthing/offline_pause.go:302-317 | every state on the way has the value it had or that of the backup; done, the backup is the config, durably; uncut it is done |
| ConfigFiles.Directory.RecoverConfig | internal/syncthing/config_recovery.go:41-142 | the state table: Ready keeps the value and never promotes the temporary, Clean and no-known-good only when no copy is valid, Clean only without an identity and leaving no config file, a cut never changes the value; an uncut recovery gives exactly the outcome of the table |
| Identity.Migrator.AnyStartups | internal/syncthing/identity.go:170-272 | any number of startups cut anywhere with power lost after each, then one uncut: it succeeds with config and marker at the new version, or at the old one if that was the pinned one already, and certificate, key and device id as ever |
| Identity.Migrator.Startup | internal/syncthing/identity.go:170-186 | an identity that does not match its marker is refused, with nothing of it touched; otherwise it is unchanged in every state that may come back, and success has config and marker both at the pinned version: a config that was up to date is kept as found with its marker, any other becomes the new one with the new marker |
| Identity.Migrator.Migrate | internal/syncthing/identity.go:188-272 | works on copies: what the generator makes of the config is promoted only if it is valid and has the live identity, and otherwise nothing is touched; every state on the way stays on the way from the old config and marker to the new ones |
| Identity.Migrator.ReplaceStamp | internal/syncthing/identity.go:317-340 | the marker moves once the config has moved and durably names it |
| Identity.Migrator.PromotionStaysOnTheWay | internal/syncthing/identity.go:188-272 | promoting the migrated config keeps every possible directory one the migration may pass through |
| Identity.RecoveryStaysOnTheWay | internal/syncthing/identity.go:82-100 | config recovery between two attempts does so too |
| Registry.WriteIsAtomic | internal/cards/registry.go:175-221 | a write, then any power losses and recoveries each cut anywhere: every state that may come back stands for the old or the new record set, the empty one counting as old on the first write |
| Registry.RegistryFiles.WriteThenRestart | internal/cards/registry.go:110-221 | the sixteen-record bound is exact: a whole write, then any number of starts cut anywhere and one that is not: there is a registry to read if and only if the one written is valid or there was one before, and it is the new one in the first case and the old one in the second |
| Registry.RegistryFiles.Recover | internal/cards/registry.go:110-173 | returns the registry the files stand for and keeps it in every state on the way; with no trustworthy copy it refuses untouched; what is no regular file is never removed; uncut it succeeds exactly if there is a registry and nothing unsafe is in its way |
| Registry.RegistryFiles.Write | internal/cards/registry.go:175-221 | every state on the way stands for the old or the new records; success is durable; uncut it succeeds for every registry that can be read back, and leaves files to recover from exactly if that is so or there was a registry before |
| Registry.RegistryFiles.Merge | internal/cards/registry.go:50-67 | nothing is forgotten, exactly the cards observed once and enrolled are recorded anew |
| Registry.RegistryFiles.BuildInventory | internal/cards/registry.go:84-107 | each recorded identity without a mounted card is remembered in exactly one row, the first vacant one of its last slot or one after all slots if there is none; every other row is as inspected |
| Registry.MountedAsInspected | internal/cards/registry.go:84-107 | the rows with the identity of a mounted card are exactly those inspected, so a card observed once and enrolled is not listed as absent as well |
| Registry.RegistryFiles.Reconcile | internal/cards/registry.go:37-108 | no recorded identity is forgotten in any state a cut may leave; success lists every recorded identity as BuildInventory does, writes only if something changed, and gives a card observed once and enrolled no other row; uncut it succeeds exactly if the registry can be recovered and the merged one fits |
| XmlPauses.RunOnDocument | internal/syncthing/offline_pause.go:125-238 | on the tokens of any document the stack machine is the edit of the tree: same output, same set of folders found, same report of a change, and failure exactly when a managed folder is missing, repeated or has an ambiguous paused field |
| XmlPauses.ReplaceManagedFolderPauses | internal/syncthing/offline_pause.go:125-238 | the token loop succeeds exactly on editable documents, writes exactly the edited tree, and hands back its input unchanged when it reports no change |
| XmlVerify.EverythingElseIsKept | internal/syncthing/offline_pause.go:125-238 | outside the paused fields of managed folders the edited document is the document, in order |
| XmlVerify.PausedFolder | internal/syncthing/offline_pause.go:125-238 | a managed folder after the edit has exactly one paused field, and it says what was wanted |
| XmlVerify.SecondEditChangesNothing | internal/syncthing/offline_pause.go:125-238 | the edited document can be edited again and then nothing changes |
| XmlVerify.EditTwice | internal/syncthing/offline_pause.go:125-238 | running the token loop on its own output reports no change and returns the same tokens |
| XmlVerify.VerifyPauseSet | internal/syncthing/offline_pause.go:261-300 | the separately written read-back accepts exactly the documents whose every folder flag decodes, whose process group is kept, and which show each managed folder once with the wanted flag |
| XmlVerify.EditVerifies | internal/syncthing/offline_pause.go:261-300 | with one configuration and unambiguous ids the read-back accepts the edited document if and only if the paused flags of the folders the edit leaves alone decode |
| XmlVerify.SettledVerifies | internal/syncthing/offline_pause.go:261-300 | the same for a document with nothing left to edit |
| XmlVerify.OneBadFlagRefusesTheEdit | internal/syncthing/offline_pause.go:261-300 | that condition is real: a document with one undecodable flag in an unmanaged folder is edited and then refused |
| XmlContent.ConsumeScalar | internal/syncthing/offline_pause.go:240-259 | reads a scalar exactly when the element holds only text and comments, and then returns its whole text |
| XmlContent.ReadScalarOfContent | internal/syncthing/offline_pause.go:240-259 | on the tokens of an element the scalar is the text of the element |
| XmlScalars.RunOnDocument | internal/syncthing/initial_profile.go:76-175 | on the tokens of any document the second stack machine is the edit of the tree, with the same fields seen |
| XmlScalars.ReplaceXmlScalars | internal/syncthing/initial_profile.go:76-175 | the token loop succeeds exactly on replaceable documents and writes exactly the edited tree |
| XmlScalarFacts.EveryFieldOnce | internal/syncthing/initial_profile.go:76-175 | every managed path is in the output exactly once and holds exactly its value, replaced or inserted |
| XmlScalarFacts.DocumentKeepsTheRest | internal/syncthing/initial_profile.go:76-175 | outside the managed paths the output is the input, in order |
| XmlScalarFacts.SecondEditChangesNothing | internal/syncthing/initial_profile.go:76-175 | the edit is idempotent |
| XmlScalarFacts.ReplaceableMeans | internal/syncthing/initial_profile.go:76-175 | for independent fields the edit succeeds if and only if there is one configuration, every managed element is a scalar, and each field has an element to be in: the first such element holds it at most once and no later one holds it |
| OfflineEdit.HardenedIsRead | internal/syncthing/offline_pause.go:23-65 | after the hardening pass the document has one root and is read with low priority off |
| OfflineEdit.ApplyOfflinePauseSet | internal/syncthing/offline_pause.go:23-65 | both passes and the read-back: with unambiguous ids an editable config is refused only for an undecodable flag of an unmanaged folder |
| FileTrees.Walk | internal/controller/reset.go:528-538 | the walk lists exactly the root and what lies below it, and nothing after anything below it |
| FileTrees.LastIsEmpty | internal/controller/reset.go:539-545 | deleting from the back of such a list always meets a path with no entries left |
| FileTrees.AllGone | internal/controller/reset.go:539-545 | once the whole list is deleted nothing is left at or below the root and everything else is still there |
| ResetPlan.ValidateResetDocument | internal/controller/reset.go:351-388 | accepts exactly the documents with a known schema and action whose roots are distinct, lie strictly inside their own filesystem, are paths the action may name and are no live path, whose required cards are distinct and match their configured slots, and whose retained paths are distinct and belong to other slots; an index reset names no card and a full reset retains nothing |
| ResetPlan.NestedLiveContentIsNotRefused | internal/controller/reset.go:499-509 | the live-content check compares paths for equality only: a valid document exists whose declared root encloses a live path |
| ResetPlan.ApartIsExact | internal/controller/reset.go:499-509 | what a reset may remove spares everything at and below a live path if and only if no declared root lies below that path or around it |
| Reset.Storage.ApartContentStays | internal/controller/reset.go:228-283 | with the roots apart from a live path, any reset run, cut or not, leaves what is at and below it as it was in every state that may come back |
| ResetPlan.BuildResetDocument | internal/controller/reset.go:154-226 | for a full reset and one of the available cards, the document is exactly the one that declares every path of the console state and of every usable card, requires those cards and retains the others, or none if a full reset lacks a known card or that document is not valid; on a console that is well set up there is a plan exactly if a full reset lacks no known card |
| ResetPlan.WellSetUpIsValid | internal/controller/reset.go:154-226 | with distinct slots and cards, paths apart from live content and from each other, and no more cards than allowed, what is built passes validation |
| Reset.Storage.RemoveDeclaredPath | internal/controller/reset.go:511-545 | in every state that may come back only paths at or below the root are missing, and the tree is well formed; success means nothing is left there; an uncut run succeeds on every tree whose root is removable, which no cut takes away |
| Reset.Storage.WriteIntent | internal/controller/reset.go:285-322 | success makes exactly this document the durable intent, with nothing declared touched before |
| Reset.Storage.Finish | internal/controller/reset.go:255-283 | the intent is cleared last: no state has it cleared while a declared root remains, and with the intent out of sight success means exactly that it cannot come back |
| Reset.Storage.RunResetIntent | internal/controller/reset.go:228-283 | nothing outside the declared roots, the intent and its temporary changes in any state that may come back; success leaves roots and intent gone for good, and an intent out of sight is gone for good only with success; an invalid document or a missing card changes nothing |
| Reset.Storage.RecoverReset | internal/controller/reset.go:131-152 | the recovery every start performs: an intent it finds is carried out as above; without one it drops a leftover temporary and does not flush, so an intent removed before may come back after this start exactly if it might have come back before it |
| Reset.Storage.ArmedOrReleased | internal/controller/reset.go:131-152 | after every attempt, cut or not, the intent is durable everywhere it must be or nothing declared can come back |
| Reset.Storage.AnyAttempts | internal/controller/reset.go:131-152 | with the intent durable, any number of attempts cut at any step with whatever cards present, power lost after any of them, then one uncut attempt with the required cards: it succeeds, every declared root is gone in every state that may come back, the intent is gone from sight, and nothing else changed; the intent cannot come back either if the last attempt found it or power was lost just before; otherwise see RecoverReset |
| Reset.Storage.VerifyRequiredCards | internal/controller/reset.go:444-460 | succeeds exactly when each required card is enrolled, in its slot and there once |
| Reset.Storage.ExecuteResetPlan | internal/controller/reset.go:97-127 | another action id changes nothing; success is a valid plan whose cards were there, carried out completely; uncut, the plan these cards give on a console that is well set up is carried out |
| GameCheck.ReadGameCheckStatus | internal/syncthing/game_check.go:34-169 | a verdict is given exactly when devices, connections, every folder and every peer could be read and used; its totals are the exact sums over all folders and peers cut off once at the limit |
| GameCheck.CurrentMeansEverything | internal/syncthing/game_check.go:34-169 | the verdict is current if and only if every folder is idle and error-free with no local need and every peer is unpaused, connected, valid and needs nothing: zero survives saturation only if every summand is zero |
| GameCheck.CurrentOneByOne | internal/syncthing/game_check.go:34-169 | current means, one by one: each folder unpaused, idle, error-free and without need, and each of its peers configured and unpaused in its last entry, connected and unpaused, valid and in need of nothing |
| GameCheck.FoldersForGameCheck | internal/controller/game_check.go:27-78 | yields a result exactly when the only card in the slot is usable, the launch names its published paths, and every folder bound to it is ready; the result is then exactly the folders bound to it |
| GameCheck.RunGameCheck | internal/controller/game_check.go:80-188 | over any rounds of reads and clocks: exactly one waiting reply for each change of the counts shown, each nonzero and different from the one before; the loop ends exactly in the first round that sends a final reply, loses the connection or finds the launch gone; a stop is sent exactly at the first current read of a launch still waiting, attention exactly when nothing could be shown in time or a read fails after a merely invented count |
| GameCheck.FinalReplyMeans | internal/controller/game_check.go:123-170 | the last reply is a stop, or attention, if and only if the round the loop ended in calls for it |
| GameCheck.CheckGame | internal/controller/game_check.go:27-188 | the whole check of one launch: the launch is let through if and only if the slot and its folders are fit, the round the loop ended in came in time for a launch still waiting, and its one read of exactly the folders bound to the only card in the slot saw every one of them and all their peers current, each peer configured, connected, paused on neither side and in need of nothing; no earlier read had seen that |
| GameCheck.SaturatedTwice | internal/syncthing/ui.go:333-371 | saturating at every addition is saturating once at the end |
| Network.NetworkUpstream.ApplyLanOnly | internal/syncthing/network.go:85-128 | success gives every remote peer its own pause flag back with exactly the local networks, or with the two networks that hold nobody if there is none, never with an empty list; from the disconnect check, or any change of a boundary or of the options, until both are applied, every remote is paused in every state; whatever happened, nothing changes before that check, a peer that began paused stays paused, and if the restoring patches are answered every peer has its own flag back; with every patch answered it succeeds exactly if the peers disconnect |
| Network.BoundaryAdmits | internal/syncthing/network.go:19 | with that boundary a peer is let in exactly from the local networks, and from nowhere if there is none, although an empty list would let it in from anywhere |
| Network.NetworkUpstream.Restore | internal/syncthing/network.go:91-99 | unpauses exactly what the transition paused and goes on past an error |
| Network.NetworkUpstream.ApplyAnywhere | internal/syncthing/network.go:77-84 | moves every boundary and touches no pause flag |
| Pairing.Recent | internal/gateway/gateway.go:524-530 | for times in order the trimmed suffix is exactly the times at or after the threshold |
| Pairing.EveryWindow | internal/gateway/gateway.go:434-457 | if no window ending at a counted failure holds too many, no window of that length does |
| Pairing.Limiter.Submit | internal/gateway/gateway.go:417-469 | turned away uncounted exactly when locked or when the source has used up its window of the whole history; a wrong attempt is counted, the lock is set exactly by the one that fills the global window and never released, a match consumes the offer |
| Pairing.Limiter.WindowsHold | internal/gateway/gateway.go:434-457 | over any run between two opens every 30-second window holds at most 5 counted failures per source and every 10-minute window at most 20 in all |
| Pairing.Limiter.PruneFailures | internal/gateway/gateway.go:512-522 | the lists kept stay equal to filtering the whole history |
| Pairing.Limiter.Open | internal/gateway/gateway.go:157-159 | opening forgets the history and the lock |
| Summary.SummarizeStatus | src/ui_control.c:933-1018 | up to date, syncing and attention each have their exact condition in terms of the services, issues, offers and the folders: no folder troubled and none busy, none troubled and some busy, anything else; the totals are the exact needs cut off once at the limit |
| Summary.FolderStateLabel | src/ui_control.c:916-931 | attention exactly for a conflict, a pause, no peer, an unfinished first sync, an error, or a remote that is missing, offline, paused, not sharing, unknown or local only; syncing exactly if otherwise something is needed or in progress here or there |
| Summary.NothingNeeded | src/ui_control.c:956-1000 | folders none of which is busy have exact totals of zero |

## Left out

- HTTP, Unix sockets, TLS, cookies, process control, signals, clocks and randomness: times and fresh names are parameters, and a snapshot name that already exists is refused.
- SHA-256: an uninterpreted digest that derives folder ids and marker names.
- Byte-level JSON and XML lexing, XML namespaces and entities, file modes, symbolic links and document size limits: documents are values or token sequences, unsafe files are a case of their own where the code tells them apart.
- Temporary files of the control document and the marker: writing one and renaming it is one atomic step, which may fail before or after it takes effect.
- The order in which lists are sorted: ignored offers, devices after the first, reset roots, entries of one directory. Sorting changes no result stated here.
- Snapshot source files that change while they are copied: the two walks over the source may differ, one walk does not.
- Progress reports, status rows and their messages, the user interface, QR codes and the C bridge.
- Storage cleanup, folder relocation, device-removal recovery, renaming and rescanning folders.
- Folder resume, which decides from cached pause reasons.
- Upstream calls with unknown outcome in FirstSync and Network: there an error means nothing changed. In FolderIntents an error may come before or after the change.
- FirstSync.Controller.Bootstrap: takes the folders as the config and the document on disk describe them, every bound folder configured; settling half-made adds before it is FolderIntents.FolderService.Bootstrap.
- FirstSync.Controller.SetFolderType: the card directory for old versions is not created, and the status row checks before it are not modelled.
- FirstSync.Controller.StartFirstSync: the rescan that may follow unpausing is not modelled.
- FirstSyncProtocol.NothingStaleIsAccepted: speaks of one binding lifetime that starts with a new record and no marker or snapshot of the folder on the card, because a new record restarts at epoch one and a local stop leaves the old artifacts there.
- FolderIntents.AnyRestarts: the cards each process finds are arbitrary, so what a power loss does to a marker just removed is not followed from one process to the next.
- FolderIntents.FolderService.Restart: recovery of first sync, which lies between the adds and the pause set, is module FirstSync; here first-sync flags only pause.
- FolderIntents.FolderService.Bootstrap: the configuration contains each recorded folder at most once, and folders without a record are left alone.
- FolderIntents.FolderService.Create: a folder upstream still has under the planned id is of the planned kind with a clean member list, as an earlier attempt leaves it; whether the plan is current and acknowledged is one answer. A store write that fails ends the run.
- FolderIntents.FolderService.ChangeMembership: a store write that fails ends the run, and card loading is a step that may refuse.
- FolderStore.FolderControlStore.Start: the configured folders are distinct and at most sixteen, as the config reader guarantees.
- FolderStore.ReadState: JSON fields of the wrong shape and unknown fields count as an undecodable document.
- Identifiers.NormalizingAgainChangesNothing: Unicode case folding and Unicode space outside ASCII are not modelled.
- ConfigFiles.Directory.RecoverConfig: an absent config directory, and reading a just restored backup a second time, are not modelled.
- Identity.Migrator.AnyStartups: assumes the pinned generator keeps the identity, writes a valid config, and leaves one it has already migrated alone; Identity.Migrator.Startup assumes only the last for safety; generating a first identity is not modelled.
- Registry.RegistryFiles.Write: atomic for at most sixteen valid records; what happens beyond is stated in its contract and in Registry.RegistryFiles.WriteThenRestart.
- Registry.ReadRegistry: the syntax of a card identity is not modelled beyond being nonempty.
- OfflineEdit.ApplyOfflinePauseSet: promoting the edited text is ConfigFiles.Directory.Promote.
- XmlVerify.EditVerifies: requires one id attribute per folder element, because the editor takes the first and the reader the last.
- XmlScalarFacts.ReplaceableMeans: requires that no managed path lies inside another, as in both lists the code uses.
- Reset.Storage.RunResetIntent: the intent is absent or equal to the plan, because the code does not compare an intent it finds; unsafe intent files and the checks that a path is no symbolic link are not modelled.
- Reset.Storage.ExecuteResetPlan: plans are compared without sorting them first.
- Reset.Storage.AnyAttempts: needs every declared root to be a plain file or a directory in every state that may come back; other kinds are refused, which Reset.Storage.RemoveDeclaredPath states.
- GameCheck.CheckGame: one inventory and one configuration for the whole check; the code takes them when the launch is announced.
- GameCheck.RunGameCheck: clocks, timers and the socket are one record of answers per round.
- Network.NetworkUpstream.ApplyLanOnly: waiting for peers to disconnect is one answer, proxy and relay options are one value, and the check that the networks of a request are sorted is not modelled.
- Pairing.Limiter.Submit: token comparison is one answer, and session cookies are not modelled.
- Pairing.Limiter.WindowsHold: the clock does not go backwards between two opens.
- Summary.SummarizeStatus: counters are non-negative, as the parser of the status document guarantees; the message texts are not modelled.
