# Jak 3 Archipelago client: a verified model of its durable core

This project models the parts of the Jak 3 Archipelago client that must survive
crashes, lost messages and reloads, and proves what they promise:

- the **state repository** on disk: commits through a temporary, a backup and a
  primary file, recovery, quarantine, and write-once authorisation of save
  identities (`Disk`, `History`, `Repository`);
- the **received-item ledger** and the coordinator that applies it to the game
  (`Ledger`, `ItemWorker`);
- the **location outbox** and the queue of server updates that feeds it
  (`Locations`, `LocationQueue`);
- the **game event ring**: draining it into the timeline and acknowledging it
  (`GoalDrain`, `GoalChannel`), and what an acknowledgement means for the disk
  (`ClientCommits`);
- **printers, parsers and streams**: the bridge snapshot (`Decimal`, `Lines`,
  `SnapshotFields`, `Snapshot`), the state payload (`Payload`), rotating log
  segments (`RotatingLog`) and the process-output splitter (`Splitter`);
- the **bridge installation** and the reload it owes (`Install`, `ProjectFile`).

`State`, `Registry` and `Sorting` hold the state record, the identifier tables
and sorted integer tuples. `dafny verify dfyconfig.toml` checks everything.

## How it is modelled

The disk is a map from file names to "undecodable", "incompatible", a decoded
state or a grant. Every raw file operation (create, write, unlink, rename) is a
step of its own and is logged with the directory; a crash can fall between any
two, so the prefixes of a log are exactly the directories a restart may find.
Damage at rest and the loss of the primary are steps of the environment between
repository calls. Writer code is written as methods of classes with the fields
the client has; each method is specified by a function of the old fields or by
the operations it logged, and the theorems are about those logs. The directory
counts the operations that raised, so a method that reports an input or output
failure says that one did, and one that reports nothing says that none did.

`ItemWorker` splits the asynchronous worker at its one suspension point. A run
is any sequence of its turns, its resumptions, and everything the rest of the
client does in between: location commits, rebuild observations, arriving
packets, replaced sessions. The pure `Step` says what one event does, the class
`Worker` records the events it goes through, and the theorems hold in every
`Trace`. Committing one packet is a step of its own there, which allows more
interleavings than the event loop has.

Assumptions: renaming is atomic; a read error is an undecodable file; a file can
become undecodable but never another valid state; the hash is some function with
64-character results and JSON printing can be undone; generated identifiers and
temporary names are new; session handles are not reused; the version constants
and table hashes are fixed tokens; text handed to the decimal reader uses ASCII
digits.

## Results that are not plain confirmations

- **A fresh state can be created twice** if and only if the primary is lost while
  no backup, no quarantined or interrupted file and no leftover temporary is there
  (`History.LossRecreatesExactly`, `RecreatedExactly`, and for one open
  `Repository.LossStartsExactly`; a run: `LossBeforeBackupRecreates`). A crash in
  the first commit leaves a temporary or a backup, so a loss after it is refused.
  Undecodable content alone never leads to a second creation.
- **A gap can be reported twice.** If a record's write fails behind the report of
  its gap, the next drain reports that gap again (`GoalDrain.ReportedTwice`); if no
  report of it is written before the record is, its numbers stay unaccounted for.
  `AccountedExactly` says exactly when the log accounts for every number.
- **Reopening after a failed synchronisation can leave confirmations stale.** The
  exception path of `sync_persistence` (worlds/jak3/client.py:937-944) drops the
  session without forgetting which state instance was reconciled. If that
  instance comes back from its older copy, no full update is queued.
  `LocationCoordinator.Open` states exactly when the refinement survives;
  `DropAndReopen` and `StaleAfterRollback` show the failing family. The difference
  survives every delta that does not mention it (`DifferenceOutlivesDeltas`) and is
  repaired by the next full update or by an orderly close and reopening
  (`ConnectedRepairs`, `ReopeningRepairs`).
- **The splitter depends on how the pipe was read** exactly when a read ends
  between a carriage return and its line feed, because line endings are
  normalised read by read; each such cut stores one extra empty line
  (`Splitter.ChunkIndependence`).
- **An acknowledgement can belong to an earlier numbering.** Coalescing keeps the
  larger number within one activation even if the ring started over inside it.
  What waits belongs to the present numbering after a poll exactly if that poll
  returned it, or it did before and the poll restarted nothing (`Channel.Poll`),
  and what is sent does exactly if what waits does (`SendNext`);
  `RestartWithinActivation` shows it failing for any waiting number. Its
  locations were durable when their own drain returned it in either case.

## Model

| member | source | states |
|---|---|---|
| Disk.LogAppend | worlds/jak3/persistence.py:1157-1188 | a legal file operation after a legal log gives a legal log whose replay is one step further |
| Disk.LoggedStep | worlds/jak3/persistence.py:1157-1188 | every logged operation was legal in the directory it met |
| Disk.LogIsRun | worlds/jak3/persistence.py:1157-1188 | the log of file operations determines a run of directory states that ends in its replay |
| Disk.Directory.Perform | worlds/jak3/persistence.py:1813-1842 | a file operation happens entirely and is logged, or fails and changes nothing |
| Disk.Directory.FreshNumber | worlds/jak3/persistence.py:1202-1219 | every temporary or quarantine name is new |
| History.RecoverStep | worlds/jak3/persistence.py:1116-1200 | the files refine one atomic cell: apart from damage a file operation leaves the recovered state, replaces it by its successor, or creates the first one |
| History.RecoverBetweenCommitPoints | worlds/jak3/persistence.py:1157-1188 | between two operations that reach the primary, what a restart recovers does not change |
| History.CrashLeavesOldOrNew | worlds/jak3/persistence.py:1157-1188 | a crash anywhere in a stretch with one commit point leaves exactly the old or exactly the new recovered state |
| History.CrashAt | worlds/jak3/persistence.py:1157-1188 | the same for any prefix of an operation log |
| History.OnePhase | worlds/jak3/persistence.py:1116-1188 | every crash state of a one-commit stretch is the state before it or the state after it |
| History.TwoPhases | worlds/jak3/persistence.py:794-902 | every crash state of loading followed by marking is the state before, between or after |
| History.BackupAlwaysTrails | worlds/jak3/persistence.py:1157-1188 | in every run, the backup holds the primary's instance at its revision or the one before, and never another binding |
| History.DamagedPrimaryCostsOneRevision | worlds/jak3/persistence.py:954-1040 | losing or damaging the primary anywhere in any run recovers the same instance at most one revision back, exactly when the backup decodes and the primary is missing or undecodable; otherwise recovery refuses |
| History.BindingAgreement | worlds/jak3/persistence.py:904-952 | in every run a stored binding and a readable authorisation name the one slot the save identity was authorised for |
| History.AuthorisedForGood | worlds/jak3/persistence.py:707-754 | authorisation is write-once: nothing later changes the authorised slot |
| History.RecoveredBindingsAgree | worlds/jak3/persistence.py:707-952 | bound states recovered at any two points of a run carry the same slot, even after a rollback to an unbound backup in between |
| History.BackedForGood | worlds/jak3/persistence.py:1202-1232 | once a backup or quarantined file exists, one exists ever after |
| History.NeverRecreatedOnceBacked | worlds/jak3/persistence.py:962-1002 | once backed, no operation of any run publishes a fresh state, even if the primary is lost |
| History.PublishedStaysKnown | worlds/jak3/persistence.py:954-1040 | after a first publication the primary or a backing file is always present, unless an unbacked primary is lost |
| History.CreatedOnce | worlds/jak3/persistence.py:962-1002 | after a creation, a second one has a loss of the primary in between, at a directory with no backup, no quarantined and no interrupted file |
| History.RecreatedExactly | worlds/jak3/persistence.py:962-1002 | from any legal log, calls can create a fresh state without further damage if and only if there is no primary, no backup, no file that was moved aside and no leftover temporary |
| History.LossRecreatesExactly | worlds/jak3/persistence.py:962-1002 | losing the primary makes a second creation possible if and only if nothing backs it and no interrupted write left a temporary |
| History.LossBeforeBackupRecreates | worlds/jak3/persistence.py:987-1002 | a concrete run in which exactly that loss leads to a second creation |
| History.CommittedIsBacked | worlds/jak3/persistence.py:1157-1188 | every published state past its creation is backed |
| History.SettledForGood | worlds/jak3/persistence.py:707-1040 | after a bound state is published, later bound states have its slot and no fresh state is ever created |
| History.OneInstance | worlds/jak3/persistence.py:1055-1188 | without a new creation, all stored states belong to one instance |
| History.ChainPublish | worlds/jak3/persistence.py:1116-1188 | a commit extends the chain by one successor |
| History.ChainDamage | worlds/jak3/persistence.py:954-1040 | damage that forces a fallback removes at most the last element of the chain |
| History.CommitsFormOneChain | worlds/jak3/persistence.py:1055-1188 | at every point of every run the commits form one linear chain of one instance, revisions counting from zero, the binding changing at most once, and the files recover to its end |
| History.DurableUntilDamaged | worlds/jak3/persistence.py:1157-1188 | a location once durable is recovered after any crash of any continuation of the log, until damage |
| History.LostExactlyWithItsRevision | worlds/jak3/persistence.py:954-1040 | which damage takes a durable location away can be read off the directory it meets: it reaches the file that is read, and the backup is hidden, missing, undecodable or without the location; a state recovered all the same is one revision back |
| Repository.StoredStatesAreValid | worlds/jak3/persistence.py:1454-1655 | every state on disk meets the validity contract |
| Repository.ServedIsGranted | worlds/jak3/persistence.py:904-952 | a plan that serves an unbound state has checked the authorisation of its slot, and that check still holds when the state is bound |
| Repository.OnlyAuthorisedSlotServed | worlds/jak3/persistence.py:756-952 | whatever the directory went through, opening serves a state only to the slot its save identity was authorised for |
| Repository.StartsExactly | worlds/jak3/persistence.py:962-1002 | an open creates a state if and only if no older one can be left, the slot is authorised and the save is unprogressed; a leftover temporary alone makes it refuse |
| Repository.LossStartsExactly | worlds/jak3/persistence.py:962-1002 | after a loss of the primary an open creates a state if and only if nothing backed it, no temporary is left, the slot is authorised and the save is unprogressed |
| Repository.PlannedIsRecovered | worlds/jak3/persistence.py:954-1053 | what an open serves or rebuilds is what the files recover to and the last commit of the run; it starts afresh or quarantines only where they recover to nothing |
| Repository.AuthorisedExactly | worlds/jak3/persistence.py:904-952 | a first binding is granted exactly by an authorisation of this identity for this slot; each other file is refused for its own reason |
| Repository.ServesExactly | worlds/jak3/persistence.py:954-1053 | an open serves exactly a primary that decodes, belongs to this save, and is bound to this slot or unbound with the grant present |
| Repository.RebuildsExactly | worlds/jak3/persistence.py:962-1040 | it rebuilds exactly such a backup behind a missing or undecodable primary |
| Repository.QuarantinesExactly | worlds/jak3/persistence.py:980-1026 | it moves aside exactly the undecodable files where neither primary nor backup decodes and one is there |
| Repository.RefusesExactly | worlds/jak3/persistence.py:915-1040 | every refusal has its cause: incompatible files, a missing grant, another save or slot, leftovers, or a save that has progressed |
| Repository.GrantNeededExactly | worlds/jak3/persistence.py:915-952 | provenance is needed exactly if the state to open is unbound or there is none |
| Repository.OpenedExactly | worlds/jak3/persistence.py:820-870 | opening binds an unbound state, marks it in use, advances the revision exactly if that changed it, and touches nothing else |
| Repository.DamageKeepsSessions | worlds/jak3/persistence.py:1262-1285 | damage at rest neither revives a superseded session nor confuses a current one |
| Repository.StateRepository.WriteTemporary | worlds/jak3/persistence.py:1813-1824 | a temporary is written completely; after a failure nothing changed, or an undecodable temporary stays |
| Repository.StateRepository.ReplaceFile | worlds/jak3/persistence.py:1827-1842 | the target shows the new content or is untouched, every file beside the three canonical ones stays, with at most one commit point |
| Repository.StateRepository.RefreshBackup | worlds/jak3/persistence.py:1157-1188 | the backup becomes a copy of the primary; after a failure it is that copy or unchanged, and nothing else a reader sees changes |
| Repository.StateRepository.Publish | worlds/jak3/persistence.py:1157-1188 | one rename replaces the primary, or nothing changes; a failure may be reported after it |
| Repository.StateRepository.WriteState | worlds/jak3/persistence.py:1157-1188 | temporary, backup, primary: if the primary was replaced the backup holds the old primary; if not, the primary is untouched |
| Repository.StateRepository.Commit | worlds/jak3/persistence.py:1055-1155 | refuses exactly the stale, missing, damaged or foreign primaries without touching the disk; any other commit publishes the successor, unless an operation raised |
| Repository.StateRepository.AuthorizeSaveIdentity | worlds/jak3/persistence.py:707-754 | records an authorisation once; a present one decides and is never rewritten; states and leftovers are untouched |
| Repository.StateRepository.QuarantineFile | worlds/jak3/persistence.py:1202-1219 | a damaged file leaves its name, a new quarantine name holds its content, and the other files stay |
| Repository.StateRepository.QuarantineDamaged | worlds/jak3/persistence.py:1013-1026 | when it reports corruption, each of the two files that was there is gone from its name and its content sits under a new quarantine name; nothing is recoverable |
| Repository.StateRepository.QuarantineOrphan | worlds/jak3/persistence.py:1230-1232 | one leftover temporary now sits, unchanged, under a new interrupted name, or nothing changed |
| Repository.StateRepository.QuarantineOrphans | worlds/jak3/persistence.py:1230-1232 | after success no temporary is left and each sits, unchanged, under an interrupted name of its own; every other file stays, also after a failure |
| Repository.StateRepository.Preflight | worlds/jak3/persistence.py:915-952 | the authorisation is checked before any file changes, exactly when a first binding could follow |
| Repository.StateRepository.RestoreBackup | worlds/jak3/persistence.py:1190-1200 | a missing primary is rebuilt from the backup |
| Repository.StateRepository.StartState | worlds/jak3/persistence.py:987-1002 | a fresh state is published only where nothing old is left |
| Repository.StateRepository.WithoutPrimary | worlds/jak3/persistence.py:962-1002 | loading without a primary follows the plan for the directory: the planned state, the planned refusal, or the flagged files and only they moved aside |
| Repository.StateRepository.WithDamagedPrimary | worlds/jak3/persistence.py:1005-1040 | loading with a damaged primary follows the plan: the damaged files are moved aside before the backup is restored or the open refused |
| Repository.StateRepository.LoadOrCreate | worlds/jak3/persistence.py:954-1053 | loading does what the plan for the directory says unless an operation raised, moves aside what the plan flags, loses no other file, and has at most one commit point |
| Repository.StateRepository.BindAndMark | worlds/jak3/persistence.py:794-902 | the loaded state is bound if it was not, marked in use, and committed if that changed it; otherwise nothing is written |
| Repository.StateRepository.FinishOpening | worlds/jak3/persistence.py:794-902 | a finished open has the served state on disk, bound to the slot, no temporary left, and each former temporary under an interrupted name of its own |
| Repository.StateRepository.LoadAndMark | worlds/jak3/persistence.py:794-902 | loading then marking gives the opened form of the planned state, with one commit point in each phase, what the plan flags moved aside and no temporary left |
| Repository.StateRepository.OpenLocked | worlds/jak3/persistence.py:794-902 | opening under the lease follows the plan; a crash anywhere in it recovers to the old, the loaded or the opened state; a refusal touches nothing |
| Repository.StateRepository.OpenLive | worlds/jak3/persistence.py:756-902 | a second writer is refused; otherwise the plan is carried out unless an operation raised; a served session holds the state on disk, bound to its slot and marked in use, with damaged files and temporaries moved aside; a failed open gives the lease back |
| Repository.StateRepository.Reopen | worlds/jak3/persistence.py:756-902 | a state of this save that is bound to this slot, or granted to it, is served again from primary or backup unless an operation raised |
| Repository.StateSession.Forward | worlds/jak3/persistence.py:1262-1285 | answers each case with its own failure: closed, another instance, another binding or save, another revision, a primary that is missing, damaged, foreign or not the session's; otherwise the successor is committed unless an operation raised |
| Repository.StateSession.Commit | worlds/jak3/persistence.py:1262-1285 | a successor that agrees with an open session whose state is on disk is committed, one revision on, unless an operation raised, and every other one gets its own failure; a crash recovers to the old or the new state; it publishes nothing else; if the disk moved on without the session, nothing is written |
| Repository.OnePublication | worlds/jak3/persistence.py:1116-1188 | a stretch of a log with one commit point and a successor at its end holds no damage and publishes nothing but that successor of that state |
| Repository.NeverWritesAgain | worlds/jak3/persistence.py:1116-1145 | a session the disk moved on without fails every commit it ever attempts, whatever authorisations and damage come between, and no state file gains anything |
| Repository.StateSession.Close | worlds/jak3/persistence.py:1342-1368 | the lease is given back whatever happens; a clean close of a session whose state is on disk reports success unless an operation raised, and then the disk holds the state marked clean |
| State.CreateUnbound | worlds/jak3/persistence.py:242-291 | a fresh state is valid, unbound, empty, at revision zero, and of this save and instance |
| Sorting.Sorted | worlds/jak3/persistence.py:1997-2010 | a set's members in strictly increasing order |
| Sorting.IncreasingUnique | worlds/jak3/persistence.py:1997-2010 | a sorted duplicate-free tuple is determined by its members |
| Ledger.ParsePacket | worlds/jak3/received_items.py:98-172 | a packet is accepted exactly when its index, range and every entry are; otherwise the first bad entry is named |
| Ledger.ParsedEntryExactly | worlds/jak3/received_items.py:98-172 | an accepted entry is the item as sent, one of the three permanent ones, with its numbers in range and to be applied |
| Ledger.ReplaceCanonicalHistory | worlds/jak3/received_items.py:246-272 | the replacement loop computes the canonical journal and its discrepancies |
| Ledger.AddLengthDifference | worlds/jak3/received_items.py:246-272 | every index only one of the two histories has is listed too |
| Ledger.PendingListed | worlds/jak3/received_items.py:275-288 | the pending tuple lists exactly the pending indices in increasing order |
| Ledger.CountsListed | worlds/jak3/received_items.py:275-288 | counts list exactly the received identifiers, increasing, each with its multiplicity |
| Ledger.ApplyKeepsValid | worlds/jak3/received_items.py:175-272 | no packet transition can fail validation, and none touches instance, revision or binding |
| Ledger.ApplicationStateKept | worlds/jak3/received_items.py:246-272 | an unchanged item at an index keeps its application state; new or changed ones are pending |
| Ledger.DiscrepanciesExact | worlds/jak3/received_items.py:246-272 | a replacement reports exactly the differing indices, strictly increasing |
| Ledger.OutcomeExactly | worlds/jak3/received_items.py:175-210 | each of the six outcomes, by where the packet starts and ends and what the journal holds there |
| Ledger.ExtendsExactly | worlds/jak3/received_items.py:190-196 | a packet at the end of the journal is appended, and changes it exactly if it has entries |
| Ledger.ReplacesExactly | worlds/jak3/received_items.py:246-272 | a packet from index zero becomes the journal |
| Ledger.LedgerOnly | worlds/jak3/received_items.py:175-272 | any other packet changes nothing, and none changes anything but the ledger |
| Ledger.ValidateJournal | worlds/jak3/persistence.py:1521-1547 | the counting loop accepts exactly valid journals and names the first bad entry's verdict |
| Ledger.ValidateCounts | worlds/jak3/persistence.py:1548-1567 | counts are accepted exactly when they equal the recount |
| Ledger.ValidatePending | worlds/jak3/persistence.py:1568-1581 | pending indices are accepted exactly when they are the journal's |
| Ledger.ValidateLedger | worlds/jak3/persistence.py:1513-1599 | the ledger part of validation accepts exactly the valid ledgers |
| Ledger.TalliedCounts | worlds/jak3/persistence.py:1521-1548 | the sorted dictionary of a recount is the canonical counts tuple |
| Ledger.PrefixStep | worlds/jak3/received_items.py:175-210 | any slice of an append-only history keeps the journal a prefix of it and is never a conflict; the full packet completes it |
| Ledger.JournalIsAlwaysAPrefix | worlds/jak3/received_items.py:175-272 | under loss, repetition and reordering the journal is always a prefix of the history, nothing conflicts, and the full index-zero packet makes it equal |
| Ledger.SlicesComplete | worlds/jak3/received_items.py:190-196 | consecutive slices from the journal's end bring it to the last one's end, without any full packet |
| Ledger.HistoryCompleted | worlds/jak3/received_items.py:190-196 | once they reach its end, the journal is the history |
| Ledger.PermanentItemTargetMask | worlds/jak3/received_items.py:213-224 | the computed mask holds a permanent item's bit exactly when the counts hold the item, in a valid state exactly when its journal does, and no other bit |
| Ledger.MaskReflectsJournal | worlds/jak3/received_items.py:213-224 | the mask holds an item's bit exactly when the journal holds the item, and no other bit |
| Ledger.MaskByBits | worlds/jak3/received_items.py:213-224 | bits one, two and four stand for the Jetboard, the Blaster and the armour |
| Ledger.MarkingIsValid | worlds/jak3/received_items.py:227-243 | marking leaves no entry pending, records the receipt, touches nothing else, and keeps the state valid and its target |
| ItemWorker.StepKeeps | worlds/jak3/client.py:2188-2528 | every event keeps states valid, and an awaited command's mask equal to its session's target |
| ItemWorker.TraceKeeps | worlds/jak3/client.py:2188-2528 | the same over every run |
| ItemWorker.AppliedStep | worlds/jak3/client.py:2440-2486 | one step turns an entry applied only by an acknowledgement that carried its bit, or by opening a state that had it applied |
| ItemWorker.AppliedWasAcknowledged | worlds/jak3/client.py:2188-2486 | over every run, an applied entry became so when its state was opened or when an acknowledged command whose mask held its bit settled it, whatever was interleaved with the command, and has been applied ever since |
| ItemWorker.GenerationStep | worlds/jak3/client.py:1665-1675 | only an observed rebuild of a bound session advances the rebuild generation |
| ItemWorker.NoRebuildBetween | worlds/jak3/client.py:1665-1675 | equal generations mean no rebuild was observed in between |
| ItemWorker.CommandStep | worlds/jak3/client.py:2333-2486 | how a step may start a command or a confirmation |
| ItemWorker.AwaitedWasSubmitted | worlds/jak3/client.py:2333-2410 | an awaited command was submitted earlier in the run |
| ItemWorker.ConfirmedAfterLastRebuild | worlds/jak3/client.py:2188-2209 | whenever the worker is not dirty and holds a confirmation, its command was submitted, then acknowledged, and no rebuild was observed from the submission on |
| ItemWorker.SubmittedOnlyWhenDue | worlds/jak3/client.py:2333-2405 | a command goes out only for a safe game, the open state, an empty packet queue, and when it is due |
| ItemWorker.SubmitsExactly | worlds/jak3/client.py:2333-2405 | a ready worker without packets submits a command if and only if one is due, and else goes idle |
| ItemWorker.RebuildBringsCommand | worlds/jak3/client.py:1665-1675 | a rebuild of a bound session in a safe game is followed by a command, whatever was confirmed or had failed |
| ItemWorker.PacketExactly | worlds/jak3/client.py:2210-2331 | what each packet outcome, and a lost commit, leave of the coordinator |
| ItemWorker.ResultExactly | worlds/jak3/client.py:2402-2528 | what each command outcome, and a rebuild meanwhile, leave of the coordinator |
| ItemWorker.NoteExactly | worlds/jak3/client.py:1952-2027 | exactly which differences between runtime and snapshot make the worker dirty, forget a failure or forget a confirmation |
| ItemWorker.OtherEventsExactly | worlds/jak3/client.py:1665-1675 | what rebuilds, packets, connections and session changes do |
| ItemWorker.AcknowledgementSettlesAll | worlds/jak3/client.py:2440-2486 | a durable acknowledgement leaves nothing pending and confirms the target, unless a rebuild outdated it |
| ItemWorker.Worker.CommitReceivedItemsPacket | worlds/jak3/client.py:2210-2331 | the first packet is applied and committed, or the session is closed |
| ItemWorker.Worker.AcceptPacket | worlds/jak3/client.py:2273-2298 | a failed commit closes the session; a changed target makes the worker dirty |
| ItemWorker.Worker.ReconcilePermanentItems | worlds/jak3/client.py:2333-2405 | the worker suspends on a command or stops |
| ItemWorker.Worker.Turn | worlds/jak3/client.py:2188-2202 | the loop ends suspended on a command with no packet left, or stopped |
| ItemWorker.Worker.TakeResult | worlds/jak3/client.py:2402-2525 | each outcome of the command updates the coordinator as specified |
| ItemWorker.Worker.Acknowledge | worlds/jak3/client.py:2433-2486 | an acknowledgement for a replaced session settles nothing |
| ItemWorker.Worker.Resume | worlds/jak3/client.py:2201-2209 | the worker loops again exactly when a rebuild was observed during the command |
| ItemWorker.Worker.ScheduleAfterNativeRebuild | worlds/jak3/client.py:1665-1675 | a rebuild is recorded as the event it is |
| ItemWorker.Worker.NoteRuntime | worlds/jak3/client.py:1952-2027 | what a snapshot invalidates |
| ItemWorker.Worker.SynchronizePersistence | worlds/jak3/client.py:977-980 | noting the runtime is the last thing a synchronisation does |
| ItemWorker.Worker.ObserveReceivedItems | worlds/jak3/client.py:2167-2171 | a parsed packet is queued and the worker woken |
| ItemWorker.Worker.OnRoomInfo | worlds/jak3/client.py:2638-2660 | a new room forgets packets, confirmation and session |
| ItemWorker.Worker.OnConnected | worlds/jak3/client.py:2743-2749 | authentication makes the worker dirty |
| ItemWorker.Worker.ClosePersistence | worlds/jak3/client.py:709-719 | closing forgets the confirmation and leaves the worker dirty |
| Locations.ReactIsExact | worlds/jak3/location_outbox.py:77-147 | neither guard of a transition can fire on a valid state, the result is valid, and its two sets are the expected unions |
| Locations.ReportsAreExact | worlds/jak3/location_outbox.py:77-107 | the reported additions and removals are exactly the differences between the two states |
| Locations.ChangedWhenReported | worlds/jak3/location_outbox.py:77-107 | a transition counts as changed exactly when it reports something |
| Locations.ObservationIsExact | worlds/jak3/location_outbox.py:110-121 | an observation adds one checked location and changes nothing but checks and outbox |
| Locations.NoCheckIsLost | worlds/jak3/location_outbox.py:77-147 | over any events, reconnections and rollbacks included, checked is the old set with everything mentioned |
| Locations.ConfirmedSinceConnected | worlds/jak3/location_outbox.py:137-147 | without a new full set, confirmed only grows by the deltas |
| Locations.OrderIsIrrelevant | worlds/jak3/location_outbox.py:110-147 | after Connected(S), any interleaving of observations O and updates U ends in the one state with checked = old + S + O + U, confirmed = S + U and the difference to send |
| Locations.AcceptedUpdateIsKnown | worlds/jak3/location_outbox.py:171-232 | an accepted update mentions enabled, known locations only, and a full one splits the slot's table |
| Locations.ConnectedAcceptedExactly | worlds/jak3/location_outbox.py:188-232 | a full update is accepted exactly when its two lists split the slot's table |
| Locations.ListsExactly | worlds/jak3/location_outbox.py:171-187 | a field is read as exactly the locations it lists, each once; a partial packet may leave it out |
| Locations.RoomUpdateAcceptedExactly | worlds/jak3/location_outbox.py:188-232 | a partial update is accepted exactly when its lists name enabled locations, and confirms exactly those checked |
| LocationQueue.FoldAppend | worlds/jak3/client.py:1380-1389 | queueing an update folds it last |
| LocationQueue.FoldsAgreeExactly | worlds/jak3/client.py:1785-1793 | two starting sets fold to the same mirror exactly when a full update is queued or they agree outside the queued locations |
| LocationQueue.AbsorbIsExact | worlds/jak3/client.py:1793-1840 | absorbing one update never trips a guard and moves the confirmed set as the update says |
| LocationQueue.AbsorbAllFolds | worlds/jak3/client.py:1793-1840 | absorbing a queue folds it over the confirmed set |
| LocationQueue.LocationCoordinator.Rebase | worlds/jak3/client.py:1785-1792 | a state seen for the first time gets the whole mirror as one full update, and the refinement holds again |
| LocationQueue.LocationCoordinator.AbsorbFirst | worlds/jak3/client.py:1793-1840 | an update leaves the queue exactly when it was absorbed; it fails, and freezes the coordinator, only if the disk does not take the next revision |
| LocationQueue.LocationCoordinator.AbsorbQueue | worlds/jak3/client.py:1793-1840 | the loop absorbs a prefix of the queue, all of it unless the disk stops taking revisions |
| LocationQueue.LocationCoordinator.Drain | worlds/jak3/client.py:1780-1865 | a drain absorbs a prefix of what is due and confirms its fold; if it succeeds on a refined coordinator or a newly seen state, confirmed equals the mirror |
| LocationQueue.LocationCoordinator.Settle | worlds/jak3/client.py:1780-1865 | a drain as its callers see it: what was due is folded over the confirmed set, or the coordinator is frozen because the disk refused a revision |
| LocationQueue.LocationCoordinator.Connected | worlds/jak3/client.py:1372-1389 | a full update replaces mirror and queue, and reaches an open state |
| LocationQueue.LocationCoordinator.RoomUpdate | worlds/jak3/client.py:1347-1389 | a delta before authentication freezes the coordinator; after it, the mirror grows by it and an open state by what was queued and it, whether or not the refinement held |
| LocationQueue.LocationCoordinator.CommitElsewhere | worlds/jak3/client.py:1538-1600 | commits of other coordinators neither break nor repair the refinement |
| LocationQueue.LocationCoordinator.Reject | worlds/jak3/client.py:1329-1344 | a rejected update freezes the coordinator |
| LocationQueue.LocationCoordinator.Close | worlds/jak3/client.py:709-719 | an orderly close forgets which state was reconciled, and restores the refinement |
| LocationQueue.LocationCoordinator.Drop | worlds/jak3/client.py:937-944 | a failing synchronisation drops the session but keeps that memory |
| LocationQueue.LocationCoordinator.Open | worlds/jak3/client.py:909-913 | from a refined coordinator, a reopened state keeps the refinement if and only if the coordinator is frozen, its instance is not the remembered one, or it agrees with the dropped one outside the queued updates; from an unrefined one, exactly when it repairs the difference itself |
| LocationQueue.LocationCoordinator.RoomInfo | worlds/jak3/client.py:2653-2660 | a new room forgets mirror, queue, session and freeze |
| LocationQueue.DropAndReopen | worlds/jak3/client.py:937-944 | any drained client whose dropped state comes back with other confirmations stays different from the mirror after a drain |
| LocationQueue.DifferenceOutlivesDeltas | worlds/jak3/client.py:1380-1389 | the difference survives a delta exactly outside that delta |
| LocationQueue.ConnectedRepairs | worlds/jak3/client.py:1372-1389 | the next full update repairs it |
| LocationQueue.OpenFirst | worlds/jak3/client.py:1785-1792 | a client that remembers no state brings whichever it opens to the mirror |
| LocationQueue.ReopeningRepairs | worlds/jak3/client.py:709-719 | so does an orderly close followed by opening any state |
| LocationQueue.StaleAfterRollback | worlds/jak3/client.py:1785-1793 | a run in which this happens, with every commit taken: the state comes back from its older copy and ends drained, not frozen and different from the mirror |
| GoalDrain.SortKeepsOrdered | worlds/jak3/agents/diagnostics.py:1958 | records already in order are drained in that order |
| GoalDrain.SortSorts | worlds/jak3/agents/diagnostics.py:1958 | sorting orders the records, keeping each as often as it occurs |
| GoalDrain.TouchedOnce | worlds/jak3/agents/diagnostics.py:1976-1987 | a number accounted for once is emitted once and in no gap, or lies in exactly one gap |
| GoalDrain.OwedAccounts | worlds/jak3/agents/diagnostics.py:1976-2041 | the report that was due and the record behind it account for every number up to the record |
| GoalDrain.WrongReportSpoils | worlds/jak3/agents/diagnostics.py:1976-2041 | a record written behind any other reports leaves some number lost, or accounted for twice, for good |
| GoalDrain.AccountedExactly | worlds/jak3/agents/diagnostics.py:1976-2041 | the log accounts for every accepted number exactly once, and for no other, if and only if every record was written behind exactly one report of exactly what it skips and no report waits for its record |
| GoalDrain.ReportedTwice | worlds/jak3/agents/diagnostics.py:1976-2041 | a record whose write fails behind its report: the next drain reports the gap again and the account is spoilt |
| GoalDrain.Timeline.Accept | worlds/jak3/agents/diagnostics.py:1976-2041 | exactly the gap before the record, then the record, are attempted, stopping at a failed write; the high-water mark moves only if the record was written |
| GoalDrain.Timeline.IngestOne | worlds/jak3/agents/diagnostics.py:1959-2041 | a record at or below the mark is never written again; a failed write stops the drain |
| GoalDrain.Timeline.IngestSorted | worlds/jak3/agents/diagnostics.py:1958-2041 | over overlapping snapshots each number of a generation is emitted at most once and in order; what is returned was written in this drain or accepted before, and it is the last record's number exactly if every record the drain tried was written |
| GoalDrain.Timeline.Ingest | worlds/jak3/agents/diagnostics.py:1940-2048 | the same for records in any order: the highest number of the drain is returned exactly if every record it tried was written |
| GoalDrain.Timeline.ResetSource | worlds/jak3/agents/diagnostics.py:2056-2062 | a reload starts a new generation |
| GoalChannel.ObservedIsValid | worlds/jak3/client.py:1570-1582 | observing adds one checked location and perhaps the goal, which is then still to be told to the server, keeps the state valid, and changes nothing else |
| GoalChannel.CarriedExactly | worlds/jak3/agents/protocol.py:925-945 | the waiting number was returned by a drain of the present generation if and only if the drain it was carried from is one |
| GoalChannel.WellFormedExactly | worlds/jak3/client.py:1545-1563 | the eight location reports that are accepted, field by field |
| GoalChannel.Channel.CommitObservation | worlds/jak3/client.py:1538-1600 | a well-formed location record on a bound, unfrozen, open session whose state is on disk is committed unless an operation raised, and then the location is checked in the state on disk; the disk is asked exactly for a change; every refused commit and malformed record freezes |
| GoalChannel.Channel.CommitObservations | worlds/jak3/client.py:1723-1742 | exactly the records before the first location that cannot be committed, or whose commit the disk refused, are passed on, all their locations durable |
| GoalChannel.Channel.IngestGoalEvents | worlds/jak3/client.py:1723-1778 | every location record up to the returned number is durably checked; all records before the first one refused go to the timeline, and the last of them is returned exactly if everything tried was written |
| GoalChannel.Channel.DrainRecords | worlds/jak3/agents/protocol.py:1068-1089 | exactly this snapshot is drained, once; a failing sink acknowledges nothing and does not advance the dropped count |
| GoalChannel.Channel.Observe | worlds/jak3/agents/protocol.py:997-1089 | a missing or malformed channel drains and acknowledges nothing; otherwise exactly this snapshot is drained, and the highest number passed on is returned exactly if everything tried was written; a new source generation starts exactly when the reset succeeds and the activation differs, the numbers went back, or the channel was away |
| GoalChannel.Channel.ScheduleAcknowledgement | worlds/jak3/agents/protocol.py:925-945 | acknowledgements coalesce to the maximum within one activation and are replaced across activations, and the drain the waiting number came from is kept |
| GoalChannel.Channel.SendNext | worlds/jak3/agents/protocol.py:966-995 | every acknowledgement sent was returned by a drain of its own activation whose locations at or below it were all checked in a state the disk had recorded by then; it is of the present numbering if and only if the waiting number was |
| GoalChannel.Channel.Poll | worlds/jak3/agents/protocol.py:1128-1139 | polling schedules only for the polled activation, and starts a generation exactly as observing does; the waiting number belongs to the present numbering if and only if this poll returned it, or it did before and this poll restarted nothing |
| GoalChannel.Channel.Reconnect | worlds/jak3/client.py:2919-2930 | a reconnect forgets the waiting number, and starts a new source generation exactly when the reset succeeds |
| GoalChannel.RestartWithinActivation | worlds/jak3/agents/protocol.py:925-995 | whatever waits, a ring that starts over inside the same activation with nothing to report gets a number no drain of its numbering returned |
| GoalChannel.Channel.Store | worlds/jak3/client.py:1571-1582 | a change that agrees with an open session whose state is on disk is committed unless an operation raised; success makes its state the successor, failure leaves it |
| GoalChannel.PollOneRing | worlds/jak3/agents/protocol.py:1033-1045 | polling one ring whose numbers never go back drains every snapshot and never starts a generation, whatever fails |
| ClientCommits.CommitKeepsChecks | worlds/jak3/client.py:1538-1600 | no change the client commits (observations, reconciliations, items, receipts, flags, opening, closing) fails validation, forgets a checked location, or changes the instance |
| ClientCommits.ClientOperationKeepsChecks | worlds/jak3/client.py:1569-1582 | an operation that publishes such a change keeps every checked location on the disk |
| ClientCommits.CommitAs | worlds/jak3/client.py:1569-1582 | committing such a change through an open session logs nothing but such operations, and success keeps every checked location |
| ClientCommits.SentStaysDurable | worlds/jak3/agents/protocol.py:966-995 | every location an acknowledgement covers was on the disk by the time of its drain, and is recovered after any crash of any continuation, as long as only the client's operations follow |
| RotatingLog.RotationDropsOldest | worlds/jak3/agents/diagnostics.py:1930-1938 | a rotation drops exactly the oldest segment |
| RotatingLog.Artifact.Rotate | worlds/jak3/agents/diagnostics.py:1930-1938 | the rename loop shifts every segment by one |
| RotatingLog.Artifact.AppendBytes | worlds/jak3/agents/diagnostics.py:1822-1858 | the segments oldest to newest are always a suffix of everything appended; only a due rotation drops anything; segments stay within the limit when the payload does |
| RotatingLog.Artifact.AppendText | worlds/jak3/agents/diagnostics.py:1804-1820 | text is appended in full and no chunk can overflow a segment whatever its encoding |
| RotatingLog.Artifact.ReadSegments | worlds/jak3/agents/diagnostics.py:2398-2404 | the listed segments concatenate to that suffix, at most backups + 1 of them and (backups + 1) * segment bytes in all |
| RotatingLog.TotalIsBounded | worlds/jak3/agents/diagnostics.py:1930-1938 | bounded segments bound the total |
| RotatingLog.EncodeOne | worlds/jak3/agents/diagnostics.py:1805-1816 | a code point takes one to four bytes |
| RotatingLog.EncodeConcatenation | worlds/jak3/agents/diagnostics.py:1809-1818 | encoding chunk by chunk is encoding the whole |
| Splitter.StreamIsBatch | worlds/jak3/agents/launcher.py:587-649 | one character at a time gives what the whole text gives |
| Splitter.LinesAreCharacters | worlds/jak3/agents/launcher.py:612-645 | handling complete lines first is the same as one character at a time |
| Splitter.BatchIsLossless | worlds/jak3/agents/launcher.py:612-649 | without an oversized line nothing is lost or reordered |
| Splitter.BatchCount | worlds/jak3/agents/launcher.py:612-649 | one output per newline and one for an unterminated rest |
| Splitter.LinesAreStored | worlds/jak3/agents/launcher.py:612-649 | the outputs are the lines in order: a line within the limit as it is, a longer one as a notice; the final flush completes an unterminated line or stands behind them |
| Splitter.PiecesMakeText | worlds/jak3/agents/launcher.py:612-649 | these lines, put together, are the text |
| Splitter.NormalisedConcatenation | worlds/jak3/agents/launcher.py:605 | normalising two pieces is normalising the whole, except where the cut splits a carriage return from its line feed |
| Splitter.NormalisedExactly | worlds/jak3/agents/launcher.py:605 | a carriage return, with its line feed or alone, becomes one line feed, and everything else stays |
| Splitter.ChunkIndependence | worlds/jak3/agents/launcher.py:587-649 | what is stored depends on the cutting if and only if some cut splits such a pair, and each such cut adds one empty line |
| Splitter.DrainPending | worlds/jak3/agents/launcher.py:612-645 | the inner loop terminates, emits every complete line, and holds only tails of what it started with |
| Splitter.TakeChunk | worlds/jak3/agents/launcher.py:605-645 | one read moves the buffer as the characters would; nothing held meanwhile exceeds the line limit and one chunk |
| Splitter.MirrorProcessOutput | worlds/jak3/agents/launcher.py:568-649 | mirroring any reads stores what the whole normalised text amounts to |
| Decimal.ParsePrint | worlds/jak3/agents/protocol.py:272-275 | a printed integer is read back |
| Decimal.PrintsByDigits | worlds/jak3/agents/protocol.py:272-275 | the last digit comes last and a minus sign first |
| Decimal.PrefixIsSmaller | worlds/jak3/agents/protocol.py:272-275 | a proper prefix of a canonical decimal is a smaller number |
| Lines.SplitTerminated | worlds/jak3/agents/protocol.py:372-388 | splitting undoes joining, up to an unterminated last line |
| Lines.CutTerminated | worlds/jak3/agents/protocol.py:372-388 | cutting a text leaves whole lines and a piece of the next |
| Lines.CollectValues | worlds/jak3/agents/protocol.py:391-397 | the loop builds the dictionary of the lines or refuses them |
| Lines.CollectLines | worlds/jak3/agents/protocol.py:391-397 | lines with distinct keys become a dictionary of exactly those entries |
| SnapshotFields.KeysArePlain | worlds/jak3/agents/protocol.py:606-663 | the fifty-three fixed keys are pairwise distinct and contain no space, line break or digit |
| Snapshot.KeysDiffer | worlds/jak3/agents/protocol.py:603-719 | no two keys of a snapshot coincide, fixed or counted |
| Snapshot.ParsePrintValue | worlds/jak3/agents/protocol.py:272-304 | every kind of value is read back from its line |
| Snapshot.ParsePrintRecord | worlds/jak3/agents/protocol.py:448-457 | an event line is read back |
| Snapshot.ChannelParses | worlds/jak3/agents/protocol.py:425-481 | the diagnostics that were printed are read back |
| Snapshot.AssembleTabled | worlds/jak3/agents/protocol.py:400-569 | a dictionary of what was printed assembles to the snapshot |
| Snapshot.RoundTrip | worlds/jak3/agents/protocol.py:369-569 | parsing a printed well-formed snapshot gives that snapshot |
| Snapshot.TornFile | worlds/jak3/agents/protocol.py:369-388 | every proper prefix of a printed snapshot parses to nothing, except the one missing only the final line feed, which parses to the snapshot |
| Snapshot.DiagnosticsAreOptional | worlds/jak3/agents/protocol.py:425-481 | whatever happens to diagnostic keys, the rest of the snapshot parses the same |
| Snapshot.ParsedChannelFits | worlds/jak3/agents/protocol.py:425-481 | a channel that parses has at most sixty-four events, strictly ordered and below its next number |
| Snapshot.ParsedInRange | worlds/jak3/agents/protocol.py:545-569 | heartbeats, slot, act, mask and activation of a parsed snapshot are within their bounds |
| Snapshot.ParsedCodes | worlds/jak3/agents/protocol.py:482-544 | its status, eligibility, result and error codes are known, and its message is short |
| Snapshot.ParsedReceipts | worlds/jak3/agents/protocol.py:401-416 | it has at most eight receipts, each with a known result and error |
| Snapshot.FieldLines | worlds/jak3/agents/protocol.py:606-663 | flags are printed as one or zero, numbers in decimal, an absent text as a dash, behind these very names |
| Snapshot.ReceiptLines | worlds/jak3/agents/protocol.py:664-674 | a receipt takes these five lines |
| Snapshot.ChannelLines | worlds/jak3/agents/protocol.py:675-715 | the channel's header takes these lines |
| Snapshot.EventLine | worlds/jak3/agents/protocol.py:675-715 | an event is eleven numbers, the sequence first and the arguments last |
| Snapshot.SafetyNames | worlds/jak3/agents/protocol.py:606-663 | the safety flags and the native mask by place and name |
| Snapshot.CommandNames | worlds/jak3/agents/protocol.py:606-663 | the last command's fields by place and name |
| Snapshot.FormatSnapshot | worlds/jak3/agents/protocol.py:603-719 | the printer's loops print the specified text |
| Snapshot.FormatReceipts | worlds/jak3/agents/protocol.py:664-674 | receipts follow the fixed fields in order |
| Snapshot.FormatChannel | worlds/jak3/agents/protocol.py:675-715 | header, then events, in order |
| Snapshot.ParseSnapshotText | worlds/jak3/agents/protocol.py:369-569 | the parser computes the specified result |
| Snapshot.AssembleSnapshot | worlds/jak3/agents/protocol.py:400-569 | the parser's loops over fields and receipts compute the specified result |
| Payload.JournalReads | worlds/jak3/persistence.py:341-351 | a journal is read back from its array of objects |
| Payload.SortPairsKeeps | worlds/jak3/persistence.py:409-414 | sorting pairs with distinct identifiers orders them and loses none |
| Payload.CountsRead | worlds/jak3/persistence.py:353-355 | counts written under decimal text keys are read back sorted by integer, whatever order the keys come in |
| Payload.KeyNamesDiffer | worlds/jak3/persistence.py:495-532 | the thirty-four member names are distinct |
| Payload.PayloadDecodes | worlds/jak3/persistence.py:321-489 | every member of a valid state is read back |
| Payload.PayloadRoundTrip | worlds/jak3/persistence.py:321-492 | from_payload undoes to_payload on every valid state |
| Payload.MembersExactly | worlds/jak3/persistence.py:321-380 | every part of a state is written under its own member name |
| Payload.EntryMembers | worlds/jak3/persistence.py:341-351 | a journal entry is written as these six members |
| Payload.ReadIsValid | worlds/jak3/persistence.py:383-492 | what is read has every member and no other, the supported schema, and passes validation |
| Payload.PayloadIsClean | worlds/jak3/persistence.py:1398-1408 | a valid state's payload contains nothing canonical JSON rejects |
| Payload.EnvelopeOpens | worlds/jak3/persistence.py:1411-1451 | the envelope is transparent |
| Payload.OpenedIsChecked | worlds/jak3/persistence.py:1411-1451 | an envelope is opened only with its own format, the named algorithm and the payload's checksum |
| Payload.StateRoundTrip | worlds/jak3/persistence.py:1393-1451 | deserialising a serialised valid state gives that state, for any printer that can be undone and any hash |
| Payload.AlteredPayloadIsCorrupt | worlds/jak3/persistence.py:1434-1450 | a payload altered under an intact envelope is refused unless the hash collides |
| Install.WrittenHolds | worlds/jak3/agents/launcher.py:372-411 | writing the differing places leaves the whole bundle in place |
| Install.HoldsExactly | worlds/jak3/agents/launcher.py:372-411 | a bundle is in place exactly if each module, the manifest, the types and the project file are |
| Install.ObligesExactly | worlds/jak3/agents/launcher.py:387-391 | an install obliges to a reload exactly if a module or the manifest is not in place yet |
| Install.ChangesInOrder | worlds/jak3/agents/launcher.py:372-411 | changes are written modules first in their order, then manifest, types and project file |
| Install.SourcesKept | worlds/jak3/agents/launcher.py:387-411 | an install without obligation leaves every declared source alone |
| Install.Installation.Restart | worlds/jak3/agents/launcher.py:397-411 | a client restarted after a crash finds a moment that meets the obligation |
| Install.Installation.Write | worlds/jak3/agents/launcher.py:209-224 | a file is replaced atomically, a failure may be reported after the replacement, the new tree is one more moment of the history, and the obligation holds at every moment |
| Install.Installation.RollBack | worlds/jak3/agents/launcher.py:412-421 | rolling back touches only the changed places, keeps the marker, and records each tree it passes |
| Install.Installation.WriteChanges | worlds/jak3/agents/launcher.py:402-411 | the changes are written one by one in order, each as a moment of the history, and nothing after the first failure |
| Install.Installation.InstallBundle | worlds/jak3/agents/launcher.py:372-421 | success leaves every module, the manifest, the types and the project file in place; it fails exactly if an operation did; changed sources are always marked, and nothing else marks; an up-to-date tree is not touched; the trees the disk goes through differ step by step in one place, and every one holds the marker wherever sources differ from those last proven; a single failed write is rolled back |
| Install.Installation.DischargeObligation | worlds/jak3/client.py:3141-3144 | the marker goes only when the running modules are those on disk |
| Install.Game.LoadModules | worlds/jak3/client.py:2929-2940 | a changed activation means the module was loaded from the present files |
| Install.ForcedReload | worlds/jak3/client.py:2988-3144 | if no command, snapshot or file operation fails, it succeeds exactly when the last load advanced both activation counters; the marker is removed only after both changed in this reload; success has removed it, any other end keeps it |
| ProjectFile.EditLines | worlds/jak3/agents/launcher.py:340-370 | the list editor computes the specified edit |
| ProjectFile.EditableExactly | worlds/jak3/agents/launcher.py:340-364 | an edit is refused exactly if the anchor is not there once, or an object is there twice or before the anchor |
| ProjectFile.EditIsIdempotent | worlds/jak3/agents/launcher.py:346-370 | editing twice is editing once |
| ProjectFile.EditKeepsOtherLines | worlds/jak3/agents/launcher.py:353-370 | afterwards the objects follow the anchor in order and every other line is kept in order |

## Left out

- Directory and file synchronisation (`fsync`), file permissions and path hashing: one save identity's files are one map, and the name of its family is fixed.
- The writer lease is the flag `locked`; its file lock, process registry and stale-owner recovery (worlds/jak3/persistence.py:559-645) are operating-system behaviour.
- `StateRepository.open` and `StateSession.switch` without authorisation, `StateSession.bind` on an already open session, and `inspect`: the client opens states through `open_live` only.
- Repository.StateRepository.AuthorizeSaveIdentity: the payload of the authorisation file is a decoded grant; its own envelope checks only decide between the damaged, the foreign and the readable case.
- State.CreateUnbound: an authenticated slot is reduced to the four fields a state binds to; its contract of options and locations appears only as the set of enabled locations.
- Ledger.ValidateLedger: only the ledger part of validation runs as code; the rest is the predicate `State.Valid`. Python values of the wrong type cannot occur in typed state records, so their checks have no counterpart; `Payload` rejects them while reading.
- ItemWorker.Worker.Turn: emitted diagnostic events, requests for a resynchronisation and the latches that deduplicate them are not part of the coordinator's state here.
- ItemWorker.Worker.NoteRuntime: whether a native load completed is an input; the projection that detects it is not modelled.
- ItemWorker.Worker.TakeResult: closing the bridge after a lost transport is one step; the client may be suspended while its socket closes.
- LocationQueue.LocationCoordinator.Drain: sending the outbox to the server afterwards changes no durable state and is not modelled.
- GoalChannel.Channel.SendNext: whether the transport delivers an acknowledgement is not modelled, and a transport failure is not retried in the source either.
- GoalChannel.Channel.Reconnect: the replaced protocol object's loop may still be inside one send; that last transmission is not a step of the new one.
- GoalChannel.Channel.Observe: the diagnostic events about missing channels and failed callbacks are not modelled.
- GoalDrain.Timeline.Ingest: event names, severities, correlation and enrichment of a record are not modelled; a record of an unknown code counts as written when its rejection is.
- RotatingLog.Artifact.AppendBytes: the fallback to temporary storage after a writer failure, and the rotation event itself, are not modelled.
- Splitter.MirrorProcessOutput: the UTF-8 decoder is an input, its decoded reads and its final flush; redaction of stored lines is not modelled.
- Snapshot.ParseSnapshotText: non-ASCII digits, which Python's number reader accepts, are refused here.
- Payload.StateRoundTrip: the text syntax of JSON is a printer that can be undone.
- Install.Installation.DischargeObligation: one client at a time; another installer that replaces sources between the proof and the removal of the marker is not modelled.
- Install.ForcedReload: a game restarted in the middle of a reload, the repair of the diagnostic module alone, and the activation flags of the other modules are not modelled; two activation counters are what the client compares.
- ProjectFile.EditLines: lines are classified as quoted object names or anything else; indentation and line endings of inserted lines are not modelled.
- Registry tables, option resolution, regions and rules, the user interface, support bundles, exception hooks, process launching and the network protocol: finite tables or plumbing that would only add easy members.
