# Verified model of LTFS Data Management

LTFS Data Management moves files of a disk file system to tape and back. A file is copied to one or more tapes,
then cut to length zero; reading it later brings it back. A server gives tape drives and cartridges to queued
requests, and a file system overlay keeps, in two extended attributes of each file, where the file is on this way.

The project models the parts of the server and of the overlay that have to be right for no data to get lost and no
request to be forgotten, and proves what they guarantee, in every run of a transition system where the parts work
side by side. What the code relies on without checking it is a hypothesis with a name (`Clean`, `FreshMount`,
`Undisturbed`, `DistinctInodes`, `Tellable`, `OnlyWrites`, `RoundTrips`); for each there are theorems that say when
it is needed, as an if-and-only-if wherever it is a condition on a single step, and runs of what happens otherwise.

## How it is built

| files | what they are about |
|---|---|
| `FileAttributes`, `FileSafety`, `FileSteps`, `FilePrograms`, `FileRuns` | one file: attributes, bytes, tape copies, crashes, recovery |
| `FileGuarantees`, `FileResults`, `FileEffects` | what users get, what each program of system calls leaves of a file, what calls of an application do to it |
| `FileConditions`, `FileScenarios`, `FileInterference` | when exactly an unchecked call is safe, and the runs that lose data |
| `Library`, `Scheduler`, `DriveSharing`, `DriveSteps`, `DriveGuarantees`, `DriveEffects` | drives, cartridges, the scheduler's decisions, movers |
| `JobTable`, `Migration`, `Replicas`, `Rescheduling`, `RequestGuarantees`, `CopyLoop` | the job queue and migration requests |
| `RecallProtocol`, `RecallSteps`, `RecallReach`, `RecallGuarantees`, `TransRecall` | transparent recall |
| `Status`, `SelRecall`, `MigrationStatus`, `StubStatus` | selective recall, and the progress counters of recalls and migrations |
| `Escape`, `Text`, `ConfigFile`, `Configuration`, `Pools` | names, the configuration file, storage pools |
| `TapeLinks`, `Batching` | links on tape, transfer of file names from the client |

Code that changes state in place is modelled as a class whose methods run the same loops and branches
(`FsObj`, `Scheduler`, `JobQueue`, `Migration`, `Execution`, `TransRecall`, `SelRecall`, `Status`, `Configuration`,
`Inventory`, `TapeTree`). The contract of each method ties the new state to a function of the old one. The
transition systems are built from the same functions, so what is proved about their runs is about these methods.

Three results read best together:

- *Files.* `Sys` of `FileSafety` is one file with the replicas of its migration request, its tape copies and the
  service's start time. Operations under the file's lock are programs of system calls; a crash may come between any
  two calls, also during recovery. Recovery takes no lock and works from a state that it read earlier, and the
  truncation by path truncates after its lock is gone; what they have still to do may be overtaken by anything.
  `Inv` holds after every clean run (`FileRuns.CleanRunsKeep`), and from there a crash, a restart and a recall give
  back exactly what the application wrote (`FileGuarantees.NoDataLoss`). What the application writes and truncates
  is stated on the bytes (`FileEffects.TruncateTakesEffect`, `BlockedWriteTakesEffect`), and a file that nobody touches
  keeps its times on all its ways (`TimesSurvive`).
- *Drives.* `Sys` of `DriveSharing` is the tape library with all movers and data transfers. In all runs that send no
  second mount for a cartridge nobody shares a drive or a cartridge and no assert fails; a library with one drive
  needs no such hypothesis; with two drives two recalls of one tape are enough to break it. For each row it is
  stated exactly when it runs, moves a cartridge, suspends or waits (`Library.TapeWaitsIff` and its neighbours), and
  that a request that can have a drive gets its tape there (`DriveEffects.ExchangeGetsTheTape`).
- *Jobs.* A pass over the job queue is described for any interleaving with other passes (`Migration.PassOutcome`),
  replicas do not see each other (`Replicas.ReplicasAreIsolated`), and a request that is scheduled again and again
  comes to an end whatever runs in between (`RequestGuarantees.ReschedulingEndsAmongOthers`). An event of a transparent
  recall is looked at twice, by the thread that receives it and by the worker that queues its job; if the file stays
  what it is between the looks the event can be answered from every state (`RecallGuarantees.EveryEventCanBeAnswered`),
  and on runs of any kind exactly as long as somebody has it who will answer it (`RecallGuarantees.CanBeAnsweredIff`).

The clauses of `Clean`, each with the theorem that says when it is needed:

| what a clean run keeps away | exactly when it does harm | a run |
|---|---|---|
| an operation gets in between the calls of a recovery, which has no lock | `OvertakenCallSafeIff` | `OvertakenRecoveryLosesData` |
| a file is recovered from a state that it is not in any more | `StaleRecoverySafeIff` | `StaleRecoveryLosesData` |
| a request starts on a file with a left-over tape list that is shorter than its number of replicas | `LeftOverLossIff` | `LeftOverIsReached` |
| the application writes to, or truncates, a file that is being migrated | `WriteInMigrationKeepsIff`, `TruncateInMigrationKeepsIff` | `WriteInMigrationIsLost`, `TruncateInMigrationIsLost` |
| it truncates to nothing a stub of which a part was recalled | `TruncateSafeIff` | `PartOfRecallIsLeft` |
| a write or truncation that waited for a recall, or gave its lock back, lands on a file that is not resident | `LandSafeIff` | `LandingOnStubIsLost`, `TruncateAfterUnlockIsLost` |
| a file queued as premigrated was changed meanwhile | `ChangeWithoutCountSafeIff` | `LateStubbingLosesData` |
| a crash comes before the first listed tape of a stub is synced | `CrashOfStubSafeIff` | `UnsyncedStubIsReached` |
| an event for a resident file is handled while somebody migrates it | `EventInMigrationKeepsIff` | `EventInMigrationIsLost` |

Findings about the code, each with its exact condition:

- The copy loop compares modification times to notice that a file changes while it is copied. The file is marked
  before the first look, and from then on a look reports the recorded time: no write is ever noticed
  (`CopyLoop.RefusedIff`), and the tape may get a version that never existed (`TornCopy`, `TornCopyIff`,
  `OneVersionIff`). On a file shorter than its recorded size the loop does not end (`LoopEndsIff`).
- A stub whose first listed tape was not yet synced is lost in a crash (`CrashOfStubSafeIff`), and such a stub is
  reached (`UnsyncedStubIsReached`): with several replicas the one that completes the tape list stubs the file after
  syncing only its own tape, but a recall reads the first tape of the list. The contents are still on some synced
  copy (`CrashLeavesContents`). With one replica nothing is lost (`NoDataLossWithOneReplica`).
- `ltfsdm_write_buf` drops the state attribute before the tape list. A crash in between leaves an old list on a
  resident file (`LeftOverIsReached`), and the next migration counts the old entries as its own copies: it can lose
  the file exactly if the list is not empty and shorter than the number of replicas (`LeftOverLossIff`).
- `ltfsdm_truncate` truncates after both locks were given back: after a whole migration in between the truncation is
  lost (`TruncateAfterUnlockIsLost`, `LandSafeIff`).
- `ltfsdm_getattr` recovers without a lock from a state that it read before. Of two users that look at the same time
  the second one empties a file that was recalled meanwhile (`StaleRecoveryLosesData`, `StaleRecoverySafeIff`), and
  a recall between the two calls of one recovery has the same effect (`OvertakenRecoveryLosesData`).
- A truncation of a stub to nothing drops the attributes first; if a part of the file was recalled, a crash leaves
  that part as the file (`TruncateSafeIff`, `PartOfRecallIsLeft`).
- An event for a resident file sets its times to the epoch if it has no state attribute, and leaves one that makes
  the next truncation fail unless there is a tape list (`EventOnResidentFile`). On a file in migration it takes the
  mark away: what is written then is lost when the file is stubbed (`EventInMigrationKeepsIff`,
  `EventInMigrationIsLost`); so does a truncation (`TruncateInMigrationIsLost`).
- `preparePremigration` and `changeFileState` without replica count do not look at the state of the file
  (`PrepareSafeIff`, `ChangeWithoutCountSafeIff`), so a file that was written to before its turn came is emptied
  without a copy (`LateStubbingLosesData`); a write during the migration or after a second stubbing is lost
  (`WriteInMigrationKeepsIff`, `LandSafeIff`), and a read takes its bytes only after the lock is given back
  (`LateReadRightIff`, `LateReadSeesNothing`).
- The scheduler may send two mounts for one cartridge (`FreshMountIff`, `TwoDrivesAreNotEnough`).
- After a failed sync the statement that should fail the jobs looks for premigrated jobs, while the jobs of this
  execution are transferred (`FailedSyncMissesItsJobs`): the request is completed and its jobs stay transferred for
  good (`FailedSyncIsForgotten`).
- Job results are matched by inode number without the file system, and failures by file name
  (`ExactIffInodesDistinct`, `SelRecall.CountersExactIff`), and passes without a tape are not isolated from each other
  (`IsolatedIff`).
- A recall request can be deleted right after it was made new, between count and deletion (`AnnounceSafeIff`), or
  between the look for it and the statement that makes it new (`CheckSafeIff`).
- `TransRecall::run` answers an event whose file is off tape or cannot be read, and passes the others on. A worker's
  second look loses the event exactly if it finds a file that is not regular, or fails and leaves in the row a state
  that no execution will select (`SecondLookDecides`); both take a file that changed between the looks
  (`IrregularIsNeverAnswered`, `UnreadableIsNeverAnswered`).
- The counters of a migration count a change of state once for every replica, but only one job of the file gets the
  target state and the others stay transferred (`OneRowPerChange`); and a failed sync fails premigrated jobs of its
  tape and replica without counting them (`LateSyncMiscounts`). For files that are copied to tape the counters equal
  a recount exactly if no change failed, no transfer failed after it was counted, no failed sync met a premigrated
  job, and there was one replica or nothing was changed (`MigrationStatus.CountersExactIff`).
- For files that are on tape already the counters equal a recount exactly if every job was changed, and failed, as
  often as its file was counted (`StubStatus.CountersExactIff`). Passes of several replicas without a tape are not kept
  apart: for the same work the counters are wrong if one pass follows the other (`NoTapeExactIff`), and right if the
  jobs of both are marked when the first one settles (`OverlapDecides`).
- In a request to migrate in which one file has to be copied, files that are premigrated already are not migrated
  (`PremigratedIsLeft`).
- `Status::add` assigns instead of adding up, so it is right only before any job is marked (`AddIsRecountIff`).
- `decode` restarts at the end of the string after position 0 (`RoundTripIff`).

## Model

| member | source | states |
|---|---|---|
| FileAttributes.FsObj.SetMigInfoAt | src/connector/fuse/FuseFS.cc:126-162 | size and times are taken from the file only if it is resident, else kept from the attribute; one attribute write |
| FileAttributes.FsObj.RecoverState | src/connector/fuse/FuseFS.cc:226-294 | runs exactly the recovery program of the state that getattr has read, in the order of the system calls, whatever the file is like by now |
| FileAttributes.FsObj.WriteBuf | src/connector/fuse/FuseFS.cc:1018-1086 | blocks exactly on migrated files and files in recall; else drops both attributes of a premigrated file, state first, before the write |
| FileAttributes.FsObj.ReadBuf | src/connector/fuse/FuseFS.cc:957-1016 | waits for a recall exactly on migrated files and files in recall |
| FileAttributes.FsObj.DropAttributes | src/connector/fuse/FuseFS.cc:779-803 | blocks exactly for a new size above 0 on migrated files and files in recall, else drops the state before the tape list, and fails without the second one |
| FileAttributes.FsObj.TruncateFile | src/connector/fuse/FuseFS.cc:743-816 | the part under the locks; the truncation itself comes after both were given back, on whatever the file is like then |
| FileAttributes.FsObj.FtruncateFile | src/connector/fuse/FuseFS.cc:895-955 | drops both attributes and truncates under one lock; without the second attribute it fails before truncating |
| FileAttributes.FsObj.AddTapeAttr | src/connector/fuse/FsObj.cc:361-380 | the tape is appended to the list |
| FileAttributes.FsObj.RemAttribute | src/connector/fuse/FsObj.cc:382-400 | the tape list goes before the state |
| FileAttributes.FsObj.FinishRecall | src/connector/fuse/FsObj.cc:456-475 | on any file: premigrated keeps the times in the attribute, resident restores them first, and without an attribute sets the epoch |
| FileAttributes.FsObj.Finish | src/server/SelRecall.cc:418-420 | finishRecall, and for a resident target the attributes go |
| FileAttributes.FsObj.Stub | src/connector/fuse/FsObj.cc:508-537 | truncate, then mark migrated |
| FileAttributes.FsObj.ChangeFileState | src/server/Migration.cc:662-719 | nothing on migrated or already premigrated files or while copies are missing, else stub or mark, and reports the inode exactly when it did something |
| FileAttributes.FsObj.CopyFromTape | src/server/SelRecall.cc:391-413 | successive reads are written to increasing offsets, attributes stay |
| FileAttributes.FsObj.CopyBack | src/server/SelRecall.cc:389-413 | the file is marked as in recall before the first write |
| FileAttributes.FsObj.Recall | src/server/SelRecall.cc:339-429 | the whole recall by the state of the file; another size on tape makes the target resident |
| FilePrograms.RecoverSafe | src/connector/fuse/FuseFS.cc:226-294 | recovery may be cut after any call without losing data, leaves no transient state, and makes a file in migration resident without attributes |
| FilePrograms.RecoverTwice | src/connector/fuse/FuseFS.cc:226-294 | a recovery that was cut anywhere and run again ends in the same state, tape list, size and times as one undisturbed recovery, with the same bytes unless it was cut between mark and truncation of a stub |
| FilePrograms.StubSafe | src/connector/fuse/FsObj.cc:477-537 | prepareStubbing and stub may be cut after any call if a synced copy is listed and the first listed copy is good |
| FilePrograms.ListComplete | src/server/Migration.cc:686-690 | when the list has as many tapes as the request has replicas, all of them were copied and the tape just synced is listed |
| FilePrograms.ChangeKeeps | src/server/Migration.cc:662-719 | the state change after a sync keeps the invariant, whatever the other replicas are doing |
| FileRuns.ChunksSafe | src/server/TransRecall.cc:580-602 | the copy loop of a recall is recoverable after every write and completes the file, however the reads are cut |
| FileRuns.RecallSafe | src/server/TransRecall.cc:522-618 | a recall may be cut after any call; at its end the disk holds the file, resident without attributes and with the recorded times |
| FileRuns.CleanRunsKeep | src/connector/fuse/FuseFS.cc:207-294 | every clean run of replicas, state changes, recalls, application calls with and without the lock, syncs, crashes, looks and recovery keeps the invariant |
| FileGuarantees.NoDataLoss | src/connector/fuse/FuseFS.cc:207-294 | wherever a clean run is cut, a crash, a restart and a recall give the file back |
| FileGuarantees.WhereTheDataIs | src/connector/fuse/FsObj.cc:429-569 | for each state, whether the disk or a listed and synced tape copy holds the contents |
| FileGuarantees.RecallReadsBack | src/connector/fuse/FsObj.cc:456-475 | a recall to resident puts exactly the contents on disk, with the recorded times and no attributes |
| FileGuarantees.UnblockedReadsSeeTheFile | src/connector/fuse/FuseFS.cc:957-1016 | a read that does not wait finds the whole file on disk |
| FileGuarantees.StatIsOriginal | src/connector/fuse/FsObj.cc:215-240 | stat reports the size of the contents in every state, the recorded times while the file is on tape and those of the disk else |
| FileGuarantees.RecordedTimesStay | src/connector/fuse/FuseFS.cc:101-162 | on every clean run that never makes the file resident, size and times in the attribute end as they began |
| FileGuarantees.DiskEmptiedOnlyAfterSync | src/server/Migration.cc:884-939 | the system truncates the disk only if a listed tape with the contents is synced |
| FileGuarantees.CrashLeavesContents | src/server/Migration.cc:884-939 | whenever the crash comes and whatever unsynced copies it takes: until a recall, through more crashes and recovery, the contents are on disk or on a synced copy in the list |
| FileGuarantees.NoDataLossWithOneReplica | src/server/Migration.cc:868-966 | with one replica a crash may come at any time at all |
| FileResults.WriteBytes | src/connector/fuse/FuseFS.cc:1071-1086 | byte by byte what a write leaves: its bytes at the offset, every other byte, zeros in a hole; the size grows only as far as it reaches |
| FileResults.ResizeBytes | src/connector/fuse/FuseFS.cc:943-955 | byte by byte what a truncation leaves |
| FileResults.ReadBytes | src/connector/fuse/FuseFS.cc:1006-1016 | byte by byte what a read returns |
| FileResults.RecoverLeaves | src/connector/fuse/FuseFS.cc:226-294 | recovery leaves a file that was being migrated plain, with its bytes and times, and an empty stub with its tape list and recorded size and times of one that was being stubbed or recalled; any other state it leaves alone |
| FileResults.ChangeLeaves | src/server/Migration.cc:662-719 | the change of a state leaves an empty stub or a premigrated file of the same bytes, with the size and times recorded before or, the first time, those of the disk; and nothing exactly on a file on its way there or without all its copies |
| FileResults.WriteLeaves | src/connector/fuse/FuseFS.cc:1018-1086 | a write that does not wait writes the bytes at the offset and sets the modification time; a premigrated file has no attributes then, and is not written to if it has no tape list |
| FileResults.DropLeaves | src/connector/fuse/FuseFS.cc:779-803 | a truncation takes both attributes of a file that has a mark and neither of one without |
| FileResults.TruncateLeaves | src/connector/fuse/FuseFS.cc:895-955 | a truncation under the lock sets size and modification time and takes both attributes, or fails without truncating where a mark has no tape list |
| FileResults.RecallLeaves | src/server/SelRecall.cc:339-429 | a recall of a stub, or of a part of it, leaves the bytes that were read, resident with the recorded times and no attributes or premigrated with the same tape list; the first also if the tape had another size than the mark |
| FileResults.FinishRecallLeaves | src/connector/fuse/FsObj.cc:456-475 | finishRecall leaves bytes and tape list; for a resident target the times of the mark or the epoch, else the disk's times and a premigrated mark |
| FileResults.ReportedState | src/connector/fuse/FsObj.cc:539-569 | which of the six states in the mark is reported as resident, premigrated or migrated |
| FileResults.RecoveryIsDue | src/connector/fuse/FuseFS.cc:207-224 | after a crash at any point of a run every file in a transient state is due for recovery at the next look; what this service has marked is not, unless in the very moment of its start |
| FileEffects.TruncateTakesEffect | src/connector/fuse/FuseFS.cc:895-955 | a truncation under the lock that neither waits nor fails leaves the first bytes of the contents up to the size, or zeros behind them, and no mark, of resident and premigrated files and of stubs cut to nothing |
| FileEffects.PathTruncateTakesEffect | src/connector/fuse/FuseFS.cc:743-816 | the same by path, with its late truncation |
| FileEffects.BlockedWriteTakesEffect | src/connector/fuse/FuseFS.cc:1041-1086 | a write to a stub waits, the file is recalled, and then the bytes of the contents at that offset are those of the write |
| FileEffects.BlockedTruncateTakesEffect | src/connector/fuse/FuseFS.cc:743-955 | the same for a truncation of a stub to a size above 0, under the lock or by path |
| FileEffects.MarkIsOfTheFile | src/connector/fuse/FuseFS.cc:101-162 | the first mark on a resident file has the size of the contents and the times of the disk, a later one those of the mark before; bytes and times of the disk stay |
| FileEffects.TimesSurvive | src/connector/fuse/FsObj.cc:429-537 | from any resident file with times t, through migrations, stubs, crashes, recovery and recalls, as long as nobody touches the file: stat reports t all the time, and whenever the file is resident again its times on disk are t |
| FileConditions.CrashOfStubSafeIff | src/server/SelRecall.cc:251-263 | a stub survives every crash exactly if the tape that a recall reads is synced |
| FileScenarios.UnsyncedStubIsReached | src/server/Migration.cc:884-939 | a clean run of two replicas, for any contents, to a stub whose first listed tape is not synced, and the crash that loses it |
| FileConditions.PrepareSafeIff | src/connector/fuse/FsObj.cc:429-436 | marking a file as in migration is safe exactly if the disk has all its bytes |
| FileConditions.ChangeWithoutCountSafeIff | src/server/Migration.cc:687-697 | a state change without replica count is safe exactly on files that are not resident |
| FileInterference.LateStubbingLosesData | src/server/Migration.cc:687-697 | from every premigrated file: a write, all clean, makes it resident; the stub that was queued before then empties it with no tape to recall it from |
| FileConditions.StaleRecoverySafeIff | src/connector/fuse/FuseFS.cc:459-466 | recovery from a state read earlier is safe exactly while the file is off tape, or on tape or backed, as that state says; without a tape list exactly if it was the state of a migration |
| FileScenarios.StaleRecoveryLosesData | src/connector/fuse/FuseFS.cc:459-466 | for every file whose recall was cut: two looks, one recovery, one recall, all clean; the second recovery then leaves an empty stub without a tape |
| FileScenarios.OvertakenRecoveryLosesData | src/connector/fuse/FuseFS.cc:276-287 | for every file whose recall was cut: a recall overtakes the second call of the recovery, which then empties the recalled file |
| FileConditions.OvertakenCallSafeIff | src/connector/fuse/FuseFS.cc:226-294 | for each call that an overtaken recovery or event may make late, when it is safe, by the state of the file and by the sizes on disk and in the mark |
| FileConditions.EventOnResidentFile | src/server/TransRecall.cc:478-487 | what an event for a resident file does to it: contents stay, times become those of the attribute or the epoch, and the next truncation fails exactly without a tape list |
| FileScenarios.EventInMigrationKeepsIff | src/server/TransRecall.cc:478-487 | the same on a file in migration keeps the invariant exactly if no replica has begun to copy |
| FileInterference.EventInMigrationIsLost | src/server/TransRecall.cc:478-487 | for every file whose copies are complete: an event takes its mark away, and then a write and the change of states, all clean, end in a stub of the old contents |
| FileConditions.LandSafeIff | src/connector/fuse/FuseFS.cc:1048-1086 | a late write or truncation is safe on a resident file, in a migration exactly if it stays within the recorded size or keeps it, on tape exactly if it writes within that size what is there already, and leaves neither a hole nor, while stubbing, a part |
| FileConditions.TruncateSafeIff | src/connector/fuse/FuseFS.cc:779-812 | a truncation is safe at every point exactly if the file is no stub or nothing of it was recalled |
| FileInterference.PartOfRecallIsLeft | src/connector/fuse/FuseFS.cc:779-812 | for every stub and every proper part of it: a recall that fails after that part, all clean, a truncation to nothing and a crash behind its two removals leave the part as the file |
| FileConditions.WriteInMigrationKeepsIff | src/connector/fuse/FuseFS.cc:1041-1070 | a write in a migration keeps the invariant exactly if it keeps the size and what was copied so far |
| FileScenarios.TruncateInMigrationKeepsIff | src/connector/fuse/FuseFS.cc:895-955 | a truncation in a migration keeps it exactly if no replica has begun to copy or all are finished |
| FileInterference.TruncateInMigrationIsLost | src/connector/fuse/FuseFS.cc:895-955 | for every file of which a part is copied: a truncation, and then a rewrite and the rest of the migration, all clean, end in a stub of the old part and the new rest, which is the file exactly if the two agree on that part |
| FileScenarios.WriteInMigrationIsLost | src/connector/fuse/FuseFS.cc:1041-1070 | a write between the copies and the stub is lost, for every such state |
| FileScenarios.LandingOnStubIsLost | src/connector/fuse/FuseFS.cc:1048-1086 | a write that waited for a recall is lost if the file was stubbed again meanwhile |
| FileScenarios.TruncateAfterUnlockIsLost | src/connector/fuse/FuseFS.cc:743-816 | from every premigrated file: a truncation by path and a whole migration, all clean, and the truncation that lands on the stub is lost |
| FileConditions.LateReadRightIff | src/connector/fuse/FuseFS.cc:1006-1016 | the bytes that a read takes after the lock is given back are right exactly if they are on disk, behind the end, or none |
| FileScenarios.LateReadSeesNothing | src/connector/fuse/FuseFS.cc:1006-1016 | a clean run that stubs a premigrated file between lock and read leaves the read nothing |
| FileScenarios.LeftOverIsReached | src/connector/fuse/FuseFS.cc:1058-1069 | a clean run from a new file, for any contents: one migration, a write cut by a crash between the two removals, a resident file with a tape list |
| FileScenarios.LeftOverLossIff | src/server/Migration.cc:686-690 | after a request for n replicas on a file with a left-over list, resident or left in migration, a clean run can lose the file exactly if the list has at least one and fewer than n entries |
| CopyLoop.TransferData | src/server/Migration.cc:539-618 | the bytes on tape, and whether the loop is done, refused or still running, for any moments of the file at the reads and looks |
| CopyLoop.LooksCannotSeeWrites | src/connector/fuse/FuseFS.cc:467-472 | while the file is in migration no write changes the time or the size that a look reports |
| CopyLoop.RefusedIff | src/server/Migration.cc:546-618 | whatever is written during the copy, it is refused exactly if the time recorded with the mark is not the queued one, and then at the first look |
| CopyLoop.OneVersionIff | src/server/Migration.cc:577-618 | a finished copy is a given version exactly if that has the recorded size and every piece was, when it was read, what the version has there |
| CopyLoop.TornCopyIff | src/server/Migration.cc:577-618 | one overwrite between two reads gives the old bytes up to there and the new ones behind; that is the old or the new version exactly if the write changed nothing behind, or before |
| CopyLoop.TornCopy | src/server/Migration.cc:577-618 | a file 1, 2 overwritten with 8, 9 after the first read is copied as 1, 9 with every look fine |
| CopyLoop.LoopEndsIff | src/server/Migration.cc:577-618 | on a file of constant length the loop ends exactly if the file is at least as long as its recorded size |
| Library.FirstDrive | src/server/Scheduler.cc:250-264 | the first usable drive that is loaded, or is not, and none before it |
| Library.FirstMounted | src/server/Scheduler.cc:255-261 | the first mounted cartridge of a drive |
| Library.FirstMember | src/server/Scheduler.cc:218-244 | the first cartridge of a pool in a given state with room |
| Library.FirstToSuspend | src/server/Scheduler.cc:380-388 | the first drive whose threshold is lower in priority |
| Library.PoolRunsIff | src/server/Scheduler.cc:209-246 | a migration gets a tape exactly if a mounted, unused cartridge of its pool has room for its smallest job; the drive is that cartridge's and free |
| Library.PoolMoves | src/server/Scheduler.cc:248-304 | every move asked for a pool takes a usable drive and a cartridge for which it makes sense |
| Library.PoolWaitsOnlyIf | src/server/Scheduler.cc:248-304 | a migration waits without asking only if no cartridge or no drive can be had or its own move is under way |
| Library.TapeRunsIff | src/server/Scheduler.cc:306-341 | a recall gets its tape exactly if it is mounted and unused |
| Library.TapeMoves | src/server/Scheduler.cc:338-376 | every move asked for a tape makes sense, a mount is for that tape |
| Library.SuspendOnce | src/server/Scheduler.cc:380-390 | one drive with a lower priority is told to suspend, and a tape asks for it once |
| Library.TapeMountsIff | src/server/Scheduler.cc:338-359 | a recall asks for a mount exactly if its cartridge is unmounted and there is a drive that nobody uses, that is prepared for nobody else, and that has no mounted cartridge |
| Library.TapeUnmountsIff | src/server/Scheduler.cc:361-375 | it asks for an unmount exactly if its cartridge is idle, it cannot be mounted, and such a drive has a mounted cartridge |
| Library.TapeSuspendsIff | src/server/Scheduler.cc:377-390 | it asks for a suspension exactly if its cartridge is idle, no drive can be had, it has not asked before, and some drive works at a lower priority |
| Library.TapeWaitsIff | src/server/Scheduler.cc:306-391 | it waits exactly if its cartridge is moving or in use, or no drive can be had and it has asked before or nothing works at a lower priority |
| Library.PoolAsksIff | src/server/Scheduler.cc:248-304 | a migration asks for a mount, or for an unmount, exactly when it cannot run and a suitable cartridge and drive can be had |
| Library.SuspensionStopsMigration | src/server/Migration.cc:798-802 | a recall that suspends a drive sets a threshold before the priority of a migration, and a migration sets none that would stop a recall |
| Library.ReleasedCanBeSuspended | src/server/Migration.cc:910-921 | what works next on a drive that was given back can be suspended by any request, or after a transparent recall by exactly those that could before; the cartridge is mounted if it was in use, and nothing else has changed |
| Library.FreshRunsIff | src/server/LTFSDMInventory.cc:423-480 | after an inventory a migration runs exactly if a cartridge of its pool was found in a drive with as much free capacity as its smallest job needs |
| Scheduler.Scheduler.PoolResAvail | src/server/Scheduler.cc:209-304 | the nested loops compute the verdict for a pool and apply exactly it; the asserts inside hold |
| Scheduler.Scheduler.TapeResAvail | src/server/Scheduler.cc:306-391 | the nested loops compute the verdict for a tape and apply exactly it; the asserts inside hold |
| Scheduler.Scheduler.ResAvailTapeMove | src/server/Scheduler.cc:393-421 | a move row is let go exactly if the drive is free and, for a mount, unloaded, for an unmount, loaded with the tape |
| Scheduler.Scheduler.MoveTape | src/server/Scheduler.cc:169-207 | sends at most one mover for a request and marks the drive with it |
| Scheduler.TapeOrders | src/server/Scheduler.cc:169-207 | the mover that a recall sends: at most one, none while one is under way for it, and to mount its tape exactly if that is on the shelf and an empty drive can be had |
| Scheduler.Scheduler.MakeUse | src/server/Scheduler.cc:143-152 | drive busy and cartridge in use, nothing else |
| Scheduler.Scheduler.TakeMounted | src/server/Scheduler.cc:217-246 | takes the first mounted cartridge of the pool with room, else reports whether an unmounted one exists |
| Scheduler.Scheduler.MountMember | src/server/Scheduler.cc:249-282 | asks for a mount of the first fitting cartridge in the first empty drive, or does nothing |
| Scheduler.Scheduler.UnmountSome | src/server/Scheduler.cc:289-301 | asks for an unmount in the first loaded drive, or does nothing |
| Scheduler.Scheduler.TakeWanted | src/server/Scheduler.cc:321-337 | takes the wanted cartridge in its drive; the drive is found and free |
| Scheduler.Scheduler.MountWanted | src/server/Scheduler.cc:339-359 | asks for a mount of the wanted cartridge in the first empty drive, or does nothing |
| Scheduler.Scheduler.UnmountForWanted | src/server/Scheduler.cc:361-375 | asks for an unmount, and the wanted cartridge is no longer requested |
| Scheduler.Scheduler.SuspendSome | src/server/Scheduler.cc:379-388 | lowers the threshold of the first drive with a lower priority and marks the cartridge as requested |
| Scheduler.Scheduler.DriveIsUsable | src/server/Scheduler.cc:154-167 | not busy and not prepared for another request |
| Scheduler.Scheduler.RequestExists | src/server/LTFSDMInventory.cc:867-879 | some drive is prepared for the request |
| Scheduler.Scheduler.SetToUnblock | src/server/LTFSDMDrive.cc:100-107 | only a higher priority replaces the one that is set |
| Scheduler.Scheduler.Inventorize | src/server/LTFSDMInventory.cc:423-480 | nothing while a drive is busy, else fresh lists where exactly the cartridges in drives are mounted |
| Scheduler.Scheduler.ExecMover | src/server/TapeMover.cc:38-72 | a successful move ends with the cartridge where it belongs, the drive free and its move request cleared |
| Scheduler.Scheduler.Release | src/server/Migration.cc:910-921 | the end of a transfer frees the drive and makes the cartridge mounted |
| DriveGuarantees.InventoryIsInit | src/server/LTFSDMInventory.cc:423-480 | an inventory gives an initial state |
| DriveGuarantees.StepKeeps | src/server/Scheduler.cc:461-594 | every row and every end of a move or transfer keeps the invariant if no second mount is asked for |
| DriveGuarantees.DrivesAndTapesAreExclusive | src/server/Scheduler.cc:209-421 | in all such runs jobs that run share no drive and no cartridge, mounted cartridges sit alone in a free drive, and a drive is busy exactly while one job runs on it |
| DriveGuarantees.AssertsHold | src/server/LTFSDMInventory.cc:727-838 | no assert of scheduler, mount or unmount fails in such a run |
| DriveGuarantees.DataJobHasItsDrive | src/server/Migration.cc:750-758 | a running transfer finds its cartridge, and no other, in its drive |
| DriveGuarantees.OneMovePerDriveAndRequest | src/server/Scheduler.cc:154-207 | at most one outstanding move for a drive and for a request; the drive's field is set exactly while its move is outstanding |
| DriveGuarantees.QueuedMovesStaySensible | src/server/Scheduler.cc:393-421 | a queued mount can start at once, a queued unmount as soon as no transfer uses its cartridge |
| DriveGuarantees.OneDriveIsExclusive | src/server/Scheduler.cc:209-421 | with one drive exclusive use needs no hypothesis |
| DriveGuarantees.FreshMountIff | src/server/Scheduler.cc:338-359 | a step keeps the invariant exactly if it asks for no second mount; if it does, some run makes two drives busy for one cartridge |
| DriveGuarantees.TwoDrivesAreNotEnough | src/server/Scheduler.cc:338-359 | from two empty drives and one cartridge two recalls lead there |
| DriveEffects.MoveStartsIff | src/server/Scheduler.cc:393-421 | the row of a move is let go exactly if nobody uses the drive and, for a mount, it has no mounted cartridge, for an unmount, its own; else nothing changes |
| DriveEffects.MoveTakesEffect | src/server/TapeMover.cc:38-72 | a move that was sent into a drive that nobody uses is let go and ends with its cartridge mounted there, or back on the shelf; nothing else of the library has changed and the move is gone |
| DriveEffects.MountGetsTheTape | src/server/Scheduler.cc:306-421 | a recall whose tape is on the shelf, with an empty drive to be had: the six steps from its row to a transfer that has the tape in that drive, with the whole library and all other jobs as before |
| DriveEffects.MountGetsAMember | src/server/Scheduler.cc:209-304 | the same for a migration that cannot run: a cartridge of its pool on the shelf with room for its smallest job is mounted, and the migration runs with it |
| DriveEffects.ExchangeGetsTheTape | src/server/Scheduler.cc:306-421 | the same where only a drive with an idle cartridge can be had: eleven steps, after which that cartridge is on the shelf and the wanted one in its drive |
| JobTable.JobQueue.Update | src/server/SQLStatements.cc:167-217 | the loop over the rows is the statement's function |
| JobTable.JobQueue.UpdateFitting | src/server/DataBase.cc:39-58 | the loop with counters kept through pointers is the greedy walk |
| JobTable.JobQueue.Select | src/server/SQLStatements.cc:193-197 | the rows of a request, tape and state, in order |
| JobTable.JobQueue.SelectRecalling | src/server/SQLStatements.cc:255-259 | the positions of all rows of the tape that are marked |
| JobTable.TouchesOnly | src/server/SQLStatements.cc:143-278 | a statement changes only rows of its request, and of the tape, replica, file and inodes that it names, and nothing of them but the state, and the tape for a transfer |
| JobTable.FailuresReach | src/server/SQLStatements.cc:167-278 | which rows each of the four failure statements fails |
| JobTable.PickConserves | src/server/DataBase.cc:39-58 | what is taken and what is left add up to what was free, and the counters count taken and matching rows |
| JobTable.PickIsMaximal | src/server/DataBase.cc:39-58 | a matching row that was left out is larger than the space left at the end |
| JobTable.PickRemainingIff | src/server/Migration.cc:780-782 | jobs remain exactly if a matching row was left out |
| JobTable.PickFindsIff | src/server/DataBase.cc:39-58 | something is taken exactly if a matching row fits into the initial space |
| Migration.Migration.ProcessFiles | src/server/Migration.cc:721-855 | the table after a pass, for all outcomes of the jobs and an interruption anywhere, and what it reports |
| Migration.Migration.WorkOn | src/server/Migration.cc:784-833 | the table after the failures and the inodes that were done, up to an interruption |
| Migration.PassOutcome | src/server/Migration.cc:837-852 | for any interleaving with other passes each job ends failed, in the target state if its inode was reported, or where it came from |
| Migration.PassResult | src/server/Migration.cc:721-855 | a whole pass row by row; a row that is not its job changes only by a failed stub of the same file |
| Migration.NothingLeftBusy | src/server/Migration.cc:845-852 | no row of the request and tape stays in the intermediate state |
| Migration.ExactIffInodesDistinct | src/server/SQLStatements.cc:199-204 | for every set of finished jobs the table comes out right, exactly if inode numbers differ |
| Replicas.RequestPoolsAreDisjoint | src/common/Configuration.cc:204-221 | the pools of a request have no tape in common |
| Replicas.OthersUntouched | src/server/SQLStatements.cc:173-210 | a statement of a pass with a tape leaves other replicas alone, but for the report of a failed stub |
| Replicas.ExecOf | src/server/SQLStatements.cc:178-184 | every statement, also the greedy one, works on one replica as if its rows were the whole table |
| Replicas.ReplicasAreIsolated | src/server/SQLStatements.cc:173-210 | for any interleaving of all passes a replica's rows end as if only its own statements and reports of failed stubs had run |
| Replicas.IsolatedIff | src/server/Migration.cc:931-933 | a pass is isolated exactly if it has a tape |
| Rescheduling.Execution.ExecRequest | src/server/Migration.cc:868-966 | the table, the order of actions, and whether the request is new, with or without its tape, or completed |
| Rescheduling.Execution.WithTape | src/server/Migration.cc:884-924 | transfer, sync, failure statement and release, in this order |
| Rescheduling.Execution.ChangeStates | src/server/Migration.cc:926-939 | which rows the state change is for, by target and need of a tape |
| Rescheduling.Execution.UpdateRequest | src/server/Migration.cc:943-951 | new with its tape after an interruption, new without it if jobs are left, else completed |
| Rescheduling.ChangeOnlyAfterSync | src/server/Migration.cc:884-939 | in the log of any sequence of executions, with failed syncs among them, each change of states follows a good sync of its tape after every earlier transfer to it |
| Rescheduling.LogStaysSynced | src/server/Migration.cc:884-939 | one more execution keeps that, whatever the log before |
| Rescheduling.FailedSyncMissesItsJobs | src/server/Migration.cc:887-908 | row by row for a whole execution with a failed sync: its own jobs are not failed, those done stay transferred, and exactly the rows premigrated before on this tape fail |
| RequestGuarantees.LeftForGood | src/server/SQLStatements.cc:167-217 | after its last execution a row stays as it is whatever all other passes do, unless another replica reports a failed stub of its file |
| RequestGuarantees.FailedSyncIsForgotten | src/server/Migration.cc:887-951 | after a failed sync the done jobs are transferred for good; if the transfer came to its end and left nothing over the request is completed and no job waits |
| RequestGuarantees.PremigratedIsLeft | src/server/Migration.cc:926-939 | in an execution with a tape a premigrated job that is not on it stays as it is or fails; with target migrated it never gets there |
| RequestGuarantees.TransferredGetThere | src/server/Migration.cc:926-939 | after a good sync each job that is transferred to the tape ends in the target state if the change of states reports its inode, failed if that fails for its file, else transferred |
| RequestGuarantees.PremigratedGetThere | src/server/Migration.cc:926-939 | the same for the premigrated jobs of a request to migrate that needs no tape |
| RequestGuarantees.WaitingGetsThere | src/server/Migration.cc:868-966 | a waiting job that is taken for the tape, and whose transfer and change are reported done without a failure for its file, ends on this tape in the target state |
| RequestGuarantees.TransferFailsOwn | src/server/SQLStatements.cc:167-171 | a failed transfer fails the job of its own replica, and no job of another replica or request on another tape |
| RequestGuarantees.ChangeFailsAll | src/server/SQLStatements.cc:173-176 | a failed change of a state fails the jobs of all replicas of the file |
| Rescheduling.SchedulerAdmits | src/server/Scheduler.cc:435-447 | when the scheduler gives a cartridge to the request a waiting job fits on it |
| Rescheduling.SmallestWaits | src/server/SQLStatements.cc:143-147 | it is the size of a waiting job, no waiting job is smaller, and it is 0 if none waits |
| Rescheduling.SchedulerAdmitsIff | src/server/Scheduler.cc:435-506 | the request runs exactly if some mounted cartridge of its pool that nobody uses has room for one of its waiting jobs, or none waits |
| Rescheduling.FinishedTransferProgresses | src/server/Migration.cc:765-852 | a transfer with a fitting job that is not interrupted makes fewer jobs wait |
| Rescheduling.CompletedMeansNoneWaiting | src/server/Migration.cc:943-951 | when the request is completed no job of the replica waits |
| Rescheduling.CompletedIff | src/server/Migration.cc:943-951 | the request is new after an execution with a tape exactly if a selected job was not reached or gave up for a higher priority, or a waiting job was not taken; else, and always without a tape, completed |
| Rescheduling.ReschedulingEnds | src/server/Migration.cc:943-951 | the number of executions is bounded by the jobs that wait at the start plus two for each interruption |
| RequestGuarantees.HistoryIsChain | src/server/SQLStatements.cc:167-217 | what the bound asks for between two executions follows from the isolation of replicas, for any statements of other passes |
| RequestGuarantees.ReschedulingEndsAmongOthers | src/server/Migration.cc:943-951 | the bound holds whatever other replicas and requests do between the executions |
| Rescheduling.KeptTapeMayTakeNothing | src/server/Scheduler.cc:423-433 | an execution on a kept tape may take nothing, so the bound needs its second part |
| RecallSteps.StepKeeps | src/server/TransRecall.cc:302-512 | every undisturbed step of arriving, both looks, inserting, looking for the request, announcing, executing, answering and concluding keeps the invariant |
| RecallGuarantees.NoJobIsStranded | src/server/TransRecall.cc:688-725 | each job will be announced, or its request is new, or an execution has not finished its count |
| RecallGuarantees.AnsweredOnce | src/server/TransRecall.cc:620-686 | no event is answered twice, and an event is answered exactly if nobody has it any more |
| RecallGuarantees.QuietMeansAllAnswered | src/server/TransRecall.cc:688-725 | when all is quiet no job is left and all events that arrived are answered |
| RecallGuarantees.DeleteTakesTheSelected | src/server/SQLStatements.cc:326-329 | the deletion takes exactly the selected jobs, later ones stay |
| RecallGuarantees.EveryEventCanBeAnswered | src/server/TransRecall.cc:688-725 | from every state of every undisturbed run, and for every file that stays what it is, there is an undisturbed run without new events after which a given event is answered |
| RecallGuarantees.CanBeAnsweredIff | src/server/TransRecall.cc:302-387 | after any run at all an event can be answered on some run exactly if it is before its second look, an execution has it, it has been answered, or its job has a state that an execution will select |
| RecallGuarantees.SecondLookDecides | src/server/TransRecall.cc:302-512 | the first look answers an event exactly if the file is off tape or unreadable, and never loses it; after the second look it can be answered exactly if that found a regular file, or failed and left a state that an execution will select |
| RecallReach.LostForGood | src/server/TransRecall.cc:620-686 | an event that is past its second look, that no execution has, and whose job no execution will select, is on no run answered |
| RecallReach.FinishAll | src/server/TransRecall.cc:620-725 | from every state of any run all executions come to their end, and no event gets out of reach on the way |
| RecallGuarantees.AnnounceSafeIff | src/server/TransRecall.cc:710-722 | an announcement is safe exactly if no execution is between a count of nothing and the deletion; else the job is stranded |
| RecallGuarantees.CheckSafeIff | src/server/TransRecall.cc:367-386 | a look for the request is safe exactly if what it finds is not about to be deleted; else the job is announced to a request that is gone |
| RecallGuarantees.IrregularIsNeverAnswered | src/server/TransRecall.cc:323-326 | if the first look found a regular file on tape and the second one finds one that is not regular, the event is dropped, and on no run answered |
| RecallGuarantees.UnreadableIsNeverAnswered | src/server/TransRecall.cc:340-363 | if the first look could read the attributes and the second one cannot, a job is inserted all the same; with a state that no statement looks for it stays, and its event is on no run answered |
| TransRecall.TransRecall.AddJob | src/server/TransRecall.cc:302-387 | nothing for a file that is not regular, an answer for a resident one, else a row for the tape of the first look, with whatever state it has after an error, and the request made new or added, the latter under the tape that this look read or, after an error, that was in memory |
| TransRecall.TransRecall.Receive | src/server/TransRecall.cc:460-512 | what the receiving thread does with an event: passed over without connection or inode number, a failure on termination or for a file that cannot be read, finishRecall and success for a file off tape, else passed on with the number of its tape |
| TransRecall.TransRecall.NumberFor | src/server/TransRecall.cc:503-512 | a tape keeps its number and no two tapes share one |
| TransRecall.NumbersStandForTapes | src/server/TransRecall.cc:503-512 | rows with these numbers can be told apart by number or by tape, and so can requests as long as none has the number of another tape |
| TransRecall.TransRecall.SetRecalling | src/server/SQLStatements.cc:312-316 | the loop changes exactly the rows of the tape in the given state |
| TransRecall.TransRecall.SelectJobs | src/server/SQLStatements.cc:319-323 | the marked rows of the tape, in order |
| TransRecall.TransRecall.DeleteJobs | src/server/SQLStatements.cc:326-329 | all rows but the marked ones of the tape stay, in order |
| TransRecall.TransRecall.CountRemaining | src/server/SQLStatements.cc:331-333 | the number of rows of the tape |
| TransRecall.TransRecall.CheckRequestExists | src/server/SQLStatements.cc:296-297 | whether a request has the number |
| TransRecall.TransRecall.AnnounceJob | src/server/TransRecall.cc:373-386 | the request is made new if the look found one, else added |
| TransRecall.TransRecall.Conclude | src/server/TransRecall.cc:717-722 | new if rows remain, else deleted |
| TransRecall.TransRecall.ProcessFiles | src/server/TransRecall.cc:620-686 | marks, selects, deletes exactly the selected rows, and answers each with its own result, in order |
| TransRecall.TransRecall.ExecRequest | src/server/TransRecall.cc:688-725 | rows, answers and request after an execution |
| TransRecall.OnlyUnreadableRemain | src/server/TransRecall.cc:620-686 | an execution with nobody else at work leaves exactly the jobs of its tape whose attributes could not be read |
| TransRecall.ExecutionLeaves | src/server/TransRecall.cc:620-686 | and takes from the table exactly the jobs of its number and tape whose files can be recalled, marked before or not |
| TransRecall.ExecutionAnswers | src/server/TransRecall.cc:620-686 | the events of these jobs, and no other, are answered |
| TransRecall.RequestAfter | src/server/SQLStatements.cc:299-337 | a request is made new, or deleted, exactly if it has the number and the tape, and a job is left exactly if a row has both |
| TransRecall.ResponsesMatch | src/server/TransRecall.cc:684-685 | one answer for each job, in order, with its own result |
| TransRecall.MarkIsProtocolMark | src/server/SQLStatements.cc:312-316 | the marking loop is the protocol's step |
| TransRecall.SelectIsProtocolSelect | src/server/SQLStatements.cc:319-323 | the selection is the protocol's |
| TransRecall.DeleteIsProtocolDelete | src/server/SQLStatements.cc:326-329 | the deletion is the protocol's |
| TransRecall.CountIsProtocolCount | src/server/SQLStatements.cc:331-333 | the count is positive exactly if the protocol sees a row |
| TransRecall.CheckIsProtocolCheck | src/server/TransRecall.cc:367-371 | the look by number finds a request exactly if the protocol sees one, also one that has the name of another tape |
| TransRecall.AnnounceIsProtocolAnnounce | src/server/TransRecall.cc:373-386 | making the request new or adding one is the protocol's step, also if it is gone, was added meanwhile, or is added under the name of another tape |
| TransRecall.NewIsProtocolNew | src/server/SQLStatements.cc:299-301 | making the request new is the protocol's step, and nothing if it is gone |
| TransRecall.WithoutIsProtocolDelete | src/server/SQLStatements.cc:335-337 | deleting the request is the protocol's step; requests with another number or name stay |
| TransRecall.WorkIsProtocolWork | src/server/TransRecall.cc:317-358 | whatever the second look finds, row, announcement and answer are those of the protocol |
| Status.Status.Add | src/server/Status.cc:21-65 | the loop over the groups assigns each counter; a known request is left alone |
| Status.Status.UpdateSuccess | src/server/Status.cc:75-120 | one counter down, one up |
| Status.Status.UpdateFailed | src/server/Status.cc:122-146 | one counter down, failed up |
| Status.AddIsRecountIff | src/server/Status.cc:21-65 | the first count is right exactly if no counter has jobs in two of its states |
| Status.RecountIs | src/server/Status.cc:21-65 | which of the nine job states each counter stands for |
| Status.CountersMove | src/server/Status.cc:75-146 | which counter goes down and which goes up for each end of the work on a job; a transferred job that fails is not counted down |
| Status.MarkedJobsShow | src/server/Status.cc:21-65 | a job that is marked for a transfer or a recall is shown as before, one marked for a state change as premigrated, and no two final states share a counter |
| SelRecall.SelRecall.ProcessFiles | src/server/SelRecall.cc:431-549 | each job ends as its verdict says, other rows stay, suspended exactly if work was left, and the method is a run of the transition system |
| SelRecall.SelRecall.WorkOnTape | src/server/SelRecall.cc:478-528 | the loop over the marked jobs with its counters, table updates and suspension |
| SelRecall.MarkedJobEnds | src/server/SelRecall.cc:478-528 | for each marked job the state in which it ends: as before if not reached or there already, in the target state or failed as its recall ends, failed if it would need a tape |
| SelRecall.SelRecall.Report | src/server/SelRecall.cc:498-514 | the counters and the table after one success or failure |
| SelRecall.SelRecall.MarkTape | src/server/SelRecall.cc:463-477 | the jobs of the tape are marked and listed |
| SelRecall.SelRecall.SettleTape | src/server/SelRecall.cc:532-546 | the table is settled from the inodes that were recalled |
| SelRecall.StepKeeps | src/server/SelRecall.cc:463-549 | every step on any tape keeps the counters equal to a count of the effective states |
| SelRecall.CountersAreARecount | src/server/SelRecall.cc:463-549 | whenever no tape is worked on the counters equal a recount and add up to the number of jobs |
| SelRecall.CountersExactIff | src/server/SQLStatements.cc:262-278 | the counters are right after every run exactly if file names and inode numbers tell the jobs of each tape apart that can be moved |
| SelRecall.Miscounts | src/server/SQLStatements.cc:262-278 | the run that works on one of two jobs that are not told apart ends with a wrong count |
| MigrationStatus.CountChange | src/server/Migration.cc:706-718 | the loops count a change once for each replica, or once without any, and a failed change once for each replica |
| MigrationStatus.CountersExactIff | src/server/Migration.cc:628-939 | for files that are copied to tape, after any run of any replicas side by side, failed syncs among its steps: the counters equal a recount exactly if no change failed, no transfer failed after it was counted, no failed sync met a premigrated job of its tape and replica, and there was one replica or no change |
| MigrationStatus.OneRowPerChange | src/server/Migration.cc:690-718 | of the jobs of a file as many are in the target state as its state was changed, less those that a failed sync met, and these are failed; one if it was changed once; the jobs of all other replicas are transferred |
| MigrationStatus.LateSyncMiscounts | src/server/Migration.cc:887-908 | for every resident job of a request with one replica and target premigrated: copied, changed, and met by a failed sync of a later execution; no change and no transfer failed, and the counters are wrong |
| MigrationStatus.NoTapeExactIff | src/server/Migration.cc:690-718 | for files that are premigrated already, passed by one replica after the other, the counters equal a recount exactly if there is at most one replica or no change, and no change failed without replicas or again for the same file |
| StubStatus.CountersExactIff | src/server/Migration.cc:690-852 | in every state of every run, statement by statement and with the passes of all replicas overlapping in any way: the counters equal a recount exactly if each job came to the target as often as its file was changed, and failed as often as a change of its file failed and was counted |
| StubStatus.OverlapDecides | src/server/SQLStatements.cc:186-210 | for every file and two replicas: two runs with the same change, one with a wrong count where one pass follows the other, one with a right count where both jobs are marked when the first pass settles |
| MigrationStatus.PassIsWork | src/server/Migration.cc:837-852 | if file names and inode numbers tell the jobs of a pass apart, the row of a job is, when the pass has settled, what its step made of it |
| Escape.EncodeLoop | src/common/Configuration.cc:39-61 | the loop is the encoding |
| Escape.DecodeLoop | src/common/Configuration.cc:63-82 | the loop from right to left, with the unsigned position, is the decoding, and ends on every input |
| Escape.RoundTripIff | src/common/Configuration.cc:39-82 | decoding an encoded name gives it back exactly if it is empty, starts plain, or has no backslash |
| Escape.AbsolutePathsSurvive | src/server/DataBase.cc:199-237 | the SQL pair is the identity on absolute paths |
| Escape.BlankAndBackslashIsLost | src/common/Configuration.cc:63-82 | a name that the configuration loses |
| Escape.EncodedIsPlain | src/common/Configuration.cc:39-61 | an encoded name has no blank and no newline |
| Escape.EncodedIsOneWord | src/server/DataBase.cc:199-237 | an encoded path has no quote, and an encoded name no blank and no newline |
| Escape.CodesAreOctal | src/common/Configuration.cc:39-61 | a code is a backslash and the character's number in four octal digits |
| Escape.EncodeInjective | src/common/Configuration.cc:39-61 | different names have different encodings |
| ConfigFile.ReadAfterWriteIff | src/common/Configuration.cc:84-171 | a written list of pools and file systems reads back exactly if every name survives |
| ConfigFile.LineBack | src/common/Configuration.cc:128-163 | a line reads back as its entry, with the name as it comes back |
| ConfigFile.LineFormat | src/common/Configuration.cc:84-112 | the two kinds of lines, with their fields in order |
| Configuration.FileRoundTripIff | src/common/Configuration.cc:84-171 | the same for a whole configuration, in whatever order it was written |
| Configuration.GrownConfigsAreConsistent | src/common/Configuration.cc:173-289 | after any changes from the empty configuration no tape is in two pools and targets, sources and identifiers are unique |
| Configuration.CanBeGrownIff | src/common/Configuration.cc:173-289 | a configuration can be grown from the empty one exactly if it is consistent in this way |
| Configuration.ContentsAfter | src/common/Configuration.cc:173-289 | what each change adds or takes away; every other pool, tape and file system stays; a change that is not allowed does nothing |
| Configuration.NothingIsLost | src/common/Configuration.cc:173-289 | no change touches a file system that is there, removes a pool with tapes, or takes away a tape but the one it names |
| Configuration.ChangesUndo | src/common/Configuration.cc:173-240 | creation and deletion of an empty pool undo each other, and so do adding and removing a tape |
| Configuration.Configuration.Write | src/common/Configuration.cc:84-112 | the file lists every pool and file system once |
| Configuration.Configuration.Read | src/common/Configuration.cc:114-171 | the lists are replaced by what the file says, or nothing changes if a line is malformed |
| Configuration.Configuration.ReadLine | src/common/Configuration.cc:127-166 | comments, pools, file systems, and what is malformed |
| Configuration.Configuration.FindClash | src/common/Configuration.cc:276-281 | a clash is reported exactly if source or identifier is known |
| Configuration.Configuration.WritePools | src/common/Configuration.cc:94-100 | a line for each pool, once |
| Configuration.Configuration.WriteFss | src/common/Configuration.cc:102-106 | a line for each file system, once |
| Configuration.Configuration.PoolCreate | src/common/Configuration.cc:173-184 | allowed exactly for a new name; the file follows |
| Configuration.Configuration.PoolDelete | src/common/Configuration.cc:186-202 | allowed exactly for an empty pool; the errors |
| Configuration.Configuration.PoolAdd | src/common/Configuration.cc:204-221 | allowed exactly for a known pool and a tape in no pool; the errors |
| Configuration.Configuration.PoolRemove | src/common/Configuration.cc:223-240 | allowed exactly for a tape of that pool; the errors |
| Configuration.Configuration.AddFs | src/common/Configuration.cc:268-289 | allowed exactly for a new target, source and identifier; the errors |
| Pools.Inventory.Inventorize | src/server/LTFSDMInventory.cc:451-466 | unknown tapes leave their pools, known ones get the name of theirs |
| Pools.Inventory.SweepPool | src/server/LTFSDMInventory.cc:453-465 | one pool of the loop: exactly the known tapes stay and get its name |
| Pools.Inventory.PoolAdd | src/server/LTFSDMInventory.cc:657-690 | both copies change together or not at all |
| Pools.Inventory.PoolRemove | src/server/LTFSDMInventory.cc:692-725 | both copies change together or not at all |
| Pools.Inventory.PoolDelete | src/server/LTFSDMInventory.cc:636-655 | only an empty pool goes, the fields stay right |
| Pools.PoolBooksAgree | src/server/LTFSDMInventory.cc:623-725 | after any pool commands a cartridge's field names a pool exactly if the configuration lists it there |
| Pools.CommandsAllowedIff | src/server/LTFSDMInventory.cc:623-725 | with agreeing copies and no pool of the empty name each command is allowed exactly if the configuration allows it for a known cartridge |
| Pools.CommandsDo | src/server/LTFSDMInventory.cc:623-725 | after an allowed command cartridge and pool name each other, or do not any more, and no other cartridge's field has changed |
| Pools.EmptyFieldMeansNoPoolIff | src/server/LTFSDMInventory.cc:669-672 | the empty field means no pool exactly if a pool with the empty name has no known tape |
| TapeLinks.LinkResolves | src/server/Server.cc:153-192 | the target of a link, followed from its directory, is the data file, at any depth |
| TapeLinks.TapeTree.CreateLink | src/server/Server.cc:153-192 | the loop makes every ancestor below the root of the tape, from the top down, and then the link |
| TapeLinks.TapeTree.MakeDirs | src/server/Server.cc:169-174 | the search from slash to slash visits every ancestor once, from the top down, and counts them |
| TapeLinks.AncestorsAre | src/server/Server.cc:169-174 | the ancestors are all the prefixes of the original path, each once, below the root |
| TapeLinks.TapeTree.CreateDir | src/server/Server.cc:121-151 | the directory exists afterwards; its parent existed |
| Batching.SendObjects | src/client/LTFSDMCommand.cc:180-278 | full batches of input lines, then the rest with the end marker; counts and missing files |
| Batching.FillBatch | src/client/LTFSDMCommand.cc:204-219 | up to MAX_OBJECTS_SEND lines, the names of those that exist |
| Batching.NamesOne | src/client/LTFSDMCommand.cc:204-219 | a line whose file exists is sent as the canonical name, another one not at all |
| Batching.GetObjects | src/server/MessageParser.cc:96-188 | the jobs added and the batches taken until the marker |
| Batching.AddJobs | src/server/MessageParser.cc:127-150 | a job for every name but the marker, and whether the marker was there |
| Batching.TransferIsLossless | src/server/MessageParser.cc:96-188 | one job for each existing file in input order, both sides stop after the same batch, for any length |
| Batching.OneEndMarker | src/client/LTFSDMCommand.cc:221-226 | the only end marker is the last name of the last batch |

## Left out

- Sockets, the message format, SQLite, FUSE and the tape library: they appear as row sequences, lossless batches, programs of system calls, and parameters that say how a call ends.
- Failed moves, re-inventory during a run, FORMAT and CHECK: they rebuild the lists of drives and cartridges; the transition system has successful moves only.
- Rows of MOVE requests: they exist only for FORMAT and CHECK. The row of a finished move leaves the request queue in the same step as the move ends; nothing reads it in between.
- A pool that lists a cartridge the inventory does not know: the scheduler dereferences a null pointer after removing it, the model asks for known cartridges.
- Files: operations by path run `ltfsdm_getattr` first (`Ready`), one request at a time migrates a file (constraint of the job queue), two calls of applications on one file run one after the other (the overlay's second lock covers their attribute part, the bytes themselves are written under a shared lock), attribute writes and truncations succeed or the process dies, the format number of the attributes is always current, and `fallocate`, access times changed by reads and the bound of three copies in the attribute are not modelled.
- Steps: one system call, with the reading of the attribute that it changes, and one SQL statement are single steps; so are the scheduler's selection of a request and the update that marks it, and the count of a copy loop's bytes with the write of them.
- FileScenarios.LeftOverLossIff: not for an empty file that an earlier request left in migration, where it depends on the copies whether there is anything to lose.
- The branch of a recall for a file that became resident meanwhile: the selective recall returns, the transparent one returns 0; both do nothing.
- Sizes are unbounded numbers: 1024 * 1024 times a capacity and positions in paths do not wrap around; the two counters of the greedy walk are `int` in the caller and `unsigned long` in the SQL function, which agrees below 2^32.
- Job rows: the file system identifier and generation (the statements match by inode number only), times, connection data. Jobs are taken in table order where the source orders by start block, which decides only the order of recalls.
- CopyLoop.TransferData: errors of the tape and the end of the service in the middle; the application's truncation during the copy is part of `FileSafety`, not of this loop.
- SelRecall.SelRecall.ProcessFiles: asks for distinct file names and inode numbers on a tape, because SQLite does not enforce the constraint for rows without replica number.
- TransRecall.TransRecall.ExecRequest: one execution by itself; side by side with others it is a sequence of steps of `RecallProtocol`.
- Transparent recall: a request under the name of another tape than its number stands for (`Stray`) is dropped in one step: its execution finds no job. With a name that is no cartridge the scheduler would dereference a null pointer.
- Events of a transparent recall: after a failed `getEvents` the loop handles the event before it once more; the model has each event received once. Events without inode number are passed over, and what the end of the service answers is not part of the protocol (`TransRecall.TransRecall.Receive` has both).
- MigrationStatus.CountersExactIff: jobs are counted in the state that they get when their pass settles, and a file's tape list grows only by this request; that file names and inode numbers tell jobs apart is a hypothesis of `PassIsWork`, as in `ExactIffInodesDistinct`.
- MigrationStatus.NoTapeExactIff: passes of one replica at a time; `StubStatus` has the overlapping ones, with the hypothesis that inode numbers tell the files of the request apart.
- A second event for a file that already has a recall job: the overlay's lock per file prevents it, the constraint of the job queue would reject it.
- Shutdown in the middle of a pass, retries on a busy tape, the DMAPI connector, thread pools, client commands, messages and tracing.
- Configuration.Configuration.Write: any order of pools, file systems and tapes, where the source writes them sorted.
- TapeLinks.TapeTree.CreateLink: the ghost arguments name the components of the two paths; a directory that is in fact a file and an exhausted retry are not modelled.
