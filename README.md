# MongoDB binary restore: verified model of the orchestrator

This project models `RestoreService` of `internal/databases/mongo/binary/restore.go` in wal-g.
That code restores a binary MongoDB backup onto a local data directory. It fetches the
backup's sentinel and file manifest and checks that the mongod versions are compatible. It
checks that the lock file is empty, cleans the data directory, then recreates the backup's
directories and copies every backup file in manifest order. Next it starts mongod twice in
special modes: once to fix the system data at the backup's last-write timestamp, once to
recover from the oplog as a standalone. Last, it hands the data files to the mongod user.

The work itself is done by collaborators whose code is not part of this model: the backup
storage, the local storage, the mongod starters, the mongod admin service and the version
compatibility check. Each of them is an oracle here.

- `restore_types.dfy` (module `RestoreTypes`) holds the values the restore reads: the
  sentinel's `MongoMeta`, the files manifest and the mode a mongod is started in. It also
  holds `Event`, one per collaborator call, and `Error`, an error that may be wrapped with
  messages.
- `restore_service.dfy` (module `Restore`) is the orchestrator itself, the class
  `RestoreService`. Its field `trace` records every collaborator call in order. The call at
  trace position `k` returns an error exactly when `k` is in the constant `failures`, which
  makes the oracle as general as a position-indexed choice of outcomes can be. `DoRestore`,
  `FixSystemData`, `RecoverFromOplogAsStandalone`, `DownloadFilesFromBackup` (a `while` loop
  over the manifest's files) and `DownloadFileFromBackup` are methods that append to `trace`
  and return the error the source returns.
- `execution.dfy` (module `Execution`) is the reference semantics the methods are proved
  against. A plan lists the steps of a fully successful run. A step is one call, or a reader
  that is acquired, used and then released by a `defer`. `Execute` runs a plan against the
  oracle and stops at the first error it returns. Its general lemmas state that a run returns
  no error exactly when no counted call fails, that every run makes a prefix of the plan's
  calls, and that a failed run stops at its first failing call and returns that call's error.
- `restore_protocol.dfy` (module `RestoreProtocol`) holds the plans of the restore and of its
  stages, and the same runs written stage by stage and call by call. It also holds the lemmas
  that tie the two forms together, and the restore's properties.

The postconditions of `DoRestore`, `FixSystemData`, `RecoverFromOplogAsStandalone` and
`DownloadFilesFromBackup` state the new trace and the error twice. One form uses the stage's
call-by-call run. The other uses `Execute` of the stage's plan, which is the form the property
lemmas are about. `DownloadFileFromBackup` states its trace and error directly, case by case.
The helpers `Invoke` (one collaborator call) and `LoggedClose` (a reader's close whose error
is dropped) state their trace, and `Invoke` its error.

A started mongod is not waited on when service creation, the system-data fix or the shutdown
fails (restore.go:82-85, 88-95, 107-115). `FixSystemDataWaitsAfterShutdown` and
`RecoverWaitsAfterShutdown` state exactly when `Wait` is called.

## Model

| member | source | states |
|---|---|---|
| Restore.RestoreService.constructor | internal/databases/mongo/binary/restore.go:21-29 | the service keeps the backup storage and the minimal config path it is created with, and has made no call yet |
| Restore.RestoreService.DoRestore | internal/databases/mongo/binary/restore.go:31-74 | the calls made and the error returned are the old trace followed by the run of the whole restore plan, and equally the stage-by-stage run: sentinel, manifest, compatibility, lock file and cleanup, then the files, fixSystemData, oplog recovery and the owner fix, stopping at the first error |
| Restore.RestoreService.FixSystemData | internal/databases/mongo/binary/restore.go:76-99 | appends the run of start (disable session cache refresh) → service → fix at the sentinel's backupLastTS → shutdown → wait, stopping at the first error; start and service errors are wrapped with their messages |
| Restore.RestoreService.RecoverFromOplogAsStandalone | internal/databases/mongo/binary/restore.go:101-118 | appends the run of start (recover from oplog as standalone) → service → shutdown → wait, stopping at the first error; start and service errors are wrapped |
| Restore.RestoreService.DownloadFilesFromBackup | internal/databases/mongo/binary/restore.go:120-137 | appends the run of the empty-dbpath check, the directory creation and then each manifest file in order; the first failing file stops the loop and its error is wrapped with "bad backup file " and its path |
| Restore.RestoreService.DownloadFileFromBackup | internal/databases/mongo/binary/restore.go:139-149 | if opening the reader fails, only that call is made and its error returned; otherwise save and then close are made, close exactly once and even when save fails, and save's error is returned while close's is ignored |
| Restore.RestoreService.LoggedClose | internal/databases/mongo/binary/restore.go:146 | the deferred close of a backup file reader is one call appended to the trace, and its error is dropped: the method returns none |
| RestoreProtocol.RestoreRunIsExecute | internal/databases/mongo/binary/restore.go:31-74 | running DoRestore's stages one after another, each only after the previous ones succeeded, is the same as running the whole restore plan |
| RestoreProtocol.RunFromDownloadIsExecute | internal/databases/mongo/binary/restore.go:58-73 | the stages from the file download on are the run of their plan |
| RestoreProtocol.RunFromFixIsExecute | internal/databases/mongo/binary/restore.go:63-73 | the stages from fixSystemData on are the run of their plan |
| RestoreProtocol.RunFromRecoverIsExecute | internal/databases/mongo/binary/restore.go:68-73 | the oplog recovery followed by the owner fix is the run of its plan, and the owner fix's error is the result |
| RestoreProtocol.PreparePlanRun | internal/databases/mongo/binary/restore.go:32-55 | the first five calls run one by one, each only after the ones before it succeeded, and the first error is returned unwrapped |
| RestoreProtocol.DownloadFilesPlanRun | internal/databases/mongo/binary/restore.go:121-130 | the empty-dbpath check and the directory creation come before the files, and either error stops the stage |
| RestoreProtocol.TransferPlanRun | internal/databases/mongo/binary/restore.go:130-135 | one file of the loop: a failed open stops with only the open made, a failed save stops after the close, and both errors are wrapped with "bad backup file " and the path; otherwise the next file follows |
| RestoreProtocol.FixSystemDataPlanRun | internal/databases/mongo/binary/restore.go:76-99 | fixSystemData's plan runs call by call, stops at the first error and wraps only the start and service errors |
| RestoreProtocol.RecoverPlanRun | internal/databases/mongo/binary/restore.go:101-118 | the same for recoverFromOplogAsStandalone |
| RestoreProtocol.TransferPlanEvents | internal/databases/mongo/binary/restore.go:130-148 | with no failure the files loop makes, for each file in manifest order, open, save and close |
| RestoreProtocol.RestorePlanEvents | internal/databases/mongo/binary/restore.go:31-149 | the calls of the restore plan are exactly the success trace: the five checks, the dbpath check and directories, open/save/close per file, the five fixSystemData calls, the four recovery calls, the owner fix |
| RestoreProtocol.RestoreSucceedsIff | internal/databases/mongo/binary/restore.go:31-74 | DoRestore returns no error exactly when no call of the success trace whose error counts fails, and then it has made exactly the success trace |
| RestoreProtocol.RestoreStopsAtFirstFailure | internal/databases/mongo/binary/restore.go:32-73 | every restore makes a prefix of the success trace; a failed one ends at its first failing call (followed at most by that reader's close) and returns an error whose root is that call |
| RestoreProtocol.PreconditionFailureStopsRestore | internal/databases/mongo/binary/restore.go:42-55 | a failed compatibility check or lock-file check is returned as is, and then no cleanup, directory creation, file save or mongod start has happened |
| RestoreProtocol.RestorePlanBeforeFile | internal/databases/mongo/binary/restore.go:120-135 | the i-th file's step comes after the seven calls before the loop and the files before it, in manifest order |
| RestoreProtocol.FileFailureStopsRestore | internal/databases/mongo/binary/restore.go:130-135 | when the i-th file cannot be opened or saved, the restore has copied the files before it in order, opens nothing after it, and returns the cause wrapped with "bad backup file " and its path |
| RestoreProtocol.RestoreFixesSystemDataAtBackupLastTS | internal/databases/mongo/binary/restore.go:87-88 | the system data are fixed at most once in a restore, at its fixed place, and always at the sentinel's backupLastTS |
| RestoreProtocol.RestoreResultIsFixFileOwner | internal/databases/mongo/binary/restore.go:73 | when every call before the owner fix succeeds, the restore has made the whole success trace and returns the owner fix's result |
| RestoreProtocol.FixSystemDataStartOrServiceFails | internal/databases/mongo/binary/restore.go:77-85 | a failed start is wrapped with "unable to start mongod in special mode" and no service is created; a failed service creation is wrapped with "unable to create mongod service" |
| RestoreProtocol.FixSystemDataWaitsAfterShutdown | internal/databases/mongo/binary/restore.go:87-98 | Wait is called exactly when every call before it, Shutdown included, succeeded; then the stage returns Wait's result; the fix uses the timestamp the stage is given |
| RestoreProtocol.RecoverStartOrServiceFails | internal/databases/mongo/binary/restore.go:102-110 | the same start and service errors as fixSystemData, wrapped with the same messages |
| RestoreProtocol.RecoverWaitsAfterShutdown | internal/databases/mongo/binary/restore.go:112-117 | Wait is called exactly when every call before it succeeded, the stage returns Wait's result, and the stage never fixes system data |
| Execution.ExecuteSucceedsIff | internal/databases/mongo/binary/restore.go:31-74 | a run returns no error exactly when no call of its plan whose error counts fails, and then it makes every call of the plan |
| Execution.ExecuteStopsAtFirstFailure | internal/databases/mongo/binary/restore.go:32-73 | a failed run stops at its first failing call and returns that call's error |
| Execution.ExecuteIsPrefix | internal/databases/mongo/binary/restore.go:32-73 | every run makes a prefix of its plan's calls |
| Execution.ExecuteAppend | internal/databases/mongo/binary/restore.go:31-74 | running two plans one after the other is running the first and, only if it succeeded, the second after it |
| Execution.ExecuteStopsAtScoped | internal/databases/mongo/binary/restore.go:139-148 | a reader whose open or use fails ends the run, with its release made after a failed use |
| RestoreTypes.WrapAll | internal/databases/mongo/binary/restore.go:77-85 | wrapping an error with messages keeps the call it originates from |

## Left out

- Context cancellation (`context.Context`) and the `tracelog` logging (restore.go:57, 140) are not modelled: they add no call whose outcome the restore uses.
- The bytes moved by the backup storage and the local storage are not modelled: each of their operations is one oracle call, identified by the path or directories it is given.
- `EnsureCompatibilityToRestoreMongodVersions` is an oracle call that carries the two versions it compares. Its version rule is not part of this model.
- Process spawning, the mongod wire protocol and the internals of `Shutdown` and `FixSystemDataAfterRestore` are oracle calls. The mongod process handle and its URI are not modelled, so the model does not tie a service to the process it was created for.
- Errors from `utility.LoggedClose` are modelled as a call whose outcome is ignored. The log message is not modelled.
- The `models.Backup` timestamp is only passed on and compared for equality, so it is a pair of naturals.
- `CreateRestoreService` always returns a nil error. The constructor has no error result.
