/**
 The values the MongoDB binary restore works on: the backup's sentinel and
 file manifest, the calls the restore makes to its collaborators (backup
 storage, local storage, mongod processes and the mongod admin service), and
 the errors those calls return.
 */
module RestoreTypes {

  datatype Option<+T> = None | Some(value: T)

  /** The oplog timestamp recorded in a backup; the restore only passes it on. */
  datatype Timestamp = Timestamp(ts: nat, inc: nat)

  /** The part of `models.Backup` the restore reads: the mongod version that took the
      backup and the timestamp of the last write the backup contains. */
  datatype MongoMeta = MongoMeta(version: string, backupLastTS: Timestamp)
  datatype Backup = Backup(mongoMeta: MongoMeta)

  datatype BackupFileMeta = BackupFileMeta(path: string)

  /** The manifest of a binary backup: directories to recreate, then files to copy, in order. */
  datatype MongodBackupFilesMetadata =
    MongodBackupFilesMetadata(backupDirectories: seq<string>, backupFiles: seq<BackupFileMeta>)

  /** The two special modes the restore starts mongod in. */
  datatype MongodMode = DisableLogicalSessionCacheRefresh | RecoverFromOplogAsStandalone

  /** One call the restore makes to a collaborator, as it appears in the trace. */
  datatype Event =
    | DownloadSentinel
    | DownloadMongodBackupFilesMetadata
    | EnsureCompatibility(restoreVersion: string, backupVersion: string)
    | EnsureMongodFsLockFileIsEmpty
    | CleanupMongodDBPath
    | EnsureEmptyDBPath
    | CreateDirectories(directories: seq<string>)
    | CreateReader(path: string)
    | SaveStreamToMongodFile(path: string)
    | CloseReader(path: string)
    | StartMongod(mode: MongodMode, configPath: string)
    | CreateMongodService(appName: string)
    | FixSystemDataAfterRestore(lastWriteTS: Timestamp)
    | Shutdown
    | Wait
    | FixFileOwnerOfMongodData

  /** Whether an error of this call reaches the restore's result: a reader's close
      error is only logged. */
  predicate Fallible(e: Event) {
    !e.CloseReader?
  }

  /** An error: the one a collaborator call returned, possibly wrapped with messages. */
  datatype Error = Cause(call: Event) | Wrapped(message: string, cause: Error)

  /** The collaborator call an error originates from. */
  function Root(e: Error): Event {
    match e
    case Cause(call) => call
    case Wrapped(_, cause) => Root(cause)
  }

  /** Wraps `e` with each message of `context` in turn, innermost first. */
  function WrapAll(context: seq<string>, e: Error): (r: Error)
    ensures Root(r) == Root(e)
    ensures context == [] ==> r == e
    ensures |context| == 1 ==> r == Wrapped(context[0], e)
    decreases |context|
  {
    if context == [] then e else WrapAll(context[1..], Wrapped(context[0], e))
  }
}
