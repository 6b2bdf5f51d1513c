/**
 The MongoDB binary restore orchestrator of internal/databases/mongo/binary/restore.go.
 Its collaborators (backup storage, local storage, the mongod process starters and the
 mongod admin service) are oracles: each call is appended to the service's trace, and
 the call at trace position `k` returns an error exactly when `k` is in `failures`.
 */
module Restore {
  import opened RestoreTypes
  import opened Execution
  import opened RestoreProtocol

  /** What the backup storage returns for the backup being restored. */
  datatype BackupStorage = BackupStorage(sentinel: Backup, filesMetadata: MongodBackupFilesMetadata)

  class RestoreService {
    const backupStorage: BackupStorage
    const minimalConfigPath: string
    /** The trace positions of the collaborator calls that return an error. */
    const failures: set<nat>
    /** Every collaborator call made so far, in order. */
    var trace: seq<Event>

    constructor (backupStorage: BackupStorage, minimalConfigPath: string, failures: set<nat>)
      ensures this.backupStorage == backupStorage && this.minimalConfigPath == minimalConfigPath
      ensures this.failures == failures && trace == []
    {
      this.backupStorage := backupStorage;
      this.minimalConfigPath := minimalConfigPath;
      this.failures := failures;
      trace := [];
    }

    /** Makes one collaborator call. */
    method Invoke(e: Event) returns (err: Option<Error>)
      modifies this
      ensures trace == old(trace) + [e]
      ensures err == if |old(trace)| in failures then Some(Cause(e)) else None
    {
      err := if |trace| in failures then Some(Cause(e)) else None;
      trace := trace + [e];
    }

    /** Closes a backup file reader; an error is only logged. */
    method LoggedClose(path: string)
      modifies this
      ensures trace == old(trace) + [CloseReader(path)]
    {
      var closeErr := Invoke(CloseReader(path));
    }

    method DoRestore(restoreMongodVersion: string) returns (err: Option<Error>)
      modifies this
      ensures var run := RestoreRun(restoreMongodVersion, minimalConfigPath, backupStorage.sentinel,
                                    backupStorage.filesMetadata, old(trace), failures);
        trace == run.events && err == run.err
      ensures var run := Execute(RestorePlan(restoreMongodVersion, minimalConfigPath, backupStorage.sentinel,
                                             backupStorage.filesMetadata), |old(trace)|, failures);
        trace == old(trace) + run.events && err == run.err
    {
      RestoreRunIsExecute(restoreMongodVersion, minimalConfigPath, backupStorage.sentinel,
                          backupStorage.filesMetadata, trace, failures);
      err := Invoke(DownloadSentinel);
      if err.Some? { return; }
      var sentinel := backupStorage.sentinel;

      err := Invoke(DownloadMongodBackupFilesMetadata);
      if err.Some? { return; }
      var mongodBackupFilesMetadata := backupStorage.filesMetadata;

      err := Invoke(EnsureCompatibility(restoreMongodVersion, sentinel.mongoMeta.version));
      if err.Some? { return; }

      err := Invoke(EnsureMongodFsLockFileIsEmpty);
      if err.Some? { return; }

      err := Invoke(CleanupMongodDBPath);
      if err.Some? { return; }
      assert trace == old(trace) + PrepareRun(restoreMongodVersion, sentinel, |old(trace)|, failures).events;

      err := DownloadFilesFromBackup(mongodBackupFilesMetadata);
      if err.Some? { return; }

      err := FixSystemData(sentinel);
      if err.Some? { return; }

      err := RecoverFromOplogAsStandalone();
      if err.Some? { return; }

      err := Invoke(FixFileOwnerOfMongodData);
    }

    method FixSystemData(sentinel: Backup) returns (err: Option<Error>)
      modifies this
      ensures var run := FixSystemDataRun(minimalConfigPath, sentinel.mongoMeta.backupLastTS, |old(trace)|, failures);
        trace == old(trace) + run.events && err == run.err
      ensures var run := Execute(FixSystemDataPlan(minimalConfigPath, sentinel.mongoMeta.backupLastTS), |old(trace)|, failures);
        trace == old(trace) + run.events && err == run.err
    {
      FixSystemDataPlanRun(minimalConfigPath, sentinel.mongoMeta.backupLastTS, |trace|, failures);
      err := Invoke(StartMongod(DisableLogicalSessionCacheRefresh, minimalConfigPath));
      if err.Some? {
        err := Some(Wrapped(StartFailedMessage, err.value));
        return;
      }

      err := Invoke(CreateMongodService(AppName));
      if err.Some? {
        err := Some(Wrapped(ServiceFailedMessage, err.value));
        return;
      }

      var lastWriteTS := sentinel.mongoMeta.backupLastTS;
      err := Invoke(FixSystemDataAfterRestore(lastWriteTS));
      if err.Some? { return; }

      err := Invoke(Shutdown);
      if err.Some? { return; }

      err := Invoke(Wait);
    }

    method RecoverFromOplogAsStandalone() returns (err: Option<Error>)
      modifies this
      ensures var run := RecoverRun(minimalConfigPath, |old(trace)|, failures);
        trace == old(trace) + run.events && err == run.err
      ensures var run := Execute(RecoverPlan(minimalConfigPath), |old(trace)|, failures);
        trace == old(trace) + run.events && err == run.err
    {
      RecoverPlanRun(minimalConfigPath, |trace|, failures);
      err := Invoke(StartMongod(MongodMode.RecoverFromOplogAsStandalone, minimalConfigPath));
      if err.Some? {
        err := Some(Wrapped(StartFailedMessage, err.value));
        return;
      }

      err := Invoke(CreateMongodService(AppName));
      if err.Some? {
        err := Some(Wrapped(ServiceFailedMessage, err.value));
        return;
      }

      err := Invoke(Shutdown);
      if err.Some? { return; }

      err := Invoke(Wait);
    }

    method DownloadFilesFromBackup(backupFilesMetadata: MongodBackupFilesMetadata) returns (err: Option<Error>)
      modifies this
      ensures var run := DownloadFilesRun(backupFilesMetadata, |old(trace)|, failures);
        trace == old(trace) + run.events && err == run.err
      ensures var run := Execute(DownloadFilesPlan(backupFilesMetadata), |old(trace)|, failures);
        trace == old(trace) + run.events && err == run.err
    {
      DownloadFilesPlanRun(backupFilesMetadata, |trace|, failures);
      err := Invoke(EnsureEmptyDBPath);
      if err.Some? { return; }

      err := Invoke(CreateDirectories(backupFilesMetadata.backupDirectories));
      if err.Some? { return; }

      var files := backupFilesMetadata.backupFiles;
      ghost var events := [EnsureEmptyDBPath, CreateDirectories(backupFilesMetadata.backupDirectories)];
      assert files[0..] == files;
      var i := 0;
      while i < |files|
        invariant 0 <= i <= |files|
        invariant err.None? && trace == old(trace) + events
        invariant DownloadFilesRun(backupFilesMetadata, |old(trace)|, failures) ==
          Prepend(events, Execute(TransferPlan(files[i..]), |trace|, failures))
      {
        TransferPlanRun(files, i, |trace|, failures);
        ghost var before := trace;
        var fileErr := DownloadFileFromBackup(files[i]);
        ghost var step := trace[|before|..];
        assert trace == before + step;
        AppendAssociates(old(trace), events, step);
        if fileErr.Some? {
          err := Some(Wrapped(BadFileMessage(files[i].path), fileErr.value));
          return;
        }
        PrependPrepend(events, step, Execute(TransferPlan(files[i + 1..]), |trace|, failures));
        events := events + step;
        i := i + 1;
      }
      assert TransferPlan(files[i..]) == [];
    }

    method DownloadFileFromBackup(backupFileMeta: BackupFileMeta) returns (err: Option<Error>)
      modifies this
      ensures var path := backupFileMeta.path;
        if |old(trace)| in failures then
          trace == old(trace) + [CreateReader(path)] && err == Some(Cause(CreateReader(path)))
        else
          trace == old(trace) + [CreateReader(path), SaveStreamToMongodFile(path), CloseReader(path)] &&
          err == if |old(trace)| + 1 in failures then Some(Cause(SaveStreamToMongodFile(path))) else None
    {
      var path := backupFileMeta.path;
      err := Invoke(CreateReader(path));
      if err.Some? { return; }
      err := Invoke(SaveStreamToMongodFile(path));
      LoggedClose(path);
    }
  }
}
