/**
 The plan of `RestoreService.DoRestore` and its helpers, written as the steps a
 fully successful restore performs, and the properties of running it.
 */
module RestoreProtocol {
  import opened RestoreTypes
  import opened Execution

  /** The application name the restore's mongod admin sessions are created with. */
  const AppName := "wal-g restore"
  const StartFailedMessage := "unable to start mongod in special mode"
  const ServiceFailedMessage := "unable to create mongod service"

  function BadFileMessage(path: string): string {
    "bad backup file " + path
  }

  /** The steps of DoRestore before the files are downloaded. */
  function PreparePlan(restoreVersion: string, sentinel: Backup): seq<Step> {
    [ Call(DownloadSentinel, []),
      Call(DownloadMongodBackupFilesMetadata, []),
      Call(EnsureCompatibility(restoreVersion, sentinel.mongoMeta.version), []),
      Call(EnsureMongodFsLockFileIsEmpty, []),
      Call(CleanupMongodDBPath, []) ]
  }

  /** Copying one backup file as downloadFilesFromBackup does it: a reader is opened,
      saved to the data directory and closed by a `defer`. */
  function TransferStep(file: BackupFileMeta): Step {
    Scoped(CreateReader(file.path), SaveStreamToMongodFile(file.path), CloseReader(file.path),
           [BadFileMessage(file.path)])
  }

  function TransferPlan(files: seq<BackupFileMeta>): seq<Step> {
    seq(|files|, i requires 0 <= i < |files| => TransferStep(files[i]))
  }

  function DownloadFilesPlan(metadata: MongodBackupFilesMetadata): seq<Step> {
    [ Call(EnsureEmptyDBPath, []),
      Call(CreateDirectories(metadata.backupDirectories), []) ]
    + TransferPlan(metadata.backupFiles)
  }

  function FixSystemDataPlan(configPath: string, lastWriteTS: Timestamp): seq<Step> {
    [ Call(StartMongod(DisableLogicalSessionCacheRefresh, configPath), [StartFailedMessage]),
      Call(CreateMongodService(AppName), [ServiceFailedMessage]),
      Call(FixSystemDataAfterRestore(lastWriteTS), []),
      Call(Shutdown, []),
      Call(Wait, []) ]
  }

  function RecoverPlan(configPath: string): seq<Step> {
    [ Call(StartMongod(RecoverFromOplogAsStandalone, configPath), [StartFailedMessage]),
      Call(CreateMongodService(AppName), [ServiceFailedMessage]),
      Call(Shutdown, []),
      Call(Wait, []) ]
  }

  /** The steps after fixSystemData: oplog recovery, then fixing the files' owner. */
  function FinishPlan(configPath: string): seq<Step> {
    RecoverPlan(configPath) + [Call(FixFileOwnerOfMongodData, [])]
  }

  function RestorePlan(restoreVersion: string, configPath: string, sentinel: Backup,
                       metadata: MongodBackupFilesMetadata): seq<Step> {
    PreparePlan(restoreVersion, sentinel) +
    (DownloadFilesPlan(metadata) +
     (FixSystemDataPlan(configPath, sentinel.mongoMeta.backupLastTS) + FinishPlan(configPath)))
  }

  /** The calls that copy `files`: for each file in order, open, save and close its reader. */
  function FileEvents(files: seq<BackupFileMeta>): seq<Event> {
    seq(3 * |files|, k requires 0 <= k < 3 * |files| =>
      var path := files[k / 3].path;
      if k % 3 == 0 then CreateReader(path)
      else if k % 3 == 1 then SaveStreamToMongodFile(path)
      else CloseReader(path))
  }

  /** Every call of a restore in which no call fails, in order. */
  function SuccessTrace(restoreVersion: string, configPath: string, sentinel: Backup,
                        metadata: MongodBackupFilesMetadata): seq<Event> {
    [ DownloadSentinel, DownloadMongodBackupFilesMetadata,
      EnsureCompatibility(restoreVersion, sentinel.mongoMeta.version),
      EnsureMongodFsLockFileIsEmpty, CleanupMongodDBPath,
      EnsureEmptyDBPath, CreateDirectories(metadata.backupDirectories) ]
    + FileEvents(metadata.backupFiles)
    + [ StartMongod(DisableLogicalSessionCacheRefresh, configPath), CreateMongodService(AppName),
        FixSystemDataAfterRestore(sentinel.mongoMeta.backupLastTS), Shutdown, Wait,
        StartMongod(RecoverFromOplogAsStandalone, configPath), CreateMongodService(AppName),
        Shutdown, Wait,
        FixFileOwnerOfMongodData ]
  }

  // ---------------------------------------------------------------------------
  // The shape of the plans

  lemma {:induction false} TransferPlanEvents(files: seq<BackupFileMeta>)
    ensures Flatten(TransferPlan(files)) == FileEvents(files)
    decreases |files|
  {
    if files != [] {
      var f := files[0];
      assert TransferPlan(files)[0] == TransferStep(f);
      assert TransferPlan(files)[1..] == TransferPlan(files[1..]);
      TransferPlanEvents(files[1..]);
      var rest := FileEvents(files[1..]);
      assert FileEvents(files) == [CreateReader(f.path), SaveStreamToMongodFile(f.path), CloseReader(f.path)] + rest by {
        forall k | 3 <= k < 3 * |files|
          ensures FileEvents(files)[k] == rest[k - 3]
        {
          assert files[k / 3] == files[1..][(k - 3) / 3];
          assert k % 3 == (k - 3) % 3;
        }
      }
    }
  }

  lemma FileEventsPrefix(files: seq<BackupFileMeta>, i: nat)
    requires i <= |files|
    ensures FileEvents(files)[..3 * i] == FileEvents(files[..i])
  {
    forall k | 0 <= k < 3 * i ensures FileEvents(files)[k] == FileEvents(files[..i])[k] {
      assert k / 3 < i;
    }
  }

  // The restore's stages call by call, each as its source function runs them.
  // These are not a second specification: each equals `Execute` of its stage's plan (the
  // `...PlanRun` and `...IsExecute` lemmas below). They spell the run out in the order the
  // methods make their calls, which keeps the methods' proofs short on the way to `Execute`.

  /** The first five calls of a restore: each runs only when the ones before it succeeded. */
  function PrepareRun(restoreVersion: string, sentinel: Backup, pos: nat, failing: set<nat>): Run {
    var compat := EnsureCompatibility(restoreVersion, sentinel.mongoMeta.version);
    if pos in failing then Run([DownloadSentinel], Some(Cause(DownloadSentinel)))
    else if pos + 1 in failing then
      Run([DownloadSentinel, DownloadMongodBackupFilesMetadata], Some(Cause(DownloadMongodBackupFilesMetadata)))
    else if pos + 2 in failing then
      Run([DownloadSentinel, DownloadMongodBackupFilesMetadata, compat], Some(Cause(compat)))
    else if pos + 3 in failing then
      Run([DownloadSentinel, DownloadMongodBackupFilesMetadata, compat, EnsureMongodFsLockFileIsEmpty],
          Some(Cause(EnsureMongodFsLockFileIsEmpty)))
    else
      Run([DownloadSentinel, DownloadMongodBackupFilesMetadata, compat, EnsureMongodFsLockFileIsEmpty,
           CleanupMongodDBPath],
          if pos + 4 in failing then Some(Cause(CleanupMongodDBPath)) else None)
  }

  /** downloadFilesFromBackup: the data directory check and the directories, then the files. */
  function DownloadFilesRun(metadata: MongodBackupFilesMetadata, pos: nat, failing: set<nat>): Run {
    var create := CreateDirectories(metadata.backupDirectories);
    if pos in failing then Run([EnsureEmptyDBPath], Some(Cause(EnsureEmptyDBPath)))
    else if pos + 1 in failing then Run([EnsureEmptyDBPath, create], Some(Cause(create)))
    else Prepend([EnsureEmptyDBPath, create], Execute(TransferPlan(metadata.backupFiles), pos + 2, failing))
  }

  /** fixSystemData: start, service, fix, shutdown, wait; the first two errors are wrapped. */
  function FixSystemDataRun(configPath: string, lastWriteTS: Timestamp, pos: nat, failing: set<nat>): Run {
    var start := StartMongod(DisableLogicalSessionCacheRefresh, configPath);
    var service := CreateMongodService(AppName);
    var fix := FixSystemDataAfterRestore(lastWriteTS);
    if pos in failing then Run([start], Some(Wrapped(StartFailedMessage, Cause(start))))
    else if pos + 1 in failing then Run([start, service], Some(Wrapped(ServiceFailedMessage, Cause(service))))
    else if pos + 2 in failing then Run([start, service, fix], Some(Cause(fix)))
    else if pos + 3 in failing then Run([start, service, fix, Shutdown], Some(Cause(Shutdown)))
    else Run([start, service, fix, Shutdown, Wait], if pos + 4 in failing then Some(Cause(Wait)) else None)
  }

  /** recoverFromOplogAsStandalone: start, service, shutdown, wait; the first two errors are wrapped. */
  function RecoverRun(configPath: string, pos: nat, failing: set<nat>): Run {
    var start := StartMongod(RecoverFromOplogAsStandalone, configPath);
    var service := CreateMongodService(AppName);
    if pos in failing then Run([start], Some(Wrapped(StartFailedMessage, Cause(start))))
    else if pos + 1 in failing then Run([start, service], Some(Wrapped(ServiceFailedMessage, Cause(service))))
    else if pos + 2 in failing then Run([start, service, Shutdown], Some(Cause(Shutdown)))
    else Run([start, service, Shutdown, Wait], if pos + 3 in failing then Some(Cause(Wait)) else None)
  }

  /** DoRestore stage by stage, after the calls `done`: each stage runs only when every
      stage before it succeeded, and the restore returns the failing stage's error, or
      the file owner fix's. The events of the result start with `done`. */
  function RestoreRun(restoreVersion: string, configPath: string, sentinel: Backup,
                      metadata: MongodBackupFilesMetadata, done: seq<Event>, failing: set<nat>): Run
  {
    var prepare := Prepend(done, PrepareRun(restoreVersion, sentinel, |done|, failing));
    if prepare.err.Some? then prepare
    else RunFromDownload(configPath, sentinel.mongoMeta.backupLastTS, metadata, prepare.events, failing)
  }

  /** The rest of DoRestore once the calls `done` have been made without error, from
      downloadFilesFromBackup on. */
  function RunFromDownload(configPath: string, lastWriteTS: Timestamp, metadata: MongodBackupFilesMetadata,
                           done: seq<Event>, failing: set<nat>): Run
  {
    var download := Prepend(done, DownloadFilesRun(metadata, |done|, failing));
    if download.err.Some? then download
    else RunFromFix(configPath, lastWriteTS, download.events, failing)
  }

  /** The rest of DoRestore from fixSystemData on. */
  function RunFromFix(configPath: string, lastWriteTS: Timestamp, done: seq<Event>, failing: set<nat>): Run {
    var fix := Prepend(done, FixSystemDataRun(configPath, lastWriteTS, |done|, failing));
    if fix.err.Some? then fix
    else RunFromRecover(configPath, fix.events, failing)
  }

  /** The rest of DoRestore from recoverFromOplogAsStandalone on: the last call, the file
      owner fix, gives the restore its result. */
  function RunFromRecover(configPath: string, done: seq<Event>, failing: set<nat>): Run {
    var recover := Prepend(done, RecoverRun(configPath, |done|, failing));
    if recover.err.Some? then recover
    else
      Run(recover.events + [FixFileOwnerOfMongodData],
          if |recover.events| in failing then Some(Cause(FixFileOwnerOfMongodData)) else None)
  }

  /** DoRestore's stage by stage run after the calls `done` is `done` followed by the run
      of the whole restore plan from the position after `done`. */
  lemma RestoreRunIsExecute(restoreVersion: string, configPath: string, sentinel: Backup,
                            metadata: MongodBackupFilesMetadata, done: seq<Event>, failing: set<nat>)
    ensures RestoreRun(restoreVersion, configPath, sentinel, metadata, done, failing) ==
            Prepend(done, Execute(RestorePlan(restoreVersion, configPath, sentinel, metadata), |done|, failing))
  {
    var rest := DownloadFilesPlan(metadata) +
      (FixSystemDataPlan(configPath, sentinel.mongoMeta.backupLastTS) + FinishPlan(configPath));
    StageThen(done, PreparePlan(restoreVersion, sentinel), rest, |done|, failing);
    PreparePlanRun(restoreVersion, sentinel, |done|, failing);
    var prepare := PrepareRun(restoreVersion, sentinel, |done|, failing);
    if prepare.err.None? {
      RunFromDownloadIsExecute(configPath, sentinel.mongoMeta.backupLastTS, metadata, done + prepare.events, failing);
    }
  }

  lemma RunFromDownloadIsExecute(configPath: string, lastWriteTS: Timestamp, metadata: MongodBackupFilesMetadata,
                                 done: seq<Event>, failing: set<nat>)
    ensures RunFromDownload(configPath, lastWriteTS, metadata, done, failing) ==
            Prepend(done, Execute(DownloadFilesPlan(metadata) + (FixSystemDataPlan(configPath, lastWriteTS) +
                                  FinishPlan(configPath)), |done|, failing))
  {
    var rest := FixSystemDataPlan(configPath, lastWriteTS) + FinishPlan(configPath);
    StageThen(done, DownloadFilesPlan(metadata), rest, |done|, failing);
    DownloadFilesPlanRun(metadata, |done|, failing);
    var download := DownloadFilesRun(metadata, |done|, failing);
    if download.err.None? {
      RunFromFixIsExecute(configPath, lastWriteTS, done + download.events, failing);
    }
  }

  lemma RunFromFixIsExecute(configPath: string, lastWriteTS: Timestamp, done: seq<Event>, failing: set<nat>)
    ensures RunFromFix(configPath, lastWriteTS, done, failing) ==
            Prepend(done, Execute(FixSystemDataPlan(configPath, lastWriteTS) + FinishPlan(configPath),
                                  |done|, failing))
  {
    StageThen(done, FixSystemDataPlan(configPath, lastWriteTS), FinishPlan(configPath), |done|, failing);
    FixSystemDataPlanRun(configPath, lastWriteTS, |done|, failing);
    var fix := FixSystemDataRun(configPath, lastWriteTS, |done|, failing);
    if fix.err.None? {
      RunFromRecoverIsExecute(configPath, done + fix.events, failing);
    }
  }

  lemma RunFromRecoverIsExecute(configPath: string, done: seq<Event>, failing: set<nat>)
    ensures RunFromRecover(configPath, done, failing) ==
            Prepend(done, Execute(FinishPlan(configPath), |done|, failing))
  {
    var chown := Call(FixFileOwnerOfMongodData, []);
    StageThen(done, RecoverPlan(configPath), [chown], |done|, failing);
    RecoverPlanRun(configPath, |done|, failing);
    var recover := RecoverRun(configPath, |done|, failing);
    if recover.err.None? {
      ExecuteCallThen(chown, [], |done| + |recover.events|, failing);
      assert [chown] + [] == [chown];
      assert [FixFileOwnerOfMongodData] + [] == [FixFileOwnerOfMongodData];
    }
  }

  lemma RestorePlanWellFormed(restoreVersion: string, configPath: string, sentinel: Backup,
                              metadata: MongodBackupFilesMetadata)
    ensures WellFormed(RestorePlan(restoreVersion, configPath, sentinel, metadata))
  {
    var fix := FixSystemDataPlan(configPath, sentinel.mongoMeta.backupLastTS);
    WellFormedAppend(fix, FinishPlan(configPath));
    WellFormedAppend(DownloadFilesPlan(metadata), fix + FinishPlan(configPath));
    WellFormedAppend(PreparePlan(restoreVersion, sentinel),
                     DownloadFilesPlan(metadata) + (fix + FinishPlan(configPath)));
  }

  lemma PreparePlanEvents(restoreVersion: string, sentinel: Backup)
    ensures Flatten(PreparePlan(restoreVersion, sentinel)) ==
      [ DownloadSentinel, DownloadMongodBackupFilesMetadata,
        EnsureCompatibility(restoreVersion, sentinel.mongoMeta.version),
        EnsureMongodFsLockFileIsEmpty, CleanupMongodDBPath ]
  {
    FlattenCalls(PreparePlan(restoreVersion, sentinel));
  }

  lemma DownloadFilesPlanEvents(metadata: MongodBackupFilesMetadata)
    ensures Flatten(DownloadFilesPlan(metadata)) ==
      [EnsureEmptyDBPath, CreateDirectories(metadata.backupDirectories)] + FileEvents(metadata.backupFiles)
  {
    var head := [Call(EnsureEmptyDBPath, []), Call(CreateDirectories(metadata.backupDirectories), [])];
    FlattenAppend(head, TransferPlan(metadata.backupFiles));
    FlattenCalls(head);
    TransferPlanEvents(metadata.backupFiles);
  }

  lemma FixSystemDataPlanEvents(configPath: string, lastWriteTS: Timestamp)
    ensures Flatten(FixSystemDataPlan(configPath, lastWriteTS)) ==
      [ StartMongod(DisableLogicalSessionCacheRefresh, configPath), CreateMongodService(AppName),
        FixSystemDataAfterRestore(lastWriteTS), Shutdown, Wait ]
  {
    FlattenCalls(FixSystemDataPlan(configPath, lastWriteTS));
  }

  lemma FinishPlanEvents(configPath: string)
    ensures Flatten(FinishPlan(configPath)) ==
      [ StartMongod(RecoverFromOplogAsStandalone, configPath), CreateMongodService(AppName),
        Shutdown, Wait, FixFileOwnerOfMongodData ]
  {
    FlattenCalls(FinishPlan(configPath));
  }

  lemma RestorePlanEvents(restoreVersion: string, configPath: string, sentinel: Backup,
                          metadata: MongodBackupFilesMetadata)
    ensures Flatten(RestorePlan(restoreVersion, configPath, sentinel, metadata))
         == SuccessTrace(restoreVersion, configPath, sentinel, metadata)
  {
    var prepare := PreparePlan(restoreVersion, sentinel);
    var download := DownloadFilesPlan(metadata);
    var fix := FixSystemDataPlan(configPath, sentinel.mongoMeta.backupLastTS);
    var finish := FinishPlan(configPath);
    FlattenAppend(prepare, download + (fix + finish));
    FlattenAppend(download, fix + finish);
    FlattenAppend(fix, finish);
    PreparePlanEvents(restoreVersion, sentinel);
    DownloadFilesPlanEvents(metadata);
    FixSystemDataPlanEvents(configPath, sentinel.mongoMeta.backupLastTS);
    FinishPlanEvents(configPath);
  }

  // ---------------------------------------------------------------------------
  // Properties of a restore

  /** A restore returns no error exactly when none of the calls of the success trace
      whose error counts fails, and then it has made exactly those calls. */
  lemma RestoreSucceedsIff(restoreVersion: string, configPath: string, sentinel: Backup,
                           metadata: MongodBackupFilesMetadata, pos: nat, failing: set<nat>)
    ensures var r := Execute(RestorePlan(restoreVersion, configPath, sentinel, metadata), pos, failing);
      var success := SuccessTrace(restoreVersion, configPath, sentinel, metadata);
      (r.err.None? <==> AllSucceed(success, pos, failing)) &&
      (r.err.None? ==> r.events == success)
  {
    RestorePlanWellFormed(restoreVersion, configPath, sentinel, metadata);
    RestorePlanEvents(restoreVersion, configPath, sentinel, metadata);
    ExecuteSucceedsIff(RestorePlan(restoreVersion, configPath, sentinel, metadata), pos, failing);
  }

  /** Every restore makes a prefix of the success trace; a failed one stops at its first
      failing call (after which only the release of a reader can follow) and returns
      that call's error. */
  lemma RestoreStopsAtFirstFailure(restoreVersion: string, configPath: string, sentinel: Backup,
                                   metadata: MongodBackupFilesMetadata, pos: nat, failing: set<nat>)
    ensures var r := Execute(RestorePlan(restoreVersion, configPath, sentinel, metadata), pos, failing);
      r.events <= SuccessTrace(restoreVersion, configPath, sentinel, metadata) &&
      (r.err.Some? ==>
        StoppedAtFirstFailure(r.events, pos, failing) && Root(r.err.value) == r.events[FailedAt(r.events)])
  {
    var plan := RestorePlan(restoreVersion, configPath, sentinel, metadata);
    RestorePlanWellFormed(restoreVersion, configPath, sentinel, metadata);
    RestorePlanEvents(restoreVersion, configPath, sentinel, metadata);
    ExecuteIsPrefix(plan, pos, failing);
    ExecuteStopsAtFirstFailure(plan, pos, failing);
  }

  /** When the compatibility check or the lock-file check fails, the restore returns that
      error and has neither cleaned the data directory, created a directory, saved a file
      nor started mongod. */
  lemma PreconditionFailureStopsRestore(restoreVersion: string, configPath: string, sentinel: Backup,
                                        metadata: MongodBackupFilesMetadata, pos: nat, failing: set<nat>)
    requires pos !in failing && pos + 1 !in failing
    requires pos + 2 in failing || pos + 3 in failing
    ensures var r := Execute(RestorePlan(restoreVersion, configPath, sentinel, metadata), pos, failing);
      var compat := EnsureCompatibility(restoreVersion, sentinel.mongoMeta.version);
      (pos + 2 in failing ==>
         r == Run([DownloadSentinel, DownloadMongodBackupFilesMetadata, compat], Some(Cause(compat)))) &&
      (pos + 2 !in failing ==>
         r == Run([DownloadSentinel, DownloadMongodBackupFilesMetadata, compat, EnsureMongodFsLockFileIsEmpty],
                  Some(Cause(EnsureMongodFsLockFileIsEmpty)))) &&
      (forall e :: e in r.events ==>
         !e.CleanupMongodDBPath? && !e.CreateDirectories? && !e.SaveStreamToMongodFile? && !e.StartMongod?)
  {
    var plan := RestorePlan(restoreVersion, configPath, sentinel, metadata);
    RestorePlanWellFormed(restoreVersion, configPath, sentinel, metadata);
    var n := if pos + 2 in failing then 2 else 3;
    FlattenCalls(plan[..n]);
    assert Flatten(plan[..n]) == if n == 2 then [DownloadSentinel, DownloadMongodBackupFilesMetadata]
      else [DownloadSentinel, DownloadMongodBackupFilesMetadata, EnsureCompatibility(restoreVersion, sentinel.mongoMeta.version)];
    ExecuteAfterPrefix(plan, n, pos, failing);
    assert plan[n..][0] == plan[n];
  }

  /** The steps of a restore before its `i`-th backup file, and the calls they make. */
  lemma RestorePlanBeforeFile(restoreVersion: string, configPath: string, sentinel: Backup,
                              metadata: MongodBackupFilesMetadata, i: nat)
    requires i < |metadata.backupFiles|
    ensures var plan := RestorePlan(restoreVersion, configPath, sentinel, metadata);
      7 + i < |plan| && plan[7 + i] == TransferStep(metadata.backupFiles[i]) &&
      Flatten(plan[..7 + i]) == SuccessTrace(restoreVersion, configPath, sentinel, metadata)[..7 + 3 * i]
  {
    var plan := RestorePlan(restoreVersion, configPath, sentinel, metadata);
    var files := metadata.backupFiles;
    var before := MongodBackupFilesMetadata(metadata.backupDirectories, files[..i]);
    assert plan[..7 + i] == PreparePlan(restoreVersion, sentinel) + DownloadFilesPlan(before);
    FlattenAppend(PreparePlan(restoreVersion, sentinel), DownloadFilesPlan(before));
    PreparePlanEvents(restoreVersion, sentinel);
    DownloadFilesPlanEvents(before);
    FileEventsPrefix(files, i);
  }

  /** When every call before the `i`-th backup file succeeds and that file cannot be opened
      or saved, the restore stops there: it has copied the files before it in manifest
      order, opened no later file, and returns the cause wrapped with the file's path. */
  lemma FileFailureStopsRestore(restoreVersion: string, configPath: string, sentinel: Backup,
                                metadata: MongodBackupFilesMetadata, pos: nat, failing: set<nat>, i: nat)
    requires i < |metadata.backupFiles|
    requires AllSucceed(SuccessTrace(restoreVersion, configPath, sentinel, metadata)[..7 + 3 * i], pos, failing)
    requires pos + 7 + 3 * i in failing || pos + 8 + 3 * i in failing
    ensures var r := Execute(RestorePlan(restoreVersion, configPath, sentinel, metadata), pos, failing);
      var path := metadata.backupFiles[i].path;
      var done := SuccessTrace(restoreVersion, configPath, sentinel, metadata)[..7 + 3 * i];
      (pos + 7 + 3 * i in failing ==>
         r == Run(done + [CreateReader(path)], Some(Wrapped(BadFileMessage(path), Cause(CreateReader(path)))))) &&
      (pos + 7 + 3 * i !in failing ==>
         r == Run(done + [CreateReader(path), SaveStreamToMongodFile(path), CloseReader(path)],
                  Some(Wrapped(BadFileMessage(path), Cause(SaveStreamToMongodFile(path))))))
  {
    var plan := RestorePlan(restoreVersion, configPath, sentinel, metadata);
    RestorePlanWellFormed(restoreVersion, configPath, sentinel, metadata);
    RestorePlanBeforeFile(restoreVersion, configPath, sentinel, metadata, i);
    ExecuteStopsAtScoped(plan, 7 + i, pos, failing);
  }

  /** fixSystemData is the only step that reconciles system data, it does so at most once,
      and always with the last-write timestamp recorded in the backup's sentinel. */
  lemma RestoreFixesSystemDataAtBackupLastTS(restoreVersion: string, configPath: string, sentinel: Backup,
                                             metadata: MongodBackupFilesMetadata, pos: nat, failing: set<nat>)
    ensures var r := Execute(RestorePlan(restoreVersion, configPath, sentinel, metadata), pos, failing);
      (forall k :: 0 <= k < |r.events| && r.events[k].FixSystemDataAfterRestore? ==>
         r.events[k] == FixSystemDataAfterRestore(sentinel.mongoMeta.backupLastTS) &&
         k == 7 + 3 * |metadata.backupFiles| + 2)
  {
    var success := SuccessTrace(restoreVersion, configPath, sentinel, metadata);
    var n := |metadata.backupFiles|;
    RestoreStopsAtFirstFailure(restoreVersion, configPath, sentinel, metadata, pos, failing);
    var r := Execute(RestorePlan(restoreVersion, configPath, sentinel, metadata), pos, failing);
    forall k | 0 <= k < |r.events| && r.events[k].FixSystemDataAfterRestore?
      ensures r.events[k] == FixSystemDataAfterRestore(sentinel.mongoMeta.backupLastTS)
      ensures k == 7 + 3 * n + 2
    {
      assert r.events[k] == success[k];
    }
  }

  /** The result of a restore whose calls before the last all succeed is the result
      of fixing the files' owner. */
  lemma RestoreResultIsFixFileOwner(restoreVersion: string, configPath: string, sentinel: Backup,
                                    metadata: MongodBackupFilesMetadata, pos: nat, failing: set<nat>)
    requires var success := SuccessTrace(restoreVersion, configPath, sentinel, metadata);
      AllSucceed(success[..|success| - 1], pos, failing)
    ensures var r := Execute(RestorePlan(restoreVersion, configPath, sentinel, metadata), pos, failing);
      var success := SuccessTrace(restoreVersion, configPath, sentinel, metadata);
      r.events == success &&
      r.err == (if pos + |success| - 1 in failing then Some(Cause(FixFileOwnerOfMongodData)) else None)
  {
    var plan := RestorePlan(restoreVersion, configPath, sentinel, metadata);
    var success := SuccessTrace(restoreVersion, configPath, sentinel, metadata);
    var last := |plan| - 1;
    RestorePlanWellFormed(restoreVersion, configPath, sentinel, metadata);
    RestorePlanEvents(restoreVersion, configPath, sentinel, metadata);
    assert plan == plan[..last] + [Call(FixFileOwnerOfMongodData, [])];
    FlattenAppend(plan[..last], [Call(FixFileOwnerOfMongodData, [])]);
    assert Flatten([Call(FixFileOwnerOfMongodData, [])]) == [FixFileOwnerOfMongodData];
    assert Flatten(plan[..last]) == success[..|success| - 1];
    ExecuteAfterPrefix(plan, last, pos, failing);
  }

  // ---------------------------------------------------------------------------
  // Properties of the two mongod stages

  /** The run of the first five steps of a restore, call by call. */
  lemma PreparePlanRun(restoreVersion: string, sentinel: Backup, pos: nat, failing: set<nat>)
    ensures Execute(PreparePlan(restoreVersion, sentinel), pos, failing) == PrepareRun(restoreVersion, sentinel, pos, failing)
  {
    var compat := EnsureCompatibility(restoreVersion, sentinel.mongoMeta.version);
    var plan := PreparePlan(restoreVersion, sentinel);
    var t4 := [Call(CleanupMongodDBPath, [])];
    var t3 := [Call(EnsureMongodFsLockFileIsEmpty, [])] + t4;
    var t2 := [Call(compat, [])] + t3;
    var t1 := [Call(DownloadMongodBackupFilesMetadata, [])] + t2;
    // From the last call back to the first.
    var cleanupErr := if pos + 4 in failing then Some(Cause(CleanupMongodDBPath)) else None;
    assert Execute(t4, pos + 4, failing) == Run([CleanupMongodDBPath], cleanupErr) by {
      ExecuteCallThen(t4[0], [], pos + 4, failing);
      assert t4 == [t4[0]] + [];
    }
    assert Execute(t3, pos + 3, failing) ==
      if pos + 3 in failing then Run([EnsureMongodFsLockFileIsEmpty], Some(Cause(EnsureMongodFsLockFileIsEmpty)))
      else Run([EnsureMongodFsLockFileIsEmpty, CleanupMongodDBPath], cleanupErr) by {
      ExecuteCallThen(t3[0], t4, pos + 3, failing);
    }
    assert Execute(t2, pos + 2, failing) ==
      if pos + 2 in failing then Run([compat], Some(Cause(compat)))
      else if pos + 3 in failing then
        Run([compat, EnsureMongodFsLockFileIsEmpty], Some(Cause(EnsureMongodFsLockFileIsEmpty)))
      else Run([compat, EnsureMongodFsLockFileIsEmpty, CleanupMongodDBPath], cleanupErr) by {
      ExecuteCallThen(t2[0], t3, pos + 2, failing);
    }
    assert Execute(t1, pos + 1, failing) ==
      if pos + 1 in failing then Run([DownloadMongodBackupFilesMetadata], Some(Cause(DownloadMongodBackupFilesMetadata)))
      else if pos + 2 in failing then Run([DownloadMongodBackupFilesMetadata, compat], Some(Cause(compat)))
      else if pos + 3 in failing then
        Run([DownloadMongodBackupFilesMetadata, compat, EnsureMongodFsLockFileIsEmpty],
            Some(Cause(EnsureMongodFsLockFileIsEmpty)))
      else Run([DownloadMongodBackupFilesMetadata, compat, EnsureMongodFsLockFileIsEmpty, CleanupMongodDBPath],
               cleanupErr) by {
      ExecuteCallThen(t1[0], t2, pos + 1, failing);
    }
    assert plan == [plan[0]] + t1;
    ExecuteCallThen(plan[0], t1, pos, failing);
  }


  /** The run of downloadFilesFromBackup up to its loop over the files. */
  lemma DownloadFilesPlanRun(metadata: MongodBackupFilesMetadata, pos: nat, failing: set<nat>)
    ensures Execute(DownloadFilesPlan(metadata), pos, failing) == DownloadFilesRun(metadata, pos, failing)
  {
    var t1 := [Call(CreateDirectories(metadata.backupDirectories), [])] + TransferPlan(metadata.backupFiles);
    assert DownloadFilesPlan(metadata) == [Call(EnsureEmptyDBPath, [])] + t1;
    ExecuteCallThen(Call(EnsureEmptyDBPath, []), t1, pos, failing);
    ExecuteCallThen(t1[0], TransferPlan(metadata.backupFiles), pos + 1, failing);
    if pos !in failing && pos + 1 !in failing {
      PrependPrepend([EnsureEmptyDBPath], [t1[0].call], Execute(TransferPlan(metadata.backupFiles), pos + 2, failing));
    }
  }

  /** The run of the files from the `i`-th on: the `i`-th file's reader, then the rest. */
  lemma TransferPlanRun(files: seq<BackupFileMeta>, i: nat, pos: nat, failing: set<nat>)
    requires i < |files|
    ensures Execute(TransferPlan(files[i..]), pos, failing) ==
      var path := files[i].path;
      if pos in failing then
        Run([CreateReader(path)], Some(Wrapped(BadFileMessage(path), Cause(CreateReader(path)))))
      else if pos + 1 in failing then
        Run([CreateReader(path), SaveStreamToMongodFile(path), CloseReader(path)],
            Some(Wrapped(BadFileMessage(path), Cause(SaveStreamToMongodFile(path)))))
      else
        Prepend([CreateReader(path), SaveStreamToMongodFile(path), CloseReader(path)],
                Execute(TransferPlan(files[i + 1..]), pos + 3, failing))
  {
    assert TransferPlan(files[i..]) == [TransferStep(files[i])] + TransferPlan(files[i + 1..]);
    ExecuteScopedThen(TransferStep(files[i]), TransferPlan(files[i + 1..]), pos, failing);
  }

  /** The run of fixSystemData, call by call. */
  lemma FixSystemDataPlanRun(configPath: string, lastWriteTS: Timestamp, pos: nat, failing: set<nat>)
    ensures Execute(FixSystemDataPlan(configPath, lastWriteTS), pos, failing) ==
            FixSystemDataRun(configPath, lastWriteTS, pos, failing)
  {
    var start := StartMongod(DisableLogicalSessionCacheRefresh, configPath);
    var service := CreateMongodService(AppName);
    var fix := FixSystemDataAfterRestore(lastWriteTS);
    var plan := FixSystemDataPlan(configPath, lastWriteTS);
    var t4 := [Call(Wait, [])];
    var t3 := [Call(Shutdown, [])] + t4;
    var t2 := [Call(fix, [])] + t3;
    var t1 := [Call(service, [ServiceFailedMessage])] + t2;
    // From the last call back to the first.
    var waitErr := if pos + 4 in failing then Some(Cause(Wait)) else None;
    assert Execute(t4, pos + 4, failing) == Run([Wait], waitErr) by {
      ExecuteCallThen(t4[0], [], pos + 4, failing);
      assert t4 == [t4[0]] + [];
    }
    assert Execute(t3, pos + 3, failing) ==
      if pos + 3 in failing then Run([Shutdown], Some(Cause(Shutdown))) else Run([Shutdown, Wait], waitErr) by {
      ExecuteCallThen(t3[0], t4, pos + 3, failing);
    }
    assert Execute(t2, pos + 2, failing) ==
      if pos + 2 in failing then Run([fix], Some(Cause(fix)))
      else if pos + 3 in failing then Run([fix, Shutdown], Some(Cause(Shutdown)))
      else Run([fix, Shutdown, Wait], waitErr) by {
      ExecuteCallThen(t2[0], t3, pos + 2, failing);
    }
    assert Execute(t1, pos + 1, failing) ==
      if pos + 1 in failing then Run([service], Some(Wrapped(ServiceFailedMessage, Cause(service))))
      else if pos + 2 in failing then Run([service, fix], Some(Cause(fix)))
      else if pos + 3 in failing then Run([service, fix, Shutdown], Some(Cause(Shutdown)))
      else Run([service, fix, Shutdown, Wait], waitErr) by {
      ExecuteCallThen(t1[0], t2, pos + 1, failing);
    }
    assert plan == [plan[0]] + t1;
    ExecuteCallThen(plan[0], t1, pos, failing);
  }


  /** The run of recoverFromOplogAsStandalone, call by call. */
  lemma RecoverPlanRun(configPath: string, pos: nat, failing: set<nat>)
    ensures Execute(RecoverPlan(configPath), pos, failing) == RecoverRun(configPath, pos, failing)
  {
    var start := StartMongod(RecoverFromOplogAsStandalone, configPath);
    var service := CreateMongodService(AppName);
    var plan := RecoverPlan(configPath);
    var t3 := [Call(Wait, [])];
    var t2 := [Call(Shutdown, [])] + t3;
    var t1 := [Call(service, [ServiceFailedMessage])] + t2;
    // From the last call back to the first.
    var waitErr := if pos + 3 in failing then Some(Cause(Wait)) else None;
    assert Execute(t3, pos + 3, failing) == Run([Wait], waitErr) by {
      ExecuteCallThen(t3[0], [], pos + 3, failing);
      assert t3 == [t3[0]] + [];
    }
    assert Execute(t2, pos + 2, failing) ==
      if pos + 2 in failing then Run([Shutdown], Some(Cause(Shutdown))) else Run([Shutdown, Wait], waitErr) by {
      ExecuteCallThen(t2[0], t3, pos + 2, failing);
    }
    assert Execute(t1, pos + 1, failing) ==
      if pos + 1 in failing then Run([service], Some(Wrapped(ServiceFailedMessage, Cause(service))))
      else if pos + 2 in failing then Run([service, Shutdown], Some(Cause(Shutdown)))
      else Run([service, Shutdown, Wait], waitErr) by {
      ExecuteCallThen(t1[0], t2, pos + 1, failing);
    }
    assert plan == [plan[0]] + t1;
    ExecuteCallThen(plan[0], t1, pos, failing);
  }


  /** fixSystemData: a failed start is reported as such and creates no service; a failed
      service creation is reported as such. */
  lemma FixSystemDataStartOrServiceFails(configPath: string, lastWriteTS: Timestamp, pos: nat, failing: set<nat>)
    ensures var r := Execute(FixSystemDataPlan(configPath, lastWriteTS), pos, failing);
      var start := StartMongod(DisableLogicalSessionCacheRefresh, configPath);
      var service := CreateMongodService(AppName);
      (pos in failing ==> r == Run([start], Some(Wrapped(StartFailedMessage, Cause(start))))) &&
      (pos !in failing && pos + 1 in failing ==>
         r == Run([start, service], Some(Wrapped(ServiceFailedMessage, Cause(service)))))
  {
    FixSystemDataPlanRun(configPath, lastWriteTS, pos, failing);
  }

  /** fixSystemData: Wait is called exactly when every call before it, Shutdown included,
      returned no error, and then the stage returns Wait's result; the system data are
      fixed with the timestamp the stage was given. */
  lemma FixSystemDataWaitsAfterShutdown(configPath: string, lastWriteTS: Timestamp, pos: nat, failing: set<nat>)
    ensures var r := Execute(FixSystemDataPlan(configPath, lastWriteTS), pos, failing);
      var start := StartMongod(DisableLogicalSessionCacheRefresh, configPath);
      (Wait in r.events <==> pos !in failing && pos + 1 !in failing && pos + 2 !in failing && pos + 3 !in failing) &&
      (Wait in r.events ==>
         r.events == [start, CreateMongodService(AppName), FixSystemDataAfterRestore(lastWriteTS), Shutdown, Wait] &&
         r.err == (if pos + 4 in failing then Some(Cause(Wait)) else None)) &&
      (forall e :: e in r.events && e.FixSystemDataAfterRestore? ==> e.lastWriteTS == lastWriteTS)
  {
    FixSystemDataPlanRun(configPath, lastWriteTS, pos, failing);
  }

  /** recoverFromOplogAsStandalone: a failed start is reported as such and creates no
      service; a failed service creation is reported as such. */
  lemma RecoverStartOrServiceFails(configPath: string, pos: nat, failing: set<nat>)
    ensures var r := Execute(RecoverPlan(configPath), pos, failing);
      var start := StartMongod(RecoverFromOplogAsStandalone, configPath);
      var service := CreateMongodService(AppName);
      (pos in failing ==> r == Run([start], Some(Wrapped(StartFailedMessage, Cause(start))))) &&
      (pos !in failing && pos + 1 in failing ==>
         r == Run([start, service], Some(Wrapped(ServiceFailedMessage, Cause(service)))))
  {
    RecoverPlanRun(configPath, pos, failing);
  }

  /** recoverFromOplogAsStandalone: Wait is called exactly when every call before it,
      Shutdown included, returned no error, and then the stage returns Wait's result;
      the stage never reconciles system data. */
  lemma RecoverWaitsAfterShutdown(configPath: string, pos: nat, failing: set<nat>)
    ensures var r := Execute(RecoverPlan(configPath), pos, failing);
      var start := StartMongod(RecoverFromOplogAsStandalone, configPath);
      (Wait in r.events <==> pos !in failing && pos + 1 !in failing && pos + 2 !in failing) &&
      (Wait in r.events ==>
         r.events == [start, CreateMongodService(AppName), Shutdown, Wait] &&
         r.err == (if pos + 3 in failing then Some(Cause(Wait)) else None)) &&
      (forall e :: e in r.events ==> !e.FixSystemDataAfterRestore?)
  {
    RecoverPlanRun(configPath, pos, failing);
  }
}
