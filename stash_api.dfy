/** The Stash API records the restic wrapper and the metrics code exchange:
    host and snapshot statistics, target references, and the option structs
    of the restic package.  Go pointers that may be nil are `Option`s.
 */
module StashApi {
  import opened Wrappers

  datatype FileStats = FileStats(
    totalFiles: Option<int>,
    newFiles: Option<int>,
    modifiedFiles: Option<int>,
    unmodifiedFiles: Option<int>)

  datatype SnapshotStats = SnapshotStats(
    name: string,
    directory: string,
    size: string,
    uploaded: string,
    processingTime: string,
    fileStats: FileStats)

  /** `HostBackupPhase`; `PhaseUnset` is Go's zero value "". */
  datatype HostBackupPhase = PhaseUnset | HostBackupSucceeded | HostBackupFailed

  datatype HostBackupStats = HostBackupStats(
    hostname: string,
    phase: HostBackupPhase,
    snapshots: seq<SnapshotStats>,
    duration: string,
    error: string)

  function SnapshotName(s: SnapshotStats): string { s.name }

  function HostnameOf(h: HostBackupStats): string { h.hostname }

  datatype TargetRef = TargetRef(apiVersion: string, kind: string, name: string)

  /** Phase value shared by sessions, targets and restores that succeeded. */
  const PhaseSucceeded := "Succeeded"

  /** A target's status within a backup session; Go's `*int32` host count
      may be nil. */
  datatype BackupTargetStatus = BackupTargetStatus(
    ref: TargetRef,
    phase: string,
    totalHosts: Option<int>,
    stats: seq<HostBackupStats>)

  datatype HostRestoreStats = HostRestoreStats(
    hostname: string,
    phase: string,
    duration: string,
    error: string)

  datatype RestoreTargetStatus = RestoreTargetStatus(
    ref: TargetRef,
    phase: string,
    totalHosts: Option<int>,
    stats: seq<HostRestoreStats>)

  datatype RepositoryStats = RepositoryStats(
    integrity: Option<bool>,
    size: string,
    snapshotCount: int,
    snapshotsRemovedOnLastCleanup: int)

  // ---- options of the restic package ---------------------------------------

  /** An external command and its argv after the program name. */
  datatype Command = Command(name: string, args: seq<string>)

  const NoCommand := Command("", [])

  datatype RetentionPolicy = RetentionPolicy(
    keepLast: int, keepHourly: int, keepDaily: int, keepWeekly: int,
    keepMonthly: int, keepYearly: int, keepTags: seq<string>,
    prune: bool, dryRun: bool)

  const NoRetention := RetentionPolicy(0, 0, 0, 0, 0, 0, [], false, false)

  /** If `stdinPipeCommand` has a name, `backupPaths` is not used. */
  datatype BackupOptions = BackupOptions(
    host: string,
    backupPaths: seq<string>,
    stdinPipeCommand: Command,
    stdinFileName: string,
    retentionPolicy: RetentionPolicy)

  datatype DumpOptions = DumpOptions(
    host: string,
    sourceHost: string,
    snapshot: string,
    path: string,
    fileName: string,
    stdoutPipeCommand: Command)

  /** `NiceSettings` / `IONiceSettings` of the offshoot API, read from the environment. */
  datatype NiceSettings = NiceSettings(adjustment: Option<int>)
  datatype IONiceSettings = IONiceSettings(ioClass: Option<int>, classData: Option<int>)

  datatype SetupOptions = SetupOptions(
    provider: string,
    bucket: string,
    endpoint: string,
    path: string,
    secretDir: string,
    cacertFile: string,
    scratchDir: string,
    enableCache: bool,
    maxConnections: int,
    nice: Option<NiceSettings>,
    ioNice: Option<IONiceSettings>)

  datatype MetricsOptions = MetricsOptions(
    enabled: bool,
    pushgatewayURL: string,
    metricFileDir: string,
    labels: seq<string>,
    jobName: string)

  /** A file the program writes: directory, file name and content. */
  datatype FileWrite = FileWrite(dir: string, name: string, content: string)
}
