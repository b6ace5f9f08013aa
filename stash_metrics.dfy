/** The metrics code of Stash's own restic package: the labels of a
    BackupConfiguration or RestoreSession and the gauges both
    `HandleMetrics` register after a backup or a restore.  What the
    Kubernetes API returns (the target's AppBinding, the repository) is an
    input.
 */
module StashMetrics {
  import opened Wrappers
  import opened StashApi
  import opened Metrics
  import ResticBackup

  const BackupSetupSuccess := "stash_backup_setup_success"
  const BackupSessionSuccess := "stash_backup_session_success"
  const BackupSessionDuration := "stash_backup_session_duration_total_seconds"
  const BackupDataSize := "stash_backup_data_size_bytes"
  const BackupDataUploaded := "stash_backup_data_uploaded_bytes"
  const BackupDataProcessingTime := "stash_backup_data_processing_time_seconds"
  const BackupFilesTotal := "stash_backup_files_total"
  const BackupFilesNew := "stash_backup_files_new"
  const BackupFilesModified := "stash_backup_files_modified"
  const BackupFilesUnmodified := "stash_backup_files_unmodified"
  const RestoreSessionSuccess := "stash_restore_session_success"
  const RestoreSessionDuration := "stash_restore_session_duration_total_seconds"

  const InvalidBackupOutput := "invalid backup output"
  const InvalidRestoreOutput := "invalid restore output"

  /** The fields of a BackupConfiguration or RestoreSession the labels use:
      namespace, driver, the target reference when there is a target, and
      the repository name. */
  datatype ConfigRef = ConfigRef(namespace: string, driver: string, target: Option<TargetRef>, repository: string)

  /** `RestoreOutput`, reduced to what `HandleMetrics` reads. */
  datatype RestoreOutput = RestoreOutput(hostRestoreStats: seq<HostRestoreStats>)

  // ---- labels -----------------------------------------------------------------

  /** `backupMetricLabels` (and `restoreMetricLabels`, the same code over a
      RestoreSession): without a configuration, the user's labels; otherwise
      the driver labels, the target's labels and the repository for the
      Restic driver, and the namespace set last.  A target whose labels
      cannot be read is the error. */
  function MetricLabels(cfg: Option<ConfigRef>, userLabels: seq<string>, app: AppLookup): (r: Result<Labels>)
    ensures cfg.None? ==> r == Ok(ParseUserProvidedLabels(userLabels))
    ensures !r.Panic?
    ensures cfg.Some? && r.Ok? ==> LabelNamespace in r.value && r.value[LabelNamespace] == cfg.value.namespace
    ensures cfg.Some? && cfg.value.driver == VolumeSnapshotter ==>
      r.Ok? && LabelDriver in r.value && r.value[LabelDriver] == VolumeSnapshotter &&
      LabelKind in r.value && r.value[LabelKind] == KindPersistentVolumeClaim &&
      LabelAppGroup in r.value && r.value[LabelAppGroup] == CoreGroupName
    ensures cfg.Some? && cfg.value.driver != VolumeSnapshotter ==>
      (r.Ok? <==> cfg.value.target.None? || TargetLabels(cfg.value.target.value, app, false).Ok?) &&
      (r.Err? ==> r.error == TargetLabels(cfg.value.target.value, app, false).error)
    ensures cfg.Some? && cfg.value.driver != VolumeSnapshotter && r.Ok? ==>
      LabelDriver in r.value && r.value[LabelDriver] == ResticSnapshotter &&
      LabelRepository in r.value && r.value[LabelRepository] == cfg.value.repository
    ensures cfg.Some? && cfg.value.driver != VolumeSnapshotter && cfg.value.target.Some? && r.Ok? ==>
      var tl := TargetLabels(cfg.value.target.value, app, false).value;
      forall k :: k in tl ==> k in r.value && r.value[k] == tl[k]
    ensures cfg.Some? && r.Ok? ==> forall k :: k in ParseUserProvidedLabels(userLabels) ==> k in r.value
  {
    var promLabels := ParseUserProvidedLabels(userLabels);
    if cfg.None? then Ok(promLabels)
    else
      var c := cfg.value;
      if c.driver == VolumeSnapshotter then
        Ok(UpsertLabel(promLabels, VolumeSnapshotterLabels())[LabelNamespace := c.namespace])
      else
        var promLabels := promLabels[LabelDriver := ResticSnapshotter];
        var withTarget :=
          if c.target.None? then Ok(promLabels)
          else
            match TargetLabels(c.target.value, app, false)
            case Ok(tl) => Ok(UpsertLabel(promLabels, tl))
            case Err(e) => Err(e)
            case Panic(p) => Panic(p);
        match withTarget
        case Ok(l) => Ok(l[LabelRepository := c.repository][LabelNamespace := c.namespace])
        case Err(e) => Err(e)
        case Panic(p) => Panic(p)
  }

  /** `repoMetricLabels`: the user's labels, with the repository's when the
      configuration has a target; reading the repository can fail. */
  function RepoMetricLabels(cfg: Option<ConfigRef>, userLabels: seq<string>, repo: Result<RepoBackend>): (r: Result<Labels>)
    ensures !(cfg.Some? && cfg.value.target.Some?) ==> r == Ok(ParseUserProvidedLabels(userLabels))
    ensures cfg.Some? && cfg.value.target.Some? ==>
      (r.Ok? <==> repo.Ok?) && (!repo.Ok? ==> r == Err(repo.Message()))
    ensures cfg.Some? && cfg.value.target.Some? && r.Ok? ==>
      LabelName in r.value && r.value[LabelName] == repo.value.name &&
      LabelNamespace in r.value && r.value[LabelNamespace] == repo.value.namespace
  {
    var promLabels := ParseUserProvidedLabels(userLabels);
    if cfg.Some? && cfg.value.target.Some? then
      if repo.Ok? then Ok(RepositoryLabels(promLabels, repo.value)) else Err(repo.Message())
    else Ok(promLabels)
  }

  // ---- backup setup -----------------------------------------------------------

  /** `HandleBackupSetupMetrics`: one gauge, 1 when the setup succeeded and
      0 when it failed. */
  method HandleBackupSetupMetrics(cfg: Option<ConfigRef>, opt: MetricsOptions, app: AppLookup,
                                  setupErr: Option<string>, io: PushIO) returns (report: Report)
    ensures !MetricLabels(cfg, opt.labels, app).Ok? ==> report == Aborted(MetricLabels(cfg, opt.labels, app).Message())
    ensures MetricLabels(cfg, opt.labels, app).Ok? ==>
      report.Sent? && report.sendErr == SendMetrics(opt, io) && |report.gauges| == 1 &&
      report.gauges[0].name == BackupSetupSuccess &&
      report.gauges[0].labels == MetricLabels(cfg, opt.labels, app).value &&
      (report.gauges[0].value == Count(1) <==> setupErr.None?) &&
      (report.gauges[0].value == Count(0) <==> setupErr.Some?)
  {
    var labels := MetricLabels(cfg, opt.labels, app);
    if !labels.Ok? {
      return Aborted(labels.Message());
    }
    var registry := [Flag(BackupSetupSuccess, labels.value, setupErr.None?)];
    report := Sent(registry, SendMetrics(opt, io));
  }

  // ---- backup -----------------------------------------------------------------

  /** The nine gauges registered for every host, in order.  A host counts as
      backed up only when the backup as a whole and the host both report no
      error; then its values are set (or their computation fails), and
      otherwise only the success gauge is set, to 0. */
  function BackupHostGauges(labels: Labels, h: HostBackupStats, backupErr: Option<string>, conv: Converters)
    : (r: Result<seq<Gauge>>)
    ensures backupErr.Some? || h.error != "" ==> r.Ok?
    ensures backupErr.None? && h.error == "" ==>
      (r.Ok? <==> SetValuesOutcome(h, conv).Ok?) &&
      (r.Err? ==> SetValuesOutcome(h, conv) == Err(r.error)) &&
      (r.Panic? ==> SetValuesOutcome(h, conv) == Panic(r.reason))
    ensures r.Ok? ==>
      Names(r.value) == [BackupSessionSuccess, BackupSessionDuration, BackupFilesTotal, BackupFilesNew,
                         BackupFilesModified, BackupFilesUnmodified, BackupDataSize, BackupDataUploaded,
                         BackupDataProcessingTime] &&
      r.value[0] == Flag(BackupSessionSuccess, HostLabels(labels, h.hostname), backupErr.None? && h.error == "") &&
      forall g :: g in r.value ==> g.labels == HostLabels(labels, h.hostname)
    ensures r.Ok? && (backupErr.Some? || h.error != "") ==> forall i :: 1 <= i < 9 ==> r.value[i].value == Unset
    ensures r.Ok? && backupErr.None? && h.error == "" ==>
      var t := SetValuesOutcome(h, conv).value;
      r.value[2].value == Count(t.totalFiles) && r.value[3].value == Count(t.newFiles) &&
      r.value[4].value == Count(t.modifiedFiles) && r.value[5].value == Count(t.unmodifiedFiles)
  {
    var hl := HostLabels(labels, h.hostname);
    if backupErr.None? && h.error == "" then
      match SetValuesOutcome(h, conv)
      case Ok(t) => Ok(HostValueGauges(hl, Some(t)))
      case Err(e) => Err(e)
      case Panic(p) => Panic(p)
    else Ok(HostValueGauges(hl, None))
  }

  /** A host's nine gauges, with the file totals when they were computed
      and everything but the 0 success flag unset when they were not. */
  function HostValueGauges(hl: Labels, totals: Option<FileTotals>): (gauges: seq<Gauge>)
    ensures Names(gauges) == [BackupSessionSuccess, BackupSessionDuration, BackupFilesTotal, BackupFilesNew,
                              BackupFilesModified, BackupFilesUnmodified, BackupDataSize, BackupDataUploaded,
                              BackupDataProcessingTime]
    ensures gauges[0] == Flag(BackupSessionSuccess, hl, totals.Some?)
    ensures totals.None? ==> forall i :: 1 <= i < 9 ==> gauges[i].value == Unset
    ensures totals.Some? ==>
      gauges[1].value == Measured &&
      gauges[2].value == Count(totals.value.totalFiles) && gauges[3].value == Count(totals.value.newFiles) &&
      gauges[4].value == Count(totals.value.modifiedFiles) && gauges[5].value == Count(totals.value.unmodifiedFiles) &&
      gauges[6].value == Measured && gauges[7].value == Measured && gauges[8].value == Measured
    ensures forall g :: g in gauges ==> g.labels == hl
  {
    match totals
    case Some(t) =>
      [Flag(BackupSessionSuccess, hl, true), Gauge(BackupSessionDuration, hl, Measured),
       Gauge(BackupFilesTotal, hl, Count(t.totalFiles)), Gauge(BackupFilesNew, hl, Count(t.newFiles)),
       Gauge(BackupFilesModified, hl, Count(t.modifiedFiles)), Gauge(BackupFilesUnmodified, hl, Count(t.unmodifiedFiles)),
       Gauge(BackupDataSize, hl, Measured), Gauge(BackupDataUploaded, hl, Measured),
       Gauge(BackupDataProcessingTime, hl, Measured)]
    case None =>
      [Flag(BackupSessionSuccess, hl, false), Gauge(BackupSessionDuration, hl, Unset),
       Gauge(BackupFilesTotal, hl, Unset), Gauge(BackupFilesNew, hl, Unset),
       Gauge(BackupFilesModified, hl, Unset), Gauge(BackupFilesUnmodified, hl, Unset),
       Gauge(BackupDataSize, hl, Unset), Gauge(BackupDataUploaded, hl, Unset),
       Gauge(BackupDataProcessingTime, hl, Unset)]
  }

  function BackupHostGaugesOf(labels: Labels, backupErr: Option<string>, conv: Converters)
    : HostBackupStats -> Result<seq<Gauge>>
  {
    h => BackupHostGauges(labels, h, backupErr, conv)
  }

  /** `setValues` of the repository gauges.  `Integrity` is dereferenced
      without a check: a repository whose integrity was never checked makes
      it panic. */
  function RepositoryGauges(labels: Labels, repoStats: RepositoryStats, conv: Converters): (r: Result<seq<Gauge>>)
    ensures repoStats.integrity.None? <==> r.Panic?
    ensures r.Panic? ==> r.reason == NilDereference
    ensures r.Err? <==> repoStats.integrity.Some? && conv.sizeToBytes(repoStats.size).Some?
    ensures r.Err? ==> r.error == conv.sizeToBytes(repoStats.size).value
    ensures r.Ok? ==>
      Names(r.value) == [RepoIntegrity, RepoSize, RepoSnapshotCount, RepoSnapshotCleaned] &&
      r.value[0].value == Count(if repoStats.integrity.value then 1 else 0) &&
      r.value[1].value == Measured &&
      r.value[2].value == Count(repoStats.snapshotCount) &&
      r.value[3].value == Count(repoStats.snapshotsRemovedOnLastCleanup) &&
      forall g :: g in r.value ==> g.labels == labels
  {
    if repoStats.integrity.None? then Panic(NilDereference)
    else
      var integrity := if repoStats.integrity.value then 1 else 0;
      var sizeErr := conv.sizeToBytes(repoStats.size);
      if sizeErr.Some? then Err(sizeErr.value)
      else Ok([Gauge(RepoIntegrity, labels, Count(integrity)), Gauge(RepoSize, labels, Measured),
               Gauge(RepoSnapshotCount, labels, Count(repoStats.snapshotCount)),
               Gauge(RepoSnapshotCleaned, labels, Count(repoStats.snapshotsRemovedOnLastCleanup))])
  }

  /** Everything backup `HandleMetrics` registers for an existing output:
      the hosts' gauges, then the repository's, each step's failure ending
      it. */
  function BackupGauges(labels: Labels, hosts: seq<HostBackupStats>, repoStats: RepositoryStats,
                        backupErr: Option<string>, repoLabels: Result<Labels>, conv: Converters): Result<seq<Gauge>>
  {
    match GaugesFrom([], hosts, BackupHostGaugesOf(labels, backupErr, conv))
    case Ok(hostGauges) =>
      (match repoLabels
       case Ok(rl) =>
         (match RepositoryGauges(rl, repoStats, conv)
          case Ok(repoGauges) => Ok(hostGauges + repoGauges)
          case Err(e) => Err(e)
          case Panic(p) => Panic(p))
       case Err(e) => Err(e)
       case Panic(p) => Panic(p))
    case Err(e) => Err(e)
    case Panic(p) => Panic(p)
  }

  /** Backup `HandleMetrics`.  Without an output only a failed backup is
      reported (session success 0); with one, every host's nine gauges and
      then the four repository gauges. */
  method HandleBackupMetrics(output: ResticBackup.BackupOutput?, cfg: Option<ConfigRef>, opt: MetricsOptions,
                             app: AppLookup, repo: Result<RepoBackend>, backupErr: Option<string>,
                             conv: Converters, io: PushIO) returns (report: Report)
    ensures !MetricLabels(cfg, opt.labels, app).Ok? ==> report == Aborted(MetricLabels(cfg, opt.labels, app).Message())
    ensures MetricLabels(cfg, opt.labels, app).Ok? && output == null ==>
      report == if backupErr.Some?
                then Sent([Flag(BackupSessionSuccess, MetricLabels(cfg, opt.labels, app).value, false)], SendMetrics(opt, io))
                else Aborted(InvalidBackupOutput)
    ensures MetricLabels(cfg, opt.labels, app).Ok? && output != null ==>
      report == ReportOf(BackupGauges(MetricLabels(cfg, opt.labels, app).value, output.hostBackupStats,
                                      output.repositoryStats, backupErr, RepoMetricLabels(cfg, opt.labels, repo), conv),
                         opt, io)
  {
    var metricLabels := MetricLabels(cfg, opt.labels, app);
    if !metricLabels.Ok? {
      return Aborted(metricLabels.Message());
    }
    var labels := metricLabels.value;
    if output == null {
      if backupErr.Some? {
        var registry := [Flag(BackupSessionSuccess, labels, false)];
        return Sent(registry, SendMetrics(opt, io));
      }
      return Aborted(InvalidBackupOutput);
    }
    var hosts := output.hostBackupStats;
    ghost var per := BackupHostGaugesOf(labels, backupErr, conv);
    var registry: seq<Gauge> := [];
    var i := 0;
    while i < |hosts|
      invariant 0 <= i <= |hosts|
      invariant GaugesFrom(registry, hosts[i..], per) == GaugesFrom([], hosts, per)
    {
      var hostStats := hosts[i];
      assert hosts[i..][0] == hostStats && hosts[i..][1..] == hosts[i + 1..];
      var hl := HostLabels(labels, hostStats.hostname);
      var totals: Option<FileTotals> := None;
      if backupErr.None? && hostStats.error == "" {
        var values := HostValues(hostStats, conv);
        if values.Err? {
          return Aborted(values.error);
        }
        if values.Panic? {
          return Crashed(values.reason);
        }
        totals := Some(values.value);
      }
      registry := registry + HostValueGauges(hl, totals);
      i := i + 1;
    }
    assert hosts[i..] == [];
    var repoLabels := RepoMetricLabels(cfg, opt.labels, repo);
    if !repoLabels.Ok? {
      return Aborted(repoLabels.Message());
    }
    var repoGauges := RepositoryGauges(repoLabels.value, output.repositoryStats, conv);
    if repoGauges.Err? {
      return Aborted(repoGauges.error);
    }
    if repoGauges.Panic? {
      return Crashed(repoGauges.reason);
    }
    report := Sent(registry + repoGauges.value, SendMetrics(opt, io));
  }

  /** A sent backup report holds nine gauges per host and four for the
      repository, and every host's success gauge is 0 when the backup
      failed. */
  lemma BackupGaugesShape(labels: Labels, hosts: seq<HostBackupStats>, repoStats: RepositoryStats,
                          backupErr: Option<string>, repoLabels: Result<Labels>, conv: Converters)
    requires BackupGauges(labels, hosts, repoStats, backupErr, repoLabels, conv).Ok?
    ensures |BackupGauges(labels, hosts, repoStats, backupErr, repoLabels, conv).value| == 9 * |hosts| + 4
    ensures backupErr.Some? ==> forall i :: 0 <= i < |hosts| ==>
      BackupGauges(labels, hosts, repoStats, backupErr, repoLabels, conv).value[9 * i] ==
        Flag(BackupSessionSuccess, HostLabels(labels, hosts[i].hostname), false)
  {
    var hostGauges := GaugesFrom([], hosts, BackupHostGaugesOf(labels, backupErr, conv));
    assert hostGauges.Ok? && repoLabels.Ok?;
    var repoGauges := RepositoryGauges(repoLabels.value, repoStats, conv);
    assert repoGauges.Ok?;
    assert |Names(repoGauges.value)| == |repoGauges.value| == 4;
    BackupHostsShape(labels, hosts, backupErr, conv);
    assert BackupGauges(labels, hosts, repoStats, backupErr, repoLabels, conv).value == hostGauges.value + repoGauges.value;
  }

  /** The hosts' part of a backup report: nine gauges per host, each host's
      success gauge first and 0 when the backup failed. */
  lemma BackupHostsShape(labels: Labels, hosts: seq<HostBackupStats>, backupErr: Option<string>, conv: Converters)
    requires GaugesFrom([], hosts, BackupHostGaugesOf(labels, backupErr, conv)).Ok?
    ensures |GaugesFrom([], hosts, BackupHostGaugesOf(labels, backupErr, conv)).value| == 9 * |hosts|
    ensures backupErr.Some? ==> forall i :: 0 <= i < |hosts| ==>
      GaugesFrom([], hosts, BackupHostGaugesOf(labels, backupErr, conv)).value[9 * i] ==
        Flag(BackupSessionSuccess, HostLabels(labels, hosts[i].hostname), false)
  {
    var per := BackupHostGaugesOf(labels, backupErr, conv);
    GaugesFromAll([], hosts, per);
    forall i | 0 <= i < |hosts| ensures per(hosts[i]).Ok? && |per(hosts[i]).value| == 9 {
      assert |Names(per(hosts[i]).value)| == |per(hosts[i]).value|;
    }
    AllGaugesUniform(hosts, per, 9);
    if backupErr.Some? {
      forall i | 0 <= i < |hosts|
        ensures AllGauges(hosts, per)[9 * i] == Flag(BackupSessionSuccess, HostLabels(labels, hosts[i].hostname), false)
      {
        AllGaugesAt(hosts, per, 9, i);
      }
    }
  }

  // ---- restore ----------------------------------------------------------------

  /** The two gauges registered for every restored host: the duration, set
      only when restore and host succeeded, then the success flag. */
  function RestoreHostGauges(labels: Labels, h: HostRestoreStats, restoreErr: Option<string>, conv: Converters)
    : (r: Result<seq<Gauge>>)
    ensures !r.Panic?
    ensures r.Err? <==> restoreErr.None? && h.error == "" && conv.parseDuration(h.duration).Some?
    ensures r.Err? ==> r.error == conv.parseDuration(h.duration).value
    ensures r.Ok? ==>
      Names(r.value) == [RestoreSessionDuration, RestoreSessionSuccess] &&
      r.value[1] == Flag(RestoreSessionSuccess, HostLabels(labels, h.hostname), restoreErr.None? && h.error == "") &&
      r.value[0].value == (if restoreErr.None? && h.error == "" then Measured else Unset) &&
      r.value[0].labels == HostLabels(labels, h.hostname)
  {
    var hl := HostLabels(labels, h.hostname);
    if restoreErr.None? && h.error == "" then
      if conv.parseDuration(h.duration).Some? then Err(conv.parseDuration(h.duration).value)
      else Ok([Gauge(RestoreSessionDuration, hl, Measured), Flag(RestoreSessionSuccess, hl, true)])
    else Ok([Gauge(RestoreSessionDuration, hl, Unset), Flag(RestoreSessionSuccess, hl, false)])
  }

  function RestoreHostGaugesOf(labels: Labels, restoreErr: Option<string>, conv: Converters)
    : HostRestoreStats -> Result<seq<Gauge>>
  {
    h => RestoreHostGauges(labels, h, restoreErr, conv)
  }

  /** Restore `HandleMetrics`: the nil-output rules of backup, then two
      gauges per host. */
  method HandleRestoreMetrics(output: Option<RestoreOutput>, cfg: Option<ConfigRef>, opt: MetricsOptions,
                              app: AppLookup, restoreErr: Option<string>, conv: Converters, io: PushIO)
    returns (report: Report)
    ensures !MetricLabels(cfg, opt.labels, app).Ok? ==> report == Aborted(MetricLabels(cfg, opt.labels, app).Message())
    ensures MetricLabels(cfg, opt.labels, app).Ok? && output.None? ==>
      report == if restoreErr.Some?
                then Sent([Flag(RestoreSessionSuccess, MetricLabels(cfg, opt.labels, app).value, false)], SendMetrics(opt, io))
                else Aborted(InvalidRestoreOutput)
    ensures MetricLabels(cfg, opt.labels, app).Ok? && output.Some? ==>
      report == ReportOf(GaugesFrom([], output.value.hostRestoreStats,
                                    RestoreHostGaugesOf(MetricLabels(cfg, opt.labels, app).value, restoreErr, conv)),
                         opt, io)
  {
    var metricLabels := MetricLabels(cfg, opt.labels, app);
    if !metricLabels.Ok? {
      return Aborted(metricLabels.Message());
    }
    var labels := metricLabels.value;
    if output.None? {
      if restoreErr.Some? {
        var registry := [Flag(RestoreSessionSuccess, labels, false)];
        return Sent(registry, SendMetrics(opt, io));
      }
      return Aborted(InvalidRestoreOutput);
    }
    var gauges := CollectGauges(output.value.hostRestoreStats, RestoreHostGaugesOf(labels, restoreErr, conv));
    if gauges.Err? {
      return Aborted(gauges.error);
    }
    if gauges.Panic? {
      return Crashed(gauges.reason);
    }
    report := Sent(gauges.value, SendMetrics(opt, io));
  }

  /** A sent restore report holds two gauges per host. */
  lemma RestoreGaugesCount(labels: Labels, hosts: seq<HostRestoreStats>, restoreErr: Option<string>, conv: Converters)
    requires GaugesFrom([], hosts, RestoreHostGaugesOf(labels, restoreErr, conv)).Ok?
    ensures |GaugesFrom([], hosts, RestoreHostGaugesOf(labels, restoreErr, conv)).value| == 2 * |hosts|
  {
    var per := RestoreHostGaugesOf(labels, restoreErr, conv);
    GaugesFromAll([], hosts, per);
    forall i | 0 <= i < |hosts| ensures per(hosts[i]).Ok? && |per(hosts[i]).value| == 2 {
      assert |Names(per(hosts[i]).value)| == |per(hosts[i]).value|;
    }
    AllGaugesUniform(hosts, per, 2);
  }
}
