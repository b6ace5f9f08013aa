/** The metrics code of the apimachinery restic package: the labels of a
    backup or restore invoker and the choice of gauges each `Send*Metrics`
    call registers and pushes.  What the Kubernetes API returns (the
    target's AppBinding, the repository) and `invoker.TargetMatched` are
    outside the model: their results are inputs.
 */
module ApiMetrics {
  import opened Wrappers
  import opened StashApi
  import opened Metrics
  import opened Keyed

  const BackupSessionSuccess := "stash_backup_session_success"
  const BackupSessionDuration := "stash_backup_session_duration_seconds"
  const BackupTargetCount := "stash_backup_target_count_total"
  const BackupLastSuccessTime := "stash_backup_last_success_time_seconds"
  const BackupTargetSuccess := "stash_backup_target_success"
  const BackupTargetHostCount := "stash_backup_target_host_count_total"
  const BackupTargetLastSuccessTime := "stash_backup_target_last_success_time_seconds"
  const HostBackupSuccess := "stash_backup_host_backup_success"
  const HostBackupDuration := "stash_backup_host_backup_duration_seconds"
  const HostDataSize := "stash_backup_host_data_size_bytes"
  const HostDataUploaded := "stash_backup_host_data_uploaded_bytes"
  const HostDataProcessingTime := "stash_backup_host_data_processing_time_seconds"
  const HostFilesTotal := "stash_backup_host_files_total"
  const HostFilesNew := "stash_backup_host_files_new"
  const HostFilesModified := "stash_backup_host_files_modified"
  const HostFilesUnmodified := "stash_backup_host_files_unmodified"
  const RestoreSessionSuccess := "stash_restore_session_success"
  const RestoreSessionDuration := "stash_restore_session_duration_seconds"
  const RestoreTargetCount := "stash_restore_target_count_total"
  const RestoreTargetSuccess := "stash_restore_target_success"
  const RestoreTargetHostCount := "stash_restore_target_host_count_total"
  const HostRestoreSuccess := "stash_restore_host_restore_success"
  const HostRestoreDuration := "stash_restore_host_restore_duration_seconds"

  const NilBackupOutput := "invalid backup output. Backup output shouldn't be nil"
  const NilRestoreOutput := "invalid restore output. Restore output shouldn't be nil"

  /** The fields of a backup or restore invoker the labels are made of. */
  datatype Invoker = Invoker(kind: string, name: string, namespace: string, driver: string, repository: string)

  datatype BackupSessionStatus = BackupSessionStatus(
    phase: string, sessionDuration: string, targets: seq<BackupTargetStatus>)

  datatype RestoreSessionStatus = RestoreSessionStatus(
    phase: string, sessionDuration: string, targetStatus: seq<RestoreTargetStatus>)

  // ---- labels -----------------------------------------------------------------

  /** The keys the invoker sets on top of the user's labels. */
  function InvokerKeys(driver: string): set<string>
  {
    {LabelInvokerKind, LabelInvokerName, LabelNamespace} +
    (if driver == VolumeSnapshotter then {LabelDriver, LabelKind, LabelAppGroup} else {LabelDriver, LabelRepository})
  }

  /** `backupInvokerLabels` (and `restoreInvokerLabels`, the same code over a
      restore invoker): the user's labels, overridden by the invoker's kind,
      name and namespace and by the driver labels. */
  function InvokerLabels(inv: Invoker, userLabels: seq<string>): (labels: Labels)
    ensures LabelInvokerKind in labels && labels[LabelInvokerKind] == inv.kind
    ensures LabelInvokerName in labels && labels[LabelInvokerName] == inv.name
    ensures LabelNamespace in labels && labels[LabelNamespace] == inv.namespace
    ensures inv.driver == VolumeSnapshotter ==>
      LabelDriver in labels && labels[LabelDriver] == VolumeSnapshotter &&
      LabelKind in labels && labels[LabelKind] == KindPersistentVolumeClaim &&
      LabelAppGroup in labels && labels[LabelAppGroup] == CoreGroupName
    ensures inv.driver == VolumeSnapshotter ==>
      (LabelRepository in labels <==> LabelRepository in ParseUserProvidedLabels(userLabels))
    ensures inv.driver != VolumeSnapshotter ==>
      LabelDriver in labels && labels[LabelDriver] == ResticSnapshotter &&
      LabelRepository in labels && labels[LabelRepository] == inv.repository
    ensures forall k :: k in labels ==> k in ParseUserProvidedLabels(userLabels) || k in InvokerKeys(inv.driver)
    ensures forall k :: k in ParseUserProvidedLabels(userLabels) && k !in InvokerKeys(inv.driver) ==>
      k in labels && labels[k] == ParseUserProvidedLabels(userLabels)[k]
  {
    var promLabels := ParseUserProvidedLabels(userLabels)
      [LabelInvokerKind := inv.kind][LabelInvokerName := inv.name][LabelNamespace := inv.namespace];
    if inv.driver == VolumeSnapshotter then UpsertLabel(promLabels, VolumeSnapshotterLabels())
    else promLabels[LabelDriver := ResticSnapshotter][LabelRepository := inv.repository]
  }

  // ---- session metrics --------------------------------------------------------

  /** `SendBackupSessionMetrics`: a succeeded session reports success 1, its
      duration, its number of targets and the time; any other only success 0. */
  method SendBackupSessionMetrics(opt: MetricsOptions, inv: Invoker, status: BackupSessionStatus,
                                  conv: Converters, io: PushIO) returns (report: Report)
    ensures report.Sent? || report.Aborted?
    ensures report.Aborted? <==>
      status.phase == PhaseSucceeded && conv.parseDuration(status.sessionDuration).Some?
    ensures report.Aborted? ==> report.error == conv.parseDuration(status.sessionDuration).value
    ensures report.Sent? ==> report.sendErr == SendMetrics(opt, io)
    ensures report.Sent? && status.phase != PhaseSucceeded ==>
      report.gauges == [Flag(BackupSessionSuccess, InvokerLabels(inv, opt.labels), false)]
    ensures report.Sent? && status.phase == PhaseSucceeded ==>
      Names(report.gauges) == [BackupSessionSuccess, BackupSessionDuration, BackupTargetCount, BackupLastSuccessTime] &&
      report.gauges[0].value == Count(1) && report.gauges[1].value == Measured &&
      report.gauges[2].value == Count(|status.targets|) && report.gauges[3].value == Measured &&
      forall g :: g in report.gauges ==> g.labels == InvokerLabels(inv, opt.labels)
  {
    var labels := InvokerLabels(inv, opt.labels);
    var registry: seq<Gauge> := [];
    if status.phase == PhaseSucceeded {
      var durationErr := conv.parseDuration(status.sessionDuration);
      if durationErr.Some? {
        return Aborted(durationErr.value);
      }
      registry := registry + [Flag(BackupSessionSuccess, labels, true), Gauge(BackupSessionDuration, labels, Measured),
                              Gauge(BackupTargetCount, labels, Count(|status.targets|)),
                              Gauge(BackupLastSuccessTime, labels, Measured)];
    } else {
      registry := registry + [Flag(BackupSessionSuccess, labels, false)];
    }
    report := Sent(registry, SendMetrics(opt, io));
  }

  /** `SendRestoreSessionMetrics`: success 1, duration and target count for a
      succeeded restore; only success 0 otherwise. */
  method SendRestoreSessionMetrics(opt: MetricsOptions, inv: Invoker, status: RestoreSessionStatus,
                                   conv: Converters, io: PushIO) returns (report: Report)
    ensures report.Sent? || report.Aborted?
    ensures report.Aborted? <==>
      status.phase == PhaseSucceeded && conv.parseDuration(status.sessionDuration).Some?
    ensures report.Aborted? ==> report.error == conv.parseDuration(status.sessionDuration).value
    ensures report.Sent? ==> report.sendErr == SendMetrics(opt, io)
    ensures report.Sent? && status.phase != PhaseSucceeded ==>
      report.gauges == [Flag(RestoreSessionSuccess, InvokerLabels(inv, opt.labels), false)]
    ensures report.Sent? && status.phase == PhaseSucceeded ==>
      Names(report.gauges) == [RestoreSessionSuccess, RestoreSessionDuration, RestoreTargetCount] &&
      report.gauges[0].value == Count(1) && report.gauges[1].value == Measured &&
      report.gauges[2].value == Count(|status.targetStatus|) &&
      forall g :: g in report.gauges ==> g.labels == InvokerLabels(inv, opt.labels)
  {
    var labels := InvokerLabels(inv, opt.labels);
    var registry: seq<Gauge> := [];
    if status.phase == PhaseSucceeded {
      var durationErr := conv.parseDuration(status.sessionDuration);
      if durationErr.Some? {
        return Aborted(durationErr.value);
      }
      registry := registry + [Flag(RestoreSessionSuccess, labels, true), Gauge(RestoreSessionDuration, labels, Measured),
                              Gauge(RestoreTargetCount, labels, Count(|status.targetStatus|))];
    } else {
      registry := registry + [Flag(RestoreSessionSuccess, labels, false)];
    }
    report := Sent(registry, SendMetrics(opt, io));
  }

  // ---- target metrics ---------------------------------------------------------

  /** The loop over a session's target statuses: the index of the first one
      `matches` accepts. */
  method FirstMatch<T>(targets: seq<T>, matches: T -> bool) returns (r: Option<nat>)
    ensures r == IndexOfKey(targets, matches, true)
  {
    var i := 0;
    while i < |targets|
      invariant 0 <= i <= |targets|
      invariant forall j :: 0 <= j < i ==> matches(targets[j]) != true
    {
      if matches(targets[i]) {
        assert IndexOfKey(targets, matches, true) == Some(i) by {
          var found := IndexOfKey(targets, matches, true);
          assert !(found.Some? && found.value < i);
          assert !(found.Some? && found.value > i);
        }
        return Some(i);
      }
      i := i + 1;
    }
    return None;
  }

  /** Whether a backup target's status is the one `targetRef` names. */
  function BackupTargetKey(matched: (TargetRef, TargetRef) -> bool, targetRef: TargetRef): BackupTargetStatus -> bool
  {
    (t: BackupTargetStatus) => matched(t.ref, targetRef)
  }

  function RestoreTargetKey(matched: (TargetRef, TargetRef) -> bool, targetRef: TargetRef): RestoreTargetStatus -> bool
  {
    (t: RestoreTargetStatus) => matched(t.ref, targetRef)
  }

  /** The gauges of a backup target: success 1, last success time and host
      count (left unset without a host total) when it succeeded; success 0
      alone otherwise. */
  function BackupTargetGauges(labels: Labels, t: BackupTargetStatus): (gauges: seq<Gauge>)
    ensures |gauges| >= 1 && gauges[0] == Flag(BackupTargetSuccess, labels, t.phase == PhaseSucceeded)
    ensures t.phase != PhaseSucceeded ==> |gauges| == 1
    ensures t.phase == PhaseSucceeded ==>
      Names(gauges) == [BackupTargetSuccess, BackupTargetLastSuccessTime, BackupTargetHostCount] &&
      gauges[1].value == Measured &&
      gauges[2].value == (if t.totalHosts.Some? then Count(t.totalHosts.value) else Unset)
    ensures forall g :: g in gauges ==> g.labels == labels
  {
    if t.phase == PhaseSucceeded then
      [Flag(BackupTargetSuccess, labels, true), Gauge(BackupTargetLastSuccessTime, labels, Measured),
       Gauge(BackupTargetHostCount, labels, if t.totalHosts.Some? then Count(t.totalHosts.value) else Unset)]
    else [Flag(BackupTargetSuccess, labels, false)]
  }

  /** `SendBackupTargetMetrics`: only the first target status matching
      `targetRef` is reported; without one, nothing is sent and nil returned. */
  method SendBackupTargetMetrics(opt: MetricsOptions, inv: Invoker, targetRef: TargetRef, status: BackupSessionStatus,
                                 app: AppLookup, matched: (TargetRef, TargetRef) -> bool, io: PushIO)
    returns (report: Report)
    ensures !TargetLabels(targetRef, app, true).Ok? ==> report == Aborted(TargetLabels(targetRef, app, true).Message())
    ensures TargetLabels(targetRef, app, true).Ok? ==>
      var labels := UpsertLabel(InvokerLabels(inv, opt.labels), TargetLabels(targetRef, app, true).value);
      match IndexOfKey(status.targets, BackupTargetKey(matched, targetRef), true)
      case None => report == Skipped
      case Some(j) => report == Sent(BackupTargetGauges(labels, status.targets[j]), SendMetrics(opt, io))
  {
    var labels := InvokerLabels(inv, opt.labels);
    var targetLabels := TargetLabels(targetRef, app, true);
    if !targetLabels.Ok? {
      return Aborted(targetLabels.Message());
    }
    labels := UpsertLabel(labels, targetLabels.value);
    // only the first target status matching `targetRef` is reported
    var found := FirstMatch(status.targets, BackupTargetKey(matched, targetRef));
    if found.None? {
      return Skipped;
    }
    report := Sent(BackupTargetGauges(labels, status.targets[found.value]), SendMetrics(opt, io));
  }

  /** The gauges of a restore target: success 1 and host count (unset
      without a host total) when it succeeded; success 0 alone otherwise. */
  function RestoreTargetGauges(labels: Labels, t: RestoreTargetStatus): (gauges: seq<Gauge>)
    ensures |gauges| >= 1 && gauges[0] == Flag(RestoreTargetSuccess, labels, t.phase == PhaseSucceeded)
    ensures t.phase != PhaseSucceeded ==> |gauges| == 1
    ensures t.phase == PhaseSucceeded ==>
      Names(gauges) == [RestoreTargetSuccess, RestoreTargetHostCount] &&
      gauges[1].value == (if t.totalHosts.Some? then Count(t.totalHosts.value) else Unset)
    ensures forall g :: g in gauges ==> g.labels == labels
  {
    if t.phase == PhaseSucceeded then
      [Flag(RestoreTargetSuccess, labels, true),
       Gauge(RestoreTargetHostCount, labels, if t.totalHosts.Some? then Count(t.totalHosts.value) else Unset)]
    else [Flag(RestoreTargetSuccess, labels, false)]
  }

  /** `SendRestoreTargetMetrics`: as for backup targets. */
  method SendRestoreTargetMetrics(opt: MetricsOptions, inv: Invoker, targetRef: TargetRef, status: RestoreSessionStatus,
                                  app: AppLookup, matched: (TargetRef, TargetRef) -> bool, io: PushIO)
    returns (report: Report)
    ensures !TargetLabels(targetRef, app, true).Ok? ==> report == Aborted(TargetLabels(targetRef, app, true).Message())
    ensures TargetLabels(targetRef, app, true).Ok? ==>
      var labels := UpsertLabel(InvokerLabels(inv, opt.labels), TargetLabels(targetRef, app, true).value);
      match IndexOfKey(status.targetStatus, RestoreTargetKey(matched, targetRef), true)
      case None => report == Skipped
      case Some(j) => report == Sent(RestoreTargetGauges(labels, status.targetStatus[j]), SendMetrics(opt, io))
  {
    var labels := InvokerLabels(inv, opt.labels);
    var targetLabels := TargetLabels(targetRef, app, true);
    if !targetLabels.Ok? {
      return Aborted(targetLabels.Message());
    }
    labels := UpsertLabel(labels, targetLabels.value);
    // only the first target status matching `targetRef` is reported
    var found := FirstMatch(status.targetStatus, RestoreTargetKey(matched, targetRef));
    if found.None? {
      return Skipped;
    }
    report := Sent(RestoreTargetGauges(labels, status.targetStatus[found.value]), SendMetrics(opt, io));
  }

  // ---- host metrics -----------------------------------------------------------

  /** The gauges of one backed-up host: with no error, success 1 and the
      nine values `setValues` computes (or its failure); with an error,
      success 0 alone. */
  function BackupHostGauges(labels: Labels, h: HostBackupStats, conv: Converters): (r: Result<seq<Gauge>>)
    ensures h.error != "" ==> r == Ok([Flag(HostBackupSuccess, HostLabels(labels, h.hostname), false)])
    ensures h.error == "" ==> (r.Ok? <==> SetValuesOutcome(h, conv).Ok?)
    ensures h.error == "" && r.Err? ==> SetValuesOutcome(h, conv) == Err(r.error)
    ensures h.error == "" && r.Panic? ==> SetValuesOutcome(h, conv) == Panic(r.reason)
    ensures h.error == "" && r.Ok? ==>
      r.value == BackupHostValueGauges(HostLabels(labels, h.hostname), SetValuesOutcome(h, conv).value)
    ensures r.Ok? ==> forall g :: g in r.value ==> g.labels == HostLabels(labels, h.hostname)
  {
    var hl := HostLabels(labels, h.hostname);
    if h.error == "" then
      match SetValuesOutcome(h, conv)
      case Ok(t) => Ok(BackupHostValueGauges(hl, t))
      case Err(e) => Err(e)
      case Panic(p) => Panic(p)
    else Ok([Flag(HostBackupSuccess, hl, false)])
  }

  /** The nine gauges of a host whose values were computed, in registration order. */
  function BackupHostValueGauges(hl: Labels, t: FileTotals): (gauges: seq<Gauge>)
    ensures Names(gauges) == [HostBackupSuccess, HostBackupDuration, HostFilesTotal, HostFilesNew, HostFilesModified,
                              HostFilesUnmodified, HostDataSize, HostDataUploaded, HostDataProcessingTime]
    ensures gauges[0].value == Count(1) && gauges[1].value == Measured
    ensures gauges[2].value == Count(t.totalFiles) && gauges[3].value == Count(t.newFiles)
    ensures gauges[4].value == Count(t.modifiedFiles) && gauges[5].value == Count(t.unmodifiedFiles)
    ensures forall i :: 6 <= i < 9 ==> gauges[i].value == Measured
    ensures forall g :: g in gauges ==> g.labels == hl
  {
    [Flag(HostBackupSuccess, hl, true), Gauge(HostBackupDuration, hl, Measured),
     Gauge(HostFilesTotal, hl, Count(t.totalFiles)), Gauge(HostFilesNew, hl, Count(t.newFiles)),
     Gauge(HostFilesModified, hl, Count(t.modifiedFiles)), Gauge(HostFilesUnmodified, hl, Count(t.unmodifiedFiles)),
     Gauge(HostDataSize, hl, Measured), Gauge(HostDataUploaded, hl, Measured), Gauge(HostDataProcessingTime, hl, Measured)]
  }

  function BackupHostGaugesOf(labels: Labels, conv: Converters): HostBackupStats -> Result<seq<Gauge>>
  {
    h => BackupHostGauges(labels, h, conv)
  }

  /** A host without error whose snapshots all convert and carry their
      counters reports as file counters the sums over its snapshots. */
  lemma BackupHostFileCounters(labels: Labels, h: HostBackupStats, conv: Converters)
    requires h.error == "" && conv.parseDuration(h.duration).None?
    requires forall i :: 0 <= i < |h.snapshots| ==>
      SnapshotConversionError(h.snapshots[i], conv).None? && HasCounters(h.snapshots[i].fileStats)
    ensures BackupHostGauges(labels, h, conv).Ok?
    ensures BackupHostGauges(labels, h, conv).value[2].value == Count(CounterSum(h.snapshots, Total))
    ensures BackupHostGauges(labels, h, conv).value[3].value == Count(CounterSum(h.snapshots, New))
    ensures BackupHostGauges(labels, h, conv).value[4].value == Count(CounterSum(h.snapshots, Modified))
    ensures BackupHostGauges(labels, h, conv).value[5].value == Count(CounterSum(h.snapshots, Unmodified))
  {
    SumSnapshotsTotals(NoFiles, h.snapshots, conv);
  }

  /** `SendBackupHostMetrics`: a nil output is an error; otherwise every
      host's gauges, labelled with its hostname, are registered in order and
      sent, unless one host's values cannot be computed. */
  method SendBackupHostMetrics(opt: MetricsOptions, inv: Invoker, targetRef: TargetRef, output: Option<BackupTargetStatus>,
                               app: AppLookup, conv: Converters, io: PushIO)
    returns (report: Report)
    ensures output.None? ==> report == Aborted(NilBackupOutput)
    ensures output.Some? && !TargetLabels(targetRef, app, true).Ok? ==> report == Aborted(TargetLabels(targetRef, app, true).Message())
    ensures output.Some? && TargetLabels(targetRef, app, true).Ok? ==>
      var labels := UpsertLabel(InvokerLabels(inv, opt.labels), TargetLabels(targetRef, app, true).value);
      report == ReportOf(GaugesFrom([], output.value.stats, BackupHostGaugesOf(labels, conv)), opt, io)
  {
    if output.None? {
      return Aborted(NilBackupOutput);
    }
    var labels := InvokerLabels(inv, opt.labels);
    var targetLabels := TargetLabels(targetRef, app, true);
    if !targetLabels.Ok? {
      return Aborted(targetLabels.Message());
    }
    labels := UpsertLabel(labels, targetLabels.value);
    var hosts := output.value.stats;
    ghost var per := BackupHostGaugesOf(labels, conv);
    var registry: seq<Gauge> := [];
    var i := 0;
    while i < |hosts|
      invariant 0 <= i <= |hosts|
      invariant GaugesFrom(registry, hosts[i..], per) == GaugesFrom([], hosts, per)
    {
      var hostStats := hosts[i];
      assert hosts[i..][0] == hostStats && hosts[i..][1..] == hosts[i + 1..];
      var hl := HostLabels(labels, hostStats.hostname);
      if hostStats.error == "" {
        var values := HostValues(hostStats, conv);
        if values.Err? {
          return Aborted(values.error);
        }
        if values.Panic? {
          return Crashed(values.reason);
        }
        registry := registry + BackupHostValueGauges(hl, values.value);
      } else {
        registry := registry + [Flag(HostBackupSuccess, hl, false)];
      }
      i := i + 1;
    }
    assert hosts[i..] == [];
    report := Sent(registry, SendMetrics(opt, io));
  }

  /** The gauges of one restored host: success 1 and its duration, or success
      0 alone for a host with an error. */
  function RestoreHostGauges(labels: Labels, h: HostRestoreStats, conv: Converters): (r: Result<seq<Gauge>>)
    ensures h.error != "" ==> r == Ok([Flag(HostRestoreSuccess, HostLabels(labels, h.hostname), false)])
    ensures h.error == "" ==> (r.Ok? <==> conv.parseDuration(h.duration).None?)
    ensures h.error == "" && r.Ok? ==>
      Names(r.value) == [HostRestoreSuccess, HostRestoreDuration] && r.value[0].value == Count(1)
    ensures r.Err? ==> r.error == conv.parseDuration(h.duration).value
    ensures !r.Panic?
  {
    var hl := HostLabels(labels, h.hostname);
    if h.error == "" then
      if conv.parseDuration(h.duration).Some? then Err(conv.parseDuration(h.duration).value)
      else Ok([Flag(HostRestoreSuccess, hl, true), Gauge(HostRestoreDuration, hl, Measured)])
    else Ok([Flag(HostRestoreSuccess, hl, false)])
  }

  function RestoreHostGaugesOf(labels: Labels, conv: Converters): HostRestoreStats -> Result<seq<Gauge>>
  {
    h => RestoreHostGauges(labels, h, conv)
  }

  /** `SendRestoreHostMetrics`: as for backup hosts, with two gauges per
      restored host. */
  method SendRestoreHostMetrics(opt: MetricsOptions, inv: Invoker, targetRef: TargetRef, output: Option<RestoreTargetStatus>,
                                app: AppLookup, conv: Converters, io: PushIO)
    returns (report: Report)
    ensures output.None? ==> report == Aborted(NilRestoreOutput)
    ensures output.Some? && !TargetLabels(targetRef, app, true).Ok? ==> report == Aborted(TargetLabels(targetRef, app, true).Message())
    ensures output.Some? && TargetLabels(targetRef, app, true).Ok? ==>
      var labels := UpsertLabel(InvokerLabels(inv, opt.labels), TargetLabels(targetRef, app, true).value);
      report == ReportOf(GaugesFrom([], output.value.stats, RestoreHostGaugesOf(labels, conv)), opt, io)
  {
    if output.None? {
      return Aborted(NilRestoreOutput);
    }
    var labels := InvokerLabels(inv, opt.labels);
    var targetLabels := TargetLabels(targetRef, app, true);
    if !targetLabels.Ok? {
      return Aborted(targetLabels.Message());
    }
    labels := UpsertLabel(labels, targetLabels.value);
    var hosts := output.value.stats;
    ghost var per := RestoreHostGaugesOf(labels, conv);
    var registry: seq<Gauge> := [];
    var i := 0;
    while i < |hosts|
      invariant 0 <= i <= |hosts|
      invariant GaugesFrom(registry, hosts[i..], per) == GaugesFrom([], hosts, per)
    {
      var hostStats := hosts[i];
      assert hosts[i..][0] == hostStats && hosts[i..][1..] == hosts[i + 1..];
      var hl := HostLabels(labels, hostStats.hostname);
      if hostStats.error == "" {
        var durationErr := conv.parseDuration(hostStats.duration);
        if durationErr.Some? {
          return Aborted(durationErr.value);
        }
        registry := registry + [Flag(HostRestoreSuccess, hl, true), Gauge(HostRestoreDuration, hl, Measured)];
      } else {
        registry := registry + [Flag(HostRestoreSuccess, hl, false)];
      }
      i := i + 1;
    }
    assert hosts[i..] == [];
    report := Sent(registry, SendMetrics(opt, io));
  }

  /** Over all hosts, the backup-host report fails exactly when some host
      without error cannot compute its values; when it is sent, each failed
      host contributes one gauge and each other host nine. */
  lemma {:induction false} BackupHostsGaugeCount(labels: Labels, hosts: seq<HostBackupStats>, conv: Converters)
    requires GaugesFrom([], hosts, BackupHostGaugesOf(labels, conv)).Ok?
    ensures |GaugesFrom([], hosts, BackupHostGaugesOf(labels, conv)).value| == HostGaugeCount(hosts)
  {
    var per := BackupHostGaugesOf(labels, conv);
    GaugesFromAll([], hosts, per);
    AllGaugesCount(labels, hosts, conv);
  }

  /** Nine gauges per host without error, one per host with one. */
  function HostGaugeCount(hosts: seq<HostBackupStats>): nat
  {
    if hosts == [] then 0 else (if hosts[0].error == "" then 9 else 1) + HostGaugeCount(hosts[1..])
  }

  lemma {:induction false} AllGaugesCount(labels: Labels, hosts: seq<HostBackupStats>, conv: Converters)
    requires forall i :: 0 <= i < |hosts| ==> BackupHostGaugesOf(labels, conv)(hosts[i]).Ok?
    ensures |AllGauges(hosts, BackupHostGaugesOf(labels, conv))| == HostGaugeCount(hosts)
  {
    if hosts != [] {
      var per := BackupHostGaugesOf(labels, conv);
      assert forall i :: 1 <= i < |hosts| ==> hosts[i] == hosts[1..][i - 1];
      AllGaugesCount(labels, hosts[1..], conv);
      assert |Names(per(hosts[0]).value)| == |per(hosts[0]).value|;
    }
  }

  // ---- repository metrics -----------------------------------------------------

  /** `repoMetricLabels`: the user's labels with the repository's, or the
      error of reading the repository. */
  function RepoMetricLabels(userLabels: seq<string>, repo: Result<RepoBackend>): (r: Result<Labels>)
    ensures r.Ok? <==> repo.Ok?
    ensures !repo.Ok? ==> r == Err(repo.Message())
    ensures r.Ok? ==> LabelName in r.value && r.value[LabelName] == repo.value.name
    ensures r.Ok? ==> LabelBackend in r.value && r.value[LabelBackend] == repo.value.provider
  {
    if repo.Ok? then Ok(RepositoryLabels(ParseUserProvidedLabels(userLabels), repo.value))
    else Err(repo.Message())
  }

  /** `setValues` of the repository gauges: integrity is 1 exactly when the
      check ran and passed, 0 otherwise; the counts are the repository's;
      a size that does not convert is the error. */
  function RepositoryGauges(labels: Labels, repoStats: RepositoryStats, conv: Converters): (r: Result<seq<Gauge>>)
    ensures r.Ok? <==> conv.sizeToBytes(repoStats.size).None?
    ensures r.Err? ==> r.error == conv.sizeToBytes(repoStats.size).value
    ensures r.Ok? ==>
      Names(r.value) == [RepoIntegrity, RepoSize, RepoSnapshotCount, RepoSnapshotCleaned] &&
      r.value[0].value == Count(if repoStats.integrity == Some(true) then 1 else 0) &&
      r.value[1].value == Measured &&
      r.value[2].value == Count(repoStats.snapshotCount) &&
      r.value[3].value == Count(repoStats.snapshotsRemovedOnLastCleanup) &&
      forall g :: g in r.value ==> g.labels == labels
  {
    var integrity := if repoStats.integrity.Some? && repoStats.integrity.value then 1 else 0;
    var sizeErr := conv.sizeToBytes(repoStats.size);
    if sizeErr.Some? then Err(sizeErr.value)
    else Ok([Gauge(RepoIntegrity, labels, Count(integrity)), Gauge(RepoSize, labels, Measured),
             Gauge(RepoSnapshotCount, labels, Count(repoStats.snapshotCount)),
             Gauge(RepoSnapshotCleaned, labels, Count(repoStats.snapshotsRemovedOnLastCleanup))])
  }

  /** `SendRepositoryMetrics`: the repository gauges, labelled with the
      invoker's and the repository's labels. */
  method SendRepositoryMetrics(opt: MetricsOptions, inv: Invoker, repoStats: RepositoryStats,
                               repo: Result<RepoBackend>, conv: Converters, io: PushIO)
    returns (report: Report)
    ensures !RepoMetricLabels(opt.labels, repo).Ok? ==> report == Aborted(RepoMetricLabels(opt.labels, repo).Message())
    ensures RepoMetricLabels(opt.labels, repo).Ok? ==>
      report == ReportOf(RepositoryGauges(UpsertLabel(InvokerLabels(inv, opt.labels), RepoMetricLabels(opt.labels, repo).value),
                                          repoStats, conv), opt, io)
  {
    var labels := InvokerLabels(inv, opt.labels);
    var repoLabels := RepoMetricLabels(opt.labels, repo);
    if !repoLabels.Ok? {
      return Aborted(repoLabels.Message());
    }
    var gauges := RepositoryGauges(UpsertLabel(labels, repoLabels.value), repoStats, conv);
    if gauges.Err? {
      return Aborted(gauges.error);
    }
    report := Sent(gauges.value, SendMetrics(opt, io));
  }
}
