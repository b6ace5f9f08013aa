/** Backup bookkeeping of `stash/pkg/restic/backup.go`: the host and snapshot
    statistics a backup run collects, and the repository figures added after
    it.  The restic subprocesses and the parsers of their output are outside
    the model; `Restic` carries their outcomes.
 */
module ResticBackup {
  import opened Wrappers
  import opened StashApi
  import opened Keyed

  datatype CleanupInfo = CleanupInfo(kept: int, removed: int)

  /** Outcomes of the restic commands, each together with the parsing of its
      output (`extractBackupInfo`, `extractCheckInfo`, `extractCleanupInfo`,
      `extractStatsInfo`).  These calls return Go errors, never panic: only
      `Ok` and `Err` occur. */
  datatype Restic = Restic(
    initRepository: Option<string>,
    backupFromStdin: BackupOptions -> Result<SnapshotStats>,
    backupPath: (string, string) -> Result<SnapshotStats>,
    check: Result<bool>,
    cleanup: (RetentionPolicy, string) -> Result<CleanupInfo>,
    stats: Result<string>,
    elapsed: string)

  /** The `BackupOutput` a run fills in step by step. */
  class BackupOutput {
    var hostBackupStats: seq<HostBackupStats>
    var repositoryStats: RepositoryStats

    constructor ()
      ensures hostBackupStats == []
      ensures repositoryStats == RepositoryStats(None, "", 0, 0)
    {
      hostBackupStats := [];
      repositoryStats := RepositoryStats(None, "", 0, 0);
    }

    /** `upsertHostBackupStats`: replace the entry of the same host in place,
        or append. */
    method UpsertHostBackupStats(h: HostBackupStats)
      modifies this
      ensures hostBackupStats == Upsert(old(hostBackupStats), HostnameOf, h)
      ensures repositoryStats == old(repositoryStats)
      ensures DistinctKeys(old(hostBackupStats), HostnameOf) ==> DistinctKeys(hostBackupStats, HostnameOf)
    {
      if DistinctKeys(hostBackupStats, HostnameOf) {
        UpsertKeepsDistinct(hostBackupStats, HostnameOf, h);
      }
      var i := 0;
      while i < |hostBackupStats|
        invariant 0 <= i <= |hostBackupStats|
        invariant hostBackupStats == old(hostBackupStats)
        invariant forall j :: 0 <= j < i ==> hostBackupStats[j].hostname != h.hostname
      {
        if hostBackupStats[i].hostname == h.hostname {
          UpsertReplaces(hostBackupStats, HostnameOf, h, i);
          hostBackupStats := hostBackupStats[i := h];
          return;
        }
        i := i + 1;
      }
      hostBackupStats := hostBackupStats + [h];
    }

    /** The closing loop of `RunBackup`: the entries of `host` get the elapsed
        time and `Succeeded`; every other entry is left as it was. */
    method MarkSucceeded(host: string, elapsed: string)
      modifies this
      ensures |hostBackupStats| == |old(hostBackupStats)|
      ensures forall i :: 0 <= i < |hostBackupStats| && old(hostBackupStats)[i].hostname == host ==>
        hostBackupStats[i] == old(hostBackupStats)[i].(duration := elapsed, phase := HostBackupSucceeded)
      ensures forall i :: 0 <= i < |hostBackupStats| && old(hostBackupStats)[i].hostname != host ==>
        hostBackupStats[i] == old(hostBackupStats)[i]
      ensures repositoryStats == old(repositoryStats)
    {
      var idx := 0;
      while idx < |hostBackupStats|
        invariant 0 <= idx <= |hostBackupStats| == |old(hostBackupStats)|
        invariant forall i :: 0 <= i < idx && old(hostBackupStats)[i].hostname == host ==>
          hostBackupStats[i] == old(hostBackupStats)[i].(duration := elapsed, phase := HostBackupSucceeded)
        invariant forall i :: 0 <= i < |hostBackupStats| && (idx <= i || old(hostBackupStats)[i].hostname != host) ==>
          hostBackupStats[i] == old(hostBackupStats)[i]
        invariant repositoryStats == old(repositoryStats)
      {
        if hostBackupStats[idx].hostname == host {
          hostBackupStats := hostBackupStats[idx := hostBackupStats[idx].(duration := elapsed, phase := HostBackupSucceeded)];
        }
        idx := idx + 1;
      }
    }

    /** The cleanup loop of `RunParallelBackup`, after all backups joined:
        the counters restart at 0 and add up the kept and removed snapshots
        of every option's host.  On an error the output is discarded. */
    method SumCleanup(opts: seq<BackupOptions>, cleanup: (RetentionPolicy, string) -> Result<CleanupInfo>)
      returns (err: Option<string>)
      modifies this
      ensures CleanupFrom(CleanupInfo(0, 0), opts, cleanup).Ok? <==> err.None?
      ensures err.None? ==>
        repositoryStats == old(repositoryStats).(
          snapshotCount := CleanupFrom(CleanupInfo(0, 0), opts, cleanup).value.kept,
          snapshotsRemovedOnLastCleanup := CleanupFrom(CleanupInfo(0, 0), opts, cleanup).value.removed)
      ensures err.Some? ==> err == Some(CleanupFrom(CleanupInfo(0, 0), opts, cleanup).Message())
      ensures hostBackupStats == old(hostBackupStats)
    {
      repositoryStats := repositoryStats.(snapshotCount := 0, snapshotsRemovedOnLastCleanup := 0);
      var i := 0;
      while i < |opts|
        invariant 0 <= i <= |opts|
        invariant CleanupFrom(CleanupInfo(repositoryStats.snapshotCount, repositoryStats.snapshotsRemovedOnLastCleanup), opts[i..], cleanup)
                  == CleanupFrom(CleanupInfo(0, 0), opts, cleanup)
        invariant repositoryStats.integrity == old(repositoryStats).integrity
        invariant repositoryStats.size == old(repositoryStats).size
        invariant hostBackupStats == old(hostBackupStats)
      {
        var out := cleanup(opts[i].retentionPolicy, opts[i].host);
        assert opts[i..][0] == opts[i] && opts[i..][1..] == opts[i + 1..];
        if !out.Ok? {
          return Some(out.Message());
        }
        repositoryStats := repositoryStats.(
          snapshotCount := repositoryStats.snapshotCount + out.value.kept,
          snapshotsRemovedOnLastCleanup := repositoryStats.snapshotsRemovedOnLastCleanup + out.value.removed);
        i := i + 1;
      }
      return None;
    }
  }

  // ---- runBackup --------------------------------------------------------------

  /** `upsertSnapshotStats`: the snapshot replaces the entry of the same name,
      or is appended; nothing else about the host changes. */
  method UpsertSnapshotStats(hostStats: HostBackupStats, snapStats: SnapshotStats) returns (r: HostBackupStats)
    ensures r == hostStats.(snapshots := Upsert(hostStats.snapshots, SnapshotName, snapStats))
  {
    var i := 0;
    while i < |hostStats.snapshots|
      invariant 0 <= i <= |hostStats.snapshots|
      invariant forall j :: 0 <= j < i ==> hostStats.snapshots[j].name != snapStats.name
    {
      if hostStats.snapshots[i].name == snapStats.name {
        UpsertReplaces(hostStats.snapshots, SnapshotName, snapStats, i);
        return hostStats.(snapshots := hostStats.snapshots[i := snapStats]);
      }
      i := i + 1;
    }
    return hostStats.(snapshots := hostStats.snapshots + [snapStats]);
  }

  /** The statistics of a host and the error that stopped its backup, if any. */
  datatype HostOutcome = HostOutcome(stats: HostBackupStats, err: Option<string>)

  /** The path loop of `runBackup` from `acc` on: one upsert per path, in
      order; the first failure stops with the statistics gathered so far. */
  function BackupPaths(acc: HostBackupStats, paths: seq<string>, host: string,
                       backupPath: (string, string) -> Result<SnapshotStats>): HostOutcome
    decreases |paths|
  {
    if paths == [] then HostOutcome(acc, None)
    else
      var out := backupPath(paths[0], host);
      if !out.Ok? then HostOutcome(acc, Some(out.Message()))
      else BackupPaths(acc.(snapshots := Upsert(acc.snapshots, SnapshotName, out.value)), paths[1..], host, backupPath)
  }

  /** What `runBackup` yields for one host: one snapshot read from the
      stdin pipe command when it is set, otherwise the path loop. */
  function HostBackup(opt: BackupOptions, restic: Restic): (r: HostOutcome)
    ensures r.stats.hostname == opt.host && r.stats.error == "" && r.stats.phase == PhaseUnset
    ensures opt.stdinPipeCommand.name != "" ==>
      (r.err.None? <==> restic.backupFromStdin(opt).Ok?) &&
      (r.err.None? ==> r.stats.snapshots == [restic.backupFromStdin(opt).value]) &&
      (r.err.Some? ==> r.stats.snapshots == [] && r.err == Some(restic.backupFromStdin(opt).Message()))
  {
    var empty := HostBackupStats(opt.host, PhaseUnset, [], "", "");
    if opt.stdinPipeCommand.name != "" then
      match restic.backupFromStdin(opt)
      case Ok(s) => HostOutcome(empty.(snapshots := [s]), None)
      case _ => HostOutcome(empty, Some(restic.backupFromStdin(opt).Message()))
    else
      BackupPathsOnlySnapshots(empty, opt.backupPaths, opt.host, restic.backupPath);
      BackupPaths(empty, opt.backupPaths, opt.host, restic.backupPath)
  }

  /** The path loop changes the snapshots of the host and nothing else. */
  lemma {:induction false} BackupPathsOnlySnapshots(acc: HostBackupStats, paths: seq<string>, host: string,
                                                   backupPath: (string, string) -> Result<SnapshotStats>)
    ensures BackupPaths(acc, paths, host, backupPath).stats
      == acc.(snapshots := BackupPaths(acc, paths, host, backupPath).stats.snapshots)
    decreases |paths|
  {
    if paths != [] {
      var out := backupPath(paths[0], host);
      if out.Ok? {
        BackupPathsOnlySnapshots(acc.(snapshots := Upsert(acc.snapshots, SnapshotName, out.value)), paths[1..], host, backupPath);
      }
    }
  }

  /** `runBackup`: one snapshot read from the stdin pipe command when it is
      set, otherwise one per backup path. */
  method RunHostBackup(opt: BackupOptions, restic: Restic) returns (hostStats: HostBackupStats, err: Option<string>)
    ensures hostStats.hostname == opt.host && hostStats.error == ""
    ensures opt.stdinPipeCommand.name != "" ==>
      match restic.backupFromStdin(opt)
      case Ok(s) => hostStats == HostBackupStats(opt.host, PhaseUnset, [s], "", "") && err.None?
      case _ => hostStats == HostBackupStats(opt.host, PhaseUnset, [], "", "") &&
                err == Some(restic.backupFromStdin(opt).Message())
    ensures opt.stdinPipeCommand.name == "" ==>
      HostOutcome(hostStats, err)
        == BackupPaths(HostBackupStats(opt.host, PhaseUnset, [], "", ""), opt.backupPaths, opt.host, restic.backupPath)
    ensures HostOutcome(hostStats, err) == HostBackup(opt, restic)
  {
    hostStats := HostBackupStats(opt.host, PhaseUnset, [], "", "");
    if opt.stdinPipeCommand.name != "" {
      var out := restic.backupFromStdin(opt);
      if !out.Ok? {
        return hostStats, Some(out.Message());
      }
      hostStats := hostStats.(snapshots := [out.value]);
      return hostStats, None;
    }
    var paths := opt.backupPaths;
    var i := 0;
    while i < |paths|
      invariant 0 <= i <= |paths|
      invariant BackupPaths(hostStats, paths[i..], opt.host, restic.backupPath)
                == BackupPaths(HostBackupStats(opt.host, PhaseUnset, [], "", ""), paths, opt.host, restic.backupPath)
      invariant hostStats.hostname == opt.host && hostStats.error == ""
    {
      assert paths[i..][0] == paths[i] && paths[i..][1..] == paths[i + 1..];
      var out := restic.backupPath(paths[i], opt.host);
      if !out.Ok? {
        return hostStats, Some(out.Message());
      }
      hostStats := UpsertSnapshotStats(hostStats, out.value);
      i := i + 1;
    }
    err := None;
  }

  /** The path loop keeps the host's name, and snapshot names distinct. */
  lemma {:induction false} BackupPathsKeepsHost(acc: HostBackupStats, paths: seq<string>, host: string,
                                               backupPath: (string, string) -> Result<SnapshotStats>)
    requires DistinctKeys(acc.snapshots, SnapshotName)
    ensures BackupPaths(acc, paths, host, backupPath).stats.hostname == acc.hostname
    ensures DistinctKeys(BackupPaths(acc, paths, host, backupPath).stats.snapshots, SnapshotName)
    decreases |paths|
  {
    if paths != [] {
      var out := backupPath(paths[0], host);
      if out.Ok? {
        UpsertKeepsDistinct(acc.snapshots, SnapshotName, out.value);
        BackupPathsKeepsHost(acc.(snapshots := Upsert(acc.snapshots, SnapshotName, out.value)), paths[1..], host, backupPath);
      }
    }
  }

  /** The path loop fails exactly when some path fails, and then with the
      error of the first one, keeping what the paths before it produced. */
  lemma {:induction false} BackupPathsFirstError(acc: HostBackupStats, paths: seq<string>, host: string,
                                                backupPath: (string, string) -> Result<SnapshotStats>, k: nat)
    requires k < |paths| && !backupPath(paths[k], host).Ok?
    requires forall j :: 0 <= j < k ==> backupPath(paths[j], host).Ok?
    ensures BackupPaths(acc, paths, host, backupPath)
      == HostOutcome(BackupPaths(acc, paths[..k], host, backupPath).stats, Some(backupPath(paths[k], host).Message()))
    decreases k
  {
    if k > 0 {
      var out := backupPath(paths[0], host);
      var next := acc.(snapshots := Upsert(acc.snapshots, SnapshotName, out.value));
      BackupPathsFirstError(next, paths[1..], host, backupPath, k - 1);
      assert paths[..k][0] == paths[0] && paths[..k][1..] == paths[1..][..k - 1];
    }
  }

  /** When every path succeeds there is no error and one upsert per path:
      every path's snapshot name is in the stats, and the entry kept for a
      name is the snapshot of the last path that produced it. */
  lemma {:induction false} BackupPathsAllOk(acc: HostBackupStats, paths: seq<string>, host: string,
                                           backupPath: (string, string) -> Result<SnapshotStats>)
    requires forall j :: 0 <= j < |paths| ==> backupPath(paths[j], host).Ok?
    ensures BackupPaths(acc, paths, host, backupPath).err.None?
    ensures |BackupPaths(acc, paths, host, backupPath).stats.snapshots| <= |acc.snapshots| + |paths|
    ensures |BackupPaths(acc, paths, host, backupPath).stats.snapshots| >= |acc.snapshots|
    ensures forall j :: 0 <= j < |paths| ==>
      (exists e :: e in BackupPaths(acc, paths, host, backupPath).stats.snapshots &&
                   e.name == backupPath(paths[j], host).value.name)
    ensures forall j :: (0 <= j < |paths| &&
                         forall l :: j < l < |paths| ==> backupPath(paths[l], host).value.name != backupPath(paths[j], host).value.name) ==>
      backupPath(paths[j], host).value in BackupPaths(acc, paths, host, backupPath).stats.snapshots
    decreases |paths|
  {
    if paths != [] {
      var out := backupPath(paths[0], host);
      var u := Upsert(acc.snapshots, SnapshotName, out.value);
      assert |acc.snapshots| <= |u| <= |acc.snapshots| + 1;
      var next := acc.(snapshots := u);
      var result := BackupPaths(acc, paths, host, backupPath).stats.snapshots;
      assert forall j :: 0 <= j < |paths[1..]| ==> paths[1..][j] == paths[j + 1];
      BackupPathsAllOk(next, paths[1..], host, backupPath);
      UpsertFinds(acc.snapshots, SnapshotName, out.value);
      BackupPathsKeepsName(next, paths[1..], host, backupPath, out.value);
      if forall l :: 0 < l < |paths| ==> backupPath(paths[l], host).value.name != out.value.name {
        BackupPathsKeepsUnmatched(next, paths[1..], host, backupPath, out.value);
      }
      forall j | 0 < j < |paths| &&
        (forall l :: j < l < |paths| ==> backupPath(paths[l], host).value.name != backupPath(paths[j], host).value.name)
        ensures backupPath(paths[j], host).value in result
      {
        assert paths[1..][j - 1] == paths[j];
      }
      forall j | 0 < j < |paths|
        ensures exists e :: e in result && e.name == backupPath(paths[j], host).value.name
      {
        assert paths[1..][j - 1] == paths[j];
      }
    }
  }

  /** A snapshot whose name no path produces survives the path loop. */
  lemma {:induction false} BackupPathsKeepsUnmatched(acc: HostBackupStats, paths: seq<string>, host: string,
                                                    backupPath: (string, string) -> Result<SnapshotStats>, y: SnapshotStats)
    requires forall j :: 0 <= j < |paths| ==> backupPath(paths[j], host).Ok?
    requires forall j :: 0 <= j < |paths| ==> backupPath(paths[j], host).value.name != y.name
    requires y in acc.snapshots
    ensures y in BackupPaths(acc, paths, host, backupPath).stats.snapshots
    decreases |paths|
  {
    if paths != [] {
      var out := backupPath(paths[0], host);
      UpsertKeepsOthers(acc.snapshots, SnapshotName, out.value, y);
      assert forall j :: 0 <= j < |paths[1..]| ==> paths[1..][j] == paths[j + 1];
      BackupPathsKeepsUnmatched(acc.(snapshots := Upsert(acc.snapshots, SnapshotName, out.value)), paths[1..], host, backupPath, y);
    }
  }

  /** A name present before the path loop is still present after it. */
  lemma {:induction false} BackupPathsKeepsName(acc: HostBackupStats, paths: seq<string>, host: string,
                                               backupPath: (string, string) -> Result<SnapshotStats>, y: SnapshotStats)
    requires forall j :: 0 <= j < |paths| ==> backupPath(paths[j], host).Ok?
    requires y in acc.snapshots
    ensures exists e :: e in BackupPaths(acc, paths, host, backupPath).stats.snapshots && e.name == y.name
    decreases |paths|
  {
    if paths == [] {
      assert y in acc.snapshots && y.name == y.name;
    } else {
      var out := backupPath(paths[0], host);
      var u := Upsert(acc.snapshots, SnapshotName, out.value);
      UpsertKeepsKey(acc.snapshots, SnapshotName, out.value, y);
      var z :| z in u && SnapshotName(z) == SnapshotName(y);
      assert forall j :: 0 <= j < |paths[1..]| ==> paths[1..][j] == paths[j + 1];
      BackupPathsKeepsName(acc.(snapshots := u), paths[1..], host, backupPath, z);
    }
  }

  // ---- RunBackup ----------------------------------------------------------------

  /** `RunBackup`: initialise the repository, back the host up, then record
      integrity, cleanup counts and size.  Any failure discards the output.
      On success the one host entry is marked `Succeeded` with the elapsed
      time. */
  method RunBackup(opt: BackupOptions, restic: Restic) returns (output: BackupOutput?, err: Option<string>)
    ensures output == null <==> err.Some?
    ensures err == RunBackupError(opt, restic)
    ensures output != null ==> fresh(output)
    ensures output != null ==>
      output.repositoryStats == RepositoryStats(
        Some(restic.check.value),
        restic.stats.value,
        restic.cleanup(opt.retentionPolicy, "").value.kept,
        restic.cleanup(opt.retentionPolicy, "").value.removed)
    ensures output != null ==>
      output.hostBackupStats ==
        [HostBackup(opt, restic).stats.(duration := restic.elapsed, phase := HostBackupSucceeded)]
  {
    if restic.initRepository.Some? {
      return null, restic.initRepository;
    }
    var out := new BackupOutput();
    var hostStats, backupErr := RunHostBackup(opt, restic);
    if backupErr.Some? {
      return null, backupErr;
    }
    out.hostBackupStats := [hostStats];
    if !restic.check.Ok? {
      return null, Some(restic.check.Message());
    }
    out.repositoryStats := out.repositoryStats.(integrity := Some(restic.check.value));
    var cleaned := restic.cleanup(opt.retentionPolicy, "");
    if !cleaned.Ok? {
      return null, Some(cleaned.Message());
    }
    out.repositoryStats := out.repositoryStats.(snapshotCount := cleaned.value.kept,
                                                snapshotsRemovedOnLastCleanup := cleaned.value.removed);
    if !restic.stats.Ok? {
      return null, Some(restic.stats.Message());
    }
    out.repositoryStats := out.repositoryStats.(size := restic.stats.value);
    out.MarkSucceeded(opt.host, restic.elapsed);
    return out, None;
  }

  /** The error `RunBackup` returns: that of the first step to fail, in
      the order initialisation, host backup, check, cleanup, stats. */
  function RunBackupError(opt: BackupOptions, restic: Restic): (err: Option<string>)
    ensures err.None? <==>
      restic.initRepository.None? && HostBackup(opt, restic).err.None? && restic.check.Ok? &&
      restic.cleanup(opt.retentionPolicy, "").Ok? && restic.stats.Ok?
    ensures restic.initRepository.Some? ==> err == restic.initRepository
    ensures restic.initRepository.None? && HostBackup(opt, restic).err.Some? ==> err == HostBackup(opt, restic).err
    ensures restic.initRepository.None? && HostBackup(opt, restic).err.None? && !restic.check.Ok? ==>
      err == Some(restic.check.Message())
    ensures restic.initRepository.None? && HostBackup(opt, restic).err.None? && restic.check.Ok? &&
            !restic.cleanup(opt.retentionPolicy, "").Ok? ==>
      err == Some(restic.cleanup(opt.retentionPolicy, "").Message())
    ensures restic.initRepository.None? && HostBackup(opt, restic).err.None? && restic.check.Ok? &&
            restic.cleanup(opt.retentionPolicy, "").Ok? && !restic.stats.Ok? ==>
      err == Some(restic.stats.Message())
  {
    if restic.initRepository.Some? then restic.initRepository
    else if HostBackup(opt, restic).err.Some? then HostBackup(opt, restic).err
    else if !restic.check.Ok? then Some(restic.check.Message())
    else if !restic.cleanup(opt.retentionPolicy, "").Ok? then Some(restic.cleanup(opt.retentionPolicy, "").Message())
    else if !restic.stats.Ok? then Some(restic.stats.Message())
    else None
  }

  // ---- cleanup summation ------------------------------------------------------

  /** The cleanup totals of `RunParallelBackup` from `acc` on, or the error of
      the first cleanup that fails. */
  function CleanupFrom(acc: CleanupInfo, opts: seq<BackupOptions>,
                       cleanup: (RetentionPolicy, string) -> Result<CleanupInfo>): Result<CleanupInfo>
    decreases |opts|
  {
    if opts == [] then Ok(acc)
    else
      var out := cleanup(opts[0].retentionPolicy, opts[0].host);
      if !out.Ok? then Err(out.Message())
      else CleanupFrom(CleanupInfo(acc.kept + out.value.kept, acc.removed + out.value.removed), opts[1..], cleanup)
  }

  /** The kept counts reported for each option, added up. */
  function SumKept(opts: seq<BackupOptions>, cleanup: (RetentionPolicy, string) -> Result<CleanupInfo>): int
    requires forall i :: 0 <= i < |opts| ==> cleanup(opts[i].retentionPolicy, opts[i].host).Ok?
  {
    if opts == [] then 0
    else cleanup(opts[0].retentionPolicy, opts[0].host).value.kept + SumKept(opts[1..], cleanup)
  }

  /** The removed counts reported for each option, added up. */
  function SumRemoved(opts: seq<BackupOptions>, cleanup: (RetentionPolicy, string) -> Result<CleanupInfo>): int
    requires forall i :: 0 <= i < |opts| ==> cleanup(opts[i].retentionPolicy, opts[i].host).Ok?
  {
    if opts == [] then 0
    else cleanup(opts[0].retentionPolicy, opts[0].host).value.removed + SumRemoved(opts[1..], cleanup)
  }

  /** When every cleanup succeeds the totals are the sums of the per-host
      counts on top of `acc`; otherwise the first failure is reported. */
  lemma {:induction false} CleanupFromSums(acc: CleanupInfo, opts: seq<BackupOptions>,
                                          cleanup: (RetentionPolicy, string) -> Result<CleanupInfo>)
    ensures CleanupFrom(acc, opts, cleanup).Ok? <==>
      forall i :: 0 <= i < |opts| ==> cleanup(opts[i].retentionPolicy, opts[i].host).Ok?
    ensures CleanupFrom(acc, opts, cleanup).Ok? ==>
      CleanupFrom(acc, opts, cleanup).value
        == CleanupInfo(acc.kept + SumKept(opts, cleanup), acc.removed + SumRemoved(opts, cleanup))
    ensures CleanupFrom(acc, opts, cleanup).Panic? == false
    decreases |opts|
  {
    if opts != [] {
      var out := cleanup(opts[0].retentionPolicy, opts[0].host);
      if out.Ok? {
        var next := CleanupInfo(acc.kept + out.value.kept, acc.removed + out.value.removed);
        CleanupFromSums(next, opts[1..], cleanup);
        if CleanupFrom(acc, opts, cleanup).Ok? {
          assert forall i :: 1 <= i < |opts| ==> opts[i] == opts[1..][i - 1];
        } else {
          var j :| 0 <= j < |opts[1..]| && !cleanup(opts[1..][j].retentionPolicy, opts[1..][j].host).Ok?;
          assert opts[1..][j] == opts[j + 1];
        }
      }
    }
  }
}
