# Stash PostgreSQL plugin: a Dafny model

This project models the deterministic core of the Stash PostgreSQL addon,
`stash-postgres`.

- **`backup-pg` and `restore-pg`.** These commands connect to a PostgreSQL
  database described by an AppBinding and its Secret. They build the
  `pg_dump`, `pg_dumpall`, `psql` and `pg_isready` command lines and the
  `PG*` environment variables. Backup output is piped into restic and
  restore output is piped from it.
- **The restic wrapper of Stash.** It keeps host and snapshot statistics,
  sums cleanup counts, serialises its environment as sorted lines, and copies
  itself.
- **The Prometheus metrics of both Stash libraries.** This covers the label
  maps, which gauges are registered for which outcome, the 0/1 success flags
  and the integer file counters.

Everything the programs learn from outside is an input of the model. That
includes the Kubernetes API, restic and `pg_isready` subprocesses, files
written, the Pushgateway, environment settings and the clock. A Go `error`
is a `Result` or `Option` value. A Go panic is the `Panic` or `Panicked`
outcome, never a precondition. Objects the source changes in place are
Dafny classes whose methods state the new state:

- the shell session;
- the restic wrapper;
- the backup output;
- the `sessionWrapper` of the PostgreSQL utilities;
- the AppBinding, whose service port is rewritten;
- the command options of both commands.

Files by module:

| file | module | source |
|---|---|---|
| wrappers.dfy | `Wrappers` | Go `error`/panic as `Result`, nil as `Option` |
| go_strings.dfy | `GoStrings` | `strings.Split`, `Fields`, `TrimSpace`, `Join`, `%d` formatting |
| string_order.dfy | `StringOrder` | byte order of strings and `sort.Strings` |
| keyed.dfy | `Keyed` | replace-or-append by key |
| stash_api.dfy | `StashApi` | statistics, statuses and option records |
| restic_config.dfy | `ResticConfig` | `stash/pkg/restic/config.go` |
| restic_backup.dfy | `ResticBackup` | `stash/pkg/restic/backup.go` |
| metrics_common.dfy | `Metrics` | label and gauge logic shared by both `metrics.go` |
| api_metrics.dfy | `ApiMetrics` | `apimachinery/pkg/restic/metrics.go` |
| stash_metrics.dfy | `StashMetrics` | `stash/pkg/restic/metrics.go` |
| pg_util.dfy | `PgUtil` | `pkg/util.go` |
| pg_backup.dfy | `PgBackup` | `pkg/backup.go` |
| pg_restore.dfy | `PgRestore` | `pkg/restore.go` |

The three PostgreSQL files are modelled each as written, although they
differ:

- `PGSSLMODE` is set only when non-empty in `pkg/util.go` but always in
  `pkg/backup.go`.
- The user's arguments are split on white space for `pg_dump` but passed to
  `psql` as one argument.

## Model

| member | source | states |
|---|---|---|
| PgUtil.GetSSLMode | pkg/util.go:200-211 | an empty query gives `""`; otherwise it succeeds exactly when the query holds one `=`, and then the mode is the trimmed text after it; otherwise the fixed template error |
| PgUtil.SSLModeOf | pkg/util.go:200-211 | an AppBinding without a service panics with the nil-dereference error; with one, the mode is `GetSSLMode` of its query |
| PgUtil.GetSSLModeIgnoresKey | pkg/util.go:205-210 | the key before `=` is never checked: `k=m` gives `TrimSpace(m)` for any `k` |
| PgUtil.Must | pkg/util.go:80-85 | a failed read becomes a panic with its error; a value passes through |
| PgUtil.GetBytesForKeys | pkg/util.go:136-140 | succeeds exactly when one of the keys is present and returns the value of the first present key |
| PgUtil.CanonicalKeyFirst | pkg/util.go:136-140 | the canonical key wins over the deprecated one, the deprecated one is used only without it, and neither panics through `must` |
| PgUtil.PortOrDefault | pkg/util.go:162-164 | port 0 becomes 5432; any other port is kept |
| PgUtil.WithDefaultPort | pkg/util.go:162-164 | an AppBinding without a service panics with the nil-dereference error; otherwise name and query are kept and the port is defaulted, never 0 |
| PgUtil.PathJoin | pkg/util.go:119-132 | paths in the scratch directory: the directory, `/`, then the file name |
| PgUtil.SessionWrapper.constructor | pkg/util.go:92-99 | a fresh session with an empty environment, the command name, no arguments |
| PgUtil.SessionWrapper.SetDatabaseCredentials | pkg/util.go:101-153 | TLS branch (cert required, files written, user `postgres`, `PGSSLCERT`/`PGSSLKEY`) or basic auth (password then user from the secret, canonical key first, panic when missing); `PGSSLMODE` only for a non-empty mode; `--username=<u>` appended after the existing arguments; each error and what was set before it; a missing service panics at the mode step |
| PgUtil.SessionWrapper.SetDatabaseConnectionParameters | pkg/util.go:155-173 | `--host=<h>` then `--port=<p>` appended; a zero port rewritten to 5432 in the AppBinding; a missing service panics after `--host`; hostname and port errors and what was appended before them |
| PgUtil.SessionWrapper.SetUserArgs | pkg/util.go:175-179 | the arguments become the old ones followed by the white-space tokens of the text, in order |
| PgUtil.UserArgsRoundTrip | pkg/util.go:175-179 | tokens joined by spaces come back as the same tokens; a blank text adds none |
| PgUtil.SessionWrapper.SetTLSParameters | pkg/util.go:181-190 | `PGSSLROOTCERT` points at `ca.crt` in the scratch directory exactly when there is a CA bundle and its write succeeded |
| PgUtil.SessionWrapper.WaitForDBReady | pkg/util.go:192-198 | `pg_isready` runs with the command's arguments followed by `--timeout=<n>` |
| PgUtil.PgIsReadyArgs | pkg/util.go:195-197 | the existing arguments are a prefix and the timeout flag is last |
| PgBackup.SetupError | pkg/backup.go:157-207 | the first failing setup step, in the order the steps run |
| PgBackup.BackupUser | pkg/backup.go:219-247 | with `tls.key`: succeeds exactly when the cert is present and both writes succeed, and the user is `postgres`; without it: succeeds exactly when password and user are found, and the user is the secret's |
| PgBackup.BackupEnvContents | pkg/backup.go:219-260 | the backup environment holds `PGSSLMODE` always (even empty), cert and key paths exactly with TLS, the password exactly without it, `PGSSLROOTCERT` exactly with a CA bundle, and every earlier variable unchanged |
| PgBackup.SetBackupCredentials | pkg/backup.go:219-247 | the user outcome is `BackupUser`, and the environment after each outcome |
| PgBackup.SetConnectionEnv | pkg/backup.go:219-260 | succeeds exactly when the user, the CA file and the SSL mode can all be set; each failure is the step's error; on success the environment is `BackupEnv` of the earlier one |
| PgBackup.DumpCommand | pkg/backup.go:263-273 | `--host`, `--port`, `--username` in that order, then the white-space tokens of the user's arguments |
| PgBackup.DumpCommandUserArgs | pkg/backup.go:270-272 | user arguments given as space-joined tokens reach the dump command as exactly those tokens |
| PgBackup.BuildDumpCommand | pkg/backup.go:263-273 | the loop builds `DumpCommand` |
| PgBackup.FailedOutput | pkg/backup.go:96-110 | a failed backup's output: the target, exactly one host entry with the configured host, phase `Failed` and the error |
| PgBackup.BackupTarget | pkg/backup.go:89-93 | the target is the AppBinding kind with the given name |
| PgBackup.PostgresOptions.constructor | pkg/backup.go:47-58 | wait timeout 300, host `host-0`, stdin file `dumpfile.sql`, scratch dir `/tmp`, cache disabled |
| PgBackup.PostgresOptions.BackupPostgreSQL | pkg/backup.go:157-286 | each step's error in order; invalid commands rejected with the fixed message; a missing service panics at the port; port 0 rewritten to 5432; the user, CA and sslmode errors; on reaching the dump, the environment is `BackupEnv`, the dump command is appended after the earlier pipe commands, and the result is the wait error or the backup run; in all cases the result is `BackupOutcome` of the inputs and the state as given |
| PgBackup.BackupOutcome | pkg/backup.go:157-286 | `backupPostgreSQL`'s result: the setup error, the command error, the nil-service panic, the user, CA and sslmode errors, the wait error, else the backup run on the options with the dump appended; it panics exactly on a missing service, a `must` panic or a panicking run |
| PgBackup.PostgresOptions.RunE | pkg/backup.go:65-117 | the command panics exactly when `BackupOutcome` panics; otherwise a failed backup becomes a one-host `Failed` output carrying the backup's error text, a successful one its own status; that status is written to `output.json` exactly when an output directory is set; the result is the write's error, or nothing, never the backup error |
| PgRestore.RestorePipeCommand | pkg/restore.go:90-99 | `psql -U <user> -h <host>` and no port; a non-empty user argument string is one single extra argument |
| PgRestore.SecretValue | pkg/restore.go:88-93 | a missing secret key reads as the empty string |
| PgRestore.NewAggregate | pkg/restore.go:107-111 | the non-nil errors in order; nil exactly when all are nil |
| PgRestore.NonNil | pkg/restore.go:110 | exactly the messages of the non-nil errors |
| PgRestore.NonNilEmpty | pkg/restore.go:110 | no message exactly when every error is nil |
| PgRestore.NonNilAppend | pkg/restore.go:110 | the messages of a concatenation are the concatenation of the messages |
| PgRestore.MetricsAggregate | pkg/restore.go:107-111 | a metrics failure returns both errors when the dump failed and only its own otherwise |
| PgRestore.RestoreSetupError | pkg/restore.go:56-85 | no setup error exactly when clients, AppBinding, secret and restic setup all succeed |
| PgRestore.RestoreCommand.constructor | pkg/restore.go:25-35 | host `host-0`, file `dumpfile.sql`, scratch dir `/tmp`, cache disabled, the job name |
| PgRestore.RestoreCommand.RunE | pkg/restore.go:42-121 | nice errors go through `HandleResticError`; setup errors are returned; `PGPASSWORD` is set, then a missing service panics, else the `psql` pipe command is set; a metrics failure aggregates with the dump error; `output.json` is written only after a successful dump with an output directory, and its error is returned; otherwise the dump error |
| PgRestore.RestoreSucceeds | pkg/restore.go:107-120 | the command succeeds exactly when the dump, the metrics (when they fail) and the write (when asked for) all succeed |
| ResticConfig.Session.SetEnv | vendor/stash.appscode.dev/stash/pkg/restic/config.go:100-104 | the session's variable is set and nothing else changes |
| ResticConfig.ResticWrapper.SetEnv | vendor/stash.appscode.dev/stash/pkg/restic/config.go:100-104 | sets the variable when there is a session; otherwise a no-op |
| ResticConfig.ResticWrapper.HideCMD | vendor/stash.appscode.dev/stash/pkg/restic/config.go:129-133 | only `ShowCMD` becomes false |
| ResticConfig.ResticWrapper.GetRepo | vendor/stash.appscode.dev/stash/pkg/restic/config.go:135-140 | the `RESTIC_REPOSITORY` value, or `""` without a session or variable |
| ResticConfig.ResticWrapper.EnvContent | vendor/stash.appscode.dev/stash/pkg/restic/config.go:111-121 | one `k=v` line per variable in ascending key order; empty without a session |
| ResticConfig.ResticWrapper.DumpEnv | vendor/stash.appscode.dev/stash/pkg/restic/config.go:106-127 | the mkdir error, else the file written at the path with the sorted content and the write's error |
| ResticConfig.DumpText | vendor/stash.appscode.dev/stash/pkg/restic/config.go:116-120 | the loop builds the lines of the sorted keys |
| ResticConfig.EnvTextLineCount | vendor/stash.appscode.dev/stash/pkg/restic/config.go:116-120 | one newline per key, and the text ends in a newline |
| ResticConfig.EnvTextSnoc | vendor/stash.appscode.dev/stash/pkg/restic/config.go:116-120 | each iteration appends exactly one line |
| ResticConfig.SortedKeys | vendor/stash.appscode.dev/stash/pkg/restic/config.go:112-117 | the keys of the environment, sorted |
| ResticConfig.MapKeys | vendor/stash.appscode.dev/stash/pkg/restic/config.go:112-115 | every key exactly once |
| ResticConfig.SortStrings | vendor/stash.appscode.dev/stash/pkg/restic/config.go:117 | strictly sorted, the same elements |
| StringOrder.SortedUnique | vendor/stash.appscode.dev/stash/pkg/restic/config.go:117 | a set has one strictly sorted listing |
| ResticConfig.NewResticWrapper | vendor/stash.appscode.dev/stash/pkg/restic/config.go:82-98 | the setup error and no wrapper; or a wrapper with the options, the scratch directory, and `ShowCMD`, `PipeFail` and `PipeStdErrors` set |
| ResticConfig.Copy | vendor/stash.appscode.dev/stash/pkg/restic/config.go:143-167 | nil gives nil; otherwise a fresh wrapper and session with an equal environment, flags and config |
| ResticConfig.CopyIsIndependent | vendor/stash.appscode.dev/stash/pkg/restic/config.go:143-167 | changing the copy's environment leaves the original's unchanged |
| ResticBackup.UpsertSnapshotStats | vendor/stash.appscode.dev/stash/pkg/restic/backup.go:227-238 | replace the first entry of the same name in place, or append; nothing else changes |
| ResticBackup.BackupOutput.UpsertHostBackupStats | vendor/stash.appscode.dev/stash/pkg/restic/backup.go:240-253 | the same, keyed on hostname; distinct hostnames stay distinct |
| Keyed.UpsertReplaces | vendor/stash.appscode.dev/stash/pkg/restic/backup.go:228-233 | an existing key is replaced at its first index; length and other entries are unchanged |
| Keyed.UpsertAppends | vendor/stash.appscode.dev/stash/pkg/restic/backup.go:235-237 | an unseen key is appended at the end |
| Keyed.UpsertFinds | vendor/stash.appscode.dev/stash/pkg/restic/backup.go:227-238 | after the upsert, the key is found at the entry |
| Keyed.UpsertKeepsOthers | vendor/stash.appscode.dev/stash/pkg/restic/backup.go:227-238 | a record under another key survives the upsert |
| Keyed.UpsertKeepsKey | vendor/stash.appscode.dev/stash/pkg/restic/backup.go:227-238 | every key present before the upsert is present after it |
| Keyed.UpsertKeepsDistinct | vendor/stash.appscode.dev/stash/pkg/restic/backup.go:240-253 | upsert keeps keys distinct |
| ResticBackup.RunHostBackup | vendor/stash.appscode.dev/stash/pkg/restic/backup.go:189-225 | stdin mode gives one snapshot for the host; path mode upserts once per path, in order, and the first error returns the partial stats; the result is `HostBackup` |
| ResticBackup.BackupPathsKeepsHost | vendor/stash.appscode.dev/stash/pkg/restic/backup.go:211-224 | the path loop never changes the hostname |
| ResticBackup.BackupPathsFirstError | vendor/stash.appscode.dev/stash/pkg/restic/backup.go:211-224 | the loop stops at the first failing path, with the stats of the paths before it |
| ResticBackup.BackupPathsAllOk | vendor/stash.appscode.dev/stash/pkg/restic/backup.go:211-224 | when every path succeeds: no error, every path's snapshot name is in the stats, and the entry kept for a name is the snapshot of the last path that produced it |
| ResticBackup.BackupPathsKeepsUnmatched | vendor/stash.appscode.dev/stash/pkg/restic/backup.go:211-238 | a snapshot whose name no path produces stays in the stats |
| ResticBackup.BackupPathsKeepsName | vendor/stash.appscode.dev/stash/pkg/restic/backup.go:211-238 | a snapshot name present before the path loop is present after it |
| ResticBackup.BackupOutput.MarkSucceeded | vendor/stash.appscode.dev/stash/pkg/restic/backup.go:68-73 | exactly the entries of the host get the duration and `Succeeded` |
| ResticBackup.HostBackup | vendor/stash.appscode.dev/stash/pkg/restic/backup.go:189-225 | the host's statistics and error: one stdin snapshot or its error, else the path loop; the hostname and an empty error always |
| ResticBackup.BackupPathsOnlySnapshots | vendor/stash.appscode.dev/stash/pkg/restic/backup.go:211-224 | the path loop changes only the host's snapshots |
| ResticBackup.RunBackupError | vendor/stash.appscode.dev/stash/pkg/restic/backup.go:14-65 | no error exactly when initialisation, the host backup, check, cleanup and stats all succeed; otherwise the error of the first that fails |
| ResticBackup.RunBackup | vendor/stash.appscode.dev/stash/pkg/restic/backup.go:14-76 | the error is `RunBackupError` and the output is nil exactly when there is one; otherwise integrity, counts and size from the steps, and the one host entry is `HostBackup`'s statistics, snapshots included, marked `Succeeded` with the elapsed time |
| ResticBackup.BackupOutput.SumCleanup | vendor/stash.appscode.dev/stash/pkg/restic/backup.go:156-171 | counters reset to 0 and then the sums of kept and removed over all options, or the first cleanup error |
| ResticBackup.CleanupFromSums | vendor/stash.appscode.dev/stash/pkg/restic/backup.go:156-171 | without errors the totals are `SumKept` and `SumRemoved` |
| Metrics.UpsertLabel | vendor/stash.appscode.dev/apimachinery/pkg/restic/metrics.go:972-983 | the keys are the union, and the new map's values win |
| Metrics.UpsertLabelAssociative | vendor/stash.appscode.dev/stash/pkg/restic/metrics.go:586-597 | merging in steps is merging at once |
| Metrics.ParseUserProvidedLabels | vendor/stash.appscode.dev/apimachinery/pkg/restic/metrics.go:1042-1051 | keys are exactly those of the two-part `k=v` entries, and each value comes from the last entry for its key |
| Metrics.ParseSkipsMalformed | vendor/stash.appscode.dev/stash/pkg/restic/metrics.go:653-662 | entries that do not split into two parts are dropped silently |
| Metrics.ParseSinglePair | vendor/stash.appscode.dev/stash/pkg/restic/metrics.go:653-662 | one `k=v` entry gives exactly the label `k: v` |
| Metrics.ParseSnoc | vendor/stash.appscode.dev/stash/pkg/restic/metrics.go:656-660 | a later entry overrides an earlier one |
| Metrics.LabelPairSplit | vendor/stash.appscode.dev/apimachinery/pkg/restic/metrics.go:1045-1048 | a pair splits into key and value around its one `=` |
| Metrics.VolumeSnapshotterLabels | vendor/stash.appscode.dev/apimachinery/pkg/restic/metrics.go:1013-1019 | driver `VolumeSnapshotter`, kind `PersistentVolumeClaim`, the core group (`""`) |
| Metrics.TargetLabels | vendor/stash.appscode.dev/apimachinery/pkg/restic/metrics.go:986-1010 | the kind, the group and the name of the target; the AppBinding's group and kind come from the lookup, whose NotFound is tolerated only where the source tolerates it |
| Metrics.RepositoryLabels | vendor/stash.appscode.dev/apimachinery/pkg/restic/metrics.go:934-970 | name, namespace and backend always; bucket and prefix only when non-empty |
| Metrics.HostValues | vendor/stash.appscode.dev/apimachinery/pkg/restic/metrics.go:801-852 | the loop sums the file counters of all snapshots, or stops with the first conversion error |
| Metrics.SumSnapshotsTotals | vendor/stash.appscode.dev/apimachinery/pkg/restic/metrics.go:812-843 | the counters are the sums of the per-snapshot counts |
| Metrics.SumSnapshotsFailure | vendor/stash.appscode.dev/stash/pkg/restic/metrics.go:416-447 | a failed sum names its cause: an error comes from some snapshot's conversion, a panic from some snapshot missing a counter |
| Metrics.SumSnapshotsFirstFailure | vendor/stash.appscode.dev/apimachinery/pkg/restic/metrics.go:812-834 | the first snapshot that cannot be summed decides: its own conversion error aborts the sum, or a nil-dereference panic when it converts but lacks a counter |
| Metrics.GaugesFromAll | vendor/stash.appscode.dev/apimachinery/pkg/restic/metrics.go:575-614 | per-host registration is all hosts' gauges in host order, or the first failure |
| Metrics.AllGaugesUniform | vendor/stash.appscode.dev/stash/pkg/restic/metrics.go:306-334 | hosts with n gauges each register n per host |
| Metrics.SendMetrics | vendor/stash.appscode.dev/apimachinery/pkg/restic/metrics.go:872-890 | push when a URL is set, then write when a directory is set; the push error when the push fails, otherwise the write error when the write fails, nil when no attempted step fails |
| Metrics.ReportOf | vendor/stash.appscode.dev/apimachinery/pkg/restic/metrics.go:872-890 | computed gauges are sent; errors and panics are reported as such |
| ApiMetrics.InvokerLabels | vendor/stash.appscode.dev/apimachinery/pkg/restic/metrics.go:893-932 | invoker kind, name and namespace override the user's labels; the Restic driver adds driver and repository; the snapshotter adds its labels and no repository |
| ApiMetrics.SendBackupSessionMetrics | vendor/stash.appscode.dev/apimachinery/pkg/restic/metrics.go:458-502 | a failed session registers only success 0; a successful one registers success 1, its duration, its target count and the last success time |
| ApiMetrics.FirstMatch | vendor/stash.appscode.dev/apimachinery/pkg/restic/metrics.go:525-527 | the index of the first matching status, or none |
| ApiMetrics.SendBackupTargetMetrics | vendor/stash.appscode.dev/apimachinery/pkg/restic/metrics.go:505-556 | only the first target matching the reference is sent; none matching sends nothing |
| ApiMetrics.BackupTargetGauges | vendor/stash.appscode.dev/apimachinery/pkg/restic/metrics.go:527-549 | a succeeded target registers success 1, the last success time and the host count, which holds a value only when the total is present; any other phase registers success 0 alone |
| ApiMetrics.BackupHostGauges | vendor/stash.appscode.dev/apimachinery/pkg/restic/metrics.go:580-614 | a host with an error gets only success 0; otherwise its gauges, or the counters' error |
| ApiMetrics.BackupHostValueGauges | vendor/stash.appscode.dev/apimachinery/pkg/restic/metrics.go:801-852 | success 1, the converted durations and sizes, and the four file counters |
| ApiMetrics.BackupHostFileCounters | vendor/stash.appscode.dev/apimachinery/pkg/restic/metrics.go:812-843 | the file gauges hold the sums over the snapshots |
| ApiMetrics.SendBackupHostMetrics | vendor/stash.appscode.dev/apimachinery/pkg/restic/metrics.go:559-617 | nil output is an error; otherwise every host's gauges in order |
| ApiMetrics.BackupHostsGaugeCount | vendor/stash.appscode.dev/apimachinery/pkg/restic/metrics.go:575-614 | the number of gauges registered for the hosts |
| ApiMetrics.AllGaugesCount | vendor/stash.appscode.dev/apimachinery/pkg/restic/metrics.go:575-614 | registration is one to nine gauges per host |
| ApiMetrics.RepoMetricLabels | vendor/stash.appscode.dev/apimachinery/pkg/restic/metrics.go:934-970 | the repository's labels, or the lookup's error |
| ApiMetrics.RepositoryGauges | vendor/stash.appscode.dev/apimachinery/pkg/restic/metrics.go:854-870 | integrity 1 exactly when it is present and true; size and the snapshot counts |
| ApiMetrics.SendRepositoryMetrics | vendor/stash.appscode.dev/apimachinery/pkg/restic/metrics.go:620-650 | the repository gauges under the invoker's and repository's labels |
| ApiMetrics.SendRestoreSessionMetrics | vendor/stash.appscode.dev/apimachinery/pkg/restic/metrics.go:653-693 | success 0 only on failure; success 1, duration and target count on success |
| ApiMetrics.RestoreTargetGauges | vendor/stash.appscode.dev/apimachinery/pkg/restic/metrics.go:718-736 | a succeeded target registers success 1 and the host count, which holds a value only when the total is present; any other phase registers success 0 alone |
| ApiMetrics.SendRestoreTargetMetrics | vendor/stash.appscode.dev/apimachinery/pkg/restic/metrics.go:696-743 | only the first matching target is sent |
| ApiMetrics.RestoreHostGauges | vendor/stash.appscode.dev/apimachinery/pkg/restic/metrics.go:767-796 | a host without an error registers success 1 and its duration, or the duration's parse error; a host with an error registers success 0 alone |
| ApiMetrics.SendRestoreHostMetrics | vendor/stash.appscode.dev/apimachinery/pkg/restic/metrics.go:746-799 | nil output is an error; otherwise every host's gauges in order |
| StashMetrics.MetricLabels | vendor/stash.appscode.dev/stash/pkg/restic/metrics.go:496-544 | a nil configuration gives just the user labels; otherwise driver and target labels, the repository for Restic, and the namespace set last |
| StashMetrics.RepoMetricLabels | vendor/stash.appscode.dev/stash/pkg/restic/metrics.go:546-584 | the repository's labels only with a target, or the lookup's error |
| StashMetrics.HandleBackupSetupMetrics | vendor/stash.appscode.dev/stash/pkg/restic/metrics.go:263-284 | one gauge, 1 exactly when setup succeeded |
| StashMetrics.BackupHostGauges | vendor/stash.appscode.dev/stash/pkg/restic/metrics.go:306-334 | all nine gauges always; success 1 exactly when neither the backup nor the host failed |
| StashMetrics.HostValueGauges | vendor/stash.appscode.dev/stash/pkg/restic/metrics.go:405-456 | the converted values and the summed file counters |
| StashMetrics.RepositoryGauges | vendor/stash.appscode.dev/stash/pkg/restic/metrics.go:458-474 | a nil integrity is a nil dereference; otherwise 1 exactly when true |
| StashMetrics.HandleBackupMetrics | vendor/stash.appscode.dev/stash/pkg/restic/metrics.go:286-358 | nil output registers only success 0 after an error and is "invalid backup output" otherwise; else host gauges and repository gauges |
| StashMetrics.BackupHostsShape | vendor/stash.appscode.dev/stash/pkg/restic/metrics.go:306-334 | the hosts' part of a backup report: nine gauges per host, each host's first gauge 0 after a backup error |
| StashMetrics.BackupGaugesShape | vendor/stash.appscode.dev/stash/pkg/restic/metrics.go:306-357 | nine gauges per host plus four repository gauges; each host's first gauge is 0 after a backup error |
| Metrics.AllGaugesAt | vendor/stash.appscode.dev/stash/pkg/restic/metrics.go:306-334 | with n gauges per host, the gauges of host i are exactly positions n·i to n·i+n−1 (9i to 9i+8 for backups) |
| StashMetrics.RestoreHostGauges | vendor/stash.appscode.dev/stash/pkg/restic/metrics.go:379-400 | both gauges always; duration only when the restore and host succeeded |
| Metrics.CollectGauges | vendor/stash.appscode.dev/stash/pkg/restic/metrics.go:378-400 | the host loop yields exactly the fold `GaugesFrom`: every host's gauges in host order, or the first host's failure |
| StashMetrics.HandleRestoreMetrics | vendor/stash.appscode.dev/stash/pkg/restic/metrics.go:360-403 | the same nil-output rules; two gauges per host |
| StashMetrics.RestoreGaugesCount | vendor/stash.appscode.dev/stash/pkg/restic/metrics.go:379-400 | two gauges per host |
| GoStrings.Split | pkg/util.go:205 | one more part than separators; no part contains the separator; the parts joined give the text back |
| GoStrings.SplitSecond | pkg/util.go:209-210 | with one separator, the second part is the text after it |
| GoStrings.TrimSpacePadded | pkg/util.go:210 | white space around a text without outer spaces is removed and nothing else |
| GoStrings.FieldsOfJoin | pkg/util.go:176-178 | tokens joined by single spaces are split back into the same tokens |
| GoStrings.FieldsEmpty | pkg/util.go:176-178 | blank text has no tokens |
| GoStrings.FieldsKeepsText | pkg/util.go:176-178 | the tokens hold exactly the text's non-space characters, in order |
| GoStrings.IntToStringRoundTrip | pkg/util.go:170 | the decimal text of a port parses back to the port |

## Left out

- Kubernetes calls are inputs of the model: REST config, license check, clientsets, the AppBinding and Secret GETs, `TransformSecret`, and the group and kind lookups behind the target and repository labels. So is the AppBinding's `Hostname()`.
- `PgUtil.SessionWrapper.SetDatabaseConnectionParameters` takes only the error of the AppBinding's `Port()` as an input. The port it writes is the service's own port, as defaulted, not a value `Port()` returns.
- Subprocesses are inputs: restic (init, backup, check, cleanup, stats, dump), `pg_isready`, and the parsers of their output.
- The AppBinding's secret reference is a plain name. The source dereferences `Spec.Secret` without a nil check (util.go:102, backup.go:191, restore.go:76), but the Secret GET is an input here, so a missing reference panicking is not modelled.
- `NewResticWrapper`'s `setupEnv` and the `PATH` its session seeds are reduced to the resulting environment, which is an input.
- `PgUtil.SessionWrapper.constructor` starts with an empty environment. go-sh's `NewSession` would seed `PATH` there too.
- Files and the network are reduced to paths, contents and errors: cert, key and CA writes, `output.json`, `DumpEnv`'s directory and file, `metric.prom`, and the Pushgateway.
- Float gauge values are strings passed through conversion inputs. This covers `convertSizeToBytes`, `time.ParseDuration(...).Seconds()` and `SetToCurrentTime`.
- Wall-clock durations are inputs.
- The goroutines, wait group, limiter and mutex of `RunParallelBackup` are concurrency. Only its sequential cleanup summation after the join is modelled.
- The Prometheus registry is a sequence of gauges. `MustRegister`'s panic on a duplicate registration is not modelled.
- Integers are unbounded, so the 32-bit port and timeout and the 64-bit counters cannot overflow.
- `filepath.Join` is modelled as joining with `/`. Path cleaning is not modelled.
- The error text of `meta_util.GetBytesForKeys` is a placeholder. That function is not part of this model.
- `pkg/backup.go` calls `waitForDBReady` with an AppBinding, a secret and a timeout. That signature is not in `pkg/util.go`, so its result is an input.
- `pkg/restore.go` calls a free `waitForDBReady(host, port)` and ignores its result. The model leaves the call out.
- `pkg/restore.go` uses `PostgresPassword`, `PostgresUser` and `JobPGBackup`, which the source does not define. The model reads the `POSTGRES_PASSWORD` and `POSTGRES_USER` keys and takes the job name as a parameter.
- `pkg/restore.go` calls `dumpOutput.HandleMetrics(&metrics, backupErr)`, a signature neither metrics file has. Its error is an input. `util.HandleResticError` is also an input.
- The apimachinery `RunBackup` and its `BackupOutput` are not part of this model. `pkg/backup.go` uses them, so the backup run is an input and its output is reduced to the target status.
- `PgBackup.PostgresOptions.BackupPostgreSQL` does not model the "can't find client private key" branch. It is unreachable: that branch runs only when the key is present.
- The target's API version (`appcatalog.SchemeGroupVersion`) and `schema.ParseGroupVersion` come from libraries outside the source. They are modelled from those libraries' documented behaviour.
- Cobra flag registration, `EnsureRequiredFlags`, logging and the CLI bootstrap are left out. The constructors take the flag values as parameters.
