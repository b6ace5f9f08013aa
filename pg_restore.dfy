/** The `restore-pg` command (`pkg/restore.go`): dumps a snapshot from the
    repository into `psql`, then reports metrics and writes the output.  The
    cluster, the environment, the dump and the file system come in as a
    `RestoreCluster`.
 */
module PgRestore {
  import opened Wrappers
  import opened StashApi
  import ResticConfig
  import opened PgUtil
  import StashMetrics

  /** The secret keys of the password and the user.  The source names them
      `PostgresPassword` and `PostgresUser`, which `pkg/util.go` does not
      define; the deprecated keys of the backup are taken. */
  const RestorePasswordKey := EnvPostgresPassword
  const RestoreUserKey := EnvPostgresUser

  /** What `restore-pg` gets from outside.  `handleResticError` is the
      result of `util.HandleResticError` for an output directory, a file
      name and an error; `dump` runs the restore and `handleMetrics` reports
      its metrics (given the dump's output and error); `writeOutput` writes
      the output to a path. */
  datatype RestoreCluster = RestoreCluster(
    nice: Result<Option<NiceSettings>>,
    ioNice: Result<Option<IONiceSettings>>,
    handleResticError: (string, string, string) -> Option<string>,
    clientErr: Option<string>,
    appBindingErr: Option<string>,
    secret: Result<Secret>,
    resticEnv: map<string, string>,
    resticSetupErr: Option<string>,
    dump: DumpOptions -> DumpResult,
    handleMetrics: (Option<StashMetrics.RestoreOutput>, Option<string>) -> Option<string>,
    writeOutput: (string, Option<StashMetrics.RestoreOutput>) -> Option<string>)

  /** `Dump`'s output (nil when absent) and error. */
  datatype DumpResult = DumpResult(output: Option<StashMetrics.RestoreOutput>, err: Option<string>)

  /** How `RunE` ends: returning a plain error (or none) or an aggregate of
      several, or panicking. */
  datatype CmdResult = Returned(err: Option<string>) | Aggregated(errors: seq<string>) | Panicked(reason: string)

  /** `errors.NewAggregate`: the errors that are not nil, in order; nil when
      there are none. */
  function NewAggregate(errs: seq<Option<string>>): (r: CmdResult)
    ensures r == Returned(None) <==> forall i :: 0 <= i < |errs| ==> errs[i].None?
    ensures r.Aggregated? ==> r.errors == NonNil(errs) && r.errors != []
    ensures !r.Aggregated? ==> r == Returned(None)
    ensures !r.Panicked?
  {
    NonNilEmpty(errs);
    if NonNil(errs) == [] then Returned(None) else Aggregated(NonNil(errs))
  }

  /** The messages of the errors that are not nil. */
  function NonNil(errs: seq<Option<string>>): (msgs: seq<string>)
    ensures |msgs| <= |errs|
    ensures forall m :: m in msgs <==> Some(m) in errs
  {
    if errs == [] then []
    else
      var rest := NonNil(errs[1..]);
      assert forall m :: Some(m) in errs <==> errs[0] == Some(m) || Some(m) in errs[1..] by {
        assert errs == [errs[0]] + errs[1..];
      }
      if errs[0].Some? then [errs[0].value] + rest else rest
  }

  /** No message survives exactly when every error is nil. */
  lemma {:induction false} NonNilEmpty(errs: seq<Option<string>>)
    ensures NonNil(errs) == [] <==> forall i :: 0 <= i < |errs| ==> errs[i].None?
  {
    if errs != [] {
      NonNilEmpty(errs[1..]);
      assert forall i :: 1 <= i < |errs| ==> errs[i] == errs[1..][i - 1];
    }
  }

  /** The messages of two error lists in sequence are those of each, in
      order. */
  lemma {:induction false} NonNilAppend(a: seq<Option<string>>, b: seq<Option<string>>)
    ensures NonNil(a + b) == NonNil(a) + NonNil(b)
  {
    if a != [] {
      assert (a + b)[1..] == a[1..] + b;
      NonNilAppend(a[1..], b);
    } else {
      assert a + b == b;
    }
  }

  /** The aggregate `RunE` returns when metrics fail: both errors when the
      dump failed too, only the metrics error otherwise. */
  lemma MetricsAggregate(dumpErr: Option<string>, metricsErr: string)
    ensures dumpErr.Some? ==> NewAggregate([dumpErr, Some(metricsErr)]) == Aggregated([dumpErr.value, metricsErr])
    ensures dumpErr.None? ==> NewAggregate([dumpErr, Some(metricsErr)]) == Aggregated([metricsErr])
  {
    NonNilAppend([dumpErr], [Some(metricsErr)]);
    assert [dumpErr, Some(metricsErr)] == [dumpErr] + [Some(metricsErr)];
    assert [dumpErr][1..] == [];
    assert [Some(metricsErr)][1..] == [];
  }

  /** A secret value read as Go reads a missing map key: empty. */
  function SecretValue(data: Secret, key: string): (v: string)
    ensures key in data ==> v == data[key]
    ensures key !in data ==> v == ""
  {
    if key in data then data[key] else ""
  }

  /** The `psql` command the dump is piped into: user and host, then the
      user's arguments as one single argument when there are any. */
  function RestorePipeCommand(user: string, serviceName: string, pgArgs: string): (c: Command)
    ensures c.name == PgRestoreCMD
    ensures |c.args| == if pgArgs == "" then 4 else 5
    ensures c.args[..4] == ["-U", user, "-h", serviceName]
    ensures pgArgs != "" ==> c.args[4] == pgArgs
  {
    Command(PgRestoreCMD, ["-U", user, "-h", serviceName] + (if pgArgs == "" then [] else [pgArgs]))
  }

  /** The options and state of `restore-pg`. */
  class RestoreCommand {
    var namespace: string
    var appBindingName: string
    var outputDir: string
    var pgArgs: string
    var setupOpt: SetupOptions
    var dumpOpt: DumpOptions
    var metrics: MetricsOptions

    /** The defaults of `NewCmdRestore`; the job name is a parameter (the
        source names `JobPGBackup`, which it does not define). */
    constructor (namespace: string, appBindingName: string, outputDir: string, pgArgs: string,
                 setup: SetupOptions, dump: DumpOptions, metrics: MetricsOptions, jobName: string)
      ensures this.namespace == namespace && this.appBindingName == appBindingName
      ensures this.outputDir == outputDir && this.pgArgs == pgArgs
      ensures setupOpt == setup.(scratchDir := ResticConfig.DefaultScratchDir, enableCache := false)
      ensures dumpOpt == dump.(host := ResticConfig.DefaultHost, fileName := PgDumpFile)
      ensures this.metrics == metrics.(jobName := jobName)
    {
      this.namespace := namespace;
      this.appBindingName := appBindingName;
      this.outputDir := outputDir;
      this.pgArgs := pgArgs;
      setupOpt := setup.(scratchDir := ResticConfig.DefaultScratchDir, enableCache := false);
      dumpOpt := dump.(host := ResticConfig.DefaultHost, fileName := PgDumpFile);
      this.metrics := metrics.(jobName := jobName);
    }

    /** `RunE` of `restore-pg`.  Failed nice or ionice settings go through
        `HandleResticError`; later setup failures are returned.  The password
        is set for `psql` and the dump is piped into it.  When metrics are
        enabled and fail, the dump's and the metrics' errors are returned
        together and nothing is written; otherwise a successful dump writes
        `output.json` when there is an output directory, and the result is
        the write's error or else the dump's. */
    method RunE(appBinding: AppBinding, c: RestoreCluster)
      returns (result: CmdResult, w: ResticConfig.ResticWrapper?, written: Option<string>)
      modifies this
      ensures namespace == old(namespace) && appBindingName == old(appBindingName)
      ensures outputDir == old(outputDir) && pgArgs == old(pgArgs) && metrics == old(metrics)
      ensures dumpOpt.host == old(dumpOpt.host) && dumpOpt.sourceHost == old(dumpOpt.sourceHost)
      ensures dumpOpt.snapshot == old(dumpOpt.snapshot) && dumpOpt.fileName == old(dumpOpt.fileName)
      ensures !c.nice.Ok? ==>
        result == Returned(c.handleResticError(outputDir, ResticConfig.DefaultOutputFileName, c.nice.Message())) &&
        setupOpt == old(setupOpt).(nice := None) && written.None? && w == null
      ensures c.nice.Ok? ==> setupOpt.nice == c.nice.value
      ensures c.nice.Ok? && !c.ioNice.Ok? ==>
        result == Returned(c.handleResticError(outputDir, ResticConfig.DefaultOutputFileName, c.ioNice.Message())) &&
        setupOpt == old(setupOpt).(nice := c.nice.value, ioNice := None) && written.None? && w == null
      ensures c.nice.Ok? && c.ioNice.Ok? ==> setupOpt == old(setupOpt).(nice := c.nice.value, ioNice := c.ioNice.value)
      ensures c.nice.Ok? && c.ioNice.Ok? && RestoreSetupError(c).Some? ==>
        result == Returned(RestoreSetupError(c)) && written.None? && dumpOpt == old(dumpOpt)
      ensures c.nice.Ok? && c.ioNice.Ok? && RestoreSetupError(c).None? && appBinding.service.None? ==>
        w != null && w.sh != null && fresh(w.sh) &&
        w.sh.env == c.resticEnv[EnvPgPassword := SecretValue(c.secret.value, RestorePasswordKey)] &&
        result == CmdResult.Panicked(NilDereference) && written.None? && dumpOpt == old(dumpOpt)
      ensures c.nice.Ok? && c.ioNice.Ok? && RestoreSetupError(c).None? && appBinding.service.Some? ==>
        var data := c.secret.value;
        var dumped := c.dump(dumpOpt);
        var metricsErr := if metrics.enabled then c.handleMetrics(dumped.output, dumped.err) else None;
        var path := PathJoin(outputDir, ResticConfig.DefaultOutputFileName);
        && w != null && w.sh != null && fresh(w.sh)
        && w.sh.env == c.resticEnv[EnvPgPassword := SecretValue(data, RestorePasswordKey)]
        && dumpOpt == old(dumpOpt).(stdoutPipeCommand :=
             RestorePipeCommand(SecretValue(data, RestoreUserKey), appBinding.service.value.name, pgArgs))
        && (metricsErr.Some? ==> result == NewAggregate([dumped.err, metricsErr]) && written.None?)
        && (metricsErr.None? && dumped.err.None? && outputDir != "" ==>
              written == Some(path) && result == Returned(c.writeOutput(path, dumped.output)))
        && (metricsErr.None? && (dumped.err.Some? || outputDir == "") ==>
              written.None? && result == Returned(dumped.err))
    {
      if !c.nice.Ok? {
        setupOpt := setupOpt.(nice := None);
        return Returned(c.handleResticError(outputDir, ResticConfig.DefaultOutputFileName, c.nice.Message())), null, None;
      }
      setupOpt := setupOpt.(nice := c.nice.value);
      if !c.ioNice.Ok? {
        setupOpt := setupOpt.(ioNice := None);
        return Returned(c.handleResticError(outputDir, ResticConfig.DefaultOutputFileName, c.ioNice.Message())), null, None;
      }
      setupOpt := setupOpt.(ioNice := c.ioNice.value);
      if c.clientErr.Some? {
        return Returned(c.clientErr), null, None;
      }
      if c.appBindingErr.Some? {
        return Returned(c.appBindingErr), null, None;
      }
      if !c.secret.Ok? {
        return Returned(Some(c.secret.Message())), null, None;
      }
      var data := c.secret.value;
      var setupErr;
      w, setupErr := ResticConfig.NewResticWrapper(setupOpt, c.resticEnv, c.resticSetupErr);
      if setupErr.Some? {
        return Returned(setupErr), w, None;
      }
      w.SetEnv(EnvPgPassword, SecretValue(data, RestorePasswordKey));
      if appBinding.service.None? {
        return CmdResult.Panicked(NilDereference), w, None;
      }
      dumpOpt := dumpOpt.(stdoutPipeCommand := Command(PgRestoreCMD, ["-U", SecretValue(data, RestoreUserKey), "-h", appBinding.service.value.name]));
      if pgArgs != "" {
        dumpOpt := dumpOpt.(stdoutPipeCommand := dumpOpt.stdoutPipeCommand.(args := dumpOpt.stdoutPipeCommand.args + [pgArgs]));
      }
      var dumped := c.dump(dumpOpt);
      if metrics.enabled {
        var err := c.handleMetrics(dumped.output, dumped.err);
        if err.Some? {
          return NewAggregate([dumped.err, err]), w, None;
        }
      }
      if dumped.err.None? && outputDir != "" {
        var path := PathJoin(outputDir, ResticConfig.DefaultOutputFileName);
        var err := c.writeOutput(path, dumped.output);
        if err.Some? {
          return Returned(err), w, Some(path);
        }
        return Returned(None), w, Some(path);
      }
      return Returned(dumped.err), w, None;
    }
  }

  /** The first failure after the nice settings and before the dump. */
  function RestoreSetupError(c: RestoreCluster): (err: Option<string>)
    ensures err.None? <==> c.clientErr.None? && c.appBindingErr.None? && c.secret.Ok? && c.resticSetupErr.None?
  {
    if c.clientErr.Some? then c.clientErr
    else if c.appBindingErr.Some? then c.appBindingErr
    else if !c.secret.Ok? then Some(c.secret.Message())
    else c.resticSetupErr
  }

  /** A restore reports success exactly when the dump succeeded, metrics (if
      enabled) were handled, and the output (if asked for) was written. */
  lemma RestoreSucceeds(dumpErr: Option<string>, metricsErr: Option<string>, writeErr: Option<string>,
                        outputDir: string)
    ensures var result :=
      if metricsErr.Some? then NewAggregate([dumpErr, metricsErr])
      else if dumpErr.None? && outputDir != "" then Returned(writeErr)
      else Returned(dumpErr);
      result == Returned(None) <==> dumpErr.None? && metricsErr.None? && (outputDir != "" ==> writeErr.None?)
  {
    if metricsErr.Some? {
      MetricsAggregate(dumpErr, metricsErr.value);
    }
  }
}
