/** The `backup-pg` command (`pkg/backup.go`): prepares the restic wrapper
    with the database's credentials, appends a `pg_dump` (or `pg_dumpall`)
    command to the stdin pipe of the backup and runs it.  Everything read
    from the cluster, the environment and the file system comes in as a
    `BackupCluster`; the backup run itself is `runBackup`.
 */
module PgBackup {
  import opened Wrappers
  import opened GoStrings
  import opened StashApi
  import ResticConfig
  import opened PgUtil

  /** The AppBinding resource of the app catalog, the kind of the target. */
  const AppCatalogGroupVersion := "appcatalog.appscode.com/v1alpha1"
  const ResourceKindApp := "AppBinding"
  const DefaultWaitTimeout := 300

  /** The backup options of the restic wrapper this command drives: the
      dump commands are piped, in order, into restic's stdin. */
  datatype PgBackupOptions = PgBackupOptions(
    host: string,
    stdinFileName: string,
    stdinPipeCommands: seq<Command>,
    retentionPolicy: RetentionPolicy)

  /** What `backupPostgreSQL` gets from outside: the results of the
      pre-backup actions and of waiting for the repository, the nice and
      ionice settings of the environment, the AppBinding lookup, the secret
      as read and as `TransformSecret` leaves it, the restic wrapper's
      setup, the writes of the certificate files, the wait for the database
      and the backup run. */
  datatype BackupCluster = BackupCluster(
    preBackupActions: Option<string>,
    waitRepository: Option<string>,
    nice: Result<Option<NiceSettings>>,
    ioNice: Result<Option<IONiceSettings>>,
    appBindingErr: Option<string>,
    secret: Result<Secret>,
    transform: Secret -> Result<Secret>,
    resticEnv: map<string, string>,
    resticSetupErr: Option<string>,
    certWriteErr: Option<string>,
    keyWriteErr: Option<string>,
    caWriteErr: Option<string>,
    waitForDB: Option<string>,
    runBackup: (PgBackupOptions, TargetRef) -> Result<BackupTargetStatus>)

  /** The first failure before the restic wrapper exists, in the order the
      steps run. */
  function SetupError(c: BackupCluster): (err: Option<string>)
    ensures c.preBackupActions.Some? ==> err == c.preBackupActions
    ensures err.None? ==> c.preBackupActions.None? && c.waitRepository.None? && c.nice.Ok? && c.ioNice.Ok? &&
                          c.appBindingErr.None? && c.secret.Ok? && c.transform(c.secret.value).Ok? &&
                          c.resticSetupErr.None?
  {
    if c.preBackupActions.Some? then c.preBackupActions
    else if c.waitRepository.Some? then c.waitRepository
    else if !c.nice.Ok? then Some(c.nice.Message())
    else if !c.ioNice.Ok? then Some(c.ioNice.Message())
    else if c.appBindingErr.Some? then c.appBindingErr
    else if !c.secret.Ok? then Some(c.secret.Message())
    else if !c.transform(c.secret.value).Ok? then Some(c.transform(c.secret.value).Message())
    else c.resticSetupErr
  }

  /** The secret's data once transformed. */
  function SecretData(c: BackupCluster): Secret
    requires SetupError(c).None?
  {
    c.transform(c.secret.value).value
  }

  predicate ValidBackupCmd(cmd: string)
  {
    cmd == PgDumpCMD || cmd == PgDumpallCMD
  }

  function InvalidBackupCmd(cmd: string): string
  {
    "invalid pg backup command: expected " + PgDumpCMD + " or " + PgDumpallCMD + ", but instead got " + cmd
  }

  /** The user the dump connects as, or why there is none: with `tls.key`
      the certificate must be present and both files written, and the user
      is `postgres`; without it the password and then the user are read
      from the secret, a missing one panicking. */
  function BackupUser(data: Secret, certWriteErr: Option<string>, keyWriteErr: Option<string>): (user: Result<string>)
    ensures TLSPrivateKeyKey in data ==>
      (user.Ok? <==> TLSCertKey in data && certWriteErr.None? && keyWriteErr.None?) &&
      (user.Ok? ==> user.value == DefaultPostgresUser) && !user.Panic?
    ensures TLSPrivateKeyKey !in data ==>
      (user.Ok? <==> GetBytesForKeys(data, [BasicAuthPasswordKey, EnvPostgresPassword]).Ok? &&
                     GetBytesForKeys(data, [BasicAuthUsernameKey, EnvPostgresUser]).Ok?) &&
      (user.Ok? ==> user == GetBytesForKeys(data, [BasicAuthUsernameKey, EnvPostgresUser])) &&
      !user.Err?
  {
    if TLSPrivateKeyKey in data then
      if TLSCertKey !in data then Err(MissingClientCert)
      else if certWriteErr.Some? then Err(certWriteErr.value)
      else if keyWriteErr.Some? then Err(keyWriteErr.value)
      else Ok(DefaultPostgresUser)
    else
      var password := Must(GetBytesForKeys(data, [BasicAuthPasswordKey, EnvPostgresPassword]));
      if !password.Ok? then password
      else Must(GetBytesForKeys(data, [BasicAuthUsernameKey, EnvPostgresUser]))
  }

  /** The environment the credentials add: client certificate and key
      files with TLS, the password otherwise. */
  function CredentialEnv(env: map<string, string>, data: Secret, scratchDir: string): map<string, string>
    requires TLSPrivateKeyKey !in data ==> GetBytesForKeys(data, [BasicAuthPasswordKey, EnvPostgresPassword]).Ok?
  {
    if TLSPrivateKeyKey in data then
      env[EnvPGSSLCERT := PathJoin(scratchDir, TLSCertKey)][EnvPGSSLKEY := PathJoin(scratchDir, TLSPrivateKeyKey)]
    else env[EnvPgPassword := GetBytesForKeys(data, [BasicAuthPasswordKey, EnvPostgresPassword]).value]
  }

  /** The environment of the backup: credentials, the CA file when the
      AppBinding has a bundle, and `PGSSLMODE` (set even when empty). */
  function BackupEnv(env: map<string, string>, data: Secret, scratchDir: string, caBundle: Option<string>,
                     sslMode: string): map<string, string>
    requires TLSPrivateKeyKey !in data ==> GetBytesForKeys(data, [BasicAuthPasswordKey, EnvPostgresPassword]).Ok?
  {
    var withCredentials := CredentialEnv(env, data, scratchDir);
    var withCA := if caBundle.Some? then withCredentials[EnvPGSSLROOTCERT := PathJoin(scratchDir, ServiceAccountRootCAKey)]
                  else withCredentials;
    withCA[EnvPGSSLMODE := sslMode]
  }

  /** The variables the backup sets. */
  function PgEnvKeys(): set<string>
  {
    {EnvPGSSLCERT, EnvPGSSLKEY, EnvPgPassword, EnvPGSSLROOTCERT, EnvPGSSLMODE}
  }

  /** What the backup's environment holds: the mode always, certificate
      and key paths exactly with TLS, the secret's password exactly without
      it, the CA path exactly with a bundle, and every other variable of the
      restic wrapper as it was. */
  lemma BackupEnvContents(env: map<string, string>, data: Secret, scratchDir: string, caBundle: Option<string>,
                          sslMode: string)
    requires TLSPrivateKeyKey !in data ==> GetBytesForKeys(data, [BasicAuthPasswordKey, EnvPostgresPassword]).Ok?
    requires forall k :: k in PgEnvKeys() ==> k !in env
    ensures var r := BackupEnv(env, data, scratchDir, caBundle, sslMode);
      && EnvPGSSLMODE in r && r[EnvPGSSLMODE] == sslMode
      && (EnvPGSSLCERT in r <==> TLSPrivateKeyKey in data)
      && (EnvPGSSLKEY in r <==> TLSPrivateKeyKey in data)
      && (TLSPrivateKeyKey in data ==>
            r[EnvPGSSLCERT] == PathJoin(scratchDir, TLSCertKey) && r[EnvPGSSLKEY] == PathJoin(scratchDir, TLSPrivateKeyKey))
      && (EnvPgPassword in r <==> TLSPrivateKeyKey !in data)
      && (TLSPrivateKeyKey !in data ==>
            r[EnvPgPassword] == GetBytesForKeys(data, [BasicAuthPasswordKey, EnvPostgresPassword]).value)
      && (EnvPGSSLROOTCERT in r <==> caBundle.Some?)
      && (forall k :: k in env ==> k in r && r[k] == env[k])
      && (forall k :: k in r && k !in PgEnvKeys() ==> k in env)
  {
  }

  /** The dump command: connection flags first, then the user's
      white-space separated arguments. */
  function DumpCommand(cmd: string, serviceName: string, port: int, user: string, pgArgs: string): (c: Command)
    ensures c.name == cmd && |c.args| == 3 + |Fields(pgArgs)|
    ensures c.args[..3] == ["--host=" + serviceName, "--port=" + IntToString(port), "--username=" + user]
    ensures c.args[3..] == Fields(pgArgs)
  {
    Command(cmd, ["--host=" + serviceName, "--port=" + IntToString(port), "--username=" + user] + Fields(pgArgs))
  }

  /** Arguments written as one line of tokens reach the dump command as
      exactly those tokens. */
  lemma DumpCommandUserArgs(cmd: string, serviceName: string, port: int, user: string, tokens: seq<string>)
    requires forall i :: 0 <= i < |tokens| ==> tokens[i] != [] && NoSpace(tokens[i])
    ensures DumpCommand(cmd, serviceName, port, user, Join(tokens, ' ')).args[3..] == tokens
  {
    FieldsOfJoin(tokens);
  }

  /** The dump command, its arguments appended one token at a time. */
  method BuildDumpCommand(cmd: string, serviceName: string, port: int, user: string, pgArgs: string)
    returns (c: Command)
    ensures c == DumpCommand(cmd, serviceName, port, user, pgArgs)
  {
    c := Command(cmd, ["--host=" + serviceName, "--port=" + IntToString(port), "--username=" + user]);
    var tokens := Fields(pgArgs);
    var i := 0;
    while i < |tokens|
      invariant 0 <= i <= |tokens|
      invariant c == Command(cmd, ["--host=" + serviceName, "--port=" + IntToString(port), "--username=" + user] + tokens[..i])
    {
      assert tokens[..i + 1] == tokens[..i] + [tokens[i]];
      c := c.(args := c.args + [tokens[i]]);
      i := i + 1;
    }
    assert tokens[..i] == tokens;
  }

  /** The output of a backup that failed before restic ran: the one host,
      failed, with the error. */
  function FailedOutput(targetRef: TargetRef, host: string, error: string): (status: BackupTargetStatus)
    ensures status.ref == targetRef && |status.stats| == 1
    ensures status.stats[0].hostname == host && status.stats[0].phase == HostBackupFailed
    ensures status.stats[0].error == error && status.stats[0].snapshots == []
  {
    BackupTargetStatus(targetRef, "", None, [HostBackupStats(host, HostBackupFailed, [], "", error)])
  }

  /** The client credentials of `backupPostgreSQL`, set on the restic
      wrapper; the user name is returned. */
  method SetBackupCredentials(w: ResticConfig.ResticWrapper, data: Secret, scratchDir: string,
                              certWriteErr: Option<string>, keyWriteErr: Option<string>)
    returns (user: Result<string>)
    requires w.sh != null
    modifies w.sh
    ensures user == BackupUser(data, certWriteErr, keyWriteErr)
    ensures w.sh.dir == old(w.sh.dir) && w.sh.showCmd == old(w.sh.showCmd)
    ensures w.sh.pipeFail == old(w.sh.pipeFail) && w.sh.pipeStdErrors == old(w.sh.pipeStdErrors)
    ensures user.Ok? ==> w.sh.env == CredentialEnv(old(w.sh.env), data, scratchDir)
    ensures TLSPrivateKeyKey in data && TLSCertKey in data && certWriteErr.None? && keyWriteErr.Some? ==>
      w.sh.env == old(w.sh.env)[EnvPGSSLCERT := PathJoin(scratchDir, TLSCertKey)]
    ensures TLSPrivateKeyKey !in data && GetBytesForKeys(data, [BasicAuthPasswordKey, EnvPostgresPassword]).Ok? &&
            !user.Ok? ==>
      w.sh.env == old(w.sh.env)[EnvPgPassword := GetBytesForKeys(data, [BasicAuthPasswordKey, EnvPostgresPassword]).value]
    ensures TLSPrivateKeyKey in data && (TLSCertKey !in data || certWriteErr.Some?) ==> w.sh.env == old(w.sh.env)
    ensures TLSPrivateKeyKey !in data && !GetBytesForKeys(data, [BasicAuthPasswordKey, EnvPostgresPassword]).Ok? ==>
      w.sh.env == old(w.sh.env)
  {
    if TLSPrivateKeyKey in data {
      if TLSCertKey !in data {
        return Err(MissingClientCert);
      }
      if certWriteErr.Some? {
        return Err(certWriteErr.value);
      }
      w.SetEnv(EnvPGSSLCERT, PathJoin(scratchDir, TLSCertKey));
      if keyWriteErr.Some? {
        return Err(keyWriteErr.value);
      }
      w.SetEnv(EnvPGSSLKEY, PathJoin(scratchDir, TLSPrivateKeyKey));
      return Ok(DefaultPostgresUser);
    }
    var password := Must(GetBytesForKeys(data, [BasicAuthPasswordKey, EnvPostgresPassword]));
    if !password.Ok? {
      return password;
    }
    w.SetEnv(EnvPgPassword, password.value);
    user := Must(GetBytesForKeys(data, [BasicAuthUsernameKey, EnvPostgresUser]));
  }

  /** The credentials, the CA bundle and the SSL mode can all be set. */
  predicate ConnectionReady(data: Secret, certWriteErr: Option<string>, keyWriteErr: Option<string>,
                            caWriteErr: Option<string>, caBundle: Option<string>, query: string)
  {
    && BackupUser(data, certWriteErr, keyWriteErr).Ok?
    && (caBundle.Some? ==> caWriteErr.None?)
    && GetSSLMode(query).Ok?
  }

  /** The connection settings of `backupPostgreSQL` once the restic wrapper
      exists: the credentials, the CA file when the AppBinding has a bundle
      and `PGSSLMODE`, each failure ending it; the user name is returned. */
  method SetConnectionEnv(w: ResticConfig.ResticWrapper, data: Secret, scratchDir: string,
                          certWriteErr: Option<string>, keyWriteErr: Option<string>, caWriteErr: Option<string>,
                          caBundle: Option<string>, query: string)
    returns (user: Result<string>)
    requires w.sh != null
    modifies w.sh
    ensures w.sh.dir == old(w.sh.dir) && w.sh.showCmd == old(w.sh.showCmd)
    ensures w.sh.pipeFail == old(w.sh.pipeFail) && w.sh.pipeStdErrors == old(w.sh.pipeStdErrors)
    ensures user.Ok? <==> ConnectionReady(data, certWriteErr, keyWriteErr, caWriteErr, caBundle, query)
    ensures var u := BackupUser(data, certWriteErr, keyWriteErr);
      (u.Err? ==> user == Err(u.error)) &&
      (u.Panic? ==> user == Panic(u.reason)) &&
      (u.Ok? && caBundle.Some? && caWriteErr.Some? ==> user == Err(caWriteErr.value)) &&
      (u.Ok? && (caBundle.Some? ==> caWriteErr.None?) && !GetSSLMode(query).Ok? ==> user == Err(SSLModeError))
    ensures user.Ok? ==>
      user == BackupUser(data, certWriteErr, keyWriteErr) &&
      w.sh.env == BackupEnv(old(w.sh.env), data, scratchDir, caBundle, GetSSLMode(query).value)
  {
    user := SetBackupCredentials(w, data, scratchDir, certWriteErr, keyWriteErr);
    if !user.Ok? {
      return;
    }
    if caBundle.Some? {
      if caWriteErr.Some? {
        return Err(caWriteErr.value);
      }
      w.SetEnv(EnvPGSSLROOTCERT, PathJoin(scratchDir, ServiceAccountRootCAKey));
    }
    var sslMode := GetSSLMode(query);
    if !sslMode.Ok? {
      return Err(sslMode.error);
    }
    w.SetEnv(EnvPGSSLMODE, sslMode.value);
  }

  /** Everything up to the dump command succeeded. */
  predicate DumpReady(c: BackupCluster, cmd: string, service: Option<ServiceReference>, caBundle: Option<string>)
  {
    && SetupError(c).None?
    && ValidBackupCmd(cmd)
    && service.Some?
    && ConnectionReady(SecretData(c), c.certWriteErr, c.keyWriteErr, c.caWriteErr, caBundle, service.value.query)
  }

  /** What `backupPostgreSQL` returns, from the cluster's results, the
      command's options and the AppBinding as it was given: each step's
      failure in order (a missing service panics at the port), else the
      backup run with the dump command appended to the stdin pipe. */
  function BackupOutcome(c: BackupCluster, cmd: string, pgArgs: string, options: PgBackupOptions,
                         service: Option<ServiceReference>, caBundle: Option<string>,
                         targetRef: TargetRef): (r: Result<BackupTargetStatus>)
    ensures r.Ok? ==> DumpReady(c, cmd, service, caBundle) && c.waitForDB.None?
    ensures r.Panic? <==>
      (SetupError(c).None? && ValidBackupCmd(cmd) && service.None?) ||
      (SetupError(c).None? && ValidBackupCmd(cmd) && service.Some? &&
       BackupUser(SecretData(c), c.certWriteErr, c.keyWriteErr).Panic?) ||
      (DumpReady(c, cmd, service, caBundle) && c.waitForDB.None? &&
       c.runBackup(WithDump(options, cmd, WithDefaultPort(service).value,
                            BackupUser(SecretData(c), c.certWriteErr, c.keyWriteErr).value, pgArgs), targetRef).Panic?)
    ensures SetupError(c).None? && ValidBackupCmd(cmd) && service.None? ==> r == Panic(NilDereference)
    ensures DumpReady(c, cmd, service, caBundle) && c.waitForDB.None? ==>
      r == c.runBackup(WithDump(options, cmd, WithDefaultPort(service).value,
                                BackupUser(SecretData(c), c.certWriteErr, c.keyWriteErr).value, pgArgs), targetRef)
    ensures SetupError(c).Some? ==> r == Err(SetupError(c).value)
    ensures SetupError(c).None? && !ValidBackupCmd(cmd) ==> r == Err(InvalidBackupCmd(cmd))
    ensures DumpReady(c, cmd, service, caBundle) && c.waitForDB.Some? ==> r == Err(c.waitForDB.value)
  {
    if SetupError(c).Some? then Err(SetupError(c).value)
    else if !ValidBackupCmd(cmd) then Err(InvalidBackupCmd(cmd))
    else if service.None? then Panic(NilDereference)
    else
      var user := BackupUser(SecretData(c), c.certWriteErr, c.keyWriteErr);
      if user.Err? then Err(user.error)
      else if user.Panic? then Panic(user.reason)
      else if caBundle.Some? && c.caWriteErr.Some? then Err(c.caWriteErr.value)
      else if !GetSSLMode(service.value.query).Ok? then Err(SSLModeError)
      else if c.waitForDB.Some? then Err(c.waitForDB.value)
      else c.runBackup(WithDump(options, cmd, WithDefaultPort(service).value, user.value, pgArgs), targetRef)
  }

  /** The backup options once the dump command for `service` is appended to
      the stdin pipe. */
  function WithDump(options: PgBackupOptions, cmd: string, service: ServiceReference, user: string,
                    pgArgs: string): PgBackupOptions
  {
    options.(stdinPipeCommands := options.stdinPipeCommands + [DumpCommand(cmd, service.name, service.port, user, pgArgs)])
  }

  /** The options and state of `backup-pg`. */
  class PostgresOptions {
    var backupCMD: string
    var pgArgs: string
    var waitTimeout: int
    var outputDir: string
    var namespace: string
    var backupSessionName: string
    var appBindingName: string
    var setupOptions: SetupOptions
    var backupOptions: PgBackupOptions

    /** The defaults of `NewCmdBackup` before flags are parsed; `setup`
        carries the flag values of the setup options. */
    constructor (backupCMD: string, pgArgs: string, outputDir: string, namespace: string, backupSessionName: string,
                 appBindingName: string, setup: SetupOptions, retentionPolicy: RetentionPolicy)
      ensures this.backupCMD == backupCMD && this.pgArgs == pgArgs && this.outputDir == outputDir
      ensures this.namespace == namespace && this.backupSessionName == backupSessionName
      ensures this.appBindingName == appBindingName
      ensures waitTimeout == DefaultWaitTimeout
      ensures setupOptions == setup.(scratchDir := ResticConfig.DefaultScratchDir, enableCache := false)
      ensures backupOptions == PgBackupOptions(ResticConfig.DefaultHost, PgDumpFile, [], retentionPolicy)
    {
      this.backupCMD := backupCMD;
      this.pgArgs := pgArgs;
      this.outputDir := outputDir;
      this.namespace := namespace;
      this.backupSessionName := backupSessionName;
      this.appBindingName := appBindingName;
      waitTimeout := DefaultWaitTimeout;
      setupOptions := setup.(scratchDir := ResticConfig.DefaultScratchDir, enableCache := false);
      backupOptions := PgBackupOptions(ResticConfig.DefaultHost, PgDumpFile, [], retentionPolicy);
    }

    /** `backupPostgreSQL`: each step's failure ends the backup with its
        error; the port is defaulted in the AppBinding itself, the dump
        command is appended to the stdin pipe (and stays there even when the
        database does not become ready), and the backup runs with the
        options so extended. */
    method BackupPostgreSQL(targetRef: TargetRef, appBinding: AppBinding, c: BackupCluster)
      returns (output: Result<BackupTargetStatus>, w: ResticConfig.ResticWrapper?)
      modifies this, appBinding
      ensures backupCMD == old(backupCMD) && pgArgs == old(pgArgs) && waitTimeout == old(waitTimeout)
      ensures outputDir == old(outputDir) && namespace == old(namespace)
      ensures backupSessionName == old(backupSessionName) && appBindingName == old(appBindingName)
      ensures backupOptions.host == old(backupOptions.host) && backupOptions.stdinFileName == old(backupOptions.stdinFileName)
      ensures backupOptions.retentionPolicy == old(backupOptions.retentionPolicy)
      ensures setupOptions == SettingsAfter(old(setupOptions), c)
      ensures appBinding.namespace == old(appBinding.namespace) && appBinding.secretName == old(appBinding.secretName)
      ensures appBinding.caBundle == old(appBinding.caBundle)
      ensures appBinding.service ==
        if SetupError(c).None? && ValidBackupCmd(backupCMD) && old(appBinding.service).Some?
        then Some(WithDefaultPort(old(appBinding.service)).value) else old(appBinding.service)
      // the setup steps
      ensures SetupError(c).Some? ==> output == Err(SetupError(c).value) && backupOptions == old(backupOptions)
      ensures SetupError(c).None? ==>
        w != null && fresh(w) && w.sh != null && fresh(w.sh) && w.config == setupOptions
      ensures SetupError(c).None? && !ValidBackupCmd(backupCMD) ==>
        output == Err(InvalidBackupCmd(backupCMD)) && backupOptions == old(backupOptions) && w.sh.env == c.resticEnv
      ensures SetupError(c).None? && ValidBackupCmd(backupCMD) && old(appBinding.service).None? ==>
        output == Panic(NilDereference) && backupOptions == old(backupOptions) && w.sh.env == c.resticEnv
      // credentials, CA bundle and SSL mode
      ensures SetupError(c).None? && ValidBackupCmd(backupCMD) && old(appBinding.service).Some? ==>
        var user := BackupUser(SecretData(c), c.certWriteErr, c.keyWriteErr);
        (user.Err? ==> output == Err(user.error) && backupOptions == old(backupOptions)) &&
        (user.Panic? ==> output == Panic(user.reason) && backupOptions == old(backupOptions)) &&
        (user.Ok? && appBinding.caBundle.Some? && c.caWriteErr.Some? ==>
           output == Err(c.caWriteErr.value) && backupOptions == old(backupOptions)) &&
        (user.Ok? && (appBinding.caBundle.Some? ==> c.caWriteErr.None?) &&
         !GetSSLMode(old(appBinding.service).value.query).Ok? ==>
           output == Err(SSLModeError) && backupOptions == old(backupOptions))
      // the dump and the backup
      ensures DumpReady(c, backupCMD, old(appBinding.service), appBinding.caBundle) ==>
        var user := BackupUser(SecretData(c), c.certWriteErr, c.keyWriteErr).value;
        w.sh.env == BackupEnv(c.resticEnv, SecretData(c), setupOptions.scratchDir, appBinding.caBundle,
                              GetSSLMode(appBinding.service.value.query).value) &&
        backupOptions == WithDump(old(backupOptions), backupCMD, appBinding.service.value, user, pgArgs) &&
        output == if c.waitForDB.Some? then Err(c.waitForDB.value) else c.runBackup(backupOptions, targetRef)
      ensures output == BackupOutcome(c, backupCMD, pgArgs, old(backupOptions), old(appBinding.service),
                                      appBinding.caBundle, targetRef)
    {
      if c.preBackupActions.Some? {
        return Err(c.preBackupActions.value), null;
      }
      if c.waitRepository.Some? {
        return Err(c.waitRepository.value), null;
      }
      if !c.nice.Ok? {
        setupOptions := setupOptions.(nice := None);
        return Err(c.nice.Message()), null;
      }
      setupOptions := setupOptions.(nice := c.nice.value);
      if !c.ioNice.Ok? {
        setupOptions := setupOptions.(ioNice := None);
        return Err(c.ioNice.Message()), null;
      }
      setupOptions := setupOptions.(ioNice := c.ioNice.value);
      if c.appBindingErr.Some? {
        return Err(c.appBindingErr.value), null;
      }
      if !c.secret.Ok? {
        return Err(c.secret.Message()), null;
      }
      var transformed := c.transform(c.secret.value);
      if !transformed.Ok? {
        return Err(transformed.Message()), null;
      }
      var data := transformed.value;
      var setupErr;
      w, setupErr := ResticConfig.NewResticWrapper(setupOptions, c.resticEnv, c.resticSetupErr);
      if setupErr.Some? {
        return Err(setupErr.value), w;
      }
      if !ValidBackupCmd(backupCMD) {
        return Err(InvalidBackupCmd(backupCMD)), w;
      }
      if appBinding.service.None? {
        return Panic(NilDereference), w;
      }
      if appBinding.service.value.port == 0 {
        appBinding.service := Some(appBinding.service.value.(port := DefaultPort));
      }
      var service := appBinding.service.value;
      var user := SetConnectionEnv(w, data, setupOptions.scratchDir, c.certWriteErr, c.keyWriteErr, c.caWriteErr,
                                   appBinding.caBundle, service.query);
      if user.Err? {
        return Err(user.error), w;
      } else if user.Panic? {
        return Panic(user.reason), w;
      }
      var dumpCommand := BuildDumpCommand(backupCMD, service.name, service.port, user.value, pgArgs);
      backupOptions := backupOptions.(stdinPipeCommands := backupOptions.stdinPipeCommands + [dumpCommand]);
      if c.waitForDB.Some? {
        return Err(c.waitForDB.value), w;
      }
      output := c.runBackup(backupOptions, targetRef);
    }

    /** `RunE` of `backup-pg`.  A failed backup is not returned: it becomes
        an output whose one host entry failed with the error, and that output
        (or the backup's own) is written to `output.json` in the output
        directory when there is one.  The result is then the write's error,
        or nothing.  A panic of the backup ends the command before anything is
        written. */
    method RunE(clientErr: Option<string>, appBinding: AppBinding, c: BackupCluster,
                writeOutput: (string, BackupTargetStatus) -> Option<string>)
      returns (outcome: Outcome, written: Option<(string, BackupTargetStatus)>)
      modifies this, appBinding
      ensures outputDir == old(outputDir) && backupOptions.host == old(backupOptions.host)
      ensures clientErr.Some? ==> outcome == Failed(clientErr.value) && written.None?
      ensures outcome.Panicked? || clientErr.Some? ==> written.None?
      ensures clientErr.None? && !outcome.Panicked? ==>
        (written.Some? <==> outputDir != "") &&
        (outputDir == "" ==> outcome == Done)
      ensures written.Some? ==>
        written.value.0 == PathJoin(outputDir, ResticConfig.DefaultOutputFileName) &&
        outcome == (if writeOutput(written.value.0, written.value.1).Some?
                    then Failed(writeOutput(written.value.0, written.value.1).value) else Done)
      ensures written.Some? && SetupError(c).Some? ==>
        written.value.1 == FailedOutput(BackupTarget(appBindingName), backupOptions.host, SetupError(c).value)
      ensures clientErr.None? ==>
        var r := BackupOutcome(c, old(backupCMD), old(pgArgs), old(backupOptions), old(appBinding.service),
                               old(appBinding.caBundle), BackupTarget(old(appBindingName)));
        (outcome.Panicked? <==> r.Panic?) &&
        (r.Panic? ==> outcome == Panicked(r.reason)) &&
        (written.Some? ==>
           written.value.1 == if r.Ok? then r.value
                              else FailedOutput(BackupTarget(appBindingName), backupOptions.host, r.Message()))
    {
      if clientErr.Some? {
        return Failed(clientErr.value), None;
      }
      var targetRef := BackupTarget(appBindingName);
      var output, _ := BackupPostgreSQL(targetRef, appBinding, c);
      var status: BackupTargetStatus;
      if output.Panic? {
        return Panicked(output.reason), None;
      } else if output.Err? {
        status := FailedOutput(targetRef, backupOptions.host, output.error);
      } else {
        status := output.value;
      }
      if outputDir != "" {
        var path := PathJoin(outputDir, ResticConfig.DefaultOutputFileName);
        var err := writeOutput(path, status);
        written := Some((path, status));
        outcome := if err.Some? then Failed(err.value) else Done;
        return;
      }
      return Done, None;
    }
  }

  /** The target of `backup-pg`: the AppBinding it was given. */
  function BackupTarget(appBindingName: string): (ref: TargetRef)
    ensures ref.kind == ResourceKindApp && ref.name == appBindingName
  {
    TargetRef(AppCatalogGroupVersion, ResourceKindApp, appBindingName)
  }

  /** The setup options once the nice and ionice settings are read from
      the environment: a failed read leaves its setting unset and ends the
      backup. */
  function SettingsAfter(s: SetupOptions, c: BackupCluster): SetupOptions
  {
    if c.preBackupActions.Some? || c.waitRepository.Some? then s
    else if !c.nice.Ok? then s.(nice := None)
    else s.(nice := c.nice.value, ioNice := if c.ioNice.Ok? then c.ioNice.value else None)
  }
}
