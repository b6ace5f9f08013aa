/** The PostgreSQL side of the plugin (`pkg/util.go`): how the connection
    to the database is described to `pg_dump`, `pg_dumpall` and
    `pg_isready` — environment variables on the shell session and flags on
    the command line.  Secrets and AppBindings are read from the cluster
    outside the model; files written into the scratch directory are
    reduced to their paths and the write's error.
 */
module PgUtil {
  import opened Wrappers
  import opened GoStrings
  import ResticConfig

  const EnvPGSSLROOTCERT := "PGSSLROOTCERT"
  const EnvPGSSLCERT := "PGSSLCERT"
  const EnvPGSSLKEY := "PGSSLKEY"
  const EnvPGSSLMODE := "PGSSLMODE"
  const EnvPgPassword := "PGPASSWORD"
  const PgDumpFile := "dumpfile.sql"
  const PgDumpCMD := "pg_dump"
  const PgDumpallCMD := "pg_dumpall"
  const PgRestoreCMD := "psql"
  const PgIsReadyCMD := "pg_isready"
  /** Deprecated secret keys, still read after the canonical ones. */
  const EnvPostgresUser := "POSTGRES_USER"
  const EnvPostgresPassword := "POSTGRES_PASSWORD"
  const DefaultPostgresUser := "postgres"
  const DefaultPort := 5432

  /** Secret keys of the Kubernetes core API. */
  const TLSCertKey := "tls.crt"
  const TLSPrivateKeyKey := "tls.key"
  const BasicAuthUsernameKey := "username"
  const BasicAuthPasswordKey := "password"
  const ServiceAccountRootCAKey := "ca.crt"

  const SSLModeError :=
    "the sslmode is not valid. please provide the valid template. the temlpate should be like this: sslmode=<your_desire_sslmode>"
  const MissingClientCert := "can't find client cert"
  /** The error of a secret lookup that finds none of its keys. */
  const MissingKeys := "none of the keys found"

  /** The data of a Kubernetes Secret, bytes as text. */
  type Secret = map<string, string>

  /** The AppBinding's `clientConfig.service`: the database's service
      name, its port and the query of its URL. */
  datatype ServiceReference = ServiceReference(name: string, port: int, query: string)

  /** The parts of an AppBinding the plugin uses.  The service is a pointer
      the plugin dereferences without a check: an AppBinding that gives only
      a URL has none.  Its port is overwritten in place when it is 0. */
  class AppBinding {
    var namespace: string
    var secretName: string
    var service: Option<ServiceReference>
    var caBundle: Option<string>

    constructor (namespace: string, secretName: string, service: Option<ServiceReference>, caBundle: Option<string>)
      ensures this.namespace == namespace && this.secretName == secretName
      ensures this.service == service && this.caBundle == caBundle
    {
      this.namespace := namespace;
      this.secretName := secretName;
      this.service := service;
      this.caBundle := caBundle;
    }
  }

  /** How a step of the plugin ended: normally, with a returned error, or
      with a panic. */
  datatype Outcome = Done | Failed(error: string) | Panicked(reason: string)

  /** `filepath.Join` of a directory and a file name.  Path cleaning is not
      modelled: the directory is taken as written. */
  function PathJoin(dir: string, name: string): (path: string)
    ensures dir == "" ==> path == name
    ensures dir != "" ==> |path| == |dir| + 1 + |name| && path[..|dir|] == dir && path[|dir|..] == "/" + name
  {
    if dir == "" then name else dir + "/" + name
  }

  /** A service port of 0 means PostgreSQL's default port. */
  function PortOrDefault(port: int): (p: int)
    ensures port == 0 ==> p == DefaultPort
    ensures port != 0 ==> p == port
    ensures p != 0
  {
    if port == 0 then DefaultPort else port
  }

  /** The service once its port is defaulted in place; dereferencing a
      missing service panics. */
  function WithDefaultPort(service: Option<ServiceReference>): (r: Result<ServiceReference>)
    ensures service.None? <==> r.Panic?
    ensures r.Panic? ==> r.reason == NilDereference
    ensures !r.Err?
    ensures r.Ok? ==> r.value.name == service.value.name && r.value.query == service.value.query &&
                      r.value.port == PortOrDefault(service.value.port) && r.value.port != 0
  {
    if service.None? then Panic(NilDereference)
    else Ok(service.value.(port := PortOrDefault(service.value.port)))
  }

  /** `must`: a failed read panics with its error. */
  function Must(r: Result<string>): (v: Result<string>)
    ensures r.Err? ==> v == Panic(r.error)
    ensures !r.Err? ==> v == r
    ensures v.Ok? <==> r.Ok?
  {
    if r.Err? then Panic(r.error) else r
  }

  /** `meta_util.GetBytesForKeys`: the value under the first of `keys` the
      secret has. */
  function GetBytesForKeys(data: Secret, keys: seq<string>): (r: Result<string>)
    ensures !r.Panic?
    ensures r.Err? ==> r.error == MissingKeys
    ensures r.Ok? <==> exists i :: 0 <= i < |keys| && keys[i] in data
    ensures r.Ok? ==> exists i :: 0 <= i < |keys| && keys[i] in data && r.value == data[keys[i]] &&
                                  forall j :: 0 <= j < i ==> keys[j] !in data
  {
    if keys == [] then Err(MissingKeys)
    else if keys[0] in data then Ok(data[keys[0]])
    else
      var r := GetBytesForKeys(data, keys[1..]);
      assert forall i :: 1 <= i < |keys| ==> keys[i] == keys[1..][i - 1];
      if r.Ok? then
        ghost var i :| 0 <= i < |keys[1..]| && keys[1..][i] in data && r.value == data[keys[1..][i]] &&
                        forall j :: 0 <= j < i ==> keys[1..][j] !in data;
        assert keys[i + 1] in data && r.value == data[keys[i + 1]];
        r
      else r
  }

  /** The canonical key is read first, the deprecated one only without it. */
  lemma CanonicalKeyFirst(data: Secret, canonical: string, deprecated: string)
    ensures canonical in data ==> GetBytesForKeys(data, [canonical, deprecated]) == Ok(data[canonical])
    ensures canonical !in data && deprecated in data ==>
      GetBytesForKeys(data, [canonical, deprecated]) == Ok(data[deprecated])
    ensures canonical !in data && deprecated !in data ==>
      Must(GetBytesForKeys(data, [canonical, deprecated])) == Panic(MissingKeys)
  {
    assert [canonical, deprecated][1..] == [deprecated];
  }

  /** `getSSLMODE`: no query means no mode; otherwise the query must hold
      exactly one `=` (split on `=` into two parts), and the mode is the
      text after it with surrounding white space removed. */
  function GetSSLMode(query: string): (r: Result<string>)
    ensures !r.Panic?
    ensures query == "" ==> r == Ok("")
    ensures query != "" ==> (r.Ok? <==> Count(query, '=') == 1)
    ensures r.Err? ==> r.error == SSLModeError
    ensures query != "" && r.Ok? ==>
      forall i :: 0 <= i < |query| && query[i] == '=' ==> r.value == TrimSpace(query[i + 1..])
  {
    if query == "" then Ok("")
    else
      var temps := Split(query, '=');
      if |temps| != 2 then Err(SSLModeError)
      else
        SplitSecond(query, '=');
        Ok(TrimSpace(temps[1]))
  }

  /** The key before `=` is never looked at: `foo=require` gives `require`
      just as `sslmode=require` does. */
  lemma GetSSLModeIgnoresKey(key: string, mode: string)
    requires '=' !in key && '=' !in mode
    ensures GetSSLMode(key + "=" + mode) == Ok(TrimSpace(mode))
  {
    var q := key + "=" + mode;
    assert q == key + ("=" + mode);
    CountAppend(key, "=" + mode, '=');
    CountAppend("=", mode, '=');
    CountZero(key, '=');
    CountZero(mode, '=');
    assert q[|key|] == '=';
    assert q[|key| + 1..] == mode;
  }

  /** `getSSLMODE` of an AppBinding: the mode of its service's query; a
      missing service panics. */
  function SSLModeOf(service: Option<ServiceReference>): (r: Result<string>)
    ensures service.None? <==> r.Panic?
    ensures r.Panic? ==> r.reason == NilDereference
    ensures service.Some? ==> r == GetSSLMode(service.value.query)
  {
    if service.None? then Panic(NilDereference) else GetSSLMode(service.value.query)
  }

  /** The session env after an optional `PGSSLMODE`: set only to a mode
      that parsed and is not empty. */
  function WithSSLMode(env: map<string, string>, service: Option<ServiceReference>): map<string, string>
  {
    if SSLModeOf(service).Ok? && SSLModeOf(service).value != "" then env[EnvPGSSLMODE := SSLModeOf(service).value]
    else env
  }

  /** How the mode step ends. */
  function SSLModeOutcome(service: Option<ServiceReference>): Outcome
  {
    match SSLModeOf(service)
    case Ok(_) => Done
    case Err(e) => Failed(e)
    case Panic(p) => Panicked(p)
  }

  /** `sessionWrapper`: a shell session and the command whose arguments are
      being assembled. */
  class SessionWrapper {
    var sh: ResticConfig.Session
    var cmdName: string
    var args: seq<string>

    /** `newSessionWrapper`. */
    constructor (cmd: string)
      ensures fresh(sh) && sh.env == map[] && cmdName == cmd && args == []
    {
      sh := new ResticConfig.Session();
      cmdName := cmd;
      args := [];
    }

    /** `setDatabaseCredentials`.  `secret` is the AppBinding's secret as
        read and transformed.  With `tls.key` the client certificate and key
        are written to the scratch directory and the user is `postgres`;
        without it the password and user come from the secret (canonical key
        first), a missing one panicking.  Then `PGSSLMODE` when the service's
        query names a mode, and `--username=<user>` after the existing
        arguments. */
    method SetDatabaseCredentials(service: Option<ServiceReference>, secret: Result<Secret>, scratchDir: string,
                                  certWriteErr: Option<string>, keyWriteErr: Option<string>)
      returns (outcome: Outcome)
      modifies this, sh
      ensures sh == old(sh) && cmdName == old(cmdName)
      ensures !secret.Ok? ==> outcome == Failed(secret.Message()) && args == old(args) && sh.env == old(sh.env)
      ensures secret.Ok? && TLSPrivateKeyKey in secret.value && TLSCertKey !in secret.value ==>
        outcome == Failed(MissingClientCert) && args == old(args) && sh.env == old(sh.env)
      ensures secret.Ok? && TLSPrivateKeyKey in secret.value && TLSCertKey in secret.value && certWriteErr.Some? ==>
        outcome == Failed(certWriteErr.value) && args == old(args) && sh.env == old(sh.env)
      ensures secret.Ok? && TLSPrivateKeyKey in secret.value && TLSCertKey in secret.value && certWriteErr.None? &&
              keyWriteErr.Some? ==>
        outcome == Failed(keyWriteErr.value) && args == old(args) &&
        sh.env == old(sh.env)[EnvPGSSLCERT := PathJoin(scratchDir, TLSCertKey)]
      ensures secret.Ok? && TLSPrivateKeyKey in secret.value && TLSCertKey in secret.value && certWriteErr.None? &&
              keyWriteErr.None? ==>
        outcome == SSLModeOutcome(service) &&
        sh.env == WithSSLMode(old(sh.env)[EnvPGSSLCERT := PathJoin(scratchDir, TLSCertKey)]
                                         [EnvPGSSLKEY := PathJoin(scratchDir, TLSPrivateKeyKey)], service) &&
        args == old(args) + (if outcome.Done? then ["--username=" + DefaultPostgresUser] else [])
      ensures secret.Ok? && TLSPrivateKeyKey !in secret.value ==>
        var password := GetBytesForKeys(secret.value, [BasicAuthPasswordKey, EnvPostgresPassword]);
        var user := GetBytesForKeys(secret.value, [BasicAuthUsernameKey, EnvPostgresUser]);
        (!password.Ok? ==> outcome == Panicked(password.error) && args == old(args) && sh.env == old(sh.env)) &&
        (password.Ok? && !user.Ok? ==>
          outcome == Panicked(user.error) && args == old(args) && sh.env == old(sh.env)[EnvPgPassword := password.value]) &&
        (password.Ok? && user.Ok? ==>
          outcome == SSLModeOutcome(service) &&
          sh.env == WithSSLMode(old(sh.env)[EnvPgPassword := password.value], service) &&
          args == old(args) + (if outcome.Done? then ["--username=" + user.value] else []))
    {
      if !secret.Ok? {
        return Failed(secret.Message());
      }
      var data := secret.value;
      var userName := "";
      if TLSPrivateKeyKey in data {
        if TLSCertKey !in data {
          return Failed(MissingClientCert);
        }
        if certWriteErr.Some? {
          return Failed(certWriteErr.value);
        }
        sh.SetEnv(EnvPGSSLCERT, PathJoin(scratchDir, TLSCertKey));
        if keyWriteErr.Some? {
          return Failed(keyWriteErr.value);
        }
        sh.SetEnv(EnvPGSSLKEY, PathJoin(scratchDir, TLSPrivateKeyKey));
        userName := DefaultPostgresUser;
      } else {
        var password := Must(GetBytesForKeys(data, [BasicAuthPasswordKey, EnvPostgresPassword]));
        if !password.Ok? {
          return Panicked(password.reason);
        }
        sh.SetEnv(EnvPgPassword, password.value);
        var user := Must(GetBytesForKeys(data, [BasicAuthUsernameKey, EnvPostgresUser]));
        if !user.Ok? {
          return Panicked(user.reason);
        }
        userName := user.value;
      }
      var sslMode := SSLModeOf(service);
      if sslMode.Err? {
        return Failed(sslMode.error);
      } else if sslMode.Panic? {
        return Panicked(sslMode.reason);
      }
      if sslMode.value != "" {
        sh.SetEnv(EnvPGSSLMODE, sslMode.value);
      }
      args := args + ["--username=" + userName];
      return Done;
    }

    /** `setDatabaseConnectionParameters`: `--host=<h>`, then the port
        (0 replaced by 5432 in the AppBinding itself, which panics without a
        service) as `--port=<p>`.  `hostname` and `portErr` are what the
        AppBinding's `Hostname()` and `Port()` return; the port written is
        the service's own. */
    method SetDatabaseConnectionParameters(appBinding: AppBinding, hostname: Result<string>, portErr: Option<string>)
      returns (outcome: Outcome)
      modifies this, appBinding
      ensures sh == old(sh) && cmdName == old(cmdName)
      ensures appBinding.namespace == old(appBinding.namespace) && appBinding.secretName == old(appBinding.secretName)
      ensures appBinding.caBundle == old(appBinding.caBundle)
      ensures !hostname.Ok? ==>
        outcome == Failed(hostname.Message()) && args == old(args) && appBinding.service == old(appBinding.service)
      ensures hostname.Ok? && old(appBinding.service).None? ==>
        outcome == Panicked(NilDereference) && args == old(args) + ["--host=" + hostname.value] &&
        appBinding.service.None?
      ensures hostname.Ok? && old(appBinding.service).Some? ==>
        appBinding.service == Some(WithDefaultPort(old(appBinding.service)).value)
      ensures hostname.Ok? && old(appBinding.service).Some? && portErr.Some? ==>
        outcome == Failed(portErr.value) && args == old(args) + ["--host=" + hostname.value]
      ensures hostname.Ok? && old(appBinding.service).Some? && portErr.None? ==>
        outcome == Done &&
        args == old(args) + ["--host=" + hostname.value, "--port=" + IntToString(appBinding.service.value.port)]
    {
      if !hostname.Ok? {
        return Failed(hostname.Message());
      }
      args := args + ["--host=" + hostname.value];
      if appBinding.service.None? {
        return Panicked(NilDereference);
      }
      if appBinding.service.value.port == 0 {
        appBinding.service := Some(appBinding.service.value.(port := DefaultPort));
      }
      if portErr.Some? {
        return Failed(portErr.value);
      }
      args := args + ["--port=" + IntToString(appBinding.service.value.port)];
      return Done;
    }

    /** `setUserArgs`: the white-space separated tokens of `text`, appended
        verbatim and in order. */
    method SetUserArgs(text: string)
      modifies this
      ensures sh == old(sh) && cmdName == old(cmdName)
      ensures args == old(args) + Fields(text)
    {
      var tokens := Fields(text);
      var i := 0;
      while i < |tokens|
        invariant 0 <= i <= |tokens|
        invariant sh == old(sh) && cmdName == old(cmdName)
        invariant args == old(args) + tokens[..i]
      {
        assert tokens[..i + 1] == tokens[..i] + [tokens[i]];
        args := args + [tokens[i]];
        i := i + 1;
      }
      assert tokens[..i] == tokens;
    }

    /** `setTLSParameters`: with a CA bundle, `PGSSLROOTCERT` names the
        `ca.crt` file written into `scratchDir`. */
    method SetTLSParameters(caBundle: Option<string>, scratchDir: string, writeErr: Option<string>)
      returns (err: Option<string>)
      modifies sh
      ensures caBundle.Some? ==> err == writeErr
      ensures caBundle.None? ==> err.None?
      ensures caBundle.Some? && writeErr.None? ==>
        sh.env == old(sh.env)[EnvPGSSLROOTCERT := PathJoin(scratchDir, ServiceAccountRootCAKey)]
      ensures caBundle.None? || writeErr.Some? ==> sh.env == old(sh.env)
    {
      if caBundle.Some? {
        if writeErr.Some? {
          return writeErr;
        }
        sh.SetEnv(EnvPGSSLROOTCERT, PathJoin(scratchDir, ServiceAccountRootCAKey));
      }
      return None;
    }

    /** `waitForDBReady`: `pg_isready` with the command's arguments and then
        `--timeout=<n>`; `run` is the outcome of running a command.  The
        command's own arguments are left as they were. */
    method WaitForDBReady(waitTimeout: int, run: (string, seq<string>) -> Option<string>) returns (err: Option<string>)
      ensures err == run(PgIsReadyCMD, PgIsReadyArgs(args, waitTimeout))
    {
      var readyArgs := args + ["--timeout=" + IntToString(waitTimeout)];
      err := run(PgIsReadyCMD, readyArgs);
    }
  }

  /** The arguments of `pg_isready`: those of the command, then the timeout. */
  function PgIsReadyArgs(args: seq<string>, waitTimeout: int): (readyArgs: seq<string>)
    ensures |readyArgs| == |args| + 1 && readyArgs[..|args|] == args
    ensures readyArgs[|args|] == "--timeout=" + IntToString(waitTimeout)
  {
    args + ["--timeout=" + IntToString(waitTimeout)]
  }

  /** User arguments that are one white-space separated line come back as
      the same tokens, and a blank line adds none. */
  lemma UserArgsRoundTrip(tokens: seq<string>, blank: string)
    requires forall i :: 0 <= i < |tokens| ==> tokens[i] != [] && NoSpace(tokens[i])
    requires AllSpace(blank)
    ensures Fields(Join(tokens, ' ')) == tokens
    ensures Fields(blank) == []
  {
    FieldsOfJoin(tokens);
    FieldsEmpty(blank);
  }
}
