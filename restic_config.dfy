/** The restic wrapper of `stash/pkg/restic/config.go`: a shell session whose
    environment carries the restic settings, and the operations on it.
 */
module ResticConfig {
  import opened Wrappers
  import opened StashApi
  import GoStrings
  import opened StringOrder

  const DefaultOutputFileName := "output.json"
  const DefaultScratchDir := "/tmp"
  const DefaultHost := "host-0"

  /** Environment variable naming the restic repository. */
  const ResticRepository := "RESTIC_REPOSITORY"

  /** The shell session (`go-sh`'s `Session`): the state the wrapper uses. */
  class Session {
    var env: map<string, string>
    var dir: string
    var showCmd: bool
    var pipeFail: bool
    var pipeStdErrors: bool

    /** `shell.NewSession()`. */
    constructor ()
      ensures env == map[] && dir == ""
      ensures !showCmd && !pipeFail && !pipeStdErrors
    {
      env := map[];
      dir := "";
      showCmd := false;
      pipeFail := false;
      pipeStdErrors := false;
    }

    method SetEnv(key: string, value: string)
      modifies this
      ensures env == old(env)[key := value]
      ensures dir == old(dir) && showCmd == old(showCmd)
      ensures pipeFail == old(pipeFail) && pipeStdErrors == old(pipeStdErrors)
    {
      env := env[key := value];
    }
  }

  class ResticWrapper {
    var sh: Session?
    var config: SetupOptions

    constructor (sh: Session?, config: SetupOptions)
      ensures this.sh == sh && this.config == config
    {
      this.sh := sh;
      this.config := config;
    }

    /** Set a variable in the session's environment; without a session, do nothing. */
    method SetEnv(key: string, value: string)
      modifies sh
      ensures sh != null ==> sh.env == old(sh.env)[key := value]
      ensures sh != null ==> sh.dir == old(sh.dir) && sh.showCmd == old(sh.showCmd)
      ensures sh != null ==> sh.pipeFail == old(sh.pipeFail) && sh.pipeStdErrors == old(sh.pipeStdErrors)
    {
      if sh != null {
        sh.SetEnv(key, value);
      }
    }

    /** Stop echoing commands; the other session flags stay as they were. */
    method HideCMD()
      modifies sh
      ensures sh != null ==> !sh.showCmd
      ensures sh != null ==> sh.env == old(sh.env) && sh.dir == old(sh.dir)
      ensures sh != null ==> sh.pipeFail == old(sh.pipeFail) && sh.pipeStdErrors == old(sh.pipeStdErrors)
    {
      if sh != null {
        sh.showCmd := false;
      }
    }

    /** The repository the environment points restic at; "" without a session
        or when the variable is unset (Go's zero value for a missing key). */
    function GetRepo(): (repo: string)
      reads this, sh
      ensures sh != null && ResticRepository in sh.env ==> repo == sh.env[ResticRepository]
      ensures sh == null || ResticRepository !in sh.env ==> repo == ""
    {
      if sh != null && ResticRepository in sh.env then sh.env[ResticRepository] else ""
    }

    /** The text `DumpEnv` writes. */
    method EnvContent() returns (envs: string)
      ensures sh == null ==> envs == ""
      ensures sh != null ==> envs == EnvText(sh.env, SortedSeq(sh.env.Keys))
    {
      envs := "";
      if sh != null {
        envs := DumpText(sh.env);
      }
    }

    /** Write the environment to `path/dumpedFile`.  The directory creation
        and the write are outside the model: their errors are inputs. */
    method DumpEnv(path: string, dumpedFile: string, mkdirErr: Option<string>, writeErr: Option<string>)
      returns (err: Option<string>, written: Option<FileWrite>)
      ensures mkdirErr.Some? ==> err == mkdirErr && written.None?
      ensures mkdirErr.None? ==> err == writeErr
      ensures mkdirErr.None? && sh == null ==> written == Some(FileWrite(path, dumpedFile, ""))
      ensures mkdirErr.None? && sh != null ==>
        written == Some(FileWrite(path, dumpedFile, EnvText(sh.env, SortedSeq(sh.env.Keys))))
    {
      if mkdirErr.Some? {
        return mkdirErr, None;
      }
      var envs := EnvContent();
      written := Some(FileWrite(path, dumpedFile, envs));
      err := writeErr;
    }
  }

  /** `NewResticWrapper`: a session in the scratch directory that echoes
      commands and propagates pipe failures and stderr.  `setupEnv` reads
      secret files and is outside the model: the variables it sets, or its
      error, are inputs. */
  method NewResticWrapper(options: SetupOptions, resticEnv: map<string, string>, setupErr: Option<string>)
    returns (w: ResticWrapper?, err: Option<string>)
    ensures setupErr.Some? ==> w == null && err == setupErr
    ensures setupErr.None? ==> err.None? && w != null && fresh(w) && fresh(w.sh)
    ensures w != null ==> w.sh != null && w.config == options && w.sh.dir == options.scratchDir
    ensures w != null ==> w.sh.showCmd && w.sh.pipeFail && w.sh.pipeStdErrors
    ensures w != null ==> w.sh.env == resticEnv
  {
    var sh := new Session();
    w := new ResticWrapper(sh, options);
    sh.dir := options.scratchDir;
    sh.showCmd := true;
    sh.pipeFail := true;
    sh.pipeStdErrors := true;
    sh.env := resticEnv;
    if setupErr.Some? {
      return null, setupErr;
    }
    err := None;
  }

  /** `Copy`: a new wrapper with its own session holding the same environment
      and flags.  The working directory is not carried over. */
  method Copy(w: ResticWrapper?) returns (out: ResticWrapper?)
    ensures w == null ==> out == null
    ensures w != null ==> out != null && fresh(out) && out.config == w.config
    ensures w != null && w.sh == null ==> out.sh == null
    ensures w != null && w.sh != null ==> out.sh != null && fresh(out.sh)
    ensures w != null && w.sh != null ==> out.sh.env == w.sh.env && out.sh.dir == ""
    ensures w != null && w.sh != null ==>
      out.sh.showCmd == w.sh.showCmd && out.sh.pipeFail == w.sh.pipeFail && out.sh.pipeStdErrors == w.sh.pipeStdErrors
  {
    if w == null {
      return null;
    }
    out := new ResticWrapper(null, w.config);
    if w.sh != null {
      var sh := new Session();
      out.sh := sh;
      var src := w.sh.env;
      var rest := src.Keys;
      while rest != {}
        invariant rest <= src.Keys
        invariant forall k :: k in sh.env <==> k in src && k !in rest
        invariant forall k :: k in sh.env ==> sh.env[k] == src[k]
        invariant sh.dir == "" && sh != w.sh && out.sh == sh
        decreases |rest|
      {
        var k :| k in rest;
        sh.env := sh.env[k := src[k]];
        rest := rest - {k};
      }
      assert sh.env == src;
      sh.showCmd := w.sh.showCmd;
      sh.pipeFail := w.sh.pipeFail;
      sh.pipeStdErrors := w.sh.pipeStdErrors;
    }
    out.config := w.config;
  }

  /** A change to a copy's environment leaves the original's untouched. */
  method CopyIsIndependent(w: ResticWrapper, key: string, value: string) returns (out: ResticWrapper?)
    requires w.sh != null
    ensures out != null && out.sh != null && out.sh != w.sh
    ensures out.sh.env == w.sh.env[key := value]
  {
    out := Copy(w);
    out.SetEnv(key, value);
  }

  // ---- specification of the dumped text -----------------------------------

  /** One line of the dump: `fmt.Sprintln(k + "=" + v)`. */
  function EnvLine(k: string, v: string): string
  {
    k + "=" + v + "\n"
  }

  /** The lines of `keys`, in that order. */
  function EnvText(env: map<string, string>, keys: seq<string>): string
    requires forall i :: 0 <= i < |keys| ==> keys[i] in env
  {
    if keys == [] then ""
    else EnvText(env, keys[..|keys| - 1]) + EnvLine(keys[|keys| - 1], env[keys[|keys| - 1]])
  }

  /** The loop of `DumpEnv` that concatenates the lines of the sorted keys. */
  method DumpText(env: map<string, string>) returns (envs: string)
    ensures envs == EnvText(env, SortedSeq(env.Keys))
  {
    var sortedKeys := SortedKeys(env);
    envs := "";
    var i := 0;
    while i < |sortedKeys|
      invariant 0 <= i <= |sortedKeys|
      invariant forall j :: 0 <= j < |sortedKeys| ==> sortedKeys[j] in env
      invariant envs == EnvText(env, sortedKeys[..i])
    {
      EnvTextSnoc(env, sortedKeys, i);
      envs := envs + EnvLine(sortedKeys[i], env[sortedKeys[i]]);
      i := i + 1;
    }
    assert sortedKeys[..i] == sortedKeys;
  }

  /** When no key or value holds a newline, the dump has exactly one line per
      key: the text ends in as many newlines as there are keys. */
  lemma {:induction false} EnvTextLineCount(env: map<string, string>, keys: seq<string>)
    requires forall i :: 0 <= i < |keys| ==> keys[i] in env
    requires forall k :: k in env ==> '\n' !in k && '\n' !in env[k]
    ensures GoStrings.Count(EnvText(env, keys), '\n') == |keys|
    ensures keys != [] ==> EnvText(env, keys)[|EnvText(env, keys)| - 1] == '\n'
  {
    if keys != [] {
      var init := keys[..|keys| - 1];
      var k := keys[|keys| - 1];
      EnvTextLineCount(env, init);
      GoStrings.CountAppend(EnvText(env, init), EnvLine(k, env[k]), '\n');
      GoStrings.CountAppend(k + "=" + env[k], "\n", '\n');
      GoStrings.CountAppend(k + "=", env[k], '\n');
      GoStrings.CountAppend(k, "=", '\n');
      GoStrings.CountZero(k, '\n');
      GoStrings.CountZero(env[k], '\n');
      assert GoStrings.Count("=", '\n') == 0;
      assert GoStrings.Count("\n", '\n') == 1;
    }
  }

  lemma EnvTextSnoc(env: map<string, string>, keys: seq<string>, i: nat)
    requires forall j :: 0 <= j < |keys| ==> keys[j] in env
    requires i < |keys|
    ensures EnvText(env, keys[..i + 1]) == EnvText(env, keys[..i]) + EnvLine(keys[i], env[keys[i]])
  {
    assert keys[..i + 1][..i] == keys[..i];
  }

  // ---- key collection and sorting -----------------------------------------

  /** The keys of an environment in `sort.Strings` order. */
  method SortedKeys(env: map<string, string>) returns (sortedKeys: seq<string>)
    ensures sortedKeys == SortedSeq(env.Keys)
  {
    var keys := MapKeys(env);
    sortedKeys := SortStrings(keys);
    SortedUnique(sortedKeys, env.Keys);
  }

  /** The keys of a map, collected in the map's (unspecified) iteration order. */
  method MapKeys(env: map<string, string>) returns (keys: seq<string>)
    ensures forall k :: k in keys <==> k in env
    ensures forall i, j :: 0 <= i < j < |keys| ==> keys[i] != keys[j]
    ensures |keys| == |env|
  {
    keys := [];
    var rest := env.Keys;
    while rest != {}
      invariant rest <= env.Keys
      invariant forall k :: k in keys <==> k in env && k !in rest
      invariant forall i, j :: 0 <= i < j < |keys| ==> keys[i] != keys[j]
      invariant |keys| + |rest| == |env|
      decreases |rest|
    {
      var k :| k in rest;
      keys := keys + [k];
      rest := rest - {k};
    }
  }

  /** `sort.Strings` on distinct strings (the keys of a map): ascending order,
      same elements. */
  method SortStrings(s: seq<string>) returns (r: seq<string>)
    requires forall i, j :: 0 <= i < j < |s| ==> s[i] != s[j]
    ensures StrictlySorted(r)
    ensures forall x :: x in r <==> x in s
    ensures |r| == |s|
  {
    r := [];
    var i := 0;
    while i < |s|
      invariant 0 <= i <= |s|
      invariant StrictlySorted(r)
      invariant forall x :: x in r <==> x in s[..i]
      invariant |r| == i
    {
      assert s[i] !in s[..i];
      r := Insert(r, s[i]);
      assert s[..i + 1] == s[..i] + [s[i]];
      i := i + 1;
    }
    assert s[..i] == s;
  }
}
