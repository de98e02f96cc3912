/**
 * The download wrapper of objr-py: it obtains credentials, copies the
 * process environment and injects them, runs the R download script in a
 * temporary directory, reads the downloaded file's name from the script's
 * output and loads that file with the loader chosen for the file type.
 *
 * Everything outside the package is a field of `Host`: the process
 * environment, what the user types at the prompts, the directory the
 * temporary-directory factory creates, `os.path.join`, the R process and
 * the pandas readers. `Objr` records every interaction with the host in a
 * ghost trace, so that the order of the steps can be stated and proved.
 */
module ObjrPy {
  import opened Wrappers
  import opened PyText

  /** The environment variables the download script reads the credentials from. */
  const UsernameKey: string := "OBJR_USR"
  const PasswordKey: string := "OBJR_PWD"

  /** The R script shipped beside the package, run by `Rscript`. */
  const ScriptName: string := "oc_download.R"

  /** The message of the `IndexError` a Python list raises for an index out of range. */
  const IndexOutOfRange: string := "list index out of range"

  datatype Credentials = Credentials(username: string, password: string)

  datatype FileType = Excel | Csv

  /** The two pandas readers, as opaque tags. */
  datatype Loader = ReadExcel | ReadCsv

  /** An opaque handle on the table a loader returns. */
  datatype Table = Table(handle: nat)

  /** The exceptions a download can end with. */
  datatype Error =
    | KeyError(message: string)    // a credential variable is not set
    | IndexError(message: string)  // the script printed fewer than two tokens
    | ProcessError(detail: string) // the R process failed or its output did not decode
    | LoadError(detail: string)    // the pandas reader failed

  /** The two ways to obtain credentials; each carries what its constructor stores. */
  datatype CredentialGetter =
    | PromptCredentialGetter(usernamePrompt: string := "Username", passwordPrompt: string := "Password")
    | EnvCredentialGetter(usernameVar: string := "OBJR_USR", passwordVar: string := "OBJR_PWD")

  /** The world outside the package, as seen by one download. */
  datatype Host = Host(
    environ: map<string, string>,                                              // os.environ
    typed: Credentials,                                                        // the answers typed at the two prompts
    tempDir: string,                                                           // the directory TemporaryDirectory creates
    join: (string, string) -> string,                                          // os.path.join
    run: (string, string, string, map<string, string>) -> Result<string, string>, // Rscript script uuid directory, with env
    load: (Loader, string) -> Result<Table, string>                             // pandas.read_excel / pandas.read_csv
  )

  /** One interaction with the host. */
  datatype Event =
    | EnvironmentCopied
    | UsernamePrompted(text: string)
    | PasswordPrompted(text: string)
    | WorkspaceAcquired(dir: string)
    | ProcessRun(script: string, uuid: string, dir: string, env: map<string, string>)
    | LoaderSelected(fileType: FileType)
    | LoaderCalled(loader: Loader, path: string)
    | WorkspaceReleased(dir: string)

  /** What a step returns, with the interactions it had with the host, oldest first. */
  datatype Outcome<+T> = Outcome(result: Result<T, Error>, events: seq<Event>)

  // ---------------------------------------------------------------------------
  // Credentials
  // ---------------------------------------------------------------------------

  function MissingVariable(name: string): string {
    name + " not found in environment variables"
  }

  /** `EnvCredentialGetter._get_env_var`: the variable's value, or a `KeyError` naming it. */
  function GetEnvVar(env: map<string, string>, name: string): Result<string, Error> {
    if name in env then Success(env[name]) else Failure(KeyError(MissingVariable(name)))
  }

  /**
   * `EnvCredentialGetter.get_credentials`: both values when both variables
   * are set, otherwise the `KeyError` of the first one missing, the username
   * variable being looked up first.
   */
  function GetEnvCredentials(env: map<string, string>, usernameVar: string, passwordVar: string)
    : (r: Result<Credentials, Error>)
    ensures r.Success? <==> usernameVar in env && passwordVar in env
    ensures r.Success? ==> r.value == Credentials(env[usernameVar], env[passwordVar])
    ensures usernameVar !in env ==> r == Failure(KeyError(MissingVariable(usernameVar)))
    ensures usernameVar in env && passwordVar !in env ==> r == Failure(KeyError(MissingVariable(passwordVar)))
  {
    var username :- GetEnvVar(env, usernameVar);
    var password :- GetEnvVar(env, passwordVar);
    Success(Credentials(username, password))
  }

  /** `get_credentials` of either getter; the prompting one shows its prompts, username first. */
  function GetCredentials(getter: CredentialGetter, host: Host): Outcome<Credentials> {
    match getter
    case PromptCredentialGetter(usernamePrompt, passwordPrompt) =>
      Outcome(Success(host.typed), [UsernamePrompted(usernamePrompt + ": "), PasswordPrompted(passwordPrompt + ": ")])
    case EnvCredentialGetter(usernameVar, passwordVar) =>
      Outcome(GetEnvCredentials(host.environ, usernameVar, passwordVar), [])
  }

  /** The getter `download_data` builds: prompting when asked to, else the default variables. */
  function CredentialGetterFor(prompt: bool): CredentialGetter {
    if prompt then PromptCredentialGetter() else EnvCredentialGetter()
  }

  // ---------------------------------------------------------------------------
  // The environment handed to the script
  // ---------------------------------------------------------------------------

  /** The copy of the environment with the credentials written under the two fixed keys. */
  function AugmentEnvironment(base: map<string, string>, credentials: Credentials): map<string, string> {
    base[UsernameKey := credentials.username][PasswordKey := credentials.password]
  }

  /**
   * The augmented environment has the base's keys and the two credential
   * keys; the two keys hold the credentials, overwriting earlier values, and
   * every other key keeps its value.
   */
  lemma AugmentedEntries(base: map<string, string>, credentials: Credentials)
    ensures var env := AugmentEnvironment(base, credentials);
            && env.Keys == base.Keys + {UsernameKey, PasswordKey}
            && env[UsernameKey] == credentials.username
            && env[PasswordKey] == credentials.password
            && forall k :: k in base && k != UsernameKey && k != PasswordKey ==> env[k] == base[k]
  {
  }

  /** The augmented environment grows by the number of credential keys the base lacked. */
  lemma AugmentedSize(base: map<string, string>, credentials: Credentials)
    ensures |AugmentEnvironment(base, credentials)|
         == |base| + (if UsernameKey in base then 0 else 1) + (if PasswordKey in base then 0 else 1)
    ensures |AugmentEnvironment(base, credentials)| == |base| + |{UsernameKey, PasswordKey} - base.Keys|
  {
    var missing := {UsernameKey, PasswordKey} - base.Keys;
    assert UsernameKey != PasswordKey;
    if UsernameKey in base {
      if PasswordKey in base {
        assert missing == {};
      } else {
        assert missing == {PasswordKey};
      }
    } else {
      if PasswordKey in base {
        assert missing == {UsernameKey};
      } else {
        assert missing == {UsernameKey, PasswordKey};
      }
    }
  }

  /** Credentials read from the two default variables leave the environment as it was. */
  lemma EnvCredentialsAugmentNothing(env: map<string, string>)
    requires GetEnvCredentials(env, UsernameKey, PasswordKey).Success?
    ensures AugmentEnvironment(env, GetEnvCredentials(env, UsernameKey, PasswordKey).value) == env
  {
    var credentials := GetEnvCredentials(env, UsernameKey, PasswordKey).value;
    AugmentedEntries(env, credentials);
    assert AugmentEnvironment(env, credentials).Keys == env.Keys;
  }

  /** The environment of the package's test: one variable plus the two credentials. */
  lemma AugmentTestEnvironment()
    ensures AugmentEnvironment(map["PATH" := "mypath"], Credentials("test_user", "test_pass"))
         == map["PATH" := "mypath", "OBJR_USR" := "test_user", "OBJR_PWD" := "test_pass"]
    ensures |AugmentEnvironment(map["PATH" := "mypath"], Credentials("test_user", "test_pass"))| == 3
  {
    assert "PATH" != UsernameKey && "PATH" != PasswordKey;
    AugmentedSize(map["PATH" := "mypath"], Credentials("test_user", "test_pass"));
  }

  // ---------------------------------------------------------------------------
  // The downloaded file's name
  // ---------------------------------------------------------------------------

  /**
   * `output.split()[1][1:-1]`: the second whitespace-separated token of the
   * script's output without its first and last character, or the
   * `IndexError` of a list with fewer than two tokens.
   */
  function ExtractFilename(output: string): (r: Result<string, Error>)
    ensures r.Failure? <==> |Split(output)| < 2
    ensures r.Failure? ==> r.error == IndexError(IndexOutOfRange)
  {
    var tokens := Split(output);
    if |tokens| < 2 then Failure(IndexError(IndexOutOfRange)) else Success(Slice(tokens[1], 1, -1))
  }

  /**
   * The extracted name is the interior of the second token: two characters
   * shorter (empty for a token of one or two characters), the characters in
   * between in order, and so free of whitespace.
   */
  lemma ExtractedInterior(output: string)
    requires |Split(output)| >= 2
    ensures var token := Split(output)[1];
            var name := ExtractFilename(output).value;
            && |name| == (if |token| < 2 then 0 else |token| - 2)
            && (forall i :: 0 <= i < |name| ==> name[i] == token[i + 1])
            && NoSpace(name)
  {
    InteriorSlice(Split(output)[1]);
  }

  /** `"name"` in the script's output. */
  function Quoted(name: string): string {
    ['"'] + name + ['"']
  }

  /**
   * The script's output convention: a first token, whitespace, the quoted
   * file name and then nothing or whitespace-led text yields that file name.
   */
  lemma ExtractFromPrintedName(first: string, sep: string, name: string, rest: string)
    requires IsToken(first)
    requires sep != [] && AllSpace(sep)
    requires NoSpace(name)
    requires rest == [] || IsSpace(rest[0])
    ensures ExtractFilename(first + sep + Quoted(name) + rest) == Success(name)
  {
    QuotedIsToken(name);
    SplitPrinted(first, sep, Quoted(name), rest);
    UnquoteQuote('"', name, '"');
  }

  /** A quoted name without whitespace is one token. */
  lemma QuotedIsToken(name: string)
    requires NoSpace(name)
    ensures IsToken(Quoted(name))
  {
    var q := Quoted(name);
    forall i | 0 <= i < |q| ensures !IsSpace(q[i]) {
      if 0 < i < |q| - 1 {
        assert q[i] == name[i - 1];
      }
    }
  }

  /** Two tokens separated by whitespace are the first two tokens of the split. */
  lemma SplitPrinted(first: string, sep: string, q: string, rest: string)
    requires IsToken(first) && IsToken(q)
    requires sep != [] && AllSpace(sep)
    requires rest == [] || IsSpace(rest[0])
    ensures Split(first + sep + q + rest) == [first, q] + Split(rest)
  {
    var tail := q + rest;
    var spaced := sep + tail;
    assert first + sep + q + rest == first + spaced;
    SplitToken(q, rest);
    SplitSkipsSpace(sep, tail);
    SplitToken(first, spaced);
    assert [first] + ([q] + Split(rest)) == [first, q] + Split(rest);
  }

  /** The output of the package's test names `test.xlsx`. */
  lemma ExtractTestFilename()
    ensures ExtractFilename("[1] \"test.xlsx\"") == Success("test.xlsx")
  {
    assert "[1] \"test.xlsx\"" == "[1]" + " " + Quoted("test.xlsx") + "";
    ExtractFromPrintedName("[1]", " ", "test.xlsx", "");
  }

  /** Output with no second token, such as an empty or one-word output, is an `IndexError`. */
  lemma ExtractFromOneToken(word: string, w1: string, w2: string)
    requires IsToken(word) && AllSpace(w1) && AllSpace(w2)
    ensures ExtractFilename(w1 + word + w2) == Failure(IndexError(IndexOutOfRange))
  {
    SplitSkipsSpace(w1, word + w2);
    assert w2 == [] || IsSpace(w2[0]);
    SplitToken(word, w2);
    SplitSkipsSpace(w2, []);
    assert w2 + [] == w2;
    assert w1 + word + w2 == w1 + (word + w2);
  }

  // ---------------------------------------------------------------------------
  // Loader dispatch
  // ---------------------------------------------------------------------------

  /** The file type each pandas reader reads. */
  function LoaderFileType(loader: Loader): FileType {
    match loader
    case ReadExcel => Excel
    case ReadCsv => Csv
  }

  /** `Objr.get_data_loader`: the table from file type to reader, total on the enumeration. */
  const DataLoaders: map<FileType, Loader> := map[Excel := ReadExcel, Csv := ReadCsv]

  function GetDataLoader(fileType: FileType): (loader: Loader)
    ensures LoaderFileType(loader) == fileType
  {
    assert fileType == Excel || fileType == Csv;
    DataLoaders[fileType]
  }

  /** Every reader is the one selected for the file type it reads: the dispatch is a bijection. */
  lemma DataLoadersBijective(loader: Loader)
    ensures GetDataLoader(LoaderFileType(loader)) == loader
  {
    match loader
    case ReadExcel =>
    case ReadCsv =>
  }

  // ---------------------------------------------------------------------------
  // The download sequence
  // ---------------------------------------------------------------------------

  /** A reader's result as the download returns it: a failure of the reader becomes a `LoadError`. */
  function Loaded(r: Result<Table, string>): Result<Table, Error> {
    match r
    case Success(table) => Success(table)
    case Failure(detail) => Failure(LoadError(detail))
  }

  /** The path of the R script: `os.path.join(<the package's directory>, "oc_download.R")`. */
  function ScriptPath(packageDir: string, host: Host): string {
    host.join(packageDir, ScriptName)
  }

  /**
   * `Objr.download`: copy the environment and obtain the credentials, put
   * them into the copy, then inside a temporary directory run the script,
   * read the file name from its output and load that file; the directory is
   * released on every path that acquired it.
   */
  function DownloadRun(getter: CredentialGetter, uuid: string, fileType: FileType, packageDir: string, host: Host)
    : Outcome<Table>
  {
    var got := GetCredentials(getter, host);
    var before := Preamble(getter, host);
    if got.result.Failure? then Outcome(Failure(got.result.error), before)
    else
      var dir := host.tempDir;
      var ran := before + [WorkspaceAcquired(dir)]
                 + [ProcessRun(ScriptPath(packageDir, host), uuid, dir, ScriptEnvironment(getter, host))];
      var output := ScriptOutput(getter, uuid, packageDir, host);
      if output.Failure? then Outcome(Failure(ProcessError(output.error)), ran + [WorkspaceReleased(dir)])
      else
        match ExtractFilename(output.value)
        case Failure(e) => Outcome(Failure(e), ran + [WorkspaceReleased(dir)])
        case Success(_) =>
          var loader := GetDataLoader(fileType);
          var path := DataPath(getter, uuid, packageDir, host);
          Outcome(Loaded(host.load(loader, path)),
                  ran + [LoaderSelected(fileType)] + [LoaderCalled(loader, path)] + [WorkspaceReleased(dir)])
  }

  /** The live workspaces after one more event. */
  function Step(live: set<string>, e: Event): set<string> {
    match e
    case WorkspaceAcquired(d) => live + {d}
    case WorkspaceReleased(d) => live - {d}
    case _ => live
  }

  /** The workspaces acquired and not yet released after the events `t`. */
  function Live(t: seq<Event>): set<string> {
    if t == [] then {} else Step(Live(t[..|t| - 1]), t[|t| - 1])
  }

  lemma LiveAppend(t: seq<Event>, e: Event)
    ensures Live(t + [e]) == Step(Live(t), e)
  {
    assert (t + [e])[..|t|] == t;
  }

  /** A process runs in a live workspace, and a loader is called while one is live. */
  predicate StepInside(live: set<string>, e: Event) {
    && (e.ProcessRun? ==> e.dir in live)
    && (e.LoaderCalled? ==> live != {})
  }

  /** Every event of `t` is a step inside the workspaces live just before it. */
  predicate InsideWorkspace(t: seq<Event>) {
    t == [] || (InsideWorkspace(t[..|t| - 1]) && StepInside(Live(t[..|t| - 1]), t[|t| - 1]))
  }

  lemma InsideAppend(t: seq<Event>, e: Event)
    ensures InsideWorkspace(t + [e]) <==> InsideWorkspace(t) && StepInside(Live(t), e)
  {
    assert (t + [e])[..|t|] == t;
  }

  /** Events outside any workspace leave nothing live and break no scoping. */
  lemma {:induction false} QuietPrefix(t: seq<Event>)
    requires forall i :: 0 <= i < |t| ==> Kind(t[i]).BeforeWorkspace()
    ensures Live(t) == {} && InsideWorkspace(t)
  {
    if t != [] {
      var init := t[..|t| - 1];
      assert t == init + [t[|t| - 1]];
      QuietPrefix(init);
      LiveAppend(init, t[|t| - 1]);
      InsideAppend(init, t[|t| - 1]);
    }
  }

  /** The host operations, one per kind of event. */
  datatype Op =
    | CopyEnvironment | PromptUsername | PromptPassword | AcquireWorkspace
    | RunProcess | SelectLoader | CallLoader | ReleaseWorkspace {
    /** The operations that a credential getter may use. */
    predicate BeforeWorkspace() {
      CopyEnvironment? || PromptUsername? || PromptPassword?
    }
  }

  function Kind(e: Event): Op {
    match e
    case EnvironmentCopied => CopyEnvironment
    case UsernamePrompted(_) => PromptUsername
    case PasswordPrompted(_) => PromptPassword
    case WorkspaceAcquired(_) => AcquireWorkspace
    case ProcessRun(_, _, _, _) => RunProcess
    case LoaderSelected(_) => SelectLoader
    case LoaderCalled(_, _) => CallLoader
    case WorkspaceReleased(_) => ReleaseWorkspace
  }

  /** How many events of `t` used the operation `op`. */
  function Count(t: seq<Event>, op: Op): nat {
    if t == [] then 0 else (if Kind(t[0]) == op then 1 else 0) + Count(t[1..], op)
  }

  /** The operation of `e` was used exactly once in `t`, and that use was `e` itself. */
  predicate Once(t: seq<Event>, e: Event) {
    e in t && Count(t, Kind(e)) == 1
  }

  lemma {:induction false} CountAppend(a: seq<Event>, b: seq<Event>, op: Op)
    ensures Count(a + b, op) == Count(a, op) + Count(b, op)
    decreases |a|
  {
    if a == [] {
      assert a + b == b;
    } else {
      assert (a + b)[0] == a[0] && (a + b)[1..] == a[1..] + b;
      CountAppend(a[1..], b, op);
    }
  }

  lemma {:induction false} CountAbsent(t: seq<Event>, op: Op)
    requires forall i :: 0 <= i < |t| ==> Kind(t[i]) != op
    ensures Count(t, op) == 0
    decreases |t|
  {
    if t != [] {
      CountAbsent(t[1..], op);
    }
  }

  lemma CountSnoc(t: seq<Event>, e: Event, op: Op)
    ensures Count(t + [e], op) == Count(t, op) + (if Kind(e) == op then 1 else 0)
  {
    CountAppend(t, [e], op);
    assert [e][1..] == [];
  }

  /** The events before the workspace: the environment copy and the getter's prompts. */
  function Preamble(getter: CredentialGetter, host: Host): (t: seq<Event>)
    ensures forall i :: 0 <= i < |t| ==> Kind(t[i]).BeforeWorkspace()
  {
    [EnvironmentCopied] + GetCredentials(getter, host).events
  }

  lemma CountAfterPreamble(getter: CredentialGetter, host: Host, tail: seq<Event>, op: Op)
    requires !op.BeforeWorkspace()
    ensures Count(Preamble(getter, host) + tail, op) == Count(tail, op)
  {
    CountAbsent(Preamble(getter, host), op);
    CountAppend(Preamble(getter, host), tail, op);
  }

  /** A preamble followed by events that copy nothing starts with the one copy of the environment. */
  lemma CopiedOnceFirst(getter: CredentialGetter, host: Host, tail: seq<Event>)
    requires forall i :: 0 <= i < |tail| ==> Kind(tail[i]) != CopyEnvironment
    ensures var t := Preamble(getter, host) + tail;
            t[0] == EnvironmentCopied && Count(t, CopyEnvironment) == 1
  {
    var prompts := GetCredentials(getter, host).events;
    assert Preamble(getter, host) + tail == [EnvironmentCopied] + (prompts + tail);
    var rest := prompts + tail;
    forall i | 0 <= i < |rest| ensures Kind(rest[i]) != CopyEnvironment {
      if i < |prompts| {
        assert Kind(Preamble(getter, host)[i + 1]).BeforeWorkspace();
      }
    }
    CountAbsent(rest, CopyEnvironment);
    CountAppend([EnvironmentCopied], rest, CopyEnvironment);
  }

  /** The environment the script runs with, once the credentials are obtained. */
  function ScriptEnvironment(getter: CredentialGetter, host: Host): map<string, string>
    requires GetCredentials(getter, host).result.Success?
  {
    AugmentEnvironment(host.environ, GetCredentials(getter, host).result.value)
  }

  /** What the script returns, once the credentials are obtained. */
  function ScriptOutput(getter: CredentialGetter, uuid: string, packageDir: string, host: Host): Result<string, string>
    requires GetCredentials(getter, host).result.Success?
  {
    host.run(ScriptPath(packageDir, host), uuid, host.tempDir, ScriptEnvironment(getter, host))
  }

  /** The credentials are obtained, the script succeeds and its output names a file. */
  predicate ReachesLoader(getter: CredentialGetter, uuid: string, packageDir: string, host: Host) {
    && GetCredentials(getter, host).result.Success?
    && ScriptOutput(getter, uuid, packageDir, host).Success?
    && ExtractFilename(ScriptOutput(getter, uuid, packageDir, host).value).Success?
  }

  /** The path handed to the loader: the file name joined to the workspace directory. */
  function DataPath(getter: CredentialGetter, uuid: string, packageDir: string, host: Host): string
    requires ReachesLoader(getter, uuid, packageDir, host)
  {
    host.join(host.tempDir, ExtractFilename(ScriptOutput(getter, uuid, packageDir, host).value).value)
  }

  /**
   * When no credentials are obtained the download fails with the getter's
   * error before any workspace is acquired, any process is run or any
   * loader is called.
   */
  lemma CredentialFailureRunsNothing(getter: CredentialGetter, uuid: string, fileType: FileType,
                                     packageDir: string, host: Host)
    requires GetCredentials(getter, host).result.Failure?
    ensures DownloadRun(getter, uuid, fileType, packageDir, host).result
         == Failure(GetCredentials(getter, host).result.error)
    ensures forall op: Op :: !op.BeforeWorkspace() ==>
              Count(DownloadRun(getter, uuid, fileType, packageDir, host).events, op) == 0
  {
    forall op: Op | !op.BeforeWorkspace()
      ensures Count(DownloadRun(getter, uuid, fileType, packageDir, host).events, op) == 0
    {
      CountAfterPreamble(getter, host, [], op);
      assert DownloadRun(getter, uuid, fileType, packageDir, host).events == Preamble(getter, host) + [];
    }
  }

  /**
   * With the environment getter, a missing variable ends the download with
   * the `KeyError` of the first one missing, username first, and no process runs.
   */
  lemma MissingVariableFails(usernameVar: string, passwordVar: string, uuid: string, fileType: FileType,
                             packageDir: string, host: Host)
    requires usernameVar !in host.environ || passwordVar !in host.environ
    ensures DownloadRun(EnvCredentialGetter(usernameVar, passwordVar), uuid, fileType, packageDir, host).result
         == Failure(KeyError(MissingVariable(if usernameVar !in host.environ then usernameVar else passwordVar)))
    ensures Count(DownloadRun(EnvCredentialGetter(usernameVar, passwordVar), uuid, fileType, packageDir, host).events,
                  RunProcess) == 0
    ensures Count(DownloadRun(EnvCredentialGetter(usernameVar, passwordVar), uuid, fileType, packageDir, host).events,
                  AcquireWorkspace) == 0
  {
    CredentialFailureRunsNothing(EnvCredentialGetter(usernameVar, passwordVar), uuid, fileType, packageDir, host);
  }

  /** The events of a download that obtained credentials but read no file name. */
  lemma EventsWithoutLoader(getter: CredentialGetter, uuid: string, fileType: FileType,
                            packageDir: string, host: Host)
    requires GetCredentials(getter, host).result.Success?
    requires !ReachesLoader(getter, uuid, packageDir, host)
    ensures DownloadRun(getter, uuid, fileType, packageDir, host).events
         == Preamble(getter, host) + [WorkspaceAcquired(host.tempDir)]
            + [ProcessRun(ScriptPath(packageDir, host), uuid, host.tempDir, ScriptEnvironment(getter, host))]
            + [WorkspaceReleased(host.tempDir)]
  {
  }

  /** The events of a download that read a file name. */
  lemma EventsWithLoader(getter: CredentialGetter, uuid: string, fileType: FileType,
                         packageDir: string, host: Host)
    requires ReachesLoader(getter, uuid, packageDir, host)
    ensures DownloadRun(getter, uuid, fileType, packageDir, host).events
         == Preamble(getter, host) + [WorkspaceAcquired(host.tempDir)]
            + [ProcessRun(ScriptPath(packageDir, host), uuid, host.tempDir, ScriptEnvironment(getter, host))]
            + [LoaderSelected(fileType)]
            + [LoaderCalled(GetDataLoader(fileType), DataPath(getter, uuid, packageDir, host))]
            + [WorkspaceReleased(host.tempDir)]
  {
  }

  /** Counts in `pre`, an acquisition, a process run, an optional selection and call, then a release. */
  lemma ScopeCounts(pre: seq<Event>, acquire: Event, run: Event, loading: seq<Event>, release: Event, op: Op)
    requires forall i :: 0 <= i < |pre| ==> Kind(pre[i]).BeforeWorkspace()
    requires Kind(acquire) == AcquireWorkspace && Kind(run) == RunProcess && Kind(release) == ReleaseWorkspace
    requires loading == [] || (|loading| == 2 && Kind(loading[0]) == SelectLoader && Kind(loading[1]) == CallLoader)
    requires !op.BeforeWorkspace()
    ensures Count(pre + [acquire] + [run] + loading + [release], op)
         == if op == SelectLoader || op == CallLoader then (if loading == [] then 0 else 1) else 1
  {
    CountAbsent(pre, op);
    CountSnoc(pre, acquire, op);
    CountSnoc(pre + [acquire], run, op);
    var ran := pre + [acquire] + [run];
    if loading == [] {
      assert ran + loading == ran;
    } else {
      assert ran + loading == ran + [loading[0]] + [loading[1]];
      CountSnoc(ran, loading[0], op);
      CountSnoc(ran + [loading[0]], loading[1], op);
    }
    CountSnoc(ran + loading, release, op);
  }

  /** A download that reads no file name acquires, runs and releases once each and uses no loader. */
  lemma StepCountsWithoutLoader(getter: CredentialGetter, uuid: string, fileType: FileType,
                                packageDir: string, host: Host)
    requires GetCredentials(getter, host).result.Success?
    requires !ReachesLoader(getter, uuid, packageDir, host)
    ensures forall op: Op :: !op.BeforeWorkspace() ==>
      Count(DownloadRun(getter, uuid, fileType, packageDir, host).events, op)
        == if op == SelectLoader || op == CallLoader then 0 else 1
  {
    var pre := Preamble(getter, host);
    var dir := host.tempDir;
    var run := ProcessRun(ScriptPath(packageDir, host), uuid, dir, ScriptEnvironment(getter, host));
    EventsWithoutLoader(getter, uuid, fileType, packageDir, host);
    assert pre + [WorkspaceAcquired(dir)] + [run] + [] == pre + [WorkspaceAcquired(dir)] + [run];
    forall op: Op | !op.BeforeWorkspace() {
      ScopeCounts(pre, WorkspaceAcquired(dir), run, [], WorkspaceReleased(dir), op);
    }
  }

  /** A download that reads a file name uses each step after the credentials exactly once. */
  lemma StepCountsWithLoader(getter: CredentialGetter, uuid: string, fileType: FileType,
                             packageDir: string, host: Host)
    requires ReachesLoader(getter, uuid, packageDir, host)
    ensures forall op: Op :: !op.BeforeWorkspace() ==>
      Count(DownloadRun(getter, uuid, fileType, packageDir, host).events, op) == 1
  {
    var pre := Preamble(getter, host);
    var dir := host.tempDir;
    var run := ProcessRun(ScriptPath(packageDir, host), uuid, dir, ScriptEnvironment(getter, host));
    var loading := [LoaderSelected(fileType), LoaderCalled(GetDataLoader(fileType), DataPath(getter, uuid, packageDir, host))];
    EventsWithLoader(getter, uuid, fileType, packageDir, host);
    assert pre + [WorkspaceAcquired(dir)] + [run] + loading
        == pre + [WorkspaceAcquired(dir)] + [run] + [loading[0]] + [loading[1]];
    forall op: Op | !op.BeforeWorkspace() {
      ScopeCounts(pre, WorkspaceAcquired(dir), run, loading, WorkspaceReleased(dir), op);
    }
  }

  /** A failed process ends the download with its error: no file name is read and no loader is used. */
  lemma ProcessFailureSkipsLoader(getter: CredentialGetter, uuid: string, fileType: FileType,
                                  packageDir: string, host: Host)
    requires GetCredentials(getter, host).result.Success?
    requires ScriptOutput(getter, uuid, packageDir, host).Failure?
    ensures DownloadRun(getter, uuid, fileType, packageDir, host).result
         == Failure(ProcessError(ScriptOutput(getter, uuid, packageDir, host).error))
    ensures Count(DownloadRun(getter, uuid, fileType, packageDir, host).events, SelectLoader) == 0
    ensures Count(DownloadRun(getter, uuid, fileType, packageDir, host).events, CallLoader) == 0
    ensures Count(DownloadRun(getter, uuid, fileType, packageDir, host).events, ReleaseWorkspace) == 1
  {
    StepCountsWithoutLoader(getter, uuid, fileType, packageDir, host);
  }

  /** Output with fewer than two tokens ends the download with an `IndexError`: no loader is used. */
  lemma MalformedOutputSkipsLoader(getter: CredentialGetter, uuid: string, fileType: FileType,
                                   packageDir: string, host: Host)
    requires GetCredentials(getter, host).result.Success?
    requires ScriptOutput(getter, uuid, packageDir, host).Success?
    requires |Split(ScriptOutput(getter, uuid, packageDir, host).value)| < 2
    ensures DownloadRun(getter, uuid, fileType, packageDir, host).result == Failure(IndexError(IndexOutOfRange))
    ensures Count(DownloadRun(getter, uuid, fileType, packageDir, host).events, SelectLoader) == 0
    ensures Count(DownloadRun(getter, uuid, fileType, packageDir, host).events, CallLoader) == 0
    ensures Count(DownloadRun(getter, uuid, fileType, packageDir, host).events, ReleaseWorkspace) == 1
  {
    StepCountsWithoutLoader(getter, uuid, fileType, packageDir, host);
  }

  /**
   * A download that reads a file name runs the script once, in the
   * workspace and with the augmented environment, selects the loader for
   * the file type once, calls it once on the joined path, returns what it
   * returns and releases the workspace last.
   */
  lemma LoadingDownload(getter: CredentialGetter, uuid: string, fileType: FileType, packageDir: string, host: Host)
    requires ReachesLoader(getter, uuid, packageDir, host)
    ensures var o := DownloadRun(getter, uuid, fileType, packageDir, host);
            && Once(o.events, ProcessRun(ScriptPath(packageDir, host), uuid, host.tempDir, ScriptEnvironment(getter, host)))
            && Once(o.events, LoaderSelected(fileType))
            && Once(o.events, LoaderCalled(GetDataLoader(fileType), DataPath(getter, uuid, packageDir, host)))
            && o.events[|o.events| - 1] == WorkspaceReleased(host.tempDir)
            && (o.result.Success? <==> host.load(GetDataLoader(fileType), DataPath(getter, uuid, packageDir, host)).Success?)
            && (o.result.Success? ==>
                  o.result.value == host.load(GetDataLoader(fileType), DataPath(getter, uuid, packageDir, host)).value)
            && (o.result.Failure? ==>
                  o.result.error == LoadError(host.load(GetDataLoader(fileType), DataPath(getter, uuid, packageDir, host)).error))
  {
    EventsWithLoader(getter, uuid, fileType, packageDir, host);
    ScopeOnce(Preamble(getter, host), host.tempDir,
              ProcessRun(ScriptPath(packageDir, host), uuid, host.tempDir, ScriptEnvironment(getter, host)),
              LoaderSelected(fileType),
              LoaderCalled(GetDataLoader(fileType), DataPath(getter, uuid, packageDir, host)));
  }

  /** Every download copies the environment once, before anything else. */
  lemma EnvironmentCopiedFirst(getter: CredentialGetter, uuid: string, fileType: FileType,
                               packageDir: string, host: Host)
    ensures var t := DownloadRun(getter, uuid, fileType, packageDir, host).events;
            t[0] == EnvironmentCopied && Count(t, CopyEnvironment) == 1
  {
    if GetCredentials(getter, host).result.Failure? {
      assert Preamble(getter, host) + [] == Preamble(getter, host);
      CopiedOnceFirst(getter, host, []);
    } else {
      var run := ProcessRun(ScriptPath(packageDir, host), uuid, host.tempDir, ScriptEnvironment(getter, host));
      if ReachesLoader(getter, uuid, packageDir, host) {
        EventsWithLoader(getter, uuid, fileType, packageDir, host);
        var tail := [WorkspaceAcquired(host.tempDir), run, LoaderSelected(fileType),
                     LoaderCalled(GetDataLoader(fileType), DataPath(getter, uuid, packageDir, host)),
                     WorkspaceReleased(host.tempDir)];
        assert Preamble(getter, host) + tail == DownloadRun(getter, uuid, fileType, packageDir, host).events;
        CopiedOnceFirst(getter, host, tail);
      } else {
        EventsWithoutLoader(getter, uuid, fileType, packageDir, host);
        var tail := [WorkspaceAcquired(host.tempDir), run, WorkspaceReleased(host.tempDir)];
        assert Preamble(getter, host) + tail == DownloadRun(getter, uuid, fileType, packageDir, host).events;
        CopiedOnceFirst(getter, host, tail);
      }
    }
  }

  /** In a scope with a loader, the run, the selection and the call each occur once; the release is last. */
  lemma ScopeOnce(pre: seq<Event>, dir: string, run: Event, select: Event, call: Event)
    requires forall i :: 0 <= i < |pre| ==> Kind(pre[i]).BeforeWorkspace()
    requires Kind(run) == RunProcess && Kind(select) == SelectLoader && Kind(call) == CallLoader
    ensures var t := pre + [WorkspaceAcquired(dir)] + [run] + [select] + [call] + [WorkspaceReleased(dir)];
            Once(t, run) && Once(t, select) && Once(t, call) && t[|t| - 1] == WorkspaceReleased(dir)
  {
    var ran := pre + [WorkspaceAcquired(dir)] + [run];
    var t := ran + [select] + [call] + [WorkspaceReleased(dir)];
    assert ran + [select, call] == ran + [select] + [call];
    var n := |pre|;
    assert t[n + 1] == run && t[n + 2] == select && t[n + 3] == call;
    ScopeCounts(pre, WorkspaceAcquired(dir), run, [select, call], WorkspaceReleased(dir), RunProcess);
    ScopeCounts(pre, WorkspaceAcquired(dir), run, [select, call], WorkspaceReleased(dir), SelectLoader);
    ScopeCounts(pre, WorkspaceAcquired(dir), run, [select, call], WorkspaceReleased(dir), CallLoader);
  }

  /** A download returns a table only through the loader: there are no partial results. */
  lemma SuccessMeansLoaded(getter: CredentialGetter, uuid: string, fileType: FileType, packageDir: string, host: Host)
    requires DownloadRun(getter, uuid, fileType, packageDir, host).result.Success?
    ensures ReachesLoader(getter, uuid, packageDir, host)
    ensures host.load(GetDataLoader(fileType), DataPath(getter, uuid, packageDir, host))
         == Success(DownloadRun(getter, uuid, fileType, packageDir, host).result.value)
  {
  }

  /** After the preamble, acquiring `dir` and running the process in it leaves exactly `dir` live. */
  lemma ScopeOpened(pre: seq<Event>, dir: string, run: Event)
    requires forall i :: 0 <= i < |pre| ==> Kind(pre[i]).BeforeWorkspace()
    requires run.ProcessRun? && run.dir == dir
    ensures Live(pre + [WorkspaceAcquired(dir)] + [run]) == {dir}
    ensures InsideWorkspace(pre + [WorkspaceAcquired(dir)] + [run])
  {
    QuietPrefix(pre);
    var acquired := pre + [WorkspaceAcquired(dir)];
    LiveAppend(pre, WorkspaceAcquired(dir));
    InsideAppend(pre, WorkspaceAcquired(dir));
    LiveAppend(acquired, run);
    InsideAppend(acquired, run);
  }

  /** A scope in which no loader is used is closed and runs the process in its workspace. */
  lemma ScopeLiveWithoutLoader(pre: seq<Event>, dir: string, run: Event)
    requires forall i :: 0 <= i < |pre| ==> Kind(pre[i]).BeforeWorkspace()
    requires run.ProcessRun? && run.dir == dir
    ensures var t := pre + [WorkspaceAcquired(dir)] + [run] + [WorkspaceReleased(dir)];
            Live(t) == {} && InsideWorkspace(t) && WorkspaceAcquired(dir) in t
            && t[|t| - 1] == WorkspaceReleased(dir)
  {
    var ran := pre + [WorkspaceAcquired(dir)] + [run];
    assert (ran + [WorkspaceReleased(dir)])[|pre|] == WorkspaceAcquired(dir);
    ScopeOpened(pre, dir, run);
    LiveAppend(ran, WorkspaceReleased(dir));
    InsideAppend(ran, WorkspaceReleased(dir));
  }

  /** Selecting and calling a loader with `dir` live, then releasing it, closes the scope. */
  lemma ScopeClosedAfterLoading(ran: seq<Event>, dir: string, select: Event, call: Event)
    requires Live(ran) == {dir} && InsideWorkspace(ran)
    requires select.LoaderSelected? && call.LoaderCalled?
    ensures var t := ran + [select] + [call] + [WorkspaceReleased(dir)];
            Live(t) == {} && InsideWorkspace(t)
  {
    var selected := ran + [select];
    var called := selected + [call];
    LiveAppend(ran, select);
    InsideAppend(ran, select);
    LiveAppend(selected, call);
    InsideAppend(selected, call);
    LiveAppend(called, WorkspaceReleased(dir));
    InsideAppend(called, WorkspaceReleased(dir));
  }

  /** A scope in which the loader is selected and called is closed and calls both inside its workspace. */
  lemma ScopeLiveWithLoader(pre: seq<Event>, dir: string, run: Event, select: Event, call: Event)
    requires forall i :: 0 <= i < |pre| ==> Kind(pre[i]).BeforeWorkspace()
    requires run.ProcessRun? && run.dir == dir && select.LoaderSelected? && call.LoaderCalled?
    ensures var t := pre + [WorkspaceAcquired(dir)] + [run] + [select] + [call] + [WorkspaceReleased(dir)];
            Live(t) == {} && InsideWorkspace(t) && WorkspaceAcquired(dir) in t
            && t[|t| - 1] == WorkspaceReleased(dir)
  {
    var t := pre + [WorkspaceAcquired(dir)] + [run] + [select] + [call] + [WorkspaceReleased(dir)];
    assert t[|pre|] == WorkspaceAcquired(dir);
    ScopeOpened(pre, dir, run);
    ScopeClosedAfterLoading(pre + [WorkspaceAcquired(dir)] + [run], dir, select, call);
  }

  /** The workspace is released on every path that acquired it, and the process and loader run inside it. */
  lemma WorkspaceScoped(getter: CredentialGetter, uuid: string, fileType: FileType, packageDir: string, host: Host)
    ensures Live(DownloadRun(getter, uuid, fileType, packageDir, host).events) == {}
    ensures InsideWorkspace(DownloadRun(getter, uuid, fileType, packageDir, host).events)
    ensures GetCredentials(getter, host).result.Success? <==>
            WorkspaceAcquired(host.tempDir) in DownloadRun(getter, uuid, fileType, packageDir, host).events
    ensures GetCredentials(getter, host).result.Success? ==>
            var t := DownloadRun(getter, uuid, fileType, packageDir, host).events;
            t[|t| - 1] == WorkspaceReleased(host.tempDir)
  {
    if GetCredentials(getter, host).result.Failure? {
      ScopedWhenRefused(getter, uuid, fileType, packageDir, host);
    } else if ReachesLoader(getter, uuid, packageDir, host) {
      ScopedWithLoader(getter, uuid, fileType, packageDir, host);
    } else {
      ScopedWithoutLoader(getter, uuid, fileType, packageDir, host);
    }
  }

  /** Without credentials no workspace is ever acquired and nothing runs. */
  lemma ScopedWhenRefused(getter: CredentialGetter, uuid: string, fileType: FileType, packageDir: string, host: Host)
    requires GetCredentials(getter, host).result.Failure?
    ensures var t := DownloadRun(getter, uuid, fileType, packageDir, host).events;
            Live(t) == {} && InsideWorkspace(t) && WorkspaceAcquired(host.tempDir) !in t
  {
    var pre := Preamble(getter, host);
    QuietPrefix(pre);
    assert WorkspaceAcquired(host.tempDir) !in pre by {
      forall i | 0 <= i < |pre| ensures pre[i] != WorkspaceAcquired(host.tempDir) {
        assert Kind(pre[i]).BeforeWorkspace();
      }
    }
  }

  /** A download that stops before the loader still releases the workspace it acquired. */
  lemma ScopedWithoutLoader(getter: CredentialGetter, uuid: string, fileType: FileType, packageDir: string, host: Host)
    requires GetCredentials(getter, host).result.Success?
    requires !ReachesLoader(getter, uuid, packageDir, host)
    ensures var t := DownloadRun(getter, uuid, fileType, packageDir, host).events;
            Live(t) == {} && InsideWorkspace(t) && WorkspaceAcquired(host.tempDir) in t
            && t[|t| - 1] == WorkspaceReleased(host.tempDir)
  {
    EventsWithoutLoader(getter, uuid, fileType, packageDir, host);
    ScopeLiveWithoutLoader(Preamble(getter, host), host.tempDir,
                           ProcessRun(ScriptPath(packageDir, host), uuid, host.tempDir, ScriptEnvironment(getter, host)));
  }

  /** A download that calls the loader does so inside the workspace, and releases it last. */
  lemma ScopedWithLoader(getter: CredentialGetter, uuid: string, fileType: FileType, packageDir: string, host: Host)
    requires ReachesLoader(getter, uuid, packageDir, host)
    ensures var t := DownloadRun(getter, uuid, fileType, packageDir, host).events;
            Live(t) == {} && InsideWorkspace(t) && WorkspaceAcquired(host.tempDir) in t
            && t[|t| - 1] == WorkspaceReleased(host.tempDir)
  {
    EventsWithLoader(getter, uuid, fileType, packageDir, host);
    ScopeLiveWithLoader(Preamble(getter, host), host.tempDir,
                        ProcessRun(ScriptPath(packageDir, host), uuid, host.tempDir, ScriptEnvironment(getter, host)),
                        LoaderSelected(fileType),
                        LoaderCalled(GetDataLoader(fileType), DataPath(getter, uuid, packageDir, host)));
  }

  /**
   * The error a download ends with names the step that failed: a `KeyError`
   * comes from the credentials, a `ProcessError` from the script, an
   * `IndexError` from output without a second token and a `LoadError` from
   * the reader.
   */
  lemma FailureNamesStep(getter: CredentialGetter, uuid: string, fileType: FileType, packageDir: string, host: Host)
    requires DownloadRun(getter, uuid, fileType, packageDir, host).result.Failure?
    ensures var e := DownloadRun(getter, uuid, fileType, packageDir, host).result.error;
            && (e.KeyError? <==> GetCredentials(getter, host).result.Failure?)
            && (e.ProcessError? <==>
                  GetCredentials(getter, host).result.Success? && ScriptOutput(getter, uuid, packageDir, host).Failure?)
            && (e.IndexError? <==>
                  && GetCredentials(getter, host).result.Success?
                  && ScriptOutput(getter, uuid, packageDir, host).Success?
                  && |Split(ScriptOutput(getter, uuid, packageDir, host).value)| < 2)
            && (e.LoadError? <==> ReachesLoader(getter, uuid, packageDir, host))
  {
    if GetCredentials(getter, host).result.Failure? {
      assert getter.EnvCredentialGetter?;
    }
  }

  // ---------------------------------------------------------------------------
  // The getter download_data chooses
  // ---------------------------------------------------------------------------

  /**
   * `download_data` without `prompt` reads `OBJR_USR` and then `OBJR_PWD`:
   * when one is unset the download ends with the `KeyError` "<name> not
   * found in environment variables" for the first one unset.
   */
  lemma DefaultGetterMissingVariable(uuid: string, fileType: FileType, packageDir: string, host: Host)
    requires UsernameKey !in host.environ || PasswordKey !in host.environ
    ensures DownloadRun(CredentialGetterFor(false), uuid, fileType, packageDir, host).result
         == Failure(KeyError(MissingVariable(if UsernameKey !in host.environ then UsernameKey else PasswordKey)))
  {
    assert CredentialGetterFor(false) == EnvCredentialGetter(UsernameKey, PasswordKey);
    MissingVariableFails(UsernameKey, PasswordKey, uuid, fileType, packageDir, host);
  }

  /** `download_data` without `prompt` creates no workspace when a variable is unset. */
  lemma DefaultGetterMissingNoWorkspace(uuid: string, fileType: FileType, packageDir: string, host: Host)
    requires UsernameKey !in host.environ || PasswordKey !in host.environ
    ensures WorkspaceAcquired(host.tempDir) !in DownloadRun(CredentialGetterFor(false), uuid, fileType, packageDir, host).events
  {
    assert GetCredentials(CredentialGetterFor(false), host).result.Failure?;
    ScopedWhenRefused(CredentialGetterFor(false), uuid, fileType, packageDir, host);
  }

  /**
   * `download_data` without `prompt` proceeds exactly when both variables
   * are set, and then the script sees the process environment unchanged.
   */
  lemma DefaultGetterKeepsEnvironment(host: Host)
    ensures GetCredentials(CredentialGetterFor(false), host).result.Success?
            <==> UsernameKey in host.environ && PasswordKey in host.environ
    ensures GetCredentials(CredentialGetterFor(false), host).result.Success? ==>
            ScriptEnvironment(CredentialGetterFor(false), host) == host.environ
  {
    if UsernameKey in host.environ && PasswordKey in host.environ {
      EnvCredentialsAugmentNothing(host.environ);
    }
  }

  /**
   * `download_data(prompt=True)` always proceeds to the workspace: it shows
   * the prompts `Username: ` and `Password: ` right after copying the
   * environment, and then acquires the workspace.
   */
  lemma PromptGetterProceeds(uuid: string, fileType: FileType, packageDir: string, host: Host)
    ensures var t := DownloadRun(CredentialGetterFor(true), uuid, fileType, packageDir, host).events;
            |t| > 3 && t[1] == UsernamePrompted("Username: ") && t[2] == PasswordPrompted("Password: ")
            && t[3] == WorkspaceAcquired(host.tempDir)
  {
    var getter := CredentialGetterFor(true);
    assert getter == PromptCredentialGetter("Username", "Password");
    assert "Username" + ": " == "Username: " && "Password" + ": " == "Password: ";
    assert Preamble(getter, host) == [EnvironmentCopied, UsernamePrompted("Username: "), PasswordPrompted("Password: ")];
    if ReachesLoader(getter, uuid, packageDir, host) {
      EventsWithLoader(getter, uuid, fileType, packageDir, host);
    } else {
      EventsWithoutLoader(getter, uuid, fileType, packageDir, host);
    }
  }

  /** With `prompt=True` the script sees the typed answers under the two variables. */
  lemma PromptGetterEnvironment(host: Host)
    ensures GetCredentials(CredentialGetterFor(true), host).result.Success?
    ensures ScriptEnvironment(CredentialGetterFor(true), host)[UsernameKey] == host.typed.username
    ensures ScriptEnvironment(CredentialGetterFor(true), host)[PasswordKey] == host.typed.password
  {
    AugmentedEntries(host.environ, host.typed);
  }

  // ---------------------------------------------------------------------------
  // The package's test, as a scenario
  // ---------------------------------------------------------------------------

  /** The host of the package's test: one variable, a fixed directory and a script printing `[1] "test.xlsx"`. */
  function TestHost(join: (string, string) -> string, load: (Loader, string) -> Result<Table, string>): Host {
    Host(map["PATH" := "mypath"], Credentials("test_user", "test_pass"), "temp-dir", join,
         (script, uuid, dir, env) => Success("[1] \"test.xlsx\""), load)
  }

  /**
   * The package's test: the script runs once in `temp-dir` with the two
   * credentials added to the one variable, the Excel reader is selected
   * once and called once on `temp-dir` joined with `test.xlsx`, its table
   * is returned and no workspace is left behind.
   */
  lemma TestScenario(join: (string, string) -> string, load: (Loader, string) -> Result<Table, string>, packageDir: string)
    ensures var o := DownloadRun(PromptCredentialGetter(), "abcd", Excel, packageDir,
                                 TestHost(join, load));
            && Once(o.events, ProcessRun(join(packageDir, ScriptName), "abcd", "temp-dir",
                                         map["PATH" := "mypath", "OBJR_USR" := "test_user", "OBJR_PWD" := "test_pass"]))
            && Once(o.events, LoaderSelected(Excel))
            && Once(o.events, LoaderCalled(ReadExcel, join("temp-dir", "test.xlsx")))
            && (o.result.Success? <==> load(ReadExcel, join("temp-dir", "test.xlsx")).Success?)
            && (o.result.Success? ==> o.result.value == load(ReadExcel, join("temp-dir", "test.xlsx")).value)
            && Live(o.events) == {}
  {
    var getter := PromptCredentialGetter();
    var host := TestHost(join, load);
    AugmentTestEnvironment();
    assert ScriptEnvironment(getter, host)
        == map["PATH" := "mypath", "OBJR_USR" := "test_user", "OBJR_PWD" := "test_pass"];
    ExtractTestFilename();
    assert ScriptOutput(getter, "abcd", packageDir, host) == Success("[1] \"test.xlsx\"");
    assert DataPath(getter, "abcd", packageDir, host) == join("temp-dir", "test.xlsx");
    LoadingDownload(getter, "abcd", Excel, packageDir, host);
    WorkspaceScoped(getter, "abcd", Excel, packageDir, host);
  }

  // ---------------------------------------------------------------------------
  // The Objr object and download_data
  // ---------------------------------------------------------------------------

  /**
   * `Objr`: keeps the credential getter it is built with; the ghost
   * `calls` is the record of every host interaction of its downloads.
   */
  class Objr {
    const credentialGetter: CredentialGetter
    ghost var calls: seq<Event>

    constructor (credentialGetter: CredentialGetter)
      ensures this.credentialGetter == credentialGetter
      ensures calls == []
    {
      this.credentialGetter := credentialGetter;
      calls := [];
    }

    /** `Objr.download`; the temporary directory is released once, on leaving the `with` block. */
    method Download(uuid: string, fileType: FileType, packageDir: string, host: Host) returns (r: Result<Table, Error>)
      modifies this
      ensures r == DownloadRun(credentialGetter, uuid, fileType, packageDir, host).result
      ensures calls == old(calls) + DownloadRun(credentialGetter, uuid, fileType, packageDir, host).events
    {
      var env := host.environ;
      ghost var events := [EnvironmentCopied];
      var got := GetCredentials(credentialGetter, host);
      events := events + got.events;
      if got.result.Failure? {
        calls := calls + events;
        return Failure(got.result.error);
      }
      var credentials := got.result.value;
      env := env[UsernameKey := credentials.username];
      env := env[PasswordKey := credentials.password];
      var scriptPath := ScriptPath(packageDir, host);

      var directory := host.tempDir;
      events := events + [WorkspaceAcquired(directory)];
      events := events + [ProcessRun(scriptPath, uuid, directory, env)];
      var output := host.run(scriptPath, uuid, directory, env);
      if output.Failure? {
        r := Failure(ProcessError(output.error));
      } else {
        var dataFilename := ExtractFilename(output.value);
        if dataFilename.Failure? {
          r := Failure(dataFilename.error);
        } else {
          var dataPath := host.join(directory, dataFilename.value);
          var loader := GetDataLoader(fileType);
          events := events + [LoaderSelected(fileType)];
          events := events + [LoaderCalled(loader, dataPath)];
          r := Loaded(host.load(loader, dataPath));
        }
      }
      events := events + [WorkspaceReleased(directory)];
      calls := calls + events;
    }
  }

  /** `download_data`: a download with the getter chosen by `prompt`, which is off unless asked for. */
  method DownloadData(uuid: string, fileType: FileType, packageDir: string, host: Host, prompt: bool := false)
    returns (r: Result<Table, Error>)
    ensures r == DownloadRun(CredentialGetterFor(prompt), uuid, fileType, packageDir, host).result
  {
    var objr := new Objr(CredentialGetterFor(prompt));
    r := objr.Download(uuid, fileType, packageDir, host);
  }
}
