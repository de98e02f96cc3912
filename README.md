# objr-py download wrapper, modelled in Dafny

objr-py is a thin Python wrapper around the R script `oc_download.R`, which
downloads a dataset identified by a uuid. A download proceeds as follows:

1. Credentials come from a *credential getter*: either a prompt
   (`input`/`getpass`) or the environment variables `OBJR_USR`/`OBJR_PWD`.
2. The wrapper copies the process environment and injects the credentials
   into the copy.
3. Inside a temporary directory, it runs `Rscript oc_download.R <uuid> <dir>`.
4. It takes the second whitespace-separated token of the script's output and
   strips its first and last character (the quotes R prints), giving the file
   name.
5. It joins that name to the directory and loads the file with the pandas
   reader chosen for the requested file type (Excel or CSV).

This project models that core and proves properties about it.

- `wrappers.dfy`: the `Option` and `Result` types.
- `pytext.dfy` (module `PyText`) models the Python text primitives the
  download relies on:
  - `str.split()` with no arguments, over Python's whitespace set;
  - slicing, including `t[1:-1]`.

  Indexing the split at 1 raises `IndexError` when there are fewer than two
  tokens. `ExtractFilename` states that case.

  The proofs include a split/join round trip and a proof that splitting keeps
  every non-whitespace character in order.
- `objr.dfy` (module `ObjrPy`) models:
  - the credential getters, the environment augmentation, the file-name
    extraction and the loader table;
  - the whole `download` sequence as the function `DownloadRun`;
  - the class `Objr`, whose `Download` method does the steps one by one and
    is proved equal to `DownloadRun`;
  - `download_data`.

The outside world is one value of the datatype `Host`. Its fields are:
- the process environment;
- the answers typed at the prompts;
- the directory the temporary-directory factory yields;
- `os.path.join`;
- the R process;
- the pandas readers.

Each host interaction (environment copy, prompt, workspace acquired, process
run, loader selected, loader called, workspace released) is an `Event`.
`Objr` keeps the events of its downloads in a ghost trace `calls`. The
lemmas about `DownloadRun` state, among other things:
- the order and number of the steps;
- which steps an error skips;
- that the temporary directory is released on every path that acquired it,
  and that every process run and loader call happens while it is live.

Three facts about the code shape the model:
- `download` obtains the credentials (`src/objr_py/__init__.py:75`) before
  it enters the temporary directory (`:79`), so a credential error never
  creates a workspace.
- There is no guard against an empty file name. Output whose second token
  is `""` yields the empty name, which is joined to the directory and handed
  to the loader.
- The R process is started as `Rscript <script path> <uuid> <directory>`
  (`:58`). `Rscript` receives three arguments: the script path, the uuid and
  the directory. The model records exactly those three.

## Model

| member | source | states |
|---|---|---|
| PyText.TokenEnd | src/objr_py/__init__.py:81 | the end of the leading token: everything before it is non-whitespace and the character at it, if any, is whitespace |
| PyText.Split | src/objr_py/__init__.py:81 | `str.split()` with no arguments: every token is non-empty and contains no whitespace |
| PyText.SplitKeepsNonSpace | src/objr_py/__init__.py:81 | the tokens, concatenated, are exactly the input's non-whitespace characters in order |
| PyText.SplitSkipsSpace | src/objr_py/__init__.py:81 | leading whitespace does not change the split |
| PyText.SplitToken | src/objr_py/__init__.py:81 | a token followed by nothing or by whitespace is the first element of the split |
| PyText.SplitJoin | src/objr_py/__init__.py:81 | splitting tokens joined with any non-empty whitespace separator gives back the tokens |
| PyText.InteriorSlice | src/objr_py/__init__.py:82 | `t[1:-1]` has length `len - 2` (empty below two), holds `t[i+1]` at `i`, and is `t` without its first and last element |
| PyText.UnquoteQuote | src/objr_py/__init__.py:82 | `[1:-1]` removes exactly one added opening and one added closing element |
| ObjrPy.GetEnvCredentials | src/objr_py/__init__.py:43-46 | succeeds exactly when both variables are set, with both values; the username variable is tried first and the first missing one is named in the `KeyError` |
| ObjrPy.AugmentedEntries | src/objr_py/__init__.py:76-77 | the augmented environment has the base's keys plus `OBJR_USR`/`OBJR_PWD`, holds the credentials under those two keys, and leaves every other entry unchanged |
| ObjrPy.AugmentedSize | src/objr_py/__init__.py:76-77 | the augmented environment has one more entry for each of the two keys the base lacked |
| ObjrPy.EnvCredentialsAugmentNothing | src/objr_py/__init__.py:74-77 | with the default environment getter, injecting the credentials read from the environment gives back the same environment |
| ObjrPy.AugmentTestEnvironment | tests/test_objr.py:42-45 | `{"PATH": "mypath"}` augmented with the test credentials has exactly the three entries the test checks |
| ObjrPy.ExtractFilename | src/objr_py/__init__.py:81-82 | fails exactly when the output has fewer than two tokens, and then with the `IndexError` "list index out of range" |
| ObjrPy.ExtractedInterior | src/objr_py/__init__.py:81-82 | the file name is the second token without its first and last character: its length, its characters, and that it holds no whitespace |
| ObjrPy.QuotedIsToken | src/objr_py/__init__.py:82 | a quoted name without whitespace is a single token |
| ObjrPy.SplitPrinted | src/objr_py/__init__.py:81 | two tokens separated by whitespace are the first two tokens of the split |
| ObjrPy.ExtractFromPrintedName | src/objr_py/__init__.py:81-82 | output of the form `<token><whitespace>"<name>"` followed by nothing or whitespace-led text yields exactly `name` |
| ObjrPy.ExtractTestFilename | tests/test_objr.py:26-28 | the test's output `[1] "test.xlsx"` yields `test.xlsx` |
| ObjrPy.ExtractFromOneToken | src/objr_py/__init__.py:81 | output with a single token ends in the `IndexError` |
| ObjrPy.GetDataLoader | src/objr_py/__init__.py:62-67 | the returned reader reads the requested file type |
| ObjrPy.DataLoadersBijective | src/objr_py/__init__.py:63-66 | the table is one-to-one: each reader is the one selected for its own file type |
| ObjrPy.CopiedOnceFirst | src/objr_py/__init__.py:74-75 | the environment copy precedes the getter's prompts and is the only copy |
| ObjrPy.EnvironmentCopiedFirst | src/objr_py/__init__.py:74 | every download copies the environment exactly once, as its first interaction |
| ObjrPy.CredentialFailureRunsNothing | src/objr_py/__init__.py:75-79 | a credential error is the download's result; no workspace is acquired, no process runs and no loader is selected or called |
| ObjrPy.MissingVariableFails | src/objr_py/__init__.py:43-46 | with the environment getter, a missing variable ends the download with the `KeyError` of the first missing one, and no workspace or process is used |
| ObjrPy.StepCountsWithoutLoader | src/objr_py/__init__.py:79-82 | a download that gets no file name acquires, runs and releases exactly once each and never selects or calls a loader |
| ObjrPy.StepCountsWithLoader | src/objr_py/__init__.py:79-85 | a download that gets a file name acquires, runs, selects, calls and releases exactly once each |
| ObjrPy.ProcessFailureSkipsLoader | src/objr_py/__init__.py:79-80 | a failed process ends the download with a `ProcessError` carrying its failure; no loader is used, and the workspace is released once |
| ObjrPy.MalformedOutputSkipsLoader | src/objr_py/__init__.py:81 | output with fewer than two tokens ends the download with the `IndexError`; no loader is used, and the workspace is released once |
| ObjrPy.LoadingDownload | src/objr_py/__init__.py:80-85 | when a file name is read, the script runs once with the augmented environment in the workspace, the loader for the file type is selected once and called once on the joined path, the download succeeds exactly when the loader does, with its table, and otherwise fails with the loader's failure labelled `LoadError`; the release is last |
| ObjrPy.SuccessMeansLoaded | src/objr_py/__init__.py:85 | a successful download always went through the loader, and its table is the one the loader returned |
| ObjrPy.FailureNamesStep | src/objr_py/__init__.py:73-85 | the model's label on a download's error identifies the step that failed: `KeyError` exactly when the credentials failed, `ProcessError` exactly when the script failed, `IndexError` exactly when its output had fewer than two tokens, `LoadError` exactly when the loader was reached (and so was the one that failed) |
| ObjrPy.ScopedWhenRefused | src/objr_py/__init__.py:75-79 | without credentials no workspace is ever acquired and none is left live |
| ObjrPy.ScopedWithoutLoader | src/objr_py/__init__.py:79-82 | a download that stops inside the `with` block still releases its workspace, last; the process ran while it was live |
| ObjrPy.ScopedWithLoader | src/objr_py/__init__.py:79-85 | a loading download runs the process and calls the loader while the workspace is live, and releases it last |
| ObjrPy.WorkspaceScoped | src/objr_py/__init__.py:79-85 | on every path, no workspace is left live; the process and the loader only run inside one; a workspace is acquired exactly when credentials were obtained, and then its release is the last event |
| ObjrPy.TestScenario | tests/test_objr.py:19-51 | the package's test: the script runs once in `temp-dir` with `PATH` and both credentials; the Excel reader is selected once and called once on `join("temp-dir", "test.xlsx")`; the download returns the table exactly when that call does; no directory is left |
| ObjrPy.Objr.constructor | src/objr_py/__init__.py:49-50 | the object keeps the getter it is given and has no recorded calls |
| ObjrPy.Objr.Download | src/objr_py/__init__.py:73-85 | the step-by-step download returns `DownloadRun`'s result and appends exactly `DownloadRun`'s events to the object's trace |
| ObjrPy.DefaultGetterMissingVariable | src/objr_py/__init__.py:87-88 | `download_data` without `prompt` (default getter, `OBJR_USR` then `OBJR_PWD`, `:32`) ends with the `KeyError` "<name> not found in environment variables" of the first unset variable |
| ObjrPy.DefaultGetterMissingNoWorkspace | src/objr_py/__init__.py:87-88 | `download_data` without `prompt` creates no workspace when a variable is unset |
| ObjrPy.DefaultGetterKeepsEnvironment | src/objr_py/__init__.py:87-88 | `download_data` without `prompt` proceeds exactly when both default variables are set, and the script then sees the process environment unchanged |
| ObjrPy.PromptGetterProceeds | src/objr_py/__init__.py:87-88 | `download_data(prompt=True)` shows `Username: ` then `Password: ` (the defaults of `:22`) right after copying the environment, then always acquires the workspace |
| ObjrPy.PromptGetterEnvironment | src/objr_py/__init__.py:87-88 | with `prompt=True` the credentials are always obtained and the script sees the typed answers under `OBJR_USR` and `OBJR_PWD` |
| ObjrPy.DownloadData | src/objr_py/__init__.py:87-90 | `download_data` returns the result of a download with the getter chosen by `prompt`, which defaults to `false` |

## Left out

- Standard output and `check=True` in `run_download_process`: the R process
  is the opaque `Host.run`. Its failure (`CalledProcessError`, or a decoding
  error from `stdout.decode()`) is modelled as a text labelled `ProcessError`.
  The program itself lets that exception through unchanged. The R script itself
  is not part of this model.
- `os.environ.copy()` and `os.getenv` read the same process environment,
  `Host.environ`. Concurrent changes to the environment are not modelled.
- `input` and `getpass`: what the user types is the fixed
  `Host.typed`. End of input and `KeyboardInterrupt` are not modelled.
- The pandas readers are the tags `ReadExcel`/`ReadCsv` applied through the
  opaque `Host.load`. A `DataFrame` is an opaque `Table` handle, so the
  test's `len(result) == 5` is not stated.
- `TemporaryDirectory`: creating the directory, and deleting it with its
  contents, are the `WorkspaceAcquired`/`WorkspaceReleased` events. The factory's name
  choice is the fixed `Host.tempDir`. A failure in creation or cleanup is not
  modelled.
- `os.path.abspath`, `os.path.dirname(__file__)` and `os.path.join` are
  modelled as:
  - the package directory, passed as a parameter;
  - the uninterpreted `Host.join`.
- The test's `os.path.isfile(script_path)` check is not modelled, because
  the file system is not part of this model.
- The abstract base class `CredentialGetter` is the datatype of its two
  concrete getters. `TestScenario` stands in for the test's fake getter with
  the prompt getter and typed answers `test_user`/`test_pass`. Its two
  prompt events do not affect any stated fact.
- An unsupported file type (the `KeyError` of the dictionary in
  `get_data_loader`) cannot occur. `FileType` has exactly the two members
  the dictionary maps.
- The test's mocks of the `Objr` methods (`MagicMock`) are not modelled as
  such. The host values they return are fields of `TestHost`.
- ObjrPy.FailureNamesStep: `ProcessError` and `LoadError` are the model's
  labels for the exceptions of the R process (`:58-59`) and of the pandas
  reader (`:85`). The program passes those exceptions through unchanged, and a
  reader may itself raise a `KeyError` or `IndexError`. So the lemma tells the
  failing steps apart by the model's label, not by Python exception class.
- ObjrPy.LoadingDownload: a reader's failure is stated as a `LoadError`
  carrying the reader's failure. The program returns whatever the reader
  raises, unchanged (`:85`).
