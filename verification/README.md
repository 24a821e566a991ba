# edsrv, modelled in Dafny

edsrv is a small local HTTP service that lets a browser extension hand text to an
external command-line editor. A `POST /` body is written to a temporary file. The
configured editor command then runs on that file and the service waits for it to exit.
The service reads the file back, removes it and answers with its contents.
`GET /status` reports the editor command and the temporary directory. Before
serving, the `start` flags are validated.

This project models the three parts of edsrv whose behaviour can be stated:

- `config.dfy`, module `Config`: start-flag validation (addr, editor, tmp-dir, in that
  order, first failure reported), the error texts that wrap `ErrInvalidConfig`,
  `LoggerWith`, and the `NewConfig` defaults. `os.Stat` is an oracle
  (`Stat = string -> StatResult`).
- `gostrings.dfy` and `editor.dfy`, modules `GoStrings` and `Editor`: the command line
  is split on single spaces, with empty pieces kept. `GetCommand` joins the pieces back,
  and the split/join round trip holds in both directions. The argument vector is the
  tokens followed by the temporary file's path. `Edit` attempts to create the file and then
  to run the command; each step can fail, and starting the command can fail too. The filesystem (`File.Fs`) and the process runner
  (`Editor.Runner`) are oracles. Each edit also returns its trace of effects
  (`CreateTemp`, and `Run` for handing the command to the runner).
- `file.dfy` and `service.dfy`, modules `File` and `Service`: the `file.Interface` and
  `editor.Interface` seams as records, with the real and the fake implementations
  behind them. `Service.Edit` is the edit handler's state machine and records the calls
  it makes (`EditCall`, `ReadCall`, `RemoveCall`). `Service.Status` gives the exact
  status body. The route table has two entries.

Conventions:
- A Go `string` and a Go `[]byte` are both a Dafny `string`, one character per byte.
  The code only moves bytes between the two types and never decodes them.
- A Go `error` is the text its `Error()` method returns (`Wrappers.Error`).
- The editor command is split on the single character `' '`, not on whitespace. So `"vim  -n"` gives the
  tokens `"vim"`, `""` and `"-n"`, and the editor is run with an empty argument.
- A failed command or a failed read leaves the temporary file on disk. The handler
  removes the file only after a successful read. This is modelled as the code does it, pkg/edsrv/service/service.go:50-63
  (`Service.CommandFailureLeavesTempFile`, `Service.ReadFailureLeavesTempFile`).

## Model

| member | source | states |
|---|---|---|
| GoStrings.Split | pkg/edsrv/editor/editor.go:68 | splitting the command line on `' '` never yields zero pieces, so the first token always exists |
| GoStrings.SplitPieces | pkg/edsrv/editor/editor.go:68 | the split yields exactly one more piece than there are spaces in the line, and no piece contains a space |
| GoStrings.JoinSplit | pkg/edsrv/editor/editor.go:21-23 | joining the pieces of a split with `' '` gives back the original string, including runs of spaces and the empty string |
| GoStrings.SplitJoin | pkg/edsrv/editor/editor.go:21-23 | splitting the join of one or more space-free tokens gives back exactly those tokens |
| GoStrings.SplitFirstPiece | pkg/edsrv/editor/editor.go:38 | the first token, the program that is run, is a prefix of the command line that holds no space and ends at the first space or at the end of the line, i.e. the longest space-free prefix |
| Editor.NewEditor | pkg/edsrv/editor/editor.go:65-71 | the editor holds at least one token and none contains a space; `GetCommand` returns the command line passed in, unchanged; `GetTmpDir` returns the directory passed in |
| Editor.GetCommand | pkg/edsrv/editor/editor.go:21-23 | for one or more space-free tokens, splitting the joined command line on `' '` gives back exactly the tokens; `Editor.NewEditor` states the other direction |
| Editor.GetTmpDir | pkg/edsrv/editor/editor.go:26-28 | no contract of its own; `Editor.NewEditor` states that it returns the directory passed in, unchanged |
| GoStrings.Join | pkg/edsrv/editor/editor.go:22 | no contract of its own; `GoStrings.JoinSplit` and `GoStrings.SplitJoin` state that it undoes and is undone by `GoStrings.Split` |
| Service.RequestHandler | pkg/edsrv/service/service.go:81-86 | no contract of its own; `Service.RouteTable` states that `GET /status` alone reaches status and `POST /` alone reaches edit |
| Editor.NewEditorOfGetCommand | pkg/edsrv/editor/editor.go:21-23 | an editor whose tokens are space-free is rebuilt exactly by `NewEditor` from its own `GetCommand` and `GetTmpDir` |
| Editor.Script | pkg/edsrv/editor/editor.go:31-33 | the argument vector has one more entry than the command has tokens: the tokens in order, with the temporary file's path last |
| Editor.ScriptOfCommandLine | pkg/edsrv/editor/editor.go:32-38 | for an editor built from a command line, the program is the line up to its first space, and the invocation joined with spaces reads as the command line, a space, then the file's path |
| Editor.Edit | pkg/edsrv/editor/editor.go:50-61 | creation of a temporary file, in the editor's directory and seeded with the payload, is always attempted first; if creation fails, its error is returned and the command is not started; otherwise the command's start on that file is attempted once (starting may itself fail), and the edit succeeds exactly when the command starts and exits successfully, yielding the created file with the payload's length as its size, or else the command's error |
| Editor.EditRunsOnlyAfterCreate | pkg/edsrv/editor/editor.go:52-59 | the command is handed to the runner (its start attempted) if and only if the temporary file was created, and the edit succeeds if and only if both the creation and the command succeed |
| Editor.AsInterface | pkg/edsrv/editor/editor.go:18 | the real editor behind the seam shows its joined command and its directory; its edit succeeds exactly when `Editor.Edit` does, hands back the created file as a real file handle, and passes `Editor.Edit`'s error text through unchanged |
| Editor.NewFakeEditor | pkg/edsrv/editor/fake.go:11-28 | the fake editor shows `fake-editor` and `none`, and for every input hands back a fake file named `fake` that holds its fixed payload |
| File.NewFile | pkg/edsrv/file/file.go:36-48 | a file exists exactly when the filesystem creates one; it then has the created path and the payload's length as its size; otherwise the creation error is returned |
| File.AsInterface | pkg/edsrv/file/file.go:20-32 | a real file keeps its path behind the seam; reading and removing it go to the filesystem by that path |
| File.NewFakeFile | pkg/edsrv/file/fake.go:16-34 | the fake file keeps its name, always reads back its payload and always removes successfully |
| Config.Message | pkg/edsrv/config/config.go:70-101 | every validation error text starts with `invalid configuration: `, the text of the wrapped sentinel |
| Config.ValidateAddrFlag | pkg/edsrv/config/config.go:69-76 | fails if and only if the address is empty, naming the `addr` flag |
| Config.ValidateEditorFlag | pkg/edsrv/config/config.go:78-85 | fails if and only if the editor is empty, naming the `editor` flag |
| Config.ValidateTmpDirFlag | pkg/edsrv/config/config.go:87-101 | succeeds if and only if the directory is informed and stat finds a directory there; an empty path, a stat error and a non-directory each give their own error |
| Config.ValidateStartFlags | pkg/edsrv/config/config.go:103-113 | succeeds if and only if all three checks succeed; otherwise it reports the first failure in the order addr, editor, tmp-dir |
| Config.EmptyTmpDirSkipsStat | pkg/edsrv/config/config.go:88-93 | with an empty temporary directory, the tmp-dir check and the start validation give the same verdict whatever stat would answer |
| Config.EarlierFailureSkipsStat | pkg/edsrv/config/config.go:104-111 | when the address or the editor is empty, the start validation fails and its verdict does not depend on the filesystem |
| Config.ValidationErrorsWrapSentinel | pkg/edsrv/config/config.go:104-113 | any error the start validation reports has a text that begins with the sentinel's text |
| Config.LoggerWith | pkg/edsrv/config/config.go:115-131 | the logger keeps its attributes and gains those of the requested flags, as given by the per-flag reference `FlagAttrs` |
| Config.FlagAttrsAppend | pkg/edsrv/config/config.go:123-129 | attributes follow the request order: requesting flags in two batches decorates exactly as one request of the whole list would |
| Config.FlagAttrsSound | pkg/edsrv/config/config.go:118-128 | every attribute added comes from a requested flag that is one of addr, editor or tmp-dir and has a non-empty value, and it carries that value |
| Config.FlagAttrsNoneLogged | pkg/edsrv/config/config.go:123-127 | unknown or empty flags add nothing, and requesting no flags leaves the logger unchanged |
| Config.FlagAttrsAllLogged | pkg/edsrv/config/config.go:123-129 | when every requested flag is known and informed, exactly one attribute is added per requested flag, in order, with that flag's key and value |
| Config.NewConfig | pkg/edsrv/config/config.go:134-142 | the defaults are address `127.0.0.1:8928` and debug verbosity (slog level -4), with the temporary directory from `TMPDIR` and the editor from `EDITOR` |
| Config.DefaultConfigValidation | pkg/edsrv/config/config.go:134-142 | the default address always passes; a default configuration is valid exactly when `EDITOR` is set and `TMPDIR` names an existing directory |
| Service.Status | pkg/edsrv/service/service.go:31-41 | the status answer is 200 `text/plain` with the body `editor='<command>', tmpDir='<dir>'`, so it contains both the command and the directory |
| Service.StatusShowsConfiguredEditor | pkg/edsrv/service/service.go:33-38 | for the real editor, the status body shows the configured command line exactly as informed, spaces included, and the temporary directory |
| Service.Edit | pkg/edsrv/service/service.go:43-78 | the request body goes unchanged to the editor; an editor error is answered with 500 and its text, and nothing is read or removed; a read error is answered with 500 and its text, and nothing is removed; otherwise the answer is 200 with exactly the bytes read, and the file is removed once; the answer is 200 exactly when a removal happens |
| Service.RemoveOutcomeInvisible | pkg/edsrv/service/service.go:67-76 | whether removal succeeds or fails changes neither the status nor the body, nor the calls made |
| Service.CommandFailureLeavesTempFile | pkg/edsrv/service/service.go:50-55 | with the real editor, a failing command is answered with 500 and the command's error; the temporary file was created and the command's start attempted once, but the file is never read or removed |
| Service.ReadFailureLeavesTempFile | pkg/edsrv/service/service.go:58-63 | with the real editor, a file that cannot be read back is answered with 500 and the read error, and is not removed |
| Service.EditRoundTrip | pkg/edsrv/service/service.go:46-77 | with the real editor, when creation, the command and the read all succeed, the answer is 200 with the file's edited contents; the file the command ran on, passed as its last argument, is the one read and then removed; when the file reads back as the request body, the answer is 200 with the request body itself |
| Service.Lookup | pkg/edsrv/service/service.go:81-86 | a route is found exactly when some entry of the table matches method and path exactly, and the endpoint found is that of the first matching entry |
| Service.RouteTable | pkg/edsrv/service/service.go:81-86 | `GET /status` and only it reaches the status handler; `POST /` and only it reaches the edit handler |
| Service.Serve | pkg/edsrv/service/service.go:81-86 | only the two routed requests are handled; `GET /status` gets the status answer, and `POST /` gets the edit handler's exchange for its body; the status answer records no edit, read or remove call |
| Service.FakeEditorAnswersFixedPayload | pkg/edsrv/service/service_test.go:58-74 | with an editor that ignores its input and yields fixed bytes Q, a `POST /` is answered with 200 and body Q, whatever the request body |
| Service.ServiceTestExpectations | pkg/edsrv/service/service_test.go:26-74 | with the unit test's fake editor, the status answer is 200 and contains `fake-editor`, and a `POST /` of `payload` is answered with 200 and `edited payload` |

## Left out

- Logging: the slog handler, its output and the log attributes the handlers and `File.LoggerWith` attach. `Config.LoggerWith` is modelled only as the list of attributes it attaches.
- The `log-level` flag value type and the registration of flags with pflag/cobra (`AddLogLevelFlag`, `AddAddrFlag`, `AddTmpDirFlag`, `AddEditorFlag`, `AddStartFlags`). These are CLI plumbing, and `pkg/edsrv/cmd` is not part of this model. Explicit flags overriding the `NewConfig` defaults is not modelled either.
- Environment reads and `os.Stat`. They are parameters: `env` for `NewConfig` and `Stat` for the tmp-dir check.
- `os.CreateTemp`, `Write`, `Close`, `os.ReadFile` and `os.Remove`. They are the `File.Fs` oracle. Its `readFile` answers for the file as the command left it, and the filesystem's state is not modelled. If `Write` or `Close` fails, the real code also leaves a file behind. The oracle reports only the error, so that leftover file is not modelled.
- Service.EditRoundTrip: the `File.Fs` oracle does not relate what `createTemp` writes to what `readFile` later returns, so "the editor left the file unchanged" is stated as its consequence, the file reading back as the request body, and not derived from the command's behaviour.
- `File.Fs`: `createTemp` is a function of the directory and the payload, so two edits of the same payload in one directory get the same path. `os.CreateTemp(tmpDir, "edsrv-*")` (pkg/edsrv/file/file.go:37) picks a fresh random name every time. No modelled property depends on the names being distinct.
- `exec.Command` and `CombinedOutput`. They are the `Editor.Runner` oracle, and the output, which is only logged, is dropped.
- `Config.Message`: `%q` is modelled as plain surrounding double quotes. That is exact for the flag names. For a temporary-directory path that Go would escape (quotes, backslashes, control characters) the model's text differs.
- `Service.Edit`: the content type of the edit and error answers is whatever the HTTP library sets by default. It is `None` in the model.
- The router's own answers for unrouted requests (not found, method not allowed, trailing-slash redirects). `Service.Serve` returns `None` for them.
- The fasthttp server, the status client (`pkg/edsrv/service/status.go`, `pkg/edsrv/cmd/status.go`), `url.JoinPath` and timeouts. These are network code.
- Concurrency across overlapping requests. The handler keeps no shared mutable state.
- `main`, the cobra commands and the integration tests.
