/** The external editor: a command line split once into tokens, run against a
    fresh temporary file per edit. */
module Editor {
  import opened Wrappers
  import GoStrings
  import File

  /** The command tokens and the directory temporary files are created in. */
  datatype Editor = Editor(command: seq<string>, tmpDir: string)

  /** `NewEditor`: splits the command line on single spaces. At least one
      token results, none holds a space, and both accessors give back exactly
      what was passed in. */
  function NewEditor(command: string, tmpDir: string): (e: Editor)
    ensures |e.command| >= 1
    ensures forall i :: 0 <= i < |e.command| ==> ' ' !in e.command[i]
    ensures GetCommand(e) == command
    ensures GetTmpDir(e) == tmpDir
  {
    GoStrings.JoinSplit(command, ' ');
    GoStrings.SplitPieces(command, ' ');
    Editor(GoStrings.Split(command, ' '), tmpDir)
  }

  /** The command tokens joined back with single spaces. For one or more
      space-free tokens, splitting the result gives the tokens back. */
  function GetCommand(e: Editor): (r: string)
    ensures |e.command| >= 1 && (forall i :: 0 <= i < |e.command| ==> ' ' !in e.command[i]) ==>
      GoStrings.Split(r, ' ') == e.command
  {
    assert |e.command| >= 1 && (forall i :: 0 <= i < |e.command| ==> ' ' !in e.command[i]) ==>
      GoStrings.Split(GoStrings.Join(e.command, ' '), ' ') == e.command
    by {
      if |e.command| >= 1 && (forall i :: 0 <= i < |e.command| ==> ' ' !in e.command[i]) {
        GoStrings.SplitJoin(e.command, ' ');
      }
    }
    GoStrings.Join(e.command, ' ')
  }

  function GetTmpDir(e: Editor): string
  {
    e.tmpDir
  }

  /** An editor whose tokens hold no space is the one its own command line
      builds: splitting undoes the join. */
  lemma NewEditorOfGetCommand(e: Editor)
    requires |e.command| >= 1
    requires forall i :: 0 <= i < |e.command| ==> ' ' !in e.command[i]
    ensures NewEditor(GetCommand(e), GetTmpDir(e)) == e
  {
    GoStrings.SplitJoin(e.command, ' ');
  }

  /** The argument vector handed to the process: the command tokens followed
      by the temporary file's path. */
  function Script(e: Editor, fileName: string): (script: seq<string>)
    ensures |script| == |e.command| + 1
    ensures script[..|e.command|] == e.command
    ensures script[|script| - 1] == fileName
  {
    e.command + [fileName]
  }

  /** For an editor built from a command line, the program run is the line's
      longest space-free prefix, and the full invocation reads as the command
      line, a space, then the file's path. */
  lemma ScriptOfCommandLine(command: string, tmpDir: string, fileName: string)
    ensures var script := Script(NewEditor(command, tmpDir), fileName);
      var program := script[0];
      |program| <= |command| && command[..|program|] == program
      && (|program| == |command| || command[|program|] == ' ')
      && GoStrings.Join(script, ' ') == command + " " + fileName
  {
    var e := NewEditor(command, tmpDir);
    GoStrings.SplitFirstPiece(command, ' ');
    GoStrings.JoinAppend(e.command, fileName, ' ');
  }

  /** A side effect an edit has on the world outside. */
  datatype Effect =
    | CreateTemp(dir: string, payload: File.Bytes)    // creation of a temporary file is attempted
    | Run(program: string, args: seq<string>)         // the command is handed to the runner; starting it may fail

  /** The process runner: runs `program` with `args` and waits for it to exit;
      a failure to start it (program not found, empty program name) or a
      non-zero exit is a `Fail` with the error text. The
      combined output is only logged, so it is not part of the answer. */
  type Runner = (string, seq<string>) -> Outcome<Error>

  /** What one edit returns, together with the effects it had, in order. */
  datatype EditOutcome = EditOutcome(result: Result<File.File, Error>, effects: seq<Effect>)

  /** `Edit`: creates the temporary file, then runs the command on it. Each
      step's error is returned as is; nothing is removed on failure. */
  function Edit(e: Editor, payload: File.Bytes, fs: File.Fs, run: Runner): (r: EditOutcome)
    ensures |r.effects| >= 1 && r.effects[0] == CreateTemp(e.tmpDir, payload)
    ensures fs.createTemp(e.tmpDir, payload).Failure? ==>
      r.result == Failure(fs.createTemp(e.tmpDir, payload).error) && |r.effects| == 1
    ensures fs.createTemp(e.tmpDir, payload).Success? ==>
      var script := Script(e, fs.createTemp(e.tmpDir, payload).value);
      && r.effects == [CreateTemp(e.tmpDir, payload), Run(script[0], script[1..])]
      && (r.result.Success? <==> run(script[0], script[1..]).Pass?)
      && (r.result.Failure? ==> r.result.error == run(script[0], script[1..]).error)
    ensures r.result.Success? ==>
      r.result.value == File.File(fs.createTemp(e.tmpDir, payload).value, |payload|)
  {
    match File.NewFile(fs, e.tmpDir, payload)
    case Failure(err) => EditOutcome(Failure(err), [CreateTemp(e.tmpDir, payload)])
    case Success(f) =>
      var script := Script(e, f.name);
      var effects := [CreateTemp(e.tmpDir, payload), Run(script[0], script[1..])];
      match run(script[0], script[1..])
      case Fail(err) => EditOutcome(Failure(err), effects)
      case Pass => EditOutcome(Success(f), effects)
  }

  /** The command is handed to the runner only once its temporary file exists, and the edit
      succeeds exactly when both the creation and the process succeed. */
  lemma EditRunsOnlyAfterCreate(e: Editor, payload: File.Bytes, fs: File.Fs, run: Runner)
    ensures var r := Edit(e, payload, fs, run);
      (exists i :: 0 <= i < |r.effects| && r.effects[i].Run?) <==> fs.createTemp(e.tmpDir, payload).Success?
    ensures var r := Edit(e, payload, fs, run);
      var created := fs.createTemp(e.tmpDir, payload);
      r.result.Success? <==>
        created.Success? && (var script := Script(e, created.value); run(script[0], script[1..]).Pass?)
  {
    var r := Edit(e, payload, fs, run);
    var created := fs.createTemp(e.tmpDir, payload);
    if created.Success? {
      var script := Script(e, created.value);
      assert r.effects[1].Run?;
    } else {
      assert r.effects == [CreateTemp(e.tmpDir, payload)];
    }
  }

  /** `editor.Interface`: the command and directory shown by the status
      endpoint, and the edit operation the service calls. */
  datatype Interface = Interface(command: string, tmpDir: string, edit: File.Bytes -> Result<File.Interface, Error>)

  /** The real editor behind the `editor.Interface` seam. */
  function AsInterface(e: Editor, fs: File.Fs, run: Runner): (ed: Interface)
    ensures ed.command == GetCommand(e) && ed.tmpDir == GetTmpDir(e)
    ensures forall payload :: ed.edit(payload).Success? <==> Edit(e, payload, fs, run).result.Success?
    ensures forall payload :: Edit(e, payload, fs, run).result.Failure? ==>
      ed.edit(payload) == Failure(Edit(e, payload, fs, run).result.error)
    ensures forall payload :: Edit(e, payload, fs, run).result.Success? ==>
      ed.edit(payload) == Success(File.AsInterface(Edit(e, payload, fs, run).result.value, fs))
  {
    Interface(GetCommand(e), e.tmpDir,
      payload =>
        match Edit(e, payload, fs, run).result
        case Success(f) => Success(File.AsInterface(f, fs))
        case Failure(err) => Failure(err))
  }

  /** `FakeEditor`: ignores its input and hands back a fake file named "fake"
      that holds a fixed payload. */
  function NewFakeEditor(payload: File.Bytes): (ed: Interface)
    ensures ed.command == "fake-editor" && ed.tmpDir == "none"
    ensures forall input :: ed.edit(input) == Success(File.NewFakeFile("fake", payload))
  {
    Interface("fake-editor", "none", _ => Success(File.NewFakeFile("fake", payload)))
  }
}
