/** The configuration of the `start` subcommand: flag validation in a fixed
    order, logger decoration with the informed flags, and the defaults. */
module Config {
  import opened Wrappers

  /** `slog.Level`: an integer verbosity where lower is more verbose. */
  type Level = int

  const LevelDebug: Level := -4

  const LogLevelFlag := "log-level"
  const AddrFlag := "addr"
  const TmpDirFlag := "tmp-dir"
  const EditorFlag := "editor"

  const DefaultAddr := "127.0.0.1:8928"

  /** Text of the sentinel every validation error wraps. */
  const ErrInvalidConfig := "invalid configuration"

  /** Settings informed through command-line flags or the environment. */
  datatype Config = Config(logLevel: Level, addr: string, tmpDir: string, editor: string)

  /** Why a start flag is rejected. Every reason is reported wrapped in
      `ErrInvalidConfig`. */
  datatype ConfigError =
    | NotInformed(flag: string)    // the flag's value is empty
    | StatFailed(cause: Error)     // `os.Stat` of the temporary directory failed
    | NotADirectory(path: string)  // the temporary directory is not a directory

  /** What `os.Stat` reports about a path: an error, or whether it is a directory. */
  datatype StatResult = StatError(cause: Error) | FileInfo(isDir: bool)

  /** The filesystem as seen by `os.Stat`. */
  type Stat = string -> StatResult

  /** `%q` of a string that needs no escaping. */
  function Quote(s: string): string
  {
    "\"" + s + "\""
  }

  /** The text of a validation error, as `fmt.Errorf("%w: ...", ErrInvalidConfig, ...)`
      renders it: the sentinel's text, a colon, then the detail. */
  function Message(e: ConfigError): (m: string)
    ensures |m| >= |ErrInvalidConfig| + 2
    ensures m[..|ErrInvalidConfig| + 2] == ErrInvalidConfig + ": "
  {
    var detail :=
      match e
      case NotInformed(flag) => "flag " + Quote(flag) + " is not informed"
      case StatFailed(cause) => cause
      case NotADirectory(path) => Quote(path) + " is not found";
    assert (ErrInvalidConfig + ": " + detail)[..|ErrInvalidConfig| + 2] == ErrInvalidConfig + ": ";
    ErrInvalidConfig + ": " + detail
  }

  function ValidateAddrFlag(c: Config): (r: Outcome<ConfigError>)
    ensures r.Fail? <==> c.addr == ""
    ensures r.Fail? ==> r.error == NotInformed(AddrFlag)
  {
    if c.addr == "" then Fail(NotInformed(AddrFlag)) else Pass
  }

  function ValidateEditorFlag(c: Config): (r: Outcome<ConfigError>)
    ensures r.Fail? <==> c.editor == ""
    ensures r.Fail? ==> r.error == NotInformed(EditorFlag)
  {
    if c.editor == "" then Fail(NotInformed(EditorFlag)) else Pass
  }

  /** The temporary directory must be informed, and `stat` must find a
      directory there. `stat` is only consulted for a non-empty path. */
  function ValidateTmpDirFlag(c: Config, stat: Stat): (r: Outcome<ConfigError>)
    ensures r.Pass? <==> c.tmpDir != "" && stat(c.tmpDir) == FileInfo(true)
    ensures c.tmpDir == "" ==> r == Fail(NotInformed(TmpDirFlag))
    ensures c.tmpDir != "" && stat(c.tmpDir).StatError? ==> r == Fail(StatFailed(stat(c.tmpDir).cause))
    ensures c.tmpDir != "" && stat(c.tmpDir) == FileInfo(false) ==> r == Fail(NotADirectory(c.tmpDir))
  {
    if c.tmpDir == "" then Fail(NotInformed(TmpDirFlag))
    else
      match stat(c.tmpDir)
      case StatError(cause) => Fail(StatFailed(cause))
      case FileInfo(isDir) => if !isDir then Fail(NotADirectory(c.tmpDir)) else Pass
  }

  /** All three start flags, checked in the order addr, editor, tmp-dir; the
      first failure is the one reported. */
  function ValidateStartFlags(c: Config, stat: Stat): (r: Outcome<ConfigError>)
    ensures r.Pass? <==> c.addr != "" && c.editor != "" && c.tmpDir != "" && stat(c.tmpDir) == FileInfo(true)
    ensures r.Pass? <==> ValidateAddrFlag(c).Pass? && ValidateEditorFlag(c).Pass? && ValidateTmpDirFlag(c, stat).Pass?
    ensures c.addr == "" ==> r == Fail(NotInformed(AddrFlag))
    ensures c.addr != "" && c.editor == "" ==> r == Fail(NotInformed(EditorFlag))
    ensures c.addr != "" && c.editor != "" ==> r == ValidateTmpDirFlag(c, stat)
  {
    var addr := ValidateAddrFlag(c);
    if addr.Fail? then addr
    else
      var editor := ValidateEditorFlag(c);
      if editor.Fail? then editor
      else ValidateTmpDirFlag(c, stat)
  }

  /** An empty temporary directory is rejected without asking the filesystem:
      the verdict is the same whatever `stat` would answer. */
  lemma EmptyTmpDirSkipsStat(c: Config, stat1: Stat, stat2: Stat)
    requires c.tmpDir == ""
    ensures ValidateTmpDirFlag(c, stat1) == ValidateTmpDirFlag(c, stat2)
    ensures ValidateStartFlags(c, stat1) == ValidateStartFlags(c, stat2)
  {
  }

  /** When the addr or editor check fails, the tmp-dir check is never reached:
      the verdict does not depend on the filesystem. */
  lemma EarlierFailureSkipsStat(c: Config, stat1: Stat, stat2: Stat)
    requires c.addr == "" || c.editor == ""
    ensures ValidateStartFlags(c, stat1) == ValidateStartFlags(c, stat2)
    ensures ValidateStartFlags(c, stat1).Fail?
  {
  }

  /** Every error the start-flag validation reports wraps `ErrInvalidConfig`. */
  lemma ValidationErrorsWrapSentinel(c: Config, stat: Stat)
    requires ValidateStartFlags(c, stat).Fail?
    ensures var m := Message(ValidateStartFlags(c, stat).error);
      m[..|ErrInvalidConfig| + 2] == ErrInvalidConfig + ": "
  {
  }

  /** A logger attribute, as attached by `slog.Logger.With(key, value)`. */
  datatype Attr = Attr(key: string, value: string)

  /** A structured logger, seen only through the attributes attached to it,
      oldest first. */
  type Logger = seq<Attr>

  /** The flag-name to value table `LoggerWith` consults. */
  function FlagValue(c: Config, flag: string): Option<string>
  {
    if flag == AddrFlag then Some(c.addr)
    else if flag == EditorFlag then Some(c.editor)
    else if flag == TmpDirFlag then Some(c.tmpDir)
    else None
  }

  /** A requested flag is logged when it is in the table with a non-empty value. */
  predicate Logged(c: Config, flag: string)
  {
    FlagValue(c, flag).Some? && FlagValue(c, flag).value != ""
  }

  /** The attributes decorating a logger for the requested flags, in request order. */
  function FlagAttrs(c: Config, flags: seq<string>): seq<Attr>
  {
    if flags == [] then []
    else
      var k := flags[0];
      (if Logged(c, k) then [Attr(k, FlagValue(c, k).value)] else []) + FlagAttrs(c, flags[1..])
  }

  /** Decorates `logger` with one attribute per requested flag that is known
      and informed; unknown and empty flags are skipped. */
  method LoggerWith(c: Config, logger: Logger, flags: seq<string>) returns (r: Logger)
    ensures r == logger + FlagAttrs(c, flags)
  {
    r := logger;
    for i := 0 to |flags|
      invariant r == logger + FlagAttrs(c, flags[..i])
    {
      var k := flags[i];
      var v := FlagValue(c, k);
      FlagAttrsAppend(c, flags[..i], [k]);
      assert flags[..i + 1] == flags[..i] + [k];
      if v.Some? && v.value != "" {
        r := r + [Attr(k, v.value)];
      }
    }
    assert flags[..|flags|] == flags;
  }

  /** Requesting flags in two batches decorates as one request would: the
      attributes keep the request order. */
  lemma {:induction false} FlagAttrsAppend(c: Config, a: seq<string>, b: seq<string>)
    ensures FlagAttrs(c, a + b) == FlagAttrs(c, a) + FlagAttrs(c, b)
    decreases |a|
  {
    if a == [] {
      assert a + b == b;
    } else {
      FlagAttrsAppend(c, a[1..], b);
      assert (a + b)[1..] == a[1..] + b;
    }
  }

  /** Every attached attribute comes from a requested, known, informed flag and
      carries that flag's value. */
  lemma {:induction false} FlagAttrsSound(c: Config, flags: seq<string>)
    ensures forall attr :: attr in FlagAttrs(c, flags) ==>
      attr.key in flags && Logged(c, attr.key) && attr.value == FlagValue(c, attr.key).value
    decreases |flags|
  {
    if flags != [] {
      FlagAttrsSound(c, flags[1..]);
      forall attr | attr in FlagAttrs(c, flags[1..])
        ensures attr.key in flags
      {
        assert attr.key in flags[1..];
      }
    }
  }

  /** Requests that name no known, informed flag leave the logger as it was;
      requesting no flags at all is the special case. */
  lemma {:induction false} FlagAttrsNoneLogged(c: Config, flags: seq<string>)
    requires forall i :: 0 <= i < |flags| ==> !Logged(c, flags[i])
    ensures FlagAttrs(c, flags) == []
    decreases |flags|
  {
    if flags != [] {
      assert !Logged(c, flags[0]);
      FlagAttrsNoneLogged(c, flags[1..]);
    }
  }

  /** When every requested flag is known and informed, exactly one attribute
      is attached per request, in request order. */
  lemma {:induction false} FlagAttrsAllLogged(c: Config, flags: seq<string>)
    requires forall i :: 0 <= i < |flags| ==> Logged(c, flags[i])
    ensures |FlagAttrs(c, flags)| == |flags|
    ensures forall i :: 0 <= i < |flags| ==>
      FlagAttrs(c, flags)[i].key == flags[i] && Some(FlagAttrs(c, flags)[i].value) == FlagValue(c, flags[i])
    decreases |flags|
  {
    if flags != [] {
      assert Logged(c, flags[0]);
      FlagAttrsAllLogged(c, flags[1..]);
    }
  }

  /** `NewConfig`: the default listen address, debug verbosity, and the
      editor and temporary directory taken from the `EDITOR` and `TMPDIR`
      environment variables (`env` yields "" for an unset variable). */
  function NewConfig(env: string -> string): (c: Config)
    ensures c.addr == DefaultAddr && c.logLevel == LevelDebug
    ensures c.tmpDir == env("TMPDIR") && c.editor == env("EDITOR")
  {
    Config(LevelDebug, DefaultAddr, env("TMPDIR"), env("EDITOR"))
  }

  /** The defaults always pass the addr check, so a default configuration is
      valid exactly when the environment names an editor and an existing
      directory. */
  lemma DefaultConfigValidation(env: string -> string, stat: Stat)
    ensures ValidateAddrFlag(NewConfig(env)).Pass?
    ensures ValidateStartFlags(NewConfig(env), stat).Pass? <==>
      env("EDITOR") != "" && env("TMPDIR") != "" && stat(env("TMPDIR")) == FileInfo(true)
  {
  }
}
