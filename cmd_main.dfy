/**
 * cmd/changelog.go: the `main` of the library revision. It reads the
 * changelog through the library's functions, reports any of their errors
 * with printError, applies an optional shift, and calls the handler the
 * library's command table names. The error a handler returns is discarded.
 * The `release` handler lives in a file outside this model and is a
 * parameter here.
 */
module CmdMain {
  import opened Wrappers
  import opened ChangelogModel
  import opened Environment
  import opened Selection
  import opened LibChangelog
  import LibTransform

  /** printError: "ERROR: " and the message on standard error, no newline, exit 1. */
  function PrintError(message: string): (t: Termination)
    ensures t.Exit? && t.code == 1 && t.stdout == ""
    ensures t.stderr == "ERROR: " + message
  {
    Exit(1, "", "ERROR: " + message)
  }

  /**
   * The source `main` reads: piped standard input if there is one, otherwise
   * the changelog file found in the current directory.
   */
  function Source(env: Env): (r: Result<string, string>)
    ensures IsPiped(env) ==> r == ReadStdin(env.stdin)
    ensures !IsPiped(env) && FindChangelog(env.listing).Err? ==> r == Err(FindChangelog(env.listing).error)
    ensures !IsPiped(env) && FindChangelog(env.listing).Ok? ==>
              r == LibChangelog.ReadChangelog(env.files, FindChangelog(env.listing).value)
  {
    if IsPiped(env) then ReadStdin(env.stdin)
    else match FindChangelog(env.listing)
      case Err(e) => Err(e)
      case Ok(file) => LibChangelog.ReadChangelog(env.files, file)
  }

  /** Calls the handler of a command; `release` stands for the handler outside this model. */
  function Handle(c: Command, changelog: Changelog, args: seq<string>, env: Env,
                  release: (Changelog, seq<string>) -> HandlerOutcome): HandlerOutcome
  {
    match c
    case Help => LibChangelog.Help(changelog, args)
    case ReleaseCommand => release(changelog, args)
    case Transform => LibTransform.TransformHandler(changelog, args, env.files)
  }

  /** How the process ends after the handler: a returned error is dropped and the status is 0. */
  function Finish(o: HandlerOutcome): (t: Termination)
    ensures t.Exit? && t.stderr == "" && t.stdout == o.stdout
    ensures t.code == (if o.Exited? then o.code else 0)
  {
    match o
    case Returned(stdout, _) => Exit(0, stdout, "")
    case Exited(code, stdout) => Exit(code, stdout, "")
  }

  /** What `main` does once the changelog is decoded and there is at least one argument. */
  function Dispatch(osArgs: seq<string>, changelog: Changelog, env: Env,
                    release: (Changelog, seq<string>) -> HandlerOutcome): Termination
    requires |osArgs| >= 2
  {
    match Select(osArgs, changelog)
    case Err(BadShift(token)) => Exit(1, "Bad shift '" + token + "'\n", "")
    case Err(SlicePanic(delta)) => Panic("slice bounds out of range")
    case Err(MissingCommand) => Panic("index out of range")
    case Ok(Selected(name, selected, args)) =>
      match LookupCommand(name)
      case None => Exit(1, "Command '" + name + "' unknown\n", "")
      case Some(c) => Finish(Handle(c, selected, args, env, release))
  }

  /**
   * main: without arguments the help screen is printed and nothing is read;
   * otherwise read, decode (`yaml` stands for the YAML decoder) and dispatch.
   */
  method Run(osArgs: seq<string>, env: Env, yaml: string -> Result<Changelog, string>,
             release: (Changelog, seq<string>) -> HandlerOutcome) returns (t: Termination)
    ensures |osArgs| < 2 ==> t == Exit(0, HelpMessage + "\n", "")
    ensures |osArgs| >= 2 && Source(env).Err? ==> t == PrintError(Source(env).error)
    ensures |osArgs| >= 2 && Source(env).Ok? && ParseChangelog(Source(env).value, yaml).Err? ==>
              t == PrintError(ParseChangelog(Source(env).value, yaml).error)
    ensures |osArgs| >= 2 && Source(env).Ok? && ParseChangelog(Source(env).value, yaml).Ok? ==>
              t == Dispatch(osArgs, ParseChangelog(Source(env).value, yaml).value, env, release)
  {
    var changelog: Changelog := [];
    var command: string;
    var args: seq<string> := [];
    if |osArgs| < 2 {
      command := HelpCommand;
    } else {
      var source: Result<string, string>;
      if IsPiped(env) {
        source := ReadStdin(env.stdin);
        if source.Err? {
          return PrintError(source.error);
        }
      } else {
        var file := FindChangelog(env.listing);
        if file.Err? {
          return PrintError(file.error);
        }
        source := LibChangelog.ReadChangelog(env.files, file.value);
        if source.Err? {
          return PrintError(source.error);
        }
      }
      var parsed := ParseChangelog(source.value, yaml);
      if parsed.Err? {
        return PrintError(parsed.error);
      }
      changelog := parsed.value;
      command := osArgs[1];
      if command == "next" {
        command := "-1";
      }
      if IsShiftToken(command) {
        var delta := Atoi(command[1..]);
        if delta.None? || delta.value >= |changelog| {
          return Exit(1, "Bad shift '" + command + "'\n", "");
        }
        if delta.value < 0 {
          return Panic("slice bounds out of range");
        }
        changelog := changelog[delta.value..];
        if |osArgs| < 3 {
          return Panic("index out of range");
        }
        command := osArgs[2];
        args := osArgs[3..];
      } else {
        args := osArgs[2..];
      }
    }
    var handler := LookupCommand(command);
    if handler.Some? {
      t := Finish(Handle(handler.value, changelog, args, env, release));
    } else {
      t := Exit(1, "Command '" + command + "' unknown\n", "");
    }
  }

  /** A failing `to` command is silent: nothing printed, exit status 0. */
  lemma FailedTransformExitsZero(osArgs: seq<string>, changelog: Changelog, env: Env,
                                 release: (Changelog, seq<string>) -> HandlerOutcome)
    requires |osArgs| >= 2 && osArgs[1] == "to"
    requires LibTransform.Transform(changelog, osArgs[2..], env.files).Err?
    ensures Dispatch(osArgs, changelog, env, release) == Exit(0, "", "")
  {
    assert !IsShiftToken(osArgs[1]) by { assert osArgs[1][0] == 't'; }
  }

  /**
   * `next` followed by a command acts as that command on the changelog
   * without its latest release, provided there is a release before it.
   */
  lemma NextDropsLatest(osArgs: seq<string>, changelog: Changelog, env: Env,
                        release: (Changelog, seq<string>) -> HandlerOutcome)
    requires |osArgs| >= 3 && osArgs[1] == "next" && |changelog| >= 2
    requires !IsShiftToken(osArgs[2]) && osArgs[2] != "next"
    ensures Dispatch(osArgs, changelog, env, release)
            == Dispatch([osArgs[0]] + osArgs[2..], changelog[1..], env, release)
  {
    NextIsMinusOne(osArgs, changelog);
    var rest := [osArgs[0]] + osArgs[2..];
    assert rest[1] == osArgs[2] && rest[2..] == osArgs[3..];
  }
}
