/**
 * changelog.go (root revision): `main` reads the changelog source, decodes
 * it, applies an optional shift and looks the command up. Errors print a
 * message and exit at once. The handlers of this revision's command table do
 * not match the signatures of release.go and transform.go, so the model
 * stops at the handler that would be called.
 */
module RootMain {
  import opened Wrappers
  import opened ChangelogModel
  import opened ChangelogFilename
  import opened Environment
  import opened Selection

  /** ErrorReading, ErrorParsing: the exit codes `main` uses. */
  const ErrorReading: int := 1
  const ErrorParsing: int := 2

  /** The handler `main` calls, with its changelog and arguments, or how the process ended before. */
  datatype Outcome =
    | Invoke(command: Command, changelog: Changelog, args: seq<string>)
    | Stop(termination: Termination)

  /** An `Error`/`Errorf` exit: the message goes to standard error with a newline added. */
  function Fail(code: int, message: string): Termination
  {
    Exit(code, "", message + "\n")
  }

  /**
   * What readChangelog yields: piped input wins over any file; otherwise the
   * first directory entry that is a changelog file, read in full; every
   * failure exits with ErrorReading.
   */
  function Source(env: Env): (r: Result<string, Termination>)
    ensures env.stdin.Piped? && env.stdin.contents.Some? ==> r == Ok(env.stdin.contents.value)
    ensures r.Err? ==> r.error.Exit? && r.error.code == ErrorReading
    ensures !env.stdin.Piped? && r.Ok? ==> env.listing.Some?
    ensures !env.stdin.Piped? && env.listing.Some? && r.Ok? ==>
              exists i :: 0 <= i < |env.listing.value| && IsChangelogFile(env.listing.value[i])
                          && (forall j :: 0 <= j < i ==> !IsChangelogFile(env.listing.value[j]))
                          && ReadFile(env.files, env.listing.value[i].name) == Some(r.value)
    ensures env.stdin == Piped(None) ==> r == Err(Fail(ErrorReading, "Error reading changelog from stdin"))
    ensures env.stdin.Terminal? && env.listing.None? ==> r == Err(Fail(ErrorReading, "Could not list current directory"))
    ensures !env.stdin.Piped? && env.listing.Some? && FirstChangelog(env.listing.value) == |env.listing.value| ==>
      r == Err(Fail(ErrorReading, "No changelog file found"))
    ensures !env.stdin.Piped? && env.listing.Some? && FirstChangelog(env.listing.value) < |env.listing.value|
            && env.listing.value[FirstChangelog(env.listing.value)].name !in env.files ==>
      r == Err(Fail(ErrorReading, "Error reading changelog file '" + env.listing.value[FirstChangelog(env.listing.value)].name + "'\n"))
  {
    match env.stdin
    case Piped(contents) =>
      if contents.None? then Err(Fail(ErrorReading, "Error reading changelog from stdin"))
      else Ok(contents.value)
    case Terminal =>
      match env.listing
      case None => Err(Fail(ErrorReading, "Could not list current directory"))
      case Some(entries) =>
        var i := FirstChangelog(entries);
        if i == |entries| then Err(Fail(ErrorReading, "No changelog file found"))
        else match ReadFile(env.files, entries[i].name)
          case None => Err(Fail(ErrorReading, "Error reading changelog file '" + entries[i].name + "'\n"))
          case Some(c) => Ok(c)
  }

  /** With piped input the directory is never looked at. */
  lemma PipedInputWins(env: Env, listing: Option<seq<Entry>>, files: map<string, string>)
    requires env.stdin.Piped?
    ensures Source(env) == Source(Env(env.stdin, listing, files))
  {
  }

  /** readChangelog: the loop over the directory entries with its early return. */
  method ReadChangelog(env: Env) returns (r: Result<string, Termination>)
    ensures r == Source(env)
  {
    if env.stdin.Piped? {
      if env.stdin.contents.None? {
        return Err(Fail(ErrorReading, "Error reading changelog from stdin"));
      }
      return Ok(env.stdin.contents.value);
    }
    if env.listing.None? {
      return Err(Fail(ErrorReading, "Could not list current directory"));
    }
    var files := env.listing.value;
    var k := 0;
    while k < |files|
      invariant 0 <= k <= |files|
      invariant forall j :: 0 <= j < k ==> !IsChangelogFile(files[j])
    {
      var file := files[k];
      if !file.isDir && IsChangelogFilename(file.name) {
        FirstChangelogAt(files, k);
        if file.name !in env.files {
          return Err(Fail(ErrorReading, "Error reading changelog file '" + file.name + "'\n"));
        }
        return Ok(env.files[file.name]);
      }
      k := k + 1;
    }
    FirstChangelogAt(files, k);
    return Err(Fail(ErrorReading, "No changelog file found"));
  }

  /** What `main` does once the changelog is decoded and there is at least one argument. */
  function Dispatch(osArgs: seq<string>, changelog: Changelog): Outcome
    requires |osArgs| >= 2
  {
    match Select(osArgs, changelog)
    case Err(BadShift(token)) => Stop(Exit(1, "Bad shift '" + token + "'\n", ""))
    case Err(SlicePanic(delta)) => Stop(Panic("slice bounds out of range"))
    case Err(MissingCommand) => Stop(Panic("index out of range"))
    case Ok(Selected(name, selected, args)) =>
      match LookupCommand(name)
      case None => Stop(Exit(ErrorReading, "Command '" + name + "' unknown\n", ""))
      case Some(c) => Invoke(c, selected, args)
  }

  /**
   * main: without arguments the command is Help and nothing is read;
   * otherwise read, decode (the `parse` parameter stands for the YAML
   * decoder) and dispatch, stopping at the first failure.
   */
  method Run(osArgs: seq<string>, env: Env, parse: string -> Result<Changelog, string>) returns (o: Outcome)
    ensures |osArgs| < 2 ==> o == Invoke(Help, [], [])
    ensures |osArgs| >= 2 && Source(env).Err? ==> o == Stop(Source(env).error)
    ensures |osArgs| >= 2 && Source(env).Ok? && parse(Source(env).value).Err? ==>
              o == Stop(Fail(ErrorParsing, "Error parsing changelog: " + parse(Source(env).value).error + "\n"))
    ensures |osArgs| >= 2 && Source(env).Ok? && parse(Source(env).value).Ok? ==>
              o == Dispatch(osArgs, parse(Source(env).value).value)
  {
    var changelog: Changelog := [];
    var command: string;
    var args: seq<string> := [];
    if |osArgs| < 2 {
      command := HelpCommand;
    } else {
      var source := ReadChangelog(env);
      if source.Err? {
        return Stop(source.error);
      }
      var parsed := parse(source.value);
      if parsed.Err? {
        return Stop(Fail(ErrorParsing, "Error parsing changelog: " + parsed.error + "\n"));
      }
      changelog := parsed.value;
      command := osArgs[1];
      if command == "next" {
        command := "-1";
      }
      if IsShiftToken(command) {
        var delta := Atoi(command[1..]);
        if delta.None? || delta.value >= |changelog| {
          return Stop(Exit(1, "Bad shift '" + command + "'\n", ""));
        }
        if delta.value < 0 {
          return Stop(Panic("slice bounds out of range"));
        }
        changelog := changelog[delta.value..];
        if |osArgs| < 3 {
          return Stop(Panic("index out of range"));
        }
        command := osArgs[2];
        args := osArgs[3..];
      } else {
        args := osArgs[2..];
      }
    }
    var handler := LookupCommand(command);
    if handler.Some? {
      o := Invoke(handler.value, changelog, args);
    } else {
      o := Stop(Exit(ErrorReading, "Command '" + command + "' unknown\n", ""));
    }
  }

  /** Only `Help`, `release` and `to` are commands; any other name exits with ErrorReading. */
  lemma UnknownCommand(osArgs: seq<string>, changelog: Changelog)
    requires |osArgs| >= 2 && !IsShiftToken(osArgs[1]) && osArgs[1] != "next"
    ensures LookupCommand(osArgs[1]).None? <==> Dispatch(osArgs, changelog).Stop?
    ensures LookupCommand(osArgs[1]).None? ==>
              Dispatch(osArgs, changelog) == Stop(Exit(ErrorReading, "Command '" + osArgs[1] + "' unknown\n", ""))
  {
  }
}
