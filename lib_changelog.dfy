/**
 * lib/changelog.go: locating and reading the changelog source, and the
 * `Help` handler. The release record and the command table it declares are
 * those of ChangelogModel; YAML decoding (ParseChangelog) is not modelled.
 */
module LibChangelog {
  import opened Wrappers
  import opened ChangelogModel
  import opened ChangelogFilename
  import opened Environment

  /** The help screen. */
  const HelpMessage: string := @"Manage semantic changelog

  changelog                      Print this Help screen
  changelog release              Check for release
  changelog release date         Print release date
  changelog release date check   Check that release date wright
  changelog release version      Print release version
  changelog release summary      Print release summary
  changelog release to markdown  Print release changelog in markdown
  changelog to html              Transform changelog to html
  changelog to html stylesheet   Transform to html with a stylesheet
                                 ('style' uses a default stylesheet)
  changelog to markdown          Transform changelog to markdown

You can add 'next' after changelog command to consider next to last release
instead of the last, or '-N' go go back in past Nth release.

The changelog file is searched in current directory. To use a different
changelog, use < character with its path:

  changelog release < path/to/changelog.yml

will check for release a changelog in 'path/to' directory."

  /** IsPiped: standard input is something other than a character device. */
  predicate IsPiped(env: Env)
  {
    env.stdin.Piped?
  }

  /** ReadStdin: the piped contents, or an error when reading them fails. */
  function ReadStdin(stdin: Stdin): (r: Result<string, string>)
    requires stdin.Piped?
    ensures r.Ok? <==> stdin.contents.Some?
    ensures r.Ok? ==> r.value == stdin.contents.value
    ensures r.Err? ==> r.error == "reading changelog from stdin"
  {
    match stdin.contents
    case Some(c) => Ok(c)
    case None => Err("reading changelog from stdin")
  }

  /**
   * FindChangelog: the name of the first entry, in listing order, that is not
   * a directory and whose name matches the pattern; an error when the
   * directory cannot be listed or when no entry qualifies.
   */
  function FindChangelog(listing: Option<seq<Entry>>): (r: Result<string, string>)
    ensures listing.None? ==> r == Err("could not list current directory")
    ensures listing.Some? ==>
      (r.Ok? <==> exists i :: 0 <= i < |listing.value| && IsChangelogFile(listing.value[i]))
    ensures listing.Some? && r.Err? ==> r.error == "could not find changelog file"
    ensures r.Ok? ==>
      exists i :: 0 <= i < |listing.value| && listing.value[i].name == r.value
                  && IsChangelogFile(listing.value[i])
                  && forall j :: 0 <= j < i ==> !IsChangelogFile(listing.value[j])
  {
    match listing
    case None => Err("could not list current directory")
    case Some(entries) =>
      var i := FirstChangelog(entries);
      if i == |entries| then Err("could not find changelog file") else Ok(entries[i].name)
  }

  /** ReadChangelog: the contents of the named file, or an error naming it. */
  function ReadChangelog(files: map<string, string>, file: string): (r: Result<string, string>)
    ensures r.Ok? <==> file in files
    ensures r.Ok? ==> r.value == files[file]
    ensures r.Err? ==> r.error == "reading changelog file '" + file + "'"
  {
    if file in files then Ok(files[file]) else Err("reading changelog file '" + file + "'")
  }

  /**
   * ParseChangelog: decodes the source with `yaml`, which stands for the YAML
   * decoder, and prefixes the decoder's message on failure.
   */
  function ParseChangelog(source: string, yaml: string -> Result<Changelog, string>): (r: Result<Changelog, string>)
    ensures r.Ok? <==> yaml(source).Ok?
    ensures r.Ok? ==> r.value == yaml(source).value
    ensures r.Err? ==> r.error == "parsing changelog: " + yaml(source).error
  {
    match yaml(source)
    case Ok(changelog) => Ok(changelog)
    case Err(message) => Err("parsing changelog: " + message)
  }

  /** What a command handler does: return (with an error or not) after printing, or exit. */
  datatype HandlerOutcome =
    | Returned(stdout: string, err: Option<string>)
    | Exited(code: int, stdout: string)

  /** Help: prints the help screen and exits 0, whatever the changelog and arguments. */
  function Help(changelog: Changelog, args: seq<string>): (o: HandlerOutcome)
    ensures o.Exited? && o.code == 0 && o.stdout == HelpMessage + "\n"
  {
    Exited(0, HelpMessage + "\n")
  }
}
