/**
 * lib/transform.go: the `to` command of the library revision. It validates
 * the changelog first, then renders it to HTML (with stylesheets) or to
 * Markdown; the single-release renderings are used by the `release` command.
 * Rendering writes to standard output in the program; here it is the result.
 */
module LibTransform {
  import opened Wrappers
  import opened ChangelogModel
  import opened Environment
  import ReleaseCheck
  import Stylesheets
  import opened Templates
  import LibChangelog

  /** Why `to` fails. */
  datatype TransformError =
    | CheckFailed(cause: ReleaseCheck.ReleaseError)
    | NoFormat
    | StylesheetNotLoaded(file: string)
    | UnknownFormat(format: string)

  /**
   * How toHTML reads one argument: `style` gives the local byte slice that
   * shadows the package's built-in stylesheet, which is still empty at that
   * point, so it contributes the empty string; anything else is a file path.
   */
  function ReadArgument(files: map<string, string>, arg: string): Option<string>
  {
    if arg == "style" then Some("") else ReadFile(files, arg)
  }

  /**
   * toHTML: one stylesheet per argument, in order; the first file that cannot
   * be read aborts before anything is rendered.
   */
  function ToHtml(changelog: Changelog, args: seq<string>, files: map<string, string>): (r: Result<string, TransformError>)
    ensures r.Err? <==> exists i :: 0 <= i < |args| && args[i] != "style" && args[i] !in files
    ensures r.Err? ==>
      exists i :: 0 <= i < |args| && r.error == StylesheetNotLoaded(args[i])
                  && args[i] != "style" && args[i] !in files
                  && forall j :: 0 <= j < i ==> args[j] == "style" || args[j] in files
    ensures r.Ok? ==>
      exists sheets: seq<string> ::
        && |sheets| == |args|
        && (forall i :: 0 <= i < |args| ==> sheets[i] == if args[i] == "style" then "" else files[args[i]])
        && r.value == HtmlTemplate(sheets, changelog)
  {
    var read := a => ReadArgument(files, a);
    match Stylesheets.Collect(args, read)
    case Err(file) => Err(StylesheetNotLoaded(file))
    case Ok(sheets) => Ok(HtmlTemplate(sheets, changelog))
  }

  /** toMarkdown: the whole changelog through MdTemplate. */
  function ToMarkdown(changelog: Changelog): (md: string)
    ensures md == "# Changelog\n\n" + MdReleaseSections(changelog)
  {
    MdTemplate(changelog)
  }

  /**
   * transform: validation comes first and its failure is returned without
   * looking at the arguments; then a format is required, `html` passes the
   * remaining arguments as stylesheets, `markdown` ignores them, and any other
   * format is an error.
   */
  function Transform(changelog: Changelog, args: seq<string>, files: map<string, string>): (r: Result<string, TransformError>)
    ensures ReleaseCheck.ChangelogError(changelog).Some? ==>
              r == Err(CheckFailed(ReleaseCheck.ChangelogError(changelog).value))
    ensures ReleaseCheck.ChangelogError(changelog).None? ==>
              r == if |args| == 0 then Err(NoFormat)
                   else if args[0] == "html" then ToHtml(changelog, args[1..], files)
                   else if args[0] == "markdown" then Ok(ToMarkdown(changelog))
                   else Err(UnknownFormat(args[0]))
  {
    match ReleaseCheck.ChangelogError(changelog)
    case Some(e) => Err(CheckFailed(e))
    case None =>
      if |args| < 1 then Err(NoFormat)
      else if args[0] == "html" then ToHtml(changelog, args[1..], files)
      else if args[0] == "markdown" then Ok(ToMarkdown(changelog))
      else Err(UnknownFormat(args[0]))
  }

  /**
   * The text of the error `transform` returns. The operating system's reason
   * for an unreadable stylesheet, which follows the last colon, is not modelled.
   */
  function TransformMessage(e: TransformError): string
  {
    match e
    case CheckFailed(cause) => "checking changelog: " + ReleaseCheck.ErrorMessage(cause)
    case NoFormat => "you must pass format to transform to"
    case StylesheetNotLoaded(file) => "generating HTML: Error loading Stylesheet " + file + ": "
    case UnknownFormat(format) => "unknown format " + format
  }

  /**
   * transform as a command handler: it always returns; the rendering is what
   * it prints, and on an error nothing has been printed.
   */
  function TransformHandler(changelog: Changelog, args: seq<string>, files: map<string, string>): (o: LibChangelog.HandlerOutcome)
    ensures o.Returned?
    ensures o.err.None? <==> Transform(changelog, args, files).Ok?
    ensures o.err.None? ==> o.stdout == Transform(changelog, args, files).value
    ensures o.err.Some? ==> o.stdout == "" && o.err.value == TransformMessage(Transform(changelog, args, files).error)
  {
    match Transform(changelog, args, files)
    case Ok(text) => LibChangelog.Returned(text, None)
    case Err(e) => LibChangelog.Returned("", Some(TransformMessage(e)))
  }

  /** The check error comes first, whatever the arguments are. */
  lemma InvalidChangelogNeverRenders(changelog: Changelog, args: seq<string>, files: map<string, string>)
    requires ReleaseCheck.ChangelogError(changelog).Some?
    ensures TransformHandler(changelog, args, files).stdout == ""
    ensures TransformHandler(changelog, args, files).err
            == Some("checking changelog: " + ReleaseCheck.ErrorMessage(ReleaseCheck.ChangelogError(changelog).value))
  {
  }
}
