/**
 * transform.go: the `to` command of the root revision. It renders HTML only,
 * with the six-category template, and reads every argument after the format
 * as a stylesheet file (there is no `style` keyword).
 */
module RootTransform {
  import opened Wrappers
  import opened ChangelogModel
  import opened Environment
  import Stylesheets
  import ReleaseCheck
  import opened Templates

  /** Why `to` fails; the program prints the message and exits. */
  datatype TransformError =
    | CheckFailed(cause: ReleaseCheck.ReleaseError)
    | NoFormat
    | UnknownFormat(format: string)
    | StylesheetNotLoaded(file: string)

  /** toHtml: one stylesheet file per argument, in order; the first unreadable one aborts. */
  function ToHtml(changelog: Changelog, args: seq<string>, files: map<string, string>): (r: Result<string, TransformError>)
    ensures r.Err? <==> exists i :: 0 <= i < |args| && args[i] !in files
    ensures r.Err? ==>
      exists i :: 0 <= i < |args| && r.error == StylesheetNotLoaded(args[i]) && args[i] !in files
                  && forall j :: 0 <= j < i ==> args[j] in files
    ensures r.Ok? ==>
      r.value == HtmlTemplateSix(seq(|args|, i requires 0 <= i < |args| && args[i] in files => files[args[i]]), changelog)
  {
    var read := a => ReadFile(files, a);
    match Stylesheets.Collect(args, read)
    case Err(file) => Err(StylesheetNotLoaded(file))
    case Ok(sheets) =>
      assert sheets == seq(|args|, i requires 0 <= i < |args| && args[i] in files => files[args[i]]);
      Ok(HtmlTemplateSix(sheets, changelog))
  }

  /**
   * transform: the changelog is checked before the arguments are looked at,
   * and a failed check ends the command. The checkChangelog this revision
   * calls at transform.go:105 is not part of this model; it is taken to apply
   * the rules of release.go. Then a format is required and only `html` is
   * known.
   */
  function Transform(changelog: Changelog, args: seq<string>, files: map<string, string>): (r: Result<string, TransformError>)
    ensures ReleaseCheck.ChangelogError(changelog).Some? ==>
              r == Err(CheckFailed(ReleaseCheck.ChangelogError(changelog).value))
    ensures ReleaseCheck.ChangelogError(changelog).None? ==>
              r == if |args| == 0 then Err(NoFormat)
                   else if args[0] != "html" then Err(UnknownFormat(args[0]))
                   else ToHtml(changelog, args[1..], files)
  {
    match ReleaseCheck.ChangelogError(changelog)
    case Some(e) => Err(CheckFailed(e))
    case None =>
      if |args| < 1 then Err(NoFormat)
      else if args[0] != "html" then Err(UnknownFormat(args[0]))
      else ToHtml(changelog, args[1..], files)
  }

  /** Only a valid changelog is ever rendered. */
  lemma RenderedOnlyWhenValid(changelog: Changelog, args: seq<string>, files: map<string, string>)
    requires Transform(changelog, args, files).Ok?
    ensures |changelog| > 0
    ensures forall i :: 0 <= i < |changelog| ==> ReleaseCheck.CheckRelease(changelog[i]) == None
    ensures |args| > 0 && args[0] == "html"
  {
  }

  /**
   * Two changelogs that differ only in their Rejected and Notes lists (or
   * in anything else the six-category page does not show) give the same
   * result, because the page never reads those lists.
   */
  lemma TransformIgnoresRejectedAndNotes(a: Changelog, b: Changelog, args: seq<string>, files: map<string, string>)
    requires |a| == |b|
    requires forall i :: 0 <= i < |a| ==>
      a[i].version == b[i].version && a[i].date == b[i].date && a[i].summary == b[i].summary
      && a[i].added == b[i].added && a[i].changed == b[i].changed && a[i].deprecated == b[i].deprecated
      && a[i].removed == b[i].removed && a[i].fixed == b[i].fixed && a[i].security == b[i].security
    ensures Transform(a, args, files) == Transform(b, args, files)
  {
    ReleaseCheck.ChangelogErrorReadsVersionsAndDates(a, b);
    SixCategoryPageIgnoresRejectedAndNotes(a, b);
  }
}
