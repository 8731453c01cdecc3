/**
 * release.go: validation of releases and of a whole changelog, and the
 * `release` command, which prints one field of the latest release, checks
 * its date against the clock, or renders it as Markdown.
 */
module ReleaseCheck {
  import opened Wrappers
  import opened Decimal
  import opened ChangelogModel
  import opened VersionGrammar
  import opened DateGrammar
  import Templates

  /** Why a release, or a changelog, fails validation. */
  datatype ReleaseError =
    | EmptyChangelog
    | EmptyVersion
    | InvalidVersion(version: string)
    | EmptyDate
    | InvalidDate(date: string)

  /** The text of each error, as the program formats it (typos included). */
  function ErrorMessage(e: ReleaseError): string
  {
    match e
    case EmptyChangelog => "Release is empy"
    case EmptyVersion => "Release version is empty"
    case InvalidVersion(v) => "Release version '" + v + "' is not a valid semantic version number"
    case EmptyDate => "Release date is empty"
    case InvalidDate(d) => "Release date '" + d + "' is not valid ISO format"
  }

  /**
   * checkRelease: the version is examined before the date, and emptiness
   * before shape, so each error is reported only when every earlier test passed.
   */
  function CheckRelease(r: Release): (e: Option<ReleaseError>)
    ensures e == None <==> IsValidVersion(r.version) && IsValidDate(r.date)
    ensures e == Some(EmptyVersion) <==> r.version == ""
    ensures e == Some(InvalidVersion(r.version)) <==> r.version != "" && !IsValidVersion(r.version)
    ensures e == Some(EmptyDate) <==> IsValidVersion(r.version) && r.date == ""
    ensures e == Some(InvalidDate(r.date)) <==> IsValidVersion(r.version) && r.date != "" && !IsValidDate(r.date)
  {
    if r.version == "" then Some(EmptyVersion)
    else if !IsValidVersion(r.version) then Some(InvalidVersion(r.version))
    else if r.date == "" then Some(EmptyDate)
    else if !IsValidDate(r.date) then Some(InvalidDate(r.date))
    else None
  }

  /** A release passes exactly when its fields are in the languages of the two patterns. */
  lemma CheckReleaseGrammar(r: Release)
    ensures CheckRelease(r) == None <==> VersionLanguage(r.version) && IsValidDate(r.date)
  {
    VersionCorrect(r.version);
  }

  /** The index of the first release that fails, or `|releases|` when all pass. */
  function FirstInvalid(releases: Changelog): (i: nat)
    ensures i <= |releases|
    ensures forall j :: 0 <= j < i ==> CheckRelease(releases[j]) == None
    ensures i < |releases| ==> CheckRelease(releases[i]).Some?
  {
    if releases == [] then 0
    else if CheckRelease(releases[0]).Some? then 0
    else 1 + FirstInvalid(releases[1..])
  }

  /**
   * The verdict of checkChangelog: an empty changelog fails, otherwise the
   * error of the lowest-index failing release, or none.
   */
  function ChangelogError(changelog: Changelog): (e: Option<ReleaseError>)
    ensures changelog == [] ==> e == Some(EmptyChangelog)
    ensures changelog != [] ==>
      (e == None <==> forall i :: 0 <= i < |changelog| ==> CheckRelease(changelog[i]) == None)
    ensures changelog != [] && e.Some? ==>
      exists i :: 0 <= i < |changelog| && e == CheckRelease(changelog[i])
                  && forall j :: 0 <= j < i ==> CheckRelease(changelog[j]) == None
  {
    if changelog == [] then Some(EmptyChangelog)
    else
      var i := FirstInvalid(changelog);
      if i == |changelog| then None else CheckRelease(changelog[i])
  }

  /** checkChangelog: the loop over the releases with its early return. */
  method CheckChangelog(changelog: Changelog) returns (e: Option<ReleaseError>)
    ensures e == ChangelogError(changelog)
  {
    if |changelog| == 0 {
      return Some(EmptyChangelog);
    }
    var k := 0;
    while k < |changelog|
      invariant 0 <= k <= |changelog|
      invariant forall j :: 0 <= j < k ==> CheckRelease(changelog[j]) == None
    {
      var err := CheckRelease(changelog[k]);
      if err.Some? {
        FirstInvalidAt(changelog, k);
        return err;
      }
      k := k + 1;
    }
    FirstInvalidAt(changelog, k);
    return None;
  }

  /** The first failing index is determined by the releases before it and the one at it. */
  lemma {:induction false} FirstInvalidAt(releases: Changelog, k: nat)
    requires k <= |releases|
    requires forall j :: 0 <= j < k ==> CheckRelease(releases[j]) == None
    requires k < |releases| ==> CheckRelease(releases[k]).Some?
    ensures FirstInvalid(releases) == k
  {
  }

  /**
   * Checking a changelog whose head passes is checking its tail (when the
   * tail is not empty); so releases are examined from the latest backwards.
   */
  lemma {:induction false} ChangelogErrorCons(r: Release, rest: Changelog)
    requires rest != []
    ensures ChangelogError([r] + rest)
         == if CheckRelease(r).Some? then CheckRelease(r) else ChangelogError(rest)
  {
    var cl := [r] + rest;
    assert cl[0] == r && cl[1..] == rest;
    if CheckRelease(r) == None {
      assert FirstInvalid(cl) == 1 + FirstInvalid(rest);
    }
  }

  // ---------------------------------------------------------------------
  // The `release` command.

  /** Why the `release` command fails. */
  datatype CommandError =
    | DateMismatch(date: string, today: string)
    | UnknownArgument(arg: string)

  function CommandErrorMessage(e: CommandError): string
  {
    match e
    case DateMismatch(d, t) => "Release date " + d + " is wrong (should be " + t + ")"
    case UnknownArgument(a) => "Unknown release argument " + a
  }

  /** The first arguments that read the latest release. */
  predicate ReadsLatest(args: seq<string>)
  {
    |args| > 0 && (args[0] == "summary" || args[0] == "date" || args[0] == "version" || args[0] == "to")
  }

  /**
   * release(changelog, args): the printed output, or the returned error.
   * The validation result is discarded, the summary, date and version are
   * printed with a trailing newline, `date` followed by anything compares
   * the latest date with the clock's local date and prints nothing, and
   * `to` renders the latest release whatever follows it. The clock is the
   * parameter `now`.
   */
  function RunRelease(changelog: Changelog, args: seq<string>, now: LocalDate): Result<string, CommandError>
    requires ReadsLatest(args) ==> |changelog| > 0
  {
    if |args| == 0 then Ok("")
    else if args[0] == "summary" then Ok(changelog[0].summary + "\n")
    else if args[0] == "date" then
      if |args| > 1 then
        var today := FormatDate(now);
        if today != changelog[0].date then Err(DateMismatch(changelog[0].date, today)) else Ok("")
      else Ok(changelog[0].date + "\n")
    else if args[0] == "version" then Ok(changelog[0].version + "\n")
    else if args[0] == "to" then Ok(Templates.MdTemplateRelease(changelog[0]))
    else Err(UnknownArgument(args[0]))
  }

  /** Without arguments the command succeeds silently, even on a changelog that fails validation. */
  lemma ReleaseIgnoresValidation(changelog: Changelog, now: LocalDate)
    ensures RunRelease(changelog, [], now) == Ok("")
  {
  }

  /** `summary`, `version` and `date` alone print exactly that field of the latest release. */
  lemma ReleasePrintsField(changelog: Changelog, field: string, now: LocalDate)
    requires |changelog| > 0
    requires field == "summary" || field == "version" || field == "date"
    ensures RunRelease(changelog, [field], now) == Ok(
      (if field == "summary" then changelog[0].summary
       else if field == "version" then changelog[0].version
       else changelog[0].date) + "\n")
  {
  }

  /**
   * `date` followed by any argument fails exactly when the latest date differs
   * from today's rendering, and prints nothing either way. On a clock whose
   * year has four digits, a latest date that the date pattern rejects
   * therefore always fails.
   */
  lemma DateCheck(changelog: Changelog, extra: seq<string>, now: LocalDate)
    requires |changelog| > 0 && |extra| > 0
    ensures RunRelease(changelog, ["date"] + extra, now).Ok? <==> changelog[0].date == FormatDate(now)
    ensures RunRelease(changelog, ["date"] + extra, now).Ok? ==> RunRelease(changelog, ["date"] + extra, now).value == ""
    ensures !IsValidDate(changelog[0].date) && 0 <= now.year <= 9999 && now.month <= 99 && now.day <= 99
            ==> RunRelease(changelog, ["date"] + extra, now).Err?
  {
    var args := ["date"] + extra;
    assert args[0] == "date" && |args| > 1;
    if 0 <= now.year <= 9999 && now.month <= 99 && now.day <= 99 {
      FormatDateRoundTrip(now);
    }
  }

  /** Any first argument other than the five known ones is an error naming it. */
  lemma ReleaseUnknownArgument(changelog: Changelog, args: seq<string>, now: LocalDate)
    requires |args| > 0 && !ReadsLatest(args)
    ensures RunRelease(changelog, args, now) == Err(UnknownArgument(args[0]))
  {
  }

  /** `to` renders the latest release with the single-release Markdown template, whatever follows it. */
  lemma ReleaseTo(changelog: Changelog, rest: seq<string>, now: LocalDate)
    requires |changelog| > 0
    ensures RunRelease(changelog, ["to"] + rest, now) == Ok(Templates.MdTemplateRelease(changelog[0]))
  {
    assert (["to"] + rest)[0] == "to";
  }

  /** Validation reads only the versions and dates of the releases. */
  lemma ChangelogErrorReadsVersionsAndDates(a: Changelog, b: Changelog)
    requires |a| == |b|
    requires forall i :: 0 <= i < |a| ==> a[i].version == b[i].version && a[i].date == b[i].date
    ensures ChangelogError(a) == ChangelogError(b)
  {
    assert forall i :: 0 <= i < |a| ==> CheckRelease(a[i]) == CheckRelease(b[i]);
  }
}
