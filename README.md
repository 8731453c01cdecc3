# changelog — a Dafny model

`changelog` is a command-line tool. It reads a YAML changelog, which is a list of
releases with the newest first. Each release has a version, a date, a summary and
eight categorised lists of entries: Added, Changed, Deprecated, Removed, Fixed,
Security, Rejected and Notes. The tool can:

- validate the changelog (`release`);
- print fields of the latest release (`release summary|date|version`);
- check the latest release date against today (`release date check`);
- render the changelog as HTML or Markdown (`to html|markdown`, `release to`).

Before the command, the tool can shift the changelog to an older release
(`next`, `-N`).

The repository holds two revisions of the program, and this model keeps them
apart:

- the **root** revision: `changelog.go`, `release.go` and `transform.go`;
- the **library** revision: `lib/changelog.go` and `lib/transform.go`, driven by
  `cmd/changelog.go`.

Both revisions share the release record and the command table
(`ChangelogModel`). They also share the validation patterns of `release.go`
(`VersionGrammar`, `DateGrammar`, `ReleaseCheck`).

How input, output and process exits are represented:

- Side effects are values. `Environment.Env` holds standard input, the directory
  listing and the files that can be read.
- `Environment.Termination` records how the process ends: the exit status, the
  standard output and the standard error, or a Go run-time panic.
- Text that a handler prints is the result string of the function that models it.
- The YAML decoder is a function parameter (`parse` or `yaml`).
- The clock is a parameter (`now`).

Modules:

| module | file | models |
|---|---|---|
| `ChangelogModel` | changelog_model.dfy | the release record, its category order, the command table |
| `Decimal` | decimal.dfy | ASCII digit strings, their values, zero-padded rendering |
| `VersionGrammar` | version_grammar.dfy | the version pattern of `release.go`, as a recogniser proved equal to a reference grammar |
| `DateGrammar` | date_grammar.dfy | the date pattern, and Go's `2006-01-02` date layout |
| `ReleaseCheck` | release_check.dfy | `checkRelease`, `checkChangelog` (with a loop) and the `release` command |
| `ChangelogFilename` | filename.dfy | the file-name pattern and the choice of the first matching directory entry |
| `Selection` | selection.dfy | `strconv.Atoi`, `next` and `-N` shifting, and the argument split of both `main`s |
| `Templates` | templates.dfy | the HTML and Markdown templates as string-building functions |
| `Stylesheets` | stylesheets.dfy | the stylesheet-reading loop shared by both `toHtml`s |
| `LibChangelog` | lib_changelog.dfy | the library's reading functions, `ParseChangelog` and `Help` |
| `LibTransform` | lib_transform.dfy | the library's `transform`, `toHTML`, `toMarkdown` |
| `RootTransform` | root_transform.dfy | the root `transform` and `toHtml` |
| `RootMain` | root_main.dfy | `readChangelog`, `parseChangelog` and `main` of `changelog.go` |
| `CmdMain` | cmd_main.dfy | `printError` and `main` of `cmd/changelog.go` |

Where the program and its own description differ, the model follows the code.

- **Version suffixes.** The version pattern (release.go:13-16) accepts a suffix
  word only when it is wholly upper case or wholly lower case. So `1.2.3-Alpha`
  is rejected (`VersionGrammar.RejectedMixedCase`). Case-insensitive matching
  would accept it.
- **The dot in the file-name pattern.** The dot in `change(-|_)?log(.yml|.yaml)?`
  is not escaped (changelog.go:79, lib/changelog.go:69). So `changelogXyml` and
  `Change_Log-YAML` are accepted as changelog files (`ChangelogFilename.UnescapedDot`).
- **`style` in the library's `toHTML`.** At lib/transform.go:611 the loop
  declares a local `Stylesheet` byte slice. That slice shadows the package's
  default stylesheet. `[]byte(Stylesheet)` therefore converts the still-empty
  local, so the `style` argument contributes an empty stylesheet
  (`LibTransform.ReadArgument`), not the default one.
- **Returned errors are dropped.** The root `release` calls `checkChangelog` as a
  statement (release.go:49) and drops the error it returns, so `release` with no
  arguments succeeds on an invalid changelog
  (`ReleaseCheck.ReleaseIgnoresValidation`). `cmd/changelog.go`
  discards the error every handler returns (cmd/changelog.go:60), so a failing
  `to` exits with status 0 and prints nothing (`CmdMain.FailedTransformExitsZero`).
- **Shifts.** A shift token is anything that starts with `-`. `-N` with `N`
  negative passes the `delta >= len` guard and then panics on the slice
  expression. A shift with no command after it panics on `os.Args[2]`. Both
  panics are modelled as `Panic` outcomes. `strconv.Atoi` also accepts a sign
  and leading zeros, so `-+1` and `-01` shift by one like `-1`
  (`Selection.AtoiNonCanonical`).
- **Which file is read.** `ioutil.ReadDir` lists the directory sorted by name,
  so the file read is the first matching name in that order. The model takes
  the listing as given (`ChangelogFilename.FirstChangelog`).

## Model

| member | source | states |
|---|---|---|
| ChangelogModel.Categories | changelog.go:24-36 | a release's eight lists in the fixed order Added, Changed, Deprecated, Removed, Fixed, Security, Rejected, Notes |
| ChangelogModel.LookupCommand | changelog.go:17-21 | exactly the names `Help`, `release` and `to` resolve; a resolved command carries the name it was looked up by |
| ChangelogModel.LookupCommandName | lib/changelog.go:15-19 | every handler is found under its own name and under no other |
| Decimal.ValueOfDigits | release.go:55 | the decimal rendering of a number reads back as that number |
| Decimal.ValueIgnoresLeadingZeros | release.go:55 | zero padding does not change the value of a digit string |
| Decimal.PaddedValue | release.go:55 | a zero-padded rendering reads back as the number |
| Decimal.DigitsLength | release.go:55 | a number below 10^k, for k > 0, has at most k decimal digits |
| VersionGrammar.DigitPrefix | release.go:16 | the length of the longest prefix of ASCII digits |
| VersionGrammar.DashIndex | release.go:16 | the index of the first dash, or the length when there is none |
| VersionGrammar.DottedNumberCorrect | release.go:16 | the greedy recogniser of `\d+(\.\d+)*` accepts exactly the strings of the reference grammar |
| VersionGrammar.SuffixPartCorrect | release.go:13-16 | the recogniser of the optional `-WORD(-\d+)?` tail accepts exactly the reference grammar, with WORD one of the eight listed words |
| VersionGrammar.VersionCorrect | release.go:16 | the version check accepts a string if and only if it is a dotted number followed by an optional suffix, anchored at both ends |
| VersionGrammar.IsDottedNumberSound | release.go:16 | whatever the dotted-number recogniser accepts is in the reference grammar |
| VersionGrammar.IsDottedNumberComplete | release.go:16 | every string of the reference grammar is accepted |
| VersionGrammar.DottedNumberHasNoDash | release.go:16 | a dotted number contains no dash, so the first dash starts the suffix |
| VersionGrammar.AcceptedVersion123 | changelog_test.go:40 | `1.2.3` is a valid version |
| VersionGrammar.AcceptedVersion1 | changelog_test.go:40 | `1` is a valid version |
| VersionGrammar.AcceptedVersion12 | changelog_test.go:40 | `1.2` is a valid version |
| VersionGrammar.AcceptedVersion100 | changelog_test.go:40 | `100.200.300` is a valid version |
| VersionGrammar.AcceptedSuffixedVersion | changelog_test.go:41-43 | `1.2.3-W` is valid for each of the eight suffix words W |
| VersionGrammar.AcceptedNumberedVersion | changelog_test.go:42-44 | `1.2.3-W-1` is valid for each of the eight suffix words W |
| VersionGrammar.RejectedEmptyVersion | changelog_test.go:52 | the empty string is not a version |
| VersionGrammar.RejectedLeadingSpace | changelog_test.go:52 | a leading space is rejected |
| VersionGrammar.RejectedTrailingSpace | changelog_test.go:52 | a trailing space is rejected |
| VersionGrammar.RejectedTrailingDash | changelog_test.go:53 | `1.2.3-` is rejected |
| VersionGrammar.RejectedDanglingBuildDash | changelog_test.go:53 | `1.2.3-ALPHA-` is rejected |
| VersionGrammar.RejectedUnknownWord | changelog_test.go:54 | `1.2.3-X` is rejected |
| VersionGrammar.RejectedNonNumericBuild | changelog_test.go:54 | `1.2.3-ALPHA-X` is rejected |
| VersionGrammar.RejectedMixedCase | release.go:13 | `1.2.3-Alpha` is rejected, because the suffix list has no mixed-case words |
| VersionGrammar.IsValidVersion | release.go:16 | the version check: a dotted number up to the first dash and a suffix part from there; `VersionCorrect` proves it equal to the pattern's language |
| VersionGrammar.RejectedTail | release.go:16 | `1.2.3` followed by a dashed tail that is not a suffix part is rejected |
| VersionGrammar.RejectedAfterNumber | release.go:16 | any valid dotted number followed by a dashed tail that is not a suffix part is rejected |
| DateGrammar.IsValidDate | release.go:10 | the date check: exactly ten characters, dashes at positions 4 and 7 and ASCII digits elsewhere |
| DateGrammar.FormatDate | release.go:55 | Go's `2006-01-02` layout: year padded to four digits (with a leading `-` when negative), month and day to two; its properties are `FormatDateRoundTrip` and `FormatDateOutOfRange` |
| DateGrammar.ParseDate | release.go:10 | a string of the date shape reads as a year below 10000 and a month and day below 100 |
| DateGrammar.FormatDateRoundTrip | release.go:55 | a date with a four-digit year renders in the `2006-01-02` layout to a string of the accepted shape, and reading it back gives the date |
| DateGrammar.FormatDateOutOfRange | release.go:55 | a year outside 0..9999 renders to a string the date pattern rejects |
| DateGrammar.AcceptedDates | changelog_test.go:24 | `2015-04-01` is a valid date (and so is `9999-99-99`: the pattern checks shape only) |
| DateGrammar.RejectedDates | changelog_test.go:30 | a leading space, a trailing space and slashes are rejected |
| ReleaseCheck.CheckRelease | release.go:18-33 | an empty version, then a version the pattern rejects, then an empty date, then a date the pattern rejects; each error only when every earlier test passed, and none exactly when all pass |
| ReleaseCheck.CheckReleaseGrammar | release.go:16-22 | a release passes the check exactly when its version is in the version grammar and its date has the accepted shape |
| ReleaseCheck.FirstInvalid | release.go:39-44 | the index of the first release that fails the check, or the length |
| ReleaseCheck.ChangelogError | release.go:35-46 | an empty changelog is an error; otherwise no error exactly when every release passes, and an error is the error of the first release that fails |
| ReleaseCheck.CheckChangelog | release.go:35-46 | the loop over the releases returns exactly that error |
| ReleaseCheck.FirstInvalidAt | release.go:39-44 | an index whose release fails while all earlier releases pass is the first invalid index |
| ReleaseCheck.ChangelogErrorCons | release.go:39-44 | a changelog's error is its latest release's error if there is one, and otherwise the error of the rest |
| ReleaseCheck.ChangelogErrorReadsVersionsAndDates | release.go:18-46 | validation depends only on the releases' versions and dates |
| ReleaseCheck.RunRelease | release.go:48-72 | the `release` command: its output or returned error for each first argument, with the clock as a parameter; its behaviour is stated by the lemmas below |
| ReleaseCheck.ReleaseIgnoresValidation | release.go:48-50 | `release` with no argument succeeds and prints nothing, whether or not the changelog is valid |
| ReleaseCheck.ReleasePrintsField | release.go:51-64 | `release summary`, `version` or `date` alone prints that field of the latest release and a newline |
| ReleaseCheck.DateCheck | release.go:53-59 | `release date X` succeeds exactly when the latest date equals today in the `2006-01-02` layout, prints nothing, and always fails on a date the pattern rejects |
| ReleaseCheck.ReleaseUnknownArgument | release.go:67-69 | any other first argument is an error naming it |
| ReleaseCheck.ReleaseTo | release.go:65-66 | `release to` prints the latest release through the single-release Markdown template, whatever follows |
| ChangelogFilename.Lower | changelog.go:79 | ASCII lower-casing keeps the length and maps each character |
| ChangelogFilename.IsChangelogFilename | changelog.go:79 | the file-name check: lower-case the name, then a stem and an optional extension; `FilenameCorrect` proves it equal to the pattern's language |
| ChangelogFilename.FilenameCorrect | changelog.go:79 | a name matches exactly when its lower-cased form is one of the three stems followed by nothing or by any character that is not a newline and then `yml` or `yaml` |
| ChangelogFilename.FilenameIgnoresCase | changelog.go:79 | names that are equal after ASCII lower-casing match alike |
| ChangelogFilename.AcceptedUpperYml | changelog_test.go:8 | `CHANGELOG.yml` matches |
| ChangelogFilename.AcceptedUpperYaml | changelog_test.go:8 | `CHANGELOG.yaml` matches |
| ChangelogFilename.AcceptedDash | changelog_test.go:9 | `CHANGE-LOG.yml` matches |
| ChangelogFilename.AcceptedUnderscore | changelog_test.go:9 | `CHANGE_LOG.yml` matches |
| ChangelogFilename.AcceptedLower | changelog_test.go:9 | `changelog.yml` and `changelog.yaml` match |
| ChangelogFilename.RejectedSpaces | changelog_test.go:15 | a trailing or a leading space prevents a match |
| ChangelogFilename.UnescapedDot | changelog.go:79 | the unescaped dot lets any character but a newline stand before the extension |
| ChangelogFilename.FirstChangelog | changelog.go:107-108 | the index of the first entry that is not a directory and whose name matches, or the length |
| ChangelogFilename.FirstChangelogAt | changelog.go:107-108 | a matching entry preceded only by non-matching entries is the first |
| Selection.Atoi | changelog.go:148 | a string parses exactly when it is an optional sign followed by one or more ASCII digits whose signed value fits 64 bits, and then its value is that signed value |
| Selection.AtoiNonCanonical | changelog.go:148 | a `+` and leading zeros are accepted: `+0…0d` and `0…0d` read as the value of `d` |
| Selection.AtoiItoa | changelog.go:148 | every 64-bit integer's decimal rendering parses back to it |
| Selection.Shift | changelog.go:147-153 | an unparsable count or a count at least the length is a bad shift; a negative count is a slice panic; a count N with 0 <= N < length gives exactly the changelog from index N on |
| Selection.ShiftKeepsALatestRelease | changelog.go:149 | a successful shift leaves at least one release |
| Selection.ShiftOnEmpty | changelog.go:147-152 | no shift succeeds on an empty changelog |
| Selection.ShiftByZero | changelog.go:147-153 | `-0` keeps a non-empty changelog unchanged |
| Selection.ShiftTwice | changelog.go:153 | shifting by a and then by b is shifting by a + b |
| Selection.Select | changelog.go:143-158 | without a shift token (after `next` becomes `-1`) the command is the first argument and the rest are its arguments; with one, a failed shift is that error, and a successful one selects the second argument as command, the rest as arguments and the shifted changelog, or fails with a missing command when there is no second argument |
| Selection.NextIsMinusOne | changelog.go:144-146 | `next` behaves as `-1`: a bad shift on a changelog of at most one release, and otherwise the command after it runs on the releases after the latest |
| Templates.HtmlTemplate | lib/transform.go:13-95 | the library's HTML page: title `Changelog`, one style block per stylesheet, and all eight categories per release |
| Templates.HtmlTemplateSix | transform.go:10-76 | the root revision's HTML page: title `Change Log` and the categories Added to Security only |
| Templates.MdTemplate | lib/transform.go:491-529 | the whole-changelog Markdown: the title, then one section per release |
| Templates.MdTemplateRelease | lib/transform.go:532-565 | the single-release Markdown is the summary, a blank line and the description template |
| Templates.MdTemplateDescription | lib/transform.go:568-599 | the description Markdown is empty exactly when all eight category lists are empty |
| Templates.MdReleaseSectionsAppend | lib/transform.go:493-529 | the Markdown document lists the releases' sections in changelog order |
| Templates.HtmlReleasesAppend | lib/transform.go:26-93 | the HTML page lists the releases' blocks in changelog order |
| Templates.HtmlStylesAppend | lib/transform.go:18-22 | stylesheets appear in the page in the order given |
| Templates.MdCategoriesEmpty | lib/transform.go:497-528 | the category blocks produce nothing exactly when every category list is empty |
| Templates.HtmlCategoriesLength | lib/transform.go:29-92 | each HTML category adds its separating newline, and adds more exactly when its list is non-empty |
| Templates.SixCategoryReleaseIgnoresRejectedAndNotes | transform.go:23-74 | the six-category release block does not depend on Rejected or Notes |
| Templates.SixCategoryPageIgnoresRejectedAndNotes | transform.go:23-74 | the same for the whole release list |
| Templates.ParseMdItems | lib/transform.go:499-500 | reads back a list of `- entry` lines |
| Templates.MdItemsRoundTrip | lib/transform.go:499-500 | entries without newlines read back unchanged and in order from their Markdown list |
| Templates.MdCategoriesOnlyFirst | lib/transform.go:497-500 | when only Added has entries, the category run is the Added block alone |
| Templates.MarkdownOneEntry | lib/transform.go:491-529 | a one-release changelog with a summary and a single Added entry renders as the title, the release heading, the summary and the Added block |
| Templates.AddedBlock | lib/transform.go:497-500 | the Added block of such a release is `### Added`, a blank line and the entry |
| Stylesheets.Collect | lib/transform.go:609-621 | success exactly when every argument can be read, giving the contents in argument order; otherwise the first unreadable argument |
| Stylesheets.Load | transform.go:85-92 | the reading loop returns exactly that result |
| Stylesheets.CollectFirstFailure | lib/transform.go:615-619 | the loop stops at the first unreadable argument, whatever follows it |
| LibChangelog.ReadStdin | lib/changelog.go:81-87 | the piped contents, or the error `reading changelog from stdin` |
| LibChangelog.FindChangelog | lib/changelog.go:90-101 | the first regular file whose name matches, or an error when the directory cannot be listed or nothing matches |
| LibChangelog.ReadChangelog | lib/changelog.go:104-110 | the file's contents exactly when it can be read, otherwise an error naming it |
| LibChangelog.ParseChangelog | lib/changelog.go:113-120 | the decoder's result, with its message prefixed by `parsing changelog: ` on failure |
| LibChangelog.Help | lib/changelog.go:123-127 | prints the help text and a newline, and exits with status 0 |
| LibChangelog.IsPiped | lib/changelog.go:72-78 | standard input is piped (not a terminal) |
| LibTransform.ReadArgument | lib/transform.go:610-620 | `style` reads as the empty stylesheet, because the local byte slice shadows the package's one; any other argument is a file path |
| LibTransform.ToHtml | lib/transform.go:608-633 | fails exactly when some argument other than `style` cannot be read, naming the first; otherwise renders the eight-category page with `style` as an empty stylesheet |
| LibTransform.ToMarkdown | lib/transform.go:635-646 | the Markdown document is the title followed by the releases' sections |
| LibTransform.Transform | lib/transform.go:666-686 | validation first; then a missing format, `html` with the remaining arguments as stylesheets, `markdown`, or an unknown format |
| LibTransform.TransformHandler | lib/transform.go:666-686 | prints the rendering exactly when `transform` succeeds, and otherwise prints nothing and returns the error message |
| LibTransform.InvalidChangelogNeverRenders | lib/transform.go:667-669 | on an invalid changelog nothing is printed and the error is the validation message, whatever the arguments |
| RootTransform.ToHtml | transform.go:84-102 | fails exactly when some argument cannot be read, naming the first; otherwise renders the six-category page with the files' contents in order |
| RootTransform.Transform | transform.go:104-114 | the changelog check first, whose failure ends the command whatever the arguments; then a missing format, a format other than `html`, or the HTML page |
| RootTransform.RenderedOnlyWhenValid | transform.go:104-113 | a page is rendered only for a non-empty changelog whose every release passes the check, and only for the `html` format |
| RootTransform.TransformIgnoresRejectedAndNotes | transform.go:23-74 | changelogs that differ only in what the page does not show transform alike |
| RootMain.Source | changelog.go:92-118 | piped input is used if present; otherwise the first matching directory entry is read; every failure exits with status 1 and its own message: `Error reading changelog from stdin`, `Could not list current directory`, `No changelog file found`, or `Error reading changelog file '…'` followed by two newlines |
| RootMain.PipedInputWins | changelog.go:93-101 | with piped input the directory listing and the files are never consulted |
| RootMain.ReadChangelog | changelog.go:92-118 | the loop over the directory entries returns exactly that source |
| RootMain.Run | changelog.go:135-167 | no argument runs Help without reading; otherwise a read failure, a decode failure (status 2) or the dispatch of the decoded changelog |
| RootMain.Dispatch | changelog.go:143-166 | after decoding: a bad shift prints `Bad shift '…'` and exits 1, a negative shift or a missing command panics, an unknown name exits 1, and otherwise the named handler is called |
| RootMain.UnknownCommand | changelog.go:160-166 | a name that is not in the command table prints `Command '...' unknown` and exits with status 1 |
| CmdMain.PrintError | cmd/changelog.go:14-19 | exits with status 1, prints nothing on standard output and writes exactly `ERROR: ` and the message, with no newline, to standard error |
| CmdMain.Source | cmd/changelog.go:28-38 | piped input is read if present; otherwise the library finds and reads the changelog file |
| CmdMain.Handle | lib/changelog.go:15-19 | calls the handler the library's command table names: `Help`, the `release` parameter, or `transform` |
| CmdMain.Dispatch | cmd/changelog.go:41-64 | after decoding: shift and lookup as in the root revision, then the handler's outcome through `Finish` |
| CmdMain.Finish | cmd/changelog.go:58-60 | a handler that returns ends the process with status 0 whatever error it returns; one that exits keeps its status |
| CmdMain.Run | cmd/changelog.go:21-65 | no argument prints the help text; any read or decode error goes through printError; otherwise the decoded changelog is dispatched |
| CmdMain.FailedTransformExitsZero | cmd/changelog.go:58-60 | a `to` command whose transform fails prints nothing and exits with status 0 |
| CmdMain.NextDropsLatest | cmd/changelog.go:42-53 | `next CMD …` behaves as `CMD …` on the changelog without its latest release |

## Left out

- YAML decoding (`yaml.Unmarshal`) is a function parameter. The model does not state how a document maps to releases.
- Reading standard input, listing the directory and reading files are values in `Environment.Env`. Failures are reduced to "cannot be read" or "cannot be listed". `filepath.Clean` in the library's `toHTML` is not applied to the path.
- The operating system's reason for an unreadable stylesheet, which ends the library's `Error loading Stylesheet` message, is not part of `LibTransform.TransformMessage`.
- Template execution errors (`Error processing template`) are not modelled. Templates are string-building functions and the data always fits them. A partial write before such an error is not modelled either.
- The package-level default stylesheet (lib/transform.go:97) is never reached, because of the shadowing described above, so its text is not part of this model.
- Strings are sequences of characters, not UTF-8 bytes. A release field containing multi-byte characters is one character per code point here.
- The handlers of the root revision's command table are not called from `RootMain.Run`. In that revision `release` returns an error, `transform` takes a pointer, and `Command` has no result, so the calls do not agree. `Run` stops at the handler it would call (`RootMain.Outcome.Invoke`). `release` and `transform` are modelled on their own (`ReleaseCheck.RunRelease`, `RootTransform.Transform`).
- RootTransform.Transform: the `checkChangelog` that transform.go:105 calls takes a `*Changelog`, so it belongs to a revision whose definition is not part of this model. The model takes it to apply the rules of release.go and, as the root revision's other errors do, to end the command on a failure (`CheckFailed`). Its message and exit status are not modelled.
- The exit statuses and messages of the root `transform` (`Error`/`Errorf` with `ERROR_TRANSFORM`) are not modelled; its errors are the values of `RootTransform.TransformError`.
- lib/release.go is not part of this model. The library's `release` handler is a parameter of `CmdMain.Run`, and the library's `checkChangelog` is taken to be the one of release.go.
- The `release to` output is `Templates.MdTemplateRelease` of the latest release. `releaseToMarkdown` is called from release.go:66 but defined at lib/transform.go:648, and its template error is not modelled.
- The clock is the parameter `now`. Time zones and the Go calendar's limits are not modelled.
- ReleaseCheck.DateCheck: states the "always fails on a rejected date" half only for a clock year in 0..9999 with month and day below 100. Outside that range the rendered date cannot match the pattern anyway (`DateGrammar.FormatDateOutOfRange`).
