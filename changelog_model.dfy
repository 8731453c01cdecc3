/**
 * The decoded document: a changelog is a sequence of releases, newest first,
 * and every release carries eight categorised lists of entries. The root
 * revision (changelog.go) and the library revision (lib/changelog.go) declare
 * the same record and the same command table, so both are stated once here.
 */
module ChangelogModel {
  import opened Wrappers

  /** One release of the changelog; a list the document leaves out is empty. */
  datatype Release = Release(
    version: string,
    date: string,
    summary: string,
    added: seq<string>,
    changed: seq<string>,
    deprecated: seq<string>,
    removed: seq<string>,
    fixed: seq<string>,
    security: seq<string>,
    rejected: seq<string>,
    notes: seq<string>)

  /** Releases in document order; index 0 is the latest. */
  type Changelog = seq<Release>

  /** The category headings, in the order every template emits them. */
  const CategoryLabels: seq<string> :=
    ["Added", "Changed", "Deprecated", "Removed", "Fixed", "Security", "Rejected", "Notes"]

  /** The eight lists of a release, in the order of CategoryLabels. */
  function Categories(r: Release): (lists: seq<seq<string>>)
    ensures |lists| == |CategoryLabels| == 8
    ensures lists[0] == r.added && lists[1] == r.changed && lists[2] == r.deprecated
    ensures lists[3] == r.removed && lists[4] == r.fixed && lists[5] == r.security
    ensures lists[6] == r.rejected && lists[7] == r.notes
  {
    [r.added, r.changed, r.deprecated, r.removed, r.fixed, r.security, r.rejected, r.notes]
  }

  /** The handlers the command table can name. */
  datatype Command = Help | ReleaseCommand | Transform

  /** The name under which the command table registers each handler. */
  function CommandName(c: Command): string
  {
    match c
    case Help => "Help"
    case ReleaseCommand => "release"
    case Transform => "to"
  }

  /** The command given when the program is called without arguments. */
  const HelpCommand: string := "Help"

  /**
   * Looking a name up in the three-entry command table; the lookup is exact,
   * so "help" or "Release" resolve to nothing.
   */
  function LookupCommand(name: string): (c: Option<Command>)
    ensures c.Some? <==> name == "Help" || name == "release" || name == "to"
    ensures c.Some? ==> CommandName(c.value) == name
  {
    if name == "Help" then Some(Help)
    else if name == "release" then Some(ReleaseCommand)
    else if name == "to" then Some(Transform)
    else None
  }

  /** Every handler is found under its own name, and under no other. */
  lemma LookupCommandName(c: Command, name: string)
    ensures LookupCommand(CommandName(c)) == Some(c)
    ensures LookupCommand(name) == Some(c) <==> name == CommandName(c)
  {
  }
}
