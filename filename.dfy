/**
 * The changelog file name pattern `^(?i)change(-|_)?log(.yml|.yaml)?$`
 * (changelog.go and lib/changelog.go declare the same one), and the search
 * for the first directory entry that is a file with such a name.
 *
 * The pattern is case-insensitive; none of its letters has a case partner
 * outside ASCII, so matching it is matching the ASCII-lowered name. Its dot
 * is unescaped and so stands for any character except a newline:
 * `changelogXyml` is accepted.
 */
module ChangelogFilename {

  function LowerChar(c: char): char
  {
    if 'A' <= c <= 'Z' then (c as int - 'A' as int + 'a' as int) as char else c
  }

  /** The name with its ASCII upper-case letters lowered. */
  function Lower(s: string): (l: string)
    ensures |l| == |s| && forall i :: 0 <= i < |s| ==> l[i] == LowerChar(s[i])
  {
    seq(|s|, i requires 0 <= i < |s| => LowerChar(s[i]))
  }

  /** `(.yml|.yaml)?` where the dot matches any character but a newline. */
  predicate IsYamlExtension(e: string)
  {
    || e == []
    || (|e| == 4 && e[0] != '\n' && e[1..] == "yml")
    || (|e| == 5 && e[0] != '\n' && e[1..] == "yaml")
  }

  /** `change(-|_)?log`: the three possible stems. */
  const Stems: set<string> := {"changelog", "change-log", "change_log"}

  /** The language of the pattern: a stem and then an extension, up to case. */
  ghost predicate FilenameLanguage(name: string)
  {
    var l := Lower(name);
    exists k :: 0 <= k <= |l| && l[..k] in Stems && IsYamlExtension(l[k..])
  }

  /** The recognizer: "change", an optional '-' or '_', "log", then an extension. */
  predicate IsChangelogFilename(name: string)
  {
    var l := Lower(name);
    && |l| >= 9
    && l[..6] == "change"
    && var rest := if l[6] == '-' || l[6] == '_' then l[7..] else l[6..];
       |rest| >= 3 && rest[..3] == "log" && IsYamlExtension(rest[3..])
  }

  /** The recognizer accepts exactly the names the pattern matches. */
  lemma FilenameCorrect(name: string)
    ensures IsChangelogFilename(name) <==> FilenameLanguage(name)
  {
    var l := Lower(name);
    if IsChangelogFilename(name) {
      var k := if l[6] == '-' || l[6] == '_' then 10 else 9;
      assert l[..k] == l[..6] + l[6..k];
      if l[6] == '-' || l[6] == '_' {
        assert l[7..10] == l[7..][..3];
      } else {
        assert l[6..9] == l[6..][..3];
      }
      if l[6] == '-' { assert l[..k] == "change-log"; }
      else if l[6] == '_' { assert l[..k] == "change_log"; }
      else { assert l[..k] == "changelog"; }
      var rest := if l[6] == '-' || l[6] == '_' then l[7..] else l[6..];
      assert rest[3..] == l[k..];
    }
    if FilenameLanguage(name) {
      var k :| 0 <= k <= |l| && l[..k] in Stems && IsYamlExtension(l[k..]);
      assert l[..6] == l[..k][..6];
      if l[..k] == "changelog" {
        assert l[6] == 'l';
        assert l[6..][..3] == l[..k][6..9];
        assert l[6..][3..] == l[k..];
      } else {
        assert l[6] == l[..k][6];
        assert l[7..][..3] == l[..k][7..10];
        assert l[7..][3..] == l[k..];
      }
    }
  }

  /** Matching ignores case: a name and its lowered form are accepted together. */
  lemma FilenameIgnoresCase(name: string)
    ensures IsChangelogFilename(name) == IsChangelogFilename(Lower(name))
  {
    assert Lower(Lower(name)) == Lower(name);
  }

  // ---------------------------------------------------------------------
  // The examples of changelog_test.go, and the unescaped dot.

  /** Lowering a literal, one character at a time. */
  lemma LowerIs(s: string, t: string)
    requires |s| == |t| && forall i :: 0 <= i < |s| ==> LowerChar(s[i]) == t[i]
    ensures Lower(s) == t
  {
  }

  lemma AcceptedUpperYml()
    ensures IsChangelogFilename("CHANGELOG.yml")
  {
    LowerIs("CHANGELOG.yml", "changelog.yml");
  }

  lemma AcceptedUpperYaml()
    ensures IsChangelogFilename("CHANGELOG.yaml")
  {
    LowerIs("CHANGELOG.yaml", "changelog.yaml");
  }

  lemma AcceptedDash()
    ensures IsChangelogFilename("CHANGE-LOG.yml")
  {
    LowerIs("CHANGE-LOG.yml", "change-log.yml");
  }

  lemma AcceptedUnderscore()
    ensures IsChangelogFilename("CHANGE_LOG.yml")
  {
    LowerIs("CHANGE_LOG.yml", "change_log.yml");
  }

  lemma AcceptedLower()
    ensures IsChangelogFilename("changelog.yml") && IsChangelogFilename("changelog.yaml")
  {
    LowerIs("changelog.yml", "changelog.yml");
    LowerIs("changelog.yaml", "changelog.yaml");
  }

  lemma RejectedSpaces()
    ensures !IsChangelogFilename("CHANGELOG.yml ") && !IsChangelogFilename(" CHANGELOG.yml")
  {
    LowerIs("CHANGELOG.yml ", "changelog.yml ");
    LowerIs(" CHANGELOG.yml", " changelog.yml");
  }

  /** The dot is not escaped: any character stands in its place, but not a newline. */
  lemma UnescapedDot()
    ensures IsChangelogFilename("changelogXyml") && IsChangelogFilename("Change_Log-YAML")
    ensures !IsChangelogFilename("changelog\nyml")
  {
    LowerIs("changelogXyml", "changelogxyml");
    LowerIs("Change_Log-YAML", "change_log-yaml");
    LowerIs("changelog\nyml", "changelog\nyml");
  }

  // ---------------------------------------------------------------------
  // Choosing a file from a directory listing.

  /** A directory entry: its name and whether it is a directory. */
  datatype Entry = Entry(name: string, isDir: bool)

  predicate IsChangelogFile(e: Entry)
  {
    !e.isDir && IsChangelogFilename(e.name)
  }

  /**
   * The first entry, in listing order (ioutil.ReadDir sorts by name), that is
   * a changelog file; `|entries|` when none is.
   */
  function FirstChangelog(entries: seq<Entry>): (i: nat)
    ensures i <= |entries|
    ensures i < |entries| ==> IsChangelogFile(entries[i])
    ensures forall j :: 0 <= j < i ==> !IsChangelogFile(entries[j])
  {
    if entries == [] then 0
    else if IsChangelogFile(entries[0]) then 0
    else 1 + FirstChangelog(entries[1..])
  }

  /** The first match is determined by the entries before it and the entry at it. */
  lemma {:induction false} FirstChangelogAt(entries: seq<Entry>, k: nat)
    requires k <= |entries|
    requires forall j :: 0 <= j < k ==> !IsChangelogFile(entries[j])
    requires k < |entries| ==> IsChangelogFile(entries[k])
    ensures FirstChangelog(entries) == k
  {
  }
}
