/**
 * The output of the program's text templates, written as string-building
 * functions over the decoded changelog. Go's text/template inserts values
 * verbatim (no escaping), and every newline around an action in a template
 * is literal text, so the functions below reproduce those newlines exactly.
 *
 * The category lists are rendered from the (heading, list) pairs of
 * ChangelogModel, in their fixed order; a category is emitted only when its
 * list is non-empty.
 */
module Templates {
  import opened Wrappers
  import opened ChangelogModel

  // ---------------------------------------------------------------------
  // HTML (lib/transform.go HTMLTemplate; transform.go HTML_TEMPLATE).

  /** `{{ range $entry := .X }}\n<li>{{ . }}</li>\n{{ end }}` */
  function HtmlItems(entries: seq<string>): string
  {
    if entries == [] then "" else "\n<li>" + entries[0] + "</li>\n" + HtmlItems(entries[1..])
  }

  /** `{{ if .X }}\n<h3>X</h3>\n<ul>\n…\n</ul>\n{{ end }}` */
  function HtmlCategory(heading: string, entries: seq<string>): string
  {
    if entries == [] then "" else "\n<h3>" + heading + "</h3>\n<ul>\n" + HtmlItems(entries) + "\n</ul>\n"
  }

  /** Each category block is followed by the newline that separates the `{{ if }}` actions. */
  function HtmlCategories(headings: seq<string>, lists: seq<seq<string>>): string
    requires |headings| == |lists|
  {
    if lists == [] then ""
    else HtmlCategory(headings[0], lists[0]) + "\n" + HtmlCategories(headings[1..], lists[1..])
  }

  /** One release: heading, summary paragraph (even when empty) and its first `n` categories. */
  function HtmlRelease(r: Release, n: nat): string
    requires n <= |CategoryLabels|
  {
    "\n<h2>Release " + r.version + " (" + r.date + ")</h2>\n<p>" + r.summary + "</p>\n"
    + HtmlCategories(CategoryLabels[..n], Categories(r)[..n])
  }

  function HtmlReleases(changelog: Changelog, n: nat): string
    requires n <= |CategoryLabels|
  {
    if changelog == [] then "" else HtmlRelease(changelog[0], n) + HtmlReleases(changelog[1..], n)
  }

  /** One `<style>` block per stylesheet, in order. */
  function HtmlStyles(stylesheets: seq<string>): string
  {
    if stylesheets == [] then ""
    else "\n<style type=\"text/css\">\n" + stylesheets[0] + "\n</style>\n" + HtmlStyles(stylesheets[1..])
  }

  /** The HTML page both revisions render, given its title and how many categories it shows. */
  function HtmlDocument(title: string, n: nat, stylesheets: seq<string>, changelog: Changelog): string
    requires n <= |CategoryLabels|
  {
    "<!DOCTYPE html>\n<html>\n<head>\n<title>" + title + "</title>\n<meta charset=\"utf-8\">\n"
    + HtmlStyles(stylesheets)
    + "\n</head>\n<body>\n<h1>" + title + "</h1>\n"
    + HtmlReleases(changelog, n)
    + "\n</body>\n</html>"
  }

  /** HTMLTemplate of lib/transform.go: title "Changelog", all eight categories. */
  function HtmlTemplate(stylesheets: seq<string>, changelog: Changelog): string
  {
    HtmlDocument("Changelog", 8, stylesheets, changelog)
  }

  /** HTML_TEMPLATE of transform.go: title "Change Log", Added through Security only. */
  function HtmlTemplateSix(stylesheets: seq<string>, changelog: Changelog): string
  {
    HtmlDocument("Change Log", 6, stylesheets, changelog)
  }

  // ---------------------------------------------------------------------
  // Markdown (lib/transform.go MdTemplate, MdTemplateRelease, MdTemplateDescription).

  /** `{{ range $entry := .X }}- {{ . }}\n{{ end }}` */
  function MdItems(entries: seq<string>): string
  {
    if entries == [] then "" else "- " + entries[0] + "\n" + MdItems(entries[1..])
  }

  /**
   * The category blocks at heading level `level` ("#" or "###"). Every block
   * but the first (Added) starts with the newline that follows the previous
   * `{{ end }}` in the template, whether or not the previous block was emitted.
   */
  function MdCategories(level: string, headings: seq<string>, lists: seq<seq<string>>, first: bool): string
    requires |headings| == |lists|
  {
    if lists == [] then ""
    else MdCategory(level, headings[0], lists[0], first) + MdCategories(level, headings[1..], lists[1..], false)
  }

  function MdCategory(level: string, heading: string, entries: seq<string>, first: bool): string
  {
    if entries == [] then ""
    else (if first then "" else "\n") + level + " " + heading + "\n\n" + MdItems(entries)
  }

  /** `{{ if .Summary }}{{ .Summary }}{{ end }}` */
  function MdSummary(r: Release): string
  {
    if r.summary != "" then r.summary else ""
  }

  /** One release of the whole-changelog template: level-2 release heading, level-3 categories. */
  function MdReleaseSection(r: Release): string
  {
    "## Release " + r.version + " (" + r.date + ")\n\n" + MdSummary(r) + "\n\n"
    + MdCategories("###", CategoryLabels, Categories(r), true) + "\n"
  }

  function MdReleaseSections(changelog: Changelog): string
  {
    if changelog == [] then "" else MdReleaseSection(changelog[0]) + MdReleaseSections(changelog[1..])
  }

  /** MdTemplate: the whole changelog. */
  function MdTemplate(changelog: Changelog): string
  {
    "# Changelog\n\n" + MdReleaseSections(changelog)
  }

  /** MdTemplateRelease: one release, no release heading, level-1 categories. */
  function MdTemplateRelease(r: Release): (md: string)
    ensures md == MdSummary(r) + "\n\n" + MdTemplateDescription(r)
  {
    MdSummary(r) + "\n\n" + MdCategories("#", CategoryLabels, Categories(r), true)
  }

  /** MdTemplateDescription: MdTemplateRelease without the summary line. */
  function MdTemplateDescription(r: Release): (md: string)
    ensures md == "" <==> forall i :: 0 <= i < |Categories(r)| ==> Categories(r)[i] == []
  {
    MdCategoriesEmpty("#", CategoryLabels, Categories(r), true);
    MdCategories("#", CategoryLabels, Categories(r), true)
  }

  // ---------------------------------------------------------------------
  // Properties of the renderings.

  /** The whole-changelog Markdown is the concatenation of the releases' sections, in order. */
  lemma {:induction false} MdReleaseSectionsAppend(a: Changelog, b: Changelog)
    ensures MdReleaseSections(a + b) == MdReleaseSections(a) + MdReleaseSections(b)
  {
    if a != [] {
      assert (a + b)[0] == a[0];
      assert (a + b)[1..] == a[1..] + b;
      MdReleaseSectionsAppend(a[1..], b);
    } else {
      assert a + b == b;
    }
  }

  /** The HTML release list is the concatenation of the releases' blocks, in order. */
  lemma {:induction false} HtmlReleasesAppend(a: Changelog, b: Changelog, n: nat)
    requires n <= |CategoryLabels|
    ensures HtmlReleases(a + b, n) == HtmlReleases(a, n) + HtmlReleases(b, n)
  {
    if a != [] {
      assert (a + b)[0] == a[0];
      assert (a + b)[1..] == a[1..] + b;
      HtmlReleasesAppend(a[1..], b, n);
    } else {
      assert a + b == b;
    }
  }

  /** Stylesheets appear in the page in the order they were given. */
  lemma {:induction false} HtmlStylesAppend(a: seq<string>, b: seq<string>)
    ensures HtmlStyles(a + b) == HtmlStyles(a) + HtmlStyles(b)
  {
    if a != [] {
      assert (a + b)[0] == a[0];
      assert (a + b)[1..] == a[1..] + b;
      HtmlStylesAppend(a[1..], b);
    } else {
      assert a + b == b;
    }
  }

  /** A run of category blocks is empty exactly when every list in it is empty. */
  lemma {:induction false} MdCategoriesEmpty(level: string, headings: seq<string>, lists: seq<seq<string>>, first: bool)
    requires |headings| == |lists|
    ensures MdCategories(level, headings, lists, first) == "" <==> forall i :: 0 <= i < |lists| ==> lists[i] == []
  {
    if lists != [] {
      MdCategoriesEmpty(level, headings[1..], lists[1..], false);
      if lists[0] != [] {
        assert |MdCategory(level, headings[0], lists[0], first)| > 0;
      }
      assert forall i :: 1 <= i < |lists| ==> lists[i] == lists[1..][i - 1];
    }
  }

  /** The same for the HTML category blocks, which are always followed by their separating newline. */
  lemma {:induction false} HtmlCategoriesLength(headings: seq<string>, lists: seq<seq<string>>)
    requires |headings| == |lists|
    ensures |HtmlCategories(headings, lists)| >= |lists|
    ensures |HtmlCategories(headings, lists)| == |lists| <==> forall i :: 0 <= i < |lists| ==> lists[i] == []
  {
    if lists != [] {
      HtmlCategoriesLength(headings[1..], lists[1..]);
      assert forall i :: 1 <= i < |lists| ==> lists[i] == lists[1..][i - 1];
    }
  }

  /** Releases that agree on everything but Rejected and Notes render alike in the six-category page. */
  lemma SixCategoryReleaseIgnoresRejectedAndNotes(r: Release, s: Release)
    requires r.version == s.version && r.date == s.date && r.summary == s.summary
    requires r.added == s.added && r.changed == s.changed && r.deprecated == s.deprecated
    requires r.removed == s.removed && r.fixed == s.fixed && r.security == s.security
    ensures HtmlRelease(r, 6) == HtmlRelease(s, 6)
  {
    assert Categories(r)[..6] == Categories(s)[..6];
  }

  /** Hence the whole six-category page is blind to Rejected and Notes. */
  lemma {:induction false} SixCategoryPageIgnoresRejectedAndNotes(a: Changelog, b: Changelog)
    requires |a| == |b|
    requires forall i :: 0 <= i < |a| ==>
      a[i].version == b[i].version && a[i].date == b[i].date && a[i].summary == b[i].summary
      && a[i].added == b[i].added && a[i].changed == b[i].changed && a[i].deprecated == b[i].deprecated
      && a[i].removed == b[i].removed && a[i].fixed == b[i].fixed && a[i].security == b[i].security
    ensures HtmlReleases(a, 6) == HtmlReleases(b, 6)
  {
    if a != [] {
      SixCategoryReleaseIgnoresRejectedAndNotes(a[0], b[0]);
      SixCategoryPageIgnoresRejectedAndNotes(a[1..], b[1..]);
    }
  }

  /** The index of the first newline in `s` at or after `i`, or |s| when there is none. */
  function LineEnd(s: string, i: nat): (k: nat)
    requires i <= |s|
    ensures i <= k <= |s|
    ensures forall j :: i <= j < k ==> s[j] != '\n'
    ensures k < |s| ==> s[k] == '\n'
    decreases |s| - i
  {
    if i == |s| || s[i] == '\n' then i else LineEnd(s, i + 1)
  }

  /** Reads back a Markdown entry list: lines of the form "- entry". */
  function ParseMdItems(s: string): (r: Option<seq<string>>)
    ensures r.Some? && r.value != [] ==> |s| >= 3 && s[..2] == "- "
    decreases |s|
  {
    if s == [] then Some([])
    else if |s| < 2 || s[..2] != "- " then None
    else
      var k := LineEnd(s, 2);
      if k == |s| then None
      else match ParseMdItems(s[k + 1..])
        case None => None
        case Some(rest) => Some([s[2..k]] + rest)
  }

  /** Entries without newlines survive a Markdown rendering unchanged and in order. */
  lemma {:induction false} MdItemsRoundTrip(entries: seq<string>)
    requires forall i :: 0 <= i < |entries| ==> '\n' !in entries[i]
    ensures ParseMdItems(MdItems(entries)) == Some(entries)
  {
    if entries != [] {
      var e := entries[0];
      var rest := MdItems(entries[1..]);
      var s := MdItems(entries);
      assert s == "- " + e + "\n" + rest;
      assert s[..2] == "- ";
      assert forall j :: 2 <= j < 2 + |e| ==> s[j] == e[j - 2];
      assert s[2 + |e|] == '\n';
      LineEndAt(s, 2, 2 + |e|);
      assert s[2..2 + |e|] == e;
      assert s[2 + |e| + 1..] == rest;
      MdItemsRoundTrip(entries[1..]);
      assert [e] + entries[1..] == entries;
    }
  }

  /** LineEnd finds the first newline. */
  lemma {:induction false} LineEndAt(s: string, i: nat, k: nat)
    requires i <= k < |s| && s[k] == '\n'
    requires forall j :: i <= j < k ==> s[j] != '\n'
    ensures LineEnd(s, i) == k
    decreases k - i
  {
    if i < k {
      LineEndAt(s, i + 1, k);
    }
  }

  /** Only the first category has entries: the run is that block alone. */
  lemma MdCategoriesOnlyFirst(level: string, headings: seq<string>, lists: seq<seq<string>>)
    requires |headings| == |lists| > 0
    requires forall i :: 1 <= i < |lists| ==> lists[i] == []
    ensures MdCategories(level, headings, lists, true) == MdCategory(level, headings[0], lists[0], true)
  {
    assert forall i :: 0 <= i < |lists[1..]| ==> lists[1..][i] == [];
    MdCategoriesEmpty(level, headings[1..], lists[1..], false);
  }

  /**
   * A one-release changelog whose only entry is one Added item renders as
   * the title, the release heading, the summary, and the Added block.
   */
  lemma MarkdownOneEntry(r: Release, entry: string)
    requires r.summary != "" && r.added == [entry]
    requires r.changed == r.deprecated == r.removed == r.fixed == r.security == r.rejected == r.notes == []
    ensures MdTemplate([r])
            == "# Changelog\n\n"
               + ("## Release " + r.version + " (" + r.date + ")\n\n" + r.summary + "\n\n"
                  + ("### Added\n\n- " + entry + "\n") + "\n")
  {
    var block := AddedBlock(r, entry);
    var section := MdReleaseSection(r);
    assert section == "## Release " + r.version + " (" + r.date + ")\n\n" + r.summary + "\n\n" + block + "\n";
    assert MdReleaseSections([r]) == section + MdReleaseSections([]);
    assert MdTemplate([r]) == "# Changelog\n\n" + section;
  }

  /** The category run of a release whose only entry is one Added item. */
  lemma AddedBlock(r: Release, entry: string) returns (block: string)
    requires r.added == [entry]
    requires r.changed == r.deprecated == r.removed == r.fixed == r.security == r.rejected == r.notes == []
    ensures block == "### Added\n\n- " + entry + "\n"
    ensures MdCategories("###", CategoryLabels, Categories(r), true) == block
  {
    MdCategoriesOnlyFirst("###", CategoryLabels, Categories(r));
    assert MdItems([entry]) == "- " + entry + "\n" + MdItems([]);
    block := "### Added\n\n- " + entry + "\n";
  }
}
