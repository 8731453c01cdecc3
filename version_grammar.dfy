/**
 * The release version pattern of release.go:
 *   ^\d+(\.\d+)*(-(SNAPSHOT|ALPHA|BETA|RC|snapshot|alpha|beta|rc)(-\d+)?)?$
 * stated twice: once as the language the pattern denotes (each concatenation
 * an existential split, as the pattern is written) and once as a hand-coded
 * left-to-right recognizer; the two are proved to accept the same strings.
 * Despite the program's error message this is not Semantic Versioning: any
 * number of numeric components is accepted and the pre-release word is fixed.
 */
module VersionGrammar {
  import opened Decimal

  /** The pre-release words, each wholly upper-case or wholly lower-case. */
  const Suffixes: set<string> :=
    {"SNAPSHOT", "ALPHA", "BETA", "RC", "snapshot", "alpha", "beta", "rc"}

  // ---------------------------------------------------------------------
  // The language of the pattern.

  /** `\d+(\.\d+)*`: digit runs joined by single dots. */
  ghost predicate DottedNumber(s: string)
    decreases |s|
  {
    || IsDigitRun(s)
    || exists i :: 0 < i < |s| && s[i] == '.' && IsDigitRun(s[..i]) && DottedNumber(s[i + 1..])
  }

  /** `(-(SUFFIX)(-\d+)?)?`: nothing, or a dash, a word and an optional dashed number. */
  ghost predicate SuffixPart(t: string)
  {
    || t == []
    || (&& t[0] == '-'
        && exists j :: 1 <= j <= |t| && t[1..j] in Suffixes
                       && (j == |t| || (t[j] == '-' && IsDigitRun(t[j + 1..]))))
  }

  /** The whole anchored pattern: a dotted number followed by a suffix part. */
  ghost predicate VersionLanguage(s: string)
  {
    exists k :: 0 <= k <= |s| && DottedNumber(s[..k]) && SuffixPart(s[k..])
  }

  // ---------------------------------------------------------------------
  // The recognizer.

  /** The length of the longest all-digit prefix of `s`. */
  function DigitPrefix(s: string): (n: nat)
    ensures n <= |s|
    ensures forall i :: 0 <= i < n ==> IsDigit(s[i])
    ensures n < |s| ==> !IsDigit(s[n])
  {
    if |s| > 0 && IsDigit(s[0]) then 1 + DigitPrefix(s[1..]) else 0
  }

  /** The index of the first '-' in `s`, or `|s|` when there is none. */
  function DashIndex(s: string): (n: nat)
    ensures n <= |s|
    ensures forall i :: 0 <= i < n ==> s[i] != '-'
    ensures n < |s| ==> s[n] == '-'
  {
    if |s| == 0 || s[0] == '-' then 0 else 1 + DashIndex(s[1..])
  }

  /** Reads a digit run, then either stops at the end or needs a dot and another dotted number. */
  function IsDottedNumber(s: string): bool
    decreases |s|
  {
    var n := DigitPrefix(s);
    n > 0 && (n == |s| || (s[n] == '.' && IsDottedNumber(s[n + 1..])))
  }

  /** Reads the optional `-WORD[-N]` tail; the word ends at the next dash. */
  function IsSuffixPart(t: string): bool
  {
    if t == [] then true
    else
      t[0] == '-' &&
      var u := t[1..];
      var w := DashIndex(u);
      u[..w] in Suffixes && (w == |u| || IsDigitRun(u[w + 1..]))
  }

  /** A version is a dotted number up to the first dash and a suffix part from there on. */
  function IsValidVersion(s: string): bool
  {
    var k := DashIndex(s);
    IsDottedNumber(s[..k]) && IsSuffixPart(s[k..])
  }

  // ---------------------------------------------------------------------
  // The recognizer accepts exactly the language of the pattern.

  /** No dotted number contains a dash, so the number part ends at the first dash. */
  lemma {:induction false} DottedNumberHasNoDash(s: string)
    requires DottedNumber(s)
    ensures forall i :: 0 <= i < |s| ==> s[i] != '-'
    decreases |s|
  {
    if !IsDigitRun(s) {
      var i :| 0 < i < |s| && s[i] == '.' && IsDigitRun(s[..i]) && DottedNumber(s[i + 1..]);
      DottedNumberHasNoDash(s[i + 1..]);
      forall j | 0 <= j < |s| ensures s[j] != '-' {
        if j < i { assert s[j] == s[..i][j]; }
        else if j > i { assert s[j] == s[i + 1..][j - i - 1]; }
      }
    }
  }

  /** The digit prefix of a string that starts with a digit run and then a non-digit ends there. */
  lemma DigitPrefixAt(s: string, i: nat)
    requires i <= |s|
    requires forall j :: 0 <= j < i ==> IsDigit(s[j])
    requires i < |s| ==> !IsDigit(s[i])
    ensures DigitPrefix(s) == i
  {
  }

  lemma {:induction false} IsDottedNumberSound(s: string)
    requires IsDottedNumber(s)
    ensures DottedNumber(s)
    decreases |s|
  {
    var n := DigitPrefix(s);
    if n < |s| {
      IsDottedNumberSound(s[n + 1..]);
      assert IsDigitRun(s[..n]);
      assert 0 < n < |s| && s[n] == '.' && IsDigitRun(s[..n]) && DottedNumber(s[n + 1..]);
    } else {
      assert IsDigitRun(s);
    }
  }

  lemma {:induction false} IsDottedNumberComplete(s: string)
    requires DottedNumber(s)
    ensures IsDottedNumber(s)
    decreases |s|
  {
    if IsDigitRun(s) {
      DigitPrefixAt(s, |s|);
    } else {
      var i :| 0 < i < |s| && s[i] == '.' && IsDigitRun(s[..i]) && DottedNumber(s[i + 1..]);
      forall j | 0 <= j < i ensures IsDigit(s[j]) { assert s[j] == s[..i][j]; }
      DigitPrefixAt(s, i);
      IsDottedNumberComplete(s[i + 1..]);
    }
  }

  /** The dotted-number recognizer accepts exactly `\d+(\.\d+)*`. */
  lemma DottedNumberCorrect(s: string)
    ensures IsDottedNumber(s) <==> DottedNumber(s)
  {
    if IsDottedNumber(s) { IsDottedNumberSound(s); }
    if DottedNumber(s) { IsDottedNumberComplete(s); }
  }

  /** No pre-release word contains a dash. */
  lemma SuffixesHaveNoDash(w: string)
    requires w in Suffixes
    ensures forall i :: 0 <= i < |w| ==> w[i] != '-'
  {
  }

  /** The suffix recognizer accepts exactly `(-(SUFFIX)(-\d+)?)?`. */
  lemma SuffixPartCorrect(t: string)
    ensures IsSuffixPart(t) <==> SuffixPart(t)
  {
    if t != [] && t[0] == '-' {
      var u := t[1..];
      var w := DashIndex(u);
      if IsSuffixPart(t) {
        assert t[1..w + 1] == u[..w];
        if w < |u| {
          assert t[w + 1] == '-' && t[w + 2..] == u[w + 1..];
        }
        assert 1 <= w + 1 <= |t| && t[1..w + 1] in Suffixes
               && (w + 1 == |t| || (t[w + 1] == '-' && IsDigitRun(t[w + 2..])));
      }
      if SuffixPart(t) {
        var j :| 1 <= j <= |t| && t[1..j] in Suffixes
                 && (j == |t| || (t[j] == '-' && IsDigitRun(t[j + 1..])));
        SuffixesHaveNoDash(t[1..j]);
        forall i | 0 <= i < j - 1 ensures u[i] != '-' { assert u[i] == t[1..j][i]; }
        assert w == j - 1;
        assert u[..w] == t[1..j];
        if j < |t| { assert u[w + 1..] == t[j + 1..]; }
      }
    }
  }

  /**
   * The recognizer accepts a string exactly when the pattern of release.go
   * matches it: splitting at the first dash is the only split that can work.
   */
  lemma VersionCorrect(s: string)
    ensures IsValidVersion(s) <==> VersionLanguage(s)
  {
    var k := DashIndex(s);
    DottedNumberCorrect(s[..k]);
    SuffixPartCorrect(s[k..]);
    if VersionLanguage(s) {
      var m :| 0 <= m <= |s| && DottedNumber(s[..m]) && SuffixPart(s[m..]);
      DottedNumberHasNoDash(s[..m]);
      forall i | 0 <= i < m ensures s[i] != '-' { assert s[i] == s[..m][i]; }
      if m < |s| { assert s[m..][0] == s[m]; }
      assert m == k;
    }
  }

  // ---------------------------------------------------------------------
  // The accept and reject examples of changelog_test.go.

  /** A dotted number, a dash-free prefix, followed by a suffix part, is a version. */
  lemma VersionFromParts(core: string, tail: string)
    requires IsDottedNumber(core) && IsSuffixPart(tail)
    requires forall i :: 0 <= i < |core| ==> core[i] != '-'
    requires tail == [] || tail[0] == '-'
    ensures IsValidVersion(core + tail)
  {
    var s := core + tail;
    assert DashIndex(s) == |core| by {
      forall i | 0 <= i < |core| ensures s[i] != '-' { assert s[i] == core[i]; }
      if tail != [] { assert s[|core|] == tail[0]; }
    }
    assert s[..|core|] == core && s[|core|..] == tail;
  }

  /** `-WORD` and `-WORD-N` are suffix parts for every pre-release word. */
  lemma SuffixFromParts(w: string, n: string)
    requires w in Suffixes
    requires n == [] || IsDigitRun(n)
    ensures n == [] ==> IsSuffixPart("-" + w)
    ensures n != [] ==> IsSuffixPart("-" + w + "-" + n)
  {
    var t := if n == [] then "-" + w else "-" + w + "-" + n;
    var u := t[1..];
    SuffixesHaveNoDash(w);
    assert DashIndex(u) == |w| by {
      forall i | 0 <= i < |w| ensures u[i] != '-' { assert u[i] == w[i]; }
      if n != [] { assert u[|w|] == '-'; }
    }
    assert u[..|w|] == w;
    if n != [] { assert u[|w| + 1..] == n; }
  }

  lemma Example123()
    ensures IsDottedNumber("1.2.3")
  {
    DigitPrefixAt("3", 1);
    DigitPrefixAt("2.3", 1);
    assert "2.3"[2..] == "3";
    DigitPrefixAt("1.2.3", 1);
    assert "1.2.3"[2..] == "2.3";
  }

  lemma AcceptedVersion123()
    ensures IsValidVersion("1.2.3")
  {
    Example123();
    VersionFromParts("1.2.3", "");
    assert "1.2.3" + "" == "1.2.3";
  }

  lemma AcceptedVersion1()
    ensures IsValidVersion("1")
  {
    DigitPrefixAt("1", 1);
    VersionFromParts("1", "");
    assert "1" + "" == "1";
  }

  lemma AcceptedVersion12()
    ensures IsValidVersion("1.2")
  {
    DigitPrefixAt("2", 1);
    DigitPrefixAt("1.2", 1);
    assert "1.2"[2..] == "2";
    VersionFromParts("1.2", "");
    assert "1.2" + "" == "1.2";
  }

  lemma AcceptedVersion100()
    ensures IsValidVersion("100.200.300")
  {
    DigitPrefixAt("300", 3);
    DigitPrefixAt("200.300", 3);
    assert "200.300"[4..] == "300";
    DigitPrefixAt("100.200.300", 3);
    assert "100.200.300"[4..] == "200.300";
    VersionFromParts("100.200.300", "");
    assert "100.200.300" + "" == "100.200.300";
  }

  /** `1.2.3-WORD` for every pre-release word, in both cases. */
  lemma AcceptedSuffixedVersion(w: string)
    requires w in Suffixes
    ensures IsValidVersion("1.2.3-" + w)
  {
    Example123();
    SuffixFromParts(w, "");
    VersionFromParts("1.2.3", "-" + w);
    assert "1.2.3" + ("-" + w) == "1.2.3-" + w;
  }

  /** `1.2.3-WORD-1` for every pre-release word, in both cases. */
  lemma AcceptedNumberedVersion(w: string)
    requires w in Suffixes
    ensures IsValidVersion("1.2.3-" + w + "-1")
  {
    Example123();
    SuffixFromParts(w, "1");
    assert "-" + w + "-" + "1" == "-" + w + "-1";
    VersionFromParts("1.2.3", "-" + w + "-1");
    assert "1.2.3" + ("-" + w + "-1") == "1.2.3-" + w + "-1";
  }

  lemma RejectedEmptyVersion()
    ensures !IsValidVersion("")
  {
    assert DigitPrefix("") == 0;
  }

  lemma RejectedLeadingSpace()
    ensures !IsValidVersion(" 1.2.3")
  {
    assert " 1.2.3"[..6] == " 1.2.3";
    DigitPrefixAt(" 1.2.3", 0);
  }

  lemma RejectedTrailingSpace()
    ensures !IsValidVersion("1.2.3 ")
  {
    DigitPrefixAt("3 ", 1);
    DigitPrefixAt("2.3 ", 1);
    assert "2.3 "[2..] == "3 ";
    DigitPrefixAt("1.2.3 ", 1);
    assert "1.2.3 "[2..] == "2.3 ";
    assert "1.2.3 "[..6] == "1.2.3 ";
  }

  lemma RejectedTrailingDash()
    ensures !IsValidVersion("1.2.3-")
  {
    RejectedTail("-");
    assert "1.2.3" + "-" == "1.2.3-";
  }

  lemma RejectedDanglingBuildDash()
    ensures !IsValidVersion("1.2.3-ALPHA-")
  {
    var u := "ALPHA-";
    assert DashIndex(u) == 5 && u[..5] == "ALPHA" && u[6..] == [];
    assert "-ALPHA-"[1..] == u;
    RejectedTail("-ALPHA-");
    assert "1.2.3" + "-ALPHA-" == "1.2.3-ALPHA-";
  }

  lemma RejectedUnknownWord()
    ensures !IsValidVersion("1.2.3-X")
  {
    assert DashIndex("X") == 1 && "X"[..1] == "X";
    assert "-X"[1..] == "X";
    RejectedTail("-X");
    assert "1.2.3" + "-X" == "1.2.3-X";
  }

  lemma RejectedNonNumericBuild()
    ensures !IsValidVersion("1.2.3-ALPHA-X")
  {
    var u := "ALPHA-X";
    assert DashIndex(u) == 5 && u[..5] == "ALPHA" && u[6..] == "X";
    assert !IsDigitRun("X") by { assert "X"[0] == 'X'; }
    assert "-ALPHA-X"[1..] == u;
    RejectedTail("-ALPHA-X");
    assert "1.2.3" + "-ALPHA-X" == "1.2.3-ALPHA-X";
  }

  /** A pre-release word in mixed case is not one of the eight words. */
  lemma RejectedMixedCase()
    ensures !IsValidVersion("1.2.3-Alpha")
  {
    var u := "Alpha";
    assert DashIndex(u) == 5 && u[..5] == u;
    assert u[1] == 'l' && u[0] == 'A';
    assert u !in Suffixes;
    assert "-Alpha"[1..] == u;
    RejectedTail("-Alpha");
    assert "1.2.3" + "-Alpha" == "1.2.3-Alpha";
  }

  /** `1.2.3` followed by a dashed tail that is not a suffix part is rejected. */
  lemma RejectedTail(tail: string)
    requires |tail| > 0 && tail[0] == '-'
    requires !IsSuffixPart(tail)
    ensures !IsValidVersion("1.2.3" + tail)
  {
    var s := "1.2.3" + tail;
    assert DashIndex(s) == 5 by {
      forall i | 0 <= i < 5 ensures s[i] != '-' { assert s[i] == "1.2.3"[i]; }
      assert s[5] == tail[0];
    }
    assert s[5..] == tail;
  }

  /**
   * Any dotted number followed by a dashed tail that is not a suffix part is
   * rejected: the number cannot absorb the dash, so the tail is what the
   * suffix check sees.
   */
  lemma RejectedAfterNumber(n: string, tail: string)
    requires IsDottedNumber(n)
    requires |tail| > 0 && tail[0] == '-'
    requires !IsSuffixPart(tail)
    ensures !IsValidVersion(n + tail)
  {
    IsDottedNumberSound(n);
    DottedNumberHasNoDash(n);
    var s := n + tail;
    assert DashIndex(s) == |n| by {
      forall i | 0 <= i < |n| ensures s[i] != '-' { assert s[i] == n[i]; }
      assert s[|n|] == tail[0];
    }
    assert s[|n|..] == tail;
  }
}
