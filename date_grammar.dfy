/**
 * The release date pattern `^\d\d\d\d-\d\d-\d\d$` of release.go: the shape of
 * the extended calendar-date layout of ISO 8601 (YYYY-MM-DD), checked for
 * shape only, so `9999-99-99` is accepted. Its partner is the rendering of a
 * local calendar date with Go's "2006-01-02" layout, which the date check of
 * the release command compares against.
 */
module DateGrammar {
  import opened Decimal

  /** Exactly ten characters: four digits, a dash, two digits, a dash, two digits. */
  predicate IsValidDate(s: string)
  {
    && |s| == 10
    && s[4] == '-' && s[7] == '-'
    && forall i :: 0 <= i < 10 && i != 4 && i != 7 ==> IsDigit(s[i])
  }

  /** A local calendar date as the clock reports it. */
  datatype LocalDate = LocalDate(year: int, month: nat, day: nat)

  /**
   * The "2006-01-02" layout: the year zero-padded to four digits (with a
   * leading minus sign when negative), month and day zero-padded to two.
   */
  function FormatDate(d: LocalDate): string
  {
    (if d.year < 0 then "-" + Padded(-d.year, 4) else Padded(d.year, 4))
    + "-" + Padded(d.month, 2) + "-" + Padded(d.day, 2)
  }

  /** Reads the three numeric fields back out of a well-shaped date. */
  function ParseDate(s: string): (d: LocalDate)
    requires IsValidDate(s)
    ensures 0 <= d.year <= 9999 && d.month <= 99 && d.day <= 99
  {
    assert forall i :: 0 <= i < 4 ==> IsDigit(s[..4][i]);
    assert forall i :: 0 <= i < 2 ==> IsDigit(s[5..7][i]) && IsDigit(s[8..][i]);
    ValueBound(s[..4]);
    ValueBound(s[5..7]);
    ValueBound(s[8..]);
    LocalDate(Value(s[..4]), Value(s[5..7]), Value(s[8..]))
  }

  /** A digit string of length k is worth less than 10^k. */
  lemma {:induction false} ValueBound(s: string)
    requires forall i :: 0 <= i < |s| ==> IsDigit(s[i])
    ensures Value(s) < Pow10(|s|)
  {
    if |s| > 0 {
      ValueBound(s[..|s| - 1]);
    }
  }

  /**
   * Every date with a year in 0..9999 renders to a string of the accepted
   * shape, and reading that string back gives the date: the rendering is
   * injective on those dates.
   */
  lemma FormatDateRoundTrip(d: LocalDate)
    requires 0 <= d.year <= 9999 && d.month <= 99 && d.day <= 99
    ensures IsValidDate(FormatDate(d))
    ensures ParseDate(FormatDate(d)) == d
  {
    DigitsLength(d.year, 4);
    DigitsLength(d.month, 2);
    DigitsLength(d.day, 2);
    var y, m, dd := Padded(d.year, 4), Padded(d.month, 2), Padded(d.day, 2);
    var s := FormatDate(d);
    assert s == y + "-" + m + "-" + dd;
    assert s[..4] == y && s[5..7] == m && s[8..] == dd;
    forall i | 0 <= i < 10 && i != 4 && i != 7 ensures IsDigit(s[i]) {
      if i < 4 { assert s[i] == y[i]; }
      else if i < 7 { assert s[i] == m[i - 5]; }
      else { assert s[i] == dd[i - 8]; }
    }
    PaddedValue(d.year, 4);
    PaddedValue(d.month, 2);
    PaddedValue(d.day, 2);
  }

  /**
   * A clock year outside 0..9999 renders to a string the pattern rejects,
   * so no release date can ever equal it.
   */
  lemma FormatDateOutOfRange(d: LocalDate)
    requires d.year < 0 || d.year > 9999
    ensures !IsValidDate(FormatDate(d))
  {
    var s := FormatDate(d);
    if d.year < 0 {
      assert s[0] == '-';
    } else {
      DigitsAtLeast(d.year, 4);
      assert |s| == |Padded(d.year, 4)| + 1 + |Padded(d.month, 2)| + 1 + |Padded(d.day, 2)|;
    }
  }

  /** A number of at least 10^k needs more than k digits. */
  lemma {:induction false} DigitsAtLeast(n: nat, k: nat)
    requires n >= Pow10(k)
    ensures |Digits(n)| > k
  {
    if k > 0 {
      DigitsAtLeast(n / 10, k - 1);
    }
  }

  // The accept and reject examples of changelog_test.go, and the shape-only check.

  lemma AcceptedDates()
    ensures IsValidDate("2015-04-01")
    ensures IsValidDate("9999-99-99")
  {
  }

  lemma RejectedDates()
    ensures !IsValidDate(" 2015-04-01") && !IsValidDate("2015-04-01 ")
    ensures !IsValidDate("2015/04/01")
  {
  }
}
