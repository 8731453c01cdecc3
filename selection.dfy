/**
 * Selecting what a command acts on, as the `main` functions of changelog.go
 * and cmd/changelog.go do: an optional leading `next` or `-N` token drops the
 * N latest releases, the next token names the command and the rest are its
 * arguments. The shift amount is read with strconv.Atoi, modelled here on a
 * 64-bit `int`.
 */
module Selection {
  import opened Wrappers
  import opened Decimal
  import opened ChangelogModel

  const MinInt: int := -0x8000_0000_0000_0000
  const MaxInt: int := 0x7fff_ffff_ffff_ffff

  /**
   * strconv.Atoi: an optional '+' or '-', then one or more ASCII digits, with
   * a value that fits a 64-bit int; anything else is an error.
   */
  function Atoi(s: string): (r: Option<int>)
    ensures r.Some? ==> MinInt <= r.value <= MaxInt
    ensures r.Some? ==> |s| > 0 && (IsDigit(s[0]) || s[0] == '-' || s[0] == '+')
    ensures r.Some? <==> |s| > 0 && IsDigitRun(Unsigned(s)) && MinInt <= Signed(s) <= MaxInt
    ensures r.Some? ==> r.value == Signed(s)
  {
    if |s| == 0 then None
    else
      var digits := if s[0] == '-' || s[0] == '+' then s[1..] else s;
      if !IsDigitRun(digits) then None
      else
        var v: int := if s[0] == '-' then 0 - Value(digits) as int else Value(digits);
        if MinInt <= v <= MaxInt then Some(v) else None
  }

  /** The digits of a numeral: what follows an optional leading sign. */
  function Unsigned(s: string): string
  {
    if |s| > 0 && (s[0] == '-' || s[0] == '+') then s[1..] else s
  }

  /** The value of a numeral with an optional sign, when its unsigned part is all digits. */
  function Signed(s: string): int
    requires IsDigitRun(Unsigned(s))
  {
    if |s| > 0 && s[0] == '-' then 0 - Value(Unsigned(s)) as int else Value(Unsigned(s))
  }

  /** Leading zeros and an explicit '+' are accepted: `+0…0d` reads as the value of `d`. */
  lemma AtoiNonCanonical(k: nat, n: nat)
    requires n <= MaxInt
    ensures Atoi("+" + (Zeros(k) + Digits(n))) == Some(n)
    ensures Atoi(Zeros(k) + Digits(n)) == Some(n)
  {
    var d := Zeros(k) + Digits(n);
    PaddedDigits(k, n);
    var p := "+" + d;
    assert p[0] == '+' && p[1..] == d;
    assert Unsigned(p) == d;
    assert Unsigned(d) == d;
  }

  /** Zeros followed by a rendering form a digit run whose value is the number. */
  lemma PaddedDigits(k: nat, n: nat)
    ensures IsDigitRun(Zeros(k) + Digits(n))
    ensures Value(Zeros(k) + Digits(n)) == n
  {
    var d := Zeros(k) + Digits(n);
    forall i | 0 <= i < |d| ensures IsDigit(d[i]) {
      if i >= k { assert d[i] == Digits(n)[i - k]; }
    }
    ValueIgnoresLeadingZeros(k, Digits(n));
    ValueOfDigits(n);
  }

  /** The decimal rendering of an integer, as strconv.Itoa writes it. */
  function Itoa(n: int): string
  {
    if n < 0 then "-" + Digits(-n) else Digits(n)
  }

  /** Atoi reads back every 64-bit integer that Itoa writes. */
  lemma AtoiItoa(n: int)
    requires MinInt <= n <= MaxInt
    ensures Atoi(Itoa(n)) == Some(n)
  {
    if n < 0 {
      assert Itoa(n)[1..] == Digits(-n);
      ValueOfDigits(-n);
    } else {
      ValueOfDigits(n);
    }
  }

  /** What goes wrong while selecting; the last two are Go run-time panics. */
  datatype SelectError =
    | BadShift(token: string)
    | SlicePanic(delta: int)
    | MissingCommand

  /** strings.HasPrefix(command, "-") */
  predicate IsShiftToken(token: string)
  {
    |token| > 0 && token[0] == '-'
  }

  /**
   * Shifting by a `-N` token: rejected when N does not parse or is not below
   * the length of the changelog; a negative N passes that test and panics at
   * the slice; otherwise the releases from index N on.
   */
  function Shift(changelog: Changelog, token: string): (r: Result<Changelog, SelectError>)
    requires IsShiftToken(token)
    ensures r == Err(BadShift(token)) <==>
              Atoi(token[1..]).None? || Atoi(token[1..]).value >= |changelog|
    ensures r.Err? && r.error.SlicePanic? <==>
              Atoi(token[1..]).Some? && Atoi(token[1..]).value < 0 && Atoi(token[1..]).value < |changelog|
    ensures Atoi(token[1..]).Some? && 0 <= Atoi(token[1..]).value < |changelog| ==>
              r == Ok(changelog[Atoi(token[1..]).value..])
    ensures r.Ok? ==>
              var delta := Atoi(token[1..]).value;
              && 0 <= delta < |changelog|
              && |r.value| == |changelog| - delta
              && forall i :: 0 <= i < |r.value| ==> r.value[i] == changelog[i + delta]
  {
    match Atoi(token[1..])
    case None => Err(BadShift(token))
    case Some(delta) =>
      if delta >= |changelog| then Err(BadShift(token))
      else if delta < 0 then Err(SlicePanic(delta))
      else Ok(changelog[delta..])
  }

  /** A successful shift never leaves an empty changelog, so the latest release still exists. */
  lemma ShiftKeepsALatestRelease(changelog: Changelog, token: string)
    requires IsShiftToken(token) && Shift(changelog, token).Ok?
    ensures |Shift(changelog, token).value| > 0
  {
  }

  /** On an empty changelog every non-negative shift is rejected and every negative one panics. */
  lemma ShiftOnEmpty(token: string)
    requires IsShiftToken(token)
    ensures Shift([], token).Err?
    ensures Atoi(token[1..]).Some? && Atoi(token[1..]).value < 0 ==> Shift([], token) == Err(SlicePanic(Atoi(token[1..]).value))
  {
  }

  /** `-0` leaves a non-empty changelog as it is, and rejects an empty one. */
  lemma ShiftByZero(changelog: Changelog)
    ensures Shift(changelog, "-0") == if changelog == [] then Err(BadShift("-0")) else Ok(changelog)
  {
    assert "-0"[1..] == "0";
    assert Value("0") == 0 by { assert "0"[..0] == []; }
  }

  /** Shifting by `a` then by `b` is shifting by `a + b`. */
  lemma ShiftTwice(changelog: Changelog, a: nat, b: nat)
    requires a + b <= MaxInt
    requires Shift(changelog, "-" + Itoa(a)).Ok?
    requires Shift(Shift(changelog, "-" + Itoa(a)).value, "-" + Itoa(b)).Ok?
    ensures Shift(changelog, "-" + Itoa(a + b))
         == Shift(Shift(changelog, "-" + Itoa(a)).value, "-" + Itoa(b))
  {
    assert ("-" + Itoa(a))[1..] == Itoa(a);
    assert ("-" + Itoa(b))[1..] == Itoa(b);
    assert ("-" + Itoa(a + b))[1..] == Itoa(a + b);
    AtoiItoa(a);
    AtoiItoa(b);
    AtoiItoa(a + b);
    assert changelog[a..][b..] == changelog[a + b..];
  }

  /** The command, the changelog it acts on and its arguments. */
  datatype Selected = Selected(command: string, changelog: Changelog, args: seq<string>)

  /** The first argument as the shift test sees it: `next` stands for `-1`. */
  function ShiftToken(command: string): string
  {
    if command == "next" then "-1" else command
  }

  /**
   * The selection part of `main`, from `os.Args` (program name first) and the
   * decoded changelog: `next` is rewritten to `-1`; after a shift the command
   * is Args[2] and the arguments Args[3:], otherwise they are Args[2:].
   */
  function Select(osArgs: seq<string>, changelog: Changelog): (r: Result<Selected, SelectError>)
    requires |osArgs| >= 2
    ensures r.Ok? && !IsShiftToken(osArgs[1]) && osArgs[1] != "next" ==>
              r.value == Selected(osArgs[1], changelog, osArgs[2..])
    ensures !IsShiftToken(ShiftToken(osArgs[1])) ==> r == Ok(Selected(osArgs[1], changelog, osArgs[2..]))
    ensures IsShiftToken(ShiftToken(osArgs[1])) && Shift(changelog, ShiftToken(osArgs[1])).Err? ==>
              r == Err(Shift(changelog, ShiftToken(osArgs[1])).error)
    ensures IsShiftToken(ShiftToken(osArgs[1])) && Shift(changelog, ShiftToken(osArgs[1])).Ok? ==>
              && (r.Ok? <==> |osArgs| >= 3)
              && (r.Err? ==> r.error == MissingCommand)
              && (r.Ok? ==> r.value == Selected(osArgs[2], Shift(changelog, ShiftToken(osArgs[1])).value, osArgs[3..]))
    ensures r.Ok? && (IsShiftToken(osArgs[1]) || osArgs[1] == "next") ==>
              |osArgs| >= 3 && r.value.command == osArgs[2] && r.value.args == osArgs[3..]
              && |r.value.changelog| > 0
              && exists delta :: 0 <= delta < |changelog| && r.value.changelog == changelog[delta..]
  {
    var command := ShiftToken(osArgs[1]);
    if IsShiftToken(command) then
      match Shift(changelog, command)
      case Err(e) => Err(e)
      case Ok(shifted) =>
        if |osArgs| < 3 then Err(MissingCommand)
        else Ok(Selected(osArgs[2], shifted, osArgs[3..]))
    else Ok(Selected(command, changelog, osArgs[2..]))
  }

  /** `next` is exactly `-1`: it selects the same way and is reported as `-1` when rejected. */
  lemma NextIsMinusOne(osArgs: seq<string>, changelog: Changelog)
    requires |osArgs| >= 2 && osArgs[1] == "next"
    ensures Select(osArgs, changelog) == Select(osArgs[1 := "-1"], changelog)
    ensures |changelog| <= 1 ==> Select(osArgs, changelog) == Err(BadShift("-1"))
    ensures |changelog| > 1 && |osArgs| >= 3 ==>
              Select(osArgs, changelog) == Ok(Selected(osArgs[2], changelog[1..], osArgs[3..]))
  {
    assert "-1"[1..] == "1";
    assert Value("1") == 1 by { assert "1"[..0] == []; }
  }
}
