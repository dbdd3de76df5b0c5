/**
 * Dates on the forecast board: the normalizer that zero-pads month and day of
 * a `Y-M-D` string, the calendar-validity test the card label depends on, the
 * abbreviated "Mon D" card label and the "from - to" range.
 */
module Dates {
  import opened Wrappers
  import opened Strings

  const Dash: char := '-'

  /**
   * `normalizeDate`: split on '-'; with exactly three pieces keep the year and
   * left-pad month and day with '0' to width 2; anything else is returned
   * verbatim.
   */
  function NormalizeDate(s: string): (r: string)
    ensures |Split(s, Dash)| != 3 ==> r == s
    ensures |Split(s, Dash)| == 3 ==> |r| >= 6
  {
    var parts := Split(s, Dash);
    if |parts| == 3 then
      parts[0] + [Dash] + PadStart(parts[1], 2, '0') + [Dash] + PadStart(parts[2], 2, '0')
    else
      s
  }

  /** Normalizing only ever adds padding: the result is never shorter than the input. */
  lemma NormalizeNeverShortens(s: string)
    ensures |NormalizeDate(s)| >= |s|
  {
    var parts := Split(s, Dash);
    if |parts| == 3 {
      JoinOfSplit(s, Dash);
      JoinThree(parts, Dash);
    }
  }

  /**
   * For a three-piece input the result splits into the unchanged year and the
   * month and day padded to width 2 (never cut), each ending with its original
   * piece and filled in front with '0' only.
   */
  lemma NormalizeShape(s: string)
    requires |Split(s, Dash)| == 3
    ensures var p := Split(s, Dash);
      && Split(NormalizeDate(s), Dash) == [p[0], PadStart(p[1], 2, '0'), PadStart(p[2], 2, '0')]
      && |PadStart(p[1], 2, '0')| == (if |p[1]| >= 2 then |p[1]| else 2)
      && |PadStart(p[2], 2, '0')| == (if |p[2]| >= 2 then |p[2]| else 2)
      && (|p[1]| >= 2 ==> PadStart(p[1], 2, '0') == p[1])
      && (|p[2]| >= 2 ==> PadStart(p[2], 2, '0') == p[2])
  {
    var p := Split(s, Dash);
    var q := [p[0], PadStart(p[1], 2, '0'), PadStart(p[2], 2, '0')];
    SplitPieces(s, Dash);
    PadStartShape(p[1], 2, '0');
    PadStartShape(p[2], 2, '0');
    PaddedHasNoDash(p[1]);
    PaddedHasNoDash(p[2]);
    JoinThree(q, Dash);
    SplitOfJoin(q, Dash);
  }

  lemma PaddedHasNoDash(t: string)
    requires Dash !in t
    ensures Dash !in PadStart(t, 2, '0')
  {
    var r := PadStart(t, 2, '0');
    PadStartShape(t, 2, '0');
    forall i | 0 <= i < |r| ensures r[i] != Dash {
      if i >= |r| - |t| {
        assert r[i] == r[|r| - |t|..][i - (|r| - |t|)];
      }
    }
  }

  /** Normalizing twice is normalizing once: a normalized date is a fixed point. */
  lemma NormalizeIdempotent(s: string)
    ensures NormalizeDate(NormalizeDate(s)) == NormalizeDate(s)
  {
    if |Split(s, Dash)| == 3 {
      NormalizeShape(s);
    }
  }

  /** A date given as three dash-free pieces normalizes to the year and the padded month and day. */
  lemma NormalizeOfPieces(y: string, m: string, d: string)
    requires Dash !in y && Dash !in m && Dash !in d
    ensures NormalizeDate(y + [Dash] + m + [Dash] + d)
      == y + [Dash] + PadStart(m, 2, '0') + [Dash] + PadStart(d, 2, '0')
  {
    JoinThree([y, m, d], Dash);
    SplitOfJoin([y, m, d], Dash);
  }

  /** Worked case: an unpadded date is padded. */
  lemma NormalizePadsExample()
    ensures NormalizeDate("2026-1-1") == "2026-01-01"
  {
    var one := PadStart("1", 2, '0');
    assert one == "01" by {
      assert Repeat('0', 1) == "0";
    }
    NormalizeOfPieces("2026", "1", "1");
    assert "2026" + [Dash] + "1" + [Dash] + "1" == "2026-1-1";
    assert "2026" + [Dash] + one + [Dash] + one == "2026-01-01";
  }

  /** Worked case: an already padded date is kept. */
  lemma NormalizeKeepsExample()
    ensures NormalizeDate("2026-01-01") == "2026-01-01"
  {
    NormalizeOfPieces("2026", "01", "01");
    assert "2026" + [Dash] + "01" + [Dash] + "01" == "2026-01-01";
  }

  /** Worked case: two pieces pass through verbatim. */
  lemma NormalizeTwoPiecesExample()
    ensures NormalizeDate("2026-01") == "2026-01"
  {
    SplitOfJoin(["2026", "01"], Dash);
    assert Join(["01"], Dash) == "01";
    assert Join(["2026", "01"], Dash) == "2026-01";
  }

  /** Worked case: four pieces pass through verbatim. */
  lemma NormalizeFourPiecesExample()
    ensures NormalizeDate("a-b-c-d") == "a-b-c-d"
  {
    var parts := ["a", "b", "c", "d"];
    SplitOfJoin(parts, Dash);
    assert Join(parts[3..], Dash) == "d";
    assert Join(parts[2..], Dash) == "c-d" by { assert parts[2..][1..] == parts[3..]; }
    assert Join(parts[1..], Dash) == "b-c-d" by { assert parts[1..][1..] == parts[2..]; }
    assert Join(parts, Dash) == "a-b-c-d";
  }

  /** Worked case: the empty string passes through (it splits into one empty piece). */
  lemma NormalizeEmptyExample()
    ensures NormalizeDate("") == ""
  {
  }

  // ---------------------------------------------------------------------------
  // The card label. The board builds `new Date(normalized + "T00:00:00")` and
  // reads its month and day back; for a valid calendar date in the
  // `YYYY-MM-DD` form those are exactly the numbers written in the string.
  // ---------------------------------------------------------------------------

  /** The abbreviated English name of month `m` (1 = January). */
  function MonthName(m: nat): (r: string)
    requires 1 <= m <= 12
    ensures |r| == 3
  {
    match m
    case 1 => "Jan" case 2 => "Feb" case 3 => "Mar" case 4 => "Apr"
    case 5 => "May" case 6 => "Jun" case 7 => "Jul" case 8 => "Aug"
    case 9 => "Sep" case 10 => "Oct" case 11 => "Nov" case _ => "Dec"
  }

  /** `YYYY-MM-DD` with digits in every numeric position. */
  predicate IsoShape(n: string) {
    && |n| == 10 && n[4] == Dash && n[7] == Dash
    && IsDigit(n[0]) && IsDigit(n[1]) && IsDigit(n[2]) && IsDigit(n[3])
    && IsDigit(n[5]) && IsDigit(n[6]) && IsDigit(n[8]) && IsDigit(n[9])
  }

  function YearOf(n: string): nat
    requires IsoShape(n)
  {
    1000 * DigitValue(n[0]) + 100 * DigitValue(n[1]) + 10 * DigitValue(n[2]) + DigitValue(n[3])
  }

  function MonthOf(n: string): nat
    requires IsoShape(n)
  {
    10 * DigitValue(n[5]) + DigitValue(n[6])
  }

  function DayOf(n: string): nat
    requires IsoShape(n)
  {
    10 * DigitValue(n[8]) + DigitValue(n[9])
  }

  predicate IsLeapYear(y: nat) {
    y % 4 == 0 && (y % 100 != 0 || y % 400 == 0)
  }

  function DaysInMonth(y: nat, m: nat): nat
    requires 1 <= m <= 12
  {
    if m == 2 then (if IsLeapYear(y) then 29 else 28)
    else if m == 4 || m == 6 || m == 9 || m == 11 then 30
    else 31
  }

  /** A `YYYY-MM-DD` string naming a day that exists in the Gregorian calendar. */
  predicate IsValidDate(n: string) {
    && IsoShape(n)
    && 1 <= MonthOf(n) <= 12
    && 1 <= DayOf(n) <= DaysInMonth(YearOf(n), MonthOf(n))
  }

  /** "Mon D" for a valid normalized date: month name, a space, the unpadded day. */
  function MonthDay(n: string): (r: string)
    requires IsValidDate(n)
    ensures 5 <= |r| <= 6 && r[3] == ' '
  {
    ShortDayText(DayOf(n));
    MonthName(MonthOf(n)) + " " + NatToString(DayOf(n))
  }

  /** A day of the month prints as one or two digits. */
  lemma ShortDayText(d: nat)
    requires 1 <= d <= 31
    ensures 1 <= |NatToString(d)| <= 2
  {
    if d >= 10 {
      assert NatToString(d) == NatToString(d / 10) + [DigitChar(d % 10)];
    }
  }

  /** The short card label of a raw record date: `MonthDay` of its normalized form. */
  function CardDate(raw: string): (r: string)
    requires IsValidDate(NormalizeDate(raw))
    ensures 5 <= |r| <= 6
  {
    MonthDay(NormalizeDate(raw))
  }

  /**
   * The label read character by character: the month name, a space, then the
   * two day digits of the normalized date with a leading '0' dropped.
   */
  lemma MonthDayText(n: string)
    requires IsValidDate(n)
    ensures MonthDay(n) == MonthName(MonthOf(n)) + " " + (if n[8] == '0' then [n[9]] else n[8..10])
  {
    var a, b := DigitValue(n[8]), DigitValue(n[9]);
    assert DayOf(n) == 10 * a + b;
    if n[8] == '0' {
      assert DayOf(n) == b;
      assert DigitChar(b) == n[9];
    } else {
      assert DayOf(n) / 10 == a && DayOf(n) % 10 == b;
      assert NatToString(a) == [n[8]];
      assert n[8..10] == [n[8], n[9]];
    }
  }

  /**
   * The label can be read back: its first three characters are the month
   * name, then a space, then decimal digits that parse to the day and do not
   * start with '0'.
   */
  lemma MonthDayReadBack(n: string)
    requires IsValidDate(n)
    ensures var l := MonthDay(n);
      && |l| >= 5 && l[..3] == MonthName(MonthOf(n)) && l[3] == ' '
      && AllDigits(l[4..]) && ParseDigits(l[4..]) == DayOf(n) && l[4] != '0'
  {
    var l := MonthDay(n);
    var m := MonthName(MonthOf(n));
    assert |m| == 3;
    assert l[..3] == m;
    assert l[4..] == NatToString(DayOf(n));
    NatToStringRoundTrip(DayOf(n));
  }

  /** The label does not depend on whether the stored date was already padded. */
  lemma CardDateIgnoresPadding(raw: string)
    requires IsValidDate(NormalizeDate(raw))
    ensures IsValidDate(NormalizeDate(NormalizeDate(raw)))
    ensures CardDate(NormalizeDate(raw)) == CardDate(raw)
  {
    NormalizeIdempotent(raw);
  }

  /** 2026-02-14 is a valid date labelled "Feb 14". */
  lemma ValentinesExample()
    ensures IsValidDate("2026-02-14") && MonthDay("2026-02-14") == "Feb 14"
  {
    var n := "2026-02-14";
    assert MonthOf(n) == 2 && DayOf(n) == 14;
    assert DaysInMonth(YearOf(n), 2) >= 28;
    MonthDayText(n);
  }

  /** 2026-01-01 is a valid date labelled "Jan 1" (the day is not padded). */
  lemma NewYearExample()
    ensures IsValidDate("2026-01-01") && MonthDay("2026-01-01") == "Jan 1"
  {
    var n := "2026-01-01";
    assert MonthOf(n) == 1 && DayOf(n) == 1;
    MonthDayText(n);
  }

  /** Worked cases: a padded and an unpadded stored date. */
  lemma CardDateExample()
    ensures IsValidDate(NormalizeDate("2026-02-14")) && CardDate("2026-02-14") == "Feb 14"
    ensures IsValidDate(NormalizeDate("2026-1-1")) && CardDate("2026-1-1") == "Jan 1"
  {
    NormalizeOfPieces("2026", "02", "14");
    assert "2026" + [Dash] + "02" + [Dash] + "14" == "2026-02-14";
    NormalizePadsExample();
    ValentinesExample();
    NewYearExample();
  }

  /** No label contains a dash: letters, a space and digits only. */
  lemma MonthDayHasNoDash(n: string)
    requires IsValidDate(n)
    ensures Dash !in MonthDay(n)
  {
    var m := MonthName(MonthOf(n));
    assert Dash !in m;
    var d := NatToString(DayOf(n));
    assert forall i :: 0 <= i < |d| ==> IsDigit(d[i]);
    assert Dash !in d;
    assert MonthDay(n) == m + " " + d;
  }

  /** Both ends of a range are valid dates when the end is given at all. */
  predicate RangeDefined(from: string, to: Option<string>) {
    && IsValidDate(NormalizeDate(from))
    && (Truthy(to) ==> IsValidDate(NormalizeDate(to.value)))
  }

  /**
   * The date text of a card: the label of `from`, followed by " - " and the
   * label of `to` when `to` is truthy.
   */
  function DateRange(from: string, to: Option<string>): (r: string)
    requires RangeDefined(from, to)
    ensures CardDate(from) <= r
    ensures Truthy(to) <==> |r| > |CardDate(from)|
  {
    if Truthy(to) then CardDate(from) + " - " + CardDate(to.value) else CardDate(from)
  }

  /** Two dash-free labels joined by " - " split back into their two sides. */
  lemma SplitAroundDash(f: string, t: string)
    requires Dash !in f && Dash !in t
    ensures Split(f + " - " + t, Dash) == [f + " ", " " + t]
  {
    var parts := [f + " ", " " + t];
    assert Dash !in f + " " && Dash !in " " + t;
    assert Join(parts[1..], Dash) == " " + t;
    assert Join(parts, Dash) == f + " - " + t;
    SplitOfJoin(parts, Dash);
  }

  /**
   * Splitting the range on its dash recovers both ends: one piece (the
   * `from` label) with no truthy `to`, two pieces around " - " otherwise.
   */
  lemma DateRangeReadBack(from: string, to: Option<string>)
    requires RangeDefined(from, to)
    ensures Split(DateRange(from, to), Dash) ==
      if Truthy(to) then [CardDate(from) + " ", " " + CardDate(to.value)] else [CardDate(from)]
  {
    var f := CardDate(from);
    MonthDayHasNoDash(NormalizeDate(from));
    if Truthy(to) {
      MonthDayHasNoDash(NormalizeDate(to.value));
      SplitAroundDash(f, CardDate(to.value));
    } else {
      SplitWithoutSeparator(f, Dash);
    }
  }
}
