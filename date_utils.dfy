/** Korea Standard Time helpers (lib/date-utils.ts): the current instant shifted by nine
    hours and read through the UTC calendar getters, so that the UTC fields of the shifted
    instant are the wall-clock date in Seoul. The current instant is a parameter. */
module DateUtils {
  import opened Wrappers
  import opened Text
  import opened Calendar

  /** Korea is nine hours ahead of UTC, all year round. */
  const KST_OFFSET_MS: int := 9 * 60 * 60 * 1000

  /** `nowKST()`: the instant `now` moved nine hours forward, so that its UTC day is the
      Seoul day holding `now`, a day that begins at 15:00 UTC the day before. */
  function NowKST(now: int): (t: int)
    ensures var day := DaysFromCivil(UtcDate(t));
      day * MS_PER_DAY - KST_OFFSET_MS <= now < (day + 1) * MS_PER_DAY - KST_OFFSET_MS
  {
    now + KST_OFFSET_MS
  }

  /** The civil date in Seoul at instant `now`. */
  function KstDate(now: int): (c: CivilDate)
    ensures ValidCivil(c)
  {
    UtcDate(NowKST(now))
  }

  /** `currentYearKST()`: the UTC year of the shifted instant. */
  function CurrentYearKST(now: int): int {
    KstDate(now).year
  }

  /** The Seoul year is the year whose days hold the current Seoul day. */
  lemma CurrentYearHoldsDay(now: int)
    ensures var y := CurrentYearKST(now);
      YearStart(y) <= DaysFromCivil(KstDate(now)) < YearStart(y) + DaysInYear(y)
  {
    DayInYear(KstDate(now));
  }

  /** `currentMonthKST()`: the UTC month plus one, always 1 to 12. */
  function CurrentMonthKST(now: int): (m: int)
    ensures 1 <= m <= 12
  {
    KstDate(now).month
  }

  /** "Y-MM-DD" for a year and a month and day below 100: the year printed as it is, month
      and day padded to two digits that read back as the given numbers. */
  function FormatIsoDate(year: int, month: nat, day: nat): (r: string)
    requires month < 100 && day < 100
    ensures |r| == |IntToString(year)| + 6
    ensures r[..|r| - 6] == IntToString(year)
    ensures r[|r| - 6] == '-' && r[|r| - 3] == '-'
    ensures IsDigits(r[|r| - 5..|r| - 3]) && DigitsValue(r[|r| - 5..|r| - 3]) == month
    ensures IsDigits(r[|r| - 2..]) && DigitsValue(r[|r| - 2..]) == day
  {
    TwoDigits(month);
    TwoDigits(day);
    var y := IntToString(year);
    var mm := PadStart2(NatToString(month));
    var dd := PadStart2(NatToString(day));
    DashedParts(y, mm, dd);
    y + "-" + mm + "-" + dd
  }

  /** The three parts of "y-mm-dd" sit at fixed distances from its end. */
  lemma DashedParts(y: string, mm: string, dd: string)
    requires |mm| == 2 && |dd| == 2
    ensures var r := y + "-" + mm + "-" + dd;
      && |r| == |y| + 6 && r[..|r| - 6] == y && r[|r| - 6] == '-' && r[|r| - 3] == '-'
      && r[|r| - 5..|r| - 3] == mm && r[|r| - 2..] == dd
  {
    var r := y + "-" + mm + "-" + dd;
    assert r[|r| - 5..|r| - 3] == mm;
    assert r[|r| - 2..] == dd;
    assert r[..|r| - 6] == y;
  }

  /** `todayKST()`: "Y-MM-DD" from the shifted instant's UTC fields. The year part is
      exactly `currentYearKST()` printed, and month and day are two digits each that read
      back as the Seoul month and day. */
  function TodayKST(now: int): (r: string)
    ensures |r| == |IntToString(CurrentYearKST(now))| + 6
    ensures r[..|r| - 6] == IntToString(CurrentYearKST(now))
    ensures r[|r| - 6] == '-' && r[|r| - 3] == '-'
    ensures IsDigits(r[|r| - 5..|r| - 3]) && DigitsValue(r[|r| - 5..|r| - 3]) == CurrentMonthKST(now)
    ensures IsDigits(r[|r| - 2..]) && DigitsValue(r[|r| - 2..]) == KstDate(now).day
  {
    var c := KstDate(now);
    FormatIsoDate(c.year, c.month, c.day)
  }

  /** `getMonthNameKR(month)` as written: the source file's month suffix is the three
      characters U+00EC U+203A U+201D, the UTF-8 bytes of "월" read back as Windows-1252. */
  function GetMonthNameKRAsWritten(month: int): (r: string)
    ensures |r| > 3 && r[|r| - 3..] == GARBLED_SUFFIX
  {
    IntToString(month) + GARBLED_SUFFIX
  }

  /** Up to its last three characters, the label as written reads back as the month. */
  lemma MonthNameAsWrittenReadsBack(month: int)
    ensures var r := GetMonthNameKRAsWritten(month);
      ParseInt(r[..|r| - 3]) == Some(month)
  {
    ParseIntOfIntToString(month);
    var r := GetMonthNameKRAsWritten(month);
    assert r[..|r| - 3] == IntToString(month);
  }

  /** The three characters the source file holds where "월" was meant. */
  const GARBLED_SUFFIX: string := "\U{EC}\U{203A}\U{201D}"

  /** The label as written never ends in the Korean month suffix: for March it is
      "3ì›”", not "3월". */
  lemma MonthNameAsWrittenIsGarbled(month: int)
    ensures GetMonthNameKRAsWritten(month)[|GetMonthNameKRAsWritten(month)| - 1] != '월'
    ensures GetMonthNameKRAsWritten(3) == "3\U{EC}\U{203A}\U{201D}" != "3월"
  {
    var r := GetMonthNameKRAsWritten(month);
    assert r[|r| - 1] == r[|r| - 3..][2];
    assert IntToString(3) == "3";
  }

  /** `getMonthNameKR(month)` as intended: the number followed by "월"; the number part
      reads back as the month. */
  function GetMonthNameKR(month: nat): (r: string)
    ensures |r| >= 2 && r[|r| - 1] == '월'
    ensures IsDigits(r[..|r| - 1]) && DigitsValue(r[..|r| - 1]) == month
  {
    DigitsValueOfNatToString(month);
    var r := IntToString(month) + "월";
    assert r[..|r| - 1] == NatToString(month);
    r
  }
}
