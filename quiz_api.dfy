/** Route date forms and today's date in Korea as the first game's page computes them
    (lib/quiz-api.ts): `Date` to "YYMMDD", "YYYY-MM-DD" to "YYMMDD", and the instant whose
    local-time fields show the wall-clock time in Seoul. Also the `QuizItem` record the
    sequential players consume. */
module QuizApi {
  import opened Wrappers
  import opened Text
  import opened Calendar
  import DateUtils

  /** One question as the sequential players receive it. */
  datatype QuizItem = QuizItem(
    question: string,
    quizDate: string,
    questionId: int,
    options: seq<string>,
    newsLink: Option<string>,
    answer: string,
    explanation: Option<string>,
    hint: Option<seq<string>>)

  /** `toYYMMDD(date)` from the date's local fields (`getFullYear`, `getMonth`, `getDate`):
      the last two characters of the year, then month + 1 and the day, each padded to two
      digits. For a year of two or more digits that is six digits that read back as the
      year modulo 100, the 1-based month and the day. */
  function ToYYMMDD(year: int, month0: int, day: int): (r: string)
    requires 0 <= month0 <= 11 && 1 <= day <= 31
    ensures year >= 10 ==> |r| == 6 && IsDigits(r)
    ensures year >= 10 ==> DigitsValue(r[..2]) == year % 100
    ensures year >= 10 ==> DigitsValue(r[2..4]) == month0 + 1 && DigitsValue(r[4..]) == day
  {
    var yy := LastTwo(IntToString(year));
    var mm := PadStart2(NatToString(month0 + 1));
    var dd := PadStart2(NatToString(day));
    TwoDigits(month0 + 1);
    TwoDigits(day);
    YearDigits(year);
    SixDigits(yy, mm, dd);
    yy + mm + dd
  }

  /** For a year of at least two digits its last two characters are digits that read as
      the year modulo 100. */
  lemma YearDigits(year: int)
    ensures year >= 10 ==> |LastTwo(IntToString(year))| == 2 && IsDigits(LastTwo(IntToString(year)))
    ensures year >= 10 ==> DigitsValue(LastTwo(IntToString(year))) == year % 100
  {
    if year >= 10 {
      LastTwoDigits(year);
    }
  }

  lemma SixDigits(yy: string, mm: string, dd: string)
    requires |mm| == 2 && IsDigits(mm) && |dd| == 2 && IsDigits(dd)
    ensures (yy + mm + dd)[|yy|..|yy| + 2] == mm && (yy + mm + dd)[|yy| + 2..] == dd
    ensures |yy| == 2 && IsDigits(yy) ==> |yy + mm + dd| == 6 && IsDigits(yy + mm + dd) && (yy + mm + dd)[..2] == yy
  {
  }

  /** `ymdToYYMMDD(ymd)`: every hyphen removed, then the first two characters dropped. */
  function YmdToYYMMDD(ymd: string): (r: string)
    ensures '-' !in r
  {
    DropFront(RemoveChar(ymd, '-'), 2)
  }

  /** "YYYY-MM-DD" with a four-digit year becomes the last two year digits, the month and
      the day. */
  lemma YmdToYYMMDDOfIso(yyyy: string, mm: string, dd: string)
    requires |yyyy| == 4 && IsDigits(yyyy) && IsDigits(mm) && IsDigits(dd)
    ensures YmdToYYMMDD(yyyy + "-" + mm + "-" + dd) == yyyy[2..] + mm + dd
  {
    DigitsHaveNoHyphen(yyyy);
    DigitsHaveNoHyphen(mm);
    DigitsHaveNoHyphen(dd);
    RemoveCharAbsent(yyyy, '-');
    RemoveCharAbsent(mm, '-');
    RemoveCharAbsent(dd, '-');
    RemoveHyphenBetween(yyyy + "-" + mm, dd);
    RemoveHyphenBetween(yyyy, mm);
    var joined := yyyy + mm + dd;
    assert joined[2..] == yyyy[2..] + mm + dd;
  }

  lemma RemoveHyphenBetween(a: string, b: string)
    ensures RemoveChar(a + "-" + b, '-') == RemoveChar(a, '-') + RemoveChar(b, '-')
  {
    var hyphen: string := "-";
    var ah := a + hyphen;
    assert RemoveChar(hyphen, '-') == [] by {
      assert hyphen[1..] == [];
    }
    RemoveCharConcat(a, hyphen, '-');
    RemoveCharConcat(ah, b, '-');
  }

  lemma DigitsHaveNoHyphen(s: string)
    requires IsDigits(s)
    ensures '-' !in s
  {
  }

  /** Minutes to milliseconds. */
  const MS_PER_MINUTE: int := 60_000

  /** `getTodayKST()` for the instant `now` on a machine whose `getTimezoneOffset()` is
      `tzOffsetMin` (UTC minus local time, in minutes): the instant moved by the offset and
      by nine hours, whose local fields, whatever the machine's time zone, are the Seoul
      date that the UTC fields of `nowKST()` give. */
  function GetTodayKST(now: int, tzOffsetMin: int): (t: int)
    ensures LocalDate(t, tzOffsetMin) == DateUtils.KstDate(now)
  {
    var t := now + tzOffsetMin * MS_PER_MINUTE + 9 * 60 * MS_PER_MINUTE;
    assert t - tzOffsetMin * MS_PER_MINUTE == DateUtils.NowKST(now);
    t
  }

  /** The local-time calendar fields of an instant on that machine. */
  function LocalDate(t: int, tzOffsetMin: int): (c: CivilDate)
    ensures ValidCivil(c)
    ensures var local := t - tzOffsetMin * MS_PER_MINUTE;
      DaysFromCivil(c) * MS_PER_DAY <= local < (DaysFromCivil(c) + 1) * MS_PER_DAY
  {
    UtcDate(t - tzOffsetMin * MS_PER_MINUTE)
  }

  /** The two ways the site names today's quiz agree: `toYYMMDD(getTodayKST())` equals
      `ymdToYYMMDD(todayKST())` for every year of four digits. */
  lemma TodayRouteDatesAgree(now: int, tzOffsetMin: int)
    requires 1000 <= DateUtils.CurrentYearKST(now) <= 9999
    ensures var c := LocalDate(GetTodayKST(now, tzOffsetMin), tzOffsetMin);
      ToYYMMDD(c.year, c.month - 1, c.day) == YmdToYYMMDD(DateUtils.TodayKST(now))
  {
    var c := DateUtils.KstDate(now);
    IsoRouteDate(DateUtils.TodayKST(now), c.year, c.month, c.day);
  }

  /** A "Y-MM-DD" string with a four-digit year, laid out as `todayKST()` lays it out,
      gives the route date `toYYMMDD` gives for the same fields. */
  lemma IsoRouteDate(today: string, year: int, month: int, day: int)
    requires 1000 <= year <= 9999 && 1 <= month <= 12 && 1 <= day <= 31
    requires |today| == |IntToString(year)| + 6 && today[..|today| - 6] == IntToString(year)
    requires today[|today| - 6] == '-' && today[|today| - 3] == '-'
    requires IsDigits(today[|today| - 5..|today| - 3]) && DigitsValue(today[|today| - 5..|today| - 3]) == month
    requires IsDigits(today[|today| - 2..]) && DigitsValue(today[|today| - 2..]) == day
    ensures ToYYMMDD(year, month - 1, day) == YmdToYYMMDD(today)
  {
    var n := |today|;
    var yyyy := today[..n - 6];
    var mm := today[n - 5..n - 3];
    var dd := today[n - 2..];
    NatToStringLength4(year);
    assert today == yyyy + "-" + mm + "-" + dd;
    YmdToYYMMDDOfIso(yyyy, mm, dd);
    var r := ToYYMMDD(year, month - 1, day);
    DigitsValueOfNatToString(year);
    LastTwoDigits(year);
    DigitsEqualByValue(r[..2], yyyy[2..]);
    DigitsEqualByValue(r[2..4], mm);
    DigitsEqualByValue(r[4..], dd);
    assert r == r[..2] + r[2..4] + r[4..];
  }

  /** A number of four digits prints as four characters whose last two read as the
      number modulo 100. */
  lemma NatToStringLength4(n: nat)
    requires 1000 <= n <= 9999
    ensures |NatToString(n)| == 4
    ensures IsDigits(NatToString(n)[2..]) && DigitsValue(NatToString(n)[2..]) == n % 100
  {
    NatToStringLength(n / 100);
    LastTwoDigits(n);
    assert NatToString(n) == NatToString(n / 10) + [('0' as int + n % 10) as char];
    assert NatToString(n / 10) == NatToString(n / 100) + [('0' as int + (n / 10) % 10) as char];
    assert LastTwo(NatToString(n)) == NatToString(n)[2..];
  }

  /** Two digit strings of the same length and value are equal. */
  lemma {:induction false} DigitsEqualByValue(a: string, b: string)
    requires IsDigits(a) && IsDigits(b) && |a| == |b|
    requires DigitsValue(a) == DigitsValue(b)
    ensures a == b
  {
    if |a| > 0 {
      var n := |a| - 1;
      assert IsDigits(a[..n]) && IsDigits(b[..n]);
      assert IsDigit(a[n]) && IsDigit(b[n]);
      assert a[n] == b[n];
      DigitsEqualByValue(a[..n], b[..n]);
      assert a == a[..n] + [a[n]] && b == b[..n] + [b[n]];
    }
  }
}
