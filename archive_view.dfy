/** What the two archive pages (app/games/g2/archive/client-page.tsx and
    app/games/g3/archive/page.tsx) compute alike from the year → month → date archive: the
    list of dates under the year and month filters, the months the month filter offers,
    the filters' select values and the query string that records them. */
module ArchiveView {
  import opened Wrappers
  import opened Text
  import opened GamesData

  // ---------------------------------------------------------------------------
  // Filters.

  /** A year or month passes a filter that is off, or that holds that very number. The
      pages test the selected year and month for JavaScript truthiness, so a filter
      holding 0 or NaN is off. */
  predicate Passes(value: int, sel: Option<int>) {
    !Truthy(sel) || value == sel.value
  }

  /** The value a filter's select shows: `selected?.toString() || "all"`. */
  function ShownValue(sel: Option<int>): (r: string)
    ensures sel.None? ==> r == "all"
    ensures sel.Some? ==> r == IntToString(sel.value)
  {
    if sel.Some? then IntToString(sel.value) else "all"
  }

  /** `handleYearChange` / `handleMonthChange`: "all" clears the filter; any other value
      is read with `parseInt`. */
  function SelectValue(value: string): (r: Option<int>)
  {
    if value == "all" then None else ParseInt(value)
  }

  /** Choosing the value a select shows gives back the selection it shows, and choosing
      "all" clears it. */
  lemma SelectRoundTrip(sel: Option<int>)
    ensures SelectValue(ShownValue(sel)) == sel
    ensures SelectValue("all") == None
  {
    if sel.Some? {
      ParseIntOfIntToString(sel.value);
      assert ShownValue(sel)[0] != 'a' by {
        var s := ShownValue(sel);
        if sel.value >= 0 {
          assert IsDigit(NatToString(sel.value)[0]);
        }
      }
    }
  }

  // ---------------------------------------------------------------------------
  // The list of dates.

  /** One listed date with the year and month it was found under. */
  datatype DateEntry = DateEntry(date: string, year: int, month: int)

  /** A month's dates, in the month's order. */
  function MonthDates(year: int, m: MonthEntry): (r: seq<DateEntry>)
    ensures |r| == |m.dates|
    ensures forall k :: 0 <= k < |r| ==> r[k] == DateEntry(m.dates[k], year, m.month)
  {
    seq(|m.dates|, k requires 0 <= k < |m.dates| => DateEntry(m.dates[k], year, m.month))
  }

  /** The dates of a year's months that pass the month filter, months in order. */
  function MonthsDates(year: int, ms: seq<MonthEntry>, month: Option<int>): (r: seq<DateEntry>)
  {
    if |ms| == 0 then []
    else
      var last := ms[|ms| - 1];
      MonthsDates(year, ms[..|ms| - 1], month) + (if Passes(last.month, month) then MonthDates(year, last) else [])
  }

  /** `allDates`: the archive's dates under the filters, years in order. */
  function ListedDates(years: seq<YearEntry>, year: Option<int>, month: Option<int>): (r: seq<DateEntry>)
  {
    if |years| == 0 then []
    else
      var last := years[|years| - 1];
      ListedDates(years[..|years| - 1], year, month)
        + (if Passes(last.year, year) then MonthsDates(last.year, last.months, month) else [])
  }

  /** The `allDates` loop: every year that passes the year filter, every month of it that
      passes the month filter, every date of that month, appended in turn. */
  method CollectDates(years: seq<YearEntry>, year: Option<int>, month: Option<int>) returns (all: seq<DateEntry>)
    ensures all == ListedDates(years, year, month)
  {
    all := [];
    for i := 0 to |years|
      invariant all == ListedDates(years[..i], year, month)
    {
      assert years[..i + 1][..i] == years[..i];
      var yearData := years[i];
      if Truthy(year) && yearData.year != year.value {
        continue;
      }
      var dates := CollectYear(yearData, month);
      all := all + dates;
    }
    assert years[..|years|] == years;
  }

  /** The loop over one year's months: the dates of every month that passes the month
      filter. */
  method CollectYear(yearData: YearEntry, month: Option<int>) returns (all: seq<DateEntry>)
    ensures all == MonthsDates(yearData.year, yearData.months, month)
  {
    all := [];
    for j := 0 to |yearData.months|
      invariant all == MonthsDates(yearData.year, yearData.months[..j], month)
    {
      assert yearData.months[..j + 1][..j] == yearData.months[..j];
      var monthData := yearData.months[j];
      if Truthy(month) && monthData.month != month.value {
        continue;
      }
      var dates := CollectMonth(yearData.year, monthData);
      all := all + dates;
    }
    assert yearData.months[..|yearData.months|] == yearData.months;
  }

  /** The loop over one month's dates, each recorded with its year and month. */
  method CollectMonth(year: int, monthData: MonthEntry) returns (all: seq<DateEntry>)
    ensures all == MonthDates(year, monthData)
  {
    all := [];
    for k := 0 to |monthData.dates|
      invariant all == MonthDates(year, monthData)[..k]
    {
      assert MonthDates(year, monthData)[..k + 1]
        == MonthDates(year, monthData)[..k] + [DateEntry(monthData.dates[k], year, monthData.month)];
      all := all + [DateEntry(monthData.dates[k], year, monthData.month)];
    }
  }

  /** Every listed date passes both filters. */
  lemma {:induction false} ListedPass(years: seq<YearEntry>, year: Option<int>, month: Option<int>)
    ensures forall e :: e in ListedDates(years, year, month) ==> Passes(e.year, year) && Passes(e.month, month)
  {
    if |years| > 0 {
      var last := years[|years| - 1];
      ListedPass(years[..|years| - 1], year, month);
      MonthsPass(last.year, last.months, month);
    }
  }

  lemma {:induction false} MonthsPass(y: int, ms: seq<MonthEntry>, month: Option<int>)
    ensures forall e :: e in MonthsDates(y, ms, month) ==> e.year == y && Passes(e.month, month)
  {
    if |ms| > 0 {
      MonthsPass(y, ms[..|ms| - 1], month);
    }
  }

  /** The filtered list keeps the archive's order: it is the unfiltered list with some
      dates left out. */
  lemma {:induction false} ListedKeepsOrder(years: seq<YearEntry>, year: Option<int>, month: Option<int>)
    ensures IsSubsequence(ListedDates(years, year, month), ListedDates(years, None, None))
  {
    if |years| > 0 {
      var init := years[..|years| - 1];
      var last := years[|years| - 1];
      ListedKeepsOrder(init, year, month);
      MonthsKeepOrder(last.year, last.months, month);
      var all := MonthsDates(last.year, last.months, None);
      SubsequenceReflexive(all);
      if Passes(last.year, year) {
        SubsequenceConcat(ListedDates(init, year, month), ListedDates(init, None, None),
          MonthsDates(last.year, last.months, month), all);
      } else {
        SubsequenceConcat(ListedDates(init, year, month), ListedDates(init, None, None), [], all);
        assert ListedDates(init, year, month) + [] == ListedDates(years, year, month);
      }
    }
  }

  lemma {:induction false} MonthsKeepOrder(y: int, ms: seq<MonthEntry>, month: Option<int>)
    ensures IsSubsequence(MonthsDates(y, ms, month), MonthsDates(y, ms, None))
  {
    if |ms| > 0 {
      var init := ms[..|ms| - 1];
      var last := ms[|ms| - 1];
      MonthsKeepOrder(y, init, month);
      SubsequenceReflexive(MonthDates(y, last));
      if Passes(last.month, month) {
        SubsequenceConcat(MonthsDates(y, init, month), MonthsDates(y, init, None), MonthDates(y, last), MonthDates(y, last));
      } else {
        SubsequenceConcat(MonthsDates(y, init, month), MonthsDates(y, init, None), [], MonthDates(y, last));
        assert MonthsDates(y, init, month) + [] == MonthsDates(y, ms, month);
      }
    }
  }

  /** A date is listed under the filters exactly when it is listed without them and its
      year and month pass. */
  lemma {:induction false} ListedMembers(years: seq<YearEntry>, year: Option<int>, month: Option<int>, e: DateEntry)
    ensures e in ListedDates(years, year, month) <==>
      e in ListedDates(years, None, None) && Passes(e.year, year) && Passes(e.month, month)
  {
    if |years| > 0 {
      var init := years[..|years| - 1];
      var last := years[|years| - 1];
      ListedMembers(init, year, month, e);
      MonthsMembers(last.year, last.months, month, e);
      MonthsPass(last.year, last.months, None);
    }
  }

  lemma {:induction false} MonthsMembers(y: int, ms: seq<MonthEntry>, month: Option<int>, e: DateEntry)
    ensures e in MonthsDates(y, ms, month) <==> e in MonthsDates(y, ms, None) && Passes(e.month, month)
  {
    if |ms| > 0 {
      MonthsMembers(y, ms[..|ms| - 1], month, e);
      MonthsPass(y, ms[..|ms| - 1], month);
    }
  }

  /** Without filters, an entry is listed exactly when its date is in some month of the
      archive and it carries that month and its year. */
  lemma {:induction false} ListedAllMembers(years: seq<YearEntry>, e: DateEntry)
    ensures e in ListedDates(years, None, None) <==>
      exists i, j :: 0 <= i < |years| && 0 <= j < |years[i].months|
        && e.year == years[i].year && e.month == years[i].months[j].month && e.date in years[i].months[j].dates
  {
    if |years| > 0 {
      var init := years[..|years| - 1];
      var last := years[|years| - 1];
      ListedAllMembers(init, e);
      MonthsAllMembers(last.year, last.months, e);
      ArchiveSplit(years, init, last, e);
    }
  }

  /** An entry is in some month of the years exactly when it is in some month of all but
      the last year, or in some month of the last. */
  lemma ArchiveSplit(years: seq<YearEntry>, init: seq<YearEntry>, last: YearEntry, e: DateEntry)
    requires |years| > 0 && init == years[..|years| - 1] && last == years[|years| - 1]
    ensures (exists i, j :: 0 <= i < |years| && 0 <= j < |years[i].months|
               && e.year == years[i].year && e.month == years[i].months[j].month && e.date in years[i].months[j].dates)
      <==>
      || (exists i, j :: 0 <= i < |init| && 0 <= j < |init[i].months|
            && e.year == init[i].year && e.month == init[i].months[j].month && e.date in init[i].months[j].dates)
      || (exists j :: 0 <= j < |last.months|
            && e.year == last.year && e.month == last.months[j].month && e.date in last.months[j].dates)
  {
    forall i | 0 <= i < |init| ensures init[i] == years[i] {
    }
  }

  lemma {:induction false} MonthsAllMembers(y: int, ms: seq<MonthEntry>, e: DateEntry)
    ensures e in MonthsDates(y, ms, None) <==>
      exists j :: 0 <= j < |ms| && e.year == y && e.month == ms[j].month && e.date in ms[j].dates
  {
    if |ms| > 0 {
      var init := ms[..|ms| - 1];
      var last := ms[|ms| - 1];
      MonthsAllMembers(y, init, e);
      if e in MonthDates(y, last) {
        var k :| 0 <= k < |MonthDates(y, last)| && MonthDates(y, last)[k] == e;
        assert e.date == last.dates[k];
        assert ms[|ms| - 1] == last;
      }
      if e.year == y && e.month == last.month && e.date in last.dates {
        var k :| 0 <= k < |last.dates| && last.dates[k] == e.date;
        assert MonthDates(y, last)[k] == e;
      }
      forall j | 0 <= j < |init| ensures ms[j] == init[j] {
      }
    }
  }

  /** For a game's archive, the unfiltered list holds exactly the game's dates, each with
      the year and month its first two fields name. */
  lemma ArchiveListsEveryDate(dates: seq<string>, e: DateEntry)
    requires AllWellFormed(dates)
    ensures e in ListedDates(ArchiveOf(Group(dates)), None, None) <==>
      e.date in dates && WellFormedDate(e.date) && YearMonth(e.date) == (e.year, e.month)
  {
    var a := ArchiveOf(Group(dates));
    ListedAllMembers(a, e);
    if e in ListedDates(a, None, None) {
      var i, j :| 0 <= i < |a| && 0 <= j < |a[i].months|
        && e.year == a[i].year && e.month == a[i].months[j].month && e.date in a[i].months[j].dates;
      BucketContents(dates, i, j);
    }
    if e.date in dates && WellFormedDate(e.date) && YearMonth(e.date) == (e.year, e.month) {
      DateHasBucket(dates, e.date);
    }
  }

  /** `availableYears`: `years.map((y) => y.year)`. */
  function YearsOf(years: seq<YearEntry>): (r: seq<int>)
    ensures |r| == |years| && forall i :: 0 <= i < |years| ==> r[i] == years[i].year
  {
    seq(|years|, i requires 0 <= i < |years| => years[i].year)
  }

  /** Some entry of the list carries this date. */
  ghost predicate HasDate(entries: seq<DateEntry>, d: string) {
    exists e :: e in entries && e.date == d
  }

  /** The dates the unfiltered archive list carries are the game's dates. */
  lemma ArchiveHasEveryDate(dates: seq<string>, d: string)
    requires AllWellFormed(dates)
    ensures HasDate(ListedDates(ArchiveOf(Group(dates)), None, None), d) <==> d in dates
  {
    var listed := ListedDates(ArchiveOf(Group(dates)), None, None);
    if HasDate(listed, d) {
      var e :| e in listed && e.date == d;
      ArchiveListsEveryDate(dates, e);
    }
    if d in dates {
      var k :| 0 <= k < |dates| && dates[k] == d;
      var e := DateEntry(d, YearMonth(d).0, YearMonth(d).1);
      ArchiveListsEveryDate(dates, e);
    }
  }

  // ---------------------------------------------------------------------------
  // The months offered.

  /** `years.find((y) => y.year === year)`: the first entry for that year. */
  function FindYear(years: seq<YearEntry>, year: int): (r: Option<nat>)
    ensures r.Some? ==>
      r.value < |years| && years[r.value].year == year && forall i :: 0 <= i < r.value ==> years[i].year != year
    ensures r.None? <==> forall i :: 0 <= i < |years| ==> years[i].year != year
  {
    if |years| == 0 then None
    else if years[0].year == year then Some(0)
    else
      match FindYear(years[1..], year)
      case Some(i) => Some(i + 1)
      case None => None
  }

  /** `months.map((m) => m.month)`. */
  function MonthNumbers(ms: seq<MonthEntry>): (r: seq<int>)
    ensures |r| == |ms| && forall j :: 0 <= j < |ms| ==> r[j] == ms[j].month
  {
    seq(|ms|, j requires 0 <= j < |ms| => ms[j].month)
  }

  /** Every month number that occurs under any year. */
  function AllMonths(years: seq<YearEntry>): set<int> {
    set i, j | 0 <= i < |years| && 0 <= j < |years[i].months| :: years[i].months[j].month
  }

  /** `availableMonths`: with a year selected, that year's months in the archive's order
      (none when the year is not in the archive); otherwise every month that occurs under
      any year, once, largest first. */
  function AvailableMonths(years: seq<YearEntry>, year: Option<int>): (r: seq<int>)
    ensures Truthy(year) && FindYear(years, year.value).None? ==> r == []
    ensures Truthy(year) && FindYear(years, year.value).Some? ==>
      r == MonthNumbers(years[FindYear(years, year.value).value].months)
    ensures !Truthy(year) ==> IntsDescending(r)
    ensures !Truthy(year) ==> forall m :: m in r <==>
      exists i, j :: 0 <= i < |years| && 0 <= j < |years[i].months| && years[i].months[j].month == m
  {
    if Truthy(year) then
      match FindYear(years, year.value)
      case Some(i) => MonthNumbers(years[i].months)
      case None => []
    else SortIntsDescending(AllMonths(years))
  }

  /** In a game's archive, every month offered without a year selected lists at least
      one date when chosen. */
  lemma OfferedMonthHasDates(dates: seq<string>, m: int)
    requires AllWellFormed(dates)
    requires m in AvailableMonths(ArchiveOf(Group(dates)), None)
    ensures ListedDates(ArchiveOf(Group(dates)), None, Some(m)) != []
  {
    var a := ArchiveOf(Group(dates));
    var i, j :| 0 <= i < |a| && 0 <= j < |a[i].months| && a[i].months[j].month == m;
    BucketContents(dates, i, j);
    MonthWithDatesListed(a, i, j);
  }

  /** Choosing the month of a month that holds a date lists that date. */
  lemma MonthWithDatesListed(a: seq<YearEntry>, i: int, j: int)
    requires 0 <= i < |a| && 0 <= j < |a[i].months| && |a[i].months[j].dates| > 0
    ensures ListedDates(a, None, Some(a[i].months[j].month)) != []
  {
    var m := a[i].months[j].month;
    var e := DateEntry(a[i].months[j].dates[0], a[i].year, m);
    ListedAllMembers(a, e);
    ListedMembers(a, None, Some(m), e);
  }

  // ---------------------------------------------------------------------------
  // The query string.

  /** The value written for a filter: its number when it is on, "all" otherwise. */
  function QueryValue(sel: Option<int>): (r: string)
    ensures Truthy(sel) ==> r == IntToString(sel.value)
    ensures !Truthy(sel) ==> r == "all"
  {
    if Truthy(sel) then IntToString(sel.value) else "all"
  }

  /** `params.toString()` after setting "year" and "month"; digits, "-" and "all" need no
      escaping. */
  function Query(year: Option<int>, month: Option<int>): string {
    "year=" + QueryValue(year) + "&month=" + QueryValue(month)
  }

  /** A parameter that names a filter value: present, not empty, not "all". */
  predicate ParamGiven(param: Option<string>) {
    param.Some? && param.value != "" && param.value != "all"
  }

  /** The year a "year" parameter selects against the known years: its `parseInt` when
      that is one of them, none otherwise. */
  function YearFromParam(param: Option<string>, known: seq<int>): (r: Option<int>)
    ensures r.Some? ==> ParamGiven(param) && r == ParseInt(param.value) && r.value in known
    ensures ParamGiven(param) && ParseInt(param.value).Some? && ParseInt(param.value).value in known ==> r == ParseInt(param.value)
  {
    if ParamGiven(param) then
      var y := ParseInt(param.value);
      if y.Some? && y.value in known then y else None
    else None
  }

  /** The month a "month" parameter selects: its `parseInt`, unchecked. */
  function MonthFromParam(param: Option<string>): (r: Option<int>)
    ensures !ParamGiven(param) ==> r == None
    ensures ParamGiven(param) ==> r == ParseInt(param.value)
  {
    if ParamGiven(param) then ParseInt(param.value) else None
  }

  /** Reading back the query values: a year that is on and known, and a month that is on,
      come back as they were; a filter that is off comes back off. */
  lemma QueryRoundTrip(year: Option<int>, month: Option<int>, known: seq<int>)
    ensures Truthy(year) && year.value in known ==> YearFromParam(Some(QueryValue(year)), known) == year
    ensures !Truthy(year) ==> YearFromParam(Some(QueryValue(year)), known) == None
    ensures Truthy(month) ==> MonthFromParam(Some(QueryValue(month))) == month
    ensures !Truthy(month) ==> MonthFromParam(Some(QueryValue(month))) == None
  {
    if Truthy(year) {
      SelectRoundTrip(year);
    }
    if Truthy(month) {
      SelectRoundTrip(month);
    }
  }
}
