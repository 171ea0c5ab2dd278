/** The third game's archive page (app/games/g3/archive/page.tsx): the Signal Decoding
    dates with each date's tags, filtered by year and month; the address parameters are
    applied once the archive has loaded, and the address is rewritten only when it
    changes. */
module G3Archive {
  import opened Wrappers
  import opened Text
  import opened QuizModel
  import opened QuizApi
  import opened QuizApiClient
  import opened GamesData
  import opened ArchiveView
  import opened ArchiveCard

  const ARCHIVE_PATH: string := "/games/g3/archive?"

  /** `date.replace(/-/g, '')`. */
  function RouteDate(date: string): (r: string)
    ensures '-' !in r
  {
    RemoveChar(date, '-')
  }

  /** For a "YYYY-MM-DD" date the route date is the eight digits "YYYYMMDD", and two such
      dates with the same route date are the same date. */
  lemma RouteDateOfIso(yyyy: string, mm: string, dd: string)
    requires IsDigits(yyyy) && IsDigits(mm) && IsDigits(dd)
    ensures RouteDate(yyyy + "-" + mm + "-" + dd) == yyyy + mm + dd
  {
    DigitsHaveNoHyphen(yyyy);
    DigitsHaveNoHyphen(mm);
    DigitsHaveNoHyphen(dd);
    RemoveCharAbsent(yyyy, '-');
    RemoveCharAbsent(mm, '-');
    RemoveCharAbsent(dd, '-');
    RemoveHyphenBetween(yyyy + "-" + mm, dd);
    RemoveHyphenBetween(yyyy, mm);
  }

  /** Different four-two-two digit dates never share a route. */
  lemma RouteDateInjective(y1: string, m1: string, d1: string, y2: string, m2: string, d2: string)
    requires |y1| == 4 && |m1| == 2 && |d1| == 2 && IsDigits(y1) && IsDigits(m1) && IsDigits(d1)
    requires |y2| == 4 && |m2| == 2 && |d2| == 2 && IsDigits(y2) && IsDigits(m2) && IsDigits(d2)
    requires RouteDate(y1 + "-" + m1 + "-" + d1) == RouteDate(y2 + "-" + m2 + "-" + d2)
    ensures y1 + "-" + m1 + "-" + d1 == y2 + "-" + m2 + "-" + d2
  {
    RouteDateOfIso(y1, m1, d1);
    RouteDateOfIso(y2, m2, d2);
    var r1 := y1 + m1 + d1;
    var r2 := y2 + m2 + d2;
    assert r1[..4] == y1 && r1[4..6] == m1 && r1[6..] == d1;
    assert r2[..4] == y2 && r2[4..6] == m2 && r2[6..] == d2;
  }

  /** The tags of one date: the distinct non-empty tags of its Signal Decoding questions,
      in first-occurrence order. */
  function DateTags(data: QuizData, date: string): (r: seq<string>)
    ensures forall i, j :: 0 <= i < j < |r| ==> r[i] != r[j]
    ensures forall t :: t in r <==> exists q :: q in QuestionsForDate(data, SignalDecoding, date) && TagOf(q) == Some(t)
  {
    var qs := QuestionsForDate(data, SignalDecoding, date);
    var r := UniqueTags(qs);
    forall t ensures t in r <==> exists q :: q in qs && TagOf(q) == Some(t) {
      if t in r {
        var k :| 0 <= k < |qs| && TagOf(qs[k]) == Some(t);
        assert qs[k] in qs;
      }
    }
    r
  }

  /** The keys of a tag map are the dates of the entries visited so far. */
  ghost predicate KeyedBy(tagsMap: map<string, seq<string>>, seen: seq<DateEntry>) {
    forall d :: d in tagsMap <==> HasDate(seen, d)
  }

  /** Every key of a tag map holds that date's tags. */
  predicate TagsRight(data: QuizData, tagsMap: map<string, seq<string>>) {
    forall d :: d in tagsMap ==> tagsMap[d] == DateTags(data, d)
  }

  lemma KeyedStep(tagsMap: map<string, seq<string>>, seen: seq<DateEntry>, e: DateEntry, v: seq<string>)
    requires KeyedBy(tagsMap, seen)
    ensures KeyedBy(tagsMap[e.date := v], seen + [e])
  {
    forall d ensures d in tagsMap[e.date := v] <==> HasDate(seen + [e], d) {
      if d in tagsMap && d != e.date {
        var x :| x in seen && x.date == d;
        assert x in seen + [e];
      }
      if d == e.date {
        assert e in seen + [e];
      }
      if HasDate(seen + [e], d) && d != e.date {
        var x :| x in seen + [e] && x.date == d;
        assert x in seen;
      }
    }
  }

  /** The innermost loop: one month's dates, each with its tags. */
  method CollectMonthTags(data: QuizData, year: int, monthData: MonthEntry, tagsMap0: map<string, seq<string>>, ghost seen0: seq<DateEntry>)
    returns (tagsMap: map<string, seq<string>>, ghost seen: seq<DateEntry>)
    requires KeyedBy(tagsMap0, seen0) && TagsRight(data, tagsMap0)
    ensures seen == seen0 + MonthDates(year, monthData)
    ensures KeyedBy(tagsMap, seen) && TagsRight(data, tagsMap)
  {
    tagsMap := tagsMap0;
    seen := seen0;
    for k := 0 to |monthData.dates|
      invariant seen == seen0 + MonthDates(year, monthData)[..k]
      invariant KeyedBy(tagsMap, seen) && TagsRight(data, tagsMap)
    {
      var dateStr := monthData.dates[k];
      var questions := QuestionsForDate(data, SignalDecoding, dateStr);
      var uniqueTags := CollectTags(questions);
      var entry := DateEntry(dateStr, year, monthData.month);
      KeyedStep(tagsMap, seen, entry, uniqueTags);
      tagsMap := tagsMap[dateStr := uniqueTags];
      assert MonthDates(year, monthData)[..k + 1] == MonthDates(year, monthData)[..k] + [entry];
      seen := seen + [entry];
    }
    assert MonthDates(year, monthData)[..|monthData.dates|] == MonthDates(year, monthData);
  }

  /** The middle loop: one year's months, each month's dates with their tags. */
  method CollectYearTags(data: QuizData, yearData: YearEntry, tagsMap0: map<string, seq<string>>, ghost seen0: seq<DateEntry>)
    returns (tagsMap: map<string, seq<string>>, ghost seen: seq<DateEntry>)
    requires KeyedBy(tagsMap0, seen0) && TagsRight(data, tagsMap0)
    ensures seen == seen0 + MonthsDates(yearData.year, yearData.months, None)
    ensures KeyedBy(tagsMap, seen) && TagsRight(data, tagsMap)
  {
    tagsMap := tagsMap0;
    seen := seen0;
    for j := 0 to |yearData.months|
      invariant seen == seen0 + MonthsDates(yearData.year, yearData.months[..j], None)
      invariant KeyedBy(tagsMap, seen) && TagsRight(data, tagsMap)
    {
      assert yearData.months[..j + 1][..j] == yearData.months[..j];
      tagsMap, seen := CollectMonthTags(data, yearData.year, yearData.months[j], tagsMap, seen);
    }
    assert yearData.months[..|yearData.months|] == yearData.months;
  }

  /** The tag-loading loop of `loadData()`: for every date of the archive, one date after
      another, its tag list. The keys are exactly the archive's dates, each holding its own
      tags. */
  method CollectDateTags(data: QuizData, years: seq<YearEntry>) returns (tagsMap: map<string, seq<string>>)
    ensures forall d :: d in tagsMap <==> HasDate(ListedDates(years, None, None), d)
    ensures forall d :: d in tagsMap ==> tagsMap[d] == DateTags(data, d)
  {
    tagsMap := map[];
    ghost var seen: seq<DateEntry> := [];
    for i := 0 to |years|
      invariant seen == ListedDates(years[..i], None, None)
      invariant KeyedBy(tagsMap, seen) && TagsRight(data, tagsMap)
    {
      assert years[..i + 1][..i] == years[..i];
      tagsMap, seen := CollectYearTags(data, years[i], tagsMap, seen);
    }
    assert years[..|years|] == years;
  }

  class G3ArchivePage {
    var archive: seq<YearEntry>
    var loading: bool
    var dateTags: map<string, seq<string>>
    var selectedYear: Option<int>
    var selectedMonth: Option<int>
    var initialized: bool
    /** The address the browser shows. */
    var location: string

    constructor (url: string)
      ensures archive == [] && loading && dateTags == map[]
      ensures selectedYear == None && selectedMonth == None && !initialized
      ensures location == url
    {
      archive := [];
      loading := true;
      dateTags := map[];
      selectedYear := None;
      selectedMonth := None;
      initialized := false;
      location := url;
    }

    /** `loadData()`: the archive of the Signal Decoding dates, then the tag list of every
        date in it, one date after another. Every date of the game gets exactly its own
        tags, and no other key is made. */
    method LoadData(data: QuizData)
      requires forall d :: d in data.Get(SignalDecoding) ==> WellFormedDate(d)
      modifies this
      ensures archive == ArchiveOf(Group(AvailableDates(data, SignalDecoding)))
      ensures forall d :: d in dateTags <==> d in AvailableDates(data, SignalDecoding)
      ensures forall d :: d in dateTags ==> dateTags[d] == DateTags(data, d)
      ensures !loading
      ensures selectedYear == old(selectedYear) && selectedMonth == old(selectedMonth)
      ensures initialized == old(initialized) && location == old(location)
    {
      var years := GetArchiveStructure(data, SignalDecoding);
      var tagsMap := CollectDateTags(data, years);
      forall d ensures d in tagsMap <==> d in AvailableDates(data, SignalDecoding) {
        ArchiveHasEveryDate(AvailableDates(data, SignalDecoding), d);
      }
      archive := years;
      dateTags := tagsMap;
      loading := false;
    }

    /** The parameter effect: once the archive has loaded and only the first time, a year
        parameter naming one of the loaded years selects it, and a month parameter is
        taken unchecked. */
    method Initialize(yearParam: Option<string>, monthParam: Option<string>)
      modifies this
      ensures old(initialized) || |archive| == 0 ==>
        initialized == old(initialized) && selectedYear == old(selectedYear) && selectedMonth == old(selectedMonth)
      ensures !old(initialized) && |archive| > 0 ==>
        && initialized
        && selectedYear == (if YearFromParam(yearParam, YearsOf(archive)).Some? then YearFromParam(yearParam, YearsOf(archive)) else old(selectedYear))
        && selectedMonth == (if ParamGiven(monthParam) then MonthFromParam(monthParam) else old(selectedMonth))
      ensures archive == old(archive) && loading == old(loading) && dateTags == old(dateTags) && location == old(location)
    {
      if !initialized && |archive| > 0 {
        var year := YearFromParam(yearParam, YearsOf(archive));
        var given := ParamGiven(monthParam);
        var month := MonthFromParam(monthParam);
        selectedYear := if year.Some? then year else selectedYear;
        selectedMonth := if given then month else selectedMonth;
        initialized := true;
      }
    }

    /** The address effect: before initialisation nothing happens; afterwards the address
        becomes the archive path with "year" and "month" set to the filter or "all", and
        is replaced only when that differs from the current one. */
    method SyncUrl() returns (replaced: bool)
      modifies this
      ensures !initialized ==> !replaced && location == old(location)
      ensures initialized ==> location == ARCHIVE_PATH + Query(selectedYear, selectedMonth)
      ensures replaced <==> initialized && old(location) != ARCHIVE_PATH + Query(selectedYear, selectedMonth)
      ensures archive == old(archive) && loading == old(loading) && dateTags == old(dateTags)
      ensures selectedYear == old(selectedYear) && selectedMonth == old(selectedMonth) && initialized == old(initialized)
    {
      replaced := false;
      if !initialized {
        return;
      }
      var newUrl := ARCHIVE_PATH + Query(selectedYear, selectedMonth);
      if newUrl != location {
        location := newUrl;
        replaced := true;
      }
    }

    /** `handleYearChange(value)`. */
    method HandleYearChange(value: string)
      modifies this
      ensures selectedYear == SelectValue(value)
      ensures archive == old(archive) && loading == old(loading) && dateTags == old(dateTags)
      ensures selectedMonth == old(selectedMonth) && initialized == old(initialized) && location == old(location)
    {
      selectedYear := if value == "all" then None else ParseInt(value);
    }

    /** `handleMonthChange(value)`. */
    method HandleMonthChange(value: string)
      modifies this
      ensures selectedMonth == SelectValue(value)
      ensures archive == old(archive) && loading == old(loading) && dateTags == old(dateTags)
      ensures selectedYear == old(selectedYear) && initialized == old(initialized) && location == old(location)
    {
      selectedMonth := if value == "all" then None else ParseInt(value);
    }

    /** `clearFilters()`. */
    method ClearFilters()
      modifies this
      ensures selectedYear == None && selectedMonth == None
      ensures archive == old(archive) && loading == old(loading) && dateTags == old(dateTags)
      ensures initialized == old(initialized) && location == old(location)
    {
      selectedYear := None;
      selectedMonth := None;
    }

    /** `allDates` for the current archive and filters. */
    method ListDates() returns (entries: seq<DateEntry>)
      ensures entries == ListedDates(archive, selectedYear, selectedMonth)
    {
      entries := CollectDates(archive, selectedYear, selectedMonth);
    }

    /** The card for one listed date: four questions, the date's tags (none when it has
        no entry), today's badge only for today's date, and a link to the date's page. */
    function CardFor(date: string, today: string): (r: CardProps)
      reads this
      ensures r.date == date && r.questionCount == 4
      ensures date in dateTags ==> r.tags == dateTags[date]
      ensures date !in dateTags ==> r.tags == []
      ensures r.isToday <==> date == today
      ensures r.href == "/games/g3/" + RouteDate(date)
    {
      CardProps("g3", date, 4, date == today, "/games/g3/" + RouteDate(date),
        if date in dateTags then dateTags[date] else [])
    }
  }

  /** A page opened on an address the page wrote itself comes back, once the same archive
      has loaded, to the same filters, and then leaves the address as it is. */
  method ReopenedPage(data: QuizData, year: Option<int>, month: Option<int>) returns (page: G3ArchivePage, replaced: bool)
    requires forall d :: d in data.Get(SignalDecoding) ==> WellFormedDate(d)
    requires |AvailableDates(data, SignalDecoding)| > 0
    requires Truthy(year) ==> year.value in YearsOf(ArchiveOf(Group(AvailableDates(data, SignalDecoding))))
    ensures Truthy(year) ==> page.selectedYear == year
    ensures !Truthy(year) ==> page.selectedYear == None
    ensures Truthy(month) ==> page.selectedMonth == month
    ensures !Truthy(month) ==> page.selectedMonth == None
    ensures !replaced
  {
    var archive := ArchiveOf(Group(AvailableDates(data, SignalDecoding)));
    QueryRoundTrip(year, month, YearsOf(archive));
    page := new G3ArchivePage(ARCHIVE_PATH + Query(year, month));
    page.LoadData(data);
    ArchiveNonEmpty(AvailableDates(data, SignalDecoding));
    page.Initialize(Some(QueryValue(year)), Some(QueryValue(month)));
    assert Truthy(page.selectedYear) == Truthy(year) && Truthy(page.selectedMonth) == Truthy(month);
    assert Query(page.selectedYear, page.selectedMonth) == Query(year, month);
    replaced := page.SyncUrl();
  }

  /** A game with at least one date has a non-empty archive. */
  lemma ArchiveNonEmpty(dates: seq<string>)
    requires AllWellFormed(dates) && |dates| > 0
    ensures |ArchiveOf(Group(dates))| > 0
  {
    DateHasBucket(dates, dates[0]);
  }
}
