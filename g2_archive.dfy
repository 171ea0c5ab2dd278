/** The second game's archive page (app/games/g2/archive/client-page.tsx): the Prisoner's
    Dilemma dates, filtered by year and month, the filters mirrored in the address. */
module G2Archive {
  import opened Wrappers
  import opened Text
  import opened QuizModel
  import opened QuizApi
  import opened QuizApiClient
  import opened GamesData
  import opened ArchiveView
  import opened ArchiveCard
  import G1Page

  const ARCHIVE_PATH: string := "/games/g2/archive?"

  /** A field of `date.split("-")`, or the text a template literal prints for a missing
      one. */
  function FieldOr(parts: seq<string>, i: nat): string {
    if i < |parts| then parts[i] else "undefined"
  }

  /** `shortDate`: `${y.slice(2)}${m}${d}` over the hyphen-separated fields. */
  function RouteDate(date: string): string {
    var parts := SplitOn(date, '-');
    DropFront(parts[0], 2) + FieldOr(parts, 1) + FieldOr(parts, 2)
  }

  /** For a "YYYY-MM-DD" date the route date is the compact "YYMMDD" form `ymdToYYMMDD`
      gives, and in the years 2000 to 2099 expanding it again gives the date back. */
  lemma RouteDateOfIso(yyyy: string, mm: string, dd: string)
    requires |yyyy| == 4 && IsDigits(yyyy) && IsDigits(mm) && IsDigits(dd)
    ensures RouteDate(yyyy + "-" + mm + "-" + dd) == yyyy[2..] + mm + dd
    ensures RouteDate(yyyy + "-" + mm + "-" + dd) == YmdToYYMMDD(yyyy + "-" + mm + "-" + dd)
    ensures |mm| == 2 && |dd| == 2 && yyyy[..2] == "20" ==>
      G1Page.ExpandYYMMDD(RouteDate(yyyy + "-" + mm + "-" + dd)) == yyyy + "-" + mm + "-" + dd
  {
    var date := yyyy + "-" + mm + "-" + dd;
    DigitsHaveNoHyphen(yyyy);
    DigitsHaveNoHyphen(mm);
    DigitsHaveNoHyphen(dd);
    assert date == yyyy + ['-'] + (mm + ['-'] + dd);
    SplitOnField(yyyy, '-', mm + ['-'] + dd);
    SplitOnField(mm, '-', dd);
    SplitOnWhole(dd, '-');
    assert SplitOn(date, '-') == [yyyy, mm, dd];
    YmdToYYMMDDOfIso(yyyy, mm, dd);
    if |mm| == 2 && |dd| == 2 && yyyy[..2] == "20" {
      var s := yyyy[2..] + mm + dd;
      assert s[0..2] == yyyy[2..] && s[2..4] == mm && s[4..6] == dd;
      assert "20" + yyyy[2..] == yyyy;
    }
  }

  /** The card for one listed date: four questions, no tags, today's badge only for
      today's date, and a link to the date's page. */
  function CardFor(date: string, today: string): (r: CardProps)
    ensures r.date == date && r.questionCount == 4 && r.tags == []
    ensures r.isToday <==> date == today
    ensures r.href == "/games/g2/" + RouteDate(date)
  {
    CardProps("g2", date, 4, date == today, "/games/g2/" + RouteDate(date), [])
  }

  /** A past date's card shows "4문제" and the "other" tag, and links to the compact form
      of its date. */
  lemma PastCard(yyyy: string, mm: string, dd: string, today: string)
    requires |yyyy| == 4 && IsDigits(yyyy) && IsDigits(mm) && IsDigits(dd)
    requires yyyy + "-" + mm + "-" + dd != today
    ensures var c := CardFor(yyyy + "-" + mm + "-" + dd, today);
      && Badge(c.isToday, c.questionCount) == "4문제"
      && TagRow(c.tags) == [OtherTag]
      && c.href == "/games/g2/" + yyyy[2..] + mm + dd
  {
    RouteDateOfIso(yyyy, mm, dd);
    assert NatToString(4) == "4";
  }

  /** On the first render the archive is still empty, so a "year" parameter is checked
      against no years at all: even a year the archive holds is dropped, while the same
      check against the loaded years would have kept it. */
  lemma UrlYearIsDropped(archive: seq<YearEntry>, y: nat)
    requires y > 0 && y in YearsOf(archive)
    ensures YearFromParam(Some(NatToString(y)), YearsOf([])) == None
    ensures YearFromParam(Some(NatToString(y)), YearsOf(archive)) == Some(y)
  {
    ParseIntOfNatToString(y);
    assert NatToString(y) != "all" by {
      assert IsDigit(NatToString(y)[0]);
    }
  }

  class G2ArchivePage {
    var archive: seq<YearEntry>
    var loading: bool
    var selectedYear: Option<int>
    var selectedMonth: Option<int>
    /** The address the router shows. */
    var location: string

    /** The first render, with the "year" and "month" search parameters: the year is
        checked against the still-empty list of years, so it is never selected; the
        month is taken unchecked. */
    constructor (url: string, yearParam: Option<string>, monthParam: Option<string>)
      ensures archive == [] && loading && location == url
      ensures selectedYear == YearFromParam(yearParam, YearsOf([])) == None
      ensures selectedMonth == MonthFromParam(monthParam)
    {
      archive := [];
      loading := true;
      selectedYear := YearFromParam(yearParam, YearsOf([]));
      selectedMonth := MonthFromParam(monthParam);
      location := url;
    }

    /** The loading effect: the archive of the Prisoner's Dilemma dates. */
    method LoadArchive(data: QuizData)
      requires forall d :: d in data.Get(PrisonersDilemma) ==> WellFormedDate(d)
      modifies this
      ensures archive == ArchiveOf(Group(AvailableDates(data, PrisonersDilemma)))
      ensures !loading
      ensures selectedYear == old(selectedYear) && selectedMonth == old(selectedMonth) && location == old(location)
    {
      archive := GetArchiveStructure(data, PrisonersDilemma);
      loading := false;
    }

    /** The year parameter applied once the archive is loaded, checked against the years
        it holds: a known year is selected, anything else leaves the selection as it is. */
    method ApplyYearParam(yearParam: Option<string>)
      modifies this
      ensures YearFromParam(yearParam, YearsOf(archive)).Some? ==> selectedYear == YearFromParam(yearParam, YearsOf(archive))
      ensures YearFromParam(yearParam, YearsOf(archive)).None? ==> selectedYear == old(selectedYear)
      ensures archive == old(archive) && loading == old(loading)
      ensures selectedMonth == old(selectedMonth) && location == old(location)
    {
      var y := YearFromParam(yearParam, YearsOf(archive));
      if y.Some? {
        selectedYear := y;
      }
    }

    /** The effect that follows the filters: the address becomes the archive path with
        "year" and "month" set to the filter or "all". */
    method SyncUrl()
      modifies this
      ensures location == ARCHIVE_PATH + Query(selectedYear, selectedMonth)
      ensures archive == old(archive) && loading == old(loading)
      ensures selectedYear == old(selectedYear) && selectedMonth == old(selectedMonth)
    {
      location := ARCHIVE_PATH + Query(selectedYear, selectedMonth);
    }

    /** `handleYearChange(value)`. */
    method HandleYearChange(value: string)
      modifies this
      ensures selectedYear == SelectValue(value)
      ensures archive == old(archive) && loading == old(loading)
      ensures selectedMonth == old(selectedMonth) && location == old(location)
    {
      selectedYear := if value == "all" then None else ParseInt(value);
    }

    /** `handleMonthChange(value)`. */
    method HandleMonthChange(value: string)
      modifies this
      ensures selectedMonth == SelectValue(value)
      ensures archive == old(archive) && loading == old(loading)
      ensures selectedYear == old(selectedYear) && location == old(location)
    {
      selectedMonth := if value == "all" then None else ParseInt(value);
    }

    /** `clearFilters()`: both filters off, which lists the whole archive. */
    method ClearFilters()
      modifies this
      ensures selectedYear == None && selectedMonth == None
      ensures archive == old(archive) && loading == old(loading) && location == old(location)
    {
      selectedYear := None;
      selectedMonth := None;
    }

    /** `allDates` for the current archive and filters. */
    method ListDates() returns (entries: seq<DateEntry>)
      ensures entries == ListedDates(archive, selectedYear, selectedMonth)
    {
      entries := CollectDates(archive, selectedYear, selectedMonth);
    }
  }

  /** A page opened on an address the page wrote itself, with the year applied once the
      same archive has loaded, comes back to the same filters: the year when it was on
      and known, and the month when it was on. */
  method ReopenedPage(data: QuizData, year: Option<int>, month: Option<int>) returns (page: G2ArchivePage)
    requires forall d :: d in data.Get(PrisonersDilemma) ==> WellFormedDate(d)
    requires Truthy(year) ==> year.value in YearsOf(ArchiveOf(Group(AvailableDates(data, PrisonersDilemma))))
    ensures Truthy(year) ==> page.selectedYear == year
    ensures !Truthy(year) ==> page.selectedYear == None
    ensures Truthy(month) ==> page.selectedMonth == month
    ensures !Truthy(month) ==> page.selectedMonth == None
  {
    QueryRoundTrip(year, month, YearsOf(ArchiveOf(Group(AvailableDates(data, PrisonersDilemma)))));
    page := new G2ArchivePage(ARCHIVE_PATH + Query(year, month), Some(QueryValue(year)), Some(QueryValue(month)));
    page.LoadArchive(data);
    page.ApplyYearParam(Some(QueryValue(year)));
  }
}
