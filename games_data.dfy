/** The lookup layer over the quiz dataset (lib/games-data.ts): a second, never-expiring
    cache over the gateway, per-date lookup, dates newest first, the year and month
    archive, and the per-date tag summary. */
module GamesData {
  import opened Wrappers
  import opened Text
  import opened QuizModel
  import opened QuizApiClient

  // ---------------------------------------------------------------------------
  // Lookups.

  /** `getQuestionsForDate(gameType, date)`: the stored list, empty when the date is
      absent. */
  function QuestionsForDate(data: QuizData, g: GameType, date: string): (r: seq<Question>)
    ensures date in data.Get(g) ==> r == data.Get(g)[date]
    ensures date !in data.Get(g) ==> r == []
  {
    if date in data.Get(g) then data.Get(g)[date] else []
  }

  /** `hasQuestionsForDate(gameType, date)`. */
  function HasQuestionsForDate(data: QuizData, g: GameType, date: string): (r: bool)
    ensures r <==> date in data.Get(g) && |data.Get(g)[date]| > 0
  {
    |QuestionsForDate(data, g, date)| > 0
  }

  /** `getAvailableDates(gameType)`: the game's dates, each once, newest first. */
  function AvailableDates(data: QuizData, g: GameType): (r: seq<string>)
    ensures |r| == |data.Get(g).Keys|
    ensures forall d :: d in r <==> d in data.Get(g)
    ensures StrictlyDescending(r)
  {
    SortDescending(data.Get(g).Keys)
  }

  /** `getMostRecentDate(gameType)`: the first available date, or null without dates. */
  function MostRecentDate(data: QuizData, g: GameType): (r: Option<string>)
    ensures r.None? <==> |data.Get(g)| == 0
    ensures r.Some? ==> r.value in data.Get(g) && forall d :: d in data.Get(g) ==> LexLe(d, r.value)
  {
    var dates := AvailableDates(data, g);
    if |dates| > 0 then
      assert forall d :: d in data.Get(g) ==> LexLe(d, dates[0]) by {
        forall d | d in data.Get(g) ensures LexLe(d, dates[0]) {
          var k :| 0 <= k < |dates| && dates[k] == d;
          if k > 0 { } else { LexLeReflexive(d); }
        }
      }
      Some(dates[0])
    else None
  }

  // ---------------------------------------------------------------------------
  // Tags.

  /** The tag a question contributes: its `tags` value when that is a non-empty string. */
  function TagOf(q: Question): Option<string> {
    if q.tags.Some? && q.tags.value != "" then q.tags else None
  }

  /** The distinct tags of the questions in first-occurrence order, as a `Set` filled in
      question order yields them. */
  function UniqueTags(qs: seq<Question>): (r: seq<string>)
    ensures forall i, j :: 0 <= i < j < |r| ==> r[i] != r[j]
    ensures forall t :: t in r <==> exists k :: 0 <= k < |qs| && TagOf(qs[k]) == Some(t)
  {
    if |qs| == 0 then []
    else
      var init := qs[..|qs| - 1];
      var before := UniqueTags(init);
      var t := TagOf(qs[|qs| - 1]);
      assert forall k :: 0 <= k < |init| ==> init[k] == qs[k];
      if t.Some? && t.value !in before then before + [t.value] else before
  }

  /** The tags first seen among the first n questions come first, in the same order:
      later questions only add tags at the end. */
  lemma {:induction false} UniqueTagsPrefix(qs: seq<Question>, n: nat)
    requires n <= |qs|
    ensures UniqueTags(qs[..n]) <= UniqueTags(qs)
    decreases |qs| - n
  {
    if n < |qs| {
      UniqueTagsPrefix(qs, n + 1);
      var p := qs[..n + 1];
      assert p[..|p| - 1] == qs[..n];
    } else {
      assert qs[..n] == qs;
    }
  }

  /** The tag-collecting loop of `getTagsForDate`. */
  method CollectTags(questions: seq<Question>) returns (tags: seq<string>)
    ensures tags == UniqueTags(questions)
  {
    tags := [];
    for i := 0 to |questions|
      invariant tags == UniqueTags(questions[..i])
    {
      assert questions[..i + 1][..i] == questions[..i];
      var q := questions[i];
      if q.tags.Some? && q.tags.value != "" && q.tags.value !in tags {
        tags := tags + [q.tags.value];
      }
    }
    assert questions[..|questions|] == questions;
  }

  /** The first three tags to show and how many more there are. */
  datatype TagSummary = TagSummary(displayTags: seq<string>, remainingCount: int)

  /** The summary rule of `getTagsForDate`: up to three tags shown as they are,
      otherwise the first three and the count of the rest. */
  function Summarize(tags: seq<string>): (r: TagSummary)
    ensures r.displayTags <= tags && |r.displayTags| <= 3
    ensures |r.displayTags| == |tags| || |r.displayTags| == 3
    ensures |r.displayTags| + r.remainingCount == |tags|
    ensures r.remainingCount == 0 <==> |tags| <= 3
  {
    if |tags| <= 3 then TagSummary(tags, 0)
    else TagSummary(tags[..3], |tags| - 3)
  }

  /** `getTagsForDate(gameType, date)`. */
  method GetTagsForDate(data: QuizData, g: GameType, date: string) returns (r: TagSummary)
    ensures r == Summarize(UniqueTags(QuestionsForDate(data, g, date)))
  {
    var questions := QuestionsForDate(data, g, date);
    var tags := CollectTags(questions);
    r := if |tags| <= 3 then TagSummary(tags, 0) else TagSummary(tags[..3], |tags| - 3);
  }

  // ---------------------------------------------------------------------------
  // The archive.

  /** A date whose first two hyphen-separated fields are decimal digits, as the
      archive's `split("-").map(Number)` needs. */
  predicate WellFormedDate(d: string) {
    var parts := SplitOn(d, '-');
    |parts| >= 2 && IsDigits(parts[0]) && IsDigits(parts[1])
  }

  /** The year and month `split("-").map(Number)` reads from a date. */
  function YearMonth(d: string): (int, int)
    requires WellFormedDate(d)
  {
    var parts := SplitOn(d, '-');
    (DigitsValue(parts[0]), DigitsValue(parts[1]))
  }

  predicate AllWellFormed(dates: seq<string>) {
    forall k :: 0 <= k < |dates| ==> WellFormedDate(dates[k])
  }

  /** The year map the grouping loop builds: each date pushed, in order, onto the list of
      its year and month. */
  function Group(dates: seq<string>): map<int, map<int, seq<string>>>
    requires AllWellFormed(dates)
  {
    if |dates| == 0 then map[]
    else
      var d := dates[|dates| - 1];
      var g := Group(dates[..|dates| - 1]);
      var (y, m) := YearMonth(d);
      var months := if y in g then g[y] else map[];
      var bucket := if m in months then months[m] else [];
      g[y := months[m := bucket + [d]]]
  }

  /** Every date has a bucket under its own year and month. */
  lemma {:induction false} GroupHasDate(dates: seq<string>, d: string)
    requires AllWellFormed(dates) && d in dates
    ensures YearMonth(d).0 in Group(dates) && YearMonth(d).1 in Group(dates)[YearMonth(d).0]
  {
    var init := dates[..|dates| - 1];
    var last := dates[|dates| - 1];
    if d != last {
      assert d in init by {
        var k :| 0 <= k < |dates| && dates[k] == d;
        assert init[k] == d;
      }
      GroupHasDate(init, d);
    }
  }

  /** A bucket holds exactly the dates of its year and month, and is not empty. */
  lemma {:induction false} GroupBucket(dates: seq<string>, y: int, m: int, d: string)
    requires AllWellFormed(dates) && y in Group(dates) && m in Group(dates)[y]
    ensures d in Group(dates)[y][m] <==> d in dates && YearMonth(d) == (y, m)
    ensures |Group(dates)[y][m]| > 0
  {
    var init := dates[..|dates| - 1];
    var last := dates[|dates| - 1];
    assert d in dates <==> d in init || d == last;
    var g := Group(init);
    if YearMonth(last) == (y, m) {
      if y in g && m in g[y] {
        GroupBucket(init, y, m, d);
      } else if d in init && YearMonth(d) == (y, m) {
        GroupHasDate(init, d);
      }
    } else {
      GroupBucket(init, y, m, d);
    }
  }

  /** The grouping loop of `getArchiveStructure`. */
  method GroupDates(dates: seq<string>) returns (yearMap: map<int, map<int, seq<string>>>)
    requires AllWellFormed(dates)
    ensures yearMap == Group(dates)
  {
    yearMap := map[];
    for i := 0 to |dates|
      invariant yearMap == Group(dates[..i])
    {
      var p := dates[..i + 1];
      assert p[..|p| - 1] == dates[..i];
      var dateStr := dates[i];
      assert p[|p| - 1] == dateStr;
      assert AllWellFormed(p);
      var (year, month) := YearMonth(dateStr);
      var monthMap := if year in yearMap then yearMap[year] else map[];
      var bucket := if month in monthMap then monthMap[month] else [];
      yearMap := yearMap[year := monthMap[month := bucket + [dateStr]]];
    }
    assert dates[..|dates|] == dates;
  }

  datatype MonthEntry = MonthEntry(month: int, dates: seq<string>)
  datatype YearEntry = YearEntry(year: int, months: seq<MonthEntry>)

  /** The set of elements of a list. */
  function Elements(s: seq<string>): (r: set<string>)
    ensures forall x :: x in r <==> x in s
  {
    set x | x in s
  }

  /** The entries for the given months, in the given order, each with its dates newest
      first. */
  function MonthEntries(ms: seq<int>, monthMap: map<int, seq<string>>): (r: seq<MonthEntry>)
    requires forall i :: 0 <= i < |ms| ==> ms[i] in monthMap
    ensures |r| == |ms|
    ensures forall i :: 0 <= i < |r| ==> r[i] == MonthEntry(ms[i], BucketDates(monthMap[ms[i]]))
  {
    if |ms| == 0 then []
    else [MonthEntry(ms[0], BucketDates(monthMap[ms[0]]))] + MonthEntries(ms[1..], monthMap)
  }

  /** A bucket's dates newest first, each once, as `dates.sort((a, b) => b.localeCompare(a))`
      orders a list of distinct dates. */
  function BucketDates(bucket: seq<string>): (r: seq<string>)
    ensures StrictlyDescending(r)
    ensures forall d :: d in r <==> d in bucket
  {
    SortDescending(Elements(bucket))
  }

  lemma InBucketDates(bucket: seq<string>, d: string)
    requires d in bucket
    ensures d in BucketDates(bucket)
  {
  }

  /** One year's months, newest first, each with its dates newest first. */
  function MonthsOf(monthMap: map<int, seq<string>>): (r: seq<MonthEntry>)
    ensures |r| == |monthMap.Keys|
    ensures forall i, j :: 0 <= i < j < |r| ==> r[i].month > r[j].month
    ensures forall i :: 0 <= i < |r| ==> r[i].month in monthMap && r[i].dates == BucketDates(monthMap[r[i].month])
    ensures forall m :: m in monthMap ==> exists i :: 0 <= i < |r| && r[i].month == m
  {
    var ms := SortIntsDescending(monthMap.Keys);
    var r := MonthEntries(ms, monthMap);
    MonthEntriesFacts(monthMap, ms);
    r
  }

  lemma MonthEntriesFacts(monthMap: map<int, seq<string>>, ms: seq<int>)
    requires |ms| == |monthMap.Keys| && IntsDescending(ms)
    requires forall i :: 0 <= i < |ms| ==> ms[i] in monthMap
    requires forall m :: m in monthMap ==> m in ms
    ensures var r := MonthEntries(ms, monthMap);
      && |r| == |monthMap.Keys|
      && (forall i, j :: 0 <= i < j < |r| ==> r[i].month > r[j].month)
      && (forall i :: 0 <= i < |r| ==> r[i].month in monthMap && r[i].dates == BucketDates(monthMap[r[i].month]))
      && (forall m :: m in monthMap ==> exists i :: 0 <= i < |r| && r[i].month == m)
  {
    var r := MonthEntries(ms, monthMap);
    forall m | m in monthMap ensures exists i :: 0 <= i < |r| && r[i].month == m {
      var i :| 0 <= i < |ms| && ms[i] == m;
      assert r[i].month == m;
    }
  }

  /** The entries for the given years, in the given order. */
  function YearEntries(ys: seq<int>, yearMap: map<int, map<int, seq<string>>>): (r: seq<YearEntry>)
    requires forall i :: 0 <= i < |ys| ==> ys[i] in yearMap
    ensures |r| == |ys|
    ensures forall i :: 0 <= i < |r| ==> r[i].year == ys[i] && r[i].months == MonthsOf(yearMap[ys[i]])
  {
    if |ys| == 0 then []
    else [YearEntry(ys[0], MonthsOf(yearMap[ys[0]]))] + YearEntries(ys[1..], yearMap)
  }

  /** The years, newest first, each with its months. */
  function ArchiveOf(yearMap: map<int, map<int, seq<string>>>): (r: seq<YearEntry>)
    ensures |r| == |yearMap.Keys|
    ensures forall i, j :: 0 <= i < j < |r| ==> r[i].year > r[j].year
    ensures forall i :: 0 <= i < |r| ==> r[i].year in yearMap && r[i].months == MonthsOf(yearMap[r[i].year])
    ensures forall y :: y in yearMap ==> exists i :: 0 <= i < |r| && r[i].year == y
  {
    var ys := SortIntsDescending(yearMap.Keys);
    var r := YearEntries(ys, yearMap);
    YearEntriesFacts(yearMap, ys);
    r
  }

  lemma YearEntriesFacts(yearMap: map<int, map<int, seq<string>>>, ys: seq<int>)
    requires |ys| == |yearMap.Keys| && IntsDescending(ys)
    requires forall i :: 0 <= i < |ys| ==> ys[i] in yearMap
    requires forall y :: y in yearMap ==> y in ys
    ensures var r := YearEntries(ys, yearMap);
      && |r| == |yearMap.Keys|
      && (forall i, j :: 0 <= i < j < |r| ==> r[i].year > r[j].year)
      && (forall i :: 0 <= i < |r| ==> r[i].year in yearMap && r[i].months == MonthsOf(yearMap[r[i].year]))
      && (forall y :: y in yearMap ==> exists i :: 0 <= i < |r| && r[i].year == y)
  {
    var r := YearEntries(ys, yearMap);
    forall y | y in yearMap ensures exists i :: 0 <= i < |r| && r[i].year == y {
      var i :| 0 <= i < |ys| && ys[i] == y;
      assert r[i].year == y;
    }
  }

  /** A bucket of the archive holds precisely the dates of its year and month, newest
      first, and is never empty. */
  lemma BucketContents(dates: seq<string>, i: int, j: int)
    requires AllWellFormed(dates)
    requires 0 <= i < |ArchiveOf(Group(dates))| && 0 <= j < |ArchiveOf(Group(dates))[i].months|
    ensures var e := ArchiveOf(Group(dates))[i];
      forall d :: d in e.months[j].dates <==> d in dates && YearMonth(d) == (e.year, e.months[j].month)
    ensures |ArchiveOf(Group(dates))[i].months[j].dates| > 0
  {
    var g := Group(dates);
    var a := ArchiveOf(g);
    var e := a[i];
    var months := g[e.year];
    assert e.months == MonthsOf(months);
    var entry := e.months[j];
    assert entry.month in months && entry.dates == BucketDates(months[entry.month]);
    var bucket := months[entry.month];
    forall d ensures d in entry.dates <==> d in dates && YearMonth(d) == (e.year, entry.month) {
      GroupBucket(dates, e.year, entry.month, d);
    }
    GroupBucket(dates, e.year, entry.month, "");
    InBucketDates(bucket, bucket[0]);
  }

  /** Every date is in the archive, under its own year and month. */
  lemma DateHasBucket(dates: seq<string>, d: string)
    requires AllWellFormed(dates) && d in dates
    ensures var a := ArchiveOf(Group(dates));
      exists i, j :: 0 <= i < |a| && 0 <= j < |a[i].months|
        && a[i].year == YearMonth(d).0 && a[i].months[j].month == YearMonth(d).1
        && d in a[i].months[j].dates
  {
    GroupHasDate(dates, d);
    var g := Group(dates);
    var a := ArchiveOf(g);
    var (y, m) := YearMonth(d);
    GroupBucket(dates, y, m, d);
    var i :| 0 <= i < |a| && a[i].year == y;
    var months := a[i].months;
    assert months == MonthsOf(g[y]);
    var j :| 0 <= j < |months| && months[j].month == m;
    assert months[j].dates == BucketDates(g[y][m]);
    InBucketDates(g[y][m], d);
    assert d in months[j].dates;
  }

  /** `getArchiveStructure(gameType)`: the available dates grouped by year and month. */
  method GetArchiveStructure(data: QuizData, g: GameType) returns (years: seq<YearEntry>)
    requires forall d :: d in data.Get(g) ==> WellFormedDate(d)
    ensures AllWellFormed(AvailableDates(data, g))
    ensures years == ArchiveOf(Group(AvailableDates(data, g)))
  {
    var dates := AvailableDates(data, g);
    assert forall k :: 0 <= k < |dates| ==> dates[k] in data.Get(g);
    var yearMap := GroupDates(dates);
    years := ArchiveOf(yearMap);
  }

  // ---------------------------------------------------------------------------
  // The second cache.

  /** The module-level `cachedTypedQuizData` over the gateway. */
  class QuizDataLoader {
    const api: QuizApiCache
    var cachedTyped: Option<QuizData>

    constructor (api: QuizApiCache)
      ensures this.api == api && cachedTyped == None
    {
      this.api := api;
      cachedTyped := None;
    }

    /** `loadQuizData()`: the first result is kept for good, the empty shell included, and
        every later call returns it without touching the gateway. */
    method LoadQuizData(now: int, outcome: FetchOutcome, finishedAt: int) returns (r: QuizData)
      requires api.Valid()
      modifies this, api
      ensures api.Valid()
      ensures cachedTyped == Some(r)
      ensures old(cachedTyped).Some? ==>
        r == old(cachedTyped).value && api.cached == old(api.cached) && api.timestamp == old(api.timestamp)
      ensures old(cachedTyped).None? && old(api.cached).None? && !(outcome.Ok? && UnwrapBody(outcome.payload).Some?) ==>
        r == EMPTY
      ensures old(cachedTyped).None? && outcome.Ok? && UnwrapBody(outcome.payload).Some? && !old(IsFresh(api.cached, api.timestamp, now)) ==>
        r == Transform(UnwrapBody(outcome.payload).value)
    {
      if cachedTyped.Some? {
        return cachedTyped.value;
      }
      var requested;
      r, requested := api.FetchQuizData(now, outcome, finishedAt);
      cachedTyped := Some(r);
    }
  }
}
