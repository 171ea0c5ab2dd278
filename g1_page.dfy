/** The first game's today page (app/games/g1/page.client.tsx): today's "YYMMDD" date,
    expanded back to "20YY-MM-DD" to look up the Black Swan questions, which are mapped to
    the records the sequential player consumes. */
module G1Page {
  import opened Wrappers
  import opened Text
  import opened Calendar
  import opened QuizModel
  import opened QuizApi
  import opened QuizApiClient
  import opened GamesData
  import DateUtils

  /** "20" + yy + "-" + mm + "-" + dd, the three parts cut at fixed positions with
      `substring`. */
  function ExpandYYMMDD(date: string): (r: string)
  {
    "20" + Substring(date, 0, 2) + "-" + Substring(date, 2, 4) + "-" + Substring(date, 4, 6)
  }

  /** Expanding six digits and compacting again with `ymdToYYMMDD` gives them back. */
  lemma CompactExpanded(date: string)
    requires |date| == 6 && IsDigits(date)
    ensures YmdToYYMMDD(ExpandYYMMDD(date)) == date
  {
    var yyyy := "20" + date[..2];
    assert IsDigits(yyyy) by {
      assert forall i :: 0 <= i < 2 ==> yyyy[i + 2] == date[i];
    }
    assert ExpandYYMMDD(date) == yyyy + "-" + date[2..4] + "-" + date[4..6];
    YmdToYYMMDDOfIso(yyyy, date[2..4], date[4..6]);
    assert yyyy[2..] == date[..2];
    assert date[..2] + date[2..4] + date[4..6] == date;
  }

  /** On a machine in any time zone, in the years 2000 to 2099, the page's expanded date is
      exactly the Seoul date `todayKST()` gives. */
  lemma PageDateIsTodayKST(now: int, tzOffsetMin: int)
    requires 2000 <= DateUtils.CurrentYearKST(now) <= 2099
    ensures ExpandYYMMDD(PageDate(now, tzOffsetMin)) == DateUtils.TodayKST(now)
  {
    TodayRouteDatesAgree(now, tzOffsetMin);
    ExpandCompactedIso(DateUtils.TodayKST(now), DateUtils.CurrentYearKST(now));
  }

  /** A "Y-MM-DD" string whose year lies in 2000 to 2099 comes back unchanged when it is
      compacted to "YYMMDD" and expanded again. */
  lemma ExpandCompactedIso(today: string, year: int)
    requires 2000 <= year <= 2099
    requires |today| == |IntToString(year)| + 6 && today[..|today| - 6] == IntToString(year)
    requires today[|today| - 6] == '-' && today[|today| - 3] == '-'
    requires IsDigits(today[|today| - 5..|today| - 3]) && IsDigits(today[|today| - 2..])
    ensures ExpandYYMMDD(YmdToYYMMDD(today)) == today
  {
    var n := |today|;
    var yyyy := today[..n - 6];
    var mm := today[n - 5..n - 3];
    var dd := today[n - 2..];
    Century20(year);
    NatToStringLength4(year);
    assert today == yyyy + "-" + mm + "-" + dd;
    YmdToYYMMDDOfIso(yyyy, mm, dd);
    var date := yyyy[2..] + mm + dd;
    assert yyyy == "20" + yyyy[2..];
    assert date[..2] == yyyy[2..] && date[2..4] == mm && date[4..6] == dd;
  }

  /** The years 2000 to 2099 print starting with "20". */
  lemma Century20(n: nat)
    requires 2000 <= n <= 2099
    ensures |NatToString(n)| == 4 && NatToString(n)[..2] == "20"
  {
    assert n / 100 == 20;
    assert NatToString(20) == NatToString(2) + ['0'];
    assert NatToString(n) == NatToString(n / 10) + [('0' as int + n % 10) as char];
    assert NatToString(n / 10) == NatToString(20) + [('0' as int + (n / 10) % 10) as char];
  }

  /** `parseInt(q.id) || index + 1`: the id read as a number, unless that is NaN or 0, in
      which case the 1-based position. Never 0. */
  function QuestionId(id: string, index: nat): (r: int)
    ensures r != 0
    ensures ParseInt(id).Some? && ParseInt(id).value != 0 ==> r == ParseInt(id).value
    ensures ParseInt(id).None? || ParseInt(id).value == 0 ==> r == index + 1
  {
    match ParseInt(id)
    case Some(v) => if v != 0 then v else index + 1
    case None => index + 1
  }

  /** The hint as a list: a list is kept, a non-empty string becomes a one-element list,
      and an absent or empty hint is absent. */
  function NormalizeHint(h: Hint): (r: Option<seq<string>>)
    ensures h.HintList? ==> r == Some(h.items)
    ensures h.HintText? && h.text != "" ==> r == Some([h.text])
    ensures h.NoHint? || (h.HintText? && h.text == "") ==> r == None
  {
    match h
    case HintList(items) => Some(items)
    case HintText(t) => if t != "" then Some([t]) else None
    case NoHint => None
  }

  /** One question as the sequential player's record. */
  function ToQuizItem(q: Question, index: nat, quizDate: string): (r: QuizItem)
    ensures r.question == q.question && r.quizDate == quizDate && r.answer == q.answer
    ensures r.questionId == QuestionId(q.id, index)
    ensures r.options == q.options.GetOr([])
    ensures r.newsLink == Some(q.newsLink) && r.explanation == Some(q.explanation)
    ensures r.hint == NormalizeHint(q.hint)
  {
    QuizItem(q.question, quizDate, QuestionId(q.id, index), q.options.GetOr([]),
      Some(q.newsLink), q.answer, Some(q.explanation), NormalizeHint(q.hint))
  }

  /** `questions.map(...)`: one record per question, in order. */
  function ToQuizItems(qs: seq<Question>, quizDate: string): (r: seq<QuizItem>)
    ensures |r| == |qs|
    ensures forall i :: 0 <= i < |qs| ==> r[i] == ToQuizItem(qs[i], i, quizDate)
  {
    seq(|qs|, i requires 0 <= i < |qs| => ToQuizItem(qs[i], i, quizDate))
  }

  /** A question whose id is a positive number keeps it; one whose id does not start with
      a number gets its 1-based position. */
  lemma QuestionIdCases(n: nat, index: nat)
    ensures n > 0 ==> QuestionId(NatToString(n), index) == n
    ensures QuestionId("", index) == index + 1
  {
    ParseIntOfNatToString(n);
  }

  /** The page's "YYMMDD": `toYYMMDD(getTodayKST())`. */
  function PageDate(now: int, tzOffsetMin: int): (r: string)
    ensures |r| == 6 || DateUtils.CurrentYearKST(now) < 10
  {
    var c := LocalDate(GetTodayKST(now, tzOffsetMin), tzOffsetMin);
    ToYYMMDD(c.year, c.month - 1, c.day)
  }

  class G1Page {
    var loading: bool
    var error: Option<string>
    var data: Option<seq<QuizItem>>
    var dateStr: string

    constructor ()
      ensures loading && error == None && data == None && dateStr == ""
    {
      loading := true;
      error := None;
      data := None;
      dateStr := "";
    }

    /** The player is shown once loading is over without error and with at least one
        question. */
    predicate ShowsPlayer()
      reads this
    {
      !loading && error.None? && data.Some? && |data.value| > 0
    }

    /** `loadQuiz()` at instant `now` on a machine whose time-zone offset is
        `tzOffsetMin`, the lookup answered from `dataset`: today's "YYMMDD" is kept, the
        Black Swan questions of the expanded date are mapped to records, and loading
        ends. The player is shown exactly when that date has questions. */
    method LoadQuiz(now: int, tzOffsetMin: int, dataset: QuizData)
      modifies this
      ensures dateStr == PageDate(now, tzOffsetMin)
      ensures data == Some(ToQuizItems(QuestionsForDate(dataset, BlackSwan, ExpandYYMMDD(dateStr)), ExpandYYMMDD(dateStr)))
      ensures !loading && error == None
      ensures ShowsPlayer() <==> HasQuestionsForDate(dataset, BlackSwan, ExpandYYMMDD(dateStr))
    {
      loading := true;
      error := None;
      var date := PageDate(now, tzOffsetMin);
      dateStr := date;
      var formattedDate := ExpandYYMMDD(date);
      var questions := QuestionsForDate(dataset, BlackSwan, formattedDate);
      data := Some(ToQuizItems(questions, formattedDate));
      loading := false;
    }
  }
}
