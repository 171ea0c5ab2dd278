/** The review list (components/admin/ReviewList.tsx): the authored questions filtered by
    validation status and theme, the counts of valid and invalid ones, and the two-choice
    preview of each. */
module ReviewList {
  import opened Wrappers
  import opened Text
  import opened QuizModel
  import opened AdminUtils

  /** The status `validateQuestion` gives a question. */
  function StatusOf(q: QuizQuestion): (s: Status)
    ensures s == Ok <==> Issues(q) == []
    ensures s == Ok <==> forall k :: 0 <= k < RULE_COUNT ==> !RuleFails(q, k)
  {
    AllRulesHold(q);
    if Issues(q) == [] then Ok else Missing
  }

  /** `reviewFilter`: "all", "ok" or "missing". */
  datatype ReviewFilter = AllStatuses | OnlyStatus(status: Status)

  /** `themeFilter`: "all" or one theme. */
  datatype ThemeFilter = AllThemes | OnlyTheme(theme: GameType)

  /** The filter's test: the status matches (or all are shown) and the theme matches (or
      all are shown). */
  predicate Kept(q: QuizQuestion, rf: ReviewFilter, tf: ThemeFilter) {
    && (rf.AllStatuses? || StatusOf(q) == rf.status)
    && (tf.AllThemes? || q.theme == GameTypeName(tf.theme))
  }

  /** `getFilteredQuestions()`. */
  function Filtered(qs: seq<QuizQuestion>, rf: ReviewFilter, tf: ThemeFilter): (r: seq<QuizQuestion>)
    ensures |r| <= |qs|
    ensures forall i :: 0 <= i < |r| ==> Kept(r[i], rf, tf)
  {
    if |qs| == 0 then []
    else
      var last := qs[|qs| - 1];
      Filtered(qs[..|qs| - 1], rf, tf) + (if Kept(last, rf, tf) then [last] else [])
  }

  /** The filtered list keeps the questions' order. */
  lemma {:induction false} FilteredIsSubsequence(qs: seq<QuizQuestion>, rf: ReviewFilter, tf: ThemeFilter)
    ensures IsSubsequence(Filtered(qs, rf, tf), qs)
  {
    if |qs| > 0 {
      var init := qs[..|qs| - 1];
      var last := qs[|qs| - 1];
      FilteredIsSubsequence(init, rf, tf);
      assert qs == init + [last];
      ExtendSubsequence(Filtered(init, rf, tf), init, last, Kept(last, rf, tf));
    }
  }

  /** The filtered list holds exactly the questions that pass the test. */
  lemma {:induction false} FilteredMembers(qs: seq<QuizQuestion>, rf: ReviewFilter, tf: ThemeFilter, x: QuizQuestion)
    ensures x in Filtered(qs, rf, tf) <==> x in qs && Kept(x, rf, tf)
  {
    if |qs| > 0 {
      var init := qs[..|qs| - 1];
      FilteredMembers(init, rf, tf, x);
      assert qs == init + [qs[|qs| - 1]];
    }
  }

  /** With both filters on "all" the whole list is shown. */
  lemma {:induction false} FilteredAll(qs: seq<QuizQuestion>)
    ensures Filtered(qs, AllStatuses, AllThemes) == qs
  {
    if |qs| > 0 {
      FilteredAll(qs[..|qs| - 1]);
      assert qs == qs[..|qs| - 1] + [qs[|qs| - 1]];
    }
  }

  /** The number of valid questions. */
  function CountOk(qs: seq<QuizQuestion>): (n: nat)
    ensures n <= |qs|
  {
    if |qs| == 0 then 0
    else CountOk(qs[..|qs| - 1]) + (if StatusOf(qs[|qs| - 1]) == Ok then 1 else 0)
  }

  /** `{ total, ok, missing }`. */
  datatype Stats = Stats(total: nat, ok: nat, missing: nat)

  /** `getStats()`: all questions, the valid ones, and the rest. */
  function GetStats(qs: seq<QuizQuestion>): (r: Stats)
    ensures r.total == |qs| && r.ok + r.missing == r.total
  {
    var ok := CountOk(qs);
    Stats(|qs|, ok, |qs| - ok)
  }

  /** The valid and invalid counts are the sizes of the lists the "ok" and "missing"
      filters show with every theme. */
  lemma {:induction false} StatsMatchFilters(qs: seq<QuizQuestion>)
    ensures GetStats(qs).ok == |Filtered(qs, OnlyStatus(Ok), AllThemes)|
    ensures GetStats(qs).missing == |Filtered(qs, OnlyStatus(Missing), AllThemes)|
  {
    if |qs| > 0 {
      StatsMatchFilters(qs[..|qs| - 1]);
    }
  }

  /** The preview of a question's choices: the first two, and the number of the others
      when there are more than two. */
  datatype Preview = Preview(shown: seq<string>, more: Option<nat>)

  function ChoicePreview(choices: seq<string>): (r: Preview)
    ensures |r.shown| == if |choices| < 2 then |choices| else 2
    ensures r.shown == choices[..|r.shown|]
    ensures r.more.Some? <==> |choices| > 2
    ensures |r.shown| + r.more.GetOr(0) == |choices|
  {
    Preview(Take(choices, 2), if |choices| > 2 then Some(|choices| - 2) else None)
  }

  /** A preview line: the letter A, B, … for the position, then the choice, or the empty
      marker for an empty choice. */
  function PreviewLine(i: nat, choice: string): (r: string)
    requires i < 26
    ensures |r| >= 3
    ensures r[0] == ('A' as int + i) as char && r[1..3] == ". "
    ensures choice != "" ==> r[3..] == choice
  {
    [('A' as int + i) as char] + ". " + (if choice != "" then choice else "비어있음")
  }

  /** `questions.indexOf(question)`: the first position holding the question, or -1. */
  function IndexOf(qs: seq<QuizQuestion>, q: QuizQuestion): (r: int)
    ensures -1 <= r < |qs|
    ensures r >= 0 ==> qs[r] == q && forall k :: 0 <= k < r ==> qs[k] != q
    ensures r == -1 <==> q !in qs
  {
    if |qs| == 0 then -1
    else if qs[0] == q then 0
    else
      var k := IndexOf(qs[1..], q);
      if k == -1 then -1 else k + 1
  }

  /** Every listed question is shown with a real position in the full list. */
  lemma ListedHavePositions(qs: seq<QuizQuestion>, rf: ReviewFilter, tf: ThemeFilter, i: nat)
    requires i < |Filtered(qs, rf, tf)|
    ensures 0 <= IndexOf(qs, Filtered(qs, rf, tf)[i]) < |qs|
  {
    FilteredMembers(qs, rf, tf, Filtered(qs, rf, tf)[i]);
  }
}
