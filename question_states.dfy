/** The per-question state kept by the two all-questions-on-one-page players
    (QuizCarousel and UniversalQuizPlayer), the counts derived from it, and the progress
    snapshot they write to browser storage. */
module QuestionStates {
  import opened Wrappers
  import opened Text
  import opened QuizModel

  datatype QuestionState = QuestionState(
    selectedAnswer: Option<string>,
    userAnswer: string,
    isAnswered: bool,
    isCorrect: bool,
    showHint: bool)

  /** The state of a question nobody has touched yet. */
  const Fresh := QuestionState(None, "", false, false, false)

  /** `questions.map(() => fresh state)`. */
  function FreshStates(n: nat): (r: seq<QuestionState>)
    ensures |r| == n
    ensures forall i :: 0 <= i < n ==> r[i] == Fresh
  {
    seq(n, _ => Fresh)
  }

  /** `states.filter(s => s.isCorrect).length`. */
  function CountCorrect(states: seq<QuestionState>): (n: nat)
    ensures n <= |states|
  {
    if |states| == 0 then 0
    else CountCorrect(states[..|states| - 1]) + (if states[|states| - 1].isCorrect then 1 else 0)
  }

  /** `states.filter(s => s.isAnswered).length`. */
  function CountAnswered(states: seq<QuestionState>): (n: nat)
    ensures n <= |states|
  {
    if |states| == 0 then 0
    else CountAnswered(states[..|states| - 1]) + (if states[|states| - 1].isAnswered then 1 else 0)
  }

  /** `states.every(s => s.isAnswered)`. */
  predicate AllAnswered(states: seq<QuestionState>) {
    forall i :: 0 <= i < |states| ==> states[i].isAnswered
  }

  /** A question is only ever marked correct once it has been answered. */
  predicate CorrectOnlyIfAnswered(states: seq<QuestionState>) {
    forall i :: 0 <= i < |states| ==> states[i].isCorrect ==> states[i].isAnswered
  }

  /** Replacing one slot changes the correct count by the difference of the two slots. */
  lemma {:induction false} CountCorrectUpdate(states: seq<QuestionState>, i: int, v: QuestionState)
    requires 0 <= i < |states|
    ensures CountCorrect(states[i := v]) + (if states[i].isCorrect then 1 else 0)
         == CountCorrect(states) + (if v.isCorrect then 1 else 0)
    decreases |states|
  {
    var last := |states| - 1;
    var t := states[i := v];
    assert t[..last] == if i == last then states[..last] else states[..last][i := v];
    if i < last {
      CountCorrectUpdate(states[..last], i, v);
    }
  }

  /** The same for the answered count. */
  lemma {:induction false} CountAnsweredUpdate(states: seq<QuestionState>, i: int, v: QuestionState)
    requires 0 <= i < |states|
    ensures CountAnswered(states[i := v]) + (if states[i].isAnswered then 1 else 0)
         == CountAnswered(states) + (if v.isAnswered then 1 else 0)
    decreases |states|
  {
    var last := |states| - 1;
    var t := states[i := v];
    assert t[..last] == if i == last then states[..last] else states[..last][i := v];
    if i < last {
      CountAnsweredUpdate(states[..last], i, v);
    }
  }

  /** Every question is answered exactly when the answered count reaches the number of
      questions: the completion screen's `answeredCount === questions.length` and the saved
      `isComplete` flag agree. */
  lemma {:induction false} AllAnsweredIffCount(states: seq<QuestionState>)
    ensures AllAnswered(states) <==> CountAnswered(states) == |states|
  {
    if |states| > 0 {
      var init := states[..|states| - 1];
      AllAnsweredIffCount(init);
      assert AllAnswered(states) <==> AllAnswered(init) && states[|states| - 1].isAnswered;
    }
  }

  /** The correct count never exceeds the answered count. */
  lemma {:induction false} CorrectAtMostAnswered(states: seq<QuestionState>)
    requires CorrectOnlyIfAnswered(states)
    ensures CountCorrect(states) <= CountAnswered(states)
  {
    if |states| > 0 {
      CorrectAtMostAnswered(states[..|states| - 1]);
    }
  }

  /** Fresh states count nothing. */
  lemma {:induction false} FreshStatesCounts(n: nat)
    ensures CountCorrect(FreshStates(n)) == 0 && CountAnswered(FreshStates(n)) == 0
    ensures CorrectOnlyIfAnswered(FreshStates(n))
  {
    if n > 0 {
      FreshStatesCounts(n - 1);
      assert FreshStates(n)[..n - 1] == FreshStates(n - 1);
    }
  }

  /** Short-answer marking: the input is trimmed and lower-cased, the expected answer only
      lower-cased. */
  predicate ShortAnswerMatches(userAnswer: string, answer: string) {
    Lower(Trim(userAnswer)) == Lower(answer)
  }

  /** Marking ignores surrounding whitespace and letter case in the input, and accepts the
      expected answer itself whenever that answer has no surrounding whitespace. */
  lemma ShortAnswerMatchesProperties(userAnswer: string, answer: string)
    ensures ShortAnswerMatches(userAnswer, answer) <==> ShortAnswerMatches(Trim(userAnswer), answer)
    ensures Trim(answer) == answer ==> ShortAnswerMatches(answer, answer)
    ensures HasNoUpper(answer) && ShortAnswerMatches(userAnswer, answer) ==> Lower(Trim(userAnswer)) == answer
  {
    TrimIdempotent(userAnswer);
    LowerProperties(answer);
  }

  /** The keyboard shortcut: `key.toUpperCase()` being one of A, B, C, D picks option 0 to 3. */
  function KeyOptionIndex(key: string): (r: Option<nat>)
    ensures r.Some? ==> r.value < 4
    ensures forall k :: 0 <= k < 4 ==>
      (r == Some(k) <==> key == ["ABCD"[k]] || key == ["abcd"[k]])
  {
    if |key| == 1 && ('A' <= key[0] <= 'D' || 'a' <= key[0] <= 'd') then
      Some(if key[0] <= 'D' then key[0] as int - 'A' as int else key[0] as int - 'a' as int)
    else None
  }

  /** What the two players write to `localStorage` under `quiz-progress-<game>-<date>`. */
  datatype Snapshot = Snapshot(questionStates: seq<QuestionState>, score: int, isComplete: bool, timestamp: int)

  function ProgressKey(game: GameType, date: string): (k: string)
    ensures |k| == |"quiz-progress-"| + |GameTypeName(game)| + 1 + |date|
    ensures k[..14] == "quiz-progress-" && k[|k| - |date|..] == date
  {
    "quiz-progress-" + GameTypeName(game) + "-" + date
  }

  /** Different games or dates never share a storage key. */
  lemma ProgressKeyInjective(g1: GameType, d1: string, g2: GameType, d2: string)
    requires ProgressKey(g1, d1) == ProgressKey(g2, d2)
    ensures g1 == g2 && d1 == d2
  {
    KeyStartsWithGame(g1, d1);
    KeyStartsWithGame(g2, d2);
    GameNamesDiffer(g1, g2);
    var k := ProgressKey(g1, d1);
    assert d1 == k[|k| - |d1|..];
  }

  /** After the fixed prefix the key holds the game's name. */
  lemma KeyStartsWithGame(g: GameType, d: string)
    ensures |GameTypeName(g)| >= 2 && ProgressKey(g, d)[14..16] == GameTypeName(g)[..2]
  {
    var k := ProgressKey(g, d);
    assert k[14..14 + |GameTypeName(g)|] == GameTypeName(g);
  }

  /** The three game names already differ in their first two letters. */
  lemma GameNamesDiffer(g1: GameType, g2: GameType)
    requires |GameTypeName(g1)| >= 2 && |GameTypeName(g2)| >= 2
    ensures GameTypeName(g1)[..2] == GameTypeName(g2)[..2] ==> g1 == g2
  {
    NamePrefix(g1);
    NamePrefix(g2);
  }

  lemma NamePrefix(g: GameType)
    ensures |GameTypeName(g)| >= 2
    ensures GameTypeName(g)[..2] == match g case BlackSwan => "Bl" case PrisonersDilemma => "Pr" case SignalDecoding => "Si"
  {
  }
}
