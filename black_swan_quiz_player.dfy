/** The Black Swan themed single-cursor player (components/games/BlackSwanQuizPlayer.tsx):
    like the plain player, but it keeps a log of every answer, saves the running score
    without adjustment, and awards a badge by percentage. */
module BlackSwanPlayer {
  import opened Wrappers
  import opened Text
  import opened QuizApi
  import opened QuizStorage
  import QuestionStates

  /** One entry of `userAnswers`. */
  datatype AnswerRecord = AnswerRecord(question: string, userAnswer: string, correctAnswer: string, isCorrect: bool)

  /** The number of log entries marked correct. */
  function CountCorrectRecords(log: seq<AnswerRecord>): (n: nat)
    ensures n <= |log|
  {
    if |log| == 0 then 0
    else CountCorrectRecords(log[..|log| - 1]) + (if log[|log| - 1].isCorrect then 1 else 0)
  }

  lemma CountCorrectRecordsAppend(log: seq<AnswerRecord>, r: AnswerRecord)
    ensures CountCorrectRecords(log + [r]) == CountCorrectRecords(log) + (if r.isCorrect then 1 else 0)
  {
    assert (log + [r])[..|log|] == log;
  }

  /** A log entry marked correct holds an answer equal to the correct one up to case. */
  predicate SoundRecord(r: AnswerRecord) {
    r.isCorrect ==> Lower(r.userAnswer) == Lower(r.correctAnswer)
  }

  /** The completion badge and message for an integer percentage: 90 and up, 70 and up,
      50 and up, and below. */
  function Badge(percentage: int): (r: (string, string))
    ensures percentage >= 90 ==> r == ("🦢 블랙스완 마스터", "완벽합니다! 경제 연쇄반응을 깊이 이해하고 계시네요.")
    ensures 70 <= percentage < 90 ==> r == ("🌊 물결의 현자", "훌륭해요! 대부분의 경제 인과관계를 파악하셨습니다.")
    ensures 50 <= percentage < 70 ==> r == ("💧 청하의 탐험가", "좋은 시작입니다! 경제 연쇄반응에 대한 이해가 쌓이고 있어요.")
    ensures percentage < 50 ==> r == ("🌱 호수의 초보자", "괜찮아요! 경제는 복잡하지만 계속 도전하면 실력이 늘 거예요.")
  {
    if percentage >= 90 then ("🦢 블랙스완 마스터", "완벽합니다! 경제 연쇄반응을 깊이 이해하고 계시네요.")
    else if percentage >= 70 then ("🌊 물결의 현자", "훌륭해요! 대부분의 경제 인과관계를 파악하셨습니다.")
    else if percentage >= 50 then ("💧 청하의 탐험가", "좋은 시작입니다! 경제 연쇄반응에 대한 이해가 쌓이고 있어요.")
    else ("🌱 호수의 초보자", "괜찮아요! 경제는 복잡하지만 계속 도전하면 실력이 늘 거예요.")
  }

  /** The four badges from beginner (0) to master (3). */
  const BADGES: seq<string> := ["🌱 호수의 초보자", "💧 청하의 탐험가", "🌊 물결의 현자", "🦢 블랙스완 마스터"]

  /** The rank of the badge a percentage earns. */
  function BadgeRank(percentage: int): (k: nat)
    ensures k < |BADGES| && BADGES[k] == Badge(percentage).0
  {
    if percentage >= 90 then 3 else if percentage >= 70 then 2 else if percentage >= 50 then 1 else 0
  }

  /** A higher percentage never earns a lower badge, and the four badges are distinct, so
      the rank can be read back from the badge. */
  lemma BadgeMonotone(p: int, q: int)
    requires p <= q
    ensures BadgeRank(p) <= BadgeRank(q)
    ensures Badge(p).0 == Badge(q).0 <==> BadgeRank(p) == BadgeRank(q)
  {
    assert BADGES[0] != BADGES[1] && BADGES[0] != BADGES[2] && BADGES[0] != BADGES[3];
    assert BADGES[1] != BADGES[2] && BADGES[1] != BADGES[3] && BADGES[2] != BADGES[3];
  }

  class BlackSwanQuizPlayer {
    const items: seq<QuizItem>
    const store: ProgressStore
    var date: string
    var currentIndex: int
    var selectedAnswer: Option<string>
    var textInput: string
    var isAnswered: bool
    var score: int
    var showExplanation: bool
    var showHint: bool
    var isComplete: bool
    var userAnswers: seq<AnswerRecord>

    /** The cursor stays on a question, an answer is selected exactly while the current
        question is answered, the log holds at most one entry per question reached, every
        entry marked correct agrees with its answer up to case, and the score is the number
        of entries marked correct. */
    ghost predicate Valid()
      reads this
    {
      && 0 <= currentIndex
      && (|items| == 0 ==> currentIndex == 0)
      && (|items| > 0 ==> currentIndex < |items|)
      && (selectedAnswer.Some? <==> isAnswered)
      && |userAnswers| <= currentIndex + (if isAnswered then 1 else 0)
      && (forall k :: 0 <= k < |userAnswers| ==> SoundRecord(userAnswers[k]))
      && score == CountCorrectRecords(userAnswers)
    }

    function CurrentQuestion(): (r: Option<QuizItem>)
      reads this
      ensures r.Some? <==> 0 <= currentIndex < |items|
      ensures r.Some? ==> r.value == items[currentIndex]
    {
      if 0 <= currentIndex < |items| then Some(items[currentIndex]) else None
    }

    constructor (items: seq<QuizItem>, date: string, store: ProgressStore)
      ensures Valid()
      ensures this.items == items && this.date == date && this.store == store
      ensures currentIndex == 0 && selectedAnswer == None && textInput == [] && !isAnswered
      ensures score == 0 && !showExplanation && !showHint && !isComplete && userAnswers == []
    {
      this.items := items;
      this.store := store;
      this.date := date;
      currentIndex := 0;
      selectedAnswer := None;
      textInput := [];
      isAnswered := false;
      score := 0;
      showExplanation := false;
      showHint := false;
      isComplete := false;
      userAnswers := [];
    }

    /** The effect on a new `date`: every field back to its start, the log emptied. */
    method ChangeDate(newDate: string)
      requires Valid()
      modifies this
      ensures Valid()
      ensures date == newDate && currentIndex == 0 && selectedAnswer == None && textInput == []
      ensures !isAnswered && score == 0 && !showExplanation && !showHint && !isComplete
      ensures userAnswers == []
    {
      date := newDate;
      currentIndex := 0;
      selectedAnswer := None;
      textInput := [];
      isAnswered := false;
      score := 0;
      showExplanation := false;
      showHint := false;
      isComplete := false;
      userAnswers := [];
    }

    /** `handleSelectAnswer(option)`: ignored once answered; otherwise the option is
        selected, the score gains one exactly when it equals the answer, and, when there is
        a current question, one entry is appended to the log. */
    method SelectAnswer(option: string)
      requires Valid()
      modifies this
      ensures Valid()
      ensures old(isAnswered) ==> selectedAnswer == old(selectedAnswer) && score == old(score) && userAnswers == old(userAnswers)
      ensures !old(isAnswered) ==>
        && isAnswered && selectedAnswer == Some(option)
        && match CurrentQuestion()
          case None => score == old(score) && userAnswers == old(userAnswers)
          case Some(q) =>
            && score == old(score) + (if option == q.answer then 1 else 0)
            && userAnswers == old(userAnswers) + [AnswerRecord(q.question, option, q.answer, option == q.answer)]
      ensures currentIndex == old(currentIndex) && date == old(date) && textInput == old(textInput)
      ensures showExplanation == old(showExplanation) && showHint == old(showHint) && isComplete == old(isComplete)
    {
      if isAnswered {
        return;
      }
      match CurrentQuestion() {
        case None =>
          selectedAnswer := Some(option);
          isAnswered := true;
        case Some(q) =>
          LowerProperties(option);
          RecordAnswer(AnswerRecord(q.question, option, q.answer, option == q.answer), option);
      }
    }

    /** `handleTextSubmit`: ignored for blank input, on an answered question or without a
        current question; otherwise the trimmed input is selected and logged, and the score
        gains one exactly when it matches the answer ignoring case. */
    method TextSubmit()
      requires Valid()
      modifies this
      ensures Valid()
      ensures if IsBlank(old(textInput)) || old(isAnswered) || old(CurrentQuestion()).None? then
          selectedAnswer == old(selectedAnswer) && isAnswered == old(isAnswered)
          && score == old(score) && userAnswers == old(userAnswers)
        else
          var q := old(CurrentQuestion()).value;
          var correct := QuestionStates.ShortAnswerMatches(old(textInput), q.answer);
          && isAnswered && selectedAnswer == Some(Trim(old(textInput)))
          && score == old(score) + (if correct then 1 else 0)
          && userAnswers == old(userAnswers) + [AnswerRecord(q.question, Trim(old(textInput)), q.answer, correct)]
      ensures currentIndex == old(currentIndex) && date == old(date) && textInput == old(textInput)
      ensures showExplanation == old(showExplanation) && showHint == old(showHint) && isComplete == old(isComplete)
    {
      if IsBlank(textInput) || isAnswered || CurrentQuestion().None? {
        return;
      }
      var q := CurrentQuestion().value;
      var answer := Trim(textInput);
      var correct := QuestionStates.ShortAnswerMatches(textInput, q.answer);
      RecordAnswer(AnswerRecord(q.question, answer, q.answer, correct), answer);
    }

    /** The shared step of both answer handlers once a question is present: the answer is
        selected, the entry logged, and the score follows the entry's verdict. */
    method RecordAnswer(r: AnswerRecord, answer: string)
      requires Valid() && !isAnswered && SoundRecord(r)
      modifies this
      ensures Valid()
      ensures isAnswered && selectedAnswer == Some(answer)
      ensures score == old(score) + (if r.isCorrect then 1 else 0) && userAnswers == old(userAnswers) + [r]
      ensures currentIndex == old(currentIndex) && date == old(date) && textInput == old(textInput)
      ensures showExplanation == old(showExplanation) && showHint == old(showHint) && isComplete == old(isComplete)
    {
      CountCorrectRecordsAppend(userAnswers, r);
      userAnswers := userAnswers + [r];
      selectedAnswer := Some(answer);
      isAnswered := true;
      score := score + (if r.isCorrect then 1 else 0);
    }

    method InputChange(value: string)
      requires Valid()
      modifies this`textInput
      ensures Valid() && textInput == value
    {
      textInput := value;
    }

    method ToggleExplanation()
      requires Valid()
      modifies this`showExplanation
      ensures Valid() && showExplanation == !old(showExplanation)
    {
      showExplanation := !showExplanation;
    }

    method ToggleHint()
      requires Valid()
      modifies this`showHint
      ensures Valid() && showHint == !old(showHint)
    {
      showHint := !showHint;
    }

    /** `handleNext`: before the last question the cursor moves on and the per-question
        fields clear; on the last one the quiz completes and the running score is saved as
        it is, so the saved score never exceeds the number of questions. */
    method Next(now: int)
      requires Valid()
      modifies this, store
      ensures Valid()
      ensures if |items| > 0 && old(currentIndex) < |items| - 1 then
          && currentIndex == old(currentIndex) + 1
          && selectedAnswer == None && textInput == [] && !isAnswered && !showExplanation && !showHint
          && score == old(score) && isComplete == old(isComplete)
          && store.local == old(store.local)
        else
          && isComplete
          && currentIndex == old(currentIndex) && selectedAnswer == old(selectedAnswer)
          && isAnswered == old(isAnswered) && score == old(score)
          && store.local == WriteProgress(store.inBrowser, old(store.local), date, score, now)
          && 0 <= score && (|items| > 0 ==> score <= |items|)
      ensures userAnswers == old(userAnswers) && date == old(date)
    {
      if |items| > 0 && currentIndex < |items| - 1 {
        currentIndex := currentIndex + 1;
        selectedAnswer := None;
        textInput := [];
        isAnswered := false;
        showExplanation := false;
        showHint := false;
      } else {
        isComplete := true;
        store.SaveQuizProgress(date, score, now);
      }
    }
  }
}
