/** The first game's single-cursor player (components/games/QuizPlayer.tsx): one question
    at a time, a running score, and at the end one progress record saved for the date. */
module SequentialPlayer {
  import opened Wrappers
  import opened Text
  import opened QuizApi
  import opened QuizStorage
  import QuestionStates

  /** The number of correct verdicts. */
  function CountTrue(verdicts: seq<bool>): (n: nat)
    ensures n <= |verdicts|
  {
    if |verdicts| == 0 then 0
    else CountTrue(verdicts[..|verdicts| - 1]) + (if verdicts[|verdicts| - 1] then 1 else 0)
  }

  /** One more verdict adds one exactly when it is correct. */
  lemma CountTrueAppend(verdicts: seq<bool>, v: bool)
    ensures CountTrue(verdicts + [v]) == CountTrue(verdicts) + (if v then 1 else 0)
  {
    assert (verdicts + [v])[..|verdicts|] == verdicts;
  }

  /** All verdicts correct gives a count equal to their number. */
  lemma {:induction false} CountTrueAllCorrect(verdicts: seq<bool>)
    requires forall i :: 0 <= i < |verdicts| ==> verdicts[i]
    ensures CountTrue(verdicts) == |verdicts|
  {
    if |verdicts| > 0 {
      CountTrueAllCorrect(verdicts[..|verdicts| - 1]);
    }
  }

  class QuizPlayer {
    /** `items`; an absent list behaves as the empty one. */
    const items: seq<QuizItem>
    /** Where `saveQuizProgress` writes. */
    const store: ProgressStore
    var date: string
    var currentIndex: int
    var selectedAnswer: Option<string>
    var textInput: string
    var isAnswered: bool
    var score: int
    var showExplanation: bool
    var isComplete: bool
    /** The verdict of every answer given since the last reset, in order. */
    ghost var verdicts: seq<bool>

    /** The cursor stays on a question (or at 0 without questions), an answer is selected
        exactly while the current question is answered, every question is answered at most
        once, and the score counts the correct answers. */
    ghost predicate Valid()
      reads this
    {
      && 0 <= currentIndex
      && (|items| == 0 ==> currentIndex == 0)
      && (|items| > 0 ==> currentIndex < |items|)
      && (selectedAnswer.Some? <==> isAnswered)
      && |verdicts| <= currentIndex + (if isAnswered then 1 else 0)
      && score == CountTrue(verdicts)
    }

    /** `currentQuestion`: the item under the cursor, if there is one. */
    function CurrentQuestion(): (r: Option<QuizItem>)
      reads this
      ensures r.Some? <==> 0 <= currentIndex < |items|
      ensures r.Some? ==> r.value == items[currentIndex]
    {
      if 0 <= currentIndex < |items| then Some(items[currentIndex]) else None
    }

    /** `isCorrect`: the selected answer is, character for character, the current
        question's answer. A short answer accepted case-insensitively is not. */
    function IsCorrect(): (r: bool)
      reads this
      ensures r <==> CurrentQuestion().Some? && selectedAnswer == Some(CurrentQuestion().value.answer)
    {
      match CurrentQuestion()
      case None => false
      case Some(q) => selectedAnswer == Some(q.answer)
    }

    /** `finalScore`, the score both shown on the completion screen and saved by
        `handleNext`: the running score plus one more when `isCorrect`. */
    function FinalScore(): (r: int)
      reads this
      ensures r == score || r == score + 1
      ensures r == score + 1 <==> IsCorrect()
    {
      score + (if IsCorrect() then 1 else 0)
    }

    constructor (items: seq<QuizItem>, date: string, store: ProgressStore)
      ensures Valid()
      ensures this.items == items && this.date == date && this.store == store
      ensures currentIndex == 0 && selectedAnswer == None && textInput == [] && !isAnswered
      ensures score == 0 && !showExplanation && !isComplete
    {
      this.items := items;
      this.store := store;
      this.date := date;
      currentIndex := 0;
      selectedAnswer := None;
      textInput := [];
      isAnswered := false;
      score := 0;
      showExplanation := false;
      isComplete := false;
      verdicts := [];
    }

    /** The effect on a new `date`: back to the first question with nothing answered, a
        zero score and the quiz not complete. */
    method ChangeDate(newDate: string)
      requires Valid()
      modifies this
      ensures Valid()
      ensures date == newDate && currentIndex == 0 && selectedAnswer == None && textInput == []
      ensures !isAnswered && score == 0 && !showExplanation && !isComplete
    {
      date := newDate;
      currentIndex := 0;
      selectedAnswer := None;
      textInput := [];
      isAnswered := false;
      score := 0;
      showExplanation := false;
      isComplete := false;
      verdicts := [];
    }

    /** `handleSelectAnswer(option)`: ignored once answered; otherwise the option becomes
        the selected answer, the question is answered, and the score gains one exactly when
        the option equals the answer character for character. */
    method SelectAnswer(option: string)
      requires Valid()
      modifies this
      ensures Valid()
      ensures old(isAnswered) ==> selectedAnswer == old(selectedAnswer) && score == old(score) && isAnswered
      ensures !old(isAnswered) ==>
        && isAnswered && selectedAnswer == Some(option)
        && score == old(score) + (if CurrentQuestion().Some? && option == CurrentQuestion().value.answer then 1 else 0)
      ensures currentIndex == old(currentIndex) && date == old(date) && textInput == old(textInput)
      ensures showExplanation == old(showExplanation) && isComplete == old(isComplete)
      ensures !old(isAnswered) ==> IsCorrect() == (score == old(score) + 1)
    {
      if isAnswered {
        return;
      }
      var correct := CurrentQuestion().Some? && option == CurrentQuestion().value.answer;
      RecordAnswer(option, correct);
    }

    /** The shared step of both answer handlers: the question becomes answered with the
        given selected answer and the score gains one for a correct verdict. */
    method RecordAnswer(answer: string, correct: bool)
      requires Valid() && !isAnswered
      modifies this
      ensures Valid()
      ensures isAnswered && selectedAnswer == Some(answer) && score == old(score) + (if correct then 1 else 0)
      ensures currentIndex == old(currentIndex) && date == old(date) && textInput == old(textInput)
      ensures showExplanation == old(showExplanation) && isComplete == old(isComplete)
    {
      CountTrueAppend(verdicts, correct);
      verdicts := verdicts + [correct];
      selectedAnswer := Some(answer);
      isAnswered := true;
      score := score + (if correct then 1 else 0);
    }

    /** The input's change handler. */
    method InputChange(value: string)
      requires Valid()
      modifies this`textInput
      ensures Valid() && textInput == value
    {
      textInput := value;
    }

    /** The explanation toggle. */
    method ToggleExplanation()
      requires Valid()
      modifies this`showExplanation
      ensures Valid() && showExplanation == !old(showExplanation)
    {
      showExplanation := !showExplanation;
    }

    /** `handleTextSubmit` (also run by the Enter key): ignored for input that is blank
        after trimming, on an answered question, or without a current question; otherwise
        the trimmed input becomes the selected answer and the score gains one exactly when
        the trimmed, lower-cased input equals the lower-cased answer. */
    method TextSubmit()
      requires Valid()
      modifies this
      ensures Valid()
      ensures if IsBlank(old(textInput)) || old(isAnswered) || old(CurrentQuestion()).None? then
          selectedAnswer == old(selectedAnswer) && isAnswered == old(isAnswered) && score == old(score)
        else
          && isAnswered && selectedAnswer == Some(Trim(old(textInput)))
          && score == old(score) + (if QuestionStates.ShortAnswerMatches(old(textInput), old(CurrentQuestion()).value.answer) then 1 else 0)
      ensures currentIndex == old(currentIndex) && date == old(date) && textInput == old(textInput)
      ensures showExplanation == old(showExplanation) && isComplete == old(isComplete)
    {
      if IsBlank(textInput) || isAnswered || CurrentQuestion().None? {
        return;
      }
      var correct := QuestionStates.ShortAnswerMatches(textInput, CurrentQuestion().value.answer);
      RecordAnswer(Trim(textInput), correct);
    }

    /** `handleNext` as written: before the last question the cursor moves on and the
        per-question fields clear; on the last one the quiz completes and `FinalScore()` is
        saved for the date, so a last answer chosen exactly right is counted twice. */
    method Next(now: int)
      requires Valid()
      modifies this, store
      ensures Valid()
      ensures if |items| > 0 && old(currentIndex) < |items| - 1 then
          && currentIndex == old(currentIndex) + 1
          && selectedAnswer == None && textInput == [] && !isAnswered && !showExplanation
          && score == old(score) && isComplete == old(isComplete)
          && store.local == old(store.local)
        else
          && isComplete
          && currentIndex == old(currentIndex) && selectedAnswer == old(selectedAnswer)
          && isAnswered == old(isAnswered) && score == old(score)
          && store.local == WriteProgress(store.inBrowser, old(store.local), date, old(FinalScore()), now)
      ensures date == old(date)
    {
      if |items| > 0 && currentIndex < |items| - 1 {
        currentIndex := currentIndex + 1;
        selectedAnswer := None;
        textInput := [];
        isAnswered := false;
        showExplanation := false;
      } else {
        isComplete := true;
        store.SaveQuizProgress(date, FinalScore(), now);
      }
    }

    /** `handleNext` as evidently intended: the same steps, but the saved score is the
        running score, which never exceeds the number of questions. */
    method NextAsIntended(now: int)
      requires Valid()
      modifies this, store
      ensures Valid()
      ensures if |items| > 0 && old(currentIndex) < |items| - 1 then
          && currentIndex == old(currentIndex) + 1
          && selectedAnswer == None && textInput == [] && !isAnswered && !showExplanation
          && score == old(score) && isComplete == old(isComplete)
          && store.local == old(store.local)
        else
          && isComplete
          && currentIndex == old(currentIndex) && selectedAnswer == old(selectedAnswer)
          && isAnswered == old(isAnswered) && score == old(score)
          && store.local == WriteProgress(store.inBrowser, old(store.local), date, score, now)
          && 0 <= score && (|items| > 0 ==> score <= |items|)
      ensures date == old(date)
    {
      if |items| > 0 && currentIndex < |items| - 1 {
        currentIndex := currentIndex + 1;
        selectedAnswer := None;
        textInput := [];
        isAnswered := false;
        showExplanation := false;
      } else {
        isComplete := true;
        store.SaveQuizProgress(date, score, now);
      }
    }

    /** The running score never exceeds the questions reached so far. */
    lemma ScoreBound()
      requires Valid()
      ensures 0 <= score <= currentIndex + (if isAnswered then 1 else 0)
      ensures |items| > 0 ==> score <= |items|
    {
    }
  }

  /** The over-count: in a one-question quiz answered with the right option, the completion
      step saves a score of 2 for a single question. */
  method OverCountExample() returns (saved: Option<int>)
    ensures saved == Some(2)
  {
    var item := QuizItem("q", "250101", 1, ["a", "b"], None, "a", None, None);
    var store := new ProgressStore(true, map[]);
    var player := new QuizPlayer([item], "250101", store);
    player.SelectAnswer("a");
    assert player.score == 1;
    player.Next(0);
    saved := store.GetQuizScore("250101");
  }

  /** With the intended completion step the same play saves 1. */
  method IntendedCountExample() returns (saved: Option<int>)
    ensures saved == Some(1)
  {
    var item := QuizItem("q", "250101", 1, ["a", "b"], None, "a", None, None);
    var store := new ProgressStore(true, map[]);
    var player := new QuizPlayer([item], "250101", store);
    player.SelectAnswer("a");
    player.NextAsIntended(0);
    saved := store.GetQuizScore("250101");
  }
}
