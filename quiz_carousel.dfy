/** The slide-per-question player (components/games/QuizCarousel.tsx): one state slot per
    question, a running score, the slide the carousel shows, and the progress snapshots
    written to browser storage. */
module Carousel {
  import opened Wrappers
  import opened QuizModel
  import opened QuestionStates

  /** A slot after a multiple-choice answer: the carousel records the option both as the
      selected answer and as the user's answer, and marks it by exact comparison. */
  function ChoiceAnswered(st: QuestionState, option: string, answer: string): (r: QuestionState)
    ensures r.isAnswered && r.selectedAnswer == Some(option) && r.userAnswer == option
    ensures r.isCorrect <==> option == answer
    ensures r.showHint == st.showHint
  {
    st.(selectedAnswer := Some(option), userAnswer := option, isAnswered := true, isCorrect := option == answer)
  }

  class QuizCarousel {
    const questions: seq<Question>
    const game: GameType
    const date: string
    const disableSaveProgress: bool
    var states: seq<QuestionState>
    var score: int
    /** The slide the carousel currently shows. */
    var selectedIndex: int
    /** The part of `localStorage` this player writes to. */
    var storage: map<string, Snapshot>

    /** States exist for every question once initialised, a question is correct only once
        answered, and the score is the number of correct questions. */
    ghost predicate Valid()
      reads this
    {
      (|states| == 0 || |states| == |questions|)
      && CorrectOnlyIfAnswered(states)
      && score == CountCorrect(states)
    }

    /** The storage `base` after `saveProgress(st, sc, complete)` at time `now`. */
    function Saved(base: map<string, Snapshot>, st: seq<QuestionState>, sc: int, complete: bool, now: int): (r: map<string, Snapshot>)
      ensures disableSaveProgress ==> r == base
      ensures !disableSaveProgress ==> ProgressKey(game, date) in r && r[ProgressKey(game, date)] == Snapshot(st, sc, complete, now)
      ensures forall k :: k != ProgressKey(game, date) ==> (k in r <==> k in base) && (k in base ==> r[k] == base[k])
    {
      if disableSaveProgress then base else base[ProgressKey(game, date) := Snapshot(st, sc, complete, now)]
    }

    constructor (questions: seq<Question>, game: GameType, date: string, disableSaveProgress: bool, storage: map<string, Snapshot>)
      ensures Valid()
      ensures this.questions == questions && this.game == game && this.date == date
      ensures this.disableSaveProgress == disableSaveProgress && this.storage == storage
      ensures states == [] && score == 0 && selectedIndex == 0
    {
      this.questions := questions;
      this.game := game;
      this.date := date;
      this.disableSaveProgress := disableSaveProgress;
      this.storage := storage;
      states := [];
      score := 0;
      selectedIndex := 0;
    }

    /** `saveProgress`: writes one snapshot under this game's and date's key unless saving
        is disabled. */
    method SaveProgress(st: seq<QuestionState>, sc: int, complete: bool, now: int)
      modifies this`storage
      ensures storage == Saved(old(storage), st, sc, complete, now)
    {
      if !disableSaveProgress {
        storage := storage[ProgressKey(game, date) := Snapshot(st, sc, complete, now)];
      }
    }

    /** The initial-state effect: fresh states are created only when there are questions
        and no states yet. */
    method InitStates()
      requires Valid()
      modifies this
      ensures Valid()
      ensures states == if |questions| > 0 && |old(states)| == 0 then FreshStates(|questions|) else old(states)
      ensures score == old(score) && selectedIndex == old(selectedIndex) && storage == old(storage)
    {
      if |questions| > 0 && |states| == 0 {
        FreshStatesCounts(|questions|);
        states := FreshStates(|questions|);
      }
    }

    /** The carousel's select event: the shown slide changes. */
    method SelectSlide(index: int)
      modifies this`selectedIndex
      ensures selectedIndex == index
    {
      selectedIndex := index;
    }

    /** `handleMultipleChoiceAnswer(i, option)`: ignored without a state slot or on an
        answered question; otherwise only slot i changes, the score becomes the number of
        correct slots, and an incomplete snapshot is saved. */
    method AnswerMultipleChoice(i: int, option: string, now: int)
      requires Valid()
      modifies this
      ensures Valid()
      ensures if 0 <= i < |old(states)| && !old(states)[i].isAnswered then
          states == old(states)[i := ChoiceAnswered(old(states)[i], option, questions[i].answer)]
          && storage == Saved(old(storage), states, score, false, now)
        else
          states == old(states) && score == old(score) && storage == old(storage)
      ensures |states| == |old(states)|
      ensures forall j :: 0 <= j < |states| && old(states)[j].isAnswered ==> states[j] == old(states)[j]
      ensures selectedIndex == old(selectedIndex)
    {
      if !(0 <= i < |states|) || states[i].isAnswered {
        return;
      }
      var newStates := states[i := ChoiceAnswered(states[i], option, questions[i].answer)];
      var correctCount := CountCorrect(newStates);
      states := newStates;
      score := correctCount;
      SaveProgress(newStates, correctCount, false, now);
    }

    /** `handleShortAnswerSubmit(i)`: ignored without a slot, on an answered question, or
        when the typed answer is blank; otherwise slot i is marked answered and correct
        exactly when the trimmed, lower-cased input equals the lower-cased answer, the
        score goes up by one only when correct, and the snapshot's completion flag says
        whether every question is now answered. */
    method SubmitShortAnswer(i: int, now: int)
      requires Valid()
      modifies this
      ensures Valid()
      ensures if 0 <= i < |old(states)| && !old(states)[i].isAnswered && !Text.IsBlank(old(states)[i].userAnswer) then
          var correct := ShortAnswerMatches(old(states)[i].userAnswer, questions[i].answer);
          states == old(states)[i := old(states)[i].(isAnswered := true, isCorrect := correct)]
          && score == old(score) + (if correct then 1 else 0)
          && storage == Saved(old(storage), states, score, AllAnswered(states), now)
        else
          states == old(states) && score == old(score) && storage == old(storage)
      ensures |states| == |old(states)|
      ensures forall j :: 0 <= j < |states| && old(states)[j].isAnswered ==> states[j] == old(states)[j]
      ensures selectedIndex == old(selectedIndex)
    {
      if !(0 <= i < |states|) {
        return;
      }
      var current := states[i];
      if current.isAnswered || Text.IsBlank(current.userAnswer) {
        return;
      }
      var isCorrect := ShortAnswerMatches(current.userAnswer, questions[i].answer);
      MarkAnswered(i, isCorrect, now);
    }

    /** The state change of an accepted short answer: slot i answered with the given
        verdict, the score raised by one for a correct answer, and a snapshot saved whose
        completion flag says whether every question is answered. */
    method MarkAnswered(i: int, correct: bool, now: int)
      requires Valid()
      requires 0 <= i < |states| && !states[i].isAnswered
      modifies this
      ensures Valid()
      ensures states == old(states)[i := old(states)[i].(isAnswered := true, isCorrect := correct)]
      ensures score == old(score) + (if correct then 1 else 0)
      ensures storage == Saved(old(storage), states, score, AllAnswered(states), now)
      ensures selectedIndex == old(selectedIndex)
    {
      var newStates := states[i := states[i].(isAnswered := true, isCorrect := correct)];
      var newScore := if correct then score + 1 else score;
      CountCorrectUpdate(states, i, newStates[i]);
      states := newStates;
      score := newScore;
      SaveProgress(newStates, newScore, AllAnswered(newStates), now);
    }

    /** `handleToggleHint(i)`: flips only slot i's hint flag, answered or not. */
    method ToggleHint(i: int)
      requires Valid()
      modifies this`states
      ensures Valid()
      ensures if 0 <= i < |old(states)| then states == old(states)[i := old(states)[i].(showHint := !old(states)[i].showHint)]
        else states == old(states)
    {
      if 0 <= i < |states| {
        CountCorrectUpdate(states, i, states[i].(showHint := !states[i].showHint));
        states := states[i := states[i].(showHint := !states[i].showHint)];
      }
    }

    /** `handleInputChange(i, value)`: replaces only slot i's typed answer. */
    method InputChange(i: int, value: string)
      requires Valid()
      modifies this`states
      ensures Valid()
      ensures if 0 <= i < |old(states)| then states == old(states)[i := old(states)[i].(userAnswer := value)]
        else states == old(states)
    {
      if 0 <= i < |states| {
        CountCorrectUpdate(states, i, states[i].(userAnswer := value));
        states := states[i := states[i].(userAnswer := value)];
      }
    }

    /** `handleRestart`: every slot fresh, score zero, and a zeroed snapshot saved. */
    method Restart(now: int)
      requires Valid()
      modifies this
      ensures Valid()
      ensures states == FreshStates(|questions|) && score == 0
      ensures CountAnswered(states) == 0
      ensures storage == Saved(old(storage), FreshStates(|questions|), 0, false, now)
      ensures selectedIndex == old(selectedIndex)
    {
      FreshStatesCounts(|questions|);
      var resetStates := FreshStates(|questions|);
      states := resetStates;
      score := 0;
      SaveProgress(resetStates, 0, false, now);
    }

    /** The option a key press answers on the shown slide, if any: the shortcut works only
        while some question is unanswered, on a multiple-choice slide that has options and
        is not answered yet, and for an option that exists. */
    function KeyChoice(key: string): (r: Option<string>)
      reads this
      ensures r.Some? ==>
        && 0 <= selectedIndex < |questions|
        && questions[selectedIndex].questionType == MultipleChoice
        && questions[selectedIndex].options.Some?
        && r.value in questions[selectedIndex].options.value
        && !(0 <= selectedIndex < |states| && states[selectedIndex].isAnswered)
      ensures r.Some? ==>
        && KeyOptionIndex(key).Some?
        && KeyOptionIndex(key).value < |questions[selectedIndex].options.value|
        && r.value == questions[selectedIndex].options.value[KeyOptionIndex(key).value]
      ensures
        && CountAnswered(states) != |questions|
        && KeyOptionIndex(key).Some?
        && 0 <= selectedIndex < |questions|
        && questions[selectedIndex].questionType == MultipleChoice
        && questions[selectedIndex].options.Some?
        && !(0 <= selectedIndex < |states| && states[selectedIndex].isAnswered)
        && KeyOptionIndex(key).value < |questions[selectedIndex].options.value|
        ==> r == Some(questions[selectedIndex].options.value[KeyOptionIndex(key).value])
      ensures CountAnswered(states) == |questions| ==> r == None
    {
      if CountAnswered(states) == |questions| then None
      else match KeyOptionIndex(key)
        case None => None
        case Some(k) =>
          if !(0 <= selectedIndex < |questions|) then None
          else
            var q := questions[selectedIndex];
            if q.questionType != MultipleChoice || q.options.None? then None
            else if 0 <= selectedIndex < |states| && states[selectedIndex].isAnswered then None
            else if k >= |q.options.value| then None
            else Some(q.options.value[k])
    }

    /** The keydown handler: a shortcut key answers the shown slide with that option,
        exactly as a click on it would. */
    method KeyPress(key: string, now: int)
      requires Valid()
      modifies this
      ensures Valid()
      ensures match old(KeyChoice(key))
        case None => states == old(states) && score == old(score) && storage == old(storage)
        case Some(option) =>
          var i := selectedIndex;
          if 0 <= i < |old(states)| then
            states == old(states)[i := ChoiceAnswered(old(states)[i], option, questions[i].answer)]
            && storage == Saved(old(storage), states, score, false, now)
          else states == old(states) && score == old(score) && storage == old(storage)
      ensures selectedIndex == old(selectedIndex)
    {
      var choice := KeyChoice(key);
      if choice.Some? {
        AnswerMultipleChoice(selectedIndex, choice.value, now);
      }
    }
  }
}
