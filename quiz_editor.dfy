/** The question editor (components/admin/QuizEditor.tsx). It keeps no state of its own:
    every edit is a partial update of the question handed to the page, which spreads it
    over the current question. The choice list is kept between two and six entries. */
module QuizEditor {
  import opened Wrappers
  import opened Text
  import opened QuizModel
  import opened AdminUtils

  /** `Partial<QuizQuestion>`: the fields an edit sets; the others are absent. For the
      correct index, `Some(None)` sets it to null. */
  datatype Patch = Patch(
    theme: Option<string>,
    questionType: Option<QuestionType>,
    questionText: Option<string>,
    choices: Option<seq<string>>,
    correctIndex: Option<Option<int>>,
    explanation: Option<string>,
    relatedArticle: Option<ArticleRef>,
    tags: Option<string>)

  const EMPTY_PATCH: Patch := Patch(None, None, None, None, None, None, None, None)

  /** `{ ...question, ...updates }`: a field the patch sets replaces the question's, every
      other field is kept. */
  function Merge(q: QuizQuestion, p: Patch): (r: QuizQuestion)
    ensures r.id == q.id && r.date == q.date && r.creator == q.creator
    ensures r.theme == p.theme.GetOr(q.theme) && r.questionType == p.questionType.GetOr(q.questionType)
    ensures r.questionText == p.questionText.GetOr(q.questionText) && r.choices == p.choices.GetOr(q.choices)
    ensures r.correctIndex == p.correctIndex.GetOr(q.correctIndex)
    ensures r.explanation == (if p.explanation.Some? then p.explanation else q.explanation)
    ensures r.relatedArticle == (if p.relatedArticle.Some? then p.relatedArticle else q.relatedArticle)
    ensures r.tags == (if p.tags.Some? then p.tags else q.tags)
    ensures p == EMPTY_PATCH ==> r == q
  {
    q.(theme := p.theme.GetOr(q.theme),
       questionType := p.questionType.GetOr(q.questionType),
       questionText := p.questionText.GetOr(q.questionText),
       choices := p.choices.GetOr(q.choices),
       correctIndex := p.correctIndex.GetOr(q.correctIndex),
       explanation := if p.explanation.Some? then p.explanation else q.explanation,
       relatedArticle := if p.relatedArticle.Some? then p.relatedArticle else q.relatedArticle,
       tags := if p.tags.Some? then p.tags else q.tags)
  }

  /** `choices.filter((_, i) => i !== index)`. */
  function RemoveAt<T>(s: seq<T>, index: int): (r: seq<T>)
    ensures 0 <= index < |s| ==> |r| == |s| - 1
    ensures 0 <= index < |s| ==> forall i :: 0 <= i < index ==> r[i] == s[i]
    ensures 0 <= index < |s| ==> forall i :: index <= i < |r| ==> r[i] == s[i + 1]
    ensures !(0 <= index < |s|) ==> r == s
  {
    if 0 <= index < |s| then s[..index] + s[index + 1..] else s
  }

  /** `addChoice`: an empty choice appended while there are fewer than six; no update
      otherwise. */
  function AddChoice(q: QuizQuestion): (r: Option<Patch>)
    ensures r.Some? <==> |q.choices| < 6
    ensures r.Some? ==> r.value == EMPTY_PATCH.(choices := Some(q.choices + [""]))
  {
    if |q.choices| < 6 then Some(EMPTY_PATCH.(choices := Some(q.choices + [""]))) else None
  }

  /** `removeChoice(index)` as written: while there are more than two choices, the one at
      `index` is dropped and a correct index equal to it becomes null; a correct index
      after it is not moved down. */
  function RemoveChoice(q: QuizQuestion, index: int): (r: Option<Patch>)
    ensures r.Some? <==> |q.choices| > 2
    ensures r.Some? ==> r.value == EMPTY_PATCH.(
      choices := Some(RemoveAt(q.choices, index)),
      correctIndex := Some(if q.correctIndex == Some(index) then None else q.correctIndex))
  {
    if |q.choices| > 2 then
      Some(EMPTY_PATCH.(
        choices := Some(RemoveAt(q.choices, index)),
        correctIndex := Some(if q.correctIndex == Some(index) then None else q.correctIndex)))
    else None
  }

  /** `removeChoice` as evidently intended: a correct index after the removed choice moves
      down with its choice. */
  function RemoveChoiceShifting(q: QuizQuestion, index: int): (r: Option<Patch>)
    ensures r.Some? <==> |q.choices| > 2
    ensures r.Some? ==> r.value.choices == Some(RemoveAt(q.choices, index))
  {
    if |q.choices| > 2 then
      var ci :=
        match q.correctIndex
        case None => None
        case Some(c) =>
          if c == index then None
          else if 0 <= index < |q.choices| && c > index then Some(c - 1)
          else Some(c);
      Some(EMPTY_PATCH.(choices := Some(RemoveAt(q.choices, index)), correctIndex := Some(ci)))
    else None
  }

  /** With the shift, removing any other choice keeps the correct index on the same choice
      text, and in range; removing the correct choice clears it. */
  lemma RemoveChoiceShiftingKeepsAnswer(q: QuizQuestion, index: int)
    requires |q.choices| > 2 && 0 <= index < |q.choices|
    requires q.correctIndex.Some? && 0 <= q.correctIndex.value < |q.choices|
    ensures var q' := Merge(q, RemoveChoiceShifting(q, index).value);
      if q.correctIndex.value == index then q'.correctIndex.None?
      else
        && q'.correctIndex.Some? && 0 <= q'.correctIndex.value < |q'.choices|
        && q'.choices[q'.correctIndex.value] == q.choices[q.correctIndex.value]
  {
  }

  /** As written, removing a choice before the correct one leaves the index one past the
      choice it named: with choices a, b, c and c correct, removing a leaves two choices
      with the index 2, which the validation still accepts and the upload turns into the
      answer "3" for a two-option question. */
  lemma RemoveChoiceLosesAnswer()
    ensures var q := QuizQuestion("id", "2025-01-01", "BlackSwan", MultipleChoice, "질문",
        ["a", "b", "c"], Some(2), None, None, "", Some("경제"));
      var q' := Merge(q, RemoveChoice(q, 0).value);
      && q'.choices == ["b", "c"] && q'.correctIndex == Some(2)
      && Issues(q') == []
      && ConvertToLambdaFormat(q').answer == "3"
  {
    var q := QuizQuestion("id", "2025-01-01", "BlackSwan", MultipleChoice, "질문",
        ["a", "b", "c"], Some(2), None, None, "", Some("경제"));
    var q' := Merge(q, RemoveChoice(q, 0).value);
    assert q'.choices == ["b", "c"];
    assert !IsBlank(q'.choices[0]) && !IsBlank(q'.choices[1]);
    assert !HasBlankChoice(q'.choices);
    assert !IsBlank(q'.questionText) && !IsBlank(q'.tags.value);
    IssuesUnfold(q');
    assert NatToString(3) == "3";
  }

  /** `updateChoice(index, value)`: only that position changes. */
  function UpdateChoice(q: QuizQuestion, index: int, value: string): (r: Patch)
    requires 0 <= index < |q.choices|
    ensures r.choices.Some? && |r.choices.value| == |q.choices| && r.choices.value[index] == value
    ensures forall i :: 0 <= i < |q.choices| && i != index ==> r.choices.value[i] == q.choices[i]
    ensures r.(choices := None) == EMPTY_PATCH
  {
    EMPTY_PATCH.(choices := Some(q.choices[index := value]))
  }

  /** Clicking choice `index`: it becomes the correct one. */
  function SelectCorrect(index: int): (r: Patch)
    ensures r == EMPTY_PATCH.(correctIndex := Some(Some(index)))
  {
    EMPTY_PATCH.(correctIndex := Some(Some(index)))
  }

  /** Typing a short answer: the choices become that one answer, marked correct. */
  function ShortAnswerInput(value: string): (r: Patch)
    ensures r == EMPTY_PATCH.(choices := Some([value]), correctIndex := Some(Some(0)))
  {
    EMPTY_PATCH.(choices := Some([value]), correctIndex := Some(Some(0)))
  }

  /** The short-answer field's value: the first choice once a correct index is set. */
  function ShortAnswerShown(q: QuizQuestion): (r: string)
    ensures q.correctIndex.None? ==> r == ""
    ensures q.correctIndex.Some? && |q.choices| > 0 ==> r == q.choices[0]
  {
    if q.correctIndex.Some? then (if |q.choices| > 0 then q.choices[0] else "") else ""
  }

  /** Typing a short answer and reading the field back gives what was typed, and the
      question it leaves is accepted by the short-answer rule exactly when that text is
      not blank. */
  lemma ShortAnswerRoundTrip(q: QuizQuestion, value: string)
    ensures ShortAnswerShown(Merge(q, ShortAnswerInput(value))) == value
    ensures q.questionType == ShortAnswer ==>
      (MESSAGES[4] in Issues(Merge(q, ShortAnswerInput(value))) <==> IsBlank(value))
  {
    IssueIffRuleFails(Merge(q, ShortAnswerInput(value)), 4);
  }

  /** The article fields: each edit sets one field and keeps the other two, an absent
      article counting as three empty fields. */
  function ArticleOrEmpty(a: Option<ArticleRef>): ArticleRef {
    if a.Some? then a.value else ArticleRef("", "", "")
  }

  function SetArticleTitle(q: QuizQuestion, value: string): (r: Patch)
    ensures r.relatedArticle == Some(ArticleRef(value, ArticleOrEmpty(q.relatedArticle).snippet, ArticleOrEmpty(q.relatedArticle).url))
    ensures r.(relatedArticle := None) == EMPTY_PATCH
  {
    EMPTY_PATCH.(relatedArticle := Some(ArticleOrEmpty(q.relatedArticle).(title := value)))
  }

  function SetArticleSnippet(q: QuizQuestion, value: string): (r: Patch)
    ensures r.relatedArticle == Some(ArticleRef(ArticleOrEmpty(q.relatedArticle).title, value, ArticleOrEmpty(q.relatedArticle).url))
    ensures r.(relatedArticle := None) == EMPTY_PATCH
  {
    EMPTY_PATCH.(relatedArticle := Some(ArticleOrEmpty(q.relatedArticle).(snippet := value)))
  }

  function SetArticleUrl(q: QuizQuestion, value: string): (r: Patch)
    ensures r.relatedArticle == Some(ArticleRef(ArticleOrEmpty(q.relatedArticle).title, ArticleOrEmpty(q.relatedArticle).snippet, value))
    ensures r.(relatedArticle := None) == EMPTY_PATCH
  {
    EMPTY_PATCH.(relatedArticle := Some(ArticleOrEmpty(q.relatedArticle).(url := value)))
  }

  /** Entering an article URL makes it the upload's news link. */
  lemma ArticleUrlIsNewsLink(q: QuizQuestion, url: string)
    requires url != ""
    ensures ConvertToLambdaFormat(Merge(q, SetArticleUrl(q, url))).newsLink == url
    ensures ConvertToLambdaFormat(Merge(q, SetArticleUrl(q, url))).relatedArticle.Some?
  {
  }

  /** The number of choices stays between two and six under adding and removing. */
  lemma ChoiceCountBounded(q: QuizQuestion, index: int)
    requires 2 <= |q.choices| <= 6
    ensures AddChoice(q).Some? ==> 2 <= |Merge(q, AddChoice(q).value).choices| <= 6
    ensures RemoveChoice(q, index).Some? ==> 2 <= |Merge(q, RemoveChoice(q, index).value).choices| <= 6
    ensures RemoveChoice(q, index).Some? && 0 <= index < |q.choices| ==>
      |Merge(q, RemoveChoice(q, index).value).choices| == |q.choices| - 1
  {
  }
}
