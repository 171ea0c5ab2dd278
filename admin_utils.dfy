/** Admin authoring (lib/admin-utils.ts): the authored question record, its rule-by-rule
    validation, its conversion to the upload schema, and the upload grouped by theme with
    the responses' verdicts combined into one result. */
module AdminUtils {
  import opened Wrappers
  import opened Text
  import opened QuizModel

  /** `related_article` of an authored question. */
  datatype ArticleRef = ArticleRef(title: string, snippet: string, url: string)

  /** The authored `QuizQuestion` (types/quiz.ts). The theme is kept as the string it is at
      run time, so that a record with any other theme can be represented. The fields no
      operation here reads (card type, title, hints, image) are not kept. */
  datatype QuizQuestion = QuizQuestion(
    id: string,
    date: string,
    theme: string,
    questionType: QuestionType,
    questionText: string,
    choices: seq<string>,
    correctIndex: Option<int>,
    explanation: Option<string>,
    relatedArticle: Option<ArticleRef>,
    creator: string,
    tags: Option<string>)

  /** JavaScript `s || fallback` on an optional string: an absent or empty string gives
      the fallback. */
  function OrElse(s: Option<string>, fallback: string): (r: string)
    ensures s.Some? && s.value != "" ==> r == s.value
    ensures s.None? || s.value == "" ==> r == fallback
  {
    if s.Some? && s.value != "" then s.value else fallback
  }

  // ---------------------------------------------------------------------------
  // validateQuestion

  datatype Status = Ok | Missing

  /** `{ status, issues }`. */
  datatype Validation = Validation(status: Status, issues: seq<string>)

  /** The six messages, in the order the rules are checked. */
  const MESSAGES: seq<string> := [
    "질문 내용이 비어있습니다",
    "선택지는 2~6개여야 합니다",
    "정답을 선택해주세요",
    "빈 선택지가 있습니다",
    "주관식 정답을 입력해주세요",
    "태그를 입력해주세요"]

  const RULE_COUNT: nat := 6

  /** Some choice is blank after trimming. */
  predicate HasBlankChoice(choices: seq<string>) {
    exists i :: 0 <= i < |choices| && IsBlank(choices[i])
  }

  /** Rule k is broken: 0 blank question text; for multiple choice, 1 a choice count
      outside 2..6, 2 no correct index, 3 a blank choice; for a short answer, 4 a missing
      or blank first choice; 5 missing or blank tags. */
  predicate RuleFails(q: QuizQuestion, k: nat)
    requires k < RULE_COUNT
  {
    match k
    case 0 => IsBlank(q.questionText)
    case 1 => q.questionType == MultipleChoice && !(2 <= |q.choices| <= 6)
    case 2 => q.questionType == MultipleChoice && q.correctIndex.None?
    case 3 => q.questionType == MultipleChoice && HasBlankChoice(q.choices)
    case 4 => q.questionType == ShortAnswer && (|q.choices| == 0 || IsBlank(q.choices[0]))
    case _ => q.tags.None? || IsBlank(q.tags.value)
  }

  /** The messages of the broken rules from rule k on, in rule order. */
  function FailedFrom(q: QuizQuestion, k: nat): (r: seq<string>)
    requires k <= RULE_COUNT
    ensures |r| <= RULE_COUNT - k
    decreases RULE_COUNT - k
  {
    if k == RULE_COUNT then [] else Reported(q, k) + FailedFrom(q, k + 1)
  }

  /** Rule k's message when it is broken, nothing otherwise. */
  function Reported(q: QuizQuestion, k: nat): (r: seq<string>)
    requires k < RULE_COUNT
    ensures RuleFails(q, k) ==> r == [MESSAGES[k]]
    ensures !RuleFails(q, k) ==> r == []
  {
    if RuleFails(q, k) then [MESSAGES[k]] else []
  }

  /** The report spelled out rule by rule. */
  lemma IssuesUnfold(q: QuizQuestion)
    ensures Issues(q) == Reported(q, 0) + Reported(q, 1) + Reported(q, 2) + Reported(q, 3) + Reported(q, 4) + Reported(q, 5)
  {
    var r0, r1, r2 := Reported(q, 0), Reported(q, 1), Reported(q, 2);
    var r3, r4, r5 := Reported(q, 3), Reported(q, 4), Reported(q, 5);
    assert FailedFrom(q, 5) == r5 + [];
    assert FailedFrom(q, 0) == r0 + (r1 + (r2 + (r3 + (r4 + (r5 + [])))));
    ConcatSix(r0, r1, r2, r3, r4, r5);
  }

  /** Concatenation regrouped to the left. */
  lemma ConcatSix<T>(a: seq<T>, b: seq<T>, c: seq<T>, d: seq<T>, e: seq<T>, f: seq<T>)
    ensures a + (b + (c + (d + (e + (f + []))))) == a + b + c + d + e + f
  {
    assert f + [] == f;
  }

  /** Every broken rule's message, each once, in rule order. */
  function Issues(q: QuizQuestion): (r: seq<string>)
    ensures |r| <= RULE_COUNT
  {
    FailedFrom(q, 0)
  }

  /** A message is reported exactly when its rule is broken, and whatever the other rules
      say: every issue is reported, not only the first. */
  lemma {:induction false} IssueIffRuleFails(q: QuizQuestion, k: nat)
    requires k < RULE_COUNT
    ensures MESSAGES[k] in Issues(q) <==> RuleFails(q, k)
  {
    MessagesDistinct();
    FailedFromMembers(q, 0, k);
  }

  lemma MessagesDistinct()
    ensures forall i, j :: 0 <= i < j < RULE_COUNT ==> MESSAGES[i] != MESSAGES[j]
  {
    assert MESSAGES[0] != MESSAGES[1] && MESSAGES[0] != MESSAGES[2] && MESSAGES[0] != MESSAGES[3];
    assert MESSAGES[0] != MESSAGES[4] && MESSAGES[0] != MESSAGES[5];
    assert MESSAGES[1] != MESSAGES[2] && MESSAGES[1] != MESSAGES[3] && MESSAGES[1] != MESSAGES[4];
    assert MESSAGES[1] != MESSAGES[5] && MESSAGES[2] != MESSAGES[3] && MESSAGES[2] != MESSAGES[4];
    assert MESSAGES[2] != MESSAGES[5] && MESSAGES[3] != MESSAGES[4] && MESSAGES[3] != MESSAGES[5];
    assert MESSAGES[4] != MESSAGES[5];
  }

  lemma {:induction false} FailedFromMembers(q: QuizQuestion, from: nat, k: nat)
    requires from <= RULE_COUNT && k < RULE_COUNT
    requires forall i, j :: 0 <= i < j < RULE_COUNT ==> MESSAGES[i] != MESSAGES[j]
    ensures MESSAGES[k] in FailedFrom(q, from) <==> from <= k && RuleFails(q, k)
    decreases RULE_COUNT - from
  {
    if from < RULE_COUNT {
      FailedFromMembers(q, from + 1, k);
    }
  }

  /** A question is either multiple choice or short answer, so the short-answer message
      never comes with one of the three multiple-choice messages. */
  lemma ChoiceRulesExclusive(q: QuizQuestion)
    ensures MESSAGES[4] in Issues(q) ==> MESSAGES[1] !in Issues(q) && MESSAGES[2] !in Issues(q) && MESSAGES[3] !in Issues(q)
  {
    IssueIffRuleFails(q, 1);
    IssueIffRuleFails(q, 2);
    IssueIffRuleFails(q, 3);
    IssueIffRuleFails(q, 4);
  }

  /** `validateQuestion(question)`: the rules are checked in order, each broken one
      appending its message, and the status is "ok" exactly when nothing was appended. */
  method ValidateQuestion(q: QuizQuestion) returns (r: Validation)
    ensures r.issues == Issues(q)
    ensures r.status == Ok <==> r.issues == []
    ensures r.status == Ok <==> forall k :: 0 <= k < RULE_COUNT ==> !RuleFails(q, k)
  {
    var errors: seq<string> := [];
    if IsBlank(q.questionText) {
      errors := errors + [MESSAGES[0]];
    }
    var choiceErrors := ChoiceIssues(q);
    errors := errors + choiceErrors;
    var tagsMissing := q.tags.None? || IsBlank(q.tags.value);
    if tagsMissing {
      errors := errors + [MESSAGES[5]];
    }
    IssuesGrouped(q, errors, IsBlank(q.questionText), choiceErrors, tagsMissing);
    r := Validation(if |errors| == 0 then Ok else Missing, errors);
    AllRulesHold(q);
  }

  /** The messages gathered by the three steps of the check are the report. */
  lemma IssuesGrouped(q: QuizQuestion, errors: seq<string>, textBlank: bool, choiceErrors: seq<string>, tagsMissing: bool)
    requires textBlank == RuleFails(q, 0) && tagsMissing == RuleFails(q, 5)
    requires choiceErrors == Reported(q, 1) + Reported(q, 2) + Reported(q, 3) + Reported(q, 4)
    requires errors == (if textBlank then [MESSAGES[0]] else []) + choiceErrors + (if tagsMissing then [MESSAGES[5]] else [])
    ensures errors == Issues(q)
  {
    IssuesUnfold(q);
  }

  /** The checks on the choices: for a multiple-choice question their number, the marked
      answer and blank choices; for a short answer the answer itself. */
  method ChoiceIssues(q: QuizQuestion) returns (errors: seq<string>)
    ensures errors == Reported(q, 1) + Reported(q, 2) + Reported(q, 3) + Reported(q, 4)
  {
    errors := [];
    if q.questionType == MultipleChoice {
      if |q.choices| < 2 || |q.choices| > 6 {
        errors := errors + [MESSAGES[1]];
      }
      if q.correctIndex.None? {
        errors := errors + [MESSAGES[2]];
      }
      var hasEmptyChoice := SomeBlank(q.choices);
      if hasEmptyChoice {
        errors := errors + [MESSAGES[3]];
      }
    } else {
      if |q.choices| == 0 || IsBlank(q.choices[0]) {
        errors := errors + [MESSAGES[4]];
      }
    }
  }

  /** Nothing reported exactly when no rule is broken. */
  lemma AllRulesHold(q: QuizQuestion)
    ensures Issues(q) == [] <==> forall k :: 0 <= k < RULE_COUNT ==> !RuleFails(q, k)
  {
    if Issues(q) == [] {
      forall k | 0 <= k < RULE_COUNT
        ensures !RuleFails(q, k)
      {
        IssueIffRuleFails(q, k);
      }
    }
  }

  /** `choices.some((choice) => !choice.trim())`. */
  method SomeBlank(choices: seq<string>) returns (found: bool)
    ensures found <==> HasBlankChoice(choices)
  {
    found := false;
    var i := 0;
    while i < |choices| && !found
      invariant 0 <= i <= |choices|
      invariant found <==> exists j :: 0 <= j < i && IsBlank(choices[j])
    {
      found := IsBlank(choices[i]);
      i := i + 1;
    }
  }

  // ---------------------------------------------------------------------------
  // convertToLambdaFormat

  /** The upload schema's question (`LambdaQuestion`). */
  datatype LambdaQuestion = LambdaQuestion(
    id: string,
    questionType: QuestionType,
    question: string,
    options: Option<seq<string>>,
    answer: string,
    explanation: string,
    newsLink: string,
    tags: Option<string>,
    relatedArticle: Option<RelatedArticle>)

  const DEFAULT_NEWS_LINK: string := "https://www.sedaily.com/"

  /** An article with at least one non-empty field. */
  predicate ArticleGiven(a: Option<ArticleRef>) {
    a.Some? && (a.value.title != "" || a.value.snippet != "" || a.value.url != "")
  }

  /** `convertToLambdaFormat(question)`. A multiple-choice question keeps its choices as
      options and its answer is the 1-based position of the correct choice in decimal, or
      empty without one; a short answer has no options and its answer is the first choice,
      or empty. The explanation defaults to empty, the news link to the paper's home page,
      and the related article, taken only when one of its fields is non-empty, carries its
      title and its snippet as excerpt. */
  function ConvertToLambdaFormat(q: QuizQuestion): (r: LambdaQuestion)
    ensures r.id == q.id && r.questionType == q.questionType && r.question == q.questionText && r.tags == q.tags
    ensures r.explanation == OrElse(q.explanation, "")
    ensures r.newsLink == OrElse(if q.relatedArticle.Some? then Some(q.relatedArticle.value.url) else None, DEFAULT_NEWS_LINK)
    ensures r.newsLink != ""
    ensures q.questionType == MultipleChoice ==> r.options == Some(q.choices)
    ensures q.questionType == MultipleChoice && q.correctIndex.None? ==> r.answer == ""
    ensures q.questionType == MultipleChoice && q.correctIndex.Some? && q.correctIndex.value >= 0 ==>
      IsDigits(r.answer) && r.answer != "" && DigitsValue(r.answer) == q.correctIndex.value + 1
    ensures q.questionType == ShortAnswer ==> r.options.None?
    ensures q.questionType == ShortAnswer ==> r.answer == (if |q.choices| > 0 then q.choices[0] else "")
    ensures r.relatedArticle.Some? <==> ArticleGiven(q.relatedArticle)
    ensures r.relatedArticle.Some? ==>
      r.relatedArticle.value == RelatedArticle(q.relatedArticle.value.title, q.relatedArticle.value.snippet)
  {
    var options := if q.questionType == MultipleChoice then Some(q.choices) else None;
    var answer :=
      if q.questionType == MultipleChoice then
        (if q.correctIndex.Some? then IntToString(q.correctIndex.value + 1) else "")
      else OrElse(if |q.choices| > 0 then Some(q.choices[0]) else None, "");
    var article :=
      if ArticleGiven(q.relatedArticle)
      then Some(RelatedArticle(q.relatedArticle.value.title, q.relatedArticle.value.snippet))
      else None;
    var newsLink := OrElse(if q.relatedArticle.Some? then Some(q.relatedArticle.value.url) else None, DEFAULT_NEWS_LINK);
    assert q.questionType == MultipleChoice && q.correctIndex.Some? && q.correctIndex.value >= 0 ==>
      DigitsValue(answer) == q.correctIndex.value + 1 by {
      if q.questionType == MultipleChoice && q.correctIndex.Some? && q.correctIndex.value >= 0 {
        DigitsValueOfNatToString(q.correctIndex.value + 1);
      }
    }
    LambdaQuestion(q.id, q.questionType, q.questionText, options, answer,
      OrElse(q.explanation, ""), newsLink, q.tags, article)
  }

  /** What validation guarantees of the upload: a question that passes has a non-empty
      answer and tags; a multiple-choice one has 2 to 6 non-blank options, and its answer,
      read as a number, is one more than the correct index; a short-answer one has no
      options and its answer is its non-blank first choice. */
  lemma ValidQuestionUploads(q: QuizQuestion)
    requires Issues(q) == []
    ensures var r := ConvertToLambdaFormat(q);
      && r.answer != "" && r.tags.Some? && !IsBlank(r.tags.value) && !IsBlank(r.question)
      && (q.questionType == MultipleChoice ==>
            && r.options.Some? && 2 <= |r.options.value| <= 6
            && (forall i :: 0 <= i < |r.options.value| ==> !IsBlank(r.options.value[i]))
            && (q.correctIndex.value >= 0 ==> DigitsValue(r.answer) == q.correctIndex.value + 1))
      && (q.questionType == ShortAnswer ==> r.options.None? && r.answer == q.choices[0] && !IsBlank(r.answer))
  {
    AllRulesHold(q);
    assert !RuleFails(q, 0) && !RuleFails(q, 1) && !RuleFails(q, 2);
    assert !RuleFails(q, 3) && !RuleFails(q, 4) && !RuleFails(q, 5);
  }

  // ---------------------------------------------------------------------------
  // saveToLambda

  /** One POST body: `{ gameType, quizDate, data: { questions } }`. */
  datatype Payload = Payload(gameType: string, quizDate: string, questions: seq<LambdaQuestion>)

  /** What `response.json()` yields on a failed response: unreadable, an object with an
      `error` field, or an object without one. */
  datatype ErrorBody = Unreadable | ErrorField(error: string) | NoErrorField

  /** What one request comes to: rejected with an error message, or a response. */
  datatype FetchResult = Rejected(message: string) | Response(ok: bool, status: int, body: ErrorBody)

  /** `{ success, error? }`. */
  datatype SaveResult = SaveResult(success: bool, error: Option<string>)

  /** The placeholder or missing URL: validate and report success without sending. The
      placeholder may stand anywhere in the URL. */
  predicate IsLocalTest(apiUrl: string)
    ensures IsLocalTest(apiUrl) <==> apiUrl == "" || exists k :: InfixAt(apiUrl, "your-api-gateway-url", k)
  {
    ContainsIffInfix(apiUrl, "your-api-gateway-url");
    Contains(apiUrl, "your-api-gateway-url") || apiUrl == ""
  }

  /** The questions of one theme, in input order; a question whose theme is none of the
      three belongs to no group. */
  function Group(questions: seq<QuizQuestion>, g: GameType): (r: seq<QuizQuestion>)
    ensures |r| <= |questions|
  {
    if |questions| == 0 then []
    else
      var last := questions[|questions| - 1];
      Group(questions[..|questions| - 1], g) + (if ParseGameType(last.theme) == Some(g) then [last] else [])
  }

  /** A question is in a theme's group exactly when it is among the questions and names
      that theme. */
  lemma {:induction false} GroupMembers(questions: seq<QuizQuestion>, g: GameType, x: QuizQuestion)
    ensures x in Group(questions, g) <==> x in questions && ParseGameType(x.theme) == Some(g)
  {
    if |questions| > 0 {
      var init := questions[..|questions| - 1];
      GroupMembers(init, g, x);
      assert questions == init + [questions[|questions| - 1]];
    }
  }

  /** The questions of a known theme, in input order. */
  function Known(questions: seq<QuizQuestion>): (r: seq<QuizQuestion>)
    ensures |r| <= |questions|
  {
    if |questions| == 0 then []
    else
      var last := questions[|questions| - 1];
      Known(questions[..|questions| - 1]) + (if ParseGameType(last.theme).Some? then [last] else [])
  }

  /** The three groups share out exactly the questions of a known theme. */
  lemma {:induction false} GroupsPartition(questions: seq<QuizQuestion>)
    ensures |Group(questions, BlackSwan)| + |Group(questions, PrisonersDilemma)| + |Group(questions, SignalDecoding)|
      == |Known(questions)|
  {
    if |questions| > 0 {
      GroupsPartition(questions[..|questions| - 1]);
    }
  }

  /** Each question of a group in upload form. */
  function ConvertAll(qs: seq<QuizQuestion>): (r: seq<LambdaQuestion>)
    ensures |r| == |qs|
    ensures forall i :: 0 <= i < |qs| ==> r[i] == ConvertToLambdaFormat(qs[i])
  {
    seq(|qs|, i requires 0 <= i < |qs| => ConvertToLambdaFormat(qs[i]))
  }

  /** The payload for one theme, or none for an empty group: a theme with questions gets
      exactly one body, named for it, for the given date, carrying all its questions
      converted. */
  function PayloadFor(questions: seq<QuizQuestion>, quizDate: string, g: GameType): (r: seq<Payload>)
    ensures |r| <= 1 && (r == [] <==> Group(questions, g) == [])
    ensures r != [] ==>
      && ParseGameType(r[0].gameType) == Some(g) && r[0].quizDate == quizDate
      && |r[0].questions| == |Group(questions, g)| > 0
      && forall i :: 0 <= i < |r[0].questions| ==> r[0].questions[i] == ConvertToLambdaFormat(Group(questions, g)[i])
  {
    ParseGameTypeName(g);
    var group := Group(questions, g);
    if |group| == 0 then [] else [Payload(GameTypeName(g), quizDate, ConvertAll(group))]
  }

  /** The bodies sent, one per non-empty theme in the fixed order Black Swan, Prisoner's
      Dilemma, Signal Decoding. */
  function Payloads(questions: seq<QuizQuestion>, quizDate: string): (r: seq<Payload>)
  {
    PayloadFor(questions, quizDate, BlackSwan)
      + PayloadFor(questions, quizDate, PrisonersDilemma)
      + PayloadFor(questions, quizDate, SignalDecoding)
  }

  /** At most three bodies, each for the given date, each non-empty, with distinct theme
      names; the body named for a theme carries exactly that theme's questions. */
  lemma PayloadsShape(questions: seq<QuizQuestion>, quizDate: string)
    ensures var ps := Payloads(questions, quizDate);
      && |ps| <= 3
      && (forall i :: 0 <= i < |ps| ==> ps[i].quizDate == quizDate && |ps[i].questions| > 0)
      && (forall i, j :: 0 <= i < j < |ps| ==> ps[i].gameType != ps[j].gameType)
      && (forall i :: 0 <= i < |ps| ==>
            ParseGameType(ps[i].gameType).Some?
            && ps[i].questions == ConvertAll(Group(questions, ParseGameType(ps[i].gameType).value)))
  {
  }

  /** Every theme that has questions gets a body. */
  lemma PayloadsCover(questions: seq<QuizQuestion>, quizDate: string, g: GameType)
    requires Group(questions, g) != []
    ensures exists i ::
      && 0 <= i < |Payloads(questions, quizDate)|
      && ParseGameType(Payloads(questions, quizDate)[i].gameType) == Some(g)
  {
    var ps := Payloads(questions, quizDate);
    var a := PayloadFor(questions, quizDate, BlackSwan);
    var b := PayloadFor(questions, quizDate, PrisonersDilemma);
    var c := PayloadFor(questions, quizDate, SignalDecoding);
    match g
    case BlackSwan => assert ps[0] == a[0];
    case PrisonersDilemma => assert ps[|a|] == b[0];
    case SignalDecoding => assert ps[|a| + |b|] == c[0];
  }

  /** The position of the first rejected request, if any. */
  function FirstRejected(rs: seq<FetchResult>): (r: Option<nat>)
    ensures r.Some? ==> r.value < |rs| && rs[r.value].Rejected?
    ensures r.Some? ==> forall k :: 0 <= k < r.value ==> !rs[k].Rejected?
    ensures r.None? ==> forall k :: 0 <= k < |rs| ==> !rs[k].Rejected?
  {
    if |rs| == 0 then None
    else if rs[0].Rejected? then Some(0)
    else match FirstRejected(rs[1..])
      case None => None
      case Some(k) => Some(k + 1)
  }

  /** The position of the first response that is not ok, if any. */
  function FirstNotOk(rs: seq<FetchResult>): (r: Option<nat>)
    ensures r.Some? ==> r.value < |rs| && rs[r.value].Response? && !rs[r.value].ok
    ensures r.Some? ==> forall k :: 0 <= k < r.value ==> !(rs[k].Response? && !rs[k].ok)
    ensures r.None? ==> forall k :: 0 <= k < |rs| ==> !(rs[k].Response? && !rs[k].ok)
  {
    if |rs| == 0 then None
    else if rs[0].Response? && !rs[0].ok then Some(0)
    else match FirstNotOk(rs[1..])
      case None => None
      case Some(k) => Some(k + 1)
  }

  /** The message thrown for a failed response: its `error` field when non-empty, "Unknown
      error" when its body cannot be read, and otherwise one naming the status. */
  function ResponseError(status: int, body: ErrorBody): (r: string)
    ensures r != ""
    ensures body.ErrorField? && body.error != "" ==> r == body.error
    ensures body.Unreadable? ==> r == "Unknown error"
    ensures body.NoErrorField? || (body.ErrorField? && body.error == "") ==> r == "저장 실패: " + IntToString(status)
  {
    match body
    case Unreadable => "Unknown error"
    case ErrorField(e) => if e != "" then e else "저장 실패: " + IntToString(status)
    case NoErrorField => "저장 실패: " + IntToString(status)
  }

  /** The combined verdict: a rejected request fails the whole save with its message;
      otherwise the first response that is not ok fails it with that response's message;
      otherwise it succeeds. */
  function Settle(rs: seq<FetchResult>): (r: SaveResult)
    ensures r.success <==> forall k :: 0 <= k < |rs| ==> rs[k].Response? && rs[k].ok
    ensures r.success <==> r.error.None?
  {
    match FirstRejected(rs)
    case Some(k) => SaveResult(false, Some(rs[k].message))
    case None =>
      match FirstNotOk(rs)
      case Some(k) => SaveResult(false, Some(ResponseError(rs[k].status, rs[k].body)))
      case None => SaveResult(true, None)
  }

  /** `saveToLambda(questions, quizDate, apiUrl)`, `send` standing for `fetch`: the
      questions are grouped by theme, each non-empty group converted and, unless the URL is
      the placeholder or empty, sent; the local test succeeds without sending anything,
      and otherwise the responses' verdicts are combined. */
  method SaveToLambda(questions: seq<QuizQuestion>, quizDate: string, apiUrl: string, send: Payload -> FetchResult)
    returns (r: SaveResult, sent: seq<Payload>)
    ensures IsLocalTest(apiUrl) ==> sent == [] && r == SaveResult(true, None)
    ensures !IsLocalTest(apiUrl) ==> sent == Payloads(questions, quizDate)
    ensures !IsLocalTest(apiUrl) ==>
      r == Settle(seq(|sent|, i requires 0 <= i < |sent| => send(sent[i])))
  {
    var isLocalTest := Contains(apiUrl, "your-api-gateway-url") || apiUrl == "";
    var blackSwan, prisonersDilemma, signalDecoding := GroupByTheme(questions);
    sent := [];
    if !isLocalTest {
      if |blackSwan| > 0 {
        sent := sent + [Payload("BlackSwan", quizDate, ConvertAll(blackSwan))];
      }
      if |prisonersDilemma| > 0 {
        sent := sent + [Payload("PrisonersDilemma", quizDate, ConvertAll(prisonersDilemma))];
      }
      if |signalDecoding| > 0 {
        sent := sent + [Payload("SignalDecoding", quizDate, ConvertAll(signalDecoding))];
      }
    }
    if isLocalTest {
      return SaveResult(true, None), sent;
    }
    var responses := seq(|sent|, i requires 0 <= i < |sent| => send(sent[i]));
    r := AwaitAll(responses);
  }

  /** The grouping loop: each question whose theme names one of the three games is
      appended to that game's list, the others are skipped. */
  method GroupByTheme(questions: seq<QuizQuestion>)
    returns (blackSwan: seq<QuizQuestion>, prisonersDilemma: seq<QuizQuestion>, signalDecoding: seq<QuizQuestion>)
    ensures blackSwan == Group(questions, BlackSwan)
    ensures prisonersDilemma == Group(questions, PrisonersDilemma)
    ensures signalDecoding == Group(questions, SignalDecoding)
  {
    blackSwan, prisonersDilemma, signalDecoding := [], [], [];
    for i := 0 to |questions|
      invariant blackSwan == Group(questions[..i], BlackSwan)
      invariant prisonersDilemma == Group(questions[..i], PrisonersDilemma)
      invariant signalDecoding == Group(questions[..i], SignalDecoding)
    {
      var q := questions[i];
      assert questions[..i + 1][..i] == questions[..i];
      match ParseGameType(q.theme) {
        case Some(BlackSwan) => blackSwan := blackSwan + [q];
        case Some(PrisonersDilemma) => prisonersDilemma := prisonersDilemma + [q];
        case Some(SignalDecoding) => signalDecoding := signalDecoding + [q];
        case None =>
      }
    }
    assert questions[..|questions|] == questions;
  }

  /** `Promise.all` followed by the check loop: the first rejection wins, then the
      responses are inspected in order and the first one not ok ends the save. */
  method AwaitAll(responses: seq<FetchResult>) returns (r: SaveResult)
    ensures r == Settle(responses)
  {
    var rejected := FirstRejected(responses);
    if rejected.Some? {
      return SaveResult(false, Some(responses[rejected.value].message));
    }
    for i := 0 to |responses|
      invariant forall k :: 0 <= k < i ==> !(responses[k].Response? && !responses[k].ok)
    {
      var response := responses[i];
      if !response.ok {
        FirstNotOkIs(responses, i);
        return SaveResult(false, Some(ResponseError(response.status, response.body)));
      }
    }
    r := SaveResult(true, None);
  }

  /** The first response not ok is the one the loop stops at. */
  lemma FirstNotOkIs(rs: seq<FetchResult>, i: nat)
    requires i < |rs| && rs[i].Response? && !rs[i].ok
    requires forall k :: 0 <= k < i ==> !(rs[k].Response? && !rs[k].ok)
    ensures FirstNotOk(rs) == Some(i)
  {
  }
}
