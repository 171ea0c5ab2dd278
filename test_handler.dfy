/** The test chatbot handler (backend/lambda/test-handler.py): shorter canned answers,
    with a narrower test for a question about an answer that is not understood. */
module TestHandler {
  import opened Wrappers
  import opened Text
  import opened QuizModel
  import opened LambdaEvents
  import HttpHandler

  const EXPLAIN_BLACK_SWAN: string := "블랙스완 게임에서 정답이 이해가 안 가신다면, 예측하기 어려운 극단적 경제 이벤트의 특성을 생각해보세요. 이런 사건들은 일반적인 예측 모델로는 파악하기 어렵고, 발생 확률은 낮지만 영향은 매우 큽니다. 구체적으로 어떤 부분이 궁금하신지 알려주시면 더 자세히 설명해드릴게요."
  const EXPLAIN_PRISONERS_DILEMMA: string := "죄수의 딜레마에서 정답이 헷갈리신다면, 개인의 최적 선택과 집단의 최적 선택이 다를 수 있다는 점을 고려해보세요. 각자가 자신의 이익만 추구하면 모두에게 나쁜 결과가 나올 수 있습니다. 협력과 배신의 균형이 핵심입니다."
  const EXPLAIN_OTHER: string := "경제 문제의 정답을 이해하기 어려우시군요. 경제학에서는 여러 변수와 상황을 종합적으로 고려해야 합니다. 어떤 구체적인 부분이 궁금하신지 말씀해주시면 더 도움을 드릴 수 있습니다."

  const AFTER_BLACK_SWAN: string := "에 대한 질문을 주셨네요. 블랙스완 이벤트는 예측하기 어려운 극단적 상황을 의미합니다. 경제에서는 이런 예상치 못한 사건들이 큰 영향을 미칠 수 있어 리스크 관리가 중요합니다."
  const AFTER_PRISONERS_DILEMMA: string := "에 대해 답변드리겠습니다. 죄수의 딜레마는 개인의 이익과 집단의 이익이 충돌하는 상황을 다룹니다. 경제에서는 이런 상황이 자주 발생하며, 협력과 경쟁의 균형이 중요합니다."
  const AFTER_SIGNAL_DECODING: string := "에 대한 질문이군요. 경제 신호 해석은 다양한 지표와 데이터를 종합적으로 분석하는 것이 핵심입니다. 시장의 신호를 정확히 읽어내는 것이 중요한 경제적 판단의 기초가 됩니다."
  const AFTER_OTHER: string := "에 대한 질문을 주셨네요. 경제적 관점에서 분석해보면, 다양한 요인들을 종합적으로 고려해야 합니다. 더 구체적인 질문이 있으시면 자세히 답변해드리겠습니다."

  /** The question says the answer is unclear: it contains both "정답" and "이해"; such a
      question also asks the other handler for its explanation. */
  predicate AsksForExplanation(question: string)
    ensures AsksForExplanation(question) ==> HttpHandler.AsksForExplanation(question)
  {
    Contains(question, "정답") && Contains(question, "이해")
  }

  /** The explanation: its own for BlackSwan and PrisonersDilemma, the general one for
      every other game type, SignalDecoding included. */
  function Explanation(gameType: string): (r: string)
    ensures ParseGameType(gameType) == Some(BlackSwan) ==> r == EXPLAIN_BLACK_SWAN
    ensures ParseGameType(gameType) == Some(PrisonersDilemma) ==> r == EXPLAIN_PRISONERS_DILEMMA
    ensures ParseGameType(gameType) !in {Some(BlackSwan), Some(PrisonersDilemma)} ==> r == EXPLAIN_OTHER
  {
    if gameType == "BlackSwan" then EXPLAIN_BLACK_SWAN
    else if gameType == "PrisonersDilemma" then EXPLAIN_PRISONERS_DILEMMA
    else EXPLAIN_OTHER
  }

  /** The text after the quoted question, per game, with a general one for any other
      game type. */
  function AfterQuestion(gameType: string): (r: string)
    ensures ParseGameType(gameType) == Some(BlackSwan) ==> r == AFTER_BLACK_SWAN
    ensures ParseGameType(gameType) == Some(PrisonersDilemma) ==> r == AFTER_PRISONERS_DILEMMA
    ensures ParseGameType(gameType) == Some(SignalDecoding) ==> r == AFTER_SIGNAL_DECODING
    ensures ParseGameType(gameType).None? ==> r == AFTER_OTHER
  {
    match ParseGameType(gameType)
    case Some(BlackSwan) => AFTER_BLACK_SWAN
    case Some(PrisonersDilemma) => AFTER_PRISONERS_DILEMMA
    case Some(SignalDecoding) => AFTER_SIGNAL_DECODING
    case None => AFTER_OTHER
  }

  /** `generate_simple_response(user_question, game_type)`: the explanation when the
      question asks for one, the quoted question followed by the game's text otherwise. */
  function GenerateSimpleResponse(question: string, gameType: string): (r: string)
    ensures AsksForExplanation(question) ==> r == Explanation(gameType)
    ensures !AsksForExplanation(question) ==> r == Quoted(question) + AfterQuestion(gameType)
  {
    if AsksForExplanation(question) then Explanation(gameType)
    else Quoted(question) + AfterQuestion(gameType)
  }

  /** A question without single quotes is read back from the answer as the text between
      the first two quotes; a question that says only that it finds the answer unclear
      ("정답" without "이해") is explained by the HTTP handler but quoted here. */
  lemma GenerateSimpleResponseReadBack(question: string, gameType: string)
    ensures !AsksForExplanation(question) && '\'' !in question ==>
      SplitOn(GenerateSimpleResponse(question, gameType), '\'')[1] == question
    ensures AsksForExplanation(question) ==> HttpHandler.AsksForExplanation(question)
    ensures Contains(question, "정답") && !Contains(question, "이해") ==>
      && HttpHandler.GenerateResponse(question, gameType) == HttpHandler.Explanation(gameType)
      && GenerateSimpleResponse(question, gameType) == Quoted(question) + AfterQuestion(gameType)
  {
    if !AsksForExplanation(question) && '\'' !in question {
      QuotedReadBack(question, AfterQuestion(gameType));
    }
  }

  const SERVER_ERROR_PREFIX: string := "서버 오류: "

  /** `lambda_handler(event, context)` at instant `now`: as the HTTP API handler, except
      that a preflight request is recognised by the event's own `httpMethod` and the
      answers are the shorter ones. */
  function Handler(event: Event, now: string): (r: Outcome)
    ensures r.Reply? && SuccessMatchesStatus(r)
    ensures event.httpMethod == Some("OPTIONS") ==> r == PREFLIGHT
    ensures event.httpMethod != Some("OPTIONS") ==>
      match event.body.GetOr(EMPTY_OBJECT)
      case Invalid(m) => r == Refusal(500, SERVER_ERROR_PREFIX + m)
      case Object(b) =>
        if b.Question() == "" then r == Refusal(400, QUESTION_REQUIRED)
        else r == Answer(GenerateSimpleResponse(b.Question(), b.GameType()), None, now)
  {
    if event.httpMethod == Some("OPTIONS") then PREFLIGHT
    else
      match event.body.GetOr(EMPTY_OBJECT)
      case Invalid(m) => Refusal(500, SERVER_ERROR_PREFIX + m)
      case Object(b) =>
        if b.Question() == "" then Refusal(400, QUESTION_REQUIRED)
        else Answer(GenerateSimpleResponse(b.Question(), b.GameType()), None, now)
  }

  /** Apart from the preflight test, the two handlers reply to every event with the same
      status and the same error, and differ at most in the answer text. */
  lemma HandlersAgreeOnStatus(event: Event, now: string)
    requires event.httpMethod != Some("OPTIONS") && event.requestContextMethod != Some("OPTIONS")
    ensures var h := HttpHandler.Handler(event, now);
      var t := Handler(event, now);
      h.Reply? && t.Reply? && h.statusCode == t.statusCode && h.body.error == t.body.error
  {
  }
}
