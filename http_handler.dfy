/** The HTTP API chatbot handler (backend/lambda/http-handler.py): canned answers, an
    explanation when the question says the answer is unclear and a per-game reply that
    quotes the question otherwise. */
module HttpHandler {
  import opened Wrappers
  import opened Text
  import opened QuizModel
  import opened LambdaEvents

  // The explanations, for a question about an answer that is not understood.
  const EXPLAIN_BLACK_SWAN: string := "블랙스완 게임에서 정답이 이해가 안 가신다면, 다음을 고려해보세요:\n\n1. **예측 불가능성**: 블랙스완 이벤트는 일반적인 예측 모델로는 파악하기 어려운 극단적 사건입니다.\n\n2. **낮은 확률, 높은 영향**: 발생 확률은 매우 낮지만, 한 번 발생하면 경제 전체에 큰 충격을 줍니다.\n\n3. **사후 설명 가능성**: 일어난 후에는 그럴듯한 설명이 가능하지만, 사전에는 예측하기 어렵습니다.\n\n구체적으로 어떤 문제나 개념이 궁금하신지 알려주시면 더 자세히 설명해드릴게요."
  const EXPLAIN_PRISONERS_DILEMMA: string := "죄수의 딜레마에서 정답이 헷갈리신다면, 핵심 원리를 이해해보세요:\n\n1. **개인 vs 집단 이익**: 각자가 자신의 이익만 추구하면 모두에게 나쁜 결과가 나올 수 있습니다.\n\n2. **협력의 딜레마**: 협력이 최선이지만, 상대방이 배신할 가능성 때문에 협력하기 어렵습니다.\n\n3. **경제적 적용**: 가격 경쟁, 환경 보호, 공공재 문제 등에서 자주 나타납니다.\n\n어떤 상황이나 문제가 특히 어려우신지 말씀해주세요."
  const EXPLAIN_SIGNAL_DECODING: string := "경제 신호 해석이 어려우시다면, 다음 접근법을 시도해보세요:\n\n1. **다중 지표 분석**: 하나의 지표만 보지 말고 여러 경제 지표를 종합적으로 판단하세요.\n\n2. **맥락 이해**: 같은 지표라도 경제 상황에 따라 다른 의미를 가질 수 있습니다.\n\n3. **시간적 관점**: 단기적 변동과 장기적 추세를 구분해서 해석하세요.\n\n구체적으로 어떤 경제 지표나 신호가 궁금하신가요?"
  const EXPLAIN_OTHER: string := "경제 문제의 정답을 이해하기 어려우시군요. 경제학에서는 다음과 같은 접근이 도움됩니다:\n\n1. **기본 원리 파악**: 수요와 공급, 기회비용 등 기본 개념부터 차근차근 이해하세요.\n\n2. **실제 사례 연결**: 이론을 현실의 경제 상황과 연결해서 생각해보세요.\n\n3. **단계별 분석**: 복잡한 문제는 작은 단위로 나누어 분석하세요.\n\n어떤 구체적인 부분이 가장 궁금하신지 알려주시면 더 도움을 드릴 수 있습니다."

  // What follows the quoted question in the other answers.
  const AFTER_BLACK_SWAN: string := "에 대한 블랙스완 관점에서 답변드리겠습니다. 예측하기 어려운 극단적 경제 상황에서는 리스크 관리와 불확실성 대응이 핵심입니다. 더 구체적인 질문이 있으시면 언제든 말씀해주세요."
  const AFTER_PRISONERS_DILEMMA: string := "에 대한 게임이론적 분석을 제공하겠습니다. 경제적 딜레마에서는 개별 최적화와 집단 최적화 간의 균형이 중요합니다. 어떤 부분이 더 궁금하신가요?"
  const AFTER_SIGNAL_DECODING: string := "에 대한 경제 신호 분석을 해드리겠습니다. 다양한 경제 지표를 종합적으로 해석하는 것이 필요합니다. 구체적으로 어떤 신호나 지표가 궁금하신지 알려주세요."
  const AFTER_OTHER: string := "에 대한 질문을 주셨네요. 경제적 관점에서 분석해보면, 다양한 요인들을 종합적으로 고려해야 합니다. 더 구체적인 질문이 있으시면 자세히 답변해드리겠습니다."

  /** The words that mark a question saying the answer is unclear. */
  const EXPLAIN_MARKERS: seq<string> := ["정답", "이해", "헷갈", "모르겠"]

  /** The question says the answer is unclear: `any(word in user_question for word in
      [...])` over the four markers. */
  predicate AsksForExplanation(question: string)
    ensures AsksForExplanation(question) <==> exists m :: m in EXPLAIN_MARKERS && Contains(question, m)
  {
    assert forall m :: m in EXPLAIN_MARKERS <==> m == "정답" || m == "이해" || m == "헷갈" || m == "모르겠";
    assert (exists m :: m in EXPLAIN_MARKERS && Contains(question, m))
      <== Contains(question, "정답") || Contains(question, "이해")
      || Contains(question, "헷갈") || Contains(question, "모르겠") by {
      if Contains(question, "정답") { assert EXPLAIN_MARKERS[0] in EXPLAIN_MARKERS; }
      else if Contains(question, "이해") { assert EXPLAIN_MARKERS[1] in EXPLAIN_MARKERS; }
      else if Contains(question, "헷갈") { assert EXPLAIN_MARKERS[2] in EXPLAIN_MARKERS; }
      else if Contains(question, "모르겠") { assert EXPLAIN_MARKERS[3] in EXPLAIN_MARKERS; }
    }
    Contains(question, "정답") || Contains(question, "이해")
      || Contains(question, "헷갈") || Contains(question, "모르겠")
  }

  /** The explanation for each game, and the general one for any other game type. */
  function Explanation(gameType: string): (r: string)
    ensures ParseGameType(gameType) == Some(BlackSwan) ==> r == EXPLAIN_BLACK_SWAN
    ensures ParseGameType(gameType) == Some(PrisonersDilemma) ==> r == EXPLAIN_PRISONERS_DILEMMA
    ensures ParseGameType(gameType) == Some(SignalDecoding) ==> r == EXPLAIN_SIGNAL_DECODING
    ensures ParseGameType(gameType).None? ==> r == EXPLAIN_OTHER
  {
    match ParseGameType(gameType)
    case Some(BlackSwan) => EXPLAIN_BLACK_SWAN
    case Some(PrisonersDilemma) => EXPLAIN_PRISONERS_DILEMMA
    case Some(SignalDecoding) => EXPLAIN_SIGNAL_DECODING
    case None => EXPLAIN_OTHER
  }

  /** The text after the quoted question, per game, with a general one for any other
      game type. */
  function AfterQuestion(gameType: string): (r: string)
    ensures ParseGameType(gameType) == Some(BlackSwan) ==> r == AFTER_BLACK_SWAN
    ensures ParseGameType(gameType) == Some(PrisonersDilemma) ==> r == AFTER_PRISONERS_DILEMMA
    ensures ParseGameType(gameType) == Some(SignalDecoding) ==> r == AFTER_SIGNAL_DECODING
    ensures ParseGameType(gameType).None? ==> r == AFTER_OTHER
  {
    match ParseGameType(gameType)
    case Some(BlackSwan) => AFTER_BLACK_SWAN
    case Some(PrisonersDilemma) => AFTER_PRISONERS_DILEMMA
    case Some(SignalDecoding) => AFTER_SIGNAL_DECODING
    case None => AFTER_OTHER
  }

  /** `generate_response(user_question, game_type)`: the explanation for the game when
      the question asks for one, which does not depend on the question's wording; the
      question in single quotes followed by the game's text otherwise. */
  function GenerateResponse(question: string, gameType: string): (r: string)
    ensures AsksForExplanation(question) ==> r == Explanation(gameType)
    ensures !AsksForExplanation(question) ==> r == Quoted(question) + AfterQuestion(gameType)
  {
    if AsksForExplanation(question) then Explanation(gameType)
    else Quoted(question) + AfterQuestion(gameType)
  }

  /** A question without single quotes is read back from the answer as the text between
      the first two quotes; a question asking for an explanation gets the same answer
      whatever its other words. */
  lemma GenerateResponseReadBack(question: string, other: string, gameType: string)
    ensures !AsksForExplanation(question) && '\'' !in question ==>
      SplitOn(GenerateResponse(question, gameType), '\'')[1] == question
    ensures AsksForExplanation(question) && AsksForExplanation(other) ==>
      GenerateResponse(question, gameType) == GenerateResponse(other, gameType)
  {
    if !AsksForExplanation(question) && '\'' !in question {
      QuotedReadBack(question, AfterQuestion(gameType));
    }
  }

  const SERVER_ERROR_PREFIX: string := "서버 오류: "

  /** `lambda_handler(event, context)` at instant `now`:
      - a preflight request (method OPTIONS in the request context) gets 200 with an
        empty body;
      - a missing body is read as the empty object, so it is a request without a
        question;
      - a body that cannot be read gets 500 with the reason after "서버 오류: ";
      - an empty question gets 400 with "질문이 필요합니다.";
      - otherwise 200 with the generated answer.
      Nothing escapes the handler. */
  function Handler(event: Event, now: string): (r: Outcome)
    ensures r.Reply? && SuccessMatchesStatus(r)
    ensures event.requestContextMethod == Some("OPTIONS") ==> r == PREFLIGHT
    ensures event.requestContextMethod != Some("OPTIONS") ==>
      match event.body.GetOr(EMPTY_OBJECT)
      case Invalid(m) => r == Refusal(500, SERVER_ERROR_PREFIX + m)
      case Object(b) =>
        if b.Question() == "" then r == Refusal(400, QUESTION_REQUIRED)
        else r == Answer(GenerateResponse(b.Question(), b.GameType()), None, now)
  {
    if event.requestContextMethod == Some("OPTIONS") then PREFLIGHT
    else
      match event.body.GetOr(EMPTY_OBJECT)
      case Invalid(m) => Refusal(500, SERVER_ERROR_PREFIX + m)
      case Object(b) =>
        if b.Question() == "" then Refusal(400, QUESTION_REQUIRED)
        else Answer(GenerateResponse(b.Question(), b.GameType()), None, now)
  }
}
