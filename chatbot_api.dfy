/** The chatbot client (lib/chatbot-api.ts): the question is posted to the chat endpoint;
    a successful reply is passed on as it is, and any failure is answered locally with a
    fallback message. The request itself is abstracted: what it came back with is an
    input. */
module ChatbotApi {
  import opened Wrappers
  import opened Text
  import opened QuizModel

  datatype ChatbotRequest = ChatbotRequest(
    question: string,
    gameType: GameType,
    questionText: string,
    quizArticleUrl: Option<string>)

  datatype ChatbotResponse = ChatbotResponse(
    response: string,
    timestamp: string,
    success: bool,
    knowledgeSources: Option<int>,
    error: Option<string>)

  /** What was thrown: an `Error` with its message, or some other value. */
  datatype Thrown = ErrorThrown(message: string) | OtherThrown

  /** The body of a reply read as JSON: the response record, or the parse failure's
      message. */
  datatype JsonBody = Parsed(data: ChatbotResponse) | Malformed(message: string)

  /** How the POST ended: `fetch` itself rejected, or a reply arrived with its `ok` flag,
      its status and its body. */
  datatype FetchOutcome =
    | FetchFailed(thrown: Thrown)
    | Replied(ok: bool, status: int, body: JsonBody)

  const UNKNOWN_ERROR: string := "알 수 없는 오류"
  const ASKED: string := "에 대한 질문을 받았습니다. "
  const APOLOGY: string := " 분석을 제공하려 했으나 현재 서버 연결에 문제가 있습니다. 서버에서는 BigKinds API 실패 시 순수 Claude 응답을 제공하도록 개선되었습니다. 잠시 후 다시 시도해 주세요."

  /** The value the `try` block throws, if any: the rejection itself, the HTTP error a
      non-ok status raises, or the parse failure of the body. */
  function Failure(outcome: FetchOutcome): (r: Option<Thrown>)
    ensures r.None? <==> outcome.Replied? && outcome.ok && outcome.body.Parsed?
  {
    match outcome
    case FetchFailed(t) => Some(t)
    case Replied(ok, status, body) =>
      if !ok then Some(ErrorThrown("HTTP error! status: " + IntToString(status)))
      else
        match body
        case Parsed(_) => None
        case Malformed(m) => Some(ErrorThrown(m))
  }

  /** The phrase naming the point of view of each game; the table's default is never
      reached for the three known games. */
  function GameContext(g: GameType): (r: string)
    ensures g == BlackSwan ==> r == "블랙스완 이벤트 관점에서"
    ensures g == PrisonersDilemma ==> r == "게임이론적 관점에서"
    ensures g == SignalDecoding ==> r == "경제 신호 분석 관점에서"
  {
    match g
    case BlackSwan => "블랙스완 이벤트 관점에서"
    case PrisonersDilemma => "게임이론적 관점에서"
    case SignalDecoding => "경제 신호 분석 관점에서"
  }

  /** The fallback text: the question in double quotes, then the point of view and the
      apology. */
  function FallbackText(question: string, g: GameType): (r: string)
    ensures |r| > |question| + 2 && r[0] == '"' && r[1..|question| + 1] == question
    ensures r[|question| + 1] == '"'
  {
    var quoted := "\"" + question + "\"";
    assert quoted[1..|question| + 1] == question;
    var r := quoted + ASKED + GameContext(g) + APOLOGY;
    assert r[..|quoted|] == quoted;
    r
  }

  /** The response built in the `catch` block at instant `nowIso`. */
  function Fallback(request: ChatbotRequest, thrown: Thrown, nowIso: string): (r: ChatbotResponse)
    ensures !r.success && r.knowledgeSources == Some(0) && r.timestamp == nowIso
    ensures r.response == FallbackText(request.question, request.gameType)
    ensures thrown.ErrorThrown? ==> r.error == Some(thrown.message)
    ensures thrown.OtherThrown? ==> r.error == Some(UNKNOWN_ERROR)
  {
    ChatbotResponse(
      FallbackText(request.question, request.gameType),
      nowIso,
      false,
      Some(0),
      Some(match thrown case ErrorThrown(m) => m case OtherThrown => UNKNOWN_ERROR))
  }

  /** `sendChatbotMessage(request)`, the POST having ended with `outcome`: the parsed body
      of an ok reply unchanged, the fallback otherwise. */
  function SendChatbotMessage(request: ChatbotRequest, outcome: FetchOutcome, nowIso: string): (r: ChatbotResponse)
    ensures outcome.Replied? && outcome.ok && outcome.body.Parsed? ==> r == outcome.body.data
    ensures outcome.FetchFailed? ==> r == Fallback(request, outcome.thrown, nowIso)
    ensures outcome.Replied? && !outcome.ok ==>
      r == Fallback(request, ErrorThrown("HTTP error! status: " + IntToString(outcome.status)), nowIso)
    ensures outcome.Replied? && outcome.ok && outcome.body.Malformed? ==>
      r == Fallback(request, ErrorThrown(outcome.body.message), nowIso)
  {
    match Failure(outcome)
    case None => outcome.body.data
    case Some(t) => Fallback(request, t, nowIso)
  }

  /** A reply with a failing status is answered exactly as a request that could not be
      sent with the same error would be, whatever its body; its error message carries the
      status, which can be read back from it. */
  lemma NonOkIsNetworkError(request: ChatbotRequest, status: int, body: JsonBody, nowIso: string)
    ensures SendChatbotMessage(request, Replied(false, status, body), nowIso)
      == SendChatbotMessage(request, FetchFailed(ErrorThrown("HTTP error! status: " + IntToString(status))), nowIso)
    ensures var e := SendChatbotMessage(request, Replied(false, status, body), nowIso).error.value;
      |e| > 20 && ParseInt(e[20..]) == Some(status)
  {
    var e := "HTTP error! status: " + IntToString(status);
    assert e[20..] == IntToString(status);
    ParseIntOfIntToString(status);
  }
}
