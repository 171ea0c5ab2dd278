/** What the four chatbot Lambda handlers (the Python files under backend/lambda) receive
    and return: the API Gateway event, the request body once read as JSON, and the
    reply. */
module LambdaEvents {
  import opened Wrappers

  /** The request object as the handlers read it with `body.get(key, '')`: each field is
      absent or a string. */
  datatype RequestBody = RequestBody(
    question: Option<string>,
    gameType: Option<string>,
    questionText: Option<string>,
    quizArticleUrl: Option<string>)
  {
    function Question(): string { question.GetOr("") }
    function GameType(): string { gameType.GetOr("") }
    function QuestionText(): string { questionText.GetOr("") }
    function QuizArticleUrl(): string { quizArticleUrl.GetOr("") }
  }

  /** `json.loads` of the body text followed by the first `.get`: the request object, or
      the message of the exception raised on the way (text that is not JSON, a null body,
      or JSON that is not an object). */
  datatype ParsedBody = Object(fields: RequestBody) | Invalid(message: string)

  /** `json.loads('{}')`: the object with no fields. */
  const EMPTY_OBJECT: ParsedBody := Object(RequestBody(None, None, None, None))

  /** The event: `httpMethod` as a REST API proxy event carries it, the method an HTTP API
      v2 event carries under `requestContext.http`, and the `body` key, absent or present
      with its text already read. */
  datatype Event = Event(
    httpMethod: Option<string>,
    requestContextMethod: Option<string>,
    body: Option<ParsedBody>)

  /** The JSON reply body, or the empty body of the preflight answer. */
  datatype ReplyBody =
    | EmptyBody
    | Json(response: Option<string>, knowledgeSources: Option<int>, timestamp: Option<string>,
           error: Option<string>, success: bool)

  /** What the invocation ends with: a reply with its status code and body, or an exception
      that escapes the handler (every reply carries the same CORS headers). */
  datatype Outcome = Reply(statusCode: int, body: ReplyBody) | Raised

  const QUESTION_REQUIRED: string := "질문이 필요합니다."

  /** The answer to a CORS preflight request. */
  const PREFLIGHT: Outcome := Reply(200, EmptyBody)

  /** A failed request: the status code and the error message, `success` false. */
  function Refusal(statusCode: int, error: string): (r: Outcome)
    ensures r.Reply? && r.statusCode == statusCode && r.body.Json?
    ensures !r.body.success && r.body.error == Some(error) && r.body.response == None
  {
    Reply(statusCode, Json(None, None, None, Some(error), false))
  }

  /** A successful answer: the response text, the knowledge-source count when the handler
      reports one, the time stamp, `success` true. */
  function Answer(response: string, knowledgeSources: Option<int>, timestamp: string): (r: Outcome)
    ensures r.Reply? && r.statusCode == 200 && r.body.Json?
    ensures r.body.success && r.body.error == None && r.body.response == Some(response)
    ensures r.body.knowledgeSources == knowledgeSources && r.body.timestamp == Some(timestamp)
  {
    Reply(200, Json(Some(response), knowledgeSources, Some(timestamp), None, true))
  }

  /** A JSON reply reports success exactly when its status is 200. */
  predicate SuccessMatchesStatus(r: Outcome) {
    r.Reply? && r.body.Json? ==> (r.body.success <==> r.statusCode == 200)
  }
}
