/** The quiz dataset gateway (lib/quiz-api-client.ts): the flat records of the quiz API
    pivoted into one date-to-questions map per game, behind a five-minute cache that falls
    back to stale data, or to an empty shell, whenever a request fails. */
module QuizApiClient {
  import opened Wrappers
  import opened QuizModel

  /** One API record: a game type name, a quiz date and that date's questions. */
  datatype ApiItem = ApiItem(gameType: string, quizDate: string, questions: seq<Question>)

  /** `QuizDataStructure` with its three game keys. */
  datatype QuizData = QuizData(
    blackSwan: map<string, seq<Question>>,
    prisonersDilemma: map<string, seq<Question>>,
    signalDecoding: map<string, seq<Question>>)
  {
    /** `data[gameType]`. */
    function Get(g: GameType): map<string, seq<Question>> {
      match g
      case BlackSwan => blackSwan
      case PrisonersDilemma => prisonersDilemma
      case SignalDecoding => signalDecoding
    }

    /** `data[gameType][date] = questions`. */
    function Put(g: GameType, date: string, questions: seq<Question>): (r: QuizData)
      ensures r.Get(g) == Get(g)[date := questions]
      ensures forall h :: h != g ==> r.Get(h) == Get(h)
    {
      match g
      case BlackSwan => this.(blackSwan := blackSwan[date := questions])
      case PrisonersDilemma => this.(prisonersDilemma := prisonersDilemma[date := questions])
      case SignalDecoding => this.(signalDecoding := signalDecoding[date := questions])
    }
  }

  /** The empty shell: all three games present, none with a date. */
  const EMPTY: QuizData := QuizData(map[], map[], map[])

  /** `transformAPIResponse` on values: records are applied in order, a record of an
      unknown game type is dropped, and a later record for the same game and date
      replaces the earlier one. */
  function Transform(items: seq<ApiItem>): (r: QuizData)
  {
    if |items| == 0 then EMPTY
    else
      var last := items[|items| - 1];
      var before := Transform(items[..|items| - 1]);
      match ParseGameType(last.gameType)
      case None => before
      case Some(g) => before.Put(g, last.quizDate, last.questions)
  }

  /** Record k is for game g and date d. */
  predicate Names(item: ApiItem, g: GameType, d: string) {
    ParseGameType(item.gameType) == Some(g) && item.quizDate == d
  }

  /** The index of the last record for game g and date d, if any: the reference the
      transformation is checked against. */
  function LastFor(items: seq<ApiItem>, g: GameType, d: string): (r: Option<nat>)
    ensures r.Some? ==> r.value < |items| && Names(items[r.value], g, d)
    ensures r.Some? ==> forall k :: r.value < k < |items| ==> !Names(items[k], g, d)
    ensures r.None? ==> forall k :: 0 <= k < |items| ==> !Names(items[k], g, d)
  {
    if |items| == 0 then None
    else if Names(items[|items| - 1], g, d) then Some(|items| - 1)
    else
      var r := LastFor(items[..|items| - 1], g, d);
      NoneNamedAfter(items, items[..|items| - 1], g, d, r);
      r
  }

  /** What holds of the records before the last also holds of all of them when the last
      record names another game or date. */
  lemma NoneNamedAfter(items: seq<ApiItem>, init: seq<ApiItem>, g: GameType, d: string, r: Option<nat>)
    requires |items| > 0 && init == items[..|items| - 1] && !Names(items[|items| - 1], g, d)
    requires r.Some? ==> r.value < |init| && Names(init[r.value], g, d)
    requires r.Some? ==> forall k :: r.value < k < |init| ==> !Names(init[k], g, d)
    requires r.None? ==> forall k :: 0 <= k < |init| ==> !Names(init[k], g, d)
    ensures r.Some? ==> Names(items[r.value], g, d)
    ensures r.Some? ==> forall k :: r.value < k < |items| ==> !Names(items[k], g, d)
    ensures r.None? ==> forall k :: 0 <= k < |items| ==> !Names(items[k], g, d)
  {
    assert forall k :: 0 <= k < |init| ==> init[k] == items[k];
  }

  /** A date is listed for a game exactly when some record names both, and its questions
      are those of the last such record. */
  lemma {:induction false} TransformLookup(items: seq<ApiItem>, g: GameType, d: string)
    ensures d in Transform(items).Get(g) <==> LastFor(items, g, d).Some?
    ensures d in Transform(items).Get(g) ==> Transform(items).Get(g)[d] == items[LastFor(items, g, d).value].questions
  {
    if |items| > 0 {
      var init := items[..|items| - 1];
      TransformLookup(init, g, d);
      var last := items[|items| - 1];
      if !Names(last, g, d) {
        assert LastFor(items, g, d) == LastFor(init, g, d);
        match ParseGameType(last.gameType)
        case None =>
        case Some(h) =>
          assert h != g || last.quizDate != d;
      }
    }
  }

  /** `transformAPIResponse`: fills the result record by record. */
  method TransformApiResponse(apiData: seq<ApiItem>) returns (result: QuizData)
    ensures result == Transform(apiData)
  {
    result := EMPTY;
    for i := 0 to |apiData|
      invariant result == Transform(apiData[..i])
    {
      var item := apiData[i];
      assert apiData[..i + 1][..i] == apiData[..i];
      var g := ParseGameType(item.gameType);
      if g.Some? {
        result := result.Put(g.value, item.quizDate, item.questions);
      }
    }
    assert apiData[..|apiData|] == apiData;
  }

  /** What `data.body` can be. A string body is given with the outcome of `JSON.parse` on
      it, `None` when parsing fails or the value is not a list of records. */
  datatype Body = NoBody | FalsyBody | TextBody(parsed: Option<seq<ApiItem>>) | ValueBody(value: Option<seq<ApiItem>>)

  /** The parsed response: its `body` field and the payload itself read as a list of
      records (`None` when it is not one). */
  datatype Payload = Payload(body: Body, asItems: Option<seq<ApiItem>>)

  /** The records the response carries, or `None` where the code would throw: a string
      body is parsed, any other truthy body is used as it is, and without one the payload
      itself is the list. */
  function UnwrapBody(p: Payload): (r: Option<seq<ApiItem>>)
    ensures p.body.TextBody? ==> r == p.body.parsed
    ensures p.body.ValueBody? ==> r == p.body.value
    ensures p.body.NoBody? || p.body.FalsyBody? ==> r == p.asItems
  {
    match p.body
    case TextBody(parsed) => parsed
    case ValueBody(v) => v
    case _ => p.asItems
  }

  /** What the one request of a `fetchQuizData` call yields. */
  datatype FetchOutcome = NetworkError | NotOk(status: int) | Ok(payload: Payload)

  /** Five minutes in milliseconds. */
  const CACHE_DURATION: int := 5 * 60 * 1000

  /** The freshness test: a cache, a truthy (non-zero) timestamp, and less than five
      minutes elapsed. Data cached at a non-zero instant t stays fresh for exactly the
      next five minutes; nothing else is ever fresh. */
  predicate IsFresh(cached: Option<QuizData>, timestamp: Option<int>, now: int)
    ensures IsFresh(cached, timestamp, now) ==> cached.Some? && timestamp.Some? && timestamp.value != 0
    ensures cached.Some? && timestamp.Some? && timestamp.value != 0 ==>
      (IsFresh(cached, timestamp, now) <==> now < timestamp.value + CACHE_DURATION)
  {
    cached.Some? && timestamp.Some? && timestamp.value != 0 && now - timestamp.value < CACHE_DURATION
  }

  /** The module-level cache, `cachedQuizData` and `cacheTimestamp`. */
  class QuizApiCache {
    var cached: Option<QuizData>
    var timestamp: Option<int>

    /** The two are set together and cleared together. */
    ghost predicate Valid()
      reads this
    {
      cached.Some? <==> timestamp.Some?
    }

    constructor ()
      ensures Valid() && cached == None && timestamp == None
    {
      cached := None;
      timestamp := None;
    }

    /** `fetchQuizData()` called at `now`, the request (when made) yielding `outcome` and
        finishing at `finishedAt`. A fresh cache is returned without a request. Otherwise
        a response whose records can be read replaces the cache wholesale, timestamped
        `finishedAt`; any failure returns the cache, stale or not, and otherwise the empty
        shell, leaving the cache as it was. It never fails. */
    method FetchQuizData(now: int, outcome: FetchOutcome, finishedAt: int) returns (r: QuizData, requested: bool)
      requires Valid()
      modifies this
      ensures Valid()
      ensures requested <==> !old(IsFresh(cached, timestamp, now))
      ensures !requested ==> r == old(cached).value && cached == old(cached) && timestamp == old(timestamp)
      ensures requested && outcome.Ok? && UnwrapBody(outcome.payload).Some? ==>
        && r == Transform(UnwrapBody(outcome.payload).value)
        && cached == Some(r) && timestamp == Some(finishedAt)
      ensures requested && !(outcome.Ok? && UnwrapBody(outcome.payload).Some?) ==>
        && r == old(cached).GetOr(EMPTY)
        && cached == old(cached) && timestamp == old(timestamp)
    {
      if cached.Some? && timestamp.Some? && timestamp.value != 0 && now - timestamp.value < CACHE_DURATION {
        return cached.value, false;
      }
      requested := true;
      var rawData: Option<seq<ApiItem>> := None;
      if outcome.Ok? {
        rawData := UnwrapBody(outcome.payload);
      }
      if rawData.Some? {
        r := TransformApiResponse(rawData.value);
        cached := Some(r);
        timestamp := Some(finishedAt);
      } else if cached.Some? {
        r := cached.value;
      } else {
        r := EMPTY;
      }
    }

    /** `clearQuizDataCache()`: both cleared, so the next call makes a request whatever
        the time. */
    method ClearQuizDataCache()
      modifies this
      ensures Valid() && cached == None && timestamp == None
      ensures forall now :: !IsFresh(cached, timestamp, now)
    {
      cached := None;
      timestamp := None;
    }
  }
}
