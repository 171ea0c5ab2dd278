/** The retrieval-augmented chatbot handler (backend/lambda/enhanced-chatbot-handler.py):
    the question is turned into news-search keywords, a knowledge base of up to three
    sources is gathered (the news search, the quiz's article, the quiz question), and the
    model's answer, or a canned fallback, is returned. The news search and the model call
    are inputs. */
module EnhancedChatbot {
  import opened Wrappers
  import opened Text
  import opened QuizModel
  import opened LambdaEvents

  // ---------------------------------------------------------------------------
  // Search keywords.

  /** The words of the question longer than two characters, once "?" and "!" are
      removed. */
  function MeaningfulWords(question: string): (r: seq<string>)
    ensures forall i :: 0 <= i < |r| ==> |r[i]| > 2 && IsWord(r[i])
  {
    var words := SplitWords(RemoveChar(RemoveChar(question, '?'), '!'));
    var r := Filter(words, (w: string) => |w| > 2);
    assert forall i :: 0 <= i < |r| ==> r[i] in words;
    r
  }

  /** The four search terms of each game; none for an unknown game. */
  function GameKeywords(gameType: string): (r: seq<string>)
    ensures ParseGameType(gameType).None? <==> r == []
  {
    match ParseGameType(gameType)
    case Some(BlackSwan) => ["위기", "리스크", "예측", "충격"]
    case Some(PrisonersDilemma) => ["경쟁", "협력", "전략", "딜레마"]
    case Some(SignalDecoding) => ["지표", "신호", "분석", "데이터"]
    case None => []
  }

  const ECONOMY_TERMS: seq<string> := ["경제", "금융"]

  /** The words, then the game terms, then the two economy terms, cut to five. */
  function Keywords(words: seq<string>, game: seq<string>): (r: seq<string>)
    requires |words| <= 3 && |game| <= 2
    ensures |r| == if |words| + |game| + 2 <= 5 then |words| + |game| + 2 else 5
    ensures r[..|words|] == words
    ensures forall i :: 0 <= i < |game| ==> r[|words| + i] == game[i]
    ensures forall i :: |words| + |game| <= i < |r| ==> r[i] == ECONOMY_TERMS[i - |words| - |game|]
  {
    var all := words + game + ECONOMY_TERMS;
    assert all[..|words|] == words;
    assert forall i :: 0 <= i < |game| ==> all[|words| + i] == game[i];
    assert forall i :: |words| + |game| <= i < |all| ==> all[i] == ECONOMY_TERMS[i - |words| - |game|];
    Take(all, 5)
  }

  /** The keyword list: up to three meaningful words of the question, then the game's
      first two terms, then the two economy terms, cut to five. */
  function SearchTokens(question: string, gameType: string): (r: seq<string>)
    ensures 2 <= |r| <= 5 && |Take(MeaningfulWords(question), 3)| <= |r|
    ensures r[..|Take(MeaningfulWords(question), 3)|] == Take(MeaningfulWords(question), 3)
    ensures forall i :: 0 <= i < |r| ==> IsWord(r[i])
  {
    var words := Take(MeaningfulWords(question), 3);
    var game := Take(GameKeywords(gameType), 2);
    GameTerms(gameType);
    assert forall i :: 0 <= i < |words| ==> IsWord(words[i]) by {
      assert forall i :: 0 <= i < |words| ==> words[i] == MeaningfulWords(question)[i];
    }
    KeywordsAreWords(words, game);
    Keywords(words, game)
  }

  lemma KeywordsAreWords(words: seq<string>, game: seq<string>)
    requires |words| <= 3 && |game| <= 2
    requires forall i :: 0 <= i < |words| ==> IsWord(words[i])
    requires forall i :: 0 <= i < |game| ==> IsWord(game[i])
    requires forall i :: 0 <= i < |ECONOMY_TERMS| ==> IsWord(ECONOMY_TERMS[i])
    ensures forall i :: 0 <= i < |Keywords(words, game)| ==> IsWord(Keywords(words, game)[i])
  {
    var r := Keywords(words, game);
    forall i | 0 <= i < |r|
      ensures IsWord(r[i])
    {
      if i < |words| {
        assert r[i] == r[..|words|][i];
      } else if i < |words| + |game| {
        assert r[i] == game[i - |words|];
      }
    }
  }

  /** The game's first two terms (none for an unknown game) are words, and no game term is
      an economy term; nor are the economy terms blank. */
  lemma GameTerms(gameType: string)
    ensures |Take(GameKeywords(gameType), 2)| == if ParseGameType(gameType).Some? then 2 else 0
    ensures forall i :: 0 <= i < |Take(GameKeywords(gameType), 2)| ==>
      IsWord(Take(GameKeywords(gameType), 2)[i]) && Take(GameKeywords(gameType), 2)[i] !in ECONOMY_TERMS
    ensures forall i :: 0 <= i < |ECONOMY_TERMS| ==> IsWord(ECONOMY_TERMS[i])
  {
    var game := Take(GameKeywords(gameType), 2);
    match ParseGameType(gameType)
    case Some(BlackSwan) => assert game == ["위기", "리스크"];
    case Some(PrisonersDilemma) => assert game == ["경쟁", "협력"];
    case Some(SignalDecoding) => assert game == ["지표", "신호"];
    case None => assert game == [];
  }

  /** `extract_search_keywords(user_question, game_type)`: the keywords joined by single
      spaces, so that splitting the string at its spaces gives the keywords back: between
      two and five of them, starting with the question's words. */
  function ExtractSearchKeywords(question: string, gameType: string): (r: string)
    ensures SplitOn(r, ' ') == SearchTokens(question, gameType)
    ensures 2 <= |SplitOn(r, ' ')| <= 5
  {
    var tokens := SearchTokens(question, gameType);
    assert forall i :: 0 <= i < |tokens| ==> ' ' !in tokens[i] by {
      forall i | 0 <= i < |tokens|
        ensures ' ' !in tokens[i]
      {
        assert IsWord(tokens[i]);
        assert IsSpace(' ');
      }
    }
    SplitOnJoin(tokens, ' ');
    Join(tokens, " ")
  }

  /** The cut to five drops the economy terms once the question's words and the game's
      terms fill the places before them: "경제" only when three meaningful words and a
      known game precede it, "금융" already when two do. */
  lemma EconomyTermsDropped(question: string, gameType: string)
    ensures "경제" !in SearchTokens(question, gameType) <==>
      |MeaningfulWords(question)| >= 3 && ParseGameType(gameType).Some?
    ensures "금융" !in SearchTokens(question, gameType) <==>
      |MeaningfulWords(question)| >= 2 && ParseGameType(gameType).Some?
  {
    var words := Take(MeaningfulWords(question), 3);
    var game := Take(GameKeywords(gameType), 2);
    GameTerms(gameType);
    WordsAreNotEconomyTerms(question);
    KeywordsPlaceEconomyTerms(words, game);
    assert SearchTokens(question, gameType) == Keywords(words, game);
  }

  lemma WordsAreNotEconomyTerms(question: string)
    ensures forall i :: 0 <= i < |Take(MeaningfulWords(question), 3)| ==>
      Take(MeaningfulWords(question), 3)[i] !in ECONOMY_TERMS
  {
    var words := Take(MeaningfulWords(question), 3);
    assert forall i :: 0 <= i < |words| ==> words[i] == MeaningfulWords(question)[i];
  }

  /** In the cut list an economy term survives exactly when its place is below five. */
  lemma KeywordsPlaceEconomyTerms(words: seq<string>, game: seq<string>)
    requires |words| <= 3 && |game| <= 2
    requires forall i :: 0 <= i < |words| ==> words[i] !in ECONOMY_TERMS
    requires forall i :: 0 <= i < |game| ==> game[i] !in ECONOMY_TERMS
    ensures "경제" in Keywords(words, game) <==> |words| + |game| < 5
    ensures "금융" in Keywords(words, game) <==> |words| + |game| + 1 < 5
  {
    var r := Keywords(words, game);
    var k := |words| + |game|;
    forall i | 0 <= i < k && i < |r|
      ensures r[i] !in ECONOMY_TERMS
    {
      if i < |words| {
        assert r[i] == r[..|words|][i];
      }
    }
    assert forall i :: k <= i < |r| ==> r[i] == ECONOMY_TERMS[i - k];
    if k < |r| {
      assert r[k] == "경제";
    }
    if k + 1 < |r| {
      assert r[k + 1] == "금융";
    }
  }

  // ---------------------------------------------------------------------------
  // Knowledge base.

  /** What the news search yields: the combined article text and the number of
      articles. */
  datatype NewsDigest = NewsDigest(content: string, count: int)

  /** One knowledge source: its type, title, text and, for the news search, the number of
      articles; the article's address and the game type ride along. */
  datatype Source = Source(
    kind: Option<string>,
    title: Option<string>,
    content: Option<string>,
    articlesCount: Option<int>,
    url: Option<string>,
    gameType: Option<string>)

  datatype KnowledgeBase = KnowledgeBase(sources: seq<Source>, summary: string)

  const NEWS_SEARCH: string := "news_search"
  const QUIZ_ARTICLE: string := "quiz_article"
  const QUIZ_CONTEXT: string := "quiz_context"
  const SUMMARY_SUFFIX: string := "개 외부 지식 소스 활용"

  function NewsSource(news: NewsDigest): Source {
    Source(Some(NEWS_SEARCH), Some("BigKinds 뉴스 검색 결과"), Some(news.content), Some(news.count), None, None)
  }

  /** What `fetch_quiz_article_knowledge` returns for an address: a note naming it, the
      article text itself not being fetched. */
  function ArticleNote(url: string): string {
    "퀴즈 관련 기사: " + url + "\n(기사 내용 추출 기능 구현 예정)"
  }

  function ArticleSource(url: string): Source {
    Source(Some(QUIZ_ARTICLE), Some("퀴즈 관련 기사"), Some(ArticleNote(url)), None, Some(url), None)
  }

  function ContextSource(questionText: string, gameType: string): Source {
    Source(Some(QUIZ_CONTEXT), Some("퀴즈 문제 컨텍스트"), Some(questionText), None, None, Some(gameType))
  }

  /** `build_rag_knowledge_base(...)`, the news search having yielded `news`: the news
      source when there is one, the article source when an address was given, the
      question source when the question text is not empty, in that order, and a summary
      that states their number. */
  function BuildRagKnowledgeBase(news: Option<NewsDigest>, questionText: string, quizArticleUrl: string,
                                 gameType: string): (kb: KnowledgeBase)
    ensures |kb.sources| == (if news.Some? then 1 else 0) + (if quizArticleUrl != "" then 1 else 0)
      + (if questionText != "" then 1 else 0)
    ensures news.Some? ==> kb.sources[0] == NewsSource(news.value)
    ensures quizArticleUrl != "" ==> kb.sources[if news.Some? then 1 else 0] == ArticleSource(quizArticleUrl)
    ensures questionText != "" ==> kb.sources[|kb.sources| - 1] == ContextSource(questionText, gameType)
    ensures kb.summary == IntToString(|kb.sources|) + SUMMARY_SUFFIX
  {
    var newsPart := if news.Some? then [NewsSource(news.value)] else [];
    var articlePart := if quizArticleUrl != "" then [ArticleSource(quizArticleUrl)] else [];
    var contextPart := if questionText != "" then [ContextSource(questionText, gameType)] else [];
    var sources := newsPart + articlePart + contextPart;
    KnowledgeBase(sources, IntToString(|sources|) + SUMMARY_SUFFIX)
  }

  /** The summary reads back as the number of sources, which is at most three. */
  lemma SummaryCountsSources(news: Option<NewsDigest>, questionText: string, quizArticleUrl: string, gameType: string)
    ensures var kb := BuildRagKnowledgeBase(news, questionText, quizArticleUrl, gameType);
      ParseInt(kb.summary) == Some(|kb.sources|) && |kb.sources| <= 3
  {
    var kb := BuildRagKnowledgeBase(news, questionText, quizArticleUrl, gameType);
    assert !IsDigit(SUMMARY_SUFFIX[0]);
    ParseIntOfNatToStringThen(|kb.sources|, SUMMARY_SUFFIX);
  }

  // ---------------------------------------------------------------------------
  // The context handed to the model.

  const NO_KNOWLEDGE: string := "외부 지식 정보가 없습니다."

  /** The sign that opens each type's part of the context. */
  function Marker(kind: string): char {
    if kind == NEWS_SEARCH then '📰'
    else if kind == QUIZ_ARTICLE then '📄'
    else if kind == QUIZ_CONTEXT then '🎯'
    else '📋'
  }

  /** The part of the context for the i-th source (counted from 1): a heading chosen by
      the type (with the article count for the news, the title, or "소스 i", for an
      unknown type), a line break, then the text. */
  function SourcePart(source: Source, i: nat): (r: string)
    ensures |r| > |source.content.GetOr("")|
    ensures r[0] == Marker(source.kind.GetOr("unknown"))
    ensures r[|r| - |source.content.GetOr("")|..] == source.content.GetOr("")
  {
    var kind := source.kind.GetOr("unknown");
    var title := source.title.GetOr("소스 " + IntToString(i));
    var content := source.content.GetOr("");
    var heading :=
      if kind == NEWS_SEARCH then "📰 최신 뉴스 (" + IntToString(source.articlesCount.GetOr(0)) + "건):\n"
      else if kind == QUIZ_ARTICLE then "📄 퀴즈 관련 기사:\n"
      else if kind == QUIZ_CONTEXT then "🎯 퀴즈 문제:\n"
      else "📋 " + title + ":\n";
    assert heading[0] == Marker(kind);
    var r := heading + content;
    assert r[|heading|..] == content;
    r
  }

  /** The parts of all sources, in order. */
  function RagParts(sources: seq<Source>): (r: seq<string>)
    ensures |r| == |sources|
    ensures forall i :: 0 <= i < |sources| ==> r[i] == SourcePart(sources[i], i + 1)
  {
    seq(|sources|, i requires 0 <= i < |sources| => SourcePart(sources[i], i + 1))
  }

  /** The context: the fixed "no external knowledge" sentence when there are no sources,
      otherwise the parts separated by blank lines. */
  function RagContext(sources: seq<Source>): string {
    if |sources| == 0 then NO_KNOWLEDGE else Join(RagParts(sources), "\n\n")
  }

  /** `build_rag_context(knowledge_base)`: the parts gathered one source at a time. */
  method BuildRagContext(kb: KnowledgeBase) returns (context: string)
    ensures context == RagContext(kb.sources)
  {
    if |kb.sources| == 0 {
      return NO_KNOWLEDGE;
    }
    var parts: seq<string> := [];
    for i := 0 to |kb.sources|
      invariant parts == RagParts(kb.sources[..i])
    {
      assert kb.sources[..i + 1][..i] == kb.sources[..i];
      parts := parts + [SourcePart(kb.sources[i], i + 1)];
    }
    assert kb.sources[..|kb.sources|] == kb.sources;
    context := Join(parts, "\n\n");
  }

  /** The context is the "no external knowledge" sentence exactly when there are no
      sources, and otherwise holds the text of every source. */
  lemma RagContextShowsEverySource(sources: seq<Source>)
    ensures RagContext(sources) == NO_KNOWLEDGE <==> |sources| == 0
    ensures forall i :: 0 <= i < |sources| ==> Contains(RagContext(sources), sources[i].content.GetOr(""))
  {
    if |sources| > 0 {
      var parts := RagParts(sources);
      var context := RagContext(sources);
      assert context[0] == parts[0][0] == Marker(sources[0].kind.GetOr("unknown"));
      assert NO_KNOWLEDGE[0] == '외';
      forall i | 0 <= i < |sources|
        ensures Contains(context, sources[i].content.GetOr(""))
      {
        JoinHasPart(parts, "\n\n", i);
        EndOfInfix(context, parts[i], sources[i].content.GetOr(""));
      }
    }
  }

  /** Text that ends a part of the context is in the context. */
  lemma EndOfInfix(context: string, part: string, content: string)
    requires exists k :: InfixAt(context, part, k)
    requires |content| <= |part| && part[|part| - |content|..] == content
    ensures Contains(context, content)
  {
    var k :| InfixAt(context, part, k);
    var off := |part| - |content|;
    assert context[k + off..k + off + |content|] == part[off..];
    assert InfixAt(context, content, k + off);
    ContainsIffInfix(context, content);
  }

  // ---------------------------------------------------------------------------
  // Canned texts.

  /** `get_game_description(game_type)`. */
  function GetGameDescription(gameType: string): (r: string)
    ensures ParseGameType(gameType) == Some(BlackSwan) ==> r == "예측하기 어려운 극단적 경제 이벤트 분석"
    ensures ParseGameType(gameType) == Some(PrisonersDilemma) ==> r == "경제적 딜레마와 게임이론 상황 분석"
    ensures ParseGameType(gameType) == Some(SignalDecoding) ==> r == "경제 신호와 지표 해석 분석"
    ensures ParseGameType(gameType).None? ==> r == "경제 뉴스 분석"
  {
    match ParseGameType(gameType)
    case Some(BlackSwan) => "예측하기 어려운 극단적 경제 이벤트 분석"
    case Some(PrisonersDilemma) => "경제적 딜레마와 게임이론 상황 분석"
    case Some(SignalDecoding) => "경제 신호와 지표 해석 분석"
    case None => "경제 뉴스 분석"
  }

  const FOLLOW_UP: string := "\n\n더 구체적인 질문이 있으시면 언제든 말씀해 주세요."
  const ABOUT: string := "'에 대한 "

  /** What follows "'question'에 대한 " in each game's fallback, and in the generic one. */
  function FallbackBody(gameType: string): string {
    match ParseGameType(gameType)
    case Some(BlackSwan) => "블랙스완 관점 분석을 제공하겠습니다. 예측하기 어려운 극단적 경제 상황에서는 리스크 관리와 불확실성 대응이 핵심입니다."
    case Some(PrisonersDilemma) => "게임이론적 분석을 제공하겠습니다. 경제적 딜레마에서는 개별 최적화와 집단 최적화 간의 균형이 중요합니다."
    case Some(SignalDecoding) => "경제 신호 분석을 제공하겠습니다. 다양한 경제 지표를 종합적으로 해석하는 것이 필요합니다."
    case None => "경제적 관점에서 분석을 제공하겠습니다."
  }

  /** `generate_fallback_response(user_question, game_type)`: the question in single
      quotes, the game's (or the generic) analysis sentence, and always the follow-up
      invitation at the end. */
  function GenerateFallbackResponse(question: string, gameType: string): (r: string)
    ensures |r| >= |question| + 2 + |FOLLOW_UP|
    ensures r[0] == '\'' && r[1..|question| + 1] == question && r[|question| + 1] == '\''
    ensures r[|r| - |FOLLOW_UP|..] == FOLLOW_UP
  {
    var quoted := "'" + question;
    var r := quoted + ABOUT + FallbackBody(gameType) + FOLLOW_UP;
    assert r[..|quoted|] == quoted;
    assert r[|quoted|] == ABOUT[0];
    assert r[|r| - |FOLLOW_UP|..] == FOLLOW_UP;
    r
  }

  // ---------------------------------------------------------------------------
  // The model's answer and the handler.

  /** What the model call gives back: the text blocks of its content, or a failure (an
      exception on the way). */
  datatype ModelReply = Content(texts: seq<string>) | CallFailed

  /** `generate_claude_rag_response(...)`, the call having returned `reply`: the first
      text block, or the fallback when there is none or the call failed. */
  function GenerateClaudeRagResponse(question: string, gameType: string, reply: ModelReply): (r: string)
    ensures reply.Content? && |reply.texts| > 0 ==> r == reply.texts[0]
    ensures !(reply.Content? && |reply.texts| > 0) ==> r == GenerateFallbackResponse(question, gameType)
  {
    if reply.Content? && |reply.texts| > 0 then reply.texts[0] else GenerateFallbackResponse(question, gameType)
  }

  const SERVER_ERROR: string := "서버 오류가 발생했습니다. 잠시 후 다시 시도해 주세요."

  /** `lambda_handler(event, context)` at instant `now`, the news search answering each
      keyword string through `search` and the model call ending with `reply`:
      - a missing `httpMethod` raises before any reply;
      - a preflight request gets 200 with an empty body;
      - a missing or unreadable body gets 500 with the server error;
      - an empty question gets 400 with "질문이 필요합니다.";
      - otherwise 200 with the answer and the number of knowledge sources gathered. */
  function Handler(event: Event, search: string -> Option<NewsDigest>, reply: ModelReply, now: string): (r: Outcome)
    ensures event.httpMethod.None? ==> r == Raised
    ensures event.httpMethod == Some("OPTIONS") ==> r == PREFLIGHT
    ensures event.httpMethod.Some? && event.httpMethod != Some("OPTIONS") ==>
      match event.body
      case None => r == Refusal(500, SERVER_ERROR)
      case Some(Invalid(_)) => r == Refusal(500, SERVER_ERROR)
      case Some(Object(b)) =>
        if b.Question() == "" then r == Refusal(400, QUESTION_REQUIRED)
        else
          var kb := BuildRagKnowledgeBase(search(ExtractSearchKeywords(b.Question(), b.GameType())),
            b.QuestionText(), b.QuizArticleUrl(), b.GameType());
          r == Answer(GenerateClaudeRagResponse(b.Question(), b.GameType(), reply), Some(|kb.sources|), now)
    ensures SuccessMatchesStatus(r)
    ensures r.Reply? && r.statusCode == 200 && r.body.Json? ==> 0 <= r.body.knowledgeSources.value <= 3
  {
    match event.httpMethod
    case None => Raised
    case Some(httpMethod) =>
      if httpMethod == "OPTIONS" then PREFLIGHT
      else
        match event.body
        case None => Refusal(500, SERVER_ERROR)
        case Some(Invalid(_)) => Refusal(500, SERVER_ERROR)
        case Some(Object(b)) =>
          if b.Question() == "" then Refusal(400, QUESTION_REQUIRED)
          else
            var question := b.Question();
            var gameType := b.GameType();
            var kb := BuildRagKnowledgeBase(search(ExtractSearchKeywords(question, gameType)),
              b.QuestionText(), b.QuizArticleUrl(), gameType);
            Answer(GenerateClaudeRagResponse(question, gameType, reply), Some(|kb.sources|), now)
  }
}
