/** The first chatbot handler (backend/lambda/chatbot-handler.py): up to three search
    keywords are taken from the question, the news search is asked with them, and the
    answer lists at most two of the articles found. The news search is an input. */
module ChatbotHandler {
  import opened Wrappers
  import opened Text
  import opened QuizModel
  import opened LambdaEvents

  // ---------------------------------------------------------------------------
  // Keywords.

  /** The economic terms looked for, in the order they are reported. */
  const ECONOMIC_KEYWORDS: seq<string> := [
    "금리", "환율", "주식", "부동산", "인플레이션", "경제성장",
    "수출", "수입", "무역", "투자", "소비", "고용", "실업",
    "코스피", "코스닥", "달러", "원화", "GDP", "CPI"]

  /** The text searched: the question, a space, the quiz question; both stand in it whole,
      the quiz question one place after the question ends. */
  function CombinedText(question: string, questionText: string): (r: string)
    ensures |r| == |question| + 1 + |questionText| && r[|question|] == ' '
    ensures InfixAt(r, question, 0) && InfixAt(r, questionText, |question| + 1)
  {
    var r := question + " " + questionText;
    assert r[..|question|] == question;
    assert r[|question| + 1..] == questionText;
    r
  }

  /** Python's `k in text` as a test on k. */
  function OccursIn(text: string): string -> bool {
    (k: string) => Contains(text, k)
  }

  /** The economic terms that occur in the text, in list order. */
  function FoundKeywords(text: string): (r: seq<string>)
    ensures forall k :: k in r <==> k in ECONOMIC_KEYWORDS && Contains(text, k)
    ensures IsSubsequence(r, ECONOMIC_KEYWORDS)
  {
    Filter(ECONOMIC_KEYWORDS, OccursIn(text))
  }

  predicate IsLong(w: string) { |w| > 1 }

  /** The words of the text longer than one character, in the order of the text. */
  function LongWords(text: string): (r: seq<string>)
    ensures forall w :: w in r <==> w in SplitWords(text) && |w| > 1
    ensures forall i :: 0 <= i < |r| ==> IsWord(r[i])
    ensures IsSubsequence(r, SplitWords(text))
  {
    var ws := SplitWords(text);
    var r := Filter(ws, IsLong);
    LongOfWords(ws, r);
    r
  }

  lemma LongOfWords(ws: seq<string>, r: seq<string>)
    requires r == Filter(ws, IsLong) && forall i :: 0 <= i < |ws| ==> IsWord(ws[i])
    ensures forall w :: w in r <==> w in ws && |w| > 1
    ensures forall i :: 0 <= i < |r| ==> IsWord(r[i])
  {
    assert forall i :: 0 <= i < |r| ==> r[i] in ws;
  }

  /** A word longer than one character appears among the long words as often as in the
      text; a shorter one never does. */
  lemma LongWordsCounts(text: string)
    ensures forall w ::
      multiset(LongWords(text))[w] == if |w| > 1 then multiset(SplitWords(text))[w] else 0
  {
    FilterCounts(SplitWords(text), IsLong);
  }

  /** The keywords: the first three economic terms found, or, when none is found, the
      first three words longer than one character. */
  function KeywordTokens(question: string, questionText: string): (r: seq<string>)
    ensures |r| <= 3
    ensures var found := FoundKeywords(CombinedText(question, questionText));
      |found| > 0 ==> r == Take(found, 3)
    ensures var found := FoundKeywords(CombinedText(question, questionText));
      |found| == 0 ==> r == Take(LongWords(CombinedText(question, questionText)), 3)
  {
    var text := CombinedText(question, questionText);
    TokensOf(FoundKeywords(text), text)
  }

  /** The first three of the terms found, or of the long words of the text when none was
      found. */
  function TokensOf(found: seq<string>, text: string): seq<string> {
    Take(if |found| > 0 then found else LongWords(text), 3)
  }

  /** `extract_keywords(user_question, question_text)`: the economic terms collected one
      by one, the word fallback, and the first three joined by spaces. */
  method ExtractKeywords(question: string, questionText: string) returns (keywords: string)
    ensures keywords == Join(KeywordTokens(question, questionText), " ")
  {
    var text := CombinedText(question, questionText);
    var found := CollectFound(text);
    if |found| == 0 {
      found := Take(LongWords(text), 3);
    }
    KeywordsChosen(FoundKeywords(text), text, found);
    keywords := Join(Take(found, 3), " ");
  }

  /** The list the keywords are cut from: the terms found, or, when there are none, the
      first three long words. */
  lemma KeywordsChosen(terms: seq<string>, text: string, found: seq<string>)
    requires found == if |terms| == 0 then Take(LongWords(text), 3) else terms
    ensures Take(found, 3) == TokensOf(terms, text)
  {
    if |terms| == 0 {
      assert Take(found, 3) == found;
    }
  }

  /** The loop over the terms: each one that occurs in the text is appended, so the terms
      found are those that occur, in list order. */
  method CollectFound(text: string) returns (found: seq<string>)
    ensures found == FoundKeywords(text)
  {
    found := CollectOccurring(ECONOMIC_KEYWORDS, text);
  }

  /** Keeps the terms that occur in the text, in their order. */
  method CollectOccurring(terms: seq<string>, text: string) returns (found: seq<string>)
    ensures found == Filter(terms, OccursIn(text))
  {
    found := [];
    for i := 0 to |terms|
      invariant found == Filter(terms[..i], OccursIn(text))
    {
      assert terms[..i + 1][..i] == terms[..i];
      if Contains(text, terms[i]) {
        found := found + [terms[i]];
      }
    }
    assert terms[..|terms|] == terms;
  }

  /** The keywords are economic terms of the text, in list order, or else words of it;
      there are at most three, and splitting the keyword string at its spaces gives them
      back. */
  lemma KeywordsMeaning(question: string, questionText: string)
    ensures var text := CombinedText(question, questionText);
      var r := KeywordTokens(question, questionText);
      && (|FoundKeywords(text)| > 0 ==>
           IsSubsequence(r, ECONOMIC_KEYWORDS) && forall k :: k in r ==> Contains(text, k))
      && (|FoundKeywords(text)| == 0 ==> forall w :: w in r ==> w in SplitWords(text) && |w| > 1)
    ensures |KeywordTokens(question, questionText)| > 0 ==>
      SplitOn(Join(KeywordTokens(question, questionText), " "), ' ') == KeywordTokens(question, questionText)
  {
    var text := CombinedText(question, questionText);
    var found := FoundKeywords(text);
    var r := KeywordTokens(question, questionText);
    if |found| > 0 {
      PrefixIsSubsequence(found, |r|);
      SubsequenceTransitive(r, found, ECONOMIC_KEYWORDS);
      assert forall k :: k in r ==> k in found;
      forall i | 0 <= i < |r|
        ensures ' ' !in r[i]
      {
        assert r[i] in ECONOMIC_KEYWORDS;
        EconomicKeywordsAreWords();
      }
    } else {
      assert forall w :: w in r ==> w in LongWords(text);
      forall i | 0 <= i < |r|
        ensures ' ' !in r[i]
      {
        assert r[i] == LongWords(text)[i];
        assert IsSpace(' ');
      }
    }
    if |r| > 0 {
      SplitOnJoin(r, ' ');
    }
  }

  lemma EconomicKeywordsAreWords()
    ensures forall k :: k in ECONOMIC_KEYWORDS ==> ' ' !in k
  {
  }

  /** A prefix of a list is a subsequence of it. */
  lemma PrefixIsSubsequence<T>(s: seq<T>, n: nat)
    requires n <= |s|
    ensures IsSubsequence(s[..n], s)
  {
    SubsequenceReflexive(s[..n]);
    SubsequenceReflexive(s[n..]);
    SubsequenceConcat(s[..n], s[..n], [], s[n..]);
    assert s[..n] + s[n..] == s;
    assert s[..n] + [] == s[..n];
  }

  /** A subsequence of a subsequence is a subsequence. */
  lemma {:induction false} SubsequenceTransitive<T>(a: seq<T>, b: seq<T>, c: seq<T>)
    requires IsSubsequence(a, b) && IsSubsequence(b, c)
    ensures IsSubsequence(a, c)
    decreases |c|
  {
    if |a| > 0 && |c| > 0 {
      var cInit := c[..|c| - 1];
      assert c == cInit + [c[|c| - 1]];
      if |b| > 0 && b[|b| - 1] == c[|c| - 1] {
        var bInit := b[..|b| - 1];
        if a[|a| - 1] == b[|b| - 1] {
          SubsequenceTransitive(a[..|a| - 1], bInit, cInit);
        } else {
          SubsequenceTransitive(a, bInit, cInit);
          SubsequenceOfLonger(a, cInit, c[|c| - 1]);
        }
      } else {
        SubsequenceTransitive(a, b, cInit);
        SubsequenceOfLonger(a, cInit, c[|c| - 1]);
      }
    }
  }

  // ---------------------------------------------------------------------------
  // The answer.

  /** One article of the news search, each field possibly missing. */
  datatype Article = Article(title: Option<string>, content: Option<string>)

  /** The phrase for each game's subject, "경제 뉴스" for any other game type. */
  function AiContext(gameType: string): (r: string)
    ensures ParseGameType(gameType) == Some(BlackSwan) ==> r == "예측하기 어려운 경제 이벤트"
    ensures ParseGameType(gameType) == Some(PrisonersDilemma) ==> r == "경제적 딜레마 상황"
    ensures ParseGameType(gameType) == Some(SignalDecoding) ==> r == "경제 신호 해석"
    ensures ParseGameType(gameType).None? ==> r == "경제 뉴스"
  {
    match ParseGameType(gameType)
    case Some(BlackSwan) => "예측하기 어려운 경제 이벤트"
    case Some(PrisonersDilemma) => "경제적 딜레마 상황"
    case Some(SignalDecoding) => "경제 신호 해석"
    case None => "경제 뉴스"
  }

  const NEWS_CLOSING: string := "위 뉴스를 바탕으로 보면, 현재 경제 상황과 관련하여 추가적인 분석이 필요합니다. 더 구체적인 질문이 있으시면 언제든 말씀해 주세요."

  /** The n-th listed article: its number, its title (or "제목 없음"), then its text cut
      to 200 characters and followed by "...". */
  function ArticleBlock(n: nat, a: Article): (r: string)
    ensures var excerpt := Take(a.content.GetOr(""), 200);
      |excerpt| <= 200 && Contains(r, excerpt + "...")
  {
    var head := NatToString(n) + ". " + a.title.GetOr("제목 없음") + "\n";
    var excerpt := Take(a.content.GetOr(""), 200);
    var r := head + excerpt + "..." + "\n\n";
    assert InfixAt(r, excerpt + "...", |head|) by {
      assert r[|head|..|head| + |excerpt + "..."|] == excerpt + "...";
    }
    ContainsIffInfix(r, excerpt + "...");
    r
  }

  /** The blocks of the listed articles, numbered from 1. */
  function ArticleBlocks(articles: seq<Article>): string {
    if |articles| == 0 then ""
    else ArticleBlocks(articles[..|articles| - 1]) + ArticleBlock(|articles|, articles[|articles| - 1])
  }

  /** The opening of the news answer. */
  function NewsHeading(question: string, gameType: string): string {
    "'" + question + "'에 대한 답변을 드리겠습니다.\n\n" + "**" + AiContext(gameType) + " 관련 최신 뉴스:**\n"
  }

  /** The answer without news. */
  function NoNewsAnswer(question: string, gameType: string): string {
    "'" + question + "'에 대한 질문을 받았습니다.\n\n"
      + "이 질문은 " + AiContext(gameType) + "와 관련이 있어 보입니다. "
      + "현재 관련 뉴스 데이터를 분석하고 있으며, 더 정확한 정보를 위해 추가적인 경제 지표와 뉴스를 검토하겠습니다.\n\n"
      + "구체적으로 어떤 부분이 궁금하신지 알려주시면 더 자세한 답변을 드릴 수 있습니다."
  }

  /** The answer for the documents the news search found (none when it found nothing or
      could not be asked): the heading, the first article's block, the second's when there
      is one and no other, and the closing line; or the answer without news. */
  function AiResponse(question: string, gameType: string, documents: seq<Article>): (r: string)
    ensures |documents| > 0 ==>
      r == NewsHeading(question, gameType) + ArticleBlock(1, documents[0])
        + (if |documents| > 1 then ArticleBlock(2, documents[1]) else "") + NEWS_CLOSING
    ensures |documents| == 0 ==> r == NoNewsAnswer(question, gameType)
  {
    if |documents| > 0 then
      FirstTwoBlocks(documents);
      Regroup(NewsHeading(question, gameType), ArticleBlock(1, documents[0]),
        if |documents| > 1 then ArticleBlock(2, documents[1]) else "", NEWS_CLOSING);
      NewsHeading(question, gameType) + ArticleBlocks(Take(documents, 2)) + NEWS_CLOSING
    else NoNewsAnswer(question, gameType)
  }

  /** `generate_ai_response(...)`: the answer built up one article at a time. */
  method GenerateAiResponse(question: string, gameType: string, documents: seq<Article>) returns (response: string)
    ensures response == AiResponse(question, gameType, documents)
  {
    if |documents| == 0 {
      response := NoNewsAnswer(question, gameType);
      return;
    }
    var articles := Take(documents, 2);
    var blocks := "";
    for i := 0 to |articles|
      invariant blocks == ArticleBlocks(articles[..i])
    {
      BlocksGrow(articles, i);
      blocks := blocks + ArticleBlock(i + 1, articles[i]);
    }
    assert articles[..|articles|] == articles;
    response := NewsHeading(question, gameType) + blocks;
    response := response + NEWS_CLOSING;
  }

  /** Listing one more article appends its block. */
  lemma BlocksGrow(articles: seq<Article>, i: nat)
    requires i < |articles|
    ensures ArticleBlocks(articles[..i + 1]) == ArticleBlocks(articles[..i]) + ArticleBlock(i + 1, articles[i])
  {
    assert articles[..i + 1][..i] == articles[..i];
  }

  /** Concatenation regrouped to the left. */
  lemma Regroup(a: string, b: string, c: string, d: string)
    ensures a + (b + c) + d == a + b + c + d
  {
  }

  /** The blocks of the first two articles: the first one's, then the second one's when
      there is a second. */
  lemma FirstTwoBlocks(documents: seq<Article>)
    requires |documents| > 0
    ensures ArticleBlocks(Take(documents, 2))
      == ArticleBlock(1, documents[0]) + (if |documents| > 1 then ArticleBlock(2, documents[1]) else "")
  {
    var articles := Take(documents, 2);
    assert ArticleBlocks(articles[..0]) == "";
    assert articles[..1][..0] == articles[..0];
    assert ArticleBlocks(articles[..1]) == ArticleBlock(1, documents[0]);
    if |documents| > 1 {
      assert articles[..2][..1] == articles[..1];
      assert articles[..2] == articles;
      assert ArticleBlocks(articles) == ArticleBlock(1, documents[0]) + ArticleBlock(2, documents[1]);
    } else {
      assert articles[..1] == articles;
    }
  }

  // ---------------------------------------------------------------------------
  // The handler.

  const SERVER_ERROR: string := "서버 오류가 발생했습니다."

  /** `lambda_handler(event, context)` at instant `now`, the news search answering each
      keyword string with the documents it found through `search`:
      - a missing `httpMethod` raises before any reply;
      - a preflight request gets 200 with an empty body;
      - a missing or unreadable body gets 500 with the server error;
      - an empty question gets 400 with "질문이 필요합니다.";
      - otherwise 200 with the answer for the documents found with the keywords. */
  method Handler(event: Event, search: string -> seq<Article>, now: string) returns (r: Outcome)
    ensures event.httpMethod.None? ==> r == Raised
    ensures event.httpMethod == Some("OPTIONS") ==> r == PREFLIGHT
    ensures event.httpMethod.Some? && event.httpMethod != Some("OPTIONS") ==>
      match event.body
      case None => r == Refusal(500, SERVER_ERROR)
      case Some(Invalid(_)) => r == Refusal(500, SERVER_ERROR)
      case Some(Object(b)) =>
        if b.Question() == "" then r == Refusal(400, QUESTION_REQUIRED)
        else
          var keywords := Join(KeywordTokens(b.Question(), b.QuestionText()), " ");
          r == Answer(AiResponse(b.Question(), b.GameType(), search(keywords)), None, now)
    ensures SuccessMatchesStatus(r)
  {
    if event.httpMethod.None? {
      return Raised;
    }
    if event.httpMethod.value == "OPTIONS" {
      return PREFLIGHT;
    }
    match event.body
    case None =>
      r := Refusal(500, SERVER_ERROR);
    case Some(Invalid(_)) =>
      r := Refusal(500, SERVER_ERROR);
    case Some(Object(b)) =>
      if b.Question() == "" {
        r := Refusal(400, QUESTION_REQUIRED);
      } else {
        var keywords := ExtractKeywords(b.Question(), b.QuestionText());
        var answer := GenerateAiResponse(b.Question(), b.GameType(), search(keywords));
        r := Answer(answer, None, now);
      }
  }
}
