/** The quiz data model shared by the site: game types, question types and the
    `Question` record the players consume (lib/games-data.ts). */
module QuizModel {
  import opened Wrappers

  /** The three games. */
  datatype GameType = BlackSwan | PrisonersDilemma | SignalDecoding

  /** The literal name of a game type, as it appears in the API records and in storage keys. */
  function GameTypeName(g: GameType): (r: string)
    ensures |r| > 0
  {
    match g
    case BlackSwan => "BlackSwan"
    case PrisonersDilemma => "PrisonersDilemma"
    case SignalDecoding => "SignalDecoding"
  }

  /** Reads a game type name; any other string is not a game type. */
  function ParseGameType(s: string): (r: Option<GameType>)
    ensures r.Some? ==> GameTypeName(r.value) == s
  {
    if s == "BlackSwan" then Some(BlackSwan)
    else if s == "PrisonersDilemma" then Some(PrisonersDilemma)
    else if s == "SignalDecoding" then Some(SignalDecoding)
    else None
  }

  /** Printing a game type and reading it back gives the same game type. */
  lemma ParseGameTypeName(g: GameType)
    ensures ParseGameType(GameTypeName(g)) == Some(g)
  {
  }

  /** Exactly the three names are recognised. */
  lemma ParseGameTypeExact(s: string)
    ensures ParseGameType(s).Some? <==> s in {"BlackSwan", "PrisonersDilemma", "SignalDecoding"}
  {
  }

  /** `GAME_TYPE_MAP`: the route ids g1, g2, g3 name the three games. */
  function GameTypeOfId(id: string): (r: Option<GameType>)
    ensures id == "g1" <==> r == Some(BlackSwan)
    ensures id == "g2" <==> r == Some(PrisonersDilemma)
    ensures id == "g3" <==> r == Some(SignalDecoding)
  {
    if id == "g1" then Some(BlackSwan)
    else if id == "g2" then Some(PrisonersDilemma)
    else if id == "g3" then Some(SignalDecoding)
    else None
  }

  /** "객관식" (multiple choice) or "주관식" (short answer). */
  datatype QuestionType = MultipleChoice | ShortAnswer

  /** A hint as stored: absent, one string, or a list of strings. */
  datatype Hint = NoHint | HintText(text: string) | HintList(items: seq<string>)

  /** Newspaper header shown above a question. */
  datatype RelatedArticle = RelatedArticle(title: string, excerpt: string)

  /** One quiz question as the players receive it. */
  datatype Question = Question(
    id: string,
    questionType: QuestionType,
    question: string,
    options: Option<seq<string>>,
    hint: Hint,
    answer: string,
    explanation: string,
    newsLink: string,
    tags: Option<string>,
    relatedArticle: Option<RelatedArticle>)
}
