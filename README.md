# sedaily_game quiz core in Dafny

This project models the deterministic core of the sedaily_game news-quiz site. That is a
Next.js site where readers answer daily quizzes built from economic news. It has three
games: g1 (BlackSwan), g2 (PrisonersDilemma) and g3 (SignalDecoding). Its archive pages
browse past dates, and an admin page authors questions. A few Python Lambda handlers
answer chatbot questions about the quizzes.

The model covers:

- **the four quiz players.**
  - QuizCarousel and UniversalQuizPlayer keep one state record per question and a score.
  - QuizPlayer and BlackSwanQuizPlayer are sequential players with a single cursor.
  - Each is a class whose methods are the component's event handlers, each with its guard.
  - Their invariant is the one the site relies on: the score is the number of questions answered correctly.
  - The variants are kept as written: UniversalQuizPlayer never records `selectedAnswer`, QuizPlayer adds one extra point at completion, and BlackSwanQuizPlayer keeps an answer log.
- **the progress map** of lib/quiz-storage.ts. It is a read-modify-write map from date to progress record.
- **the dataset gateway** of lib/quiz-api-client.ts.
  - The flat API records are pivoted into game type → date → questions.
  - A five-minute TTL cache falls back to stale data, or to an empty shell, when a request fails.
  - The body of the reply is unwrapped.
- **the lookup layer** of lib/games-data.ts: a permanent cache, per-date lookups, dates sorted descending, year → month → date archive grouping and tag summaries.
- **date handling** in lib/quiz-api.ts and lib/date-utils.ts.
  - The fixed +9 hour KST offset is applied over a proleptic Gregorian calendar.
  - Route dates are converted between `YYYY-MM-DD`, `YYMMDD` and `YYYYMMDD`.
  - Fields are zero-padded.
- **the archive pages** (g2, g3, ArchiveCard): year and month filters, URL parameters, short dates, and tags truncated to three plus a "+k" count.
- **admin authoring.**
  - Validation reports every failed rule.
  - Questions are converted to the upload schema, where `correct_index` becomes a 1-based answer string.
  - Uploads are grouped by theme and their results aggregated.
  - Choice lists are edited within two to six choices.
  - The review list is filtered and counted.
  - The save status machine of the admin page.
- **the image loader's URL builder** and **the chatbot client's fallback reply**.
- **the chatbot Lambda handlers.**
  - Their request guards.
  - Keyword extraction.
  - Assembly of the retrieval context and the knowledge base.
  - Game descriptions and canned responses.

Text operations are written out on `seq<char>`: trimming, ASCII lower-casing, splitting,
joining and digit parsing. `localeCompare` on date strings is lexicographic order on
characters. The clock, `fetch`, `localStorage`, the BigKinds search and the Bedrock model
call all become parameters or fields.

## Model

| member | source | states |
|---|---|---|
| QuizModel.ParseGameType | lib/games-data.ts:90 | a string read as a game type is that game's own name |
| QuizModel.ParseGameTypeName | lib/games-data.ts:90 | printing a game type and reading it back gives the same game type |
| QuizModel.ParseGameTypeExact | lib/games-data.ts:90 | exactly the three names BlackSwan, PrisonersDilemma and SignalDecoding are game types |
| QuizModel.GameTypeOfId | lib/games-data.ts:99-103 | the route ids g1, g2 and g3 name BlackSwan, PrisonersDilemma and SignalDecoding, each in both directions |
| Text.Trim | lib/admin-utils.ts:87 | an infix of the text with nothing but whitespace before and after it, neither starting nor ending with whitespace: the text with only its surrounding whitespace dropped |
| Text.BlankIffTrimEmpty | lib/admin-utils.ts:87-111 | trimming leaves nothing exactly when every character is whitespace |
| Text.TrimIdempotent | lib/admin-utils.ts:87-111 | trimming twice is trimming once |
| Text.SplitWordsMeaning | backend/lambda/chatbot-handler.py:144 | the words joined together are exactly the non-whitespace characters of the text in order, each word is a maximal run of non-whitespace characters of the text, and there are no words exactly when the text is blank |
| Text.Filter | backend/lambda/chatbot-handler.py:145 | a subsequence of the list, order kept, whose members are exactly the list's members that satisfy the condition |
| Text.FilterCounts | backend/lambda/chatbot-handler.py:145 | every element that satisfies the condition is kept as many times as it occurs in the list, and no other element is kept |
| Text.SortDescending | lib/games-data.ts:186 | the set's strings, each once, strictly descending |
| Text.SortIntsDescending | app/games/g2/archive/client-page.tsx:124 | the set's numbers, each once, in descending order |
| Text.JoinSplitOn | lib/games-data.ts:217 | splitting on a character and joining with it gives the string back |
| QuestionStates.FreshStates | components/games/QuizCarousel.tsx:76-82 | one untouched state per question: nothing selected, empty input, not answered, not correct, hint hidden |
| QuestionStates.CountCorrect | components/games/QuizCarousel.tsx:218 | the number of correct questions is at most the number of questions |
| QuestionStates.CountAnswered | components/games/QuizCarousel.tsx:87 | the number of answered questions is at most the number of questions |
| QuestionStates.CountCorrectUpdate | components/games/QuizCarousel.tsx:208-218 | replacing one question's state changes the correct count by exactly the difference the two states make |
| QuestionStates.CountAnsweredUpdate | components/games/QuizCarousel.tsx:87 | replacing one question's state changes the answered count by exactly the difference the two states make |
| QuestionStates.AllAnsweredIffCount | components/games/QuizCarousel.tsx:180 | every question is answered (the saved isComplete flag, line 255) exactly when the answered count equals the number of questions |
| QuestionStates.CorrectAtMostAnswered | components/games/QuizCarousel.tsx:87 | when only answered questions are marked correct, the correct count never exceeds the answered count |
| QuestionStates.FreshStatesCounts | components/games/QuizCarousel.tsx:286-296 | untouched states count no correct and no answered question, so the reset score 0 is their correct count |
| QuestionStates.ShortAnswerMatchesProperties | components/games/QuizCarousel.tsx:238-240 | short-answer marking ignores surrounding whitespace in the input, accepts the expected answer itself when it has no surrounding whitespace, and, for an answer with no upper-case letter, accepts exactly the inputs that trim and lower-case to it |
| QuestionStates.KeyOptionIndex | components/games/QuizCarousel.tsx:183-190 | a key picks option k (0 to 3) exactly when it is the k-th of A-D in either case; every other key picks nothing |
| QuestionStates.ProgressKey | components/games/QuizCarousel.tsx:147 | the storage key starts with "quiz-progress-" and ends with the date |
| QuestionStates.ProgressKeyInjective | components/games/QuizCarousel.tsx:147 | two games or dates never share a progress key |
| Carousel.ChoiceAnswered | components/games/QuizCarousel.tsx:207-215 | a multiple-choice answer records the option as both the selected and the typed answer, marks the slot answered, and marks it correct exactly when the option equals the expected answer |
| Carousel.QuizCarousel.Saved | components/games/QuizCarousel.tsx:144-157 | saving writes one snapshot under this game's and date's key and leaves every other key as it was, or nothing at all when saving is disabled |
| Carousel.QuizCarousel.constructor | components/games/QuizCarousel.tsx:41-55 | the player starts with no states, score 0 and the first slide shown |
| Carousel.QuizCarousel.SaveProgress | components/games/QuizCarousel.tsx:144-157 | storage becomes the saved map for the given states, score and completion flag |
| Carousel.QuizCarousel.InitStates | components/games/QuizCarousel.tsx:74-85 | fresh states are created only when there are questions and none yet; the invariant (score = correct count) is kept |
| Carousel.QuizCarousel.SelectSlide | components/games/QuizCarousel.tsx:160-164 | the shown slide becomes the selected scroll snap |
| Carousel.QuizCarousel.AnswerMultipleChoice | components/games/QuizCarousel.tsx:200-223 | ignored without a slot or on an answered slot; otherwise only slot i changes, the score becomes the correct count and an incomplete snapshot is saved; answered slots never change |
| Carousel.QuizCarousel.SubmitShortAnswer | components/games/QuizCarousel.tsx:231-256 | ignored without a slot, on an answered slot or for a blank input; otherwise the slot is marked by the trimmed, lower-cased comparison, the score rises by one only when correct, and the snapshot's completion flag says whether every question is answered |
| Carousel.QuizCarousel.MarkAnswered | components/games/QuizCarousel.tsx:242-256 | the accepted answer's state change keeps score = correct count |
| Carousel.QuizCarousel.ToggleHint | components/games/QuizCarousel.tsx:264-273 | only slot i's hint flag flips, answered or not |
| Carousel.QuizCarousel.InputChange | components/games/QuizCarousel.tsx:275-284 | only slot i's typed answer is replaced |
| Carousel.QuizCarousel.Restart | components/games/QuizCarousel.tsx:286-296 | every slot fresh, score 0, no question answered, and a zeroed snapshot saved |
| Carousel.QuizCarousel.KeyChoice | components/games/QuizCarousel.tsx:179-193 | a key yields an option only while some question is unanswered, on the shown multiple-choice slide with options that is not answered; the option is the one at the key's index (A–D, either case), and whenever all this holds and that option exists, the key yields it |
| Carousel.QuizCarousel.KeyPress | components/games/QuizCarousel.tsx:182-193 | a shortcut key answers the shown slide exactly as a click on that option would |
| Universal.ChoiceAnswered | components/games/UniversalQuizPlayer.tsx:160-168 | a multiple-choice answer becomes the typed answer, marks the slot answered and correct exactly when the option equals the expected answer, and leaves selectedAnswer as it was |
| Universal.FirstUnanswered | components/games/UniversalQuizPlayer.tsx:137-138 | none exactly when every slot is answered; otherwise an unanswered slot with every earlier slot answered |
| Universal.UniversalQuizPlayer.Saved | components/games/UniversalQuizPlayer.tsx:115-128 | saving writes one snapshot under this game's and date's key and leaves every other key as it was, or nothing when saving is disabled |
| Universal.UniversalQuizPlayer.constructor | components/games/UniversalQuizPlayer.tsx:33-41 | the player starts with no states and score 0 |
| Universal.UniversalQuizPlayer.SaveProgress | components/games/UniversalQuizPlayer.tsx:115-128 | storage becomes the saved map for the given states, score and completion flag |
| Universal.UniversalQuizPlayer.InitStates | components/games/UniversalQuizPlayer.tsx:45-56 | fresh states are created only when there are questions and none yet |
| Universal.UniversalQuizPlayer.AnswerMultipleChoice | components/games/UniversalQuizPlayer.tsx:154-177 | ignored without a slot or on an answered slot; otherwise only slot i changes, the score becomes the correct count and an incomplete snapshot is saved |
| Universal.UniversalQuizPlayer.SubmitShortAnswer | components/games/UniversalQuizPlayer.tsx:179-205 | ignored without a slot, on an answered slot or for a blank input; otherwise marked by the trimmed, lower-cased comparison, the score rises by one only when correct, and the completion flag says whether every question is answered |
| Universal.UniversalQuizPlayer.MarkAnswered | components/games/UniversalQuizPlayer.tsx:190-204 | the accepted answer's state change keeps score = correct count |
| Universal.UniversalQuizPlayer.ToggleHint | components/games/UniversalQuizPlayer.tsx:207-216 | only slot i's hint flag flips |
| Universal.UniversalQuizPlayer.InputChange | components/games/UniversalQuizPlayer.tsx:218-227 | only slot i's typed answer is replaced |
| Universal.UniversalQuizPlayer.Restart | components/games/UniversalQuizPlayer.tsx:229-240 | every slot fresh, score 0, and a zeroed snapshot saved |
| Universal.UniversalQuizPlayer.KeyChoice | components/games/UniversalQuizPlayer.tsx:131-146 | a key yields an option only while some question is unanswered, for the first unanswered question, when it is multiple choice with options; the option is the one at the key's index (A–D, either case), and whenever all this holds and that option exists, the key yields that question and option |
| Universal.UniversalQuizPlayer.KeyPress | components/games/UniversalQuizPlayer.tsx:131-146 | a shortcut key answers the first unanswered question exactly as a click on that option would |
| Universal.UniversalQuizPlayer.Completion | components/games/UniversalQuizPlayer.tsx:507-520 | the completion panel shows exactly when states exist and every question is answered, and reports a score between 0 and the number of questions |
| SequentialPlayer.QuizPlayer.CurrentQuestion | components/games/QuizPlayer.tsx:29 | the item under the cursor exactly when the cursor is on an item |
| SequentialPlayer.QuizPlayer.IsCorrect | components/games/QuizPlayer.tsx:31 | true exactly when there is a current question and the selected answer is its answer character for character |
| SequentialPlayer.QuizPlayer.FinalScore | components/games/QuizPlayer.tsx:122 | the running score, plus one exactly when the selected answer is exactly right |
| SequentialPlayer.QuizPlayer.constructor | components/games/QuizPlayer.tsx:20-27 | the player starts on the first question with nothing selected or typed, score 0, explanation hidden, not complete |
| SequentialPlayer.QuizPlayer.ChangeDate | components/games/QuizPlayer.tsx:34-42 | a new date resets the cursor, the answer, the input, the score, the explanation and completion |
| SequentialPlayer.QuizPlayer.SelectAnswer | components/games/QuizPlayer.tsx:48-57 | ignored once answered; otherwise the option is selected, the question answered, and the score gains one exactly when the option equals the answer; the score keeps counting correct answers |
| SequentialPlayer.QuizPlayer.RecordAnswer | components/games/QuizPlayer.tsx:51-56 | an answer makes the question answered with that selection and adds one for a correct verdict |
| SequentialPlayer.QuizPlayer.InputChange | components/games/QuizPlayer.tsx:239 | the typed input is replaced |
| SequentialPlayer.QuizPlayer.ToggleExplanation | components/games/QuizPlayer.tsx:287 | the explanation flag flips |
| SequentialPlayer.QuizPlayer.TextSubmit | components/games/QuizPlayer.tsx:59-78 | ignored for blank input, once answered, or without a question; otherwise the trimmed input is selected and the score gains one exactly when it matches the answer ignoring case |
| SequentialPlayer.QuizPlayer.Next | components/games/QuizPlayer.tsx:80-95 | before the last question the cursor advances and the per-question fields clear; on the last the quiz completes and the final score (one more for an exactly right last answer) is saved for the date |
| SequentialPlayer.QuizPlayer.NextAsIntended | components/games/QuizPlayer.tsx:80-95 | as Next, but the saved score is the running score, between 0 and the number of questions |
| SequentialPlayer.QuizPlayer.ScoreBound | components/games/QuizPlayer.tsx:25 | the running score never exceeds the number of questions reached, hence the number of questions |
| SequentialPlayer.OverCountExample | components/games/QuizPlayer.tsx:89-90 | a one-question quiz answered right saves a score of 2 |
| SequentialPlayer.IntendedCountExample | components/games/QuizPlayer.tsx:89-92 | with the intended completion step the same play saves 1 |
| BlackSwanPlayer.Badge | components/games/BlackSwanQuizPlayer.tsx:143-157 | the badge and message for 90 and up, 70 to 89, 50 to 69, and below 50 |
| BlackSwanPlayer.BadgeRank | components/games/BlackSwanQuizPlayer.tsx:143-157 | the rank, from beginner 0 to master 3, of the badge a percentage earns |
| BlackSwanPlayer.BadgeMonotone | components/games/BlackSwanQuizPlayer.tsx:143-157 | a higher percentage never earns a lower badge, and two percentages share a badge exactly when they share a rank |
| BlackSwanPlayer.BlackSwanQuizPlayer.CurrentQuestion | components/games/BlackSwanQuizPlayer.tsx:33 | the item under the cursor exactly when the cursor is on an item |
| BlackSwanPlayer.BlackSwanQuizPlayer.constructor | components/games/BlackSwanQuizPlayer.tsx:20-31 | the player starts on the first question with an empty log, score 0 and every flag off |
| BlackSwanPlayer.BlackSwanQuizPlayer.ChangeDate | components/games/BlackSwanQuizPlayer.tsx:38-48 | a new date resets every field and empties the log |
| BlackSwanPlayer.BlackSwanQuizPlayer.SelectAnswer | components/games/BlackSwanQuizPlayer.tsx:50-72 | ignored once answered; otherwise the option is selected, the score gains one exactly when it equals the answer, and with a current question one entry is appended to the log; the score stays the number of log entries marked correct |
| BlackSwanPlayer.BlackSwanQuizPlayer.TextSubmit | components/games/BlackSwanQuizPlayer.tsx:74-103 | ignored for blank input, once answered, or without a question; otherwise the trimmed input is selected and logged, and the score gains one exactly when it matches ignoring case |
| BlackSwanPlayer.BlackSwanQuizPlayer.RecordAnswer | components/games/BlackSwanQuizPlayer.tsx:53-70 | the answer is selected, the entry logged, and the score follows the entry's verdict |
| BlackSwanPlayer.BlackSwanQuizPlayer.InputChange | components/games/BlackSwanQuizPlayer.tsx:303 | the typed input is replaced |
| BlackSwanPlayer.BlackSwanQuizPlayer.ToggleExplanation | components/games/BlackSwanQuizPlayer.tsx:347 | the explanation flag flips |
| BlackSwanPlayer.BlackSwanQuizPlayer.ToggleHint | components/games/BlackSwanQuizPlayer.tsx:394 | the hint flag flips |
| BlackSwanPlayer.BlackSwanQuizPlayer.Next | components/games/BlackSwanQuizPlayer.tsx:105-117 | before the last question the cursor advances and the per-question fields clear; on the last the running score is saved unadjusted and never exceeds the number of questions |
| QuizStorage.ReadProgress | lib/quiz-storage.ts:14-23 | the stored map when there is one that parses; the empty map outside a browser, with nothing stored, or when the text does not parse |
| QuizStorage.WriteProgress | lib/quiz-storage.ts:28-42 | reading back after a save gives the old map with the date's entry replaced by a completed record; every other storage key keeps its value; outside a browser nothing changes |
| QuizStorage.WriteKeepsOtherDates | lib/quiz-storage.ts:28-42 | saving one date leaves every other date's entry as it was |
| QuizStorage.ProgressStore.IsQuizCompleted | lib/quiz-storage.ts:47-50 | true exactly when the date has an entry whose flag is set |
| QuizStorage.ProgressStore.GetQuizScore | lib/quiz-storage.ts:55-58 | null exactly for a date never saved, otherwise the stored score |
| QuizStorage.ProgressStore.SaveQuizProgress | lib/quiz-storage.ts:28-42 | afterwards the date reads back as completed with that score, and every other date reads back as before |
| QuizApiClient.QuizData.Put | lib/quiz-api-client.ts:47-48 | the game's map gets the date's questions; the other two games' maps are unchanged |
| QuizApiClient.LastFor | lib/quiz-api-client.ts:43-50 | reference: the index of the last record for a game and date, with no later record naming both, or none when no record does |
| QuizApiClient.TransformLookup | lib/quiz-api-client.ts:36-53 | a date is listed for a game exactly when some record names both, and its questions are those of the last such record |
| QuizApiClient.Transform | lib/quiz-api-client.ts:36-53 | the reference transformation on values; what it lists for each game and date is stated by TransformLookup |
| QuizApiClient.TransformApiResponse | lib/quiz-api-client.ts:36-53 | the loop fills exactly the record-by-record transformation (whose lookups TransformLookup characterises) |
| QuizApiClient.UnwrapBody | lib/quiz-api-client.ts:89-96 | a string body is parsed, another truthy body used as it is, and without one the payload itself is the list |
| QuizApiClient.IsFresh | lib/quiz-api-client.ts:61 | only a cache with a non-zero timestamp is fresh, and it stays fresh for exactly the five minutes after that timestamp |
| QuizApiClient.QuizApiCache.constructor | lib/quiz-api-client.ts:29-30 | the cache starts empty, with no timestamp |
| QuizApiClient.QuizApiCache.FetchQuizData | lib/quiz-api-client.ts:59-124 | a fresh cache is returned without a request; readable records replace the cache wholesale with a new timestamp; any failure returns the cache, stale or not, or the empty shell, and leaves the cache as it was |
| QuizApiClient.QuizApiCache.ClearQuizDataCache | lib/quiz-api-client.ts:129-133 | both cleared, so the next call makes a request whatever the time |
| GamesData.QuestionsForDate | lib/games-data.ts:151-168 | the stored list for a date of the game, and the empty list when the date is not there |
| GamesData.HasQuestionsForDate | lib/games-data.ts:250-253 | true exactly when the date is stored for the game with at least one question |
| GamesData.AvailableDates | lib/games-data.ts:173-191 | every stored date of the game, each exactly once, in strictly descending order |
| GamesData.MostRecentDate | lib/games-data.ts:258-263 | none exactly when the game has no dates; otherwise a stored date no smaller than any other |
| GamesData.UniqueTags | lib/games-data.ts:276-284 | the non-empty tags of the questions, each once, and no other |
| GamesData.UniqueTagsPrefix | lib/games-data.ts:276-284 | the distinct tags of the first n questions are a prefix of those of all questions (first-occurrence order) |
| GamesData.CollectTags | lib/games-data.ts:276-284 | the loop that adds each truthy tag to the set yields the distinct tags in first-occurrence order |
| GamesData.Summarize | lib/games-data.ts:286-294 | at most three tags shown, a prefix of the list; shown plus remaining is the total; remaining is zero exactly when there are at most three |
| GamesData.GetTagsForDate | lib/games-data.ts:273-295 | the summary of the distinct tags of the date's questions |
| GamesData.GroupHasDate | lib/games-data.ts:216-229 | every date ends up with a bucket under its own year and month |
| GamesData.GroupBucket | lib/games-data.ts:216-229 | each bucket holds exactly the dates of its year and month and is never empty |
| GamesData.GroupDates | lib/games-data.ts:214-229 | the grouping loop builds the year-to-month-to-dates map |
| GamesData.MonthsOf | lib/games-data.ts:235-240 | one entry per month, months strictly descending, each with its bucket's dates |
| GamesData.BucketDates | lib/games-data.ts:238 | a bucket's dates, each once, strictly descending |
| GamesData.ArchiveOf | lib/games-data.ts:232-242 | one entry per year, years strictly descending, each with its months |
| GamesData.BucketContents | lib/games-data.ts:210-245 | every month of every year in the archive lists exactly the dates of that year and month, newest first, and is non-empty |
| GamesData.DateHasBucket | lib/games-data.ts:210-245 | every available date appears in the archive under its own year and month |
| GamesData.GetArchiveStructure | lib/games-data.ts:210-245 | the archive built from the game's available dates |
| GamesData.QuizDataLoader.constructor | lib/games-data.ts:115 | the module cache starts empty |
| GamesData.QuizDataLoader.LoadQuizData | lib/games-data.ts:120-146 | the first result is cached for good and later calls return it without touching the gateway; a failed first load yields the empty data set |
| QuizApi.ToYYMMDD | lib/quiz-api.ts:19-24 | for a year of two or more digits: six digits that read back as the year modulo 100, the 1-based month and the day |
| QuizApi.LocalDate | lib/quiz-api.ts:20-22 | the local getters give the calendar date whose day, counted in the machine's time zone, holds the instant |
| QuizApi.YearDigits | lib/quiz-api.ts:20 | the last two characters of a year of two or more digits are digits reading as the year modulo 100 |
| QuizApi.YmdToYYMMDD | lib/quiz-api.ts:29-31 | the result holds no hyphen |
| QuizApi.YmdToYYMMDDOfIso | lib/quiz-api.ts:29-31 | "YYYY-MM-DD" with a four-digit year becomes the last two year digits, the month and the day |
| QuizApi.GetTodayKST | lib/quiz-api.ts:36-41 | whatever the machine's time zone, the local fields of the shifted instant are the Seoul date |
| QuizApi.TodayRouteDatesAgree | lib/quiz-api.ts:19-41 | for four-digit years, the route date built from the shifted instant equals the one built from the Seoul date string (lib/date-utils.ts:11-14) |
| Calendar.UtcDate | lib/date-utils.ts:34-36 | the UTC getters of an instant give a valid calendar date whose day contains the instant |
| Calendar.CivilRoundTrip | lib/date-utils.ts:34-36 | counting days forward to a calendar date and back gives the same day, so every day has exactly one date |
| DateUtils.KstDate | lib/date-utils.ts:9-13 | the Seoul date at an instant is a valid calendar date |
| DateUtils.NowKST | lib/date-utils.ts:9-13 | the instant moved nine hours forward: its UTC day is the Seoul day holding the current instant, which begins at 15:00 UTC the day before |
| DateUtils.CurrentYearHoldsDay | lib/date-utils.ts:18-20 | currentYearKST() is the year whose days hold the current Seoul day |
| Calendar.DayInYear | lib/date-utils.ts:18-20 | a valid calendar date falls within the days of its own year |
| DateUtils.CurrentMonthKST | lib/date-utils.ts:25-27 | the Seoul month is always 1 to 12 |
| DateUtils.FormatIsoDate | lib/date-utils.ts:34-37 | the year printed as it is, a hyphen, then month and day as two digits each that read back as the given numbers |
| DateUtils.TodayKST | lib/date-utils.ts:32-38 | "Y-MM-DD" whose year part is the Seoul year printed and whose month and day read back as the Seoul month and day |
| DateUtils.MonthNameAsWrittenReadsBack | lib/date-utils.ts:55-57 | as written: the label reads back as the month up to its last three characters, which are the ones the file holds in place of "월" |
| DateUtils.MonthNameAsWrittenIsGarbled | lib/date-utils.ts:56 | the label as written never ends in "월": for March it is "3ì›”" |
| DateUtils.GetMonthNameKR | lib/date-utils.ts:55-57 | as intended: ends in "월", and the part before it reads back as the month |
| G1Page.CompactExpanded | app/games/g1/page.client.tsx:30-33 | expanding six digits to "20YY-MM-DD" and compacting again gives them back |
| G1Page.PageDateIsTodayKST | app/games/g1/page.client.tsx:25-33 | in the years 2000 to 2099, on a machine in any time zone, the expanded page date is the Seoul calendar date |
| G1Page.Century20 | app/games/g1/page.client.tsx:33 | the years 2000 to 2099 print as four digits starting with "20" |
| G1Page.QuestionId | app/games/g1/page.client.tsx:44 | never 0: the id read as a number unless that is NaN or 0, else the 1-based position |
| G1Page.NormalizeHint | app/games/g1/page.client.tsx:49 | a list kept, a non-empty string as a one-element list, an absent or empty hint absent |
| G1Page.ToQuizItem | app/games/g1/page.client.tsx:41-50 | every record field taken from the question, the options defaulting to empty |
| G1Page.ToQuizItems | app/games/g1/page.client.tsx:41-50 | one record per question, in order |
| G1Page.QuestionIdCases | app/games/g1/page.client.tsx:44 | a positive numeric id is kept, an empty one becomes the position plus one |
| G1Page.PageDate | app/games/g1/page.client.tsx:25-26 | six characters for every year from 10 on |
| G1Page.G1Page.constructor | app/games/g1/page.client.tsx:14-17 | loading, no error, no data, no date |
| G1Page.G1Page.LoadQuiz | app/games/g1/page.client.tsx:20-60 | today's date kept, the Black Swan questions of the expanded date mapped to records, loading over; the player shows exactly when that date has questions |
| ArchiveView.ShownValue | app/games/g2/archive/client-page.tsx:158 | "all" without a selection, the selected number printed otherwise |
| ArchiveView.SelectRoundTrip | app/games/g2/archive/client-page.tsx:95-109 | choosing the value a select shows gives back the selection it shows, and "all" clears it |
| ArchiveView.MonthDates | app/games/g2/archive/client-page.tsx:89-91 | one entry per date of the month, in order, carrying its year and month |
| ArchiveView.CollectDates | app/games/g2/archive/client-page.tsx:84-93 | the loop over the years lists the dates of every passing year and month, in archive order |
| ArchiveView.CollectYear | app/games/g2/archive/client-page.tsx:87-92 | the loop over one year's months lists the dates of every month that passes the month filter, in order |
| ArchiveView.CollectMonth | app/games/g2/archive/client-page.tsx:89-91 | the loop over one month lists each of its dates with that year and month, in order |
| ArchiveView.ListedPass | app/games/g2/archive/client-page.tsx:84-93 | every listed date passes the year and the month filter |
| ArchiveView.MonthsPass | app/games/g2/archive/client-page.tsx:87-92 | every date listed for a year carries that year and passes the month filter |
| ArchiveView.ListedKeepsOrder | app/games/g2/archive/client-page.tsx:84-93 | the filtered list is the unfiltered list with some dates left out, in the same order |
| ArchiveView.MonthsKeepOrder | app/games/g2/archive/client-page.tsx:87-92 | within a year, the month-filtered list keeps the unfiltered order |
| ArchiveView.ListedMembers | app/games/g2/archive/client-page.tsx:84-93 | a date is listed under the filters exactly when it is listed without them and its year and month pass |
| ArchiveView.MonthsMembers | app/games/g2/archive/client-page.tsx:87-92 | within a year, a date is listed exactly when it is listed unfiltered and its month passes |
| ArchiveView.ListedAllMembers | app/games/g2/archive/client-page.tsx:84-93 | unfiltered, an entry is listed exactly when its date is in some month of the archive and it carries that month and year |
| ArchiveView.MonthsAllMembers | app/games/g2/archive/client-page.tsx:87-92 | unfiltered, an entry of a year is listed exactly when its date is in one of its months |
| ArchiveView.ArchiveListsEveryDate | app/games/g2/archive/client-page.tsx:84-93 | for a game's archive, the unfiltered list holds exactly the game's dates, each with the year and month it names |
| ArchiveView.YearsOf | app/games/g2/archive/client-page.tsx:31 | the archive's years, in order |
| ArchiveView.ArchiveHasEveryDate | app/games/g2/archive/client-page.tsx:84-93 | some unfiltered entry carries a date exactly when it is one of the game's dates |
| ArchiveView.FindYear | app/games/g2/archive/client-page.tsx:123 | the first entry for the year, or none exactly when no entry has it |
| ArchiveView.MonthNumbers | app/games/g2/archive/client-page.tsx:123 | the month numbers of a year, in order |
| ArchiveView.AvailableMonths | app/games/g2/archive/client-page.tsx:122-124 | with a year selected, that year's months (none for an unknown year); otherwise every month of any year, once, in descending order |
| ArchiveView.OfferedMonthHasDates | app/games/g2/archive/client-page.tsx:122-124 | every month offered without a year lists at least one date when chosen |
| ArchiveView.QueryValue | app/games/g2/archive/client-page.tsx:62-72 | the selected number when the filter is on, "all" otherwise |
| ArchiveView.YearFromParam | app/games/g2/archive/client-page.tsx:33-40 | a year only for a given parameter whose number is among the known years, and then exactly that number |
| ArchiveView.MonthFromParam | app/games/g2/archive/client-page.tsx:42-49 | nothing without a parameter or for "all", its number otherwise, unchecked |
| ArchiveView.QueryRoundTrip | app/games/g2/archive/client-page.tsx:33-72 | reading back the written query gives the year when on and known and the month when on; a filter that is off comes back off |
| G2Archive.RouteDateOfIso | app/games/g2/archive/client-page.tsx:222-223 | for "YYYY-MM-DD" the route date is the compact "YYMMDD" form, and in the 2000s expanding it again gives the date back |
| G2Archive.CardFor | app/games/g2/archive/client-page.tsx:219-234 | the date's card: four questions, no tags, today's badge exactly for today, a link to the compact date |
| G2Archive.PastCard | app/games/g2/archive/client-page.tsx:219-234 | a past date's card shows "4문제" and the "기타" tag and links to the compact date |
| G2Archive.UrlYearIsDropped | app/games/g2/archive/client-page.tsx:31-39 | at first render the "year" parameter is checked against no years, so even a year the archive holds is dropped, while the loaded years would keep it |
| G2Archive.G2ArchivePage.constructor | app/games/g2/archive/client-page.tsx:18-49 | empty archive, loading, no year selected whatever the parameter, the month parameter taken unchecked |
| G2Archive.G2ArchivePage.LoadArchive | app/games/g2/archive/client-page.tsx:21-28 | the archive of the Prisoner's Dilemma dates, loading over, the filters untouched |
| G2Archive.G2ArchivePage.ApplyYearParam | app/games/g2/archive/client-page.tsx:33-40 | as intended, with no counterpart in the source (see Findings): the year parameter checked again once the years are loaded, a known year selected and anything else leaving the selection |
| G2Archive.G2ArchivePage.SyncUrl | app/games/g2/archive/client-page.tsx:61-74 | the address becomes the archive path with "year" and "month" set to the filter or "all" |
| G2Archive.G2ArchivePage.HandleYearChange | app/games/g2/archive/client-page.tsx:95-101 | "all" clears the year, any other value is parsed; nothing else changes |
| G2Archive.G2ArchivePage.HandleMonthChange | app/games/g2/archive/client-page.tsx:103-109 | "all" clears the month, any other value is parsed; nothing else changes |
| G2Archive.G2ArchivePage.ClearFilters | app/games/g2/archive/client-page.tsx:111-114 | both filters off, nothing else changes |
| G2Archive.G2ArchivePage.ListDates | app/games/g2/archive/client-page.tsx:84-93 | the dates of the archive under the current filters |
| G2Archive.ReopenedPage | app/games/g2/archive/client-page.tsx:33-74 | a page reopened on the address it wrote, with the year applied after loading, comes back with the same filters |
| G3Archive.RouteDate | app/games/g3/archive/page.tsx:269 | the date with every hyphen removed |
| G3Archive.RouteDateOfIso | app/games/g3/archive/page.tsx:269 | for "YYYY-MM-DD" the route date is the digits "YYYYMMDD" |
| G3Archive.RouteDateInjective | app/games/g3/archive/page.tsx:269 | two four-two-two digit dates with the same route date are the same date |
| G3Archive.DateTags | app/games/g3/archive/page.tsx:34-39 | the distinct non-empty tags of the date's Signal Decoding questions, each once, and no other |
| G3Archive.KeyedStep | app/games/g3/archive/page.tsx:39 | setting one date's entry extends the keys by exactly that date |
| G3Archive.CollectMonthTags | app/games/g3/archive/page.tsx:33-40 | the innermost loop keys each of the month's dates by its own tags |
| G3Archive.CollectYearTags | app/games/g3/archive/page.tsx:32-41 | the middle loop keys every date of the year's months by its own tags |
| G3Archive.CollectDateTags | app/games/g3/archive/page.tsx:30-42 | the keys are exactly the archive's dates, each holding that date's tags |
| G3Archive.G3ArchivePage.constructor | app/games/g3/archive/page.tsx:19-21 | empty archive and tags, loading, no filters, not initialised |
| G3Archive.G3ArchivePage.LoadData | app/games/g3/archive/page.tsx:23-51 | the Signal Decoding archive; a tag entry for exactly the game's dates, each with its own tags; loading over |
| G3Archive.G3ArchivePage.Initialize | app/games/g3/archive/page.tsx:61-79 | once, after the archive has loaded: a year parameter naming a loaded year selects it, a month parameter is taken unchecked |
| G3Archive.G3ArchivePage.SyncUrl | app/games/g3/archive/page.tsx:91-110 | nothing before initialisation; afterwards the address holds the filters, replaced exactly when it differed |
| G3Archive.G3ArchivePage.HandleYearChange | app/games/g3/archive/page.tsx:123-129 | "all" clears the year, any other value is parsed; nothing else changes |
| G3Archive.G3ArchivePage.HandleMonthChange | app/games/g3/archive/page.tsx:131-137 | "all" clears the month, any other value is parsed; nothing else changes |
| G3Archive.G3ArchivePage.ClearFilters | app/games/g3/archive/page.tsx:139-142 | both filters off, nothing else changes |
| G3Archive.G3ArchivePage.ListDates | app/games/g3/archive/page.tsx:112-121 | the dates of the archive under the current filters |
| G3Archive.G3ArchivePage.CardFor | app/games/g3/archive/page.tsx:262-282 | four questions, the date's tags or none, today's badge exactly for today, a link to the hyphen-free date |
| G3Archive.ReopenedPage | app/games/g3/archive/page.tsx:61-110 | a page reopened on the address it wrote comes back to the same filters once loaded and leaves the address as it is |
| G3Archive.ArchiveNonEmpty | app/games/g3/archive/page.tsx:53 | a game with at least one date has a non-empty archive |
| ArchiveCard.DisplayTags | components/games/ArchiveCard.tsx:76 | the first three tags, or all of them when there are fewer |
| ArchiveCard.RemainingCount | components/games/ArchiveCard.tsx:77 | shown plus remaining is the number of tags; remaining is positive exactly when there are more than three |
| ArchiveCard.CardMatchesSummary | components/games/ArchiveCard.tsx:76-77 | the card shows the same tags and count as the lookup layer's tag summary (lib/games-data.ts:286-294) |
| ArchiveCard.TagRow | components/games/ArchiveCard.tsx:126-139 | a single "기타" tag without tags; otherwise the shown tags in order, then "+k" when k are left over |
| ArchiveCard.TagRowAccountsForAll | components/games/ArchiveCard.tsx:126-139 | every tag of the date is accounted for, shown or counted in "+k", and "기타" appears exactly when there are none |
| ArchiveCard.Badge | components/games/ArchiveCard.tsx:102-114 | "오늘의 퀴즈" for today, otherwise the question count followed by "문제" |
| ArchiveCard.BadgeDistinguishes | components/games/ArchiveCard.tsx:102-114 | no count badge reads as today's, and different counts give different badges |
| AdminUtils.OrElse | lib/admin-utils.ts:40-41 | an absent or empty string gives the fallback, any other string is kept |
| AdminUtils.Reported | lib/admin-utils.ts:87-112 | a rule's message exactly when that rule is broken |
| AdminUtils.Issues | lib/admin-utils.ts:84-118 | at most six messages, one per broken rule |
| AdminUtils.IssuesUnfold | lib/admin-utils.ts:87-112 | the report is the six rules' messages concatenated in checking order |
| AdminUtils.IssueIffRuleFails | lib/admin-utils.ts:87-112 | a message is reported if and only if its rule is broken, whatever the other rules do |
| AdminUtils.MessagesDistinct | lib/admin-utils.ts:88-111 | the six messages are pairwise different, so a message identifies its rule |
| AdminUtils.FailedFromMembers | lib/admin-utils.ts:87-112 | the messages from rule k on hold exactly the broken rules at or after k |
| AdminUtils.ChoiceRulesExclusive | lib/admin-utils.ts:91-108 | the short-answer message never appears together with a multiple-choice message |
| AdminUtils.ValidateQuestion | lib/admin-utils.ts:84-118 | the issues are the broken rules' messages in order; the status is ok exactly when there are none, that is when every rule holds |
| AdminUtils.ChoiceIssues | lib/admin-utils.ts:91-108 | the choice checks report, in rule order, the messages of exactly the broken choice rules of the question's type |
| AdminUtils.AllRulesHold | lib/admin-utils.ts:114-117 | an empty report if and only if every rule holds |
| AdminUtils.SomeBlank | lib/admin-utils.ts:100 | true exactly when some choice is blank after trimming |
| AdminUtils.ConvertToLambdaFormat | lib/admin-utils.ts:35-79 | fields carried over; a non-empty news link defaulting to the site; options and the one-based answer for multiple choice, the first choice for short answer; the article kept exactly when one of its fields is non-empty |
| AdminUtils.ValidQuestionUploads | lib/admin-utils.ts:35-118 | a question that passes validation uploads with a non-empty answer and tags, 2 to 6 non-blank options whose answer reads back as the correct index plus one, or a non-blank short answer with no options |
| AdminUtils.Group | lib/admin-utils.ts:139-143 | a theme's questions in input order, never more than the input |
| AdminUtils.GroupMembers | lib/admin-utils.ts:139-143 | a question is in a theme's group exactly when it is an input naming that theme |
| AdminUtils.Known | lib/admin-utils.ts:139-143 | the questions of a known theme, in input order |
| AdminUtils.GroupsPartition | lib/admin-utils.ts:133-143 | the three groups together hold exactly the questions of a known theme; the others are dropped |
| AdminUtils.ConvertAll | lib/admin-utils.ts:152 | each question of a group converted, in order |
| AdminUtils.IsLocalTest | lib/admin-utils.ts:130 | local test exactly when the URL is empty or holds "your-api-gateway-url" anywhere |
| AdminUtils.PayloadFor | lib/admin-utils.ts:147-158 | a theme without questions gets no body; one with questions gets exactly one, named for it, for the date, carrying all its questions converted in order |
| AdminUtils.Payloads | lib/admin-utils.ts:147-160 | the bodies of the three themes in their fixed order; their shape is stated by PayloadsShape and PayloadsCover |
| AdminUtils.PayloadsShape | lib/admin-utils.ts:148-160 | at most three bodies, each for the given date and non-empty, with distinct theme names, each carrying exactly its theme's converted questions |
| AdminUtils.PayloadsCover | lib/admin-utils.ts:147-149 | every theme that has questions gets a body |
| AdminUtils.FirstRejected | lib/admin-utils.ts:187 | the first rejected request, with none before it, or none at all |
| AdminUtils.FirstNotOk | lib/admin-utils.ts:190-195 | the first response that is not ok, with none before it, or none at all |
| AdminUtils.FirstNotOkIs | lib/admin-utils.ts:190-195 | a failing response with only passing ones before it is the first not-ok one |
| AdminUtils.ResponseError | lib/admin-utils.ts:192-193 | a non-empty message: the body's error field, "Unknown error" for an unreadable body, or the status message |
| AdminUtils.Settle | lib/admin-utils.ts:186-200 | success exactly when every request got an ok response, and an error message exactly when it fails |
| AdminUtils.GroupByTheme | lib/admin-utils.ts:132-143 | the grouping loop leaves each game's list holding exactly the questions of that theme, in order; other themes are dropped |
| AdminUtils.AwaitAll | lib/admin-utils.ts:187-197 | the loop over the responses reaches the combined verdict |
| AdminUtils.SaveToLambda | lib/admin-utils.ts:123-202 | the local test sends nothing and succeeds; otherwise one body per non-empty theme is sent and the verdicts of their responses are combined |
| QuizEditor.Merge | app/admin/quiz/page.tsx:57-63 | a field the edit sets replaces the question's, every other field is kept; the empty edit changes nothing |
| QuizEditor.RemoveAt | components/admin/QuizEditor.tsx:26 | the element at an index in range is dropped and the others keep their order; any other index leaves the list unchanged |
| QuizEditor.AddChoice | components/admin/QuizEditor.tsx:18-22 | an empty choice appended exactly when there are fewer than six |
| QuizEditor.RemoveChoice | components/admin/QuizEditor.tsx:24-32 | exactly when there are more than two choices: the choice dropped and a correct index equal to it cleared, any other left as it was |
| QuizEditor.RemoveChoiceShifting | components/admin/QuizEditor.tsx:24-32 | the same removal, with a correct index after the removed choice moved down |
| QuizEditor.RemoveChoiceShiftingKeepsAnswer | components/admin/QuizEditor.tsx:24-32 | with the shift, the correct index still names the same choice text and stays in range, or is cleared when its own choice was removed |
| QuizEditor.RemoveChoiceLosesAnswer | components/admin/QuizEditor.tsx:24-32 | as written, removing the first of three choices with the third correct leaves index 2 over two choices, which validation accepts and uploads as answer "3" |
| QuizEditor.UpdateChoice | components/admin/QuizEditor.tsx:34-38 | only the edited position changes, and only the choices are set |
| QuizEditor.SelectCorrect | components/admin/QuizEditor.tsx:122 | the clicked choice becomes the correct index, nothing else is set |
| QuizEditor.ShortAnswerInput | components/admin/QuizEditor.tsx:153-158 | the typed answer becomes the only choice, marked correct |
| QuizEditor.ShortAnswerShown | components/admin/QuizEditor.tsx:152 | the first choice once a correct index is set, otherwise empty |
| QuizEditor.ShortAnswerRoundTrip | components/admin/QuizEditor.tsx:152-158 | typing an answer and reading the field back gives the typed text; the short-answer rule then complains exactly when it is blank |
| QuizEditor.SetArticleTitle | components/admin/QuizEditor.tsx:179-188 | the title set, snippet and URL kept (empty when there was no article) |
| QuizEditor.SetArticleSnippet | components/admin/QuizEditor.tsx:194-203 | the snippet set, title and URL kept (empty when there was no article) |
| QuizEditor.SetArticleUrl | components/admin/QuizEditor.tsx:210-219 | the URL set, title and snippet kept (empty when there was no article) |
| QuizEditor.ArticleUrlIsNewsLink | components/admin/QuizEditor.tsx:210-219 | an entered URL becomes the upload's news link and the upload carries the article |
| QuizEditor.ChoiceCountBounded | components/admin/QuizEditor.tsx:18-32 | adding and removing keep the number of choices between two and six; a removal takes exactly one |
| AdminPage.NewQuestion | app/admin/quiz/page.tsx:41-51 | the fresh question: id from the compact date and the instant, the selected date, Black Swan, multiple choice, two empty choices, no correct index, empty tags |
| AdminPage.NewQuestionIssues | app/admin/quiz/page.tsx:41-51 | a fresh question reports exactly the blank text, the missing correct index, the blank choices and the missing tags |
| AdminPage.AdminQuizPage.constructor | app/admin/quiz/page.tsx:20-23 | no question, idle, no errors, no message |
| AdminPage.AdminQuizPage.InitializeQuestion | app/admin/quiz/page.tsx:40-55 | the fresh question, errors cleared, idle; the page invariant kept |
| AdminPage.AdminQuizPage.UpdateQuestion | app/admin/quiz/page.tsx:57-64 | without a question nothing changes; otherwise the edit merged over it and the status back to idle, the errors still shown |
| AdminPage.AdminQuizPage.StartSave | app/admin/quiz/page.tsx:66-77 | an invalid question shows its issues with the error status and is not sent; a valid one moves to saving with no errors and is handed on |
| AdminPage.AdminQuizPage.FinishSave | app/admin/quiz/page.tsx:84-105 | success shows the saved status and message; failure the error status with the save's message or the generic one |
| AdminPage.AdminQuizPage.HandleSave | app/admin/quiz/page.tsx:66-106 | with no question nothing is sent and status, issues and message stay as they were; an invalid question is never sent, shows its issues in the error status and keeps the message; a valid one is sent alone for the selected date, ends saved exactly when the save reports success (always in local test mode) with the success message, and otherwise ends in error showing the save's message or "저장 실패" |
| AdminPage.AdminQuizPage.AfterSaved | app/admin/quiz/page.tsx:88-96 | idle, message cleared, and a fresh question for the same date keeping the saved question's theme |
| ReviewList.StatusOf | components/admin/ReviewList.tsx:32 | ok exactly when nothing is reported, that is when every rule holds |
| ReviewList.Filtered | components/admin/ReviewList.tsx:30-37 | no more than the input, every kept question passing both filters |
| ReviewList.FilteredIsSubsequence | components/admin/ReviewList.tsx:30-37 | the filtered list keeps the questions' order |
| ReviewList.FilteredMembers | components/admin/ReviewList.tsx:30-37 | a question is listed exactly when it is an input passing both filters |
| ReviewList.FilteredAll | components/admin/ReviewList.tsx:33-34 | with both filters on "all" the whole list is shown |
| ReviewList.CountOk | components/admin/ReviewList.tsx:41 | no more valid questions than questions |
| ReviewList.GetStats | components/admin/ReviewList.tsx:39-44 | the total is the number of questions and valid plus invalid is the total |
| ReviewList.StatsMatchFilters | components/admin/ReviewList.tsx:39-44 | the valid and invalid counts are the lengths of the "ok" and "missing" lists |
| ReviewList.ChoicePreview | components/admin/ReviewList.tsx:139-151 | the first two choices and, exactly when there are more, how many; shown plus more is the total |
| ReviewList.PreviewLine | components/admin/ReviewList.tsx:147 | the position's letter, ". ", then the choice when it is not empty |
| ReviewList.IndexOf | components/admin/ReviewList.tsx:106 | the first position holding the question, or -1 exactly when it is absent |
| ReviewList.ListedHavePositions | components/admin/ReviewList.tsx:105-116 | every listed question is shown with a real position in the full list |
| ImageLoader.Param | lib/image-loader.js:14-19 | one "name=number" pair when the value is truthy, none otherwise |
| ImageLoader.QueryString | lib/image-loader.js:13-19 | empty exactly when neither width nor quality is truthy; never contains "?" |
| ImageLoader.CloudFrontLoader | lib/image-loader.js:6-22 | an address not starting with "/" is returned as it is; a site path gets "?" and the query when there is one; the result always starts with the source |
| ImageLoader.LoaderRoundTrip | lib/image-loader.js:6-22 | reading the address back gives the path before "?", and the "w" and "q" parameters give the width and quality exactly when they were truthy |
| ImageLoader.PairsRead | lib/image-loader.js:13-19 | each key read back from the appended pairs is the value it was given, or missing |
| ChatbotApi.Failure | lib/chatbot-api.ts:23-37 | nothing is thrown exactly when an ok reply with a readable body arrived |
| ChatbotApi.GameContext | lib/chatbot-api.ts:43-47 | the point-of-view phrase of each of the three games |
| ChatbotApi.FallbackText | lib/chatbot-api.ts:50 | the question in double quotes at the start, followed by the rest of the message |
| ChatbotApi.Fallback | lib/chatbot-api.ts:49-55 | not successful, zero knowledge sources, the given time stamp, the fallback text, and the thrown message or "알 수 없는 오류" as the error |
| ChatbotApi.SendChatbotMessage | lib/chatbot-api.ts:22-57 | an ok reply's parsed body unchanged; a failed request, a failing status or an unreadable body answered with the fallback carrying that error |
| ChatbotApi.NonOkIsNetworkError | lib/chatbot-api.ts:32-34 | a failing status is answered as a failed request with the same error, whatever the body, and the status can be read back from the message |
| LambdaEvents.Refusal | backend/lambda/chatbot-handler.py:37-45 | a reply with the given status whose body reports failure with the error message and no response |
| LambdaEvents.Answer | backend/lambda/chatbot-handler.py:58-66 | a 200 reply whose body reports success with the response and time stamp and no error |
| EnhancedChatbot.MeaningfulWords | backend/lambda/enhanced-chatbot-handler.py:203-204 | every word kept is longer than two characters and holds no whitespace |
| EnhancedChatbot.GameKeywords | backend/lambda/enhanced-chatbot-handler.py:208-215 | no terms exactly for a game name outside the three |
| EnhancedChatbot.Keywords | backend/lambda/enhanced-chatbot-handler.py:200-220 | the words, then the game terms, then "경제" and "금융", cut to five |
| EnhancedChatbot.SearchTokens | backend/lambda/enhanced-chatbot-handler.py:195-220 | between two and five words, starting with up to three meaningful words of the question |
| EnhancedChatbot.KeywordsAreWords | backend/lambda/enhanced-chatbot-handler.py:200-220 | the keywords built from words are words |
| EnhancedChatbot.GameTerms | backend/lambda/enhanced-chatbot-handler.py:208-215 | a known game contributes two terms, an unknown one none; none of them is an economy term |
| EnhancedChatbot.ExtractSearchKeywords | backend/lambda/enhanced-chatbot-handler.py:195-220 | splitting the keyword string at its spaces gives back the two to five search keywords |
| EnhancedChatbot.EconomyTermsDropped | backend/lambda/enhanced-chatbot-handler.py:205-220 | "경제" is cut exactly when three meaningful words and a known game precede it; "금융" already when two words and a known game do |
| EnhancedChatbot.WordsAreNotEconomyTerms | backend/lambda/enhanced-chatbot-handler.py:204 | no meaningful word is an economy term, which are only two characters long |
| EnhancedChatbot.KeywordsPlaceEconomyTerms | backend/lambda/enhanced-chatbot-handler.py:218-220 | an economy term survives the cut exactly when its place is below five |
| EnhancedChatbot.BuildRagKnowledgeBase | backend/lambda/enhanced-chatbot-handler.py:91-137 | the news source when the search found something, then the article source when a URL was given, then the quiz context when there is question text, and a summary naming the count |
| EnhancedChatbot.SummaryCountsSources | backend/lambda/enhanced-chatbot-handler.py:134-135 | the summary reads back as the number of sources, which is at most three |
| EnhancedChatbot.SourcePart | backend/lambda/enhanced-chatbot-handler.py:361-373 | a heading opened by the type's sign, ending with the source's content |
| EnhancedChatbot.RagParts | backend/lambda/enhanced-chatbot-handler.py:361-373 | one part per source, numbered from 1, in order |
| EnhancedChatbot.BuildRagContext | backend/lambda/enhanced-chatbot-handler.py:352-375 | the loop gathers the parts into the context |
| EnhancedChatbot.RagContextShowsEverySource | backend/lambda/enhanced-chatbot-handler.py:352-375 | the "no external knowledge" sentence exactly when there are no sources, and every source's content appears in the context |
| EnhancedChatbot.GetGameDescription | backend/lambda/enhanced-chatbot-handler.py:377-386 | each game's description, "경제 뉴스 분석" for any other name |
| EnhancedChatbot.GenerateFallbackResponse | backend/lambda/enhanced-chatbot-handler.py:388-403 | the question in single quotes at the start and the follow-up invitation at the end |
| EnhancedChatbot.GenerateClaudeRagResponse | backend/lambda/enhanced-chatbot-handler.py:261-350 | the first text block of the model's reply, or the fallback when it is empty or the call fails |
| EnhancedChatbot.Handler | backend/lambda/enhanced-chatbot-handler.py:12-89 | a missing method raises; preflight gets 200; a missing or unreadable body 500; an empty question 400; otherwise 200 with the answer and at most three knowledge sources; success exactly when the status is 200 |
| ChatbotHandler.FoundKeywords | backend/lambda/chatbot-handler.py:131-140 | exactly the listed economic terms that occur in the text, in list order |
| ChatbotHandler.LongWords | backend/lambda/chatbot-handler.py:144-145 | a subsequence of the words of the text, order kept, whose members are exactly its words longer than one character |
| ChatbotHandler.LongWordsCounts | backend/lambda/chatbot-handler.py:144-145 | a word longer than one character is kept as often as it occurs among the words of the text; a shorter one never is |
| ChatbotHandler.KeywordTokens | backend/lambda/chatbot-handler.py:137-147 | at most three: the first found terms, or when none is found the first long words |
| ChatbotHandler.ExtractKeywords | backend/lambda/chatbot-handler.py:123-147 | the loop over the term list yields the tokens joined by spaces |
| ChatbotHandler.CombinedText | backend/lambda/chatbot-handler.py:128 | the question and the quiz question both stand whole in the searched text, separated by one space |
| ChatbotHandler.CollectFound | backend/lambda/chatbot-handler.py:131-140 | the loop over the economic term list keeps exactly the terms found in the text, in list order |
| ChatbotHandler.CollectOccurring | backend/lambda/chatbot-handler.py:137-140 | the loop keeps exactly the terms that occur in the text, in their order |
| ChatbotHandler.KeywordsMeaning | backend/lambda/chatbot-handler.py:123-147 | the tokens are listed terms occurring in the text, in list order, or long words of the text; splitting the string at spaces gives them back |
| ChatbotHandler.EconomicKeywordsAreWords | backend/lambda/chatbot-handler.py:131-135 | the listed terms are non-empty and hold no whitespace |
| ChatbotHandler.AiContext | backend/lambda/chatbot-handler.py:154-160 | each game's context phrase, "경제 뉴스" for any other name |
| ChatbotHandler.ArticleBlock | backend/lambda/chatbot-handler.py:170-173 | the block holds at most 200 characters of the content followed by "..." |
| ChatbotHandler.GenerateAiResponse | backend/lambda/chatbot-handler.py:149-184 | the loop builds the news answer over the first two articles, or the default answer without articles |
| ChatbotHandler.BlocksGrow | backend/lambda/chatbot-handler.py:170-173 | appending one more article appends its block |
| ChatbotHandler.AiResponse | backend/lambda/chatbot-handler.py:149-184 | with news: the heading, the first article's block, the second's when there is one, and the closing, later articles never appearing; without news the answer without news |
| ChatbotHandler.Handler | backend/lambda/chatbot-handler.py:7-77 | a missing method raises; preflight gets 200; a missing or unreadable body 500; an empty question 400; otherwise 200 with the answer built from the search for the extracted keywords |
| HttpHandler.Explanation | backend/lambda/http-handler.py:84-126 | each game's fixed explanation, the generic one for any other name |
| HttpHandler.AfterQuestion | backend/lambda/http-handler.py:129-137 | each game's text after the quoted question, the generic one for any other name |
| HttpHandler.AsksForExplanation | backend/lambda/http-handler.py:83 | the question asks for an explanation exactly when it contains one of the four markers 정답, 이해, 헷갈, 모르겠 |
| HttpHandler.GenerateResponse | backend/lambda/http-handler.py:77-137 | the explanation when the question contains 정답, 이해, 헷갈 or 모르겠; otherwise the quoted question and the game's text |
| HttpHandler.GenerateResponseReadBack | backend/lambda/http-handler.py:77-137 | a plain question can be read back from between the first two quotes; any two questions asking for an explanation get the same answer |
| HttpHandler.Handler | backend/lambda/http-handler.py:9-75 | preflight via the request context gets 200; a missing body reads as "{}"; an unreadable body 500 with the parse message; an empty question 400; otherwise 200 with the response |
| TestHandler.Explanation | backend/lambda/test-handler.py:83-88 | Black Swan and Prisoner's Dilemma get their own text, every other game the generic one |
| TestHandler.AfterQuestion | backend/lambda/test-handler.py:91-99 | each game's text after the quoted question, the generic one for any other name |
| TestHandler.AsksForExplanation | backend/lambda/test-handler.py:82 | a question this handler explains (both 정답 and 이해) is one the other handler explains too |
| TestHandler.GenerateSimpleResponse | backend/lambda/test-handler.py:77-99 | the explanation only when the question contains both 정답 and 이해; otherwise the quoted question and the game's text |
| TestHandler.GenerateSimpleResponseReadBack | backend/lambda/test-handler.py:77-99 | a plain question reads back from between the quotes; this handler explains only when the other one does, and a question with 정답 but not 이해 is explained there but quoted here |
| TestHandler.Handler | backend/lambda/test-handler.py:9-75 | preflight via httpMethod gets 200; a missing body reads as "{}"; an unreadable body 500 with the parse message; an empty question 400; otherwise 200 with the response |
| TestHandler.HandlersAgreeOnStatus | backend/lambda/test-handler.py:32-75 | away from preflight both handlers answer the same request with the same status and error |

## Left out

- Rendering, styling, animation, scroll-to-top and scroll listeners, and focus handling are not modelled. They change nothing the handlers compute.
- AdminPage.AdminQuizPage.FinishSave requires the page to be saving, so the model runs one save at a time: an edit of the question (app/admin/quiz/page.tsx:57-64) or a second click on save while an upload is in flight is not interleaved with it.
- Timers are not modelled. The admin page's two-second reset after a save is the separate method `AdminPage.AdminQuizPage.AfterSaved`.
- The password modal and the sessionStorage login of the admin page are not modelled.
- Floating-point percentages are left out. `Math.round` of a percentage is taken on integers, so the badge thresholds and percentages are exact integer comparisons.
- Daylight-saving time is left out. KST has a fixed +9 hour offset, and the clock is always a `now` (milliseconds since the epoch) or `fetchedAt` parameter.
- Locale rendering (`toLocaleDateString`, `formatDateKR`) is left out. date-fns formatting is represented by the date strings it yields.
- URL percent-encoding in `URLSearchParams` is not modelled. Parameter values are taken as plain strings.
- The router and browser history are not modelled. Each is a `location` field holding the current query.
- `JSON.parse` and `json.loads` are not modelled. Their result is an input: `None` for text that does not parse, `Some` of the parsed value otherwise.
- `NaN` is modelled as `None`.
- An API item of the wrong shape is left out. Items are taken as well-typed records.
- An undefined list is treated as empty.
- Fields of a question that no operation reads are dropped.
- Real network calls are not modelled: `fetch`, the Lambda save endpoint, the BigKinds search, and the Bedrock model call with its prompts. Each becomes an input: the fetch outcome, the search results (`None` or empty when the key is missing or the call fails) and the model's `reply`.
- CORS headers are not modelled, and neither are the logging and `print` calls of the Lambda handlers.
- The chatbot request body is modelled as absent-or-string fields. A field that is null or not a string is left out.
- The `except` branch of `fetch_quiz_article_knowledge` is not modelled, because nothing in its `try` block can raise.
- The catch of `loadData` in the g3 archive page is not modelled, because the lookups it guards cannot throw.
- The `question_index` field of the chatbot request is unused by every handler, so it is left out.
- Whitespace means ASCII whitespace, and lower-casing means ASCII A–Z only.
- backend/lambda/simple-chatbot-handler.py is not part of this model.
- GamesData.GetArchiveStructure requires every available date's year and month fields to be digit strings, so that `Number()` of each is defined. Malformed dates (which would give `NaN` buckets) are not modelled.
- G1Page.PageDateIsTodayKST holds only for years 2000–2099, because the page's six-digit route date drops the century.
- G1Page.G1Page.LoadQuiz never sets the error state, because the lookup it calls cannot throw.
- Text.ParseInt: skips leading ASCII whitespace and reads an optional sign and the decimal digits after it; the "0x" prefix and whitespace outside ASCII that `Number.parseInt` also accepts are not modelled.
- ReviewList.IndexOf finds a question by value, where `indexOf` compares object references. The two agree when the list holds no equal duplicates.
- QuizEditor.UpdateChoice requires the index to be within the list. The editor only calls it for rendered choices.
- AdminUtils.SaveToLambda reports the first failed upload in request order, where `Promise.all` rejects with the one that fails first in time. It also leaves out the unknown-error message for a thrown non-`Error` value, which no upload can produce.
- AdminUtils.AwaitAll settles the uploads in request order, for the same reason as `AdminUtils.SaveToLambda`.
- ChatbotHandler.GenerateAiResponse collects the article blocks before putting the heading in front. The resulting string is the one the source builds by appending to the heading.
- Image widths and qualities are integers only.
- AdminUtils.GroupByTheme skips every theme other than the three games. In the source, a theme naming a property that every JavaScript object inherits ("constructor", "toString", "valueOf", "__proto__", …) finds that property in `questionsByTheme`, and calling its `push` throws a TypeError. The catch at lib/admin-utils.ts:198-200 then makes `saveToLambda` report failure before any upload is sent. This path is not modelled, because its message is the JavaScript engine's.
- QuizStorage.WriteProgress and QuizStorage.ProgressStore.SaveQuizProgress take every write as succeeding. A `localStorage.setItem` that throws (quota exceeded, storage disabled) is caught and logged at lib/quiz-storage.ts:39-41 and leaves storage unchanged; that path is not modelled.

One consequence of `extract_search_keywords` in the enhanced chatbot handler is stated, though it is not a bug: the
economy term "금융" is already dropped once two meaningful words and a known game are present, while
"경제" needs three (`EnhancedChatbot.EconomyTermsDropped`).

## Findings

| source | as written | input that shows it | evidently intended | confidence | as-written member | corrected member |
|---|---|---|---|---|---|---|
| components/games/QuizPlayer.tsx:87-94 | on the last question the saved and displayed final score is `score + 1` when the last answer was exactly right, but `score` already counted that answer | a one-question quiz answered correctly saves score 2 out of 1 | the final score is the running score, at most the number of questions | not executed | SequentialPlayer.OverCountExample | SequentialPlayer.IntendedCountExample |
| components/admin/QuizEditor.tsx:24-32 | removing a choice keeps `correct_index` unchanged, so after removing a choice before the correct one the index names the choice after it, or none | choices a, b, c with c correct; removing a leaves index 2 over the two choices b, c, validation reports no issue, and the upload answer is "3" | the mark stays on the same choice text, shifting down by one when an earlier choice is removed | not executed | QuizEditor.RemoveChoiceLosesAnswer | QuizEditor.RemoveChoiceShiftingKeepsAnswer |
| lib/date-utils.ts:55-57 | getMonthNameKR appends the mis-decoded suffix "ì›”" | month 3 gives "3ì›”" | "3월" | not executed | DateUtils.MonthNameAsWrittenIsGarbled | DateUtils.GetMonthNameKR |
| app/games/g2/archive/client-page.tsx:31-39 | the URL year is checked against the list of archive years while that list is still empty at first render, so it is never accepted | `?year=2025` with 2025 in the archive selects no year | the URL year is selected whenever the archive has it | not executed | G2Archive.UrlYearIsDropped | G2Archive.ReopenedPage |
