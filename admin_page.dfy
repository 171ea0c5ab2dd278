/** The question authoring page (app/admin/quiz/page.tsx): one question being edited, and
    its save status stepping through idle, saving, saved and error. */
module AdminPage {
  import opened Wrappers
  import opened Text
  import opened QuizModel
  import opened AdminUtils
  import opened QuizEditor

  datatype SaveStatus = Idle | Saving | Saved | Error

  const SAVED_MESSAGE: string := "문제가 성공적으로 추가되었습니다!"

  /** The question `initializeQuestion` starts from, for a date written both as
      "yyyyMMdd" and "yyyy-MM-dd" and the creation instant. */
  function NewQuestion(compactDate: string, isoDate: string, now: int): (q: QuizQuestion)
    ensures q.id == compactDate + "-BS-" + IntToString(now) && q.date == isoDate
    ensures q.theme == "BlackSwan" && q.questionType == MultipleChoice
    ensures q.questionText == "" && q.choices == ["", ""] && q.correctIndex == None
    ensures q.creator == "" && q.tags == Some("")
    ensures q.explanation == None && q.relatedArticle == None
  {
    QuizQuestion(compactDate + "-BS-" + IntToString(now), isoDate, "BlackSwan", MultipleChoice,
      "", ["", ""], None, None, None, "", Some(""))
  }

  /** A fresh question is not yet savable: its text, its two choices, its correct index
      and its tags are all reported. */
  lemma NewQuestionIssues(compactDate: string, isoDate: string, now: int)
    ensures Issues(NewQuestion(compactDate, isoDate, now)) == [MESSAGES[0], MESSAGES[2], MESSAGES[3], MESSAGES[5]]
  {
    var q := NewQuestion(compactDate, isoDate, now);
    assert IsBlank(q.choices[0]);
    IssuesUnfold(q);
  }

  class AdminQuizPage {
    var question: Option<QuizQuestion>
    var saveStatus: SaveStatus
    var validationErrors: seq<string>
    var saveMessage: string

    /** An error always comes with something to show, a save in progress or done shows
        none, and there is a question whenever the status is not idle. */
    ghost predicate Valid()
      reads this
    {
      && (saveStatus == Error ==> |validationErrors| > 0)
      && (saveStatus == Saving || saveStatus == Saved ==> validationErrors == [])
      && (saveStatus != Idle ==> question.Some?)
    }

    constructor ()
      ensures Valid() && question == None && saveStatus == Idle && validationErrors == [] && saveMessage == ""
    {
      question := None;
      saveStatus := Idle;
      validationErrors := [];
      saveMessage := "";
    }

    /** `initializeQuestion()`: a fresh question, no errors, idle. */
    method InitializeQuestion(compactDate: string, isoDate: string, now: int)
      requires Valid()
      modifies this
      ensures Valid()
      ensures question == Some(NewQuestion(compactDate, isoDate, now))
      ensures validationErrors == [] && saveStatus == Idle && saveMessage == old(saveMessage)
    {
      question := Some(NewQuestion(compactDate, isoDate, now));
      validationErrors := [];
      saveStatus := Idle;
    }

    /** `updateQuestion(updates)`: without a question nothing happens; otherwise the
        update is merged over it and the status returns to idle, the errors staying shown. */
    method UpdateQuestion(p: Patch)
      requires Valid()
      modifies this
      ensures Valid()
      ensures old(question).None? ==> question == old(question) && saveStatus == old(saveStatus)
      ensures old(question).Some? ==> question == Some(Merge(old(question).value, p)) && saveStatus == Idle
      ensures validationErrors == old(validationErrors) && saveMessage == old(saveMessage)
    {
      if question.None? {
        return;
      }
      question := Some(Merge(question.value, p));
      saveStatus := Idle;
    }

    /** The synchronous part of `handleSave`: without a question nothing happens; an
        invalid question shows its issues with the error status and is not sent; a valid
        one moves to saving with the errors cleared and is returned to be sent. */
    method StartSave() returns (toSend: Option<QuizQuestion>)
      requires Valid()
      modifies this
      ensures Valid()
      ensures old(question).None? ==> toSend == None && saveStatus == old(saveStatus) && validationErrors == old(validationErrors)
      ensures old(question).Some? && Issues(old(question).value) != [] ==>
        toSend == None && saveStatus == Error && validationErrors == Issues(old(question).value)
      ensures old(question).Some? && Issues(old(question).value) == [] ==>
        toSend == old(question) && saveStatus == Saving && validationErrors == []
      ensures question == old(question) && saveMessage == old(saveMessage)
    {
      if question.None? {
        return None;
      }
      var result := ValidateQuestion(question.value);
      if result.status == Missing {
        validationErrors := result.issues;
        saveStatus := Error;
        return None;
      }
      saveStatus := Saving;
      validationErrors := [];
      toSend := question;
    }

    /** The continuation of `handleSave` once the save call answers: success shows the
        saved status and message; failure shows the error status with the one message the
        save gave, or a generic one. */
    method FinishSave(result: SaveResult)
      requires Valid() && saveStatus == Saving
      modifies this
      ensures Valid()
      ensures result.success ==> saveStatus == Saved && saveMessage == SAVED_MESSAGE && validationErrors == []
      ensures !result.success ==>
        && saveStatus == Error && saveMessage == old(saveMessage)
        && validationErrors == [OrElse(result.error, "저장 실패")]
      ensures question == old(question)
    {
      if result.success {
        saveStatus := Saved;
        saveMessage := SAVED_MESSAGE;
      } else {
        saveStatus := Error;
        validationErrors := [OrElse(result.error, "저장 실패")];
      }
    }

    /** `handleSave()` with the save call made through `SaveToLambda`, `send` standing for
        the network: an invalid question never reaches it; a valid one is sent alone for the
        selected date, and the status, message and errors shown follow what the save
        reports. */
    method HandleSave(isoDate: string, apiUrl: string, send: Payload -> FetchResult) returns (sent: seq<Payload>)
      requires Valid()
      modifies this
      ensures Valid()
      ensures old(question).None? ==>
        && sent == [] && saveStatus == old(saveStatus)
        && validationErrors == old(validationErrors) && saveMessage == old(saveMessage)
      ensures old(question).Some? && Issues(old(question).value) != [] ==>
        && sent == [] && saveStatus == Error && validationErrors == Issues(old(question).value)
        && saveMessage == old(saveMessage)
      ensures old(question).Some? && Issues(old(question).value) == [] ==>
        && sent == (if IsLocalTest(apiUrl) then [] else Payloads([old(question).value], isoDate))
        && (IsLocalTest(apiUrl) ==> saveStatus == Saved)
      ensures old(question).Some? && Issues(old(question).value) == [] ==>
        var res := if IsLocalTest(apiUrl) then SaveResult(true, None)
          else Settle(seq(|sent|, i requires 0 <= i < |sent| => send(sent[i])));
        && saveStatus == (if res.success then Saved else Error)
        && (res.success ==> saveMessage == SAVED_MESSAGE && validationErrors == [])
        && (!res.success ==> saveMessage == old(saveMessage) && validationErrors == [OrElse(res.error, "저장 실패")])
      ensures question == old(question)
    {
      var toSend := StartSave();
      if toSend.None? {
        return [];
      }
      var result;
      result, sent := SaveToLambda([toSend.value], isoDate, apiUrl, send);
      FinishSave(result);
    }

    /** Two seconds after a success: idle again, the message cleared, and a fresh question
        for the same date that keeps the theme of the one just saved. */
    method AfterSaved(savedTheme: string, compactDate: string, isoDate: string, now: int)
      requires Valid()
      modifies this
      ensures Valid()
      ensures saveStatus == Idle && saveMessage == "" && validationErrors == []
      ensures question == Some(NewQuestion(compactDate, isoDate, now).(theme := savedTheme))
    {
      saveStatus := Idle;
      saveMessage := "";
      InitializeQuestion(compactDate, isoDate, now);
      question := Some(question.value.(theme := savedTheme));
    }
  }
}
