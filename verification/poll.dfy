/** `handlers/poll_handler.py`: judging an answer to the quiz poll and
    choosing the button that leads on. */
module Poll {
  import opened Wrappers
  import opened Builtins
  import Utility
  import opened Entities
  import opened Effects

  /** The callback carried by the button under the feedback message. */
  datatype NextCallback = QuizNext | QuizEnd | ExamNext | ExamEnd

  /** What the feedback message says: the verdict, the button, whether
      the button reads "next" (rather than "finish"), and the correct
      letters it shows on a wrong answer. */
  datatype Feedback = Feedback(correct: bool, next: NextCallback, forward: bool, expected: string)

  /** A handled answer: the rows after it, the edits made before the
      feedback is sent, and the feedback. */
  datatype Answered = Answered(st: Store, edits: seq<Effect>, feedback: Feedback)

  /** A practice session leads back to the quiz, an exam session to the
      exam; the last question leads to the end callback. */
  function ChooseNext(s: Session, total: int): (c: NextCallback)
    ensures (c == QuizNext || c == QuizEnd) <==> s.themeId.Some?
    ensures (c == QuizEnd || c == ExamEnd) <==> s.progress >= total - 1
  {
    if s.themeId.Some? then
      if s.progress < total - 1 then QuizNext else QuizEnd
    else
      if s.progress < total - 1 then ExamNext else ExamEnd
  }

  /** The letters the user ticked, as `parse_answers_from_poll` reads them
      off the parsed options. */
  function Selection(q: Question, optionIds: seq<int>): (r: Result<string>)
    ensures r.Ok? <==> Utility.ParseAnswersFromQuestion(q.answers).Ok?
  {
    var answers :- Utility.ParseAnswersFromQuestion(q.answers);
    Ok(Utility.ParseAnswersFromPoll(answers, optionIds))
  }

  /** `on_poll_answer`. `aMsg` is the id Telegram gives the feedback
      message. There is no guard: with no session, an index outside the
      queue, a missing question row or unparseable options the handler
      raises before changing anything. Once the answer is read, the hint
      button is taken off the question message, so that it cannot reveal
      the letters of the question that comes next; without a question
      message id Telegram refuses the edit and the refusal is swallowed. */
  function OnPollAnswer(st: Store, bank: seq<Question>, optionIds: seq<int>, aMsg: int)
    : (r: Result<Answered>)
    ensures st.session.None? ==> r == Raise(AttributeError)
    ensures r.Ok? <==> CurrentQuestion(st, bank).Ok? && Selection(CurrentQuestion(st, bank).value, optionIds).Ok?
    ensures r.Ok? ==>
      var s, q := st.session.value, CurrentQuestion(st, bank).value;
      var st', fb := r.value.st, r.value.feedback;
      && (s.curQMsg.Some? ==> r.value.edits == [SetHintButton(s.curQMsg.value, false)])
      && (s.curQMsg.None? ==> r.value.edits == [])
      && st'.user == st.user && st'.session.Some?
      && var s' := st'.session.value;
      && s'.progress == s.progress + 1
      && (fb.correct ==> s'.incorrectQuestions == s.incorrectQuestions)
      && (!fb.correct ==> s'.incorrectQuestions == s.incorrectQuestions + [q.id])
      && fb.correct == (Selection(q, optionIds).value == fb.expected)
      && multiset(fb.expected) == multiset(q.correctAnswer) && SortedChars(fb.expected)
      && fb.next == ChooseNext(s, |s.questionsQueue|)
      && fb.forward == (s.progress < |s.questionsQueue| - 1)
      && MsgOf(s', ASlot) == Some(aMsg)
      && MsgOf(s', QSlot) == s.curQMsg && MsgOf(s', PSlot) == s.curPMsg && MsgOf(s', SSlot) == s.curSMsg
      && s'.questionsQueue == s.questionsQueue && s'.questionsTotal == s.questionsTotal
      && s'.hints == s.hints && s'.hintsTotal == s.hintsTotal && s'.themeId == s.themeId
  {
    var q :- CurrentQuestion(st, bank);
    var selected :- Selection(q, optionIds);
    var s := st.session.value;
    var total := |s.questionsQueue|;
    var expected := SortString(q.correctAnswer);
    var fb := Feedback(selected == expected, ChooseNext(s, total), s.progress < total - 1, expected);
    var judged := if fb.correct then st else AppendIncorrects(st, q.id).value;
    var saved := SaveMsgId(judged, Some(aMsg), ASlot);
    var st' := IncreaseProgress(saved).value;
    var edits := if s.curQMsg.Some? then [SetHintButton(s.curQMsg.value, false)] else [];
    Ok(Answered(st', edits, fb))
  }

  /** The verdict ignores the order of the letters of the stored answer:
      an answer is right exactly when the ticked letters are, as a
      multiset, the letters of the stored correct answer. */
  lemma VerdictIsLetterMultiset(st: Store, bank: seq<Question>, optionIds: seq<int>, aMsg: int)
    requires OnPollAnswer(st, bank, optionIds, aMsg).Ok?
    ensures var q := CurrentQuestion(st, bank).value;
            var verdict := OnPollAnswer(st, bank, optionIds, aMsg).value.feedback.correct;
            verdict <==> multiset(Selection(q, optionIds).value) == multiset(q.correctAnswer)
  {
    var q := CurrentQuestion(st, bank).value;
    var answers := Utility.ParseAnswersFromQuestion(q.answers).value;
    var selected := Selection(q, optionIds).value;
    Utility.PollSelectionSorted(answers, optionIds);
    SortSorted(selected);
    SortStringEqIff(selected, q.correctAnswer);
  }

  /** Every handled answer moves exactly one step and records at most one
      mistake, so `progress - |incorrect|` (the exam score) never drops. */
  lemma AnswerKeepsScore(st: Store, bank: seq<Question>, optionIds: seq<int>, aMsg: int)
    requires OnPollAnswer(st, bank, optionIds, aMsg).Ok?
    ensures var s, s' := st.session.value, OnPollAnswer(st, bank, optionIds, aMsg).value.st.session.value;
            var delta := (s'.progress - |s'.incorrectQuestions|) - (s.progress - |s.incorrectQuestions|);
            delta == (if OnPollAnswer(st, bank, optionIds, aMsg).value.feedback.correct then 1 else 0)
  {
  }
}
