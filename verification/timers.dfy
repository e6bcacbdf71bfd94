/** The exam timers of `handlers/exam_handler.py` across handlers: what a
    timer that outlives its exam does. */
module Timers {
  import opened Wrappers
  import opened Entities
  import opened Effects
  import Quiz
  import Exam
  import Commands

  /** An exam is started, `/start` is sent, and a practice quiz is
      started; then the exam's twenty minutes run out. `/start` clears the
      exam session without touching the timer, so the timer is still in
      force when it wakes. As written, it runs the timed-out exam end over
      the practice session: the quiz's question and poll are deleted and
      the timer entry popped, and the handler then raises `AttributeError`
      at the summary, which its query has no bot to send. The practice
      quiz is left without its messages, and no score is kept. With the
      corrected timeout the wake-up does nothing to the quiz. */
  method StaleTimer(u: User, bank: seq<Question>, themes: seq<int>, theme: int, shuffle: bool,
                    now: int, nextTimer: nat, qMsg: int, pMsg: int, sMsg: int)
    returns (quizStarted: Step, asWritten: Step, corrected: Step)
    ensures var t := Timer(nextTimer, now + Exam.ExamDuration);
            quizStarted.w.task == Some(t) ==>
              && quizStarted.w.st.session.Some?
              && var s := quizStarted.w.st.session.value;
              && s.themeId == Some(theme)
              && asWritten.fault == Some(AttributeError)
              && asWritten.effects == Deletes(Present(ShownMsgs(s)))
              && asWritten.w.st.user == quizStarted.w.st.user
              && asWritten.w.st.user.examBest == u.examBest
              && asWritten.w.task.None?
              && corrected == Step(quizStarted.w.(live := quizStarted.w.live - {t}), [], None)
  {
    var t := Timer(nextTimer, now + Exam.ExamDuration);
    var examStarted := Exam.InitExam(World(Store(u, None), None, {}, nextTimer), bank, themes, now, qMsg, pMsg);
    var restarted := Commands.Start(examStarted.w);
    quizStarted := Quiz.InitQuiz(restarted.w, bank, theme, shuffle, qMsg, pMsg);
    asWritten := Exam.TimeoutAsWritten(quizStarted.w, t, t.deadline, sMsg);
    corrected := Exam.Timeout(quizStarted.w, t, t.deadline, sMsg);
    if quizStarted.w.task == Some(t) {
      StaleTimerEndsPractice(quizStarted.w, t, sMsg);
      assert quizStarted.w.st.user.examBest == u.examBest;
    }
  }

  /** Any practice session with fewer than 35 answers, while an exam timer
      is still in force, loses its shown messages and the timer entry to
      that timer as written, which then raises; the corrected timeout
      spares it. */
  lemma StaleTimerEndsPractice(w: World, t: Timer, sMsg: int)
    requires w.task == Some(t) && t in w.live
    requires w.st.session.Some? && w.st.session.value.themeId.Some?
    requires w.st.session.value.progress < ExamSize
    ensures var s := w.st.session.value;
            var r := Exam.TimeoutAsWritten(w, t, t.deadline, sMsg);
            && r.fault == Some(AttributeError) && r.w.task.None?
            && r.effects == Deletes(Present(ShownMsgs(s)))
            && r.w.st.user == w.st.user
            && r.w.st.session.Some? && r.w.st.session.value.curQMsg.None? && r.w.st.session.value.curPMsg.None?
    ensures Exam.Timeout(w, t, t.deadline, sMsg) == Step(w.(live := w.live - {t}), [], None)
  {
  }
}
