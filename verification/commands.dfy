/** `handlers/commands_handler.py`: the `/start`, `/exam`, `/restart`,
    `/heal` and `/change_hints_policy` commands. */
module Commands {
  import opened Wrappers
  import opened Builtins
  import opened Entities
  import opened Effects
  import Quiz
  import Exam

  /** `clear_session` as a step: the session's messages are deleted and its
      row removed. The timer registry is not consulted. */
  function Clear(w: World): (r: Step)
    ensures TimersKept(w, r.w) && r.fault.None?
    ensures r.w.st == Store(w.st.user, None)
    ensures forall e :: e in r.effects ==> e.Delete?
    ensures w.st.session.None? ==> r.effects == []
    ensures w.st.session.Some? ==>
              forall id :: Delete(id) in r.effects <==> id != 0 && Some(id) in MsgsOf(w.st.session.value)
  {
    var (st', ids) := ClearSession(w.st);
    DeletesExactly(ids);
    Step(w.(st := st'), Deletes(ids), None)
  }

  /** `/start`: clear the session, greet. */
  function Start(w: World): (r: Step)
    ensures TimersKept(w, r.w) && r.fault.None?
    ensures r.w.st == Store(w.st.user, None)
    ensures |r.effects| >= 1 && r.effects[|r.effects| - 1] == SendNotice(StartGreeting)
    ensures r.effects[..|r.effects| - 1] == Clear(w).effects
  {
    var cleared := Clear(w);
    Step(cleared.w, cleared.effects + [SendNotice(StartGreeting)], None)
  }

  /** `/exam`: clear the session, invite to the exam with the best score so
      far. */
  function ExamCommand(w: World): (r: Step)
    ensures TimersKept(w, r.w) && r.fault.None?
    ensures r.w.st == Store(w.st.user, None)
    ensures |r.effects| >= 1 && r.effects[|r.effects| - 1] == SendNotice(ExamInvite(w.st.user.examBest))
    ensures r.effects[..|r.effects| - 1] == Clear(w).effects
  {
    var cleared := Clear(w);
    Step(cleared.w, cleared.effects + [SendNotice(ExamInvite(cleared.w.st.user.examBest))], None)
  }

  /** `/restart`: pop and cancel the timer entry if there is one, clear the
      session, list the sections. */
  function Restart(w: World): (r: Step)
    ensures r.fault.None? && r.w.nextTimer == w.nextTimer
    ensures r.w.st == Store(w.st.user, None)
    ensures r.w.task.None?
    ensures w.task.None? ==> r.w.live == w.live
    ensures w.task.Some? ==> r.w.live == w.live - {w.task.value}
    ensures |r.effects| >= 1 && r.effects[|r.effects| - 1] == SendNotice(SectionList)
    ensures r.effects[..|r.effects| - 1] == Clear(w).effects
  {
    var live := if w.task.Some? then w.live - {w.task.value} else w.live;
    var cleared := Clear(w.(task := None, live := live));
    Step(cleared.w, cleared.effects + [SendNotice(SectionList)], None)
  }

  /** `/heal`: resend the current question of the session, through the
      quiz handler (`quiz_heal`) for a practice session and through the exam
      handler (`exam_heal`) otherwise. `AttributeError`, `IndexError` and
      `KeyError`, which include the case of no session, are caught and
      answered with the "something went wrong" notice. Nothing else can
      be raised there, so `/heal` never fails. */
  method Heal(w: World, bank: seq<Question>, now: int, qMsg: int, pMsg: int) returns (r: Step)
    ensures r.fault.None?
    ensures TimersKept(w, r.w)
    ensures w.st.session.None? ==> r == Step(w, [SendNotice(SomethingWentWrong)], None)
    ensures w.st.session.Some? ==>
              && r.w.st.session.Some? && ProgressKept(w.st.session.value, r.w.st.session.value)
              && r.w.st.user == w.st.user.(themesTried := r.w.st.user.themesTried)
    ensures w.st.session.Some? && w.st.session.value.themeId.None? ==> r.w.st.user == w.st.user
    ensures w.st.session.Some? && w.st.session.value.themeId.None? && w.task.None? ==>
              r == Step(w, [SendNotice(SomethingWentWrong)], None)
    ensures w.st.session.Some? && w.st.session.value.themeId.None? && w.task.Some?
              && w.task.value.deadline - now <= Exam.LastMoment ==>
              r == Step(w, [], None)
    ensures w.st.session.Some? && w.st.session.value.themeId.Some?
              && w.st.session.value.progress != w.st.session.value.questionsTotal
              && GetCurQuestionWithCount(w.st, bank).Ok?
              && Quiz.Shows(w.st.session.value, GetCurQuestionWithCount(w.st, bank).value) ==>
              r.effects == Deletes(Present(ShownMsgs(w.st.session.value)))
                           + Quiz.QuestionTail(w.st.session.value, w.st.user.hintsAllowed,
                                               GetCurQuestionWithCount(w.st, bank).value)
  {
    if w.st.session.None? {
      return Step(w, [SendNotice(SomethingWentWrong)], None);
    }
    var inner;
    if w.st.session.value.themeId.Some? {
      inner := Quiz.SendNext(w, bank, false, qMsg, pMsg);
    } else {
      inner := Exam.SendExamQuestion(w, bank, false, now, qMsg, pMsg);
    }
    if inner.fault.Some? {
      r := Step(inner.w, inner.effects + [SendNotice(SomethingWentWrong)], None);
    } else {
      r := inner;
    }
  }

  /** The reply to `/change_hints_policy`: what the policy becomes. */
  function PolicyNotice(hintsAllowed: bool): Notice {
    if hintsAllowed then HintsOff else HintsOn
  }

  /** The question message still waits for its answer: it is set, and no
      answer message was sent after it. */
  predicate AwaitsAnswer(s: Session) {
    Truthy(s.curQMsg) && (!Truthy(s.curAMsg) || s.curQMsg.value > s.curAMsg.value)
  }

  /** `/change_hints_policy`: announce the new policy, flip it, and show or
      remove the hint button on the question message. Enabling shows the
      button on a question that still waits for its answer, whatever the
      hints left; disabling removes it from any question message. */
  function ChangeHints(w: World): (r: Step)
    ensures TimersKept(w, r.w) && r.fault.None?
    ensures r.w.st == w.st.(user := ChangeHintsPolicy(w.st.user))
    ensures |r.effects| >= 1 && r.effects[0] == SendNotice(PolicyNotice(w.st.user.hintsAllowed))
    ensures forall k :: 1 <= k < |r.effects| ==>
              && r.effects[k].SetHintButton?
              && w.st.session.Some? && Some(r.effects[k].msg) == w.st.session.value.curQMsg
              && r.effects[k].shown == !w.st.user.hintsAllowed
    ensures !w.st.user.hintsAllowed ==>
              (|r.effects| > 1 <==> w.st.session.Some? && AwaitsAnswer(w.st.session.value))
    ensures w.st.user.hintsAllowed ==>
              (|r.effects| > 1 <==> w.st.session.Some? && Truthy(w.st.session.value.curQMsg))
    ensures |r.effects| <= 2
  {
    var u := w.st.user;
    var reply := [SendNotice(PolicyNotice(u.hintsAllowed))];
    var w' := w.(st := w.st.(user := ChangeHintsPolicy(u)));
    match w.st.session
    case None => Step(w', reply, None)
    case Some(s) =>
      if !u.hintsAllowed then
        if AwaitsAnswer(s) then Step(w', reply + [SetHintButton(s.curQMsg.value, true)], None)
        else Step(w', reply, None)
      else if Truthy(s.curQMsg) then Step(w', reply + [SetHintButton(s.curQMsg.value, false)], None)
      else Step(w', reply, None)
  }

  /** Two toggles restore the policy; the two replies announce opposite
      policies, and the second reply announces the policy the user had. */
  lemma ChangeHintsTwice(w: World)
    ensures var once := ChangeHints(w);
            var twice := ChangeHints(once.w);
            && twice.w.st == w.st
            && twice.effects[0] != once.effects[0]
            && twice.effects[0] == SendNotice(PolicyNotice(!w.st.user.hintsAllowed))
            && twice.effects[0] == SendNotice(if w.st.user.hintsAllowed then HintsOn else HintsOff)
  {
  }
}
