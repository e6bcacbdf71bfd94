/** `handlers/exam_handler.py`: the timed exam of 35 questions and its
    timer. Time is an integer count of microseconds, the resolution of
    Python's `datetime`; `now` is the clock reading of the call. */
module Exam {
  import opened Wrappers
  import Utility
  import opened Entities
  import opened Effects

  /** `EXAM_DURATION`, 20 minutes, in microseconds. */
  const ExamDuration: int := 1_200_000_000

  /** No question is sent when this little time, or less, is left. */
  const LastMoment: int := 2_000_000

  const MicrosPerSecond: int := 1_000_000

  /** The callback data the exam handler distinguishes: `exam`,
      `exam_init`, `exam_heal`, `exam_end` and `exam_end_timeout`. */
  datatype ExamCallback =
    | ExamNext
    | ExamInit
    | ExamHeal
    | ExamEnd(timedOut: bool)

  /** The countdown shown on every fifth question: the whole seconds left,
      as minutes and seconds. */
  function Countdown(remaining: int): (r: (int, int))
    requires remaining > LastMoment
    ensures r.0 >= 0 && 0 <= r.1 < 60
    ensures MicrosPerSecond * (60 * r.0 + r.1) <= remaining < MicrosPerSecond * (60 * r.0 + r.1 + 1)
  {
    var delta := remaining / MicrosPerSecond;
    (delta / 60, delta % 60)
  }

  /** The countdown effect the question path starts with, if any. */
  function CountdownEffects(progress: int, remaining: int): seq<Effect>
    requires remaining > LastMoment
  {
    if (progress + 1) % 5 == 0 then
      var (minutes, seconds) := Countdown(remaining);
      [ShowCountdown(minutes, seconds)]
    else []
  }

  /** The question part of the handler, run by every callback but
      `exam_end*`. `init` is set for `exam_init`, which deletes nothing.

      Without a timer entry the session is reported as broken; reading the
      session id for the log line then fails when there is no session.
      With one, and more than two seconds before its deadline, the current
      question is looked up, the countdown shown on every fifth question,
      the previous messages deleted and the question sent, never with a
      hint button. Nearer the deadline nothing happens. The answering state
      of the session never changes here. */
  method SendExamQuestion(w: World, bank: seq<Question>, init: bool, now: int, qMsg: int, pMsg: int)
    returns (r: Step)
    ensures TimersKept(w, r.w)
    ensures r.w.st.user == w.st.user && r.w.st.session.Some? == w.st.session.Some?
    ensures w.st.session.Some? ==> ProgressKept(w.st.session.value, r.w.st.session.value)
    ensures w.task.None? ==>
              && r.w == w && r.effects == [SendNotice(SomethingWentWrong)]
              && (r.fault.Some? <==> w.st.session.None?)
              && (r.fault.Some? ==> r.fault.value == AttributeError)
    ensures w.task.Some? && w.task.value.deadline - now <= LastMoment ==> r == Step(w, [], None)
    ensures w.task.Some? && w.task.value.deadline - now > LastMoment && w.st.session.None? ==>
              r.fault == Some(AttributeError) && r.effects == []
    ensures (exists k :: 0 <= k < |r.effects| && r.effects[k].SendQuestion?) ==>
              w.task.Some? && w.task.value.deadline - now > LastMoment
    ensures w.task.Some? && w.task.value.deadline - now > LastMoment && w.st.session.Some? ==>
      var s := w.st.session.value;
      var remaining := w.task.value.deadline - now;
      var found := GetCurQuestionWithCount(w.st, bank);
      var lead := CountdownEffects(s.progress, remaining)
                  + (if init then [] else Deletes(Present(ShownMsgs(s))));
      && (found.Raise? ==> r == Step(w, [], Some(found.fault)))
      && (found.Ok? ==>
            && (r.fault.None? <==> ExamShows(found.value))
            && (r.fault.Some? ==> r.effects == lead && r.fault.value in {AttributeError, IndexError})
            && (r.fault.None? ==>
                  && r.effects == lead + ExamQuestionTail(s, found.value)
                  && r.w.st.session.value
                       == s.(curAMsg := if init then s.curAMsg else None,
                             curQMsg := Some(qMsg), curPMsg := Some(pMsg))))
  {
    if w.task.None? {
      var fault := if w.st.session.None? then Some(AttributeError) else None;
      return Step(w, [SendNotice(SomethingWentWrong)], fault);
    }
    var remaining := w.task.value.deadline - now;
    if remaining <= LastMoment {
      return Step(w, [], None);
    }
    r := AskExamQuestion(w, bank, init, remaining, qMsg, pMsg);
  }

  /** The question path with `remaining` microseconds left, past the two
      guards: look the question up, show the countdown, delete and send. */
  method AskExamQuestion(w: World, bank: seq<Question>, init: bool, remaining: int, qMsg: int, pMsg: int)
    returns (r: Step)
    requires remaining > LastMoment
    ensures TimersKept(w, r.w)
    ensures r.w.st.user == w.st.user && r.w.st.session.Some? == w.st.session.Some?
    ensures w.st.session.Some? ==> ProgressKept(w.st.session.value, r.w.st.session.value)
    ensures w.st.session.None? ==> r.fault == Some(AttributeError) && r.effects == []
    ensures w.st.session.Some? ==>
      var s := w.st.session.value;
      var found := GetCurQuestionWithCount(w.st, bank);
      var lead := CountdownEffects(s.progress, remaining)
                  + (if init then [] else Deletes(Present(ShownMsgs(s))));
      && (found.Raise? ==> r == Step(w, [], Some(found.fault)))
      && (found.Ok? ==>
            && (r.fault.None? <==> ExamShows(found.value))
            && (r.fault.Some? ==> r.effects == lead && r.fault.value in {AttributeError, IndexError})
            && (r.fault.None? ==>
                  && r.effects == lead + ExamQuestionTail(s, found.value)
                  && r.w.st.session.value
                       == s.(curAMsg := if init then s.curAMsg else None,
                             curQMsg := Some(qMsg), curPMsg := Some(pMsg))))
  {
    var found := GetCurQuestionWithCount(w.st, bank);
    if found.Raise? {
      return Step(w, [], Some(found.fault));
    }
    var s := w.st.session.value;
    var countdown := CountdownEffects(s.progress, remaining);
    var cleared := if init then (w.st, []) else DeleteShown(w.st, s);
    DeletesAreDeletions(Present(ShownMsgs(s)));
    r := ShowExamQuestion(w.(st := cleared.0), countdown + cleared.1, s, found.value, qMsg, pMsg);
  }

  lemma DeletesAreDeletions(ids: seq<int>)
    ensures forall e :: e in Deletes(ids) ==> e.Delete?
  {
  }

  /** The lookup found a question whose options parse. */
  predicate ExamShows(found: (Option<Question>, int)) {
    found.0.Some? && Utility.ParseAnswersFromQuestion(found.0.value.answers).Ok?
  }

  /** The question message, numbered `progress + 1` of the queue length,
      and the poll with one option per parsed answer. */
  function ExamQuestionTail(s: Session, found: (Option<Question>, int)): seq<Effect>
    requires ExamShows(found)
  {
    [SendQuestion(s.progress + 1, found.1, false),
     SendPoll(|Utility.ParseAnswersFromQuestion(found.0.value.answers).value|)]
  }

  /** The tail of the question path once the question is known. A missing
      question row surfaces as `AttributeError` and unparseable options as
      `IndexError`, after the effects `lead` already made. */
  function ShowExamQuestion(w: World, lead: seq<Effect>, s: Session,
                            found: (Option<Question>, int), qMsg: int, pMsg: int): (r: Step)
    requires w.st.session.Some?
    ensures r.w.st.user == w.st.user && r.w.st.session.Some?
    ensures TimersKept(w, r.w)
    ensures ProgressKept(w.st.session.value, r.w.st.session.value)
    ensures r.fault.Some? ==> r.w == w && r.effects == lead && r.fault.value in {AttributeError, IndexError}
    ensures r.fault.None? <==> ExamShows(found)
    ensures r.fault.None? ==>
      && r.effects == lead + ExamQuestionTail(s, found)
      && r.w.st.session.value == w.st.session.value.(curQMsg := Some(qMsg), curPMsg := Some(pMsg))
  {
    match found.0
    case None => Step(w, lead, Some(AttributeError))
    case Some(q) =>
      match Utility.ParseAnswersFromQuestion(q.answers)
      case Raise(f) => Step(w, lead, Some(f))
      case Ok(_) =>
        var st := SaveMsgId(SaveMsgId(w.st, Some(qMsg), QSlot), Some(pMsg), PSlot);
        Step(w.(st := st), lead + ExamQuestionTail(s, found), None)
  }

  /** The score of an exam session: answers given minus mistakes. */
  function Score(s: Session): int {
    s.progress - |s.incorrectQuestions|
  }

  /** `exam_end` and `exam_end_timeout`: delete the question messages,
      score the session, pop and cancel the timer entry, send the summary
      (a record exactly when the score beats the best so far), keep the
      better of the two scores and remember the summary's message `sMsg`.
      The session itself stays. Without a timer entry the pop raises
      `KeyError` after the deletions.

      `botAttached` says whether the query carries the bot. Queries from
      Telegram do; the one the timer builds does not. The deletions reach
      the bot through the query's message, but the summary is sent with
      `callback_query.bot`, so without one the send raises
      `AttributeError` after the pop: no summary, no new best and no
      summary id. */
  function EndExam(w: World, timedOut: bool, botAttached: bool, sMsg: int): (r: Step)
    ensures w.st.session.None? ==> r == Step(w, [], Some(AttributeError))
    ensures w.st.session.Some? ==>
      var s := w.st.session.value;
      var dels := Deletes(Present(ShownMsgs(s)));
      && r.w.st.session.Some?
      && var s' := r.w.st.session.value;
      && ProgressKept(s, s')
      && (forall k :: k != SSlot ==> MsgOf(s', k) == (if MsgOf(s, k).Some? then None else MsgOf(s, k)))
      && r.w.nextTimer == w.nextTimer
      && (w.task.None? ==>
            && r.fault == Some(KeyError) && r.effects == dels
            && r.w.st.user == w.st.user && s'.curSMsg == s.curSMsg
            && r.w.task == w.task && r.w.live == w.live)
      && (w.task.Some? ==> r.w.task.None? && r.w.live == w.live - {w.task.value})
      && (w.task.Some? && !botAttached ==>
            && r.fault == Some(AttributeError) && r.effects == dels
            && r.w.st.user == w.st.user && s'.curSMsg == s.curSMsg)
      && (w.task.Some? && botAttached ==>
            && r.fault.None?
            && r.effects == dels + [SendExamSummary(Score(s), Score(s) > w.st.user.examBest, timedOut)]
            && r.w.st.user == UpdateUserExamBest(w.st.user, Score(s))
            && s'.curSMsg == Some(sMsg))
  {
    match w.st.session
    case None => Step(w, [], Some(AttributeError))
    case Some(s) =>
      var (st1, dels) := DeleteShown(w.st, s);
      match w.task
      case None => Step(w.(st := st1), dels, Some(KeyError))
      case Some(t) =>
        if !botAttached then Step(World(st1, None, w.live - {t}, w.nextTimer), dels, Some(AttributeError))
        else
        var score := Score(s);
        var summary := SendExamSummary(score, score > w.st.user.examBest, timedOut);
        var st2 := st1.(user := UpdateUserExamBest(st1.user, score));
        var st3 := SaveMsgId(st2, Some(sMsg), SSlot);
        Step(World(st3, None, w.live - {t}, w.nextTimer), dels + [summary], None)
  }

  /** On a query from Telegram, the summary announces a record exactly
      when the stored best rises, and the stored best never falls. */
  lemma RecordIffBestRises(w: World, timedOut: bool, sMsg: int)
    requires w.st.session.Some? && w.task.Some?
    ensures var r := EndExam(w, timedOut, true, sMsg);
            && r.effects[|r.effects| - 1].SendExamSummary?
            && (r.effects[|r.effects| - 1].record <==> r.w.st.user.examBest > w.st.user.examBest)
            && r.w.st.user.examBest >= w.st.user.examBest
  {
  }

  /** The retry loop of `exam_init`: alternate `init_exam_session` and
      `clear_session` until a session is created, warning once. A draw that
      fails raises out of the handler. */
  method CreateExamSession(st: Store, bank: seq<Question>, themes: seq<int>)
    returns (r: Result<Store>, effects: seq<Effect>)
    ensures r.Ok? ==> r.value.user == st.user && r.value.session.Some? && FreshExam(r.value.session.value)
    ensures r.Raise? ==> r.fault == ValueError || r.fault == IndexError
    ensures st.session.None? ==> effects == []
    ensures st.session.Some? ==> effects == [SendNotice(CreationDelay)] + Deletes(ClearSession(st).1)
  {
    var cur := st;
    var created := false;
    effects := [];
    while !created
      invariant cur.user == st.user
      invariant !created ==> cur == st || cur == ClearSession(st).0
      invariant !created && cur == st ==> effects == []
      invariant !created && cur != st ==>
                  st.session.Some? && effects == [SendNotice(CreationDelay)] + Deletes(ClearSession(st).1)
      invariant created ==> cur.session.Some? && FreshExam(cur.session.value)
      invariant created && st.session.None? ==> effects == []
      invariant created && st.session.Some? ==>
                  effects == [SendNotice(CreationDelay)] + Deletes(ClearSession(st).1)
      decreases if created then 0 else if cur.session.None? then 1 else 2
    {
      var attempt, _ := InitExamSession(cur, bank, themes);
      if attempt.Raise? {
        return Raise(attempt.fault), effects;
      }
      created := attempt.value.0;
      if created {
        cur := attempt.value.1;
      } else {
        if cur == st {
          effects := effects + [SendNotice(CreationDelay)];
        }
        var cleared := ClearSession(cur);
        effects := effects + Deletes(cleared.1);
        cur := cleared.0;
      }
    }
    r := Ok(cur);
  }

  /** A newly created exam session: no theme, 35 questions to answer, no
      hints, nothing answered and no message shown. */
  predicate FreshExam(s: Session) {
    && s.themeId.None? && s.questionsTotal == ExamSize && s.hints == 0 && s.hintsTotal == 0
    && s.progress == 0 && s.incorrectQuestions == []
    && s.curQMsg.None? && s.curPMsg.None? && s.curAMsg.None? && s.curSMsg.None?
  }

  /** The first half of `exam_init`: count the visit, create the session,
      remind about `/heal` on every tenth visit and register a new timer
      twenty minutes ahead. The timer's task first answers the query that
      the session was created, then sleeps. The timer registered before,
      if any, is overwritten and not cancelled. */
  method PrepareExam(w: World, bank: seq<Question>, themes: seq<int>, now: int)
    returns (r: Step)
    ensures r.w.st.user == IncreaseHelpAlertCounter(w.st.user)
    ensures |r.effects| >= 1 && r.effects[0] == DeleteOrigin
    ensures w.st.session.Some? ==> |r.effects| >= 2 && r.effects[1] == SendNotice(CreationDelay)
    ensures w.st.session.None? ==> SendNotice(CreationDelay) !in r.effects
    ensures r.fault.Some? ==>
              && r.fault.value in {ValueError, IndexError}
              && r.w.task == w.task && r.w.live == w.live && r.w.nextTimer == w.nextTimer
              && SendNotice(HealReminder) !in r.effects
              && SendNotice(ExamCreated) !in r.effects
    ensures r.fault.None? ==>
              && r.w.st.session.Some? && FreshExam(r.w.st.session.value)
              && r.w.task == Some(Timer(w.nextTimer, now + ExamDuration))
              && r.w.live == w.live + {Timer(w.nextTimer, now + ExamDuration)}
              && r.w.nextTimer == w.nextTimer + 1
              && (SendNotice(HealReminder) in r.effects <==> (w.st.user.helpAlertCounter + 1) % 10 == 0)
              && r.effects[|r.effects| - (if (w.st.user.helpAlertCounter + 1) % 10 == 0 then 2 else 1)]
                   == SendNotice(ExamCreated)
    ensures forall e | e in r.effects :: e == DeleteOrigin || e.SendNotice? || e.Delete?
  {
    var counted := w.st.(user := IncreaseHelpAlertCounter(w.st.user));
    var created, notices := CreateExamSession(counted, bank, themes);
    if created.Raise? {
      DeletesAreDeletions(ClearSession(counted).1);
      var cleared := if counted.session.Some? then ClearSession(counted).0 else counted;
      return Step(w.(st := cleared), [DeleteOrigin] + notices, Some(created.fault));
    }
    var remind := counted.user.helpAlertCounter % 10 == 0;
    var t := Timer(w.nextTimer, now + ExamDuration);
    var effects := StartEffects(counted.session.Some?, ClearSession(counted).1, ExamCreated, remind);
    StartEffectsShape(counted.session.Some?, ClearSession(counted).1, ExamCreated, remind);
    r := Step(World(created.value, Some(t), w.live + {t}, w.nextTimer + 1), effects, None);
  }

  /** `exam_init`: prepare the session and the timer, then send the first
      question at once, without deleting anything. */
  method InitExam(w: World, bank: seq<Question>, themes: seq<int>, now: int, qMsg: int, pMsg: int)
    returns (r: Step)
    ensures r.w.st.user.helpAlertCounter == w.st.user.helpAlertCounter + 1
    ensures r.w.st.user.examBest == w.st.user.examBest
    ensures |r.effects| >= 1 && r.effects[0] == DeleteOrigin
    ensures w.st.session.Some? ==> SendNotice(CreationDelay) in r.effects
    ensures r.fault.None? ==> SendNotice(ExamCreated) in r.effects
    ensures r.fault.Some? ==> r.fault.value in {ValueError, IndexError, AttributeError}
    ensures r.fault == Some(ValueError) ==> r.w.task == w.task && r.w.live == w.live
    ensures r.w.task != w.task ==>
              && r.w.task == Some(Timer(w.nextTimer, now + ExamDuration))
              && Timer(w.nextTimer, now + ExamDuration) in r.w.live
    ensures w.live <= r.w.live
    ensures r.fault.None? ==>
              && r.w.st.session.Some?
              && var s := r.w.st.session.value;
              && s.themeId.None? && s.questionsTotal == ExamSize && s.progress == 0 && s.hints == 0
              && r.w.task == Some(Timer(w.nextTimer, now + ExamDuration))
              && w.live <= r.w.live
              && |r.effects| >= 2
              && r.effects[|r.effects| - 2] == SendQuestion(1, |s.questionsQueue|, false)
  {
    var prepared := PrepareExam(w, bank, themes, now);
    if prepared.fault.Some? {
      return prepared;
    }
    var sent := FirstExamQuestion(prepared.w, bank, now, qMsg, pMsg);
    var created := |prepared.effects| - (if (w.st.user.helpAlertCounter + 1) % 10 == 0 then 2 else 1);
    assert (prepared.effects + sent.effects)[created] == SendNotice(ExamCreated);
    assert w.st.session.Some? ==> (prepared.effects + sent.effects)[1] == SendNotice(CreationDelay);
    r := Step(sent.w, prepared.effects + sent.effects, sent.fault);
  }

  /** The question path right after `exam_init` registered the timer: with
      twenty minutes left and nothing answered, no countdown is shown and
      the first question of the queue is sent. */
  method FirstExamQuestion(w: World, bank: seq<Question>, now: int, qMsg: int, pMsg: int)
    returns (r: Step)
    requires w.st.session.Some? && FreshExam(w.st.session.value)
    requires w.task.Some? && w.task.value.deadline == now + ExamDuration
    ensures TimersKept(w, r.w) && r.w.st.user == w.st.user
    ensures r.w.st.session.Some? && ProgressKept(w.st.session.value, r.w.st.session.value)
    ensures r.fault.Some? ==> r.fault.value in {AttributeError, IndexError}
    ensures r.fault.None? ==>
              |r.effects| >= 2
              && r.effects[|r.effects| - 2] == SendQuestion(1, |w.st.session.value.questionsQueue|, false)
  {
    assert CountdownEffects(0, ExamDuration) == [];
    r := SendExamQuestion(w, bank, true, now, qMsg, pMsg);
    if r.fault.None? {
      var s := w.st.session.value;
      var found := GetCurQuestionWithCount(w.st, bank).value;
      assert r.effects == ExamQuestionTail(s, found);
    }
  }

  /** `exam`, dispatched on its callback data, for a query from Telegram.
      `themes` are the theme ids the exam draws from; `sMsg` is the
      summary's message id. */
  method HandleExam(w: World, bank: seq<Question>, themes: seq<int>, cb: ExamCallback,
                    now: int, qMsg: int, pMsg: int, sMsg: int)
    returns (r: Step)
    ensures cb.ExamEnd? ==> r == EndExam(w, cb.timedOut, true, sMsg)
    ensures cb == ExamNext || cb == ExamHeal ==>
              && TimersKept(w, r.w) && r.w.st.user == w.st.user
              && (w.st.session.Some? ==> r.w.st.session.Some? && ProgressKept(w.st.session.value, r.w.st.session.value))
    ensures cb == ExamInit && r.fault.None? ==>
              r.w.task == Some(Timer(w.nextTimer, now + ExamDuration))
  {
    match cb
    case ExamInit =>
      r := InitExam(w, bank, themes, now, qMsg, pMsg);
    case ExamEnd(timedOut) =>
      r := EndExam(w, timedOut, true, sMsg);
    case _ =>
      r := SendExamQuestion(w, bank, false, now, qMsg, pMsg);
  }

  /** `handle_exam_timeout` as written: a timer that was not cancelled
      finishes when it wakes, and forces `exam_end_timeout` when there is a
      session, it has fewer than 35 answers and the deadline has passed.
      Neither the kind of session nor the timer entry in force is looked
      at. The query it builds carries no bot. */
  function TimeoutAsWritten(w: World, t: Timer, now: int, sMsg: int): (r: Step)
    ensures t !in w.live ==> r == Step(w, [], None)
    ensures t in w.live ==> t !in r.w.live
    ensures t in w.live && !(w.st.session.Some? && w.st.session.value.progress < ExamSize && now >= t.deadline) ==>
              r == Step(w.(live := w.live - {t}), [], None)
    ensures t in w.live && w.st.session.Some? && w.st.session.value.progress < ExamSize && now >= t.deadline ==>
              r == EndExam(w.(live := w.live - {t}), true, false, sMsg)
  {
    if t !in w.live then Step(w, [], None)
    else
      var w1 := w.(live := w.live - {t});
      if w1.st.session.Some? && w1.st.session.value.progress < ExamSize && now >= t.deadline
      then EndExam(w1, true, false, sMsg)
      else Step(w1, [], None)
  }

  /** As written, no wake-up ever sends a summary or changes the best: an
      exam left to run out loses its question messages and its timer
      entry, and the handler then raises `AttributeError`. */
  lemma TimeoutNeverSummarises(w: World, t: Timer, now: int, sMsg: int)
    requires t in w.live && w.task == Some(t) && now >= t.deadline
    requires w.st.session.Some? && w.st.session.value.progress < ExamSize
    ensures var r := TimeoutAsWritten(w, t, now, sMsg);
            && r.fault == Some(AttributeError)
            && r.effects == Deletes(Present(ShownMsgs(w.st.session.value)))
            && (forall e :: e in r.effects ==> !e.SendExamSummary?)
            && r.w.st.user == w.st.user
            && r.w.task.None? && t !in r.w.live
  {
    DeletesAreDeletions(Present(ShownMsgs(w.st.session.value)));
  }

  /** The timeout as evidently intended: it ends only the exam it was
      started for, that is, when it is still the timer in force and the
      session is an exam, and it reaches the bot, so that the timed-out
      summary is sent and the best kept. */
  function Timeout(w: World, t: Timer, now: int, sMsg: int): (r: Step)
    ensures t !in r.w.live && r.w.nextTimer == w.nextTimer
    ensures r.w.st.session.Some? == w.st.session.Some?
    ensures r.w.st.user.examBest != w.st.user.examBest ==>
              && t in w.live && w.task == Some(t) && now >= t.deadline
              && w.st.session.Some? && w.st.session.value.themeId.None?
              && w.st.session.value.progress < ExamSize
    ensures (w.task != Some(t) || t !in w.live || w.st.session.None? || w.st.session.value.themeId.Some?) ==>
              r == Step(w.(live := w.live - {t}), [], None)
    ensures t in w.live && w.task == Some(t) && w.st.session.Some? && w.st.session.value.themeId.None?
              && w.st.session.value.progress < ExamSize && now >= t.deadline ==>
              && r.fault.None? && r.w.task.None? && r.w.live == w.live - {t}
              && r.w.st.user == UpdateUserExamBest(w.st.user, Score(w.st.session.value))
              && SendExamSummary(Score(w.st.session.value), Score(w.st.session.value) > w.st.user.examBest, true)
                   in r.effects
  {
    if t in w.live && w.task == Some(t) && w.st.session.Some? && w.st.session.value.themeId.None?
       && w.st.session.value.progress < ExamSize && now >= t.deadline
    then EndExam(w.(live := w.live - {t}), true, true, sMsg)
    else Step(w.(live := w.live - {t}), [], None)
  }
}
