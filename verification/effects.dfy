/** What the handlers do to the outside world, and the in-memory part of
    the bot's state: the exam timer registry `TASKS` of
    `handlers/exam_handler.py`.

    A handler call is a `Step`: the world after it, the messages it sent
    or deleted, and the exception it raised, if any. The world after a
    raising call is kept, because every service call commits on its own. */
module Effects {
  import opened Wrappers
  import opened Entities

  /** The fixed texts the handlers send, as messages or as answers to the
      pressed button's query. */
  datatype Notice =
    | SomethingWentWrong
    | CreationDelay
    | QuizCreated
    | ExamCreated
    | ThemeMarked
    | HealReminder
    | HintsOn
    | HintsOff
    | StartGreeting
    | ExamInvite(best: int)
    | SectionList

  /** One externally visible action. Message texts are reduced to the
      numbers and flags they are built from. */
  datatype Effect =
    | DeleteOrigin
    | Delete(msg: int)
    | SendNotice(notice: Notice)
    | SendQuestion(number: int, total: int, hintButton: bool)
    | SendPoll(options: nat)
    | SendQuizSummary(correct: int, total: int, rerunButton: bool)
    | SendExamSummary(score: int, record: bool, timedOut: bool)
    | ShowCountdown(minutes: int, seconds: int)
    | ShowHint(letters: string, length: nat)
    | ShowSingleAnswerHint
    | SetHintButton(msg: int, shown: bool)
    | RemoveOriginButtons

  /** A pending `handle_exam_timeout` task and the deadline it sleeps
      until, in microseconds. */
  datatype Timer = Timer(id: nat, deadline: int)

  /** The stored rows of the user, the `TASKS` entry of the user, the timer
      tasks that have not finished or been cancelled, and a counter that
      keeps timers distinct. */
  datatype World = World(st: Store, task: Option<Timer>, live: set<Timer>, nextTimer: nat)

  datatype Step = Step(w: World, effects: seq<Effect>, fault: Option<Fault>)

  /** A step that touches only the rows, not the timers. */
  predicate TimersKept(w: World, w': World) {
    w'.task == w.task && w'.live == w.live && w'.nextTimer == w.nextTimer
  }

  /** The answering state of a session is the same: queue, position,
      mistakes and hints. */
  predicate ProgressKept(s: Session, s': Session) {
    && s'.questionsQueue == s.questionsQueue && s'.progress == s.progress
    && s'.incorrectQuestions == s.incorrectQuestions && s'.questionsTotal == s.questionsTotal
    && s'.hints == s.hints && s'.hintsTotal == s.hintsTotal && s'.themeId == s.themeId
  }

  /** The ids `clear_session` deletes, as effects. */
  function Deletes(ids: seq<int>): (es: seq<Effect>)
    ensures |es| == |ids|
    ensures forall k :: 0 <= k < |ids| ==> es[k] == Delete(ids[k])
  {
    if |ids| == 0 then [] else [Delete(ids[0])] + Deletes(ids[1..])
  }

  /** An id is deleted exactly when it is listed. */
  lemma DeletesExactly(ids: seq<int>)
    ensures forall e :: e in Deletes(ids) <==> e.Delete? && e.msg in ids
  {
    forall e: Effect | e.Delete? && e.msg in ids
      ensures e in Deletes(ids)
    {
      var k :| 0 <= k < |ids| && ids[k] == e.msg;
      assert Deletes(ids)[k] == e;
    }
  }

  /** The ids among `msgs` that are not `None`, in order. */
  function Present(msgs: seq<Option<int>>): (ids: seq<int>)
    ensures |ids| <= |msgs|
    ensures forall id :: id in ids <==> Some(id) in msgs
  {
    if |msgs| == 0 then []
    else (if msgs[0].Some? then [msgs[0].value] else []) + Present(msgs[1..])
  }

  /** The answer, poll and question messages of the session `s` as the
      handler loaded it, in that order. */
  function ShownMsgs(s: Session): seq<Option<int>> {
    [s.curAMsg, s.curPMsg, s.curQMsg]
  }

  /** The opening effects of a successful `quiz_init_*` or `exam_init`:
      the pressed message is deleted, then a replaced session is announced
      and its messages deleted, then the query is answered that the
      session was created, then the `/heal` reminder is sent when due. */
  function StartEffects(hadSession: bool, dels: seq<int>, answer: Notice, remind: bool): seq<Effect> {
    [DeleteOrigin]
    + (if hadSession then [SendNotice(CreationDelay)] + Deletes(dels) else [])
    + [SendNotice(answer)]
    + (if remind then [SendNotice(HealReminder)] else [])
  }

  /** The delay notice comes second exactly when a session was replaced,
      the creation answer comes last but for the reminder, the reminder
      appears exactly when due, and nothing is sent but notices and
      deletions. A replaced session therefore answers the pressed button's
      query twice. */
  lemma StartEffectsShape(hadSession: bool, dels: seq<int>, answer: Notice, remind: bool)
    requires answer == QuizCreated || answer == ExamCreated
    ensures var es := StartEffects(hadSession, dels, answer, remind);
            && |es| >= 2 && es[0] == DeleteOrigin
            && (hadSession ==> |es| >= 3 && es[1] == SendNotice(CreationDelay))
            && (!hadSession ==> SendNotice(CreationDelay) !in es)
            && es[|es| - (if remind then 2 else 1)] == SendNotice(answer)
            && (SendNotice(HealReminder) in es <==> remind)
            && (forall e | e in es :: e == DeleteOrigin || e.SendNotice? || e.Delete?)
  {
    var created := if hadSession then [SendNotice(CreationDelay)] + Deletes(dels) else [];
    var answered := [SendNotice(answer)];
    var reminder := if remind then [SendNotice(HealReminder)] else [];
    var es := [DeleteOrigin] + created + answered + reminder;
    assert forall e | e in Deletes(dels) :: e.Delete?;
    assert forall e :: e in es <==> e in [DeleteOrigin] || e in created || e in answered || e in reminder;
    assert es[|[DeleteOrigin] + created|] == SendNotice(answer);
  }

  /** The `save_msg_id(None, ...)` calls of the deletion loop, one per
      shown message that is not `None`. */
  function ClearShown(st: Store, s: Session): Store {
    var st1 := if s.curAMsg.Some? then SaveMsgId(st, None, ASlot) else st;
    var st2 := if s.curPMsg.Some? then SaveMsgId(st1, None, PSlot) else st1;
    if s.curQMsg.Some? then SaveMsgId(st2, None, QSlot) else st2
  }

  /** Slot by slot, the answer, poll and question slots shown in `s` are
      reset and every other slot keeps its value. */
  lemma ClearShownSlots(st: Store, s: Session)
    ensures ClearShown(st, s).user == st.user && ClearShown(st, s).session.Some? == st.session.Some?
    ensures st.session.Some? ==>
      var before, after := st.session.value, ClearShown(st, s).session.value;
      && (forall k :: MsgOf(after, k) == (if k != SSlot && MsgOf(s, k).Some? then None else MsgOf(before, k)))
      && after.questionsQueue == before.questionsQueue && after.incorrectQuestions == before.incorrectQuestions
      && after.progress == before.progress && after.questionsTotal == before.questionsTotal
      && after.hints == before.hints && after.hintsTotal == before.hintsTotal
      && after.themeId == before.themeId
  {
    if st.session.Some? {
      var before, after := st.session.value, ClearShown(st, s).session.value;
      forall k ensures MsgOf(after, k) == (if k != SSlot && MsgOf(s, k).Some? then None else MsgOf(before, k)) {
        match k
        case ASlot =>
        case PSlot =>
        case QSlot =>
        case SSlot =>
      }
    }
  }

  /** The deletion loop shared by the quiz and exam handlers: every one of
      the answer, poll and question messages of `s` that is not `None` is
      deleted and its slot reset. */
  function DeleteShown(st: Store, s: Session): (r: (Store, seq<Effect>))
    ensures r.0.user == st.user && r.0.session.Some? == st.session.Some?
    ensures r.1 == Deletes(Present(ShownMsgs(s)))
    ensures st.session.Some? ==>
      var before, after := st.session.value, r.0.session.value;
      && (forall k :: MsgOf(after, k) == (if k != SSlot && MsgOf(s, k).Some? then None else MsgOf(before, k)))
      && after.questionsQueue == before.questionsQueue && after.incorrectQuestions == before.incorrectQuestions
      && after.progress == before.progress && after.questionsTotal == before.questionsTotal
      && after.hints == before.hints && after.hintsTotal == before.hintsTotal
      && after.themeId == before.themeId
  {
    var st3 := ClearShown(st, s);
    ClearShownSlots(st, s);
    (st3, Deletes(Present(ShownMsgs(s))))
  }
}
