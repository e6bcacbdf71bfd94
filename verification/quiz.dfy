/** `handlers/quiz_handler.py`: the practice quiz over one theme. */
module Quiz {
  import opened Wrappers
  import opened Builtins
  import Utility
  import opened Entities
  import opened Effects

  /** The callback data the quiz handler distinguishes: `quiz`,
      `quiz_init_{theme}` and `quiz_init_shuffle_{theme}`,
      `quiz_incorrect`, `quiz_heal` and `quiz_end`. */
  datatype QuizCallback =
    | QuizNext
    | QuizInit(theme: int, shuffle: bool)
    | QuizIncorrect
    | QuizHeal
    | QuizEnd

  /** The question part of the handler, shared by every callback but
      `quiz_end`. `skipDelete` is set for `quiz_init_*` and `quiz_incorrect`,
      which skip deleting the previous messages. `qMsg` and `pMsg` are the
      ids Telegram gives the question and the poll.

      A session whose progress has reached its total is reported as broken
      and left alone. Otherwise the answer slot is reset, the current
      question looked up, the previous messages deleted, the theme marked as
      tried if it is in no progress list, and the question at `progress`
      sent, with the hint button when hints remain and the user allows
      them. The answering state of the session never changes here.

      A leftover quiz button pressed over an exam session gets as far as
      the marker, which stores the missing theme as `NULL`, and then fails
      on the title of the theme that `get_theme_by_id(None)` did not
      find. */
  method SendNext(w: World, bank: seq<Question>, skipDelete: bool, qMsg: int, pMsg: int)
    returns (r: Step)
    ensures TimersKept(w, r.w)
    ensures w.st.session.None? ==> r == Step(w, [], Some(AttributeError))
    ensures w.st.session.Some? && w.st.session.value.questionsTotal == w.st.session.value.progress ==>
              r == Step(w, [SendNotice(SomethingWentWrong)], None)
    ensures w.st.session.Some? ==> r.w.st.session.Some? && ProgressKept(w.st.session.value, r.w.st.session.value)
    ensures r.w.st.user == w.st.user.(themesTried := r.w.st.user.themesTried)
    ensures r.fault.Some? ==> r.fault.value in {AttributeError, IndexError}
    ensures forall e :: e in r.effects ==> SendPathEffect(e)
    ensures w.st.session.Some? && w.st.session.value.questionsTotal != w.st.session.value.progress ==>
      var s := w.st.session.value;
      var found := GetCurQuestionWithCount(w.st, bank);
      var dels := if skipDelete then [] else Deletes(Present(ShownMsgs(s)));
      && (found.Raise? ==> r.fault == Some(found.fault) && r.effects == [])
      && (found.Ok? ==>
            && (r.fault.None? <==> Shows(s, found.value))
            && (r.fault.Some? ==> r.effects == dels)
            && r.w.st.user == (if Parses(found.value) then MarkTried(w.st.user, s.themeId) else w.st.user)
            && (r.fault.None? ==>
                  && r.effects == dels + QuestionTail(s, w.st.user.hintsAllowed, found.value)
                  && r.w.st.session.value
                       == s.(curAMsg := None, curQMsg := Some(qMsg), curPMsg := Some(pMsg))))
  {
    match w.st.session
    case None =>
      return Step(w, [], Some(AttributeError));
    case Some(s) =>
      if s.questionsTotal == s.progress {
        return Step(w, [SendNotice(SomethingWentWrong)], None);
      }
      var st1 := SaveMsgId(w.st, None, ASlot);
      var found := GetCurQuestionWithCount(w.st, bank);
      if found.Raise? {
        return Step(w.(st := st1), [], Some(found.fault));
      }
      var cleared := if skipDelete then (st1, []) else DeleteShown(st1, s);
      ClearedForQuestion(w.st, s, skipDelete, qMsg, pMsg);
      DeletesAreSendPath(Present(ShownMsgs(s)));
      r := ShowQuestion(w.(st := cleared.0), cleared.1, s, w.st.user.hintsAllowed, found.value, qMsg, pMsg);
  }

  /** Resetting the answer slot and deleting the shown messages leaves a
      session that, once the new question and poll are stored, differs
      from the loaded one only in its answer, question and poll slots. */
  lemma ClearedForQuestion(st: Store, s: Session, skipDelete: bool, qMsg: int, pMsg: int)
    requires st.session == Some(s)
    ensures var st1 := SaveMsgId(st, None, ASlot);
            var cleared := if skipDelete then (st1, []) else DeleteShown(st1, s);
            && cleared.0.user == st.user && cleared.0.session.Some?
            && cleared.0.session.value.(curQMsg := Some(qMsg), curPMsg := Some(pMsg))
               == s.(curAMsg := None, curQMsg := Some(qMsg), curPMsg := Some(pMsg))
  {
    var st1 := SaveMsgId(st, None, ASlot);
    var s1 := st1.session.value;
    assert MsgOf(s1, ASlot) == None && MsgOf(s1, SSlot) == MsgOf(s, SSlot);
    if !skipDelete {
      var s2 := DeleteShown(st1, s).0.session.value;
      assert MsgOf(s2, ASlot) == None && MsgOf(s2, SSlot) == MsgOf(s1, SSlot);
    }
  }

  /** The effects the send path can have. */
  predicate SendPathEffect(e: Effect) {
    e.Delete? || e.SendQuestion? || e.SendPoll? || e == SendNotice(SomethingWentWrong)
  }

  lemma DeletesAreSendPath(ids: seq<int>)
    ensures forall e :: e in Deletes(ids) ==> e.Delete?
  {
  }

  /** The lookup found a question whose options parse. */
  predicate Parses(found: (Option<Question>, int)) {
    found.0.Some? && Utility.ParseAnswersFromQuestion(found.0.value.answers).Ok?
  }

  /** The lookup found a question whose options parse, in a practice
      session: the conditions under which a question is shown. */
  predicate Shows(s: Session, found: (Option<Question>, int)) {
    Parses(found) && s.themeId.Some?
  }

  /** The tail of the send path, once the current question is known: parse
      its options, mark the theme, send question and poll and remember
      their ids. A missing question row surfaces as `AttributeError` and
      unparseable options as `IndexError`, before the marker; a missing
      theme surfaces as `AttributeError` after it. All come after the
      deletions `dels` already made. */
  function ShowQuestion(w: World, dels: seq<Effect>, s: Session, hintsAllowed: bool,
                        found: (Option<Question>, int), qMsg: int, pMsg: int): (r: Step)
    requires w.st.session.Some?
    requires forall e :: e in dels ==> e.Delete?
    ensures TimersKept(w, r.w) && r.w.st.session.Some?
    ensures ProgressKept(w.st.session.value, r.w.st.session.value)
    ensures r.w.st.user == (if Parses(found) then MarkTried(w.st.user, s.themeId) else w.st.user)
    ensures r.fault.Some? ==>
              && r.w.st.session == w.st.session && r.effects == dels
              && r.fault.value in {AttributeError, IndexError}
    ensures r.fault.None? <==> Shows(s, found)
    ensures r.fault.None? ==>
      && r.effects == dels + QuestionTail(s, hintsAllowed, found)
      && r.w.st.session.value == w.st.session.value.(curQMsg := Some(qMsg), curPMsg := Some(pMsg))
  {
    match found.0
    case None => Step(w, dels, Some(AttributeError))
    case Some(q) =>
      match Utility.ParseAnswersFromQuestion(q.answers)
      case Raise(f) => Step(w, dels, Some(f))
      case Ok(answers) =>
        var st3 := w.st.(user := MarkTried(w.st.user, s.themeId));
        if s.themeId.None? then Step(w.(st := st3), dels, Some(AttributeError))
        else
          var st4 := SaveMsgId(SaveMsgId(st3, Some(qMsg), QSlot), Some(pMsg), PSlot);
          Step(w.(st := st4), dels + QuestionTail(s, hintsAllowed, found), None)
  }

  /** A leftover quiz button over an exam session whose question parses:
      the handler raises only after `NULL` joined the tried themes, unless
      some list already holds it. */
  lemma LeftoverQuizButtonMarksNull(w: World, dels: seq<Effect>, s: Session, hintsAllowed: bool,
                                    found: (Option<Question>, int), qMsg: int, pMsg: int)
    requires w.st.session.Some? && (forall e :: e in dels ==> e.Delete?)
    requires s.themeId.None? && Parses(found) && !Marked(w.st.user, None)
    ensures var r := ShowQuestion(w, dels, s, hintsAllowed, found, qMsg, pMsg);
            && r.fault == Some(AttributeError) && r.effects == dels
            && r.w.st.user.themesTried == w.st.user.themesTried + [None]
            && None !in w.st.user.themesTried
  {
  }

  /** The question message and the poll with one option per parsed
      answer. */
  function QuestionTail(s: Session, hintsAllowed: bool, found: (Option<Question>, int)): seq<Effect>
    requires found.0.Some? && Utility.ParseAnswersFromQuestion(found.0.value.answers).Ok?
  {
    [SendQuestion(s.progress + 1, found.1, s.hints > 0 && hintsAllowed),
     SendPoll(|Utility.ParseAnswersFromQuestion(found.0.value.answers).value|)]
  }

  /** The theme is in one of the three progress lists. */
  predicate Marked(u: User, theme: Option<int>) {
    theme in u.themesDoneFull || theme in u.themesTried || theme in u.themesDoneParticular
  }

  /** The "orange" marker: a theme in none of the three progress lists
      becomes tried; otherwise nothing changes. An exam session's missing
      theme is marked as `NULL` the same way. */
  function MarkTried(u: User, theme: Option<int>): (u': User)
    ensures Marked(u', theme)
    ensures Marked(u, theme) ==> u' == u
    ensures u' == u.(themesTried := u'.themesTried)
  {
    if Marked(u, theme) then u else u.(themesTried := u.themesTried + [theme])
  }

  /** The marker is `update_themes_progress` with `None`, called only for
      a theme in no list, and so keeps the lists disjoint. */
  lemma MarkTriedIsGuardedUpdate(u: User, theme: Option<int>)
    ensures !Marked(u, theme) ==> MarkTried(u, theme) == UpdateThemesProgress(u, theme, None)
    ensures ProgressDisjoint(u) ==> ProgressDisjoint(MarkTried(u, theme))
  {
    if ProgressDisjoint(u) && !Marked(u, theme) {
      ThemesProgressKeepsDisjoint(u, theme, None);
    }
  }

  /** `/heal` twice in a row on a practice session: the second call
      deletes exactly the question and poll the first one sent, sends the
      same question again, and leaves the answering state alone. */
  method HealTwice(w: World, bank: seq<Question>, q1: int, p1: int, q2: int, p2: int)
    returns (first: Step, second: Step)
    ensures first.fault.None? && w.st.session.Some? && w.st.session.value.questionsTotal != w.st.session.value.progress ==>
      && second.fault.None?
      && |first.effects| >= 2
      && second.effects == [Delete(p1), Delete(q1)] + first.effects[|first.effects| - 2..]
    ensures w.st.session.Some? ==>
      second.w.st.session.Some? && ProgressKept(w.st.session.value, second.w.st.session.value)
  {
    first := SendNext(w, bank, false, q1, p1);
    if first.fault.None? && w.st.session.Some? && w.st.session.value.questionsTotal != w.st.session.value.progress {
      var s := w.st.session.value;
      var found := GetCurQuestionWithCount(w.st, bank).value;
      second := HealAgain(w, first.w, bank, q1, p1, q2, p2);
      assert first.effects[|first.effects| - 2..] == QuestionTail(s, w.st.user.hintsAllowed, found);
    } else {
      second := SendNext(first.w, bank, false, q2, p2);
    }
  }

  /** The second `/heal` after a first one showed the current question of
      `w` as `q1` and `p1`. */
  method HealAgain(w: World, w1: World, bank: seq<Question>, q1: int, p1: int, q2: int, p2: int)
    returns (second: Step)
    requires w.st.session.Some? && w.st.session.value.questionsTotal != w.st.session.value.progress
    requires GetCurQuestionWithCount(w.st, bank).Ok?
    requires Shows(w.st.session.value, GetCurQuestionWithCount(w.st, bank).value)
    requires w1.st.session == Some(w.st.session.value.(curAMsg := None, curQMsg := Some(q1), curPMsg := Some(p1)))
    requires w1.st.user == MarkTried(w.st.user, w.st.session.value.themeId)
    ensures second.fault.None?
    ensures second.effects
              == [Delete(p1), Delete(q1)]
                 + QuestionTail(w.st.session.value, w.st.user.hintsAllowed, GetCurQuestionWithCount(w.st, bank).value)
    ensures second.w.st.session.Some? && ProgressKept(w.st.session.value, second.w.st.session.value)
  {
    var s := w.st.session.value;
    ShownOnce(w.st, w1.st, bank, q1, p1);
    second := SendNext(w1, bank, false, q2, p2);
    var s1 := w1.st.session.value;
    var found := GetCurQuestionWithCount(w.st, bank).value;
    assert Shows(s1, found);
    assert QuestionTail(s1, w1.st.user.hintsAllowed, found) == QuestionTail(s, w.st.user.hintsAllowed, found);
  }

  /** What one shown question leaves for the next send: the same current
      question, the question and poll to delete, the same hint policy. */
  lemma ShownOnce(st: Store, st1: Store, bank: seq<Question>, q1: int, p1: int)
    requires st.session.Some? && st.session.value.themeId.Some? && st1.session.Some?
    requires st1.session.value == st.session.value.(curAMsg := None, curQMsg := Some(q1), curPMsg := Some(p1))
    requires st1.user == MarkTried(st.user, st.session.value.themeId)
    ensures GetCurQuestionWithCount(st1, bank) == GetCurQuestionWithCount(st, bank)
    ensures Deletes(Present(ShownMsgs(st1.session.value))) == [Delete(p1), Delete(q1)]
    ensures st1.user.hintsAllowed == st.user.hintsAllowed
  {
    SameCursorSameQuestion(st, st1, bank);
    ShownAfterSend(st1.session.value, q1, p1);
  }

  /** The current question depends only on the queue and the position. */
  lemma SameCursorSameQuestion(st: Store, st1: Store, bank: seq<Question>)
    requires st.session.Some? && st1.session.Some?
    requires st1.session.value.questionsQueue == st.session.value.questionsQueue
    requires st1.session.value.progress == st.session.value.progress
    ensures GetCurQuestionWithCount(st1, bank) == GetCurQuestionWithCount(st, bank)
  {
  }

  /** Right after a send, the messages to delete are the poll and the
      question, in that order. */
  lemma ShownAfterSend(s1: Session, q1: int, p1: int)
    requires s1.curAMsg == None && s1.curQMsg == Some(q1) && s1.curPMsg == Some(p1)
    ensures Deletes(Present(ShownMsgs(s1))) == [Delete(p1), Delete(q1)]
  {
    var m := ShownMsgs(s1);
    assert m == [None, Some(p1), Some(q1)];
    assert m[1..] == [Some(p1), Some(q1)] && m[1..][1..] == [Some(q1)] && [Some(q1)][1..] == [];
    assert Present([Some(q1)]) == [q1] + Present([]);
    assert Present(m[1..]) == [p1] + Present([Some(q1)]);
    assert Present(m) == Present(m[1..]);
    assert [p1, q1][1..] == [q1] && [q1][1..] == [];
    assert Deletes([p1, q1]) == [Delete(p1)] + Deletes([q1]);
  }

  /** The `quiz_end` branch. The summary counts `total - |mistakes|` out of
      `total` and offers the rerun button exactly when there were mistakes.
      A round without mistakes marks the theme done in full when it covered
      the whole theme and done in part otherwise (a rerun of mistakes);
      a round with mistakes leaves the markers alone. The session stays.
      A leftover `quiz_end` button over an exam session looks up the
      missing theme's size, which is 0, and so marks `NULL` done in part. */
  function EndQuiz(w: World, bank: seq<Question>, sMsg: int): (r: Step)
    ensures TimersKept(w, r.w)
    ensures w.st.session.None? <==> r.fault == Some(AttributeError)
    ensures w.st.session.None? ==> r.w == w && r.effects == []
    ensures w.st.session.Some? ==>
      var s := w.st.session.value;
      var mistakes := |s.incorrectQuestions|;
      && r.fault.None? && |r.effects| >= 1
      && r.w.st.session.Some? && ProgressKept(s, r.w.st.session.value)
      && r.w.st.session.value.curSMsg == Some(sMsg)
      && r.effects[|r.effects| - 1] == SendQuizSummary(s.questionsTotal - mistakes, s.questionsTotal, mistakes > 0)
      && (mistakes > 0 ==> r.w.st.user == w.st.user)
      && (mistakes == 0 ==>
            r.w.st.user == UpdateThemesProgress(w.st.user, s.themeId,
                             Some(ThemeSize(bank, s.themeId) == s.questionsTotal)))
  {
    match w.st.session
    case None => Step(w, [], Some(AttributeError))
    case Some(s) =>
      var (st1, dels) := DeleteShown(w.st, s);
      var mistakes := |s.incorrectQuestions|;
      var summary := SendQuizSummary(s.questionsTotal - mistakes, s.questionsTotal, mistakes > 0);
      var user :=
        if mistakes == 0 then
          UpdateThemesProgress(w.st.user, s.themeId, Some(ThemeSize(bank, s.themeId) == s.questionsTotal))
        else w.st.user;
      var st2 := SaveMsgId(st1, Some(sMsg), SSlot);
      var effects := dels + [summary];
      assert |effects| == |dels| + 1 && effects[|dels|] == summary;
      Step(w.(st := st2.(user := user)), effects, None)
  }

  /** `get_questions_with_len_by_theme`'s count. The query for a missing
      theme tests `theme_id IS NULL`, which no question row meets. */
  function ThemeSize(bank: seq<Question>, theme: Option<int>): (n: nat)
    ensures theme.None? ==> n == 0
    ensures theme.Some? ==> n == |ThemeQuestions(bank, theme.value)|
  {
    if theme.None? then 0 else |ThemeQuestions(bank, theme.value)|
  }

  /** A leftover `quiz_end` button over an exam session without mistakes:
      the exam's 35 questions differ from the 0 of the missing theme, so
      `NULL` is marked done in part and nothing else changes, unless a
      list already holds it. */
  lemma LeftoverQuizEndMarksNull(w: World, bank: seq<Question>, sMsg: int)
    requires w.st.session.Some?
    requires var s := w.st.session.value;
             s.themeId.None? && s.incorrectQuestions == [] && s.questionsTotal == ExamSize
    requires None !in w.st.user.themesDoneFull && None !in w.st.user.themesDoneParticular
    ensures var u, u' := w.st.user, EndQuiz(w, bank, sMsg).w.st.user;
            && u'.themesDoneParticular == u.themesDoneParticular + [None]
            && u'.themesDoneFull == u.themesDoneFull
            && None !in u'.themesTried
            && u'.examBest == u.examBest && u'.hintsAllowed == u.hintsAllowed
  {
  }

  /** A perfect round over the whole theme marks it done in full. */
  lemma PerfectFirstRoundIsFull(w: World, bank: seq<Question>, theme: int, sMsg: int)
    requires w.st.session.Some?
    requires var s := w.st.session.value;
             && s.themeId == Some(theme) && s.incorrectQuestions == []
             && multiset(s.questionsQueue) == multiset(Ids(ThemeQuestions(bank, theme)))
             && s.questionsTotal == |s.questionsQueue|
    ensures Some(theme) in EndQuiz(w, bank, sMsg).w.st.user.themesDoneFull
  {
    var s := w.st.session.value;
    assert |s.questionsQueue| == |multiset(s.questionsQueue)| == |Ids(ThemeQuestions(bank, theme))|;
  }

  /** The retry loop of `quiz_init_*`: alternate `init_session` and
      `clear_session` until a session is created, warning once when an old
      session was in the way. The timer registry is not consulted, even
      when the cleared session was an exam. */
  method CreateQuizSession(st: Store, bank: seq<Question>, theme: int, shuffle: bool)
    returns (st': Store, effects: seq<Effect>)
    ensures st'.user == st.user && st'.session.Some?
    ensures FreshQuizSession(st'.session.value, bank, theme, shuffle)
    ensures st.session.None? ==> effects == []
    ensures st.session.Some? ==>
              effects == [SendNotice(CreationDelay)] + Deletes(ClearSession(st).1)
  {
    var created;
    created, st' := InitSession(st, bank, theme, shuffle);
    effects := [];
    var warned := false;
    while !created
      invariant st'.user == st.user
      invariant !created ==> st' == st && st.session.Some? && !warned && effects == []
      invariant created ==> st'.session.Some? && FreshQuizSession(st'.session.value, bank, theme, shuffle)
      invariant created && st.session.None? ==> effects == []
      invariant created && st.session.Some? ==>
                  effects == [SendNotice(CreationDelay)] + Deletes(ClearSession(st).1)
      decreases if created then 0 else 1
    {
      if !warned {
        effects := effects + [SendNotice(CreationDelay)];
        warned := true;
      }
      assert effects == [SendNotice(CreationDelay)];
      var cleared := ClearSession(st);
      effects := effects + Deletes(cleared.1);
      created, st' := InitSession(cleared.0, bank, theme, shuffle);
    }
  }

  /** The first half of `quiz_init_*`: count the visit, create the
      session, answer the query that it was created, remind about `/heal`
      on every tenth visit. */
  method PrepareQuiz(st: Store, bank: seq<Question>, theme: int, shuffle: bool)
    returns (st': Store, effects: seq<Effect>)
    ensures st'.user == IncreaseHelpAlertCounter(st.user)
    ensures st'.session.Some?
    ensures var s := st'.session.value;
            && s.themeId == Some(theme) && s.progress == 0 && s.incorrectQuestions == []
            && multiset(s.questionsQueue) == multiset(Ids(ThemeQuestions(bank, theme)))
            && |s.questionsQueue| == |ThemeQuestions(bank, theme)|
            && s.questionsTotal == |s.questionsQueue|
    ensures |effects| >= 2 && effects[0] == DeleteOrigin
    ensures st.session.Some? ==> |effects| >= 3 && effects[1] == SendNotice(CreationDelay)
    ensures st.session.None? ==> SendNotice(CreationDelay) !in effects
    ensures effects[|effects| - (if (st.user.helpAlertCounter + 1) % 10 == 0 then 2 else 1)]
              == SendNotice(QuizCreated)
    ensures SendNotice(HealReminder) in effects <==> (st.user.helpAlertCounter + 1) % 10 == 0
    ensures forall e | e in effects :: SendPathEffect(e) || e == DeleteOrigin || e.SendNotice?
  {
    var counted := st.(user := IncreaseHelpAlertCounter(st.user));
    var created;
    st', created := CreateQuizSession(counted, bank, theme, shuffle);
    QueueLength(st'.session.value, bank, theme, shuffle);
    var remind := (st.user.helpAlertCounter + 1) % 10 == 0;
    effects := StartEffects(st.session.Some?, ClearSession(counted).1, QuizCreated, remind);
    StartEffectsShape(st.session.Some?, ClearSession(counted).1, QuizCreated, remind);
  }

  /** A fresh session queues each of the theme's questions once. */
  lemma QueueLength(s: Session, bank: seq<Question>, theme: int, shuffle: bool)
    requires FreshQuizSession(s, bank, theme, shuffle)
    ensures |s.questionsQueue| == |ThemeQuestions(bank, theme)|
  {
    assert |s.questionsQueue| == |multiset(s.questionsQueue)| == |Ids(ThemeQuestions(bank, theme))|;
  }

  /** The `quiz_init_*` branch: prepare the session, then send the first
      question without deleting anything. A theme without questions gives
      a session that is broken from the start. */
  method InitQuiz(w: World, bank: seq<Question>, theme: int, shuffle: bool, qMsg: int, pMsg: int)
    returns (r: Step)
    ensures TimersKept(w, r.w)
    ensures r.w.st.user.helpAlertCounter == w.st.user.helpAlertCounter + 1
    ensures r.w.st.user.examBest == w.st.user.examBest
    ensures r.w.st.session.Some?
    ensures |r.effects| >= 1 && r.effects[0] == DeleteOrigin
    ensures w.st.session.Some? ==> |r.effects| >= 2 && r.effects[1] == SendNotice(CreationDelay)
    ensures w.st.session.None? ==> SendNotice(CreationDelay) !in r.effects
    ensures SendNotice(HealReminder) in r.effects <==> (w.st.user.helpAlertCounter + 1) % 10 == 0
    ensures SendNotice(QuizCreated) in r.effects
    ensures var s := r.w.st.session.value;
            && s.themeId == Some(theme) && s.progress == 0 && s.incorrectQuestions == []
            && multiset(s.questionsQueue) == multiset(Ids(ThemeQuestions(bank, theme)))
    ensures r.fault.None? && |ThemeQuestions(bank, theme)| > 0 ==>
              var s := r.w.st.session.value;
              && |r.effects| >= 2
              && r.effects[|r.effects| - 2] == SendQuestion(1, s.questionsTotal, s.hints > 0 && w.st.user.hintsAllowed)
    ensures |ThemeQuestions(bank, theme)| == 0 ==>
              r.fault.None? && r.effects[|r.effects| - 1] == SendNotice(SomethingWentWrong)
  {
    var st1, before := PrepareQuiz(w.st, bank, theme, shuffle);
    var sent := SendFirst(w.(st := st1), bank, qMsg, pMsg);
    StartThenSend(before, sent.effects, w.st.session.Some?, (w.st.user.helpAlertCounter + 1) % 10 == 0);
    r := Step(sent.w, before + sent.effects, sent.fault);
  }

  /** The start notices followed by the send path: the notices keep their
      places at the front, the send path's last effects stay last, and the
      send path adds no notice of session creation or of `/heal`. */
  lemma StartThenSend(before: seq<Effect>, sent: seq<Effect>, hadSession: bool, remind: bool)
    requires |before| >= 1 && before[0] == DeleteOrigin
    requires hadSession ==> |before| >= 2 && before[1] == SendNotice(CreationDelay)
    requires !hadSession ==> SendNotice(CreationDelay) !in before
    requires SendNotice(HealReminder) in before <==> remind
    requires SendNotice(QuizCreated) in before
    requires forall e :: e in sent ==> SendPathEffect(e)
    ensures var all := before + sent;
            && |all| >= 1 && all[0] == DeleteOrigin
            && (hadSession ==> |all| >= 2 && all[1] == SendNotice(CreationDelay))
            && (!hadSession ==> SendNotice(CreationDelay) !in all)
            && (SendNotice(HealReminder) in all <==> remind)
            && SendNotice(QuizCreated) in all
            && (|sent| >= 2 ==> all[|all| - 2] == sent[|sent| - 2])
            && (|sent| >= 1 ==> all[|all| - 1] == sent[|sent| - 1])
  {
    JoinEffects(before, [], sent);
    assert before + [] + sent == before + sent;
  }

  /** The send path on a session that has not started: nothing to delete,
      and the question sent is number 1 of the queue. */
  method SendFirst(w: World, bank: seq<Question>, qMsg: int, pMsg: int) returns (r: Step)
    requires w.st.session.Some? && w.st.session.value.progress == 0
    ensures TimersKept(w, r.w)
    ensures r.w.st.session.Some? && ProgressKept(w.st.session.value, r.w.st.session.value)
    ensures r.w.st.user == w.st.user.(themesTried := r.w.st.user.themesTried)
    ensures forall e :: e in r.effects ==> SendPathEffect(e)
    ensures w.st.session.value.questionsTotal == 0 ==> r == Step(w, [SendNotice(SomethingWentWrong)], None)
    ensures r.fault.None? && w.st.session.value.questionsTotal != 0 ==>
              var s := w.st.session.value;
              && |r.effects| >= 2
              && r.effects[|r.effects| - 2] == SendQuestion(1, |s.questionsQueue|, s.hints > 0 && w.st.user.hintsAllowed)
  {
    r := SendNext(w, bank, true, qMsg, pMsg);
    var s := w.st.session.value;
    if r.fault.None? && s.questionsTotal != 0 {
      var tail := QuestionTail(s, w.st.user.hintsAllowed, GetCurQuestionWithCount(w.st, bank).value);
      assert r.effects == [] + tail == tail;
    }
  }

  lemma JoinEffects(a: seq<Effect>, b: seq<Effect>, c: seq<Effect>)
    ensures forall e :: e in a + b + c <==> e in a || e in b || e in c
    ensures |a| >= 1 ==> (a + b + c)[0] == a[0]
    ensures |a| >= 2 ==> (a + b + c)[1] == a[1]
    ensures |c| >= 2 ==> (a + b + c)[|a + b + c| - 2] == c[|c| - 2]
    ensures |c| >= 1 ==> (a + b + c)[|a + b + c| - 1] == c[|c| - 1]
  {
  }

  /** The `quiz_incorrect` branch: delete the summary's message, replay
      the mistakes, send the first of them. */
  method RerunQuiz(w: World, bank: seq<Question>, qMsg: int, pMsg: int) returns (r: Step)
    ensures TimersKept(w, r.w)
    ensures w.st.session.None? ==> r == Step(w, [DeleteOrigin], Some(AttributeError))
    ensures w.st.session.Some? ==>
      var s := w.st.session.value;
      && r.w.st.session.Some?
      && r.w.st.session.value.questionsQueue == s.incorrectQuestions
      && r.w.st.session.value.incorrectQuestions == []
      && r.w.st.session.value.progress == 0
      && (s.incorrectQuestions == [] ==> r.effects == [DeleteOrigin, SendNotice(SomethingWentWrong)])
      && (s.incorrectQuestions != [] && r.fault.None? ==>
            |r.effects| >= 3 &&
            r.effects[|r.effects| - 2]
              == SendQuestion(1, |s.incorrectQuestions|, CeilTenth(|s.incorrectQuestions|) > 0 && w.st.user.hintsAllowed))
  {
    var rerun := RerunSession(w.st);
    if rerun.Raise? {
      return Step(w, [DeleteOrigin], Some(rerun.fault));
    }
    var sent := SendFirst(w.(st := rerun.value), bank, qMsg, pMsg);
    r := Step(sent.w, [DeleteOrigin] + sent.effects, sent.fault);
  }

  /** `quiz`, dispatched on its callback data. */
  method HandleQuiz(w: World, bank: seq<Question>, cb: QuizCallback, qMsg: int, pMsg: int, sMsg: int)
    returns (r: Step)
    ensures TimersKept(w, r.w)
    ensures cb == QuizEnd ==> r == EndQuiz(w, bank, sMsg)
    ensures cb.QuizInit? ==> r.w.st.session.Some? && r.w.st.session.value.themeId == Some(cb.theme)
    ensures cb == QuizNext || cb == QuizHeal ==>
              w.st.session.Some? ==> r.w.st.session.Some? && ProgressKept(w.st.session.value, r.w.st.session.value)
  {
    match cb
    case QuizInit(theme, shuffle) =>
      r := InitQuiz(w, bank, theme, shuffle, qMsg, pMsg);
    case QuizIncorrect =>
      r := RerunQuiz(w, bank, qMsg, pMsg);
    case QuizEnd =>
      r := EndQuiz(w, bank, sMsg);
    case _ =>
      r := SendNext(w, bank, false, qMsg, pMsg);
  }

  /** `hint_requested`: reveals half of the answer's letters (rounded
      down), drawn without repetition from the upper-cased answer and shown
      sorted, then removes the hint button. A hint is charged only when the
      answer has more than one letter. */
  method HintRequested(w: World, bank: seq<Question>) returns (r: Step)
    ensures TimersKept(w, r.w)
    ensures r.fault.Some? <==> CurrentQuestion(w.st, bank).Raise?
    ensures r.fault.Some? ==> r.w == w && r.effects == []
    ensures r.fault.None? ==> r.w.st.session.Some? && w.st.session.Some?
    ensures r.fault.None? ==>
      var q := CurrentQuestion(w.st, bank).value;
      var s, s' := w.st.session.value, r.w.st.session.value;
      var n := |q.correctAnswer|;
      && r.w.st.user == w.st.user && r.w.st.session.Some?
      && s'.hints == (if n > 1 then s.hints - 1 else s.hints)
      && s' == s.(hints := s'.hints)
      && |r.effects| == 2 && r.effects[1] == RemoveOriginButtons
      && (n > 1 ==>
            && r.effects[0].ShowHint? && r.effects[0].length == n
            && |r.effects[0].letters| == n / 2 < n
            && SortedChars(r.effects[0].letters)
            && multiset(r.effects[0].letters) <= multiset(Upper(q.correctAnswer)))
      && (n <= 1 ==> r.effects[0] == ShowSingleAnswerHint)
  {
    var cur := CurrentQuestion(w.st, bank);
    if cur.Raise? {
      return Step(w, [], Some(cur.fault));
    }
    var answer := cur.value.correctAnswer;
    var n := |answer|;
    var upper := Upper(answer);
    assert upper == upper[..n / 2] + upper[n / 2..];
    var drawn :| |drawn| == n / 2 && multiset(drawn) <= multiset(upper);
    var shown := SortString(drawn);
    var st' := w.st;
    var alert := ShowSingleAnswerHint;
    if n > 1 {
      alert := ShowHint(shown, n);
      st' := DecreaseHints(w.st).value;
    }
    r := Step(w.(st := st'), [alert, RemoveOriginButtons], None);
  }
}
