/** The persistent records of the bot and the CRUD operations of
    `services/entities_service.py` on them.

    Every operation reads and writes the rows of one Telegram user, so the
    store is modelled per user: the `users` row and the optional `sessions`
    row that belongs to it. The `questions` table is read-only reference
    data and is passed in as a list of rows. */
module Entities {
  import opened Wrappers
  import opened Builtins
  import Utility

  // ---------------------------------------------------------------------
  // Records

  /** A row of `users`. The three theme lists are integer arrays of theme
      ids; an entry is `None` where the array holds SQL `NULL`, which is
      what an exam session's missing theme is stored as when a quiz
      handler marks it. */
  datatype User = User(
    hintsAllowed: bool,
    examBest: int,
    helpAlertCounter: int,
    themesTried: seq<Option<int>>,
    themesDoneParticular: seq<Option<int>>,
    themesDoneFull: seq<Option<int>>)

  /** A row of `sessions`. A practice session names its theme; an exam
      session has none. The four message ids point at the question, poll,
      answer-feedback and summary messages last sent for this session. */
  datatype Session = Session(
    themeId: Option<int>,
    questionsQueue: seq<int>,
    incorrectQuestions: seq<int>,
    progress: int,
    questionsTotal: int,
    hints: int,
    hintsTotal: int,
    curQMsg: Option<int>,
    curPMsg: Option<int>,
    curAMsg: Option<int>,
    curSMsg: Option<int>)

  /** A row of `questions`: the raw option lines and the correct letters. */
  datatype Question = Question(
    id: int,
    title: string,
    answers: seq<string>,
    correctAnswer: string,
    themeId: int)

  /** What the store holds for one user: at most one session, by
      construction of the `Option`. */
  datatype Store = Store(user: User, session: Option<Session>)

  /** The four message slots of `save_msg_id`, flags `q`, `p`, `a`, `s`. */
  datatype Slot = QSlot | PSlot | ASlot | SSlot

  /** The fixed size of an exam. */
  const ExamSize: int := 35

  // ---------------------------------------------------------------------
  // Reading the question bank

  function QuestionId(q: Question): int {
    q.id
  }

  function Ids(qs: seq<Question>): (ids: seq<int>)
    ensures |ids| == |qs|
    ensures forall k :: 0 <= k < |qs| ==> ids[k] == qs[k].id
  {
    seq(|qs|, k requires 0 <= k < |qs| => qs[k].id)
  }

  /** The rows of `questions` that belong to one theme, in table order. */
  function ThemeQuestions(bank: seq<Question>, theme: int): (qs: seq<Question>)
    ensures forall q :: q in qs <==> q in bank && q.themeId == theme
  {
    var qs := Filter(bank, (q: Question) => q.themeId == theme);
    assert forall q :: (q in qs <==> q in multiset(qs)) && (q in bank <==> q in multiset(bank));
    qs
  }

  /** `get_questions_with_len_by_theme`: the theme's question ids ordered
      by id. */
  function ThemeQuestionIds(bank: seq<Question>, theme: int): (ids: seq<int>)
    ensures SortedBy(ids, (x: int) => x)
    ensures multiset(ids) == multiset(Ids(ThemeQuestions(bank, theme)))
  {
    SortBy(Ids(ThemeQuestions(bank, theme)), (x: int) => x)
  }

  /** The first row with the given id, as `.first()` returns it. */
  function FindQuestion(bank: seq<Question>, id: int): (r: Option<Question>)
    ensures r.Some? ==> r.value in bank && r.value.id == id
    ensures r.None? ==> forall q :: q in bank ==> q.id != id
  {
    if |bank| == 0 then None
    else if bank[0].id == id then Some(bank[0])
    else FindQuestion(bank[1..], id)
  }

  predicate UniqueIds(bank: seq<Question>) {
    forall i, j :: 0 <= i < j < |bank| ==> bank[i].id != bank[j].id
  }

  /** Every value occurs at most once. */
  predicate NoDuplicates(s: seq<int>) {
    forall x | x in s :: multiset(s)[x] <= 1
  }

  // ---------------------------------------------------------------------
  // User operations

  /** `array_remove(list, theme)`: every occurrence of the theme goes, the
      other entries stay in order. PostgreSQL compares with `IS NOT
      DISTINCT FROM` here, so removing `NULL` removes the `NULL` entries. */
  function Without(s: seq<Option<int>>, theme: Option<int>): (r: seq<Option<int>>)
    ensures forall t :: t in r <==> t in s && t != theme
  {
    var r := Filter(s, (t: Option<int>) => t != theme);
    assert forall t :: t in r <==> multiset(r)[t] > 0;
    assert forall t :: t in s <==> multiset(s)[t] > 0;
    r
  }

  /** `update_themes_progress`. `success` is `Some(true)` for "done in
      full", `Some(false)` for "done in part" and `None` for "tried".
      `array_remove` drops every occurrence. The theme is `None` when the
      caller passes an exam session's missing theme; `array_append` then
      stores `NULL`. */
  function UpdateThemesProgress(u: User, theme: Option<int>, success: Option<bool>): (u': User)
    ensures theme in u.themesDoneFull ==> u' == u
    ensures u'.hintsAllowed == u.hintsAllowed && u'.examBest == u.examBest
         && u'.helpAlertCounter == u.helpAlertCounter
    ensures theme !in u.themesDoneFull && success == Some(true) ==>
              && u'.themesDoneFull == u.themesDoneFull + [theme]
              && theme !in u'.themesDoneParticular && theme !in u'.themesTried
              && (forall t :: t != theme ==>
                    (t in u'.themesDoneParticular <==> t in u.themesDoneParticular)
                    && (t in u'.themesTried <==> t in u.themesTried))
    ensures theme !in u.themesDoneFull && success == Some(false) ==>
              if theme in u.themesDoneParticular then u' == u
              else
                && u'.themesDoneFull == u.themesDoneFull
                && u'.themesDoneParticular == u.themesDoneParticular + [theme]
                && theme !in u'.themesTried
                && (forall t :: t != theme ==> (t in u'.themesTried <==> t in u.themesTried))
    ensures theme !in u.themesDoneFull && success == None ==>
              u' == u.(themesTried := u.themesTried + [theme])
  {
    if theme in u.themesDoneFull then u
    else match success
      case Some(true) =>
        u.(themesDoneFull := u.themesDoneFull + [theme],
           themesDoneParticular := Without(u.themesDoneParticular, theme),
           themesTried := Without(u.themesTried, theme))
      case Some(false) =>
        if theme in u.themesDoneParticular then u
        else
          u.(themesDoneParticular := u.themesDoneParticular + [theme],
             themesTried := Without(u.themesTried, theme))
      case None =>
        u.(themesTried := u.themesTried + [theme])
  }

  /** No theme sits in two of the three progress lists. */
  predicate ProgressDisjoint(u: User) {
    && (forall t | t in u.themesDoneFull ::
          t !in u.themesDoneParticular && t !in u.themesTried)
    && (forall t | t in u.themesDoneParticular :: t !in u.themesTried)
  }

  /** Promotions keep the three lists disjoint; marking a theme as tried
      does too, as long as the theme is not already done in part. */
  lemma ThemesProgressKeepsDisjoint(u: User, theme: Option<int>, success: Option<bool>)
    requires ProgressDisjoint(u)
    requires success == None ==> theme !in u.themesDoneParticular
    ensures ProgressDisjoint(UpdateThemesProgress(u, theme, success))
  {
  }

  /** Marking a theme as tried when it is already done in part breaks the
      disjointness: the guard in the quiz handler is what prevents it. */
  lemma TriedAfterParticularOverlaps(u: User, theme: Option<int>)
    requires theme in u.themesDoneParticular && theme !in u.themesDoneFull
    ensures !ProgressDisjoint(UpdateThemesProgress(u, theme, None))
  {
    var u' := UpdateThemesProgress(u, theme, None);
    assert theme in u'.themesDoneParticular && theme in u'.themesTried;
  }

  /** `update_user_exam_best`: the best score only ever grows. */
  function UpdateUserExamBest(u: User, score: int): (u': User)
    ensures u'.examBest >= u.examBest && u'.examBest >= score
    ensures u'.examBest == u.examBest || u'.examBest == score
    ensures u' == u.(examBest := u'.examBest)
  {
    if score > u.examBest then u.(examBest := score) else u
  }

  /** `change_hints_policy`. */
  function ChangeHintsPolicy(u: User): (u': User)
    ensures u'.hintsAllowed != u.hintsAllowed
    ensures u' == u.(hintsAllowed := u'.hintsAllowed)
  {
    u.(hintsAllowed := !u.hintsAllowed)
  }

  /** `increase_help_alert_counter`. */
  function IncreaseHelpAlertCounter(u: User): (u': User)
    ensures u'.helpAlertCounter == u.helpAlertCounter + 1
    ensures u' == u.(helpAlertCounter := u'.helpAlertCounter)
  {
    u.(helpAlertCounter := u.helpAlertCounter + 1)
  }

  // ---------------------------------------------------------------------
  // Session creation

  /** A fresh session as both creators build it: nothing answered, no
      message sent yet. */
  function NewSession(theme: Option<int>, queue: seq<int>, total: int, hints: int): (s: Session)
    ensures s.progress == 0 && s.incorrectQuestions == []
    ensures s.curQMsg.None? && s.curPMsg.None? && s.curAMsg.None? && s.curSMsg.None?
  {
    Session(theme, queue, [], 0, total, hints, hints, None, None, None, None)
  }

  /** `math.ceil(total / 10)`, stated without division. */
  predicate TenthRoundedUp(hints: int, total: int) {
    && 10 * hints >= total
    && (total == 0 ==> hints == 0)
    && (total > 0 ==> 10 * (hints - 1) < total)
  }

  /** What a successful `init_session` leaves behind: the theme's question
      ids, ascending unless shuffled, nothing answered, no message sent, and
      a tenth of the questions as hints. */
  predicate FreshQuizSession(s: Session, bank: seq<Question>, theme: int, shuffle: bool) {
    && s.themeId == Some(theme)
    && s.progress == 0 && s.incorrectQuestions == []
    && multiset(s.questionsQueue) == multiset(Ids(ThemeQuestions(bank, theme)))
    && (!shuffle ==> SortedBy(s.questionsQueue, (x: int) => x))
    && s.questionsTotal == |s.questionsQueue|
    && s.hints == s.hintsTotal && TenthRoundedUp(s.hints, s.questionsTotal)
    && s.curQMsg.None? && s.curPMsg.None? && s.curAMsg.None? && s.curSMsg.None?
  }

  /** `init_session`. Refuses, changing nothing, when a session exists.
      Otherwise it creates a fresh session for the theme; the hint count
      does not depend on the user's hint policy. */
  method InitSession(st: Store, bank: seq<Question>, theme: int, shuffle: bool)
    returns (created: bool, st': Store)
    ensures created <==> st.session.None?
    ensures !created ==> st' == st
    ensures created ==> st'.user == st.user && st'.session.Some?
    ensures created ==> FreshQuizSession(st'.session.value, bank, theme, shuffle)
  {
    if st.session.Some? {
      return false, st;
    }
    var ordered := ThemeQuestionIds(bank, theme);
    var queue := ordered;
    if shuffle {
      queue :| multiset(queue) == multiset(ordered);
    }
    var total := |queue|;
    st' := st.(session := Some(NewSession(Some(theme), queue, total, CeilTenth(total))));
    created := true;
  }

  /** Whether a question may enter an exam: its options parse and there
      are at most four of them. A question whose options do not parse makes
      the whole creation raise. */
  function Qualifies(q: Question): (r: Result<bool>)
    ensures r.Raise? ==> r.fault == IndexError
  {
    var opts :- Utility.ParseAnswersFromQuestion(q.answers);
    Ok(|opts| <= 4)
  }

  /** The second-round candidates: the questions not already picked that
      qualify, in table order. */
  function Remaining(bank: seq<Question>, picked: seq<Question>): (r: Result<seq<Question>>)
    ensures r.Raise? ==> r.fault == IndexError
    ensures r.Ok? ==> forall q :: q in r.value ==>
              q in bank && q !in picked && Qualifies(q) == Ok(true)
    ensures r.Ok? ==> forall q :: multiset(r.value)[q] <= multiset(bank)[q]
  {
    if |bank| == 0 then Ok([])
    else
      var rest :- Remaining(bank[1..], picked);
      assert bank == [bank[0]] + bank[1..];
      if bank[0] in picked then Ok(rest)
      else
        var ok :- Qualifies(bank[0]);
        Ok(if ok then [bank[0]] + rest else rest)
  }

  lemma UniqueIdsNoDuplicateRows(bank: seq<Question>, q: Question)
    requires UniqueIds(bank)
    ensures multiset(bank)[q] <= 1
  {
    if |bank| > 0 {
      assert bank == [bank[0]] + bank[1..];
      UniqueIdsNoDuplicateRows(bank[1..], q);
      if q == bank[0] {
        assert q !in bank[1..];
      }
    }
  }

  lemma SameIdSameRow(bank: seq<Question>, a: Question, b: Question)
    requires UniqueIds(bank) && a in bank && b in bank && a.id == b.id
    ensures a == b
  {
    var i :| 0 <= i < |bank| && bank[i] == a;
    var j :| 0 <= j < |bank| && bank[j] == b;
    assert !(i < j) && !(j < i);
  }

  /** Distinct rows of a table with unique ids have distinct ids. */
  lemma DistinctRowsDistinctIds(bank: seq<Question>, qs: seq<Question>)
    requires UniqueIds(bank)
    requires forall q :: q in qs ==> q in bank
    requires forall q :: multiset(qs)[q] <= 1
    ensures NoDuplicates(Ids(qs))
  {
    if |qs| > 0 {
      var rest := qs[1..];
      TailOfDistinctRows(qs);
      DistinctRowsDistinctIds(bank, rest);
      if qs[0].id in Ids(rest) {
        var k :| 0 <= k < |rest| && Ids(rest)[k] == qs[0].id;
        SameIdSameRow(bank, qs[0], rest[k]);
      }
      assert Ids(qs) == [qs[0].id] + Ids(rest);
      ConsNoDuplicates(qs[0].id, Ids(rest));
    }
  }

  lemma TailOfDistinctRows(qs: seq<Question>)
    requires |qs| > 0
    requires forall q :: multiset(qs)[q] <= 1
    ensures forall q :: multiset(qs[1..])[q] <= 1
    ensures qs[0] !in qs[1..]
  {
    assert qs == [qs[0]] + qs[1..];
    forall q ensures multiset(qs[1..])[q] <= 1 {
      assert multiset(qs)[q] == multiset([qs[0]])[q] + multiset(qs[1..])[q];
    }
    assert multiset(qs)[qs[0]] == 1 + multiset(qs[1..])[qs[0]];
  }

  lemma ConsNoDuplicates(x: int, s: seq<int>)
    requires NoDuplicates(s) && x !in s
    ensures NoDuplicates([x] + s)
  {
    forall y | y in [x] + s ensures multiset([x] + s)[y] <= 1 {
      assert multiset([x] + s)[y] == multiset([x])[y] + multiset(s)[y];
    }
  }

  /** No value occurs twice. */
  predicate Distinct<T(==)>(s: seq<T>) {
    forall i, j :: 0 <= i < j < |s| ==> s[i] != s[j]
  }

  lemma DistinctCounts<T>(s: seq<T>, x: T)
    requires Distinct(s)
    ensures multiset(s)[x] <= 1
  {
    if |s| > 0 {
      assert s == [s[0]] + s[1..];
      DistinctCounts(s[1..], x);
      if x == s[0] {
        assert x !in s[1..];
      }
    }
  }

  /** Under the table's keys (unique question ids, unique theme ids) the
      picked questions are distinct rows. */
  lemma ExamPicksDistinct(bank: seq<Question>, firstRound: seq<Question>,
                          rem: seq<Question>, extra: seq<Question>)
    requires UniqueIds(bank)
    requires Distinct(firstRound)
    requires forall q :: multiset(rem)[q] <= multiset(bank)[q]
    requires forall q :: q in rem ==> q !in firstRound
    requires multiset(extra) <= multiset(rem)
    ensures forall q :: multiset(firstRound + extra)[q] <= 1
  {
    forall q ensures multiset(firstRound + extra)[q] <= 1 {
      DistinctCounts(firstRound, q);
      UniqueIdsNoDuplicateRows(bank, q);
      if multiset(extra)[q] > 0 {
        assert q in rem;
      }
    }
  }

  /** The first round of `init_exam_session`: for every theme, in table
      order, one random question of the theme, kept when it qualifies. */
  /** The first-round picks so far: qualifying questions of the bank from
      the first `n` themes, and with distinct themes one per theme. */
  predicate PicksFrom(bank: seq<Question>, themes: seq<int>, n: int, picks: seq<Question>)
    requires 0 <= n <= |themes|
  {
    && (forall q :: q in picks ==> q in bank && q.themeId in themes[..n] && Qualifies(q) == Ok(true))
    && (Distinct(themes) ==>
          forall a, b :: 0 <= a < b < |picks| ==> picks[a].themeId != picks[b].themeId)
  }

  /** Skipping a theme keeps the picks valid. */
  lemma PicksStay(bank: seq<Question>, themes: seq<int>, i: int, picks: seq<Question>)
    requires 0 <= i < |themes| && PicksFrom(bank, themes, i, picks)
    ensures PicksFrom(bank, themes, i + 1, picks)
  {
    assert themes[..i + 1] == themes[..i] + [themes[i]];
  }

  /** A qualifying pick from theme `i` extends the picks, and with distinct
      themes it is the only pick of its theme. */
  lemma PickExtends(bank: seq<Question>, themes: seq<int>, i: int, picks: seq<Question>, pick: Question)
    requires 0 <= i < |themes| && PicksFrom(bank, themes, i, picks)
    requires pick in bank && pick.themeId == themes[i] && Qualifies(pick) == Ok(true)
    ensures PicksFrom(bank, themes, i + 1, picks + [pick])
  {
    PicksStay(bank, themes, i, picks);
    var picks' := picks + [pick];
    assert themes[..i + 1] == themes[..i] + [themes[i]];
    assert forall q :: q in picks' ==> q in picks || q == pick;
    if Distinct(themes) {
      assert themes[i] !in themes[..i];
      forall a, b | 0 <= a < b < |picks'| ensures picks'[a].themeId != picks'[b].themeId {
        if b == |picks| {
          assert picks'[a] in picks;
        }
      }
    }
  }

  method DrawFirstRound(bank: seq<Question>, themes: seq<int>) returns (r: Result<seq<Question>>)
    ensures r.Raise? ==> r.fault == IndexError
    ensures r.Ok? ==> forall q :: q in r.value ==>
              q in bank && q.themeId in themes && Qualifies(q) == Ok(true)
    ensures r.Ok? ==> |r.value| <= |themes|
    ensures r.Ok? && Distinct(themes) ==>
              forall i, j :: 0 <= i < j < |r.value| ==> r.value[i].themeId != r.value[j].themeId
  {
    var picks := [];
    var i := 0;
    while i < |themes|
      invariant 0 <= i <= |themes| && |picks| <= i
      invariant PicksFrom(bank, themes, i, picks)
    {
      var qs := ThemeQuestions(bank, themes[i]);
      if |qs| > 0 {
        var pick :| pick in qs;
        var ok := Qualifies(pick);
        if ok.Raise? {
          return Raise(ok.fault);
        }
        if ok.value {
          PickExtends(bank, themes, i, picks, pick);
          picks := picks + [pick];
          i := i + 1;
          continue;
        }
      }
      PicksStay(bank, themes, i, picks);
      i := i + 1;
    }
    assert themes[..i] == themes;
    return Ok(picks);
  }

  /** Each queued id is the id of a qualifying question of the bank. */
  lemma QueueFromPicks(bank: seq<Question>, picked: seq<Question>, queue: seq<int>)
    requires forall q :: q in picked ==> q in bank && Qualifies(q) == Ok(true)
    requires multiset(queue) == multiset(Ids(picked))
    ensures forall id :: id in queue ==>
              exists q :: q in bank && q.id == id && Qualifies(q) == Ok(true)
  {
    forall id | id in queue
      ensures exists q :: q in bank && q.id == id && Qualifies(q) == Ok(true)
    {
      assert id in multiset(Ids(picked));
      var k :| 0 <= k < |picked| && Ids(picked)[k] == id;
      assert picked[k] in picked;
    }
  }

  /** The exam's questions before shuffling: the first round, topped up to
      35 with a sample, without replacement, of the qualifying questions
      not yet picked. */
  method ExamPicks(bank: seq<Question>, themes: seq<int>, firstRound: seq<Question>)
    returns (r: Result<seq<Question>>)
    requires forall q :: q in firstRound ==> q in bank && Qualifies(q) == Ok(true)
    requires Distinct(themes) ==>
               forall i, j :: 0 <= i < j < |firstRound| ==> firstRound[i].themeId != firstRound[j].themeId
    ensures r.Raise? ==> r.fault == ValueError || r.fault == IndexError
    ensures r.Ok? ==> forall q :: q in r.value ==> q in bank && Qualifies(q) == Ok(true)
    ensures r.Ok? ==> |r.value| == (if |firstRound| < ExamSize then ExamSize else |firstRound|)
    ensures r.Ok? ==> multiset(Ids(firstRound)) <= multiset(Ids(r.value))
    ensures r.Ok? && UniqueIds(bank) && Distinct(themes) ==> NoDuplicates(Ids(r.value))
  {
    var missing := ExamSize - |firstRound|;
    if missing <= 0 {
      FirstRoundAlone(bank, themes, firstRound);
      return Ok(firstRound);
    }
    var rem := Remaining(bank, firstRound);
    if rem.Raise? {
      return Raise(rem.fault);
    }
    if missing > |rem.value| {
      return Raise(ValueError);
    }
    assert rem.value == rem.value[..missing] + rem.value[missing..];
    var extra :| |extra| == missing && multiset(extra) <= multiset(rem.value);
    TopUp(bank, themes, firstRound, rem.value, extra);
    return Ok(firstRound + extra);
  }

  /** With no top-up the first round is the whole draw. */
  lemma FirstRoundAlone(bank: seq<Question>, themes: seq<int>, firstRound: seq<Question>)
    requires forall q :: q in firstRound ==> q in bank
    requires Distinct(themes) ==>
               forall i, j :: 0 <= i < j < |firstRound| ==> firstRound[i].themeId != firstRound[j].themeId
    ensures UniqueIds(bank) && Distinct(themes) ==> NoDuplicates(Ids(firstRound))
  {
    if UniqueIds(bank) && Distinct(themes) {
      forall q ensures multiset(firstRound)[q] <= 1 {
        DistinctCounts(firstRound, q);
      }
      DistinctRowsDistinctIds(bank, firstRound);
    }
  }

  /** Topping the first round up with a sample of the remaining candidates
      keeps every pick a qualifying question, keeps the first round, and
      repeats no id. */
  lemma TopUp(bank: seq<Question>, themes: seq<int>, firstRound: seq<Question>,
              rem: seq<Question>, extra: seq<Question>)
    requires forall q :: q in firstRound ==> q in bank && Qualifies(q) == Ok(true)
    requires Distinct(themes) ==>
               forall i, j :: 0 <= i < j < |firstRound| ==> firstRound[i].themeId != firstRound[j].themeId
    requires forall q :: q in rem ==> q in bank && q !in firstRound && Qualifies(q) == Ok(true)
    requires forall q :: multiset(rem)[q] <= multiset(bank)[q]
    requires multiset(extra) <= multiset(rem)
    ensures forall q :: q in firstRound + extra ==> q in bank && Qualifies(q) == Ok(true)
    ensures multiset(Ids(firstRound)) <= multiset(Ids(firstRound + extra))
    ensures UniqueIds(bank) && Distinct(themes) ==> NoDuplicates(Ids(firstRound + extra))
  {
    var picked := firstRound + extra;
    assert Ids(picked) == Ids(firstRound) + Ids(extra);
    assert forall q :: q in extra ==> q in multiset(rem);
    if UniqueIds(bank) && Distinct(themes) {
      ExamPicksDistinct(bank, firstRound, rem, extra);
      DistinctRowsDistinctIds(bank, picked);
    }
  }

  /** `init_exam_session`. Refuses, changing nothing, when a session
      exists. Otherwise: one random question of every theme that has any
      (kept if it has at most four options), then a sample without
      replacement of qualifying questions not yet picked to make up 35,
      all shuffled. The total is 35 even when more than 35 themes supply a
      first-round question. Too few candidates raise `ValueError`; options
      that do not parse raise `IndexError`. The first-round picks are
      returned as well. */
  method InitExamSession(st: Store, bank: seq<Question>, themes: seq<int>)
    returns (r: Result<(bool, Store)>, firstRound: seq<Question>)
    ensures st.session.Some? ==> r == Ok((false, st))
    ensures r.Ok? && st.session.None? ==>
      var (created, st') := r.value;
      && created && st'.user == st.user && st'.session.Some?
      && var s := st'.session.value;
      && s.themeId.None? && s.questionsTotal == ExamSize
      && s.hints == 0 && s.hintsTotal == 0
      && s.progress == 0 && s.incorrectQuestions == []
      && s.curQMsg.None? && s.curPMsg.None? && s.curAMsg.None? && s.curSMsg.None?
      && (forall id :: id in s.questionsQueue ==>
            exists q :: q in bank && q.id == id && Qualifies(q) == Ok(true))
      && |s.questionsQueue| == (if |firstRound| < ExamSize then ExamSize else |firstRound|)
      && multiset(Ids(firstRound)) <= multiset(s.questionsQueue)
      && (UniqueIds(bank) && Distinct(themes) ==> NoDuplicates(s.questionsQueue))
    ensures r.Raise? ==> r.fault == ValueError || r.fault == IndexError
    ensures forall q :: q in firstRound ==> q in bank && q.themeId in themes
    ensures Distinct(themes) ==>
              forall i, j :: 0 <= i < j < |firstRound| ==> firstRound[i].themeId != firstRound[j].themeId
  {
    firstRound := [];
    if st.session.Some? {
      return Ok((false, st)), firstRound;
    }
    var first := DrawFirstRound(bank, themes);
    if first.Raise? {
      return Raise(first.fault), firstRound;
    }
    firstRound := first.value;
    var drawn := ExamPicks(bank, themes, firstRound);
    if drawn.Raise? {
      return Raise(drawn.fault), firstRound;
    }
    var picked := drawn.value;
    var queue :| multiset(queue) == multiset(Ids(picked));
    assert |queue| == |multiset(queue)| == |Ids(picked)| == |picked|;
    QueueFromPicks(bank, picked, queue);
    var session := NewSession(None, queue, ExamSize, 0);
    return Ok((true, st.(session := Some(session)))), firstRound;
  }

  // ---------------------------------------------------------------------
  // Session operations. Each one reads `user.session` unguarded, so with no
  // session the attribute access raises `AttributeError`.

  /** `rerun_session`: the mistakes become the new queue, in the order they
      were made. */
  function RerunSession(st: Store): (r: Result<Store>)
    ensures st.session.None? <==> r == Raise(AttributeError)
    ensures r.Ok? ==> r.value.user == st.user && r.value.session.Some?
    ensures r.Ok? ==>
      var s, s' := st.session.value, r.value.session.value;
      && s'.questionsQueue == s.incorrectQuestions
      && s'.incorrectQuestions == [] && s'.progress == 0
      && s'.questionsTotal == |s.incorrectQuestions|
      && s'.hints == s'.hintsTotal && TenthRoundedUp(s'.hints, s'.questionsTotal)
      && s'.themeId == s.themeId
      && MsgsOf(s') == MsgsOf(s)
  {
    match st.session
    case None => Raise(AttributeError)
    case Some(s) =>
      var total := |s.incorrectQuestions|;
      Ok(st.(session := Some(s.(questionsQueue := s.incorrectQuestions,
                                incorrectQuestions := [],
                                progress := 0,
                                questionsTotal := total,
                                hints := CeilTenth(total),
                                hintsTotal := CeilTenth(total)))))
  }

  /** `decrease_hints`: one hint fewer, with no lower bound. */
  function DecreaseHints(st: Store): (r: Result<Store>)
    ensures st.session.None? <==> r == Raise(AttributeError)
    ensures r.Ok? ==> r.value.user == st.user && r.value.session.Some?
    ensures r.Ok? ==> r.value.session.value.hints == st.session.value.hints - 1
    ensures r.Ok? ==> SameBut(r.value.session.value, st.session.value, HintsField)
  {
    match st.session
    case None => Raise(AttributeError)
    case Some(s) => Ok(st.(session := Some(s.(hints := s.hints - 1))))
  }

  /** `increase_progress`: one step further, with no upper bound. */
  function IncreaseProgress(st: Store): (r: Result<Store>)
    ensures st.session.None? <==> r == Raise(AttributeError)
    ensures r.Ok? ==> r.value.user == st.user && r.value.session.Some?
    ensures r.Ok? ==> r.value.session.value.progress == st.session.value.progress + 1
    ensures r.Ok? ==> SameBut(r.value.session.value, st.session.value, ProgressField)
  {
    match st.session
    case None => Raise(AttributeError)
    case Some(s) => Ok(st.(session := Some(s.(progress := s.progress + 1))))
  }

  /** `append_incorrects`: `array_append`, duplicates kept. */
  function AppendIncorrects(st: Store, id: int): (r: Result<Store>)
    ensures st.session.None? <==> r == Raise(AttributeError)
    ensures r.Ok? ==> r.value.user == st.user && r.value.session.Some?
    ensures r.Ok? ==>
      var before, after := st.session.value.incorrectQuestions, r.value.session.value.incorrectQuestions;
      && |after| == |before| + 1 && after[..|before|] == before && after[|before|] == id
    ensures r.Ok? ==> SameBut(r.value.session.value, st.session.value, IncorrectsField)
  {
    match st.session
    case None => Raise(AttributeError)
    case Some(s) => Ok(st.(session := Some(s.(incorrectQuestions := s.incorrectQuestions + [id]))))
  }

  /** The fields the counter operations touch. */
  datatype Field = HintsField | ProgressField | IncorrectsField

  /** The two sessions agree on every field except possibly `f`. */
  predicate SameBut(a: Session, b: Session, f: Field) {
    && a.themeId == b.themeId && a.questionsQueue == b.questionsQueue
    && a.questionsTotal == b.questionsTotal && a.hintsTotal == b.hintsTotal
    && MsgsOf(a) == MsgsOf(b)
    && (f != HintsField ==> a.hints == b.hints)
    && (f != ProgressField ==> a.progress == b.progress)
    && (f != IncorrectsField ==> a.incorrectQuestions == b.incorrectQuestions)
  }

  /** The message id stored in one slot. */
  function MsgOf(s: Session, slot: Slot): Option<int> {
    match slot
    case QSlot => s.curQMsg
    case PSlot => s.curPMsg
    case ASlot => s.curAMsg
    case SSlot => s.curSMsg
  }

  /** The four message slots, in the order `q`, `p`, `a`, `s`. */
  function MsgsOf(s: Session): seq<Option<int>> {
    [s.curQMsg, s.curPMsg, s.curAMsg, s.curSMsg]
  }

  /** `save_msg_id`: writes one slot and nothing else; with no session it
      does nothing. */
  function SaveMsgId(st: Store, msg: Option<int>, slot: Slot): (st': Store)
    ensures st.session.None? ==> st' == st
    ensures st'.user == st.user && st'.session.Some? == st.session.Some?
    ensures st.session.Some? ==>
      var s, s' := st.session.value, st'.session.value;
      && MsgOf(s', slot) == msg
      && (forall k :: k != slot ==> MsgOf(s', k) == MsgOf(s, k))
      && s'.questionsQueue == s.questionsQueue && s'.incorrectQuestions == s.incorrectQuestions
      && s'.progress == s.progress && s'.questionsTotal == s.questionsTotal
      && s'.hints == s.hints && s'.hintsTotal == s.hintsTotal && s'.themeId == s.themeId
  {
    match st.session
    case None => st
    case Some(s) =>
      var s' := match slot
        case QSlot => s.(curQMsg := msg)
        case PSlot => s.(curPMsg := msg)
        case ASlot => s.(curAMsg := msg)
        case SSlot => s.(curSMsg := msg);
      st.(session := Some(s'))
  }

  /** Writing a slot twice keeps only the second write, and writes to
      different slots commute. */
  lemma SaveMsgIdLastWins(st: Store, m1: Option<int>, m2: Option<int>, a: Slot, b: Slot)
    ensures SaveMsgId(SaveMsgId(st, m1, a), m2, a) == SaveMsgId(st, m2, a)
    ensures a != b ==>
      SaveMsgId(SaveMsgId(st, m1, a), m2, b) == SaveMsgId(SaveMsgId(st, m2, b), m1, a)
  {
  }

  /** The ids `clear_session` deletes: every truthy slot, in `q`, `p`, `a`,
      `s` order. */
  function TruthyMsgs(msgs: seq<Option<int>>): (ids: seq<int>)
    ensures |ids| <= |msgs|
    ensures forall id :: id in ids <==> id != 0 && Some(id) in msgs
  {
    if |msgs| == 0 then []
    else (if Truthy(msgs[0]) then [msgs[0].value] else []) + TruthyMsgs(msgs[1..])
  }

  /** `clear_session`: deletes the session's messages and its row. */
  function ClearSession(st: Store): (r: (Store, seq<int>))
    ensures r.0 == Store(st.user, None)
    ensures st.session.None? ==> r.1 == []
    ensures st.session.Some? ==>
      forall id :: id in r.1 <==> id != 0 && Some(id) in MsgsOf(st.session.value)
  {
    match st.session
    case None => (st, [])
    case Some(s) => (st.(session := None), TruthyMsgs(MsgsOf(s)))
  }

  /** Clearing twice deletes nothing more the second time. */
  lemma ClearSessionIdempotent(st: Store)
    ensures ClearSession(ClearSession(st).0) == (ClearSession(st).0, [])
  {
  }

  /** `get_cur_question_with_count`: the question at index `progress` of
      the queue (Python indexing, so a negative progress counts from the
      end) and the queue length. The row lookup yields `None` for an id no
      longer in the table. */
  function GetCurQuestionWithCount(st: Store, bank: seq<Question>): (r: Result<(Option<Question>, int)>)
    ensures st.session.None? ==> r == Raise(AttributeError)
    ensures st.session.Some? ==>
      var s := st.session.value;
      && (r.Ok? <==> -|s.questionsQueue| <= s.progress < |s.questionsQueue|)
      && (r.Raise? ==> r.fault == IndexError)
      && (r.Ok? ==> r.value.1 == |s.questionsQueue|)
      && (r.Ok? ==>
            var id := PyIndex(s.questionsQueue, s.progress).value;
            match r.value.0
            case Some(q) => q in bank && q.id == id
            case None => forall q :: q in bank ==> q.id != id)
  {
    match st.session
    case None => Raise(AttributeError)
    case Some(s) =>
      var id :- PyIndex(s.questionsQueue, s.progress);
      Ok((FindQuestion(bank, id), |s.questionsQueue|))
  }

  /** The current question as the handlers use it: a missing row surfaces
      as `AttributeError` when its fields are read. */
  function CurrentQuestion(st: Store, bank: seq<Question>): (r: Result<Question>)
    ensures st.session.None? ==> r == Raise(AttributeError)
    ensures r.Ok? ==> st.session.Some? && r.value in bank
                      && PyIndex(st.session.value.questionsQueue, st.session.value.progress) == Ok(r.value.id)
    ensures r.Raise? && st.session.Some? ==>
      var at := PyIndex(st.session.value.questionsQueue, st.session.value.progress);
      || (at.Raise? && r.fault == IndexError)
      || (at.Ok? && r.fault == AttributeError && forall q :: q in bank ==> q.id != at.value)
  {
    var pair :- GetCurQuestionWithCount(st, bank);
    if pair.0.None? then Raise(AttributeError) else Ok(pair.0.value)
  }

  /** Answering moves the current question one place along the queue. */
  lemma ProgressAdvancesQuestion(st: Store, bank: seq<Question>)
    requires st.session.Some?
    requires 0 <= st.session.value.progress && st.session.value.progress + 1 < |st.session.value.questionsQueue|
    ensures IncreaseProgress(st).Ok?
    ensures var s := st.session.value;
            GetCurQuestionWithCount(IncreaseProgress(st).value, bank)
              == Ok((FindQuestion(bank, s.questionsQueue[s.progress + 1]), |s.questionsQueue|))
  {
  }

  /** Appending every id of `ids` in turn, as the answers of a round do. */
  function AppendAll(st: Store, ids: seq<int>): (r: Result<Store>)
    ensures st.session.None? ==> r == Raise(AttributeError)
    ensures st.session.Some? ==> r.Ok? && r.value.session.Some?
    decreases |ids|
  {
    if |ids| == 0 then (if st.session.None? then Raise(AttributeError) else Ok(st))
    else
      var st' :- AppendIncorrects(st, ids[0]);
      AppendAll(st', ids[1..])
  }

  lemma {:induction false} AppendAllIncorrects(st: Store, ids: seq<int>)
    requires st.session.Some?
    ensures AppendAll(st, ids).value.session.value.incorrectQuestions
              == st.session.value.incorrectQuestions + ids
    ensures AppendAll(st, ids).value.session.value.questionsQueue == st.session.value.questionsQueue
    decreases |ids|
  {
    if |ids| > 0 {
      var st' := AppendIncorrects(st, ids[0]).value;
      AppendAllIncorrects(st', ids[1..]);
      assert st.session.value.incorrectQuestions + ids
          == st'.session.value.incorrectQuestions + ids[1..];
    }
  }

  /** A rerun after a round replays exactly the mistakes of that round, in
      the order they were made. */
  lemma RerunReplaysMistakes(st: Store, mistakes: seq<int>)
    requires st.session.Some? && st.session.value.incorrectQuestions == []
    ensures RerunSession(AppendAll(st, mistakes).value).Ok?
    ensures var s' := RerunSession(AppendAll(st, mistakes).value).value.session.value;
            s'.questionsQueue == mistakes && s'.questionsTotal == |mistakes|
  {
    AppendAllIncorrects(st, mistakes);
  }
}
