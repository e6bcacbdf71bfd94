# Bookkeeper exam bot: session engine, handlers and parsers in Dafny

This project models the core of a Telegram bot that drills accounting
questions. The bot runs two kinds of session:

- a practice **quiz** over one theme;
- a timed **exam** of 35 questions drawn across themes.

The model covers the following parts of the bot:

- **Session store** (`services/entities_service.py`). It holds a user record,
  their optional session, and the operations that create, rerun, advance and
  clear the session.
- **Handlers.** The quiz and exam callbacks, the poll-answer handler, the
  commands (`/start`, `/exam`, `/restart`, `/heal`, `/change_hints_policy`)
  and the section and theme buttons. Each decides what the bot sends and what
  it stores.
- **Exam timer.** The registry of exam timers (`TASKS`) and the timeout
  wake-up.
- **Answer canonicalisation** (`services/utility_service.py`, the
  `questions/router.py` check) and the **username fallback** of the logging
  middlewares.
- **Question-bank parser** (`utils/raw_parser.py`). It turns the question file
  and the answer file into a nested section → theme → question map.

How the model is built:

- Everything is modelled for one user, because every operation touches only
  the caller's rows.
- A handler becomes a step `World → Step(world, effects, fault)`:
  - the world holds the store, the user's timer entry and the set of timers
    still alive;
  - the effects are the messages the bot would send, delete or edit, in
    order;
  - the fault is the Python exception that escapes, if any.
- Handlers often write state before they raise, and a step keeps both. Python
  exceptions are `Raise(fault)` values of a `Result` type.
- Random choices (`shuffle`, `choice`, `sample`) are nondeterministic picks.
  Their contracts state what holds for every pick: a permutation, a
  sub-multiset, one pick per theme.
- Time is an integer number of microseconds, passed in as `now`.
- Message ids of messages the bot sends are parameters.

Files, one module each: `wrappers.dfy`, `builtins.dfy` (Python string and
sequence semantics), `entities.dfy`, `effects.dfy`, `utility.dfy`,
`poll.dfy`, `quiz.dfy`, `exam.dfy`, `commands.dfy`, `timers.dfy`,
`buttons.dfy`, `router.dfy`, `raw_parser.dfy`, `usernames.dfy`.

## Model

| member | source | states |
|---|---|---|
| Builtins.PySlice | server/src/utils/raw_parser.py:78 | Python slicing: out-of-range bounds are clamped, and in-range bounds give the ordinary subsequence |
| Builtins.DigitValue | server/src/handlers/buttons_handler.py:60-64 | `int(c)` of one ASCII character is its digit value for `0`..`9` and raises `ValueError` otherwise |
| Builtins.SortStringEqIff | server/src/questions/router.py:76 | two strings sort to the same string exactly when they hold the same characters the same number of times |
| Builtins.SortByStable | server/src/services/utility_service.py:39 | sorting by first character is stable: the entries sharing a key keep their relative order |
| Entities.UpdateThemesProgress | server/src/services/entities_service.py:93-167 | a theme done in full never changes; `True` moves the theme to done-in-full and out of the other lists; `False` moves it to particular unless it is there; `None` appends it to tried; a missing theme is handled like any id and stored as `NULL`; no other field changes |
| Entities.ThemesProgressKeepsDisjoint | server/src/services/entities_service.py:113-163 | the three theme lists stay pairwise disjoint under every update, except that `None` on a theme done in part makes it tried as well |
| Entities.TriedAfterParticularOverlaps | server/src/services/entities_service.py:160-163 | `None` on a theme done in part puts it in two lists at once |
| Entities.UpdateUserExamBest | server/src/services/entities_service.py:319-341 | the best becomes the larger of the old best and the score; nothing else changes |
| Entities.ChangeHintsPolicy | server/src/services/entities_service.py:75-91 | the hints flag flips and nothing else changes |
| Entities.IncreaseHelpAlertCounter | server/src/services/entities_service.py:187-204 | the counter rises by one and nothing else changes |
| Entities.ThemeQuestionIds | server/src/services/entities_service.py:534-548 | the theme's question ids, ascending, with the theme's questions as multiset |
| Entities.InitSession | server/src/services/entities_service.py:343-387 | creates a session exactly when there is none, otherwise changes nothing; a new practice session has progress 0, no mistakes, the theme's ids (ascending or shuffled), total = queue length and hints = ceil(total/10), whatever the hints policy |
| Entities.DrawFirstRound | server/src/services/entities_service.py:276-292 | the first exam round picks at most one question per theme, each with at most four options, and raises only `IndexError` |
| Entities.ExamPicksDistinct | server/src/services/entities_service.py:293-303 | first-round picks plus a sample of the remaining questions never repeat a question |
| Entities.InitExamSession | server/src/services/entities_service.py:242-317 | an existing session gives `False` and no change; a new exam session has no theme, total 35, no hints, a queue of qualifying questions containing the first round, and no repeated id when ids and themes are distinct |
| Entities.RerunSession | server/src/services/entities_service.py:389-418 | the queue becomes the old mistakes in order, mistakes and progress reset, total and hints follow the new queue, message ids stay |
| Entities.RerunReplaysMistakes | server/src/services/entities_service.py:408-414 | the mistakes appended during a round are exactly the next round's queue |
| Entities.DecreaseHints | server/src/services/entities_service.py:420-439 | hints drop by exactly one with no lower bound; no other field changes; no session raises `AttributeError` |
| Entities.IncreaseProgress | server/src/services/entities_service.py:484-503 | progress rises by exactly one with no upper bound; no other field changes |
| Entities.AppendIncorrects | server/src/services/entities_service.py:505-532 | the id is appended at the end, duplicates kept; no other field changes |
| Entities.SaveMsgId | server/src/services/entities_service.py:441-482 | only the slot named by the flag changes; without a session nothing changes |
| Entities.SaveMsgIdLastWins | server/src/services/entities_service.py:468-479 | saving twice to a slot keeps the last id, and saves to different slots commute |
| Entities.ClearSession | server/src/services/entities_service.py:206-239 | the session is gone afterwards, and the ids to delete are exactly its set, non-zero message ids |
| Entities.ClearSessionIdempotent | server/src/services/entities_service.py:217-239 | clearing twice is clearing once, and the second clear deletes nothing |
| Entities.GetCurQuestionWithCount | server/src/services/entities_service.py:550-567 | succeeds exactly when progress is a valid Python index into the queue, and returns the question with that id (or none) and the queue length |
| Entities.ProgressAdvancesQuestion | server/src/services/entities_service.py:550-567 | after one progress step the current question is the next id of the queue |
| Utility.TransliterateConcat | server/src/services/utility_service.py:16-19 | transliteration is character by character: the image of a concatenation is the concatenation of the images |
| Utility.TransliterateUnmapped | server/src/services/utility_service.py:16-19 | a text with no mapped character is returned unchanged |
| Utility.GroupOk | server/src/services/utility_service.py:31-38 | option grouping succeeds exactly when the first line is an option line and every line has at least two characters |
| Utility.GroupShape | server/src/services/utility_service.py:31-38 | each entry is a lowered option line followed by its lowered continuation lines joined with `", "` |
| Utility.ParseAnswersFromQuestion | server/src/services/utility_service.py:22-40 | one entry per option line, every entry an option, sorted by first character and a permutation of the grouped entries |
| Utility.NewlineKept | server/src/services/utility_service.py:34 | a newline inside an option survives, because the result of `replace` is dropped |
| Utility.PollLettersChosen | server/src/services/utility_service.py:52-56 | the selection holds one letter per chosen index in range, each the first character of a chosen answer |
| Utility.PollDependsOnChosenSet | server/src/services/utility_service.py:53-55 | duplicate and out-of-range ids change nothing: only the set of chosen indices matters |
| Utility.PollSelectionSorted | server/src/services/utility_service.py:39-55 | over answers sorted by first letter, the selection is sorted |
| Poll.ChooseNext | server/src/handlers/poll_handler.py:62-71 | the quiz callbacks go with a theme and the exam ones without; the end variant is chosen exactly when progress ≥ total − 1 |
| Poll.OnPollAnswer | server/src/handlers/poll_handler.py:25-106 | progress rises by one; the question is appended to the mistakes exactly when the sorted selection differs from the sorted correct answer; the forward flag is progress < total − 1; the answer message id goes to slot `a`; the hint button is taken off the question message before the feedback; no session raises `AttributeError` |
| Poll.VerdictIsLetterMultiset | server/src/handlers/poll_handler.py:49-73 | an answer is judged right exactly when it chooses the letters of the correct answer, case-sensitively, in any order |
| Poll.AnswerKeepsScore | server/src/handlers/poll_handler.py:73-106 | the running score rises by one on a right answer and stays on a wrong one |
| Quiz.SendNext | server/src/handlers/quiz_handler.py:168-240 | the send path never touches progress, queue or mistakes; a finished session gets the notice and nothing else; otherwise the shown messages are deleted (unless skipped), then the question and poll are sent and their ids stored; an unknown question or unparseable options raise after the deletions; on an exam session a parsed question first marks the missing theme as tried (`NULL`), then raises `AttributeError` |
| Quiz.LeftoverQuizButtonMarksNull | server/src/handlers/quiz_handler.py:203-216 | a quiz button over an exam session raises `AttributeError` only after appending `NULL` to the tried themes |
| Quiz.MarkTriedIsGuardedUpdate | server/src/handlers/quiz_handler.py:206-211 | a theme in none of the three lists is marked tried through the `None` update; marking keeps the lists disjoint |
| Quiz.HealTwice | server/src/handlers/quiz_handler.py:183-240 | a second heal resends the same question, after deleting exactly the question and poll of the first, and leaves the progress alone |
| Quiz.EndQuiz | server/src/handlers/quiz_handler.py:99-166 | the summary reports total − mistakes of total and offers a rerun exactly when there are mistakes; a perfect round marks the theme done in full when the total is the theme size and done in part otherwise, a missing theme counting 0 questions; mistakes leave the user unchanged |
| Quiz.LeftoverQuizEndMarksNull | server/src/handlers/quiz_handler.py:149-163 | `quiz_end` over a perfect exam session marks `NULL` done in part, since 35 differs from the missing theme's 0 questions |
| Quiz.PerfectFirstRoundIsFull | server/src/handlers/quiz_handler.py:152-160 | a perfect first round over the whole theme marks the theme done in full |
| Quiz.CreateQuizSession | server/src/handlers/quiz_handler.py:63-80 | clearing and retrying always ends with a fresh practice session; the delay notice is sent once, and only when a session was in the way |
| Quiz.InitQuiz | server/src/handlers/quiz_handler.py:55-92 | the counter rises by one, a fresh session for the theme exists, the first question is number 1 of the total, the query is answered that the session was created, and the reminder is sent exactly on every tenth start; a theme without questions gets the notice |
| Quiz.RerunQuiz | server/src/handlers/quiz_handler.py:94-97 | the queue becomes the mistakes, and the first question sent is number 1 of their count |
| Quiz.HintRequested | server/src/handlers/quiz_handler.py:243-271 | a hint shows half the letters (rounded down) of a longer answer, upper-cased, sorted and drawn from the answer, and costs one hint only then; a one-letter answer gets the single-answer notice |
| Exam.Countdown | server/src/handlers/exam_handler.py:169-171 | minutes and seconds are the whole seconds left, as `divmod(seconds, 60)` |
| Exam.SendExamQuestion | server/src/handlers/exam_handler.py:150-221 | without a timer entry only the broken-session notice is sent; with two seconds or less left nothing happens; a question is sent only with time left, never changes progress, and is preceded by the countdown and deletions |
| Exam.EndExam | server/src/handlers/exam_handler.py:92-147 | the score is progress − mistakes; the shown messages are deleted; a missing timer entry raises `KeyError` after the deletions; otherwise the entry is popped and cancelled; a query from Telegram then gets the summary and the best becomes max(best, score), while the timer's query, which has no bot, raises `AttributeError` with best and summary id unchanged |
| Exam.RecordIffBestRises | server/src/handlers/exam_handler.py:114-145 | the record text is chosen exactly when the stored best rises |
| Exam.CreateExamSession | server/src/handlers/exam_handler.py:62-74 | clearing and retrying ends with a fresh exam session or an exam-drawing error |
| Exam.PrepareExam | server/src/handlers/exam_handler.py:54-90 | a successful start registers a new timer for now + 20 minutes as the user's entry, and its task answers the query that the session was created; a failed start sends neither that answer nor the reminder |
| Exam.InitExam | server/src/handlers/exam_handler.py:37-90 | the counter rises by one; the delay answer is sent when a session was in the way; a successful start has a fresh 35-question session, the new timer as entry, the session-created answer, and question 1 sent |
| Exam.HandleExam | server/src/handlers/exam_handler.py:37-221 | the end callbacks run the end path; next and heal keep progress and user; init registers the timer |
| Exam.TimeoutAsWritten | server/src/handlers/exam_handler.py:224-259 | a wake-up runs the timed-out exam end, with a query that has no bot, exactly when some session exists with progress < 35 and the deadline has passed |
| Exam.TimeoutNeverSummarises | server/src/handlers/exam_handler.py:250-258 | an exam that runs out loses its messages and timer entry and raises `AttributeError`, with no summary and the best unchanged |
| Exam.Timeout | server/src/handlers/exam_handler.py:224-259 | corrected wake-up: it does nothing unless it is the user's current timer and the session is an exam; in that case, past the deadline, it reaches the bot, ends the exam with the timed-out summary and keeps the better score |
| Commands.Clear | server/src/services/entities_service.py:206-239 | the messages deleted are exactly the session's set message ids, and the session is removed |
| Commands.Start | server/src/handlers/commands_handler.py:21-36 | deletes exactly what clearing deletes, removes the session, then greets; the timers are left as they are |
| Commands.ExamCommand | server/src/handlers/commands_handler.py:39-56 | deletes exactly what clearing deletes, removes the session, then invites to the exam with the current best; the timers are left as they are |
| Commands.Restart | server/src/handlers/commands_handler.py:59-75 | pops and cancels any timer entry, clears the session, lists the sections |
| Commands.Heal | server/src/handlers/commands_handler.py:78-116 | never fails and never changes progress; no session, or an exam without a timer entry, gives the notice; an exam with two seconds or less left does nothing; a practice question that can be shown is resent after deleting the shown messages |
| Commands.ChangeHints | server/src/handlers/commands_handler.py:119-159 | the reply names the new policy; enabling shows the button exactly on a question still awaiting its answer; disabling removes it from any question message |
| Commands.ChangeHintsTwice | server/src/handlers/commands_handler.py:133-137 | two toggles restore the store and announce opposite policies |
| Timers.StaleTimer | server/src/handlers/exam_handler.py:250 | an exam timer left by `/start` fires over a practice quiz begun later: the quiz's messages are deleted, the entry is popped and `AttributeError` is raised, the user unchanged; the corrected wake-up does nothing there |
| Timers.StaleTimerEndsPractice | server/src/handlers/exam_handler.py:250-259 | for every world, the user's own timer firing over a practice session deletes its question and poll and raises under the code as written, and is a no-op under the correction |
| Buttons.MarkerOf | server/src/handlers/buttons_handler.py:74-82 | green beats yellow beats orange beats red, each exactly when the theme is in the corresponding list and in none of the earlier ones |
| Buttons.ParseListData | server/src/handlers/buttons_handler.py:59-64 | the section is the last character as a digit; the page is 1 for `section…` data and the third-last character otherwise |
| Buttons.ListDataRoundTrip | server/src/handlers/buttons_handler.py:91-123 | the forward, back and section data parse back to their section and page, for single digits |
| Buttons.PageTenReadAsZero | server/src/handlers/buttons_handler.py:91-102 | the forward data of page 9 is read back as page 0 |
| Buttons.PageThemes | server/src/handlers/buttons_handler.py:65-73 | page p shows the themes at indices (p−1)·5 up to p·5, clamped to the list |
| Buttons.SectionKeyboard | server/src/handlers/buttons_handler.py:65-130 | one row per shown theme with its marker; a forward button exactly when themes remain; a back button exactly past page 1, beside forward or alone; then the back-to-sections and delete rows |
| Buttons.ThemeOnItsPage | server/src/handlers/buttons_handler.py:65-82 | theme i appears on page i/5 + 1 at row i mod 5 |
| Buttons.SectionButtonPressed | server/src/handlers/buttons_handler.py:51-135 | malformed data raises the parse error; otherwise the keyboard lists the page's themes with their markers |
| Buttons.ThemeChosenAsWritten | server/src/enums/markups.py:119-167 | the back link of a theme not done in full carries the theme id where the section id belongs |
| Buttons.BackLinkOpensWrongSection | server/src/enums/markups.py:140-147 | that link, for theme 5 of section 1, opens section 5 |
| Buttons.ThemeChosen | server/src/enums/markups.py:119-167 | corrected keyboard: the back link always names the theme's own section; the mark button appears exactly when the theme is not done in full |
| Buttons.BackLinkOpensOwnSection | server/src/enums/markups.py:140-165 | the corrected link parses back to the theme's section, page 1 |
| Buttons.MarkThemeDone | server/src/handlers/buttons_handler.py:166-190 | the theme turns green and the query is answered that it was marked, in every case; row 2 becomes the back link with the triangle, the other rows kept; a keyboard of two rows or fewer raises `IndexError` |
| Buttons.MarkThenShowAgree | server/src/handlers/buttons_handler.py:175-181 | marking a theme from its keyboard gives the keyboard the theme would now be shown with |
| Router.SameLettersIff | server/src/questions/router.py:76 | the comparison holds exactly when the lowered answers have the same letters, each as many times |
| Router.AcceptsReorderedUpperCase | server/src/questions/router.py:76 | `"BA"` is accepted for `"ab"` |
| Router.ValidateAnswer | server/src/questions/router.py:69-86 | no row raises `NoResultFound`; the status is the letter comparison; the correct answer is revealed exactly on a wrong answer |
| Router.GetQuestions | server/src/questions/router.py:57-65 | the result is a permutation of the theme's questions |
| RawParser.Lookup | server/src/utils/raw_parser.py:52-60 | `m[k]` succeeds exactly when the key is present and raises `KeyError` otherwise |
| RawParser.PutLookup | server/src/utils/raw_parser.py:49-57 | after `m[k] = v` the key maps to v, every other key keeps its value, and keys stay distinct |
| RawParser.TocWithoutNewline | server/src/utils/raw_parser.py:13-19 | a line without newline is a table-of-contents line exactly when it is `Тема `, digits and a period, then anything |
| RawParser.FullTheme | server/src/utils/raw_parser.py:22-25 | the result is the first title, in insertion order, that contains the short theme, and none exactly when no title does |
| RawParser.SectionLine | server/src/utils/raw_parser.py:47-50 | a section line adds an empty section and moves the cursor only when the section is new |
| RawParser.TocLine | server/src/utils/raw_parser.py:52-53 | a contents line adds its theme to the current section when absent; no section read yet raises `UnboundLocalError` |
| RawParser.ThemeLine | server/src/utils/raw_parser.py:54-55 | any other theme line makes current the first contents theme containing it |
| RawParser.QuestionLine | server/src/utils/raw_parser.py:56-58 | a question line (re)starts its entry with no answer and no options in the current theme; errors are those of reaching the theme |
| RawParser.OptionLine | server/src/utils/raw_parser.py:59-60 | an option line is appended after the current question's options |
| RawParser.ParseLine | server/src/utils/raw_parser.py:47-62 | lines are classified section, theme, question, option, other; other lines change nothing; only a new section line adds a section key |
| RawParser.ParseFromWellKeyed | server/src/utils/raw_parser.py:34-65 | the parsed map has distinct keys at every level |
| RawParser.SectionKeysFromLines | server/src/utils/raw_parser.py:37-50 | the sections of the result are the file's section lines, each once, in the order of first occurrence |
| RawParser.SetCorrect | server/src/utils/raw_parser.py:76-78 | every question of the theme whose title starts with the answer's number gets the answer, and no other |
| RawParser.AnswerLine | server/src/utils/raw_parser.py:70-78 | an answer line writes correct answers only; other lines leave the map as it is |
| RawParser.AnswersKeepShape | server/src/utils/raw_parser.py:69-80 | reading the answers adds and removes nothing: same keys at every level, same options |
| RawParser.AnswerOneMissesTen | server/src/utils/raw_parser.py:77 | the answer `1.` reaches question `1.` but not question `10.` |
| Usernames.MqUsername | server/src/middlewares/miscellaneous.py:8-22 | message and callback updates are named by their sender; a poll answer or a missing sender raises `AttributeError` |
| Usernames.PUsername | server/src/middlewares/miscellaneous.py:25-39 | poll answers are named by their user; other updates raise `AttributeError` |
| Usernames.CollectUsername | server/src/middlewares/miscellaneous.py:42-58 | flags `m` and `q` take the message rule, `p` the poll rule, anything else `<unknown_username>` |
| Usernames.MatchingFlagNames | server/src/middlewares/miscellaneous.py:52-58 | the flag that matches the update's kind names its sender the same way for all three kinds |
| Usernames.FallbackNameShape | server/src/middlewares/miscellaneous.py:18-19 | a name built from the full name is lower case and, with a table that adds no spaces, has no spaces |
| Usernames.IdNameIsDigits | server/src/middlewares/miscellaneous.py:20-21 | without username or full name, a non-negative id gives a name of digits |

## Left out

- Telegram transport is not modelled. Sends, deletes and markup edits are effects in a list; the message ids of sent messages are parameters. Transport errors swallowed by the effect fallback in `handlers/utility_handlers.py` do not appear.
- The database is an in-memory store for one user. SQLAlchemy sessions, row locking and the race of check-then-create between concurrent updates are not modelled.
- asyncio is not modelled as such:
  - a timer is an integer deadline plus an explicit wake-up step;
  - `sleep_for_alert` is one reminder effect, sent when the counter reaches a multiple of ten.
- Exam.EndExam: on the timeout path the source also cancels the running task itself at `exam_handler.py:136`. Task cancellation is not modelled. As written this makes no difference: the send raises `AttributeError` at once, before any suspension.
- Exam.Timeout: the corrected wake-up sends the summary. In the source, a reachable bot alone would not be enough: the self-cancellation at `exam_handler.py:136` would raise `CancelledError` at the send's first suspension. The corrected member assumes the intended end instead.
- Quiz.InitQuiz: lists the `/heal` reminder before the first question and poll. The source sends it from a separate task after a two-second sleep, so it normally arrives after them. The order between concurrent tasks is not modelled; the same holds for Exam.PrepareExam, whose reminder task and timer task (with its session-created answer) both run beside the first question's send.
- Quiz.InitQuiz: when a session was in the way, the query is answered twice (the delay notice, then the session-created notice), and likewise in Exam.InitExam. Both answers are listed as effects. Whether Telegram accepts the second answer to the same query is not modelled.
- Randomness is a nondeterministic choice (see the contracts), and the praise and reproach texts of the answer check are their index in the list.
- Logging, metrics, changelog, auth and update middlewares are not modelled: they have no behavioural contract here.
- The CLI, configuration and the section and theme routers are not modelled: they only pass data through the ORM.
- `enums/literals.py` is not part of this model, so the transliteration table is a parameter.
- String and markup constants are not modelled; notices are named by an enumeration.
- Builtins.LowerChar: lowers Latin and basic Cyrillic letters only, not all of Unicode.
- RawParser.IsNumbered: reads `\d` as ASCII digits, where Python's `re` also accepts other Unicode digits.
- Buttons.ParseListData: reads section and page as single characters, as the source does. Page 10 and beyond, or section 10 and beyond, are misread (`PageTenReadAsZero`). The model keeps that behaviour; themes per section stay well below 50 in the bank.
- Buttons.MarkThemeDone: takes the theme and section already split from the callback data; the `split("_")` unpacking error is not modelled.
- Entities.InitExamSession: `random.sample` is a pick of a sub-multiset of the remaining questions of the right size, not a concrete generator.
- Builtins.DigitValue: ASCII digits only. Python's `int()` also accepts other Unicode decimal digits, which forged callback data could carry; the model raises `ValueError` for them.
- Usernames.NameOf: `str.lower` covers Latin and basic Cyrillic letters only, as `Builtins.LowerChar`.
- The printing of bad lines in `parse_questions` and the JSON dump of `raw_parser.py` are I/O and are not modelled.
- Quiz.MarkTried: the "tried" marker is written only when the theme is in none of the three lists, exactly as the handler guards it; the update itself is `update_themes_progress(..., None)` (lemma `MarkTriedIsGuardedUpdate`).

## Findings

| source | as written | input that shows it | evidently intended | confidence | as-written member | corrected member |
|---|---|---|---|---|---|---|
| server/src/handlers/exam_handler.py:250 | The timeout wake-up fires when any session exists with progress below 35 once the deadline has passed. `/start` and `/exam` clear the session without cancelling the timer entry. | Start an exam. Send `/start`. Begin a practice quiz on any theme. Let the old exam's 20 minutes run out. The wake-up runs the timed-out exam end over the practice quiz: the quiz's question and poll are deleted and the timer entry is popped, and the handler then raises `AttributeError` (next row). The quiz is left without its question and poll. | The wake-up acts only on the exam session it was started for: its own timer is still the registered one and the session is an exam. | not executed | Timers.StaleTimer | Exam.Timeout |
| server/src/handlers/exam_handler.py:252-258 | The wake-up builds a new `CallbackQuery` with no bot attached, and the end path sends the summary with `callback_query.bot` at line 138. The deletions fall back to `callback_query.message.bot`, as the handler itself does at line 52; the summary send does not. | Start an exam and let its 20 minutes run out. The question and poll are deleted and the timer entry is popped. Then `None.send_message` raises `AttributeError`. No summary is sent, the best score is not updated and no summary id is stored. | The timed-out summary is sent and the best kept, as for the `exam_end` button. | not executed | Exam.TimeoutNeverSummarises | Exam.Timeout |
| server/src/enums/markups.py:146 | The back-to-themes link of a theme not done in full carries `"section_" + str(theme.id)`. | Theme 5 of section 1, not done in full: the link is `section_5`, and the section handler opens section 5. | `"section_" + str(theme.section_id)`, as in the other branch at line 160. | not executed | Buttons.ThemeChosenAsWritten | Buttons.ThemeChosen |
