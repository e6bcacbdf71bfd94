/** `utils/raw_parser.py`: reads the question bank from two text files,
    one of questions and options and one of answers, into nested maps
    section → theme → question → entry. Python dictionaries keep insertion
    order, and `get_full_theme` depends on it, so every map is an
    association list with distinct keys in insertion order. Lines carry no
    newline: `get_raw_data` strips it. */
module RawParser {
  import opened Wrappers
  import opened Builtins

  // ---------------------------------------------------------------------
  // Insertion-ordered dictionaries

  /** A dictionary with string keys, in insertion order. */
  type Dict<V> = seq<(string, V)>

  function Keys<V>(m: Dict<V>): (ks: seq<string>)
    ensures |ks| == |m|
    ensures forall i :: 0 <= i < |m| ==> ks[i] == m[i].0
  {
    if |m| == 0 then [] else [m[0].0] + Keys(m[1..])
  }

  predicate UniqueKeys<V>(m: Dict<V>) {
    forall i, j :: 0 <= i < j < |m| ==> m[i].0 != m[j].0
  }

  /** `m[k]`: the value under `k`, or `KeyError`. */
  function Lookup<V(==)>(m: Dict<V>, k: string): (r: Result<V>)
    ensures r.Ok? <==> k in Keys(m)
    ensures r.Ok? ==> exists i :: 0 <= i < |m| && m[i] == (k, r.value)
    ensures r.Raise? ==> r.fault == KeyError
  {
    if |m| == 0 then Raise(KeyError)
    else if m[0].0 == k then Ok(m[0].1)
    else
      var r := Lookup(m[1..], k);
      assert Keys(m) == [m[0].0] + Keys(m[1..]);
      if r.Ok? then
        var i :| 0 <= i < |m[1..]| && m[1..][i] == (k, r.value);
        assert m[i + 1] == (k, r.value);
        r
      else r
  }

  /** `m[k] = v`: an existing key keeps its place, a new key goes last. */
  function Put<V(==)>(m: Dict<V>, k: string, v: V): (r: Dict<V>)
    ensures k in Keys(m) ==> Keys(r) == Keys(m)
    ensures k !in Keys(m) ==> Keys(r) == Keys(m) + [k]
    ensures forall i | 0 <= i < |r| :: (i < |m| && r[i] == m[i]) || r[i] == (k, v)
  {
    if |m| == 0 then [(k, v)]
    else if m[0].0 == k then [(k, v)] + m[1..]
    else
      var rest := Put(m[1..], k, v);
      assert Keys(m) == [m[0].0] + Keys(m[1..]);
      assert Keys([m[0]] + rest) == [m[0].0] + Keys(rest);
      [m[0]] + rest
  }

  /** After `m[k] = v`, `m[k]` is `v` and every other key keeps its value. */
  lemma PutLookup<V>(m: Dict<V>, k: string, v: V)
    requires UniqueKeys(m)
    ensures UniqueKeys(Put(m, k, v))
    ensures Lookup(Put(m, k, v), k) == Ok(v)
    ensures forall k' :: k' != k ==> Lookup(Put(m, k, v), k') == Lookup(m, k')
  {
    var r := Put(m, k, v);
    forall i, j | 0 <= i < j < |r| ensures r[i].0 != r[j].0 {
      assert r[i].0 == Keys(r)[i] && r[j].0 == Keys(r)[j];
      if j < |m| {
        assert Keys(m)[i] == m[i].0 && Keys(m)[j] == m[j].0;
      } else {
        assert Keys(m)[i] == m[i].0;
      }
    }
    PutFound(m, k, v);
    forall k' | k' != k ensures Lookup(r, k') == Lookup(m, k') {
      PutOther(m, k, v, k');
    }
  }

  lemma {:induction false} PutFound<V>(m: Dict<V>, k: string, v: V)
    ensures Lookup(Put(m, k, v), k) == Ok(v)
    decreases |m|
  {
    if |m| > 0 && m[0].0 != k {
      PutFound(m[1..], k, v);
      assert Put(m, k, v)[1..] == Put(m[1..], k, v);
    }
  }

  lemma {:induction false} PutOther<V>(m: Dict<V>, k: string, v: V, k': string)
    requires k' != k
    ensures Lookup(Put(m, k, v), k') == Lookup(m, k')
    decreases |m|
  {
    if |m| > 0 {
      if m[0].0 != k {
        PutOther(m[1..], k, v, k');
        assert Put(m, k, v)[1..] == Put(m[1..], k, v);
      } else {
        assert Put(m, k, v)[1..] == m[1..];
      }
    }
  }

  // ---------------------------------------------------------------------
  // Line classes

  /** The number of decimal digits `line` starts with. */
  function DigitRun(line: string): (n: nat)
    ensures n <= |line|
    ensures forall i :: 0 <= i < n ==> IsDigit(line[i])
    ensures n < |line| ==> !IsDigit(line[n])
  {
    if |line| == 0 || !IsDigit(line[0]) then 0 else 1 + DigitRun(line[1..])
  }

  /** `^\d+\.`: a question line of the question file, an answer line of the
      answer file. */
  predicate IsNumbered(line: string) {
    var n := DigitRun(line);
    1 <= n < |line| && line[n] == '.'
  }

  /** `^[а-я]\)`: an option line. */
  predicate IsOption(line: string) {
    |line| >= 2 && 'а' <= line[0] <= 'я' && line[1] == ')'
  }

  predicate IsSpace(c: char) {
    c == ' ' || '\t' <= c <= '\r' || '\U{1c}' <= c <= '\U{1f}' || c == '\U{85}' || c == '\U{a0}'
    || c == '\U{1680}' || '\U{2000}' <= c <= '\U{200a}' || c == '\U{2028}' || c == '\U{2029}'
    || c == '\U{202f}' || c == '\U{205f}' || c == '\U{3000}'
  }

  /** `\s*(.*)$` matches the whole of `t`: after some leading whitespace,
      a newline may only be the last character. */
  predicate TailMatches(t: string) {
    exists i | 0 <= i <= |t| :: SplitsAt(t, i)
  }

  /** `\s*` takes `t[..i]` and `(.*)$` the rest. */
  predicate SplitsAt(t: string, i: nat)
    requires i <= |t|
  {
    (forall j | 0 <= j < i :: IsSpace(t[j]))
    && (forall j | i <= j < |t| :: t[j] == '\n' ==> j == |t| - 1)
  }

  /** `is_toc`: the line matches `^(Тема \d+)\.\s*(.*)$`, a theme title of
      the table of contents. */
  predicate IsToc(line: string) {
    StartsWith(line, "Тема ")
    && var rest := line[5..];
       var n := DigitRun(rest);
       1 <= n < |rest| && rest[n] == '.' && TailMatches(rest[n + 1..])
  }

  /** A line without a newline is a table-of-contents line exactly when it
      is `Тема `, a number and a period, followed by anything. */
  lemma TocWithoutNewline(line: string)
    requires forall j | 0 <= j < |line| :: line[j] != '\n'
    ensures IsToc(line) <==>
              StartsWith(line, "Тема ") && var n := DigitRun(line[5..]); 1 <= n < |line| - 5 && line[5 + n] == '.'
  {
    if StartsWith(line, "Тема ") {
      var rest := line[5..];
      var n := DigitRun(rest);
      if 1 <= n < |rest| && rest[n] == '.' {
        var t := rest[n + 1..];
        assert SplitsAt(t, 0);
      }
    }
  }

  /** `get_full_theme`: the first title, in insertion order, that contains
      `short` (`None` when there is none). */
  function FullTheme(short: string, titles: seq<string>): (r: Option<string>)
    ensures r.Some? ==> r.value in titles && Contains(r.value, short)
    ensures r.Some? ==> exists i :: 0 <= i < |titles| && titles[i] == r.value
                                     && forall j :: 0 <= j < i ==> !Contains(titles[j], short)
    ensures r.None? <==> forall t :: t in titles ==> !Contains(t, short)
  {
    if |titles| == 0 then None
    else if Contains(titles[0], short) then Some(titles[0])
    else
      var r := FullTheme(short, titles[1..]);
      if r.Some? then
        var i :| 0 <= i < |titles[1..]| && titles[1..][i] == r.value
                 && forall j :: 0 <= j < i ==> !Contains(titles[1..][j], short);
        assert titles[i + 1] == r.value;
        assert forall j :: 0 <= j < i + 1 ==> !Contains(titles[j], short) by {
          forall j | 0 <= j < i + 1 ensures !Contains(titles[j], short) {
            if j > 0 { assert titles[j] == titles[1..][j - 1]; }
          }
        }
        r
      else r
  }

  // ---------------------------------------------------------------------
  // `parse_questions`

  /** A question with its correct answer (empty until the answers are
      read) and its option lines in file order. */
  datatype Entry = Entry(correct: string, variants: seq<string>)

  type Questions = Dict<Entry>
  type Themes = Dict<Questions>
  type Sections = Dict<Themes>

  /** A theme variable of the parser: never assigned, or assigned the
      result of `get_full_theme`, which may be `None`. */
  datatype ThemeVar = Unassigned | Assigned(title: Option<string>)

  /** The loop variables `cur_section`, `cur_theme` and `cur_question`. */
  datatype Cursor = Cursor(section: Option<string>, theme: ThemeVar, question: Option<string>)

  /** Every level of the map has distinct keys. */
  predicate WellKeyed(m: Sections) {
    UniqueKeys(m) && forall i | 0 <= i < |m| :: ThemesKeyed(m[i].1)
  }

  predicate ThemesKeyed(t: Themes) {
    UniqueKeys(t) && forall j | 0 <= j < |t| :: UniqueKeys(t[j].1)
  }

  /** The variable read by `questions_dict[cur_section]`; a section in the
      cursor always has its key, since keys are never removed. */
  function Section(c: Cursor): Result<string> {
    if c.section.None? then Raise(UnboundLocalError) else Ok(c.section.value)
  }

  /** `questions_dict[cur_section][cur_theme]`, with the errors in the
      order Python meets them. */
  function ThemeOf(m: Sections, c: Cursor): (r: Result<(string, Themes, string, Questions)>)
    ensures r.Raise? ==> r.fault in {UnboundLocalError, KeyError}
    ensures r.Ok? ==> c.section == Some(r.value.0) && c.theme == Assigned(Some(r.value.2))
                      && Lookup(m, r.value.0) == Ok(r.value.1) && Lookup(r.value.1, r.value.2) == Ok(r.value.3)
  {
    var section :- Section(c);
    var themes :- Lookup(m, section);
    if c.theme.Unassigned? then Raise(UnboundLocalError)
    else if c.theme.title.None? then Raise(KeyError)
    else
      var questions :- Lookup(themes, c.theme.title.value);
      Ok((section, themes, c.theme.title.value, questions))
  }

  /** `Раздел ...`: a new section line adds an empty section and makes it
      current; a repeated one is ignored, cursor included. */
  function SectionLine(m: Sections, c: Cursor, line: string): (r: (Sections, Cursor))
    ensures line in Keys(m) ==> r == (m, c)
    ensures line !in Keys(m) ==> Keys(r.0) == Keys(m) + [line] && r.1 == c.(section := Some(line))
    ensures line !in Keys(m) ==> Lookup(r.0, line) == Ok([])
    ensures WellKeyed(m) ==> WellKeyed(r.0)
  {
    if line in Keys(m) then (m, c)
    else
      assert Keys(m + [(line, [])]) == Keys(m) + [line];
      assert WellKeyed(m) ==> WellKeyed(m + [(line, [])]) by {
        if WellKeyed(m) {
          forall i, j | 0 <= i < j < |m + [(line, [])]| ensures (m + [(line, [])])[i].0 != (m + [(line, [])])[j].0 {
            if j == |m| { assert (m + [(line, [])])[i].0 == Keys(m)[i]; }
          }
        }
      }
      LookupAppendNew(m, line, []);
      (m + [(line, [])], c.(section := Some(line)))
  }

  /** A key not yet in the map is found in the entry appended for it. */
  lemma {:induction false} LookupAppendNew<V>(m: Dict<V>, k: string, v: V)
    requires k !in Keys(m)
    ensures Lookup(m + [(k, v)], k) == Ok(v)
    decreases |m|
  {
    if |m| > 0 {
      assert Keys(m) == [m[0].0] + Keys(m[1..]);
      assert (m + [(k, v)])[1..] == m[1..] + [(k, v)];
      LookupAppendNew(m[1..], k, v);
    }
  }

  /** A table-of-contents theme line adds an empty theme to the current
      section unless it is there already. */
  function TocLine(m: Sections, c: Cursor, line: string): (r: Result<Sections>)
    ensures r.Raise? ==> (r.fault == UnboundLocalError <==> c.section.None?)
    ensures r.Raise? ==> r.fault in {UnboundLocalError, KeyError}
    ensures r.Ok? ==> Keys(r.value) == Keys(m)
    ensures r.Ok? && WellKeyed(m) ==> WellKeyed(r.value)
    ensures r.Ok? && WellKeyed(m) ==>
              c.section.Some? && Lookup(r.value, c.section.value).Ok?
              && line in Keys(Lookup(r.value, c.section.value).value)
  {
    var section :- Section(c);
    var themes :- Lookup(m, section);
    if line in Keys(themes) then Ok(m)
    else
      var themes' := Put(themes, line, []);
      assert WellKeyed(m) ==> WellKeyed(Put(m, section, themes')) && Lookup(Put(m, section, themes'), section) == Ok(themes') by {
        if WellKeyed(m) {
          UniqueKeysOfLookup(m, section, themes);
          PutLookup(themes, line, []);
          ReplaceThemes(m, section, themes, themes');
        }
      }
      Ok(Put(m, section, themes'))
  }

  /** Any other theme line makes current the first theme of the section
      whose title contains it. */
  function ThemeLine(m: Sections, c: Cursor, line: string): (r: Result<Cursor>)
    ensures r.Raise? ==> (r.fault == UnboundLocalError <==> c.section.None?)
    ensures r.Raise? ==> r.fault in {UnboundLocalError, KeyError}
    ensures r.Ok? ==> c.section.Some? && Lookup(m, c.section.value).Ok?
                      && r.value == c.(theme := Assigned(FullTheme(line, Keys(Lookup(m, c.section.value).value))))
  {
    var section :- Section(c);
    var themes :- Lookup(m, section);
    Ok(c.(theme := Assigned(FullTheme(line, Keys(themes)))))
  }

  /** A question line starts an entry with no answer and no options in the
      current theme, replacing one of the same title, and makes it the
      current question. */
  function QuestionLine(m: Sections, c: Cursor, line: string): (r: Result<Sections>)
    ensures r.Raise? ==> ThemeOf(m, c).Raise? && r.fault == ThemeOf(m, c).fault
    ensures r.Ok? ==> ThemeOf(m, c).Ok? && Keys(r.value) == Keys(m)
    ensures r.Ok? && WellKeyed(m) ==> WellKeyed(r.value)
    ensures r.Ok? && WellKeyed(m) ==> Entered(r.value, ThemeOf(m, c).value, line, Entry("", []))
  {
    var (section, themes, theme, questions) :- ThemeOf(m, c);
    var questions' := Put(questions, line, Entry("", []));
    assert WellKeyed(m) ==> WellKeyed(Put(m, section, Put(themes, theme, questions')))
                            && Entered(Put(m, section, Put(themes, theme, questions')), (section, themes, theme, questions), line, Entry("", [])) by {
      if WellKeyed(m) {
        UniqueKeysOfLookup2(m, section, themes, theme, questions);
        PutLookup(questions, line, Entry("", []));
        ReplaceQuestions(m, section, themes, theme, questions, questions');
      }
    }
    Ok(Put(m, section, Put(themes, theme, questions')))
  }

  /** An option line is appended to the options of the current question. */
  function OptionLine(m: Sections, c: Cursor, line: string): (r: Result<Sections>)
    ensures r.Raise? ==> r.fault in {UnboundLocalError, KeyError}
    ensures r.Ok? ==> ThemeOf(m, c).Ok? && c.question.Some? && Lookup(ThemeOf(m, c).value.3, c.question.value).Ok?
    ensures r.Ok? ==> Keys(r.value) == Keys(m)
    ensures r.Ok? && WellKeyed(m) ==> WellKeyed(r.value)
    ensures r.Ok? && WellKeyed(m) ==>
              var entry := Lookup(ThemeOf(m, c).value.3, c.question.value).value;
              Entered(r.value, ThemeOf(m, c).value, c.question.value, entry.(variants := entry.variants + [line]))
  {
    var (section, themes, theme, questions) :- ThemeOf(m, c);
    if c.question.None? then Raise(UnboundLocalError)
    else
      var entry :- Lookup(questions, c.question.value);
      var entry' := entry.(variants := entry.variants + [line]);
      var questions' := Put(questions, c.question.value, entry');
      assert WellKeyed(m) ==> WellKeyed(Put(m, section, Put(themes, theme, questions')))
                              && Entered(Put(m, section, Put(themes, theme, questions')), (section, themes, theme, questions), c.question.value, entry') by {
        if WellKeyed(m) {
          UniqueKeysOfLookup2(m, section, themes, theme, questions);
          PutLookup(questions, c.question.value, entry');
          ReplaceQuestions(m, section, themes, theme, questions, questions');
        }
      }
      Ok(Put(m, section, Put(themes, theme, questions')))
  }

  /** In `m`, the theme found by `ThemeOf` holds `entry` under `question`. */
  predicate Entered(m: Sections, at: (string, Themes, string, Questions), question: string, entry: Entry) {
    && Lookup(m, at.0).Ok?
    && Lookup(Lookup(m, at.0).value, at.2).Ok?
    && Lookup(Lookup(Lookup(m, at.0).value, at.2).value, question) == Ok(entry)
  }

  /** One line of the question file. Lines are classified in the order:
      section, theme, question, option; any other line is set aside and
      changes nothing. Only a new section line changes the section keys. */
  function ParseLine(m: Sections, c: Cursor, line: string): (r: Result<(Sections, Cursor)>)
    ensures r.Raise? ==> r.fault in {UnboundLocalError, KeyError}
    ensures !StartsWith(line, "Раздел") && !StartsWith(line, "Тема") && !IsNumbered(line) && !IsOption(line) ==>
              r == Ok((m, c))
    ensures r.Ok? ==> Keys(r.value.0) == (if StartsWith(line, "Раздел") && line !in Keys(m) then Keys(m) + [line] else Keys(m))
    ensures r.Ok? && WellKeyed(m) ==> WellKeyed(r.value.0)
  {
    if StartsWith(line, "Раздел") then Ok(SectionLine(m, c, line))
    else if StartsWith(line, "Тема") then
      if IsToc(line) then
        var m' :- TocLine(m, c, line);
        Ok((m', c))
      else
        var c' :- ThemeLine(m, c, line);
        Ok((m, c'))
    else if IsNumbered(line) then
      var m' :- QuestionLine(m, c, line);
      Ok((m', c.(question := Some(line))))
    else if IsOption(line) then
      var m' :- OptionLine(m, c, line);
      Ok((m', c))
    else Ok((m, c))
  }

  /** Replacing the themes of a section by a well-keyed map keeps the whole
      map well keyed, and the section then holds the new map. */
  lemma ReplaceThemes(m: Sections, section: string, themes: Themes, themes': Themes)
    requires WellKeyed(m) && Lookup(m, section) == Ok(themes) && ThemesKeyed(themes')
    ensures WellKeyed(Put(m, section, themes')) && Lookup(Put(m, section, themes'), section) == Ok(themes')
  {
    PutLookup(m, section, themes');
  }

  /** Replacing the questions of a theme by a map with distinct keys keeps
      the whole map well keyed, and the theme then holds the new map. */
  lemma ReplaceQuestions(m: Sections, section: string, themes: Themes, theme: string,
                         questions: Questions, questions': Questions)
    requires WellKeyed(m) && Lookup(m, section) == Ok(themes) && Lookup(themes, theme) == Ok(questions)
    requires UniqueKeys(questions')
    ensures var themes' := Put(themes, theme, questions');
            && WellKeyed(Put(m, section, themes'))
            && Lookup(Put(m, section, themes'), section) == Ok(themes')
            && Lookup(themes', theme) == Ok(questions')
  {
    UniqueKeysOfLookup(m, section, themes);
    PutLookup(themes, theme, questions');
    ReplaceThemes(m, section, themes, Put(themes, theme, questions'));
  }

  /** The loop of `parse_questions` from a given map and cursor. */
  function ParseFrom(m: Sections, c: Cursor, lines: seq<string>): (r: Result<(Sections, Cursor)>)
    ensures r.Raise? ==> r.fault in {UnboundLocalError, KeyError}
    decreases |lines|
  {
    if |lines| == 0 then Ok((m, c))
    else
      var (m', c') :- ParseLine(m, c, lines[0]);
      ParseFrom(m', c', lines[1..])
  }

  /** `parse_questions`. */
  function ParseQuestions(lines: seq<string>): (r: Result<Sections>)
    ensures r.Raise? ==> r.fault in {UnboundLocalError, KeyError}
  {
    var (m, _) :- ParseFrom([], Cursor(None, Unassigned, None), lines);
    Ok(m)
  }

  /** The parser keeps every level's keys distinct. */
  lemma {:induction false} ParseFromWellKeyed(m: Sections, c: Cursor, lines: seq<string>)
    requires WellKeyed(m)
    ensures ParseFrom(m, c, lines).Ok? ==> WellKeyed(ParseFrom(m, c, lines).value.0)
    decreases |lines|
  {
    if |lines| > 0 {
      var step := ParseLine(m, c, lines[0]);
      if step.Ok? {
        ParseFromWellKeyed(step.value.0, step.value.1, lines[1..]);
      }
    }
  }

  /** The section lines among `lines`, in order. */
  function SectionLines(lines: seq<string>): seq<string> {
    if |lines| == 0 then []
    else (if StartsWith(lines[0], "Раздел") then [lines[0]] else []) + SectionLines(lines[1..])
  }

  /** `keys` followed by the elements of `ks` it does not hold yet, each
      at its first occurrence. */
  function AddNew(keys: seq<string>, ks: seq<string>): seq<string>
    decreases |ks|
  {
    if |ks| == 0 then keys
    else AddNew(if ks[0] in keys then keys else keys + [ks[0]], ks[1..])
  }

  /** The sections of the result are the section lines of the file, each
      taken once, at its first occurrence: a repeated section line adds
      nothing, and only the theme, question and option lines fill the
      sections. */
  lemma {:induction false} SectionKeysFromLines(m: Sections, c: Cursor, lines: seq<string>)
    ensures ParseFrom(m, c, lines).Ok? ==>
              Keys(ParseFrom(m, c, lines).value.0) == AddNew(Keys(m), SectionLines(lines))
    decreases |lines|
  {
    if |lines| > 0 {
      var step := ParseLine(m, c, lines[0]);
      if step.Ok? {
        SectionKeysFromLines(step.value.0, step.value.1, lines[1..]);
        var ks := SectionLines(lines[1..]);
        if StartsWith(lines[0], "Раздел") {
          assert SectionLines(lines) == [lines[0]] + ks;
          assert ([lines[0]] + ks)[0] == lines[0] && ([lines[0]] + ks)[1..] == ks;
        } else {
          assert SectionLines(lines) == ks;
        }
      }
    }
  }

  lemma UniqueKeysOfLookup(m: Sections, section: string, themes: Themes)
    requires WellKeyed(m) && Lookup(m, section) == Ok(themes)
    ensures ThemesKeyed(themes)
  {
    var i :| 0 <= i < |m| && m[i] == (section, themes);
  }

  lemma UniqueKeysOfLookup2(m: Sections, section: string, themes: Themes, theme: string, questions: Questions)
    requires WellKeyed(m) && Lookup(m, section) == Ok(themes) && Lookup(themes, theme) == Ok(questions)
    ensures UniqueKeys(questions)
  {
    UniqueKeysOfLookup(m, section, themes);
    var j :| 0 <= j < |themes| && themes[j] == (theme, questions);
  }

  // ---------------------------------------------------------------------
  // `parse_answers`

  /** The loop variables `cur_section` and `cur_theme` of `parse_answers`;
      here the theme is the line itself. */
  datatype AnswerCursor = AnswerCursor(section: Option<string>, theme: Option<string>)

  /** `line[:line.index(".") + 1]`: the number and its period. */
  function AnswerKey(line: string): (k: string)
    requires IsNumbered(line)
    ensures k == line[..DigitRun(line) + 1]
  {
    line[..DigitRun(line) + 1]
  }

  /** `line[line.index(".") + 2:].lower()`: the letters after the number,
      its period and one more character. */
  function AnswerText(line: string): string
    requires IsNumbered(line)
  {
    Lower(PySlice(line, DigitRun(line) + 2, |line|))
  }

  /** Every question whose title starts with `key` gets `answer` as its
      correct answer; nothing else changes. */
  function SetCorrect(qs: Questions, key: string, answer: string): (r: Questions)
    ensures |r| == |qs| && Keys(r) == Keys(qs)
    ensures forall i :: 0 <= i < |qs| ==>
              r[i].1 == (if StartsWith(qs[i].0, key) then qs[i].1.(correct := answer) else qs[i].1)
  {
    if |qs| == 0 then []
    else
      var e := if StartsWith(qs[0].0, key) then qs[0].1.(correct := answer) else qs[0].1;
      var rest := SetCorrect(qs[1..], key, answer);
      assert Keys(qs) == [qs[0].0] + Keys(qs[1..]);
      assert Keys([(qs[0].0, e)] + rest) == [qs[0].0] + Keys(rest);
      [(qs[0].0, e)] + rest
  }

  /** One line of the answer file. The section and theme lines only move
      the cursor; an answer line sets the correct answer of the questions of
      the current theme that its number starts. */
  function AnswerLine(m: Sections, c: AnswerCursor, line: string): (r: Result<(Sections, AnswerCursor)>)
    ensures r.Raise? ==> r.fault in {UnboundLocalError, KeyError}
    ensures r.Ok? ==> SameShape(m, r.value.0)
    ensures !IsNumbered(line) ==> r.Ok? && r.value.0 == m
  {
    var c1 := if StartsWith(line, "Раздел") then c.(section := Some(line)) else c;
    var c2 := if StartsWith(line, "Тема") then c1.(theme := Some(line)) else c1;
    if !IsNumbered(line) then Ok((m, c2))
    else if c2.section.None? then Raise(UnboundLocalError)
    else
      var themes :- Lookup(m, c2.section.value);
      if c2.theme.None? then Raise(UnboundLocalError)
      else
        var questions :- Lookup(themes, c2.theme.value);
        var questions' := SetCorrect(questions, AnswerKey(line), AnswerText(line));
        var themes' := Put(themes, c2.theme.value, questions');
        var m' := Put(m, c2.section.value, themes');
        PutSameThemes(themes, c2.theme.value, questions, questions');
        PutSameShape(m, c2.section.value, themes, themes');
        Ok((m', c2))
  }

  /** The two question maps differ at most in correct answers. */
  predicate SameQuestions(a: Questions, b: Questions) {
    |a| == |b| && forall k | 0 <= k < |a| :: a[k].0 == b[k].0 && a[k].1.variants == b[k].1.variants
  }

  predicate SameThemes(a: Themes, b: Themes) {
    |a| == |b| && forall j | 0 <= j < |a| :: a[j].0 == b[j].0 && SameQuestions(a[j].1, b[j].1)
  }

  /** The two maps differ at most in correct answers: the same keys at
      every level, in the same order, and the same options. */
  predicate SameShape(a: Sections, b: Sections) {
    |a| == |b| && forall i | 0 <= i < |a| :: a[i].0 == b[i].0 && SameThemes(a[i].1, b[i].1)
  }

  lemma SameShapeTrans(a: Sections, b: Sections, c: Sections)
    requires SameShape(a, b) && SameShape(b, c)
    ensures SameShape(a, c)
  {
    forall i | 0 <= i < |a| ensures SameThemes(a[i].1, c[i].1) {
      forall j | 0 <= j < |a[i].1| ensures SameQuestions(a[i].1[j].1, c[i].1[j].1) {
        assert SameQuestions(a[i].1[j].1, b[i].1[j].1) && SameQuestions(b[i].1[j].1, c[i].1[j].1);
      }
    }
  }

  lemma SameShapeRefl(a: Sections)
    ensures SameShape(a, a)
  {
    forall i | 0 <= i < |a| ensures SameThemes(a[i].1, a[i].1) {
      forall j | 0 <= j < |a[i].1| ensures SameQuestions(a[i].1[j].1, a[i].1[j].1) {
      }
    }
  }

  /** Replacing the questions of a theme by ones of the same shape keeps
      the shape of the themes. */
  lemma {:induction false} PutSameThemes(themes: Themes, theme: string, questions: Questions, questions': Questions)
    requires Lookup(themes, theme) == Ok(questions) && SameQuestions(questions, questions')
    ensures SameThemes(themes, Put(themes, theme, questions'))
    decreases |themes|
  {
    var t' := Put(themes, theme, questions');
    if themes[0].0 == theme {
      forall j | 1 <= j < |themes| ensures SameQuestions(themes[j].1, t'[j].1) {
        assert t'[j] == themes[j];
      }
    } else {
      PutSameThemes(themes[1..], theme, questions, questions');
      var rest := Put(themes[1..], theme, questions');
      assert t' == [themes[0]] + rest;
      forall j | 1 <= j < |themes| ensures themes[j].0 == t'[j].0 && SameQuestions(themes[j].1, t'[j].1) {
        assert themes[j] == themes[1..][j - 1] && t'[j] == rest[j - 1];
      }
    }
  }

  /** Replacing the themes of a section by ones of the same shape keeps the
      shape of the whole map. */
  lemma {:induction false} PutSameShape(m: Sections, section: string, themes: Themes, themes': Themes)
    requires Lookup(m, section) == Ok(themes) && SameThemes(themes, themes')
    ensures SameShape(m, Put(m, section, themes'))
    decreases |m|
  {
    var m' := Put(m, section, themes');
    if m[0].0 == section {
      forall i | 1 <= i < |m| ensures SameThemes(m[i].1, m'[i].1) {
        assert m'[i] == m[i];
        SameShapeRefl([m[i]]);
      }
    } else {
      PutSameShape(m[1..], section, themes, themes');
      var rest := Put(m[1..], section, themes');
      assert m' == [m[0]] + rest;
      SameShapeRefl([m[0]]);
      forall i | 1 <= i < |m| ensures m[i].0 == m'[i].0 && SameThemes(m[i].1, m'[i].1) {
        assert m[i] == m[1..][i - 1] && m'[i] == rest[i - 1];
      }
    }
  }

  /** The loop of `parse_answers`. */
  function AnswersFrom(m: Sections, c: AnswerCursor, lines: seq<string>): (r: Result<Sections>)
    ensures r.Raise? ==> r.fault in {UnboundLocalError, KeyError}
    decreases |lines|
  {
    if |lines| == 0 then Ok(m)
    else
      var (m', c') :- AnswerLine(m, c, lines[0]);
      AnswersFrom(m', c', lines[1..])
  }

  /** `parse_answers`. */
  function ParseAnswers(m: Sections, lines: seq<string>): (r: Result<Sections>)
    ensures r.Raise? ==> r.fault in {UnboundLocalError, KeyError}
  {
    AnswersFrom(m, AnswerCursor(None, None), lines)
  }

  /** Reading the answers adds and removes nothing: sections, themes,
      questions and options stay as they were; only correct answers are
      written. */
  lemma {:induction false} AnswersKeepShape(m: Sections, c: AnswerCursor, lines: seq<string>)
    ensures AnswersFrom(m, c, lines).Ok? ==> SameShape(m, AnswersFrom(m, c, lines).value)
    decreases |lines|
  {
    if |lines| > 0 {
      var step := AnswerLine(m, c, lines[0]);
      if step.Ok? {
        AnswersKeepShape(step.value.0, step.value.1, lines[1..]);
        if AnswersFrom(m, c, lines).Ok? {
          SameShapeTrans(m, step.value.0, AnswersFrom(m, c, lines).value);
        }
      }
    }
  }

  /** The answer `1.` does not reach question `10.`: the key includes the
      period. */
  lemma AnswerOneMissesTen()
    ensures IsNumbered("1. а")
    ensures AnswerKey("1. а") == "1."
    ensures !StartsWith("10. Вопрос", AnswerKey("1. а"))
    ensures StartsWith("1. Вопрос", AnswerKey("1. а"))
  {
    assert DigitRun("1. а") == 1 by {
      assert DigitRun("1. а"[1..]) == 0;
    }
  }
}
