/** Pure helpers of `services/utility_service.py`: transliteration of a
    display name, the option list of a question, and the letters a poll
    answer selects. */
module Utility {
  import opened Wrappers
  import opened Builtins

  // ---------------------------------------------------------------------
  // transliterate

  /** Each character is replaced by its image in `table`, or kept when the
      table has no entry for it. The table itself lives in a module that is
      not part of this model, so it is a parameter. */
  function Transliterate(table: map<char, string>, text: string): string
  {
    if |text| == 0 then []
    else
      var c := text[|text| - 1];
      Transliterate(table, text[..|text| - 1]) + (if c in table then table[c] else [c])
  }

  /** Transliteration works character by character: the image of a
      concatenation is the concatenation of the images. */
  lemma {:induction false} TransliterateConcat(table: map<char, string>, a: string, b: string)
    ensures Transliterate(table, a + b) == Transliterate(table, a) + Transliterate(table, b)
    decreases |b|
  {
    if |b| > 0 {
      var b', c := b[..|b| - 1], b[|b| - 1];
      assert a + b == (a + b') + [c];
      assert (a + b)[..|a + b| - 1] == a + b';
      assert b[..|b| - 1] == b';
      TransliterateConcat(table, a, b');
    } else {
      assert a + b == a;
    }
  }

  /** A text without any mapped character comes back unchanged. */
  lemma {:induction false} TransliterateUnmapped(table: map<char, string>, text: string)
    requires forall i :: 0 <= i < |text| ==> text[i] !in table
    ensures Transliterate(table, text) == text
    decreases |text|
  {
    if |text| > 0 {
      TransliterateUnmapped(table, text[..|text| - 1]);
      assert text == text[..|text| - 1] + [text[|text| - 1]];
    }
  }

  /** The image of one character is its table entry, or itself. */
  lemma TransliterateChar(table: map<char, string>, c: char)
    ensures Transliterate(table, [c]) == (if c in table then table[c] else [c])
  {
    assert [c][..0] == [];
  }

  // ---------------------------------------------------------------------
  // parse_answers_from_question

  /** A raw line that opens a new option: its second character is `)`. */
  predicate IsOptionLine(line: string) {
    |line| >= 2 && line[1] == ')'
  }

  /** The raw lines the parser accepts without an `IndexError`: every line
      has a second character, and the first line opens an option (a
      continuation line needs an option before it). */
  predicate WellFormedRaw(raw: seq<string>) {
    && (forall i :: 0 <= i < |raw| ==> |raw[i]| >= 2)
    && (|raw| > 0 ==> IsOptionLine(raw[0]))
  }

  /** The loop of `parse_answers_from_question` before sorting: an option
      line opens a new entry, lower-cased; any other line is lower-cased and
      glued to the last entry after `", "`. Newlines are kept, because the
      source discards the result of its `replace`. */
  function Group(raw: seq<string>): (r: Result<seq<string>>)
    ensures r.Raise? ==> r.fault == IndexError
  {
    if |raw| == 0 then Ok([])
    else
      var line := raw[|raw| - 1];
      match Group(raw[..|raw| - 1])
      case Raise(f) => Raise(f)
      case Ok(entries) =>
        if |line| < 2 then Raise(IndexError)
        else if line[1] == ')' then Ok(entries + [Lower(line)])
        else if |entries| == 0 then Raise(IndexError)
        else
          var last := |entries| - 1;
          Ok(entries[..last] + [entries[last] + ", " + Lower(line)])
  }

  /** The option lines of a raw answer list, in order. */
  function OptionLines(raw: seq<string>): seq<string> {
    Filter(raw, IsOptionLine)
  }

  lemma WellFormedInit(raw: seq<string>)
    requires |raw| > 0
    ensures WellFormedRaw(raw) <==>
      WellFormedRaw(raw[..|raw| - 1]) && |raw[|raw| - 1]| >= 2
      && (|raw| == 1 ==> IsOptionLine(raw[0]))
  {
    var init := raw[..|raw| - 1];
    assert forall i :: 0 <= i < |init| ==> init[i] == raw[i];
  }

  lemma StartsWithTrans(a: string, b: string, c: string)
    requires StartsWith(a, b) && StartsWith(b, c)
    ensures StartsWith(a, c)
  {
    assert a[..|c|] == a[..|b|][..|c|];
  }

  lemma OptionLinesNonEmpty(raw: seq<string>)
    requires |raw| > 0 && IsOptionLine(raw[0])
    ensures |OptionLines(raw)| > 0
  {
    assert multiset(OptionLines(raw))[raw[0]] == multiset(raw)[raw[0]] > 0;
  }

  /** The grouping succeeds exactly on well-formed raw lines. */
  lemma {:induction false} GroupOk(raw: seq<string>)
    ensures Group(raw).Ok? <==> WellFormedRaw(raw)
    decreases |raw|
  {
    if |raw| > 0 {
      var init, line := raw[..|raw| - 1], raw[|raw| - 1];
      GroupOk(init);
      WellFormedInit(raw);
      if Group(init).Ok? && |line| >= 2 && line[1] != ')' && |Group(init).value| == 0 {
        GroupShape(init);
        if |init| > 0 {
          OptionLinesNonEmpty(init);
        }
      }
    }
  }

  /** The shape invariant of the grouping, stated on an entry list and
      the option lines it was built from. */
  predicate EntriesMatch(entries: seq<string>, opts: seq<string>) {
    && |entries| == |opts|
    && forall k :: 0 <= k < |entries| ==> StartsWith(entries[k], Lower(opts[k]))
  }

  lemma MatchAfterOption(entries: seq<string>, opts: seq<string>, line: string)
    requires EntriesMatch(entries, opts)
    ensures EntriesMatch(entries + [Lower(line)], opts + [line])
  {
    var entries', opts' := entries + [Lower(line)], opts + [line];
    forall k | 0 <= k < |entries'|
      ensures StartsWith(entries'[k], Lower(opts'[k]))
    {
      if k < |entries| {
        assert entries'[k] == entries[k] && opts'[k] == opts[k];
      }
    }
  }

  lemma MatchAfterContinuation(entries: seq<string>, opts: seq<string>, line: string)
    requires EntriesMatch(entries, opts) && |entries| > 0
    ensures EntriesMatch(entries[..|entries| - 1] + [entries[|entries| - 1] + ", " + Lower(line)], opts)
  {
    var last := |entries| - 1;
    var glued := entries[last] + ", " + Lower(line);
    var entries' := entries[..last] + [glued];
    forall k | 0 <= k < |entries'|
      ensures StartsWith(entries'[k], Lower(opts[k]))
    {
      if k < last {
        assert entries'[k] == entries[k];
      } else {
        assert glued[..|entries[last]|] == entries[last];
        StartsWithTrans(glued, entries[last], Lower(opts[last]));
      }
    }
  }

  /** A successful grouping yields one entry per option line, and entry `k`
      begins with the lower-cased `k`-th option line. */
  lemma {:induction false} GroupShape(raw: seq<string>)
    requires Group(raw).Ok?
    ensures EntriesMatch(Group(raw).value, OptionLines(raw))
    decreases |raw|
  {
    if |raw| > 0 {
      var init, line := raw[..|raw| - 1], raw[|raw| - 1];
      assert raw == init + [line];
      assert OptionLines(raw)
          == OptionLines(init) + (if IsOptionLine(line) then [line] else []);
      GroupShape(init);
      if line[1] == ')' {
        MatchAfterOption(Group(init).value, OptionLines(init), line);
      } else {
        MatchAfterContinuation(Group(init).value, OptionLines(init), line);
      }
    }
  }

  /** Every grouped entry is an option line: its second character is `)`. */
  lemma GroupEntriesAreOptions(raw: seq<string>)
    requires Group(raw).Ok?
    ensures forall e :: e in Group(raw).value ==> |e| >= 2 && e[1] == ')'
  {
    GroupOk(raw);
    GroupShape(raw);
    var entries := Group(raw).value;
    forall e | e in entries ensures |e| >= 2 && e[1] == ')' {
      var k :| 0 <= k < |entries| && entries[k] == e;
      var opt := OptionLines(raw)[k];
      assert IsOptionLine(opt);
      assert StartsWith(e, Lower(opt));
      assert e[1] == Lower(opt)[1];
    }
  }

  /** The sort key `lambda x: x[0]`: the code point of the first character. */
  function FirstChar(entry: string): int {
    if |entry| > 0 then entry[0] as int else 0
  }

  /** `parse_answers_from_question`: one lower-cased entry per option line,
      continuation lines glued on, stably sorted by first character. The
      formatted string it also returns is display text and is not modelled. */
  function ParseAnswersFromQuestion(raw: seq<string>): (r: Result<seq<string>>)
    ensures r.Ok? <==> WellFormedRaw(raw)
    ensures r.Ok? <==> Group(raw).Ok?
    ensures r.Raise? ==> r.fault == IndexError
    ensures r.Ok? ==> |r.value| == |OptionLines(raw)|
    ensures r.Ok? ==> SortedBy(r.value, FirstChar)
    ensures r.Ok? ==> multiset(r.value) == multiset(Group(raw).value)
    ensures r.Ok? ==> forall k :: 0 <= k < |r.value| ==> |r.value[k]| >= 2 && r.value[k][1] == ')'
  {
    GroupOk(raw);
    match Group(raw)
    case Raise(f) => Raise(f)
    case Ok(entries) =>
      GroupShape(raw);
      GroupEntriesAreOptions(raw);
      var sorted := SortBy(entries, FirstChar);
      PermutationKeepsOptions(entries, sorted);
      Ok(sorted)
  }

  lemma PermutationKeepsOptions(entries: seq<string>, sorted: seq<string>)
    requires forall e :: e in entries ==> |e| >= 2 && e[1] == ')'
    requires multiset(sorted) == multiset(entries)
    ensures forall k :: 0 <= k < |sorted| ==> |sorted[k]| >= 2 && sorted[k][1] == ')'
  {
    forall k | 0 <= k < |sorted| ensures |sorted[k]| >= 2 && sorted[k][1] == ')' {
      assert sorted[k] in multiset(entries);
    }
  }

  /** Options sharing a first letter keep the order of the raw lines. */
  lemma ParseAnswersStable(raw: seq<string>, c: int)
    requires Group(raw).Ok?
    ensures WithKey(ParseAnswersFromQuestion(raw).value, FirstChar, c)
         == WithKey(Group(raw).value, FirstChar, c)
  {
    SortByStable(Group(raw).value, FirstChar, c);
  }

  /** The `replace("\n", " ")` of the source is a no-op: a newline inside an
      option survives into the parsed entry. */
  lemma NewlineKept()
    ensures ParseAnswersFromQuestion(["a) x\ny"]) == Ok(["a) x\ny"])
  {
    assert ["a) x\ny"][..0] == [];
    assert Lower("a) x\ny") == "a) x\ny";
  }

  // ---------------------------------------------------------------------
  // parse_answers_from_poll

  /** `parse_answers_from_poll`: the first letter of every answer whose
      position is among the chosen option ids, in answer order. */
  function ParseAnswersFromPoll(answers: seq<string>, optionIds: seq<int>): (r: string)
    requires forall i :: 0 <= i < |answers| && i in optionIds ==> |answers[i]| > 0
    ensures |r| <= |answers|
  {
    if |answers| == 0 then ""
    else
      var n := |answers| - 1;
      ParseAnswersFromPoll(answers[..n], optionIds)
        + (if n in optionIds then [answers[n][0]] else "")
  }

  /** Only the set of in-range ids matters: repeated and out-of-range ids,
      and the order of the ids, change nothing. */
  lemma {:induction false} PollDependsOnChosenSet(answers: seq<string>, ids1: seq<int>, ids2: seq<int>)
    requires forall i :: 0 <= i < |answers| ==> (i in ids1 <==> i in ids2)
    requires forall i :: 0 <= i < |answers| && i in ids1 ==> |answers[i]| > 0
    ensures ParseAnswersFromPoll(answers, ids1) == ParseAnswersFromPoll(answers, ids2)
    decreases |answers|
  {
    if |answers| > 0 {
      PollDependsOnChosenSet(answers[..|answers| - 1], ids1, ids2);
    }
  }

  /** Every letter of the selection is the first letter of a chosen answer,
      and its length is the number of chosen positions. */
  lemma {:induction false} PollLettersChosen(answers: seq<string>, ids: seq<int>)
    requires forall i :: 0 <= i < |answers| && i in ids ==> |answers[i]| > 0
    ensures |ParseAnswersFromPoll(answers, ids)|
         == |set i | 0 <= i < |answers| && i in ids|
    ensures forall k :: 0 <= k < |ParseAnswersFromPoll(answers, ids)| ==>
              exists i :: 0 <= i < |answers| && i in ids
                          && ParseAnswersFromPoll(answers, ids)[k] == answers[i][0]
    decreases |answers|
  {
    if |answers| > 0 {
      var n := |answers| - 1;
      PollLettersChosen(answers[..n], ids);
      var before := set i | 0 <= i < n && i in ids;
      var now := set i | 0 <= i < |answers| && i in ids;
      assert now == before + (if n in ids then {n} else {});
      assert forall i :: 0 <= i < n ==> answers[..n][i] == answers[i];
    }
  }

  /** Answers sorted by first letter give a non-decreasing selection. */
  lemma {:induction false} PollSelectionSorted(answers: seq<string>, ids: seq<int>)
    requires forall i :: 0 <= i < |answers| ==> |answers[i]| > 0
    requires SortedBy(answers, FirstChar)
    ensures SortedChars(ParseAnswersFromPoll(answers, ids))
    decreases |answers|
  {
    if |answers| > 0 {
      var n := |answers| - 1;
      var prefix := answers[..n];
      assert SortedBy(prefix, FirstChar);
      PollSelectionSorted(prefix, ids);
      PollLettersChosen(prefix, ids);
      var sel := ParseAnswersFromPoll(prefix, ids);
      forall k | 0 <= k < |sel| ensures sel[k] <= answers[n][0] {
        var i :| 0 <= i < n && i in ids && sel[k] == prefix[i][0];
        assert FirstChar(answers[i]) <= FirstChar(answers[n]);
      }
    }
  }
}
