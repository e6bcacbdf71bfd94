/** `questions/router.py`: the web API's question list and answer check.
    The praise or reproach message is a random pick from a fixed list and
    is kept as its index in that list. */
module Router {
  import opened Wrappers
  import opened Builtins
  import opened Entities

  /** The sizes of `SUCCESS_STATUSES` and `FAIL_STATUSES`. */
  const SuccessStatuses := 18
  const FailStatuses := 14

  /** `QuestionValidationStatus`; `correctAnswer` keeps its default `None`
      unless the answer was wrong. */
  datatype Validation = Validation(status: bool, message: nat, correctAnswer: Option<string>)

  /** The comparison of `validate_answer`: both answers lowered and sorted
      character by character. */
  predicate SameLetters(correct: string, chosen: string) {
    SortString(Lower(correct)) == SortString(Lower(chosen))
  }

  /** The comparison ignores order: it holds exactly when the lowered
      answers have the same letters, each as many times. */
  lemma SameLettersIff(correct: string, chosen: string)
    ensures SameLetters(correct, chosen) <==> multiset(Lower(correct)) == multiset(Lower(chosen))
  {
    SortStringEqIff(Lower(correct), Lower(chosen));
  }

  /** It ignores case as well: answers equal once lowered compare equal. */
  lemma SameLettersIgnoresCase(correct: string, chosen: string)
    requires Lower(correct) == Lower(chosen)
    ensures SameLetters(correct, chosen)
  {
  }

  /** `"BA"` is accepted for the answer `"ab"`. */
  lemma AcceptsReorderedUpperCase()
    ensures SameLetters("ab", "BA")
  {
    assert LowerChar('B') == 'b' && LowerChar('A') == 'a';
    var lowered := Lower("BA");
    assert lowered[0] == 'b' && lowered[1] == 'a';
    assert lowered == "ba";
    assert Lower("ab") == "ab";
    assert multiset(lowered) == multiset("ab") by {
      assert "ba" == ['b'] + ['a'] && "ab" == ['a'] + ['b'];
    }
    SameLettersIff("ab", "BA");
  }

  /** A missing letter is not accepted: `"ab"` for the answer `"abc"`. */
  lemma RejectsMissingLetter()
    ensures !SameLetters("abc", "ab")
  {
    assert |Lower("abc")| == 3 && |Lower("ab")| == 2;
    assert |SortString(Lower("abc"))| == 3 && |SortString(Lower("ab"))| == 2;
  }

  /** `validate_answer`: a question id with no row raises `NoResultFound`;
      otherwise the status says whether the answers have the same letters,
      the message is drawn from the list that matches the status, and the
      correct answer is revealed exactly when the status is false. The id
      is the table's primary key, so the row is the only one with it. */
  method ValidateAnswer(bank: seq<Question>, questionId: int, chosen: string) returns (r: Result<Validation>)
    ensures (forall q :: q in bank ==> q.id != questionId) <==> r == Raise(NoResultFound)
    ensures r.Raise? ==> r.fault == NoResultFound
    ensures r.Ok? ==>
              var q := FindQuestion(bank, questionId).value;
              && (r.value.status <==> SameLetters(q.correctAnswer, chosen))
              && (r.value.status ==> r.value.message < SuccessStatuses && r.value.correctAnswer.None?)
              && (!r.value.status ==> r.value.message < FailStatuses && r.value.correctAnswer == Some(q.correctAnswer))
  {
    var found := FindQuestion(bank, questionId);
    if found.None? {
      return Raise(NoResultFound);
    }
    var q := found.value;
    if SameLetters(q.correctAnswer, chosen) {
      var message :| 0 <= message < SuccessStatuses;
      r := Ok(Validation(true, message, None));
    } else {
      var message :| 0 <= message < FailStatuses;
      r := Ok(Validation(false, message, Some(q.correctAnswer)));
    }
  }

  /** `get_questions`: the theme's questions, shuffled. */
  method GetQuestions(bank: seq<Question>, theme: int) returns (r: seq<Question>)
    ensures multiset(r) == multiset(ThemeQuestions(bank, theme))
    ensures forall q :: q in r <==> q in bank && q.themeId == theme
  {
    var rows := ThemeQuestions(bank, theme);
    r :| multiset(r) == multiset(rows);
    assert forall q :: q in r <==> q in multiset(r);
    assert forall q :: q in rows <==> q in multiset(rows);
  }
}
