/**
 * The practice session (src/app/practice/page.tsx): the page's state, its answer handlers, the
 * correctness rule and the elapsed-time display.
 */
module Practice {
  import opened Wrappers
  import opened Seqs
  import opened Strings
  import opened Quiz

  /**
   * The correctness rule the page writes out four times: the selection is as long as the list of
   * correct answers and every selected answer is one of them.
   */
  predicate AnswerMatches(selected: seq<string>, expected: Answer)
    ensures selected == expected.AsList() ==> AnswerMatches(selected, expected)
    ensures AnswerMatches(selected, expected) ==> (set x | x in selected) <= (set x | x in expected.AsList())
  {
    var correct := expected.AsList();
    |selected| == |correct| && forall i :: 0 <= i < |selected| ==> selected[i] in correct
  }

  /**
   * For duplicate-free selections and answer lists (what the page produces), the rule holds
   * exactly when the selected answers are the correct answers as sets.
   */
  lemma AnswerMatchesIffSameSet(selected: seq<string>, expected: Answer)
    requires NoDups(selected) && NoDups(expected.AsList())
    ensures AnswerMatches(selected, expected) <==> (set x | x in selected) == (set x | x in expected.AsList())
  {
    var correct := expected.AsList();
    var a, b := set x | x in selected, set x | x in correct;
    NoDupsCard(selected);
    NoDupsCard(correct);
    if AnswerMatches(selected, expected) {
      assert a <= b;
      assert |b - a| == |b| - |a|;
      assert b - a == {};
    }
    if a == b {
      forall i | 0 <= i < |selected| ensures selected[i] in correct {
        assert selected[i] in a;
      }
    }
  }

  /**
   * A question whose correct answers repeat a text (two references to one label) can never be
   * scored with a duplicate-free selection: it would need as many distinct picks as the list is
   * long, and the list has fewer distinct texts than entries.
   */
  lemma RepeatedAnswerUnscoreable(selected: seq<string>, correct: seq<string>)
    requires NoDups(selected) && !NoDups(correct)
    ensures !AnswerMatches(selected, Multiple(correct))
  {
    var a, b := set x | x in selected, set x | x in correct;
    NoDupsCard(selected);
    DistinctCount(correct);
    assert AnswerMatches(selected, Multiple(correct)) ==> a <= b;
    assert a <= b ==> |b - a| == |b| - |a|;
  }

  /** The rule only compares lengths, so a repeated answer can stand in for a missing one. */
  lemma RepeatedSelectionMatches()
    ensures AnswerMatches(["a", "a"], Multiple(["a", "b"]))
  {
  }

  /** What selecting `answer` does to the selection of a `multiple-response` question. */
  function Toggle(prev: seq<string>, answer: string): (r: seq<string>)
    ensures answer in r <==> answer !in prev
    ensures forall x :: x != answer ==> (x in r <==> x in prev)
    ensures Without(r, answer) == Without(prev, answer)
    ensures NoDups(prev) ==> NoDups(r)
  {
    if answer in prev then
      WithoutIdempotent(prev, answer);
      WithoutKeeps(prev, answer);
      SubsequenceNoDupsIf(Without(prev, answer), prev);
      assert forall x :: x != answer ==> (x in Without(prev, answer) <==> multiset(prev)[x] > 0);
      Without(prev, answer)
    else
      WithoutAppend(prev, answer, answer);
      assert forall x :: x in prev + [answer] <==> x in prev || x == answer;
      prev + [answer]
  }

  lemma SubsequenceNoDupsIf(r: seq<string>, s: seq<string>)
    requires IsSubsequence(r, s)
    ensures NoDups(s) ==> NoDups(r)
  {
    if NoDups(s) {
      SubsequenceNoDups(r, s);
    }
  }

  /** `formatTime`: whole minutes, a colon, and the remaining seconds padded to two digits. */
  function FormatTime(seconds: nat): (r: string)
    ensures |r| >= 4 && r[|r| - 3] == ':'
  {
    PaddedSeconds(seconds % 60);
    Decimal(seconds / 60) + ":" + PadStart2(Decimal(seconds % 60))
  }

  /** Reads `m:ss` back: decimal minutes, a colon, exactly two decimal digits of seconds. */
  function ParseTime(t: string): Option<(nat, nat)> {
    match FindFrom(t, ":", 0)
    case None => None
    case Some(k) =>
      var m, s := t[..k], t[k + 1..];
      if |m| > 0 && AllDigits(m) && |s| == 2 && AllDigits(s) then Some((DecimalValue(m), DecimalValue(s))) else None
  }

  /** The two-digit seconds field of `FormatTime` reads back as the seconds below a minute. */
  lemma PaddedSeconds(x: nat)
    requires x < 60
    ensures |PadStart2(Decimal(x))| == 2 && AllDigits(PadStart2(Decimal(x)))
    ensures DecimalValue(PadStart2(Decimal(x))) == x
  {
    var d := Decimal(x);
    if x < 10 {
      var p := PadStart2(d);
      assert p == ['0', DigitChar(x)];
      assert p[..1] == ['0'];
      assert ['0'][..0] == [];
    } else {
      assert |Decimal(x / 10)| == 1;
      DecimalRoundTrip(x);
    }
  }

  /** A non-empty digit string, a colon and two digits read back as the two numbers. */
  lemma ParseTimeFields(m: string, sec: string)
    requires |m| > 0 && AllDigits(m) && |sec| == 2 && AllDigits(sec)
    ensures ParseTime(m + ":" + sec) == Some((DecimalValue(m), DecimalValue(sec)))
  {
    var t := m + ":" + sec;
    forall j | 0 <= j < |m| ensures t[j] != ':' {
      assert t[j] == m[j];
    }
    FindFromChar(t, ':', 0, |m|);
    assert t[..|m|] == m;
    assert t[|m| + 1..] == sec;
  }

  /**
   * `formatTime(s)` reads back as `floor(s / 60)` minutes and `s % 60` seconds, so the time shown
   * determines the elapsed seconds: `mins * 60 + secs == s`.
   */
  lemma FormatTimeRoundTrip(seconds: nat)
    ensures ParseTime(FormatTime(seconds)) == Some((seconds / 60, seconds % 60))
    ensures var p := ParseTime(FormatTime(seconds)).value; p.0 * 60 + p.1 == seconds
  {
    DecimalRoundTrip(seconds / 60);
    PaddedSeconds(seconds % 60);
    ParseTimeFields(Decimal(seconds / 60), PadStart2(Decimal(seconds % 60)));
  }

  /** The practice page's state; the questions are those the mount effect read from storage. */
  class PracticePage {
    var questions: seq<Question>
    var currentQuestionIndex: nat
    var selectedAnswers: seq<string>
    var showAnswer: bool
    var userAnswers: map<nat, seq<string>>
    var score: nat
    var timeElapsed: nat
    var isPaused: bool
    var isCompleted: bool

    /**
     * The index stays on a question; recorded answers belong to questions, are non-empty and
     * duplicate-free; the selection is duplicate-free; with no questions nothing is selected or recorded.
     */
    ghost predicate Valid()
      reads this
    {
      && (|questions| == 0 ==> currentQuestionIndex == 0 && selectedAnswers == [] && userAnswers == map[])
      && (|questions| > 0 ==> currentQuestionIndex < |questions|)
      && NoDups(selectedAnswers)
      && (forall k :: k in userAnswers ==> k < |questions| && userAnswers[k] != [] && NoDups(userAnswers[k]))
    }

    /** The page once the saved questions are loaded, with every other state at its initial value. */
    constructor (saved: seq<Question>)
      ensures Valid()
      ensures questions == saved && currentQuestionIndex == 0 && selectedAnswers == [] && !showAnswer
      ensures userAnswers == map[] && score == 0 && timeElapsed == 0 && !isPaused && !isCompleted
    {
      questions := saved;
      currentQuestionIndex := 0;
      selectedAnswers := [];
      showAnswer := false;
      userAnswers := map[];
      score := 0;
      timeElapsed := 0;
      isPaused := false;
      isCompleted := false;
    }

    /** `Object.keys(userAnswers).length`: never more than the number of questions. */
    function CompletedQuestions(): (n: nat)
      reads this
      requires Valid()
      ensures n <= |questions|
    {
      BoundedSetSize(userAnswers.Keys, |questions|);
      |userAnswers.Keys|
    }

    /** `handleAnswerSelect`: toggle for `multiple-response`, replace for every other type. */
    method HandleAnswerSelect(answer: string)
      requires Valid() && |questions| > 0
      modifies this`selectedAnswers
      ensures Valid()
      ensures questions[currentQuestionIndex].qtype == "multiple-response" ==>
        selectedAnswers == Toggle(old(selectedAnswers), answer)
      ensures questions[currentQuestionIndex].qtype != "multiple-response" ==> selectedAnswers == [answer]
    {
      if questions[currentQuestionIndex].qtype == "multiple-response" {
        selectedAnswers := Toggle(selectedAnswers, answer);
      } else {
        selectedAnswers := [answer];
      }
    }

    /**
     * `checkAnswer`: with nothing selected nothing changes; otherwise the answer is shown, the
     * selection is recorded for this question and the score rises by one exactly when it matches.
     */
    method CheckAnswer()
      requires Valid()
      modifies this`showAnswer, this`userAnswers, this`score
      ensures Valid()
      ensures selectedAnswers == [] ==>
        showAnswer == old(showAnswer) && userAnswers == old(userAnswers) && score == old(score)
      ensures selectedAnswers != [] ==>
        && showAnswer
        && userAnswers == old(userAnswers)[currentQuestionIndex := selectedAnswers]
        && score == old(score) + (if AnswerMatches(selectedAnswers, questions[currentQuestionIndex].correctAnswer) then 1 else 0)
    {
      if |selectedAnswers| == 0 {
        return;
      }
      showAnswer := true;
      userAnswers := userAnswers[currentQuestionIndex := selectedAnswers];
      if AnswerMatches(selectedAnswers, questions[currentQuestionIndex].correctAnswer) {
        score := score + 1;
      }
    }

    /**
     * `nextQuestion`: below the last question, move on with an empty selection and the answer
     * hidden (even if the next question was answered before); at the last one, mark the session complete.
     */
    method NextQuestion()
      requires Valid()
      modifies this`currentQuestionIndex, this`selectedAnswers, this`showAnswer, this`isCompleted
      ensures Valid()
      ensures old(currentQuestionIndex) < |questions| - 1 ==>
        && currentQuestionIndex == old(currentQuestionIndex) + 1
        && selectedAnswers == [] && !showAnswer && isCompleted == old(isCompleted)
      ensures old(currentQuestionIndex) >= |questions| - 1 ==>
        && isCompleted
        && currentQuestionIndex == old(currentQuestionIndex)
        && selectedAnswers == old(selectedAnswers) && showAnswer == old(showAnswer)
    {
      if currentQuestionIndex < |questions| - 1 {
        currentQuestionIndex := currentQuestionIndex + 1;
        selectedAnswers := [];
        showAnswer := false;
      } else {
        isCompleted := true;
      }
    }

    /**
     * `prevQuestion`: above the first question, go back and restore what was recorded there
     * (or nothing), showing the answer exactly when something was recorded.
     */
    method PrevQuestion()
      requires Valid()
      modifies this`currentQuestionIndex, this`selectedAnswers, this`showAnswer
      ensures Valid()
      ensures old(currentQuestionIndex) > 0 ==>
        && currentQuestionIndex == old(currentQuestionIndex) - 1
        && showAnswer == (currentQuestionIndex in userAnswers)
        && selectedAnswers == (if currentQuestionIndex in userAnswers then userAnswers[currentQuestionIndex] else [])
      ensures old(currentQuestionIndex) == 0 ==>
        && currentQuestionIndex == 0
        && selectedAnswers == old(selectedAnswers) && showAnswer == old(showAnswer)
    {
      if currentQuestionIndex > 0 {
        var previous := currentQuestionIndex - 1;
        selectedAnswers := if previous in userAnswers then userAnswers[previous] else [];
        showAnswer := previous in userAnswers;
        currentQuestionIndex := previous;
      }
    }

    /** `resetPractice`: every session value back to its initial value; the questions stay. */
    method ResetPractice()
      requires Valid()
      modifies this`currentQuestionIndex, this`selectedAnswers, this`showAnswer, this`userAnswers,
        this`score, this`timeElapsed, this`isCompleted, this`isPaused
      ensures Valid()
      ensures currentQuestionIndex == 0 && selectedAnswers == [] && !showAnswer && userAnswers == map[]
      ensures score == 0 && timeElapsed == 0 && !isCompleted && !isPaused
    {
      currentQuestionIndex := 0;
      selectedAnswers := [];
      showAnswer := false;
      userAnswers := map[];
      score := 0;
      timeElapsed := 0;
      isCompleted := false;
      isPaused := false;
    }

    /** The pause button flips `isPaused`. */
    method TogglePause()
      modifies this`isPaused
      ensures isPaused == !old(isPaused)
    {
      isPaused := !isPaused;
    }
  }

  /** Choosing the single correct answer of a multiple-choice question and checking it scores one point. */
  method SelectAndCheck(page: PracticePage, answer: string)
    requires page.Valid() && |page.questions| > 0
    requires page.questions[page.currentQuestionIndex].qtype == "multiple-choice"
    requires page.questions[page.currentQuestionIndex].correctAnswer == Single(answer)
    modifies page
    ensures page.Valid() && page.showAnswer
    ensures page.questions == old(page.questions) && page.currentQuestionIndex == old(page.currentQuestionIndex)
    ensures page.score == old(page.score) + 1
  {
    page.HandleAnswerSelect(answer);
    assert AnswerMatches([answer], Single(answer));
    page.CheckAnswer();
  }

  /**
   * Because `nextQuestion` hides the answer of a question already answered, that question can be
   * checked and scored again: two questions, three points.
   */
  method ScoreExceedsQuestionCount() returns (page: PracticePage)
    ensures page.Valid() && |page.questions| == 2 && page.score == 3
  {
    var q0 := Question(1, "q0", ["a", "b"], Single("a"), None, "multiple-choice");
    var q1 := Question(2, "q1", ["a", "b"], Single("a"), None, "multiple-choice");
    page := new PracticePage([q0, q1]);
    SelectAndCheck(page, "a");
    page.NextQuestion();
    SelectAndCheck(page, "a");
    page.PrevQuestion();
    page.NextQuestion();
    SelectAndCheck(page, "a");
  }
}
