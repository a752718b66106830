/**
 * The question shape the practice, generator and rendering code share (declared separately in
 * each of those files), the question-type spelling rules, and the conversion from the service's
 * questions into that shape, written once although the library page and the generator page each
 * spell it out.
 */
module Quiz {
  import opened Wrappers
  import opened Seqs
  import opened Strings
  import Api

  /** `correctAnswer: string | string[]`. */
  datatype Answer = Single(text: string) | Multiple(texts: seq<string>) {

    /** `Array.isArray(correctAnswer) ? correctAnswer : [correctAnswer]`. */
    function AsList(): (r: seq<string>)
      ensures Single? ==> r == [text]
      ensures Multiple? ==> r == texts
    {
      match this
      case Single(t) => [t]
      case Multiple(ts) => ts
    }
  }

  datatype Question = Question(
    id: nat,
    question: string,
    options: seq<string>,
    correctAnswer: Answer,
    explanation: Option<string>,
    qtype: string)

  /** `type.toLowerCase().replace('_', '-')`: the service's `MULTIPLE_CHOICE` becomes `multiple-choice`. */
  function NormalizeType(t: string): (r: string)
    ensures |r| == |t|
  {
    ReplaceFirst(Lower(t), "_", "-")
  }

  /** `type.toUpperCase().replace('-', '_')`: the form's `multiple-choice` becomes `MULTIPLE_CHOICE`. */
  function ToApiType(t: string): (r: string)
    ensures |r| == |t|
  {
    ReplaceFirst(Upper(t), "-", "_")
  }

  /** The four question types the generator form offers. */
  const OfferedTypes: seq<string> := ["multiple-choice", "true-false", "multiple-response", "completion"]

  /** No upper-case letter and no underscore: the spelling of a form-side type. */
  predicate FormSpelling(t: string) {
    forall i :: 0 <= i < |t| ==> !('A' <= t[i] <= 'Z') && t[i] != '_'
  }

  /** Upper-casing a form-side type and lower-casing it again gives it back. */
  lemma LowerUpper(t: string)
    requires FormSpelling(t)
    ensures Lower(Upper(t)) == t
  {
    assert forall i :: 0 <= i < |t| ==> Lower(Upper(t))[i] == t[i];
  }

  /** Lower-casing commutes with putting one character in place of position `k`. */
  lemma LowerSplice(u: string, k: nat, c: char)
    requires k < |u| && !('A' <= c <= 'Z')
    ensures Lower(u[..k] + [c] + u[k + 1..]) == Lower(u)[..k] + [c] + Lower(u)[k + 1..]
  {
    var l, r := Lower(u[..k] + [c] + u[k + 1..]), Lower(u)[..k] + [c] + Lower(u)[k + 1..];
    assert |l| == |r|;
    forall i | 0 <= i < |l| ensures l[i] == r[i] {
      if i < k {
        assert l[i] == LowerChar(u[i]);
      } else if i > k {
        assert l[i] == LowerChar(u[i]);
      }
    }
  }

  /** Upper-casing moves no hyphen: the first hyphen of `Upper(t)` is the first hyphen of `t`. */
  lemma ApiTypeSplice(t: string, k: nat)
    requires k < |t| && t[k] == '-' && '-' !in t[..k]
    ensures ToApiType(t) == Upper(t)[..k] + "_" + Upper(t)[k + 1..]
  {
    var u := Upper(t);
    assert u[k] == '-';
    assert '-' !in u[..k] by {
      forall i | 0 <= i < k ensures u[..k][i] != '-' {
        assert t[..k][i] == t[i];
      }
    }
    ReplaceFirstChar(u, '-', "_", k);
  }

  /** Reading back the service spelling produced at a hyphen position `k` restores the hyphen. */
  lemma NormalizeSplice(t: string, k: nat)
    requires FormSpelling(t) && k < |t| && t[k] == '-'
    ensures NormalizeType(Upper(t)[..k] + "_" + Upper(t)[k + 1..]) == t
  {
    LowerUpper(t);
    LowerSplice(Upper(t), k, '_');
    var w := t[..k] + "_" + t[k + 1..];
    assert w[k] == '_';
    assert '_' !in w[..k] by {
      forall i | 0 <= i < k ensures w[..k][i] != '_' {
        assert w[..k][i] == t[i];
      }
    }
    ReplaceFirstChar(w, '_', "-", k);
    assert w[k + 1..] == t[k + 1..];
    assert t == t[..k] + "-" + t[k + 1..];
  }

  /** Sending a form-side type to the service and reading the service's spelling back gives it back. */
  lemma TypeRoundTrip(t: string)
    requires FormSpelling(t)
    ensures NormalizeType(ToApiType(t)) == t
  {
    if '-' !in t {
      var u := Upper(t);
      assert '-' !in u by {
        forall i | 0 <= i < |u| ensures u[i] != '-' {
          assert t[i] != '-';
        }
      }
      ReplaceFirstCharAbsent(u, '-', "_");
      LowerUpper(t);
      assert '_' !in t by {
        forall i | 0 <= i < |t| ensures t[i] != '_' { }
      }
      ReplaceFirstCharAbsent(t, '_', "-");
    } else {
      var k := FirstIndex(t, '-');
      ApiTypeSplice(t, k);
      NormalizeSplice(t, k);
    }
  }

  /** Each type the generator offers survives the round trip through the service's spelling. */
  lemma OfferedTypesRoundTrip()
    ensures forall i :: 0 <= i < |OfferedTypes| ==> NormalizeType(ToApiType(OfferedTypes[i])) == OfferedTypes[i]
  {
    forall i | 0 <= i < |OfferedTypes| ensures NormalizeType(ToApiType(OfferedTypes[i])) == OfferedTypes[i] {
      TypeRoundTrip(OfferedTypes[i]);
    }
  }

  /** `choices.find(choice => choice.label === label)`, as the index of the first match. */
  function FindLabel(choices: seq<Api.Choice>, name: string): (r: Option<nat>)
    ensures r.Some? ==> r.value < |choices| && choices[r.value].labelText == name
    ensures r.Some? ==> forall j :: 0 <= j < r.value ==> choices[j].labelText != name
    ensures r.None? ==> forall j :: 0 <= j < |choices| ==> choices[j].labelText != name
  {
    if |choices| == 0 then None
    else if choices[0].labelText == name then Some(0)
    else
      match FindLabel(choices[1..], name)
      case None => None
      case Some(i) => Some(i + 1)
  }

  /**
   * `choices.find(...)?.content`; the empty string stands for `undefined`, since
   * `filter(Boolean)` drops both alike.
   */
  function LabelContent(choices: seq<Api.Choice>, name: string): string {
    match FindLabel(choices, name)
    case None => ""
    case Some(i) => choices[i].content
  }

  /** `correctAnswers.map(ca => choices.find(...)?.content)`: one looked-up content per reference. */
  function LookedUp(q: Api.Question): (r: seq<string>)
    ensures |r| == |q.correctAnswers|
    ensures forall k :: 0 <= k < |r| ==> r[k] == LabelContent(q.choices, q.correctAnswers[k].choiceLabel)
  {
    seq(|q.correctAnswers|, k requires 0 <= k < |q.correctAnswers| =>
      LabelContent(q.choices, q.correctAnswers[k].choiceLabel))
  }

  /** The question's correct answers as option texts, in `correctAnswers` order, unmatched or empty ones dropped. */
  function ResolveAnswers(q: Api.Question): (r: seq<string>)
    ensures |r| <= |q.correctAnswers|
    ensures "" !in r
  {
    Filter(LookedUp(q), s => s != "")
  }

  /**
   * The resolved answers are the looked-up contents in `correctAnswers` order with the empty
   * ones (no matching choice, or empty content) dropped: every non-empty content is kept as
   * often as it was looked up.
   */
  lemma ResolveAnswersSpec(q: Api.Question)
    ensures IsSubsequence(ResolveAnswers(q), LookedUp(q))
    ensures "" !in ResolveAnswers(q)
    ensures forall s :: s != "" ==> multiset(ResolveAnswers(q))[s] == multiset(LookedUp(q))[s]
  {
    FilterKeeps(LookedUp(q), s => s != "");
  }

  /** Two references to the same label resolve to the same answer twice. */
  lemma RepeatedLabelRepeatsAnswer()
    ensures ResolveAnswers(Api.Question("q", "?", None, "MULTIPLE_CHOICE", 0,
      [Api.Choice("c1", "A", "x", 0), Api.Choice("c2", "B", "y", 1)],
      [Api.CorrectAnswer("a1", "A"), Api.CorrectAnswer("a2", "A")])) == ["x", "x"]
  {
    var q := Api.Question("q", "?", None, "MULTIPLE_CHOICE", 0,
      [Api.Choice("c1", "A", "x", 0), Api.Choice("c2", "B", "y", 1)],
      [Api.CorrectAnswer("a1", "A"), Api.CorrectAnswer("a2", "A")]);
    assert LabelContent(q.choices, "A") == "x";
    assert LookedUp(q) == ["x", "x"];
    FilterAll(LookedUp(q), s => s != "");
  }

  function ChoiceContents(choices: seq<Api.Choice>): seq<string> {
    seq(|choices|, j requires 0 <= j < |choices| => choices[j].content)
  }

  /** One converted question; `index` is its position in the list. */
  function ToPracticeQuestion(q: Api.Question, index: nat): Question {
    Question(index + 1, q.content, ChoiceContents(q.choices), Multiple(ResolveAnswers(q)), q.explanation, NormalizeType(q.qtype))
  }

  /** `questions.map((q, index) => ({ id: index + 1, ... }))`. */
  function ToPractice(qs: seq<Api.Question>): (r: seq<Question>)
    ensures |r| == |qs|
  {
    seq(|qs|, i requires 0 <= i < |qs| => ToPracticeQuestion(qs[i], i))
  }

  /** Every resolved correct answer is a non-empty option text of the same question. */
  lemma ResolvedAnswersAreOptions(q: Api.Question)
    ensures forall a :: a in ResolveAnswers(q) ==> a != "" && a in ChoiceContents(q.choices)
  {
    var looked := LookedUp(q);
    forall a | a in ResolveAnswers(q) ensures a != "" && a in ChoiceContents(q.choices) {
      assert a in looked;
      var k :| 0 <= k < |looked| && looked[k] == a;
      var i := FindLabel(q.choices, q.correctAnswers[k].choiceLabel).value;
      assert ChoiceContents(q.choices)[i] == a;
    }
  }

  /**
   * When every correct-answer label names a choice with non-empty content, nothing is dropped:
   * answer `k` is the content of the first choice carrying label `k`.
   */
  lemma ResolvedAnswersWhenAllMatch(q: Api.Question)
    requires forall k :: 0 <= k < |q.correctAnswers| ==> LabelContent(q.choices, q.correctAnswers[k].choiceLabel) != ""
    ensures |ResolveAnswers(q)| == |q.correctAnswers|
    ensures forall k :: 0 <= k < |q.correctAnswers| ==>
      var i := FindLabel(q.choices, q.correctAnswers[k].choiceLabel);
      i.Some? && ResolveAnswers(q)[k] == q.choices[i.value].content
  {
    FilterAll(LookedUp(q), s => s != "");
  }

  /**
   * The conversion keeps the list's length and order: question `i` gets id `i + 1`, its text,
   * its choice contents in order, its explanation and its normalised type; its correct answers
   * are the resolved ones, each among its options.
   */
  lemma ToPracticeSpec(qs: seq<Api.Question>)
    ensures forall i :: 0 <= i < |qs| ==>
      var p := ToPractice(qs)[i];
      && p.id == i + 1
      && p.question == qs[i].content
      && |p.options| == |qs[i].choices|
      && (forall j :: 0 <= j < |p.options| ==> p.options[j] == qs[i].choices[j].content)
      && p.explanation == qs[i].explanation
      && p.qtype == NormalizeType(qs[i].qtype)
      && p.correctAnswer == Multiple(ResolveAnswers(qs[i]))
      && (forall a :: a in p.correctAnswer.AsList() ==> a in p.options)
  {
    forall i | 0 <= i < |qs| ensures forall a :: a in ToPractice(qs)[i].correctAnswer.AsList() ==> a in ToPractice(qs)[i].options {
      ResolvedAnswersAreOptions(qs[i]);
    }
  }

  /** `String.fromCharCode(65 + i)`: `A`, `B`, ...; a lone surrogate code unit becomes U+FFFD. */
  function OptionLetter(i: nat): (c: char)
    ensures 65 + i < 0xD800 ==> c as int == 65 + i
  {
    var code := (65 + i) % 0x1_0000;
    if code < 0xD800 || code >= 0xE000 then code as char else '\U{FFFD}'
  }
}
