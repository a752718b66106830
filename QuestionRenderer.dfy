/**
 * The decisions of the question component (src/components/QuestionRenderer.tsx): which view a
 * question type selects, the type badge, whether an option counts as correct, each option's
 * visual state and markers, and how a completion question's text is cut at its blanks.
 */
module QuestionRenderer {
  import opened Wrappers
  import opened Strings
  import opened Quiz

  /** The component's `formatQuestionType`: labels for the five normalised types, else the original text. */
  function FormatQuestionType(t: string): (r: string)
    ensures NormalizeType(t) == "multiple-choice" ==> r == "Trắc nghiệm"
    ensures NormalizeType(t) == "true-false" ==> r == "Đúng/Sai"
    ensures NormalizeType(t) == "multiple-response" ==> r == "Nhiều lựa chọn"
    ensures NormalizeType(t) == "matching" ==> r == "Ghép đôi"
    ensures NormalizeType(t) == "completion" ==> r == "Điền khuyết"
    ensures NormalizeType(t) !in ["multiple-choice", "true-false", "multiple-response", "matching", "completion"] ==> r == t
  {
    match NormalizeType(t)
    case "multiple-choice" => "Trắc nghiệm"
    case "true-false" => "Đúng/Sai"
    case "multiple-response" => "Nhiều lựa chọn"
    case "matching" => "Ghép đôi"
    case "completion" => "Điền khuyết"
    case _ => t
  }

  /** The five option views. */
  datatype View = MultipleChoiceView | TrueFalseView | MultipleResponseView | MatchingView | CompletionView

  /** `renderQuestion`: the normalised type picks the view; any other type falls back to multiple choice. */
  function Dispatch(t: string): (v: View)
    ensures v == TrueFalseView <==> NormalizeType(t) == "true-false"
    ensures v == MultipleResponseView <==> NormalizeType(t) == "multiple-response"
    ensures v == MatchingView <==> NormalizeType(t) == "matching"
    ensures v == CompletionView <==> NormalizeType(t) == "completion"
    ensures v == MultipleChoiceView <==> NormalizeType(t) !in ["true-false", "multiple-response", "matching", "completion"]
  {
    match NormalizeType(t)
    case "multiple-choice" => MultipleChoiceView
    case "true-false" => TrueFalseView
    case "multiple-response" => MultipleResponseView
    case "matching" => MatchingView
    case "completion" => CompletionView
    case _ => MultipleChoiceView
  }

  /** Each type the generator offers selects its own view. */
  lemma OfferedTypesSelectTheirView()
    ensures Dispatch("multiple-choice") == MultipleChoiceView && Dispatch("true-false") == TrueFalseView
    ensures Dispatch("multiple-response") == MultipleResponseView && Dispatch("completion") == CompletionView
  {
    forall i | 0 <= i < |OfferedTypes| ensures NormalizeType(OfferedTypes[i]) == OfferedTypes[i] {
      LowerLowerCase(OfferedTypes[i]);
    }
    assert NormalizeType(OfferedTypes[0]) == "multiple-choice";
    assert NormalizeType(OfferedTypes[1]) == "true-false";
    assert NormalizeType(OfferedTypes[2]) == "multiple-response";
    assert NormalizeType(OfferedTypes[3]) == "completion";
  }

  /** The form-side spelling reads back as itself: lower case, nothing to replace. */
  lemma LowerLowerCase(t: string)
    requires FormSpelling(t)
    ensures NormalizeType(t) == t
  {
    assert Lower(t) == t;
    assert '_' !in t by {
      forall i | 0 <= i < |t| ensures t[i] != '_' { }
    }
    ReplaceFirstCharAbsent(t, '_', "-");
  }

  /** An array answer includes the option, or a string answer equals it. */
  function OptionIsCorrect(option: string, answer: Answer): (r: bool)
    ensures r <==> option in answer.AsList()
  {
    match answer
    case Multiple(ts) => option in ts
    case Single(t) => t == option
  }

  /** What the view takes as correct: every option of a matching question, else the rule above. */
  function TreatedAsCorrect(v: View, option: string, answer: Answer): (r: bool)
    ensures v == MatchingView ==> r
    ensures v != MatchingView ==> (r <==> option in answer.AsList())
  {
    v == MatchingView || OptionIsCorrect(option, answer)
  }

  /** The option's look, named for its colour scheme. */
  datatype OptionState = ShownCorrect | ShownWrong | ShownNeutral | Chosen | Idle

  /**
   * Once the answer is shown a correct option looks correct whether chosen or not, a chosen
   * incorrect one looks wrong and the rest are neutral; before that only the choice shows.
   */
  function StateOf(showAnswer: bool, selected: bool, correct: bool): (s: OptionState)
    ensures showAnswer ==> (s == ShownCorrect <==> correct)
    ensures showAnswer ==> (s == ShownWrong <==> selected && !correct)
    ensures showAnswer ==> (s == ShownNeutral <==> !selected && !correct)
    ensures !showAnswer ==> (s == Chosen <==> selected) && (s == Idle <==> !selected)
  {
    if showAnswer then
      if correct then ShownCorrect else if selected then ShownWrong else ShownNeutral
    else if selected then Chosen else Idle
  }

  /**
   * One rendered option: its letter (the true/false view shows a glyph instead), its look and
   * its two markers.
   */
  datatype OptionView = OptionView(letter: Option<char>, text: string, state: OptionState, check: bool, cross: bool)

  /**
   * Option `i` of question `q`: the matching view shows a check on every option once the answer
   * is shown and never a cross; the others check correct options and cross chosen incorrect ones.
   */
  function RenderOption(q: Question, selectedAnswers: seq<string>, showAnswer: bool, i: nat): (o: OptionView)
    requires i < |q.options|
    ensures o.text == q.options[i]
    ensures o.letter.Some? ==> o.letter.value == OptionLetter(i)
    ensures !showAnswer ==> !o.check && !o.cross
  {
    var v := Dispatch(q.qtype);
    var option := q.options[i];
    var selected := option in selectedAnswers;
    var correct := TreatedAsCorrect(v, option, q.correctAnswer);
    var check := if v == MatchingView then showAnswer else showAnswer && correct;
    var cross := if v == MatchingView then false else showAnswer && selected && !correct;
    var letter := if v == TrueFalseView then None else Some(OptionLetter(i));
    OptionView(letter, option, StateOf(showAnswer, selected, correct), check, cross)
  }

  function RenderOptions(q: Question, selectedAnswers: seq<string>, showAnswer: bool): (r: seq<OptionView>)
    ensures |r| == |q.options|
    ensures forall i :: 0 <= i < |r| ==> r[i] == RenderOption(q, selectedAnswers, showAnswer, i)
  {
    seq(|q.options|, i requires 0 <= i < |q.options| => RenderOption(q, selectedAnswers, showAnswer, i))
  }

  /**
   * The markers say what the source promises: a cross only on a chosen option the answer does
   * not contain, once shown and outside matching; a check on an option exactly when shown and
   * either matching or contained in the answer.
   */
  lemma MarkerRules(q: Question, selectedAnswers: seq<string>, showAnswer: bool)
    ensures forall i :: 0 <= i < |q.options| ==>
      var o := RenderOptions(q, selectedAnswers, showAnswer)[i];
      && (o.cross <==> showAnswer && Dispatch(q.qtype) != MatchingView && q.options[i] in selectedAnswers && q.options[i] !in q.correctAnswer.AsList())
      && (o.check <==> showAnswer && (Dispatch(q.qtype) == MatchingView || q.options[i] in q.correctAnswer.AsList()))
      && !(o.check && o.cross)
      && (o.letter.None? <==> Dispatch(q.qtype) == TrueFalseView)
  {
  }

  /** In the matching view every option looks correct and is checked once the answer is shown. */
  lemma MatchingAllCorrect(q: Question, selectedAnswers: seq<string>)
    requires Dispatch(q.qtype) == MatchingView
    ensures forall i :: 0 <= i < |q.options| ==>
      RenderOptions(q, selectedAnswers, true)[i].state == ShownCorrect && RenderOptions(q, selectedAnswers, true)[i].check
  {
  }

  /** The true/false view's glyph: a check when the option mentions `đúng` or `true`. */
  function TrueFalseGlyphIsCheck(option: string): (r: bool)
    ensures r ==> |option| >= 4
  {
    Contains(Lower(option), "đúng") || Contains(Lower(option), "true")
  }

  /** The service's usual true/false options: `True` and `đúng` get the check, `False` and `Sai` the cross. */
  lemma TrueFalseGlyphs()
    ensures TrueFalseGlyphIsCheck("True") && TrueFalseGlyphIsCheck("đúng")
    ensures !TrueFalseGlyphIsCheck("False") && !TrueFalseGlyphIsCheck("Sai")
  {
    assert OccursAt(Lower("True"), "true", 0);
    assert OccursAt(Lower("đúng"), "đúng", 0);
    var f := Lower("False");
    assert f == "false";
    forall i | 0 <= i <= |f| - 4 ensures !OccursAt(f, "true", i) && !OccursAt(f, "đúng", i) {
      assert f[i..i + 4][0] == f[i];
    }
    assert |Lower("Sai")| == 3;
  }

  /** The result badge next to the type badge: only while the answer is shown; an absent verdict reads as wrong. */
  datatype Verdict = RightBadge | WrongBadge

  function ResultBadge(showAnswer: bool, isCorrect: Option<bool>): (r: Option<Verdict>)
    ensures r.Some? <==> showAnswer
    ensures r == Some(RightBadge) <==> showAnswer && isCorrect == Some(true)
  {
    if !showAnswer then None
    else if isCorrect == Some(true) then Some(RightBadge) else Some(WrongBadge)
  }

  /** The blank a completion question marks with five underscores. */
  const BlankMark := "_____"

  /** A piece of a completion question's text: plain text, or a highlighted blank. */
  datatype Segment = Text(s: string) | Blank

  /** The parts with a blank between consecutive parts only. */
  function Interleave(parts: seq<string>): (r: seq<Segment>)
    requires |parts| >= 1
    ensures |r| == 2 * |parts| - 1
    ensures forall i :: 0 <= i < |r| ==> (r[i] == Blank <==> i % 2 == 1)
  {
    if |parts| == 1 then [Text(parts[0])] else [Text(parts[0]), Blank] + Interleave(parts[1..])
  }

  /** The segments of a completion question: its text split at `_____`. */
  function CompletionSegments(text: string): (r: seq<Segment>)
    ensures |r| % 2 == 1
    ensures forall i :: 0 <= i < |r| ==> (r[i] == Blank <==> i % 2 == 1)
  {
    Interleave(Split(text, BlankMark))
  }

  /**
   * The question area: segments for a completion question, the plain text otherwise. Either
   * way it shows the question text, a completion question with one blank per `_____`.
   */
  function QuestionSegments(q: Question): (r: seq<Segment>)
    ensures Reassemble(r) == q.question
    ensures NormalizeType(q.qtype) == "completion" ==> BlankCount(r) == |Split(q.question, BlankMark)| - 1
    ensures NormalizeType(q.qtype) != "completion" ==> BlankCount(r) == 0 && |r| == 1
  {
    if NormalizeType(q.qtype) == "completion" then
      CompletionSegmentsSpec(q.question);
      CompletionSegments(q.question)
    else
      [Text(q.question)]
  }

  function BlankCount(segs: seq<Segment>): nat {
    if segs == [] then 0 else (if segs[0] == Blank then 1 else 0) + BlankCount(segs[1..])
  }

  /** The text a segment list shows, each blank written as `_____`. */
  function Reassemble(segs: seq<Segment>): string {
    if segs == [] then "" else (match segs[0] case Text(s) => s case Blank => BlankMark) + Reassemble(segs[1..])
  }

  lemma {:induction false} InterleaveBlanks(parts: seq<string>)
    requires |parts| >= 1
    ensures BlankCount(Interleave(parts)) == |parts| - 1
  {
    if |parts| > 1 {
      InterleaveBlanks(parts[1..]);
      var rest := Interleave(parts[1..]);
      assert ([Text(parts[0]), Blank] + rest)[1..] == [Blank] + rest;
      assert ([Blank] + rest)[1..] == rest;
    }
  }

  lemma {:induction false} InterleaveReassembles(parts: seq<string>)
    requires |parts| >= 1
    ensures Reassemble(Interleave(parts)) == Join(parts, BlankMark)
  {
    if |parts| > 1 {
      InterleaveReassembles(parts[1..]);
      var rest := Interleave(parts[1..]);
      assert ([Text(parts[0]), Blank] + rest)[1..] == [Blank] + rest;
      assert ([Blank] + rest)[1..] == rest;
    }
  }

  /**
   * A completion question shows one blank fewer than it has parts, and writing each blank back
   * as `_____` gives the question text.
   */
  lemma CompletionSegmentsSpec(text: string)
    ensures BlankCount(CompletionSegments(text)) == |Split(text, BlankMark)| - 1
    ensures Reassemble(CompletionSegments(text)) == text
  {
    InterleaveBlanks(Split(text, BlankMark));
    InterleaveReassembles(Split(text, BlankMark));
  }
}
