/** The data-transfer shapes of the remote quiz service (src/lib/api.ts). */
module Api {
  import opened Wrappers

  /** One answer option of a question, identified by its `label` (a Dafny keyword, hence `labelText`). */
  datatype Choice = Choice(id: string, labelText: string, content: string, order: int)

  /** A reference from a question to one of its correct choices, by label. */
  datatype CorrectAnswer = CorrectAnswer(id: string, choiceLabel: string)

  /** `type` is a Dafny keyword, so the question's type code is called `qtype`. */
  datatype Question = Question(
    id: string,
    content: string,
    explanation: Option<string>,
    qtype: string,
    order: int,
    choices: seq<Choice>,
    correctAnswers: seq<CorrectAnswer>)

  datatype QuestionSet = QuestionSet(
    id: string,
    title: string,
    subject: string,
    tone: Option<string>,
    difficulty: Option<string>,
    qtype: string,
    fileName: Option<string>,
    createdAt: string,
    questions: seq<Question>)
}
