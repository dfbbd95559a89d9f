/**
 The structured records that the two language-model calls return
 (app.py:12-25). The schema library's validation is not modelled: these are
 plain values, and no field is constrained in sign, as in the source.
 */
module ExamRecords {

  /** One generated exam question and the marks it is worth. */
  datatype Question = Question(questionText: string, marks: int)

  /** The question generator's reply: the questions in presentation order. */
  datatype Questions = Questions(questions: seq<Question>)

  /** The examiner's verdict on one answer. */
  datatype EvaluationResult = EvaluationResult(marksObtained: int, feedback: string)

  /** The examiner's reply: one verdict per answer, in order, and one
      aggregate time-overrun deduction applied to the total. */
  datatype EvaluationResults = EvaluationResults(evaluations: seq<EvaluationResult>, deduction: int)

  /** The outcome of an operation that can raise an exception. */
  datatype Result<+T, +E> = Success(value: T) | Failure(error: E)
}
