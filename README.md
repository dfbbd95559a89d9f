# Exam question generator and answer evaluator — verified model

The application asks a language model for exam questions, shows them, then
asks the model to mark the student's answers and to propose one time-overrun
deduction. It then totals the marks, clamps the final score at zero and
builds a markdown report. This project covers the deterministic layer around
the two model calls in `app.py`:

- `records.dfy`, module `ExamRecords`: the four structured-output records
  (`Question`, `Questions`, `EvaluationResult`, `EvaluationResults`) as plain
  datatypes. Signs are not constrained, as in the code. It also holds a small
  `Result` type for the exception path.
- `scoring.dfy`, module `Scoring`: `total_marks_possible`,
  `total_marks_obtained` (Python `sum` over integers) and
  `final_marks = max(0, obtained - deduction)`.
- `report.dfy`, module `EvaluationReport`: what `evaluate_answers` does after
  the model replies.
  - The report is a sequence of tagged line records. Each record carries the
    values the code puts into that line.
  - `Report` is the reference definition: four sections in order.
  - `EvaluateAnswers` builds the report line by line in a loop, as the code
    grows its string, and is proved equal to `Report`.
  - When there are more evaluations than questions, the lookup
    `questions.questions[i-1]` raises IndexError. This is modelled as
    `Failure(QuestionIndexOutOfRange(..))`, not excluded by a precondition.
- `display.dfy`, module `QuestionDisplay`: the text block `generate_questions`
  shows. It is a header, one numbered entry per returned question, and the
  total time. The method loops like the code does and returns the question
  collection and the start timestamp. The timestamp is a parameter.
- `listing.dfy`, module `PromptListing`: the numbered question list placed in
  the examiner prompt. It is modelled as actual text:
  - Python's `str(int)` decimal rendering;
  - entries `"{i}. {text} (Marks: {m})"`;
  - `"\n".join`.

  The code never splits the listing. `SplitLines`, the inverse of the join,
  is there only to state what the join produces. With it the model proves
  that the listing has one line per question, and that each line's leading
  numeral reads back as its question number.

The code enforces none of the following, and the model follows the code:

- Marks and deductions may be any integer.
- The generated display has one entry per question the model returned. That
  need not be the number of questions requested.
- Nothing checks that the evaluations line up with the questions. Fewer
  evaluations than questions silently produce a shorter report. More
  evaluations raise IndexError.
- Nothing ties the examiner's deduction to the overrun. When the time taken
  is within the allocated time but the deduction is positive, the time
  summary says no deduction applies while the marks summary still shows the
  reduced score. `ReportTimeSummary` and `ReportMarksSummary` state the two
  conditions separately.

## Model

| member | source | states |
|---|---|---|
| `Scoring.TotalMarksPossible` | app.py:119 | the sum of the questions' marks (Python `sum`). If no question has negative marks, it is not negative and no question is worth more than it. If every question is worth at least one mark, it is at least the number of questions. Additivity is in `TotalMarksPossibleAppend`, the uniform case in `UniformMarksTotal` |
| `Scoring.TotalMarksObtained` | app.py:120 | the sum of the evaluations' marks. If no evaluation awards negative marks, it is not negative and no evaluation awards more than it. If every evaluation awards at least one mark, it is at least the number of evaluations. Additivity is in `TotalMarksObtainedAppend`, the bound by the total possible in `ObtainedWithinPossible` |
| `Scoring.FinalMarks` | app.py:121 | the final score is never negative, never below obtained minus deduction, and is one of those two; with non-negative marks and deduction it never exceeds the marks obtained |
| `Scoring.SumAppend` | app.py:119-120 | the integer sum used for both totals is additive over concatenation |
| `Scoring.TotalMarksPossibleAppend` | app.py:119 | total marks possible of a concatenated question list is the sum of the parts' totals |
| `Scoring.TotalMarksObtainedAppend` | app.py:120 | total marks obtained of concatenated evaluations is the sum of the parts' totals |
| `Scoring.UniformMarksTotal` | app.py:119 | when every question carries the same marks m, the total possible is the number of questions times m |
| `Scoring.ObtainedWithinPossible` | app.py:119-120 | with one evaluation per question and each scored within its question's marks, the total obtained is within the total possible |
| `Scoring.FinalWithinPossible` | app.py:119-121 | with a non-negative deduction and 0 <= obtained <= possible, the final score lies in [0, possible] |
| `Scoring.WorkedExamples` | app.py:119-121 | three ten-mark questions scored 10, 5, 0 with deduction 3 give 30 possible, 15 obtained, 12 final; obtained 5 with deduction 9 gives 0 |
| `EvaluationReport.EvaluateAnswers` | app.py:119-144 | the report built line by line equals the reference report: header, per-question lines, time summary, marks summary; or the IndexError when evaluations outnumber questions |
| `EvaluationReport.ReportFailsIffTooManyEvaluations` | app.py:125-126 | the report fails exactly when there are more evaluations than questions, with the out-of-range index equal to the number of questions |
| `EvaluationReport.ReportLayout` | app.py:124-142 | position and content of every line: header at 0; line k+1 pairs evaluation k's marks and feedback with question k's marks; time summary from n+1; marks summary after it; final score last; the length |
| `EvaluationReport.ReportSectionOrder` | app.py:124-142 | the sections never interleave (header, question lines, time summary, marks summary in that order), and the question lines are exactly lines 1..n |
| `EvaluationReport.ReportTimeSummary` | app.py:129-136 | an excess-time line and a time-deduction line appear if and only if the time taken exceeds the allocated time, carrying the overrun and the deduction; the no-deduction line appears if and only if it does not; allocated and taken times are always shown |
| `EvaluationReport.ReportMarksSummary` | app.py:138-142 | marks before deduction always shown; marks after deduction appears if and only if the deduction is positive and carries final/possible; exactly one final-score line, the last, carrying final/possible |
| `QuestionDisplay.GenerateQuestions` | app.py:59-66 | the display built in the loop equals the reference display; the question collection returned is the model's reply; the start time returned is the clock reading |
| `QuestionDisplay.DisplayLayout` | app.py:61-64 | the display is a header, then exactly one entry per question numbered 1..k in collection order with that question's text and marks, then the total-time line; length k + 2 |
| `QuestionDisplay.ShownQuestionsRoundTrip` | app.py:62-63 | reading the entries back from the display gives exactly the questions, in order |
| `PromptListing.NatToDecimal` | app.py:105 | the rendering of a non-negative number is non-empty and all decimal digits. It has no leading zero: it starts with '0' only when it is "0" for zero |
| `PromptListing.IntToDecimal` | app.py:105 | the rendering of any integer is non-empty and contains no newline. A non-negative value is all digits and reads back as itself. A negative value is a minus sign followed by digits that read back as its absolute value. There is no leading zero in either case |
| `PromptListing.DecimalRoundTrip` | app.py:105 | reading the decimal rendering of n gives back n |
| `PromptListing.EntryText` | app.py:105 | the leading numeral of entry i reads back as i. After the numeral and `". "` the entry shows the question text unchanged, then ends with `" (Marks: m)"`, where m is the rendering of the question's marks and reads back as them (`IntToDecimal`). The entry contains no newline if and only if its question text contains none |
| `PromptListing.SplitJoin` | app.py:105 | joining single-line parts with newlines and splitting at newlines gives back the parts |
| `PromptListing.QuestionsText` | app.py:105 | no questions give the empty string. For single-line question texts, the listing splits into exactly one line per question, in order. Line k is `EntryText(k+1, qs[k])`, and its leading numeral is k+1 (via `SplitJoin`) |

## Left out

- The web form and its event wiring (app.py:147-187) are presentation only.
- Model initialisation and the two model calls (app.py:27-31, 57, 68-71, 116) reach an external network service. Their structured replies (`Questions`, `EvaluationResults`) are inputs to the model.
- Prompt templates and their formatting (app.py:35-54, 80-113) are third-party string templating. Only the question numbering of line 105 is modelled.
- The clock and the elapsed-minutes computation (app.py:66, 75-77) are wall-clock readings and floating-point division. `now` and `timeTakenMinutes` are parameters.
- Times are `real`. The two-decimal formatting (app.py:131, 133) and the exact markdown wording of report and display lines are not modelled. Lines are tagged records with the interpolated values.
- Floating-point behaviour of `time_taken_minutes > total_time` and of the overrun subtraction is not modelled. Both are exact real arithmetic here.
- Schema coercion and validation of the model's replies (app.py:12-25) is library behaviour. The records are plain datatypes.
- Evaluation without a prior generation is not modelled. Both session states start as None (app.py:165-166), so the code fails first at app.py:76, when it subtracts the missing start time. The model always receives a `Questions` value and the elapsed minutes.
- `PromptListing.QuestionsText`: the line-per-question statement is made only for question texts without newlines. A text containing a newline makes its entry span several lines, so no line-per-question statement holds for it.
