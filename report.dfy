/**
 The evaluation report that `evaluate_answers` assembles after the examiner
 model has replied (app.py:119-144). Each line of the markdown report is a
 tagged record carrying the values the source interpolates into it; the
 exact wording and the two-decimal formatting of times are not modelled.
 */
module EvaluationReport {
  import opened ExamRecords
  import opened Scoring

  /** One line of the report, in the order the source can emit them. */
  datatype ReportLine =
    | ResultsHeader                                          // "**Evaluation Results:**"
    | QuestionLine(number: nat, obtained: int, possible: int, feedback: string)
    | TimeSummaryHeader                                      // "**Time Summary:**"
    | AllocatedTime(minutes: real)
    | TimeTaken(minutes: real)
    | ExcessTime(minutes: real)
    | TimeDeduction(marks: int)
    | NoTimeDeduction                                        // "- No time deduction applied."
    | MarksSummaryHeader                                     // "**Marks Summary:**"
    | MarksBeforeDeduction(obtained: int, possible: int)
    | MarksAfterDeduction(final: int, possible: int)
    | FinalScore(final: int, possible: int)

  /** The exception the report loop can raise: `questions.questions[i-1]`
      with `i - 1` past the end of the question list is an IndexError. */
  datatype ReportError = QuestionIndexOutOfRange(index: nat, length: nat)

  /** Which of the four report sections a line belongs to: header, per-question
      lines, time summary, marks summary. */
  function Section(line: ReportLine): nat
  {
    match line
    case ResultsHeader => 0
    case QuestionLine(_, _, _, _) => 1
    case TimeSummaryHeader | AllocatedTime(_) | TimeTaken(_) | ExcessTime(_) | TimeDeduction(_) | NoTimeDeduction => 2
    case MarksSummaryHeader | MarksBeforeDeduction(_, _) | MarksAfterDeduction(_, _) | FinalScore(_, _) => 3
  }

  /** Reference definition of the per-question lines: line `k + 1` pairs the
      k-th evaluation with the k-th question. */
  function QuestionLines(qs: seq<Question>, evals: seq<EvaluationResult>): seq<ReportLine>
    requires |evals| <= |qs|
  {
    seq(|evals|, k requires 0 <= k < |evals| =>
      QuestionLine(k + 1, evals[k].marksObtained, qs[k].marks, evals[k].feedback))
  }

  /** Reference definition of the time summary (app.py:129-136). */
  function TimeSummary(totalTime: real, timeTaken: real, deduction: int): seq<ReportLine>
  {
    [TimeSummaryHeader, AllocatedTime(totalTime), TimeTaken(timeTaken)] +
    (if timeTaken > totalTime then [ExcessTime(timeTaken - totalTime), TimeDeduction(deduction)]
     else [NoTimeDeduction])
  }

  /** Reference definition of the marks summary (app.py:138-142). */
  function MarksSummary(obtained: int, possible: int, deduction: int): seq<ReportLine>
  {
    var final := FinalMarks(obtained, deduction);
    [MarksSummaryHeader, MarksBeforeDeduction(obtained, possible)] +
    (if deduction > 0 then [MarksAfterDeduction(final, possible)] else []) +
    [FinalScore(final, possible)]
  }

  /** Reference definition of the whole report: the four sections in order,
      or the IndexError when there are more evaluations than questions. */
  function Report(qs: seq<Question>, results: EvaluationResults, totalTime: real, timeTaken: real)
    : Result<seq<ReportLine>, ReportError>
  {
    if |results.evaluations| > |qs| then
      Failure(QuestionIndexOutOfRange(|qs|, |qs|))
    else
      Success([ResultsHeader] + QuestionLines(qs, results.evaluations) +
              TimeSummary(totalTime, timeTaken, results.deduction) +
              MarksSummary(TotalMarksObtained(results.evaluations), TotalMarksPossible(qs), results.deduction))
  }

  /** The post-invocation part of `evaluate_answers` (app.py:119-144): the
      examiner's reply and the elapsed minutes are inputs; the report is
      grown line by line as the source grows its string. */
  method EvaluateAnswers(questions: Questions, response: EvaluationResults, totalTime: real, timeTakenMinutes: real)
    returns (report: Result<seq<ReportLine>, ReportError>)
    ensures report == Report(questions.questions, response, totalTime, timeTakenMinutes)
  {
    var qs := questions.questions;
    var evals := response.evaluations;
    var totalMarksPossible := TotalMarksPossible(qs);
    var totalMarksObtained := TotalMarksObtained(evals);
    var finalMarks := FinalMarks(totalMarksObtained, response.deduction);

    var lines := [ResultsHeader];
    var i := 1;
    while i <= |evals|
      invariant 1 <= i <= |evals| + 1
      invariant i - 1 <= |qs|
      invariant lines == [ResultsHeader] + QuestionLines(qs, evals[..i - 1])
    {
      if i - 1 >= |qs| {
        return Failure(QuestionIndexOutOfRange(i - 1, |qs|));
      }
      QuestionLinesSnoc(qs, evals, i - 1);
      lines := lines + [QuestionLine(i, evals[i - 1].marksObtained, qs[i - 1].marks, evals[i - 1].feedback)];
      i := i + 1;
    }
    assert evals[..i - 1] == evals;
    ghost var questionPart := lines;

    lines := lines + [TimeSummaryHeader];
    lines := lines + [AllocatedTime(totalTime)];
    lines := lines + [TimeTaken(timeTakenMinutes)];
    ghost var opening := lines;
    assert opening == questionPart + [TimeSummaryHeader, AllocatedTime(totalTime), TimeTaken(timeTakenMinutes)];
    if timeTakenMinutes > totalTime {
      lines := lines + [ExcessTime(timeTakenMinutes - totalTime)];
      lines := lines + [TimeDeduction(response.deduction)];
      assert lines == opening + [ExcessTime(timeTakenMinutes - totalTime), TimeDeduction(response.deduction)];
    } else {
      lines := lines + [NoTimeDeduction];
    }

    assert lines == questionPart + TimeSummary(totalTime, timeTakenMinutes, response.deduction);
    ghost var timePart := lines;

    lines := lines + [MarksSummaryHeader];
    lines := lines + [MarksBeforeDeduction(totalMarksObtained, totalMarksPossible)];
    ghost var before := lines;
    assert before == timePart + [MarksSummaryHeader, MarksBeforeDeduction(totalMarksObtained, totalMarksPossible)];
    if response.deduction > 0 {
      lines := lines + [MarksAfterDeduction(finalMarks, totalMarksPossible)];
    }
    ghost var after := lines;
    assert after == before + if response.deduction > 0 then [MarksAfterDeduction(finalMarks, totalMarksPossible)] else [];
    lines := lines + [FinalScore(finalMarks, totalMarksPossible)];
    assert lines == timePart + MarksSummary(totalMarksObtained, totalMarksPossible, response.deduction);
    report := Success(lines);
  }

  /** Helper: one more evaluation adds one question line, numbered after
      the ones before it. */
  lemma QuestionLinesSnoc(qs: seq<Question>, evals: seq<EvaluationResult>, n: nat)
    requires n < |evals| && n < |qs|
    ensures QuestionLines(qs, evals[..n + 1]) ==
            QuestionLines(qs, evals[..n]) + [QuestionLine(n + 1, evals[n].marksObtained, qs[n].marks, evals[n].feedback)]
  {
    assert evals[..n + 1][..n] == evals[..n];
  }

  /** The report fails exactly when the examiner returned more evaluations
      than there are questions, at the first question number past the end. */
  lemma ReportFailsIffTooManyEvaluations(qs: seq<Question>, results: EvaluationResults, totalTime: real, timeTaken: real)
    ensures Report(qs, results, totalTime, timeTaken).Failure? <==> |results.evaluations| > |qs|
    ensures Report(qs, results, totalTime, timeTaken).Failure? ==>
      Report(qs, results, totalTime, timeTaken).error == QuestionIndexOutOfRange(|qs|, |qs|)
  {
  }

  /** Position of every line of a successful report. With n evaluations: the
      header at 0, question lines at 1..n, the time summary from n + 1 and the
      marks summary after it; the final score is the last line. */
  lemma ReportLayout(qs: seq<Question>, results: EvaluationResults, totalTime: real, timeTaken: real)
    requires |results.evaluations| <= |qs|
    ensures var lines := Report(qs, results, totalTime, timeTaken).value;
            var n := |results.evaluations|;
            var over := timeTaken > totalTime;
            var m := n + (if over then 6 else 5);
            var possible := TotalMarksPossible(qs);
            var obtained := TotalMarksObtained(results.evaluations);
            var final := FinalMarks(obtained, results.deduction);
            && |lines| == m + (if results.deduction > 0 then 3 else 2) + 1
            && lines[0] == ResultsHeader
            && (forall k :: 0 <= k < n ==>
                  lines[k + 1] == QuestionLine(k + 1, results.evaluations[k].marksObtained, qs[k].marks,
                                               results.evaluations[k].feedback))
            && lines[n + 1] == TimeSummaryHeader
            && lines[n + 2] == AllocatedTime(totalTime)
            && lines[n + 3] == TimeTaken(timeTaken)
            && (over ==> lines[n + 4] == ExcessTime(timeTaken - totalTime) &&
                         lines[n + 5] == TimeDeduction(results.deduction))
            && (!over ==> lines[n + 4] == NoTimeDeduction)
            && lines[m] == MarksSummaryHeader
            && lines[m + 1] == MarksBeforeDeduction(obtained, possible)
            && (results.deduction > 0 ==> lines[m + 2] == MarksAfterDeduction(final, possible))
            && lines[|lines| - 1] == FinalScore(final, possible)
  {
    LayoutQuestionPart(qs, results, totalTime, timeTaken);
    LayoutTimePart(qs, results, totalTime, timeTaken);
    LayoutMarksPart(qs, results, totalTime, timeTaken);
  }

  /** Helper: the header and the question lines of a successful report. */
  lemma LayoutQuestionPart(qs: seq<Question>, results: EvaluationResults, totalTime: real, timeTaken: real)
    requires |results.evaluations| <= |qs|
    ensures var lines := Report(qs, results, totalTime, timeTaken).value;
            && |lines| > |results.evaluations| + 1
            && lines[0] == ResultsHeader
            && (forall k :: 0 <= k < |results.evaluations| ==>
                  lines[k + 1] == QuestionLine(k + 1, results.evaluations[k].marksObtained, qs[k].marks,
                                               results.evaluations[k].feedback))
  {
    var lines := Report(qs, results, totalTime, timeTaken).value;
    var head := [ResultsHeader] + QuestionLines(qs, results.evaluations);
    var tail := TimeSummary(totalTime, timeTaken, results.deduction) +
                MarksSummary(TotalMarksObtained(results.evaluations), TotalMarksPossible(qs), results.deduction);
    var evals := results.evaluations;
    ReportSplitsAfterQuestions(qs, results, totalTime, timeTaken);
    assert |tail| >= 1;
    assert lines[0] == head[0];
    forall k | 0 <= k < |evals|
      ensures lines[k + 1] == QuestionLine(k + 1, evals[k].marksObtained, qs[k].marks, evals[k].feedback)
    {
      assert lines[k + 1] == head[k + 1];
      assert head[k + 1] == QuestionLines(qs, evals)[k];
    }
  }

  /** Helper: a successful report is its header and question lines followed
      by the two summaries. */
  lemma ReportSplitsAfterQuestions(qs: seq<Question>, results: EvaluationResults, totalTime: real, timeTaken: real)
    requires |results.evaluations| <= |qs|
    ensures Report(qs, results, totalTime, timeTaken).value ==
            ([ResultsHeader] + QuestionLines(qs, results.evaluations)) +
            (TimeSummary(totalTime, timeTaken, results.deduction) +
             MarksSummary(TotalMarksObtained(results.evaluations), TotalMarksPossible(qs), results.deduction))
  {
  }

  /** Helper: the time summary of a successful report, from line n + 1. */
  lemma LayoutTimePart(qs: seq<Question>, results: EvaluationResults, totalTime: real, timeTaken: real)
    requires |results.evaluations| <= |qs|
    ensures var lines := Report(qs, results, totalTime, timeTaken).value;
            var n := |results.evaluations|;
            var over := timeTaken > totalTime;
            && |lines| > n + (if over then 6 else 5)
            && lines[n + 1] == TimeSummaryHeader
            && lines[n + 2] == AllocatedTime(totalTime)
            && lines[n + 3] == TimeTaken(timeTaken)
            && (over ==> lines[n + 4] == ExcessTime(timeTaken - totalTime) &&
                         lines[n + 5] == TimeDeduction(results.deduction))
            && (!over ==> lines[n + 4] == NoTimeDeduction)
  {
    var lines := Report(qs, results, totalTime, timeTaken).value;
    var n := |results.evaluations|;
    var head := [ResultsHeader] + QuestionLines(qs, results.evaluations);
    var time := TimeSummary(totalTime, timeTaken, results.deduction);
    var marks := MarksSummary(TotalMarksObtained(results.evaluations), TotalMarksPossible(qs), results.deduction);
    assert lines == head + time + marks;
    assert |head| == n + 1;
    forall k | 0 <= k < |time|
      ensures lines[n + 1 + k] == time[k]
    {
    }
  }

  /** Helper: the marks summary of a successful report, from line m. */
  lemma LayoutMarksPart(qs: seq<Question>, results: EvaluationResults, totalTime: real, timeTaken: real)
    requires |results.evaluations| <= |qs|
    ensures var lines := Report(qs, results, totalTime, timeTaken).value;
            var m := |results.evaluations| + (if timeTaken > totalTime then 6 else 5);
            var possible := TotalMarksPossible(qs);
            var obtained := TotalMarksObtained(results.evaluations);
            var final := FinalMarks(obtained, results.deduction);
            && |lines| == m + (if results.deduction > 0 then 3 else 2) + 1
            && lines[m] == MarksSummaryHeader
            && lines[m + 1] == MarksBeforeDeduction(obtained, possible)
            && (results.deduction > 0 ==> lines[m + 2] == MarksAfterDeduction(final, possible))
            && lines[|lines| - 1] == FinalScore(final, possible)
  {
    var lines := Report(qs, results, totalTime, timeTaken).value;
    var m := |results.evaluations| + (if timeTaken > totalTime then 6 else 5);
    var head := [ResultsHeader] + QuestionLines(qs, results.evaluations) +
                TimeSummary(totalTime, timeTaken, results.deduction);
    var marks := MarksSummary(TotalMarksObtained(results.evaluations), TotalMarksPossible(qs), results.deduction);
    assert lines == head + marks;
    assert |head| == m;
    forall k | 0 <= k < |marks|
      ensures lines[m + k] == marks[k]
    {
    }
  }

  /** The section of line j of a successful report, by position alone. */
  lemma SectionAt(qs: seq<Question>, results: EvaluationResults, totalTime: real, timeTaken: real, j: int)
    requires |results.evaluations| <= |qs|
    requires 0 <= j < |Report(qs, results, totalTime, timeTaken).value|
    ensures var lines := Report(qs, results, totalTime, timeTaken).value;
            var n := |results.evaluations|;
            var m := n + (if timeTaken > totalTime then 6 else 5);
            && Section(lines[j]) == (if j == 0 then 0 else if j <= n then 1 else if j < m then 2 else 3)
            && (lines[j].QuestionLine? <==> 1 <= j <= n)
  {
    var lines := Report(qs, results, totalTime, timeTaken).value;
    var n := |results.evaluations|;
    var questionLines := QuestionLines(qs, results.evaluations);
    var time := TimeSummary(totalTime, timeTaken, results.deduction);
    var marks := MarksSummary(TotalMarksObtained(results.evaluations), TotalMarksPossible(qs), results.deduction);
    assert lines == [ResultsHeader] + questionLines + time + marks;
    if j == 0 {
    } else if j <= n {
      assert lines[j] == questionLines[j - 1];
    } else if j < n + 1 + |time| {
      assert lines[j] == time[j - n - 1];
    } else {
      assert lines[j] == marks[j - n - 1 - |time|];
    }
  }

  /** Every line of a successful report sits in its own section, and the
      sections follow each other in a fixed order: header, question lines,
      time summary, marks summary. The question lines are exactly lines 1..n. */
  lemma ReportSectionOrder(qs: seq<Question>, results: EvaluationResults, totalTime: real, timeTaken: real)
    requires |results.evaluations| <= |qs|
    ensures var lines := Report(qs, results, totalTime, timeTaken).value;
            && Section(lines[0]) == 0
            && Section(lines[|lines| - 1]) == 3
            && (forall j :: 0 <= j < |lines| ==>
                  (lines[j].QuestionLine? <==> 1 <= j <= |results.evaluations|))
            && (forall i, j :: 0 <= i < j < |lines| ==> Section(lines[i]) <= Section(lines[j]))
  {
    var lines := Report(qs, results, totalTime, timeTaken).value;
    SectionAt(qs, results, totalTime, timeTaken, 0);
    SectionAt(qs, results, totalTime, timeTaken, |lines| - 1);
    forall j | 0 <= j < |lines|
      ensures lines[j].QuestionLine? <==> 1 <= j <= |results.evaluations|
    {
      SectionAt(qs, results, totalTime, timeTaken, j);
    }
    forall i, j | 0 <= i < j < |lines|
      ensures Section(lines[i]) <= Section(lines[j])
    {
      SectionAt(qs, results, totalTime, timeTaken, i);
      SectionAt(qs, results, totalTime, timeTaken, j);
    }
  }

  /** The time summary names an excess time and a time deduction exactly when
      the time taken exceeds the allocated time, and otherwise consists of the
      single no-deduction line; the values shown are the overrun and the
      examiner's deduction. */
  lemma ReportTimeSummary(qs: seq<Question>, results: EvaluationResults, totalTime: real, timeTaken: real)
    requires |results.evaluations| <= |qs|
    ensures var lines := Report(qs, results, totalTime, timeTaken).value;
            && ((exists j :: 0 <= j < |lines| && lines[j].ExcessTime?) <==> timeTaken > totalTime)
            && ((exists j :: 0 <= j < |lines| && lines[j].TimeDeduction?) <==> timeTaken > totalTime)
            && ((exists j :: 0 <= j < |lines| && lines[j].NoTimeDeduction?) <==> !(timeTaken > totalTime))
            && (forall j :: 0 <= j < |lines| && lines[j].ExcessTime? ==>
                  lines[j] == ExcessTime(timeTaken - totalTime))
            && (forall j :: 0 <= j < |lines| && lines[j].TimeDeduction? ==>
                  lines[j] == TimeDeduction(results.deduction))
            && AllocatedTime(totalTime) in lines && TimeTaken(timeTaken) in lines
  {
    var lines := Report(qs, results, totalTime, timeTaken).value;
    var n := |results.evaluations|;
    var time := TimeSummary(totalTime, timeTaken, results.deduction);
    assert lines == ([ResultsHeader] + QuestionLines(qs, results.evaluations)) + time +
                    MarksSummary(TotalMarksObtained(results.evaluations), TotalMarksPossible(qs), results.deduction);
    forall j | 0 <= j < |lines|
      ensures lines[j].ExcessTime? ==> timeTaken > totalTime && lines[j] == ExcessTime(timeTaken - totalTime)
      ensures lines[j].TimeDeduction? ==> timeTaken > totalTime && lines[j] == TimeDeduction(results.deduction)
      ensures lines[j].NoTimeDeduction? ==> !(timeTaken > totalTime)
    {
      SectionAt(qs, results, totalTime, timeTaken, j);
      if n + 1 <= j < n + 1 + |time| {
        assert lines[j] == time[j - n - 1];
      }
    }
    assert lines[n + 4] == time[3];
    if timeTaken > totalTime {
      assert lines[n + 5] == time[4];
    }
    assert lines[n + 2] == time[1] && lines[n + 3] == time[2];
  }

  /** The marks summary always shows the marks before deduction and ends with
      exactly one final-score line; a marks-after-deduction line appears
      exactly when the deduction is positive; both of the latter carry the
      clamped final marks over the total possible. */
  lemma ReportMarksSummary(qs: seq<Question>, results: EvaluationResults, totalTime: real, timeTaken: real)
    requires |results.evaluations| <= |qs|
    ensures var lines := Report(qs, results, totalTime, timeTaken).value;
            var possible := TotalMarksPossible(qs);
            var obtained := TotalMarksObtained(results.evaluations);
            var final := FinalMarks(obtained, results.deduction);
            && MarksBeforeDeduction(obtained, possible) in lines
            && ((exists j :: 0 <= j < |lines| && lines[j].MarksAfterDeduction?) <==> results.deduction > 0)
            && (forall j :: 0 <= j < |lines| && lines[j].MarksAfterDeduction? ==>
                  lines[j] == MarksAfterDeduction(final, possible))
            && lines[|lines| - 1] == FinalScore(final, possible)
            && (forall j :: 0 <= j < |lines| ==> (lines[j].FinalScore? <==> j == |lines| - 1))
  {
    var lines := Report(qs, results, totalTime, timeTaken).value;
    var n := |results.evaluations|;
    var m := n + (if timeTaken > totalTime then 6 else 5);
    var marks := MarksSummary(TotalMarksObtained(results.evaluations), TotalMarksPossible(qs), results.deduction);
    assert lines == ([ResultsHeader] + QuestionLines(qs, results.evaluations) +
                     TimeSummary(totalTime, timeTaken, results.deduction)) + marks;
    assert |lines| == m + |marks|;
    forall j | 0 <= j < |lines|
      ensures lines[j].MarksAfterDeduction? ==> results.deduction > 0 && j == m + 2
      ensures lines[j].FinalScore? ==> j == |lines| - 1
    {
      SectionAt(qs, results, totalTime, timeTaken, j);
      if j >= m {
        assert lines[j] == marks[j - m];
      }
    }
    assert lines[m + 1] == marks[1];
    assert lines[|lines| - 1] == marks[|marks| - 1];
    if results.deduction > 0 {
      assert lines[m + 2] == marks[2];
    }
  }
}
