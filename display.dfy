/**
 The text block `generate_questions` shows after the generator model has
 replied (app.py:59-66): a header naming subject and topic, one numbered
 entry per generated question with its marks, and the total exam time. Each
 displayed line is a tagged record carrying the values the source
 interpolates into it.
 */
module QuestionDisplay {
  import opened ExamRecords

  datatype DisplayLine =
    | GeneratedHeader(subject: string, topic: string)          // "**Generated Questions for S - T:**"
    | QuestionEntry(number: nat, text: string, marks: int)      // "Qi. text (m marks)"
    | TotalTimeLine(minutes: real)                              // "**Total Time:** t minutes"

  /** Reference definition of the display: the header, then entry k + 1 for
      the k-th question in collection order, then the total time. */
  function GeneratedDisplay(subject: string, topic: string, qs: seq<Question>, totalTime: real): seq<DisplayLine>
  {
    [GeneratedHeader(subject, topic)] +
    seq(|qs|, k requires 0 <= k < |qs| => QuestionEntry(k + 1, qs[k].questionText, qs[k].marks)) +
    [TotalTimeLine(totalTime)]
  }

  /** The questions a display shows, read back from its entries. */
  function ShownQuestions(display: seq<DisplayLine>): seq<Question>
  {
    if display == [] then []
    else
      (match display[0]
       case QuestionEntry(_, text, marks) => [Question(text, marks)]
       case _ => []) +
      ShownQuestions(display[1..])
  }

  /** The post-invocation part of `generate_questions` (app.py:59-66): the
      generator's reply and the clock reading `now` are inputs. Returns the
      display, the question collection kept as session state, and the start
      time of the exam. */
  method GenerateQuestions(subject: string, topic: string, totalTime: real, response: Questions, now: real)
    returns (display: seq<DisplayLine>, questions: Questions, startTime: real)
    ensures display == GeneratedDisplay(subject, topic, questions.questions, totalTime)
    ensures questions == response && startTime == now
  {
    questions := Questions(response.questions);
    display := [GeneratedHeader(subject, topic)];
    var qs := questions.questions;
    for i := 1 to |qs| + 1
      invariant |display| == i && display[0] == GeneratedHeader(subject, topic)
      invariant forall k :: 0 <= k < i - 1 ==> display[k + 1] == QuestionEntry(k + 1, qs[k].questionText, qs[k].marks)
    {
      display := display + [QuestionEntry(i, qs[i - 1].questionText, qs[i - 1].marks)];
    }
    display := display + [TotalTimeLine(totalTime)];
    startTime := now;
  }

  /** The display has a header, then exactly one entry per question numbered
      1..k in collection order with that question's text and marks, then the
      total-time line last. */
  lemma DisplayLayout(subject: string, topic: string, qs: seq<Question>, totalTime: real)
    ensures var d := GeneratedDisplay(subject, topic, qs, totalTime);
            && |d| == |qs| + 2
            && d[0] == GeneratedHeader(subject, topic)
            && (forall j :: 0 <= j < |d| ==> (d[j].QuestionEntry? <==> 1 <= j <= |qs|))
            && (forall k :: 0 <= k < |qs| ==> d[k + 1] == QuestionEntry(k + 1, qs[k].questionText, qs[k].marks))
            && d[|d| - 1] == TotalTimeLine(totalTime)
  {
    var d := GeneratedDisplay(subject, topic, qs, totalTime);
    forall j | 0 <= j < |d|
      ensures d[j].QuestionEntry? <==> 1 <= j <= |qs|
    {
      if 1 <= j <= |qs| {
        assert d[(j - 1) + 1].QuestionEntry?;
      }
    }
  }

  /** Reading the entries back from the display gives exactly the generated
      questions, in order: nothing is dropped, duplicated or reordered. */
  lemma ShownQuestionsRoundTrip(subject: string, topic: string, qs: seq<Question>, totalTime: real)
    ensures ShownQuestions(GeneratedDisplay(subject, topic, qs, totalTime)) == qs
  {
    var entries := seq(|qs|, k requires 0 <= k < |qs| => QuestionEntry(k + 1, qs[k].questionText, qs[k].marks));
    var d := GeneratedDisplay(subject, topic, qs, totalTime);
    assert d == [GeneratedHeader(subject, topic)] + (entries + [TotalTimeLine(totalTime)]);
    assert d[1..] == entries + [TotalTimeLine(totalTime)];
    assert ShownQuestions(d) == ShownQuestions(d[1..]);
    assert entries == seq(|qs| - 0, k requires 0 <= k < |qs| - 0 =>
                        QuestionEntry(0 + k + 1, qs[0 + k].questionText, qs[0 + k].marks));
    EntriesRoundTrip(qs, 0, totalTime);
    assert qs[0..] == qs;
  }

  /** Helper: the entries for qs[from..] (numbered from from + 1), followed
      by the total-time line, read back as qs[from..]. */
  lemma {:induction false} EntriesRoundTrip(qs: seq<Question>, from: nat, totalTime: real)
    requires from <= |qs|
    ensures ShownQuestions(seq(|qs| - from, k requires 0 <= k < |qs| - from =>
                             QuestionEntry(from + k + 1, qs[from + k].questionText, qs[from + k].marks)) +
                           [TotalTimeLine(totalTime)]) == qs[from..]
    decreases |qs| - from
  {
    var rest := seq(|qs| - from, k requires 0 <= k < |qs| - from =>
                  QuestionEntry(from + k + 1, qs[from + k].questionText, qs[from + k].marks));
    var d := rest + [TotalTimeLine(totalTime)];
    if from == |qs| {
      assert d == [TotalTimeLine(totalTime)];
      assert d[1..] == [];
    } else {
      var next := seq(|qs| - (from + 1), k requires 0 <= k < |qs| - (from + 1) =>
                    QuestionEntry(from + 1 + k + 1, qs[from + 1 + k].questionText, qs[from + 1 + k].marks));
      assert d[1..] == next + [TotalTimeLine(totalTime)];
      EntriesRoundTrip(qs, from + 1, totalTime);
      assert d[0] == QuestionEntry(from + 1, qs[from].questionText, qs[from].marks);
      assert ShownQuestions(d) == [qs[from]] + ShownQuestions(d[1..]);
      assert qs[from..] == [qs[from]] + qs[from + 1..];
    }
  }
}
