/**
 Score aggregation of the answer evaluator (app.py:119-121): the marks
 possible, the marks obtained, and the final score after the time
 deduction, clamped at zero.
 */
module Scoring {
  import opened ExamRecords

  /** Python's built-in `sum` over integers: accumulates left to right from 0. */
  function Sum(xs: seq<int>): int
  {
    if xs == [] then 0 else Sum(xs[..|xs| - 1]) + xs[|xs| - 1]
  }

  /** The `marks` field of every question, in order. */
  function MarksOf(qs: seq<Question>): seq<int>
  {
    seq(|qs|, k requires 0 <= k < |qs| => qs[k].marks)
  }

  /** The `marks_obtained` field of every evaluation, in order. */
  function ObtainedOf(evals: seq<EvaluationResult>): seq<int>
  {
    seq(|evals|, k requires 0 <= k < |evals| => evals[k].marksObtained)
  }

  /** Every question is worth at least `bound` marks. */
  predicate MarksAtLeast(qs: seq<Question>, bound: int)
  {
    forall k :: 0 <= k < |qs| ==> qs[k].marks >= bound
  }

  /** No question is worth more than `bound` marks. */
  predicate MarksAtMost(qs: seq<Question>, bound: int)
  {
    forall k :: 0 <= k < |qs| ==> qs[k].marks <= bound
  }

  /** Every evaluation awards at least `bound` marks. */
  predicate ObtainedAtLeast(evals: seq<EvaluationResult>, bound: int)
  {
    forall k :: 0 <= k < |evals| ==> evals[k].marksObtained >= bound
  }

  /** No evaluation awards more than `bound` marks. */
  predicate ObtainedAtMost(evals: seq<EvaluationResult>, bound: int)
  {
    forall k :: 0 <= k < |evals| ==> evals[k].marksObtained <= bound
  }

  /** `total_marks_possible` (app.py:119): the sum of the questions' marks.
      When no question has negative marks it is not negative and bounds each
      question's marks; when every question is worth at least one mark it is
      at least the number of questions. */
  function TotalMarksPossible(qs: seq<Question>): (r: int)
    ensures MarksAtLeast(qs, 0) ==> r >= 0 && MarksAtMost(qs, r)
    ensures MarksAtLeast(qs, 1) ==> r >= |qs|
  {
    assert forall k :: 0 <= k < |qs| ==> MarksOf(qs)[k] == qs[k].marks;
    SumBounds(MarksOf(qs));
    Sum(MarksOf(qs))
  }

  /** `total_marks_obtained` (app.py:120): the sum of the evaluations' marks,
      with the same bounds as the total possible. */
  function TotalMarksObtained(evals: seq<EvaluationResult>): (r: int)
    ensures ObtainedAtLeast(evals, 0) ==> r >= 0 && ObtainedAtMost(evals, r)
    ensures ObtainedAtLeast(evals, 1) ==> r >= |evals|
  {
    assert forall k :: 0 <= k < |evals| ==> ObtainedOf(evals)[k] == evals[k].marksObtained;
    SumBounds(ObtainedOf(evals));
    Sum(ObtainedOf(evals))
  }

  /** A sum of n terms each at least lo is at least n * lo. */
  lemma {:induction false} SumLowerBound(xs: seq<int>, lo: int)
    requires forall k :: 0 <= k < |xs| ==> xs[k] >= lo
    ensures Sum(xs) >= |xs| * lo
    decreases |xs|
  {
    if xs != [] {
      SumLowerBound(xs[..|xs| - 1], lo);
      assert |xs| * lo == (|xs| - 1) * lo + lo;
    }
  }

  /** Each term of a sum of non-negative terms is at most the sum. */
  lemma {:induction false} SumAtLeastTerm(xs: seq<int>, k: int)
    requires forall j :: 0 <= j < |xs| ==> xs[j] >= 0
    requires 0 <= k < |xs|
    ensures xs[k] <= Sum(xs)
    decreases |xs|
  {
    var init := xs[..|xs| - 1];
    if k == |xs| - 1 {
      SumLowerBound(init, 0);
    } else {
      SumAtLeastTerm(init, k);
    }
  }

  /** The bounds both totals promise, for any sequence of terms. */
  lemma SumBounds(xs: seq<int>)
    ensures (forall k :: 0 <= k < |xs| ==> xs[k] >= 0) ==>
              Sum(xs) >= 0 && forall k :: 0 <= k < |xs| ==> xs[k] <= Sum(xs)
    ensures (forall k :: 0 <= k < |xs| ==> xs[k] >= 1) ==> Sum(xs) >= |xs|
  {
    if forall k :: 0 <= k < |xs| ==> xs[k] >= 0 {
      SumLowerBound(xs, 0);
      forall k | 0 <= k < |xs|
        ensures xs[k] <= Sum(xs)
      {
        SumAtLeastTerm(xs, k);
      }
    }
    if forall k :: 0 <= k < |xs| ==> xs[k] >= 1 {
      SumLowerBound(xs, 1);
    }
  }

  /** `final_marks = max(0, obtained - deduction)` (app.py:121): the least
      value that is neither negative nor below the difference, and it is one
      of the two. */
  function FinalMarks(obtained: int, deduction: int): (r: int)
    ensures r >= 0 && r >= obtained - deduction
    ensures r == 0 || r == obtained - deduction
    ensures 0 <= deduction && 0 <= obtained ==> r <= obtained
  {
    if obtained - deduction > 0 then obtained - deduction else 0
  }

  /** Summing is compositional: the sum of a concatenation is the sum of the parts. */
  lemma {:induction false} SumAppend(a: seq<int>, b: seq<int>)
    ensures Sum(a + b) == Sum(a) + Sum(b)
    decreases |b|
  {
    if b == [] {
      assert a + b == a;
    } else {
      assert (a + b)[..|a + b| - 1] == a + b[..|b| - 1];
      SumAppend(a, b[..|b| - 1]);
    }
  }

  /** Adding one question adds its marks to the total possible. */
  lemma TotalMarksPossibleAppend(qs: seq<Question>, rest: seq<Question>)
    ensures TotalMarksPossible(qs + rest) == TotalMarksPossible(qs) + TotalMarksPossible(rest)
  {
    assert MarksOf(qs + rest) == MarksOf(qs) + MarksOf(rest);
    SumAppend(MarksOf(qs), MarksOf(rest));
  }

  /** Adding evaluations adds their marks to the total obtained. */
  lemma TotalMarksObtainedAppend(evals: seq<EvaluationResult>, rest: seq<EvaluationResult>)
    ensures TotalMarksObtained(evals + rest) == TotalMarksObtained(evals) + TotalMarksObtained(rest)
  {
    assert ObtainedOf(evals + rest) == ObtainedOf(evals) + ObtainedOf(rest);
    SumAppend(ObtainedOf(evals), ObtainedOf(rest));
  }

  /** When every question carries the requested marks per question, the
      total possible is the question count times those marks. */
  lemma UniformMarksTotal(qs: seq<Question>, marksPerQuestion: int)
    requires forall k :: 0 <= k < |qs| ==> qs[k].marks == marksPerQuestion
    ensures TotalMarksPossible(qs) == |qs| * marksPerQuestion
  {
    SumUniform(MarksOf(qs), marksPerQuestion);
  }

  /** A sum of n copies of m is n * m. */
  lemma {:induction false} SumUniform(xs: seq<int>, m: int)
    requires forall k :: 0 <= k < |xs| ==> xs[k] == m
    ensures Sum(xs) == |xs| * m
    decreases |xs|
  {
    if xs != [] {
      SumUniform(xs[..|xs| - 1], m);
      assert |xs| * m == (|xs| - 1) * m + m;
    }
  }

  /** Sum is monotone pointwise: a sequence dominated element by element has
      a smaller or equal sum. */
  lemma {:induction false} SumPointwiseLe(xs: seq<int>, ys: seq<int>)
    requires |xs| == |ys|
    requires forall k :: 0 <= k < |xs| ==> xs[k] <= ys[k]
    ensures Sum(xs) <= Sum(ys)
    decreases |xs|
  {
    if xs != [] {
      SumPointwiseLe(xs[..|xs| - 1], ys[..|ys| - 1]);
    }
  }

  /** If every evaluation scores within its question's marks (and there is
      one per question), the total obtained is within the total possible. */
  lemma ObtainedWithinPossible(qs: seq<Question>, evals: seq<EvaluationResult>)
    requires |evals| == |qs|
    requires forall k :: 0 <= k < |qs| ==> evals[k].marksObtained <= qs[k].marks
    ensures TotalMarksObtained(evals) <= TotalMarksPossible(qs)
  {
    SumPointwiseLe(ObtainedOf(evals), MarksOf(qs));
  }

  /** The final score never exceeds the total possible when the marks
      obtained do not and the deduction is not negative. */
  lemma FinalWithinPossible(qs: seq<Question>, results: EvaluationResults)
    requires results.deduction >= 0
    requires 0 <= TotalMarksObtained(results.evaluations) <= TotalMarksPossible(qs)
    ensures 0 <= FinalMarks(TotalMarksObtained(results.evaluations), results.deduction) <= TotalMarksPossible(qs)
  {
  }

  /** Three ten-mark questions scored 10, 5 and 0 with a deduction of 3
      give 30 possible, 15 obtained and a final score of 12; a deduction of
      9 on 5 obtained gives 0, not a negative score. */
  lemma WorkedExamples()
    ensures var qs := [Question("q1", 10), Question("q2", 10), Question("q3", 10)];
            var evals := [EvaluationResult(10, "f1"), EvaluationResult(5, "f2"), EvaluationResult(0, "f3")];
            TotalMarksPossible(qs) == 30 && TotalMarksObtained(evals) == 15 &&
            FinalMarks(TotalMarksObtained(evals), 3) == 12
    ensures FinalMarks(5, 9) == 0
  {
    var qs := [Question("q1", 10), Question("q2", 10), Question("q3", 10)];
    var evals := [EvaluationResult(10, "f1"), EvaluationResult(5, "f2"), EvaluationResult(0, "f3")];
    UniformMarksTotal(qs, 10);
    assert ObtainedOf(evals) == [10, 5, 0];
    assert [10, 5, 0][..2] == [10, 5];
    assert [10, 5][..1] == [10];
    assert [10][..0] == [];
  }
}
