/**
 The numbered question list embedded in the examiner's prompt (app.py:105):
 entry i is `"{i}. {question_text} (Marks: {marks})"` for i = 1..n, and the
 entries are joined with newlines. Unlike the two reports this one is
 modelled as text, with Python's decimal rendering of integers, so that the
 join can be split back into its entries and each entry's leading numeral
 read back.
 */
module PromptListing {
  import opened ExamRecords

  predicate IsDigit(c: char)
  {
    '0' <= c <= '9'
  }

  function DigitChar(d: nat): (c: char)
    requires d < 10
    ensures IsDigit(c) && c as int - '0' as int == d
  {
    ('0' as int + d) as char
  }

  /** Python's `str(n)` for a non-negative integer: decimal digits with no
      leading zero. */
  function NatToDecimal(n: nat): (s: string)
    ensures |s| >= 1
    ensures forall k :: 0 <= k < |s| ==> IsDigit(s[k])
    ensures s[0] == '0' ==> n == 0 && s == "0"
  {
    if n < 10 then [DigitChar(n)] else NatToDecimal(n / 10) + [DigitChar(n % 10)]
  }

  /** Python's `str(i)` for any integer: a minus sign before the digits of a
      negative value. It reads back as i and has no leading zero. */
  function IntToDecimal(i: int): (s: string)
    ensures |s| >= 1 && '\n' !in s
    ensures i >= 0 ==> (forall k :: 0 <= k < |s| ==> IsDigit(s[k])) && DecimalValue(s) == i
    ensures i < 0 ==> |s| >= 2 && s[0] == '-' &&
                      (forall k :: 0 <= k < |s[1..]| ==> IsDigit(s[1..][k])) && DecimalValue(s[1..]) == -i
    ensures i >= 0 && s[0] == '0' ==> s == "0"
    ensures i < 0 ==> s[1] != '0'
  {
    if i < 0 then
      DecimalRoundTrip(-i);
      assert ("-" + NatToDecimal(-i))[1..] == NatToDecimal(-i);
      "-" + NatToDecimal(-i)
    else
      DecimalRoundTrip(i);
      NatToDecimal(i)
  }

  function DigitValue(c: char): nat
    requires IsDigit(c)
  {
    c as int - '0' as int
  }

  /** The value of a string of decimal digits (the empty string reads as 0). */
  function DecimalValue(s: string): nat
    requires forall k :: 0 <= k < |s| ==> IsDigit(s[k])
  {
    if s == [] then 0 else 10 * DecimalValue(s[..|s| - 1]) + DigitValue(s[|s| - 1])
  }

  /** Length of the run of digits a string starts with. */
  function DigitPrefixLength(s: string): (r: nat)
    ensures r <= |s|
    ensures forall k :: 0 <= k < r ==> IsDigit(s[k])
    ensures r < |s| ==> !IsDigit(s[r])
  {
    if s == [] || !IsDigit(s[0]) then 0 else 1 + DigitPrefixLength(s[1..])
  }

  /** The numeral a line starts with, as a reader matching answers to
      questions by number would read it. */
  function LeadingNumber(s: string): nat
  {
    DecimalValue(s[..DigitPrefixLength(s)])
  }

  /** `r` is `text` framed by `before` and `after`: cutting the two frames
      off either end leaves exactly `text`. */
  predicate Framed(r: string, before: string, text: string, after: string)
  {
    && |r| == |before| + |text| + |after|
    && r[..|before|] == before
    && r[|before|..|r| - |after|] == text
    && r[|r| - |after|..] == after
  }

  /** One entry of the listing, `"{number}. {text} (Marks: {marks})"`. It
      starts with its own number, so reading its leading numeral gives the
      number back; between the `". "` after the number and the closing
      `" (Marks: m)"` it shows the question text unchanged, m being the
      rendering of the question's marks (which reads back as them, see
      IntToDecimal); and it is a single line exactly when the question text is. */
  function EntryText(number: nat, q: Question): (r: string)
    ensures LeadingNumber(r) == number
    ensures Framed(r, NatToDecimal(number) + ". ", q.questionText, " (Marks: " + IntToDecimal(q.marks) + ")")
    ensures '\n' !in r <==> '\n' !in q.questionText
  {
    var head := NatToDecimal(number) + ". ";
    var tail := " (Marks: " + IntToDecimal(q.marks) + ")";
    LeadingNumberOfEntry(number, q.questionText, tail);
    NoNewlineInDigits(NatToDecimal(number));
    assert '\n' !in tail;
    FramedText(head, q.questionText, tail);
    head + q.questionText + tail
  }

  /** Whatever follows the `". "`, an entry's leading numeral is its number. */
  lemma LeadingNumberOfEntry(n: nat, text: string, tail: string)
    ensures LeadingNumber(NatToDecimal(n) + ". " + text + tail) == n
  {
    assert NatToDecimal(n) + ". " + text + tail == NatToDecimal(n) + (". " + text + tail);
    LeadingNumberOfRendered(n, ". " + text + tail);
  }

  /** A string of decimal digits, followed by `". "`, has no newline. */
  lemma NoNewlineInDigits(digits: string)
    requires forall k :: 0 <= k < |digits| ==> IsDigit(digits[k])
    ensures '\n' !in digits + ". "
  {
    assert forall k :: 0 <= k < |digits| ==> digits[k] != '\n';
  }

  /** A text framed by two strings can be cut back out of the result, and
      when neither frame has a newline the result is a single line exactly
      when the text is. */
  lemma FramedText(before: string, text: string, after: string)
    ensures Framed(before + text + after, before, text, after)
    ensures '\n' !in before && '\n' !in after ==> ('\n' !in before + text + after <==> '\n' !in text)
  {
    var r := before + text + after;
    assert r[..|before|] == before;
    assert r[|before|..|r| - |after|] == text;
    assert r[|r| - |after|..] == after;
  }

  /** Python's `"\n".join(parts)`. */
  function JoinLines(parts: seq<string>): string
  {
    if |parts| == 0 then "" else if |parts| == 1 then parts[0] else parts[0] + "\n" + JoinLines(parts[1..])
  }

  /** The pieces of a string between newlines (at least one). The source
      never splits; this is the inverse of JoinLines used to state what the
      join produces. */
  function SplitLines(s: string): (r: seq<string>)
    ensures |r| >= 1
  {
    if s == [] then [""]
    else
      var rest := SplitLines(s[1..]);
      if s[0] == '\n' then [""] + rest else [[s[0]] + rest[0]] + rest[1..]
  }

  /** `questions_text` (app.py:105): the entries for questions 1..n, in
      order, joined with newlines. No questions give the empty string; when no
      question text contains a newline, the text has exactly one line per
      question, in collection order, line k being the entry for question k
      numbered k + 1. */
  function QuestionsText(qs: seq<Question>): (r: string)
    ensures qs == [] ==> r == ""
    ensures qs != [] && (forall k :: 0 <= k < |qs| ==> '\n' !in qs[k].questionText) ==>
              && |SplitLines(r)| == |qs|
              && (forall k :: 0 <= k < |qs| ==> SplitLines(r)[k] == EntryText(k + 1, qs[k]))
              && (forall k :: 0 <= k < |qs| ==> LeadingNumber(SplitLines(r)[k]) == k + 1)
  {
    if qs != [] && (forall k :: 0 <= k < |qs| ==> '\n' !in qs[k].questionText) then
      SplitEntries(qs);
      JoinLines(Entries(qs))
    else
      JoinLines(Entries(qs))
  }

  /** The entries for questions 1..n, in order. */
  function Entries(qs: seq<Question>): seq<string>
  {
    seq(|qs|, k requires 0 <= k < |qs| => EntryText(k + 1, qs[k]))
  }

  /** Helper: the join of single-line entries splits back into the entries,
      each starting with its question number. */
  lemma SplitEntries(qs: seq<Question>)
    requires qs != []
    requires forall k :: 0 <= k < |qs| ==> '\n' !in qs[k].questionText
    ensures var lines := SplitLines(JoinLines(Entries(qs)));
            && |lines| == |qs|
            && (forall k :: 0 <= k < |qs| ==> lines[k] == EntryText(k + 1, qs[k]))
            && (forall k :: 0 <= k < |qs| ==> LeadingNumber(lines[k]) == k + 1)
  {
    var parts := Entries(qs);
    assert |parts| == |qs|;
    forall k | 0 <= k < |parts|
      ensures parts[k] == EntryText(k + 1, qs[k]) && '\n' !in parts[k]
    {
    }
    SplitJoin(parts);
    var lines := SplitLines(JoinLines(parts));
    assert lines == parts;
    forall k | 0 <= k < |qs|
      ensures LeadingNumber(lines[k]) == k + 1
    {
      assert lines[k] == EntryText(k + 1, qs[k]);
    }
  }

  /** Decimal rendering and reading are inverse: the digits of n read back as n. */
  lemma {:induction false} DecimalRoundTrip(n: nat)
    ensures DecimalValue(NatToDecimal(n)) == n
  {
    if n >= 10 {
      var s := NatToDecimal(n);
      assert s[..|s| - 1] == NatToDecimal(n / 10);
      DecimalRoundTrip(n / 10);
    }
  }

  /** A run of digits followed by a non-digit is exactly the digit prefix. */
  lemma {:induction false} DigitPrefixOfConcat(digits: string, rest: string)
    requires forall k :: 0 <= k < |digits| ==> IsDigit(digits[k])
    requires rest != [] && !IsDigit(rest[0])
    ensures DigitPrefixLength(digits + rest) == |digits|
  {
    if digits != [] {
      assert (digits + rest)[1..] == digits[1..] + rest;
      DigitPrefixOfConcat(digits[1..], rest);
    }
  }

  /** The decimal rendering of n followed by a non-digit has leading numeral n. */
  lemma LeadingNumberOfRendered(n: nat, rest: string)
    requires rest != [] && !IsDigit(rest[0])
    ensures LeadingNumber(NatToDecimal(n) + rest) == n
  {
    var digits := NatToDecimal(n);
    DigitPrefixOfConcat(digits, rest);
    assert (digits + rest)[..|digits|] == digits;
    DecimalRoundTrip(n);
  }

  /** A string without newlines splits into itself. */
  lemma {:induction false} SplitSingleLine(s: string)
    requires '\n' !in s
    ensures SplitLines(s) == [s]
  {
    if s != [] {
      SplitSingleLine(s[1..]);
      assert [s[0]] + s[1..] == s;
    }
  }

  /** Splitting at the first newline peels off the line before it. */
  lemma {:induction false} SplitFirstLine(line: string, rest: string)
    requires '\n' !in line
    ensures SplitLines(line + "\n" + rest) == [line] + SplitLines(rest)
  {
    if line == [] {
      assert line + "\n" + rest == "\n" + rest;
      assert ("\n" + rest)[1..] == rest;
    } else {
      assert (line + "\n" + rest)[1..] == line[1..] + "\n" + rest;
      SplitFirstLine(line[1..], rest);
      assert [line[0]] + line[1..] == line;
    }
  }

  /** Joining single-line parts with newlines and splitting again gives the
      parts back: the join neither merges nor splits entries. */
  lemma {:induction false} SplitJoin(parts: seq<string>)
    requires |parts| >= 1
    requires forall k :: 0 <= k < |parts| ==> '\n' !in parts[k]
    ensures SplitLines(JoinLines(parts)) == parts
  {
    if |parts| == 1 {
      SplitSingleLine(parts[0]);
    } else {
      SplitJoin(parts[1..]);
      SplitFirstLine(parts[0], JoinLines(parts[1..]));
      assert [parts[0]] + parts[1..] == parts;
    }
  }
}
