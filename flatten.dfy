/** Row flattening (`extract_exam_list`, `flatten_questions_for_csv`): every question
    of every exam of a file becomes one row tagged with the file's source, the exam's
    1-based position in the file, and the exam's test number and element. */
module Flatten {
  import opened Wrappers
  import opened Questions
  import opened Exam
  import opened Files

  /** One flattened question row. The test number is "" and the element None when
      the exam's metadata lacks them. */
  datatype FlatRow = FlatRow(source: string, examIndex: nat, testNumber: string, element: Option<nat>, question: QuestionResult)

  /** `extract_exam_list`: the exams of a file, a flat record counting as one. */
  function ExamList(f: FileRecord): (exams: seq<ExamRecord>)
    ensures f.SingleExam? ==> exams == [f.exam]
    ensures f.MultiExam? ==> exams == f.exams
  {
    match f
    case SingleExam(e) => [e]
    case MultiExam(_, _, _, exams) => exams
  }

  function FileSource(f: FileRecord): string {
    match f
    case SingleExam(e) => e.source
    case MultiExam(source, _, _, _) => source
  }

  /** The rows of one exam, which sits at 1-based position `index` in its file. */
  function ExamRows(source: string, index: nat, exam: ExamRecord): seq<FlatRow> {
    var qs := exam.questions;
    seq(|qs|, j requires 0 <= j < |qs| =>
      FlatRow(source, index, exam.metadata.testNumber.GetOr(""), exam.metadata.element, qs[j]))
  }

  /** The rows of the first `n` exams. */
  function RowsUpTo(source: string, exams: seq<ExamRecord>, n: nat): seq<FlatRow>
    requires n <= |exams|
  {
    if n == 0 then [] else RowsUpTo(source, exams, n - 1) + ExamRows(source, n, exams[n - 1])
  }

  function FlattenSpec(f: FileRecord): seq<FlatRow> {
    RowsUpTo(FileSource(f), ExamList(f), |ExamList(f)|)
  }

  /** All questions of the first `n` exams, exam after exam. */
  function QuestionsUpTo(exams: seq<ExamRecord>, n: nat): seq<QuestionResult>
    requires n <= |exams|
  {
    if n == 0 then [] else QuestionsUpTo(exams, n - 1) + exams[n - 1].questions
  }

  function QuestionsOf(rows: seq<FlatRow>): seq<QuestionResult> {
    seq(|rows|, k requires 0 <= k < |rows| => rows[k].question)
  }

  /** The rows of the first `n` exams carry exactly those exams' questions, in order;
      each row names its file and an exam position in `1..n`, takes that exam's test
      number and element, and the positions never decrease along the rows. */
  lemma {:induction false} RowsUpToShape(source: string, exams: seq<ExamRecord>, n: nat)
    requires n <= |exams|
    ensures QuestionsOf(RowsUpTo(source, exams, n)) == QuestionsUpTo(exams, n)
    ensures forall k :: 0 <= k < |RowsUpTo(source, exams, n)| ==>
              var row := RowsUpTo(source, exams, n)[k];
              && row.source == source
              && 1 <= row.examIndex <= n
              && row.testNumber == exams[row.examIndex - 1].metadata.testNumber.GetOr("")
              && row.element == exams[row.examIndex - 1].metadata.element
    ensures forall k1, k2 :: 0 <= k1 < k2 < |RowsUpTo(source, exams, n)| ==>
              RowsUpTo(source, exams, n)[k1].examIndex <= RowsUpTo(source, exams, n)[k2].examIndex
  {
    if n > 0 {
      RowsUpToShape(source, exams, n - 1);
      var prev := RowsUpTo(source, exams, n - 1);
      var last := ExamRows(source, n, exams[n - 1]);
      assert RowsUpTo(source, exams, n) == prev + last;
      assert QuestionsOf(prev + last) == QuestionsOf(prev) + exams[n - 1].questions;
    }
  }

  /** Question `q` of exam `j` is the row that follows the rows of the exams before
      it, and it carries position `j + 1` and exam `j`'s test number and element. */
  lemma {:induction false} RowOfExam(source: string, exams: seq<ExamRecord>, n: nat, j: nat, q: nat)
    requires n <= |exams| && j < n && q < |exams[j].questions|
    ensures |QuestionsUpTo(exams, j)| + q < |RowsUpTo(source, exams, n)|
    ensures RowsUpTo(source, exams, n)[|QuestionsUpTo(exams, j)| + q] ==
              FlatRow(source, j + 1, exams[j].metadata.testNumber.GetOr(""), exams[j].metadata.element, exams[j].questions[q])
  {
    var prev, last := RowsUpTo(source, exams, n - 1), ExamRows(source, n, exams[n - 1]);
    var k := |QuestionsUpTo(exams, j)| + q;
    assert RowsUpTo(source, exams, n) == prev + last;
    if j + 1 < n {
      RowOfExam(source, exams, n - 1, j, q);
      assert (prev + last)[k] == prev[k];
    } else {
      RowsUpToLength(source, exams, n - 1);
      assert (prev + last)[k] == last[q];
    }
  }

  lemma {:induction false} RowsUpToLength(source: string, exams: seq<ExamRecord>, n: nat)
    requires n <= |exams|
    ensures |RowsUpTo(source, exams, n)| == |QuestionsUpTo(exams, n)|
  {
    if n > 0 {
      RowsUpToLength(source, exams, n - 1);
    }
  }

  /** Question `q` of exam `j` sits right after the questions of the exams before
      it, tagged with the file's source, position `j + 1`, and exam `j`'s test
      number and element. */
  predicate TaggedAt(f: FileRecord, j: nat, q: nat)
    requires j < |ExamList(f)| && q < |ExamList(f)[j].questions|
  {
    var exams, k := ExamList(f), |QuestionsUpTo(ExamList(f), j)| + q;
    && k < |FlattenSpec(f)|
    && FlattenSpec(f)[k] ==
       FlatRow(FileSource(f), j + 1, exams[j].metadata.testNumber.GetOr(""), exams[j].metadata.element, exams[j].questions[q])
  }

  /** Flattening a file yields all questions of its exams, in order; question `q` of
      exam `j` is tagged with the file's source, position `j + 1`, and exam `j`'s
      test number and element. */
  lemma FlattenShape(f: FileRecord)
    ensures QuestionsOf(FlattenSpec(f)) == QuestionsUpTo(ExamList(f), |ExamList(f)|)
    ensures forall k :: 0 <= k < |FlattenSpec(f)| ==>
              && FlattenSpec(f)[k].source == FileSource(f)
              && 1 <= FlattenSpec(f)[k].examIndex <= |ExamList(f)|
    ensures forall k1, k2 :: 0 <= k1 < k2 < |FlattenSpec(f)| ==>
              FlattenSpec(f)[k1].examIndex <= FlattenSpec(f)[k2].examIndex
    ensures forall j: nat, q: nat :: j < |ExamList(f)| && q < |ExamList(f)[j].questions| ==> TaggedAt(f, j, q)
  {
    RowsUpToShape(FileSource(f), ExamList(f), |ExamList(f)|);
    FlattenRowOfExam(f);
  }

  lemma FlattenRowOfExam(f: FileRecord)
    ensures forall j: nat, q: nat :: j < |ExamList(f)| && q < |ExamList(f)[j].questions| ==> TaggedAt(f, j, q)
  {
    forall j: nat, q: nat | j < |ExamList(f)| && q < |ExamList(f)[j].questions| ensures TaggedAt(f, j, q) {
      RowOfExam(FileSource(f), ExamList(f), |ExamList(f)|, j, q);
    }
  }

  /** `flatten_questions_for_csv`. */
  method FlattenQuestions(f: FileRecord) returns (rows: seq<FlatRow>)
    ensures rows == FlattenSpec(f)
  {
    rows := [];
    var source := FileSource(f);
    var exams := ExamList(f);
    for i := 0 to |exams|
      invariant rows == RowsUpTo(source, exams, i)
    {
      var exam := exams[i];
      var testNumber := exam.metadata.testNumber.GetOr("");
      var element := exam.metadata.element;
      var questions := exam.questions;
      ghost var before := rows;
      for j := 0 to |questions|
        invariant rows == before + ExamRows(source, i + 1, exam)[..j]
      {
        rows := rows + [FlatRow(source, i + 1, testNumber, element, questions[j])];
        assert ExamRows(source, i + 1, exam)[..j + 1] == ExamRows(source, i + 1, exam)[..j] + [ExamRows(source, i + 1, exam)[j]];
      }
      assert ExamRows(source, i + 1, exam)[..|questions|] == ExamRows(source, i + 1, exam);
    }
  }
}
