/** The cross-file aggregate (`build_multi_file_output`): the per-file records are
    kept as they are, their reported counts are summed, and the statistics tables
    are computed over all flattened rows together. */
module Aggregate {
  import opened Exam
  import opened Files
  import opened Flatten
  import opened Stats

  datatype AggregateSummary = AggregateSummary(totalInputFiles: nat, totalExams: nat, totalQuestions: nat, correct: nat, incorrect: nat)

  datatype AggregateOutput = AggregateOutput(
    sources: seq<string>,
    summary: AggregateSummary,
    questionStats: seq<GroupStats>,
    sectionStats: seq<GroupStats>,
    subsectionStats: seq<GroupStats>,
    results: seq<FileRecord>)

  /** The counts a file record reports in its own summary. */
  function ReportedQuestions(f: FileRecord): nat {
    match f
    case SingleExam(e) => e.summary.total
    case MultiExam(_, _, summary, _) => summary.totalQuestions
  }

  function ReportedCorrect(f: FileRecord): nat {
    match f
    case SingleExam(e) => e.summary.correct
    case MultiExam(_, _, summary, _) => summary.correct
  }

  function ReportedIncorrect(f: FileRecord): nat {
    match f
    case SingleExam(e) => e.summary.incorrect
    case MultiExam(_, _, summary, _) => summary.incorrect
  }

  /** The flattened rows of all files, file after file. */
  function AllRows(outputs: seq<FileRecord>): seq<FlatRow> {
    if outputs == [] then [] else AllRows(outputs[..|outputs| - 1]) + FlattenSpec(outputs[|outputs| - 1])
  }

  function ExamCount(outputs: seq<FileRecord>): nat {
    if outputs == [] then 0 else ExamCount(outputs[..|outputs| - 1]) + |ExamList(outputs[|outputs| - 1])|
  }

  function QuestionTotal(outputs: seq<FileRecord>): nat {
    if outputs == [] then 0 else QuestionTotal(outputs[..|outputs| - 1]) + ReportedQuestions(outputs[|outputs| - 1])
  }

  function CorrectTotal(outputs: seq<FileRecord>): nat {
    if outputs == [] then 0 else CorrectTotal(outputs[..|outputs| - 1]) + ReportedCorrect(outputs[|outputs| - 1])
  }

  function IncorrectTotal(outputs: seq<FileRecord>): nat {
    if outputs == [] then 0 else IncorrectTotal(outputs[..|outputs| - 1]) + ReportedIncorrect(outputs[|outputs| - 1])
  }

  function Sources(outputs: seq<FileRecord>): seq<string> {
    seq(|outputs|, i requires 0 <= i < |outputs| => FileSource(outputs[i]))
  }

  /** What `build_multi_file_output` returns. */
  function AggregateOf(outputs: seq<FileRecord>): AggregateOutput {
    var rows := AllRows(outputs);
    AggregateOutput(
      Sources(outputs),
      AggregateSummary(|outputs|, ExamCount(outputs), QuestionTotal(outputs), CorrectTotal(outputs), IncorrectTotal(outputs)),
      StatsOf(rows, QuestionKey()),
      StatsOf(rows, PartsKey(SectionKey)),
      StatsOf(rows, PartsKey(SubsectionKey)),
      outputs)
  }

  lemma {:induction false} SumQuestionsSnoc(exams: seq<ExamRecord>, e: ExamRecord)
    ensures SumQuestions(exams + [e]) == SumQuestions(exams) + e.summary.total
    ensures SumCorrect(exams + [e]) == SumCorrect(exams) + e.summary.correct
  {
    if exams != [] {
      SumQuestionsSnoc(exams[1..], e);
      assert (exams + [e])[1..] == exams[1..] + [e];
    }
  }

  /** Over consistent exams, the questions of the first `n` exams are as many as
      their summaries report, and as many of them are correct. */
  lemma {:induction false} QuestionsUpToTotals(exams: seq<ExamRecord>, n: nat)
    requires n <= |exams|
    requires forall i :: 0 <= i < |exams| ==> ExamConsistent(exams[i])
    ensures |QuestionsUpTo(exams, n)| == SumQuestions(exams[..n])
    ensures CountCorrect(QuestionsUpTo(exams, n)) == SumCorrect(exams[..n])
  {
    if n > 0 {
      QuestionsUpToTotals(exams, n - 1);
      assert exams[..n] == exams[..n - 1] + [exams[n - 1]];
      SumQuestionsSnoc(exams[..n - 1], exams[n - 1]);
      CountCorrectAppend(QuestionsUpTo(exams, n - 1), exams[n - 1].questions);
    }
  }

  /** A consistent file flattens to as many rows as it reports questions, and as
      many correct rows as it reports correct answers. */
  lemma FileRowsAgree(f: FileRecord)
    requires FileConsistent(f)
    ensures |FlattenSpec(f)| == ReportedQuestions(f)
    ensures CountCorrect(QuestionsOf(FlattenSpec(f))) == ReportedCorrect(f)
    ensures ReportedIncorrect(f) == ReportedQuestions(f) - ReportedCorrect(f)
  {
    FlattenShape(f);
    var exams := ExamList(f);
    assert forall i :: 0 <= i < |exams| ==> ExamConsistent(exams[i]);
    QuestionsUpToTotals(exams, |exams|);
    assert exams[..|exams|] == exams;
    if f.MultiExam? {
      SumsAgree(exams);
    } else {
      assert exams == [f.exam];
    }
  }

  lemma QuestionsOfAppend(a: seq<FlatRow>, b: seq<FlatRow>)
    ensures QuestionsOf(a + b) == QuestionsOf(a) + QuestionsOf(b)
  {
  }

  /** Over consistent file records the summed counts are exactly the flattened
      rows: the question total is the row count, the correct total the correct
      rows, and incorrect is the rest. */
  lemma {:induction false} AggregateTotals(outputs: seq<FileRecord>)
    requires forall i :: 0 <= i < |outputs| ==> FileConsistent(outputs[i])
    ensures QuestionTotal(outputs) == |AllRows(outputs)|
    ensures CorrectTotal(outputs) == CountCorrect(QuestionsOf(AllRows(outputs)))
    ensures IncorrectTotal(outputs) == QuestionTotal(outputs) - CorrectTotal(outputs)
  {
    if outputs != [] {
      var init, last := outputs[..|outputs| - 1], outputs[|outputs| - 1];
      AggregateTotals(init);
      FileRowsAgree(last);
      QuestionsOfAppend(AllRows(init), FlattenSpec(last));
      CountCorrectAppend(QuestionsOf(AllRows(init)), QuestionsOf(FlattenSpec(last)));
    }
  }

  lemma {:induction false} AllValid(rows: seq<FlatRow>)
    requires forall r :: 0 <= r < |rows| ==> IsQuestionId(rows[r].question.questionId)
    ensures ValidIdCount(rows) == |rows|
    ensures NonEmptyIdCount(rows) == |rows|
  {
    if rows != [] {
      AllValid(rows[..|rows| - 1]);
    }
  }

  /** The aggregate of consistent files whose question ids are all well formed:
      every statistics table accounts for every question once. */
  lemma AggregateStats(outputs: seq<FileRecord>)
    requires forall i :: 0 <= i < |outputs| ==> FileConsistent(outputs[i])
    requires forall r :: 0 <= r < |AllRows(outputs)| ==> IsQuestionId(AllRows(outputs)[r].question.questionId)
    ensures SumAttempts(AggregateOf(outputs).questionStats) == AggregateOf(outputs).summary.totalQuestions
    ensures SumAttempts(AggregateOf(outputs).sectionStats) == AggregateOf(outputs).summary.totalQuestions
    ensures SumAttempts(AggregateOf(outputs).subsectionStats) == AggregateOf(outputs).summary.totalQuestions
    ensures SumCorrectStats(AggregateOf(outputs).questionStats) == AggregateOf(outputs).summary.correct
  {
    var rows := AllRows(outputs);
    AggregateTotals(outputs);
    AllValid(rows);
    UsableValidIds(rows);
    StatsShape(rows, QuestionKey());
    StatsShape(rows, PartsKey(SectionKey));
    StatsShape(rows, PartsKey(SubsectionKey));
    UsableCorrectAll(rows);
  }

  /** When every row has a non-empty id, the usable correct rows are the correct rows. */
  lemma {:induction false} UsableCorrectAll(rows: seq<FlatRow>)
    requires forall r :: 0 <= r < |rows| ==> rows[r].question.questionId != ""
    ensures UsableCorrect(rows, QuestionKey()) == CountCorrect(QuestionsOf(rows))
  {
    if rows != [] {
      var init := rows[..|rows| - 1];
      UsableCorrectAll(init);
      assert rows == init + [rows[|rows| - 1]];
      QuestionsOfAppend(init, [rows[|rows| - 1]]);
      CountCorrectAppend(QuestionsOf(init), QuestionsOf([rows[|rows| - 1]]));
    }
  }

  /** `build_multi_file_output`. */
  method BuildMultiFileOutput(outputs: seq<FileRecord>) returns (agg: AggregateOutput)
    ensures agg == AggregateOf(outputs)
    ensures agg.sources == Sources(outputs) && agg.results == outputs
    ensures agg.summary.totalInputFiles == |outputs|
  {
    var allRows: seq<FlatRow> := [];
    var allExams, allQuestions, allCorrect, allIncorrect := 0, 0, 0, 0;
    for i := 0 to |outputs|
      invariant allRows == AllRows(outputs[..i])
      invariant allExams == ExamCount(outputs[..i])
      invariant allQuestions == QuestionTotal(outputs[..i])
      invariant allCorrect == CorrectTotal(outputs[..i])
      invariant allIncorrect == IncorrectTotal(outputs[..i])
    {
      assert outputs[..i + 1][..i] == outputs[..i];
      var out := outputs[i];
      allExams := allExams + |ExamList(out)|;
      var rows := FlattenQuestions(out);
      allRows := allRows + rows;
      allQuestions := allQuestions + ReportedQuestions(out);
      allCorrect := allCorrect + ReportedCorrect(out);
      allIncorrect := allIncorrect + ReportedIncorrect(out);
    }
    assert outputs[..|outputs|] == outputs;
    var questionStats := ComputeQuestionStats(allRows);
    var sectionStats := ComputeSectionStats(allRows);
    var subsectionStats := ComputeSubsectionStats(allRows);
    var sources := seq(|outputs|, i requires 0 <= i < |outputs| => FileSource(outputs[i]));
    agg := AggregateOutput(
      sources,
      AggregateSummary(|outputs|, allExams, allQuestions, allCorrect, allIncorrect),
      questionStats, sectionStats, subsectionStats, outputs);
  }
}
