/** The per-file record (`build_output`): one exam is returned as it is; several
    concatenated exams are wrapped with summed totals and the candidate's identity. */
module Files {
  import opened Wrappers
  import opened Exam
  import opened Blocks
  import opened Text

  /** The candidate fields lifted from the first exam of a multi-exam file. */
  datatype Identity = Identity(candidateName: Option<string>, pin: Option<string>)

  datatype FileSummary = FileSummary(totalExams: nat, totalQuestions: nat, correct: nat, incorrect: nat)

  /** A file holding one exam is that exam's record (no `exams` list); a file holding
      several keeps them in `exams`. */
  datatype FileRecord =
    | SingleExam(exam: ExamRecord)
    | MultiExam(source: string, metadata: Identity, summary: FileSummary, exams: seq<ExamRecord>)

  function SumQuestions(exams: seq<ExamRecord>): nat {
    if exams == [] then 0 else exams[0].summary.total + SumQuestions(exams[1..])
  }

  function SumCorrect(exams: seq<ExamRecord>): nat {
    if exams == [] then 0 else exams[0].summary.correct + SumCorrect(exams[1..])
  }

  function SumIncorrect(exams: seq<ExamRecord>): nat {
    if exams == [] then 0 else exams[0].summary.incorrect + SumIncorrect(exams[1..])
  }

  /** The exam records of the blocks, in block order. */
  function ExamsOf(blocks: seq<string>, scanner: Scanner, source: string): seq<ExamRecord> {
    seq(|blocks|, i requires 0 <= i < |blocks| => ExamOf(scanner(blocks[i]), source))
  }

  /** The record built for one file. */
  function FileOf(text: string, starts: seq<nat>, scanner: Scanner, source: string): FileRecord
    requires ValidStarts(text, starts)
  {
    var blocks := SplitSpec(text, starts);
    if |blocks| == 1 then SingleExam(ExamOf(scanner(blocks[0]), source))
    else
      var exams := ExamsOf(blocks, scanner, source);
      var first := exams[0].metadata;
      MultiExam(source, Identity(first.candidateName, first.pin),
                FileSummary(|exams|, SumQuestions(exams), SumCorrect(exams), SumIncorrect(exams)),
                exams)
  }

  /** An exam record whose counts agree with its question list. */
  predicate ExamConsistent(e: ExamRecord) {
    && e.summary.total == |e.questions|
    && e.summary.correct == CountCorrect(e.questions)
    && e.summary.incorrect == e.summary.total - e.summary.correct
  }

  /** A file record whose counts agree with its exams. */
  predicate FileConsistent(f: FileRecord) {
    match f
    case SingleExam(e) => ExamConsistent(e)
    case MultiExam(_, _, summary, exams) =>
      && (forall i :: 0 <= i < |exams| ==> ExamConsistent(exams[i]))
      && summary == FileSummary(|exams|, SumQuestions(exams), SumCorrect(exams), SumIncorrect(exams))
  }

  lemma ExamOfConsistent(scan: BlockScan, source: string)
    ensures ExamConsistent(ExamOf(scan, source))
  {
  }

  /** Summed over consistent exams, incorrect is questions minus correct. */
  lemma {:induction false} SumsAgree(exams: seq<ExamRecord>)
    requires forall i :: 0 <= i < |exams| ==> ExamConsistent(exams[i])
    ensures SumCorrect(exams) <= SumQuestions(exams)
    ensures SumIncorrect(exams) == SumQuestions(exams) - SumCorrect(exams)
  {
    if exams != [] {
      SumsAgree(exams[1..]);
    }
  }

  /** The shape of a file record: flat exactly when the split gave one block;
      otherwise one exam per block, in block order, with at least two of them, the
      counts summed, incorrect equal to questions minus correct, and only the name
      and PIN of the first exam lifted. */
  lemma FileOfShape(text: string, starts: seq<nat>, scanner: Scanner, source: string)
    requires ValidStarts(text, starts)
    ensures FileOf(text, starts, scanner, source).SingleExam? <==> |SplitSpec(text, starts)| == 1
    ensures FileOf(text, starts, scanner, source).SingleExam? ==>
              FileOf(text, starts, scanner, source).exam == ExamOf(scanner(SplitSpec(text, starts)[0]), source)
    ensures FileOf(text, starts, scanner, source).MultiExam? ==>
              var f, blocks := FileOf(text, starts, scanner, source), SplitSpec(text, starts);
              && f.source == source
              && |f.exams| == |blocks| >= 2
              && f.summary.totalExams == |f.exams|
              && (forall i :: 0 <= i < |blocks| ==> f.exams[i] == ExamOf(scanner(blocks[i]), source))
              && f.summary.totalQuestions == SumQuestions(f.exams)
              && f.summary.correct == SumCorrect(f.exams)
              && f.summary.incorrect == f.summary.totalQuestions - f.summary.correct
              && f.metadata.candidateName == f.exams[0].metadata.candidateName
              && f.metadata.pin == f.exams[0].metadata.pin
    ensures FileConsistent(FileOf(text, starts, scanner, source))
  {
    var blocks := SplitSpec(text, starts);
    if |blocks| != 1 {
      var exams := ExamsOf(blocks, scanner, source);
      SumsAgree(exams);
    }
  }

  /** A document without any header is a single exam made of the whole text. */
  lemma HeaderlessIsSingle(text: string, scanner: Scanner, source: string)
    ensures FileOf(text, [], scanner, source) == SingleExam(ExamOf(scanner(text), source))
  {
  }

  /** A document whose headers each start a non-blank block has one exam per header
      once there are two or more headers. */
  lemma OneExamPerHeader(text: string, starts: seq<nat>, scanner: Scanner, source: string)
    requires ValidStarts(text, starts) && |starts| >= 2
    requires forall i :: 0 <= i < |starts| ==> Strip(RawBlock(text, starts, i)) != []
    ensures FileOf(text, starts, scanner, source).MultiExam?
    ensures |FileOf(text, starts, scanner, source).exams| == |starts|
  {
    EveryHeaderABlock(text, starts);
  }

  /** `build_output`: split the text, then build one exam per block. */
  method BuildOutput(text: string, starts: seq<nat>, scanner: Scanner, source: string) returns (out: FileRecord)
    requires ValidStarts(text, starts)
    ensures out == FileOf(text, starts, scanner, source)
  {
    var blocks := SplitExamBlocks(text, starts);
    if |blocks| == 1 {
      var exam := BuildExamOutput(blocks[0], scanner, source);
      return SingleExam(exam);
    }
    var exams: seq<ExamRecord> := [];
    for i := 0 to |blocks|
      invariant exams == ExamsOf(blocks[..i], scanner, source)
    {
      var exam := BuildExamOutput(blocks[i], scanner, source);
      exams := exams + [exam];
    }
    assert blocks[..|blocks|] == blocks;
    var totalQuestions := SumQuestions(exams);
    var totalCorrect := SumCorrect(exams);
    var totalIncorrect := SumIncorrect(exams);
    var first := exams[0].metadata;
    out := MultiExam(source, Identity(first.candidateName, first.pin),
                     FileSummary(|exams|, totalQuestions, totalCorrect, totalIncorrect), exams);
  }
}
