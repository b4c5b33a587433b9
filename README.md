# Exam results extraction, modelled in Dafny

`extract_results.py` turns the text of amateur-radio exam result reports into
structured records. A report holds one or more exams. Each exam has a candidate
header line `<name> (PIN: <digits>)`, some metadata, and one row per question of
the form `<number>. <id>: <letter>`, with an optional `(should be <letter>)`
correction. The program:

- splits a document into exam blocks at every header line;
- builds one record per exam: the question rows sorted by number; the parsed,
  correct and incorrect counts; and three integrity lists (missing, duplicate and
  unexpected question numbers);
- wraps several exams of one file in a multi-exam record with summed counts;
- flattens records into question rows tagged with their file and exam position;
- aggregates many files into one output. It sums each file's reported counts and
  builds three statistics tables: per question id, per section (`T3`) and per
  subsection (`T3A`). Each table is sorted by accuracy ascending, then attempts
  descending, then key.

The model is split into these modules:

- `Wrappers`: an optional value.
- `Text`: Python's `str.strip()` and `str` ordering.
- `Questions`: `parse_questions`.
- `Exam`: `build_exam_output`.
- `Blocks`: `split_exam_blocks`.
- `Files`: `build_output`.
- `Flatten`: `extract_exam_list` and `flatten_questions_for_csv`.
- `Stats`: `parse_question_id_parts` and the four stats functions.
- `Aggregate`: `build_multi_file_output`.

The model's form follows the source:

- Every Python function that loops is a Dafny `method` with loop invariants. Its
  postcondition equates the result with a specification function.
- The properties the program promises are lemmas about those specification
  functions.
- Python's stable `list.sort` is modelled as a stable insertion sort on sequences.
- `sorted(set)` is the ascending enumeration of a set.
- The dictionaries that keep insertion order are a `map` plus a sequence of keys in
  order of first appearance.

The regular-expression front end is not modelled as a matcher. It enters the model
as data:

- The question-row matches of a block are a sequence of `QuestionMatch`, in text
  order.
- The header matches are a sequence of start offsets. They are ascending and lie
  inside the text (`Blocks.ValidStarts`).
- The metadata search and the question-row search on one block are a `Scanner`
  function parameter, from block text to matches plus metadata.

The multi-file `total_exams_parsed` counts the exams `extract_exam_list` returns for
each file (`extract_results.py:433-435`); it does not read the per-file summaries.
The model does the same (`Aggregate.ExamCount`).

## Model

| member | source | states |
|---|---|---|
| Questions.ToResult | extract_results.py:115-128 | The correct letter is the reported correction when there is one, else the selected letter. A row is correct exactly when there is no correction or the correction names the selected letter, that is, exactly when selected equals correct. Number, id and selected letter are kept. |
| Questions.SortByNumberSpec | extract_results.py:130 | The sort by number returns a permutation of its input (same multiset), ordered by number. It is stable: for every number, the rows carrying that number keep their relative order. |
| Questions.ParseQuestions | extract_results.py:103-131 | One row per match, so the length is kept. The rows are a permutation of the rows built in match order, sorted by number and stable per number. Every row is correct exactly when its selected and correct letters agree. |
| Text.TrimLeftSpec | extract_results.py:195 | Left trimming removes exactly the leading run of Python whitespace and keeps the rest. The result is empty or starts with a non-space. |
| Text.TrimRightSpec | extract_results.py:195 | Right trimming removes exactly the trailing run of whitespace and keeps the rest. The result is empty or ends with a non-space. |
| Text.StripSpec | extract_results.py:195 | `strip()` returns the contiguous middle of the string, with only whitespace removed before and after it. A non-empty result starts and ends with a non-space. The result is empty exactly when the string is all whitespace. |
| Text.LessIrreflexive | extract_results.py:336 | Python's `str` ordering, used as the last sort key, is irreflexive. |
| Text.LessTransitive | extract_results.py:336 | The `str` ordering is transitive. |
| Text.LessTotal | extract_results.py:336 | Of two different strings, one is less than the other. |
| Blocks.SplitShape | extract_results.py:182-198 | With no header, the result is the whole text as one block. When every block strips to empty, the result is again the whole text. Otherwise the result is the non-empty stripped blocks, each starting and ending with a non-space. |
| Blocks.KeptShape | extract_results.py:192-197 | Kept block k is the stripped text from header position `NonBlankIndices[k]` to the next header or the end of the text. The kept headers ascend, so text order is kept. Every header left out starts a block that is all whitespace. |
| Blocks.NonBlankShape | extract_results.py:196-197 | The filter keeps exactly the non-empty strings, in their original order. Every position left out holds an empty string. |
| Blocks.NonBlankAll | extract_results.py:196-197 | When no string is empty, the filter keeps them all. |
| Blocks.EveryHeaderABlock | extract_results.py:192-198 | When no block is blank, there is one block per header, and block i is the stripped text between header i and the next header. |
| Blocks.SplitExamBlocks | extract_results.py:182-198 | The loop returns the split specification: never empty, and the whole text when there is no header. |
| Exam.CountCorrect | extract_results.py:207 | The correct count is at most the number of questions. It equals that number exactly when every question is correct. |
| Exam.CountCorrectAppend | extract_results.py:207 | The correct count of two concatenated lists is the sum of their counts. |
| Exam.AscendingSpec | extract_results.py:229 | `sorted(seen)` lists each element of the set once, in strictly ascending order, and nothing else. |
| Exam.DuplicatesSpec | extract_results.py:215-219 | The duplicate list holds exactly the numbers that occur at least twice, each once. |
| Exam.DuplicatesScanOrder | extract_results.py:216-218 | Duplicates are listed in order of first repeat: scanning a prefix of the numbers yields a prefix of the final list. |
| Exam.MissingNumbersSpec | extract_results.py:226-228 | The missing list is strictly ascending and holds exactly the numbers in `1..expected` that were not seen. |
| Exam.OutOfRangeSpec | extract_results.py:229-231 | The unexpected list holds exactly the seen numbers outside `1..expected`. It is ascending when its input is. |
| Exam.ExpectedTotalSpec | extract_results.py:223-224 | The expected total is the reported total when the metadata has one. Otherwise it is the largest observed number, which is itself one of the observed numbers. |
| Exam.SummaryIntegrity | extract_results.py:206-231 | The counts add up: total is the number of questions, correct is at most total, and incorrect is total minus correct. Duplicates are exactly the numbers seen twice or more, each once. Missing and unexpected are ascending and exact. With no questions all three lists are empty. |
| Exam.CleanExam | extract_results.py:214-231 | When the questions are numbered exactly 1..n, each number once, and the metadata reports n or nothing, the missing, duplicate and unexpected lists are all empty. |
| Exam.FindDuplicates | extract_results.py:215-219 | The first loop computes the set of numbers seen and the duplicate list of its specification. |
| Exam.FindMissing | extract_results.py:226-228 | The second loop returns the unseen numbers of `1..expected`, ascending and exactly those. |
| Exam.FindUnexpected | extract_results.py:229-231 | The third loop returns the seen numbers outside `1..expected`, ascending and exactly those. |
| Exam.BuildExamOutput | extract_results.py:201-245 | The record built for a block is the record the specification gives for that block's scan and source; `Exam.SummaryIntegrity` states its properties. |
| Files.ExamOfConsistent | extract_results.py:206-208 | Every exam record's counts agree with its question list. |
| Files.SumsAgree | extract_results.py:255-260 | Summed over consistent exams, correct is at most the question total, and incorrect is the question total minus correct. |
| Files.FileOfShape | extract_results.py:248-280 | A file record is flat exactly when the split gives one block, and it is then that block's exam. Otherwise it has one exam per block, in block order, at least two of them. It counts the exams, sums questions and correct, and has incorrect equal to questions minus correct. Only the first exam's name and PIN are lifted. The record's counts are consistent. |
| Files.HeaderlessIsSingle | extract_results.py:188-190 | A document with no header line is one flat exam built from the whole text. |
| Files.OneExamPerHeader | extract_results.py:250-254 | With two or more headers and no blank block, the file is a multi-exam record with one exam per header. |
| Files.BuildOutput | extract_results.py:248-280 | The record built for a file is the record the specification gives; `Files.FileOfShape` states its properties. |
| Flatten.RowsUpToShape | extract_results.py:390-422 | The rows of the first n exams carry exactly those exams' questions, in order. Each row names the file's source and an exam position in `1..n`, and takes that exam's test number (or "") and element. Positions never decrease along the rows. |
| Flatten.ExamList | extract_results.py:382-387 | A flat record's exam list is that one exam; a multi-exam record's is its exams. |
| Flatten.RowOfExam | extract_results.py:396-419 | Over the first n exams, question q of exam j is the row that comes right after the questions of exams 0..j-1. It carries the file's source, position j + 1, and exam j's test number (or "") and element. |
| Flatten.FlattenShape | extract_results.py:382-422 | Flattening a file yields every question of every exam on the file's exam list, in order. A flat record counts as one exam. Question q of exam j is the row right after the questions of the earlier exams, tagged with the file's source, position j + 1, and exam j's test number and element. The positions never decrease along the rows. |
| Flatten.FlattenQuestions | extract_results.py:390-422 | The nested loops produce the flattening specification. |
| Stats.ParseQuestionIdParts | extract_results.py:295-304 | The parts are non-empty exactly when the id has the shape capital, digit, capital, two digits, optionally followed by one final newline. The parts are then the first three characters, one each. For any other id all three parts are empty. |
| Stats.SectionKey | extract_results.py:370 | The section key is non-empty exactly when pool and section are both non-empty, and it is then pool followed by section. |
| Stats.SubsectionKey | extract_results.py:378 | The subsection key is non-empty exactly when pool, section and subsection are all non-empty, and it is then their concatenation. |
| Stats.PartsKeys | extract_results.py:307-319 | The section and subsection groupings skip a row exactly when its id is empty or malformed. Otherwise they group the row under the id's first two or first three characters. |
| Stats.QuestionKeys | extract_results.py:343-346 | The per-question grouping uses the id itself, so it skips exactly the rows with an empty id. |
| Stats.TallyOf | extract_results.py:321-327 | A key's tally has attempts equal to correct plus incorrect, and no more attempts than rows. |
| Stats.TallyOfAbsent | extract_results.py:322 | A key that no row carries has an empty tally. |
| Stats.TallyOfAppend | extract_results.py:312-327 | Tallying concatenated rows adds up both the attempts and the correct counts. |
| Stats.KeysInOrderSpec | extract_results.py:311-322 | Each group key is listed once, and the listed keys are exactly the non-empty keys of the rows. |
| Stats.KeysInOrderScan | extract_results.py:322 | Keys are listed in the order of their first rows: scanning a prefix of the rows lists a prefix of the keys. |
| Stats.UsableValidIds | extract_results.py:313-319 | The rows counted by the section and subsection groupings are exactly the rows with a well-formed id. The rows counted by the question grouping are exactly those with a non-empty id. |
| Stats.Accuracy | extract_results.py:331-333 | Accuracy is non-negative and at most 1 when correct is at most attempts. With attempts present, accuracy times attempts equals correct. It is 0 with no attempts (given by the body). |
| Stats.Unsorted | extract_results.py:329-334 | Before sorting there is one line per key, in key order, each line being the key's tally with its accuracy. |
| Stats.BeforeIrreflexive | extract_results.py:336 | No line comes before itself under the sort key. |
| Stats.BeforeTransitive | extract_results.py:336 | The order "accuracy ascending, then attempts descending, then key" is transitive. |
| Stats.BeforeTotal | extract_results.py:336 | Of two lines with different keys, one comes before the other. |
| Stats.SortStatsElements | extract_results.py:336 | Sorting a table is a permutation and keeps the attempt and correct sums. |
| Stats.SortStatsOrdered | extract_results.py:336 | Sorting lines with distinct keys puts them strictly in sort order. |
| Stats.UnsortedSums | extract_results.py:312-334 | The tallies of all keys account for every counted row once, both in attempts and in correct answers. |
| Stats.StatsShape | extract_results.py:307-337 | The table has one line per distinct non-empty key of the rows, and no other. Each line is that key's tally with its accuracy, with positive attempts and attempts equal to correct plus incorrect. The lines are strictly in sort order. The attempts sum to the number of counted rows and the correct sum to the counted correct rows. |
| Stats.TallyByKey | extract_results.py:312-327 | The first loop yields the keys in order of first appearance and, for each key, its tally. |
| Stats.ComputeStats | extract_results.py:311-337 | Tally, then per-key accuracy, then sort: the result is the statistics table of the specification. |
| Stats.ComputeGroupStats | extract_results.py:307-337 | `compute_group_stats` for a grouping computed from the id's parts is the statistics table of that grouping. |
| Stats.ComputeQuestionStats | extract_results.py:340-365 | The per-question table is strictly in sort order, and its attempts sum to the number of rows with a non-empty id. |
| Stats.ComputeSectionStats | extract_results.py:368-370 | Rows with a malformed id are skipped: attempts sum to the number of well-formed ids. The table is strictly ordered, and every key is the first two characters of some well-formed id. |
| Stats.ComputeSubsectionStats | extract_results.py:373-379 | The same as for sections, with keys made of the first three characters of a well-formed id. |
| Aggregate.SumQuestionsSnoc | extract_results.py:255-259 | Appending an exam adds its question and correct counts to the file totals. |
| Aggregate.QuestionsUpToTotals | extract_results.py:255-259 | Over consistent exams there are as many questions in the first n exams as their summaries report, and as many of them are correct as reported. |
| Aggregate.FileRowsAgree | extract_results.py:390-422 | A consistent file record flattens to exactly as many rows as it reports questions, and to as many correct rows as it reports correct answers. Its incorrect count is the rest. |
| Aggregate.AggregateTotals | extract_results.py:425-442 | Over consistent file records, the summed question total is the number of flattened rows. The summed correct total is the number of correct rows. Incorrect is the rest. |
| Aggregate.AggregateStats | extract_results.py:425-461 | For consistent files whose ids are all well formed, each of the three tables' attempts sums to the aggregate question total. The question table's correct sum equals the aggregate correct total. |
| Aggregate.UsableCorrectAll | extract_results.py:343-353 | When no id is empty, the question grouping counts every correct row. |
| Aggregate.BuildMultiFileOutput | extract_results.py:425-461 | The loop and the three table computations produce the aggregate of the specification. The sources are listed in input order, the file records are passed through, and the file count is the input length. |

## Left out

- PDF text extraction through Ghostscript (`extract_text_from_pdf`) is an external process and is not modelled. The model starts from the extracted text.
- `write_csv`, `parse_args` and `main` are file I/O and command-line handling, and are not modelled.
- The regular-expression engine is not modelled: `QUESTION_RE`, `HEADER_RE` and the searches of `parse_metadata`. Their matches enter as data: question matches, header start offsets, and a `Scanner` function that gives one block's matches and metadata. Which text produces which matches is therefore not captured.
- `os.path.abspath` is left out; the source path is passed through unchanged.
- Accuracy: `round(accuracy, 4)` is not modelled; accuracy is the exact fraction. Two groups whose accuracies differ but round to the same 4-decimal value are ordered by accuracy in the model, whereas the program compares the rounded values and goes on to the attempts and key.
- Stats.ComputeQuestionStats: `compute_question_stats` is a separate loop in the source. The model shares `Stats.ComputeStats` with `compute_group_stats`, using the identity key. The extra "empty key" test of the shared loop cannot skip anything under that key, because the id was already checked to be non-empty.
- The `key_name` field label of a statistics line (`question_id`, `section_id`, `subsection_id`) is not modelled; each line has one `key` field.
- The `isinstance` guards of `extract_exam_list`, `flatten_questions_for_csv`, `build_output` and `build_multi_file_output` are not modelled. They tolerate hand-edited dictionaries, and in the model the records are typed, so those guards always pass.
- Metadata values other than reported total, element, test number, candidate name and PIN are carried in `Exam.Metadata` without any property about them.
- Python's in-place `list.sort` and `list.append` are modelled on immutable sequences, so aliasing of the returned lists is not captured.
- `\d` in the question-id pattern is modelled as the ASCII digits only; Python's `str` patterns also accept other Unicode decimal digits.
- Integers are unbounded in both Python and the model, so no wrap-around arises.
