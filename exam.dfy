/** The per-exam record (`build_exam_output`): counts of parsed, correct and incorrect
    questions, and the three integrity lists over the observed question numbers. */
module Exam {
  import opened Wrappers
  import opened Questions

  /** The facts found in one exam block; a fact missing from the text is None. */
  datatype Metadata = Metadata(
    candidateName: Option<string>,
    pin: Option<string>,
    outcome: Option<string>,
    reportedCorrect: Option<nat>,
    reportedTotal: Option<nat>,
    element: Option<nat>,
    testNumber: Option<string>,
    validFrom: Option<string>,
    validTo: Option<string>,
    examStartedAt: Option<string>,
    examStartedBy: Option<string>,
    examGradedAt: Option<string>,
    examGradedBy: Option<string>)

  /** What the pattern searches find in one block of text: the question-row matches
      in text order and the metadata. */
  datatype BlockScan = BlockScan(matches: seq<QuestionMatch>, metadata: Metadata)

  /** The pattern-matching front end, applied to one block of text. */
  type Scanner = string -> BlockScan

  datatype ExamSummary = ExamSummary(
    total: nat,
    correct: nat,
    incorrect: nat,
    missing: seq<nat>,
    duplicates: seq<nat>,
    unexpected: seq<nat>)

  datatype ExamRecord = ExamRecord(source: string, metadata: Metadata, summary: ExamSummary, questions: seq<QuestionResult>)

  predicate Increasing(s: seq<nat>) {
    forall i, j :: 0 <= i < j < |s| ==> s[i] < s[j]
  }

  predicate Distinct(s: seq<nat>) {
    forall i, j :: 0 <= i < j < |s| ==> s[i] != s[j]
  }

  function Numbers(qs: seq<QuestionResult>): seq<nat> {
    seq(|qs|, i requires 0 <= i < |qs| => qs[i].number)
  }

  function Elements(xs: seq<nat>): set<nat> {
    set x | x in xs
  }

  /** How many questions were answered correctly; all of them exactly when every
      question is correct. */
  function CountCorrect(qs: seq<QuestionResult>): (r: nat)
    ensures r <= |qs|
    ensures r == |qs| <==> forall i :: 0 <= i < |qs| ==> qs[i].isCorrect
  {
    if qs == [] then 0
    else
      var rest := CountCorrect(qs[1..]);
      assert forall i :: 1 <= i < |qs| ==> qs[i] == qs[1..][i - 1];
      (if qs[0].isCorrect then 1 else 0) + rest
  }

  lemma {:induction false} CountCorrectAppend(a: seq<QuestionResult>, b: seq<QuestionResult>)
    ensures CountCorrect(a + b) == CountCorrect(a) + CountCorrect(b)
  {
    if a != [] {
      assert (a + b)[1..] == a[1..] + b;
      CountCorrectAppend(a[1..], b);
    } else {
      assert a + b == b;
    }
  }

  /** Python's `max` of a non-empty list: an element no smaller than any other. */
  function Max(xs: seq<nat>): (m: nat)
    requires xs != []
    ensures m in xs && forall x :: x in xs ==> x <= m
  {
    if |xs| == 1 then xs[0]
    else
      var rest := Max(xs[1..]);
      assert forall x :: x in xs ==> x == xs[0] || x in xs[1..];
      if xs[0] >= rest then xs[0] else rest
  }

  lemma MinExists(s: set<nat>)
    requires s != {}
    ensures exists m :: m in s && forall y :: y in s ==> m <= y
  {
    var x :| x in s;
    if s != {x} {
      MinExists(s - {x});
      var m :| m in s - {x} && forall y :: y in s - {x} ==> m <= y;
      var least := if x < m then x else m;
      forall y | y in s ensures least <= y {
        if y != x {
          assert y in s - {x};
        }
      }
    } else {
      assert forall y :: y in s ==> x <= y;
    }
  }

  /** The least element of a non-empty set. */
  function Least(s: set<nat>): (m: nat)
    requires s != {}
    ensures m in s && forall y :: y in s ==> m <= y
  {
    MinExists(s);
    var m :| m in s && forall y :: y in s ==> m <= y;
    m
  }

  /** `sorted(s)` for a set of numbers. */
  function Ascending(s: set<nat>): seq<nat>
    decreases s
  {
    if s == {} then [] else [Least(s)] + Ascending(s - {Least(s)})
  }

  /** `sorted(s)` lists the elements of `s`, ascending, each once. */
  lemma {:induction false} AscendingSpec(s: set<nat>)
    ensures Increasing(Ascending(s))
    ensures forall v :: v in Ascending(s) <==> v in s
    decreases s
  {
    if s != {} {
      AscendingSpec(s - {Least(s)});
      PrependLeast(Least(s), Ascending(s - {Least(s)}), s);
    }
  }

  /** The least element of `s` ahead of the ascending rest of `s` is ascending. */
  lemma PrependLeast(m: nat, rest: seq<nat>, s: set<nat>)
    requires m in s && forall y :: y in s ==> m <= y
    requires Increasing(rest) && forall v :: v in rest <==> v in s - {m}
    ensures Increasing([m] + rest)
    ensures forall v :: v in [m] + rest <==> v in s
  {
    forall i | 0 <= i < |rest| ensures m < rest[i] {
      assert rest[i] in rest;
    }
  }

  /** The numbers found repeated while scanning `xs` left to right, each recorded
      once, at the moment its second occurrence is reached. */
  function Duplicates(xs: seq<nat>): seq<nat> {
    if xs == [] then []
    else
      var init, x := xs[..|xs| - 1], xs[|xs| - 1];
      var d := Duplicates(init);
      if x in init && x !in d then d + [x] else d
  }

  /** Duplicates reports exactly the numbers occurring at least twice, each once. */
  lemma {:induction false} DuplicatesSpec(xs: seq<nat>)
    ensures forall n :: n in Duplicates(xs) <==> multiset(xs)[n] >= 2
    ensures Distinct(Duplicates(xs))
  {
    if xs != [] {
      var init, x := xs[..|xs| - 1], xs[|xs| - 1];
      DuplicatesSpec(init);
      assert xs == init + [x];
      assert multiset(xs) == multiset(init) + multiset{x};
    }
  }

  /** Duplicates are listed in order of first repeat: scanning a prefix of the
      numbers yields a prefix of the final list. */
  lemma {:induction false} DuplicatesScanOrder(xs: seq<nat>, k: nat)
    requires k <= |xs|
    ensures Duplicates(xs[..k]) <= Duplicates(xs)
  {
    if k < |xs| {
      var init := xs[..|xs| - 1];
      DuplicatesScanOrder(init, k);
      assert init[..k] == xs[..k];
    } else {
      assert xs[..k] == xs;
    }
  }

  /** The numbers `1..upTo` not in `seen`, in increasing order. */
  function MissingNumbers(seen: set<nat>, upTo: nat): seq<nat> {
    if upTo == 0 then []
    else MissingNumbers(seen, upTo - 1) + (if upTo !in seen then [upTo] else [])
  }

  /** The missing list is ascending and holds exactly the unseen numbers of `1..upTo`. */
  lemma {:induction false} MissingNumbersSpec(seen: set<nat>, upTo: nat)
    ensures Increasing(MissingNumbers(seen, upTo))
    ensures forall n :: n in MissingNumbers(seen, upTo) <==> 1 <= n <= upTo && n !in seen
  {
    if upTo > 0 {
      var r := MissingNumbers(seen, upTo - 1);
      MissingNumbersSpec(seen, upTo - 1);
      forall i | 0 <= i < |r| ensures r[i] < upTo {
        assert r[i] in r;
      }
    }
  }

  /** The elements of `s` outside `1..expected`, in their order in `s`. */
  function OutOfRange(s: seq<nat>, expected: nat): seq<nat> {
    if s == [] then []
    else
      var init, n := s[..|s| - 1], s[|s| - 1];
      OutOfRange(init, expected) + (if n < 1 || n > expected then [n] else [])
  }

  /** The out-of-range list holds exactly the elements of `s` outside `1..expected`,
      and it is ascending when `s` is. */
  lemma {:induction false} OutOfRangeSpec(s: seq<nat>, expected: nat)
    ensures forall n :: n in OutOfRange(s, expected) <==> n in s && (n < 1 || n > expected)
    ensures Increasing(s) ==> Increasing(OutOfRange(s, expected))
  {
    if s != [] {
      var init, n := s[..|s| - 1], s[|s| - 1];
      OutOfRangeSpec(init, expected);
      OutOfRangeStep(init, n, OutOfRange(init, expected), expected);
      assert s == init + [n];
    }
  }

  /** One more element at the end of `s` extends the out-of-range list in order. */
  lemma OutOfRangeStep(init: seq<nat>, n: nat, r: seq<nat>, expected: nat)
    requires forall v :: v in r <==> v in init && (v < 1 || v > expected)
    requires Increasing(init) ==> Increasing(r)
    ensures var r' := r + (if n < 1 || n > expected then [n] else []);
      && (forall v :: v in r' <==> v in init + [n] && (v < 1 || v > expected))
      && (Increasing(init + [n]) ==> Increasing(r'))
  {
    if Increasing(init + [n]) {
      assert Increasing(init) by {
        forall i, j | 0 <= i < j < |init| ensures init[i] < init[j] {
          assert (init + [n])[i] == init[i] && (init + [n])[j] == init[j];
        }
      }
      forall i | 0 <= i < |r| ensures r[i] < n {
        assert r[i] in r;
        var k :| 0 <= k < |init| && init[k] == r[i];
        assert (init + [n])[k] == init[k];
        assert (init + [n])[|init|] == n;
      }
    }
  }

  /** The reported total when the metadata has one, else the largest number seen. */
  function ExpectedTotal(numbers: seq<nat>, reported: Option<nat>): nat
    requires numbers != []
  {
    if reported.Some? then reported.value else Max(numbers)
  }

  /** The summary of an exam whose questions are `qs`. */
  function SummaryOf(qs: seq<QuestionResult>, reported: Option<nat>): ExamSummary {
    var numbers := Numbers(qs);
    var total := |qs|;
    var correct := CountCorrect(qs);
    if numbers == [] then ExamSummary(total, correct, total - correct, [], [], [])
    else
      var expected := ExpectedTotal(numbers, reported);
      var seen := Elements(numbers);
      ExamSummary(total, correct, total - correct,
                  MissingNumbers(seen, expected), Duplicates(numbers),
                  OutOfRange(Ascending(seen), expected))
  }

  /** The record built for one scanned block. */
  function ExamOf(scan: BlockScan, source: string): ExamRecord {
    var qs := SortByNumber(Rows(scan.matches));
    ExamRecord(source, scan.metadata, SummaryOf(qs, scan.metadata.reportedTotal), qs)
  }

  /** The integrity summary: the counts add up; the duplicates are the numbers seen
      twice or more, each once; missing and unexpected are ascending and hold exactly
      the expected numbers not seen and the seen numbers outside `1..expected`; with
      no questions all three lists are empty. */
  lemma SummaryIntegrity(qs: seq<QuestionResult>, reported: Option<nat>)
    ensures var s := SummaryOf(qs, reported);
      && s.total == |qs|
      && s.correct <= s.total
      && s.incorrect == s.total - s.correct
      && (forall n :: n in s.duplicates <==> multiset(Numbers(qs))[n] >= 2)
      && Distinct(s.duplicates)
      && (qs == [] ==> s.missing == [] && s.duplicates == [] && s.unexpected == [])
    ensures qs != [] ==>
      var s, e := SummaryOf(qs, reported), ExpectedTotal(Numbers(qs), reported);
      && Increasing(s.missing)
      && (forall n :: n in s.missing <==> 1 <= n <= e && n !in Numbers(qs))
      && Increasing(s.unexpected)
      && (forall n :: n in s.unexpected <==> n in Numbers(qs) && (n < 1 || n > e))
  {
    DuplicatesSpec(Numbers(qs));
    if qs != [] {
      var seen := Elements(Numbers(qs));
      var e := ExpectedTotal(Numbers(qs), reported);
      MissingNumbersSpec(seen, e);
      AscendingSpec(seen);
      OutOfRangeSpec(Ascending(seen), e);
    }
  }

  /** The expected total is the reported one when present, else the largest
      observed number. */
  lemma ExpectedTotalSpec(numbers: seq<nat>, reported: Option<nat>)
    requires numbers != []
    ensures reported.Some? ==> ExpectedTotal(numbers, reported) == reported.value
    ensures reported.None? ==> ExpectedTotal(numbers, reported) in numbers &&
                               forall n :: n in numbers ==> n <= ExpectedTotal(numbers, reported)
  {
  }

  /** An exam numbered exactly 1..n, each number once, whose metadata reports n or
      nothing, has no missing, duplicate or unexpected numbers. */
  lemma CleanExam(qs: seq<QuestionResult>, reported: Option<nat>, n: nat)
    requires qs != []
    requires Distinct(Numbers(qs))
    requires forall i :: 0 <= i < |qs| ==> 1 <= qs[i].number <= n
    requires forall v :: 1 <= v <= n ==> v in Numbers(qs)
    requires reported == None || reported == Some(n)
    ensures SummaryOf(qs, reported).missing == []
    ensures SummaryOf(qs, reported).duplicates == []
    ensures SummaryOf(qs, reported).unexpected == []
  {
    var numbers := Numbers(qs);
    var seen := Elements(numbers);
    var e := ExpectedTotal(numbers, reported);
    assert e == n by {
      if reported.None? {
        assert numbers[0] in numbers;
        assert n in numbers;
      }
    }
    assert forall v :: 1 <= v <= n ==> v in seen;
    NothingMissing(seen, n);
    NoDuplicates(numbers);
    AscendingSpec(seen);
    assert forall v :: v in Ascending(seen) ==> 1 <= v <= n;
    NothingOutOfRange(Ascending(seen), n);
  }

  lemma {:induction false} NothingMissing(seen: set<nat>, n: nat)
    requires forall v :: 1 <= v <= n ==> v in seen
    ensures MissingNumbers(seen, n) == []
  {
    if n > 0 {
      NothingMissing(seen, n - 1);
    }
  }

  lemma NoDuplicates(xs: seq<nat>)
    requires Distinct(xs)
    ensures Duplicates(xs) == []
  {
    DuplicatesSpec(xs);
    DistinctNoRepeat(xs);
  }

  lemma {:induction false} NothingOutOfRange(s: seq<nat>, n: nat)
    requires forall v :: v in s ==> 1 <= v <= n
    ensures OutOfRange(s, n) == []
  {
    if s != [] {
      var init := s[..|s| - 1];
      forall v | v in init ensures 1 <= v <= n {
        var i :| 0 <= i < |init| && init[i] == v;
        assert s[i] == v && v in s;
      }
      NothingOutOfRange(init, n);
      assert s[|s| - 1] in s;
    }
  }

  lemma {:induction false} DistinctNoRepeat(xs: seq<nat>)
    requires Distinct(xs)
    ensures forall v :: multiset(xs)[v] < 2
  {
    if xs != [] {
      var init, x := xs[..|xs| - 1], xs[|xs| - 1];
      DistinctNoRepeat(init);
      assert xs == init + [x];
      assert x !in init;
    }
  }

  /** The first loop of `build_exam_output`: the set of numbers seen and the
      numbers repeated, in order of first repeat. */
  method FindDuplicates(numbers: seq<nat>) returns (seen: set<nat>, duplicates: seq<nat>)
    ensures seen == Elements(numbers)
    ensures duplicates == Duplicates(numbers)
  {
    seen, duplicates := {}, [];
    for i := 0 to |numbers|
      invariant seen == Elements(numbers[..i])
      invariant duplicates == Duplicates(numbers[..i])
    {
      var n := numbers[i];
      assert numbers[..i + 1] == numbers[..i] + [n];
      assert numbers[..i + 1][..i] == numbers[..i];
      if n in seen && n !in duplicates {
        duplicates := duplicates + [n];
      }
      seen := seen + {n};
      assert Elements(numbers[..i + 1]) == Elements(numbers[..i]) + {n};
    }
    assert numbers[..|numbers|] == numbers;
  }

  /** The second loop: every number of `1..expected` not seen, ascending. */
  method FindMissing(seen: set<nat>, expected: nat) returns (missing: seq<nat>)
    ensures missing == MissingNumbers(seen, expected)
    ensures Increasing(missing)
    ensures forall n :: n in missing <==> 1 <= n <= expected && n !in seen
  {
    missing := [];
    for n := 1 to expected + 1
      invariant missing == MissingNumbers(seen, n - 1)
    {
      if n !in seen {
        missing := missing + [n];
      }
    }
    MissingNumbersSpec(seen, expected);
  }

  /** The third loop: the seen numbers outside `1..expected`, ascending. */
  method FindUnexpected(seen: set<nat>, expected: nat) returns (unexpected: seq<nat>)
    ensures unexpected == OutOfRange(Ascending(seen), expected)
    ensures Increasing(unexpected)
    ensures forall n :: n in unexpected <==> n in seen && (n < 1 || n > expected)
  {
    var ordered := Ascending(seen);
    unexpected := [];
    for k := 0 to |ordered|
      invariant unexpected == OutOfRange(ordered[..k], expected)
    {
      var n := ordered[k];
      assert ordered[..k + 1][..k] == ordered[..k];
      if n < 1 || n > expected {
        unexpected := unexpected + [n];
      }
    }
    assert ordered[..|ordered|] == ordered;
    AscendingSpec(seen);
    OutOfRangeSpec(ordered, expected);
  }

  /** `build_exam_output` for one block: parse the rows, count them, and check the
      observed numbers. */
  method BuildExamOutput(block: string, scanner: Scanner, source: string) returns (exam: ExamRecord)
    ensures exam == ExamOf(scanner(block), source)
  {
    var scan := scanner(block);
    var questions := ParseQuestions(scan.matches);
    var metadata := scan.metadata;
    var total := |questions|;
    var correct := CountCorrect(questions);
    var incorrect := total - correct;
    var numbers := Numbers(questions);
    var missing, duplicates, unexpected := [], [], [];
    if numbers != [] {
      var seen;
      seen, duplicates := FindDuplicates(numbers);
      var expected := if metadata.reportedTotal.Some? then metadata.reportedTotal.value else Max(numbers);
      missing := FindMissing(seen, expected);
      unexpected := FindUnexpected(seen, expected);
    }
    exam := ExamRecord(source, metadata, ExamSummary(total, correct, incorrect, missing, duplicates, unexpected), questions);
  }
}
