/** Question-row construction (`parse_questions`): each match of the question-row
    pattern becomes a QuestionResult, and the rows are then stably sorted by number. */
module Questions {
  import opened Wrappers

  /** One match of the question-row pattern `<number>. <id>: <letter>`, with the
      letter of an optional `(should be <letter>)` correction. */
  datatype QuestionMatch = QuestionMatch(number: nat, questionId: string, selected: char, shouldBe: Option<char>)

  /** The per-question outcome of one exam. */
  datatype QuestionResult = QuestionResult(number: nat, questionId: string, selected: char, correct: char, isCorrect: bool)

  /** The row built from one match: the correct letter is the correction when one was
      reported and the selected letter otherwise, so a row is correct exactly when no
      correction was reported or the correction names the selected letter. */
  function ToResult(m: QuestionMatch): (q: QuestionResult)
    ensures q.number == m.number && q.questionId == m.questionId && q.selected == m.selected
    ensures q.correct == m.shouldBe.GetOr(m.selected)
    ensures q.isCorrect <==> (m.shouldBe.None? || m.shouldBe.value == m.selected)
    ensures q.isCorrect <==> q.selected == q.correct
  {
    var correct := if m.shouldBe.Some? then m.shouldBe.value else m.selected;
    QuestionResult(m.number, m.questionId, m.selected, correct, m.selected == correct)
  }

  /** The rows in extraction order, one per match. */
  function Rows(matches: seq<QuestionMatch>): seq<QuestionResult> {
    seq(|matches|, i requires 0 <= i < |matches| => ToResult(matches[i]))
  }

  predicate SortedByNumber(s: seq<QuestionResult>) {
    forall i, j :: 0 <= i < j < |s| ==> s[i].number <= s[j].number
  }

  /** The rows of `s` numbered `n`, in their order in `s`. */
  function WithNumber(s: seq<QuestionResult>, n: nat): seq<QuestionResult> {
    if s == [] then []
    else (if s[0].number == n then [s[0]] else []) + WithNumber(s[1..], n)
  }

  /** Inserts `x` before the first row whose number is at least its own. */
  function InsertByNumber(x: QuestionResult, s: seq<QuestionResult>): seq<QuestionResult> {
    if s == [] then [x]
    else if x.number <= s[0].number then [x] + s
    else [s[0]] + InsertByNumber(x, s[1..])
  }

  /** The stable sort by number that `list.sort(key=number)` performs. */
  function SortByNumber(s: seq<QuestionResult>): seq<QuestionResult> {
    if s == [] then [] else InsertByNumber(s[0], SortByNumber(s[1..]))
  }

  lemma {:induction false} InsertByNumberElements(x: QuestionResult, s: seq<QuestionResult>)
    ensures multiset(InsertByNumber(x, s)) == multiset(s) + multiset{x}
  {
    if s != [] && x.number > s[0].number {
      InsertByNumberElements(x, s[1..]);
      assert s == [s[0]] + s[1..];
    }
  }

  lemma {:induction false} InsertByNumberSorted(x: QuestionResult, s: seq<QuestionResult>)
    requires SortedByNumber(s)
    ensures SortedByNumber(InsertByNumber(x, s))
  {
    if s == [] {
    } else if x.number <= s[0].number {
      PrependSorted(x, s);
    } else {
      var t := InsertByNumber(x, s[1..]);
      InsertByNumberSorted(x, s[1..]);
      InsertByNumberElements(x, s[1..]);
      forall e | e in t ensures s[0].number <= e.number {
        assert e in multiset(t);
        if e != x {
          assert e in multiset(s[1..]);
          var j :| 0 <= j < |s[1..]| && s[1..][j] == e;
          assert s[j + 1] == e;
        }
      }
      PrependSorted(s[0], t);
    }
  }

  /** A row numbered no higher than any row of a sorted list can go in front. */
  lemma PrependSorted(x: QuestionResult, t: seq<QuestionResult>)
    requires SortedByNumber(t)
    requires forall e :: e in t ==> x.number <= e.number
    ensures SortedByNumber([x] + t)
  {
    forall i, j | 0 <= i < j < |[x] + t| ensures ([x] + t)[i].number <= ([x] + t)[j].number {
      assert ([x] + t)[j] == t[j - 1] && t[j - 1] in t;
      if i > 0 {
        assert ([x] + t)[i] == t[i - 1];
      }
    }
  }

  lemma {:induction false} InsertByNumberWithNumber(x: QuestionResult, s: seq<QuestionResult>, n: nat)
    requires SortedByNumber(s)
    ensures WithNumber(InsertByNumber(x, s), n) ==
            if x.number == n then [x] + WithNumber(s, n) else WithNumber(s, n)
  {
    if s == [] {
    } else if x.number <= s[0].number {
      assert ([x] + s)[1..] == s;
    } else {
      var t := InsertByNumber(x, s[1..]);
      InsertByNumberWithNumber(x, s[1..], n);
      assert ([s[0]] + t)[1..] == t;
    }
  }

  /** The sort returns a permutation of its input, ordered by number, and keeps the
      rows that share a number in their original order. */
  lemma SortByNumberSpec(s: seq<QuestionResult>)
    ensures multiset(SortByNumber(s)) == multiset(s)
    ensures SortedByNumber(SortByNumber(s))
    ensures forall n :: WithNumber(SortByNumber(s), n) == WithNumber(s, n)
  {
    SortByNumberElements(s);
    SortByNumberSorted(s);
    SortByNumberStable(s);
  }

  lemma {:induction false} SortByNumberElements(s: seq<QuestionResult>)
    ensures multiset(SortByNumber(s)) == multiset(s)
  {
    if s != [] {
      SortByNumberElements(s[1..]);
      InsertByNumberElements(s[0], SortByNumber(s[1..]));
      assert s == [s[0]] + s[1..];
    }
  }

  lemma {:induction false} SortByNumberSorted(s: seq<QuestionResult>)
    ensures SortedByNumber(SortByNumber(s))
  {
    if s != [] {
      SortByNumberSorted(s[1..]);
      InsertByNumberSorted(s[0], SortByNumber(s[1..]));
    }
  }

  lemma {:induction false} SortByNumberStable(s: seq<QuestionResult>)
    ensures forall n :: WithNumber(SortByNumber(s), n) == WithNumber(s, n)
  {
    if s != [] {
      var t := SortByNumber(s[1..]);
      SortByNumberStable(s[1..]);
      SortByNumberSorted(s[1..]);
      forall n ensures WithNumber(SortByNumber(s), n) == WithNumber(s, n) {
        InsertByNumberWithNumber(s[0], t, n);
      }
    }
  }

  /** `parse_questions`: one row per match, sorted by number, stably. */
  method ParseQuestions(matches: seq<QuestionMatch>) returns (results: seq<QuestionResult>)
    ensures results == SortByNumber(Rows(matches))
    ensures |results| == |matches| && multiset(results) == multiset(Rows(matches))
    ensures SortedByNumber(results)
    ensures forall n :: WithNumber(results, n) == WithNumber(Rows(matches), n)
    ensures forall q :: q in results ==> (q.isCorrect <==> q.selected == q.correct)
  {
    results := [];
    for i := 0 to |matches|
      invariant results == Rows(matches[..i])
    {
      results := results + [ToResult(matches[i])];
    }
    assert matches[..|matches|] == matches;
    var rows := results;
    SortByNumberSpec(rows);
    results := SortByNumber(rows);
    assert |multiset(results)| == |multiset(rows)|;
    forall q | q in results ensures q.isCorrect <==> q.selected == q.correct {
      assert q in multiset(rows);
      var i :| 0 <= i < |rows| && rows[i] == q;
    }
  }
}
