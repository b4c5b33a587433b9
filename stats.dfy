/** Grouped correctness statistics (`parse_question_id_parts`, `compute_group_stats`,
    `compute_question_stats`, `compute_section_stats`, `compute_subsection_stats`):
    flattened rows are tallied per key, in order of the key's first appearance, and
    the tallies are sorted by accuracy ascending, then attempts descending, then key. */
module Stats {
  import opened Text
  import opened Flatten

  /** The three leading parts of a question id such as `T3A04`: pool `T`, section
      `3`, subsection `A`; all empty when the id does not have that shape. */
  datatype IdParts = IdParts(pool: string, section: string, subsection: string)

  predicate IsUpper(c: char) { 'A' <= c <= 'Z' }

  predicate IsDigit(c: char) { '0' <= c <= '9' }

  /** The id pattern, anchored at the start: capital letter, digit, capital letter,
      two digits, then the end of the string or a newline that ends it. */
  predicate IsQuestionId(id: string) {
    && (|id| == 5 || (|id| == 6 && id[5] == '\n'))
    && IsUpper(id[0]) && IsDigit(id[1]) && IsUpper(id[2]) && IsDigit(id[3]) && IsDigit(id[4])
  }

  /** `parse_question_id_parts`: the parts are non-empty exactly for a well-formed
      id, and then they are its first three characters, one each. */
  function ParseQuestionIdParts(id: string): (p: IdParts)
    ensures IsQuestionId(id) <==> p.pool != ""
    ensures IsQuestionId(id) ==>
              |p.pool| == 1 && |p.section| == 1 && |p.subsection| == 1 &&
              p.pool + p.section + p.subsection == id[..3]
    ensures !IsQuestionId(id) ==> p == IdParts("", "", "")
  {
    if IsQuestionId(id) then IdParts([id[0]], [id[1]], [id[2]]) else IdParts("", "", "")
  }

  /** The section key (`T3`), "" unless pool and section are both present. */
  function SectionKey(p: IdParts): (key: string)
    ensures key != "" <==> p.pool != "" && p.section != ""
    ensures key != "" ==> key == p.pool + p.section
  {
    if p.pool != "" && p.section != "" then p.pool + p.section else ""
  }

  /** The subsection key (`T3A`), "" unless all three parts are present. */
  function SubsectionKey(p: IdParts): (key: string)
    ensures key != "" <==> p.pool != "" && p.section != "" && p.subsection != ""
    ensures key != "" ==> key == p.pool + p.section + p.subsection
  {
    if p.pool != "" && p.section != "" && p.subsection != "" then p.pool + p.section + p.subsection else ""
  }

  /** A grouping computed from the parts of the question id. */
  function PartsKey(makeKey: IdParts -> string): string -> string {
    id => makeKey(ParseQuestionIdParts(id))
  }

  /** Per-question grouping: the id itself is the key. */
  function QuestionKey(): string -> string {
    id => id
  }

  /** The key a row is counted under; "" means the row is skipped (an empty
      question id, or an id the grouping gives no key). */
  function RowKey(row: FlatRow, keyOf: string -> string): string {
    var id := row.question.questionId;
    if id == "" then "" else keyOf(id)
  }

  /** Section and subsection groupings skip exactly the rows whose id is malformed,
      and group the others under the id's first two or three characters. */
  lemma PartsKeys(row: FlatRow)
    ensures RowKey(row, PartsKey(SectionKey)) != "" <==> IsQuestionId(row.question.questionId)
    ensures RowKey(row, PartsKey(SubsectionKey)) != "" <==> IsQuestionId(row.question.questionId)
    ensures IsQuestionId(row.question.questionId) ==>
              && RowKey(row, PartsKey(SectionKey)) == row.question.questionId[..2]
              && RowKey(row, PartsKey(SubsectionKey)) == row.question.questionId[..3]
  {
    var id := row.question.questionId;
    assert PartsKey(SectionKey)(id) == SectionKey(ParseQuestionIdParts(id));
    assert PartsKey(SubsectionKey)(id) == SubsectionKey(ParseQuestionIdParts(id));
    if IsQuestionId(id) {
      assert [id[0]] + [id[1]] == id[..2];
      assert [id[0]] + [id[1]] + [id[2]] == id[..3];
    }
  }

  /** The per-question grouping skips exactly the rows with an empty id. */
  lemma QuestionKeys(row: FlatRow)
    ensures RowKey(row, QuestionKey()) == row.question.questionId
  {
  }

  datatype Tally = Tally(attempts: nat, correct: nat, incorrect: nat)

  /** One more attempt, counted as correct or incorrect. */
  function Count(t: Tally, isCorrect: bool): (u: Tally)
    ensures u.attempts == t.attempts + 1
    ensures u.correct + u.incorrect == t.correct + t.incorrect + 1
  {
    if isCorrect then Tally(t.attempts + 1, t.correct + 1, t.incorrect)
    else Tally(t.attempts + 1, t.correct, t.incorrect + 1)
  }

  /** The tally of `key` over the rows, scanned left to right. */
  function TallyOf(rows: seq<FlatRow>, keyOf: string -> string, key: string): (t: Tally)
    ensures t.attempts == t.correct + t.incorrect
    ensures t.attempts <= |rows|
  {
    if rows == [] then Tally(0, 0, 0)
    else
      var t := TallyOf(rows[..|rows| - 1], keyOf, key);
      var row := rows[|rows| - 1];
      if RowKey(row, keyOf) == key then Count(t, row.question.isCorrect) else t
  }

  /** A key no row carries has an empty tally. */
  lemma {:induction false} TallyOfAbsent(rows: seq<FlatRow>, keyOf: string -> string, key: string)
    requires forall r :: 0 <= r < |rows| ==> RowKey(rows[r], keyOf) != key
    ensures TallyOf(rows, keyOf, key) == Tally(0, 0, 0)
  {
    if rows != [] {
      TallyOfAbsent(rows[..|rows| - 1], keyOf, key);
    }
  }

  /** Tallies add up over concatenated rows. */
  lemma {:induction false} TallyOfAppend(a: seq<FlatRow>, b: seq<FlatRow>, keyOf: string -> string, key: string)
    ensures TallyOf(a + b, keyOf, key).attempts == TallyOf(a, keyOf, key).attempts + TallyOf(b, keyOf, key).attempts
    ensures TallyOf(a + b, keyOf, key).correct == TallyOf(a, keyOf, key).correct + TallyOf(b, keyOf, key).correct
  {
    if b != [] {
      var init := b[..|b| - 1];
      TallyOfAppend(a, init, keyOf, key);
      assert (a + b)[..|a + b| - 1] == a + init;
    } else {
      assert a + b == a;
    }
  }

  /** The keys in order of first appearance, as the dictionary's insertion order
      keeps them. */
  function KeysInOrder(rows: seq<FlatRow>, keyOf: string -> string): seq<string> {
    if rows == [] then []
    else
      var keys := KeysInOrder(rows[..|rows| - 1], keyOf);
      var key := RowKey(rows[|rows| - 1], keyOf);
      if key == "" || key in keys then keys else keys + [key]
  }

  /** Each key is listed once, and the listed keys are exactly the non-empty keys
      of the rows. */
  lemma {:induction false} KeysInOrderSpec(rows: seq<FlatRow>, keyOf: string -> string)
    ensures forall i, j :: 0 <= i < j < |KeysInOrder(rows, keyOf)| ==>
              KeysInOrder(rows, keyOf)[i] != KeysInOrder(rows, keyOf)[j]
    ensures forall k :: k in KeysInOrder(rows, keyOf) <==>
              k != "" && exists r :: 0 <= r < |rows| && RowKey(rows[r], keyOf) == k
  {
    if rows != [] {
      var init := rows[..|rows| - 1];
      KeysInOrderSpec(init, keyOf);
      forall k | k in KeysInOrder(rows, keyOf)
        ensures exists r :: 0 <= r < |rows| && RowKey(rows[r], keyOf) == k
      {
        if k in KeysInOrder(init, keyOf) {
          var r :| 0 <= r < |init| && RowKey(init[r], keyOf) == k;
          assert rows[r] == init[r];
        } else {
          assert RowKey(rows[|rows| - 1], keyOf) == k;
        }
      }
      forall k | k != "" && exists r :: 0 <= r < |rows| && RowKey(rows[r], keyOf) == k
        ensures k in KeysInOrder(rows, keyOf)
      {
        var r :| 0 <= r < |rows| && RowKey(rows[r], keyOf) == k;
        if r < |init| {
          assert init[r] == rows[r];
        }
      }
    }
  }

  /** Scanning a prefix of the rows lists a prefix of the keys: keys appear in the
      order their first rows do. */
  lemma {:induction false} KeysInOrderScan(rows: seq<FlatRow>, keyOf: string -> string, n: nat)
    requires n <= |rows|
    ensures KeysInOrder(rows[..n], keyOf) <= KeysInOrder(rows, keyOf)
  {
    if n < |rows| {
      var init := rows[..|rows| - 1];
      KeysInOrderScan(init, keyOf, n);
      assert init[..n] == rows[..n];
    } else {
      assert rows[..n] == rows;
    }
  }

  /** The rows that are counted at all, and how many of them are correct. */
  function UsableCount(rows: seq<FlatRow>, keyOf: string -> string): nat {
    if rows == [] then 0
    else UsableCount(rows[..|rows| - 1], keyOf) + (if RowKey(rows[|rows| - 1], keyOf) != "" then 1 else 0)
  }

  function UsableCorrect(rows: seq<FlatRow>, keyOf: string -> string): nat {
    if rows == [] then 0
    else
      var row := rows[|rows| - 1];
      UsableCorrect(rows[..|rows| - 1], keyOf) + (if RowKey(row, keyOf) != "" && row.question.isCorrect then 1 else 0)
  }

  /** The rows whose question id is well formed. */
  function ValidIdCount(rows: seq<FlatRow>): nat {
    if rows == [] then 0
    else ValidIdCount(rows[..|rows| - 1]) + (if IsQuestionId(rows[|rows| - 1].question.questionId) then 1 else 0)
  }

  /** The rows whose question id is not empty. */
  function NonEmptyIdCount(rows: seq<FlatRow>): nat {
    if rows == [] then 0
    else NonEmptyIdCount(rows[..|rows| - 1]) + (if rows[|rows| - 1].question.questionId != "" then 1 else 0)
  }

  lemma {:induction false} UsableValidIds(rows: seq<FlatRow>)
    ensures UsableCount(rows, PartsKey(SectionKey)) == ValidIdCount(rows)
    ensures UsableCount(rows, PartsKey(SubsectionKey)) == ValidIdCount(rows)
    ensures UsableCount(rows, QuestionKey()) == NonEmptyIdCount(rows)
  {
    if rows != [] {
      UsableValidIds(rows[..|rows| - 1]);
      PartsKeys(rows[|rows| - 1]);
    }
  }

  /** One line of a statistics table. */
  datatype GroupStats = GroupStats(key: string, attempts: nat, correct: nat, incorrect: nat, accuracy: real)

  /** The fraction correct, 0 for no attempts. */
  function Accuracy(correct: nat, attempts: nat): (a: real)
    ensures 0.0 <= a
    ensures correct <= attempts ==> a <= 1.0
    ensures attempts > 0 ==> a * attempts as real == correct as real
  {
    if attempts == 0 then 0.0 else correct as real / attempts as real
  }

  function StatsRow(key: string, t: Tally): GroupStats {
    GroupStats(key, t.attempts, t.correct, t.incorrect, Accuracy(t.correct, t.attempts))
  }

  /** The statistics lines for `keys`, in that order, before sorting. */
  function Unsorted(keys: seq<string>, rows: seq<FlatRow>, keyOf: string -> string): (s: seq<GroupStats>)
    ensures |s| == |keys|
    ensures forall m :: 0 <= m < |keys| ==> s[m] == StatsRow(keys[m], TallyOf(rows, keyOf, keys[m]))
  {
    if keys == [] then [] else [StatsRow(keys[0], TallyOf(rows, keyOf, keys[0]))] + Unsorted(keys[1..], rows, keyOf)
  }

  /** The sort order: accuracy ascending, then attempts descending, then key. */
  predicate Before(a: GroupStats, b: GroupStats) {
    || a.accuracy < b.accuracy
    || (a.accuracy == b.accuracy && a.attempts > b.attempts)
    || (a.accuracy == b.accuracy && a.attempts == b.attempts && Less(a.key, b.key))
  }

  lemma BeforeIrreflexive(a: GroupStats)
    ensures !Before(a, a)
  {
    LessIrreflexive(a.key);
  }

  lemma BeforeTransitive(a: GroupStats, b: GroupStats, c: GroupStats)
    requires Before(a, b) && Before(b, c)
    ensures Before(a, c)
  {
    if a.accuracy == b.accuracy == c.accuracy && a.attempts == b.attempts == c.attempts {
      LessTransitive(a.key, b.key, c.key);
    }
  }

  lemma BeforeTotal(a: GroupStats, b: GroupStats)
    requires a.key != b.key
    ensures Before(a, b) || Before(b, a)
  {
    LessTotal(a.key, b.key);
  }

  predicate DistinctKeys(s: seq<GroupStats>) {
    forall i, j :: 0 <= i < j < |s| ==> s[i].key != s[j].key
  }

  predicate StrictlyOrdered(s: seq<GroupStats>) {
    forall i, j :: 0 <= i < j < |s| ==> Before(s[i], s[j])
  }

  /** Stable insertion of `x` ahead of every line it does not follow. */
  function InsertStats(x: GroupStats, s: seq<GroupStats>): seq<GroupStats> {
    if s == [] || !Before(s[0], x) then [x] + s
    else [s[0]] + InsertStats(x, s[1..])
  }

  /** The stable sort `list.sort` performs with the sort key above. */
  function SortStats(s: seq<GroupStats>): seq<GroupStats> {
    if s == [] then [] else InsertStats(s[0], SortStats(s[1..]))
  }

  function SumAttempts(s: seq<GroupStats>): nat {
    if s == [] then 0 else s[0].attempts + SumAttempts(s[1..])
  }

  function SumCorrectStats(s: seq<GroupStats>): nat {
    if s == [] then 0 else s[0].correct + SumCorrectStats(s[1..])
  }

  lemma {:induction false} InsertStatsElements(x: GroupStats, s: seq<GroupStats>)
    ensures multiset(InsertStats(x, s)) == multiset(s) + multiset{x}
  {
    if s != [] && Before(s[0], x) {
      InsertStatsElements(x, s[1..]);
      assert s == [s[0]] + s[1..];
    }
  }

  lemma {:induction false} InsertStatsSums(x: GroupStats, s: seq<GroupStats>)
    ensures SumAttempts(InsertStats(x, s)) == x.attempts + SumAttempts(s)
    ensures SumCorrectStats(InsertStats(x, s)) == x.correct + SumCorrectStats(s)
  {
    if s != [] && Before(s[0], x) {
      InsertStatsSums(x, s[1..]);
    }
  }

  lemma {:induction false} InsertStatsOrdered(x: GroupStats, s: seq<GroupStats>)
    requires StrictlyOrdered(s)
    requires forall e :: e in s ==> e.key != x.key
    ensures StrictlyOrdered(InsertStats(x, s))
  {
    if s == [] {
    } else if !Before(s[0], x) {
      InsertAhead(x, s);
    } else {
      InsertStatsOrdered(x, s[1..]);
      InsertBehind(x, s);
    }
  }

  /** `x` placed ahead of a line it does not follow precedes every line. */
  lemma InsertAhead(x: GroupStats, s: seq<GroupStats>)
    requires StrictlyOrdered(s) && s != [] && !Before(s[0], x) && s[0].key != x.key
    ensures StrictlyOrdered([x] + s)
  {
    BeforeTotal(x, s[0]);
    forall e | e in s ensures Before(x, e) {
      var j :| 0 <= j < |s| && s[j] == e;
      if j > 0 {
        BeforeTransitive(x, s[0], s[j]);
      }
    }
    PrependOrdered(x, s);
  }

  /** The first line stays first when `x` follows it. */
  lemma InsertBehind(x: GroupStats, s: seq<GroupStats>)
    requires StrictlyOrdered(s) && s != [] && Before(s[0], x)
    requires StrictlyOrdered(InsertStats(x, s[1..]))
    ensures StrictlyOrdered([s[0]] + InsertStats(x, s[1..]))
  {
    var t := InsertStats(x, s[1..]);
    InsertStatsElements(x, s[1..]);
    forall e | e in t ensures Before(s[0], e) {
      assert e in multiset(t);
      if e != x {
        assert e in multiset(s[1..]);
        var j :| 0 <= j < |s[1..]| && s[1..][j] == e;
        assert s[j + 1] == e;
      }
    }
    PrependOrdered(s[0], t);
  }

  /** A line that precedes every line of an ordered table can go in front. */
  lemma PrependOrdered(x: GroupStats, t: seq<GroupStats>)
    requires StrictlyOrdered(t)
    requires forall e :: e in t ==> Before(x, e)
    ensures StrictlyOrdered([x] + t)
  {
    forall i, j | 0 <= i < j < |[x] + t| ensures Before(([x] + t)[i], ([x] + t)[j]) {
      assert ([x] + t)[j] == t[j - 1] && t[j - 1] in t;
      if i > 0 {
        assert ([x] + t)[i] == t[i - 1];
      }
    }
  }

  /** Sorting keeps the lines and their sums. */
  lemma SortStatsElements(s: seq<GroupStats>)
    ensures multiset(SortStats(s)) == multiset(s)
    ensures SumAttempts(SortStats(s)) == SumAttempts(s)
    ensures SumCorrectStats(SortStats(s)) == SumCorrectStats(s)
  {
    SortStatsPermutes(s);
    SortStatsSums(s);
  }

  lemma {:induction false} SortStatsPermutes(s: seq<GroupStats>)
    ensures multiset(SortStats(s)) == multiset(s)
  {
    if s != [] {
      SortStatsPermutes(s[1..]);
      InsertStatsElements(s[0], SortStats(s[1..]));
      assert s == [s[0]] + s[1..];
    }
  }

  lemma {:induction false} SortStatsSums(s: seq<GroupStats>)
    ensures SumAttempts(SortStats(s)) == SumAttempts(s)
    ensures SumCorrectStats(SortStats(s)) == SumCorrectStats(s)
  {
    if s != [] {
      SortStatsSums(s[1..]);
      InsertStatsSums(s[0], SortStats(s[1..]));
    }
  }

  /** Sorting lines with distinct keys puts them strictly in order. */
  lemma {:induction false} SortStatsOrdered(s: seq<GroupStats>)
    requires DistinctKeys(s)
    ensures StrictlyOrdered(SortStats(s))
  {
    if s != [] {
      var t := SortStats(s[1..]);
      SortStatsOrdered(s[1..]);
      SortStatsPermutes(s[1..]);
      OtherKeys(s[0], t, s[1..]);
      InsertStatsOrdered(s[0], t);
    }
  }

  /** A line whose key none of `rest` has shares no key with a permutation of `rest`. */
  lemma OtherKeys(x: GroupStats, t: seq<GroupStats>, rest: seq<GroupStats>)
    requires multiset(t) == multiset(rest)
    requires forall j :: 0 <= j < |rest| ==> rest[j].key != x.key
    ensures forall e :: e in t ==> e.key != x.key
  {
    forall e | e in t ensures e.key != x.key {
      assert e in multiset(rest);
      var j :| 0 <= j < |rest| && rest[j] == e;
    }
  }

  /** A strictly ordered permutation of lines with distinct keys has distinct keys. */
  lemma DistinctAfterSort(s: seq<GroupStats>, u: seq<GroupStats>)
    requires multiset(s) == multiset(u) && DistinctKeys(u) && StrictlyOrdered(s)
    ensures DistinctKeys(s)
  {
    forall i, j | 0 <= i < j < |s| ensures s[i].key != s[j].key {
      assert s[i] in multiset(u) && s[j] in multiset(u);
      var m1 :| 0 <= m1 < |u| && u[m1] == s[i];
      var m2 :| 0 <= m2 < |u| && u[m2] == s[j];
      BeforeIrreflexive(s[i]);
      assert s[i] != s[j];
      assert m1 != m2;
    }
  }

  /** What `compute_group_stats` and `compute_question_stats` return. */
  function StatsOf(rows: seq<FlatRow>, keyOf: string -> string): seq<GroupStats> {
    SortStats(Unsorted(KeysInOrder(rows, keyOf), rows, keyOf))
  }

  /** Adding one row to the tallies of distinct keys adds one attempt when its key is
      among them. */
  lemma {:induction false} UnsortedAddRow(keys: seq<string>, rows: seq<FlatRow>, row: FlatRow, keyOf: string -> string)
    requires forall i, j :: 0 <= i < j < |keys| ==> keys[i] != keys[j]
    ensures SumAttempts(Unsorted(keys, rows + [row], keyOf)) ==
              SumAttempts(Unsorted(keys, rows, keyOf)) + (if RowKey(row, keyOf) in keys then 1 else 0)
    ensures SumCorrectStats(Unsorted(keys, rows + [row], keyOf)) ==
              SumCorrectStats(Unsorted(keys, rows, keyOf)) +
              (if RowKey(row, keyOf) in keys && row.question.isCorrect then 1 else 0)
  {
    if keys != [] {
      UnsortedAddRow(keys[1..], rows, row, keyOf);
      assert (rows + [row])[..|rows + [row]| - 1] == rows;
      assert RowKey(row, keyOf) == keys[0] ==> RowKey(row, keyOf) !in keys[1..];
      assert RowKey(row, keyOf) in keys <==> RowKey(row, keyOf) == keys[0] || RowKey(row, keyOf) in keys[1..];
    }
  }

  lemma {:induction false} UnsortedAppendKey(keys: seq<string>, key: string, rows: seq<FlatRow>, keyOf: string -> string)
    ensures SumAttempts(Unsorted(keys + [key], rows, keyOf)) ==
              SumAttempts(Unsorted(keys, rows, keyOf)) + TallyOf(rows, keyOf, key).attempts
    ensures SumCorrectStats(Unsorted(keys + [key], rows, keyOf)) ==
              SumCorrectStats(Unsorted(keys, rows, keyOf)) + TallyOf(rows, keyOf, key).correct
  {
    if keys != [] {
      UnsortedAppendKey(keys[1..], key, rows, keyOf);
      assert (keys + [key])[1..] == keys[1..] + [key];
    }
  }

  /** The unsorted tallies account for every counted row once. */
  lemma {:induction false} UnsortedSums(rows: seq<FlatRow>, keyOf: string -> string)
    ensures SumAttempts(Unsorted(KeysInOrder(rows, keyOf), rows, keyOf)) == UsableCount(rows, keyOf)
    ensures SumCorrectStats(Unsorted(KeysInOrder(rows, keyOf), rows, keyOf)) == UsableCorrect(rows, keyOf)
  {
    if rows != [] {
      var init, row := rows[..|rows| - 1], rows[|rows| - 1];
      var keys := KeysInOrder(init, keyOf);
      var key := RowKey(row, keyOf);
      UnsortedSums(init, keyOf);
      KeysInOrderSpec(init, keyOf);
      assert rows == init + [row];
      UnsortedAddRow(keys, init, row, keyOf);
      if key != "" && key !in keys {
        UnsortedAppendKey(keys, key, rows, keyOf);
        TallyOfAbsent(init, keyOf, key);
        UnsortedAddRow(keys, init, row, keyOf);
      }
    }
  }

  /** The keys of the lines of a table, in table order. */
  function KeysOf(s: seq<GroupStats>): seq<string> {
    seq(|s|, i requires 0 <= i < |s| => s[i].key)
  }

  /** The statistics table: one line per non-empty key of the rows, each line the
      key's tally with its accuracy, strictly in sort order, and together the lines
      count every usable row once. */
  lemma StatsShape(rows: seq<FlatRow>, keyOf: string -> string)
    ensures StrictlyOrdered(StatsOf(rows, keyOf))
    ensures DistinctKeys(StatsOf(rows, keyOf))
    ensures forall i :: 0 <= i < |StatsOf(rows, keyOf)| ==>
              && StatsOf(rows, keyOf)[i] == StatsRow(StatsOf(rows, keyOf)[i].key, TallyOf(rows, keyOf, StatsOf(rows, keyOf)[i].key))
              && StatsOf(rows, keyOf)[i].attempts > 0
              && StatsOf(rows, keyOf)[i].attempts == StatsOf(rows, keyOf)[i].correct + StatsOf(rows, keyOf)[i].incorrect
    ensures forall k :: k in KeysOf(StatsOf(rows, keyOf)) <==>
              k != "" && exists r :: 0 <= r < |rows| && RowKey(rows[r], keyOf) == k
    ensures SumAttempts(StatsOf(rows, keyOf)) == UsableCount(rows, keyOf)
    ensures SumCorrectStats(StatsOf(rows, keyOf)) == UsableCorrect(rows, keyOf)
  {
    var keys := KeysInOrder(rows, keyOf);
    var u := Unsorted(keys, rows, keyOf);
    KeysInOrderSpec(rows, keyOf);
    assert DistinctKeys(u);
    SortStatsElements(u);
    SortStatsOrdered(u);
    UnsortedSums(rows, keyOf);
    StatsLines(rows, keyOf);
    StatsDistinct(rows, keyOf);
    StatsKeys(rows, keyOf);
  }

  /** Each line of the table is one of the unsorted lines, and back. */
  lemma StatsFromUnsorted(rows: seq<FlatRow>, keyOf: string -> string)
    ensures forall i :: 0 <= i < |StatsOf(rows, keyOf)| ==>
              StatsOf(rows, keyOf)[i] in Unsorted(KeysInOrder(rows, keyOf), rows, keyOf)
    ensures forall m :: 0 <= m < |KeysInOrder(rows, keyOf)| ==>
              Unsorted(KeysInOrder(rows, keyOf), rows, keyOf)[m] in StatsOf(rows, keyOf)
  {
    var u := Unsorted(KeysInOrder(rows, keyOf), rows, keyOf);
    KeysInOrderSpec(rows, keyOf);
    assert DistinctKeys(u);
    SortStatsElements(u);
    SortStatsOrdered(u);
    SameElements(StatsOf(rows, keyOf), u);
  }

  lemma SameElements(s: seq<GroupStats>, u: seq<GroupStats>)
    requires multiset(s) == multiset(u)
    ensures forall i :: 0 <= i < |s| ==> s[i] in u
    ensures forall m :: 0 <= m < |u| ==> u[m] in s
  {
    forall i | 0 <= i < |s| ensures s[i] in u {
      assert s[i] in multiset(u);
    }
    forall m | 0 <= m < |u| ensures u[m] in s {
      assert u[m] in multiset(s);
    }
  }

  lemma StatsLines(rows: seq<FlatRow>, keyOf: string -> string)
    ensures forall i :: 0 <= i < |StatsOf(rows, keyOf)| ==>
              && StatsOf(rows, keyOf)[i] == StatsRow(StatsOf(rows, keyOf)[i].key, TallyOf(rows, keyOf, StatsOf(rows, keyOf)[i].key))
              && StatsOf(rows, keyOf)[i].attempts > 0
  {
    var keys := KeysInOrder(rows, keyOf);
    var u := Unsorted(keys, rows, keyOf);
    var s := StatsOf(rows, keyOf);
    StatsFromUnsorted(rows, keyOf);
    KeysInOrderSpec(rows, keyOf);
    forall i | 0 <= i < |s|
      ensures s[i] == StatsRow(s[i].key, TallyOf(rows, keyOf, s[i].key)) && s[i].attempts > 0
    {
      var m :| 0 <= m < |keys| && s[i] == u[m];
      assert keys[m] in keys;
      var r :| 0 <= r < |rows| && RowKey(rows[r], keyOf) == keys[m];
      TallyPositive(rows, keyOf, r);
    }
  }

  lemma StatsDistinct(rows: seq<FlatRow>, keyOf: string -> string)
    ensures DistinctKeys(StatsOf(rows, keyOf))
  {
    var u := Unsorted(KeysInOrder(rows, keyOf), rows, keyOf);
    KeysInOrderSpec(rows, keyOf);
    assert DistinctKeys(u);
    SortStatsElements(u);
    SortStatsOrdered(u);
    DistinctAfterSort(StatsOf(rows, keyOf), u);
  }

  lemma StatsKeys(rows: seq<FlatRow>, keyOf: string -> string)
    ensures forall k :: k in KeysOf(StatsOf(rows, keyOf)) <==> k in KeysInOrder(rows, keyOf)
  {
    var keys := KeysInOrder(rows, keyOf);
    var u := Unsorted(keys, rows, keyOf);
    var s := StatsOf(rows, keyOf);
    StatsFromUnsorted(rows, keyOf);
    forall k | k in KeysOf(s) ensures k in keys {
      var i :| 0 <= i < |s| && KeysOf(s)[i] == k;
      var m :| 0 <= m < |keys| && s[i] == u[m];
    }
    forall k | k in keys ensures k in KeysOf(s) {
      var m :| 0 <= m < |keys| && keys[m] == k;
      var i :| 0 <= i < |s| && s[i] == u[m];
      assert KeysOf(s)[i] == k;
    }
  }

  /** A row counted under `key` gives that key a positive tally. */
  lemma {:induction false} TallyPositive(rows: seq<FlatRow>, keyOf: string -> string, r: nat)
    requires r < |rows|
    ensures TallyOf(rows, keyOf, RowKey(rows[r], keyOf)).attempts > 0
  {
    var init := rows[..|rows| - 1];
    if r < |init| {
      assert init[r] == rows[r];
      TallyPositive(init, keyOf, r);
    }
  }

  /** What one more row does to the keys and the tallies. */
  lemma ScanStep(rows: seq<FlatRow>, keyOf: string -> string, i: nat)
    requires i < |rows|
    ensures RowKey(rows[i], keyOf) == "" || RowKey(rows[i], keyOf) in KeysInOrder(rows[..i], keyOf) ==>
              KeysInOrder(rows[..i + 1], keyOf) == KeysInOrder(rows[..i], keyOf)
    ensures RowKey(rows[i], keyOf) != "" && RowKey(rows[i], keyOf) !in KeysInOrder(rows[..i], keyOf) ==>
              && KeysInOrder(rows[..i + 1], keyOf) == KeysInOrder(rows[..i], keyOf) + [RowKey(rows[i], keyOf)]
              && TallyOf(rows[..i], keyOf, RowKey(rows[i], keyOf)) == Tally(0, 0, 0)
    ensures forall k :: TallyOf(rows[..i + 1], keyOf, k) ==
              if k == RowKey(rows[i], keyOf) then Count(TallyOf(rows[..i], keyOf, k), rows[i].question.isCorrect)
              else TallyOf(rows[..i], keyOf, k)
  {
    assert rows[..i + 1][..i] == rows[..i];
    var key := RowKey(rows[i], keyOf);
    if key != "" && key !in KeysInOrder(rows[..i], keyOf) {
      KeysInOrderSpec(rows[..i], keyOf);
      TallyOfAbsent(rows[..i], keyOf, key);
    }
  }

  /** The first loop of `compute_group_stats` and `compute_question_stats`: the
      keys in order of first appearance, each with its tally. */
  method TallyByKey(rows: seq<FlatRow>, keyOf: string -> string) returns (order: seq<string>, byKey: map<string, Tally>)
    ensures order == KeysInOrder(rows, keyOf)
    ensures forall k :: k in byKey <==> k in order
    ensures forall k :: k in byKey ==> byKey[k] == TallyOf(rows, keyOf, k)
  {
    byKey := map[];
    order := [];
    for i := 0 to |rows|
      invariant order == KeysInOrder(rows[..i], keyOf)
      invariant forall k :: k in byKey <==> k in order
      invariant "" !in byKey
      invariant forall k :: k in byKey ==> byKey[k] == TallyOf(rows[..i], keyOf, k)
    {
      ScanStep(rows, keyOf, i);
      var questionId := rows[i].question.questionId;
      if questionId == "" {
        continue;
      }
      var key := keyOf(questionId);
      assert key == RowKey(rows[i], keyOf);
      if key == "" {
        continue;
      }
      var t := Tally(0, 0, 0);
      if key in byKey {
        t := byKey[key];
      } else {
        order := order + [key];
      }
      byKey := byKey[key := Count(t, rows[i].question.isCorrect)];
    }
    assert rows[..|rows|] == rows;
  }

  /** The shared body of `compute_group_stats` and `compute_question_stats`: tally,
      compute each key's accuracy, then sort. */
  method ComputeStats(rows: seq<FlatRow>, keyOf: string -> string) returns (stats: seq<GroupStats>)
    ensures stats == StatsOf(rows, keyOf)
  {
    var order, byKey := TallyByKey(rows, keyOf);
    var unsorted: seq<GroupStats> := [];
    for j := 0 to |order|
      invariant |unsorted| == j
      invariant forall m :: 0 <= m < j ==> unsorted[m] == StatsRow(order[m], TallyOf(rows, keyOf, order[m]))
    {
      var t := byKey[order[j]];
      unsorted := unsorted + [GroupStats(order[j], t.attempts, t.correct, t.incorrect, Accuracy(t.correct, t.attempts))];
    }
    assert unsorted == Unsorted(order, rows, keyOf);
    stats := SortStats(unsorted);
  }

  /** `key` is the first `n` characters of the well-formed id of some row. */
  predicate FromValidId(rows: seq<FlatRow>, key: string, n: nat)
    requires n <= 5
  {
    exists r :: 0 <= r < |rows| && IsQuestionId(rows[r].question.questionId) && key == rows[r].question.questionId[..n]
  }

  /** `compute_group_stats` for a grouping computed from the id's parts. */
  method ComputeGroupStats(rows: seq<FlatRow>, makeKey: IdParts -> string) returns (stats: seq<GroupStats>)
    ensures stats == StatsOf(rows, PartsKey(makeKey))
  {
    stats := ComputeStats(rows, PartsKey(makeKey));
  }

  /** `compute_question_stats`: one line per distinct non-empty question id; the
      attempts add up to the rows with a non-empty id. */
  method ComputeQuestionStats(rows: seq<FlatRow>) returns (stats: seq<GroupStats>)
    ensures stats == StatsOf(rows, QuestionKey())
    ensures SumAttempts(stats) == NonEmptyIdCount(rows)
    ensures StrictlyOrdered(stats)
  {
    stats := ComputeStats(rows, QuestionKey());
    StatsShape(rows, QuestionKey());
    UsableValidIds(rows);
  }

  /** `compute_section_stats`: rows with a malformed id are skipped, and every key
      is the first two characters of some well-formed id. */
  method ComputeSectionStats(rows: seq<FlatRow>) returns (stats: seq<GroupStats>)
    ensures stats == StatsOf(rows, PartsKey(SectionKey))
    ensures SumAttempts(stats) == ValidIdCount(rows)
    ensures StrictlyOrdered(stats)
    ensures forall i :: 0 <= i < |stats| ==> FromValidId(rows, stats[i].key, 2)
  {
    stats := ComputeGroupStats(rows, SectionKey);
    StatsShape(rows, PartsKey(SectionKey));
    UsableValidIds(rows);
    forall i | 0 <= i < |stats| ensures FromValidId(rows, stats[i].key, 2) {
      assert KeysOf(stats)[i] in KeysOf(stats);
      var r :| 0 <= r < |rows| && RowKey(rows[r], PartsKey(SectionKey)) == stats[i].key;
      PartsKeys(rows[r]);
    }
  }

  /** `compute_subsection_stats`: as for sections, with the first three characters. */
  method ComputeSubsectionStats(rows: seq<FlatRow>) returns (stats: seq<GroupStats>)
    ensures stats == StatsOf(rows, PartsKey(SubsectionKey))
    ensures SumAttempts(stats) == ValidIdCount(rows)
    ensures StrictlyOrdered(stats)
    ensures forall i :: 0 <= i < |stats| ==> FromValidId(rows, stats[i].key, 3)
  {
    stats := ComputeGroupStats(rows, SubsectionKey);
    StatsShape(rows, PartsKey(SubsectionKey));
    UsableValidIds(rows);
    forall i | 0 <= i < |stats| ensures FromValidId(rows, stats[i].key, 3) {
      assert KeysOf(stats)[i] in KeysOf(stats);
      var r :| 0 <= r < |rows| && RowKey(rows[r], PartsKey(SubsectionKey)) == stats[i].key;
      PartsKeys(rows[r]);
    }
  }
}
