/**
 * The feedback store (`FeedbackRepository`): the `feedback` table held as a
 * sequence of rows in table order, with create, lookup, newest-first listing,
 * statistics and delete. A commit that fails is modelled by a `fault`
 * parameter; the rollback that follows leaves the rows as they were.
 */
module Repository {
  import opened Wrappers
  import opened FeedbackTable

  const DEFAULT_LIMIT: nat := 100

  /** What a failed commit re-raises: a NOT NULL constraint naming its column,
      or any other storage fault with its message. */
  datatype DbError = NotNullViolation(column: string) | StorageFault(message: string)

  /** The dictionary `get_feedback_stats` returns (before rounding). */
  datatype Stats = Stats(totalFeedback: nat, correctPredictions: nat, incorrectPredictions: nat, accuracy: real)

  /** Rows are kept in table order. In the default SQLite table the integer
      primary key is the rowid, so ids are unique and increase in that order. */
  predicate IdsIncreasing(rows: seq<Feedback>) {
    forall i, j :: 0 <= i < j < |rows| ==> rows[i].id < rows[j].id
  }

  /** The rowid SQLite gives a new row: one more than the largest id, or 1 in
      an empty table. */
  function NextId(rows: seq<Feedback>): (id: nat)
    requires IdsIncreasing(rows)
    ensures id >= 1
    ensures forall i :: 0 <= i < |rows| ==> rows[i].id < id
  {
    if rows == [] then 1 else rows[|rows| - 1].id + 1
  }

  /** The first NOT NULL column, in declaration order, left without a value. */
  function FirstNullColumn(text: Option<string>, predictedSentiment: Option<string>,
                           predictedConfidence: Option<real>, isCorrect: Option<bool>): (r: Option<string>)
    ensures r == None <==>
      text.Some? && predictedSentiment.Some? && predictedConfidence.Some? && isCorrect.Some?
    ensures text == None ==> r == Some("text")
    ensures text.Some? && predictedSentiment == None ==> r == Some("predicted_sentiment")
    ensures text.Some? && predictedSentiment.Some? && predictedConfidence == None ==>
              r == Some("predicted_confidence")
    ensures text.Some? && predictedSentiment.Some? && predictedConfidence.Some? && isCorrect == None ==>
              r == Some("is_correct")
    ensures r.Some? ==> r.value in {"text", "predicted_sentiment", "predicted_confidence", "is_correct"}
  {
    if text == None then Some("text")
    else if predictedSentiment == None then Some("predicted_sentiment")
    else if predictedConfidence == None then Some("predicted_confidence")
    else if isCorrect == None then Some("is_correct")
    else None
  }

  /** Primary-key lookup. */
  function Find(rows: seq<Feedback>, id: int): (r: Option<Feedback>)
    ensures r.Some? ==> r.value in rows && r.value.id == id
    ensures r == None <==> forall i :: 0 <= i < |rows| ==> rows[i].id != id
  {
    if rows == [] then None
    else if rows[0].id == id then Some(rows[0])
    else Find(rows[1..], id)
  }

  /** The rows without the one that has `id`; the others keep their order. */
  function Remove(rows: seq<Feedback>, id: int): (r: seq<Feedback>)
    ensures forall f :: f in r <==> f in rows && f.id != id
    ensures |r| <= |rows|
    ensures Find(rows, id) == None ==> r == rows
  {
    if rows == [] then []
    else if rows[0].id == id then Remove(rows[1..], id)
    else [rows[0]] + Remove(rows[1..], id)
  }

  /** Removing from a table keeps the ids increasing, and with unique ids
      removes exactly one row when the id is present. */
  lemma {:induction false} RemoveKeepsTable(rows: seq<Feedback>, id: int)
    requires IdsIncreasing(rows)
    ensures IdsIncreasing(Remove(rows, id))
    ensures Find(rows, id).Some? ==> |Remove(rows, id)| == |rows| - 1
  {
    if rows != [] {
      var tail := rows[1..];
      assert IdsIncreasing(tail);
      RemoveKeepsTable(tail, id);
      var rest := Remove(tail, id);
      if rows[0].id == id {
        assert Find(tail, id) == None;
      } else {
        forall k | 0 <= k < |rest| ensures rows[0].id < rest[k].id {
          assert rest[k] in rest;
          assert rest[k] in tail;
        }
      }
    }
  }

  /** Number of rows whose `is_correct` equals `value`. */
  function CountCorrect(rows: seq<Feedback>, value: bool): (n: nat)
    ensures n <= |rows|
  {
    if rows == [] then 0
    else (if rows[0].isCorrect == value then 1 else 0) + CountCorrect(rows[1..], value)
  }

  /** The count is zero exactly when no row carries the judgement, and the
      whole table exactly when every row does. */
  lemma {:induction false} CountExtremes(rows: seq<Feedback>, value: bool)
    ensures CountCorrect(rows, value) == 0 <==> forall i :: 0 <= i < |rows| ==> rows[i].isCorrect != value
    ensures CountCorrect(rows, value) == |rows| <==> forall i :: 0 <= i < |rows| ==> rows[i].isCorrect == value
  {
    if rows != [] {
      CountExtremes(rows[1..], value);
      assert forall i :: 1 <= i < |rows| ==> rows[i] == rows[1..][i - 1];
    }
  }

  /** `is_correct` is never NULL, so every row is counted as correct or as
      incorrect and none as both. */
  lemma {:induction false} CountsPartition(rows: seq<Feedback>)
    ensures CountCorrect(rows, true) + CountCorrect(rows, false) == |rows|
  {
    if rows != [] {
      CountsPartition(rows[1..]);
    }
  }

  /** Counting over a table with one more row. */
  lemma {:induction false} CountAppend(rows: seq<Feedback>, f: Feedback, value: bool)
    ensures CountCorrect(rows + [f], value) == CountCorrect(rows, value) + (if f.isCorrect == value then 1 else 0)
  {
    if rows != [] {
      assert (rows + [f])[1..] == rows[1..] + [f];
      CountAppend(rows[1..], f, value);
    }
  }

  /** `correct / total * 100`, or 0 for an empty table. */
  function Accuracy(correct: nat, total: nat): (a: real)
    requires correct <= total
    ensures 0.0 <= a <= 100.0
    ensures total == 0 ==> a == 0.0
    ensures total > 0 ==> a * (total as real) == (correct as real) * 100.0
  {
    if total > 0 then
      var q := (correct as real) / (total as real);
      assert q * (total as real) == correct as real;
      assert q <= 1.0 by {
        if q > 1.0 {
          assert q * (total as real) > 1.0 * (total as real);
        }
      }
      q * 100.0
    else 0.0
  }

  /** `ORDER BY created_at DESC`: no row is newer than one before it. */
  predicate NewestFirst(s: seq<Feedback>) {
    forall i, j :: 0 <= i < j < |s| ==> s[j].createdAt <= s[i].createdAt
  }

  function InsertByDate(x: Feedback, s: seq<Feedback>): (r: seq<Feedback>)
    requires NewestFirst(s)
    ensures NewestFirst(r)
    ensures multiset(r) == multiset(s) + multiset{x}
  {
    if s == [] then [x]
    else if s[0].createdAt <= x.createdAt then [x] + s
    else
      var rest := InsertByDate(x, s[1..]);
      assert s == [s[0]] + s[1..];
      assert forall k :: 0 <= k < |rest| ==> rest[k].createdAt <= s[0].createdAt by {
        forall k | 0 <= k < |rest| ensures rest[k].createdAt <= s[0].createdAt {
          assert rest[k] in multiset(rest);
          assert rest[k] == x || rest[k] in s[1..];
        }
      }
      [s[0]] + rest
  }

  /** The rows sorted newest first (ties in table order). */
  function SortNewestFirst(s: seq<Feedback>): (r: seq<Feedback>)
    ensures NewestFirst(r)
    ensures multiset(r) == multiset(s)
  {
    if s == [] then []
    else
      assert s == [s[0]] + s[1..];
      InsertByDate(s[0], SortNewestFirst(s[1..]))
  }

  /** Cutting a newest-first sequence after `n` rows: the prefix is drawn from
      the rows, still newest first, and nothing cut off is newer than anything
      kept. */
  lemma NewestPrefix(s: seq<Feedback>, n: nat)
    requires NewestFirst(s) && n <= |s|
    ensures NewestFirst(s[..n])
    ensures multiset(s[..n]) <= multiset(s)
    ensures forall x, y :: x in multiset(s) - multiset(s[..n]) && y in s[..n] ==> x.createdAt <= y.createdAt
  {
    PrefixDrawn(s, n);
    forall x, y | x in multiset(s) - multiset(s[..n]) && y in s[..n]
      ensures x.createdAt <= y.createdAt
    {
      DroppedNotNewer(s, n, x, y);
    }
  }

  lemma PrefixDrawn(s: seq<Feedback>, n: nat)
    requires n <= |s|
    ensures multiset(s) == multiset(s[..n]) + multiset(s[n..])
  {
    assert s == s[..n] + s[n..];
  }

  lemma DroppedNotNewer(s: seq<Feedback>, n: nat, x: Feedback, y: Feedback)
    requires NewestFirst(s) && n <= |s|
    requires x in multiset(s) - multiset(s[..n]) && y in s[..n]
    ensures x.createdAt <= y.createdAt
  {
    PrefixDrawn(s, n);
    assert x in multiset(s[n..]);
    var j :| n <= j < |s| && s[j] == x;
    var i :| 0 <= i < n && s[i] == y;
    assert s[j].createdAt <= s[i].createdAt;
  }

  class FeedbackRepository {
    var rows: seq<Feedback>

    ghost predicate Valid()
      reads this
    {
      IdsIncreasing(rows)
    }

    /** An empty `feedback` table. */
    constructor ()
      ensures Valid() && rows == []
    {
      rows := [];
    }

    /** `create_feedback`: on a successful commit exactly one row is added,
        carrying the given values, a fresh id and the creation time `now`;
        a NULL in a required column or a storage fault rolls back, leaving the
        rows unchanged, and re-raises. */
    method CreateFeedback(text: Option<string>, predictedSentiment: Option<string>,
                          predictedConfidence: Option<real>, isCorrect: Option<bool>,
                          correctLabel: Option<string>, userComment: Option<string>,
                          now: Timestamp, fault: Option<string>)
      returns (r: Result<Feedback, DbError>)
      requires Valid()
      modifies this
      ensures Valid()
      ensures r.Success? <==> FirstNullColumn(text, predictedSentiment, predictedConfidence, isCorrect) == None && fault == None
      ensures r.Failure? ==> rows == old(rows)
      ensures FirstNullColumn(text, predictedSentiment, predictedConfidence, isCorrect).Some? ==>
                r == Failure(NotNullViolation(FirstNullColumn(text, predictedSentiment, predictedConfidence, isCorrect).value))
      ensures FirstNullColumn(text, predictedSentiment, predictedConfidence, isCorrect) == None && fault.Some? ==>
                r == Failure(StorageFault(fault.value))
      ensures r.Success? ==>
                && rows == old(rows) + [r.value]
                && r.value == Feedback(NextId(old(rows)), text.value, predictedSentiment.value,
                                       predictedConfidence.value, isCorrect.value, correctLabel, userComment, now)
                && Find(old(rows), r.value.id) == None
    {
      var missing := FirstNullColumn(text, predictedSentiment, predictedConfidence, isCorrect);
      if missing.Some? {
        return Failure(NotNullViolation(missing.value));
      }
      if fault.Some? {
        return Failure(StorageFault(fault.value));
      }
      var f := Feedback(NextId(rows), text.value, predictedSentiment.value, predictedConfidence.value,
                        isCorrect.value, correctLabel, userComment, now);
      rows := rows + [f];
      r := Success(f);
    }

    /** `get_all_feedback(limit)`: at most `limit` rows, newest first, and no
        row left out is newer than a row returned. */
    function GetAllFeedback(limit: nat := DEFAULT_LIMIT): (r: seq<Feedback>)
      reads this
      ensures |r| == if limit < |rows| then limit else |rows|
      ensures NewestFirst(r)
      ensures multiset(r) <= multiset(rows)
      ensures forall x, y :: x in multiset(rows) - multiset(r) && y in r ==> x.createdAt <= y.createdAt
    {
      var sorted := SortNewestFirst(rows);
      var n := if limit < |sorted| then limit else |sorted|;
      NewestPrefix(sorted, n);
      sorted[..n]
    }

    /** `get_feedback_by_id(id)`. */
    function GetFeedbackById(id: int): (r: Option<Feedback>)
      reads this
      ensures r.Some? ==> r.value in rows && r.value.id == id
      ensures r == None <==> forall i :: 0 <= i < |rows| ==> rows[i].id != id
    {
      Find(rows, id)
    }

    /** `get_feedback_stats()`: the counts and the accuracy over the current
        rows. */
    function GetFeedbackStats(): (r: Stats)
      reads this
      ensures r.totalFeedback == |rows|
      ensures r.correctPredictions == CountCorrect(rows, true)
      ensures r.correctPredictions + r.incorrectPredictions == r.totalFeedback
      ensures 0.0 <= r.accuracy <= 100.0
      ensures r.totalFeedback == 0 ==> r.accuracy == 0.0
      ensures r.totalFeedback > 0 ==>
                r.accuracy * (r.totalFeedback as real) == (r.correctPredictions as real) * 100.0
    {
      CountsPartition(rows);
      var total := |rows|;
      var correct := CountCorrect(rows, true);
      Stats(total, correct, CountCorrect(rows, false), Accuracy(correct, total))
    }

    /** `delete_feedback(id)`: true exactly when a row had that id. Afterwards
        the id is gone and every other row is still there; an absent id or a
        failed commit (rolled back and re-raised) leaves the rows unchanged. */
    method DeleteFeedback(id: int, fault: Option<string>) returns (r: Result<bool, DbError>)
      requires Valid()
      modifies this
      ensures Valid()
      ensures r.Success? ==> (r.value <==> Find(old(rows), id).Some?)
      ensures Find(old(rows), id) == None ==> r == Success(false) && rows == old(rows)
      ensures Find(old(rows), id).Some? && fault == None ==> r == Success(true) && rows == Remove(old(rows), id)
      ensures Find(old(rows), id).Some? && fault.Some? ==> r == Failure(StorageFault(fault.value)) && rows == old(rows)
    {
      var found := Find(rows, id);
      if found == None {
        return Success(false);
      }
      if fault.Some? {
        return Failure(StorageFault(fault.value));
      }
      RemoveKeepsTable(rows, id);
      rows := Remove(rows, id);
      r := Success(true);
    }
  }

  /** A created row is found again by its id, and the statistics count it. */
  lemma CreateThenGet(rows: seq<Feedback>, f: Feedback)
    requires IdsIncreasing(rows) && f.id == NextId(rows)
    ensures IdsIncreasing(rows + [f])
    ensures Find(rows + [f], f.id) == Some(f)
    ensures CountCorrect(rows + [f], f.isCorrect) == CountCorrect(rows, f.isCorrect) + 1
  {
    FindAppend(rows, f);
    CountAppend(rows, f, f.isCorrect);
  }

  lemma {:induction false} FindAppend(rows: seq<Feedback>, f: Feedback)
    requires Find(rows, f.id) == None
    ensures Find(rows + [f], f.id) == Some(f)
  {
    if rows != [] {
      assert (rows + [f])[1..] == rows[1..] + [f];
      FindAppend(rows[1..], f);
    }
  }

  /** After a delete the id is gone, and every other id is found as before. */
  lemma DeleteThenGet(rows: seq<Feedback>, id: int, other: int)
    requires IdsIncreasing(rows) && other != id
    ensures Find(Remove(rows, id), id) == None
    ensures Find(Remove(rows, id), other) == Find(rows, other)
  {
    RemoveKeepsTable(rows, id);
    FindUnique(rows, other);
    FindUnique(Remove(rows, id), other);
  }

  /** With unique ids the lookup result is the one row holding the id. */
  lemma FindUnique(rows: seq<Feedback>, id: int)
    requires IdsIncreasing(rows)
    ensures forall f :: f in rows && f.id == id ==> Find(rows, id) == Some(f)
  {
    if rows != [] && rows[0].id != id {
      FindUnique(rows[1..], id);
    }
  }

  /** A table holding two correct judgements and one incorrect one reports
      totals 3, 2 and 1 and an accuracy of 200/3 percent (66.67 once rounded). */
  lemma StatsOfThree(repo: FeedbackRepository, a: Feedback, b: Feedback, c: Feedback)
    requires repo.rows == [a, b, c]
    requires a.isCorrect && b.isCorrect && !c.isCorrect
    ensures repo.GetFeedbackStats() == Stats(3, 2, 1, 200.0 / 3.0)
  {
    assert [a, b, c][1..] == [b, c];
    assert [b, c][1..] == [c];
    assert [c][1..] == [];
    assert CountCorrect([c], true) == 0 && CountCorrect([c], false) == 1;
    assert CountCorrect([b, c], true) == 1 && CountCorrect([b, c], false) == 1;
    assert Accuracy(2, 3) == 200.0 / 3.0;
  }
}
