/**
  The final ordering of the prediction table in predict_model
  (src/transformer_output.py:121-124 and
  notebooks/turbulence_16_yd/transformer_output.py:175-178, 200-203).
  Each row holds (time, x1, x2, x3, prediction, truth); the rows are
  reordered by an argsort on column 3 and then by stable argsorts on
  columns 2, 1 and 0. Indexing an array by a stable argsort of one column
  is a stable sort of the rows by that column, modelled here as an
  insertion sort. The first argsort uses NumPy's default kind, which is
  not stable, so the model accepts any reordering that is a permutation
  sorted by column 3.
 */
module RowOrder {

  datatype Row = Row(time: real, x1: real, x2: real, x3: real, prediction: real, truth: real)

  /** Column c of the row, for the four key columns. */
  function Key(r: Row, c: nat): real
    requires c < 4
  {
    if c == 0 then r.time else if c == 1 then r.x1 else if c == 2 then r.x2 else r.x3
  }

  /** a comes no later than b in the lexicographic order on columns c, ..., 3. */
  predicate LexLe(c: nat, a: Row, b: Row)
    requires c <= 4
    decreases 4 - c
  {
    c == 4 || Key(a, c) < Key(b, c) || (Key(a, c) == Key(b, c) && LexLe(c + 1, a, b))
  }

  /** Every earlier row comes no later than every later row, on columns c, ..., 3. */
  predicate LexSorted(c: nat, rows: seq<Row>)
    requires c <= 4
  {
    forall i, j :: 0 <= i < j < |rows| ==> LexLe(c, rows[i], rows[j])
  }

  /** Place r before the first row whose column c is at least r's. */
  function Insert(c: nat, r: Row, rows: seq<Row>): (out: seq<Row>)
    requires c < 4
    ensures multiset(out) == multiset([r] + rows)
  {
    if |rows| == 0 || Key(r, c) <= Key(rows[0], c) then [r] + rows
    else
      assert rows == [rows[0]] + rows[1..];
      [rows[0]] + Insert(c, r, rows[1..])
  }

  /** rows[argsort(rows[:, c], kind='stable')]: a stable sort on column c. */
  function StableSortBy(c: nat, rows: seq<Row>): (out: seq<Row>)
    requires c < 4
    ensures multiset(out) == multiset(rows)
  {
    if |rows| == 0 then []
    else
      assert rows == [rows[0]] + rows[1..];
      Insert(c, rows[0], StableSortBy(c, rows[1..]))
  }

  /** Sorted on columns c, ..., 3 means in particular sorted on column c. */
  lemma LexKey(c: nat, a: Row, b: Row)
    requires c < 4 && LexLe(c, a, b)
    ensures Key(a, c) <= Key(b, c)
  {
  }

  /** The rows after position 0 of rows, still sorted. */
  lemma SortedTail(c: nat, rows: seq<Row>)
    requires c <= 4 && |rows| > 0 && LexSorted(c, rows)
    ensures LexSorted(c, rows[1..])
  {
    var rest := rows[1..];
    forall i, j | 0 <= i < j < |rest|
      ensures LexLe(c, rest[i], rest[j])
    {
      assert rest[i] == rows[i + 1] && rest[j] == rows[j + 1];
    }
  }

  /** A row whose column c is at most that of the first of sorted rows may go in front of them. */
  lemma {:induction false} InsertAtFront(c: nat, r: Row, rows: seq<Row>)
    requires c < 4 && LexSorted(c, rows)
    requires |rows| == 0 || Key(r, c) <= Key(rows[0], c)
    requires forall y :: y in rows ==> LexLe(c + 1, r, y)
    ensures LexSorted(c, [r] + rows)
  {
    var out := [r] + rows;
    forall j | 0 < j < |out|
      ensures LexLe(c, r, out[j])
    {
      assert out[j] == rows[j - 1] && out[j] in rows;
      if j > 1 {
        LexKey(c, rows[0], rows[j - 1]);
      }
    }
  }

  /** Every row inserted after the first of sorted rows comes no earlier than it. */
  lemma {:induction false} HeadFirst(c: nat, r: Row, rows: seq<Row>)
    requires c < 4 && |rows| > 0 && LexSorted(c, rows) && Key(rows[0], c) < Key(r, c)
    ensures forall y :: y in Insert(c, r, rows[1..]) ==> LexLe(c, rows[0], y)
  {
    var rest := rows[1..];
    forall y | y in Insert(c, r, rest)
      ensures LexLe(c, rows[0], y)
    {
      assert y in multiset([r] + rest);
      if y != r {
        assert y in rest;
        var k :| 0 <= k < |rest| && rest[k] == y;
        assert rows[k + 1] == y;
      }
    }
  }

  /**
    Inserting a row that precedes every row on columns c+1, ..., 3 into rows
    sorted on columns c, ..., 3 keeps them sorted: rows with a smaller
    column c stay ahead of it, and among rows with an equal column c it
    goes first, which the finer order allows.
   */
  lemma {:induction false} InsertSorted(c: nat, r: Row, rows: seq<Row>)
    requires c < 4 && LexSorted(c, rows)
    requires forall y :: y in rows ==> LexLe(c + 1, r, y)
    ensures LexSorted(c, Insert(c, r, rows))
    decreases |rows|
  {
    if |rows| == 0 || Key(r, c) <= Key(rows[0], c) {
      InsertAtFront(c, r, rows);
    } else {
      var rest := rows[1..];
      SortedTail(c, rows);
      forall y | y in rest
        ensures LexLe(c + 1, r, y)
      {
        assert y in rows;
      }
      InsertSorted(c, r, rest);
      HeadFirst(c, r, rows);
      var tail := Insert(c, r, rest);
      var out := Insert(c, r, rows);
      assert out == [rows[0]] + tail;
      forall i, j | 0 <= i < j < |out|
        ensures LexLe(c, out[i], out[j])
      {
        assert out[j] == tail[j - 1] && out[j] in tail;
        if i > 0 {
          assert out[i] == tail[i - 1];
        }
      }
    }
  }

  /**
    The step of the least-significant-digit sort: a stable sort on column c
    of rows already sorted on columns c+1, ..., 3 leaves them sorted on
    columns c, ..., 3.
   */
  lemma {:induction false} StableSortLifts(c: nat, rows: seq<Row>)
    requires c < 4 && LexSorted(c + 1, rows)
    ensures LexSorted(c, StableSortBy(c, rows))
    decreases |rows|
  {
    if |rows| > 0 {
      var rest := rows[1..];
      SortedTail(c + 1, rows);
      StableSortLifts(c, rest);
      var sorted := StableSortBy(c, rest);
      forall y | y in sorted
        ensures LexLe(c + 1, rows[0], y)
      {
        assert y in multiset(rest);
        var k :| 0 <= k < |rest| && rest[k] == y;
        assert rows[k + 1] == y;
      }
      InsertSorted(c, rows[0], sorted);
    }
  }

  /** The result of the four argsorts, given the outcome of the first, unstable, one. */
  function ArgsortChain(byX3: seq<Row>): seq<Row>
  {
    StableSortBy(0, StableSortBy(1, StableSortBy(2, byX3)))
  }

  /**
    Whatever order the first argsort leaves among rows with equal x3, the
    table ends sorted by (time, x1, x2, x3) and holds exactly the rows it
    started with.
   */
  lemma ChainSortsLexicographically(rows: seq<Row>, byX3: seq<Row>)
    requires multiset(byX3) == multiset(rows) && LexSorted(3, byX3)
    ensures LexSorted(0, ArgsortChain(byX3))
    ensures multiset(ArgsortChain(byX3)) == multiset(rows)
  {
    StableSortLifts(2, byX3);
    StableSortLifts(1, StableSortBy(2, byX3));
    StableSortLifts(0, StableSortBy(1, StableSortBy(2, byX3)));
  }

  /** A stable sort is one possible outcome of the first argsort. */
  lemma FirstPassExists(rows: seq<Row>)
    ensures multiset(StableSortBy(3, rows)) == multiset(rows)
    ensures LexSorted(3, StableSortBy(3, rows))
  {
    StableSortLifts(3, rows);
  }
}
