/**
 * The fine-tuning data script: FAQ rows of the knowledge-base CSV become
 * instruction examples, which are shuffled and split into train, validation
 * and test sets.
 */
module MakeJsonl {
  import opened Wrappers
  import opened Text

  /** A CSV row as `csv.DictReader` yields it: a missing cell is None. */
  datatype CsvRow = CsvRow(question: Option<string>, answer: Option<string>)

  /** `{"instruction": ..., "input": "", "output": ...}` */
  datatype Example = Example(instruction: string, input: string, output: string)

  /** `row_to_example(row)` */
  function RowToExample(row: CsvRow): Option<Example> {
    var q := Strip(row.question.GetOr(""));
    var a := Strip(row.answer.GetOr(""));
    if q == "" || a == "" then None else Some(Example(q, "", a))
  }

  /**
   * A row converts to None exactly when its stripped question or stripped
   * answer is empty (a missing cell counting as empty), and otherwise to
   * the stripped pair with an empty input: neither side is empty or starts
   * or ends in whitespace.
   */
  lemma RowToExampleFacts(row: CsvRow)
    ensures var r, q, a := RowToExample(row), Strip(row.question.GetOr("")), Strip(row.answer.GetOr(""));
      && (r.None? <==> q == "" || a == "")
      && (r.Some? ==> r.value == Example(q, "", a))
      && (r.Some? ==> !IsSpace(q[0]) && !IsSpace(q[|q| - 1]) && !IsSpace(a[0]) && !IsSpace(a[|a| - 1]))
  {
  }

  /**
   * Writing an example back as a row and converting it again gives the same
   * example: conversion is idempotent.
   */
  lemma ExampleRoundTrip(row: CsvRow)
    requires RowToExample(row).Some?
    ensures var ex := RowToExample(row).value;
      RowToExample(CsvRow(Some(ex.instruction), Some(ex.output))) == Some(ex)
  {
    StripIdempotent(row.question.GetOr(""));
    StripIdempotent(row.answer.GetOr(""));
  }

  /** The examples kept from the rows, in row order. */
  function ValidExamples(rows: seq<CsvRow>): seq<Example> {
    if rows == [] then []
    else
      var n := |rows|;
      var prev := ValidExamples(rows[..n - 1]);
      match RowToExample(rows[n - 1])
      case Some(ex) => prev + [ex]
      case None => prev
  }

  /** There are at most as many examples as rows. */
  lemma {:induction false} ValidExamplesBound(rows: seq<CsvRow>)
    ensures |ValidExamples(rows)| <= |rows|
  {
    if rows != [] {
      ValidExamplesBound(rows[..|rows| - 1]);
    }
  }

  /** Every kept example comes from a row that converts to it. */
  lemma {:induction false} ValidExamplesOrigin(rows: seq<CsvRow>)
    ensures forall ex :: ex in ValidExamples(rows) ==>
      exists i :: 0 <= i < |rows| && RowToExample(rows[i]) == Some(ex)
  {
    if rows != [] {
      var n := |rows|;
      var prefix := rows[..n - 1];
      ValidExamplesOrigin(prefix);
      var prev := ValidExamples(prefix);
      forall ex | ex in ValidExamples(rows)
        ensures exists i :: 0 <= i < n && RowToExample(rows[i]) == Some(ex)
      {
        if ex in prev {
          var i :| 0 <= i < n - 1 && RowToExample(prefix[i]) == Some(ex);
          assert prefix[i] == rows[i];
        } else {
          assert RowToExample(rows[n - 1]) == Some(ex);
        }
      }
    }
  }

  /** The example list is empty exactly when no row converts. */
  lemma {:induction false} ValidExamplesEmpty(rows: seq<CsvRow>)
    ensures ValidExamples(rows) == [] <==> forall i :: 0 <= i < |rows| ==> RowToExample(rows[i]).None?
  {
    if rows != [] {
      var n := |rows|;
      var prefix := rows[..n - 1];
      ValidExamplesEmpty(prefix);
      if ValidExamples(rows) == [] {
        forall i | 0 <= i < n ensures RowToExample(rows[i]).None? {
          if i < n - 1 {
            assert prefix[i] == rows[i];
          }
        }
      } else if ValidExamples(prefix) != [] {
        var i :| 0 <= i < n - 1 && RowToExample(prefix[i]).Some?;
        assert prefix[i] == rows[i];
      }
    }
  }

  /** How many examples the rows before row `i` contribute: row `i`'s position if it is kept. */
  function KeptBefore(rows: seq<CsvRow>, i: int): nat
    requires 0 <= i <= |rows|
  {
    |ValidExamples(rows[..i])|
  }

  /** The last row adds its example, if it has one, after those of the others. */
  lemma ValidExamplesStep(rows: seq<CsvRow>)
    requires rows != []
    ensures var last := RowToExample(rows[|rows| - 1]);
      ValidExamples(rows) == ValidExamples(rows[..|rows| - 1]) + (if last.Some? then [last.value] else [])
  {
  }

  /** A converting row `i` is kept, at position `KeptBefore(rows, i)`. */
  lemma {:induction false} ValidExampleAt(rows: seq<CsvRow>, i: int)
    requires 0 <= i < |rows| && RowToExample(rows[i]).Some?
    ensures KeptBefore(rows, i) < |ValidExamples(rows)|
    ensures ValidExamples(rows)[KeptBefore(rows, i)] == RowToExample(rows[i]).value
  {
    var n := |rows|;
    var prefix := rows[..n - 1];
    var all, prev := ValidExamples(rows), ValidExamples(prefix);
    assert all[..|prev|] == prev by {
      ValidExamplesStep(rows);
    }
    if i < n - 1 {
      assert KeptBefore(prefix, i) < |prev| && prev[KeptBefore(prefix, i)] == RowToExample(rows[i]).value by {
        assert prefix[i] == rows[i];
        ValidExampleAt(prefix, i);
      }
      assert KeptBefore(rows, i) == KeptBefore(prefix, i) by {
        assert prefix[..i] == rows[..i];
      }
    } else {
      assert KeptBefore(rows, i) == |prev| by {
        assert rows[..i] == prefix;
      }
      assert all == prev + [RowToExample(rows[i]).value] by {
        ValidExamplesStep(rows);
      }
    }
  }

  /** The example at position `p` is that of a row whose position is `p`. */
  predicate KeptFromRow(rows: seq<CsvRow>, p: int)
    requires 0 <= p < |ValidExamples(rows)|
  {
    exists i :: 0 <= i < |rows| && RowToExample(rows[i]) == Some(ValidExamples(rows)[p]) && KeptBefore(rows, i) == p
  }

  /** The example at position `p` comes from a converting row whose position is `p`. */
  lemma {:induction false} ValidExampleFrom(rows: seq<CsvRow>, p: int) returns (i: int)
    requires 0 <= p < |ValidExamples(rows)|
    ensures 0 <= i < |rows| && RowToExample(rows[i]) == Some(ValidExamples(rows)[p]) && KeptBefore(rows, i) == p
  {
    var n := |rows|;
    var prefix := rows[..n - 1];
    var prev := ValidExamples(prefix);
    ValidExamplesStep(rows);
    if p < |prev| {
      i := ValidExampleFrom(prefix, p);
      assert prefix[i] == rows[i];
      assert prefix[..i] == rows[..i];
    } else {
      i := n - 1;
      assert rows[..i] == prefix;
    }
  }

  /**
   * Every converting row is kept, at position `KeptBefore(rows, i)`, those
   * positions grow with the row number, and every example sits at the
   * position of a row converting to it: the examples are exactly the
   * converting rows' examples, each once, in row order.
   */
  lemma ValidExamplesInOrder(rows: seq<CsvRow>)
    ensures forall i :: 0 <= i < |rows| && RowToExample(rows[i]).Some? ==>
      KeptBefore(rows, i) < |ValidExamples(rows)| && ValidExamples(rows)[KeptBefore(rows, i)] == RowToExample(rows[i]).value
    ensures forall i, j :: 0 <= i < j <= |rows| && RowToExample(rows[i]).Some? ==> KeptBefore(rows, i) < KeptBefore(rows, j)
    ensures forall p :: 0 <= p < |ValidExamples(rows)| ==> KeptFromRow(rows, p)
  {
    forall i | 0 <= i < |rows| && RowToExample(rows[i]).Some?
      ensures KeptBefore(rows, i) < |ValidExamples(rows)|
      ensures ValidExamples(rows)[KeptBefore(rows, i)] == RowToExample(rows[i]).value
    {
      ValidExampleAt(rows, i);
    }
    forall i, j | 0 <= i < j <= |rows| && RowToExample(rows[i]).Some? ensures KeptBefore(rows, i) < KeptBefore(rows, j) {
      var head := rows[..j];
      assert head[i] == rows[i] && head[..i] == rows[..i];
      ValidExampleAt(head, i);
    }
    forall p | 0 <= p < |ValidExamples(rows)| ensures KeptFromRow(rows, p) {
      var i := ValidExampleFrom(rows, p);
    }
  }

  /** The reading loop: convert each row and keep the examples. */
  method CollectExamples(rows: seq<CsvRow>) returns (examples: seq<Example>)
    ensures examples == ValidExamples(rows)
  {
    examples := [];
    for i := 0 to |rows|
      invariant examples == ValidExamples(rows[..i])
    {
      assert rows[..i + 1][..i] == rows[..i];
      var ex := RowToExample(rows[i]);
      if ex.Some? {
        examples := examples + [ex.value];
      }
    }
    assert rows[..|rows|] == rows;
  }

  // ---------------------------------------------------------------------------
  // Split
  // ---------------------------------------------------------------------------

  function Max(a: int, b: int): int { if a >= b then a else b }
  function Min(a: int, b: int): int { if a <= b then a else b }

  /** Python's `s[i:j]`, indices counted from the end when negative and clamped to the sequence. */
  function Slice<T>(s: seq<T>, i: int, j: int): (r: seq<T>)
    ensures |r| <= |s|
  {
    var lo := if i < 0 then Max(0, |s| + i) else Min(i, |s|);
    var hi := if j < 0 then Max(0, |s| + j) else Min(j, |s|);
    if lo >= hi then [] else s[lo..hi]
  }

  /** `int(n * 0.10)`, taken as `n / 10`. */
  function Tenth(n: nat): nat { n / 10 }

  datatype Sizes = Sizes(train: int, val: int, test: int)

  /**
   * `n_train`, `n_val` and `n_test`: each at least 1, and from three rows on
   * they add up to `n`. Below 20 rows validation and test get one row each;
   * below three rows the sizes are all 1 and overshoot `n`.
   */
  function SplitSizes(n: nat): (r: Sizes)
    ensures r.val >= 1 && r.test >= 1 && r.train >= 1
    ensures n >= 3 ==> r.train + r.val + r.test == n
    ensures n < 20 ==> r.val == 1 && r.test == 1
    ensures n < 3 ==> r == Sizes(1, 1, 1)
  {
    var nVal := Max(1, Tenth(n));
    var nTest := Max(1, Tenth(n));
    Sizes(Max(1, n - nVal - nTest), nVal, nTest)
  }

  datatype Splits = Splits(train: seq<Example>, val: seq<Example>, test: seq<Example>)

  /** The slicing of the shuffled rows into the three sets. */
  function SplitRows(rows: seq<Example>): Splits {
    var sz := SplitSizes(|rows|);
    Splits(Slice(rows, 0, sz.train), Slice(rows, sz.train, sz.train + sz.val), Slice(rows, sz.train + sz.val, |rows|))
  }

  /**
   * The three sets, in order, are exactly the shuffled rows: nothing lost,
   * nothing repeated. Train has `min(n_train, n)` rows, so it is never empty
   * when there is a row, and validation and test take what remains in turn.
   */
  lemma SplitRowsFacts(rows: seq<Example>)
    ensures var s, sz := SplitRows(rows), SplitSizes(|rows|);
      && s.train + s.val + s.test == rows
      && |s.train| == Min(sz.train, |rows|)
      && (rows != [] ==> s.train != [])
      && |s.val| == Min(sz.val, |rows| - |s.train|)
      && |s.test| == |rows| - |s.train| - |s.val|
  {
    var s, sz := SplitRows(rows), SplitSizes(|rows|);
    var n := |rows|;
    var a := Min(sz.train, n);
    var b := Min(sz.train + sz.val, n);
    assert s.train == rows[..a];
    assert s.val == rows[a..b];
    assert s.test == rows[b..];
    assert rows[..a] + rows[a..b] == rows[..b];
    assert rows[..b] + rows[b..] == rows;
  }

  /** With two rows the test set comes out empty, although `n_test` is 1. */
  lemma TwoRowsLeaveNoTest(rows: seq<Example>)
    requires |rows| == 2
    ensures |SplitRows(rows).train| == 1 && |SplitRows(rows).val| == 1 && SplitRows(rows).test == []
  {
  }

  /** `random.shuffle` under the fixed seed: some reordering of the rows. */
  type Shuffler = f: seq<Example> -> seq<Example>
    | forall s :: multiset(f(s)) == multiset(s)
    witness (s: seq<Example>) => s

  datatype ScriptError = CsvNotFound | NoValidRows

  /**
   * `main()` with the CSV's rows (None when the file is missing): the error
   * exits, or all examples in shuffled order and the three sets.
   */
  method MakeSplits(csv: Option<seq<CsvRow>>, shuffle: Shuffler) returns (r: Result<(seq<Example>, Splits), ScriptError>)
    ensures csv.None? ==> r == Failure(CsvNotFound)
    ensures csv.Some? && ValidExamples(csv.value) == [] ==> r == Failure(NoValidRows)
    ensures csv.Some? && ValidExamples(csv.value) != [] ==>
      && r.Success?
      && multiset(r.value.0) == multiset(ValidExamples(csv.value))
      && r.value.1 == SplitRows(r.value.0)
      && r.value.1.train + r.value.1.val + r.value.1.test == r.value.0
      && r.value.1.train != []
  {
    if csv.None? {
      return Failure(CsvNotFound);
    }
    var rows := CollectExamples(csv.value);
    if rows == [] {
      return Failure(NoValidRows);
    }
    rows := shuffle(rows);
    SplitRowsFacts(rows);
    r := Success((rows, SplitRows(rows)));
  }
}
