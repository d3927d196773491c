/**
 * The slice of a pandas DataFrame that the report code uses: a linelist is a
 * sequence of rows, each mapping column names to cell text, and a cell the row
 * has no entry for is missing (NaN). Group-count, cumulative sum and the
 * "distinct non-missing values" of a column become the functions below.
 */
module Frames {
  import opened Wrappers
  import opened Text

  /** A row of a linelist; a column the row has no entry for holds a missing value. */
  type Row = map<string, string>

  type Frame = seq<Row>

  function Cell(row: Row, column: string): Option<string>
  {
    if column in row then Some(row[column]) else None
  }

  /** The non-missing values of a column, in row order. */
  function Present(rows: Frame, column: string): (r: seq<string>)
    ensures |r| <= |rows|
    ensures forall i :: 0 <= i < |rows| && column in rows[i] ==> rows[i][column] in r
    ensures forall x :: x in r ==> exists i :: 0 <= i < |rows| && Cell(rows[i], column) == Some(x)
  {
    if rows == [] then []
    else
      var rest := Present(rows[1..], column);
      assert forall x :: x in rest ==> exists i :: 0 <= i < |rows| && Cell(rows[i], column) == Some(x) by {
        forall x | x in rest
          ensures exists i :: 0 <= i < |rows| && Cell(rows[i], column) == Some(x)
        {
          var i :| 0 <= i < |rows[1..]| && Cell(rows[1..][i], column) == Some(x);
          assert Cell(rows[i + 1], column) == Some(x);
        }
      }
      assert forall i :: 1 <= i < |rows| ==> rows[i] == rows[1..][i - 1];
      (if column in rows[0] then [rows[0][column]] else []) + rest
  }

  /** How many rows hold date d in dateCol and value g in groupCol: one cell of a group-count. */
  function RowCount(rows: Frame, dateCol: string, d: string, groupCol: string, g: string): nat
  {
    if rows == [] then 0
    else
      (if Cell(rows[0], dateCol) == Some(d) && Cell(rows[0], groupCol) == Some(g) then 1 else 0)
      + RowCount(rows[1..], dateCol, d, groupCol, g)
  }

  /** How many rows hold some date and value g in groupCol. */
  function GroupRows(rows: Frame, dateCol: string, groupCol: string, g: string): nat
  {
    if rows == [] then 0
    else
      (if dateCol in rows[0] && Cell(rows[0], groupCol) == Some(g) then 1 else 0)
      + GroupRows(rows[1..], dateCol, groupCol, g)
  }

  /** One column of a pivoted group-count: the count of group g on each of the dates. */
  function DailyColumn(rows: Frame, dateCol: string, groupCol: string, dates: seq<string>, g: string): (c: seq<nat>)
    ensures |c| == |dates|
    ensures forall i :: 0 <= i < |dates| ==> c[i] == RowCount(rows, dateCol, dates[i], groupCol, g)
  {
    seq(|dates|, i requires 0 <= i < |dates| => RowCount(rows, dateCol, dates[i], groupCol, g))
  }

  function Sum(xs: seq<nat>): nat
  {
    if xs == [] then 0 else Sum(xs[..|xs| - 1]) + xs[|xs| - 1]
  }

  /** pandas' `cumsum`: each entry adds the next one to the previous total. */
  function RunningSum(xs: seq<nat>): (r: seq<nat>)
    ensures |r| == |xs|
  {
    if xs == [] then []
    else
      var p := RunningSum(xs[..|xs| - 1]);
      p + [(if p == [] then 0 else p[|p| - 1]) + xs[|xs| - 1]]
  }

  /** Entry i of a running sum is the sum of the first i + 1 entries. */
  lemma {:induction false} RunningSumPrefix(xs: seq<nat>)
    ensures forall i :: 0 <= i < |xs| ==> RunningSum(xs)[i] == Sum(xs[..i + 1])
  {
    if xs != [] {
      var init := xs[..|xs| - 1];
      var p := RunningSum(init);
      RunningSumPrefix(init);
      forall i | 0 <= i < |init| ensures p[i] == Sum(xs[..i + 1]) {
        assert init[..i + 1] == xs[..i + 1];
      }
      assert xs[..|xs|] == xs && init[..|init|] == init;
      assert p != [] ==> p[|p| - 1] == Sum(init);
    }
  }

  /** A running sum starts at the first entry, adds one entry per step, never decreases, and ends at the total. */
  lemma {:induction false} RunningSumFacts(xs: seq<nat>)
    ensures var r := RunningSum(xs);
      && (xs != [] ==> r[0] == xs[0] && r[|r| - 1] == Sum(xs))
      && (forall i :: 0 < i < |xs| ==> r[i] == r[i - 1] + xs[i])
      && (forall i, j :: 0 <= i <= j < |xs| ==> r[i] <= r[j])
  {
    var r := RunningSum(xs);
    RunningSumPrefix(xs);
    if xs != [] {
      assert xs[..1] == [xs[0]];
      assert Sum([xs[0]]) == Sum([]) + xs[0];
      assert xs[..|xs|] == xs;
    }
    forall i | 0 < i < |xs|
      ensures r[i] == r[i - 1] + xs[i]
    {
      assert xs[..i + 1][..i] == xs[..i];
    }
    forall i, j | 0 <= i <= j < |xs|
      ensures r[i] <= r[j]
    {
      RunningSumStep(xs, i, j);
    }
  }

  lemma {:induction false} RunningSumStep(xs: seq<nat>, i: nat, j: nat)
    requires i <= j < |xs|
    ensures RunningSum(xs)[i] <= RunningSum(xs)[j]
    decreases j - i
  {
    if i < j {
      RunningSumStep(xs, i, j - 1);
      RunningSumPrefix(xs);
      assert xs[..j + 1][..j] == xs[..j];
    }
  }

  /** The sum of one group's counts over a list of dates. */
  function SumCounts(rows: Frame, dateCol: string, groupCol: string, dates: seq<string>, g: string): nat
  {
    if dates == [] then 0
    else SumCounts(rows, dateCol, groupCol, dates[..|dates| - 1], g) + RowCount(rows, dateCol, dates[|dates| - 1], groupCol, g)
  }

  lemma {:induction false} SumOfDailyColumn(rows: Frame, dateCol: string, groupCol: string, dates: seq<string>, g: string)
    ensures Sum(DailyColumn(rows, dateCol, groupCol, dates, g)) == SumCounts(rows, dateCol, groupCol, dates, g)
  {
    if dates != [] {
      var init := dates[..|dates| - 1];
      SumOfDailyColumn(rows, dateCol, groupCol, init, g);
      assert DailyColumn(rows, dateCol, groupCol, dates, g)[..|dates| - 1] == DailyColumn(rows, dateCol, groupCol, init, g);
    }
  }

  /** Counting over a frame is counting its first row and then the rest. */
  lemma {:induction false} SumCountsSplit(rows: Frame, dateCol: string, groupCol: string, dates: seq<string>, g: string)
    requires rows != []
    ensures SumCounts(rows, dateCol, groupCol, dates, g)
         == SumCounts([rows[0]], dateCol, groupCol, dates, g) + SumCounts(rows[1..], dateCol, groupCol, dates, g)
  {
    if dates != [] {
      var last := dates[|dates| - 1];
      SumCountsSplit(rows, dateCol, groupCol, dates[..|dates| - 1], g);
      assert [rows[0]][1..] == [];
      assert RowCount([rows[0]], dateCol, last, groupCol, g)
          == if Cell(rows[0], dateCol) == Some(last) && Cell(rows[0], groupCol) == Some(g) then 1 else 0;
      assert RowCount(rows, dateCol, last, groupCol, g)
          == RowCount([rows[0]], dateCol, last, groupCol, g) + RowCount(rows[1..], dateCol, last, groupCol, g);
    }
  }

  /** A single row is counted once over distinct dates when its date is among them and its group is g. */
  lemma {:induction false} SumCountsOneRow(row: Row, dateCol: string, groupCol: string, dates: seq<string>, g: string)
    requires NoDup(dates)
    ensures SumCounts([row], dateCol, groupCol, dates, g)
         == if Cell(row, groupCol) == Some(g) && dateCol in row && row[dateCol] in dates then 1 else 0
  {
    if dates != [] {
      var init := dates[..|dates| - 1];
      var last := dates[|dates| - 1];
      assert NoDup(init);
      SumCountsOneRow(row, dateCol, groupCol, init, g);
      assert [row][1..] == [];
      assert RowCount([row], dateCol, last, groupCol, g)
          == if Cell(row, dateCol) == Some(last) && Cell(row, groupCol) == Some(g) then 1 else 0;
      assert dates == init + [last];
      assert last !in init;
      assert dateCol in row ==> (row[dateCol] in dates <==> row[dateCol] in init || row[dateCol] == last);
    }
  }

  /**
   * Summing a group's counts over distinct dates that include every dated
   * row's date gives the number of dated rows of that group.
   */
  lemma {:induction false} SumOverDates(rows: Frame, dateCol: string, groupCol: string, dates: seq<string>, g: string)
    requires NoDup(dates)
    requires forall i :: 0 <= i < |rows| && dateCol in rows[i] && Cell(rows[i], groupCol) == Some(g) ==> rows[i][dateCol] in dates
    ensures SumCounts(rows, dateCol, groupCol, dates, g) == GroupRows(rows, dateCol, groupCol, g)
  {
    if rows == [] {
      SumCountsNoRows(dateCol, groupCol, dates, g);
    } else {
      SumCountsSplit(rows, dateCol, groupCol, dates, g);
      SumCountsOneRow(rows[0], dateCol, groupCol, dates, g);
      assert forall i :: 1 <= i < |rows| ==> rows[1..][i - 1] == rows[i];
      SumOverDates(rows[1..], dateCol, groupCol, dates, g);
    }
  }

  lemma {:induction false} SumCountsNoRows(dateCol: string, groupCol: string, dates: seq<string>, g: string)
    ensures SumCounts([], dateCol, groupCol, dates, g) == 0
  {
    if dates != [] {
      SumCountsNoRows(dateCol, groupCol, dates[..|dates| - 1], g);
    }
  }

  /** No single cell of a group-count exceeds the group's number of dated rows. */
  lemma {:induction false} RowCountBounded(rows: Frame, dateCol: string, d: string, groupCol: string, g: string)
    ensures RowCount(rows, dateCol, d, groupCol, g) <= GroupRows(rows, dateCol, groupCol, g)
  {
    if rows != [] {
      RowCountBounded(rows[1..], dateCol, d, groupCol, g);
    }
  }

  /** A group no row holds has a zero count on every date. */
  lemma {:induction false} RowCountAbsent(rows: Frame, dateCol: string, d: string, groupCol: string, g: string)
    requires forall i :: 0 <= i < |rows| ==> Cell(rows[i], groupCol) != Some(g)
    ensures RowCount(rows, dateCol, d, groupCol, g) == 0
  {
    if rows != [] {
      assert forall i :: 1 <= i < |rows| ==> rows[1..][i - 1] == rows[i];
      RowCountAbsent(rows[1..], dateCol, d, groupCol, g);
    }
  }

  /** One step of a running sum. */
  lemma RunningSumAt(xs: seq<nat>, i: nat)
    requires i < |xs|
    ensures RunningSum(xs)[i] == (if i == 0 then 0 else RunningSum(xs)[i - 1]) + xs[i]
  {
    RunningSumFacts(xs);
  }

  /** A running sum ends at the total. */
  lemma RunningSumLast(xs: seq<nat>)
    requires xs != []
    ensures RunningSum(xs)[|xs| - 1] == Sum(xs)
  {
    RunningSumPrefix(xs);
    assert xs[..|xs|] == xs;
  }

  /** A column that sums to 0 is all zeros, and so is its running sum. */
  lemma {:induction false} SumZero(xs: seq<nat>)
    ensures Sum(xs) == 0 ==> forall i :: 0 <= i < |xs| ==> xs[i] == 0 && RunningSum(xs)[i] == 0
  {
    if xs != [] && Sum(xs) == 0 {
      var init := xs[..|xs| - 1];
      SumZero(init);
      RunningSumFacts(xs);
      forall i | 0 <= i < |xs|
        ensures xs[i] == 0 && RunningSum(xs)[i] == 0
      {
        if i < |init| {
          assert xs[i] == init[i];
        }
        assert RunningSum(xs)[i] <= RunningSum(xs)[|xs| - 1];
      }
    }
  }
}
