/** The summary `main` computes over the enriched frame: the total amount, the
    distributions behind the two charts, and the cash-withdrawal split. */
module Aggregate {
  import opened Tables

  /** The total amount, or the marker shown when there is no `Amount` column. */
  datatype Total = NotAvailable | Sum(amount: int)

  /** What a cell adds to `sum()`: numbers count and missing cells are skipped,
      as pandas skips NaN; this model skips text cells as well. */
  function CellAmount(c: Cell): int {
    if c.Num? then c.n else 0
  }

  function AmountSum(cells: seq<Cell>): int {
    if cells == [] then 0 else CellAmount(cells[0]) + AmountSum(cells[1..])
  }

  /** app.py:108-111: `df['Amount'].sum()` when the column exists. */
  function TotalAmount(t: Table): (r: Total)
    ensures r.NotAvailable? <==> Text("Amount") !in t.header
  {
    match Column(t, "Amount")
    case None => NotAvailable
    case Some(cells) => Sum(AmountSum(cells))
  }

  /** The sum over two blocks of rows is the sum of their sums. */
  lemma {:induction false} AmountSumAppend(a: seq<Cell>, b: seq<Cell>)
    ensures AmountSum(a + b) == AmountSum(a) + AmountSum(b)
  {
    if a != [] {
      assert (a + b)[1..] == a[1..] + b;
      AmountSumAppend(a[1..], b);
    } else {
      assert a + b == b;
    }
  }

  /** A missing amount (or, in this model, a text amount) neither adds to the
      total nor zeroes it: the total is what it would be without that row. */
  lemma AmountSumSkipsAbsent(before: seq<Cell>, c: Cell, after: seq<Cell>)
    requires !c.Num?
    ensures AmountSum(before + [c] + after) == AmountSum(before + after)
  {
    AmountSumAppend(before + [c], after);
    AmountSumAppend(before, [c]);
    AmountSumAppend(before, after);
  }

  /** How many cells of `col` equal `v`. */
  function Count(col: seq<Cell>, v: Cell): (n: nat)
    ensures n <= |col|
  {
    if col == [] then 0 else (if col[0] == v then 1 else 0) + Count(col[1..], v)
  }

  /** How many cells of `col` differ from `v`. */
  function CountOther(col: seq<Cell>, v: Cell): (n: nat)
    ensures n <= |col|
  {
    if col == [] then 0 else (if col[0] != v then 1 else 0) + CountOther(col[1..], v)
  }

  /** How many cells of `col` are not missing. */
  function Present(col: seq<Cell>): (n: nat)
    ensures n <= |col|
  {
    if col == [] then 0 else (if col[0] != Missing then 1 else 0) + Present(col[1..])
  }

  lemma {:induction false} CountPositive(col: seq<Cell>, v: Cell)
    requires v in col
    ensures Count(col, v) > 0
  {
    if col[0] != v {
      CountPositive(col[1..], v);
    }
  }

  /** Every cell either equals `v` or does not. */
  lemma {:induction false} CountSplits(col: seq<Cell>, v: Cell)
    ensures Count(col, v) + CountOther(col, v) == |col|
  {
    if col != [] {
      CountSplits(col[1..], v);
    }
  }

  /** `value_counts()`: for every value in the column other than missing, how
      often it occurs. Missing cells are not counted under any key. */
  function ValueCounts(col: seq<Cell>): (m: map<Cell, nat>)
    ensures forall v :: v in m <==> v != Missing && v in col
    ensures forall v :: v in m ==> m[v] == Count(col, v) && m[v] > 0
  {
    forall v | v in col
      ensures Count(col, v) > 0
    {
      CountPositive(col, v);
    }
    map v | v in col && v != Missing :: Count(col, v)
  }

  /** app.py:142: the rows whose platform is `'ATM'`. */
  function CashWithdrawals(platforms: seq<Cell>): (n: nat)
    ensures n <= |platforms|
  {
    Count(platforms, Text("ATM"))
  }

  /** app.py:143: all the other rows, unclassified ones included. */
  function OtherTransactions(platforms: seq<Cell>): (n: nat)
    ensures n == CountOther(platforms, Text("ATM"))
  {
    CountSplits(platforms, Text("ATM"));
    |platforms| - CashWithdrawals(platforms)
  }

  /** The counts of the values in `labels`, added up. */
  function SumCounts(col: seq<Cell>, labels: seq<string>): nat {
    if labels == [] then 0 else Count(col, Text(labels[0])) + SumCounts(col, labels[1..])
  }

  /** How many of `labels` the cell `c` is. */
  function Hits(c: Cell, labels: seq<string>): nat {
    if labels == [] then 0 else (if c == Text(labels[0]) then 1 else 0) + Hits(c, labels[1..])
  }

  predicate Distinct(labels: seq<string>) {
    forall i, j :: 0 <= i < j < |labels| ==> labels[i] != labels[j]
  }

  lemma {:induction false} HitsOnce(c: Cell, labels: seq<string>)
    requires Distinct(labels)
    ensures Hits(c, labels) == if c.Text? && c.s in labels then 1 else 0
  {
    if labels != [] {
      assert Distinct(labels[1..]) by {
        forall i, j | 0 <= i < j < |labels| - 1
          ensures labels[1..][i] != labels[1..][j]
        {
          assert labels[1..][i] == labels[i + 1] && labels[1..][j] == labels[j + 1];
        }
      }
      HitsOnce(c, labels[1..]);
      if c == Text(labels[0]) {
        assert labels[0] !in labels[1..] by {
          forall j | 0 <= j < |labels| - 1
            ensures labels[1..][j] != labels[0]
          {
            assert labels[1..][j] == labels[j + 1];
          }
        }
      } else {
        assert c.Text? && c.s in labels ==> c.s in labels[1..];
      }
    }
  }

  lemma {:induction false} SumCountsStep(col: seq<Cell>, labels: seq<string>)
    requires col != []
    ensures SumCounts(col, labels) == Hits(col[0], labels) + SumCounts(col[1..], labels)
  {
    if labels != [] {
      SumCountsStep(col, labels[1..]);
    }
  }

  /** When every classified cell carries one of the distinct `labels`, the
      counts under the labels add up to the number of classified rows: the
      distribution leaves out exactly the unclassified rows. */
  lemma {:induction false} CountsCoverPresent(col: seq<Cell>, labels: seq<string>)
    requires Distinct(labels)
    requires forall k :: 0 <= k < |col| ==> col[k] == Missing || (col[k].Text? && col[k].s in labels)
    ensures SumCounts(col, labels) == Present(col)
  {
    if col == [] {
      if labels != [] {
        CountsCoverPresent(col, labels[1..]);
      }
    } else {
      SumCountsStep(col, labels);
      HitsOnce(col[0], labels);
      CountsCoverPresent(col[1..], labels);
    }
  }
}
