/** Tables of cells with a header row, as pandas builds them from a workbook or
    a document, and the column operations app.py uses on them. */
module Tables {
  import opened Wrappers
  import opened Errors
  import opened Chars

  /** A cell: missing (None or NaN), a string, an integer, or a value produced
      by a foreign call, known only through its `str()` form. */
  datatype Cell = Missing | Text(s: string) | Num(n: int) | Foreign(repr: string)

  type Row = seq<Cell>

  datatype Grid = Grid(header: Row, rows: seq<Row>) {
    /** Every row has one cell per column. */
    predicate Rectangular() {
      forall k :: 0 <= k < |rows| ==> |rows[k]| == |header|
    }
  }

  /** A data frame: a header of column names and rows as wide as the header. */
  type Table = g: Grid | g.Rectangular() witness Grid([], [])

  /** The decimal digits of `n`. */
  function DigitString(n: nat): (r: string)
    ensures |r| > 0 && forall k :: 0 <= k < |r| ==> IsDigit(r[k])
    decreases n
  {
    var last := ('0' as int + n % 10) as char;
    if n < 10 then [last] else DigitString(n / 10) + [last]
  }

  /** `str()` of an integer. */
  function DecimalString(n: int): string {
    if n < 0 then "-" + DigitString(-n) else DigitString(n)
  }

  /** `handle_nan`'s view of a cell: `pd.notnull` decides whether the cell is
      there, `str()` gives its text. */
  function CellString(c: Cell): Option<string> {
    match c
    case Missing => None
    case Text(s) => Some(s)
    case Num(n) => Some(DecimalString(n))
    case Foreign(r) => Some(r)
  }

  /** How a classifier's result is stored in a column: `None` stays missing. */
  function OptionCell(o: Option<string>): (c: Cell)
    ensures CellString(c) == o
  {
    match o
    case None => Missing
    case Some(s) => Text(s)
  }

  /** The position of the first column called `name`. */
  function ColumnIndex(header: Row, name: string): (r: Option<nat>)
    ensures r.Some? ==> r.value < |header| && header[r.value] == Text(name)
    ensures r.Some? ==> forall k :: 0 <= k < r.value ==> header[k] != Text(name)
    ensures r.None? <==> Text(name) !in header
  {
    if header == [] then None
    else if header[0] == Text(name) then Some(0)
    else
      match ColumnIndex(header[1..], name)
      case Some(k) => Some(k + 1)
      case None => None
  }

  /** `df[name]`: the cells of the first column called `name`, top to bottom;
      `None` stands for the `KeyError` of a missing column. */
  function Column(t: Table, name: string): (r: Option<seq<Cell>>)
    ensures r.Some? ==> |r.value| == |t.rows|
  {
    match ColumnIndex(t.header, name)
    case None => None
    case Some(c) => Some(seq(|t.rows|, k requires 0 <= k < |t.rows| => t.rows[k][c]))
  }

  /** `df[name] = values`: overwrite the column if there is one, otherwise add it
      at the right. */
  function WithColumn(t: Table, name: string, values: seq<Cell>): Table
    requires |values| == |t.rows|
  {
    match ColumnIndex(t.header, name)
    case Some(c) =>
      Grid(t.header, seq(|t.rows|, k requires 0 <= k < |t.rows| => t.rows[k][c := values[k]]))
    case None =>
      Grid(t.header + [Text(name)], seq(|t.rows|, k requires 0 <= k < |t.rows| => t.rows[k] + [values[k]]))
  }

  /** Adding a column name at the right does not move the other columns. */
  lemma ColumnIndexAppend(header: Row, name: string, other: string)
    requires other != name
    ensures ColumnIndex(header + [Text(name)], other) == ColumnIndex(header, other)
  {
    var h := header + [Text(name)];
    match ColumnIndex(h, other)
    case Some(c) =>
      assert h[c] == Text(other);
      assert c < |header|;
      assert Text(other) in header;
      var d := ColumnIndex(header, other).value;
      assert h[d] == Text(other);
    case None =>
  }

  /** After `df[name] = values` the column `name` holds exactly `values`, and
      the header is kept or has `name` added at the right. */
  lemma WithColumnSets(t: Table, name: string, values: seq<Cell>)
    requires |values| == |t.rows|
    ensures |WithColumn(t, name, values).rows| == |t.rows|
    ensures Column(WithColumn(t, name, values), name) == Some(values)
    ensures WithColumn(t, name, values).header
      == if Text(name) in t.header then t.header else t.header + [Text(name)]
  {
    var r := WithColumn(t, name, values);
    match ColumnIndex(t.header, name)
    case Some(c) =>
      assert r.header == t.header;
      assert Column(r, name).value == values;
    case None =>
      assert ColumnIndex(r.header, name) == Some(|t.header|) by {
        var h := r.header;
        assert h[|t.header|] == Text(name);
        var d := ColumnIndex(h, name).value;
      }
      assert Column(r, name).value == values;
  }

  /** `df[name] = values` leaves every other column as it was. */
  lemma WithColumnKeeps(t: Table, name: string, values: seq<Cell>, other: string)
    requires |values| == |t.rows| && other != name
    ensures Column(WithColumn(t, name, values), other) == Column(t, other)
  {
    var r := WithColumn(t, name, values);
    match ColumnIndex(t.header, name) {
      case Some(c) =>
        assert r.header == t.header;
        if ColumnIndex(t.header, other).Some? {
          assert Column(r, other).value == Column(t, other).value;
        }
      case None =>
        ColumnIndexAppend(t.header, name, other);
        if ColumnIndex(t.header, other).Some? {
          assert Column(r, other).value == Column(t, other).value;
        }
    }
  }

  /** `pd.DataFrame(data[1:], columns=data[0])`: the first row names the
      columns; a sheet without rows has no `data[0]`. */
  function ExcelTable(sheetRows: seq<Row>): Result<Table, Error> {
    if sheetRows == [] then Failure(EmptySheet)
    else
      var g := Grid(sheetRows[0], sheetRows[1..]);
      if g.Rectangular() then Success(g) else Failure(ColumnCount)
  }

  /** `process_excel_file`: collects the rows of the active sheet in order, then
      splits off the header. */
  method ProcessExcelFile(sheetRows: seq<Row>) returns (r: Result<Table, Error>)
    ensures r == ExcelTable(sheetRows)
    ensures r.Success? ==> r.value.header == sheetRows[0] && r.value.rows == sheetRows[1..]
    ensures r.Success? ==> |r.value.rows| == |sheetRows| - 1
    ensures sheetRows == [] ==> r == Failure(EmptySheet)
  {
    var data: seq<Row> := [];
    for i := 0 to |sheetRows|
      invariant data == sheetRows[..i]
    {
      data := data + [sheetRows[i]];
    }
    assert data == sheetRows;
    if |data| == 0 {
      return Failure(EmptySheet);
    }
    var g := Grid(data[0], data[1..]);
    if !g.Rectangular() {
      return Failure(ColumnCount);
    }
    r := Success(g);
  }

  /** The table of a document: one row, its whole text as the narration, beside
      the named entities found in it. */
  function DocumentTable(text: string, entities: string): (t: Table)
    ensures |t.rows| == 1
  {
    Grid([Text("Narration"), Text("Named_Entities")], [[Text(text), Foreign(entities)]])
  }

  /** A document table's narration column is its text. */
  lemma DocumentNarration(text: string, entities: string)
    ensures Column(DocumentTable(text, entities), "Narration") == Some([Text(text)])
  {
    var t := DocumentTable(text, entities);
    assert ColumnIndex(t.header, "Narration") == Some(0);
    assert Column(t, "Narration").value == [Text(text)];
  }
}
