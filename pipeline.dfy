/** `main` of app.py without its user interface: choose a reader by the
    declared media type, build the frame, add the three classification columns
    and compute the summary. */
module Pipeline {
  import opened Wrappers
  import opened Errors
  import opened Tables
  import opened Documents
  import opened Classify
  import opened Aggregate
  import opened Frames

  /** The four accepted uploads. */
  datatype Format = Csv | Spreadsheet | Pdf | Docx

  function MediaType(f: Format): string {
    match f
    case Csv => "text/csv"
    case Spreadsheet => "application/vnd.openxmlformats-officedocument.spreadsheetml.sheet"
    case Pdf => "application/pdf"
    case Docx => "application/vnd.openxmlformats-officedocument.wordprocessingml.document"
  }

  /** The if/elif chain on `uploaded_file.type`. Any other type ends in an
      error: `st.error` is shown, and the later use of the unbound `df` is
      caught as an exception. */
  function Detect(mediaType: string): (r: Result<Format, Error>)
    ensures r.Success? ==> MediaType(r.value) == mediaType
    ensures r.Failure? ==> r.error == UnsupportedFormat
  {
    if mediaType == "text/csv" then Success(Csv)
    else if mediaType == "application/vnd.openxmlformats-officedocument.spreadsheetml.sheet" then Success(Spreadsheet)
    else if mediaType == "application/pdf" then Success(Pdf)
    else if mediaType == "application/vnd.openxmlformats-officedocument.wordprocessingml.document" then Success(Docx)
    else Failure(UnsupportedFormat)
  }

  /** Every format's media type is recognised as that format, so a type is
      accepted exactly when it is one of the four. */
  lemma DetectMediaType(f: Format)
    ensures Detect(MediaType(f)) == Success(f)
  {
  }

  /** An upload: its declared type and what each parsing library makes of its
      bytes. */
  datatype Upload = Upload(
    mediaType: string,
    csv: Result<Table, string>,          // `pd.read_csv` of the UTF-8 text
    workbook: Result<seq<Row>, string>,  // the rows of the active sheet
    document: Result<seq<string>, string>, // the page texts of a PDF or the paragraph texts of a Word file
    entities: string)                    // `str()` of the named entities found in the document text

  /** The frame the chosen reader builds, with the document branches doing
      what they evidently intend: extract the text and make it one row. */
  function Load(u: Upload): Result<Table, Error> {
    var format :- Detect(u.mediaType);
    match format
    case Csv =>
      if u.csv.Failure? then Failure(ReadFailed(u.csv.error)) else Success(u.csv.value)
    case Spreadsheet =>
      if u.workbook.Failure? then Failure(ReadFailed(u.workbook.error)) else ExcelTable(u.workbook.value)
    case Pdf =>
      if u.document.Failure? then Failure(ReadFailed(u.document.error))
      else Success(DocumentTable(Concat(u.document.value), u.entities))
    case Docx =>
      if u.document.Failure? then Failure(ReadFailed(u.document.error))
      else Success(DocumentTable(Lines(u.document.value), u.entities))
  }

  /** The reader as app.py has it: the document branches call
      `process_pdf_file` and `process_docx_file`, which are defined nowhere. */
  function LoadAsWritten(u: Upload): Result<Table, Error> {
    var format :- Detect(u.mediaType);
    match format
    case Csv =>
      if u.csv.Failure? then Failure(ReadFailed(u.csv.error)) else Success(u.csv.value)
    case Spreadsheet =>
      if u.workbook.Failure? then Failure(ReadFailed(u.workbook.error)) else ExcelTable(u.workbook.value)
    case Pdf => Failure(UndefinedName("process_pdf_file"))
    case Docx => Failure(UndefinedName("process_docx_file"))
  }

  /** As written, no PDF or Word upload ever gets past loading. */
  lemma DocumentUploadsFailAsWritten(u: Upload)
    requires Detect(u.mediaType) == Success(Pdf) || Detect(u.mediaType) == Success(Docx)
    ensures LoadAsWritten(u).Failure? && LoadAsWritten(u).error.UndefinedName?
  {
  }

  /** The correction changes nothing for tabular uploads and unsupported types. */
  lemma LoadAgreesOnTables(u: Upload)
    requires Detect(u.mediaType) != Success(Pdf) && Detect(u.mediaType) != Success(Docx)
    ensures Load(u) == LoadAsWritten(u)
  {
  }

  /** A readable document always loads, as a single row whose narration is the
      whole extracted text. */
  lemma DocumentLoadsOneRow(u: Upload)
    requires Detect(u.mediaType) == Success(Pdf) || Detect(u.mediaType) == Success(Docx)
    requires u.document.Success?
    ensures Load(u).Success? && |Load(u).value.rows| == 1
    ensures Column(Load(u).value, "Narration") == Some([Text(
      if Detect(u.mediaType) == Success(Pdf) then Concat(u.document.value) else Lines(u.document.value))])
  {
    var text := if Detect(u.mediaType) == Success(Pdf) then Concat(u.document.value) else Lines(u.document.value);
    DocumentNarration(text, u.entities);
  }

  /** `df['Narration'].apply(classify)`: each cell normalised by `handle_nan`
      and classified; `None` is stored as a missing cell. */
  function Classified(narration: seq<Cell>, classify: Option<string> -> Option<string>): (r: seq<Cell>)
    ensures |r| == |narration|
    ensures forall k :: 0 <= k < |r| ==> CellString(r[k]) == classify(CellString(narration[k]))
    ensures forall k :: 0 <= k < |r| ==> r[k] == Missing || r[k].Text?
  {
    seq(|narration|, k requires 0 <= k < |narration| => OptionCell(classify(CellString(narration[k]))))
  }

  /** The frame after app.py:113-115: the `Name`, `Payment_Method` and
      `Payment_Platform` columns set from the narration column, in that order. */
  function Enriched(t: Table, narration: seq<Cell>): Table
    requires |narration| == |t.rows|
  {
    WithColumn(WithColumn(WithColumn(t, "Name", Classified(narration, SenderReceiverName)),
                          "Payment_Method", Classified(narration, PaymentMethod)),
               "Payment_Platform", Classified(narration, PaymentPlatform))
  }

  /** The enriched frame keeps its rows and every other column; each new column
      holds, row by row, the classifier applied to that row's narration. */
  lemma EnrichedColumns(t: Table, narration: seq<Cell>, other: string)
    requires |narration| == |t.rows|
    requires other != "Name" && other != "Payment_Method" && other != "Payment_Platform"
    ensures |Enriched(t, narration).rows| == |t.rows|
    ensures Column(Enriched(t, narration), "Name") == Some(Classified(narration, SenderReceiverName))
    ensures Column(Enriched(t, narration), "Payment_Method") == Some(Classified(narration, PaymentMethod))
    ensures Column(Enriched(t, narration), "Payment_Platform") == Some(Classified(narration, PaymentPlatform))
    ensures Column(Enriched(t, narration), other) == Column(t, other)
  {
    var names := Classified(narration, SenderReceiverName);
    var methods := Classified(narration, PaymentMethod);
    var platforms := Classified(narration, PaymentPlatform);
    var t1 := WithColumn(t, "Name", names);
    var t2 := WithColumn(t1, "Payment_Method", methods);
    WithColumnSets(t, "Name", names);
    WithColumnSets(t1, "Payment_Method", methods);
    WithColumnSets(t2, "Payment_Platform", platforms);
    WithColumnKeeps(t1, "Payment_Method", methods, "Name");
    WithColumnKeeps(t2, "Payment_Platform", platforms, "Name");
    WithColumnKeeps(t2, "Payment_Platform", platforms, "Payment_Method");
    WithColumnKeeps(t, "Name", names, other);
    WithColumnKeeps(t1, "Payment_Method", methods, other);
    WithColumnKeeps(t2, "Payment_Platform", platforms, other);
  }

  /** What `main` shows: the enriched frame and its summary. */
  datatype Report = Report(
    table: Table,
    total: Total,
    methodCounts: map<Cell, nat>,
    platformCounts: map<Cell, nat>,
    cashWithdrawals: nat,
    otherTransactions: nat)

  /** `main` once a table is loaded: the total, the three classifications and
      the summary read off the classified columns. */
  function Summarise(t: Table): Result<Report, Error> {
    var total := TotalAmount(t);
    if Column(t, "Narration").None? then Failure(MissingColumn("Narration"))
    else
      var narration := Column(t, "Narration").value;
      var methods := Classified(narration, PaymentMethod);
      var platforms := Classified(narration, PaymentPlatform);
      Success(Report(Enriched(t, narration), total, ValueCounts(methods), ValueCounts(platforms),
                     CashWithdrawals(platforms), OtherTransactions(platforms)))
  }

  /** The whole of `main` after the upload, as one value. */
  function Run(u: Upload): Result<Report, Error> {
    var t :- Load(u);
    Summarise(t)
  }

  /** The reader chosen by the declared media type, with the document
      branches extracting the text as `extract_text_from_pdf` and
      `extract_text_from_docx` do. */
  method ReadUpload(u: Upload) returns (r: Result<Table, Error>)
    ensures r == Load(u)
  {
    var format := Detect(u.mediaType);
    if format.Failure? {
      return Failure(format.error);
    }
    match format.value {
      case Csv =>
        if u.csv.Failure? {
          return Failure(ReadFailed(u.csv.error));
        }
        r := Success(u.csv.value);
      case Spreadsheet =>
        if u.workbook.Failure? {
          return Failure(ReadFailed(u.workbook.error));
        }
        r := ProcessExcelFile(u.workbook.value);
      case Pdf =>
        if u.document.Failure? {
          return Failure(ReadFailed(u.document.error));
        }
        var text := ExtractTextFromPdf(u.document.value);
        r := Success(DocumentTable(text, u.entities));
      case Docx =>
        if u.document.Failure? {
          return Failure(ReadFailed(u.document.error));
        }
        var text := ExtractTextFromDocx(u.document.value);
        r := Success(DocumentTable(text, u.entities));
    }
  }

  /** app.py:113-115 on the frame itself: each column is computed from
      `df['Narration']` as it stands and stored in place. */
  method AddClassifications(df: Frame)
    requires df.Valid() && df.Get("Narration").Some?
    modifies df
    ensures df.Valid()
    ensures df.Value() == Enriched(old(df.Value()), old(df.Get("Narration")).value)
  {
    ghost var column := df.Get("Narration").value;
    var narration := df.Get("Narration").value;
    df.Set("Name", Classified(narration, SenderReceiverName));
    narration := df.Get("Narration").value;
    assert narration == column;
    df.Set("Payment_Method", Classified(narration, PaymentMethod));
    narration := df.Get("Narration").value;
    assert narration == column;
    df.Set("Payment_Platform", Classified(narration, PaymentPlatform));
  }

  /** `main` from the upload on: read, build the frame, classify in place,
      then read the summary off the frame. */
  method ProcessUpload(u: Upload) returns (out: Result<Report, Error>)
    ensures out == Run(u)
  {
    var t :- ReadUpload(u);
    var total := TotalAmount(t);
    var df := new Frame(t);
    if df.Get("Narration").None? {
      return Failure(MissingColumn("Narration"));
    }
    ghost var narration := df.Get("Narration").value;
    AddClassifications(df);
    EnrichedColumns(t, narration, "Narration");

    var methods := df.Get("Payment_Method").value;
    var platforms := df.Get("Payment_Platform").value;
    var cashWithdrawals := CashWithdrawals(platforms);
    var otherTransactions := df.Length() - cashWithdrawals;
    out := Success(Report(df.Value(), total, ValueCounts(methods), ValueCounts(platforms),
                          cashWithdrawals, otherTransactions));
  }

  // ---------------------------------------------------------------------------
  // What holds of every run

  /** A declared type other than the four is rejected before any reader runs. */
  lemma RunRejectsUnsupported(u: Upload)
    requires forall f :: MediaType(f) != u.mediaType
    ensures Run(u) == Failure(UnsupportedFormat)
  {
  }

  /** Without a `Narration` column nothing is classified: the run fails. */
  lemma RunNeedsNarration(u: Upload)
    requires Load(u).Success? && Text("Narration") !in Load(u).value.header
    ensures Run(u) == Failure(MissingColumn("Narration"))
  {
  }

  /** A successful run is the summary of the table the upload loads. */
  lemma RunShape(u: Upload)
    requires Run(u).Success?
    ensures Load(u).Success? && Run(u) == Summarise(Load(u).value)
  {
  }

  /** A summary keeps every row and every column other than the three it sets;
      the total is the marker exactly when there is no `Amount` column; and cash
      withdrawals plus other transactions are all the rows. */
  lemma SummaryKeeps(t: Table, other: string)
    requires Summarise(t).Success?
    requires other != "Name" && other != "Payment_Method" && other != "Payment_Platform"
    ensures var rep := Summarise(t).value;
      && |rep.table.rows| == |t.rows|
      && Column(rep.table, other) == Column(t, other)
      && (rep.total.NotAvailable? <==> Text("Amount") !in t.header)
      && rep.cashWithdrawals + rep.otherTransactions == |rep.table.rows|
  {
    var narration := Column(t, "Narration").value;
    EnrichedColumns(t, narration, other);
    CountSplits(Classified(narration, PaymentPlatform), Text("ATM"));
  }

  /** Row by row, the three new cells are the classifiers applied to that row's
      narration and nothing else: identical narrations get identical cells,
      whatever row they sit in. */
  lemma SummaryClassifiesEachRow(t: Table, k: nat)
    requires Summarise(t).Success? && k < |t.rows|
    ensures var rep := Summarise(t).value;
      var n := CellString(Column(t, "Narration").value[k]);
      && CellString(Column(rep.table, "Name").value[k]) == SenderReceiverName(n)
      && CellString(Column(rep.table, "Payment_Method").value[k]) == PaymentMethod(n)
      && CellString(Column(rep.table, "Payment_Platform").value[k]) == PaymentPlatform(n)
  {
    EnrichedColumns(t, Column(t, "Narration").value, "Narration");
  }

  /** The four tokens are different words, so a count per token counts each row once. */
  lemma MethodTokensDistinct()
    ensures Distinct(MethodTokens)
  {
  }

  /** The five platforms are different words. */
  lemma PlatformNamesDistinct()
    ensures Distinct(PlatformNames)
  {
  }

  /** A column produced by a classifier whose answers are among `labels`
      has its counts under those labels add up to the rows with an answer. */
  lemma ClassifiedCountsCover(narration: seq<Cell>, classify: Option<string> -> Option<string>, labels: seq<string>)
    requires Distinct(labels)
    requires forall x :: classify(x).Some? ==> classify(x).value in labels
    ensures SumCounts(Classified(narration, classify), labels) == Present(Classified(narration, classify))
  {
    var col := Classified(narration, classify);
    forall k | 0 <= k < |col|
      ensures col[k] == Missing || (col[k].Text? && col[k].s in labels)
    {
      if col[k].Text? {
        assert CellString(col[k]) == classify(CellString(narration[k]));
      }
    }
    CountsCoverPresent(col, labels);
  }

  /** The method distribution leaves out only the rows without a method: its
      counts under the four tokens add up to the rows that have one. */
  lemma SummaryMethodCounts(t: Table)
    requires Summarise(t).Success?
    ensures var rep := Summarise(t).value;
      && Column(rep.table, "Payment_Method").Some?
      && var methods := Column(rep.table, "Payment_Method").value;
         && (forall w :: Text(w) in methods ==> Text(w) in rep.methodCounts && rep.methodCounts[Text(w)] == Count(methods, Text(w)))
         && SumCounts(methods, MethodTokens) == Present(methods)
  {
    var narration := Column(t, "Narration").value;
    EnrichedColumns(t, narration, "Narration");
    MethodTokensDistinct();
    ClassifiedCountsCover(narration, PaymentMethod, MethodTokens);
  }

  /** Likewise for the platform distribution and the five platforms. */
  lemma SummaryPlatformCounts(t: Table)
    requires Summarise(t).Success?
    ensures var rep := Summarise(t).value;
      && Column(rep.table, "Payment_Platform").Some?
      && var platforms := Column(rep.table, "Payment_Platform").value;
         && (forall p :: Text(p) in platforms ==> Text(p) in rep.platformCounts && rep.platformCounts[Text(p)] == Count(platforms, Text(p)))
         && SumCounts(platforms, PlatformNames) == Present(platforms)
  {
    var narration := Column(t, "Narration").value;
    EnrichedColumns(t, narration, "Narration");
    PlatformNamesDistinct();
    ClassifiedCountsCover(narration, PaymentPlatform, PlatformNames);
  }

  /** A readable PDF or Word upload yields one record: a single row, counted
      once in the cash-withdrawal split. */
  lemma DocumentRunsOneRecord(u: Upload)
    requires Detect(u.mediaType) == Success(Pdf) || Detect(u.mediaType) == Success(Docx)
    requires u.document.Success?
    ensures Run(u).Success?
    ensures |Run(u).value.table.rows| == 1
    ensures Run(u).value.cashWithdrawals + Run(u).value.otherTransactions == 1
  {
    DocumentLoadsOneRow(u);
    SummaryKeeps(Load(u).value, "Narration");
  }

  /** A two-row statement, a transfer and a cash withdrawal: the amounts add
      up, the transfer counts under its method, and the withdrawal is the one
      ATM row, leaving the transfer as the one other row. */
  lemma StatementSummary(t: Table, transfer: string, withdrawal: string)
    requires transfer == "UPI to JOHN SMITH" && withdrawal == "cash wdl"
    requires t == Grid([Text("Narration"), Text("Amount")], [[Text(transfer), Num(100)], [Text(withdrawal), Num(50)]])
    ensures Summarise(t).Success?
    ensures var rep := Summarise(t).value;
      && rep.total == Sum(150)
      && rep.methodCounts == map[Text("UPI") := 1]
      && rep.platformCounts == map[Text("ATM") := 1]
      && rep.cashWithdrawals == 1 && rep.otherTransactions == 1
  {
    StatementColumns(t, transfer, withdrawal);
    StatementClassified(transfer, withdrawal);
    SingleValueCounts([Text("UPI"), Missing], Text("UPI"));
    SingleValueCounts([Missing, Text("ATM")], Text("ATM"));
  }

  /** The same statement, enriched: the transfer's row carries the payee and
      the method, the withdrawal's row the platform. */
  lemma StatementEnrichment(t: Table, transfer: string, withdrawal: string)
    requires transfer == "UPI to JOHN SMITH" && withdrawal == "cash wdl"
    requires t == Grid([Text("Narration"), Text("Amount")], [[Text(transfer), Num(100)], [Text(withdrawal), Num(50)]])
    ensures Summarise(t).Success?
    ensures var rep := Summarise(t).value;
      && Column(rep.table, "Name") == Some([Text("JOHN SMITH"), Missing])
      && Column(rep.table, "Payment_Method") == Some([Text("UPI"), Missing])
      && Column(rep.table, "Payment_Platform") == Some([Missing, Text("ATM")])
  {
    StatementColumns(t, transfer, withdrawal);
    StatementClassified(transfer, withdrawal);
    EnrichedColumns(t, [Text(transfer), Text(withdrawal)], "Narration");
  }

  lemma StatementColumns(t: Table, transfer: string, withdrawal: string)
    requires t == Grid([Text("Narration"), Text("Amount")], [[Text(transfer), Num(100)], [Text(withdrawal), Num(50)]])
    ensures Column(t, "Narration") == Some([Text(transfer), Text(withdrawal)])
    ensures Column(t, "Amount") == Some([Num(100), Num(50)])
  {
    assert ColumnIndex(t.header, "Narration") == Some(0);
    var texts := Column(t, "Narration").value;
    assert texts[0] == t.rows[0][0] && texts[1] == t.rows[1][0];
    assert texts == [Text(transfer), Text(withdrawal)];
    assert ColumnIndex(t.header, "Amount") == Some(1) by {
      assert "Narration"[0] != "Amount"[0];
    }
    var amounts := Column(t, "Amount").value;
    assert amounts[0] == t.rows[0][1] && amounts[1] == t.rows[1][1];
    assert amounts == [Num(100), Num(50)];
  }

  lemma StatementClassified(transfer: string, withdrawal: string)
    requires transfer == "UPI to JOHN SMITH" && withdrawal == "cash wdl"
    ensures var narration := [Text(transfer), Text(withdrawal)];
      && Classified(narration, SenderReceiverName) == [Text("JOHN SMITH"), Missing]
      && Classified(narration, PaymentMethod) == [Text("UPI"), Missing]
      && Classified(narration, PaymentPlatform) == [Missing, Text("ATM")]
  {
    TransferNamesPayee(transfer);
    TransferHasNoPlatform(transfer);
    CashWdlIsAtm(withdrawal);
    LowerCaseNarrationUnnamed(withdrawal);
    ClassifiedPair(transfer, withdrawal, SenderReceiverName);
    ClassifiedPair(transfer, withdrawal, PaymentMethod);
    ClassifiedPair(transfer, withdrawal, PaymentPlatform);
  }

  lemma ClassifiedPair(a: string, b: string, classify: Option<string> -> Option<string>)
    ensures Classified([Text(a), Text(b)], classify) == [OptionCell(classify(Some(a))), OptionCell(classify(Some(b)))]
  {
  }

  lemma SingleValueCounts(col: seq<Cell>, c: Cell)
    requires c != Missing && (col == [c, Missing] || col == [Missing, c])
    ensures ValueCounts(col) == map[c := 1]
  {
    var m := ValueCounts(col);
    assert Count(col, c) == 1;
    assert m.Keys == {c};
  }
}
