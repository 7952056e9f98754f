# Bank-statement narration pipeline, in Dafny

This project models the processing core of `app.py`, a small Streamlit app.
The app takes an uploaded bank statement and reads it into a data frame. A
CSV file or an Excel workbook gives one row per transaction. A PDF or Word
document is meant to give one row holding its whole text. The app then reads
three facts out of each row's `Narration` text:

- the sender or receiver name: the first run of two or more all-capital words
  joined by single whitespace characters;
- the payment method: UPI, IMPS, NEFT or RTGS;
- the payment platform: PhonePe, Paytm, Bharat Pay, ATM or Google Pay.

It then computes the summary behind its charts: the total amount, the method
and platform distributions, and cash withdrawals against other transactions.

Modules:

- `Wrappers`: `Option` and `Result`.
- `Chars`: the ASCII character classes, `str.lower()` and Python's substring
  test `in`.
- `Classify`: `handle_nan` and the three extractors.
  - The two regular expressions are characterised position by position:
    `NameMatch`, `MethodAt`, and the word boundaries.
  - The model of `findall(...)[0]` is proved to be the match at the leftmost start
    and, for the name, the longest match there.
  - The platform chain is proved equal to an ordered rule table.
- `Documents`: the two text extractors, as loops over the page or paragraph
  texts that the parsing libraries return.
- `Tables` and `Errors`: cells, rectangular tables, `df[name]` and
  `df[name] = values`, `process_excel_file`, the one-row document table, and
  the errors that end a run.
- `Frames`: the frame `df` as a class whose columns are set in place.
- `Aggregate`: `sum()`, `value_counts()` and the cash-withdrawal split.
- `Pipeline`: the dispatch on the declared media type, the classification of
  every row, and the whole run as a function (`Run`, `Summarise`). It also
  has an imperative version (`ProcessUpload`) proved equal to that function.

## Model

| member | source | states |
|---|---|---|
| Chars.Contains | app.py:36-45 | `sub in t` holds exactly when `sub` occurs in `t` at some index |
| Chars.Lower | app.py:35 | `str.lower()`: every ASCII capital becomes its lower-case letter, every other character is kept |
| Chars.LowerIdempotent | app.py:35 | lower-casing a lower-cased narration changes nothing |
| Chars.MissingCharNotContained | app.py:36-45 | a keyword containing a character the narration lacks is not in the narration |
| Classify.HandleNan | app.py:22-23 | a missing narration becomes the empty string; a present one is its string form |
| Classify.MissingNarrationUnclassified | app.py:22-23 | a missing narration becomes the empty string, which gives no name, no method and no platform |
| Classify.PaymentPlatform | app.py:34-47 | the platform, when there is one, is one of the five labels |
| Classify.FirstFiring | app.py:36-47 | the reference rule table: the answer is the label of a rule that fires; no answer means no rule fires |
| Classify.FirstFiringIsFirst | app.py:36-47 | when rule `i` is the first rule to fire, its label is the answer, whatever later rules also fire |
| Classify.PaymentPlatformFollowsRules | app.py:34-47 | the if/elif chain on the lower-cased narration equals the ordered rule table |
| Classify.PaymentPlatformIgnoresCase | app.py:35 | a narration and its lower-case form get the same platform |
| Classify.PaytmBeforeGooglePay | app.py:38-45 | a narration with both `paytm` and `@ok`, and no PhonePe keyword, is Paytm |
| Classify.CashWithdrawalIsAtm | app.py:34-43 | a narration whose lower-case text contains `cash wdl` and none of the five keywords tested before it is an ATM transaction |
| Classify.CashWdlIsAtm | app.py:42-43 | the narration `cash wdl` is an ATM transaction |
| Classify.NoKeywordLettersNoPlatform | app.py:34-47 | a narration whose lower-case form lacks `@`, `e`, `y` and `c` has no platform |
| Classify.TransferHasNoPlatform | app.py:34-47 | the narration `UPI to JOHN SMITH` has no platform |
| Classify.MethodTokenAt | app.py:31 | the alternation at one position gives a token that matches there with a boundary after it, or else no token matches there |
| Classify.FirstMethodFrom | app.py:31 | the scan finds the leftmost position with a match, and nothing matches before it |
| Classify.PaymentMethod | app.py:30-32 | the method, when there is one, is one of UPI, IMPS, NEFT, RTGS |
| Classify.PaymentMethodIsFirstMatch | app.py:30-32 | no method exactly when no token followed by a boundary occurs; otherwise the method is the token matched at the leftmost such position |
| Classify.MethodAtUnique | app.py:31 | at most one of the four tokens matches at a position |
| Classify.PaymentMethodIsLeftmost | app.py:30-32 | a token matched at `i`, with no match before `i`, is the method |
| Classify.MethodInsideWord | app.py:31 | no boundary is needed before the token: `XUPI/123` gives UPI |
| Classify.MethodNeedsBoundaryAfter | app.py:31 | a boundary is needed after the token: `UPIX` gives no method |
| Classify.EarlierMethodWins | app.py:31-32 | `NEFT TO UPI` gives NEFT, the earlier of two tokens |
| Classify.RunEnd | app.py:27 | `[A-Z]+` run as far as it goes: every character before the end is a capital, and the end is not |
| Classify.LongestEnd | app.py:27 | the greedy repetition with backtracking: a valid end after `p`, and no valid end after `p` is longer |
| Classify.FirstNameFrom | app.py:27-28 | the leftmost start with a match, the longest match there, and no match at any earlier start |
| Classify.SenderReceiverName | app.py:26-28 | `findall(...)[0]` of the name pattern on the normalised narration: the slice found by the scan from the start, or None when the scan finds nothing |
| Classify.SenderReceiverNameIsFirstMatch | app.py:26-28 | no name exactly when nothing matches; otherwise the name is the longest match at the leftmost start that has one |
| Classify.SenderReceiverNameIs | app.py:26-28 | a match at the leftmost matching start, longest there, is the name |
| Classify.NameHasShape | app.py:27-28 | a name found is two or more runs of capitals joined by single whitespace characters, and it occurs in the narration |
| Classify.NameHasCapitalSpaceCapital | app.py:27 | every name holds a capital, a whitespace character and a capital in a row |
| Classify.DoubleSpaceIsNoName | app.py:27 | `JOHN  SMITH`, with two spaces, has no name |
| Classify.MixedCaseIsNoName | app.py:27 | `JOHN Smith` has no name |
| Classify.TransferNamesPayee | app.py:26-32 | `UPI to JOHN SMITH` gives the name `JOHN SMITH` and the method UPI |
| Classify.LowerCaseNarrationUnnamed | app.py:26-32 | `cash wdl` gives neither a name nor a method |
| Documents.ExtractTextFromPdf | app.py:49-55 | the loop's text is the page texts run together in order |
| Documents.ExtractTextFromDocx | app.py:57-62 | the loop's text is every paragraph followed by a newline, in order |
| Documents.ConcatAppend | app.py:52-54 | extracting two runs of pages one after the other gives the two texts one after the other |
| Documents.ConcatLength | app.py:52-54 | the PDF text is exactly as long as its pages together |
| Documents.PageInPlace | app.py:52-54 | each page's text occurs unchanged right after the text of the pages before it |
| Documents.LinesAreTerminatedParagraphs | app.py:60-61 | the Word text is the newline-terminated paragraphs run together: the newline terminates each paragraph, it does not separate them |
| Documents.LinesLength | app.py:60-61 | the Word text has one character more per paragraph than the paragraphs |
| Documents.LinesEndWithNewline | app.py:61 | a Word document with paragraphs gives text ending in a newline |
| Tables.CellString | app.py:23 | `handle_nan`'s view of a cell: a missing cell is None, text is itself, an integer its decimal digits, any other value its rendering |
| Tables.DigitString | app.py:23 | `str()` of a natural number is a non-empty string of digits |
| Tables.OptionCell | app.py:113-115 | a classifier's `None` is stored as a missing cell, and a value as its text, so reading the cell back gives the classifier's answer |
| Tables.ColumnIndex | app.py:113 | `df['Narration']` finds the first column with that name; there is none exactly when the name is not in the header |
| Tables.Column | app.py:113 | a column has one cell per row |
| Tables.WithColumn | app.py:113-115 | `df[name] = values`: overwrite the first column with that name row by row, or add the column at the right |
| Tables.WithColumnSets | app.py:113-115 | after `df[name] = values` the row count is kept, the column holds exactly `values`, and the name is added at the right if it was new |
| Tables.WithColumnKeeps | app.py:113-115 | `df[name] = values` leaves every other column as it was |
| Tables.ExcelTable | app.py:76 | `pd.DataFrame(data[1:], columns=data[0])`: an empty sheet has no `data[0]`; a body row of another width than the header is an error; otherwise the first row is the header and the rest the rows |
| Tables.ProcessExcelFile | app.py:70-77 | the loop collects the sheet's rows in order; the first row is the header and the others are the data; an empty sheet is an error |
| Tables.DocumentTable | app.py:98 | a document table has a single row |
| Tables.DocumentNarration | app.py:98 | a document table's narration column is the document's whole text |
| Frames.Frame.constructor | app.py:89-92 | the frame holds the loaded table |
| Frames.Frame.Get | app.py:113 | `df[name]`: the column of that name in the table the frame holds |
| Frames.Frame.Length | app.py:143 | `len(df)`: the number of rows the frame holds |
| Frames.Frame.Set | app.py:113-115 | setting a column in place keeps the length, gives that column the new values, and leaves every other column as it was |
| Aggregate.TotalAmount | app.py:108-111 | the total is the not-available marker exactly when there is no `Amount` column |
| Aggregate.AmountSum | app.py:109 | the model's `sum()` over the Amount cells: numbers are added and missing cells add nothing, as pandas skips NaN; the model also skips text cells, which pandas does not (see Left out) |
| Aggregate.AmountSumAppend | app.py:109 | the sum over two blocks of rows is the sum of the two sums |
| Aggregate.AmountSumSkipsAbsent | app.py:109 | a missing amount leaves the total as if its row were absent, as pandas skips NaN; in the model a text amount does too (see Left out) |
| Aggregate.Count | app.py:142 | `(col == v).sum()`: how many cells equal `v`, never more than the rows |
| Aggregate.CountSplits | app.py:142-143 | every row equals `ATM` or does not: the two counts add up to the rows |
| Aggregate.ValueCounts | app.py:125 | the keys are exactly the non-missing values in the column, each with its number of occurrences, which is positive |
| Aggregate.CashWithdrawals | app.py:142 | there are no more cash withdrawals than rows |
| Aggregate.OtherTransactions | app.py:143 | `len(df) - cash_withdrawals` is the number of rows whose platform is not `ATM`, unclassified rows included |
| Aggregate.CountsCoverPresent | app.py:125-132 | when every classified cell carries one of distinct labels, the counts under the labels add up to the classified rows |
| Pipeline.Detect | app.py:88-105 | an accepted type is recognised as the format with that media type; any other type is the unsupported-format error |
| Pipeline.DetectMediaType | app.py:88-99 | each of the four media types is accepted as its own format |
| Pipeline.Load | app.py:88-105 | the corrected reader: the chosen library's table for CSV and Excel, a one-row table of the extracted text for PDF and Word, the library's failure as a read error, and any other type unsupported |
| Pipeline.LoadAsWritten | app.py:88-105 | the reader as written: as `Load` for CSV, Excel and other types; the PDF and Word branches fail on the undefined `process_pdf_file` and `process_docx_file` |
| Pipeline.DocumentUploadsFailAsWritten | app.py:94-103 | as written, every PDF or Word upload fails on an undefined name |
| Pipeline.LoadAgreesOnTables | app.py:88-93 | the corrected reader is the written one for CSV, Excel and unsupported uploads |
| Pipeline.DocumentLoadsOneRow | app.py:94-103 | corrected, a readable document loads as one row whose narration is its whole extracted text |
| Pipeline.Classified | app.py:113-115 | `apply` gives one cell per row, each cell is the classifier applied to that row's narration, and each cell is missing or text |
| Pipeline.Enriched | app.py:113-115 | the table after the three assignments in order: `Name`, then `Payment_Method`, then `Payment_Platform`, each classified from the narration column |
| Pipeline.EnrichedColumns | app.py:113-115 | the three columns are set from the narration, and the row count and every other column are kept |
| Pipeline.Summarise | app.py:107-143 | `main` once a table is loaded: the total, a missing `Narration` column as an error, otherwise the enriched table with both distributions and the cash-withdrawal split |
| Pipeline.Run | app.py:88-143 | the whole of `main` after the upload: the corrected reader followed by the summary, the first error ending the run |
| Pipeline.ReadUpload | app.py:88-103 | the reader chosen by the media type, with its loops, gives the corrected loaded table |
| Pipeline.AddClassifications | app.py:113-115 | the three assignments in place leave the frame holding the enriched table |
| Pipeline.ProcessUpload | app.py:88-143 | the imperative run, through the frame, gives exactly the run's result |
| Pipeline.RunRejectsUnsupported | app.py:104-105 | an upload whose type is none of the four fails as unsupported |
| Pipeline.RunNeedsNarration | app.py:113 | a loaded table without a `Narration` column fails on that missing column |
| Pipeline.RunShape | app.py:88-115 | a successful run has loaded a table and is the summary of it |
| Pipeline.SummaryKeeps | app.py:107-143 | the summary keeps every row and every other column; the total is the marker exactly when there is no `Amount`; cash plus other transactions is the row count |
| Pipeline.SummaryClassifiesEachRow | app.py:113-115 | row by row, the new cells are the three classifiers applied to that row's narration |
| Pipeline.ClassifiedCountsCover | app.py:125-132 | a column classified into distinct labels has label counts that add up to its classified rows |
| Pipeline.SummaryMethodCounts | app.py:125 | the method distribution counts each method present, and its counts add up to the rows that have a method |
| Pipeline.SummaryPlatformCounts | app.py:132 | the same for the platform distribution and the five platforms |
| Pipeline.DocumentRunsOneRecord | app.py:94-143 | corrected, a readable document is one row, counted once in the cash-withdrawal split |
| Pipeline.StatementSummary | app.py:107-143 | a statement with `UPI to JOHN SMITH` for 100 and `cash wdl` for 50 totals 150, counts UPI once and ATM once, and splits into 1 withdrawal and 1 other |
| Pipeline.StatementEnrichment | app.py:113-115 | the same statement gets the name `JOHN SMITH` and method UPI on its first row, and platform ATM on its second |

## Left out

- The user interface is not modelled: Streamlit widgets, the debug line, the charts drawn with matplotlib, and the three download buttons. The model computes the values the charts and headings show.
- `nltk_named_entity_recognition` and the NLTK downloads are left out. The entities of a document are an abstract string, `Upload.entities`, placed in the `Named_Entities` column.
- The file libraries are not modelled: `pd.read_csv`, `openpyxl`, PyMuPDF (`fitz`) and python-docx. What each returns is a parameter of the upload: a parsed table, the sheet's rows, or the page or paragraph texts. Each can be an error.
- `ThreadPoolExecutor` is not modelled. Each document branch waits for its single task, so it runs in sequence.
- Every exception caught at app.py:159-160 is an `Error` value. The text of the message is not modelled.
- For an unsupported type, the app shows two messages: the error of app.py:105, then the one from using the unbound `df`. The model returns one `UnsupportedFormat`.
- Amounts are whole numbers (`Num`). Floating point and NaN in `Amount` are not modelled.
- Aggregate.TotalAmount: a cell that is not a number is skipped. pandas would concatenate text or raise on mixed types.
- Aggregate.AmountSum: a text cell in the `Amount` column adds nothing. pandas would make the column text-typed, and `sum()` would then join the strings or raise `TypeError` on mixed types, caught at app.py:159.
- Aggregate.AmountSumSkipsAbsent: the non-numeric half holds only in the model. A text amount is skipped here, where pandas would join the strings or raise `TypeError`.
- `str()` of a non-string cell is not modelled in general: integers become decimal digits, and any other value is an abstract rendering.
- Chars.IsSpace and Chars.IsWordChar, and with them the regular-expression classes `\s`, `\w` and `\b`, are limited to ASCII. Python also counts non-ASCII letters and spaces.
- Chars.Lower does not model Unicode case mapping for non-ASCII letters.
- Duplicate column names are not modelled: `df[name]` takes the first column with that name.
- Tables.ExcelTable: a body row whose width differs from the header's is the `ColumnCount` error. pandas would pad short rows when the widest row matches the header. openpyxl yields rows of one width, so this does not arise from a real sheet.
- `process_pdf_file` and `process_docx_file` are not part of this model, because app.py never defines them. See Findings.

## Findings

| source | as written | input that shows it | evidently intended | confidence | as-written member | corrected member |
|---|---|---|---|---|---|---|
| app.py:97, app.py:102 | The PDF and Word branches call `process_pdf_file` and `process_docx_file`. Neither is defined anywhere, so the name lookup raises `NameError`. The error is caught at app.py:159, and no document is ever processed (`Pipeline.DocumentUploadsFailAsWritten`). | any upload whose type is `application/pdf`, or the Word media type | extract the text with `extract_text_from_pdf` or `extract_text_from_docx`, and build the one-row frame of app.py:98 and app.py:103 from it (`Pipeline.DocumentLoadsOneRow`) | high; not executed | Pipeline.LoadAsWritten | Pipeline.Load |

Two behaviours of the source worth noting:

- The Word text ends every paragraph with a newline, the last one included. The newline terminates each paragraph rather than separating them (`Documents.LinesAreTerminatedParagraphs`).
- The name pattern joins runs of capitals with any single whitespace character (`\s`): a tab or a newline joins them as a space does.
