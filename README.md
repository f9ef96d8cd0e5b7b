# VillOpt invoice generator — Dafny model

VillOpt is a small Flask application for an optician's practice. A user
uploads a purchase-order spreadsheet (`.xlsx`), and the application writes
one PDF invoice per spreadsheet row into an `invoices` folder. Each invoice
has a fixed letterhead, a details box and an item table.

This project models the logic the application owns:

- **Upload filter** (`Upload`, `upload.dfy`). `allowed_file` accepts a name
  when it contains a dot and the text after its last dot, lower-cased, is
  `xlsx`. Python's `rsplit('.', 1)` is modelled by `RSplitOnce` and `lower()`
  by `ToLower`.
- **Rows and file names** (`Records`, `records.dfy`). A spreadsheet row is a
  map from column name to cell text. `ReadRecord` reads the seven columns in
  the order the generator first touches them, and fails on the first one
  that is missing, as `row[...]` raises `KeyError`. An invoice is saved as
  `invoice_<Invoice Number>.pdf`. `InvoiceNumberOf` reads a number back out of
  such a name.
- **Page layout** (`Layout`, `layout.dfy`). This is the integer geometry of a
  612×792 page with a 40-point margin. The details box is 350×130 with its
  top edge at 552. Inside it sit four labelled detail lines 15 points apart
  and the fixed four-line recipient address 12 points apart; the address is
  placed by a loop (`PlaceAddressLines`). The table's top edge is 20 points
  below the box, and the table is drawn at `table_top - rows * 22`.
- **Item table** (`ItemTable`, `item_table.dfy`). `BuildTable` grows the
  table by appending: a header, the item row, ten blank rows from a loop,
  and a total row that repeats the item's amount text.
- **Generation** (`Invoices`, `invoices.dfy`). `Render` is the
  record-dependent content of one page. `RenderInvoice` is the loop body
  that computes it step by step. `GenerateInvoices` is the loop over the
  rows, and it saves each page into the folder (a map from file name to
  document), overwriting any file with the same name. `Batch` is the
  specification of that loop.

Two behaviours of the program shape the model:

- A row without a needed column raises `KeyError` out of the row loop
  (app.py:67-68, 111-114, 123) and ends the run. Pages saved for earlier
  rows stay in the folder. The spreadsheet reader gives every row the same
  columns, so in the program this failure always happens on the first row
  and nothing is saved; the model's rows are independent maps, so its lemmas
  also describe a failure at a later row.
- The table is anchored at its top edge (app.py:121, 144): it is drawn at
  `table_top - rows * 22`, so a taller table moves its bottom edge down.
  `TableOnPageIff` shows that the bottom stays on the page exactly for
  tables of at most 18 rows.

## Model

| member | source | states |
|---|---|---|
| Upload.RSplitOnce | VillOpt/app.py:27 | Like Python's `rsplit(sep, 1)`: without `sep` the result is `[s]`. Otherwise it is two parts with `s == before + [sep] + after` and no `sep` in `after`. |
| Upload.ToLower | VillOpt/app.py:27 | `.lower()`: the result has the same length and no upper-case ASCII letter; each upper-case ASCII letter becomes the letter 32 code points on, and every other character is kept. |
| Upload.AllowedFile | VillOpt/app.py:21-27 | `allowed_file`: the name contains `.` and the text after its last `.`, lower-cased, is in `{"xlsx"}`. Its closed form is proved in AllowedFileIff. |
| Upload.LastPartUnique | VillOpt/app.py:27 | The text after the last separator is unique: two splits of the same string whose right parts hold no separator have the same right part. |
| Upload.AllowedFileIff | VillOpt/app.py:21-27 | A name is accepted if and only if it has at least 5 characters, the fifth from the end is `.`, and the last four lower-case to `xlsx`. |
| Upload.AllowedFileIgnoresCase | VillOpt/app.py:26-27 | A name is accepted exactly when its lower-cased form is accepted. |
| Upload.AllowedFilePrefix | VillOpt/app.py:26-27 | Putting any text before an accepted name keeps it accepted; only the part after the last dot matters. |
| Upload.AcceptsUpperCaseExtension | VillOpt/app.py:26-27 | `a.XLSX` is accepted. |
| Upload.AcceptsDotExtension | VillOpt/app.py:26-27 | `.xlsx` is accepted, because the text before the dot may be empty. |
| Upload.RejectsNameWithoutDot | VillOpt/app.py:26-27 | `xlsx` and the empty name are rejected, because they contain no dot. |
| Upload.RejectsLaterExtension | VillOpt/app.py:26-27 | `a.xlsx.csv` is rejected, because only the text after the last dot counts. |
| Upload.RejectsXls | VillOpt/app.py:21-27 | `orders.xls` is rejected, because `xls` is not in the allowed set. |
| Records.FirstMissing | VillOpt/app.py:68-123 | Returns the index of the first column, from `from` on, that the row lacks. It returns none at all exactly when the row has every one of those columns. |
| Records.ReadRecord | VillOpt/app.py:68-123 | A row yields a record if and only if it has all seven columns, and the record's fields are those cells. Otherwise the error names the first missing column in the order the generator reads them. |
| Records.InvoiceFileName | VillOpt/app.py:68 | The file name `"invoice_" + number + ".pdf"`; the round trip and injectivity below state what it means. |
| Records.FileNameRoundTrip | VillOpt/app.py:68 | The invoice number is recovered from the file name made from it. |
| Records.FileNameParsed | VillOpt/app.py:68 | Every name of the shape `invoice_…pdf` is the file name of the number it holds. |
| Records.FileNameInjective | VillOpt/app.py:67-69 | Two records get the same file name exactly when their invoice numbers are equal. |
| Layout.DetailsBox | VillOpt/app.py:107-109 | The unfilled rectangle at x = margin, from `top - 130` up to `top`, 350 wide. |
| Layout.DetailLines | VillOpt/app.py:111-114 | The four lines `INVOICE:`, `DATE:`, `SUPPLIER:`, `ORDER NO:`, each label padded to 11 characters and followed by the record's field, at x = margin + 10 and y = `top - 25`, `-40`, `-55`, `-70`. |
| Layout.AddressLayout | VillOpt/app.py:117-119 | The four fixed recipient lines at x = margin + 10 and y = `top - 85 - 12*i`. |
| Layout.TableTop | VillOpt/app.py:121 | The table's top edge, `top - 130 - 20`. |
| Layout.TableOriginY | VillOpt/app.py:144 | The y passed to `drawOn`: `table_top - rows * 22`. |
| Layout.PlaceAddressLines | VillOpt/app.py:117-119 | The loop puts address line `i` at x = margin + 10 and y = `details_top - 85 - 12*i`, with its text from the fixed recipient address. |
| Layout.LinesInsideBox | VillOpt/app.py:107-119 | For any box position and any record, every detail line and address line starts strictly inside the details box. |
| Layout.DetailsBoxOnPage | VillOpt/app.py:70-109 | The details box on the letter page lies within the page. |
| Layout.TableUnderBox | VillOpt/app.py:121-144 | For any row count, the drawn table's top edge is 20 points below the box bottom. |
| Layout.TableOnPageIff | VillOpt/app.py:121-144 | The drawn table's bottom edge is on the page if and only if the table has at most 18 rows. |
| Layout.TableFitsWidth | VillOpt/app.py:127 | The column widths add up to 480, which fits between the two margins. |
| ItemTable.TableData | VillOpt/app.py:122-126 | The header, the item row `[quantity, product, amount]`, ten blank rows and `["", "TOTAL", amount]`, in that order. |
| ItemTable.BuildTable | VillOpt/app.py:122-126 | The appending loop builds exactly `TableData(rec)`. |
| ItemTable.PaddingIsBlank | VillOpt/app.py:124-125 | The padding has `n` rows and every one is `["", "", ""]`. |
| ItemTable.TableShape | VillOpt/app.py:122-127 | For any record the table has 13 rows of 3 cells each, one per column width. Row 0 is the header, row 1 is `[quantity, product, amount]`, rows 2–11 are blank, and row 12 is `["", "TOTAL", amount]`, whose amount cell equals the item's. |
| Invoices.Render | VillOpt/app.py:107-144 | The record-dependent content of one page: the details box at `details_top = 552`, the detail lines, the address lines, and the table at x = margin and y = `table_top - len(table_data) * 22`. |
| Invoices.RenderInvoice | VillOpt/app.py:107-144 | Computing the details, the address loop and the built table step by step gives exactly `Render(rec)`. |
| Invoices.RenderedPageLayout | VillOpt/app.py:107-144 | On every rendered page the lines are inside the box and the box is on the page. The table has 13 rows of column-width arity. Its top edge is 20 below the box, its bottom is at y = 116, and its width is within the margins. |
| Invoices.RenderedPageShowsRecord | VillOpt/app.py:68-126 | The file name's number is the text printed after the `INVOICE:` label. The other three detail lines show date, supplier and order number. The table shows the item, and its total shows the item's amount. |
| Invoices.Batch | VillOpt/app.py:65-145 | The rows in order; a readable row saves its page under its file name, replacing any file there, and the first unreadable row ends the run with its `KeyError`. |
| Invoices.GenerateInvoices | VillOpt/app.py:65-145 | The loop over the rows ends with the folder and outcome that `Batch` specifies. |
| Invoices.BatchCompletesIff | VillOpt/app.py:67-123 | In the model, where every save succeeds, a run completes if and only if every row has all seven columns. |
| Invoices.BatchStopsAtMissing | VillOpt/app.py:67-145 | If row `k` is the first row missing a column, the run raises that column's `KeyError`. The folder then holds exactly what the rows before `k` wrote. |
| Invoices.BatchLeavesOthers | VillOpt/app.py:67-145 | A file that no row's record names keeps its presence and content. |
| Invoices.BatchLastWriteWins | VillOpt/app.py:67-145 | After a completed run, the file of the last row with a given invoice number holds that row's page. |
| Invoices.BatchWritesOnePerNumber | VillOpt/app.py:67-145 | A completed run writes exactly one file for each invoice number in the rows, and no other file. |
| Invoices.BatchOverlays | VillOpt/app.py:67-145 | After any run, completed or not, the folder is the old folder with the run's files laid over it. Which files are written, and how the run ends, do not depend on the old folder. |
| Invoices.BatchIdempotent | VillOpt/app.py:67-145 | Running the same spreadsheet a second time, whether or not the first run completed, ends the same way and leaves the folder as the first run left it. |
| Invoices.DuplicateNumberOverwrites | VillOpt/app.py:67-145 | For two rows with the same invoice number, one file is left, and it holds the second row's page. |

## Left out

- The web routes `upload_file`, `list_invoices`, `download_invoice` and `clear_invoices`, with `flash`, `redirect`, the templates and the secret key. These are HTTP and user-interface plumbing.
- File-system calls: `file.save`, `os.makedirs`, `os.listdir`, `os.remove`, the check for the logo file, and `send_from_directory`. The invoice folder is modelled as a map from file name to document.
- Spreadsheet parsing with `pd.read_excel` and `iterrows`. Rows are given values, and every cell is given as the text that `str()` or an f-string makes of it. How pandas formats numbers (for example `5.0` for a float) is not modelled.
- Drawing with reportlab: the letterhead (logo, company name, credential lines, contact strings), the centred `INVOICE` title, fonts, colours, the table style list, `wrapOn`/`drawOn` and `save`. These are calls into a library the model cannot see. The model records only the positions and texts of the details box, the detail and address lines, and the item table.
- Batch: assumes every save succeeds. In the program `os.path.join` (app.py:68) turns an invoice number containing `/` into a path inside a subdirectory that nothing creates, and `c.save()` (app.py:145) then raises `FileNotFoundError` out of the loop and ends the run; a file name longer than the file system allows fails the same way. The model stores such a name as a plain key and goes on, so BatchCompletesIff and the other batch lemmas describe the model's folder only.
- Batch: file names are compared as exact strings. On a case-insensitive file system `invoice_a1.pdf` and `invoice_A1.pdf` are one file, and FileNameInjective and BatchWritesOnePerNumber do not describe that folder.
- Page dimensions are exact integers (612×792) rather than reportlab's floats.
- Upload.ToLower: only the ASCII letters are mapped, while Python's `str.lower()` covers all of Unicode. When the result is compared with `xlsx` the two agree unless some non-ASCII character lower-cases to `x`, `l` or `s`; that claim is not proved here.
- Rendering as an operation producing PDF bytes: `Render` yields the record-dependent page content, not bytes. Its determinism holds because it is a function.
