/** One spreadsheet row and what the generator reads from it
    (VillOpt/app.py, generate_invoices). */
module Records {

  datatype Option<T> = None | Some(value: T)

  /** The seven fields an invoice is made from. Every field holds the text
      that Python's `str()` (or an f-string) gives for the spreadsheet cell. */
  datatype Record = Record(
    invoiceNumber: string,
    date: string,
    supplier: string,
    orderNumber: string,
    quantity: string,
    product: string,
    amount: string)

  /** A row as the spreadsheet reader hands it over: column name to cell text. */
  type Row = map<string, string>

  /** The columns in the order the generator first reads each of them:
      the file name (line 68), the details box (lines 111-114), then the
      item row (line 123). */
  const Columns: seq<string> :=
    ["Invoice Number", "Date", "Supplier", "Order Number", "Quantity", "Product", "Amount"]

  /** Reading a row either yields the record or fails on the first column
      the row lacks, as `row[...]` raises `KeyError`. */
  datatype ReadResult = Read(record: Record) | MissingColumn(column: string)

  /** The index of the first of `Columns[from..]` that the row lacks. */
  function FirstMissing(row: Row, from: nat): (k: Option<nat>)
    requires from <= |Columns|
    ensures k.None? <==> forall j :: from <= j < |Columns| ==> Columns[j] in row
    ensures k.Some? ==>
      && from <= k.value < |Columns|
      && Columns[k.value] !in row
      && (forall j :: from <= j < k.value ==> Columns[j] in row)
    decreases |Columns| - from
  {
    if from == |Columns| then None
    else if Columns[from] !in row then Some(from)
    else FirstMissing(row, from + 1)
  }

  /** The record a row describes, or the first column it lacks. */
  function ReadRecord(row: Row): (res: ReadResult)
    ensures res.Read? <==> forall j :: 0 <= j < |Columns| ==> Columns[j] in row
    ensures res.Read? ==> res.record == Record(
      row[Columns[0]], row[Columns[1]], row[Columns[2]], row[Columns[3]],
      row[Columns[4]], row[Columns[5]], row[Columns[6]])
    ensures res.MissingColumn? ==>
      exists k :: && 0 <= k < |Columns|
                  && res.column == Columns[k]
                  && Columns[k] !in row
                  && (forall j :: 0 <= j < k ==> Columns[j] in row)
  {
    match FirstMissing(row, 0)
    case Some(k) => MissingColumn(Columns[k])
    case None =>
      Read(Record(
        row[Columns[0]], row[Columns[1]], row[Columns[2]], row[Columns[3]],
        row[Columns[4]], row[Columns[5]], row[Columns[6]]))
  }

  const FileNamePrefix := "invoice_"
  const FileNameSuffix := ".pdf"

  /** The name of the file an invoice is saved under: `invoice_<number>.pdf`
      inside the invoice folder. */
  function InvoiceFileName(number: string): string {
    FileNamePrefix + number + FileNameSuffix
  }

  /** The invoice number a file name was made from, if it has the shape of one. */
  function InvoiceNumberOf(name: string): Option<string> {
    if |name| >= |FileNamePrefix| + |FileNameSuffix|
      && name[..|FileNamePrefix|] == FileNamePrefix
      && name[|name| - |FileNameSuffix|..] == FileNameSuffix
    then Some(name[|FileNamePrefix|..|name| - |FileNameSuffix|])
    else None
  }

  /** The number is recovered from the file name made from it. */
  lemma FileNameRoundTrip(number: string)
    ensures InvoiceNumberOf(InvoiceFileName(number)) == Some(number)
  {
  }

  /** Every name of the invoice shape is the file name of the number it holds. */
  lemma FileNameParsed(name: string)
    requires InvoiceNumberOf(name).Some?
    ensures InvoiceFileName(InvoiceNumberOf(name).value) == name
  {
  }

  /** Two records share an output file exactly when they share an invoice
      number; a second one with the same number overwrites the first. */
  lemma FileNameInjective(a: string, b: string)
    ensures InvoiceFileName(a) == InvoiceFileName(b) <==> a == b
  {
    FileNameRoundTrip(a);
    FileNameRoundTrip(b);
  }
}
