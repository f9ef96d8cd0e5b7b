/** Turning the rows of an uploaded spreadsheet into one invoice document per
    row, saved in the invoice folder (VillOpt/app.py, generate_invoices). */
module Invoices {
  import opened Records
  import opened Layout
  import opened ItemTable

  /** The item table as drawn: its lower-left corner, column widths, row
      height and cell texts. */
  datatype PlacedTable = PlacedTable(x: int, y: int, colWidths: seq<int>, rowHeight: int, rows: seq<TableRow>)

  /** The record-dependent content of one invoice page and where it stands. */
  datatype Document = Document(
    detailsBox: Rect,
    details: seq<TextLine>,
    address: seq<TextLine>,
    table: PlacedTable)

  /** The page drawn for a record. The table is drawn at
      `table_top - len(table_data) * 22`, so that its top edge is at `table_top`. */
  function Render(rec: Record): Document {
    var rows := TableData(rec);
    Document(
      DetailsBox(DetailsTop),
      DetailLines(rec, DetailsTop),
      AddressLayout(DetailsTop),
      PlacedTable(Margin, TableOriginY(TableTop(DetailsTop), |rows|), ColWidths, RowHeight, rows))
  }

  /** The body of the generator's loop for one record, step by step. */
  method RenderInvoice(rec: Record) returns (doc: Document)
    ensures doc == Render(rec)
  {
    var detailsTop := PageHeight - Margin - 200;
    var box := Rect(Margin, detailsTop - BoxHeight, BoxWidth, BoxHeight);
    var details := DetailLines(rec, detailsTop);
    var address := PlaceAddressLines(detailsTop);
    var tableTop := detailsTop - BoxHeight - TableGap;
    var rows := BuildTable(rec);
    doc := Document(box, details, address,
      PlacedTable(Margin, tableTop - |rows| * RowHeight, ColWidths, RowHeight, rows));
  }

  /** Every rendered page keeps its content in place: the lines inside the
      details box, the box on the page, 13 rows of three cells, the table's top
      edge `TableGap` below the box, its bottom above the page's bottom edge and
      its width between the margins. */
  lemma RenderedPageLayout(rec: Record)
    ensures var doc := Render(rec);
      && (forall l :: l in doc.details + doc.address ==> StrictlyInside(l, doc.detailsBox))
      && OnPage(doc.detailsBox)
      && |doc.table.rows| == 13
      && (forall i :: 0 <= i < |doc.table.rows| ==> |doc.table.rows[i]| == |doc.table.colWidths|)
      && doc.table.y + |doc.table.rows| * doc.table.rowHeight == doc.detailsBox.y - TableGap
      && doc.table.y == 116
      && Margin <= doc.table.x && doc.table.x + Sum(doc.table.colWidths) <= PageWidth - Margin
  {
    LinesInsideBox(rec, DetailsTop);
    TableShape(rec);
    TableFitsWidth();
  }

  /** The invoice number that names the file is the text the page prints after
      the 11-character "INVOICE:" label, and the total printed is the item's amount. */
  lemma RenderedPageShowsRecord(rec: Record)
    ensures var doc := Render(rec);
      && InvoiceNumberOf(FileFor(rec)) == Some(doc.details[0].text[11..])
      && doc.details[1].text[11..] == rec.date
      && doc.details[2].text[11..] == rec.supplier
      && doc.details[3].text[11..] == rec.orderNumber
      && doc.table.rows[1] == [rec.quantity, rec.product, rec.amount]
      && doc.table.rows[12][2] == rec.amount
  {
    FileNameRoundTrip(rec.invoiceNumber);
    TableShape(rec);
  }

  /** The invoice folder: file name to the document saved under it. */
  type Folder = map<string, Document>

  /** How a run ends: every row rendered, or a `KeyError` for a column a row
      lacks, which leaves the loop and ends the run. */
  datatype Outcome = Completed | Raised(missingColumn: string)

  function FileFor(rec: Record): string {
    InvoiceFileName(rec.invoiceNumber)
  }

  predicate AllReadable(rows: seq<Row>) {
    forall i :: 0 <= i < |rows| ==> ReadRecord(rows[i]).Read?
  }

  /** The rows handled in order, each saving its page under its file name and
      replacing any file already there. */
  function Batch(rows: seq<Row>, folder: Folder): (Folder, Outcome)
    decreases |rows|
  {
    if rows == [] then (folder, Completed)
    else
      match ReadRecord(rows[0])
      case MissingColumn(c) => (folder, Raised(c))
      case Read(rec) => Batch(rows[1..], folder[FileFor(rec) := Render(rec)])
  }

  /** The generator's loop over the spreadsheet rows. */
  method GenerateInvoices(rows: seq<Row>, folder: Folder) returns (saved: Folder, outcome: Outcome)
    ensures (saved, outcome) == Batch(rows, folder)
  {
    saved := folder;
    var i := 0;
    while i < |rows|
      invariant 0 <= i <= |rows|
      invariant Batch(rows[i..], saved) == Batch(rows, folder)
    {
      assert rows[i..][1..] == rows[i + 1..];
      var read := ReadRecord(rows[i]);
      match read
      case MissingColumn(c) =>
        outcome := Raised(c);
        return;
      case Read(rec) =>
        var doc := RenderInvoice(rec);
        saved := saved[FileFor(rec) := doc];
      i := i + 1;
    }
    outcome := Completed;
  }

  /** A run completes exactly when every row has all seven columns. */
  lemma {:induction false} BatchCompletesIff(rows: seq<Row>, folder: Folder)
    ensures Batch(rows, folder).1 == Completed <==> AllReadable(rows)
    decreases |rows|
  {
    if rows != [] {
      match ReadRecord(rows[0])
      case MissingColumn(c) =>
      case Read(rec) =>
        BatchCompletesIff(rows[1..], folder[FileFor(rec) := Render(rec)]);
        assert forall i :: 1 <= i < |rows| ==> rows[i] == rows[1..][i - 1];
    }
  }

  /** The first row lacking a column ends the run with that column's
      `KeyError`; the files of the rows before it stay saved, and nothing is
      saved for it or any later row. */
  lemma {:induction false} BatchStopsAtMissing(rows: seq<Row>, folder: Folder, k: nat)
    requires k < |rows| && ReadRecord(rows[k]).MissingColumn?
    requires forall j :: 0 <= j < k ==> ReadRecord(rows[j]).Read?
    ensures Batch(rows, folder) == (Batch(rows[..k], folder).0, Raised(ReadRecord(rows[k]).column))
    decreases k
  {
    if k > 0 {
      var rec := ReadRecord(rows[0]).record;
      assert rows[..k][1..] == rows[1..][..k - 1];
      BatchStopsAtMissing(rows[1..], folder[FileFor(rec) := Render(rec)], k - 1);
    }
  }

  /** A file that no row's record names is left as it was. */
  lemma {:induction false} BatchLeavesOthers(rows: seq<Row>, folder: Folder, name: string)
    requires forall i :: 0 <= i < |rows| && ReadRecord(rows[i]).Read? ==>
      FileFor(ReadRecord(rows[i]).record) != name
    ensures name in Batch(rows, folder).0 <==> name in folder
    ensures name in folder ==> Batch(rows, folder).0[name] == folder[name]
    decreases |rows|
  {
    if rows != [] {
      match ReadRecord(rows[0])
      case MissingColumn(c) =>
      case Read(rec) =>
        assert forall i :: 1 <= i < |rows| ==> rows[i] == rows[1..][i - 1];
        BatchLeavesOthers(rows[1..], folder[FileFor(rec) := Render(rec)], name);
    }
  }

  /** In a completed run, the file of the LAST row with a given invoice number
      holds that row's page: earlier rows with the same number are overwritten. */
  lemma {:induction false} BatchLastWriteWins(rows: seq<Row>, folder: Folder, k: nat)
    requires AllReadable(rows) && k < |rows|
    requires forall j :: k < j < |rows| ==>
      ReadRecord(rows[j]).record.invoiceNumber != ReadRecord(rows[k]).record.invoiceNumber
    ensures var rec := ReadRecord(rows[k]).record;
      FileFor(rec) in Batch(rows, folder).0 && Batch(rows, folder).0[FileFor(rec)] == Render(rec)
    decreases k
  {
    var rec0 := ReadRecord(rows[0]).record;
    var next := folder[FileFor(rec0) := Render(rec0)];
    assert forall i :: 1 <= i < |rows| ==> rows[i] == rows[1..][i - 1];
    if k == 0 {
      forall i | 0 <= i < |rows[1..]| && ReadRecord(rows[1..][i]).Read?
        ensures FileFor(ReadRecord(rows[1..][i]).record) != FileFor(rec0)
      {
        FileNameInjective(ReadRecord(rows[1..][i]).record.invoiceNumber, rec0.invoiceNumber);
      }
      BatchLeavesOthers(rows[1..], next, FileFor(rec0));
    } else {
      BatchLastWriteWins(rows[1..], next, k - 1);
    }
  }

  /** In every run, completed or not, the folder afterwards is the folder
      before with the files of the run laid over it; which files the run
      writes, and how it ends, do not depend on what was in the folder. */
  lemma {:induction false} BatchOverlays(rows: seq<Row>, folder: Folder)
    ensures Batch(rows, folder).0 == folder + Batch(rows, map[]).0
    ensures Batch(rows, folder).1 == Batch(rows, map[]).1
    decreases |rows|
  {
    if rows == [] {
      assert folder + map[] == folder;
    } else {
      match ReadRecord(rows[0])
      case MissingColumn(c) =>
        assert folder + map[] == folder;
      case Read(rec) =>
        var name, doc := FileFor(rec), Render(rec);
        BatchOverlays(rows[1..], folder[name := doc]);
        BatchOverlays(rows[1..], map[name := doc]);
        var later := Batch(rows[1..], map[]).0;
        assert folder[name := doc] + later == folder + (map[name := doc] + later);
    }
  }

  /** A completed run writes one file per distinct invoice number and no other. */
  lemma {:induction false} BatchWritesOnePerNumber(rows: seq<Row>)
    requires AllReadable(rows)
    ensures Batch(rows, map[]).0.Keys == set i | 0 <= i < |rows| :: FileFor(ReadRecord(rows[i]).record)
    decreases |rows|
  {
    if rows != [] {
      var rec := ReadRecord(rows[0]).record;
      assert forall i :: 0 <= i < |rows[1..]| ==> rows[1..][i] == rows[i + 1];
      BatchOverlays(rows[1..], map[FileFor(rec) := Render(rec)]);
      BatchWritesOnePerNumber(rows[1..]);
      var names := set i | 0 <= i < |rows| :: FileFor(ReadRecord(rows[i]).record);
      var later := set i | 0 <= i < |rows[1..]| :: FileFor(ReadRecord(rows[1..][i]).record);
      assert names == {FileFor(rec)} + later by {
        forall n | n in names ensures n in {FileFor(rec)} + later {
          var i :| 0 <= i < |rows| && n == FileFor(ReadRecord(rows[i]).record);
          if i > 0 {
            assert rows[1..][i - 1] == rows[i];
          }
        }
      }
    }
  }

  /** Generating the same spreadsheet again, whether or not the first run
      completed, ends the same way and leaves the folder as the first run left it. */
  lemma BatchIdempotent(rows: seq<Row>, folder: Folder)
    ensures Batch(rows, Batch(rows, folder).0) == Batch(rows, folder)
  {
    var written := Batch(rows, map[]).0;
    BatchOverlays(rows, folder);
    BatchOverlays(rows, folder + written);
    assert (folder + written) + written == folder + written;
  }

  /** Two rows with one invoice number leave a single file, holding the later
      row's page. */
  lemma DuplicateNumberOverwrites(first: Row, second: Row, folder: Folder)
    requires ReadRecord(first).Read? && ReadRecord(second).Read?
    requires ReadRecord(first).record.invoiceNumber == ReadRecord(second).record.invoiceNumber
    ensures var rec := ReadRecord(second).record;
      && Batch([first, second], folder).1 == Completed
      && Batch([first, second], folder).0 == folder[FileFor(rec) := Render(rec)]
  {
    var rows := [first, second];
    var a, b := ReadRecord(first).record, ReadRecord(second).record;
    var once := folder[FileFor(a) := Render(a)];
    assert rows[1..] == [second] && [second][1..] == [];
    assert Batch(rows, folder) == Batch([second], once);
    assert Batch([second], once) == (once[FileFor(b) := Render(b)], Completed);
    assert once[FileFor(b) := Render(b)] == folder[FileFor(b) := Render(b)];
  }
}
