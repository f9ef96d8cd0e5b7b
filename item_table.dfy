/** The rows of the item table on every invoice (VillOpt/app.py,
    `table_data` in generate_invoices). */
module ItemTable {
  import opened Records
  import Layout

  type TableRow = seq<string>

  const HeaderRow: TableRow := ["Quantity", "Description", "Amount"]
  const BlankRow: TableRow := ["", "", ""]
  /** Empty rows put between the item and the total to fill the table. */
  const PaddingRows := 10

  function ItemRow(rec: Record): TableRow {
    [rec.quantity, rec.product, rec.amount]
  }

  /** The total repeats the item's amount text; nothing is summed. */
  function TotalRow(rec: Record): TableRow {
    ["", "TOTAL", rec.amount]
  }

  function Padding(n: nat): seq<TableRow> {
    if n == 0 then [] else Padding(n - 1) + [BlankRow]
  }

  /** The table the generator hands to the table renderer. */
  function TableData(rec: Record): seq<TableRow> {
    [HeaderRow, ItemRow(rec)] + Padding(PaddingRows) + [TotalRow(rec)]
  }

  /** The list built by appending: header, item, ten blank rows, total. */
  method BuildTable(rec: Record) returns (table: seq<TableRow>)
    ensures table == TableData(rec)
  {
    table := [HeaderRow];
    table := table + [ItemRow(rec)];
    var i := 0;
    while i < PaddingRows
      invariant 0 <= i <= PaddingRows
      invariant table == [HeaderRow, ItemRow(rec)] + Padding(i)
    {
      table := table + [BlankRow];
      i := i + 1;
    }
    table := table + [TotalRow(rec)];
  }

  lemma {:induction false} PaddingIsBlank(n: nat)
    ensures |Padding(n)| == n
    ensures forall i :: 0 <= i < n ==> Padding(n)[i] == BlankRow
  {
    if n > 0 {
      PaddingIsBlank(n - 1);
    }
  }

  /** Whatever the record's fields hold, the table has 13 rows of three cells
      (one per column width): the header, the item, ten blank rows and a
      total whose amount is the item's amount. */
  lemma TableShape(rec: Record)
    ensures |TableData(rec)| == 2 + PaddingRows + 1 == 13
    ensures forall i :: 0 <= i < |TableData(rec)| ==> |TableData(rec)[i]| == |Layout.ColWidths|
    ensures TableData(rec)[0] == ["Quantity", "Description", "Amount"]
    ensures TableData(rec)[1] == [rec.quantity, rec.product, rec.amount]
    ensures forall i :: 2 <= i < 12 ==> TableData(rec)[i] == ["", "", ""]
    ensures TableData(rec)[12] == ["", "TOTAL", rec.amount]
    ensures TableData(rec)[12][2] == TableData(rec)[1][2]
  {
    PaddingIsBlank(PaddingRows);
    var t := TableData(rec);
    assert forall i :: 2 <= i < 12 ==> t[i] == Padding(PaddingRows)[i - 2];
  }
}
