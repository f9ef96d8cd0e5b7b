/** Where the invoice page places the details box, its text lines and the item
    table (VillOpt/app.py, generate_invoices). Coordinates are PDF points with
    the origin at the bottom-left corner of a US letter page. */
module Layout {
  import opened Records

  const PageWidth := 612
  const PageHeight := 792
  const Margin := 40

  /** Top edge of the details box: 200 points below the top margin. */
  const DetailsTop := PageHeight - Margin - 200
  const BoxWidth := 350
  const BoxHeight := 130
  /** Horizontal indent of every text line inside the box. */
  const TextIndent := 10
  /** Space between the bottom of the details box and the top of the table. */
  const TableGap := 20

  /** The recipient printed under the details; the same on every invoice. */
  const RecipientAddress: seq<string> := ["Vista", "18 Eli Hacohen Street", "Jerusalem", "9551120"]
  const AddressOffset := 85
  const AddressPitch := 12

  const ColWidths: seq<int> := [80, 300, 100]
  const RowHeight := 22

  /** A rectangle given by its lower-left corner and its size. */
  datatype Rect = Rect(x: int, y: int, width: int, height: int)

  /** A string drawn with its baseline starting at (x, y). */
  datatype TextLine = TextLine(x: int, y: int, text: string)

  predicate StrictlyInside(l: TextLine, r: Rect) {
    r.x < l.x < r.x + r.width && r.y < l.y < r.y + r.height
  }

  predicate OnPage(r: Rect) {
    0 <= r.x && r.x + r.width <= PageWidth && 0 <= r.y && r.y + r.height <= PageHeight
  }

  /** The unfilled details rectangle hanging from `top`. */
  function DetailsBox(top: int): Rect {
    Rect(Margin, top - BoxHeight, BoxWidth, BoxHeight)
  }

  /** The four labelled lines of the details box, 15 points apart. */
  function DetailLines(rec: Record, top: int): seq<TextLine> {
    [ TextLine(Margin + TextIndent, top - 25, "INVOICE:   " + rec.invoiceNumber),
      TextLine(Margin + TextIndent, top - 40, "DATE:      " + rec.date),
      TextLine(Margin + TextIndent, top - 55, "SUPPLIER:  " + rec.supplier),
      TextLine(Margin + TextIndent, top - 70, "ORDER NO:  " + rec.orderNumber) ]
  }

  /** Line `i` of the recipient address, `AddressPitch` points below line `i - 1`. */
  function AddressLine(top: int, i: nat): TextLine
    requires i < |RecipientAddress|
  {
    TextLine(Margin + TextIndent, top - AddressOffset - i * AddressPitch, RecipientAddress[i])
  }

  function AddressLayout(top: int): seq<TextLine> {
    seq(|RecipientAddress|, i requires 0 <= i < |RecipientAddress| => AddressLine(top, i))
  }

  /** The loop over the enumerated address lines. */
  method PlaceAddressLines(top: int) returns (lines: seq<TextLine>)
    ensures lines == AddressLayout(top)
  {
    lines := [];
    for i := 0 to |RecipientAddress|
      invariant |lines| == i
      invariant forall j :: 0 <= j < i ==> lines[j] == AddressLine(top, j)
    {
      lines := lines + [TextLine(Margin + TextIndent, top - AddressOffset - i * AddressPitch, RecipientAddress[i])];
    }
  }

  /** The table's top edge: `TableGap` below the details box hanging from `top`. */
  function TableTop(top: int): int {
    top - BoxHeight - TableGap
  }

  function Sum(s: seq<int>): int {
    if s == [] then 0 else s[0] + Sum(s[1..])
  }

  /** The y at which a table of `rowCount` rows is drawn so that its top edge
      is at `tableTop`. */
  function TableOriginY(tableTop: int, rowCount: nat): int {
    tableTop - rowCount * RowHeight
  }

  /** Every detail and address line starts strictly inside the details box,
      whatever the box's height on the page and whatever the record holds. */
  lemma LinesInsideBox(rec: Record, top: int)
    ensures forall l :: l in DetailLines(rec, top) + AddressLayout(top) ==> StrictlyInside(l, DetailsBox(top))
  {
  }

  /** The details box lies on the page. */
  lemma DetailsBoxOnPage()
    ensures OnPage(DetailsBox(DetailsTop))
  {
  }

  /** The table's top edge is `TableGap` points below the details box, for any
      number of rows. */
  lemma TableUnderBox(rowCount: nat)
    ensures TableOriginY(TableTop(DetailsTop), rowCount) + rowCount * RowHeight
         == DetailsBox(DetailsTop).y - TableGap
  {
  }

  /** The table stays on the page exactly when it has at most 18 rows. */
  lemma TableOnPageIff(rowCount: nat)
    ensures TableOriginY(TableTop(DetailsTop), rowCount) >= 0 <==> rowCount <= 18
  {
  }

  /** The columns are 480 points wide together and fit between the margins. */
  lemma TableFitsWidth()
    ensures Sum(ColWidths) == 480
    ensures Margin + Sum(ColWidths) <= PageWidth - Margin
  {
    assert ColWidths[1..][1..][1..] == [];
  }
}
