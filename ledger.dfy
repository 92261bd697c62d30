/**
 * The invoice ledger of main.py: a workbook file whose "Invoices" sheet gets a 14-column header
 * row when the file is created (`ensure_workbook`) and one row per saved invoice appended at its
 * end (`append_invoice_row`).
 *
 * The file is modelled by whether it exists and by the rows of each of its sheets; the cells keep
 * the Python value types the code stores (text, booleans, numbers). The timestamp of a row is an
 * input.
 */
module Ledger {
  import opened Wrappers
  import opened Builtins

  /** A cell value as openpyxl stores it. */
  datatype Cell = Text(text: string) | Flag(flag: bool) | Number(number: real) | Whole(whole: int)

  type Row = seq<Cell>

  /** The name of the sheet the ledger writes to. */
  const Sheet: string := "Invoices"

  /** The header row written once, when the file is created. */
  function Header(): (h: Row)
    ensures |h| == 14
    ensures forall i :: 0 <= i < |h| ==> h[i].Text?
  {
    [Text("SavedAt"), Text("From"), Text("Subject"), Text("Date"), Text("HasPDF"), Text("AttachmentNames"),
     Text("Reason"), Text("MessageID"), Text("FromDomain"), Text("ReplyDomain"), Text("AttachmentTypes"),
     Text("AmountGuess"), Text("ML Risk Score"), Text("ML Top Tokens")]
  }

  /**
   * What is saved about one invoice. A missing amount guess and a failed scoring call are `None`;
   * the top tokens are already joined with ", ".
   */
  datatype InvoiceRecord = InvoiceRecord(
    from: string,
    subject: string,
    date: string,
    hasPdf: bool,
    attachNames: seq<string>,
    reason: string,
    messageId: string,
    fromDomain: string,
    replyDomain: string,
    attachmentTypes: string,
    amountGuess: Option<real>,
    mlScore: Option<int>,
    mlTokens: string)

  /** A value that may be missing, stored as the empty text when it is. */
  function RealOrBlank(x: Option<real>): Cell {
    match x
    case None => Text("")
    case Some(v) => Number(v)
  }

  function IntOrBlank(x: Option<int>): Cell {
    match x
    case None => Text("")
    case Some(v) => Whole(v)
  }

  /** The row `append_invoice_row` adds, one cell under each header column. */
  function RowOf(savedAt: string, rec: InvoiceRecord): (r: Row)
    ensures |r| == |Header()|
  {
    [Text(savedAt), Text(rec.from), Text(rec.subject), Text(rec.date), Flag(rec.hasPdf),
     Text(JoinWith(rec.attachNames, ", ")), Text(rec.reason), Text(rec.messageId),
     Text(rec.fromDomain), Text(rec.replyDomain), Text(rec.attachmentTypes),
     RealOrBlank(rec.amountGuess), IntOrBlank(rec.mlScore), Text(rec.mlTokens)]
  }

  /**
   * Under "AmountGuess" a row holds the amount, or "" when none was found; under "ML Risk Score"
   * the score, or "" when scoring failed; under "HasPDF" a boolean.
   */
  lemma {:induction false} RowUnderHeader(savedAt: string, rec: InvoiceRecord)
    ensures var r := RowOf(savedAt, rec);
      && Header()[0] == Text("SavedAt") && r[0] == Text(savedAt)
      && Header()[4] == Text("HasPDF") && r[4] == Flag(rec.hasPdf)
      && Header()[11] == Text("AmountGuess") && (r[11] == Text("") <==> rec.amountGuess.None?)
      && (rec.amountGuess.Some? ==> r[11] == Number(rec.amountGuess.value))
      && Header()[12] == Text("ML Risk Score") && (r[12] == Text("") <==> rec.mlScore.None?)
      && (rec.mlScore.Some? ==> r[12] == Whole(rec.mlScore.value))
      && Header()[13] == Text("ML Top Tokens") && r[13] == Text(rec.mlTokens)
  {
  }

  /** A data row never looks like the header: its "HasPDF" cell is a boolean, not a text. */
  lemma {:induction false} RowIsNotHeader(savedAt: string, rec: InvoiceRecord)
    ensures RowOf(savedAt, rec) != Header()
  {
    assert RowOf(savedAt, rec)[4].Flag?;
  }

  // ---------------------------------------------------------------------------
  // The file
  // ---------------------------------------------------------------------------

  /** `ensure_workbook`: the sheets of the file once opened; a missing file is created with the header only. */
  function Opened(present: bool, sheets: map<string, seq<Row>>): (m: map<string, seq<Row>>)
    ensures present ==> m == sheets
    ensures !present ==> m.Keys == {Sheet} && m[Sheet] == [Header()]
  {
    if present then sheets else map[Sheet := [Header()]]
  }

  /** Opening never changes an existing file, and a new file holds exactly one sheet with the header row. */
  lemma {:induction false} OpenedShape(present: bool, sheets: map<string, seq<Row>>)
    ensures present ==> Opened(present, sheets) == sheets
    ensures !present ==> Opened(present, sheets).Keys == {Sheet} && Opened(present, sheets)[Sheet] == [Header()]
    ensures Opened(true, Opened(present, sheets)) == Opened(present, sheets)
  {
  }

  /**
   * `append_invoice_row` on the file: the row goes at the end of the "Invoices" sheet of the opened
   * file; `None` when an existing file has no such sheet (the lookup raises).
   */
  function Appended(present: bool, sheets: map<string, seq<Row>>, row: Row): (r: Option<map<string, seq<Row>>>)
    ensures r.None? <==> present && Sheet !in sheets
    ensures var m := Opened(present, sheets);
      r.Some? ==> Sheet in m && r.value.Keys == m.Keys && r.value[Sheet] == m[Sheet] + [row]
  {
    var m := Opened(present, sheets);
    if Sheet in m then Some(m[Sheet := m[Sheet] + [row]]) else None
  }

  /**
   * Appending fails exactly when an existing file lacks the sheet. Otherwise it adds the row at the
   * end of the sheet, leaves the earlier rows as they were, and touches no other sheet.
   */
  lemma {:induction false} AppendedShape(present: bool, sheets: map<string, seq<Row>>, row: Row)
    ensures Appended(present, sheets, row).None? <==> present && Sheet !in sheets
    ensures var m := Opened(present, sheets);
      Appended(present, sheets, row).Some? ==>
        && var n := Appended(present, sheets, row).value;
        && n.Keys == m.Keys
        && |n[Sheet]| == |m[Sheet]| + 1
        && n[Sheet][..|m[Sheet]|] == m[Sheet]
        && n[Sheet][|m[Sheet]|] == row
        && (forall k :: k in m && k != Sheet ==> n[k] == m[k])
  {
    var m := Opened(present, sheets);
    if Sheet in m {
      var n := m[Sheet := m[Sheet] + [row]];
      assert n[Sheet][..|m[Sheet]|] == m[Sheet];
    }
  }

  /** A new file gets the header as its first row, and the first invoice right after it. */
  lemma {:induction false} FirstAppendOnNewFile(sheets: map<string, seq<Row>>, row: Row)
    ensures Appended(false, sheets, row) == Some(map[Sheet := [Header(), row]])
  {
    var m := map[Sheet := [Header()]];
    assert [Header()] + [row] == [Header(), row];
    assert m[Sheet := [Header()] + [row]] == map[Sheet := [Header(), row]];
  }

  /** The workbook file the ledger lives in. */
  class Workbook {
    var present: bool
    var sheets: map<string, seq<Row>>

    constructor (present: bool, sheets: map<string, seq<Row>>)
      ensures this.present == present && this.sheets == sheets
    {
      this.present := present;
      this.sheets := sheets;
    }

    /** The rows of the invoice sheet, when the file exists and has one. */
    function Invoices(): (rows: Option<seq<Row>>)
      reads this
      ensures rows.Some? <==> present && Sheet in sheets
      ensures rows.Some? ==> rows.value == sheets[Sheet]
    {
      if present && Sheet in sheets then Some(sheets[Sheet]) else None
    }

    /** `ensure_workbook(path)`: creates the file with the header row when it is missing. */
    method EnsureWorkbook()
      modifies this
      ensures present
      ensures sheets == Opened(old(present), old(sheets))
    {
      if !present {
        sheets := map[Sheet := [Header()]];
        present := true;
      }
    }

    /**
     * `append_invoice_row(path, ...)`: opens (or creates) the file and appends the row for `rec`,
     * stamped `savedAt`. `ok` is false when the lookup of the "Invoices" sheet raises; the file is
     * then left as it was.
     */
    method AppendInvoiceRow(savedAt: string, rec: InvoiceRecord) returns (ok: bool)
      modifies this
      ensures var r := Appended(old(present), old(sheets), RowOf(savedAt, rec));
        && ok == r.Some?
        && present
        && (ok ==> sheets == r.value)
        && (!ok ==> sheets == old(sheets))
    {
      EnsureWorkbook();
      if Sheet !in sheets {
        return false;
      }
      sheets := sheets[Sheet := sheets[Sheet] + [RowOf(savedAt, rec)]];
      ok := true;
    }
  }
}
