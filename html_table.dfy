/**
 * The HTML table serialiser of Example/ArrayToHtml.js.
 *
 * `new ArrayToHtml(rows).code` is a `reduce` over the rows that starts from
 * the opening `<table>` tag; each row is built by a `forEach` loop that
 * appends one `<th>` (row 0) or `<td>` (every other row) element per cell to
 * a local string, and the closing `</table>` tag is appended at the end.
 * Cell values are converted with `${cell}` and inserted without escaping.
 *
 * Reduced and CellsHtml follow the code's left-to-right accumulation;
 * RowsFrom and Wrapped are independent right-recursive reference definitions
 * of the same document, and CodeStructure proves the two agree.
 */
module HtmlTable {
  import opened JsValue

  /** The attribute ` name="1"`. */
  function OneAttribute(name: string): string {
    " " + name + "=\"1\""
  }

  const TableAttributes: string :=
    OneAttribute("border") + OneAttribute("cellspacing") + OneAttribute("cellpadding")

  /** `<table border="1" cellspacing="1" cellpadding="1">`, the initial value of the reduce. */
  const TableOpen: string := "<table" + TableAttributes + ">"
  const TableClose: string := "</table>"

  /** `h` in the header row 0, `d` in every other row. */
  function TagLetter(i: nat): char {
    if i == 0 then 'h' else 'd'
  }

  /** `<t${x}>${cell}</t${x}>`, with x the tag letter of row i. */
  function CellHtml(cell: Value, i: nat): string {
    "<t" + [TagLetter(i)] + ">" + ToString(cell) + "</t" + [TagLetter(i)] + ">"
  }

  /** The cells of row i as the forEach loop appends them, first to last. */
  function CellsHtml(row: seq<Value>, i: nat): string
    decreases |row|
  {
    if row == [] then "" else CellsHtml(row[..|row| - 1], i) + CellHtml(row[|row| - 1], i)
  }

  /** The string `_tableRow` holds after the forEach loop and the closing `</tr>`. */
  function RowHtml(row: seq<Value>, i: nat): string {
    "<tr>" + CellsHtml(row, i) + "</tr>"
  }

  /** The accumulator of `rows.reduce(callback, initial)` after its first n steps. */
  function Reduced(rows: seq<seq<Value>>, n: nat, initial: string): (r: string)
    requires n <= |rows|
    ensures |r| >= |initial| && r[..|initial|] == initial
  {
    if n == 0 then initial
    else
      var before := Reduced(rows, n - 1, initial);
      assert (before + RowHtml(rows[n - 1], n - 1))[..|initial|] == before[..|initial|];
      before + RowHtml(rows[n - 1], n - 1)
  }

  /** The value of `new ArrayToHtml(rows).code`. */
  function Code(rows: seq<seq<Value>>): (r: string)
    ensures |r| >= |TableOpen| + |TableClose|
    ensures r[..|TableOpen|] == TableOpen && r[|r| - |TableClose|..] == TableClose
  {
    var body := Reduced(rows, |rows|, TableOpen);
    assert (body + TableClose)[..|TableOpen|] == body[..|TableOpen|];
    body + TableClose
  }

  /** The HTML element `<name>text</name>`. */
  function Element(name: string, text: string): string {
    "<" + name + ">" + text + "</" + name + ">"
  }

  /** The element name of the cells of row i. */
  function CellElementName(i: nat): string {
    if i == 0 then "th" else "td"
  }

  /** Each cell as a `name` element, in order (reference definition). */
  function Wrapped(cells: seq<Value>, name: string): string {
    if cells == [] then "" else Element(name, ToString(cells[0])) + Wrapped(cells[1..], name)
  }

  /** One `tr` element per row from index k on, in order (reference definition). */
  function RowsFrom(rows: seq<seq<Value>>, k: nat): string
    decreases |rows| - k
  {
    if k >= |rows| then ""
    else Element("tr", Wrapped(rows[k], CellElementName(k))) + RowsFrom(rows, k + 1)
  }

  lemma {:induction false} WrappedSnoc(cells: seq<Value>, cell: Value, name: string)
    ensures Wrapped(cells + [cell], name) == Wrapped(cells, name) + Element(name, ToString(cell))
  {
    if cells == [] {
      assert [cell][1..] == [];
    } else {
      assert (cells + [cell])[1..] == cells[1..] + [cell];
      WrappedSnoc(cells[1..], cell, name);
    }
  }

  lemma CellIsElement(cell: Value, i: nat)
    ensures CellHtml(cell, i) == Element(CellElementName(i), ToString(cell))
  {
  }

  /** The cells of row i are `th` elements when i is 0 and `td` elements otherwise, one per cell, in order. */
  lemma {:induction false} CellsAreWrapped(row: seq<Value>, i: nat)
    ensures CellsHtml(row, i) == Wrapped(row, CellElementName(i))
  {
    if row != [] {
      var init, last := row[..|row| - 1], row[|row| - 1];
      CellsAreWrapped(init, i);
      assert init + [last] == row;
      WrappedSnoc(init, last, CellElementName(i));
      CellIsElement(last, i);
    }
  }

  /** A row renders as one `tr` element around its cells; an empty row as `<tr></tr>`. */
  lemma RowIsElement(row: seq<Value>, i: nat)
    ensures RowHtml(row, i) == Element("tr", Wrapped(row, CellElementName(i)))
    ensures row == [] ==> RowHtml(row, i) == "<tr></tr>"
  {
    CellsAreWrapped(row, i);
  }

  /** The rows from index k on, as the reduce's callback renders them. */
  function RowsHtmlFrom(rows: seq<seq<Value>>, k: nat): string
    decreases |rows| - k
  {
    if k >= |rows| then "" else RowHtml(rows[k], k) + RowsHtmlFrom(rows, k + 1)
  }

  lemma {:induction false} RowsHtmlFromIsRowsFrom(rows: seq<seq<Value>>, k: nat)
    ensures RowsHtmlFrom(rows, k) == RowsFrom(rows, k)
    decreases |rows| - k
  {
    if k < |rows| {
      RowIsElement(rows[k], k);
      RowsHtmlFromIsRowsFrom(rows, k + 1);
    }
  }

  lemma {:induction false} ReducedThenRest(rows: seq<seq<Value>>, n: nat, initial: string)
    requires n <= |rows|
    ensures Reduced(rows, n, initial) + RowsHtmlFrom(rows, n) == initial + RowsHtmlFrom(rows, 0)
  {
    if n > 0 {
      var before, row, after := Reduced(rows, n - 1, initial), RowHtml(rows[n - 1], n - 1), RowsHtmlFrom(rows, n);
      assert RowsHtmlFrom(rows, n - 1) == row + after;
      assert (before + row) + after == before + (row + after);
      ReducedThenRest(rows, n - 1, initial);
    }
  }

  /** The table is the opening tag, one `tr` element per row in order, and the closing tag. */
  lemma CodeStructure(rows: seq<seq<Value>>)
    ensures Code(rows) == TableOpen + RowsFrom(rows, 0) + TableClose
    ensures rows == [] ==> Code(rows) == TableOpen + TableClose
  {
    ReducedThenRest(rows, |rows|, TableOpen);
    RowsHtmlFromIsRowsFrom(rows, 0);
  }

  /** The characters JavaScript's `.` does not match. */
  predicate IsLineTerminator(c: char) {
    c == '\n' || c == '\r' || c == '\U{2028}' || c == '\U{2029}'
  }

  predicate NoLineTerminator(s: string) {
    forall c :: c in s ==> !IsLineTerminator(c)
  }

  /** The case folding of the regular expression flag `i` on ASCII letters. */
  function Lower(c: char): char {
    if 'A' <= c <= 'Z' then (c as int + 32) as char else c
  }

  predicate SameIgnoringCase(a: string, b: string) {
    |a| == |b| && forall k :: 0 <= k < |a| ==> Lower(a[k]) == Lower(b[k])
  }

  /** `/^<table.*<\/table>$/i.test(s)` */
  predicate LooksLikeTable(s: string) {
    && |s| >= 14
    && SameIgnoringCase(s[..6], "<table")
    && SameIgnoringCase(s[|s| - 8..], "</table>")
    && NoLineTerminator(s[6..|s| - 8])
  }

  predicate CellsWithoutLineBreaks(rows: seq<seq<Value>>) {
    forall i, j :: 0 <= i < |rows| && 0 <= j < |rows[i]| ==> NoLineTerminator(ToString(rows[i][j]))
  }

  lemma ConcatNoLineTerminator(a: string, b: string)
    requires NoLineTerminator(a) && NoLineTerminator(b)
    ensures NoLineTerminator(a + b)
  {
  }

  lemma {:induction false} CellsHtmlNoLineTerminator(row: seq<Value>, i: nat)
    requires forall j :: 0 <= j < |row| ==> NoLineTerminator(ToString(row[j]))
    ensures NoLineTerminator(CellsHtml(row, i))
  {
    if row != [] {
      CellsHtmlNoLineTerminator(row[..|row| - 1], i);
    }
  }

  lemma RowHtmlNoLineTerminator(row: seq<Value>, i: nat)
    requires forall j :: 0 <= j < |row| ==> NoLineTerminator(ToString(row[j]))
    ensures NoLineTerminator(RowHtml(row, i))
  {
    CellsHtmlNoLineTerminator(row, i);
  }

  lemma {:induction false} ReducedNoLineTerminator(rows: seq<seq<Value>>, n: nat, initial: string)
    requires n <= |rows| && CellsWithoutLineBreaks(rows) && NoLineTerminator(initial)
    ensures NoLineTerminator(Reduced(rows, n, initial))
  {
    if n > 0 {
      ReducedNoLineTerminator(rows, n - 1, initial);
      RowHtmlNoLineTerminator(rows[n - 1], n - 1);
      ConcatNoLineTerminator(Reduced(rows, n - 1, initial), RowHtml(rows[n - 1], n - 1));
    }
  }

  lemma SliceNoLineTerminator(s: string, lo: nat, hi: nat)
    requires lo <= hi <= |s| && NoLineTerminator(s)
    ensures NoLineTerminator(s[lo..hi])
  {
  }

  lemma OpenTagStart()
    ensures |TableOpen| >= 6 && TableOpen[..6] == "<table"
  {
  }

  lemma OpenTagNoLineTerminator()
    ensures NoLineTerminator(TableOpen)
  {
  }

  /** When no cell contains a line break, the code matches `/^<table.*<\/table>$/i`. */
  lemma CodeLooksLikeTable(rows: seq<seq<Value>>)
    requires CellsWithoutLineBreaks(rows)
    ensures LooksLikeTable(Code(rows))
  {
    OpenTagStart();
    OpenTagNoLineTerminator();
    ReducedNoLineTerminator(rows, |rows|, TableOpen);
    var s := Code(rows);
    assert NoLineTerminator(TableClose);
    ConcatNoLineTerminator(Reduced(rows, |rows|, TableOpen), TableClose);
    SliceNoLineTerminator(s, 6, |s| - 8);
    assert s[..6] == s[..|TableOpen|][..6];
  }

  /** One step of the row loop: appending cell k extends the partial `_tableRow` by exactly that cell. */
  lemma RowPrefixStep(row: seq<Value>, k: nat, i: nat)
    requires k < |row|
    ensures "<tr>" + CellsHtml(row[..k + 1], i) == ("<tr>" + CellsHtml(row[..k], i)) + CellHtml(row[k], i)
  {
    assert row[..k + 1][..k] == row[..k];
    var cells, cell := CellsHtml(row[..k], i), CellHtml(row[k], i);
    assert "<tr>" + (cells + cell) == ("<tr>" + cells) + cell;
  }

  /** The forEach loop of one row, with `_tableRow` as the accumulator. */
  method RenderRow(row: seq<Value>, i: nat) returns (tableRow: string)
    ensures tableRow == RowHtml(row, i)
  {
    tableRow := "";
    tableRow := tableRow + "<tr>";
    for k := 0 to |row|
      invariant tableRow == "<tr>" + CellsHtml(row[..k], i)
    {
      var cell := CellHtml(row[k], i);
      RowPrefixStep(row, k, i);
      tableRow := tableRow + cell;
    }
    assert row[..|row|] == row;
    tableRow := tableRow + "</tr>";
  }

  class ArrayToHtml {
    const code: string

    constructor (rows: seq<seq<Value>>)
      ensures code == Code(rows)
      ensures code == TableOpen + RowsFrom(rows, 0) + TableClose
    {
      var table := TableOpen;
      for i := 0 to |rows|
        invariant table == Reduced(rows, i, TableOpen)
      {
        var tableRow := RenderRow(rows[i], i);
        table := table + tableRow;
      }
      code := table + TableClose;
      CodeStructure(rows);
    }
  }
}
