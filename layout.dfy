/**
 * The text layout of a rendered table (table.go, print): every cell is
 * `fmt.Sprintf("%-<width>v | ", text)`, a line is the cells of all columns in
 * order, and a table is a header line, one line per row, and a blank line.
 * Lines are given without their terminating newline.
 */
module Layout {
  import opened Display

  function Max(a: nat, b: nat): nat
  {
    if a < b then b else a
  }

  /** The padding `%-Nv` adds: `n` spaces. */
  function Spaces(n: nat): (r: string)
    ensures |r| == n
    ensures forall i :: 0 <= i < n ==> r[i] == ' '
  {
    if n == 0 then "" else Spaces(n - 1) + " "
  }

  /** What follows every cell, the last one included. */
  const SEPARATOR: string := " | "

  /**
   * `%-<width>v` followed by the separator: the text left-justified and padded
   * with spaces to at least `width` characters (never truncated).
   */
  function Cell(text: string, width: nat): (r: string)
    ensures |r| == Max(width, |text|) + |SEPARATOR|
    ensures r[..|text|] == text
    ensures forall i :: |text| <= i < width ==> r[i] == ' '
    ensures r[|r| - |SEPARATOR|..] == SEPARATOR
  {
    var pad := if |text| < width then width - |text| else 0;
    text + Spaces(pad) + SEPARATOR
  }

  /** The cells of `texts`, the i-th padded to `widths[i]`, concatenated in order. */
  function Line(texts: seq<string>, widths: seq<nat>): string
    requires |texts| == |widths|
  {
    if texts == [] then ""
    else
      var n := |texts| - 1;
      Line(texts[..n], widths[..n]) + Cell(texts[n], widths[n])
  }

  /** The length of a line whose every cell fits its column. */
  function TotalWidth(widths: seq<nat>): nat
  {
    if widths == [] then 0
    else TotalWidth(widths[..|widths| - 1]) + widths[|widths| - 1] + |SEPARATOR|
  }

  /** Every text fits within its column's width. */
  predicate Fits(texts: seq<string>, widths: seq<nat>)
    requires |texts| == |widths|
  {
    forall i :: 0 <= i < |texts| ==> |texts[i]| <= widths[i]
  }

  /** A line whose cells all fit has the same length whatever its texts. */
  lemma {:induction false} FittingLineLength(texts: seq<string>, widths: seq<nat>)
    requires |texts| == |widths| && Fits(texts, widths)
    ensures |Line(texts, widths)| == TotalWidth(widths)
  {
    if texts != [] {
      var n := |texts| - 1;
      FittingLineLength(texts[..n], widths[..n]);
    }
  }

  /** The last cell closes the line. */
  lemma LastCellPosition(texts: seq<string>, widths: seq<nat>)
    requires |texts| == |widths| && Fits(texts, widths)
    requires texts != []
    ensures TotalWidth(widths[..|texts| - 1]) <= TotalWidth(widths) == |Line(texts, widths)|
    ensures Line(texts, widths)[TotalWidth(widths[..|texts| - 1])..TotalWidth(widths)] == Cell(texts[|texts| - 1], widths[|texts| - 1])
  {
    var n := |texts| - 1;
    FittingLineLength(texts[..n], widths[..n]);
    var a := Line(texts[..n], widths[..n]);
    var b := Cell(texts[n], widths[n]);
    assert Line(texts, widths) == a + b;
    assert |b| == widths[n] + |SEPARATOR|;
    assert TotalWidth(widths) == |a| + |b|;
    assert (a + b)[|a|..|a| + |b|] == b;
  }

  /**
   * In a line whose cells all fit, cell `i` occupies the same character
   * positions whatever the texts, and holds exactly its padded text.
   */
  lemma {:induction false} CellPosition(texts: seq<string>, widths: seq<nat>, i: nat)
    requires |texts| == |widths| && Fits(texts, widths)
    requires i < |texts|
    ensures TotalWidth(widths[..i]) <= TotalWidth(widths[..i + 1]) <= |Line(texts, widths)|
    ensures Line(texts, widths)[TotalWidth(widths[..i])..TotalWidth(widths[..i + 1])] == Cell(texts[i], widths[i])
  {
    var n := |texts| - 1;
    if i == n {
      LastCellPosition(texts, widths);
      assert widths[..i + 1] == widths;
    } else {
      var a := Line(texts[..n], widths[..n]);
      var b := Cell(texts[n], widths[n]);
      assert Line(texts, widths) == a + b;
      assert texts[..n][..i] == texts[..i] && widths[..n][..i] == widths[..i];
      assert widths[..n][..i + 1] == widths[..i + 1];
      CellPosition(texts[..n], widths[..n], i);
      var lo, hi := TotalWidth(widths[..i]), TotalWidth(widths[..i + 1]);
      assert (a + b)[lo..hi] == a[lo..hi];
    }
  }

  // ---- The lines of a table ----

  /** Which line is being laid out: the header (field names) or a data row. */
  datatype LineKind = Header | Data(row: Row)

  /** The text of column `name` on a line: the raw field name in the header, the display text in a row. */
  function CellOf(kind: LineKind, name: string): string
  {
    match kind
    case Header => name
    case Data(row) => CellText(row, name)
  }

  /** The texts of `columns` on one line. */
  function Texts(columns: seq<string>, kind: LineKind): (r: seq<string>)
    ensures |r| == |columns|
  {
    if columns == [] then []
    else Texts(columns[..|columns| - 1], kind) + [CellOf(kind, columns[|columns| - 1])]
  }

  /** The widths of `columns`, looked up in `widths`. */
  function ColumnWidths(columns: seq<string>, widths: map<string, nat>): (r: seq<nat>)
    requires forall c :: c in columns ==> c in widths
    ensures |r| == |columns|
  {
    if columns == [] then []
    else ColumnWidths(columns[..|columns| - 1], widths) + [widths[columns[|columns| - 1]]]
  }

  /** Cell `j` of a line holds column `j`'s text and width. */
  lemma {:induction false} CellsAt(columns: seq<string>, widths: map<string, nat>, kind: LineKind, j: int)
    requires forall c :: c in columns ==> c in widths
    requires 0 <= j < |columns|
    ensures Texts(columns, kind)[j] == CellOf(kind, columns[j])
    ensures ColumnWidths(columns, widths)[j] == widths[columns[j]]
  {
    var n := |columns| - 1;
    if j < n {
      CellsAt(columns[..n], widths, kind, j);
    }
  }

  /** One line of print for `columns`. */
  function TableLine(columns: seq<string>, widths: map<string, nat>, kind: LineKind): string
    requires forall c :: c in columns ==> c in widths
  {
    Line(Texts(columns, kind), ColumnWidths(columns, widths))
  }

  /** A line grows by one cell per column, in column order. */
  lemma TableLineNext(columns: seq<string>, widths: map<string, nat>, kind: LineKind, j: int)
    requires forall c :: c in columns ==> c in widths
    requires 0 <= j < |columns|
    ensures forall c :: c in columns[..j + 1] ==> c in widths
    ensures TableLine(columns[..j + 1], widths, kind) ==
            TableLine(columns[..j], widths, kind) + Cell(CellOf(kind, columns[j]), widths[columns[j]])
  {
    var prefix := columns[..j + 1];
    assert prefix[..j] == columns[..j] && prefix[j] == columns[j];
    var t, w := Texts(columns[..j], kind), ColumnWidths(columns[..j], widths);
    assert Texts(prefix, kind) == t + [CellOf(kind, columns[j])];
    assert ColumnWidths(prefix, widths) == w + [widths[columns[j]]];
    assert (t + [CellOf(kind, columns[j])])[..j] == t;
    assert (w + [widths[columns[j]]])[..j] == w;
  }

  /** One line per row, in the order of the rows. */
  function RowLines(columns: seq<string>, widths: map<string, nat>, rows: seq<Row>): (r: seq<string>)
    requires forall c :: c in columns ==> c in widths
    ensures |r| == |rows|
    ensures forall i :: 0 <= i < |rows| ==> r[i] == TableLine(columns, widths, Data(rows[i]))
  {
    if rows == [] then []
    else
      var n := |rows| - 1;
      var prefix := RowLines(columns, widths, rows[..n]);
      var last := TableLine(columns, widths, Data(rows[n]));
      PointwiseSnoc(row requires forall c :: c in columns ==> c in widths => TableLine(columns, widths, Data(row)), rows, prefix, last);
      prefix + [last]
  }

  /** Appending `f` of the last element keeps a sequence pointwise equal to `f` over `xs`. */
  lemma PointwiseSnoc<T, U>(f: T --> U, xs: seq<T>, ys: seq<U>, y: U)
    requires |xs| == |ys| + 1
    requires forall i :: 0 <= i < |xs| ==> f.requires(xs[i])
    requires forall i :: 0 <= i < |ys| ==> ys[i] == f(xs[..|ys|][i])
    requires y == f(xs[|ys|])
    ensures forall i :: 0 <= i < |xs| ==> (ys + [y])[i] == f(xs[i])
  {
  }

  /** The body grows by one line per row, in arrival order. */
  lemma RowLinesNext(columns: seq<string>, widths: map<string, nat>, rows: seq<Row>, i: int)
    requires forall c :: c in columns ==> c in widths
    requires 0 <= i < |rows|
    ensures RowLines(columns, widths, rows[..i + 1]) ==
            RowLines(columns, widths, rows[..i]) + [TableLine(columns, widths, Data(rows[i]))]
  {
    assert rows[..i + 1][..i] == rows[..i] && rows[..i + 1][i] == rows[i];
  }

  /** The whole output of print: header, one line per row in arrival order, a blank line. */
  function Render(columns: seq<string>, widths: map<string, nat>, rows: seq<Row>): seq<string>
    requires forall c :: c in columns ==> c in widths
  {
    [TableLine(columns, widths, Header)] + RowLines(columns, widths, rows) + [""]
  }

  /** print writes one header line, then exactly one line per row in arrival order, then one blank line. */
  lemma RenderShape(columns: seq<string>, widths: map<string, nat>, rows: seq<Row>)
    requires forall c :: c in columns ==> c in widths
    ensures var r := Render(columns, widths, rows);
            && |r| == |rows| + 2
            && r[0] == TableLine(columns, widths, Header)
            && (forall i :: 0 <= i < |rows| ==> r[i + 1] == TableLine(columns, widths, Data(rows[i])))
            && r[|r| - 1] == ""
  {
    var body := RowLines(columns, widths, rows);
    forall i | 0 <= i < |rows|
      ensures Render(columns, widths, rows)[i + 1] == TableLine(columns, widths, Data(rows[i]))
    {
      FramedIndex(TableLine(columns, widths, Header), body, "", i);
    }
  }

  lemma FramedIndex<T>(first: T, body: seq<T>, last: T, i: int)
    requires 0 <= i < |body|
    ensures ([first] + body + [last])[i + 1] == body[i]
  {
  }
}
