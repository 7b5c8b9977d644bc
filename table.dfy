/**
 * The per-source table of table.go: rows in arrival order plus, per field,
 * the widest display text seen so far; and print, which prunes, widens and
 * orders the columns and lays out the text.
 */
module Tables {
  import opened Display
  import opened Ordering
  import opened Layout

  /** The tracked width of `name`, or 0 (Go's zero value) when it is not tracked. */
  function WidthOf(widths: map<string, nat>, name: string): nat
  {
    if name in widths then widths[name] else 0
  }

  /** The width update addRow makes for one row. */
  function Widen(widths: map<string, nat>, row: Row): (r: map<string, nat>)
    ensures forall k :: k in r <==> k in widths || k in row
    ensures forall k :: k in row ==> r[k] == Max(WidthOf(widths, k), |Text(row[k])|)
    ensures forall k :: k in widths && k !in row ==> r[k] == widths[k]
    ensures forall k :: k in widths ==> widths[k] <= r[k]
  {
    map k | k in widths.Keys + row.Keys ::
      if k in row then Max(WidthOf(widths, k), |Text(row[k])|) else widths[k]
  }

  /** Widen's pointwise description determines it. */
  lemma WidenUnique(widths: map<string, nat>, row: Row, r: map<string, nat>)
    requires forall k :: k in r <==> k in widths || k in row
    requires forall k :: k in row ==> r[k] == Max(WidthOf(widths, k), |Text(row[k])|)
    requires forall k :: k in widths && k !in row ==> r[k] == widths[k]
    ensures r == Widen(widths, row)
  {
  }

  /** The widths tracked by a new table after `rows` were added to it in order. */
  function Widths(rows: seq<Row>): map<string, nat>
  {
    if rows == [] then map[]
    else Widen(Widths(rows[..|rows| - 1]), rows[|rows| - 1])
  }

  /** Reference definition: the longest display text of field `k` over the rows having it, 0 if none. */
  function MaxWidth(rows: seq<Row>, k: string): nat
  {
    if rows == [] then 0
    else
      var last := rows[|rows| - 1];
      Max(MaxWidth(rows[..|rows| - 1], k), if k in last then |Text(last[k])| else 0)
  }

  /** No row's text for `k` is longer than MaxWidth. */
  lemma {:induction false} MaxWidthUpper(rows: seq<Row>, k: string)
    ensures forall i :: 0 <= i < |rows| && k in rows[i] ==> |Text(rows[i][k])| <= MaxWidth(rows, k)
  {
    if rows != [] {
      var n := |rows| - 1;
      MaxWidthUpper(rows[..n], k);
      assert forall i :: 0 <= i < n ==> rows[i] == rows[..n][i];
    }
  }

  /** MaxWidth is 0 when no row has `k`. */
  lemma {:induction false} MaxWidthAbsent(rows: seq<Row>, k: string)
    requires forall i :: 0 <= i < |rows| ==> k !in rows[i]
    ensures MaxWidth(rows, k) == 0
  {
    if rows != [] {
      var n := |rows| - 1;
      assert forall i :: 0 <= i < n ==> rows[i] == rows[..n][i];
      MaxWidthAbsent(rows[..n], k);
    }
  }

  /** When some row has `k`, one of them has a text exactly MaxWidth long. */
  lemma {:induction false} MaxWidthAttained(rows: seq<Row>, k: string)
    requires exists i :: 0 <= i < |rows| && k in rows[i]
    ensures exists i :: 0 <= i < |rows| && k in rows[i] && |Text(rows[i][k])| == MaxWidth(rows, k)
  {
    var n := |rows| - 1;
    var init := rows[..n];
    if exists i :: 0 <= i < n && k in init[i] {
      MaxWidthAttained(init, k);
      var j :| 0 <= j < n && k in init[j] && |Text(init[j][k])| == MaxWidth(init, k);
      assert rows[j] == init[j];
    } else {
      MaxWidthAbsent(init, k);
    }
  }

  /** MaxWidth's three properties together. */
  lemma MaxWidthBounds(rows: seq<Row>, k: string)
    ensures forall i :: 0 <= i < |rows| && k in rows[i] ==> |Text(rows[i][k])| <= MaxWidth(rows, k)
    ensures (exists i :: 0 <= i < |rows| && k in rows[i]) ==>
              exists i :: 0 <= i < |rows| && k in rows[i] && |Text(rows[i][k])| == MaxWidth(rows, k)
    ensures (forall i :: 0 <= i < |rows| ==> k !in rows[i]) ==> MaxWidth(rows, k) == 0
  {
    MaxWidthUpper(rows, k);
    if exists i :: 0 <= i < |rows| && k in rows[i] {
      MaxWidthAttained(rows, k);
    } else {
      MaxWidthAbsent(rows, k);
    }
  }

  /** The incrementally tracked width of every field is its reference MaxWidth. */
  lemma {:induction false} WidthsAreMax(rows: seq<Row>, k: string)
    ensures WidthOf(Widths(rows), k) == MaxWidth(rows, k)
  {
    if rows != [] {
      WidthsAreMax(rows[..|rows| - 1], k);
    }
  }

  /** The tracked fields are exactly the fields of the added rows. */
  lemma {:induction false} WidthsKeys(rows: seq<Row>)
    ensures forall k :: k in Widths(rows) <==> exists i :: 0 <= i < |rows| && k in rows[i]
  {
    if rows != [] {
      var n := |rows| - 1;
      var init := rows[..n];
      WidthsKeys(init);
      assert Widths(rows) == Widen(Widths(init), rows[n]);
      forall k | k in Widths(rows)
        ensures exists i :: 0 <= i < |rows| && k in rows[i]
      {
        if k !in rows[n] {
          var i :| 0 <= i < |init| && k in init[i];
          assert k in rows[i];
        }
      }
      forall k | exists i :: 0 <= i < |rows| && k in rows[i]
        ensures k in Widths(rows)
      {
        var i :| 0 <= i < |rows| && k in rows[i];
        if i < n {
          assert k in init[i];
        }
      }
    }
  }

  /**
   * A tracked width is the largest display-text length of that field over the
   * rows that have it: no such text is longer, and one of them is exactly as long.
   */
  lemma WidthsMax(rows: seq<Row>, k: string)
    requires k in Widths(rows)
    ensures forall i :: 0 <= i < |rows| && k in rows[i] ==> |Text(rows[i][k])| <= Widths(rows)[k]
    ensures exists i :: 0 <= i < |rows| && k in rows[i] && |Text(rows[i][k])| == Widths(rows)[k]
  {
    WidthsAreMax(rows, k);
    WidthsKeys(rows);
    MaxWidthBounds(rows, k);
  }

  /** Adding rows never narrows a tracked width nor forgets a field. */
  lemma {:induction false} WidthsGrow(rows: seq<Row>, more: seq<Row>)
    ensures forall k :: k in Widths(rows) ==> k in Widths(rows + more) && Widths(rows)[k] <= Widths(rows + more)[k]
  {
    if more == [] {
      assert rows + more == rows;
    } else {
      var n := |more| - 1;
      WidthsGrow(rows, more[..n]);
      assert (rows + more)[..|rows + more| - 1] == rows + more[..n];
    }
  }

  /**
   * print's first loop: a field tracked with width 0 is dropped; every other
   * one is widened to at least the length of its own name.
   */
  function Finalized(widths: map<string, nat>): (r: map<string, nat>)
    ensures forall k :: k in r <==> k in widths && widths[k] != 0
  {
    map k | k in widths && widths[k] != 0 :: Max(widths[k], |k|)
  }

  /**
   * The columns print shows for a table holding `rows`: a field survives if
   * and only if some row shows it with non-empty text, and its final width is
   * the larger of its name's length and its widest text.
   */
  lemma SurvivingColumns(rows: seq<Row>, k: string)
    ensures k in Finalized(Widths(rows)) <==> exists i :: 0 <= i < |rows| && k in rows[i] && Text(rows[i][k]) != ""
    ensures k in Finalized(Widths(rows)) ==> Finalized(Widths(rows))[k] == Max(MaxWidth(rows, k), |k|)
  {
    WidthsKeys(rows);
    WidthsAreMax(rows, k);
    MaxWidthBounds(rows, k);
    if exists i :: 0 <= i < |rows| && k in rows[i] && Text(rows[i][k]) != "" {
      var i :| 0 <= i < |rows| && k in rows[i] && Text(rows[i][k]) != "";
      assert |Text(rows[i][k])| > 0;
    }
  }

  /** A table holding one row prints exactly the fields that row shows with non-empty text. */
  lemma SingleRowColumns(row: Row, k: string)
    ensures k in Finalized(Widths([row])) <==> k in row && Text(row[k]) != ""
  {
    SurvivingColumns([row], k);
  }

  /** A table holding one row whose every field shows non-empty text prints all of that row's fields. */
  lemma EveryFieldShown(row: Row)
    requires forall k :: k in row ==> Text(row[k]) != ""
    ensures Finalized(Widths([row])).Keys == row.Keys
  {
    forall k
      ensures k in Finalized(Widths([row])) <==> k in row
    {
      SingleRowColumns(row, k);
    }
  }

  /**
   * A table holding one record with non-empty plain string fields `timestamp`,
   * `level`, `msg` and `source` prints all four, `source` included.
   */
  lemma ObjectLineFields(timestamp: string, level: string, msg: string, source: string)
    requires timestamp != [] && '\n' !in timestamp && '\t' !in timestamp
    requires level != [] && '\n' !in level && '\t' !in level
    requires msg != [] && '\n' !in msg && '\t' !in msg
    requires source != [] && '\n' !in source && '\t' !in source
    ensures var row := map["source" := Str(source), "level" := Str(level), "msg" := Str(msg), "timestamp" := Str(timestamp)];
            Finalized(Widths([row])).Keys == OBJECT_FIELDS
  {
    var row := map["source" := Str(source), "level" := Str(level), "msg" := Str(msg), "timestamp" := Str(timestamp)];
    CleanIdentity(timestamp);
    CleanIdentity(level);
    CleanIdentity(msg);
    CleanIdentity(source);
    assert row.Keys == OBJECT_FIELDS;
    EveryFieldShown(row);
  }

  /**
   * A table holding one fallback record, whose message is a non-empty plain
   * line with its newline still attached, prints `timestamp` and `msg`.
   */
  lemma PlainLineFields(timestamp: string, line: string)
    requires timestamp != [] && '\n' !in timestamp && '\t' !in timestamp
    requires line != [] && '\n' !in line && '\t' !in line
    ensures Finalized(Widths([map["msg" := Str(line + "\n"), "timestamp" := Str(timestamp)]])).Keys == {"timestamp", "msg"}
  {
    var row := map["msg" := Str(line + "\n"), "timestamp" := Str(timestamp)];
    CleanIdentity(timestamp);
    CleanDropsNewline(line);
    assert row.Keys == {"timestamp", "msg"};
    EveryFieldShown(row);
  }


  /**
   * Under the columns of a table, the header fits, and so does every row that
   * has all the columns; the cells of such a row stand exactly under the
   * header's (CellPosition gives both the same character positions).
   */
  lemma AlignedRow(rows: seq<Row>, columns: seq<string>, i: int)
    requires forall c :: c in columns ==> c in Finalized(Widths(rows))
    requires 0 <= i < |rows|
    requires forall c :: c in columns ==> c in rows[i]
    ensures var widths := ColumnWidths(columns, Finalized(Widths(rows)));
            && Fits(Texts(columns, Header), widths)
            && Fits(Texts(columns, Data(rows[i])), widths)
            && |TableLine(columns, Finalized(Widths(rows)), Data(rows[i]))| == TotalWidth(widths)
            && |TableLine(columns, Finalized(Widths(rows)), Header)| == TotalWidth(widths)
  {
    var final := Finalized(Widths(rows));
    var widths := ColumnWidths(columns, final);
    forall j | 0 <= j < |columns|
      ensures |Texts(columns, Header)[j]| <= widths[j]
      ensures |Texts(columns, Data(rows[i]))[j]| <= widths[j]
    {
      CellsAt(columns, final, Header, j);
      CellsAt(columns, final, Data(rows[i]), j);
      var c := columns[j];
      assert c in columns;
      SurvivingColumns(rows, c);
      MaxWidthBounds(rows, c);
    }
    FittingLineLength(Texts(columns, Header), widths);
    FittingLineLength(Texts(columns, Data(rows[i])), widths);
  }

  class Table {
    var fieldWidths: map<string, nat>
    var rows: seq<Row>

    /** The tracked widths are those of the rows added so far. */
    ghost predicate Valid()
      reads this
    {
      fieldWidths == Widths(rows)
    }

    /** `newTable`: no rows, no tracked widths. */
    constructor ()
      ensures fieldWidths == map[] && rows == []
      ensures Valid()
    {
      fieldWidths := map[];
      rows := [];
    }

    /**
     * `addRow`: for each field of `row`, raise its tracked width to the length
     * of its display text; then append `row`, unmodified, to the rows.
     */
    method AddRow(row: Row)
      modifies this
      ensures rows == old(rows) + [row]
      ensures fieldWidths == Widen(old(fieldWidths), row)
      ensures old(Valid()) ==> Valid()
    {
      var pending := row.Keys;
      while pending != {}
        invariant pending <= row.Keys
        invariant rows == old(rows)
        invariant forall k :: k in fieldWidths <==> k in old(fieldWidths) || (k in row && k !in pending)
        invariant forall k :: k in row && k !in pending ==>
                    fieldWidths[k] == Max(WidthOf(old(fieldWidths), k), |Text(row[k])|)
        invariant forall k :: k in old(fieldWidths) && (k !in row || k in pending) ==>
                    fieldWidths[k] == old(fieldWidths)[k]
        decreases |pending|
      {
        var key :| key in pending;
        fieldWidths := fieldWidths[key := Max(WidthOf(fieldWidths, key), |Text(row[key])|)];
        pending := pending - {key};
      }
      WidenUnique(old(fieldWidths), row, fieldWidths);
      rows := rows + [row];
      assert rows[..|rows| - 1] == old(rows);
    }

    /** print's first loop: drop the fields of width 0, widen the others to fit their name. */
    method FinalizeWidths()
      modifies this
      ensures rows == old(rows)
      ensures fieldWidths == Finalized(old(fieldWidths))
    {
      var pending := fieldWidths.Keys;
      while pending != {}
        invariant pending <= old(fieldWidths).Keys
        invariant rows == old(rows)
        invariant forall k :: k in fieldWidths <==>
                    k in old(fieldWidths) && (k in pending || old(fieldWidths)[k] != 0)
        invariant forall k :: k in pending ==> fieldWidths[k] == old(fieldWidths)[k]
        invariant forall k :: k in fieldWidths && k !in pending ==>
                    fieldWidths[k] == Max(old(fieldWidths)[k], |k|)
        decreases |pending|
      {
        var name :| name in pending;
        if fieldWidths[name] == 0 {
          fieldWidths := fieldWidths - {name};
        } else {
          fieldWidths := fieldWidths[name := Max(fieldWidths[name], |name|)];
        }
        pending := pending - {name};
      }
    }

    /**
     * `print`, returning the column order it chose and the lines it writes.
     * The widths are finalized in place, the columns are the surviving fields
     * sorted by priority and lower-cased name, and the lines are the header,
     * one line per row in arrival order, and a blank line.
     */
    method Print() returns (columns: seq<string>, lines: seq<string>)
      modifies this
      ensures rows == old(rows)
      ensures fieldWidths == Finalized(old(fieldWidths))
      ensures IsColumnOrder(columns, fieldWidths.Keys)
      ensures forall c :: c in columns ==> c in fieldWidths
      ensures lines == Render(columns, fieldWidths, rows)
    {
      FinalizeWidths();
      var fields := KeysOf(fieldWidths.Keys);
      columns := SortBy(fields, ColumnKey);
      forall c | c in columns
        ensures c in fieldWidths
      {
        assert c in multiset(columns);
      }
      lines := Lay(columns, fieldWidths, rows);
    }
  }

  /** One line of print: the cells of `columns`, written one after the other. */
  method LayLine(columns: seq<string>, widths: map<string, nat>, kind: LineKind) returns (line: string)
    requires forall c :: c in columns ==> c in widths
    ensures line == TableLine(columns, widths, kind)
  {
    line := "";
    for j := 0 to |columns|
      invariant forall c :: c in columns[..j] ==> c in widths
      invariant line == TableLine(columns[..j], widths, kind)
    {
      TableLineNext(columns, widths, kind, j);
      line := line + Cell(CellOf(kind, columns[j]), widths[columns[j]]);
    }
    assert columns[..|columns|] == columns;
  }

  /** print's output loops: the header, then each row in arrival order, then a blank line. */
  method Lay(columns: seq<string>, widths: map<string, nat>, rows: seq<Row>) returns (lines: seq<string>)
    requires forall c :: c in columns ==> c in widths
    ensures lines == Render(columns, widths, rows)
  {
    var header := LayLine(columns, widths, Header);
    var body := [];
    for i := 0 to |rows|
      invariant body == RowLines(columns, widths, rows[..i])
    {
      var line := LayLine(columns, widths, Data(rows[i]));
      RowLinesNext(columns, widths, rows, i);
      body := body + [line];
    }
    assert rows[..|rows|] == rows;
    lines := [header] + body + [""];
  }
}
