/**
 * One container's log stream (main.go, the per-container loop): read it line
 * by line, parse each line, keep the records whose source key the source
 * filter accepts, add each to the table of its source (created on first use),
 * and at the end print every table under a banner, sources in ascending order.
 */
module Grouping {
  import opened Wrappers
  import opened Display
  import opened Ordering
  import opened Layout
  import opened Tables
  import opened LineParser

  /** How the last read of a stream ends: end of stream or a read error. */
  datatype ReadError = Eof | IoError(message: string)

  /**
   * A container's log stream as `ReadBytes('\n')` sees it: the lines that end
   * in a newline (each with its newline), then a final read that returns
   * `tail`, the text after the last newline, together with `end`.
   */
  datatype Stream = Stream(lines: seq<string>, tail: string, end: ReadError)

  /** The records of the newline-terminated lines, in stream order. */
  function ParseAll(lines: seq<string>, decode: string -> Decoded): seq<Row>
    requires forall i :: 0 <= i < |lines| ==> Decodable(lines[i], decode)
  {
    seq(|lines|, i requires 0 <= i < |lines| => ParseLine(lines[i], decode))
  }

  /**
   * The rows each table ends up holding: a record whose source key `matches`
   * rejects is skipped; any other is appended to its key's group, which is
   * started by the first such record.
   */
  function Group(records: seq<Row>, matches: string -> bool): map<string, seq<Row>>
  {
    if records == [] then map[]
    else Place(Group(records[..|records| - 1], matches), records[|records| - 1], matches)
  }

  /** One step of the read loop on the groups: where `record` goes, if anywhere. */
  function Place(groups: map<string, seq<Row>>, record: Row, matches: string -> bool): map<string, seq<Row>>
  {
    if matches(SourceKey(record)) then Extend(groups, SourceKey(record), record) else groups
  }

  /** `record` appended to the group of `source`, which it starts if there is none yet. */
  function Extend(groups: map<string, seq<Row>>, source: string, record: Row): map<string, seq<Row>>
  {
    groups[source := (if source in groups then groups[source] else []) + [record]]
  }

  /** Reading one more line places its record into the groups of the lines before it. */
  lemma GroupNext(lines: seq<string>, i: int, decode: string -> Decoded, matches: string -> bool)
    requires 0 <= i < |lines|
    requires forall j :: 0 <= j < |lines| ==> Decodable(lines[j], decode)
    ensures Group(ParseAll(lines[..i + 1], decode), matches) ==
            Place(Group(ParseAll(lines[..i], decode), matches), ParseLine(lines[i], decode), matches)
  {
    assert ParseAll(lines[..i + 1], decode)[..i] == ParseAll(lines[..i], decode);
  }

  /** Reference definition: the records with source key `source`, in order. */
  function Filter(records: seq<Row>, source: string): seq<Row>
  {
    if records == [] then []
    else
      var rest := Filter(records[..|records| - 1], source);
      if SourceKey(records[|records| - 1]) == source then rest + [records[|records| - 1]] else rest
  }

  /** A source has a group exactly when some record has it as key and the filter accepts it. */
  lemma {:induction false} GroupKeys(records: seq<Row>, matches: string -> bool)
    ensures forall k :: k in Group(records, matches) <==>
              matches(k) && exists i :: 0 <= i < |records| && SourceKey(records[i]) == k
  {
    if records != [] {
      var n := |records| - 1;
      var init := records[..n];
      GroupKeys(init, matches);
      forall k | matches(k) && exists i :: 0 <= i < |records| && SourceKey(records[i]) == k
        ensures k in Group(records, matches)
      {
        var i :| 0 <= i < |records| && SourceKey(records[i]) == k;
        if i < n {
          assert SourceKey(init[i]) == k;
        }
      }
      forall k | k in Group(records, matches)
        ensures exists i :: 0 <= i < |records| && SourceKey(records[i]) == k
      {
        if k != SourceKey(records[n]) {
          var i :| 0 <= i < n && SourceKey(init[i]) == k;
          assert SourceKey(records[i]) == k;
        }
      }
    }
  }

  /** Each group holds exactly its source's records, in stream order. */
  lemma {:induction false} GroupRows(records: seq<Row>, matches: string -> bool)
    ensures forall k :: k in Group(records, matches) ==> Group(records, matches)[k] == Filter(records, k)
  {
    if records != [] {
      var n := |records| - 1;
      var init := records[..n];
      GroupRows(init, matches);
      GroupKeys(init, matches);
      forall k | k in Group(records, matches)
        ensures Group(records, matches)[k] == Filter(records, k)
      {
        if k == SourceKey(records[n]) && k !in Group(init, matches) {
          FilterAbsent(init, k);
        }
      }
    }
  }

  /** A source no record has yields nothing. */
  lemma {:induction false} FilterAbsent(records: seq<Row>, source: string)
    requires forall i :: 0 <= i < |records| ==> SourceKey(records[i]) != source
    ensures Filter(records, source) == []
  {
    if records != [] {
      FilterAbsent(records[..|records| - 1], source);
    }
  }

  /** Every record of a group has that group's source key, so no group is empty. */
  lemma {:induction false} FilterKeys(records: seq<Row>, source: string)
    ensures forall r :: r in Filter(records, source) ==> SourceKey(r) == source
    ensures (exists i :: 0 <= i < |records| && SourceKey(records[i]) == source) ==> Filter(records, source) != []
  {
    if records != [] {
      var n := |records| - 1;
      FilterKeys(records[..n], source);
      if SourceKey(records[n]) != source && exists i :: 0 <= i < |records| && SourceKey(records[i]) == source {
        var i :| 0 <= i < |records| && SourceKey(records[i]) == source;
        assert SourceKey(records[..n][i]) == source;
      }
    }
  }

  // A stream of two lines: a JSON object with source "app", then plain text.

  const FIRST_TIMESTAMP := "2024-01-01T00:00:00Z"
  const FIRST_PAYLOAD := "{\"source\":\"app\",\"level\":\"info\",\"msg\":\"hi\"}\n"
  const SECOND_TIMESTAMP := "2024-01-01T00:00:01Z"
  const SECOND_PAYLOAD := "plain text line\n"

  const EXAMPLE_LINES := [FIRST_TIMESTAMP + " " + FIRST_PAYLOAD, SECOND_TIMESTAMP + " " + SECOND_PAYLOAD]

  /** The first line keeps the object's fields and gains its timestamp. */
  const FIRST_RECORD: Row :=
    map["source" := Str("app"), "level" := Str("info"), "msg" := Str("hi"), "timestamp" := Str(FIRST_TIMESTAMP)]

  /** The second line falls back to its payload, newline included, as `msg`. */
  const SECOND_RECORD: Row := map["msg" := Str(SECOND_PAYLOAD), "timestamp" := Str(SECOND_TIMESTAMP)]

  /** The first example line parses to `FIRST_RECORD`. */
  lemma ExampleFirstRecord(decode: string -> Decoded)
    requires decode(FIRST_PAYLOAD) == Object(map["source" := Str("app"), "level" := Str("info"), "msg" := Str("hi")])
    ensures Decodable(FIRST_TIMESTAMP + " " + FIRST_PAYLOAD, decode)
    ensures ParseLine(FIRST_TIMESTAMP + " " + FIRST_PAYLOAD, decode) == FIRST_RECORD
  {
    SpacedLine(FIRST_TIMESTAMP, FIRST_PAYLOAD, decode);
  }

  /** The second example line parses to `SECOND_RECORD`. */
  lemma ExampleSecondRecord(decode: string -> Decoded)
    requires decode(SECOND_PAYLOAD) == NotObject
    ensures Decodable(SECOND_TIMESTAMP + " " + SECOND_PAYLOAD, decode)
    ensures ParseLine(SECOND_TIMESTAMP + " " + SECOND_PAYLOAD, decode) == SECOND_RECORD
  {
    SpacedLine(SECOND_TIMESTAMP, SECOND_PAYLOAD, decode);
  }

  /** The two example lines parse to the two records above. */
  lemma ExampleRecords(decode: string -> Decoded)
    requires decode(FIRST_PAYLOAD) == Object(map["source" := Str("app"), "level" := Str("info"), "msg" := Str("hi")])
    requires decode(SECOND_PAYLOAD) == NotObject
    ensures forall i :: 0 <= i < |EXAMPLE_LINES| ==> Decodable(EXAMPLE_LINES[i], decode)
    ensures ParseAll(EXAMPLE_LINES, decode) == [FIRST_RECORD, SECOND_RECORD]
  {
    ExampleFirstRecord(decode);
    ExampleSecondRecord(decode);
  }

  /**
   * With a filter that accepts every source, the object line forms the group
   * "app" and the plain line the group "", which prints first.
   */
  lemma ExampleGroups(decode: string -> Decoded, matches: string -> bool)
    requires decode(FIRST_PAYLOAD) == Object(map["source" := Str("app"), "level" := Str("info"), "msg" := Str("hi")])
    requires decode(SECOND_PAYLOAD) == NotObject
    requires forall source :: matches(source)
    ensures forall i :: 0 <= i < |EXAMPLE_LINES| ==> Decodable(EXAMPLE_LINES[i], decode)
    ensures Group(ParseAll(EXAMPLE_LINES, decode), matches) == map["app" := [FIRST_RECORD], "" := [SECOND_RECORD]]
    ensures LexLess("", "app")
  {
    ExampleRecords(decode);
    var records := [FIRST_RECORD, SECOND_RECORD];
    assert SourceKey(FIRST_RECORD) == "app" && SourceKey(SECOND_RECORD) == "";
    assert matches("app") && matches("");
    assert [FIRST_RECORD][..0] == [];
    assert [] + [FIRST_RECORD] == [FIRST_RECORD];
    assert Group([FIRST_RECORD], matches) == map["app" := [FIRST_RECORD]];
    assert records[..1] == [FIRST_RECORD];
    assert [] + [SECOND_RECORD] == [SECOND_RECORD];
  }

  /** The object line's table prints all four of its fields, `source` included. */
  lemma ExampleFirstFields()
    ensures Finalized(Widths([FIRST_RECORD])).Keys == OBJECT_FIELDS
  {
    ObjectLineFields(FIRST_TIMESTAMP, "info", "hi", "app");
  }

  /** The plain line's table prints `timestamp` and `msg`: the shown message loses only its newline. */
  lemma ExampleSecondFields()
    ensures Finalized(Widths([SECOND_RECORD])).Keys == {"timestamp", "msg"}
  {
    ExampleSecondMessage();
    PlainLineFields(SECOND_TIMESTAMP, "plain text line");
  }

  /** The plain line's record holds its message with the newline still attached. */
  lemma ExampleSecondMessage()
    ensures SECOND_RECORD == map["msg" := Str("plain text line" + "\n"), "timestamp" := Str(SECOND_TIMESTAMP)]
  {
    assert SECOND_PAYLOAD == "plain text line" + "\n";
  }


  /** The plain line's message is shown without its newline. */
  lemma ExampleSecondText()
    ensures Clean(SECOND_PAYLOAD) == "plain text line"
  {
    assert SECOND_PAYLOAD == "plain text line" + "\n";
    CleanDropsNewline("plain text line");
  }

  /**
   * The column orders print picks for the two example tables: the object
   * line's table also shows its `source` column, after the fixed names.
   */
  lemma ExampleTableColumns(first: seq<string>, second: seq<string>)
    requires IsColumnOrder(first, Finalized(Widths([FIRST_RECORD])).Keys)
    requires IsColumnOrder(second, Finalized(Widths([SECOND_RECORD])).Keys)
    ensures first == ["timestamp", "level", "msg", "source"]
    ensures second == ["timestamp", "msg"]
  {
    ExampleFirstFields();
    ObjectColumnOrder(first);
    ExampleSecondFields();
    PlainColumnOrder(second);
  }

  /** `tables` holds one distinct, valid table per group, holding that group's rows. */
  ghost predicate Tracks(tables: map<string, Table>, groups: map<string, seq<Row>>)
    reads tables.Values
  {
    && (forall k :: k in tables <==> k in groups)
    && (forall k :: k in tables ==> tables[k].Valid() && tables[k].rows == groups[k])
    && (forall k, k' :: k in tables && k' in tables && k != k' ==> tables[k] != tables[k'])
  }

  /** Add `record` to the table of `source`, creating that table if there is none. */
  method AddToTable(tables: map<string, Table>, source: string, record: Row, ghost groups: map<string, seq<Row>>)
    returns (tables': map<string, Table>)
    requires Tracks(tables, groups)
    modifies tables.Values
    ensures Tracks(tables', Extend(groups, source, record))
    ensures forall k :: k in tables' ==> (k in tables && tables'[k] == tables[k]) || fresh(tables'[k])
  {
    tables' := tables;
    if source !in tables' {
      var t := new Table();
      tables' := tables'[source := t];
    }
    tables'[source].AddRow(record);
  }

  /**
   * The read loop over the newline-terminated lines: `tables` holds one table
   * per key of `Group`, each a distinct new object holding that group's rows
   * with its widths tracked.
   */
  method Collect(lines: seq<string>, decode: string -> Decoded, matches: string -> bool)
    returns (tables: map<string, Table>)
    requires forall i :: 0 <= i < |lines| ==> Decodable(lines[i], decode)
    ensures Tracks(tables, Group(ParseAll(lines, decode), matches))
    ensures forall k :: k in tables ==> fresh(tables[k])
  {
    tables := map[];
    ghost var groups: map<string, seq<Row>> := map[];
    for i := 0 to |lines|
      invariant groups == Group(ParseAll(lines[..i], decode), matches)
      invariant Tracks(tables, groups)
      invariant forall k :: k in tables ==> fresh(tables[k])
    {
      var record := ParseLine(lines[i], decode);
      var source := SourceKey(record);
      GroupNext(lines, i, decode, matches);
      if matches(source) {
        tables := AddToTable(tables, source, record, groups);
      }
      groups := Place(groups, record, matches);
    }
    assert lines[..|lines|] == lines;
  }

  /** The line printed before each source's table (followed by an empty line). */
  function Banner(namespace: string, pod: string, container: string, source: string): string
  {
    "namespace=" + namespace + ", pod=" + pod + ", container=" + container + ", source=" + source
  }

  /** A banner names its source at its end, so different sources get different banners. */
  lemma BannerNamesSource(namespace: string, pod: string, container: string, source: string, other: string)
    ensures var b := Banner(namespace, pod, container, source);
            |b| >= |source| && b[|b| - |source|..] == source
    ensures Banner(namespace, pod, container, source) == Banner(namespace, pod, container, other) ==> source == other
  {
    var prefix := "namespace=" + namespace + ", pod=" + pod + ", container=" + container + ", source=";
    assert Banner(namespace, pod, container, source) == prefix + source;
    assert Banner(namespace, pod, container, other) == prefix + other;
    assert (prefix + source)[|prefix|..] == source;
    assert (prefix + other)[|prefix|..] == other;
  }

  /** `columns[i]` is the column order `print` picks for the rows of `sources[i]`. */
  ghost predicate Laid(sources: seq<string>, columns: seq<seq<string>>, groups: map<string, seq<Row>>)
  {
    |columns| == |sources| &&
    forall i :: 0 <= i < |sources| ==>
      sources[i] in groups && IsColumnOrder(columns[i], Finalized(Widths(groups[sources[i]])).Keys)
  }

  /** A column order lists only fields of the table. */
  lemma ColumnsPresent(columns: seq<string>, widths: map<string, nat>)
    requires IsColumnOrder(columns, widths.Keys)
    ensures forall c :: c in columns ==> c in widths
  {
    forall c | c in columns
      ensures c in widths
    {
      assert c in multiset(columns);
    }
  }

  /** One source's output: the banner, an empty line, then its table. */
  ghost function Block(namespace: string, pod: string, container: string, source: string,
                       columns: seq<string>, rows: seq<Row>): seq<string>
    requires IsColumnOrder(columns, Finalized(Widths(rows)).Keys)
  {
    ColumnsPresent(columns, Finalized(Widths(rows)));
    [Banner(namespace, pod, container, source), ""] + Render(columns, Finalized(Widths(rows)), rows)
  }

  /** The output of the sources in the order given, one block after another. */
  ghost function Blocks(namespace: string, pod: string, container: string, sources: seq<string>,
                        columns: seq<seq<string>>, groups: map<string, seq<Row>>): seq<string>
    requires Laid(sources, columns, groups)
  {
    if sources == [] then []
    else
      var n := |sources| - 1;
      assert Laid(sources[..n], columns[..n], groups);
      Blocks(namespace, pod, container, sources[..n], columns[..n], groups) +
      Block(namespace, pod, container, sources[n], columns[n], groups[sources[n]])
  }

  /** A prefix one longer is the prefix with the next element appended. */
  lemma PrefixNext(xs: seq<string>, i: int)
    requires 0 <= i < |xs|
    ensures xs[..i + 1] == xs[..i] + [xs[i]]
  {
  }

  /** Laying out one more source after the others. */
  lemma LaidNext(sources: seq<string>, columns: seq<seq<string>>, groups: map<string, seq<Row>>,
                 source: string, cols: seq<string>)
    requires Laid(sources, columns, groups)
    requires source in groups && IsColumnOrder(cols, Finalized(Widths(groups[source])).Keys)
    ensures Laid(sources + [source], columns + [cols], groups)
  {
    var sources', columns' := sources + [source], columns + [cols];
    forall i | 0 <= i < |sources'|
      ensures sources'[i] in groups && IsColumnOrder(columns'[i], Finalized(Widths(groups[sources'[i]])).Keys)
    {
      if i < |sources| {
        assert sources'[i] == sources[i] && columns'[i] == columns[i];
      }
    }
  }

  /** The output of one more source is its block after the others'. */
  lemma BlocksNext(namespace: string, pod: string, container: string, sources: seq<string>,
                   columns: seq<seq<string>>, groups: map<string, seq<Row>>, source: string, cols: seq<string>)
    requires Laid(sources, columns, groups)
    requires source in groups && IsColumnOrder(cols, Finalized(Widths(groups[source])).Keys)
    requires Laid(sources + [source], columns + [cols], groups)
    ensures Blocks(namespace, pod, container, sources + [source], columns + [cols], groups) ==
            Blocks(namespace, pod, container, sources, columns, groups) +
            Block(namespace, pod, container, source, cols, groups[source])
  {
    assert (sources + [source])[..|sources|] == sources;
    assert (columns + [cols])[..|sources|] == columns;
  }

  /** Print one source's table under its banner. */
  method PrintSource(namespace: string, pod: string, container: string, source: string,
                     t: Table, ghost rows: seq<Row>)
    returns (columns: seq<string>, block: seq<string>)
    requires t.Valid() && t.rows == rows
    modifies t
    ensures IsColumnOrder(columns, Finalized(Widths(rows)).Keys)
    ensures block == Block(namespace, pod, container, source, columns, rows)
  {
    var lines;
    columns, lines := t.Print();
    block := [Banner(namespace, pod, container, source), ""] + lines;
  }

  /** `lo.Keys` then `sort.Strings`: the sources, each once, in ascending order. */
  method SortedSources(tables: map<string, Table>) returns (sources: seq<string>)
    ensures multiset(sources) == multiset(tables.Keys)
    ensures forall i, j :: 0 <= i < j < |sources| ==> LexLess(sources[i], sources[j])
  {
    var keys := KeysOf(tables.Keys);
    sources := SortBy(keys, PlainKey);
    SortedSetStrictlyAscending(sources, tables.Keys);
  }

  /**
   * Print every table, sources in ascending order, each under its banner.
   * `groups` names the rows the tables hold on entry.
   */
  method Emit(namespace: string, pod: string, container: string, tables: map<string, Table>,
              ghost groups: map<string, seq<Row>>)
    returns (sources: seq<string>, ghost columns: seq<seq<string>>, out: seq<string>)
    requires Tracks(tables, groups)
    modifies tables.Values
    ensures multiset(sources) == multiset(groups.Keys)
    ensures forall i, j :: 0 <= i < j < |sources| ==> LexLess(sources[i], sources[j])
    ensures Laid(sources, columns, groups)
    ensures out == Blocks(namespace, pod, container, sources, columns, groups)
  {
    assert tables.Keys == groups.Keys;
    sources := SortedSources(tables);
    SetMultisetDistinct(sources, tables.Keys);
    assert forall j :: 0 <= j < |sources| ==> sources[j] in multiset(sources);
    var ts := seq(|sources|, i requires 0 <= i < |sources| => tables[sources[i]]);
    columns, out := PrintAll(namespace, pod, container, sources, ts, groups);
  }

  /** Print the tables `ts` of `sources`, in that order, each under its banner. */
  method PrintAll(namespace: string, pod: string, container: string, sources: seq<string>,
                  ts: seq<Table>, ghost groups: map<string, seq<Row>>)
    returns (ghost columns: seq<seq<string>>, out: seq<string>)
    requires |ts| == |sources|
    requires forall i :: 0 <= i < |sources| ==> sources[i] in groups && ts[i].Valid() && ts[i].rows == groups[sources[i]]
    requires forall i, j :: 0 <= i < j < |ts| ==> ts[i] != ts[j]
    modifies set t | t in ts
    ensures Laid(sources, columns, groups)
    ensures out == Blocks(namespace, pod, container, sources, columns, groups)
  {
    columns := [];
    out := [];
    for i := 0 to |sources|
      invariant |columns| == i
      invariant forall j :: i <= j < |ts| ==> unchanged(ts[j])
      invariant Laid(sources[..i], columns, groups)
      invariant out == Blocks(namespace, pod, container, sources[..i], columns, groups)
    {
      var source := sources[i];
      var t := ts[i];
      assert t.Valid() by {
        assert old(t.Valid());
      }
      var cols, block := PrintSource(namespace, pod, container, source, t, groups[source]);
      PrefixNext(sources, i);
      LaidNext(sources[..i], columns, groups, source, cols);
      BlocksNext(namespace, pod, container, sources[..i], columns, groups, source, cols);
      out := out + block;
      columns := columns + [cols];
    }
    assert sources[..|sources|] == sources;
  }

  /**
   * One container: `Failure` with the read error's message when the stream
   * ends in one (nothing is printed for it); otherwise the tables of
   * `Group` printed in ascending source order. The unterminated tail of the
   * stream is dropped either way.
   */
  method ProcessContainer(namespace: string, pod: string, container: string, stream: Stream,
                          decode: string -> Decoded, matches: string -> bool)
    returns (result: Result<seq<string>, string>, ghost sources: seq<string>, ghost columns: seq<seq<string>>)
    requires forall i :: 0 <= i < |stream.lines| ==> Decodable(stream.lines[i], decode)
    ensures stream.end.IoError? ==> result == Failure(stream.end.message)
    ensures stream.end.Eof? ==>
              var groups := Group(ParseAll(stream.lines, decode), matches);
              && multiset(sources) == multiset(groups.Keys)
              && (forall i, j :: 0 <= i < j < |sources| ==> LexLess(sources[i], sources[j]))
              && Laid(sources, columns, groups)
              && result == Success(Blocks(namespace, pod, container, sources, columns, groups))
  {
    var tables := Collect(stream.lines, decode, matches);
    if stream.end.IoError? {
      return Failure(stream.end.message), [], [];
    }
    ghost var groups := Group(ParseAll(stream.lines, decode), matches);
    var out;
    sources, columns, out := Emit(namespace, pod, container, tables, groups);
    result := Success(out);
  }
}
