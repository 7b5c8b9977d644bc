# k8slog core, modelled in Dafny

k8slog streams the logs of Kubernetes containers and prints them as text tables.
Each log line is `<timestamp> <payload>`. The payload is a JSON object or plain text.

For one container, the program does four things:
- It parses every line into a record.
- It groups the records by their `source` field, keeping only the sources a regular-expression filter accepts.
- It collects each group into a table that tracks, per field, the widest display text seen so far.
- At the end of the stream it prints every table under a banner line, sources in ascending order.

Printing a table (`print` in table.go) works in three steps:
- It drops the fields whose widest text is empty, and widens every other column to at least the length of its name.
- It orders the columns: first `timestamp`, `level`, `filename`, `linenumber` and `msg` in that order, then all other names, by lower-cased name.
- It writes a header line, one line per row in arrival order, and a blank line. Every cell is left-justified, padded to its column width and followed by `" | "`.

The model has seven modules:

| module | file | models |
|---|---|---|
| `Wrappers` | wrappers.dfy | `Option` and `Result` |
| `Display` | display.dfy | field values, their `%v` text, and the newline and tab clean-up |
| `Ordering` | ordering.dfy | the string order, the generic sort by key, the key listing of a map, and print's column order |
| `Layout` | layout.dfy | cells, lines and the rendered table as text |
| `Tables` | table.dfy | the reference definition of the tracked widths and the `Table` class (`newTable`, `addRow`, `print`) |
| `LineParser` | parse.dfy | `bytes.Cut`, decoding with the `msg` fallback, the injected timestamp, the source key |
| `Grouping` | grouping.dfy | the per-container read loop, grouping by source, and the sorted output |

How the code is modelled:
- Imperative code keeps its form. `Table` is a class whose methods update `fieldWidths` and `rows`.
- The loops over Go maps pick an arbitrary remaining key (`:|`), because Go's iteration order is unspecified. `lo.Keys` is modelled the same way.
- The table and output methods (`Table.AddRow`, `Table.Print`, `LayLine`, `Lay`, `Collect`, `Emit`) are proved against specification functions: `Widths`, `Finalized`, `Render`, `Group` and the output definition `Blocks`. `Widths` and `Group` are tied by lemmas to independent reference definitions (`MaxWidth`, `Filter`); `Finalized` and `Render` to the properties the program promises.
- The sorting and key-listing methods (`SortBy`, `KeysOf`, `SortedSources`) are proved against the order predicate `SortedBy` and multiset equalities, not against a function.
- `Blocks` is itself the definition of the output (a banner, an empty line and the rendered table per source); no further lemma relates it to anything else.

Output is returned as a sequence of lines without their newline characters; it is not written to standard output. `Table.Print` also returns the column order it chose.

Where the code differs from how the program's behaviour is usually described, the model follows the code:
- A line with no space is all timestamp. `bytes.Cut` puts the whole line before the separator, so the payload is empty and the record is `{msg: "", timestamp: <line>}` (`LineParser.NoSpaceLine`).
- The fallback `msg` keeps the line's trailing newline, because `ReadBytes` returns it. The newline disappears only from the displayed text, when newlines are removed.
- A row that lacks a field shows `<nil>` in that column, but `<nil>` never counts towards the column width. Such a row can overflow a column narrower than five characters. `Tables.AlignedRow` therefore promises alignment only for rows that hold every column.
- The `source` field is not removed from a record before it is added to its table, so it is printed as a column like any other field. In the usual two-line example (an object line with `source`, `level` and `msg`, then a plain line), the "app" table has the columns timestamp, level, msg and source, not only timestamp, level and msg (`Grouping.ExampleTableColumns`).

## Model

| member | source | states |
|---|---|---|
| Display.Stringify | table.go:24 | the `%v` text is empty exactly for an empty string (or an empty formatted value); `nil` shows as `<nil>` |
| Display.RemoveNewlines | table.go:25 | no newline is left; the length drops by exactly the number of newlines; tabs are kept |
| Display.ExpandTabs | table.go:26 | no tab is left; every tab adds seven characters; no newline is introduced |
| Display.Clean | table.go:24-26 | the display text holds neither newline nor tab, and its length is the raw length minus the newlines plus seven per tab |
| Display.RemoveNewlinesAppend | table.go:25 | newline removal works character by character: it distributes over concatenation |
| Display.ExpandTabsAppend | table.go:26 | tab expansion works character by character: it distributes over concatenation |
| Display.CleanAppend | table.go:24-26 | the display text of a concatenation is the concatenation of the display texts |
| Display.CleanChar | table.go:25-26 | one character displays as nothing (newline), eight spaces (tab) or itself (anything else), so every other character is kept in order |
| Display.CleanIdentity | table.go:24-26 | text with no newline or tab is shown unchanged, so cleaning is idempotent |
| Display.CleanDropsNewline | table.go:25 | a line's trailing newline is not shown: plain text followed by a newline displays as the text |
| Display.CellText | table.go:68-70 | a field the row has shows its cleaned `%v` text, a field it lacks shows `<nil>`; either way no newline or tab |
| Ordering.Lower | table.go:54 | lower-casing keeps the length, leaves no upper-case letter, maps each upper-case letter to its lower-case form and keeps every other character |
| Ordering.LowerIdempotent | table.go:54 | lower-casing a lower-cased name changes nothing |
| Ordering.LexFirstDifference | table.go:58 | Go's string `<`: `a < b` exactly when, at the first position where they differ, `a` has the smaller character or has ended |
| Ordering.LexIrreflexive | table.go:58 | Go's string `<` is irreflexive |
| Ordering.LexTransitive | table.go:58 | Go's string `<` is transitive |
| Ordering.LexTotal | table.go:58 | of two different strings, one is less than the other |
| Ordering.LexAsymmetric | table.go:58 | no two strings are each less than the other |
| Ordering.KeyLessOrder | table.go:54-58 | the comparator (priority first, then name) is a strict total order on sort keys |
| Ordering.Insert | table.go:45-59 | inserting into a sorted sequence keeps it sorted and adds exactly that element |
| Ordering.SortBy | table.go:45-59 | the sort returns a permutation of its input, sorted by the key |
| Ordering.KeysOf | table.go:43 | `lo.Keys` lists every key exactly once |
| Ordering.SortedUnique | table.go:45-59 | two sorted permutations of each other are equal when the key tells their elements apart, so the unstable sort's result is determined |
| Ordering.SetMultisetDistinct | main.go:130 | the listed keys are pairwise distinct |
| Ordering.SortedSetStrictlyAscending | main.go:130-131 | sorted source keys are strictly ascending |
| Ordering.Rank | table.go:46-54 | a priority is negative exactly for the five fixed names, and 0 for every other name |
| Ordering.ColumnComparator | table.go:54-58 | comparing column keys is the sort's comparator: different priorities decide (a name missing from the map counting as 0), else the lower-cased names in Go's string order |
| Ordering.ColumnKeyIgnoresCase | table.go:54-58 | the comparator sees a name only through its lower-cased form |
| Ordering.ColumnOrderRanks | table.go:45-59 | in a column order, priority never decreases; at equal priority lower-cased names never decrease; the fixed names precede all others |
| Ordering.ColumnOrderDeterministic | table.go:45-59 | when no two fields lower-case to the same name, the column order is unique |
| Ordering.ExampleColumnOrder | table.go:45-59 | fields {timestamp, level, filename, linenumber, msg, zebra, alpha} are ordered timestamp, level, filename, linenumber, msg, alpha, zebra |
| Ordering.ObjectColumnOrder | table.go:45-59 | fields {timestamp, level, msg, source} are ordered timestamp, level, msg, source |
| Ordering.PlainColumnOrder | table.go:45-59 | fields {timestamp, msg} are ordered timestamp, msg |
| Layout.Spaces | table.go:62 | the padding is exactly the requested number of spaces |
| Layout.Cell | table.go:62 | a cell starts with its text, is padded with spaces to the width, is never truncated, and ends with the separator |
| Layout.FittingLineLength | table.go:61-64 | a line whose texts all fit has length equal to the sum of the widths plus three per column |
| Layout.LastCellPosition | table.go:67-73 | in a fitting line, the last cell occupies the line's final positions |
| Layout.CellPosition | table.go:61-73 | in a fitting line, cell `i` occupies fixed character positions that depend only on the widths, and holds exactly its padded text |
| Layout.CellsAt | table.go:61-72 | cell `j` of a table line holds column `j`'s text and that column's width |
| Layout.TableLineNext | table.go:61-63 | a line grows by one cell per column, in column order |
| Layout.RowLinesNext | table.go:66-74 | the body grows by one line per row, in arrival order |
| Layout.RowLines | table.go:66-74 | one line per row, in arrival order |
| Layout.RenderShape | table.go:61-75 | `Render`, print's output, is the header line, then one line per row in arrival order, then one blank line |
| Tables.Widen | table.go:22-28 | after a row, every field of the row is tracked with the larger of its old width and its text's length; other fields keep their width; no width shrinks |
| Tables.WidenUnique | table.go:22-28 | that pointwise description determines the updated widths |
| Tables.MaxWidthBounds | table.go:22-28 | the reference width is at least every text of the field, is attained by some row when the field occurs, and is 0 when it does not |
| Tables.WidthsAreMax | table.go:22-31 | `Widths`, the tracked width of every field, equals the reference width over all rows added |
| Tables.WidthsKeys | table.go:22-28 | a field is tracked exactly when some added row has it |
| Tables.WidthsMax | table.go:22-31 | a tracked width bounds every text of its field and is attained by one |
| Tables.WidthsGrow | table.go:22-31 | adding more rows never shrinks a width or drops a field |
| Tables.Finalized | table.go:34-41 | a field survives finalizing exactly when its width is not 0 |
| Tables.SurvivingColumns | table.go:34-41 | a field is printed exactly when some row shows it with non-empty text, and its column width is the larger of its name's length and its widest text |
| Tables.SingleRowColumns | table.go:22-41 | a table of one row prints exactly the fields that row shows with non-empty text |
| Tables.EveryFieldShown | table.go:22-41 | a table of one row whose every field shows non-empty text prints all of its fields |
| Tables.ObjectLineFields | table.go:22-41 | a table of one object record with plain string `timestamp`, `level`, `msg` and `source` prints all four, `source` included |
| Tables.PlainLineFields | table.go:22-41 | a table of one fallback record whose message is a plain line with its newline prints `timestamp` and `msg` |
| Tables.AlignedRow | table.go:61-74 | the header and every row holding all columns fit their columns, so both lines have the same length |
| Tables.Table.constructor | table.go:16-20 | a new table has no rows and no tracked widths |
| Tables.Table.AddRow | table.go:22-31 | the row is appended unchanged, the widths are widened by it, and the tracked widths stay those of the rows |
| Tables.Table.FinalizeWidths | table.go:34-41 | the widths become the finalized widths and the rows are untouched |
| Tables.Table.Print | table.go:33-76 | the widths are finalized in place, the columns are an admissible column order of the surviving fields, and the lines are the rendered table |
| Tables.LayLine | table.go:61-64 | the loop over the columns writes the specified line |
| Tables.Lay | table.go:61-75 | the output loops write the rendered table |
| LineParser.Cut | main.go:108 | with a separator, the text is `before + sep + after` and `before` has no separator; without one, everything is `before` and `after` is empty |
| LineParser.CutJoin | main.go:108 | cutting at the first separator recovers the two parts it joined |
| LineParser.ParseLine | main.go:108-116 | `timestamp` is the text before the first space, overriding the payload's own; an object keeps all its other fields; any other payload gives exactly `{msg: payload, timestamp}` |
| LineParser.SpacedLine | main.go:108-116 | a line `<timestamp> <payload>` parses with exactly that timestamp and payload |
| LineParser.NoSpaceLine | main.go:108-116 | a line with no space becomes `{msg: "", timestamp: line}` |
| LineParser.ParsedSourceKey | main.go:110-118 | the key comes from the payload alone: the object's string `source`, or "" for a fallback record |
| Grouping.GroupKeys | main.go:118-125 | `Group`: a source gets a table exactly when the filter accepts it and some record has it as key |
| Grouping.GroupRows | main.go:118-127 | each table's rows are exactly the records with its key, in stream order |
| Grouping.FilterKeys | main.go:118-127 | every row of a group has the group's key, and a group that exists is not empty |
| Grouping.GroupNext | main.go:100-128 | reading one more line places its record into the groups of the earlier lines |
| Grouping.ExampleRecords | main.go:108-116 | the example object line keeps its fields plus the timestamp; the plain line becomes `{msg, timestamp}` with the newline kept |
| Grouping.ExampleGroups | main.go:108-131 | the example stream yields the groups "app" and "", and "" prints first |
| Grouping.ExampleSecondMessage | main.go:112-114 | the plain line's record keeps the line's newline in `msg` |
| Grouping.ExampleSecondText | table.go:24-26 | the plain line's message is shown without its newline |
| Grouping.ExampleFirstFields | table.go:22-41 | the "app" table prints timestamp, level, msg and source |
| Grouping.ExampleSecondFields | table.go:22-41 | the "" table prints timestamp and msg |
| Grouping.ExampleTableColumns | table.go:45-59 | the "app" table's columns are timestamp, level, msg, source; the "" table's are timestamp, msg |
| Grouping.BannerNamesSource | main.go:134 | a banner ends with its source's name, so different sources get different banners |
| Grouping.AddToTable | main.go:123-127 | a table is created on a source's first record, and the record is added to its source's table |
| Grouping.Collect | main.go:98-128 | after the read loop, there is one distinct new table per group, holding that group's rows, with valid widths |
| Grouping.SortedSources | main.go:130-131 | the sources are every key once, strictly ascending |
| Grouping.PrintSource | main.go:134-135 | the banner, an empty line, then the table as printed |
| Grouping.PrintAll | main.go:133-136 | the tables are printed in the given order, each with its own column order |
| Grouping.Emit | main.go:130-136 | every table is printed once, sources strictly ascending, each under its banner with an admissible column order |
| Grouping.ProcessContainer | main.go:96-136 | a read error yields that error and no output; at end of stream, every group is printed in ascending source order; the unterminated tail is dropped |

## Left out

- Talking to Kubernetes is out of scope: client setup, listing pods and containers, the container-name filter, `--since`, and opening and closing the log stream (main.go outside lines 96-136). A container's stream is a `Stream` value: its newline-terminated lines, the final unterminated text, and how the last read ended.
- Compiling the `--source` regular expression is out of scope. The filter is a parameter `matches: string -> bool`.
- JSON decoding is a parameter `decode: string -> Decoded`. `Value.Other` carries the `%v` text of numbers, arrays and nested objects, because float and reflection formatting are not modelled.
- LineParser.ParseLine: a payload that decodes to JSON `null` is excluded by a precondition. The program would assign into a nil map and panic there.
- Text lengths are counted in characters, while Go's `len` counts bytes and `%-Nv` pads by runes. The two agree on ASCII text; widths of non-ASCII text are not modelled.
- Ordering.Lower lower-cases ASCII letters only, whereas `strings.ToLower` handles all of Unicode.
- Ordering.SortBy: insertion sort stands in for the pattern-defeating quicksort behind `sort.Slice` and `sort.Strings`. The model promises only a sorted permutation, as `sort.Slice` does. Which of two names with the same lower-cased form comes first is left open, because `sort.Slice` is not stable.
- Grouping.ProcessContainer: a read error is returned as `Failure(message)`. The program returns it from `run` (main.go:105), so later containers are not processed, and `main` prints it to standard error (main.go:33-35). Both are outside the model.
- Grouping.ProcessContainer: the `defer rc.Close()` resource release is not modelled.
- Output is a sequence of lines, not bytes written to standard output.
