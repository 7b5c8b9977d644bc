/**
 * The dynamic values of a decoded log record and the text a table shows for
 * them: the `%v` rendering with every newline removed and every tab expanded
 * to eight spaces (table.go, addRow and print).
 */
module Display {

  /**
   * A value of a record field, as JSON decoding produces it. Strings, booleans
   * and null are rendered by `%v` in a way the model states exactly; numbers
   * (float64), arrays and nested objects carry the text `%v` gives them, since
   * floating-point and reflection formatting are not part of this model.
   */
  datatype Value = Null | Str(s: string) | Bool(b: bool) | Other(formatted: string)

  /** A record: field name to value. Iteration order of the map is irrelevant. */
  type Row = map<string, Value>

  /** The placeholder `%v` prints for nil, also used for a field a row lacks. */
  const NIL_TEXT: string := "<nil>"

  /** The text of `fmt.Sprintf("%v", v)`. */
  function Stringify(v: Value): (r: string)
    ensures r == "" <==> v == Str("") || v == Other("")
    ensures v.Null? ==> r == NIL_TEXT
  {
    match v
    case Null => NIL_TEXT
    case Str(s) => s
    case Bool(b) => if b then "true" else "false"
    case Other(t) => t
  }

  /** Number of occurrences of `c` in `s`. */
  function Count(s: string, c: char): nat
  {
    if s == [] then 0 else (if s[0] == c then 1 else 0) + Count(s[1..], c)
  }

  /** `strings.ReplaceAll(s, "\n", "")`: every newline removed, the rest kept in order. */
  function RemoveNewlines(s: string): (r: string)
    ensures '\n' !in r
    ensures |r| == |s| - Count(s, '\n')
    ensures Count(r, '\t') == Count(s, '\t')
  {
    if s == [] then []
    else if s[0] == '\n' then RemoveNewlines(s[1..])
    else [s[0]] + RemoveNewlines(s[1..])
  }

  /** `strings.ReplaceAll(s, "\t", "        ")`: every tab becomes eight spaces. */
  function ExpandTabs(s: string): (r: string)
    ensures '\t' !in r
    ensures '\n' !in s ==> '\n' !in r
    ensures |r| == |s| + 7 * Count(s, '\t')
  {
    if s == [] then []
    else if s[0] == '\t' then "        " + ExpandTabs(s[1..])
    else [s[0]] + ExpandTabs(s[1..])
  }

  /**
   * The cleaned display text: newlines removed first, then tabs expanded.
   * It holds neither character, and its length is the raw length minus
   * the newlines plus seven per tab.
   */
  function Clean(s: string): (r: string)
    ensures '\n' !in r && '\t' !in r
    ensures |r| == |s| - Count(s, '\n') + 7 * Count(s, '\t')
  {
    ExpandTabs(RemoveNewlines(s))
  }

  /** The text a table shows for a value, and whose length is its width. */
  function Text(v: Value): string
  {
    Clean(Stringify(v))
  }

  /** The text shown in column `name` of `row`: `<nil>` when the row lacks the field. */
  function CellText(row: Row, name: string): (r: string)
    ensures '\n' !in r && '\t' !in r
    ensures name in row ==> r == Text(row[name])
    ensures name !in row ==> r == NIL_TEXT
  {
    if name in row then Text(row[name]) else Text(Null)
  }

  /** A text without newlines or tabs is its own display text. */
  lemma {:induction false} CleanIdentity(s: string)
    requires '\n' !in s && '\t' !in s
    ensures Clean(s) == s
  {
    if s != [] {
      CleanIdentity(s[1..]);
    }
  }

  /** Newline removal works character by character: it distributes over concatenation. */
  lemma {:induction false} RemoveNewlinesAppend(a: string, b: string)
    ensures RemoveNewlines(a + b) == RemoveNewlines(a) + RemoveNewlines(b)
  {
    if a != [] {
      assert (a + b)[0] == a[0] && (a + b)[1..] == a[1..] + b;
      RemoveNewlinesAppend(a[1..], b);
      if a[0] != '\n' {
        assert [a[0]] + (RemoveNewlines(a[1..]) + RemoveNewlines(b)) ==
               ([a[0]] + RemoveNewlines(a[1..])) + RemoveNewlines(b);
      }
    } else {
      assert a + b == b;
    }
  }

  /** Tab expansion works character by character: it distributes over concatenation. */
  lemma {:induction false} ExpandTabsAppend(a: string, b: string)
    ensures ExpandTabs(a + b) == ExpandTabs(a) + ExpandTabs(b)
  {
    if a != [] {
      assert (a + b)[0] == a[0] && (a + b)[1..] == a[1..] + b;
      ExpandTabsAppend(a[1..], b);
      var head := if a[0] == '\t' then "        " else [a[0]];
      var x, y, z := head, ExpandTabs(a[1..]), ExpandTabs(b);
      assert x + (y + z) == (x + y) + z;
    } else {
      assert a + b == b;
    }
  }

  /**
   * The display text is built character by character: the text of `a + b` is
   * the text of `a` followed by that of `b`, ...
   */
  lemma CleanAppend(a: string, b: string)
    ensures Clean(a + b) == Clean(a) + Clean(b)
  {
    RemoveNewlinesAppend(a, b);
    ExpandTabsAppend(RemoveNewlines(a), RemoveNewlines(b));
  }

  /**
   * ... where a newline shows as nothing, a tab as eight spaces, and every
   * other character as itself. With CleanAppend this determines Clean.
   */
  lemma CleanChar(c: char)
    ensures Clean([]) == []
    ensures c == '\n' ==> Clean([c]) == []
    ensures c == '\t' ==> Clean([c]) == "        "
    ensures c != '\n' && c != '\t' ==> Clean([c]) == [c]
  {
    assert [c][1..] == [];
  }

  /** A line's trailing newline is not shown: plain text followed by a newline displays as the text. */
  lemma CleanDropsNewline(s: string)
    requires '\n' !in s && '\t' !in s
    ensures Clean(s + "\n") == s
  {
    CleanAppend(s, "\n");
    CleanChar('\n');
    CleanIdentity(s);
  }
}
