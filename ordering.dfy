/**
 * Orders on names: Go's byte-wise string comparison, `strings.ToLower`, the
 * column priority of table.go's print, and the sorts the program relies on
 * (`sort.Slice` over column names, `sort.Strings` over source keys).
 */
module Ordering {

  /** ASCII lower-casing of one character. */
  function LowerChar(c: char): char
  {
    if 'A' <= c <= 'Z' then (c as int + 32) as char else c
  }

  /** `strings.ToLower`, restricted to ASCII case mapping. */
  function Lower(s: string): (r: string)
    ensures |r| == |s|
    ensures forall i :: 0 <= i < |r| ==> !('A' <= r[i] <= 'Z')
    ensures forall i :: 0 <= i < |s| && 'A' <= s[i] <= 'Z' ==> r[i] as int == s[i] as int + 32
    ensures forall i :: 0 <= i < |s| && !('A' <= s[i] <= 'Z') ==> r[i] == s[i]
  {
    seq(|s|, i requires 0 <= i < |s| => LowerChar(s[i]))
  }

  /** Go's `a < b` on strings: lexicographic on characters, a proper prefix first. */
  predicate LexLess(a: string, b: string)
  {
    if a == [] then b != []
    else if b == [] then false
    else if a[0] != b[0] then a[0] < b[0]
    else LexLess(a[1..], b[1..])
  }

  /** Lower-casing a lower-cased string changes nothing. */
  lemma LowerIdempotent(s: string)
    ensures Lower(Lower(s)) == Lower(s)
  {
  }

  /** `a` and `b` agree before position `k`, where `a` ends or has the smaller character. */
  ghost predicate DiffersAt(a: string, b: string, k: int)
  {
    0 <= k <= |a| && k < |b| && a[..k] == b[..k] && (k == |a| || a[k] < b[k])
  }

  /** Go's string `<`: the first position where the strings differ decides, and a proper prefix is smaller. */
  lemma {:induction false} LexFirstDifference(a: string, b: string)
    ensures LexLess(a, b) <==> exists k :: DiffersAt(a, b, k)
  {
    if a == [] {
      if b != [] {
        assert DiffersAt(a, b, 0);
      }
    } else if b == [] {
    } else if a[0] != b[0] {
      if a[0] < b[0] {
        assert DiffersAt(a, b, 0);
      }
      forall k | DiffersAt(a, b, k)
        ensures a[0] < b[0]
      {
        if k > 0 {
          assert a[..k][0] == b[..k][0];
        }
      }
    } else {
      LexFirstDifference(a[1..], b[1..]);
      if LexLess(a, b) {
        var k :| DiffersAt(a[1..], b[1..], k);
        assert a[..k + 1] == [a[0]] + a[1..][..k];
        assert b[..k + 1] == [b[0]] + b[1..][..k];
        assert DiffersAt(a, b, k + 1);
      }
      forall k | DiffersAt(a, b, k)
        ensures LexLess(a, b)
      {
        assert k != 0;
        assert a[1..][..k - 1] == a[..k][1..];
        assert b[1..][..k - 1] == b[..k][1..];
        assert DiffersAt(a[1..], b[1..], k - 1);
      }
    }
  }

  lemma {:induction false} LexIrreflexive(a: string)
    ensures !LexLess(a, a)
  {
    if a != [] {
      LexIrreflexive(a[1..]);
    }
  }

  lemma {:induction false} LexTransitive(a: string, b: string, c: string)
    requires LexLess(a, b) && LexLess(b, c)
    ensures LexLess(a, c)
  {
    if a != [] && b != [] && c != [] && a[0] == b[0] == c[0] {
      LexTransitive(a[1..], b[1..], c[1..]);
    }
  }

  lemma {:induction false} LexTotal(a: string, b: string)
    ensures a == b || LexLess(a, b) || LexLess(b, a)
  {
    if a != [] && b != [] && a[0] == b[0] {
      LexTotal(a[1..], b[1..]);
      if a[1..] == b[1..] {
        assert a == [a[0]] + a[1..] && b == [b[0]] + b[1..];
      }
    }
  }

  lemma {:induction false} LexAsymmetric(a: string, b: string)
    requires LexLess(a, b)
    ensures !LexLess(b, a)
  {
    if a != [] && b != [] && a[0] == b[0] {
      LexAsymmetric(a[1..], b[1..]);
    }
  }

  /** What a sort compares: a priority first, then a name in Go's string order. */
  datatype SortKey = SortKey(rank: int, name: string)

  predicate KeyLess(x: SortKey, y: SortKey)
  {
    x.rank < y.rank || (x.rank == y.rank && LexLess(x.name, y.name))
  }

  /** KeyLess is a strict total order on keys. */
  lemma KeyLessOrder(x: SortKey, y: SortKey, z: SortKey)
    ensures !KeyLess(x, x)
    ensures KeyLess(x, y) ==> !KeyLess(y, x)
    ensures KeyLess(x, y) && KeyLess(y, z) ==> KeyLess(x, z)
    ensures x == y || KeyLess(x, y) || KeyLess(y, x)
  {
    LexIrreflexive(x.name);
    if KeyLess(x, y) && x.rank == y.rank {
      LexAsymmetric(x.name, y.name);
    }
    if KeyLess(x, y) && KeyLess(y, z) && x.rank == y.rank == z.rank {
      LexTransitive(x.name, y.name, z.name);
    }
    LexTotal(x.name, y.name);
  }

  /** `xs` is in non-decreasing order of `key`: no later element sorts before an earlier one. */
  ghost predicate SortedBy(xs: seq<string>, key: string -> SortKey)
  {
    forall i, j :: 0 <= i < j < |xs| ==> !KeyLess(key(xs[j]), key(xs[i]))
  }

  /** `xs` inserted into the sorted `s` before the first element that does not sort before it. */
  function Insert(x: string, s: seq<string>, key: string -> SortKey): (r: seq<string>)
    requires SortedBy(s, key)
    ensures SortedBy(r, key)
    ensures multiset(r) == multiset(s) + multiset{x}
  {
    if s == [] then [x]
    else if !KeyLess(key(s[0]), key(x)) then
      forall j | 0 <= j < |s|
        ensures !KeyLess(key(s[j]), key(x))
      {
        KeyLessOrder(key(s[0]), key(s[j]), key(x));
      }
      [x] + s
    else
      var rest := Insert(x, s[1..], key);
      assert multiset(rest) == multiset(s[1..]) + multiset{x};
      forall j | 0 <= j < |rest|
        ensures !KeyLess(key(rest[j]), key(s[0]))
      {
        assert rest[j] in multiset(rest);
        if rest[j] != x {
          var k :| 1 <= k < |s| && s[k] == rest[j];
        } else {
          KeyLessOrder(key(s[0]), key(x), key(x));
        }
      }
      assert s == [s[0]] + s[1..];
      [s[0]] + rest
  }

  /**
   * Sorts `xs` by `key`. The result is ordered and a permutation of the input;
   * elements with equal keys may come out in any order, as with Go's unstable
   * `sort.Slice`.
   */
  method SortBy(xs: seq<string>, key: string -> SortKey) returns (r: seq<string>)
    ensures SortedBy(r, key)
    ensures multiset(r) == multiset(xs)
  {
    r := [];
    for i := 0 to |xs|
      invariant SortedBy(r, key)
      invariant multiset(r) == multiset(xs[..i])
    {
      assert xs[..i + 1] == xs[..i] + [xs[i]];
      r := Insert(xs[i], r, key);
    }
    assert xs[..|xs|] == xs;
  }

  /** `lo.Keys`: the elements of a set, each once, in an order the model leaves open. */
  method KeysOf(s: set<string>) returns (xs: seq<string>)
    ensures multiset(xs) == multiset(s)
  {
    xs := [];
    var rest := s;
    while rest != {}
      invariant rest <= s
      invariant multiset(xs) + multiset(rest) == multiset(s)
      decreases |rest|
    {
      var x :| x in rest;
      xs := xs + [x];
      rest := rest - {x};
    }
  }

  /** Removing equal first elements keeps two permutations permutations of each other. */
  lemma TailsPermuted(a: seq<string>, b: seq<string>)
    requires a != [] && b != [] && a[0] == b[0]
    requires multiset(a) == multiset(b)
    ensures multiset(a[1..]) == multiset(b[1..])
  {
    assert a == [a[0]] + a[1..] && b == [b[0]] + b[1..];
    assert multiset(a[1..]) == multiset(a) - multiset{a[0]};
    assert multiset(b[1..]) == multiset(b) - multiset{b[0]};
  }

  /** Two non-empty sorted permutations of each other start with elements of equal key. */
  lemma SortedHeads(a: seq<string>, b: seq<string>, key: string -> SortKey)
    requires a != [] && SortedBy(a, key) && SortedBy(b, key)
    requires multiset(a) == multiset(b)
    ensures b != [] && key(a[0]) == key(b[0])
  {
    assert a[0] in multiset(b) && |b| == |multiset(b)|;
    assert b[0] in multiset(a);
    var j :| 0 <= j < |b| && b[j] == a[0];
    var i :| 0 <= i < |a| && a[i] == b[0];
    assert !KeyLess(key(a[i]), key(a[0])) by {
      if i == 0 { KeyLessOrder(key(a[0]), key(a[0]), key(a[0])); }
    }
    assert !KeyLess(key(b[j]), key(b[0])) by {
      if j == 0 { KeyLessOrder(key(b[0]), key(b[0]), key(b[0])); }
    }
    KeyLessOrder(key(a[0]), key(b[0]), key(a[0]));
  }

  /** Two sorted permutations of each other are equal when the key tells their elements apart. */
  lemma {:induction false} SortedUnique(a: seq<string>, b: seq<string>, key: string -> SortKey)
    requires SortedBy(a, key) && SortedBy(b, key)
    requires multiset(a) == multiset(b)
    requires forall x, y :: x in a && y in a && key(x) == key(y) ==> x == y
    ensures a == b
  {
    if a == [] {
      assert |b| == |multiset(b)| == 0;
    } else {
      SortedHeads(a, b, key);
      assert b[0] in multiset(a);
      assert a[0] == b[0];
      TailsPermuted(a, b);
      var a', b' := a[1..], b[1..];
      assert forall x :: x in a' ==> x in a;
      SortedUnique(a', b', key);
      assert a == [a[0]] + a' && b == [b[0]] + b';
    }
  }

  /** The key `sort.Strings` sorts by: the string itself. */
  function PlainKey(s: string): SortKey
  {
    SortKey(0, s)
  }

  /** A sequence whose multiset is a set holds every element once. */
  lemma {:induction false} SetMultisetDistinct(xs: seq<string>, s: set<string>)
    requires multiset(xs) == multiset(s)
    ensures forall i, j :: 0 <= i < j < |xs| ==> xs[i] != xs[j]
  {
    forall i, j | 0 <= i < j < |xs|
      ensures xs[i] != xs[j]
    {
      var x := xs[i];
      assert x in multiset(s);
      assert xs == xs[..j] + [xs[j]] + xs[j + 1..];
      assert x in xs[..j];
      assert multiset(xs)[x] == multiset(xs[..j])[x] + multiset([xs[j]])[x] + multiset(xs[j + 1..])[x];
    }
  }

  /** The sorted keys of a set come out strictly ascending. */
  lemma SortedSetStrictlyAscending(xs: seq<string>, s: set<string>)
    requires multiset(xs) == multiset(s)
    requires SortedBy(xs, PlainKey)
    ensures forall i, j :: 0 <= i < j < |xs| ==> LexLess(xs[i], xs[j])
  {
    SetMultisetDistinct(xs, s);
    forall i, j | 0 <= i < j < |xs|
      ensures LexLess(xs[i], xs[j])
    {
      LexTotal(xs[i], xs[j]);
    }
  }

  // ---- Column order of table.go's print ----

  /** The fixed priorities (`order` in print); every other name has priority 0. */
  const PRIORITY: map<string, int> :=
    map["timestamp" := -5, "level" := -4, "filename" := -3, "linenumber" := -2, "msg" := -1]

  function Rank(lowered: string): (r: int)
    ensures r <= 0
    ensures r < 0 <==> lowered in PRIORITY
  {
    if lowered in PRIORITY then PRIORITY[lowered] else 0
  }

  /** What print's comparator looks at: priority of the lower-cased name, then that name. */
  function ColumnKey(name: string): SortKey
  {
    var lowered := Lower(name);
    SortKey(Rank(lowered), lowered)
  }

  /** Print's comparator sees names only through their lower-cased form. */
  lemma ColumnKeyIgnoresCase(name: string)
    ensures ColumnKey(Lower(name)) == ColumnKey(name)
  {
    LowerIdempotent(name);
  }

  /**
   * The key order is the comparator of print's sort: the priorities differ
   * (a missing name counting as 0), or they are equal and the lower-cased
   * names decide.
   */
  lemma ColumnComparator(a: string, b: string)
    ensures var pa := if Lower(a) in PRIORITY then PRIORITY[Lower(a)] else 0;
            var pb := if Lower(b) in PRIORITY then PRIORITY[Lower(b)] else 0;
            KeyLess(ColumnKey(a), ColumnKey(b)) <==> if pa != pb then pa < pb else LexLess(Lower(a), Lower(b))
  {
  }

  /** `columns` is one admissible outcome of print's sort of the field set `fields`. */
  ghost predicate IsColumnOrder(columns: seq<string>, fields: set<string>)
  {
    multiset(columns) == multiset(fields) && SortedBy(columns, ColumnKey)
  }

  /**
   * In a column order, priority never decreases, so the five fixed names come
   * first and in their fixed order, and among the other names (and among names
   * of equal priority) lower-cased names never decrease.
   */
  lemma ColumnOrderRanks(columns: seq<string>, fields: set<string>, i: int, j: int)
    requires IsColumnOrder(columns, fields)
    requires 0 <= i < j < |columns|
    ensures ColumnKey(columns[i]).rank <= ColumnKey(columns[j]).rank
    ensures ColumnKey(columns[i]).rank == ColumnKey(columns[j]).rank ==>
              !LexLess(Lower(columns[j]), Lower(columns[i]))
    ensures Lower(columns[j]) in PRIORITY ==> Lower(columns[i]) in PRIORITY
  {
  }

  /** When no two fields lower-case to the same name, the column order is determined. */
  lemma ColumnOrderDeterministic(a: seq<string>, b: seq<string>, fields: set<string>)
    requires IsColumnOrder(a, fields) && IsColumnOrder(b, fields)
    requires forall x, y :: x in fields && y in fields && Lower(x) == Lower(y) ==> x == y
    ensures a == b
  {
    forall x, y | x in a && y in a && ColumnKey(x) == ColumnKey(y)
      ensures x == y
    {
      assert x in multiset(a) && y in multiset(a);
    }
    SortedUnique(a, b, ColumnKey);
  }
  const EXAMPLE_FIELDS: set<string> := {"timestamp", "level", "filename", "linenumber", "msg", "zebra", "alpha"}
  const EXAMPLE_COLUMNS: seq<string> := ["timestamp", "level", "filename", "linenumber", "msg", "alpha", "zebra"]

  lemma ExampleLower()
    ensures Lower("timestamp") == "timestamp" && Lower("level") == "level"
    ensures Lower("filename") == "filename" && Lower("linenumber") == "linenumber"
    ensures Lower("msg") == "msg" && Lower("alpha") == "alpha" && Lower("zebra") == "zebra"
    ensures Lower("source") == "source"
  {
  }

  lemma ExampleKeys()
    ensures ColumnKey("timestamp") == SortKey(-5, "timestamp")
    ensures ColumnKey("level") == SortKey(-4, "level")
    ensures ColumnKey("filename") == SortKey(-3, "filename")
    ensures ColumnKey("linenumber") == SortKey(-2, "linenumber")
    ensures ColumnKey("msg") == SortKey(-1, "msg")
    ensures ColumnKey("alpha") == SortKey(0, "alpha")
    ensures ColumnKey("zebra") == SortKey(0, "zebra")
    ensures ColumnKey("source") == SortKey(0, "source")
  {
    ExampleLower();
  }

  lemma ExampleSorted()
    ensures SortedBy(EXAMPLE_COLUMNS, ColumnKey)
  {
    ExampleKeys();
    assert !LexLess("zebra", "alpha");
  }

  lemma ExamplePermutation()
    ensures multiset(EXAMPLE_COLUMNS) == multiset(EXAMPLE_FIELDS)
  {
  }

  /**
   * The worked example of print's ordering: the fixed names first, in their
   * fixed order, then the remaining names alphabetically.
   */
  lemma ExampleColumnOrder(columns: seq<string>)
    requires IsColumnOrder(columns, EXAMPLE_FIELDS)
    ensures columns == EXAMPLE_COLUMNS
  {
    ExampleKeys();
    ExampleSorted();
    ExamplePermutation();
    ColumnOrderDeterministic(columns, EXAMPLE_COLUMNS, EXAMPLE_FIELDS);
  }

  const OBJECT_FIELDS: set<string> := {"timestamp", "level", "msg", "source"}
  const OBJECT_COLUMNS: seq<string> := ["timestamp", "level", "msg", "source"]

  lemma ObjectSorted()
    ensures SortedBy(OBJECT_COLUMNS, ColumnKey)
    ensures SortedBy(["timestamp", "msg"], ColumnKey)
  {
    ExampleKeys();
  }

  lemma ObjectPermutation()
    ensures multiset(OBJECT_COLUMNS) == multiset(OBJECT_FIELDS)
    ensures multiset(["timestamp", "msg"]) == multiset({"timestamp", "msg"})
  {
  }

  /** A table with fields timestamp, level, msg and source prints them in that order. */
  lemma ObjectColumnOrder(columns: seq<string>)
    requires IsColumnOrder(columns, OBJECT_FIELDS)
    ensures columns == OBJECT_COLUMNS
  {
    ExampleLower();
    ObjectSorted();
    ObjectPermutation();
    ColumnOrderDeterministic(columns, OBJECT_COLUMNS, OBJECT_FIELDS);
  }

  /** A table with fields timestamp and msg prints them in that order. */
  lemma PlainColumnOrder(columns: seq<string>)
    requires IsColumnOrder(columns, {"timestamp", "msg"})
    ensures columns == ["timestamp", "msg"]
  {
    ExampleLower();
    ObjectSorted();
    ObjectPermutation();
    ColumnOrderDeterministic(columns, ["timestamp", "msg"], {"timestamp", "msg"});
  }
}
