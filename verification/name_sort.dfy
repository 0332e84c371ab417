/** Sorting column metadata by name under the identifier comparator. */
module NameSort {
  import opened MySqlNames
  import opened Columns

  /** Columns whose names are non-decreasing under the comparator. */
  ghost predicate SortedByName(cmp: Comparator, columns: seq<ColumnMetadata>) {
    forall i, j :: 0 <= i < j < |columns| ==> cmp(columns[i].name, columns[j].name) <= 0
  }

  /** The names of name-sorted columns are sorted. */
  lemma SortedNames(cmp: Comparator, columns: seq<ColumnMetadata>)
    requires SortedByName(cmp, columns)
    ensures Sorted(cmp, NamesOf(columns))
  {
  }

  /** A column not after any of name-sorted columns can be put in front of them. */
  lemma ConsSorted(cmp: Comparator, c: ColumnMetadata, columns: seq<ColumnMetadata>)
    requires SortedByName(cmp, columns)
    requires forall k :: 0 <= k < |columns| ==> cmp(c.name, columns[k].name) <= 0
    ensures SortedByName(cmp, [c] + columns)
  {
    var s := [c] + columns;
    forall i, j | 0 <= i < j < |s| ensures cmp(s[i].name, s[j].name) <= 0 {
      assert s[j] == columns[j - 1];
      if i > 0 {
        assert s[i] == columns[i - 1];
      }
    }
  }

  /** A column not after the first of name-sorted columns is not after any of them. */
  lemma BeforeAll(cmp: Comparator, c: ColumnMetadata, columns: seq<ColumnMetadata>)
    requires ComparatorContract(cmp) && SortedByName(cmp, columns)
    requires |columns| > 0 && cmp(c.name, columns[0].name) <= 0
    ensures forall k :: 0 <= k < |columns| ==> cmp(c.name, columns[k].name) <= 0
  {
    forall k | 0 <= k < |columns| ensures cmp(c.name, columns[k].name) <= 0 {
      NotAfterIsTotalPreorder(cmp, c.name, columns[0].name, columns[k].name);
    }
  }

  /** The head of sorted columns stays first when `c`, which sorts after it, joins the rest. */
  lemma HeadBeforeInserted(cmp: Comparator, c: ColumnMetadata, head: ColumnMetadata,
                           tail: seq<ColumnMetadata>, rest: seq<ColumnMetadata>)
    requires ComparatorContract(cmp) && SortedByName(cmp, [head] + tail)
    requires cmp(c.name, head.name) > 0
    requires multiset(rest) == multiset(tail) + multiset{c}
    ensures forall k :: 0 <= k < |rest| ==> cmp(head.name, rest[k].name) <= 0
  {
    forall k | 0 <= k < |rest| ensures cmp(head.name, rest[k].name) <= 0 {
      var x := rest[k];
      assert x in multiset(rest);
      if x == c {
        NotAfterIsTotalPreorder(cmp, head.name, c.name, c.name);
      } else {
        assert x in multiset(tail);
        var m :| 0 <= m < |tail| && tail[m] == x;
        var s := [head] + tail;
        assert s[0] == head && s[m + 1] == x;
      }
    }
  }

  /** Inserts `c` into name-sorted `columns`, ahead of every column it does not sort after. */
  function Insert(cmp: Comparator, c: ColumnMetadata, columns: seq<ColumnMetadata>): (r: seq<ColumnMetadata>)
    requires ComparatorContract(cmp) && SortedByName(cmp, columns)
    decreases |columns|, 1
    ensures |r| == |columns| + 1
    ensures multiset(r) == multiset(columns) + multiset{c}
    ensures SortedByName(cmp, r)
  {
    if |columns| == 0 then [c]
    else if cmp(c.name, columns[0].name) <= 0 then
      BeforeAll(cmp, c, columns);
      ConsSorted(cmp, c, columns);
      [c] + columns
    else
      InsertBehind(cmp, c, columns)
  }

  /** Insertion past the first column, which `c` sorts after. */
  function InsertBehind(cmp: Comparator, c: ColumnMetadata, columns: seq<ColumnMetadata>): (r: seq<ColumnMetadata>)
    requires ComparatorContract(cmp) && SortedByName(cmp, columns)
    requires |columns| > 0 && cmp(c.name, columns[0].name) > 0
    ensures |r| == |columns| + 1
    ensures multiset(r) == multiset(columns) + multiset{c}
    ensures SortedByName(cmp, r)
    decreases |columns|, 0
  {
    var head, tail := columns[0], columns[1..];
    assert columns == [head] + tail;
    var rest := Insert(cmp, c, tail);
    HeadBeforeInserted(cmp, c, head, tail, rest);
    ConsSorted(cmp, head, rest);
    [head] + rest
  }

  /** The columns in an order non-decreasing by name: a permutation of the input. */
  function SortByName(cmp: Comparator, columns: seq<ColumnMetadata>): (r: seq<ColumnMetadata>)
    requires ComparatorContract(cmp)
    ensures |r| == |columns|
    ensures multiset(r) == multiset(columns)
    ensures SortedByName(cmp, r)
  {
    if |columns| == 0 then []
    else
      assert columns == [columns[0]] + columns[1..];
      Insert(cmp, columns[0], SortByName(cmp, columns[1..]))
  }
}
