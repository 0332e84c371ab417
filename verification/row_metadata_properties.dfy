/** Properties relating the operations of the row metadata to one another and to the column
    definitions it was created from. */
module RowMetadataProperties {
  import opened Wrappers
  import opened MySqlNames
  import opened Columns
  import opened NameSort
  import opened RowMetadata

  /** Removing the element at `k` removes one occurrence of it from the multiset. */
  lemma MultisetRemoveAt<T>(s: seq<T>, k: nat)
    requires k < |s|
    ensures multiset(s[..k] + s[k + 1..]) == multiset(s) - multiset{s[k]}
  {
    assert s == s[..k] + [s[k]] + s[k + 1..];
  }

  /** Removing a column removes its name at the same position. */
  lemma NamesOfRemoveAt(s: seq<ColumnMetadata>, k: nat)
    requires k < |s|
    ensures NamesOf(s[..k] + s[k + 1..]) == NamesOf(s)[..k] + NamesOf(s)[k + 1..]
  {
    var r, names := s[..k] + s[k + 1..], NamesOf(s);
    assert forall i :: 0 <= i < |r| ==> NamesOf(r)[i] == (names[..k] + names[k + 1..])[i] by {
      forall i | 0 <= i < |r| ensures NamesOf(r)[i] == (names[..k] + names[k + 1..])[i] {
        if i < k {
          assert r[i] == s[i];
        } else {
          assert r[i] == s[i + 1];
        }
      }
    }
  }

  /** Matching the first of `a` with position `k` of `b` reduces the permutation to the rest. */
  lemma MatchFirst(a: seq<ColumnMetadata>, b: seq<ColumnMetadata>, k: nat)
    requires |a| > 0 && k < |b| && b[k] == a[0]
    requires multiset(a) == multiset(b)
    ensures multiset(a[1..]) == multiset(b[..k] + b[k + 1..])
  {
    MultisetRemoveAt(b, k);
    assert a == [a[0]] + a[1..];
  }

  /** If the rest of the names agree as multisets, so do all of them. */
  lemma MatchFirstNames(a: seq<ColumnMetadata>, b: seq<ColumnMetadata>, k: nat)
    requires |a| > 0 && k < |b| && b[k] == a[0]
    requires multiset(NamesOf(a[1..])) == multiset(NamesOf(b[..k] + b[k + 1..]))
    ensures multiset(NamesOf(a)) == multiset(NamesOf(b))
  {
    NamesOfRemoveAt(b, k);
    MultisetRemoveAt(NamesOf(b), k);
    assert NamesOf(a) == [a[0].name] + NamesOf(a[1..]);
  }

  /** The names of two arrangements of the same columns are arrangements of the same names. */
  lemma {:induction false} NamesOfPermutation(a: seq<ColumnMetadata>, b: seq<ColumnMetadata>)
    requires multiset(a) == multiset(b)
    ensures multiset(NamesOf(a)) == multiset(NamesOf(b))
    decreases |a|
  {
    if |a| == 0 {
      assert |b| == |multiset(b)| == 0;
    } else {
      assert a[0] in multiset(b);
      var k :| 0 <= k < |b| && b[k] == a[0];
      MatchFirst(a, b, k);
      NamesOfPermutation(a[1..], b[..k] + b[k + 1..]);
      MatchFirstNames(a, b, k);
    }
  }

  /** The column name set is built from the declaration-order names, one per column with
      duplicates kept, and from the sorted names, which are ordered and a permutation of them. */
  lemma ColumnNamesInDeclarationOrder(cmp: Comparator, d: MySqlRowMetadata)
    requires Valid(cmp, d)
    ensures |GetColumnNames(d).originNames| == |GetColumnMetadatas(d)|
    ensures forall i :: 0 <= i < |d.origin| ==> GetColumnNames(d).originNames[i] == d.origin[i].name
    ensures GetColumnNames(d).sortedNames == d.sortedNames
    ensures Sorted(cmp, GetColumnNames(d).sortedNames)
    ensures multiset(GetColumnNames(d).sortedNames) == multiset(GetColumnNames(d).originNames)
  {
    SortedNames(cmp, d.sorted);
    NamesOfPermutation(d.sorted, d.origin);
  }

  /** Construction keeps the columns in the order given: `GetColumnMetadatas` and `Unwrap`
      expose exactly that sequence. */
  lemma DeclarationOrderKept(cmp: Comparator, metadata: seq<ColumnMetadata>)
    requires ComparatorContract(cmp)
    requires |metadata| > 0
    ensures New(cmp, metadata).Success?
    ensures GetColumnMetadatas(New(cmp, metadata).value) == metadata
    ensures Unwrap(New(cmp, metadata).value) == metadata
  {
  }

  /** Looking up position `i` of metadata created from definitions yields the column created
      with index `i` from the `i`-th definition; any other position fails. */
  lemma CreatedColumnsByIndex(cmp: Comparator, columns: seq<Definition>, i: int)
    requires ComparatorContract(cmp)
    requires |columns| > 0
    ensures Create(cmp, columns).Success?
    ensures var r := GetColumnMetadataByIndex(Create(cmp, columns).value, i);
            && (r.Success? <==> 0 <= i < |columns|)
            && (r.Success? ==> r.value.index == i && r.value.definition == columns[i])
            && (r.Failure? ==> r.error == IndexOutOfBounds(i, |columns|))
  {
  }

  /** Every column can be found by its own name: the lookup succeeds with a column whose name
      compares equal to it. */
  lemma EveryColumnFoundByName(cmp: Comparator, search: NameSearcher, d: MySqlRowMetadata,
                               c: ColumnMetadata)
    requires ComparatorContract(cmp) && SearchContract(cmp, search) && Valid(cmp, d)
    requires c in d.origin
    ensures GetColumnMetadataByName(cmp, search, d, c.name).Success?
    ensures cmp(GetColumnMetadataByName(cmp, search, d, c.name).value.name, c.name) == 0
  {
    NotAfterIsTotalPreorder(cmp, c.name, c.name, c.name);
  }

  /** At most one declared position holds a name comparing equal to `name`. */
  ghost predicate AtMostOneMatch(cmp: Comparator, d: MySqlRowMetadata, name: string) {
    forall j, k :: 0 <= j < k < |d.origin| ==>
      cmp(d.origin[j].name, name) != 0 || cmp(d.origin[k].name, name) != 0
  }

  /** Names that compare equal (spellings the identifier rules treat as the same) either both
      find a column or both fail; when at most one declared column matches them, they find the
      same column. */
  lemma EquivalentNamesFindSameColumn(cmp: Comparator, search: NameSearcher, d: MySqlRowMetadata,
                                      a: string, b: string)
    requires ComparatorContract(cmp) && SearchContract(cmp, search) && Valid(cmp, d)
    requires cmp(a, b) == 0
    ensures GetColumnMetadataByName(cmp, search, d, a).Success?
              == GetColumnMetadataByName(cmp, search, d, b).Success?
    ensures GetColumnMetadataByName(cmp, search, d, a).Success? && AtMostOneMatch(cmp, d, a) ==>
              GetColumnMetadataByName(cmp, search, d, a).value
                == GetColumnMetadataByName(cmp, search, d, b).value
  {
    forall c | c in d.origin ensures cmp(c.name, a) == 0 <==> cmp(c.name, b) == 0 {
      EqualNamesCompareAlike(cmp, a, b, c.name);
    }
    var ra, rb := GetColumnMetadataByName(cmp, search, d, a), GetColumnMetadataByName(cmp, search, d, b);
    if ra.Success? && AtMostOneMatch(cmp, d, a) {
      var j :| 0 <= j < |d.origin| && d.origin[j] == ra.value;
      var k :| 0 <= k < |d.origin| && d.origin[k] == rb.value;
      assert cmp(d.origin[j].name, a) == 0 && cmp(d.origin[k].name, a) == 0;
      if j < k {
        assert false;
      } else if k < j {
        assert false;
      }
    }
  }

  /** When no two columns' names compare equal, looking a column up by its name yields exactly
      that column. */
  lemma UniqueNamesFindExactColumn(cmp: Comparator, search: NameSearcher, d: MySqlRowMetadata, i: int)
    requires ComparatorContract(cmp) && SearchContract(cmp, search) && Valid(cmp, d)
    requires forall j, k :: 0 <= j < k < |d.origin| ==> cmp(d.origin[j].name, d.origin[k].name) != 0
    requires 0 <= i < |d.origin|
    ensures GetColumnMetadataByName(cmp, search, d, d.origin[i].name) == Success(d.origin[i])
  {
    var c := d.origin[i];
    EveryColumnFoundByName(cmp, search, d, c);
    var v := GetColumnMetadataByName(cmp, search, d, c.name).value;
    var k :| 0 <= k < |d.origin| && d.origin[k] == v;
    assert Sign(cmp(v.name, c.name)) == -Sign(cmp(c.name, v.name));
    if k != i {
      assert false;
    }
  }

  /** In metadata whose columns carry their own positions (as `Create` builds them), the column
      found by name is found again at its index. */
  lemma NameThenIndex(cmp: Comparator, search: NameSearcher, d: MySqlRowMetadata, name: string)
    requires ComparatorContract(cmp) && SearchContract(cmp, search) && Valid(cmp, d)
    requires forall i :: 0 <= i < |d.origin| ==> d.origin[i].index == i
    requires GetColumnMetadataByName(cmp, search, d, name).Success?
    ensures var c := GetColumnMetadataByName(cmp, search, d, name).value;
            GetColumnMetadataByIndex(d, c.index) == Success(c)
  {
    var c := GetColumnMetadataByName(cmp, search, d, name).value;
    var k :| 0 <= k < |d.origin| && d.origin[k] == c;
  }
}
