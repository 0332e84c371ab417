/** The row metadata of one result: the columns in declaration order for positional access,
    and a name-sorted copy with its parallel name sequence for lookup by name. */
module RowMetadata {
  import opened Wrappers
  import opened MySqlNames
  import opened Columns
  import opened NameSort

  /** The failures of building and querying the metadata. */
  datatype Error =
    | IllegalArgument                             // no column definitions
    | IndexOutOfBounds(index: int, total: nat)    // positional lookup outside [0, total)
    | NoSuchElement(name: string)                 // no column name compares equal

  /** The column name set: names in declaration order (its iteration order and size) and the
      sorted names (its membership tests). */
  datatype ColumnNameSet = ColumnNameSet(originNames: seq<string>, sortedNames: seq<string>)

  /** The set built for a single column. */
  function NameSetOf(name: string): ColumnNameSet {
    ColumnNameSet([name], [name])
  }

  datatype MySqlRowMetadata = MySqlRowMetadata(
    origin: seq<ColumnMetadata>,
    sorted: seq<ColumnMetadata>,
    sortedNames: seq<string>,
    nameSet: ColumnNameSet)

  /** What construction establishes and every lookup relies on. */
  ghost predicate Valid(cmp: Comparator, d: MySqlRowMetadata) {
    && |d.origin| >= 1
    && |d.sorted| == |d.origin|
    && multiset(d.sorted) == multiset(d.origin)
    && SortedByName(cmp, d.sorted)
    && d.sortedNames == NamesOf(d.sorted)
    && d.nameSet == ColumnNameSet(NamesOf(d.origin), d.sortedNames)
  }

  /** Builds the metadata over `metadata`, kept in its given order. */
  function New(cmp: Comparator, metadata: seq<ColumnMetadata>): (r: Result<MySqlRowMetadata, Error>)
    requires ComparatorContract(cmp)
    ensures r.Failure? <==> |metadata| == 0
    ensures r.Failure? ==> r.error == IllegalArgument
    ensures r.Success? ==> Valid(cmp, r.value) && r.value.origin == metadata
    ensures |metadata| == 1 ==> r.Success? && r.value.sorted == metadata
                                && r.value.sortedNames == [metadata[0].name]
  {
    if |metadata| == 0 then Failure(IllegalArgument)
    else if |metadata| == 1 then
      var name := metadata[0].name;
      Success(MySqlRowMetadata(metadata, metadata, [name], NameSetOf(name)))
    else
      var sorted := SortByName(cmp, metadata);
      var originNames := NamesOf(metadata);
      var sortedNames := NamesOf(sorted);
      Success(MySqlRowMetadata(metadata, sorted, sortedNames, ColumnNameSet(originNames, sortedNames)))
  }

  /** Creates one column per definition, the one at position `i` with index `i`, and builds the
      metadata over them. */
  function Create(cmp: Comparator, columns: seq<Definition>): (r: Result<MySqlRowMetadata, Error>)
    requires ComparatorContract(cmp)
    ensures r.Failure? <==> |columns| == 0
    ensures r.Failure? ==> r.error == IllegalArgument
    ensures r.Success? ==> Valid(cmp, r.value) && |r.value.origin| == |columns|
    ensures r.Success? ==> forall i :: 0 <= i < |columns| ==>
              r.value.origin[i].index == i && r.value.origin[i].name == columns[i].name
              && r.value.origin[i].definition == columns[i]
  {
    New(cmp, seq(|columns|, i requires 0 <= i < |columns| => CreateColumn(i, columns[i])))
  }

  /** The column at position `index` in declaration order. */
  function GetColumnMetadataByIndex(d: MySqlRowMetadata, index: int): (r: Result<ColumnMetadata, Error>)
    ensures r.Success? <==> 0 <= index < |d.origin|
    ensures r.Success? ==> r.value == d.origin[index]
    ensures r.Failure? ==> r.error == IndexOutOfBounds(index, |d.origin|)
  {
    if index < 0 || index >= |d.origin| then Failure(IndexOutOfBounds(index, |d.origin|))
    else Success(d.origin[index])
  }

  /** Every declared column's name appears in the sorted names. */
  lemma DeclaredNamesAreSorted(cmp: Comparator, d: MySqlRowMetadata, c: ColumnMetadata)
    requires Valid(cmp, d)
    requires c in d.origin
    ensures exists k :: 0 <= k < |d.sortedNames| && d.sortedNames[k] == c.name
  {
    assert c in multiset(d.sorted);
    var k :| 0 <= k < |d.sorted| && d.sorted[k] == c;
    assert d.sortedNames[k] == c.name;
  }

  /** A column whose name compares equal to `name`, found by searching the sorted names with
      `search`, which stands for `MySqlNames.nameSearch`. */
  function GetColumnMetadataByName(cmp: Comparator, search: NameSearcher, d: MySqlRowMetadata,
                                   name: string): (r: Result<ColumnMetadata, Error>)
    requires ComparatorContract(cmp) && SearchContract(cmp, search) && Valid(cmp, d)
    ensures r.Failure? <==> forall c :: c in d.origin ==> cmp(c.name, name) != 0
    ensures r.Failure? ==> r.error == NoSuchElement(name)
    ensures r.Success? ==> r.value in d.origin && cmp(r.value.name, name) == 0
  {
    SortedNames(cmp, d.sorted);
    var index := search(d.sortedNames, name);
    assert SearchResult(cmp, d.sortedNames, name, index);
    if index < 0 then
      assert forall c :: c in d.origin ==> cmp(c.name, name) != 0 by {
        forall c | c in d.origin ensures cmp(c.name, name) != 0 {
          DeclaredNamesAreSorted(cmp, d, c);
        }
      }
      Failure(NoSuchElement(name))
    else
      assert d.sorted[index] in multiset(d.origin);
      assert d.sortedNames[index] == d.sorted[index].name;
      Success(d.sorted[index])
  }

  /** All columns, in declaration order. */
  function GetColumnMetadatas(d: MySqlRowMetadata): seq<ColumnMetadata> {
    d.origin
  }

  /** The column name set. */
  function GetColumnNames(d: MySqlRowMetadata): ColumnNameSet {
    d.nameSet
  }

  /** The underlying declaration-order columns. */
  function Unwrap(d: MySqlRowMetadata): seq<ColumnMetadata> {
    d.origin
  }
}
