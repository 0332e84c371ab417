# Row metadata of the r2dbc-mysql driver, in Dafny

This project models `MySqlRowMetadata`, the column directory the driver builds once per
query result. It keeps the columns in the order the server declared them, for lookup by
position. It also keeps a copy sorted by name, with a parallel array of the sorted names,
so that a name can be found by binary search under MySQL's identifier comparator.

Modules:

- `Wrappers`: the `Result` type that stands in for the exceptions the source throws.
- `MySqlNames`: the identifier comparator and the name search. The Java class `MySqlNames` is
  not shown, and its identifier rules are not modelled. The comparator is a parameter `cmp` required to obey the contract of
  `java.util.Comparator`. From that contract the module proves that "not after" is a total
  preorder. The name search is a parameter `search` required to meet the contract the directory
  relies on (`SearchContract`): on name-sorted names it returns an in-range index of a name
  comparing equal to the query, or a negative value exactly when no name does. A binary search
  under `cmp` (`NameSearch`) is proved to meet that contract, so the contract can be met.
- `Columns`: column definitions, column metadata (position, name, opaque definition), the
  name projection `NamesOf`, and `getNames` as an array loop.
- `NameSort`: the sort by name, an insertion sort proved to give a permutation whose names are
  non-decreasing under the comparator.
- `RowMetadata`: the directory, its invariant `Valid`, the private constructor (`New`), `create`
  and the lookups.
- `RowMetadataProperties`: lemmas relating the lookups to each other and to the definitions
  the directory was created from.

The constructor of `MySqlRowMetadata` is private, so every directory comes from `New`. `New`
establishes the invariant `Valid`, and the lookup by name and the lemmas take `Valid` as their
precondition, as the source's methods rely on the fields the constructor set.

Every value is immutable here. A lookup is a function of the directory and cannot change it, so
"the directory is unchanged by a failed lookup" holds by construction. The one way the source
lets a caller change a directory, writing into the array `unwrap` returns, is listed under
"Left out". Exceptions become
`Failure` values: `IllegalArgument` for zero columns, `IndexOutOfBounds` for a bad position,
`NoSuchElement` for an unknown name.

Duplicate names: the code fixes no tie-break between columns whose names compare equal.
`Arrays.sort` decides their order in the sorted copy, and `nameSearch` lands on one of them.
The model pins neither choice where the lookups are concerned. The invariant `Valid` only says
the sorted copy is some permutation ordered by name, the search is any function meeting its
contract, and every lookup property is proved from `Valid` and that contract alone. So which of
several equal-named columns a lookup returns is left open. A documented tie-break would be
desirable, but the code has none and neither does this model. The binary search `NameSearch`
is only a witness that the contract can be met.

## Model

| member | source | states |
|---|---|---|
| `MySqlNames.NotAfterIsTotalPreorder` | src/main/java/dev/miku/r2dbc/mysql/MySqlRowMetadata.java:38-39 | Under any comparator meeting the Comparator contract, "compares not after" is reflexive, total and transitive, so ordering columns by it is well defined |
| `MySqlNames.BinarySearchMeetsContract` | src/main/java/dev/miku/r2dbc/mysql/MySqlRowMetadata.java:97 | The contract assumed of the search called at line 97 can be met: under a lawful comparator, a binary search returns, on any name-sorted names, an in-range index whose name compares equal to the query, and a negative value exactly when no name compares equal |
| `Columns.GetNames` | src/main/java/dev/miku/r2dbc/mysql/MySqlRowMetadata.java:136-145 | The loop fills a newly allocated array with the same length as the columns, and entry i is column i's name, in agreement with the name projection `NamesOf` that the rest of the model uses |
| `NameSort.SortByName` | src/main/java/dev/miku/r2dbc/mysql/MySqlRowMetadata.java:68-70 | The sorted copy has the input's length, is a permutation of it, and its names are non-decreasing under the comparator |
| `RowMetadata.New` | src/main/java/dev/miku/r2dbc/mysql/MySqlRowMetadata.java:52-82 | Zero columns fail with IllegalArgument and give no directory. Otherwise the result meets the invariant: original order kept, sorted copy a name-ordered permutation, sorted names parallel to it, name set over both. With one column, the sorted copy is the original and the sorted names are that column's name alone |
| `RowMetadata.Create` | src/main/java/dev/miku/r2dbc/mysql/MySqlRowMetadata.java:125-134 | Fails exactly on zero definitions. Otherwise it gives one column per definition, and column i has index i and the name and definition of definition i |
| `RowMetadata.GetColumnMetadataByIndex` | src/main/java/dev/miku/r2dbc/mysql/MySqlRowMetadata.java:85-91 | Succeeds exactly when 0 <= index < column count, with the column at that position. Otherwise it fails with IndexOutOfBounds carrying the index and the count |
| `RowMetadata.GetColumnMetadataByName` | src/main/java/dev/miku/r2dbc/mysql/MySqlRowMetadata.java:94-104 | For any search meeting its contract, fails with NoSuchElement exactly when no declared column's name compares equal to the query. Otherwise it returns one of the declared columns, whose name compares equal to the query |
| `RowMetadataProperties.NamesOfPermutation` | src/main/java/dev/miku/r2dbc/mysql/MySqlRowMetadata.java:72-73 | The names of a rearranged column array are the same rearranged names, so the sorted names are a permutation of the original names |
| `RowMetadataProperties.ColumnNamesInDeclarationOrder` | src/main/java/dev/miku/r2dbc/mysql/MySqlRowMetadata.java:72-78 | The column name set is built from the declaration-order names, one per column with duplicates kept, and from the directory's sorted names, which are ordered and a permutation of the declaration-order names |
| `RowMetadataProperties.DeclarationOrderKept` | src/main/java/dev/miku/r2dbc/mysql/MySqlRowMetadata.java:106-123 | For a non-empty input, getColumnMetadatas and unwrap both expose exactly the columns given to the constructor, in their order |
| `RowMetadataProperties.CreatedColumnsByIndex` | src/main/java/dev/miku/r2dbc/mysql/MySqlRowMetadata.java:125-134 | On a directory created from definitions, lookup at position i succeeds exactly for 0 <= i < definition count, and returns the column created with index i from definition i. Every other position fails with IndexOutOfBounds |
| `RowMetadataProperties.EveryColumnFoundByName` | src/main/java/dev/miku/r2dbc/mysql/MySqlRowMetadata.java:94-104 | Looking up any declared column by its own name succeeds, with a column whose name compares equal to it |
| `RowMetadataProperties.EquivalentNamesFindSameColumn` | src/main/java/dev/miku/r2dbc/mysql/MySqlRowMetadata.java:94-104 | Two spellings that compare equal either both fail or both succeed. When at most one declared column's name compares equal to them, they find the same column |
| `RowMetadataProperties.UniqueNamesFindExactColumn` | src/main/java/dev/miku/r2dbc/mysql/MySqlRowMetadata.java:94-104 | When no two columns' names compare equal, looking up a column's name returns exactly that column |
| `RowMetadataProperties.NameThenIndex` | src/main/java/dev/miku/r2dbc/mysql/MySqlRowMetadata.java:85-104 | When columns carry their own positions, as create builds them, the column found by name is found again by positional lookup at its index |

## Left out

- `MySqlNames.compare` and `MySqlNames.nameSearch` are not part of this model. Their identifier rules are left out: case folding, and the case-sensitive search for back-quoted names. The comparator is abstract (any Comparator-contract function). The search is any function meeting `SearchContract`.
- MySqlNames.SearchContract: states only what the directory relies on. The real search strips the back-quotes of a back-quoted query and then compares case-sensitively, so it can return a name that does not compare equal to the query: the contract does not hold for back-quoted queries.
- RowMetadataProperties.EquivalentNamesFindSameColumn: promises the same column only when at most one declared name matches. With several matches, the search contract allows equal spellings to land on different columns.
- RowMetadataProperties.DeclarationOrderKept: `unwrap` returns the internal `originMetadata` array itself. With one column, that array is also the sorted view. A caller that writes into it changes the directory, and with several columns such a write can break the permutation between the two views. Sequences here cannot be written, so the model assumes callers never write to the returned array.
- NameSort.SortByName: `Arrays.sort` on objects is stable; the contract does not state stability, because the directory does not rely on it.
- `ColumnNameSet` is not part of this model beyond the two name arrays handed to `ColumnNameSet.of`. Its `contains`, `size` and iterator are left out.
- Decoding of `DefinitionMetadataMessage` in `MySqlColumnMetadata.create` is left out. A definition is modelled as its name plus opaque fields.
- `toString`, the `requireNonNull` check (Dafny strings cannot be null), the `InternalArrays.asImmutableList` wrapper and exception message texts are left out.
- Safe publication and concurrent reads are about the Java memory model, so they are left out.
- Java `int` width is not modelled: positions are unbounded integers, and no array reaches 2^31 entries.
