/** Column definitions and column metadata. Decoding a definition message is not part of this
    model: a definition is its declared name plus the remaining fields, carried opaquely. */
module Columns {

  /** The decoded fields of a definition other than its name (type, character set, flags, ...).
      Nothing here inspects them. */
  type DefinitionFields(==)

  /** One column-definition message: the declared name and the other decoded fields. */
  datatype Definition = Definition(name: string, fields: DefinitionFields)

  /** The metadata of one column: its position in the row, its name, and its definition. */
  datatype ColumnMetadata = ColumnMetadata(index: nat, name: string, definition: Definition)

  /** The metadata created for the definition at position `index`. */
  function CreateColumn(index: nat, definition: Definition): ColumnMetadata {
    ColumnMetadata(index, definition.name, definition)
  }

  /** The names of `columns`, position by position. */
  function NamesOf(columns: seq<ColumnMetadata>): seq<string> {
    seq(|columns|, i requires 0 <= i < |columns| => columns[i].name)
  }

  /** Copies the names of `metadata` into a new array, position by position. */
  method GetNames(metadata: array<ColumnMetadata>) returns (names: array<string>)
    ensures fresh(names)
    ensures names.Length == metadata.Length
    ensures names[..] == NamesOf(metadata[..])
  {
    var size := metadata.Length;
    names := new string[size];
    for i := 0 to size
      invariant forall k :: 0 <= k < i ==> names[k] == metadata[k].name
    {
      names[i] := metadata[i].name;
    }
  }
}
