# CSV ↔ data-asset engines of the AssetCsvSync and SheetTable editor plugins

This project models, in Dafny, the two CSV engines that export an Unreal data
asset to a two-line CSV file (a header line of column names and a line of cell
values) and write such a row back into the asset. Both walk a class
description guided by per-property metadata:

- `CsvExport` on a class makes it exportable;
- `CsvColumn` on a property gives it a leaf column, optionally renamed;
- `CsvExpand` on a property expands it into the columns of the object, struct
  or container it holds;
- `CsvPrefix` (SheetTable only) overrides the expand prefix `<name>_`.

Reflection is replaced by an explicit descriptor (`Reflection.Schema`: classes
with a superclass and fields, structs with fields, each field a `Field` with
its type and metadata). Live objects are an explicit heap (`Reflection.Heap`,
a map from object identity to class and field values).

The modules are:

- `Strings`: the engine string helpers the codecs use.
  - `%d` printing and `FCString::Atoi`/`Atoi64`. Text out of range saturates to the int32 or int64 bounds, as `_wtoi`/`_wtoi64` and `wcstoll` do.
  - `FString::IsNumeric` and `FString::ToBool`.
- `Reflection`: the descriptor, values, the heap, and a `Host` record of the
  engine services the model does not interpret (float formatting, the JSON
  writer and reader, `ExportText`/`ImportText`, path names, soft-path loading).
- `Columns`: the insertion-ordered column map. The AssetCsvSync exporter keeps
  it as a `TMap` plus a `TArray` order (the `AddColumn` lambda). Both importers
  build the same kind of `TMap` from headers and values.
- `CsvCodec`: `EscapeCSVString`, `ParseCSVLine`, `EscapeListItem`,
  `ParseListCell` and `JoinListCell`. The two parsers are one quote-aware
  state machine, with `,` or `;` as the separator. It differs from section 2
  of RFC 4180 in one way: a `"` seen outside quotes always opens quoting,
  wherever it appears in a field.
- `PropertyCodec`: AssetCsvSync's `PropertyToString` and `StringToProperty`.
  - Scalars are written as `%d`, `true`/`false` or the text itself.
  - Arrays and sets become list cells.
  - Maps become a JSON object, through the host.
  - References become path names.
- `AssetExport`: AssetCsvSync's `ExportClassColumnsEmpty`,
  `ExportObjectToColumns`, `ExportStructToColumns`, and the text
  `ExportDataAssetToCSV` assembles.
- `AssetImport`: AssetCsvSync's `ApplyCSVRowToObject`, `ApplyColumnsToObject`
  and `ApplyColumnsToStruct`.
  - Array indices and map keys are discovered from column names.
  - Containers grow in place.
  - Primitive maps get a deferred rehash.
  - Expansion is gated by the write-back scope.
- `SheetTable`: the SheetTable handler.
  - `BuildColumnsForClass` builds its column list, with a `ClassStack` cycle guard.
  - `GetColumnValue` and `SetColumnValue` walk a property chain.
  - `ApplyCSVRowToObject` runs two passes.
  - The header and value assembly of `ExportDataAssetToCSV`, and the
    handler's own copy of `ParseCSVLine`.

Each walk is defined as a function. The source's loops are methods in classes
holding the state the source mutates:

- `AssetExport.Exporter` holds the column map, the order and `Visited`.
- `AssetImport.Importer` holds the objects and `Visited`.
- `SheetTable.ColumnBuilder` holds the output columns and `ClassStack`.
- `SheetTable.SheetObjects` holds the objects.

Each method is proved to compute exactly the function, and the properties are
proved as lemmas about the functions.

The SheetTable handler's `EscapeCSVString`
(Source/SheetTableEditorPlugin/Private/SheetTableCSVHandler.cpp:649-657) is the
same code as AssetCsvSync's, so both handlers use `CsvCodec.EscapeCsvString`.

Where the descriptions of the plugins and the code differ, the model follows
the code:

- On a class, a property gets a leaf column only with `CsvColumn`. This holds
  in both the schema walk and the live walk. In a struct, a property also gets
  one when it lacks `CsvExpand`.
- `ExportObjectToColumns` and `ApplyColumnsToObject` add the object to
  `Visited` before walking its fields. They then re-enter the same object as
  its superclass, which returns at once. So a live object's superclass
  properties are neither exported nor imported (`SuperclassFieldsNotExported`,
  `SuperclassFieldsNotImported`). Only the schema walk lists them.
- `ExportClassColumnsEmpty` has no type stack guarding it against expand cycles.
- AssetCsvSync ignores `CsvPrefix`. Only SheetTable reads it.
- SheetTable writes header cells unescaped. AssetCsvSync escapes them.

## Model

| member | source | states |
|---|---|---|
| Strings.IntToStringRoundTrip | Source/AssetCsvSyncEditorPlugin/Private/AssetCsvSyncCSVHandler.cpp:1675-1686 | `Atoi` of the `%d` text of an int32 value gives the value back; `Atoi64` does the same for int64 |
| Strings.BoolRoundTrip | Source/AssetCsvSyncEditorPlugin/Private/AssetCsvSyncCSVHandler.cpp:1699-1703 | `ToBool` reads the `true`/`false` text PropertyToString writes back as the same boolean |
| CsvCodec.EscapeCsvString | Source/AssetCsvSyncEditorPlugin/Private/AssetCsvSyncCSVHandler.cpp:1748-1756 | the result equals the input if and only if the input holds none of `,` `"` LF CR; otherwise it is the input wrapped in `"` with every `"` doubled |
| CsvCodec.EscapeListItem | Source/AssetCsvSyncEditorPlugin/Private/AssetCsvSyncCSVHandler.cpp:1809-1817 | the result equals the input if and only if the input holds neither `;` nor `"`; otherwise it is the quoted form |
| CsvCodec.ParseCsvLine | Source/AssetCsvSyncEditorPlugin/Private/AssetCsvSyncCSVHandler.cpp:1758-1807 | the character loop returns exactly the fields of the quote-aware splitter on `,`, and always at least one field |
| CsvCodec.ParseCsvFieldCount | Source/AssetCsvSyncEditorPlugin/Private/AssetCsvSyncCSVHandler.cpp:1758-1807 | a line parses into exactly one more field than the commas read outside quotes (a doubled quote inside quotes stays inside) |
| CsvCodec.CsvLineRoundTrip | Source/AssetCsvSyncEditorPlugin/Private/AssetCsvSyncCSVHandler.cpp:1748-1807 | parsing the comma-join of the escaped values of any non-empty list returns exactly those values |
| CsvCodec.PlainLineRoundTrip | Source/AssetCsvSyncEditorPlugin/Private/AssetCsvSyncCSVHandler.cpp:1758-1807 | values holding neither `,` nor `"` read back unchanged from their unescaped comma-join |
| CsvCodec.ParseListCell | Source/AssetCsvSyncEditorPlugin/Private/AssetCsvSyncCSVHandler.cpp:1819-1872 | the loop returns the splitter's items on `;`, and the result is empty exactly when the cell is empty |
| CsvCodec.EmptyCellIsEmptyList | Source/AssetCsvSyncEditorPlugin/Private/AssetCsvSyncCSVHandler.cpp:1822-1825 | the empty cell reads as the empty list |
| CsvCodec.JoinListCell | Source/AssetCsvSyncEditorPlugin/Private/AssetCsvSyncCSVHandler.cpp:1874-1884 | appending each escaped item and `;`, then removing the last `;`, gives the `;`-join of the escaped items |
| CsvCodec.ListCellRoundTrip | Source/AssetCsvSyncEditorPlugin/Private/AssetCsvSyncCSVHandler.cpp:1809-1884 | ParseListCell inverts JoinListCell if and only if the list is not `[""]` (which joins to the empty cell and reads back empty) |
| CsvCodec.JoinOfEmptyItem | Source/AssetCsvSyncEditorPlugin/Private/AssetCsvSyncCSVHandler.cpp:1874-1884 | the one-item list `[""]` joins to the empty cell |
| Columns.AddKeepsValid | Source/AssetCsvSyncEditorPlugin/Private/AssetCsvSyncCSVHandler.cpp:452-459 | one registration keeps the order free of duplicates and equal to the map's key set, and adds exactly the new name to the keys |
| Columns.AddAllKeepsValid | Source/AssetCsvSyncEditorPlugin/Private/AssetCsvSyncCSVHandler.cpp:452-459 | any sequence of registrations keeps that invariant |
| Columns.AddAllOrder | Source/AssetCsvSyncEditorPlugin/Private/AssetCsvSyncCSVHandler.cpp:452-459 | the order grows by the registered names in first-registration order, each name once, names already present not repeated |
| Columns.AddAllValues | Source/AssetCsvSyncEditorPlugin/Private/AssetCsvSyncCSVHandler.cpp:396-403 | after a sequence of registrations a name holds the value registered last for it; a name never registered keeps its presence and value |
| Columns.AddAllExtendsOrder | Source/AssetCsvSyncEditorPlugin/Private/AssetCsvSyncCSVHandler.cpp:658-665 | registration only appends to the order: the old order is a prefix of the new one |
| Columns.RegisteredNothing | Source/AssetCsvSyncEditorPlugin/Private/AssetCsvSyncCSVHandler.cpp:44-48 | starting empty, the order is empty after registering a sequence if and only if the sequence is empty |
| Columns.RowLookup | Source/AssetCsvSyncEditorPlugin/Private/AssetCsvSyncCSVHandler.cpp:1119-1124 | the row built from headers and values maps a header to the value at its last occurrence, and the row map is valid |
| Columns.RowMissing | Source/AssetCsvSyncEditorPlugin/Private/AssetCsvSyncCSVHandler.cpp:1119-1124 | a name that is no header has no cell in the row |
| Columns.ColumnSink.AddColumn | Source/AssetCsvSyncEditorPlugin/Private/AssetCsvSyncCSVHandler.cpp:396-403 | the registration method leaves the state the function `Add` describes |
| PropertyCodec.ImportText | Source/AssetCsvSyncEditorPlugin/Private/AssetCsvSyncCSVHandler.cpp:1742-1745 | when the ImportText fallback rejects the text, the property keeps its value and the import fails |
| PropertyCodec.ScalarRoundTrip | Source/AssetCsvSyncEditorPlugin/Private/AssetCsvSyncCSVHandler.cpp:1440-1746 | StringToProperty of PropertyToString's text succeeds and gives back the value, for in-range int32/int64, booleans, strings, null references and references whose path loads back |
| PropertyCodec.ArrayRoundTrip | Source/AssetCsvSyncEditorPlugin/Private/AssetCsvSyncCSVHandler.cpp:1445-1596 | an array of round-tripping elements reads back as itself whatever it held before, unless its texts are `[""]` |
| PropertyCodec.SetRoundTrip | Source/AssetCsvSyncEditorPlugin/Private/AssetCsvSyncCSVHandler.cpp:1457-1612 | the same for sets, elements in iteration order |
| PropertyCodec.SingleEmptyElementIsLost | Source/AssetCsvSyncEditorPlugin/Private/AssetCsvSyncCSVHandler.cpp:1585-1596 | a one-element array whose element is written as the empty text comes back empty |
| PropertyCodec.MapCellEdgeCases | Source/AssetCsvSyncEditorPlugin/Private/AssetCsvSyncCSVHandler.cpp:1613-1673 | an empty map cell empties the map and succeeds; a cell the JSON reader rejects empties it and fails; an accepted object gives one entry per JSON field |
| AssetExport.SchemaColumnsArePlaceholders | Source/AssetCsvSyncEditorPlugin/Private/AssetCsvSyncCSVHandler.cpp:391-440 | every column ExportClassColumnsEmpty registers has the empty value and a name under the prefix it was given |
| AssetExport.SchemaSkipsContainers | Source/AssetCsvSyncEditorPlugin/Private/AssetCsvSyncCSVHandler.cpp:420-424 | in the schema walk an array, map or set property contributes at most its own CsvColumn leaf, never element columns |
| AssetExport.NullReferencePlaceholders | Source/AssetCsvSyncEditorPlugin/Private/AssetCsvSyncCSVHandler.cpp:579-592 | a null expanded reference of an exportable declared class contributes exactly the schema walk's placeholder columns under `<prefix><name>_`, and leaves Visited as it was |
| AssetExport.VisitedObjectContributesNothing | Source/AssetCsvSyncEditorPlugin/Private/AssetCsvSyncCSVHandler.cpp:447-450 | an object already in Visited contributes no column and leaves Visited unchanged |
| AssetExport.SuperclassFieldsNotExported | Source/AssetCsvSyncEditorPlugin/Private/AssetCsvSyncCSVHandler.cpp:596-599 | exporting a live object registers exactly its own class's properties: the superclass step re-enters the object just marked visited |
| AssetExport.ExportObjectPrefixed | Source/AssetCsvSyncEditorPlugin/Private/AssetCsvSyncCSVHandler.cpp:442-600 | every column registered while exporting an object under a prefix is named under that prefix, however deep the expansion |
| AssetExport.ExportStructPrefixed | Source/AssetCsvSyncEditorPlugin/Private/AssetCsvSyncCSVHandler.cpp:653-802 | the same for a struct value |
| AssetExport.ExportedTextReadsBack | Source/AssetCsvSyncEditorPlugin/Private/AssetCsvSyncCSVHandler.cpp:50-64 | both exported lines parse back to the names and the values, and pairing them rebuilds exactly the exported name-to-value map |
| AssetExport.WriteCsvText | Source/AssetCsvSyncEditorPlugin/Private/AssetCsvSyncCSVHandler.cpp:50-64 | the header and value loops with their RemoveFromEnd calls produce the two escaped lines of the registered columns |
| AssetExport.ExportDataAssetToCsv | Source/AssetCsvSyncEditorPlugin/Private/AssetCsvSyncCSVHandler.cpp:24-67 | fails with no content exactly for a null asset, a class without CsvExport, or an export that registers nothing; otherwise the column map is valid and the content is its two lines |
| AssetExport.Exporter.ExportClassColumnsEmpty | Source/AssetCsvSyncEditorPlugin/Private/AssetCsvSyncCSVHandler.cpp:391-440 | the method registers exactly the schema walk's columns, in order |
| AssetExport.Exporter.ExportObjectToColumns | Source/AssetCsvSyncEditorPlugin/Private/AssetCsvSyncCSVHandler.cpp:442-600 | the method registers exactly the live walk's columns, in order, and leaves the walk's Visited set |
| AssetExport.Exporter.ExportStructToColumns | Source/AssetCsvSyncEditorPlugin/Private/AssetCsvSyncCSVHandler.cpp:653-802 | the same for a struct value |
| AssetImport.ElementIndexOfSegment | Source/AssetCsvSyncEditorPlugin/Private/AssetCsvSyncCSVHandler.cpp:1180-1194 | a name `<full><d>_<rest>` with a non-empty segment `d` free of `_` names index `Atoi(d)` exactly when `d` is numeric and that index is not negative |
| AssetImport.ElementIndexReadsBack | Source/AssetCsvSyncEditorPlugin/Private/AssetCsvSyncCSVHandler.cpp:1180-1194 | the index the exporter writes into an element prefix is the index discovery reads back |
| AssetImport.NegativeIndexIgnored | Source/AssetCsvSyncEditorPlugin/Private/AssetCsvSyncCSVHandler.cpp:1191-1193 | a negative index segment is discovered as nothing |
| AssetImport.WriteIndexReadsBack | Source/AssetCsvSyncEditorPlugin/Private/AssetCsvSyncCSVHandler.cpp:1258-1268 | the scalar element column the exporter writes names the index the primitive write loop reads back |
| AssetImport.ElementKeyReadsBack | Source/AssetCsvSyncEditorPlugin/Private/AssetCsvSyncCSVHandler.cpp:1290-1300 | a key text without `_` written into `<full><key>_<rest>` is the key discovery reads back |
| AssetImport.ElementIndicesExact | Source/AssetCsvSyncEditorPlugin/Private/AssetCsvSyncCSVHandler.cpp:1178-1196 | the TSet of indices holds each index once, and holds an index if and only if some column names it |
| AssetImport.ElementKeysExact | Source/AssetCsvSyncEditorPlugin/Private/AssetCsvSyncCSVHandler.cpp:1290-1300 | the TSet of key texts holds each key once, and holds a key if and only if some column names it |
| AssetImport.MaxOf | Source/AssetCsvSyncEditorPlugin/Private/AssetCsvSyncCSVHandler.cpp:1179-1196 | MaxIndex is -1 exactly when no index was found, and otherwise is a found index no smaller than any other |
| AssetImport.GrowTo | Source/AssetCsvSyncEditorPlugin/Private/AssetCsvSyncCSVHandler.cpp:1198-1201 | the resize never shrinks the array or changes its existing elements, reaches every discovered index, and yields either the old size or MaxIndex + 1 |
| AssetImport.SortWritesSorted | Source/AssetCsvSyncEditorPlugin/Private/AssetCsvSyncCSVHandler.cpp:1270 | the sorted writes are in ascending index order and are a permutation of the collected writes |
| AssetImport.ApplyWritesGrowOnly | Source/AssetCsvSyncEditorPlugin/Private/AssetCsvSyncCSVHandler.cpp:1271-1279 | applying the writes never shrinks the array, makes it long enough for every written index, and leaves every element no write names unchanged |
| AssetImport.LastWriteLands | Source/AssetCsvSyncEditorPlugin/Private/AssetCsvSyncCSVHandler.cpp:1271-1279 | the last write in the sequence decides its element: that element is StringToProperty of its cell on the value before it |
| AssetImport.FindKey | Source/AssetCsvSyncEditorPlugin/Private/AssetCsvSyncCSVHandler.cpp:1402 | FindMapIndexWithKey returns a position holding the key, or none exactly when no entry holds it |
| AssetImport.UpsertUpdatesOrInserts | Source/AssetCsvSyncEditorPlugin/Private/AssetCsvSyncCSVHandler.cpp:1402-1413 | an existing key is updated in place and a new key appended; no other entry changes, the keys stay distinct, and the key gets the value read from its cell |
| AssetImport.MapWritesKeepKeys | Source/AssetCsvSyncEditorPlugin/Private/AssetCsvSyncCSVHandler.cpp:1390-1414 | over a whole row the primitive map keeps its keys at their positions, new keys only come after them, and all stay distinct |
| AssetImport.ApplyMapPairs | Source/AssetCsvSyncEditorPlugin/Private/AssetCsvSyncCSVHandler.cpp:1390-1419 | the primitive map loop computes the model's writes, and the rehash flag is set exactly when some key was inserted |
| AssetImport.CollectIndices | Source/AssetCsvSyncEditorPlugin/Private/AssetCsvSyncCSVHandler.cpp:1178-1196 | the discovery loop computes the TSet of indices in first-discovery order and MaxIndex |
| AssetImport.CollectWrites | Source/AssetCsvSyncEditorPlugin/Private/AssetCsvSyncCSVHandler.cpp:1257-1269 | the loop collects the pending scalar writes in row order |
| AssetImport.ApplyPrimitiveWrites | Source/AssetCsvSyncEditorPlugin/Private/AssetCsvSyncCSVHandler.cpp:1271-1279 | the loop grows the array as each write needs, then sets the element |
| AssetImport.ImportObject | Source/AssetCsvSyncEditorPlugin/Private/AssetCsvSyncCSVHandler.cpp:1130-1438 | an import keeps every object in the heap and only adds to Visited |
| AssetImport.VisitedObjectUnchanged | Source/AssetCsvSyncEditorPlugin/Private/AssetCsvSyncCSVHandler.cpp:1134-1137 | an object already in Visited is returned as it is, with the objects and Visited unchanged |
| AssetImport.SuperclassFieldsNotImported | Source/AssetCsvSyncEditorPlugin/Private/AssetCsvSyncCSVHandler.cpp:1432-1435 | importing a live object imports only its own class's properties: the superclass step re-enters the object just marked visited |
| AssetImport.CsvColumnLeafWritten | Source/AssetCsvSyncEditorPlugin/Private/AssetCsvSyncCSVHandler.cpp:1148-1158 | a CsvColumn property whose column is in the row ends with the value StringToProperty reads from the cell under either scope, and no other object changes |
| AssetImport.MissingColumnSkipped | Source/AssetCsvSyncEditorPlugin/Private/AssetCsvSyncCSVHandler.cpp:1148-1162 | a property whose column is not in the row and is not expanded leaves the state unchanged |
| AssetImport.PlainFieldLeafRules | Source/AssetCsvSyncEditorPlugin/Private/AssetCsvSyncCSVHandler.cpp:817-826 | a property with neither CsvColumn nor CsvExpand whose column is in the row is set from its cell in a struct, while the object importer (line 1146) passes it over |
| AssetImport.RootOnlyStructKeepsObjects | Source/AssetCsvSyncEditorPlugin/Private/AssetCsvSyncCSVHandler.cpp:809-830 | under RootOnly a struct import, its super structs included, leaves every object untouched: only the struct value changes |
| AssetImport.RootOnlyImport | Source/AssetCsvSyncEditorPlugin/Private/AssetCsvSyncCSVHandler.cpp:1160-1162 | under RootOnly an import changes no object but its target, and adds at most the target to Visited |
| AssetImport.NoRoomArrayUnchanged | Source/AssetCsvSyncEditorPlugin/Private/AssetCsvSyncCSVHandler.cpp:853-950 | when no column name is longer than the expand prefix, importing an array discovers nothing and leaves it as it was |
| AssetImport.NoRoomMapUnchanged | Source/AssetCsvSyncEditorPlugin/Private/AssetCsvSyncCSVHandler.cpp:953-1094 | the same for a map |
| AssetImport.Importer.ApplyCsvRowToObject | Source/AssetCsvSyncEditorPlugin/Private/AssetCsvSyncCSVHandler.cpp:1110-1128 | succeeds exactly when the target exists, its class is exportable and the header and value counts agree; a failure writes nothing; otherwise the objects are the walk's result from an empty Visited set over the row built with last-wins headers |
| AssetImport.Importer.ApplyColumnsToObject | Source/AssetCsvSyncEditorPlugin/Private/AssetCsvSyncCSVHandler.cpp:1130-1438 | the method leaves exactly the objects and Visited set of the object walk |
| AssetImport.Importer.ApplyColumnsToStruct | Source/AssetCsvSyncEditorPlugin/Private/AssetCsvSyncCSVHandler.cpp:804-1108 | the method leaves exactly the objects, Visited set and struct value of the struct walk |
| SheetTable.ColumnPrefixOf | Source/SheetTableEditorPlugin/Private/SheetTableCSVHandler.cpp:374-378 | the expand prefix is the non-empty CsvPrefix when there is one, and otherwise the property name and `_` |
| SheetTable.FieldColumns | Source/SheetTableEditorPlugin/Private/SheetTableCSVHandler.cpp:349-383 | a property with neither CsvColumn nor CsvExpand yields nothing; a CsvColumn property first yields the column named prefix + CsvColumn-or-name whose chain is the prefix chain and the property; without an expandable object class that is its only column |
| SheetTable.BuildColumnsShaped | Source/SheetTableEditorPlugin/Private/SheetTableCSVHandler.cpp:332-392 | every built column is named under the prefix, its chain extends the prefix chain, and its chain grows by at most one property per class not on the stack, so expansion depth is bounded by the number of classes |
| SheetTable.StackedClassYieldsNothing | Source/SheetTableEditorPlugin/Private/SheetTableCSVHandler.cpp:337-341 | a class already on ClassStack yields no column |
| SheetTable.SuperColumnsLast | Source/SheetTableEditorPlugin/Private/SheetTableCSVHandler.cpp:386-389 | the superclass's columns come after the class's own, with the same chain and prefix |
| SheetTable.ColumnBuilder.BuildColumnsForClass | Source/SheetTableEditorPlugin/Private/SheetTableCSVHandler.cpp:332-392 | the method appends exactly the class's columns and leaves ClassStack as it found it |
| SheetTable.ColumnBuilder.GetExportablePropertiesRecursively | Source/SheetTableEditorPlugin/Private/SheetTableCSVHandler.cpp:322-330 | the output is cleared first, empty for a null class, and otherwise the class's columns from an empty stack |
| SheetTable.ChainOwner | Source/SheetTableEditorPlugin/Private/SheetTableCSVHandler.cpp:432-438 | the owner reached is an existing object, and a one-property chain is owned by the root itself |
| SheetTable.WalkChain | Source/SheetTableEditorPlugin/Private/SheetTableCSVHandler.cpp:432-438 | the loop down the chain reassigning the current object reaches exactly the chain's owner |
| SheetTable.GetColumnValue | Source/SheetTableEditorPlugin/Private/SheetTableCSVHandler.cpp:426-444 | succeeds if and only if the chain can be followed from the root; the value is the leaf's text then, and empty otherwise |
| SheetTable.SetColumn | Source/SheetTableEditorPlugin/Private/SheetTableCSVHandler.cpp:446-468 | when the chain cannot be followed nothing changes and it fails; otherwise only the chain's owner changes, and a failed conversion changes nothing |
| SheetTable.SheetObjects.SetColumnValue | Source/SheetTableEditorPlugin/Private/SheetTableCSVHandler.cpp:446-468 | the method leaves exactly the objects `SetColumn` describes |
| SheetTable.Pass | Source/SheetTableEditorPlugin/Private/SheetTableCSVHandler.cpp:492-513 | a pass keeps every object in the heap |
| SheetTable.ApplyRow | Source/SheetTableEditorPlugin/Private/SheetTableCSVHandler.cpp:470-517 | succeeds exactly when the target exists, its class is exportable and the counts agree; a failure writes nothing |
| SheetTable.FirstPassTouchesRoot | Source/SheetTableEditorPlugin/Private/SheetTableCSVHandler.cpp:491-500 | the first pass writes only single-property columns, so it changes no object but the root |
| SheetTable.RootOnlyTouchesTarget | Source/SheetTableEditorPlugin/Private/SheetTableCSVHandler.cpp:502-514 | under RootOnly the second pass does not run, so the import changes no object but the target |
| SheetTable.PassSkipsMissing | Source/SheetTableEditorPlugin/Private/SheetTableCSVHandler.cpp:496-498 | a pass whose columns are all outside it or absent from the row changes nothing |
| SheetTable.SheetObjects.ApplyCsvRowToObject | Source/SheetTableEditorPlugin/Private/SheetTableCSVHandler.cpp:470-517 | the two-pass method leaves exactly the objects and outcome `ApplyRow` describes |
| SheetTable.SheetToText | Source/SheetTableEditorPlugin/Private/SheetTableCSVHandler.cpp:519-569 | any property other than the scalar kinds and object references is written as the empty text |
| SheetTable.SheetFromText | Source/SheetTableEditorPlugin/Private/SheetTableCSVHandler.cpp:572-648 | the scalar kinds except bytes and object references always import; any other kind fails and keeps its value |
| SheetTable.SheetToTextAgrees | Source/SheetTableEditorPlugin/Private/SheetTableCSVHandler.cpp:519-569 | on the scalar kinds this PropertyToString agrees with AssetCsvSync's |
| SheetTable.SheetFromTextAgrees | Source/SheetTableEditorPlugin/Private/SheetTableCSVHandler.cpp:572-648 | on the kinds it imports this StringToProperty agrees with AssetCsvSync's |
| SheetTable.SheetScalarRoundTrip | Source/SheetTableEditorPlugin/Private/SheetTableCSVHandler.cpp:519-648 | every value that round-trips through AssetCsvSync's property codec round-trips through this one |
| SheetTable.ExportDataAssetToCsv | Source/SheetTableEditorPlugin/Private/SheetTableCSVHandler.cpp:20-61 | fails with no content exactly for a null asset, a class without CsvExport or a class without columns; otherwise the content is the unescaped header line and the escaped value line of the built columns |
| SheetTable.SheetTextReadsBack | Source/SheetTableEditorPlugin/Private/SheetTableCSVHandler.cpp:44-60 | the value line parses back to the column texts; the header line parses back to the names when no name holds `,` or `"` |
| SheetTable.HeaderWithCommaSplits | Source/SheetTableEditorPlugin/Private/SheetTableCSVHandler.cpp:46-51 | headers are not escaped: a column named `a,b` reads back as the two headers `a` and `b` |
| SheetTable.ValueWithCommaReadsBack | Source/SheetTableEditorPlugin/Private/SheetTableCSVHandler.cpp:53-60 | values are escaped: the cell `a,b` reads back whole |
| SheetTable.ParseCsvLine | Source/SheetTableEditorPlugin/Private/SheetTableCSVHandler.cpp:659-708 | this handler's copy of the parser returns exactly the shared splitter's fields, at least one, so the escape/parse round trip holds for it too |

## Left out

- The editor UI, module wiring, settings screens and metadata accessor wrappers. They are not part of the CSV engines.
- File I/O. `LoadFileToString`, `SaveStringToFile` and the line splitter `ParseIntoArrayLines` are not modelled. The round trips are stated at line level. Because the splitter runs first, a quoted newline does not survive a file round trip.
- Asset creation and lookup: `ImportCSVToNewDataAssetAsset`, `CreateNewDataAssetAsset`, `SaveCreatedAsset`, `SplitAssetPath` and the asset registry. These are engine services.
- The scan of loaded classes in `GetExportableDataAssetClasses`. It is engine reflection.
- Part of `ImportCSVToDataAsset`: the `NewObject` step and the two-line check. Its header/value count check is the one `ApplyCSVRowToObject` repeats, which is modelled.
- Float formatting and parsing (`%f`, `SanitizeFloat`, `Atof`/`Atod`). These are functions of the `Host` record and are not interpreted.
- The JSON encode and decode of map cells. This is also in `Host`.
- The `ExportTextItem`/`ImportText` fallbacks. These are also in `Host`.
- `StaticLoadObject` and soft-pointer `LoadSynchronous`. Loading is `Host.loadObject` plus a lookup in the explicit heap. Soft and hard references are one reference kind, and a dangling reference reads as null.
- `MarkPackageDirty` and `PostEditChange`. These are editor notifications with no effect on values.
- The global `WriteBackScope` setting. It is a parameter of the importers.
- Map rehashing. The model keeps the `bNeedsRehash` flag and proves when it is set. Hash buckets are not modelled: a map is its sequence of entries in iteration order.
- The null-object call of `ExportObjectToColumns` (442-446). No caller passes a null object: the exporter handles a null expanded reference itself, with the schema walk.
- AssetExport.SchemaColumns: requires an acyclic descriptor (`Reflection.WellFormed`: supertypes and expanded object classes have smaller class ids). `ExportClassColumnsEmpty` has no type stack, so on an expand cycle between classes it recurses without bound. The model does not follow it there. `AssetExport.ExportObject` inherits this requirement, because it runs the schema walk for a null expanded reference.
- AssetExport.ExportObject and AssetImport.ImportObject: these assume structs nest acyclically and supertypes have smaller ids (`Reflection.Consistent`). A struct that contains itself by value cannot exist in the engine. The importer does not require acyclic class expand edges: a class that expands a reference to its own class is imported, and the Visited set stops the walk.
- SheetTable.SheetToText and SheetTable.SheetFromText: floats, JSON and the other non-scalar kinds of this handler are not modelled beyond "written as empty" and "not imported", because the cases it does have are AssetCsvSync's.
- Integer widths: values of int32 and int64 properties are unbounded integers. Only `Atoi`/`Atoi64` bound the text read, by saturation. On platforms whose `Atoi` casts a wider `wcstol` result to int32, text beyond the int32 range reads differently; the model follows the Windows editor.
- Letter case in column names. `FString` equality, its hash and `StartsWith` ignore case, so the engine's column and row maps, the `TSet` of map keys and the prefix tests treat `Health` and `health` as one name. The model compares names exactly. The lines below name the properties this affects.
- Columns.RowLookup: finds a header's value by its exact spelling only; in the engine a header that differs only in case also finds it, and of two such headers the later value wins.
- Columns.RowMissing: "absent" means no header with that exact spelling; the engine would find a header that differs only in case.
- Columns.ColumnSink.AddColumn: two names that differ only in case are two columns here; in the engine the second add overwrites the first one's value and keeps its position.
- AssetImport.ElementIndicesExact: the prefix test is case-sensitive here, as `StartsWith` with its default `IgnoreCase` is not.
- AssetImport.ElementKeysExact: the prefix test and key membership are case-sensitive here; the engine's `StartsWith` and `TSet<FString>` are not, so keys differing only in case are one key there.
- AssetImport.CsvColumnLeafWritten: applies to the row column with the leaf name's exact spelling; the engine also writes from a header that differs only in case.
- AssetImport.MissingColumnSkipped: a header that differs from the leaf name only in case counts as missing here, while the engine writes it.
- SheetTable.PassSkipsMissing: "missing from the row" is by exact spelling; the engine's row map would find a header that differs only in case.
- AssetImport.SortWrites: the model sorts stably, so of several writes to one array index the one later in the row lands. `TArray::Sort` is not stable, and names such as `Arr_1` and `Arr_01` both read as index 1, so which of those writes lands is not fixed in the engine.

