/**
 * The AssetCsvSync exporter: ExportClassColumnsEmpty (the schema walk that
 * lists a class's columns with empty values), ExportObjectToColumns and
 * ExportStructToColumns (the walk over a live object graph), and the text
 * ExportDataAssetToCSV writes.
 *
 * Each walk is first defined as a function returning the columns it
 * registers, in registration order, and the Visited set it leaves behind;
 * the methods of `Exporter` are the source's loops, proved to register
 * exactly those columns.
 */
module AssetExport {
  import opened Strings
  import opened CsvCodec
  import opened Reflection
  import opened PropertyCodec
  import opened Columns

  /**
   * PropertyToString as the walks see it: the cell text of a value of a
   * given type. ExportDataAssetToCsv passes `PropertyCodec.ToText`.
   */
  type CellText = (FieldType, Value) -> string

  /** The cell text the exporter writes: the property codec's PropertyToString. */
  function CellOf(host: Host): CellText
  {
    (ty, v) => ToText(host, ty, v)
  }

  /** What a walk registers, in order, and the Visited set after it. */
  datatype Walk = Walk(cols: seq<Column>, visited: set<ObjId>)

  /** Register `a`, then walk `b`. */
  function Then(a: seq<Column>, b: Walk): Walk
  {
    Walk(a + b.cols, b.visited)
  }

  // ---------------------------------------------------------------------
  // The schema walk (no object at hand)
  // ---------------------------------------------------------------------

  /** ExportClassColumnsEmpty: the own fields' columns, then the superclass's. */
  function SchemaColumns(schema: Schema, cls: ClassId, prefix: string): seq<Column>
    requires WellFormed(schema)
    decreases cls, 1
  {
    if cls !in schema.classes then []
    else
      var d := schema.classes[cls];
      SchemaFields(schema, cls, 0, prefix) + (if d.super.Some? then SchemaColumns(schema, d.super.value, prefix) else [])
  }

  /** The columns of fields `i..` of `cls` in the schema walk. */
  function SchemaFields(schema: Schema, cls: ClassId, i: nat, prefix: string): seq<Column>
    requires WellFormed(schema) && cls in schema.classes && i <= |schema.classes[cls].fields|
    decreases cls, 0, |schema.classes[cls].fields| - i
  {
    if i == |schema.classes[cls].fields| then []
    else SchemaField(schema, cls, i, prefix) + SchemaFields(schema, cls, i + 1, prefix)
  }

  /**
   * One field in the schema walk: a CsvColumn field gives an empty leaf
   * column; a CsvExpand object field of an exportable declared class gives
   * that class's columns under "<name>_"; expanded containers give nothing.
   */
  function SchemaField(schema: Schema, cls: ClassId, i: nat, prefix: string): seq<Column>
    requires WellFormed(schema) && cls in schema.classes && i < |schema.classes[cls].fields|
    decreases cls, 0, 0
  {
    var f := schema.classes[cls].fields[i];
    var leaf := if f.column.Some? then [Column(LeafColumnName(prefix, f), "")] else [];
    if f.expand && !IsContainer(f.ty) && f.ty.ObjectOf? && CanExportClass(schema, f.ty.cls) then
      assert ExpandAcyclic(schema, cls);
      leaf + SchemaColumns(schema, f.ty.cls, prefix + ExpandPrefix(f))
    else leaf
  }

  // ---------------------------------------------------------------------
  // The object walk
  // ---------------------------------------------------------------------

  /** 0 for the empty struct value (what an absent nested struct reads as), 1 otherwise; part of the termination measure. */
  function Flag(v: Value): nat
  {
    if v == StructV(map[]) then 0 else 1
  }

  /**
   * ExportObjectToColumns(o, cls): nothing for an unknown class or an object
   * already visited; otherwise mark `o` visited, walk the own fields of
   * `cls`, then walk `o` again as its superclass.
   */
  function ExportObject(schema: Schema, cell: CellText, heap: Heap, o: ObjId, cls: ClassId, prefix: string, visited: set<ObjId>): (w: Walk)
    requires WellFormed(schema) && o in heap
    ensures visited <= w.visited
    decreases heap.Keys - visited, 0
  {
    if cls !in schema.classes || o in visited then Walk([], visited)
    else
      var own := ObjectFields(schema, cell, heap, o, cls, 0, prefix, visited + {o});
      var d := schema.classes[cls];
      if d.super.Some? then
        Then(own.cols, ExportObject(schema, cell, heap, o, d.super.value, prefix, own.visited))
      else own
  }

  function ObjectFields(schema: Schema, cell: CellText, heap: Heap, o: ObjId, cls: ClassId, i: nat, prefix: string, visited: set<ObjId>): (w: Walk)
    requires WellFormed(schema) && o in heap && cls in schema.classes && i <= |schema.classes[cls].fields|
    ensures visited <= w.visited
    decreases heap.Keys - visited, 4, |schema.classes[cls].fields| - i
  {
    if i == |schema.classes[cls].fields| then Walk([], visited)
    else
      var first := ObjectField(schema, cell, heap, o, schema.classes[cls].fields[i], prefix, visited);
      Then(first.cols, ObjectFields(schema, cell, heap, o, cls, i + 1, prefix, first.visited))
  }

  /** One property of a live object: its leaf column, then its expansion. */
  function ObjectField(schema: Schema, cell: CellText, heap: Heap, o: ObjId, f: Field, prefix: string, visited: set<ObjId>): (w: Walk)
    requires WellFormed(schema) && o in heap
    ensures visited <= w.visited
    decreases heap.Keys - visited, 3
  {
    Then(ObjectLeaf(cell, heap, o, f, prefix), ObjectExpand(schema, cell, heap, o, f, prefix, visited))
  }

  /** A property of an object has a leaf column exactly when it has CsvColumn. */
  function ObjectLeaf(cell: CellText, heap: Heap, o: ObjId, f: Field, prefix: string): seq<Column>
    requires o in heap
  {
    if f.column.Some? then [Column(LeafColumnName(prefix, f), cell(f.ty, Get(heap[o].fields, f)))] else []
  }

  /**
   * The CsvExpand part of an object property: an array or a map gives its
   * elements; a reference to an exportable declared class gives the
   * referenced object's columns, or that class's placeholders when it is
   * null; sets, structs and everything else give nothing.
   */
  function ObjectExpand(schema: Schema, cell: CellText, heap: Heap, o: ObjId, f: Field, prefix: string, visited: set<ObjId>): (w: Walk)
    requires WellFormed(schema) && o in heap
    ensures visited <= w.visited
    decreases heap.Keys - visited, 2
  {
    var v := Get(heap[o].fields, f);
    var full := prefix + ExpandPrefix(f);
    if !f.expand || f.ty.SetOf? then Walk([], visited)
    else if f.ty.ArrayOf? then
      if v.ArrayV? then ArrayElements(schema, cell, heap, f.ty.inner, v, 0, full, visited) else Walk([], visited)
    else if f.ty.MapOf? then
      if v.MapV? then MapElements(schema, cell, heap, f.ty.key, f.ty.value, v, 0, full, visited) else Walk([], visited)
    else if f.ty.ObjectOf? && CanExportClass(schema, f.ty.cls) then
      match Resolve(heap, f.ty, v)
      case Some(inner) => ExportObject(schema, cell, heap, inner, heap[inner].cls, full, visited)
      case None => Walk(SchemaColumns(schema, f.ty.cls, full), visited)
    else Walk([], visited)
  }

  /** The elements `j..` of an expanded array, labelled by index. */
  function ArrayElements(schema: Schema, cell: CellText, heap: Heap, inner: FieldType, arr: Value, j: nat, full: string, visited: set<ObjId>): (w: Walk)
    requires WellFormed(schema) && arr.ArrayV? && j <= |arr.items|
    ensures visited <= w.visited
    decreases heap.Keys - visited, 1, 1, arr, |arr.items| - j
  {
    if j == |arr.items| then Walk([], visited)
    else
      var first := Element(schema, cell, heap, inner, arr.items[j], IntToString(j), full, visited);
      Then(first.cols, ArrayElements(schema, cell, heap, inner, arr, j + 1, full, first.visited))
  }

  /** The entries `j..` of an expanded map, in iteration order, labelled by the key's text. */
  function MapElements(schema: Schema, cell: CellText, heap: Heap, key: FieldType, inner: FieldType, m: Value, j: nat, full: string, visited: set<ObjId>): (w: Walk)
    requires WellFormed(schema) && m.MapV? && j <= |m.entries|
    ensures visited <= w.visited
    decreases heap.Keys - visited, 1, 1, m, |m.entries| - j
  {
    if j == |m.entries| then Walk([], visited)
    else
      var e := m.entries[j];
      assert e.value < e < m;
      var first := Element(schema, cell, heap, inner, e.value, cell(key, e.key), full, visited);
      Then(first.cols, MapElements(schema, cell, heap, key, inner, m, j + 1, full, first.visited))
  }

  /**
   * One container element labelled `tag`: a struct is walked under
   * "<full><tag>_"; a reference is walked under the same prefix when it is
   * not null and its own class is exportable; anything else is the one
   * column "<full><tag>".
   */
  function Element(schema: Schema, cell: CellText, heap: Heap, inner: FieldType, e: Value, tag: string, full: string, visited: set<ObjId>): (w: Walk)
    requires WellFormed(schema)
    ensures visited <= w.visited
    decreases heap.Keys - visited, 1, 1, e
  {
    if inner.StructOf? then ExportStruct(schema, cell, heap, e, inner.st, full + tag + "_", visited)
    else if inner.ObjectOf? then
      match Resolve(heap, inner, e)
      case Some(x) =>
        if CanExportClass(schema, heap[x].cls) then ExportObject(schema, cell, heap, x, heap[x].cls, full + tag + "_", visited)
        else Walk([], visited)
      case None => Walk([], visited)
    else Walk([Column(full + tag, cell(inner, e))], visited)
  }

  // ---------------------------------------------------------------------
  // The struct walk
  // ---------------------------------------------------------------------

  /** ExportStructToColumns(v, st): the own fields of `st`, then the super struct's. */
  function ExportStruct(schema: Schema, cell: CellText, heap: Heap, v: Value, st: StructId, prefix: string, visited: set<ObjId>): (w: Walk)
    requires WellFormed(schema)
    ensures visited <= w.visited
    decreases heap.Keys - visited, 1, Flag(v), v, st
  {
    if st !in schema.structs then Walk([], visited)
    else
      var own := StructFields(schema, cell, heap, v, st, 0, prefix, visited);
      var d := schema.structs[st];
      if d.super.Some? then
        Then(own.cols, ExportStruct(schema, cell, heap, v, d.super.value, prefix, own.visited))
      else own
  }

  function StructFields(schema: Schema, cell: CellText, heap: Heap, v: Value, st: StructId, i: nat, prefix: string, visited: set<ObjId>): (w: Walk)
    requires WellFormed(schema) && st in schema.structs && i <= |schema.structs[st].fields|
    ensures visited <= w.visited
    decreases heap.Keys - visited, 1, Flag(v), v, st, |schema.structs[st].fields| - i, 2
  {
    if i == |schema.structs[st].fields| then Walk([], visited)
    else
      var first := StructMember(schema, cell, heap, v, st, i, prefix, visited);
      Then(first.cols, StructFields(schema, cell, heap, v, st, i + 1, prefix, first.visited))
  }

  /** One property of a struct value: its leaf column, then its expansion. */
  function StructMember(schema: Schema, cell: CellText, heap: Heap, v: Value, st: StructId, i: nat, prefix: string, visited: set<ObjId>): (w: Walk)
    requires WellFormed(schema) && st in schema.structs && i < |schema.structs[st].fields|
    ensures visited <= w.visited
    decreases heap.Keys - visited, 1, Flag(v), v, st, |schema.structs[st].fields| - i, 1
  {
    Then(StructLeaf(cell, v, schema.structs[st].fields[i], prefix), StructExpand(schema, cell, heap, v, st, i, prefix, visited))
  }

  /** A property of a struct has a leaf column unless it is CsvExpand without CsvColumn. */
  function StructLeaf(cell: CellText, v: Value, f: Field, prefix: string): seq<Column>
  {
    if f.column.Some? || !f.expand then [Column(LeafColumnName(prefix, f), cell(f.ty, StructField(v, f)))] else []
  }

  /**
   * The CsvExpand part of a struct property: a nested struct is walked,
   * arrays and maps give their elements, and a reference is walked when not
   * null and its own class is exportable. An absent property holds its
   * default, so an absent container gives nothing.
   */
  function StructExpand(schema: Schema, cell: CellText, heap: Heap, v: Value, st: StructId, i: nat, prefix: string, visited: set<ObjId>): (w: Walk)
    requires WellFormed(schema) && st in schema.structs && i < |schema.structs[st].fields|
    ensures visited <= w.visited
    decreases heap.Keys - visited, 1, Flag(v), v, st, |schema.structs[st].fields| - i, 0
  {
    var f := schema.structs[st].fields[i];
    var x := StructField(v, f);
    var present := v.StructV? && f.name in v.fields;
    var full := prefix + ExpandPrefix(f);
    if !f.expand || f.ty.SetOf? then Walk([], visited)
    else if f.ty.StructOf? then
      assert StructWellFormed(schema, st);
      ExportStruct(schema, cell, heap, x, f.ty.st, full, visited)
    else if f.ty.ArrayOf? then
      if present && x.ArrayV? then ArrayElements(schema, cell, heap, f.ty.inner, x, 0, full, visited) else Walk([], visited)
    else if f.ty.MapOf? then
      if present && x.MapV? then MapElements(schema, cell, heap, f.ty.key, f.ty.value, x, 0, full, visited) else Walk([], visited)
    else
      match Resolve(heap, f.ty, x)
      case Some(inner) =>
        if CanExportClass(schema, heap[inner].cls) then ExportObject(schema, cell, heap, inner, heap[inner].cls, full, visited)
        else Walk([], visited)
      case None => Walk([], visited)
  }

  // ---------------------------------------------------------------------
  // Properties of the walks
  // ---------------------------------------------------------------------

  /** Every column is named under `prefix`. */
  predicate Prefixed(cols: seq<Column>, prefix: string)
  {
    forall k :: 0 <= k < |cols| ==> prefix <= cols[k].name
  }

  /** Every value is the empty placeholder. */
  predicate Placeholders(cols: seq<Column>)
  {
    forall k :: 0 <= k < |cols| ==> cols[k].value == ""
  }

  lemma PrefixedAppend(a: seq<Column>, b: seq<Column>, prefix: string)
    requires Prefixed(a, prefix) && Prefixed(b, prefix)
    ensures Prefixed(a + b, prefix)
  {
    forall k | 0 <= k < |a + b| ensures prefix <= (a + b)[k].name {
      if k >= |a| { assert (a + b)[k] == b[k - |a|]; }
    }
  }

  /** A column named under a longer prefix is named under the shorter one. */
  lemma PrefixedWeaken(cols: seq<Column>, prefix: string, longer: string)
    requires prefix <= longer && Prefixed(cols, longer)
    ensures Prefixed(cols, prefix)
  {
    forall k | 0 <= k < |cols| ensures prefix <= cols[k].name {
      assert longer <= cols[k].name;
    }
  }

  lemma ThenPrefixed(a: seq<Column>, b: Walk, prefix: string)
    requires Prefixed(a, prefix) && Prefixed(b.cols, prefix)
    ensures Prefixed(Then(a, b).cols, prefix)
  {
    PrefixedAppend(a, b.cols, prefix);
  }

  /**
   * The schema walk emits only placeholders: every column it lists has the
   * empty value and a name under the prefix it was given.
   */
  lemma {:induction false} SchemaColumnsArePlaceholders(schema: Schema, cls: ClassId, prefix: string)
    requires WellFormed(schema)
    ensures Placeholders(SchemaColumns(schema, cls, prefix)) && Prefixed(SchemaColumns(schema, cls, prefix), prefix)
    decreases cls, 1
  {
    if cls in schema.classes {
      var d := schema.classes[cls];
      SchemaFieldsArePlaceholders(schema, cls, 0, prefix);
      if d.super.Some? {
        SchemaColumnsArePlaceholders(schema, d.super.value, prefix);
        PrefixedAppend(SchemaFields(schema, cls, 0, prefix), SchemaColumns(schema, d.super.value, prefix), prefix);
      }
    }
  }

  lemma {:induction false} SchemaFieldsArePlaceholders(schema: Schema, cls: ClassId, i: nat, prefix: string)
    requires WellFormed(schema) && cls in schema.classes && i <= |schema.classes[cls].fields|
    ensures Placeholders(SchemaFields(schema, cls, i, prefix)) && Prefixed(SchemaFields(schema, cls, i, prefix), prefix)
    decreases cls, 0, |schema.classes[cls].fields| - i
  {
    var fs := schema.classes[cls].fields;
    if i < |fs| {
      var f := fs[i];
      var leaf := if f.column.Some? then [Column(LeafColumnName(prefix, f), "")] else [];
      if f.expand && !IsContainer(f.ty) && f.ty.ObjectOf? && CanExportClass(schema, f.ty.cls) {
        assert ExpandAcyclic(schema, cls);
        var full := prefix + ExpandPrefix(f);
        SchemaColumnsArePlaceholders(schema, f.ty.cls, full);
        PrefixedWeaken(SchemaColumns(schema, f.ty.cls, full), prefix, full);
        PrefixedAppend(leaf, SchemaColumns(schema, f.ty.cls, full), prefix);
      }
      SchemaFieldsArePlaceholders(schema, cls, i + 1, prefix);
      PrefixedAppend(SchemaField(schema, cls, i, prefix), SchemaFields(schema, cls, i + 1, prefix), prefix);
    }
  }

  /**
   * In the schema walk an expanded container contributes nothing beyond its
   * own CsvColumn leaf: its elements need an object to exist.
   */
  lemma SchemaSkipsContainers(schema: Schema, cls: ClassId, i: nat, prefix: string)
    requires WellFormed(schema) && cls in schema.classes && i < |schema.classes[cls].fields|
    requires IsContainer(schema.classes[cls].fields[i].ty)
    ensures var f := schema.classes[cls].fields[i];
      SchemaField(schema, cls, i, prefix) == (if f.column.Some? then [Column(LeafColumnName(prefix, f), "")] else [])
  {
  }

  /**
   * A null CsvExpand reference of an exportable declared class stands in its
   * class's columns as placeholders: the row keeps its shape, and every
   * column the expansion adds is empty and named under "<prefix><name>_".
   */
  lemma NullReferencePlaceholders(schema: Schema, cell: CellText, heap: Heap, o: ObjId, f: Field, prefix: string, visited: set<ObjId>)
    requires WellFormed(schema) && o in heap
    requires f.expand && f.ty.ObjectOf? && CanExportClass(schema, f.ty.cls)
    requires Resolve(heap, f.ty, Get(heap[o].fields, f)).None?
    ensures var w := ObjectExpand(schema, cell, heap, o, f, prefix, visited);
      w.visited == visited && w.cols == SchemaColumns(schema, f.ty.cls, prefix + ExpandPrefix(f)) &&
      Placeholders(w.cols) && Prefixed(w.cols, prefix + ExpandPrefix(f))
  {
    SchemaColumnsArePlaceholders(schema, f.ty.cls, prefix + ExpandPrefix(f));
  }

  /** The cycle guard: an object already visited contributes no column, not even a placeholder. */
  lemma VisitedObjectContributesNothing(schema: Schema, cell: CellText, heap: Heap, o: ObjId, cls: ClassId, prefix: string, visited: set<ObjId>)
    requires WellFormed(schema) && o in heap && o in visited
    ensures ExportObject(schema, cell, heap, o, cls, prefix, visited) == Walk([], visited)
  {
  }

  /**
   * The superclass step re-enters the same object, which the walk has just
   * marked visited, so it registers nothing: only the fields declared on
   * `cls` itself are exported.
   */
  lemma SuperclassFieldsNotExported(schema: Schema, cell: CellText, heap: Heap, o: ObjId, cls: ClassId, prefix: string, visited: set<ObjId>)
    requires WellFormed(schema) && o in heap && o !in visited && cls in schema.classes
    ensures ExportObject(schema, cell, heap, o, cls, prefix, visited) == ObjectFields(schema, cell, heap, o, cls, 0, prefix, visited + {o})
  {
    var own := ObjectFields(schema, cell, heap, o, cls, 0, prefix, visited + {o});
    var d := schema.classes[cls];
    if d.super.Some? {
      assert o in own.visited;
      assert ExportObject(schema, cell, heap, o, d.super.value, prefix, own.visited) == Walk([], own.visited);
      assert own.cols + [] == own.cols;
    }
  }

  /**
   * The naming rule of the live walk: every column registered while walking
   * under a prefix is named under that prefix, however deep the expansion.
   */
  lemma {:induction false} ExportObjectPrefixed(schema: Schema, cell: CellText, heap: Heap, o: ObjId, cls: ClassId, prefix: string, visited: set<ObjId>)
    requires WellFormed(schema) && o in heap
    ensures Prefixed(ExportObject(schema, cell, heap, o, cls, prefix, visited).cols, prefix)
    decreases heap.Keys - visited, 0
  {
    if cls in schema.classes && o !in visited {
      var own := ObjectFields(schema, cell, heap, o, cls, 0, prefix, visited + {o});
      ObjectFieldsPrefixed(schema, cell, heap, o, cls, 0, prefix, visited + {o});
      var d := schema.classes[cls];
      if d.super.Some? {
        ExportObjectPrefixed(schema, cell, heap, o, d.super.value, prefix, own.visited);
        ThenPrefixed(own.cols, ExportObject(schema, cell, heap, o, d.super.value, prefix, own.visited), prefix);
      }
    }
  }

  lemma {:induction false} ObjectFieldsPrefixed(schema: Schema, cell: CellText, heap: Heap, o: ObjId, cls: ClassId, i: nat, prefix: string, visited: set<ObjId>)
    requires WellFormed(schema) && o in heap && cls in schema.classes && i <= |schema.classes[cls].fields|
    ensures Prefixed(ObjectFields(schema, cell, heap, o, cls, i, prefix, visited).cols, prefix)
    decreases heap.Keys - visited, 4, |schema.classes[cls].fields| - i
  {
    var fs := schema.classes[cls].fields;
    if i < |fs| {
      var first := ObjectField(schema, cell, heap, o, fs[i], prefix, visited);
      ObjectExpandPrefixed(schema, cell, heap, o, fs[i], prefix, visited);
      ThenPrefixed(ObjectLeaf(cell, heap, o, fs[i], prefix), ObjectExpand(schema, cell, heap, o, fs[i], prefix, visited), prefix);
      ObjectFieldsPrefixed(schema, cell, heap, o, cls, i + 1, prefix, first.visited);
      ThenPrefixed(first.cols, ObjectFields(schema, cell, heap, o, cls, i + 1, prefix, first.visited), prefix);
    }
  }

  lemma {:induction false} ObjectExpandPrefixed(schema: Schema, cell: CellText, heap: Heap, o: ObjId, f: Field, prefix: string, visited: set<ObjId>)
    requires WellFormed(schema) && o in heap
    ensures Prefixed(ObjectExpand(schema, cell, heap, o, f, prefix, visited).cols, prefix)
    decreases heap.Keys - visited, 2
  {
    var v := Get(heap[o].fields, f);
    var full := prefix + ExpandPrefix(f);
    var w := ObjectExpand(schema, cell, heap, o, f, prefix, visited);
    if !f.expand || f.ty.SetOf? {
    } else if f.ty.ArrayOf? {
      if v.ArrayV? { ArrayElementsPrefixed(schema, cell, heap, f.ty.inner, v, 0, full, visited); }
    } else if f.ty.MapOf? {
      if v.MapV? { MapElementsPrefixed(schema, cell, heap, f.ty.key, f.ty.value, v, 0, full, visited); }
    } else if f.ty.ObjectOf? && CanExportClass(schema, f.ty.cls) {
      match Resolve(heap, f.ty, v)
      case Some(inner) => ExportObjectPrefixed(schema, cell, heap, inner, heap[inner].cls, full, visited);
      case None => SchemaColumnsArePlaceholders(schema, f.ty.cls, full);
    }
    PrefixedWeaken(w.cols, prefix, full);
  }

  lemma {:induction false} ArrayElementsPrefixed(schema: Schema, cell: CellText, heap: Heap, inner: FieldType, arr: Value, j: nat, full: string, visited: set<ObjId>)
    requires WellFormed(schema) && arr.ArrayV? && j <= |arr.items|
    ensures Prefixed(ArrayElements(schema, cell, heap, inner, arr, j, full, visited).cols, full)
    decreases heap.Keys - visited, 1, 1, arr, |arr.items| - j
  {
    if j < |arr.items| {
      var item := arr.items[j];
      assert item < arr;
      var tag := IntToString(j);
      var first := Element(schema, cell, heap, inner, item, tag, full, visited);
      var rest := ArrayElements(schema, cell, heap, inner, arr, j + 1, full, first.visited);
      assert ArrayElements(schema, cell, heap, inner, arr, j, full, visited) == Then(first.cols, rest);
      ElementPrefixed(schema, cell, heap, inner, item, tag, full, visited);
      ArrayElementsPrefixed(schema, cell, heap, inner, arr, j + 1, full, first.visited);
      ThenPrefixed(first.cols, rest, full);
    }
  }

  lemma {:induction false} MapElementsPrefixed(schema: Schema, cell: CellText, heap: Heap, key: FieldType, inner: FieldType, m: Value, j: nat, full: string, visited: set<ObjId>)
    requires WellFormed(schema) && m.MapV? && j <= |m.entries|
    ensures Prefixed(MapElements(schema, cell, heap, key, inner, m, j, full, visited).cols, full)
    decreases heap.Keys - visited, 1, 1, m, |m.entries| - j
  {
    if j < |m.entries| {
      var e := m.entries[j];
      assert e.value < e < m;
      var first := Element(schema, cell, heap, inner, e.value, cell(key, e.key), full, visited);
      ElementPrefixed(schema, cell, heap, inner, e.value, cell(key, e.key), full, visited);
      MapElementsPrefixed(schema, cell, heap, key, inner, m, j + 1, full, first.visited);
      ThenPrefixed(first.cols, MapElements(schema, cell, heap, key, inner, m, j + 1, full, first.visited), full);
    }
  }

  lemma {:induction false} ElementPrefixed(schema: Schema, cell: CellText, heap: Heap, inner: FieldType, e: Value, tag: string, full: string, visited: set<ObjId>)
    requires WellFormed(schema)
    ensures Prefixed(Element(schema, cell, heap, inner, e, tag, full, visited).cols, full)
    decreases heap.Keys - visited, 1, 1, e
  {
    var sub := full + tag + "_";
    assert full <= sub;
    if inner.StructOf? {
      ExportStructPrefixed(schema, cell, heap, e, inner.st, sub, visited);
      PrefixedWeaken(ExportStruct(schema, cell, heap, e, inner.st, sub, visited).cols, full, sub);
    } else if inner.ObjectOf? {
      match Resolve(heap, inner, e)
      case Some(x) =>
        if CanExportClass(schema, heap[x].cls) {
          ExportObjectPrefixed(schema, cell, heap, x, heap[x].cls, sub, visited);
          PrefixedWeaken(ExportObject(schema, cell, heap, x, heap[x].cls, sub, visited).cols, full, sub);
        }
      case None =>
    } else {
      assert full <= full + tag;
    }
  }

  lemma {:induction false} ExportStructPrefixed(schema: Schema, cell: CellText, heap: Heap, v: Value, st: StructId, prefix: string, visited: set<ObjId>)
    requires WellFormed(schema)
    ensures Prefixed(ExportStruct(schema, cell, heap, v, st, prefix, visited).cols, prefix)
    decreases heap.Keys - visited, 1, Flag(v), v, st
  {
    if st in schema.structs {
      var own := StructFields(schema, cell, heap, v, st, 0, prefix, visited);
      StructFieldsPrefixed(schema, cell, heap, v, st, 0, prefix, visited);
      var d := schema.structs[st];
      if d.super.Some? {
        ExportStructPrefixed(schema, cell, heap, v, d.super.value, prefix, own.visited);
        ThenPrefixed(own.cols, ExportStruct(schema, cell, heap, v, d.super.value, prefix, own.visited), prefix);
      }
    }
  }

  lemma {:induction false} StructFieldsPrefixed(schema: Schema, cell: CellText, heap: Heap, v: Value, st: StructId, i: nat, prefix: string, visited: set<ObjId>)
    requires WellFormed(schema) && st in schema.structs && i <= |schema.structs[st].fields|
    ensures Prefixed(StructFields(schema, cell, heap, v, st, i, prefix, visited).cols, prefix)
    decreases heap.Keys - visited, 1, Flag(v), v, st, |schema.structs[st].fields| - i, 2
  {
    if i < |schema.structs[st].fields| {
      var f := schema.structs[st].fields[i];
      var first := StructMember(schema, cell, heap, v, st, i, prefix, visited);
      StructExpandPrefixed(schema, cell, heap, v, st, i, prefix, visited);
      ThenPrefixed(StructLeaf(cell, v, f, prefix), StructExpand(schema, cell, heap, v, st, i, prefix, visited), prefix);
      StructFieldsPrefixed(schema, cell, heap, v, st, i + 1, prefix, first.visited);
      ThenPrefixed(first.cols, StructFields(schema, cell, heap, v, st, i + 1, prefix, first.visited), prefix);
    }
  }

  lemma {:induction false} StructExpandPrefixed(schema: Schema, cell: CellText, heap: Heap, v: Value, st: StructId, i: nat, prefix: string, visited: set<ObjId>)
    requires WellFormed(schema) && st in schema.structs && i < |schema.structs[st].fields|
    ensures Prefixed(StructExpand(schema, cell, heap, v, st, i, prefix, visited).cols, prefix)
    decreases heap.Keys - visited, 1, Flag(v), v, st, |schema.structs[st].fields| - i, 0
  {
    var f := schema.structs[st].fields[i];
    var x := StructField(v, f);
    var present := v.StructV? && f.name in v.fields;
    var full := prefix + ExpandPrefix(f);
    var w := StructExpand(schema, cell, heap, v, st, i, prefix, visited);
    if !f.expand || f.ty.SetOf? {
    } else if f.ty.StructOf? {
      assert StructWellFormed(schema, st);
      ExportStructPrefixed(schema, cell, heap, x, f.ty.st, full, visited);
    } else if f.ty.ArrayOf? {
      if present && x.ArrayV? { ArrayElementsPrefixed(schema, cell, heap, f.ty.inner, x, 0, full, visited); }
    } else if f.ty.MapOf? {
      if present && x.MapV? { MapElementsPrefixed(schema, cell, heap, f.ty.key, f.ty.value, x, 0, full, visited); }
    } else {
      match Resolve(heap, f.ty, x)
      case Some(inner) =>
        if CanExportClass(schema, heap[inner].cls) {
          ExportObjectPrefixed(schema, cell, heap, inner, heap[inner].cls, full, visited);
        }
      case None =>
    }
    PrefixedWeaken(w.cols, prefix, full);
  }

  // ---------------------------------------------------------------------
  // The text ExportDataAssetToCSV writes
  // ---------------------------------------------------------------------

  /** The registered value of every column, in column order; "" for a name without one. */
  function ValuesInOrder(c: Cols): (r: seq<string>)
    ensures |r| == |c.order|
    ensures forall i :: 0 <= i < |c.order| ==> r[i] == (if c.order[i] in c.values then c.values[c.order[i]] else "")
  {
    seq(|c.order|, i requires 0 <= i < |c.order| => if c.order[i] in c.values then c.values[c.order[i]] else "")
  }

  /** One line of the file: the escaped cells and a newline. */
  function LineOf(cells: seq<string>): string
  {
    CsvLine(cells) + "\n"
  }

  /** The file content: the escaped header line, then the escaped value line. */
  function CsvText(c: Cols): string
  {
    LineOf(c.order) + LineOf(ValuesInOrder(c))
  }

  /**
   * What the importer reads back from an exported file: parsing the two
   * lines gives the column names and values, and pairing them up gives back
   * exactly the exported name-to-value map.
   */
  lemma ExportedTextReadsBack(c: Cols)
    requires Valid(c) && c.order != []
    ensures ParseCsv(CsvLine(c.order)) == c.order
    ensures ParseCsv(CsvLine(ValuesInOrder(c))) == ValuesInOrder(c)
    ensures Row(c.order, ValuesInOrder(c)).values == c.values
  {
    CsvLineRoundTrip(c.order);
    CsvLineRoundTrip(ValuesInOrder(c));
    var vals := ValuesInOrder(c);
    var r := Row(c.order, vals);
    forall n | n in c.values
      ensures n in r.values && r.values[n] == c.values[n]
    {
      var i :| 0 <= i < |c.order| && c.order[i] == n;
      RowLookup(c.order, vals, i);
    }
    forall n | n in r.values
      ensures n in c.values
    {
      if n !in c.order {
        RowMissing(c.order, vals, n);
      }
    }
  }

  /** The header or value loop: each escaped cell followed by ','. */
  method AppendCells(content: string, cells: seq<string>) returns (r: string)
    ensures r == content + Terminated(EscapeAllCsv(cells), Comma)
  {
    ghost var escaped := EscapeAllCsv(cells);
    r := content;
    var i := 0;
    while i < |cells|
      invariant 0 <= i <= |cells|
      invariant r == content + Terminated(escaped[..i], Comma)
    {
      var cellText := EscapeCsvString(cells[i]);
      assert cellText == escaped[i];
      TerminatedAppend(content, escaped, i, Comma);
      r := r + cellText + [Comma];
      i := i + 1;
    }
    assert escaped[..i] == escaped;
  }

  /** One line of the file: the cells, escaped and separated by ',', then a newline. */
  method AppendLine(content: string, cells: seq<string>) returns (r: string)
    requires cells != []
    ensures r == content + LineOf(cells)
  {
    r := AppendCells(content, cells);
    ghost var t := Terminated(EscapeAllCsv(cells), Comma);
    RemoveTrailingTerminated(EscapeAllCsv(cells), Comma);
    TerminatedEndsWithSep(EscapeAllCsv(cells), Comma);
    RemoveTrailingAfter(content, t, Comma);
    r := RemoveTrailing(r, Comma) + "\n";
    assert r == content + (CsvLine(cells) + "\n");
  }

  /** The value of each column in order, as the value loop looks them up. */
  method OrderedValues(c: Cols) returns (values: seq<string>)
    ensures values == ValuesInOrder(c)
  {
    values := [];
    var i := 0;
    while i < |c.order|
      invariant 0 <= i <= |c.order|
      invariant values == ValuesInOrder(c)[..i]
    {
      var name := c.order[i];
      values := values + [if name in c.values then c.values[name] else ""];
      i := i + 1;
    }
  }

  /** The two lines of the file, built as ExportDataAssetToCSV builds them. */
  method WriteCsvText(c: Cols) returns (content: string)
    requires c.order != []
    ensures content == CsvText(c)
  {
    var header := AppendLine("", c.order);
    assert header == LineOf(c.order);
    var values := OrderedValues(c);
    content := AppendLine(header, values);
  }

  // ---------------------------------------------------------------------
  // One loop iteration or one composition at a time, for the methods below
  // ---------------------------------------------------------------------

  /** Registering `a` and then walking `b` is registering what `Then(a, b)` lists. */
  lemma ThenRegisters(c: Cols, a: seq<Column>, b: Walk)
    ensures AddAll(AddAll(c, a), b.cols) == AddAll(c, Then(a, b).cols) && Then(a, b).visited == b.visited
  {
    AddAllAppend(c, a, b.cols);
  }

  lemma SchemaFieldsStep(schema: Schema, cls: ClassId, i: nat, prefix: string, before: Cols)
    requires WellFormed(schema) && cls in schema.classes && i < |schema.classes[cls].fields|
    ensures AddAll(AddAll(before, SchemaField(schema, cls, i, prefix)), SchemaFields(schema, cls, i + 1, prefix)) ==
      AddAll(before, SchemaFields(schema, cls, i, prefix))
  {
    assert SchemaFields(schema, cls, i, prefix) == SchemaField(schema, cls, i, prefix) + SchemaFields(schema, cls, i + 1, prefix);
    AddAllAppend(before, SchemaField(schema, cls, i, prefix), SchemaFields(schema, cls, i + 1, prefix));
  }

  lemma SchemaColumnsUnfold(schema: Schema, cls: ClassId, prefix: string, c: Cols)
    requires WellFormed(schema) && cls in schema.classes
    ensures var d := schema.classes[cls];
      var own := SchemaFields(schema, cls, 0, prefix);
      AddAll(c, SchemaColumns(schema, cls, prefix)) ==
        if d.super.Some? then AddAll(AddAll(c, own), SchemaColumns(schema, d.super.value, prefix)) else AddAll(c, own)
    ensures AddAll(c, SchemaFields(schema, cls, |schema.classes[cls].fields|, prefix)) == c
  {
    var d := schema.classes[cls];
    var own := SchemaFields(schema, cls, 0, prefix);
    if d.super.Some? {
      AddAllAppend(c, own, SchemaColumns(schema, d.super.value, prefix));
    } else {
      assert own + [] == own;
      assert SchemaColumns(schema, cls, prefix) == own;
    }
  }

  lemma ObjectFieldsStep(schema: Schema, cell: CellText, heap: Heap, o: ObjId, cls: ClassId, i: nat, prefix: string, visited: set<ObjId>, before: Cols)
    requires WellFormed(schema) && o in heap && cls in schema.classes && i < |schema.classes[cls].fields|
    ensures var e := ObjectField(schema, cell, heap, o, schema.classes[cls].fields[i], prefix, visited);
      var rest := ObjectFields(schema, cell, heap, o, cls, i + 1, prefix, e.visited);
      var all := ObjectFields(schema, cell, heap, o, cls, i, prefix, visited);
      AddAll(AddAll(before, e.cols), rest.cols) == AddAll(before, all.cols) && rest.visited == all.visited
  {
    var e := ObjectField(schema, cell, heap, o, schema.classes[cls].fields[i], prefix, visited);
    var rest := ObjectFields(schema, cell, heap, o, cls, i + 1, prefix, e.visited);
    assert ObjectFields(schema, cell, heap, o, cls, i, prefix, visited) == Then(e.cols, rest);
    ThenRegisters(before, e.cols, rest);
  }

  lemma ExportObjectUnfold(schema: Schema, cell: CellText, heap: Heap, o: ObjId, cls: ClassId, prefix: string, visited: set<ObjId>, c: Cols)
    requires WellFormed(schema) && o in heap && cls in schema.classes && o !in visited
    ensures var own := ObjectFields(schema, cell, heap, o, cls, 0, prefix, visited + {o});
      var d := schema.classes[cls];
      var w := ExportObject(schema, cell, heap, o, cls, prefix, visited);
      if d.super.Some? then
        var sup := ExportObject(schema, cell, heap, o, d.super.value, prefix, own.visited);
        AddAll(c, w.cols) == AddAll(AddAll(c, own.cols), sup.cols) && w.visited == sup.visited
      else AddAll(c, w.cols) == AddAll(c, own.cols) && w.visited == own.visited
  {
    var own := ObjectFields(schema, cell, heap, o, cls, 0, prefix, visited + {o});
    var d := schema.classes[cls];
    if d.super.Some? {
      ThenRegisters(c, own.cols, ExportObject(schema, cell, heap, o, d.super.value, prefix, own.visited));
    }
  }

  lemma ObjectFieldsDone(schema: Schema, cell: CellText, heap: Heap, o: ObjId, cls: ClassId, prefix: string, visited: set<ObjId>, c: Cols)
    requires WellFormed(schema) && o in heap && cls in schema.classes
    ensures var rest := ObjectFields(schema, cell, heap, o, cls, |schema.classes[cls].fields|, prefix, visited);
      AddAll(c, rest.cols) == c && rest.visited == visited
  {
  }

  lemma ArrayElementsStep(schema: Schema, cell: CellText, heap: Heap, inner: FieldType, arr: Value, j: nat, full: string, visited: set<ObjId>, before: Cols)
    requires WellFormed(schema) && arr.ArrayV? && j < |arr.items|
    ensures var e := Element(schema, cell, heap, inner, arr.items[j], IntToString(j), full, visited);
      var rest := ArrayElements(schema, cell, heap, inner, arr, j + 1, full, e.visited);
      var all := ArrayElements(schema, cell, heap, inner, arr, j, full, visited);
      AddAll(AddAll(before, e.cols), rest.cols) == AddAll(before, all.cols) && rest.visited == all.visited
  {
    var e := Element(schema, cell, heap, inner, arr.items[j], IntToString(j), full, visited);
    var rest := ArrayElements(schema, cell, heap, inner, arr, j + 1, full, e.visited);
    assert ArrayElements(schema, cell, heap, inner, arr, j, full, visited) == Then(e.cols, rest);
    ThenRegisters(before, e.cols, rest);
  }

  lemma ArrayElementsDone(schema: Schema, cell: CellText, heap: Heap, inner: FieldType, arr: Value, full: string, visited: set<ObjId>, c: Cols)
    requires WellFormed(schema) && arr.ArrayV?
    ensures var rest := ArrayElements(schema, cell, heap, inner, arr, |arr.items|, full, visited);
      AddAll(c, rest.cols) == c && rest.visited == visited
  {
  }

  /** The array loop's invariant: registering elements `j..` onto `c` gives `target` and leaves `finalVisited`. */
  ghost predicate ArrayLoop(schema: Schema, cell: CellText, heap: Heap, inner: FieldType, arr: Value, j: nat, full: string,
                            visited: set<ObjId>, c: Cols, target: Cols, finalVisited: set<ObjId>)
    requires WellFormed(schema) && arr.ArrayV? && j <= |arr.items|
  {
    var rest := ArrayElements(schema, cell, heap, inner, arr, j, full, visited);
    AddAll(c, rest.cols) == target && rest.visited == finalVisited
  }

  /** The map loop's invariant: registering entries `j..` onto `c` gives `target` and leaves `finalVisited`. */
  ghost predicate MapLoop(schema: Schema, cell: CellText, heap: Heap, key: FieldType, inner: FieldType, m: Value, j: nat, full: string,
                          visited: set<ObjId>, c: Cols, target: Cols, finalVisited: set<ObjId>)
    requires WellFormed(schema) && m.MapV? && j <= |m.entries|
  {
    var rest := MapElements(schema, cell, heap, key, inner, m, j, full, visited);
    AddAll(c, rest.cols) == target && rest.visited == finalVisited
  }

  lemma MapElementsStep(schema: Schema, cell: CellText, heap: Heap, key: FieldType, inner: FieldType, m: Value, j: nat, full: string, visited: set<ObjId>, before: Cols)
    requires WellFormed(schema) && m.MapV? && j < |m.entries|
    ensures var en := m.entries[j];
      var e := Element(schema, cell, heap, inner, en.value, cell(key, en.key), full, visited);
      var rest := MapElements(schema, cell, heap, key, inner, m, j + 1, full, e.visited);
      var all := MapElements(schema, cell, heap, key, inner, m, j, full, visited);
      AddAll(AddAll(before, e.cols), rest.cols) == AddAll(before, all.cols) && rest.visited == all.visited
  {
    var en := m.entries[j];
    var e := Element(schema, cell, heap, inner, en.value, cell(key, en.key), full, visited);
    var rest := MapElements(schema, cell, heap, key, inner, m, j + 1, full, e.visited);
    assert MapElements(schema, cell, heap, key, inner, m, j, full, visited) == Then(e.cols, rest);
    ThenRegisters(before, e.cols, rest);
  }

  lemma MapElementsDone(schema: Schema, cell: CellText, heap: Heap, key: FieldType, inner: FieldType, m: Value, full: string, visited: set<ObjId>, c: Cols)
    requires WellFormed(schema) && m.MapV?
    ensures var rest := MapElements(schema, cell, heap, key, inner, m, |m.entries|, full, visited);
      AddAll(c, rest.cols) == c && rest.visited == visited
  {
  }

  lemma StructFieldsStep(schema: Schema, cell: CellText, heap: Heap, v: Value, st: StructId, i: nat, prefix: string, visited: set<ObjId>, before: Cols)
    requires WellFormed(schema) && st in schema.structs && i < |schema.structs[st].fields|
    ensures var e := StructMember(schema, cell, heap, v, st, i, prefix, visited);
      var rest := StructFields(schema, cell, heap, v, st, i + 1, prefix, e.visited);
      var all := StructFields(schema, cell, heap, v, st, i, prefix, visited);
      AddAll(AddAll(before, e.cols), rest.cols) == AddAll(before, all.cols) && rest.visited == all.visited
  {
    var e := StructMember(schema, cell, heap, v, st, i, prefix, visited);
    var rest := StructFields(schema, cell, heap, v, st, i + 1, prefix, e.visited);
    assert StructFields(schema, cell, heap, v, st, i, prefix, visited) == Then(e.cols, rest);
    ThenRegisters(before, e.cols, rest);
  }

  lemma ExportStructUnfold(schema: Schema, cell: CellText, heap: Heap, v: Value, st: StructId, prefix: string, visited: set<ObjId>, c: Cols)
    requires WellFormed(schema) && st in schema.structs
    ensures var own := StructFields(schema, cell, heap, v, st, 0, prefix, visited);
      var d := schema.structs[st];
      var w := ExportStruct(schema, cell, heap, v, st, prefix, visited);
      if d.super.Some? then
        var sup := ExportStruct(schema, cell, heap, v, d.super.value, prefix, own.visited);
        AddAll(c, w.cols) == AddAll(AddAll(c, own.cols), sup.cols) && w.visited == sup.visited
      else AddAll(c, w.cols) == AddAll(c, own.cols) && w.visited == own.visited
  {
    var own := StructFields(schema, cell, heap, v, st, 0, prefix, visited);
    var d := schema.structs[st];
    if d.super.Some? {
      ThenRegisters(c, own.cols, ExportStruct(schema, cell, heap, v, d.super.value, prefix, own.visited));
    }
  }

  lemma StructFieldsDone(schema: Schema, cell: CellText, heap: Heap, v: Value, st: StructId, prefix: string, visited: set<ObjId>, c: Cols)
    requires WellFormed(schema) && st in schema.structs
    ensures var rest := StructFields(schema, cell, heap, v, st, |schema.structs[st].fields|, prefix, visited);
      AddAll(c, rest.cols) == c && rest.visited == visited
  {
  }

  // ---------------------------------------------------------------------
  // The source's loops
  // ---------------------------------------------------------------------

  /** The column map, the column order and the Visited set of one export call. */
  class Exporter {
    var order: seq<string>
    var values: map<string, string>
    var visited: set<ObjId>

    function State(): Cols
      reads this
    {
      Cols(order, values)
    }

    constructor ()
      ensures State() == Empty && visited == {}
    {
      order := [];
      values := map[];
      visited := {};
    }

    /** The AddColumn lambda. */
    method AddColumn(col: Column)
      modifies this
      ensures State() == Add(old(State()), col) && visited == old(visited)
    {
      if col.name !in values {
        order := order + [col.name];
      }
      values := values[col.name := col.value];
    }

    /** Registers each column of `cols` in turn. */
    method AddColumns(cols: seq<Column>)
      modifies this
      ensures State() == AddAll(old(State()), cols) && visited == old(visited)
    {
      var k := 0;
      while k < |cols|
        invariant 0 <= k <= |cols| && visited == old(visited)
        invariant AddAll(State(), cols[k..]) == AddAll(old(State()), cols)
      {
        assert cols[k..] == [cols[k]] + cols[k + 1..];
        AddAllAppend(State(), [cols[k]], cols[k + 1..]);
        AddAllOne(State(), cols[k]);
        AddColumn(cols[k]);
        k := k + 1;
      }
      assert cols[k..] == [];
    }

    method ExportClassColumnsEmpty(schema: Schema, cls: ClassId, prefix: string)
      requires WellFormed(schema)
      modifies this
      ensures State() == AddAll(old(State()), SchemaColumns(schema, cls, prefix)) && visited == old(visited)
      decreases cls, 1
    {
      if cls !in schema.classes {
        return;
      }
      var i := 0;
      while i < |schema.classes[cls].fields|
        invariant 0 <= i <= |schema.classes[cls].fields| && visited == old(visited)
        invariant AddAll(State(), SchemaFields(schema, cls, i, prefix)) == AddAll(old(State()), SchemaFields(schema, cls, 0, prefix))
      {
        ghost var before := State();
        ExportSchemaField(schema, cls, i, prefix);
        SchemaFieldsStep(schema, cls, i, prefix, before);
        i := i + 1;
      }
      SchemaColumnsUnfold(schema, cls, prefix, old(State()));
      SchemaColumnsUnfold(schema, cls, prefix, State());
      var d := schema.classes[cls];
      if d.super.Some? {
        ExportClassColumnsEmpty(schema, d.super.value, prefix);
      }
    }

    /** One field of the schema walk's loop. */
    method ExportSchemaField(schema: Schema, cls: ClassId, i: nat, prefix: string)
      requires WellFormed(schema) && cls in schema.classes && i < |schema.classes[cls].fields|
      modifies this
      ensures State() == AddAll(old(State()), SchemaField(schema, cls, i, prefix)) && visited == old(visited)
      decreases cls, 0
    {
      var f := schema.classes[cls].fields[i];
      var leaf := if f.column.Some? then [Column(LeafColumnName(prefix, f), "")] else [];
      AddColumns(leaf);
      if f.expand && !IsContainer(f.ty) {
        match ObjectPropertyClass(f.ty)
        case Some(inner) =>
          if CanExportClass(schema, inner) {
            assert ExpandAcyclic(schema, cls);
            ExportClassColumnsEmpty(schema, inner, prefix + ExpandPrefix(f));
            AddAllAppend(old(State()), leaf, SchemaColumns(schema, inner, prefix + ExpandPrefix(f)));
          }
        case None =>
      }
    }

    method ExportObjectToColumns(schema: Schema, cell: CellText, heap: Heap, o: ObjId, cls: ClassId, prefix: string)
      requires WellFormed(schema) && o in heap
      modifies this
      ensures var w := ExportObject(schema, cell, heap, o, cls, prefix, old(visited));
        State() == AddAll(old(State()), w.cols) && visited == w.visited
      decreases heap.Keys - visited, 0
    {
      if cls !in schema.classes || o in visited {
        return;
      }
      visited := visited + {o};
      ghost var all := ObjectFields(schema, cell, heap, o, cls, 0, prefix, visited);
      var i := 0;
      while i < |schema.classes[cls].fields|
        invariant 0 <= i <= |schema.classes[cls].fields| && old(visited) + {o} <= visited
        invariant var rest := ObjectFields(schema, cell, heap, o, cls, i, prefix, visited);
          AddAll(State(), rest.cols) == AddAll(old(State()), all.cols) && rest.visited == all.visited
      {
        ExportObjectProperty(schema, cell, heap, o, cls, i, prefix);
        i := i + 1;
      }
      ObjectFieldsDone(schema, cell, heap, o, cls, prefix, visited, State());
      ExportObjectUnfold(schema, cell, heap, o, cls, prefix, old(visited), old(State()));
      var d := schema.classes[cls];
      if d.super.Some? {
        ExportObjectToColumns(schema, cell, heap, o, d.super.value, prefix);
      }
    }

    /** One iteration of the property loop: property `i` is registered, properties `i + 1..` remain. */
    method ExportObjectProperty(schema: Schema, cell: CellText, heap: Heap, o: ObjId, cls: ClassId, i: nat, prefix: string)
      requires WellFormed(schema) && o in heap && cls in schema.classes && i < |schema.classes[cls].fields|
      modifies this
      ensures var rest := ObjectFields(schema, cell, heap, o, cls, i + 1, prefix, visited);
        var all := ObjectFields(schema, cell, heap, o, cls, i, prefix, old(visited));
        AddAll(State(), rest.cols) == AddAll(old(State()), all.cols) && rest.visited == all.visited
      ensures old(visited) <= visited
      decreases heap.Keys - visited, 3
    {
      var f := schema.classes[cls].fields[i];
      AddColumns(ObjectLeaf(cell, heap, o, f, prefix));
      ExportObjectExpand(schema, cell, heap, o, f, prefix);
      ThenRegisters(old(State()), ObjectLeaf(cell, heap, o, f, prefix), ObjectExpand(schema, cell, heap, o, f, prefix, old(visited)));
      ObjectFieldsStep(schema, cell, heap, o, cls, i, prefix, old(visited), old(State()));
    }

    method ExportObjectExpand(schema: Schema, cell: CellText, heap: Heap, o: ObjId, f: Field, prefix: string)
      requires WellFormed(schema) && o in heap
      modifies this
      ensures var w := ObjectExpand(schema, cell, heap, o, f, prefix, old(visited));
        State() == AddAll(old(State()), w.cols) && visited == w.visited
      decreases heap.Keys - visited, 2
    {
      var v := Get(heap[o].fields, f);
      AddAllNone(State());
      if !f.expand || f.ty.SetOf? {
        return;
      }
      var full := prefix + ExpandPrefix(f);
      if f.ty.ArrayOf? {
        if v.ArrayV? {
          ExportArrayElements(schema, cell, heap, f.ty.inner, v, full);
        }
      } else if f.ty.MapOf? {
        if v.MapV? {
          ExportMapElements(schema, cell, heap, f.ty.key, f.ty.value, v, full);
        }
      } else if f.ty.ObjectOf? && CanExportClass(schema, f.ty.cls) {
        match Resolve(heap, f.ty, v)
        case Some(inner) =>
          ExportObjectToColumns(schema, cell, heap, inner, heap[inner].cls, full);
        case None =>
          ExportClassColumnsEmpty(schema, f.ty.cls, full);
      }
    }

    method ExportArrayElements(schema: Schema, cell: CellText, heap: Heap, inner: FieldType, arr: Value, full: string)
      requires WellFormed(schema) && arr.ArrayV?
      modifies this
      ensures var w := ArrayElements(schema, cell, heap, inner, arr, 0, full, old(visited));
        State() == AddAll(old(State()), w.cols) && visited == w.visited
      decreases heap.Keys - visited, 1, 1, arr, 2
    {
      ghost var all := ArrayElements(schema, cell, heap, inner, arr, 0, full, visited);
      ghost var target := AddAll(State(), all.cols);
      ExportArrayItems(schema, cell, heap, inner, arr, full, target, all.visited);
      ArrayElementsDone(schema, cell, heap, inner, arr, full, visited, State());
    }

    /** The array loop over every element, in index order. */
    method ExportArrayItems(schema: Schema, cell: CellText, heap: Heap, inner: FieldType, arr: Value, full: string,
                            ghost target: Cols, ghost finalVisited: set<ObjId>)
      requires WellFormed(schema) && arr.ArrayV?
      requires ArrayLoop(schema, cell, heap, inner, arr, 0, full, visited, State(), target, finalVisited)
      modifies this
      ensures ArrayLoop(schema, cell, heap, inner, arr, |arr.items|, full, visited, State(), target, finalVisited)
      decreases heap.Keys - visited, 1, 1, arr, 1
    {
      var j := 0;
      while j < |arr.items|
        invariant 0 <= j <= |arr.items| && old(visited) <= visited
        invariant ArrayLoop(schema, cell, heap, inner, arr, j, full, visited, State(), target, finalVisited)
      {
        ExportArrayElement(schema, cell, heap, inner, arr, j, full, target, finalVisited);
        j := j + 1;
      }
    }

    /** One iteration of the array loop: element `j` is registered, elements `j + 1..` remain. */
    method ExportArrayElement(schema: Schema, cell: CellText, heap: Heap, inner: FieldType, arr: Value, j: nat, full: string,
                              ghost target: Cols, ghost finalVisited: set<ObjId>)
      requires WellFormed(schema) && arr.ArrayV? && j < |arr.items|
      requires ArrayLoop(schema, cell, heap, inner, arr, j, full, visited, State(), target, finalVisited)
      modifies this
      ensures ArrayLoop(schema, cell, heap, inner, arr, j + 1, full, visited, State(), target, finalVisited)
      ensures old(visited) <= visited
      decreases heap.Keys - visited, 1, 1, arr, 0
    {
      ExportElement(schema, cell, heap, inner, arr.items[j], IntToString(j), full);
      ArrayElementsStep(schema, cell, heap, inner, arr, j, full, old(visited), old(State()));
    }

    method ExportMapElements(schema: Schema, cell: CellText, heap: Heap, key: FieldType, inner: FieldType, m: Value, full: string)
      requires WellFormed(schema) && m.MapV?
      modifies this
      ensures var w := MapElements(schema, cell, heap, key, inner, m, 0, full, old(visited));
        State() == AddAll(old(State()), w.cols) && visited == w.visited
      decreases heap.Keys - visited, 1, 1, m, 1
    {
      ghost var all := MapElements(schema, cell, heap, key, inner, m, 0, full, visited);
      ghost var target := AddAll(State(), all.cols);
      var j := 0;
      while j < |m.entries|
        invariant 0 <= j <= |m.entries| && old(visited) <= visited
        invariant MapLoop(schema, cell, heap, key, inner, m, j, full, visited, State(), target, all.visited)
      {
        ExportMapElement(schema, cell, heap, key, inner, m, j, full, target, all.visited);
        j := j + 1;
      }
      MapElementsDone(schema, cell, heap, key, inner, m, full, visited, State());
    }

    /** One iteration of the map loop: entry `j` is registered under its key's text, entries `j + 1..` remain. */
    method ExportMapElement(schema: Schema, cell: CellText, heap: Heap, key: FieldType, inner: FieldType, m: Value, j: nat, full: string,
                            ghost target: Cols, ghost finalVisited: set<ObjId>)
      requires WellFormed(schema) && m.MapV? && j < |m.entries|
      requires MapLoop(schema, cell, heap, key, inner, m, j, full, visited, State(), target, finalVisited)
      modifies this
      ensures MapLoop(schema, cell, heap, key, inner, m, j + 1, full, visited, State(), target, finalVisited)
      ensures old(visited) <= visited
      decreases heap.Keys - visited, 1, 1, m, 0
    {
      var e := m.entries[j];
      assert e.value < e < m;
      var keyText := cell(key, e.key);
      ExportElement(schema, cell, heap, inner, e.value, keyText, full);
      MapElementsStep(schema, cell, heap, key, inner, m, j, full, old(visited), old(State()));
    }

    method ExportElement(schema: Schema, cell: CellText, heap: Heap, inner: FieldType, e: Value, tag: string, full: string)
      requires WellFormed(schema)
      modifies this
      ensures var w := Element(schema, cell, heap, inner, e, tag, full, old(visited));
        State() == AddAll(old(State()), w.cols) && visited == w.visited
      decreases heap.Keys - visited, 1, 1, e
    {
      AddAllNone(State());
      if inner.StructOf? {
        ExportStructToColumns(schema, cell, heap, e, inner.st, full + tag + "_");
      } else if inner.ObjectOf? {
        match Resolve(heap, inner, e)
        case Some(x) =>
          if CanExportClass(schema, heap[x].cls) {
            ExportObjectToColumns(schema, cell, heap, x, heap[x].cls, full + tag + "_");
          }
        case None =>
      } else {
        AddAllOne(State(), Column(full + tag, cell(inner, e)));
        AddColumn(Column(full + tag, cell(inner, e)));
      }
    }

    method ExportStructToColumns(schema: Schema, cell: CellText, heap: Heap, v: Value, st: StructId, prefix: string)
      requires WellFormed(schema)
      modifies this
      ensures var w := ExportStruct(schema, cell, heap, v, st, prefix, old(visited));
        State() == AddAll(old(State()), w.cols) && visited == w.visited
      decreases heap.Keys - visited, 1, Flag(v), v, st
    {
      if st !in schema.structs {
        return;
      }
      ExportStructFields(schema, cell, heap, v, st, prefix);
      ExportStructUnfold(schema, cell, heap, v, st, prefix, old(visited), old(State()));
      var d := schema.structs[st];
      if d.super.Some? {
        ExportStructToColumns(schema, cell, heap, v, d.super.value, prefix);
      }
    }

    /** The loop over the struct's own properties. */
    method ExportStructFields(schema: Schema, cell: CellText, heap: Heap, v: Value, st: StructId, prefix: string)
      requires WellFormed(schema) && st in schema.structs
      modifies this
      ensures var w := StructFields(schema, cell, heap, v, st, 0, prefix, old(visited));
        State() == AddAll(old(State()), w.cols) && visited == w.visited
      decreases heap.Keys - visited, 1, Flag(v), v, st, |schema.structs[st].fields| + 1
    {
      ghost var all := StructFields(schema, cell, heap, v, st, 0, prefix, visited);
      var i := 0;
      while i < |schema.structs[st].fields|
        invariant 0 <= i <= |schema.structs[st].fields| && old(visited) <= visited
        invariant var rest := StructFields(schema, cell, heap, v, st, i, prefix, visited);
          AddAll(State(), rest.cols) == AddAll(old(State()), all.cols) && rest.visited == all.visited
      {
        ExportStructProperty(schema, cell, heap, v, st, i, prefix);
        i := i + 1;
      }
      StructFieldsDone(schema, cell, heap, v, st, prefix, visited, State());
    }

    /** One iteration of the struct's property loop: property `i` is registered, properties `i + 1..` remain. */
    method ExportStructProperty(schema: Schema, cell: CellText, heap: Heap, v: Value, st: StructId, i: nat, prefix: string)
      requires WellFormed(schema) && st in schema.structs && i < |schema.structs[st].fields|
      modifies this
      ensures var rest := StructFields(schema, cell, heap, v, st, i + 1, prefix, visited);
        var all := StructFields(schema, cell, heap, v, st, i, prefix, old(visited));
        AddAll(State(), rest.cols) == AddAll(old(State()), all.cols) && rest.visited == all.visited
      ensures old(visited) <= visited
      decreases heap.Keys - visited, 1, Flag(v), v, st, |schema.structs[st].fields| - i, 1
    {
      var f := schema.structs[st].fields[i];
      AddColumns(StructLeaf(cell, v, f, prefix));
      ExportStructExpand(schema, cell, heap, v, st, i, prefix);
      ThenRegisters(old(State()), StructLeaf(cell, v, f, prefix), StructExpand(schema, cell, heap, v, st, i, prefix, old(visited)));
      StructFieldsStep(schema, cell, heap, v, st, i, prefix, old(visited), old(State()));
    }

    method ExportStructExpand(schema: Schema, cell: CellText, heap: Heap, v: Value, st: StructId, i: nat, prefix: string)
      requires WellFormed(schema) && st in schema.structs && i < |schema.structs[st].fields|
      modifies this
      ensures var w := StructExpand(schema, cell, heap, v, st, i, prefix, old(visited));
        State() == AddAll(old(State()), w.cols) && visited == w.visited
      decreases heap.Keys - visited, 1, Flag(v), v, st, |schema.structs[st].fields| - i, 0
    {
      var f := schema.structs[st].fields[i];
      var x := StructField(v, f);
      var present := v.StructV? && f.name in v.fields;
      AddAllNone(State());
      if !f.expand || f.ty.SetOf? {
        return;
      }
      var full := prefix + ExpandPrefix(f);
      if f.ty.StructOf? {
        assert StructWellFormed(schema, st);
        ExportStructToColumns(schema, cell, heap, x, f.ty.st, full);
      } else if f.ty.ArrayOf? {
        if present && x.ArrayV? {
          ExportArrayElements(schema, cell, heap, f.ty.inner, x, full);
        }
      } else if f.ty.MapOf? {
        if present && x.MapV? {
          ExportMapElements(schema, cell, heap, f.ty.key, f.ty.value, x, full);
        }
      } else {
        match Resolve(heap, f.ty, x)
        case Some(inner) =>
          if CanExportClass(schema, heap[inner].cls) {
            ExportObjectToColumns(schema, cell, heap, inner, heap[inner].cls, full);
          }
        case None =>
      }
    }
  }

  /**
   * ExportDataAssetToCSV without the file write: fails for a null asset, for
   * a class without CsvExport and when no column was registered; otherwise
   * the content is the two escaped lines of the registered columns, which
   * list each name once.
   */
  method ExportDataAssetToCsv(schema: Schema, host: Host, heap: Heap, asset: Option<ObjId>) returns (ok: bool, content: string)
    requires WellFormed(schema)
    requires asset.Some? ==> asset.value in heap
    ensures !ok ==> content == ""
    ensures ok <==> (asset.Some? && CanExportClass(schema, heap[asset.value].cls) &&
      ExportObject(schema, CellOf(host), heap, asset.value, heap[asset.value].cls, "", {}).cols != [])
    ensures ok ==> var c := AddAll(Empty, ExportObject(schema, CellOf(host), heap, asset.value, heap[asset.value].cls, "", {}).cols);
      Valid(c) && content == CsvText(c)
  {
    if asset.None? {
      return false, "";
    }
    var o := asset.value;
    var cls := heap[o].cls;
    if !CanExportClass(schema, cls) {
      return false, "";
    }
    var ex := new Exporter();
    ex.ExportObjectToColumns(schema, CellOf(host), heap, o, cls, "");
    ghost var cols := ExportObject(schema, CellOf(host), heap, o, cls, "", {}).cols;
    AddAllKeepsValid(Empty, cols);
    RegisteredNothing(cols);
    if ex.order == [] {
      return false, "";
    }
    content := WriteCsvText(ex.State());
    ok := true;
  }
}
