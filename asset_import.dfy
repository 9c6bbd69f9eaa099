/**
 * The AssetCsvSync importer: ApplyCSVRowToObject, ApplyColumnsToObject and
 * ApplyColumnsToStruct. A row (the TMap from column name to cell text) is
 * written back into an object graph: CsvColumn leaves are always imported,
 * CsvExpand properties only under the RootAndExpanded scope, where array
 * indices and map keys are discovered from the column names and the
 * containers grow in place.
 *
 * The walk is defined first as functions from the objects and the Visited
 * set before it to the objects and the Visited set after it; the methods of
 * `Importer` are the source's loops, proved to compute exactly that.
 */
module AssetImport {
  import opened Strings
  import opened Reflection
  import opened PropertyCodec
  import opened Columns

  /** What one import runs with: the descriptors, the engine services, the write-back scope and the row. */
  datatype Ctx = Ctx(schema: Schema, host: Host, scope: Scope, row: Cols)

  /** The objects and the Visited set. */
  datatype St = St(heap: Heap, visited: set<ObjId>)

  /** A walk over a struct or container value: the state after it and the value's new contents. */
  datatype Out = Out(st: St, value: Value)

  /** A walk keeps every object and only adds to Visited. */
  predicate Grows(s: St, t: St)
  {
    t.heap.Keys == s.heap.Keys && s.visited <= t.visited
  }

  /** The objects a walk may still enter; part of the termination measure. */
  function Pending(s: St): set<ObjId>
  {
    s.heap.Keys - s.visited
  }

  // ---------------------------------------------------------------------
  // Reading column names
  // ---------------------------------------------------------------------

  /** The length of the longest column name. */
  function MaxLen(names: seq<string>): (m: nat)
    ensures forall k :: 0 <= k < |names| ==> |names[k]| <= m
  {
    if names == [] then 0
    else
      var m := MaxLen(names[..|names| - 1]);
      if |names[|names| - 1]| > m then |names[|names| - 1]| else m
  }

  /**
   * How many characters a column name has beyond `prefix` at most. Every
   * step into an array element or map value lengthens the prefix, and is
   * only taken when some column name is longer still; this is what bounds
   * the walk through nested containers.
   */
  function Room(row: Cols, prefix: string): nat
  {
    if MaxLen(row.order) > |prefix| then MaxLen(row.order) - |prefix| else 0
  }

  /** The index a segment of a column name reads as: Atoi of a non-empty numeric segment, unless negative. */
  function IndexText(seg: string): (r: Option<nat>)
    ensures r.Some? <==> seg != [] && IsNumeric(seg) && Atoi(seg) >= 0
    ensures r.Some? ==> r.value == Atoi(seg)
  {
    if seg == [] || !IsNumeric(seg) || Atoi(seg) < 0 then None else Some(Atoi(seg))
  }

  /**
   * The index a struct or object element column names: "<full><n>_<rest>",
   * where <n> is the text before the first '_', is not empty, is numeric,
   * and Atoi reads it as a number that is not negative.
   */
  function ElementIndex(name: string, full: string): (r: Option<nat>)
    ensures r.Some? ==> full <= name && |name| >= |full| + 2
  {
    if !(full <= name) then None
    else
      var suffix := name[|full|..];
      match FindChar(suffix, '_')
      case None => None
      case Some(pos) => IndexText(suffix[..pos])
  }

  /** The TSet of element indices, in the order of first discovery. */
  function ElementIndices(names: seq<string>, full: string): (r: seq<nat>)
    ensures r != [] ==> MaxLen(names) >= |full| + 2
    decreases |names|
  {
    if names == [] then []
    else
      var found := ElementIndices(names[..|names| - 1], full);
      match ElementIndex(names[|names| - 1], full)
      case Some(n) => if n in found then found else found + [n]
      case None => found
  }

  /** MaxIndex: the largest discovered index, or -1. */
  function MaxOf(s: seq<nat>): (m: int)
    ensures s == [] <==> m == -1
    ensures forall k :: 0 <= k < |s| ==> s[k] <= m
    ensures s != [] ==> m in s
  {
    if s == [] then -1
    else
      var m := MaxOf(s[..|s| - 1]);
      if s[|s| - 1] > m then s[|s| - 1] else m
  }

  /** The array after `Helper.Resize(MaxIndex + 1)`, which happens only when that grows it. */
  function GrowTo(items: seq<Value>, indices: seq<nat>, pad: Value): (r: seq<Value>)
    ensures |r| >= |items| && r[..|items|] == items
    ensures forall k :: 0 <= k < |indices| ==> indices[k] < |r|
    ensures |r| == |items| || |r| == MaxOf(indices) + 1
  {
    var m := MaxOf(indices);
    if m >= 0 && m >= |items| then Resize(items, m + 1, pad) else items
  }

  /** The index a primitive element column names: "<full><n>", the whole rest numeric and not negative. */
  function WriteIndex(name: string, full: string): (r: Option<nat>)
    ensures r.Some? ==> full <= name && |name| > |full|
  {
    if !(full <= name) then None
    else
      IndexText(name[|full|..])
  }

  /** One pending primitive element write. */
  datatype Write = Write(index: nat, text: string)

  /** The Writes array, in row order. */
  function Writes(row: Cols, names: seq<string>, full: string): (r: seq<Write>)
    ensures r != [] ==> MaxLen(names) > |full|
    decreases |names|
  {
    if names == [] then []
    else
      var before := Writes(row, names[..|names| - 1], full);
      var name := names[|names| - 1];
      match WriteIndex(name, full)
      case Some(n) => if name in row.values then before + [Write(n, row.values[name])] else before
      case None => before
  }

  /** The key text a struct or object map value column names: "<full><key>_<rest>" with a non-empty key. */
  function ElementKey(name: string, full: string): (r: Option<string>)
    ensures r.Some? ==> r.value != [] && |name| >= |full| + |r.value| + 1
  {
    if !(full <= name) then None
    else
      var suffix := name[|full|..];
      match FindChar(suffix, '_')
      case None => None
      case Some(pos) => if pos == 0 then None else Some(suffix[..pos])
  }

  /** Discovered keys are non-empty, and some column name is at least two characters longer than the prefix. */
  predicate KeysNamed(names: seq<string>, keys: seq<string>, full: string)
  {
    (keys != [] ==> MaxLen(names) >= |full| + 2) && forall k :: 0 <= k < |keys| ==> keys[k] != []
  }

  /** The TSet of key texts, in the order of first discovery. */
  function ElementKeys(names: seq<string>, full: string): (r: seq<string>)
    ensures KeysNamed(names, r, full)
    decreases |names|
  {
    if names == [] then []
    else
      var found := ElementKeys(names[..|names| - 1], full);
      match ElementKey(names[|names| - 1], full)
      case Some(key) => if key in found then found else found + [key]
      case None => found
  }

  // ---------------------------------------------------------------------
  // Primitive elements
  // ---------------------------------------------------------------------

  /** `w` goes after `sorted`: placed after every write with an index no larger than its own. */
  function InsertWrite(sorted: seq<Write>, w: Write): seq<Write>
    decreases |sorted|
  {
    if sorted == [] || sorted[|sorted| - 1].index <= w.index then sorted + [w]
    else InsertWrite(sorted[..|sorted| - 1], w) + [sorted[|sorted| - 1]]
  }

  /** `Writes.Sort` by index. */
  function SortWrites(ws: seq<Write>): seq<Write>
    decreases |ws|
  {
    if ws == [] then [] else InsertWrite(SortWrites(ws[..|ws| - 1]), ws[|ws| - 1])
  }

  predicate Ascending(ws: seq<Write>)
  {
    forall i, j :: 0 <= i < j < |ws| ==> ws[i].index <= ws[j].index
  }

  /** One write: grow the array to reach the index if it is too short, then StringToProperty on that element. */
  function ApplyWrite(host: Host, inner: FieldType, items: seq<Value>, w: Write): (r: seq<Value>)
    ensures |r| == if w.index < |items| then |items| else w.index + 1
  {
    var grown := if w.index >= |items| then Resize(items, w.index + 1, Default(inner)) else items;
    grown[w.index := FromText(host, inner, grown[w.index], w.text).value]
  }

  function ApplyWrites(host: Host, inner: FieldType, items: seq<Value>, ws: seq<Write>): seq<Value>
    decreases |ws|
  {
    if ws == [] then items else ApplyWrite(host, inner, ApplyWrites(host, inner, items, ws[..|ws| - 1]), ws[|ws| - 1])
  }

  // ---------------------------------------------------------------------
  // Maps
  // ---------------------------------------------------------------------

  /** FindMapIndexWithKey: the first entry with the key. */
  function FindKey(entries: seq<Entry>, key: Value): (r: Option<nat>)
    ensures r.Some? ==> r.value < |entries| && entries[r.value].key == key
    ensures r.None? ==> forall j :: 0 <= j < |entries| ==> entries[j].key != key
  {
    if entries == [] then None
    else if entries[0].key == key then Some(0)
    else match FindKey(entries[1..], key)
      case Some(j) => Some(j + 1)
      case None => None
  }

  /** The entries after finding `key`, and its position. */
  datatype Slot = Slot(entries: seq<Entry>, pos: nat)

  /** Find the entry with `key`, or add one holding `value` at the end (AddDefaultValue_Invalid_NeedsRehash). */
  function FindOrAdd(entries: seq<Entry>, key: Value, value: Value): (r: Slot)
    ensures r.pos < |r.entries| && r.entries[r.pos].key == key
  {
    match FindKey(entries, key)
    case Some(j) => Slot(entries, j)
    case None => Slot(entries + [Entry(key, value)], |entries|)
  }

  /** The value `key` has in `entries`, or `dflt` when it has none. */
  function ValueAt(entries: seq<Entry>, key: Value, dflt: Value): Value
  {
    match FindKey(entries, key)
    case Some(j) => entries[j].value
    case None => dflt
  }

  /** Find or add the key, then set its value from the cell with StringToProperty. */
  function Upsert(host: Host, vt: FieldType, entries: seq<Entry>, key: Value, text: string): (r: seq<Entry>)
    ensures |r| == if FindKey(entries, key).Some? then |entries| else |entries| + 1
  {
    var slot := FindOrAdd(entries, key, Default(vt));
    slot.entries[slot.pos := Entry(key, FromText(host, vt, slot.entries[slot.pos].value, text).value)]
  }

  /** The key a primitive map value column "<full><key>" names, with its cell, when the key text imports. */
  function MapKeyCell(host: Host, k: FieldType, row: Cols, name: string, full: string): Option<(Value, string)>
  {
    if !(full <= name) || |name| == |full| || name !in row.values then None
    else
      var parsed := FromText(host, k, Default(k), name[|full|..]);
      if parsed.ok then Some((parsed.value, row.values[name])) else None
  }

  /** One pair of the primitive map loop. */
  function MapWrite(host: Host, k: FieldType, vt: FieldType, entries: seq<Entry>, row: Cols, name: string, full: string): seq<Entry>
  {
    match MapKeyCell(host, k, row, name, full)
    case None => entries
    case Some(kc) => Upsert(host, vt, entries, kc.0, kc.1)
  }

  function MapWrites(host: Host, k: FieldType, vt: FieldType, entries: seq<Entry>, row: Cols, names: seq<string>, full: string): (r: seq<Entry>)
    ensures |r| >= |entries|
    decreases |names|
  {
    if names == [] then entries
    else MapWrite(host, k, vt, MapWrites(host, k, vt, entries, row, names[..|names| - 1], full), row, names[|names| - 1], full)
  }

  // ---------------------------------------------------------------------
  // The walk
  // ---------------------------------------------------------------------

  /** Property `f` of object `o` set to `v`. */
  function SetObjField(s: St, o: ObjId, f: Field, v: Value): (r: St)
    requires o in s.heap
    ensures r.heap.Keys == s.heap.Keys && r.visited == s.visited
  {
    St(s.heap[o := Obj(s.heap[o].cls, s.heap[o].fields[f.name := v])], s.visited)
  }

  /** Property `f` of a struct value set to `x`. */
  function SetField(v: Value, f: Field, x: Value): Value
  {
    StructV((if v.StructV? then v.fields else map[])[f.name := x])
  }

  /**
   * ApplyColumnsToObject(o, cls): an object already visited is left alone;
   * otherwise it is marked visited, the own properties of `cls` are
   * imported, and the object is entered again as its superclass.
   */
  function ImportObject(ctx: Ctx, s: St, o: ObjId, cls: ClassId, prefix: string): (r: St)
    requires Consistent(ctx.schema) && o in s.heap
    ensures Grows(s, r)
    decreases Pending(s), 0
  {
    if cls !in ctx.schema.classes || o in s.visited then s
    else
      var own := ObjectFields(ctx, St(s.heap, s.visited + {o}), o, cls, 0, prefix);
      var d := ctx.schema.classes[cls];
      if d.super.Some? then ImportObject(ctx, own, o, d.super.value, prefix) else own
  }

  function ObjectFields(ctx: Ctx, s: St, o: ObjId, cls: ClassId, i: nat, prefix: string): (r: St)
    requires Consistent(ctx.schema) && o in s.heap && cls in ctx.schema.classes && i <= |ctx.schema.classes[cls].fields|
    ensures Grows(s, r)
    decreases Pending(s), 4, |ctx.schema.classes[cls].fields| - i
  {
    if i == |ctx.schema.classes[cls].fields| then s
    else ObjectFields(ctx, ObjectField(ctx, s, o, ctx.schema.classes[cls].fields[i], prefix), o, cls, i + 1, prefix)
  }

  /** One property of an object: its CsvColumn leaf, then its expansion. */
  function ObjectField(ctx: Ctx, s: St, o: ObjId, f: Field, prefix: string): (r: St)
    requires Consistent(ctx.schema) && o in s.heap
    ensures Grows(s, r)
    decreases Pending(s), 3
  {
    ObjectExpand(ctx, ObjectLeaf(ctx, s, o, f, prefix), o, f, prefix)
  }

  /** A CsvColumn property whose column is in the row is set from the cell. */
  function ObjectLeaf(ctx: Ctx, s: St, o: ObjId, f: Field, prefix: string): (r: St)
    requires o in s.heap
    ensures r.heap.Keys == s.heap.Keys && r.visited == s.visited
  {
    var name := LeafColumnName(prefix, f);
    if f.column.Some? && name in ctx.row.values then
      SetObjField(s, o, f, FromText(ctx.host, f.ty, Get(s.heap[o].fields, f), ctx.row.values[name]).value)
    else s
  }

  /**
   * The CsvExpand part of an object property, under RootAndExpanded only:
   * sets are skipped, arrays and maps are imported element by element, and
   * an object reference is entered when it is not null and its own class is
   * exportable. A struct property is not an object reference, so it is not
   * entered.
   */
  function ObjectExpand(ctx: Ctx, s: St, o: ObjId, f: Field, prefix: string): (r: St)
    requires Consistent(ctx.schema) && o in s.heap
    ensures Grows(s, r)
    decreases Pending(s), 2
  {
    if ctx.scope != RootAndExpanded || !f.expand || f.ty.SetOf? then s
    else
      var full := prefix + ExpandPrefix(f);
      var x := Get(s.heap[o].fields, f);
      if f.ty.ArrayOf? then
        var e := ImportArray(ctx, s, f.ty.inner, x, full);
        SetObjField(e.st, o, f, e.value)
      else if f.ty.MapOf? then
        var e := ImportMap(ctx, s, f.ty.key, f.ty.value, x, full);
        SetObjField(e.st, o, f, e.value)
      else
        match Resolve(s.heap, f.ty, x)
        case Some(t) =>
          if CanExportClass(ctx.schema, s.heap[t].cls) then ImportObject(ctx, s, t, s.heap[t].cls, full) else s
        case None => s
  }

  /**
   * An expanded array: struct and object elements are found by index
   * discovery, the array grows to reach the largest index, and each
   * discovered element is imported under "<full><index>_"; primitive
   * elements are written in ascending index order from "<full><index>".
   */
  function ImportArray(ctx: Ctx, s: St, inner: FieldType, x: Value, full: string): (r: Out)
    requires Consistent(ctx.schema)
    ensures Grows(s, r.st) && r.value.ArrayV?
    decreases Pending(s), 1, Room(ctx.row, full), 2
  {
    var items := ItemsOf(x);
    if inner.StructOf? then
      var idx := ElementIndices(ctx.row.order, full);
      ArrayStructs(ctx, s, inner.st, GrowTo(items, idx, Default(inner)), idx, 0, full)
    else if inner.ObjectOf? then
      var idx := ElementIndices(ctx.row.order, full);
      var grown := GrowTo(items, idx, Default(inner));
      Out(ArrayObjects(ctx, s, inner, grown, idx, 0, full), ArrayV(grown))
    else
      Out(s, ArrayV(ApplyWrites(ctx.host, inner, items, SortWrites(Writes(ctx.row, ctx.row.order, full)))))
  }

  /** The struct elements at the discovered indices `idx[j..]`. */
  function ArrayStructs(ctx: Ctx, s: St, st: StructId, items: seq<Value>, idx: seq<nat>, j: nat, full: string): (r: Out)
    requires Consistent(ctx.schema) && j <= |idx|
    requires idx != [] ==> MaxLen(ctx.row.order) >= |full| + 2
    ensures Grows(s, r.st) && r.value.ArrayV? && |r.value.items| == |items|
    decreases Pending(s), 1, Room(ctx.row, full), 1, |idx| - j
  {
    if j == |idx| then Out(s, ArrayV(items))
    else if idx[j] >= |items| then ArrayStructs(ctx, s, st, items, idx, j + 1, full)
    else
      var e := ImportStruct(ctx, s, items[idx[j]], st, full + IntToString(idx[j]) + "_");
      ArrayStructs(ctx, e.st, st, items[idx[j] := e.value], idx, j + 1, full)
  }

  /** The objects referenced at the discovered indices `idx[j..]`. */
  function ArrayObjects(ctx: Ctx, s: St, inner: FieldType, items: seq<Value>, idx: seq<nat>, j: nat, full: string): (r: St)
    requires Consistent(ctx.schema) && j <= |idx|
    ensures Grows(s, r)
    decreases Pending(s), 1, Room(ctx.row, full), 1, |idx| - j
  {
    if j == |idx| then s
    else if idx[j] >= |items| then ArrayObjects(ctx, s, inner, items, idx, j + 1, full)
    else
      match Resolve(s.heap, inner, items[idx[j]])
      case Some(t) =>
        if CanExportClass(ctx.schema, s.heap[t].cls) then
          ArrayObjects(ctx, ImportObject(ctx, s, t, s.heap[t].cls, full + IntToString(idx[j]) + "_"), inner, items, idx, j + 1, full)
        else ArrayObjects(ctx, s, inner, items, idx, j + 1, full)
      case None => ArrayObjects(ctx, s, inner, items, idx, j + 1, full)
  }

  /**
   * An expanded map: struct and object values are found by key discovery,
   * each key text imported as a key, found or inserted, and its value
   * imported under "<full><key>_"; primitive values are set from
   * "<full><key>" in row order.
   */
  function ImportMap(ctx: Ctx, s: St, k: FieldType, vt: FieldType, x: Value, full: string): (r: Out)
    requires Consistent(ctx.schema)
    ensures Grows(s, r.st) && r.value.MapV?
    decreases Pending(s), 1, Room(ctx.row, full), 2
  {
    var entries := EntriesOf(x);
    if vt.StructOf? then MapStructs(ctx, s, k, vt.st, entries, ElementKeys(ctx.row.order, full), 0, full)
    else if vt.ObjectOf? then MapObjects(ctx, s, k, vt, entries, ElementKeys(ctx.row.order, full), 0, full)
    else Out(s, MapV(MapWrites(ctx.host, k, vt, entries, ctx.row, ctx.row.order, full)))
  }

  /** The struct values of the discovered keys `keys[j..]`. */
  function MapStructs(ctx: Ctx, s: St, k: FieldType, st: StructId, entries: seq<Entry>, keys: seq<string>, j: nat, full: string): (r: Out)
    requires Consistent(ctx.schema) && j <= |keys|
    requires KeysNamed(ctx.row.order, keys, full)
    ensures Grows(s, r.st) && r.value.MapV? && |r.value.entries| >= |entries|
    decreases Pending(s), 1, Room(ctx.row, full), 1, |keys| - j
  {
    if j == |keys| then Out(s, MapV(entries))
    else
      var parsed := FromText(ctx.host, k, Default(k), keys[j]);
      if !parsed.ok then MapStructs(ctx, s, k, st, entries, keys, j + 1, full)
      else
        var slot := FindOrAdd(entries, parsed.value, Default(StructOf(st)));
        var e := ImportStruct(ctx, s, slot.entries[slot.pos].value, st, full + keys[j] + "_");
        MapStructs(ctx, e.st, k, st, slot.entries[slot.pos := Entry(parsed.value, e.value)], keys, j + 1, full)
  }

  /** The struct value loop's invariant: what is left of it, run from `s`, still ends in `target`. */
  ghost predicate StructsLoop(ctx: Ctx, s: St, k: FieldType, st: StructId, entries: seq<Entry>, keys: seq<string>, j: nat, full: string, target: Out)
    requires Consistent(ctx.schema) && j <= |keys|
    requires KeysNamed(ctx.row.order, keys, full)
  {
    MapStructs(ctx, s, k, st, entries, keys, j, full) == target
  }

  /** The object values of the discovered keys `keys[j..]`. */
  function MapObjects(ctx: Ctx, s: St, k: FieldType, vt: FieldType, entries: seq<Entry>, keys: seq<string>, j: nat, full: string): (r: Out)
    requires Consistent(ctx.schema) && j <= |keys|
    ensures Grows(s, r.st) && r.value.MapV? && |r.value.entries| >= |entries|
    decreases Pending(s), 1, Room(ctx.row, full), 1, |keys| - j
  {
    if j == |keys| then Out(s, MapV(entries))
    else
      var parsed := FromText(ctx.host, k, Default(k), keys[j]);
      if !parsed.ok then MapObjects(ctx, s, k, vt, entries, keys, j + 1, full)
      else
        var slot := FindOrAdd(entries, parsed.value, Default(vt));
        match Resolve(s.heap, vt, slot.entries[slot.pos].value)
        case Some(t) =>
          if CanExportClass(ctx.schema, s.heap[t].cls) then
            MapObjects(ctx, ImportObject(ctx, s, t, s.heap[t].cls, full + keys[j] + "_"), k, vt, slot.entries, keys, j + 1, full)
          else MapObjects(ctx, s, k, vt, slot.entries, keys, j + 1, full)
        case None => MapObjects(ctx, s, k, vt, slot.entries, keys, j + 1, full)
  }

  /** ApplyColumnsToStruct(v, st): the own properties of `st`, then the super struct's. */
  function ImportStruct(ctx: Ctx, s: St, v: Value, st: StructId, prefix: string): (r: Out)
    requires Consistent(ctx.schema)
    ensures Grows(s, r.st)
    decreases Pending(s), 1, Room(ctx.row, prefix), st
  {
    if st !in ctx.schema.structs then Out(s, v)
    else
      var own := StructFields(ctx, s, v, st, 0, prefix);
      var d := ctx.schema.structs[st];
      if d.super.Some? then ImportStruct(ctx, own.st, own.value, d.super.value, prefix) else own
  }

  function StructFields(ctx: Ctx, s: St, v: Value, st: StructId, i: nat, prefix: string): (r: Out)
    requires Consistent(ctx.schema) && st in ctx.schema.structs && i <= |ctx.schema.structs[st].fields|
    ensures Grows(s, r.st)
    decreases Pending(s), 1, Room(ctx.row, prefix), st, |ctx.schema.structs[st].fields| - i, 2
  {
    if i == |ctx.schema.structs[st].fields| then Out(s, v)
    else
      var m := StructMember(ctx, s, v, st, i, prefix);
      StructFields(ctx, m.st, m.value, st, i + 1, prefix)
  }

  /** One property of a struct: its leaf, then its expansion. */
  function StructMember(ctx: Ctx, s: St, v: Value, st: StructId, i: nat, prefix: string): (r: Out)
    requires Consistent(ctx.schema) && st in ctx.schema.structs && i < |ctx.schema.structs[st].fields|
    ensures Grows(s, r.st)
    decreases Pending(s), 1, Room(ctx.row, prefix), st, |ctx.schema.structs[st].fields| - i, 1
  {
    StructExpand(ctx, s, StructLeaf(ctx, v, ctx.schema.structs[st].fields[i], prefix), st, i, prefix)
  }

  /** A struct property with CsvColumn or without CsvExpand is set from its cell when the row has its column. */
  function StructLeaf(ctx: Ctx, v: Value, f: Field, prefix: string): Value
  {
    var name := LeafColumnName(prefix, f);
    if (f.column.Some? || !f.expand) && name in ctx.row.values then
      SetField(v, f, FromText(ctx.host, f.ty, StructField(v, f), ctx.row.values[name]).value)
    else v
  }

  /**
   * The CsvExpand part of a struct property, under RootAndExpanded only:
   * sets are skipped, a nested struct is imported under "<name>_", arrays
   * and maps as for objects, and an object reference is entered when it is
   * not null and its own class is exportable.
   */
  function StructExpand(ctx: Ctx, s: St, v: Value, st: StructId, i: nat, prefix: string): (r: Out)
    requires Consistent(ctx.schema) && st in ctx.schema.structs && i < |ctx.schema.structs[st].fields|
    ensures Grows(s, r.st)
    decreases Pending(s), 1, Room(ctx.row, prefix), st, |ctx.schema.structs[st].fields| - i, 0
  {
    var f := ctx.schema.structs[st].fields[i];
    if ctx.scope != RootAndExpanded || !f.expand || f.ty.SetOf? then Out(s, v)
    else
      var full := prefix + ExpandPrefix(f);
      var x := StructField(v, f);
      if f.ty.StructOf? then
        assert StructWellFormed(ctx.schema, st);
        var e := ImportStruct(ctx, s, x, f.ty.st, full);
        Out(e.st, SetField(v, f, e.value))
      else if f.ty.ArrayOf? then
        // With no column name longer than "<full>" there is nothing to discover (see NoRoomArrayUnchanged).
        if Room(ctx.row, full) == 0 then Out(s, SetField(v, f, ArrayV(ItemsOf(x))))
        else
          var e := ImportArray(ctx, s, f.ty.inner, x, full);
          Out(e.st, SetField(v, f, e.value))
      else if f.ty.MapOf? then
        if Room(ctx.row, full) == 0 then Out(s, SetField(v, f, MapV(EntriesOf(x))))
        else
          var e := ImportMap(ctx, s, f.ty.key, f.ty.value, x, full);
          Out(e.st, SetField(v, f, e.value))
      else
        match Resolve(s.heap, f.ty, x)
        case Some(t) =>
          if CanExportClass(ctx.schema, s.heap[t].cls) then Out(ImportObject(ctx, s, t, s.heap[t].cls, full), v) else Out(s, v)
        case None => Out(s, v)
  }

  // ---------------------------------------------------------------------
  // Properties
  // ---------------------------------------------------------------------

  /** Discovery on "<full><d>_<rest>" when the segment `d` has no '_': the segment read as an index. */
  lemma ElementIndexOfSegment(full: string, d: string, rest: string)
    requires d != [] && '_' !in d
    ensures ElementIndex(full + d + "_" + rest, full) == IndexText(d)
  {
    var name := full + d + "_" + rest;
    var suffix := d + "_" + rest;
    assert full <= name && name[|full|..] == suffix;
    FirstUnderscore(d, rest);
    assert suffix[..|d|] == d;
    ElementIndexAt(name, full, |d|);
  }

  /** Discovery reads the text between the prefix and the first '_' after it. */
  lemma ElementIndexAt(name: string, full: string, pos: nat)
    requires full <= name && FindChar(name[|full|..], '_') == Some(pos)
    ensures ElementIndex(name, full) == IndexText(name[|full|..][..pos])
  {
  }

  /** The first '_' of "<d>_<rest>" is the one after `d` when `d` has none. */
  lemma FirstUnderscore(d: string, rest: string)
    requires '_' !in d
    ensures FindChar(d + "_" + rest, '_') == Some(|d|)
  {
    var s := d + "_" + rest;
    assert s[|d|] == '_';
    assert s[..|d|] == d;
  }

  /** The element index the exporter writes into a name ("<full><n>_<rest>") is the one discovery reads back. */
  lemma ElementIndexReadsBack(full: string, n: nat, rest: string)
    requires IsInt32(n)
    ensures ElementIndex(full + IntToString(n) + "_" + rest, full) == Some(n)
  {
    var d := NatToString(n);
    assert !IsDigit('_');
    ElementIndexOfSegment(full, d, rest);
    NatToStringIsNumeric(n);
    IntToStringRoundTrip(n);
  }

  /** A negative index segment is discovered as nothing. */
  lemma NegativeIndexIgnored(full: string, n: nat, rest: string)
    requires 0 < n && IsInt32(-(n as int))
    ensures ElementIndex(full + IntToString(-(n as int)) + "_" + rest, full) == None
  {
    var d := IntToString(-(n as int));
    assert d == "-" + NatToString(n);
    assert '_' !in d by {
      assert !IsDigit('_');
      forall i | 0 <= i < |d| ensures d[i] != '_' {
        if i > 0 { assert d[i] == NatToString(n)[i - 1]; }
      }
    }
    ElementIndexOfSegment(full, d, rest);
    IntToStringRoundTrip(-(n as int));
  }

  /** The scalar element index the exporter writes ("<full><n>") is the one the primitive writes read back. */
  lemma WriteIndexReadsBack(full: string, n: nat)
    requires IsInt32(n)
    ensures WriteIndex(full + IntToString(n), full) == Some(n)
  {
    var name := full + IntToString(n);
    assert name[|full|..] == NatToString(n);
    NatToStringIsNumeric(n);
    IntToStringRoundTrip(n);
  }

  /** A key text without '_' written into a name ("<full><key>_<rest>") is the one key discovery reads back. */
  lemma ElementKeyReadsBack(full: string, key: string, rest: string)
    requires key != [] && '_' !in key
    ensures ElementKey(full + key + "_" + rest, full) == Some(key)
  {
    var name := full + key + "_" + rest;
    var suffix := key + "_" + rest;
    assert name[|full|..] == suffix;
    assert suffix[|key|] == '_';
    assert suffix[..|key|] == key;
    assert FindChar(suffix, '_') == Some(|key|);
  }

  predicate DistinctNats(s: seq<nat>)
  {
    forall i, j :: 0 <= i < j < |s| ==> s[i] != s[j]
  }

  /** Index discovery finds exactly the indices some column names, each once. */
  lemma {:induction false} ElementIndicesExact(names: seq<string>, full: string)
    ensures DistinctNats(ElementIndices(names, full))
    ensures forall n :: n in ElementIndices(names, full) <==> exists k :: 0 <= k < |names| && ElementIndex(names[k], full) == Some(n)
    decreases |names|
  {
    if names != [] {
      var init := names[..|names| - 1];
      ElementIndicesExact(init, full);
      forall n | n in ElementIndices(names, full)
        ensures exists k :: 0 <= k < |names| && ElementIndex(names[k], full) == Some(n)
      {
        ElementIndicesFound(names, full, n);
      }
      forall n, k | 0 <= k < |names| && ElementIndex(names[k], full) == Some(n)
        ensures n in ElementIndices(names, full)
      {
        if k < |init| {
          assert init[k] == names[k];
          assert ElementIndex(init[k], full) == Some(n);
        }
        ElementIndicesKeep(names, full, n, k);
      }
    }
  }

  lemma ElementIndicesKeep(names: seq<string>, full: string, n: nat, k: nat)
    requires k < |names| && ElementIndex(names[k], full) == Some(n)
    requires k < |names| - 1 ==> n in ElementIndices(names[..|names| - 1], full)
    ensures n in ElementIndices(names, full)
  {
  }

  lemma ElementIndicesFound(names: seq<string>, full: string, n: nat)
    requires names != [] && n in ElementIndices(names, full)
    requires forall m :: m in ElementIndices(names[..|names| - 1], full) ==> exists k :: 0 <= k < |names| - 1 && ElementIndex(names[k], full) == Some(m)
    ensures exists k :: 0 <= k < |names| && ElementIndex(names[k], full) == Some(n)
  {
    var init := names[..|names| - 1];
    if n !in ElementIndices(init, full) {
      assert ElementIndex(names[|names| - 1], full) == Some(n);
    }
  }

  predicate DistinctStrings(s: seq<string>)
  {
    forall i, j :: 0 <= i < j < |s| ==> s[i] != s[j]
  }

  /** Key discovery finds exactly the key texts some column names, each once. */
  lemma ElementKeysExact(names: seq<string>, full: string)
    ensures DistinctStrings(ElementKeys(names, full))
    ensures forall key :: key in ElementKeys(names, full) <==> exists k :: 0 <= k < |names| && ElementKey(names[k], full) == Some(key)
  {
    ElementKeysDistinct(names, full);
    forall key
      ensures key in ElementKeys(names, full) <==> exists k :: 0 <= k < |names| && ElementKey(names[k], full) == Some(key)
    {
      ElementKeysFound(names, full, key);
    }
  }

  lemma {:induction false} ElementKeysDistinct(names: seq<string>, full: string)
    ensures DistinctStrings(ElementKeys(names, full))
    decreases |names|
  {
    if names != [] {
      ElementKeysDistinct(names[..|names| - 1], full);
    }
  }

  /** Some column name carries `key` after the prefix. */
  ghost predicate KeyNamed(names: seq<string>, full: string, key: string)
  {
    exists k :: 0 <= k < |names| && ElementKey(names[k], full) == Some(key)
  }

  lemma {:induction false} ElementKeysFound(names: seq<string>, full: string, key: string)
    ensures key in ElementKeys(names, full) <==> KeyNamed(names, full, key)
    decreases |names|
  {
    if names != [] {
      var init := names[..|names| - 1];
      ElementKeysFound(init, full, key);
      ElementKeysLast(names, full, key);
      KeyNamedLast(names, full, key);
    }
  }

  /** One step of key discovery: the last name adds at most its own key. */
  lemma ElementKeysLast(names: seq<string>, full: string, key: string)
    requires names != []
    ensures key in ElementKeys(names, full) <==>
      key in ElementKeys(names[..|names| - 1], full) || ElementKey(names[|names| - 1], full) == Some(key)
  {
  }

  lemma KeyNamedLast(names: seq<string>, full: string, key: string)
    requires names != []
    ensures KeyNamed(names, full, key) <==>
      KeyNamed(names[..|names| - 1], full, key) || ElementKey(names[|names| - 1], full) == Some(key)
  {
    var init := names[..|names| - 1];
    if KeyNamed(names, full, key) {
      KeyNamedSplit(names, init, full, key);
    }
    if KeyNamed(init, full, key) {
      KeyNamedGrow(names, init, full, key);
    }
    if ElementKey(names[|names| - 1], full) == Some(key) {
      var k := |names| - 1;
      assert 0 <= k < |names| && ElementKey(names[k], full) == Some(key);
    }
  }

  lemma KeyNamedSplit(names: seq<string>, init: seq<string>, full: string, key: string)
    requires names != [] && init == names[..|names| - 1] && KeyNamed(names, full, key)
    ensures KeyNamed(init, full, key) || ElementKey(names[|names| - 1], full) == Some(key)
  {
    var k :| 0 <= k < |names| && ElementKey(names[k], full) == Some(key);
    if k < |init| {
      assert init[k] == names[k];
    }
  }

  lemma KeyNamedGrow(names: seq<string>, init: seq<string>, full: string, key: string)
    requires names != [] && init == names[..|names| - 1] && KeyNamed(init, full, key)
    ensures KeyNamed(names, full, key)
  {
    var k :| 0 <= k < |init| && ElementKey(init[k], full) == Some(key);
    assert names[k] == init[k];
  }

  lemma {:induction false} InsertWriteSorted(sorted: seq<Write>, w: Write)
    requires Ascending(sorted)
    ensures Ascending(InsertWrite(sorted, w))
    ensures multiset(InsertWrite(sorted, w)) == multiset(sorted) + multiset{w}
    decreases |sorted|
  {
    if sorted != [] && sorted[|sorted| - 1].index > w.index {
      var init := sorted[..|sorted| - 1];
      var last := sorted[|sorted| - 1];
      assert sorted == init + [last];
      InsertWriteSorted(init, w);
      var front := InsertWrite(init, w);
      BelowLast(sorted, front, w);
      AscendingSnoc(front, last);
    }
  }

  /** What is inserted before the last write of an ascending sequence has no larger index than it. */
  lemma BelowLast(sorted: seq<Write>, front: seq<Write>, w: Write)
    requires Ascending(sorted) && sorted != [] && w.index < sorted[|sorted| - 1].index
    requires multiset(front) == multiset(sorted[..|sorted| - 1]) + multiset{w}
    ensures forall x :: x in front ==> x.index <= sorted[|sorted| - 1].index
  {
    var init := sorted[..|sorted| - 1];
    forall x | x in front
      ensures x.index <= sorted[|sorted| - 1].index
    {
      assert x in multiset(front);
      if x != w {
        assert x in multiset(init);
        var i :| 0 <= i < |init| && init[i] == x;
        assert sorted[i] == x;
      }
    }
  }

  lemma AscendingSnoc(front: seq<Write>, last: Write)
    requires Ascending(front) && forall x :: x in front ==> x.index <= last.index
    ensures Ascending(front + [last])
  {
    forall i, j | 0 <= i < j < |front| + 1
      ensures (front + [last])[i].index <= (front + [last])[j].index
    {
      if j == |front| { assert front[i] in front; }
    }
  }

  /** Writes.Sort: the writes in ascending index order, none lost and none added. */
  lemma {:induction false} SortWritesSorted(ws: seq<Write>)
    ensures Ascending(SortWrites(ws))
    ensures multiset(SortWrites(ws)) == multiset(ws)
    decreases |ws|
  {
    if ws != [] {
      var init := ws[..|ws| - 1];
      SortWritesSorted(init);
      InsertWriteSorted(SortWrites(init), ws[|ws| - 1]);
      assert ws == init + [ws[|ws| - 1]];
    }
  }

  /**
   * Applying the writes never shrinks the array, leaves every element no
   * write names as it was, and makes the array long enough for every index
   * written.
   */
  lemma {:induction false} ApplyWritesGrowOnly(host: Host, inner: FieldType, items: seq<Value>, ws: seq<Write>)
    ensures |ApplyWrites(host, inner, items, ws)| >= |items|
    ensures forall k :: 0 <= k < |ws| ==> ws[k].index < |ApplyWrites(host, inner, items, ws)|
    ensures forall p :: 0 <= p < |items| && (forall k :: 0 <= k < |ws| ==> ws[k].index != p) ==> ApplyWrites(host, inner, items, ws)[p] == items[p]
    decreases |ws|
  {
    if ws != [] {
      var init := ws[..|ws| - 1];
      var w := ws[|ws| - 1];
      ApplyWritesGrowOnly(host, inner, items, init);
      var before := ApplyWrites(host, inner, items, init);
      var after := ApplyWrite(host, inner, before, w);
      forall k | 0 <= k < |ws| ensures ws[k].index < |after| {
        if k < |init| { assert ws[k] == init[k]; }
      }
      forall p | 0 <= p < |items| && (forall k :: 0 <= k < |ws| ==> ws[k].index != p)
        ensures after[p] == items[p]
      {
        forall k | 0 <= k < |init| ensures init[k].index != p { assert init[k] == ws[k]; }
        ApplyWriteElsewhere(host, inner, before, w, p);
      }
    }
  }

  /** One write leaves every other existing element as it was. */
  lemma ApplyWriteElsewhere(host: Host, inner: FieldType, items: seq<Value>, w: Write, p: nat)
    requires p < |items| && w.index != p
    ensures ApplyWrite(host, inner, items, w)[p] == items[p]
  {
    if w.index >= |items| {
      assert Resize(items, w.index + 1, Default(inner))[p] == items[p];
    }
  }

  /** The last write to an index in ascending order decides that element (written from the element's value before it). */
  lemma LastWriteLands(host: Host, inner: FieldType, items: seq<Value>, ws: seq<Write>)
    requires ws != []
    ensures var w := ws[|ws| - 1]; var before := ApplyWrites(host, inner, items, ws[..|ws| - 1]);
      ApplyWrites(host, inner, items, ws)[w.index]
        == FromText(host, inner, if w.index < |before| then before[w.index] else Default(inner), w.text).value
  {
    var w := ws[|ws| - 1];
    var before := ApplyWrites(host, inner, items, ws[..|ws| - 1]);
    if w.index >= |before| {
      assert Resize(before, w.index + 1, Default(inner))[w.index] == Default(inner);
    }
  }

  function KeysOf(entries: seq<Entry>): (r: seq<Value>)
    ensures |r| == |entries|
  {
    seq(|entries|, i requires 0 <= i < |entries| => entries[i].key)
  }

  /** The TMap's invariant: no key twice. */
  predicate DistinctKeys(entries: seq<Entry>)
  {
    forall i, j :: 0 <= i < j < |entries| ==> entries[i].key != entries[j].key
  }

  /**
   * The primitive map write: an existing key is updated in place, a new key
   * is appended, no other entry changes, the keys stay distinct, and the
   * key ends up with the value StringToProperty reads from the cell.
   */
  lemma UpsertUpdatesOrInserts(host: Host, vt: FieldType, entries: seq<Entry>, key: Value, text: string)
    requires DistinctKeys(entries)
    ensures var r := Upsert(host, vt, entries, key, text);
      && DistinctKeys(r)
      && KeysOf(r) == (if key in KeysOf(entries) then KeysOf(entries) else KeysOf(entries) + [key])
      && (forall j :: 0 <= j < |entries| && entries[j].key != key ==> r[j] == entries[j])
      && ValueAt(r, key, Default(vt)) == FromText(host, vt, ValueAt(entries, key, Default(vt)), text).value
  {
    var r := Upsert(host, vt, entries, key, text);
    var slot := FindOrAdd(entries, key, Default(vt));
    var v := FromText(host, vt, slot.entries[slot.pos].value, text).value;
    match FindKey(entries, key)
    case Some(j) =>
      assert key in KeysOf(entries) by { assert KeysOf(entries)[j] == key; }
      assert KeysOf(r) == KeysOf(entries);
      assert DistinctKeys(r);
      assert FindKey(r, key) == Some(j) by { assert r[j].key == key; }
    case None =>
      assert key !in KeysOf(entries);
      assert KeysOf(r) == KeysOf(entries) + [key];
      assert DistinctKeys(r);
      assert FindKey(r, key) == Some(|entries|) by { assert r[|entries|].key == key; }
  }

  /** Over a whole row: the primitive map keeps its keys at their positions, and keeps them distinct. */
  lemma {:induction false} MapWritesKeepKeys(host: Host, k: FieldType, vt: FieldType, entries: seq<Entry>, row: Cols, names: seq<string>, full: string)
    requires DistinctKeys(entries)
    ensures var r := MapWrites(host, k, vt, entries, row, names, full);
      DistinctKeys(r) && forall j :: 0 <= j < |entries| ==> r[j].key == entries[j].key
    decreases |names|
  {
    if names != [] {
      var init := names[..|names| - 1];
      MapWritesKeepKeys(host, k, vt, entries, row, init, full);
      var before := MapWrites(host, k, vt, entries, row, init, full);
      match MapKeyCell(host, k, row, names[|names| - 1], full)
      case None =>
      case Some(kc) =>
        UpsertUpdatesOrInserts(host, vt, before, kc.0, kc.1);
        var after := Upsert(host, vt, before, kc.0, kc.1);
        forall j | 0 <= j < |before|
          ensures after[j].key == before[j].key
        {
          assert KeysOf(after)[j] == KeysOf(before)[j];
        }
    }
  }

  /** Only column names longer than the expand prefix can name an element. */
  lemma {:induction false} MapWritesNeedRoom(host: Host, k: FieldType, vt: FieldType, entries: seq<Entry>, row: Cols, names: seq<string>, full: string)
    requires MaxLen(names) <= |full|
    ensures MapWrites(host, k, vt, entries, row, names, full) == entries
    decreases |names|
  {
    if names != [] {
      var init := names[..|names| - 1];
      assert MaxLen(init) <= MaxLen(names);
      MapWritesNeedRoom(host, k, vt, entries, row, init, full);
      assert |names[|names| - 1]| <= |full|;
    }
  }

  /**
   * When no column name is longer than "<full>", importing an array under
   * it discovers nothing and leaves the array as it is; the struct walk
   * skips the call in that case, which is what bounds its recursion.
   */
  lemma NoRoomArrayUnchanged(ctx: Ctx, s: St, inner: FieldType, x: Value, full: string)
    requires Consistent(ctx.schema) && Room(ctx.row, full) == 0
    ensures ImportArray(ctx, s, inner, x, full) == Out(s, ArrayV(ItemsOf(x)))
  {
    assert ElementIndices(ctx.row.order, full) == [];
    assert Writes(ctx.row, ctx.row.order, full) == [];
  }

  lemma NoRoomMapUnchanged(ctx: Ctx, s: St, k: FieldType, vt: FieldType, x: Value, full: string)
    requires Consistent(ctx.schema) && Room(ctx.row, full) == 0
    ensures ImportMap(ctx, s, k, vt, x, full) == Out(s, MapV(EntriesOf(x)))
  {
    assert ElementKeys(ctx.row.order, full) == [];
    MapWritesNeedRoom(ctx.host, k, vt, EntriesOf(x), ctx.row, ctx.row.order, full);
  }

  /** Every object other than `o` is as it was. */
  predicate OnlyTouches(s: St, t: St, o: ObjId)
  {
    forall q :: q in s.heap && q != o ==> q in t.heap && t.heap[q] == s.heap[q]
  }

  /**
   * Under the RootOnly scope nothing is expanded: importing an object writes
   * its CsvColumn leaves and changes no other object.
   */
  lemma RootOnlyObjectField(ctx: Ctx, s: St, o: ObjId, f: Field, prefix: string)
    requires Consistent(ctx.schema) && o in s.heap && ctx.scope == RootOnly
    ensures ObjectField(ctx, s, o, f, prefix) == ObjectLeaf(ctx, s, o, f, prefix)
    ensures OnlyTouches(s, ObjectField(ctx, s, o, f, prefix), o)
  {
  }

  lemma {:induction false} RootOnlyObjectFields(ctx: Ctx, s: St, o: ObjId, cls: ClassId, i: nat, prefix: string)
    requires Consistent(ctx.schema) && o in s.heap && cls in ctx.schema.classes && i <= |ctx.schema.classes[cls].fields|
    requires ctx.scope == RootOnly
    ensures OnlyTouches(s, ObjectFields(ctx, s, o, cls, i, prefix), o)
    ensures ObjectFields(ctx, s, o, cls, i, prefix).visited == s.visited
    decreases |ctx.schema.classes[cls].fields| - i
  {
    if i < |ctx.schema.classes[cls].fields| {
      var f := ctx.schema.classes[cls].fields[i];
      RootOnlyObjectField(ctx, s, o, f, prefix);
      RootOnlyObjectFields(ctx, ObjectField(ctx, s, o, f, prefix), o, cls, i + 1, prefix);
    }
  }

  lemma {:induction false} RootOnlyImport(ctx: Ctx, s: St, o: ObjId, cls: ClassId, prefix: string)
    requires Consistent(ctx.schema) && o in s.heap && ctx.scope == RootOnly
    ensures OnlyTouches(s, ImportObject(ctx, s, o, cls, prefix), o)
    ensures ImportObject(ctx, s, o, cls, prefix).visited <= s.visited + {o}
    decreases Pending(s)
  {
    if cls in ctx.schema.classes && o !in s.visited {
      var s1 := St(s.heap, s.visited + {o});
      RootOnlyObjectFields(ctx, s1, o, cls, 0, prefix);
      var own := ObjectFields(ctx, s1, o, cls, 0, prefix);
      var d := ctx.schema.classes[cls];
      if d.super.Some? {
        RootOnlyImport(ctx, own, o, d.super.value, prefix);
      }
    }
  }

  /** The cycle guard: an object already in Visited is left as it is, and so is the Visited set. */
  lemma VisitedObjectUnchanged(ctx: Ctx, s: St, o: ObjId, cls: ClassId, prefix: string)
    requires Consistent(ctx.schema) && o in s.heap && o in s.visited
    ensures ImportObject(ctx, s, o, cls, prefix) == s
  {
  }

  /**
   * The superclass step re-enters the same object, which the walk has just
   * marked visited, so only the properties declared on `cls` itself are
   * imported.
   */
  lemma SuperclassFieldsNotImported(ctx: Ctx, s: St, o: ObjId, cls: ClassId, prefix: string)
    requires Consistent(ctx.schema) && o in s.heap && o !in s.visited && cls in ctx.schema.classes
    ensures ImportObject(ctx, s, o, cls, prefix) == ObjectFields(ctx, St(s.heap, s.visited + {o}), o, cls, 0, prefix)
  {
    var own := ObjectFields(ctx, St(s.heap, s.visited + {o}), o, cls, 0, prefix);
    assert o in own.visited;
  }

  /**
   * A CsvColumn property whose column is in the row is written with the value
   * StringToProperty reads from its cell, whether or not the scope lets
   * expansion run, as long as the property is not itself expanded.
   */
  lemma CsvColumnLeafWritten(ctx: Ctx, s: St, o: ObjId, f: Field, prefix: string)
    requires Consistent(ctx.schema) && o in s.heap
    requires f.column.Some? && LeafColumnName(prefix, f) in ctx.row.values
    requires ctx.scope == RootOnly || !f.expand
    ensures var r := ObjectField(ctx, s, o, f, prefix);
      o in r.heap && f.name in r.heap[o].fields &&
      r.heap[o].fields[f.name] == FromText(ctx.host, f.ty, Get(s.heap[o].fields, f), ctx.row.values[LeafColumnName(prefix, f)]).value
    ensures OnlyTouches(s, ObjectField(ctx, s, o, f, prefix), o)
  {
  }

  /** A property whose column is absent from the row, and which is not expanded, keeps its value. */
  lemma MissingColumnSkipped(ctx: Ctx, s: St, o: ObjId, f: Field, prefix: string)
    requires Consistent(ctx.schema) && o in s.heap
    requires LeafColumnName(prefix, f) !in ctx.row.values
    requires ctx.scope == RootOnly || !f.expand
    ensures ObjectField(ctx, s, o, f, prefix) == s
  {
  }

  /**
   * The leaf rules of a class and of a struct differ for a property with
   * neither CsvColumn nor CsvExpand: on an object it is not imported, in a
   * struct its column is read.
   */
  lemma PlainFieldLeafRules(ctx: Ctx, s: St, o: ObjId, v: Value, f: Field, prefix: string)
    requires Consistent(ctx.schema) && o in s.heap
    requires f.column.None? && !f.expand && LeafColumnName(prefix, f) in ctx.row.values
    ensures ObjectField(ctx, s, o, f, prefix) == s
    ensures StructLeaf(ctx, v, f, prefix) == SetField(v, f, FromText(ctx.host, f.ty, StructField(v, f), ctx.row.values[LeafColumnName(prefix, f)]).value)
  {
  }

  /** Under RootOnly a struct import changes only the struct value: no object is entered or written. */
  lemma {:induction false} RootOnlyStructKeepsObjects(ctx: Ctx, s: St, v: Value, st: StructId, prefix: string)
    requires Consistent(ctx.schema) && ctx.scope == RootOnly
    ensures ImportStruct(ctx, s, v, st, prefix).st == s
    decreases st
  {
    if st in ctx.schema.structs {
      var own := StructFields(ctx, s, v, st, 0, prefix);
      RootOnlyStructFieldsKeepObjects(ctx, s, v, st, 0, prefix);
      var d := ctx.schema.structs[st];
      if d.super.Some? {
        assert StructWellFormed(ctx.schema, st);
        RootOnlyStructKeepsObjects(ctx, own.st, own.value, d.super.value, prefix);
      }
    }
  }

  lemma {:induction false} RootOnlyStructFieldsKeepObjects(ctx: Ctx, s: St, v: Value, st: StructId, i: nat, prefix: string)
    requires Consistent(ctx.schema) && ctx.scope == RootOnly
    requires st in ctx.schema.structs && i <= |ctx.schema.structs[st].fields|
    ensures StructFields(ctx, s, v, st, i, prefix).st == s
    decreases |ctx.schema.structs[st].fields| - i
  {
    if i < |ctx.schema.structs[st].fields| {
      var m := StructMember(ctx, s, v, st, i, prefix);
      var leaf := StructLeaf(ctx, v, ctx.schema.structs[st].fields[i], prefix);
      assert m == StructExpand(ctx, s, leaf, st, i, prefix);
      assert StructExpand(ctx, s, leaf, st, i, prefix) == Out(s, leaf);
      RootOnlyStructFieldsKeepObjects(ctx, s, m.value, st, i + 1, prefix);
    }
  }

  // ---------------------------------------------------------------------
  // The source's loops
  // ---------------------------------------------------------------------

  /** The index discovery loop: the TSet of indices and MaxIndex. */
  method CollectIndices(names: seq<string>, full: string) returns (indices: seq<nat>, maxIndex: int)
    ensures indices == ElementIndices(names, full) && maxIndex == MaxOf(indices)
  {
    indices := [];
    maxIndex := -1;
    for k := 0 to |names|
      invariant indices == ElementIndices(names[..k], full) && maxIndex == MaxOf(indices)
    {
      assert names[..k + 1][..k] == names[..k];
      match ElementIndex(names[k], full)
      case Some(n) =>
        if n !in indices {
          assert (indices + [n])[..|indices|] == indices;
          indices := indices + [n];
        }
        maxIndex := if n > maxIndex then n else maxIndex;
      case None =>
    }
    assert names[..|names|] == names;
  }

  /** The key discovery loop: the TSet of key texts. */
  method CollectKeys(names: seq<string>, full: string) returns (keys: seq<string>)
    ensures keys == ElementKeys(names, full)
  {
    keys := [];
    for k := 0 to |names|
      invariant keys == ElementKeys(names[..k], full)
    {
      assert names[..k + 1][..k] == names[..k];
      match ElementKey(names[k], full)
      case Some(key) =>
        if key !in keys {
          keys := keys + [key];
        }
      case None =>
    }
    assert names[..|names|] == names;
  }

  /** The loop that gathers the Writes array of a primitive array. */
  method CollectWrites(row: Cols, full: string) returns (ws: seq<Write>)
    ensures ws == Writes(row, row.order, full)
  {
    ws := [];
    for k := 0 to |row.order|
      invariant ws == Writes(row, row.order[..k], full)
    {
      assert row.order[..k + 1][..k] == row.order[..k];
      var name := row.order[k];
      match WriteIndex(name, full)
      case Some(n) =>
        if name in row.values {
          ws := ws + [Write(n, row.values[name])];
        }
      case None =>
    }
    assert row.order[..|row.order|] == row.order;
  }

  /** The write loop of a primitive array: each write grows the array to reach its index, then sets the element. */
  method ApplyPrimitiveWrites(host: Host, inner: FieldType, items: seq<Value>, ws: seq<Write>) returns (r: seq<Value>)
    ensures r == ApplyWrites(host, inner, items, ws)
  {
    r := items;
    for j := 0 to |ws|
      invariant r == ApplyWrites(host, inner, items, ws[..j])
    {
      assert ws[..j + 1][..j] == ws[..j];
      r := ApplyPrimitiveWrite(host, inner, r, ws[j]);
    }
    assert ws[..|ws|] == ws;
  }

  /** One write: Helper.Resize when the index is past the end, then StringToProperty on the element. */
  method ApplyPrimitiveWrite(host: Host, inner: FieldType, items: seq<Value>, w: Write) returns (r: seq<Value>)
    ensures r == ApplyWrite(host, inner, items, w)
  {
    r := items;
    if w.index >= |r| {
      r := Resize(r, w.index + 1, Default(inner));
    }
    r := r[w.index := FromText(host, inner, r[w.index], w.text).value];
  }

  /** One pair of the primitive map loop; `inserted` when its key was new. */
  method ApplyMapPair(host: Host, k: FieldType, vt: FieldType, entries: seq<Entry>, row: Cols, name: string, full: string)
    returns (r: seq<Entry>, inserted: bool)
    ensures r == MapWrite(host, k, vt, entries, row, name, full)
    ensures inserted <==> |r| > |entries|
  {
    r := entries;
    inserted := false;
    if !(full <= name) || |name| == |full| || name !in row.values {
      return;
    }
    var parsed := FromText(host, k, Default(k), name[|full|..]);
    if !parsed.ok {
      return;
    }
    match FindKey(entries, parsed.value)
    case Some(p) =>
      r := entries[p := Entry(parsed.value, FromText(host, vt, entries[p].value, row.values[name]).value)];
    case None =>
      var added := entries + [Entry(parsed.value, Default(vt))];
      r := added[|entries| := Entry(parsed.value, FromText(host, vt, Default(vt), row.values[name]).value)];
      inserted := true;
  }

  /** The primitive map loop: `needsRehash` exactly when some key was inserted. */
  method ApplyMapPairs(host: Host, k: FieldType, vt: FieldType, entries: seq<Entry>, row: Cols, full: string)
    returns (r: seq<Entry>, needsRehash: bool)
    ensures r == MapWrites(host, k, vt, entries, row, row.order, full)
    ensures needsRehash <==> |r| > |entries|
  {
    r := entries;
    needsRehash := false;
    for j := 0 to |row.order|
      invariant r == MapWrites(host, k, vt, entries, row, row.order[..j], full)
      invariant needsRehash <==> |r| > |entries|
    {
      assert row.order[..j + 1][..j] == row.order[..j];
      var inserted;
      r, inserted := ApplyMapPair(host, k, vt, r, row, row.order[j], full);
      needsRehash := needsRehash || inserted;
    }
    assert row.order[..|row.order|] == row.order;
  }

  /** The objects being imported into, and the Visited set of one import. */
  class Importer {
    var heap: Heap
    var visited: set<ObjId>

    function State(): St
      reads this
    {
      St(heap, visited)
    }

    constructor (objects: Heap)
      ensures State() == St(objects, {})
    {
      heap := objects;
      visited := {};
    }

    /**
     * ApplyCSVRowToObject: the row is built from the headers and values
     * (a repeated header keeps its last value) and imported into `target`
     * as `cls` with a fresh Visited set, provided the target exists, the
     * class is exportable and the counts agree.
     */
    method ApplyCsvRowToObject(schema: Schema, host: Host, scope: Scope, target: Option<ObjId>, cls: ClassId, headers: seq<string>, values: seq<string>)
      returns (ok: bool)
      requires Consistent(schema)
      modifies this
      ensures ok <==> target.Some? && target.value in old(heap) && CanExportClass(schema, cls) && |headers| == |values|
      ensures !ok ==> heap == old(heap)
      ensures ok ==> heap == ImportObject(Ctx(schema, host, scope, Row(headers, values)), St(old(heap), {}), target.value, cls, "").heap
    {
      if target.None? || target.value !in heap || !CanExportClass(schema, cls) || |headers| != |values| {
        return false;
      }
      var row := Row(headers, values);
      visited := {};
      ApplyColumnsToObject(Ctx(schema, host, scope, row), target.value, cls, "");
      return true;
    }

    method ApplyColumnsToObject(ctx: Ctx, o: ObjId, cls: ClassId, prefix: string)
      requires Consistent(ctx.schema) && o in heap
      modifies this
      ensures State() == ImportObject(ctx, old(State()), o, cls, prefix)
      decreases Pending(State()), 0
    {
      if cls !in ctx.schema.classes || o in visited {
        return;
      }
      visited := visited + {o};
      ghost var s1 := State();
      var i := 0;
      while i < |ctx.schema.classes[cls].fields|
        invariant 0 <= i <= |ctx.schema.classes[cls].fields| && Grows(s1, State())
        invariant ObjectFields(ctx, State(), o, cls, i, prefix) == ObjectFields(ctx, s1, o, cls, 0, prefix)
      {
        ApplyObjectProperty(ctx, o, ctx.schema.classes[cls].fields[i], prefix);
        i := i + 1;
      }
      var d := ctx.schema.classes[cls];
      if d.super.Some? {
        ApplyColumnsToObject(ctx, o, d.super.value, prefix);
      }
    }

    /** One iteration of the property loop: the CsvColumn leaf, then the expansion. */
    method ApplyObjectProperty(ctx: Ctx, o: ObjId, f: Field, prefix: string)
      requires Consistent(ctx.schema) && o in heap
      modifies this
      ensures State() == ObjectField(ctx, old(State()), o, f, prefix)
      decreases Pending(State()), 3
    {
      var name := LeafColumnName(prefix, f);
      if f.column.Some? && name in ctx.row.values {
        var v := FromText(ctx.host, f.ty, Get(heap[o].fields, f), ctx.row.values[name]).value;
        heap := heap[o := Obj(heap[o].cls, heap[o].fields[f.name := v])];
      }
      ApplyObjectExpand(ctx, o, f, prefix);
    }

    method ApplyObjectExpand(ctx: Ctx, o: ObjId, f: Field, prefix: string)
      requires Consistent(ctx.schema) && o in heap
      modifies this
      ensures State() == ObjectExpand(ctx, old(State()), o, f, prefix)
      decreases Pending(State()), 2
    {
      if ctx.scope != RootAndExpanded || !f.expand || f.ty.SetOf? {
        return;
      }
      var full := prefix + ExpandPrefix(f);
      var x := Get(heap[o].fields, f);
      if f.ty.ArrayOf? {
        var v := ImportArrayProperty(ctx, f.ty.inner, x, full);
        heap := heap[o := Obj(heap[o].cls, heap[o].fields[f.name := v])];
      } else if f.ty.MapOf? {
        var v := ImportMapProperty(ctx, f.ty.key, f.ty.value, x, full);
        heap := heap[o := Obj(heap[o].cls, heap[o].fields[f.name := v])];
      } else {
        match Resolve(heap, f.ty, x)
        case Some(t) =>
          if CanExportClass(ctx.schema, heap[t].cls) {
            ApplyColumnsToObject(ctx, t, heap[t].cls, full);
          }
        case None =>
      }
    }

    /** An expanded array: discovery, growth, then the elements. */
    method ImportArrayProperty(ctx: Ctx, inner: FieldType, x: Value, full: string) returns (v: Value)
      requires Consistent(ctx.schema)
      modifies this
      ensures Out(State(), v) == ImportArray(ctx, old(State()), inner, x, full)
      decreases Pending(State()), 1, Room(ctx.row, full), 2
    {
      if inner.StructOf? || inner.ObjectOf? {
        v := ImportElementArray(ctx, inner, x, full);
      } else {
        var ws := CollectWrites(ctx.row, full);
        var r := ApplyPrimitiveWrites(ctx.host, inner, ItemsOf(x), SortWrites(ws));
        v := ArrayV(r);
      }
    }

    /** An array of structs or objects: grow to the largest discovered index, then import each discovered element. */
    method ImportElementArray(ctx: Ctx, inner: FieldType, x: Value, full: string) returns (v: Value)
      requires Consistent(ctx.schema) && (inner.StructOf? || inner.ObjectOf?)
      modifies this
      ensures Out(State(), v) == ImportArray(ctx, old(State()), inner, x, full)
      decreases Pending(State()), 1, Room(ctx.row, full), 2, 0
    {
      var items := ItemsOf(x);
      var indices, maxIndex := CollectIndices(ctx.row.order, full);
      if maxIndex >= 0 && maxIndex >= |items| {
        items := Resize(items, maxIndex + 1, Default(inner));
      }
      assert items == GrowTo(ItemsOf(x), indices, Default(inner));
      if inner.StructOf? {
        v := ImportStructElements(ctx, inner.st, items, indices, full);
      } else {
        ImportObjectElements(ctx, inner, items, indices, full);
        v := ArrayV(items);
      }
    }

    method ImportStructElements(ctx: Ctx, st: StructId, items: seq<Value>, indices: seq<nat>, full: string) returns (v: Value)
      requires Consistent(ctx.schema)
      requires indices != [] ==> MaxLen(ctx.row.order) >= |full| + 2
      modifies this
      ensures Out(State(), v) == ArrayStructs(ctx, old(State()), st, items, indices, 0, full)
      decreases Pending(State()), 1, Room(ctx.row, full), 1, 1
    {
      ghost var s0 := State();
      var current := items;
      var j := 0;
      while j < |indices|
        invariant 0 <= j <= |indices| && Grows(s0, State())
        invariant ArrayStructs(ctx, State(), st, current, indices, j, full) == ArrayStructs(ctx, s0, st, items, indices, 0, full)
      {
        current := ImportStructElement(ctx, st, current, indices, j, full);
        j := j + 1;
      }
      v := ArrayV(current);
    }

    /** One iteration of the struct element loop. */
    method ImportStructElement(ctx: Ctx, st: StructId, items: seq<Value>, indices: seq<nat>, j: nat, full: string) returns (next: seq<Value>)
      requires Consistent(ctx.schema) && j < |indices|
      requires MaxLen(ctx.row.order) >= |full| + 2
      modifies this
      ensures ArrayStructs(ctx, State(), st, next, indices, j + 1, full) == ArrayStructs(ctx, old(State()), st, items, indices, j, full)
      ensures Grows(old(State()), State())
      decreases Pending(State()), 1, Room(ctx.row, full), 1, 0
    {
      next := items;
      if indices[j] >= |items| {
        return;
      }
      var e := ApplyColumnsToStruct(ctx, items[indices[j]], st, full + IntToString(indices[j]) + "_");
      next := items[indices[j] := e];
    }

    method ImportObjectElements(ctx: Ctx, inner: FieldType, items: seq<Value>, indices: seq<nat>, full: string)
      requires Consistent(ctx.schema)
      modifies this
      ensures State() == ArrayObjects(ctx, old(State()), inner, items, indices, 0, full)
      decreases Pending(State()), 1, Room(ctx.row, full), 1, 1
    {
      ghost var s0 := State();
      var j := 0;
      while j < |indices|
        invariant 0 <= j <= |indices| && Grows(s0, State())
        invariant ArrayObjects(ctx, State(), inner, items, indices, j, full) == ArrayObjects(ctx, s0, inner, items, indices, 0, full)
      {
        ImportObjectElement(ctx, inner, items, indices, j, full);
        j := j + 1;
      }
    }

    /** One iteration of the object element loop. */
    method ImportObjectElement(ctx: Ctx, inner: FieldType, items: seq<Value>, indices: seq<nat>, j: nat, full: string)
      requires Consistent(ctx.schema) && j < |indices|
      modifies this
      ensures ArrayObjects(ctx, State(), inner, items, indices, j + 1, full) == ArrayObjects(ctx, old(State()), inner, items, indices, j, full)
      ensures Grows(old(State()), State())
      decreases Pending(State()), 1, Room(ctx.row, full), 1, 0
    {
      if indices[j] >= |items| {
        return;
      }
      match Resolve(heap, inner, items[indices[j]])
      case Some(t) =>
        if CanExportClass(ctx.schema, heap[t].cls) {
          ApplyColumnsToObject(ctx, t, heap[t].cls, full + IntToString(indices[j]) + "_");
        }
      case None =>
    }

    /** An expanded map: discovery, then the values; the primitive loop reports whether it inserted. */
    method ImportMapProperty(ctx: Ctx, k: FieldType, vt: FieldType, x: Value, full: string) returns (v: Value)
      requires Consistent(ctx.schema)
      modifies this
      ensures Out(State(), v) == ImportMap(ctx, old(State()), k, vt, x, full)
      decreases Pending(State()), 1, Room(ctx.row, full), 2
    {
      var entries := EntriesOf(x);
      if vt.StructOf? || vt.ObjectOf? {
        var keys := CollectKeys(ctx.row.order, full);
        var r, needsRehash;
        if vt.StructOf? {
          r, needsRehash := ImportStructValues(ctx, k, vt.st, entries, keys, full);
        } else {
          r, needsRehash := ImportObjectValues(ctx, k, vt, entries, keys, full);
        }
        v := MapV(r);
      } else {
        var r, needsRehash := ApplyMapPairs(ctx.host, k, vt, entries, ctx.row, full);
        v := MapV(r);
      }
    }

    method ImportStructValues(ctx: Ctx, k: FieldType, st: StructId, entries: seq<Entry>, keys: seq<string>, full: string)
      returns (r: seq<Entry>, needsRehash: bool)
      requires Consistent(ctx.schema)
      requires KeysNamed(ctx.row.order, keys, full)
      modifies this
      ensures Out(State(), MapV(r)) == MapStructs(ctx, old(State()), k, st, entries, keys, 0, full)
      ensures needsRehash <==> |r| > |entries|
      decreases Pending(State()), 1, Room(ctx.row, full), 1, 2
    {
      ghost var target := MapStructs(ctx, State(), k, st, entries, keys, 0, full);
      r, needsRehash := ImportStructValuesLoop(ctx, k, st, entries, keys, full, target);
    }

    /** The struct value loop over every discovered key, in discovery order. */
    method ImportStructValuesLoop(ctx: Ctx, k: FieldType, st: StructId, entries: seq<Entry>, keys: seq<string>, full: string, ghost target: Out)
      returns (r: seq<Entry>, needsRehash: bool)
      requires Consistent(ctx.schema)
      requires KeysNamed(ctx.row.order, keys, full)
      requires StructsLoop(ctx, State(), k, st, entries, keys, 0, full, target)
      modifies this
      ensures StructsLoop(ctx, State(), k, st, r, keys, |keys|, full, target)
      ensures needsRehash <==> |r| > |entries|
      decreases Pending(State()), 1, Room(ctx.row, full), 1, 1
    {
      ghost var s0 := State();
      r := entries;
      needsRehash := false;
      var j := 0;
      while j < |keys|
        invariant 0 <= j <= |keys| && Grows(s0, State())
        invariant StructsLoop(ctx, State(), k, st, r, keys, j, full, target)
        invariant |r| >= |entries| && (needsRehash <==> |r| > |entries|)
      {
        var inserted;
        r, inserted := ImportStructValue(ctx, k, st, r, keys, j, full, target);
        needsRehash := needsRehash || inserted;
        j := j + 1;
      }
    }

    /** One key of the struct value loop: find or add the key, then import its value. */
    method ImportStructValue(ctx: Ctx, k: FieldType, st: StructId, entries: seq<Entry>, keys: seq<string>, j: nat, full: string, ghost target: Out)
      returns (next: seq<Entry>, inserted: bool)
      requires Consistent(ctx.schema) && j < |keys|
      requires KeysNamed(ctx.row.order, keys, full)
      requires StructsLoop(ctx, State(), k, st, entries, keys, j, full, target)
      modifies this
      ensures StructsLoop(ctx, State(), k, st, next, keys, j + 1, full, target)
      ensures Grows(old(State()), State())
      ensures |next| >= |entries| && (inserted <==> |next| > |entries|)
      decreases Pending(State()), 1, Room(ctx.row, full), 1, 0
    {
      next := entries;
      inserted := false;
      var parsed := FromText(ctx.host, k, Default(k), keys[j]);
      if !parsed.ok {
        return;
      }
      var slot := FindOrAdd(entries, parsed.value, Default(StructOf(st)));
      inserted := |slot.entries| > |entries|;
      var e := ApplyColumnsToStruct(ctx, slot.entries[slot.pos].value, st, full + keys[j] + "_");
      next := slot.entries[slot.pos := Entry(parsed.value, e)];
    }

    method ImportObjectValues(ctx: Ctx, k: FieldType, vt: FieldType, entries: seq<Entry>, keys: seq<string>, full: string)
      returns (r: seq<Entry>, needsRehash: bool)
      requires Consistent(ctx.schema)
      modifies this
      ensures Out(State(), MapV(r)) == MapObjects(ctx, old(State()), k, vt, entries, keys, 0, full)
      ensures needsRehash <==> |r| > |entries|
      decreases Pending(State()), 1, Room(ctx.row, full), 1, 1
    {
      ghost var s0 := State();
      r := entries;
      needsRehash := false;
      var j := 0;
      while j < |keys|
        invariant 0 <= j <= |keys| && Grows(s0, State())
        invariant MapObjects(ctx, State(), k, vt, r, keys, j, full) == MapObjects(ctx, s0, k, vt, entries, keys, 0, full)
        invariant |r| >= |entries| && (needsRehash <==> |r| > |entries|)
      {
        var inserted;
        r, inserted := ImportObjectValue(ctx, k, vt, r, keys, j, full);
        needsRehash := needsRehash || inserted;
        j := j + 1;
      }
    }

    /** One key of the object value loop: find or add the key, then enter the object its value references. */
    method ImportObjectValue(ctx: Ctx, k: FieldType, vt: FieldType, entries: seq<Entry>, keys: seq<string>, j: nat, full: string)
      returns (next: seq<Entry>, inserted: bool)
      requires Consistent(ctx.schema) && j < |keys|
      modifies this
      ensures MapObjects(ctx, State(), k, vt, next, keys, j + 1, full) == MapObjects(ctx, old(State()), k, vt, entries, keys, j, full)
      ensures Grows(old(State()), State())
      ensures |next| >= |entries| && (inserted <==> |next| > |entries|)
      decreases Pending(State()), 1, Room(ctx.row, full), 1, 0
    {
      next := entries;
      inserted := false;
      var parsed := FromText(ctx.host, k, Default(k), keys[j]);
      if !parsed.ok {
        return;
      }
      var slot := FindOrAdd(entries, parsed.value, Default(vt));
      next := slot.entries;
      inserted := |next| > |entries|;
      match Resolve(heap, vt, slot.entries[slot.pos].value)
      case Some(t) =>
        if CanExportClass(ctx.schema, heap[t].cls) {
          ApplyColumnsToObject(ctx, t, heap[t].cls, full + keys[j] + "_");
        }
      case None =>
    }

    method ApplyColumnsToStruct(ctx: Ctx, v: Value, st: StructId, prefix: string) returns (r: Value)
      requires Consistent(ctx.schema)
      modifies this
      ensures Out(State(), r) == ImportStruct(ctx, old(State()), v, st, prefix)
      decreases Pending(State()), 1, Room(ctx.row, prefix), st
    {
      if st !in ctx.schema.structs {
        return v;
      }
      ghost var s0 := State();
      var current := v;
      var i := 0;
      while i < |ctx.schema.structs[st].fields|
        invariant 0 <= i <= |ctx.schema.structs[st].fields| && Grows(s0, State())
        invariant StructFields(ctx, State(), current, st, i, prefix) == StructFields(ctx, s0, v, st, 0, prefix)
      {
        current := ApplyStructProperty(ctx, current, st, i, prefix);
        i := i + 1;
      }
      var d := ctx.schema.structs[st];
      if d.super.Some? {
        r := ApplyColumnsToStruct(ctx, current, d.super.value, prefix);
      } else {
        r := current;
      }
    }

    /** One iteration of the struct property loop: the leaf, then the expansion. */
    method ApplyStructProperty(ctx: Ctx, v: Value, st: StructId, i: nat, prefix: string) returns (r: Value)
      requires Consistent(ctx.schema) && st in ctx.schema.structs && i < |ctx.schema.structs[st].fields|
      modifies this
      ensures Out(State(), r) == StructMember(ctx, old(State()), v, st, i, prefix)
      decreases Pending(State()), 1, Room(ctx.row, prefix), st, |ctx.schema.structs[st].fields| - i, 1
    {
      var f := ctx.schema.structs[st].fields[i];
      var name := LeafColumnName(prefix, f);
      r := v;
      if (f.column.Some? || !f.expand) && name in ctx.row.values {
        r := SetField(v, f, FromText(ctx.host, f.ty, StructField(v, f), ctx.row.values[name]).value);
      }
      r := ApplyStructExpand(ctx, r, st, i, prefix);
    }

    method ApplyStructExpand(ctx: Ctx, v: Value, st: StructId, i: nat, prefix: string) returns (r: Value)
      requires Consistent(ctx.schema) && st in ctx.schema.structs && i < |ctx.schema.structs[st].fields|
      modifies this
      ensures Out(State(), r) == StructExpand(ctx, old(State()), v, st, i, prefix)
      decreases Pending(State()), 1, Room(ctx.row, prefix), st, |ctx.schema.structs[st].fields| - i, 0
    {
      var f := ctx.schema.structs[st].fields[i];
      r := v;
      if ctx.scope != RootAndExpanded || !f.expand || f.ty.SetOf? {
        return;
      }
      var full := prefix + ExpandPrefix(f);
      var x := StructField(v, f);
      if f.ty.StructOf? {
        assert StructWellFormed(ctx.schema, st);
        var e := ApplyColumnsToStruct(ctx, x, f.ty.st, full);
        r := SetField(v, f, e);
      } else if f.ty.ArrayOf? {
        if Room(ctx.row, full) == 0 {
          r := SetField(v, f, ArrayV(ItemsOf(x)));
        } else {
          var e := ImportArrayProperty(ctx, f.ty.inner, x, full);
          r := SetField(v, f, e);
        }
      } else if f.ty.MapOf? {
        if Room(ctx.row, full) == 0 {
          r := SetField(v, f, MapV(EntriesOf(x)));
        } else {
          var e := ImportMapProperty(ctx, f.ty.key, f.ty.value, x, full);
          r := SetField(v, f, e);
        }
      } else {
        match Resolve(heap, f.ty, x)
        case Some(t) =>
          if CanExportClass(ctx.schema, heap[t].cls) {
            ApplyColumnsToObject(ctx, t, heap[t].cls, full);
          }
        case None =>
      }
    }
  }
}
