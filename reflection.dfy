/**
 * The slice of Unreal reflection both CSV handlers walk, made explicit:
 * class and struct descriptors carrying the CsvExport / CsvColumn / CsvExpand /
 * CsvPrefix metadata, property values, a heap of objects, and the engine
 * services (float printing, ExportText/ImportText, JSON, path names, asset
 * loading) that the handlers call but do not define, passed in as a `Host`.
 */
module Reflection {
  import opened Strings

  type ClassId = nat
  type StructId = nat
  type ObjId = nat

  /** Property kinds the handlers treat one by one; `OtherLeaf` is everything left to ExportText/ImportText (enums, ...). */
  datatype LeafType = Int32Leaf | Int64Leaf | FloatLeaf | DoubleLeaf | BoolLeaf | StrLeaf | TextLeaf | NameLeaf | ByteLeaf | OtherLeaf

  /** The type of a property: FObjectProperty and FSoftObjectProperty are both `ObjectOf(declared class)`. */
  datatype FieldType =
    | LeafOf(leaf: LeafType)
    | ObjectOf(cls: ClassId)
    | StructOf(st: StructId)
    | ArrayOf(inner: FieldType)
    | SetOf(element: FieldType)
    | MapOf(key: FieldType, value: FieldType)

  /**
   * A property with its metadata. `column` is `Some(c)` when the property has
   * CsvColumn (with `c` possibly empty), `expand` is CsvExpand, and `prefix`
   * is `Some(p)` when it has CsvPrefix.
   */
  datatype Field = Field(name: string, ty: FieldType, column: Option<string>, expand: bool, prefix: Option<string>)

  /** A UClass: CsvExport, its own properties in declaration order, and its superclass. */
  datatype ClassDesc = ClassDesc(exportable: bool, fields: seq<Field>, super: Option<ClassId>)

  /** A UScriptStruct: its own properties and its super struct. */
  datatype StructDesc = StructDesc(fields: seq<Field>, super: Option<StructId>)

  datatype Schema = Schema(classes: map<ClassId, ClassDesc>, structs: map<StructId, StructDesc>)

  /**
   * The shape the engine guarantees: superclasses and super structs exist and
   * are numbered below their subtypes, and a struct holds other structs by
   * value only acyclically. Both AssetCsvSync walkers over live objects need
   * no more than this.
   */
  predicate Consistent(schema: Schema)
  {
    (forall c :: c in schema.classes ==> ClassConsistent(schema, c)) &&
    (forall s :: s in schema.structs ==> StructWellFormed(schema, s))
  }

  predicate ClassConsistent(schema: Schema, c: ClassId)
    requires c in schema.classes
  {
    var d := schema.classes[c];
    d.super.Some? ==> d.super.value < c && d.super.value in schema.classes
  }

  /**
   * In addition, the CsvExpand object edges between classes point to smaller
   * class ids, so they have no cycle. The AssetCsvSync schema walk, which has
   * no type stack, recurses without bound on such a cycle and needs this.
   */
  predicate WellFormed(schema: Schema)
  {
    Consistent(schema) && (forall c :: c in schema.classes ==> ExpandAcyclic(schema, c))
  }

  predicate ExpandAcyclic(schema: Schema, c: ClassId)
    requires c in schema.classes
  {
    var d := schema.classes[c];
    forall i :: 0 <= i < |d.fields| && d.fields[i].expand && d.fields[i].ty.ObjectOf? ==> d.fields[i].ty.cls < c
  }

  predicate StructWellFormed(schema: Schema, s: StructId)
    requires s in schema.structs
  {
    var d := schema.structs[s];
    (d.super.Some? ==> d.super.value < s && d.super.value in schema.structs) &&
    (forall i :: 0 <= i < |d.fields| && d.fields[i].ty.StructOf? ==> d.fields[i].ty.st < s)
  }

  /** CanExportClass: a known class marked CsvExport. */
  predicate CanExportClass(schema: Schema, c: ClassId)
  {
    c in schema.classes && schema.classes[c].exportable
  }

  /** GetObjectPropertyClass: the declared class of an object or soft object property. */
  function ObjectPropertyClass(ty: FieldType): (r: Option<ClassId>)
    ensures r.Some? <==> ty.ObjectOf?
  {
    if ty.ObjectOf? then Some(ty.cls) else None
  }

  predicate IsContainer(ty: FieldType)
  {
    ty.ArrayOf? || ty.SetOf? || ty.MapOf?
  }

  datatype Value =
    | IntV(i: int)                         // int32, int64 and uint8 properties
    | FloatV(r: real)                      // float and double properties
    | BoolV(b: bool)
    | StrV(s: string)                      // FString, FText and FName properties
    | RefV(target: Option<ObjId>)          // object and soft object references; None is null
    | StructV(fields: map<string, Value>)  // a struct value, by property name
    | ArrayV(items: seq<Value>)
    | SetV(elems: seq<Value>)              // a TSet, in iteration order
    | MapV(entries: seq<Entry>)            // a TMap, in iteration order
    | OpaqueV(text: string)                // a value only ExportText/ImportText understand

  datatype Entry = Entry(key: Value, value: Value)

  /** The value a freshly constructed property of type `ty` holds. */
  function Default(ty: FieldType): Value
  {
    match ty
    case LeafOf(l) =>
      (match l
       case Int32Leaf => IntV(0)
       case Int64Leaf => IntV(0)
       case ByteLeaf => IntV(0)
       case FloatLeaf => FloatV(0.0)
       case DoubleLeaf => FloatV(0.0)
       case BoolLeaf => BoolV(false)
       case StrLeaf => StrV("")
       case TextLeaf => StrV("")
       case NameLeaf => StrV("")
       case OtherLeaf => OpaqueV(""))
    case ObjectOf(_) => RefV(None)
    case StructOf(_) => StructV(map[])
    case ArrayOf(_) => ArrayV([])
    case SetOf(_) => SetV([])
    case MapOf(_, _) => MapV([])
  }

  /** The value of property `f` in a field map; a property never written holds its default. */
  function Get(fields: map<string, Value>, f: Field): Value
  {
    if f.name in fields then fields[f.name] else Default(f.ty)
  }

  /** The value of property `f` inside a struct value. */
  function StructField(v: Value, f: Field): Value
  {
    if v.StructV? then Get(v.fields, f) else Default(f.ty)
  }

  function ItemsOf(v: Value): seq<Value>
  {
    if v.ArrayV? then v.items else []
  }

  function EntriesOf(v: Value): seq<Entry>
  {
    if v.MapV? then v.entries else []
  }

  /** TArray::SetNum / FScriptArrayHelper::Resize: keep a prefix, pad with defaults. */
  function Resize(items: seq<Value>, n: nat, pad: Value): (r: seq<Value>)
    ensures |r| == n
    ensures forall i :: 0 <= i < n && i < |items| ==> r[i] == items[i]
    ensures forall i :: |items| <= i < n ==> r[i] == pad
  {
    if n <= |items| then items[..n] else items + seq(n - |items|, _ => pad)
  }

  /** A UObject: its dynamic class and the values of all its properties, superclass ones included. */
  datatype Obj = Obj(cls: ClassId, fields: map<string, Value>)

  type Heap = map<ObjId, Obj>

  /**
   * The object a reference property points to (loading soft references),
   * or None for null, for a reference to no live object, and for a property
   * that is not an object reference.
   */
  function Resolve(heap: Heap, ty: FieldType, v: Value): (r: Option<ObjId>)
    ensures r.Some? ==> r.value in heap && ty.ObjectOf? && v == RefV(r)
  {
    if ty.ObjectOf? && v.RefV? && v.target.Some? && v.target.value in heap then v.target else None
  }

  datatype JsonField = JsonField(key: string, value: Json)
  datatype Json = JsonNumber(n: real) | JsonBool(b: bool) | JsonString(s: string)

  /**
   * Engine services outside the handlers: "%f" printing and Atof/Atod, the
   * ExportTextItem/ImportText fallbacks (ImportText answers None when it
   * rejects the text), GetPathName and asset loading, and the JSON writer and
   * reader for map cells (the reader yields each member's key and its value
   * already turned back into text).
   */
  datatype Host = Host(
    formatFloat: real -> string,
    parseFloat: string -> real,
    exportText: (FieldType, Value) -> string,
    importText: (FieldType, string, Value) -> Option<Value>,
    pathName: ObjId -> string,
    loadObject: string -> Option<ObjId>,
    encodeJson: seq<JsonField> -> string,
    decodeJson: string -> Option<seq<(string, string)>>)

  /** The write-back scope setting of both plugins. */
  datatype Scope = RootOnly | RootAndExpanded

  /** A leaf column's name: the prefix, then the non-empty CsvColumn value or else the property name. */
  function LeafColumnName(prefix: string, f: Field): (name: string)
    ensures prefix <= name
    ensures f.column.Some? && f.column.value != [] ==> name == prefix + f.column.value
    ensures (f.column.None? || f.column.value == []) ==> name == prefix + f.name
  {
    prefix + (if f.column.Some? && f.column.value != [] then f.column.value else f.name)
  }

  /** The prefix an expanded property adds: its name and an underscore. */
  function ExpandPrefix(f: Field): string
  {
    f.name + "_"
  }
}
