/**
 * The SheetTable handler: the simpler, chain-based sibling of AssetCsvSync.
 * A class is flattened into a list of columns, each a name and the chain of
 * properties that leads from the root object to the value; expansion follows
 * object references only, and a stack of the classes being expanded stops
 * cycles. Export reads every column through its chain; import writes the
 * single-property columns first and the chained ones second.
 */
module SheetTable {
  import opened Strings
  import opened CsvCodec
  import opened Reflection
  import opened PropertyCodec
  import opened Columns

  /** FExportColumnInfo. */
  datatype ColumnInfo = ColumnInfo(name: string, chain: seq<Field>)

  // ---------------------------------------------------------------------
  // Building the columns
  // ---------------------------------------------------------------------

  /** The classes of the schema not on the ClassStack; the recursion's measure. */
  function Unstacked(schema: Schema, stack: seq<ClassId>): set<ClassId>
  {
    schema.classes.Keys - (set c | c in stack)
  }

  lemma PushShrinks(schema: Schema, stack: seq<ClassId>, cls: ClassId)
    requires cls in schema.classes && cls !in stack
    ensures Unstacked(schema, stack + [cls]) < Unstacked(schema, stack)
    ensures |Unstacked(schema, stack + [cls])| == |Unstacked(schema, stack)| - 1
  {
    assert (set c | c in stack + [cls]) == (set c | c in stack) + {cls};
    assert Unstacked(schema, stack + [cls]) == Unstacked(schema, stack) - {cls};
  }

  /** The prefix an expanded property adds: its non-empty CsvPrefix, or else its name and "_". */
  function ColumnPrefixOf(f: Field): (r: string)
    ensures f.prefix.Some? && f.prefix.value != [] ==> r == f.prefix.value
    ensures (f.prefix.None? || f.prefix.value == []) ==> r == ExpandPrefix(f)
  {
    if f.prefix.Some? && f.prefix.value != [] then f.prefix.value else ExpandPrefix(f)
  }

  /**
   * BuildColumnsForClass: nothing for a class already on the stack;
   * otherwise the class's own properties in order, then its superclass's
   * columns with the same chain and prefix, all with the class on the stack.
   */
  function BuildColumns(schema: Schema, cls: ClassId, stack: seq<ClassId>, chain: seq<Field>, prefix: string): seq<ColumnInfo>
    decreases Unstacked(schema, stack), 0
  {
    if cls in stack || cls !in schema.classes then []
    else
      PushShrinks(schema, stack, cls);
      var pushed := stack + [cls];
      var d := schema.classes[cls];
      FieldsColumns(schema, cls, 0, pushed, chain, prefix)
        + (if d.super.Some? then BuildColumns(schema, d.super.value, pushed, chain, prefix) else [])
  }

  function FieldsColumns(schema: Schema, cls: ClassId, i: nat, stack: seq<ClassId>, chain: seq<Field>, prefix: string): seq<ColumnInfo>
    requires cls in schema.classes && i <= |schema.classes[cls].fields|
    decreases Unstacked(schema, stack), 1, |schema.classes[cls].fields| - i
  {
    if i == |schema.classes[cls].fields| then []
    else FieldColumns(schema, schema.classes[cls].fields[i], stack, chain, prefix) + FieldsColumns(schema, cls, i + 1, stack, chain, prefix)
  }

  /**
   * One property: with CsvColumn, one column named prefix + (CsvColumn or
   * the property's name) whose chain is `chain` and the property; with
   * CsvExpand on an object property whose class is exportable, the columns
   * of that class under the property's prefix, with the property appended
   * to the chain.
   */
  function FieldColumns(schema: Schema, f: Field, stack: seq<ClassId>, chain: seq<Field>, prefix: string): (r: seq<ColumnInfo>)
    ensures f.column.None? && !f.expand ==> r == []
    ensures f.column.Some? ==> r != [] && r[0] == ColumnInfo(LeafColumnName(prefix, f), chain + [f])
    ensures !f.expand || !f.ty.ObjectOf? || !CanExportClass(schema, f.ty.cls) ==> |r| == if f.column.Some? then 1 else 0
    decreases Unstacked(schema, stack), 1, 0
  {
    var leaf := if f.column.Some? then [ColumnInfo(LeafColumnName(prefix, f), chain + [f])] else [];
    if f.expand then
      match ObjectPropertyClass(f.ty)
      case Some(inner) =>
        if CanExportClass(schema, inner) then leaf + BuildColumns(schema, inner, stack, chain + [f], prefix + ColumnPrefixOf(f))
        else leaf
      case None => leaf
    else leaf
  }

  /** GetExportablePropertiesRecursively: no columns for a null class, otherwise those of the class from an empty stack. */
  function ExportableColumns(schema: Schema, cls: Option<ClassId>): seq<ColumnInfo>
  {
    if cls.None? then [] else BuildColumns(schema, cls.value, [], [], "")
  }

  /**
   * The shape every built column has: its chain extends `chain` by at least
   * the property it reads, its name starts with `prefix`, and its chain is at
   * most one property longer per class not yet on the stack, which bounds
   * the depth of expansion by the number of classes.
   */
  predicate Shaped(c: ColumnInfo, chain: seq<Field>, prefix: string, room: nat)
  {
    |c.chain| > |chain| && c.chain[..|chain|] == chain && prefix <= c.name && |c.chain| <= |chain| + room
  }

  lemma {:induction false} BuildColumnsShaped(schema: Schema, cls: ClassId, stack: seq<ClassId>, chain: seq<Field>, prefix: string)
    ensures forall c :: c in BuildColumns(schema, cls, stack, chain, prefix) ==> Shaped(c, chain, prefix, |Unstacked(schema, stack)|)
    decreases Unstacked(schema, stack), 0
  {
    if cls !in stack && cls in schema.classes {
      PushShrinks(schema, stack, cls);
      var pushed := stack + [cls];
      var d := schema.classes[cls];
      FieldsColumnsShaped(schema, cls, 0, pushed, chain, prefix);
      if d.super.Some? {
        BuildColumnsShaped(schema, d.super.value, pushed, chain, prefix);
      }
    }
  }

  lemma {:induction false} FieldsColumnsShaped(schema: Schema, cls: ClassId, i: nat, stack: seq<ClassId>, chain: seq<Field>, prefix: string)
    requires cls in schema.classes && i <= |schema.classes[cls].fields|
    ensures forall c :: c in FieldsColumns(schema, cls, i, stack, chain, prefix) ==> Shaped(c, chain, prefix, |Unstacked(schema, stack)| + 1)
    decreases Unstacked(schema, stack), 1, |schema.classes[cls].fields| - i
  {
    if i < |schema.classes[cls].fields| {
      FieldColumnsShaped(schema, schema.classes[cls].fields[i], stack, chain, prefix);
      FieldsColumnsShaped(schema, cls, i + 1, stack, chain, prefix);
    }
  }

  lemma {:induction false} FieldColumnsShaped(schema: Schema, f: Field, stack: seq<ClassId>, chain: seq<Field>, prefix: string)
    ensures forall c :: c in FieldColumns(schema, f, stack, chain, prefix) ==> Shaped(c, chain, prefix, |Unstacked(schema, stack)| + 1)
    decreases Unstacked(schema, stack), 1, 0
  {
    var leaf := if f.column.Some? then [ColumnInfo(LeafColumnName(prefix, f), chain + [f])] else [];
    assert forall c :: c in leaf ==> Shaped(c, chain, prefix, |Unstacked(schema, stack)| + 1) by {
      assert (chain + [f])[..|chain|] == chain;
    }
    if f.expand && f.ty.ObjectOf? && CanExportClass(schema, f.ty.cls) {
      var next := chain + [f];
      BuildColumnsShaped(schema, f.ty.cls, stack, next, prefix + ColumnPrefixOf(f));
      forall c | c in BuildColumns(schema, f.ty.cls, stack, next, prefix + ColumnPrefixOf(f))
        ensures Shaped(c, chain, prefix, |Unstacked(schema, stack)| + 1)
      {
        assert c.chain[..|next|] == next;
        assert c.chain[..|chain|] == next[..|chain|] == chain;
      }
    }
  }

  /** A class already on the ClassStack yields no columns: expansion never re-enters it. */
  lemma StackedClassYieldsNothing(schema: Schema, cls: ClassId, stack: seq<ClassId>, chain: seq<Field>, prefix: string)
    requires cls in stack
    ensures BuildColumns(schema, cls, stack, chain, prefix) == []
  {
  }

  /** The superclass's columns come after the class's own, under the same chain and prefix. */
  lemma SuperColumnsLast(schema: Schema, cls: ClassId, stack: seq<ClassId>, chain: seq<Field>, prefix: string)
    requires cls in schema.classes && cls !in stack && schema.classes[cls].super.Some?
    ensures var own := FieldsColumns(schema, cls, 0, stack + [cls], chain, prefix);
      BuildColumns(schema, cls, stack, chain, prefix)[|own|..] == BuildColumns(schema, schema.classes[cls].super.value, stack + [cls], chain, prefix)
  {
  }

  /** The ClassStack the column builder keeps while it works. */
  class ColumnBuilder {
    var columns: seq<ColumnInfo>
    var stack: seq<ClassId>

    constructor ()
      ensures columns == [] && stack == []
    {
      columns := [];
      stack := [];
    }

    /** GetExportablePropertiesRecursively: the output is cleared first, and the stack starts empty. */
    method GetExportablePropertiesRecursively(schema: Schema, cls: Option<ClassId>)
      modifies this
      ensures columns == ExportableColumns(schema, cls) && stack == []
    {
      columns := [];
      stack := [];
      if cls.None? {
        return;
      }
      BuildColumnsForClass(schema, cls.value, [], "");
    }

    /** BuildColumnsForClass: appends the class's columns and leaves the stack as it found it. */
    method BuildColumnsForClass(schema: Schema, cls: ClassId, chain: seq<Field>, prefix: string)
      modifies this
      ensures columns == old(columns) + BuildColumns(schema, cls, old(stack), chain, prefix)
      ensures stack == old(stack)
      decreases Unstacked(schema, stack), 0
    {
      if cls in stack {
        return;
      }
      if cls !in schema.classes {
        return;
      }
      PushShrinks(schema, stack, cls);
      stack := stack + [cls];
      ghost var own := FieldsColumns(schema, cls, 0, stack, chain, prefix);
      AddOwnColumns(schema, cls, chain, prefix);
      var d := schema.classes[cls];
      if d.super.Some? {
        ghost var inherited := BuildColumns(schema, d.super.value, stack, chain, prefix);
        BuildColumnsForClass(schema, d.super.value, chain, prefix);
        assert columns == old(columns) + (own + inherited);
      }
      stack := stack[..|stack| - 1];
      assert stack == old(stack);
    }

    /** The loop over the class's own properties, with the class on the stack. */
    method AddOwnColumns(schema: Schema, cls: ClassId, chain: seq<Field>, prefix: string)
      requires cls in schema.classes
      modifies this
      ensures columns == old(columns) + FieldsColumns(schema, cls, 0, stack, chain, prefix) && stack == old(stack)
      decreases Unstacked(schema, stack), 2
    {
      var fields := schema.classes[cls].fields;
      var i := 0;
      while i < |fields|
        invariant 0 <= i <= |fields| && stack == old(stack)
        invariant columns + FieldsColumns(schema, cls, i, stack, chain, prefix) == old(columns) + FieldsColumns(schema, cls, 0, stack, chain, prefix)
      {
        AddFieldColumns(schema, fields[i], chain, prefix);
        i := i + 1;
      }
    }

    /** One iteration of the property loop. */
    method AddFieldColumns(schema: Schema, f: Field, chain: seq<Field>, prefix: string)
      modifies this
      ensures columns == old(columns) + FieldColumns(schema, f, stack, chain, prefix) && stack == old(stack)
      decreases Unstacked(schema, stack), 1, 0
    {
      if f.column.Some? {
        columns := columns + [ColumnInfo(LeafColumnName(prefix, f), chain + [f])];
      }
      if f.expand {
        match ObjectPropertyClass(f.ty)
        case Some(inner) =>
          if CanExportClass(schema, inner) {
            BuildColumnsForClass(schema, inner, chain + [f], prefix + ColumnPrefixOf(f));
          }
        case None =>
      }
    }
  }

  // ---------------------------------------------------------------------
  // Scalar property codec
  // ---------------------------------------------------------------------

  /** The property kinds the SheetTable codec knows: the scalar leaves and object references. */
  predicate IsSheetScalar(ty: FieldType)
  {
    (ty.LeafOf? && ty.leaf != OtherLeaf) || ty.ObjectOf?
  }

  /** PropertyToString of this handler: the scalar cases of AssetCsvSync's, and "" for any other property. */
  function SheetToText(host: Host, ty: FieldType, v: Value): (r: string)
    ensures !IsSheetScalar(ty) ==> r == ""
  {
    match ty
    case LeafOf(l) =>
      if IsIntegerLeaf(l) then IntToString(IntOf(v))
      else if l == FloatLeaf || l == DoubleLeaf then host.formatFloat(FloatOf(v))
      else if l == BoolLeaf then BoolToString(BoolOf(v))
      else if IsStringLeaf(l) then StrOf(v)
      else ""
    case ObjectOf(_) =>
      if v.RefV? && v.target.Some? then host.pathName(v.target.value) else ""
    case _ => ""
  }

  /** The kinds this handler's StringToProperty imports: the scalars except bytes, and object references. */
  predicate SheetImports(ty: FieldType)
  {
    IsSheetScalar(ty) && ty != LeafOf(ByteLeaf)
  }

  /**
   * StringToProperty of this handler: the scalar cases of AssetCsvSync's;
   * a byte property, a container, a struct or any other kind is not written
   * and the import fails.
   */
  function SheetFromText(host: Host, ty: FieldType, prior: Value, s: string): (r: Parsed)
    ensures SheetImports(ty) ==> r.ok
    ensures !SheetImports(ty) ==> r == Parsed(false, prior)
  {
    match ty
    case LeafOf(l) =>
      if l == Int32Leaf then Parsed(true, IntV(Atoi(s)))
      else if l == Int64Leaf then Parsed(true, IntV(Atoi64(s)))
      else if l == FloatLeaf || l == DoubleLeaf then Parsed(true, FloatV(host.parseFloat(s)))
      else if l == BoolLeaf then Parsed(true, BoolV(ToBool(s)))
      else if IsStringLeaf(l) then Parsed(true, StrV(s))
      else Parsed(false, prior)
    case ObjectOf(_) =>
      if s == [] then Parsed(true, RefV(None)) else Parsed(true, RefV(host.loadObject(s)))
    case _ => Parsed(false, prior)
  }

  /** On the scalar kinds this handler's PropertyToString agrees with AssetCsvSync's. */
  lemma SheetToTextAgrees(host: Host, ty: FieldType, v: Value)
    requires IsSheetScalar(ty)
    ensures SheetToText(host, ty, v) == ToText(host, ty, v)
  {
  }

  /** On the kinds it imports this handler's StringToProperty agrees with AssetCsvSync's. */
  lemma SheetFromTextAgrees(host: Host, ty: FieldType, prior: Value, s: string)
    requires SheetImports(ty)
    ensures SheetFromText(host, ty, prior, s) == FromText(host, ty, prior, s)
  {
  }

  /** Every value that round-trips through AssetCsvSync's codec round-trips through this one too. */
  lemma SheetScalarRoundTrip(host: Host, ty: FieldType, v: Value, prior: Value)
    requires RoundTrips(host, ty, v)
    ensures SheetFromText(host, ty, prior, SheetToText(host, ty, v)) == Parsed(true, v)
  {
    ScalarRoundTrip(host, ty, v, prior);
    SheetToTextAgrees(host, ty, v);
    SheetFromTextAgrees(host, ty, prior, SheetToText(host, ty, v));
  }

  // ---------------------------------------------------------------------
  // Following a column's chain
  // ---------------------------------------------------------------------

  /**
   * The object holding the chain's last property: every property before it
   * is read from the current object as an object reference and followed; a
   * null reference, or a property that is not an object reference, ends the
   * walk with None.
   */
  function ChainOwner(heap: Heap, cur: ObjId, chain: seq<Field>): (r: Option<ObjId>)
    requires cur in heap && chain != []
    ensures r.Some? ==> r.value in heap
    ensures |chain| == 1 ==> r == Some(cur)
    decreases |chain|
  {
    if |chain| == 1 then Some(cur)
    else
      match Resolve(heap, chain[0].ty, Get(heap[cur].fields, chain[0]))
      case Some(next) => ChainOwner(heap, next, chain[1..])
      case None => None
  }

  /** The loop GetColumnValue and SetColumnValue share: follow all but the last property. */
  method WalkChain(heap: Heap, root: ObjId, chain: seq<Field>) returns (owner: Option<ObjId>)
    requires root in heap && chain != []
    ensures owner == ChainOwner(heap, root, chain)
  {
    var current := root;
    var i := 0;
    while i < |chain| - 1
      invariant 0 <= i <= |chain| - 1 && current in heap
      decreases |chain| - 1 - i
      invariant ChainOwner(heap, current, chain[i..]) == ChainOwner(heap, root, chain)
    {
      assert chain[i..][0] == chain[i] && chain[i..][1..] == chain[i + 1..];
      var next := Resolve(heap, chain[i].ty, Get(heap[current].fields, chain[i]));
      if next.None? {
        return None;
      }
      current := next.value;
      i := i + 1;
    }
    return Some(current);
  }

  /** The text GetColumnValue produces: the leaf's text when the root exists and the chain reaches it, and "" otherwise. */
  function ColumnText(host: Host, heap: Heap, root: Option<ObjId>, col: ColumnInfo): string
  {
    if root.None? || root.value !in heap || col.chain == [] then ""
    else
      match ChainOwner(heap, root.value, col.chain)
      case Some(owner) =>
        var leaf := col.chain[|col.chain| - 1];
        SheetToText(host, leaf.ty, Get(heap[owner].fields, leaf))
      case None => ""
  }

  /** Whether the chain of `col` can be followed from `root`. */
  predicate Reaches(heap: Heap, root: Option<ObjId>, col: ColumnInfo)
  {
    root.Some? && root.value in heap && col.chain != [] && ChainOwner(heap, root.value, col.chain).Some?
  }

  /** GetColumnValue. */
  method GetColumnValue(host: Host, heap: Heap, root: Option<ObjId>, col: ColumnInfo) returns (ok: bool, value: string)
    ensures ok <==> Reaches(heap, root, col)
    ensures value == ColumnText(host, heap, root, col)
    ensures !ok ==> value == ""
  {
    value := "";
    if root.None? || root.value !in heap || col.chain == [] {
      return false, value;
    }
    var owner := WalkChain(heap, root.value, col.chain);
    if owner.None? {
      return false, value;
    }
    var leaf := col.chain[|col.chain| - 1];
    value := SheetToText(host, leaf.ty, Get(heap[owner.value].fields, leaf));
    ok := true;
  }

  /** An outcome and the objects after it. */
  datatype Applied = Applied(ok: bool, heap: Heap)

  /** Every object other than `o` is as it was, and no object was added or removed. */
  predicate OnlyTouches(before: Heap, after: Heap, o: ObjId)
  {
    after.Keys == before.Keys && forall q :: q in before && q != o ==> after[q] == before[q]
  }

  /**
   * SetColumnValue: when the chain reaches its owner, the leaf property of
   * the owner is imported from the text; it succeeds when the import does.
   * A null root, an empty chain or a null object on the way changes nothing
   * and fails.
   */
  function SetColumn(host: Host, heap: Heap, root: Option<ObjId>, col: ColumnInfo, text: string): (r: Applied)
    ensures !Reaches(heap, root, col) ==> r == Applied(false, heap)
    ensures Reaches(heap, root, col) ==> OnlyTouches(heap, r.heap, ChainOwner(heap, root.value, col.chain).value)
    ensures !r.ok ==> r.heap == heap
  {
    if !Reaches(heap, root, col) then Applied(false, heap)
    else
      var owner := ChainOwner(heap, root.value, col.chain).value;
      var leaf := col.chain[|col.chain| - 1];
      var parsed := SheetFromText(host, leaf.ty, Get(heap[owner].fields, leaf), text);
      if parsed.ok then Applied(true, heap[owner := Obj(heap[owner].cls, heap[owner].fields[leaf.name := parsed.value])])
      else Applied(false, heap)
  }

  /** Whether a column belongs to the first pass (single property) or the second (a chain). */
  predicate InPass(c: ColumnInfo, first: bool)
  {
    if first then |c.chain| == 1 else |c.chain| > 1
  }

  /** One pass over the columns: each column of the pass whose name is in the row is set from its cell. */
  function Pass(host: Host, heap: Heap, root: ObjId, cols: seq<ColumnInfo>, row: Cols, first: bool): (r: Heap)
    ensures r.Keys == heap.Keys
    decreases |cols|
  {
    if cols == [] then heap
    else
      var before := Pass(host, heap, root, cols[..|cols| - 1], row, first);
      var c := cols[|cols| - 1];
      if InPass(c, first) && c.name in row.values then SetColumn(host, before, Some(root), c, row.values[c.name]).heap
      else before
  }

  /**
   * ApplyCSVRowToObject: fails with nothing written on a null object, a
   * class that is not exportable or a header/value count mismatch;
   * otherwise runs the first pass, and the second under RootAndExpanded.
   */
  function ApplyRow(schema: Schema, host: Host, scope: Scope, heap: Heap, target: Option<ObjId>, cls: ClassId, headers: seq<string>, values: seq<string>): (r: Applied)
    ensures r.ok <==> target.Some? && target.value in heap && CanExportClass(schema, cls) && |headers| == |values|
    ensures !r.ok ==> r.heap == heap
  {
    if target.None? || target.value !in heap || !CanExportClass(schema, cls) || |headers| != |values| then Applied(false, heap)
    else
      var cols := BuildColumns(schema, cls, [], [], "");
      var row := Row(headers, values);
      var leaves := Pass(host, heap, target.value, cols, row, true);
      Applied(true, if scope == RootAndExpanded then Pass(host, leaves, target.value, cols, row, false) else leaves)
  }

  /** The first pass writes only into the root object. */
  lemma {:induction false} FirstPassTouchesRoot(host: Host, heap: Heap, root: ObjId, cols: seq<ColumnInfo>, row: Cols)
    requires root in heap
    ensures OnlyTouches(heap, Pass(host, heap, root, cols, row, true), root)
    decreases |cols|
  {
    if cols != [] {
      FirstPassTouchesRoot(host, heap, root, cols[..|cols| - 1], row);
    }
  }

  /** Under RootOnly an import changes no object but the target. */
  lemma RootOnlyTouchesTarget(schema: Schema, host: Host, heap: Heap, target: Option<ObjId>, cls: ClassId, headers: seq<string>, values: seq<string>)
    requires target.Some? && target.value in heap
    ensures OnlyTouches(heap, ApplyRow(schema, host, RootOnly, heap, target, cls, headers, values).heap, target.value)
  {
    if CanExportClass(schema, cls) && |headers| == |values| {
      FirstPassTouchesRoot(host, heap, target.value, BuildColumns(schema, cls, [], [], ""), Row(headers, values));
    }
  }

  /** A pass that selects none of the columns, or whose columns have no cell in the row, changes nothing. */
  lemma {:induction false} PassSkipsMissing(host: Host, heap: Heap, root: ObjId, cols: seq<ColumnInfo>, row: Cols, first: bool)
    requires forall k :: 0 <= k < |cols| ==> !InPass(cols[k], first) || cols[k].name !in row.values
    ensures Pass(host, heap, root, cols, row, first) == heap
    decreases |cols|
  {
    if cols != [] {
      PassSkipsMissing(host, heap, root, cols[..|cols| - 1], row, first);
    }
  }

  /** The objects being imported into. */
  class SheetObjects {
    var heap: Heap

    constructor (objects: Heap)
      ensures heap == objects
    {
      heap := objects;
    }

    /** SetColumnValue. */
    method SetColumnValue(host: Host, root: Option<ObjId>, col: ColumnInfo, text: string) returns (ok: bool)
      modifies this
      ensures Applied(ok, heap) == SetColumn(host, old(heap), root, col, text)
    {
      if root.None? || root.value !in heap || col.chain == [] {
        return false;
      }
      var owner := WalkChain(heap, root.value, col.chain);
      if owner.None? {
        return false;
      }
      var leaf := col.chain[|col.chain| - 1];
      var parsed := SheetFromText(host, leaf.ty, Get(heap[owner.value].fields, leaf), text);
      if parsed.ok {
        heap := heap[owner.value := Obj(heap[owner.value].cls, heap[owner.value].fields[leaf.name := parsed.value])];
      }
      ok := parsed.ok;
    }

    /** One pass of ApplyCSVRowToObject. */
    method ApplyPass(host: Host, root: ObjId, cols: seq<ColumnInfo>, row: Cols, first: bool)
      requires root in heap
      modifies this
      ensures heap == Pass(host, old(heap), root, cols, row, first)
    {
      for k := 0 to |cols|
        invariant heap == Pass(host, old(heap), root, cols[..k], row, first)
      {
        assert cols[..k + 1][..k] == cols[..k];
        var c := cols[k];
        if InPass(c, first) && c.name in row.values {
          var _ := SetColumnValue(host, Some(root), c, row.values[c.name]);
        }
      }
      assert cols[..|cols|] == cols;
    }

    /** ApplyCSVRowToObject. */
    method ApplyCsvRowToObject(schema: Schema, host: Host, scope: Scope, target: Option<ObjId>, cls: ClassId, headers: seq<string>, values: seq<string>)
      returns (ok: bool)
      modifies this
      ensures Applied(ok, heap) == ApplyRow(schema, host, scope, old(heap), target, cls, headers, values)
    {
      if target.None? || target.value !in heap || !CanExportClass(schema, cls) || |headers| != |values| {
        return false;
      }
      var row := Row(headers, values);
      var builder := new ColumnBuilder();
      builder.GetExportablePropertiesRecursively(schema, Some(cls));
      var cols := builder.columns;
      ApplyPass(host, target.value, cols, row, true);
      if scope == RootAndExpanded {
        ApplyPass(host, target.value, cols, row, false);
      }
      return true;
    }
  }

  // ---------------------------------------------------------------------
  // The exported text
  // ---------------------------------------------------------------------

  function ColumnNames(cols: seq<ColumnInfo>): (r: seq<string>)
    ensures |r| == |cols| && forall i :: 0 <= i < |cols| ==> r[i] == cols[i].name
  {
    seq(|cols|, i requires 0 <= i < |cols| => cols[i].name)
  }

  function ColumnTexts(host: Host, heap: Heap, root: Option<ObjId>, cols: seq<ColumnInfo>): (r: seq<string>)
    ensures |r| == |cols| && forall i :: 0 <= i < |cols| ==> r[i] == ColumnText(host, heap, root, cols[i])
  {
    seq(|cols|, i requires 0 <= i < |cols| => ColumnText(host, heap, root, cols[i]))
  }

  /** The file ExportDataAssetToCSV writes: the names joined with ',' as they are, then the escaped values. */
  function SheetText(names: seq<string>, cells: seq<string>): string
  {
    Join(names, Comma) + "\n" + CsvLine(cells) + "\n"
  }

  /** Each name followed by ','. */
  method AppendNames(content: string, cols: seq<ColumnInfo>) returns (r: string)
    ensures r == content + Terminated(ColumnNames(cols), Comma)
  {
    ghost var names := ColumnNames(cols);
    r := content;
    for i := 0 to |cols|
      invariant r == content + Terminated(names[..i], Comma)
    {
      TerminatedPrefix(names, i, Comma);
      r := r + cols[i].name + [Comma];
    }
    assert names[..|cols|] == names;
  }

  /** Each escaped value followed by ','; `escaped` names what the loop produces. */
  method AppendValues(content: string, host: Host, heap: Heap, root: Option<ObjId>, cols: seq<ColumnInfo>, ghost escaped: seq<string>)
    returns (r: string)
    requires escaped == EscapeAllCsv(ColumnTexts(host, heap, root, cols))
    ensures r == content + Terminated(escaped, Comma)
  {
    assert |escaped| == |cols|;
    r := content;
    var i := 0;
    while i < |cols|
      invariant 0 <= i <= |cols|
      invariant r == content + Terminated(escaped[..i], Comma)
    {
      r := AppendValue(r, host, heap, root, cols, i, content, escaped);
      i := i + 1;
    }
    assert escaped[..i] == escaped;
  }

  /** One iteration of the value loop: the value of column `i`, escaped, then ','. */
  method AppendValue(r: string, host: Host, heap: Heap, root: Option<ObjId>, cols: seq<ColumnInfo>, i: nat, ghost content: string, ghost escaped: seq<string>)
    returns (next: string)
    requires i < |cols| && escaped == EscapeAllCsv(ColumnTexts(host, heap, root, cols))
    requires r == content + Terminated(escaped[..i], Comma)
    ensures next == content + Terminated(escaped[..i + 1], Comma)
  {
    var _, value := GetColumnValue(host, heap, root, cols[i]);
    ghost var texts := ColumnTexts(host, heap, root, cols);
    assert value == texts[i];
    var cell := EscapeCsvString(value);
    assert cell == escaped[i];
    TerminatedAppend(content, escaped, i, Comma);
    next := r + cell + [Comma];
  }

  /**
   * The header and value assembly of ExportDataAssetToCSV. It fails on a
   * null asset, a class that is not exportable, or a class without columns.
   */
  method ExportDataAssetToCsv(schema: Schema, host: Host, heap: Heap, asset: Option<ObjId>) returns (ok: bool, content: string)
    ensures ok <==> (asset.Some? && asset.value in heap && CanExportClass(schema, heap[asset.value].cls)
      && BuildColumns(schema, heap[asset.value].cls, [], [], "") != [])
    ensures ok ==> var cols := BuildColumns(schema, heap[asset.value].cls, [], [], "");
      content == SheetText(ColumnNames(cols), ColumnTexts(host, heap, asset, cols))
    ensures !ok ==> content == ""
  {
    content := "";
    if asset.None? || asset.value !in heap || !CanExportClass(schema, heap[asset.value].cls) {
      return false, content;
    }
    var builder := new ColumnBuilder();
    builder.GetExportablePropertiesRecursively(schema, Some(heap[asset.value].cls));
    var cols := builder.columns;
    if cols == [] {
      return false, content;
    }
    content := WriteSheetText(host, heap, asset, cols);
    ok := true;
  }

  /** The two lines of the file, built as ExportDataAssetToCSV builds them. */
  method WriteSheetText(host: Host, heap: Heap, asset: Option<ObjId>, cols: seq<ColumnInfo>) returns (content: string)
    requires cols != []
    ensures content == SheetText(ColumnNames(cols), ColumnTexts(host, heap, asset, cols))
  {
    var names := AppendNames("", cols);
    var header := RemoveTrailing(names, Comma) + "\n";
    ghost var texts := ColumnTexts(host, heap, asset, cols);
    ghost var escaped := EscapeAllCsv(texts);
    var body := AppendValues(header, host, heap, asset, cols, escaped);
    content := RemoveTrailing(body, Comma) + "\n";
    SheetTextAssembly(ColumnNames(cols), texts);
  }

  /** The text the two loops and the two RemoveFromEnd calls leave is the sheet's text. */
  lemma SheetTextAssembly(names: seq<string>, texts: seq<string>)
    requires names != [] && texts != []
    ensures var header := RemoveTrailing("" + Terminated(names, Comma), Comma) + "\n";
      RemoveTrailing(header + Terminated(EscapeAllCsv(texts), Comma), Comma) + "\n" == SheetText(names, texts)
  {
    var escaped := EscapeAllCsv(texts);
    assert "" + Terminated(names, Comma) == Terminated(names, Comma);
    RemoveTrailingTerminated(names, Comma);
    var header := Join(names, Comma) + "\n";
    TerminatedEndsWithSep(escaped, Comma);
    RemoveTrailingAfter(header, Terminated(escaped, Comma), Comma);
    RemoveTrailingTerminated(escaped, Comma);
  }

  /**
   * The value line of the exported text reads back as the cell texts; the
   * header line reads back as the names when no name holds ',' or '"'.
   */
  lemma SheetTextReadsBack(names: seq<string>, cells: seq<string>)
    requires |names| >= 1 && |cells| >= 1
    requires forall i :: 0 <= i < |names| ==> Comma !in names[i] && Quote !in names[i]
    ensures ParseCsv(Join(names, Comma)) == names
    ensures ParseCsv(CsvLine(cells)) == cells
  {
    PlainLineRoundTrip(names);
    CsvLineRoundTrip(cells);
  }

  /** Header cells are not escaped: a column name holding ',' reads back as two headers. */
  lemma HeaderWithCommaSplits()
    ensures Join(["a,b"], Comma) == "a,b"
    ensures ParseCsv(Join(["a,b"], Comma)) == ["a", "b"]
  {
    assert Join(["a,b"], Comma) == "a,b";
    var line: string := "a,b";
    assert Split("", Comma, false, "b", ["a"]) == ["a", "b"];
    assert Split("b", Comma, false, [], ["a"]) == Split("", Comma, false, "b", ["a"]) by {
      assert "b"[1..] == [] && [] + ['b'] == "b";
    }
    assert Split(",b", Comma, false, "a", []) == Split("b", Comma, false, [], ["a"]) by {
      assert ",b"[1..] == "b" && [] + ["a"] == ["a"];
    }
    assert Split(line, Comma, false, [], []) == Split(",b", Comma, false, "a", []) by {
      assert line[1..] == ",b" && [] + ['a'] == "a";
    }
  }

  /** The values line escapes instead: the same name as a value reads back whole. */
  lemma ValueWithCommaReadsBack()
    ensures ParseCsv(CsvLine(["a,b"])) == ["a,b"]
  {
    CsvLineRoundTrip(["a,b"]);
  }

  // ---------------------------------------------------------------------
  // This handler's copy of the CSV line reader
  // ---------------------------------------------------------------------

  /**
   * ParseCSVLine of this handler: the same state machine as AssetCsvSync's,
   * written out again for ','. It reads every line exactly as the shared
   * splitter does, so the round trip of escaped values holds for it too.
   */
  method ParseCsvLine(line: string) returns (result: seq<string>)
    ensures result == ParseCsv(line)
    ensures |result| >= 1
  {
    result := [];
    var currentValue: string := [];
    var inQuotes := false;
    var i := 0;
    while i < |line|
      invariant 0 <= i <= |line|
      invariant Split(line[i..], Comma, inQuotes, currentValue, result) == ParseCsv(line)
      decreases |line| - i
    {
      var ch := line[i];
      assert line[i..][0] == ch && line[i..][1..] == line[i + 1..];
      if inQuotes {
        if ch == Quote {
          if i + 1 < |line| && line[i + 1] == Quote {
            assert line[i..][1] == line[i + 1] && line[i..][2..] == line[i + 2..];
            currentValue := currentValue + [Quote];
            i := i + 1;
          } else {
            inQuotes := false;
          }
        } else {
          currentValue := currentValue + [ch];
        }
      } else if ch == Quote {
        inQuotes := true;
      } else if ch == Comma {
        result := result + [currentValue];
        currentValue := [];
      } else {
        currentValue := currentValue + [ch];
      }
      i := i + 1;
    }
    assert line[i..] == [];
    result := result + [currentValue];
    SplitHasAField(line, Comma, false, [], []);
  }
}
