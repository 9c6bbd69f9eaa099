/**
 * PropertyToString and StringToProperty of the AssetCsvSync handler: one
 * property value to and from the text of one CSV cell. Scalars use "%d",
 * "true"/"false" and the text itself; arrays and sets become list cells
 * joined with ';'; maps become a JSON object; everything else goes through
 * the engine's ExportText/ImportText.
 */
module PropertyCodec {
  import opened Strings
  import opened CsvCodec
  import opened Reflection

  /** The outcome of StringToProperty: whether it succeeded, and the property's new value. */
  datatype Parsed = Parsed(ok: bool, value: Value)

  function IntOf(v: Value): int { if v.IntV? then v.i else 0 }
  function FloatOf(v: Value): real { if v.FloatV? then v.r else 0.0 }
  function BoolOf(v: Value): bool { v.BoolV? && v.b }
  function StrOf(v: Value): string { if v.StrV? then v.s else "" }

  predicate IsIntegerLeaf(l: LeafType) { l == Int32Leaf || l == Int64Leaf || l == ByteLeaf }
  predicate IsStringLeaf(l: LeafType) { l == StrLeaf || l == TextLeaf || l == NameLeaf }

  /** PropertyToString: the text a property value is exported as. */
  function ToText(host: Host, ty: FieldType, v: Value): string
    decreases ty, 1
  {
    match ty
    case ArrayOf(inner) =>
      var items := ItemsOf(v);
      JoinList(seq(|items|, i requires 0 <= i < |items| => ToText(host, inner, items[i])))
    case SetOf(elem) =>
      var elems := if v.SetV? then v.elems else [];
      JoinList(seq(|elems|, i requires 0 <= i < |elems| => ToText(host, elem, elems[i])))
    case MapOf(k, vt) =>
      var entries := EntriesOf(v);
      host.encodeJson(seq(|entries|, i requires 0 <= i < |entries| =>
        JsonField(ToText(host, k, entries[i].key), JsonOf(host, vt, entries[i].value))))
    case LeafOf(l) =>
      if IsIntegerLeaf(l) then IntToString(IntOf(v))
      else if l == FloatLeaf || l == DoubleLeaf then host.formatFloat(FloatOf(v))
      else if l == BoolLeaf then BoolToString(BoolOf(v))
      else if IsStringLeaf(l) then StrOf(v)
      else host.exportText(ty, v)
    case ObjectOf(_) =>
      if v.RefV? && v.target.Some? then host.pathName(v.target.value) else ""
    case StructOf(_) => host.exportText(ty, v)
  }

  /** The JSON value a map's value is written as: numbers, booleans and strings natively, the rest as its exported text. */
  function JsonOf(host: Host, ty: FieldType, v: Value): Json
    decreases ty, 2
  {
    if ty.LeafOf? && IsIntegerLeaf(ty.leaf) then JsonNumber(IntOf(v) as real)
    else if ty == LeafOf(FloatLeaf) || ty == LeafOf(DoubleLeaf) then JsonNumber(FloatOf(v))
    else if ty == LeafOf(BoolLeaf) then JsonBool(BoolOf(v))
    else if ty.LeafOf? && IsStringLeaf(ty.leaf) then JsonString(StrOf(v))
    else JsonString(ToText(host, ty, v))
  }

  /**
   * StringToProperty: the property's new value after importing `s` into a
   * property holding `prior`. Arrays are resized to the number of list items
   * and each element decoded in place; sets and maps are emptied and rebuilt;
   * a map cell the JSON reader rejects leaves the map empty and fails; a
   * JSON member whose key does not import stays as a default entry.
   */
  function FromText(host: Host, ty: FieldType, prior: Value, s: string): (r: Parsed)
    ensures ty.ArrayOf? ==> r.ok && r.value.ArrayV? && |r.value.items| == |ParseList(s)|
    ensures ty.SetOf? ==> r.ok && r.value.SetV? && |r.value.elems| == |ParseList(s)|
    ensures !r.ok ==> (ty.MapOf? && r.value == MapV([])) || r.value == prior
    decreases ty
  {
    match ty
    case ArrayOf(inner) =>
      var cells := ParseList(s);
      var base := Resize(ItemsOf(prior), |cells|, Default(inner));
      Parsed(true, ArrayV(seq(|cells|, i requires 0 <= i < |cells| => FromText(host, inner, base[i], cells[i]).value)))
    case SetOf(elem) =>
      var cells := ParseList(s);
      Parsed(true, SetV(seq(|cells|, i requires 0 <= i < |cells| => FromText(host, elem, Default(elem), cells[i]).value)))
    case MapOf(k, vt) =>
      if s == [] then Parsed(true, MapV([]))
      else
        (match host.decodeJson(s)
         case None => Parsed(false, MapV([]))
         case Some(members) =>
           Parsed(true, MapV(seq(|members|, i requires 0 <= i < |members| =>
             var key := FromText(host, k, Default(k), members[i].0);
             if key.ok then Entry(key.value, FromText(host, vt, Default(vt), members[i].1).value)
             else Entry(Default(k), Default(vt))))))
    case LeafOf(l) =>
      if l == Int32Leaf then Parsed(true, IntV(Atoi(s)))
      else if l == Int64Leaf then Parsed(true, IntV(Atoi64(s)))
      else if l == FloatLeaf || l == DoubleLeaf then Parsed(true, FloatV(host.parseFloat(s)))
      else if l == BoolLeaf then Parsed(true, BoolV(ToBool(s)))
      else if IsStringLeaf(l) then Parsed(true, StrV(s))
      else ImportText(host, ty, prior, s)
    case ObjectOf(_) =>
      if s == [] then Parsed(true, RefV(None)) else Parsed(true, RefV(host.loadObject(s)))
    case StructOf(_) => ImportText(host, ty, prior, s)
  }

  /** The ImportText fallback: the value is kept when the text is rejected. */
  function ImportText(host: Host, ty: FieldType, prior: Value, s: string): (r: Parsed)
    ensures !r.ok ==> r.value == prior
  {
    match host.importText(ty, s, prior)
    case Some(v) => Parsed(true, v)
    case None => Parsed(false, prior)
  }

  /**
   * The values whose text reads back as themselves: int32 and int64 values in
   * range, booleans, strings, null references, and references whose path the
   * host loads back to the same object.
   */
  predicate RoundTrips(host: Host, ty: FieldType, v: Value)
  {
    match ty
    case LeafOf(l) =>
      (l == Int32Leaf && v.IntV? && IsInt32(v.i)) ||
      (l == Int64Leaf && v.IntV? && IsInt64(v.i)) ||
      (l == BoolLeaf && v.BoolV?) ||
      (IsStringLeaf(l) && v.StrV?)
    case ObjectOf(_) =>
      v.RefV? && (v.target.Some? ==> host.pathName(v.target.value) != [] && host.loadObject(host.pathName(v.target.value)) == v.target)
    case _ => false
  }

  lemma ScalarRoundTrip(host: Host, ty: FieldType, v: Value, prior: Value)
    requires RoundTrips(host, ty, v)
    ensures FromText(host, ty, prior, ToText(host, ty, v)) == Parsed(true, v)
  {
    if ty.LeafOf? {
      var l := ty.leaf;
      if l == Int32Leaf || l == Int64Leaf {
        IntToStringRoundTrip(v.i);
      } else if l == BoolLeaf {
        BoolRoundTrip(v.b);
      }
    }
  }

  /** The texts of an array's or set's elements, as PropertyToString collects them. */
  function Texts(host: Host, ty: FieldType, items: seq<Value>): (r: seq<string>)
    ensures |r| == |items|
  {
    seq(|items|, i requires 0 <= i < |items| => ToText(host, ty, items[i]))
  }

  /**
   * An array of round-tripping elements reads back as itself, whatever the
   * property held before, unless it is a single element written as the empty
   * text (see `SingleEmptyElementIsLost`).
   */
  lemma ArrayRoundTrip(host: Host, inner: FieldType, items: seq<Value>, prior: Value)
    requires forall i :: 0 <= i < |items| ==> RoundTrips(host, inner, items[i])
    requires Texts(host, inner, items) != [""]
    ensures FromText(host, ArrayOf(inner), prior, ToText(host, ArrayOf(inner), ArrayV(items))) == Parsed(true, ArrayV(items))
  {
    var texts := Texts(host, inner, items);
    assert ToText(host, ArrayOf(inner), ArrayV(items)) == JoinList(texts);
    ListCellRoundTrip(texts);
    ArrayElemsRoundTrip(host, inner, items, texts, Resize(ItemsOf(prior), |texts|, Default(inner)));
  }

  lemma ArrayElemsRoundTrip(host: Host, inner: FieldType, items: seq<Value>, texts: seq<string>, base: seq<Value>)
    requires forall i :: 0 <= i < |items| ==> RoundTrips(host, inner, items[i])
    requires texts == Texts(host, inner, items) && |base| == |texts|
    ensures seq(|texts|, i requires 0 <= i < |texts| => FromText(host, inner, base[i], texts[i]).value) == items
  {
    var r := seq(|texts|, i requires 0 <= i < |texts| => FromText(host, inner, base[i], texts[i]).value);
    forall i | 0 <= i < |items|
      ensures r[i] == items[i]
    {
      ScalarRoundTrip(host, inner, items[i], base[i]);
    }
  }

  /** The same for sets: the elements come back in iteration order. */
  lemma SetRoundTrip(host: Host, elem: FieldType, elems: seq<Value>, prior: Value)
    requires forall i :: 0 <= i < |elems| ==> RoundTrips(host, elem, elems[i])
    requires Texts(host, elem, elems) != [""]
    ensures FromText(host, SetOf(elem), prior, ToText(host, SetOf(elem), SetV(elems))) == Parsed(true, SetV(elems))
  {
    var texts := Texts(host, elem, elems);
    assert ToText(host, SetOf(elem), SetV(elems)) == JoinList(texts);
    ListCellRoundTrip(texts);
    SetElemsRoundTrip(host, elem, elems, texts);
  }

  lemma SetElemsRoundTrip(host: Host, elem: FieldType, elems: seq<Value>, texts: seq<string>)
    requires forall i :: 0 <= i < |elems| ==> RoundTrips(host, elem, elems[i])
    requires texts == Texts(host, elem, elems)
    ensures seq(|texts|, i requires 0 <= i < |texts| => FromText(host, elem, Default(elem), texts[i]).value) == elems
  {
    var r := seq(|texts|, i requires 0 <= i < |texts| => FromText(host, elem, Default(elem), texts[i]).value);
    forall i | 0 <= i < |elems|
      ensures r[i] == elems[i]
    {
      ScalarRoundTrip(host, elem, elems[i], Default(elem));
    }
  }

  /** A one-element array whose element exports as "" comes back empty. */
  lemma SingleEmptyElementIsLost(host: Host, inner: FieldType, x: Value, prior: Value)
    requires ToText(host, inner, x) == ""
    ensures FromText(host, ArrayOf(inner), prior, ToText(host, ArrayOf(inner), ArrayV([x]))) == Parsed(true, ArrayV([]))
  {
    assert Texts(host, inner, [x]) == [""];
    JoinOfEmptyItem([""]);
    EmptyCellIsEmptyList();
  }

  /** An empty map cell empties the map; a cell the JSON reader rejects also empties it, and fails. */
  lemma MapCellEdgeCases(host: Host, k: FieldType, vt: FieldType, prior: Value, s: string)
    ensures FromText(host, MapOf(k, vt), prior, "") == Parsed(true, MapV([]))
    ensures s != [] && host.decodeJson(s).None? ==> FromText(host, MapOf(k, vt), prior, s) == Parsed(false, MapV([]))
    ensures s != [] && host.decodeJson(s).Some? ==> |FromText(host, MapOf(k, vt), prior, s).value.entries| == |host.decodeJson(s).value|
  {
  }
}
