/**
 * The insertion-ordered column map both engines build: a TMap from column
 * name to value plus, in the AssetCsvSync exporter, the TArray of names in
 * first-registration order (the AddColumn lambda). The same structure models
 * the TMap a CSV row is turned into before import: a header seen again
 * overwrites the value and keeps the position of its first occurrence.
 */
module Columns {
  import opened Strings

  datatype Column = Column(name: string, value: string)

  /** The column order and the name-to-value map. */
  datatype Cols = Cols(order: seq<string>, values: map<string, string>)

  const Empty := Cols([], map[])

  predicate NoDuplicates(s: seq<string>)
  {
    forall i, j :: 0 <= i < j < |s| ==> s[i] != s[j]
  }

  /** The invariant registration keeps: no name twice in the order, and the order lists exactly the map's keys. */
  ghost predicate Valid(c: Cols)
  {
    NoDuplicates(c.order) && Keyed(c)
  }

  /** The order lists exactly the map's keys. */
  ghost predicate Keyed(c: Cols)
  {
    forall n :: n in c.values <==> n in c.order
  }

  /** AddColumn: append the name on its first registration, overwrite the value every time. */
  function Add(c: Cols, col: Column): Cols
  {
    Cols(if col.name in c.values then c.order else c.order + [col.name], c.values[col.name := col.value])
  }

  /** Registering a sequence of columns one after another. */
  function AddAll(c: Cols, cols: seq<Column>): Cols
    decreases |cols|
  {
    if cols == [] then c else AddAll(Add(c, cols[0]), cols[1..])
  }

  function Names(cols: seq<Column>): (r: seq<string>)
    ensures |r| == |cols| && forall i :: 0 <= i < |cols| ==> r[i] == cols[i].name
  {
    seq(|cols|, i requires 0 <= i < |cols| => cols[i].name)
  }

  /** The names of `s` with every repetition after the first dropped. */
  function Dedup(seen: seq<string>, s: seq<string>): seq<string>
    decreases |s|
  {
    if s == [] then []
    else if s[0] in seen then Dedup(seen, s[1..])
    else [s[0]] + Dedup(seen + [s[0]], s[1..])
  }

  /** The value registered last under `name`, if any. */
  function LastValue(cols: seq<Column>, name: string): Option<string>
    decreases |cols|
  {
    if cols == [] then None
    else if cols[|cols| - 1].name == name then Some(cols[|cols| - 1].value)
    else LastValue(cols[..|cols| - 1], name)
  }

  lemma AddKeepsValid(c: Cols, col: Column)
    requires Valid(c)
    ensures Valid(Add(c, col))
    ensures Add(c, col).values.Keys == c.values.Keys + {col.name}
  {
  }

  lemma {:induction false} AddAllKeepsValid(c: Cols, cols: seq<Column>)
    requires Valid(c)
    ensures Valid(AddAll(c, cols))
    decreases |cols|
  {
    if cols != [] {
      AddKeepsValid(c, cols[0]);
      AddAllKeepsValid(Add(c, cols[0]), cols[1..]);
    }
  }

  lemma {:induction false} AddAllAppend(c: Cols, a: seq<Column>, b: seq<Column>)
    ensures AddAll(c, a + b) == AddAll(AddAll(c, a), b)
    decreases |a|
  {
    if a != [] {
      assert (a + b)[0] == a[0] && (a + b)[1..] == a[1..] + b;
      AddAllAppend(Add(c, a[0]), a[1..], b);
      assert AddAll(c, a + b) == AddAll(Add(c, a[0]), a[1..] + b);
    } else {
      assert a + b == b;
    }
  }

  /**
   * Registration order: the new order is the old one followed by the names
   * not registered before, each at its first registration.
   */
  lemma {:induction false} AddAllOrder(c: Cols, cols: seq<Column>)
    requires Keyed(c)
    ensures AddAll(c, cols).order == c.order + Dedup(c.order, Names(cols))
    decreases |cols|
  {
    if cols != [] {
      var c1 := Add(c, cols[0]);
      AddKeepsKeyed(c, cols[0]);
      AddAllOrder(c1, cols[1..]);
      NamesCons(cols);
      AddOrderStep(c, cols[0], Names(cols[1..]));
    }
  }

  lemma AddKeepsKeyed(c: Cols, col: Column)
    requires Keyed(c)
    ensures Keyed(Add(c, col))
  {
  }

  lemma NamesCons(cols: seq<Column>)
    requires cols != []
    ensures Names(cols) == [cols[0].name] + Names(cols[1..])
  {
  }

  lemma AddOrderStep(c: Cols, col: Column, rest: seq<string>)
    requires col.name in c.values <==> col.name in c.order
    ensures Add(c, col).order + Dedup(Add(c, col).order, rest) == c.order + Dedup(c.order, [col.name] + rest)
  {
    assert ([col.name] + rest)[1..] == rest;
    if col.name !in c.values {
      assert c.order + [col.name] + Dedup(c.order + [col.name], rest) == c.order + ([col.name] + Dedup(c.order + [col.name], rest));
    }
  }

  /** Registering one column is one AddColumn. */
  lemma AddAllOne(c: Cols, col: Column)
    ensures AddAll(c, [col]) == Add(c, col)
  {
  }

  /** Registering nothing changes nothing. */
  lemma AddAllNone(c: Cols)
    ensures AddAll(c, []) == c
  {
  }

  /** Registration only ever appends to the order. */
  lemma {:induction false} AddAllExtendsOrder(c: Cols, cols: seq<Column>)
    ensures c.order <= AddAll(c, cols).order
    decreases |cols|
  {
    if cols != [] {
      AddAllExtendsOrder(Add(c, cols[0]), cols[1..]);
    }
  }

  /** Starting from nothing, the order is empty exactly when nothing was registered. */
  lemma RegisteredNothing(cols: seq<Column>)
    ensures AddAll(Empty, cols).order == [] <==> cols == []
  {
    if cols != [] {
      AddAllExtendsOrder(Add(Empty, cols[0]), cols[1..]);
      assert Add(Empty, cols[0]).order == [cols[0].name];
    }
  }

  /** Last write wins: each name maps to the value of its final registration. */
  lemma {:induction false} AddAllValues(c: Cols, cols: seq<Column>, name: string)
    ensures LastValue(cols, name).Some? ==> name in AddAll(c, cols).values && AddAll(c, cols).values[name] == LastValue(cols, name).value
    ensures LastValue(cols, name).None? ==> (name in AddAll(c, cols).values <==> name in c.values)
    ensures LastValue(cols, name).None? && name in c.values ==> AddAll(c, cols).values[name] == c.values[name]
    decreases |cols|
  {
    if cols != [] {
      var last := cols[|cols| - 1];
      var init := cols[..|cols| - 1];
      assert cols == init + [last];
      AddAllAppend(c, init, [last]);
      AddAllValues(c, init, name);
    }
  }

  /** The TMap of a CSV row: headers and values paired up in order. */
  function RowColumns(headers: seq<string>, values: seq<string>): (r: seq<Column>)
    requires |headers| == |values|
    ensures |r| == |headers|
  {
    seq(|headers|, i requires 0 <= i < |headers| => Column(headers[i], values[i]))
  }

  function Row(headers: seq<string>, values: seq<string>): Cols
    requires |headers| == |values|
  {
    AddAll(Empty, RowColumns(headers, values))
  }

  /** A header's value in the row is the value in the column of its last occurrence. */
  lemma RowLookup(headers: seq<string>, values: seq<string>, i: nat)
    requires |headers| == |values| && i < |headers|
    requires forall j :: i < j < |headers| ==> headers[j] != headers[i]
    ensures Valid(Row(headers, values))
    ensures headers[i] in Row(headers, values).values
    ensures Row(headers, values).values[headers[i]] == values[i]
  {
    var cols := RowColumns(headers, values);
    AddAllKeepsValid(Empty, cols);
    LastValueAt(cols, i);
    AddAllValues(Empty, cols, headers[i]);
  }

  lemma {:induction false} LastValueAt(cols: seq<Column>, i: nat)
    requires i < |cols|
    requires forall j :: i < j < |cols| ==> cols[j].name != cols[i].name
    ensures LastValue(cols, cols[i].name) == Some(cols[i].value)
    decreases |cols|
  {
    if i < |cols| - 1 {
      LastValueAt(cols[..|cols| - 1], i);
    }
  }

  /** A name that is not a header is not in the row. */
  lemma RowMissing(headers: seq<string>, values: seq<string>, name: string)
    requires |headers| == |values| && name !in headers
    ensures name !in Row(headers, values).values
  {
    var cols := RowColumns(headers, values);
    LastValueNone(cols, name);
    AddAllValues(Empty, cols, name);
  }

  lemma {:induction false} LastValueNone(cols: seq<Column>, name: string)
    requires forall j :: 0 <= j < |cols| ==> cols[j].name != name
    ensures LastValue(cols, name).None?
    decreases |cols|
  {
    if cols != [] {
      LastValueNone(cols[..|cols| - 1], name);
    }
  }

  /** The exporter's column map and order, updated in place. */
  class ColumnSink {
    var order: seq<string>
    var values: map<string, string>

    function State(): Cols
      reads this
    {
      Cols(order, values)
    }

    constructor ()
      ensures State() == Empty
    {
      order := [];
      values := map[];
    }

    /** The AddColumn lambda. */
    method AddColumn(col: Column)
      modifies this
      ensures State() == Add(old(State()), col)
    {
      if col.name !in values {
        order := order + [col.name];
      }
      values := values[col.name := col.value];
    }
  }
}
