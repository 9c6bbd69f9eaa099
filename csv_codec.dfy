/**
 * The CSV line codec and the list-cell micro-codec of both handlers.
 *
 * Both use one quote-aware splitter: a '"' outside quotes opens quoting
 * (wherever it appears in a field), a '""' inside quotes is one literal '"', a
 * lone '"' inside quotes closes quoting, and the separator splits only outside
 * quotes. CSV lines split on ',', list cells on ';'.
 */
module CsvCodec {

  const Quote: char := '"'
  const Comma: char := ','
  const Semicolon: char := ';'

  /** Value.Replace("\"", "\"\""). */
  function DoubleQuotes(v: string): (r: string)
    ensures |r| >= |v|
  {
    if v == [] then []
    else (if v[0] == Quote then [Quote, Quote] else [v[0]]) + DoubleQuotes(v[1..])
  }

  /** A value written as a quoted field: wrapped in '"' with every '"' doubled. */
  function Quoted(v: string): (r: string)
    ensures |r| >= |v| + 2 && r[0] == Quote && r[|r| - 1] == Quote
  {
    [Quote] + DoubleQuotes(v) + [Quote]
  }

  predicate NeedsCsvQuoting(v: string)
  {
    Comma in v || Quote in v || '\n' in v || '\r' in v
  }

  predicate NeedsListQuoting(v: string)
  {
    Semicolon in v || Quote in v
  }

  /** EscapeCSVString: the input unchanged unless it holds ',', '"', LF or CR. */
  function EscapeCsvString(v: string): (r: string)
    ensures r == v <==> !NeedsCsvQuoting(v)
    ensures r != v ==> r == Quoted(v)
  {
    if NeedsCsvQuoting(v) then Quoted(v) else v
  }

  /** EscapeListItem: the input unchanged unless it holds ';' or '"'. */
  function EscapeListItem(v: string): (r: string)
    ensures r == v <==> !NeedsListQuoting(v)
    ensures r != v ==> r == Quoted(v)
  {
    if NeedsListQuoting(v) then Quoted(v) else v
  }

  /**
   * The splitter as a state machine over the unread input `s`: `inQuotes` and
   * `cur` (the field being read) are its state and `done` the fields already
   * closed. When the input ends, the current field is closed too.
   */
  function Split(s: string, sep: char, inQuotes: bool, cur: string, done: seq<string>): seq<string>
    decreases |s|
  {
    if s == [] then done + [cur]
    else if inQuotes then
      if s[0] == Quote then
        if |s| > 1 && s[1] == Quote then Split(s[2..], sep, true, cur + [Quote], done)
        else Split(s[1..], sep, false, cur, done)
      else Split(s[1..], sep, true, cur + [s[0]], done)
    else if s[0] == Quote then Split(s[1..], sep, true, cur, done)
    else if s[0] == sep then Split(s[1..], sep, false, [], done + [cur])
    else Split(s[1..], sep, false, cur + [s[0]], done)
  }

  /** The fields ParseCSVLine returns for `line`. */
  function ParseCsv(line: string): seq<string>
  {
    Split(line, Comma, false, [], [])
  }

  /** The items ParseListCell returns for `cell`: none for the empty cell. */
  function ParseList(cell: string): seq<string>
  {
    if cell == [] then [] else Split(cell, Semicolon, false, [], [])
  }

  /** The items joined with `sep` between them. */
  function Join(items: seq<string>, sep: char): string
    decreases |items|
  {
    if |items| == 0 then []
    else if |items| == 1 then items[0]
    else Join(items[..|items| - 1], sep) + [sep] + items[|items| - 1]
  }

  /** Every item followed by `sep`, as the export loops build their text. */
  function Terminated(items: seq<string>, sep: char): string
    decreases |items|
  {
    if items == [] then [] else Terminated(items[..|items| - 1], sep) + items[|items| - 1] + [sep]
  }

  /** FString::RemoveFromEnd with a one-character suffix. */
  function RemoveTrailing(s: string, c: char): string
  {
    if s != [] && s[|s| - 1] == c then s[..|s| - 1] else s
  }

  function EscapeAllCsv(items: seq<string>): (r: seq<string>)
    ensures |r| == |items| && forall i :: 0 <= i < |items| ==> r[i] == EscapeCsvString(items[i])
  {
    if items == [] then [] else [EscapeCsvString(items[0])] + EscapeAllCsv(items[1..])
  }

  function EscapeAllList(items: seq<string>): (r: seq<string>)
    ensures |r| == |items| && forall i :: 0 <= i < |items| ==> r[i] == EscapeListItem(items[i])
  {
    if items == [] then [] else [EscapeListItem(items[0])] + EscapeAllList(items[1..])
  }

  /** The list cell JoinListCell writes for `items`. */
  function JoinList(items: seq<string>): string
  {
    Join(EscapeAllList(items), Semicolon)
  }

  /** A CSV line whose cells are the escaped values (the data line of an export). */
  function CsvLine(values: seq<string>): string
  {
    Join(EscapeAllCsv(values), Comma)
  }

  // ---------------------------------------------------------------------------
  // The loops of the source, proved against the functions above.

  /** ParseCSVLine. */
  method ParseCsvLine(line: string) returns (fields: seq<string>)
    ensures fields == ParseCsv(line)
    ensures |fields| >= 1
  {
    fields := SplitLoop(line, Comma);
    SplitHasAField(line, Comma, false, [], []);
  }

  /** ParseListCell. */
  method ParseListCell(cell: string) returns (items: seq<string>)
    ensures items == ParseList(cell)
    ensures cell == [] <==> items == []
  {
    if cell == [] {
      return [];
    }
    items := SplitLoop(cell, Semicolon);
    SplitHasAField(cell, Semicolon, false, [], []);
  }

  /** The character loop shared by ParseCSVLine and ParseListCell. */
  method SplitLoop(s: string, sep: char) returns (result: seq<string>)
    ensures result == Split(s, sep, false, [], [])
  {
    result := [];
    var current: string := [];
    var inQuotes := false;
    var i := 0;
    while i < |s|
      invariant 0 <= i <= |s|
      invariant Split(s[i..], sep, inQuotes, current, result) == Split(s, sep, false, [], [])
      decreases |s| - i
    {
      var c := s[i];
      assert s[i..][0] == c && s[i..][1..] == s[i + 1..];
      if inQuotes {
        if c == Quote {
          if i + 1 < |s| && s[i + 1] == Quote {
            assert s[i..][1] == s[i + 1] && s[i..][2..] == s[i + 2..];
            current := current + [Quote];
            i := i + 1;
          } else {
            inQuotes := false;
          }
        } else {
          current := current + [c];
        }
      } else {
        if c == Quote {
          inQuotes := true;
        } else if c == sep {
          result := result + [current];
          current := [];
        } else {
          current := current + [c];
        }
      }
      i := i + 1;
    }
    assert s[i..] == [];
    result := result + [current];
  }

  /** JoinListCell: each escaped item followed by ';', then the last ';' removed. */
  method JoinListCell(items: seq<string>) returns (cell: string)
    ensures cell == JoinList(items)
  {
    ghost var escaped := EscapeAllList(items);
    cell := [];
    var i := 0;
    while i < |items|
      invariant 0 <= i <= |items|
      invariant cell == Terminated(escaped[..i], Semicolon)
    {
      var item := EscapeListItem(items[i]);
      TerminatedPrefix(escaped, i, Semicolon);
      cell := cell + item + [Semicolon];
      i := i + 1;
    }
    assert escaped[..i] == escaped;
    RemoveTrailingTerminated(escaped, Semicolon);
    cell := RemoveTrailing(cell, Semicolon);
  }

  // ---------------------------------------------------------------------------
  // Properties of the codec.

  lemma {:induction false} SplitHasAField(s: string, sep: char, inQuotes: bool, cur: string, done: seq<string>)
    ensures |Split(s, sep, inQuotes, cur, done)| > |done|
    decreases |s|
  {
    if s == [] {
    } else if inQuotes {
      if s[0] == Quote {
        if |s| > 1 && s[1] == Quote {
          SplitHasAField(s[2..], sep, true, cur + [Quote], done);
        } else {
          SplitHasAField(s[1..], sep, false, cur, done);
        }
      } else {
        SplitHasAField(s[1..], sep, true, cur + [s[0]], done);
      }
    } else if s[0] == Quote {
      SplitHasAField(s[1..], sep, true, cur, done);
    } else if s[0] == sep {
      SplitHasAField(s[1..], sep, false, [], done + [cur]);
    } else {
      SplitHasAField(s[1..], sep, false, cur + [s[0]], done);
    }
  }

  /**
   * The number of separators the splitter reads outside quotes, tracking the
   * quote state the same way (a doubled quote inside quotes stays inside).
   */
  function SepsOutsideQuotes(s: string, sep: char, inQuotes: bool): nat
    decreases |s|
  {
    if s == [] then 0
    else if inQuotes then
      if s[0] == Quote then
        if |s| > 1 && s[1] == Quote then SepsOutsideQuotes(s[2..], sep, true)
        else SepsOutsideQuotes(s[1..], sep, false)
      else SepsOutsideQuotes(s[1..], sep, true)
    else if s[0] == Quote then SepsOutsideQuotes(s[1..], sep, true)
    else (if s[0] == sep then 1 else 0) + SepsOutsideQuotes(s[1..], sep, false)
  }

  lemma {:induction false} SplitCount(s: string, sep: char, inQuotes: bool, cur: string, done: seq<string>)
    requires sep != Quote
    ensures |Split(s, sep, inQuotes, cur, done)| == |done| + 1 + SepsOutsideQuotes(s, sep, inQuotes)
    decreases |s|
  {
    if s == [] {
    } else if inQuotes {
      if s[0] == Quote {
        if |s| > 1 && s[1] == Quote {
          SplitCount(s[2..], sep, true, cur + [Quote], done);
        } else {
          SplitCount(s[1..], sep, false, cur, done);
        }
      } else {
        SplitCount(s[1..], sep, true, cur + [s[0]], done);
      }
    } else if s[0] == Quote {
      SplitCount(s[1..], sep, true, cur, done);
    } else if s[0] == sep {
      SplitCount(s[1..], sep, false, [], done + [cur]);
    } else {
      SplitCount(s[1..], sep, false, cur + [s[0]], done);
    }
  }

  /** ParseCSVLine returns one field more than the commas it reads outside quotes. */
  lemma ParseCsvFieldCount(line: string)
    ensures |ParseCsv(line)| == 1 + SepsOutsideQuotes(line, Comma, false)
  {
    SplitCount(line, Comma, false, [], []);
  }

  /** Unquoted text free of the separator and of '"' is copied into the current field. */
  lemma {:induction false} SplitPlain(v: string, tail: string, sep: char, cur: string, done: seq<string>)
    requires sep !in v && Quote !in v
    ensures Split(v + tail, sep, false, cur, done) == Split(tail, sep, false, cur + v, done)
    decreases |v|
  {
    if v != [] {
      assert (v + tail)[0] == v[0] && (v + tail)[1..] == v[1..] + tail;
      SplitPlain(v[1..], tail, sep, cur + [v[0]], done);
      assert cur + [v[0]] + v[1..] == cur + v;
    } else {
      assert v + tail == tail && cur + v == cur;
    }
  }

  /** Inside quotes, a doubled-quote body and its closing quote give back the body. */
  lemma {:induction false} SplitQuotedBody(v: string, tail: string, sep: char, cur: string, done: seq<string>)
    requires tail == [] || tail[0] != Quote
    ensures Split(DoubleQuotes(v) + [Quote] + tail, sep, true, cur, done) == Split(tail, sep, false, cur + v, done)
    decreases |v|
  {
    var s := DoubleQuotes(v) + [Quote] + tail;
    if v == [] {
      assert s == [Quote] + tail;
      assert s[1..] == tail;
      assert !(|s| > 1 && s[1] == Quote);
      assert cur + v == cur;
    } else if v[0] == Quote {
      assert s == [Quote, Quote] + (DoubleQuotes(v[1..]) + [Quote] + tail);
      assert s[2..] == DoubleQuotes(v[1..]) + [Quote] + tail;
      SplitQuotedBody(v[1..], tail, sep, cur + [Quote], done);
      assert cur + [Quote] + v[1..] == cur + v;
    } else {
      assert s == [v[0]] + (DoubleQuotes(v[1..]) + [Quote] + tail);
      assert s[1..] == DoubleQuotes(v[1..]) + [Quote] + tail;
      SplitQuotedBody(v[1..], tail, sep, cur + [v[0]], done);
      assert cur + [v[0]] + v[1..] == cur + v;
    }
  }

  /** `e` is a correct encoding of `v` for separator `sep`: verbatim when safe, else quoted. */
  predicate Encodes(e: string, v: string, sep: char)
  {
    (e == v && sep !in v && Quote !in v) || e == Quoted(v)
  }

  lemma SplitEncoded(e: string, v: string, tail: string, sep: char, done: seq<string>)
    requires sep != Quote && Encodes(e, v, sep)
    requires tail == [] || tail[0] == sep
    ensures Split(e + tail, sep, false, [], done) == Split(tail, sep, false, v, done)
  {
    if e == v && sep !in v && Quote !in v {
      SplitPlain(v, tail, sep, [], done);
      assert [] + v == v;
    } else {
      var s := e + tail;
      assert s == [Quote] + (DoubleQuotes(v) + [Quote] + tail);
      assert s[1..] == DoubleQuotes(v) + [Quote] + tail;
      SplitQuotedBody(v, tail, sep, [], done);
      assert [] + v == v;
    }
  }

  lemma {:induction false} JoinFront(items: seq<string>, sep: char)
    requires |items| >= 2
    ensures Join(items, sep) == items[0] + [sep] + Join(items[1..], sep)
    decreases |items|
  {
    if |items| > 2 {
      JoinFront(items[..|items| - 1], sep);
      assert items[..|items| - 1][1..] == items[1..][..|items[1..]| - 1];
      assert items[..|items| - 1][0] == items[0];
    } else {
      assert items[..1] == [items[0]];
    }
  }

  /** Splitting the join of encoded fields gives back the fields. */
  lemma {:induction false} SplitJoinEncoded(encoded: seq<string>, values: seq<string>, sep: char, done: seq<string>)
    requires sep != Quote && |encoded| == |values| >= 1
    requires forall i :: 0 <= i < |values| ==> Encodes(encoded[i], values[i], sep)
    ensures Split(Join(encoded, sep), sep, false, [], done) == done + values
    decreases |values|
  {
    if |values| == 1 {
      SplitEncoded(encoded[0], values[0], [], sep, done);
      assert encoded[0] + [] == encoded[0];
      assert done + [values[0]] == done + values;
    } else {
      JoinFront(encoded, sep);
      var rest := Join(encoded[1..], sep);
      assert Join(encoded, sep) == encoded[0] + ([sep] + rest);
      SplitEncoded(encoded[0], values[0], [sep] + rest, sep, done);
      assert ([sep] + rest)[1..] == rest;
      SplitJoinEncoded(encoded[1..], values[1..], sep, done + [values[0]]);
      assert done + [values[0]] + values[1..] == done + values;
    }
  }

  /** ParseCSVLine inverts the comma-join of escaped values. */
  lemma CsvLineRoundTrip(values: seq<string>)
    requires |values| >= 1
    ensures ParseCsv(CsvLine(values)) == values
  {
    var e := EscapeAllCsv(values);
    forall i | 0 <= i < |values| ensures Encodes(e[i], values[i], Comma) {
    }
    SplitJoinEncoded(e, values, Comma, []);
  }

  /** A line of values none of which needs quoting is read back unchanged. */
  lemma PlainLineRoundTrip(values: seq<string>)
    requires |values| >= 1
    requires forall i :: 0 <= i < |values| ==> Comma !in values[i] && Quote !in values[i]
    ensures ParseCsv(Join(values, Comma)) == values
  {
    SplitJoinEncoded(values, values, Comma, []);
  }

  lemma {:induction false} RemoveTrailingTerminated(items: seq<string>, sep: char)
    ensures RemoveTrailing(Terminated(items, sep), sep) == Join(items, sep)
    decreases |items|
  {
    if items != [] {
      var init := items[..|items| - 1];
      var t := Terminated(items, sep);
      assert t == Terminated(init, sep) + items[|items| - 1] + [sep];
      assert t[..|t| - 1] == Terminated(init, sep) + items[|items| - 1];
      if |items| > 1 {
        RemoveTrailingTerminated(init, sep);
        assert init != [];
        TerminatedEndsWithSep(init, sep);
        var ti := Terminated(init, sep);
        assert ti == ti[..|ti| - 1] + [sep];
      } else {
        assert init == [];
      }
    }
  }

  lemma TerminatedSnoc(items: seq<string>, item: string, sep: char)
    ensures Terminated(items + [item], sep) == Terminated(items, sep) + item + [sep]
  {
    assert (items + [item])[..|items|] == items;
  }

  /** Dropping a trailing character only looks at the last part of a non-empty tail. */
  lemma RemoveTrailingAfter(front: string, t: string, c: char)
    requires t != []
    ensures RemoveTrailing(front + t, c) == front + RemoveTrailing(t, c)
  {
    if t[|t| - 1] == c {
      assert (front + t)[..|front + t| - 1] == front + t[..|t| - 1];
    }
  }

  lemma TerminatedPrefix(items: seq<string>, i: nat, sep: char)
    requires i < |items|
    ensures Terminated(items[..i + 1], sep) == Terminated(items[..i], sep) + items[i] + [sep]
  {
    assert items[..i + 1][..i] == items[..i];
  }

  /** The step of a loop that appends an item and a separator after some leading text. */
  lemma TerminatedAppend(front: string, items: seq<string>, i: nat, sep: char)
    requires i < |items|
    ensures front + Terminated(items[..i], sep) + items[i] + [sep] == front + Terminated(items[..i + 1], sep)
  {
    TerminatedPrefix(items, i, sep);
  }

  lemma TerminatedEndsWithSep(items: seq<string>, sep: char)
    requires items != []
    ensures var t := Terminated(items, sep); t != [] && t[|t| - 1] == sep
  {
  }

  lemma JoinOfEmptyItem(items: seq<string>)
    requires items == [""]
    ensures JoinList(items) == ""
  {
    assert EscapeListItem("") == "";
  }

  /**
   * ParseListCell inverts JoinListCell for every list except [""], which joins
   * to the empty cell and so reads back as the empty list.
   */
  lemma ListCellRoundTrip(items: seq<string>)
    ensures ParseList(JoinList(items)) == items <==> items != [""]
  {
    var e := EscapeAllList(items);
    if items == [] {
    } else if items == [""] {
      JoinOfEmptyItem(items);
    } else {
      forall i | 0 <= i < |items| ensures Encodes(e[i], items[i], Semicolon) {
      }
      SplitJoinEncoded(e, items, Semicolon, []);
      assert Join(e, Semicolon) != [] by {
        if |items| == 1 {
          assert items[0] != "";
          assert |e[0]| >= |items[0]|;
        } else {
          JoinFront(e, Semicolon);
        }
      }
    }
  }

  /** ParseListCell("") is the empty list. */
  lemma EmptyCellIsEmptyList()
    ensures ParseList("") == []
  {
  }
}
