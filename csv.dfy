/**
 * `csv(rows, headers)` (src/server/src/index.js): every cell is written
 * between double quotes with each double quote inside doubled, cells are
 * joined by `,` and lines by `\n` (no trailing newline), header line first.
 * The partner of the encoder is a reader for exactly that layout; the two
 * form a round trip.
 */
module Csv {
  import opened Wrappers
  import opened Text

  /** `String(v).replace(/"/g, '""')`. */
  function DoubleQuotes(v: string): (r: string)
    ensures |r| >= |v|
  {
    if v == [] then [] else (if v[0] == '"' then "\"\"" else [v[0]]) + DoubleQuotes(v[1..])
  }

  /** The cell encoder `esc`. */
  function Esc(v: string): (r: string)
    ensures |r| >= 2 && r[0] == '"' && r[|r| - 1] == '"'
  {
    "\"" + DoubleQuotes(v) + "\""
  }

  /** `esc` with its default parameter: an undefined cell is written as the empty value. */
  function EscCell(v: Option<string>): (r: string)
    ensures v.None? ==> r == "\"\""
    ensures v.Some? ==> r == Esc(v.value)
  {
    Esc(v.GetOr(""))
  }

  function Escaped(cells: seq<string>): (r: seq<string>)
    ensures |r| == |cells|
    ensures forall i :: 0 <= i < |cells| ==> r[i] == Esc(cells[i])
  {
    if cells == [] then [] else [Esc(cells[0])] + Escaped(cells[1..])
  }

  /** One line: `r.map(esc).join(",")`. */
  function Line(cells: seq<string>): string {
    Join(",", Escaped(cells))
  }

  function Lines(records: seq<seq<string>>): (r: seq<string>)
    ensures |r| == |records|
    ensures forall i :: 0 <= i < |records| ==> r[i] == Line(records[i])
  {
    if records == [] then [] else [Line(records[0])] + Lines(records[1..])
  }

  /** `csv(rows, headers)`. */
  function Encode(rows: seq<seq<string>>, headers: seq<string>): string {
    Join("\n", Lines([headers] + rows))
  }

  // ------------------------------------------------------------------ reader

  /**
   * Reads the rest of a quoted cell, after its opening quote: a doubled quote
   * stands for one quote, a single quote closes the cell. Gives the value and
   * the text after the closing quote.
   */
  function Unquote(s: string): (r: Option<(string, string)>)
    ensures r.Some? ==> |r.value.1| < |s|
    decreases |s|
  {
    if s == [] then None
    else if s[0] == '"' then
      if |s| >= 2 && s[1] == '"' then
        match Unquote(s[2..])
        case None => None
        case Some(p) => Some(("\"" + p.0, p.1))
      else Some(([], s[1..]))
    else
      match Unquote(s[1..])
      case None => None
      case Some(p) => Some(([s[0]] + p.0, p.1))
  }

  /** Reads one quoted cell. */
  function ParseCell(s: string): (r: Option<(string, string)>)
    ensures r.Some? ==> |r.value.1| < |s|
  {
    if s == [] || s[0] != '"' then None else Unquote(s[1..])
  }

  /** Reads the cells of one line, up to the end of the line or of the text. */
  function ParseCells(s: string): (r: Option<(seq<string>, string)>)
    ensures r.Some? ==> |r.value.1| < |s|
    decreases |s|
  {
    match ParseCell(s)
    case None => None
    case Some(c) =>
      if c.1 != [] && c.1[0] == ',' then
        match ParseCells(c.1[1..])
        case None => None
        case Some(more) => Some(([c.0] + more.0, more.1))
      else Some(([c.0], c.1))
  }

  /** Reads a whole text as lines of quoted cells. */
  function Parse(s: string): (r: Option<seq<seq<string>>>)
    decreases |s|
  {
    match ParseCells(s)
    case None => None
    case Some(c) =>
      if c.1 == [] then Some([c.0])
      else if c.1[0] == '\n' then
        match Parse(c.1[1..])
        case None => None
        case Some(more) => Some([c.0] + more)
      else None
  }

  // ------------------------------------------------------------------ lemmas

  /** A quoted value, closed, reads back as the value; the text after it is left alone. */
  lemma {:induction false} UnquoteRoundTrip(v: string, rest: string)
    requires rest == [] || rest[0] != '"'
    ensures Unquote(DoubleQuotes(v) + "\"" + rest) == Some((v, rest))
    decreases |v|
  {
    var s := DoubleQuotes(v) + "\"" + rest;
    if v == [] {
      assert s == "\"" + rest;
      assert s[1..] == rest;
    } else {
      UnquoteRoundTrip(v[1..], rest);
      UnquoteStep(v, rest);
    }
  }

  /** One character of the value, doubled if it is a quote, read back ahead of the rest. */
  lemma UnquoteStep(v: string, rest: string)
    requires v != []
    requires Unquote(DoubleQuotes(v[1..]) + "\"" + rest) == Some((v[1..], rest))
    ensures Unquote(DoubleQuotes(v) + "\"" + rest) == Some((v, rest))
  {
    var d := DoubleQuotes(v[1..]);
    var h := if v[0] == '"' then "\"\"" else [v[0]];
    var q := "\"" + rest;
    assert DoubleQuotes(v) == h + d;
    Regroup(d, "\"", rest);
    Regroup(h + d, "\"", rest);
    Regroup(h, d, q);
    if v[0] == '"' {
      UnquoteQuote(d + q, v[1..], rest);
      assert "\"" + v[1..] == v;
    } else {
      UnquoteOther(v[0], d + q, v[1..], rest);
      assert [v[0]] + v[1..] == v;
    }
  }

  /** Concatenation is associative. */
  lemma Regroup(h: string, d: string, t: string)
    ensures h + d + t == h + (d + t)
  {
  }

  /** A doubled quote reads back as one quote. */
  lemma UnquoteQuote(t: string, w: string, rest: string)
    requires Unquote(t) == Some((w, rest))
    ensures Unquote("\"\"" + t) == Some(("\"" + w, rest))
  {
    var s := "\"\"" + t;
    assert s[0] == '"' && s[1] == '"' && s[2..] == t;
  }

  /** Any other character reads back as itself. */
  lemma UnquoteOther(c: char, t: string, w: string, rest: string)
    requires c != '"' && Unquote(t) == Some((w, rest))
    ensures Unquote([c] + t) == Some(([c] + w, rest))
  {
    assert ([c] + t)[1..] == t;
  }

  /** An encoded cell reads back as its value. */
  lemma CellRoundTrip(v: string, rest: string)
    requires rest == [] || rest[0] != '"'
    ensures ParseCell(Esc(v) + rest) == Some((v, rest))
  {
    UnquoteRoundTrip(v, rest);
    assert (Esc(v) + rest)[1..] == DoubleQuotes(v) + "\"" + rest;
  }

  /** An encoded line reads back as its cells, up to a line break or the end. */
  lemma {:induction false} LineRoundTrip(cells: seq<string>, rest: string)
    requires cells != []
    requires rest == [] || rest[0] == '\n'
    ensures ParseCells(Line(cells) + rest) == Some((cells, rest))
    decreases |cells|
  {
    var e := Escaped(cells);
    if |cells| == 1 {
      assert Line(cells) == Esc(cells[0]);
      CellRoundTrip(cells[0], rest);
      assert cells == [cells[0]];
    } else {
      LineRoundTrip(cells[1..], rest);
      LineStep(cells, rest);
    }
  }

  /** The first cell, its comma, then cells that read back: all of them read back. */
  lemma LineStep(cells: seq<string>, rest: string)
    requires |cells| > 1
    requires ParseCells(Line(cells[1..]) + rest) == Some((cells[1..], rest))
    ensures ParseCells(Line(cells) + rest) == Some((cells, rest))
  {
    var tail := Line(cells[1..]) + rest;
    LineSplit(cells, rest);
    ParseCellsCons(cells[0], tail, cells[1..], rest);
    assert [cells[0]] + cells[1..] == cells;
  }

  /** A line of several cells is the first cell, a comma, and the line of the others. */
  lemma LineSplit(cells: seq<string>, rest: string)
    requires |cells| > 1
    ensures Line(cells) + rest == Esc(cells[0]) + ("," + (Line(cells[1..]) + rest))
  {
    var e := Escaped(cells);
    assert Escaped(cells[1..]) == e[1..];
    assert Line(cells) == Esc(cells[0]) + "," + Line(cells[1..]);
    JoinRegroup(Esc(cells[0]), ",", Line(cells[1..]), rest);
  }

  /** `a + sep + b + rest` regrouped to the right. */
  lemma JoinRegroup(a: string, sep: string, b: string, rest: string)
    ensures a + sep + b + rest == a + (sep + (b + rest))
  {
  }

  /** A cell followed by a comma and cells that read back reads back ahead of them. */
  lemma ParseCellsCons(v: string, t: string, more: seq<string>, rest: string)
    requires ParseCells(t) == Some((more, rest))
    ensures ParseCells(Esc(v) + ("," + t)) == Some(([v] + more, rest))
  {
    CellRoundTrip(v, "," + t);
    assert ("," + t)[1..] == t;
  }

  /** Encoded lines joined by line breaks read back as the records. */
  lemma {:induction false} LinesRoundTrip(records: seq<seq<string>>)
    requires records != []
    requires forall i :: 0 <= i < |records| ==> records[i] != []
    ensures Parse(Join("\n", Lines(records))) == Some(records)
    decreases |records|
  {
    var ls := Lines(records);
    if |records| == 1 {
      LineRoundTrip(records[0], []);
      assert Join("\n", ls) + [] == Line(records[0]) + [];
      assert Join("\n", ls) == Join("\n", ls) + [];
      assert records == [records[0]];
    } else {
      LinesRoundTrip(records[1..]);
      LinesStep(records);
    }
  }

  /** The first record, its line break, then records that read back: all of them read back. */
  lemma LinesStep(records: seq<seq<string>>)
    requires |records| > 1 && records[0] != []
    requires Parse(Join("\n", Lines(records[1..]))) == Some(records[1..])
    ensures Parse(Join("\n", Lines(records))) == Some(records)
  {
    var tail := Join("\n", Lines(records[1..]));
    LinesSplit(records);
    LineRoundTrip(records[0], "\n" + tail);
    ParseCons(Line(records[0]), tail, records);
  }

  /** Several lines joined are the first line, a line break, and the others joined. */
  lemma LinesSplit(records: seq<seq<string>>)
    requires |records| > 1
    ensures Join("\n", Lines(records)) == Line(records[0]) + ("\n" + Join("\n", Lines(records[1..])))
  {
    var ls := Lines(records);
    assert Lines(records[1..]) == ls[1..];
    Regroup(Line(records[0]), "\n", Join("\n", ls[1..]));
  }

  /** A line whose cells read back, then a line break and records that read back: all of them read back. */
  lemma ParseCons(line: string, t: string, records: seq<seq<string>>)
    requires records != []
    requires ParseCells(line + ("\n" + t)) == Some((records[0], "\n" + t))
    requires Parse(t) == Some(records[1..])
    ensures Parse(line + ("\n" + t)) == Some(records)
  {
    assert ("\n" + t)[1..] == t;
    assert [records[0]] + records[1..] == records;
  }

  /**
   * Reading the encoder's output gives back the header line and every row,
   * each cell unquoted (a record needs at least one cell: an empty record
   * writes an empty line, which is not a cell).
   */
  lemma EncodeRoundTrip(rows: seq<seq<string>>, headers: seq<string>)
    requires headers != []
    requires forall i :: 0 <= i < |rows| ==> rows[i] != []
    ensures Parse(Encode(rows, headers)) == Some([headers] + rows)
  {
    var records := [headers] + rows;
    forall i | 0 <= i < |records| ensures records[i] != [] {
      if i > 0 { assert records[i] == rows[i - 1]; }
    }
    LinesRoundTrip(records);
  }

  /** The text has no trailing line break: it ends with the closing quote of the last cell. */
  lemma {:induction false} JoinEndsWithLast(sep: string, parts: seq<string>)
    requires parts != [] && parts[|parts| - 1] != []
    ensures Join(sep, parts) != [] && Join(sep, parts)[|Join(sep, parts)| - 1] == parts[|parts| - 1][|parts[|parts| - 1]| - 1]
    decreases |parts|
  {
    if |parts| > 1 {
      JoinEndsWithLast(sep, parts[1..]);
    }
  }

  lemma EncodeEndsWithQuote(rows: seq<seq<string>>, headers: seq<string>)
    requires headers != []
    requires forall i :: 0 <= i < |rows| ==> rows[i] != []
    ensures Encode(rows, headers)[|Encode(rows, headers)| - 1] == '"'
  {
    var records := [headers] + rows;
    var last := records[|records| - 1];
    assert last != [] by { if |rows| > 0 { assert last == rows[|rows| - 1]; } }
    var ls := Lines(records);
    var e := Escaped(last);
    JoinEndsWithLast(",", e);
    JoinEndsWithLast("\n", ls);
  }
}
