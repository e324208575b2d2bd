/** The CSV serialiser of utils.js (`csvEscape`, `toCSV`, duplicated in app.js).
    Cells are quoted as rules 6 and 7 of section 2 of RFC 4180 say, records
    are separated by LF instead of CRLF, and every document ends in LF.
    `ReadField`, `ReadRecord` and `ParseCsv` are a reader for that dialect,
    used only to state what the writer guarantees. */
module Csv {
  import opened Json

  /** The characters that make `csvEscape` quote a cell: `"`, `,` and LF.
      A lone CR does not. */
  predicate NeedsQuotes(s: string)
  {
    '"' in s || ',' in s || '\n' in s
  }

  /** `s.replace(/"/g, '""')`. */
  function DoubleQuotes(s: string): string
  {
    if s == [] then []
    else (if s[0] == '"' then "\"\"" else [s[0]]) + DoubleQuotes(s[1..])
  }

  /** Doubling the quotes never shortens a text, and leaves a text without
      quotes as it is. */
  lemma {:induction false} DoubleQuotesKeeps(s: string)
    ensures |DoubleQuotes(s)| >= |s|
    ensures '"' !in s ==> DoubleQuotes(s) == s
  {
    if s != [] {
      DoubleQuotesKeeps(s[1..]);
      assert '"' !in s ==> '"' !in s[1..];
    }
  }

  /** Every `"` of `s` is the first of a pair `""` (the body of a quoted
      field, rule 7). */
  predicate PairedQuotes(s: string)
    decreases |s|
  {
    if s == [] then true
    else if s[0] == '"' then |s| >= 2 && s[1] == '"' && PairedQuotes(s[2..])
    else PairedQuotes(s[1..])
  }

  /** Collapses each `""` to `"`. */
  function CollapseQuotes(s: string): string
    decreases |s|
  {
    if s == [] then []
    else if |s| >= 2 && s[0] == '"' && s[1] == '"' then "\"" + CollapseQuotes(s[2..])
    else [s[0]] + CollapseQuotes(s[1..])
  }

  /** The text of a cell before quoting: `null` and `undefined` give the empty
      string, anything else `String(v)`. */
  function CellText(v: Value): string
  {
    if Nullish(v) then "" else ToStr(v)
  }

  /** The quoting step of `csvEscape`, on the cell's text. */
  function EscapeText(s: string): string
  {
    if NeedsQuotes(s) then "\"" + DoubleQuotes(s) + "\"" else s
  }

  /** `csvEscape(v)` (utils.js:17-21, app.js:258-262). */
  function CsvEscape(v: Value): (r: string)
    ensures Nullish(v) ==> r == ""
    ensures !NeedsQuotes(CellText(v)) ==> r == CellText(v)
    ensures NeedsQuotes(CellText(v)) ==>
      |r| >= 2 && r[0] == '"' && r[|r| - 1] == '"' &&
      PairedQuotes(r[1..|r| - 1]) && CollapseQuotes(r[1..|r| - 1]) == CellText(v)
  {
    var s := CellText(v);
    QuotedBody(s);
    EscapeText(s)
  }

  lemma {:induction false} DoubledIsPaired(s: string)
    ensures PairedQuotes(DoubleQuotes(s))
    ensures CollapseQuotes(DoubleQuotes(s)) == s
  {
    if s != [] {
      DoubledIsPaired(s[1..]);
      var rest := DoubleQuotes(s[1..]);
      if s[0] == '"' {
        assert DoubleQuotes(s) == "\"\"" + rest;
        assert (("\"\"" + rest)[2..]) == rest;
      } else {
        assert DoubleQuotes(s) == [s[0]] + rest;
        assert ([s[0]] + rest)[1..] == rest;
      }
    }
  }

  lemma QuotedBody(s: string)
    ensures NeedsQuotes(s) ==>
      var r := EscapeText(s);
      |r| >= 2 && r[0] == '"' && r[|r| - 1] == '"' &&
      r[1..|r| - 1] == DoubleQuotes(s) &&
      PairedQuotes(r[1..|r| - 1]) && CollapseQuotes(r[1..|r| - 1]) == s
  {
    DoubledIsPaired(s);
    var r := "\"" + DoubleQuotes(s) + "\"";
    assert r[1..|r| - 1] == DoubleQuotes(s);
  }

  /** `parts.join(sep)`. */
  function Join(parts: seq<string>, sep: string): string
  {
    if |parts| == 0 then ""
    else if |parts| == 1 then parts[0]
    else parts[0] + sep + Join(parts[1..], sep)
  }

  /** The cells of the header line, `headers.map(csvEscape)`. */
  function HeaderCells(headers: seq<string>): (cells: seq<string>)
    ensures |cells| == |headers|
    ensures forall i :: 0 <= i < |headers| ==> cells[i] == CsvEscape(Str(headers[i]))
  {
    seq(|headers|, i requires 0 <= i < |headers| => CsvEscape(Str(headers[i])))
  }

  /** The cells of one data line, `headers.map(h => csvEscape(r[h]))`: one
      per header, in header order; a row without the header's key gives an
      empty cell. */
  function RowCells(r: Row, headers: seq<string>): (cells: seq<string>)
    ensures |cells| == |headers|
    ensures forall i :: 0 <= i < |headers| ==> cells[i] == CsvEscape(Get(r, headers[i]))
    ensures forall i :: 0 <= i < |headers| && headers[i] !in r ==> cells[i] == ""
  {
    seq(|headers|, i requires 0 <= i < |headers| => CsvEscape(Get(r, headers[i])))
  }

  function DataLines(rows: seq<Row>, headers: seq<string>): (lines: seq<string>)
    ensures |lines| == |rows|
    ensures forall k :: 0 <= k < |rows| ==> lines[k] == Join(RowCells(rows[k], headers), ",")
  {
    seq(|rows|, k requires 0 <= k < |rows| => Join(RowCells(rows[k], headers), ","))
  }

  /** `toCSV(rows, headers)` (utils.js:35-41, app.js:273-277). */
  function ToCsv(rows: seq<Row>, headers: seq<string>): string
  {
    Join(HeaderCells(headers), ",") + "\n" + Join(DataLines(rows, headers), "\n") + "\n"
  }

  /** The texts the reader gets back from one row: `CellText` of each header's value. */
  function RowTexts(r: Row, headers: seq<string>): (texts: seq<string>)
    ensures |texts| == |headers|
  {
    seq(|headers|, i requires 0 <= i < |headers| => CellText(Get(r, headers[i])))
  }

  // ---------------------------------------------------------------------
  // A reader for the dialect: quoted fields as in RFC 4180, LF between records.

  /** Reads the rest of a quoted field after its opening quote: its content
      and what follows the closing quote. */
  function ReadQuoted(s: string): (r: (string, string))
    ensures |r.1| <= |s|
    decreases |s|
  {
    if s == [] then ("", [])
    else if s[0] == '"' then
      if |s| >= 2 && s[1] == '"' then
        var (c, rest) := ReadQuoted(s[2..]); ("\"" + c, rest)
      else ("", s[1..])
    else
      var (c, rest) := ReadQuoted(s[1..]); ([s[0]] + c, rest)
  }

  /** Reads an unquoted field: everything up to the next `,` or LF. */
  function ReadPlain(s: string): (r: (string, string))
    ensures |r.1| <= |s|
  {
    if s == [] || s[0] == ',' || s[0] == '\n' then ("", s)
    else
      var (c, rest) := ReadPlain(s[1..]); ([s[0]] + c, rest)
  }

  function ReadField(s: string): (r: (string, string))
    ensures |r.1| <= |s|
    ensures s != [] && s[0] == '"' ==> |r.1| < |s|
  {
    if s != [] && s[0] == '"' then ReadQuoted(s[1..]) else ReadPlain(s)
  }

  /** Reads one record and the LF that ends it. */
  function ReadRecord(s: string): (r: (seq<string>, string))
    ensures |r.1| <= |s|
    ensures s != [] ==> |r.1| < |s|
    decreases |s|
  {
    var (f, rest) := ReadField(s);
    if rest != [] && rest[0] == ',' then
      var (fs, rest2) := ReadRecord(rest[1..]); ([f] + fs, rest2)
    else if rest != [] && rest[0] == '\n' then ([f], rest[1..])
    else ([f], rest)
  }

  /** All records of a document. */
  function ParseCsv(s: string): seq<seq<string>>
    decreases |s|
  {
    if s == [] then [] else
      var (rec, rest) := ReadRecord(s);
      [rec] + ParseCsv(rest)
  }

  /** What may follow a field: nothing, the next field or the end of the record. */
  predicate FieldBoundary(t: string)
  {
    t == [] || t[0] == ',' || t[0] == '\n'
  }

  lemma {:induction false} ReadPlainBack(c: string, t: string)
    requires !NeedsQuotes(c) && FieldBoundary(t)
    ensures ReadPlain(c + t) == (c, t)
  {
    if c == [] {
      assert c + t == t;
    } else {
      assert !NeedsQuotes(c[1..]) by {
        assert forall x :: x in c[1..] ==> x in c;
      }
      ReadPlainBack(c[1..], t);
      assert (c + t)[1..] == c[1..] + t;
      assert [c[0]] + c[1..] == c;
    }
  }

  lemma {:induction false} ReadQuotedBack(c: string, t: string)
    requires FieldBoundary(t)
    ensures ReadQuoted(DoubleQuotes(c) + "\"" + t) == (c, t)
  {
    var s := DoubleQuotes(c) + "\"" + t;
    if c == [] {
      assert s == "\"" + t;
      assert s[1..] == t;
    } else {
      ReadQuotedBack(c[1..], t);
      var tail := DoubleQuotes(c[1..]) + "\"" + t;
      assert [c[0]] + c[1..] == c;
      if c[0] == '"' {
        assert s == "\"\"" + tail;
        assert s[2..] == tail;
      } else {
        assert s == [c[0]] + tail;
        assert s[1..] == tail;
      }
    }
  }

  /** Reading a written cell gives back its text, and stops at the boundary. */
  lemma ReadFieldBack(c: string, t: string)
    requires FieldBoundary(t)
    ensures ReadField(EscapeText(c) + t) == (c, t)
  {
    if NeedsQuotes(c) {
      var s := EscapeText(c) + t;
      assert s == "\"" + (DoubleQuotes(c) + "\"" + t);
      assert s[1..] == DoubleQuotes(c) + "\"" + t;
      ReadQuotedBack(c, t);
    } else {
      ReadPlainBack(c, t);
      if c != [] {
        assert c[0] in c;
      }
    }
  }

  function EscapeAll(texts: seq<string>): (cells: seq<string>)
    ensures |cells| == |texts|
    ensures forall i :: 0 <= i < |texts| ==> cells[i] == EscapeText(texts[i])
  {
    seq(|texts|, i requires 0 <= i < |texts| => EscapeText(texts[i]))
  }

  /** Reading a written record gives back its texts, and consumes its LF. */
  lemma {:induction false} ReadRecordBack(texts: seq<string>, u: string)
    requires |texts| > 0
    ensures ReadRecord(Join(EscapeAll(texts), ",") + "\n" + u) == (texts, u)
  {
    var cells := EscapeAll(texts);
    if |texts| == 1 {
      assert Join(cells, ",") == EscapeText(texts[0]);
      var t := "\n" + u;
      assert Join(cells, ",") + "\n" + u == EscapeText(texts[0]) + t;
      ReadFieldBack(texts[0], t);
      assert t[1..] == u;
      assert [texts[0]] == texts;
    } else {
      var tail := Join(EscapeAll(texts[1..]), ",") + "\n" + u;
      assert EscapeAll(texts[1..]) == cells[1..];
      var t := "," + tail;
      assert Join(cells, ",") + "\n" + u == EscapeText(texts[0]) + t;
      ReadFieldBack(texts[0], t);
      assert t[1..] == tail;
      ReadRecordBack(texts[1..], u);
      assert [texts[0]] + texts[1..] == texts;
    }
  }

  /** Each record written as its cells joined by `,`, followed by LF. */
  function Records(recs: seq<seq<string>>): string
  {
    if recs == [] then "" else Join(EscapeAll(recs[0]), ",") + "\n" + Records(recs[1..])
  }

  lemma {:induction false} ParseRecords(recs: seq<seq<string>>)
    requires forall k :: 0 <= k < |recs| ==> |recs[k]| > 0
    ensures ParseCsv(Records(recs)) == recs
  {
    if recs != [] {
      var line := Join(EscapeAll(recs[0]), ",");
      ReadRecordBack(recs[0], Records(recs[1..]));
      assert Records(recs) != [] by {
        assert |Records(recs)| >= |line + "\n"|;
      }
      ParseRecords(recs[1..]);
      assert [recs[0]] + recs[1..] == recs;
    }
  }

  lemma {:induction false} JoinLines(recs: seq<seq<string>>)
    requires |recs| > 0
    ensures Join(seq(|recs|, k requires 0 <= k < |recs| => Join(EscapeAll(recs[k]), ",")), "\n") + "\n"
         == Records(recs)
  {
    var lines := seq(|recs|, k requires 0 <= k < |recs| => Join(EscapeAll(recs[k]), ","));
    if |recs| > 1 {
      JoinLines(recs[1..]);
      var tailLines := seq(|recs| - 1, k requires 0 <= k < |recs| - 1 => Join(EscapeAll(recs[1..][k]), ","));
      assert lines[1..] == tailLines;
    }
  }

  lemma CellsAreEscapedTexts(r: Row, headers: seq<string>)
    ensures RowCells(r, headers) == EscapeAll(RowTexts(r, headers))
    ensures HeaderCells(headers) == EscapeAll(headers)
  {
    assert forall h :: CellText(Str(h)) == h;
  }

  /** The records the reader gets back from the rows. */
  function RowsTexts(rows: seq<Row>, headers: seq<string>): (recs: seq<seq<string>>)
    ensures |recs| == |rows|
    ensures forall k :: 0 <= k < |rows| ==> recs[k] == RowTexts(rows[k], headers)
  {
    seq(|rows|, k requires 0 <= k < |rows| => RowTexts(rows[k], headers))
  }

  lemma DataLinesAreRecords(rows: seq<Row>, headers: seq<string>)
    requires |headers| > 0 && rows != []
    ensures Join(DataLines(rows, headers), "\n") + "\n" == Records(RowsTexts(rows, headers))
  {
    var recs := RowsTexts(rows, headers);
    forall k | 0 <= k < |rows| {
      CellsAreEscapedTexts(rows[k], headers);
    }
    assert DataLines(rows, headers) == seq(|recs|, k requires 0 <= k < |recs| => Join(EscapeAll(recs[k]), ","));
    JoinLines(recs);
  }

  /** Reading back what `toCSV` writes gives the headers and then, one record
      per row, the text of each header's cell. */
  lemma ToCsvReadsBack(rows: seq<Row>, headers: seq<string>)
    requires |headers| > 0 && rows != []
    ensures ParseCsv(ToCsv(rows, headers)) == [headers] + RowsTexts(rows, headers)
  {
    CellsAreEscapedTexts(map[], headers);
    var recs := [headers] + RowsTexts(rows, headers);
    DataLinesAreRecords(rows, headers);
    assert recs[1..] == RowsTexts(rows, headers);
    var a := Join(EscapeAll(headers), ",");
    var j := Join(DataLines(rows, headers), "\n");
    assert ToCsv(rows, headers) == a + "\n" + j + "\n";
    assert a + "\n" + j + "\n" == a + "\n" + (j + "\n");
    assert Records(recs) == a + "\n" + Records(recs[1..]);
    ParseRecords(recs);
  }

  /** With no rows the reader sees the header record and one empty record. */
  lemma ToCsvNoRowsReadsBack(headers: seq<string>)
    requires |headers| > 0
    ensures ParseCsv(ToCsv([], headers)) == [headers, [""]]
  {
    CellsAreEscapedTexts(map[], headers);
    var two := [headers, [""]];
    assert ToCsv([], headers) == Join(EscapeAll(headers), ",") + "\n" + "" + "\n";
    assert EscapeAll([""]) == [""];
    assert two[1..] == [[""]];
    assert Records([[""]]) == "" + "\n" + Records([]);
    var a := Join(EscapeAll(headers), ",");
    assert Records(two) == a + "\n" + Records([[""]]);
    assert ToCsv([], headers) == Records(two);
    ParseRecords(two);
  }

  /** The shape `toCSV` promises: the header line, LF, the data lines joined
      by LF, LF; with no rows that is the header line and two LFs. */
  lemma ToCsvShape(rows: seq<Row>, headers: seq<string>)
    ensures rows == [] ==> ToCsv(rows, headers) == Join(HeaderCells(headers), ",") + "\n\n"
    ensures rows != [] ==>
      ToCsv(rows, headers) == Join([Join(HeaderCells(headers), ",")] + DataLines(rows, headers), "\n") + "\n"
  {
    var head := Join(HeaderCells(headers), ",");
    var lines := DataLines(rows, headers);
    if rows == [] {
      assert ToCsv(rows, headers) == head + "\n" + "" + "\n";
    } else {
      var all := [head] + lines;
      assert all[1..] == lines;
    }
  }

  /** With a single column, a document with no rows and one with a single row
      that lacks the column are the same text. */
  lemma EmptyRowIsIndistinguishable(h: string)
    ensures ToCsv([], [h]) == ToCsv([map[]], [h])
  {
    assert DataLines([map[]], [h]) == [""];
  }
}
