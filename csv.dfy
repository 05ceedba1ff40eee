/** The CSV export of the Data and Reports pages. A cell is written by `esc`:
    quotes are doubled and the field is wrapped in quotes when it holds a quote,
    a comma or a line feed, as in rules 5-7 of section 2 of RFC 4180, except
    that records are separated by a bare line feed and a carriage return alone
    does not cause quoting. Next to the writer sits a reader for that
    dialect, so that what the export promises can be stated as a round trip. */
module Csv {
  import opened Text
  import opened Json

  // ------------------------------------------------------------------ cells

  /** The test `/[",\n]/.test(s)`. */
  predicate NeedsQuotes(s: string)
  {
    '"' in s || ',' in s || '\n' in s
  }

  /** `s.replace(/"/g, '""')`. */
  function DoubleQuotes(s: string): (t: string)
    ensures |t| >= |s|
    decreases |s|
  {
    if s == [] then [] else (if s[0] == '"' then "\"\"" else [s[0]]) + DoubleQuotes(s[1..])
  }

  /** Doubling leaves quote-free text alone and adds or removes no comma,
      line feed or quote character. */
  lemma {:induction false} DoubleQuotesKeeps(s: string)
    ensures '"' !in s ==> DoubleQuotes(s) == s
    ensures (',' in DoubleQuotes(s) <==> ',' in s) && ('\n' in DoubleQuotes(s) <==> '\n' in s)
    ensures '"' in DoubleQuotes(s) <==> '"' in s
    decreases |s|
  {
    if s != [] {
      DoubleQuotesKeeps(s[1..]);
      assert s == [s[0]] + s[1..];
    }
  }

  /** The reading side of `DoubleQuotes`: every `""` becomes `"`. */
  function Undouble(t: string): string
    decreases |t|
  {
    if t == [] then []
    else if |t| >= 2 && t[0] == '"' && t[1] == '"' then "\"" + Undouble(t[2..])
    else [t[0]] + Undouble(t[1..])
  }

  lemma {:induction false} UndoubleDouble(s: string)
    ensures Undouble(DoubleQuotes(s)) == s
    decreases |s|
  {
    if s != [] {
      UndoubleDouble(s[1..]);
      var rest := DoubleQuotes(s[1..]);
      if s[0] == '"' {
        assert DoubleQuotes(s) == "\"\"" + rest;
        assert DoubleQuotes(s)[2..] == rest;
      } else {
        assert DoubleQuotes(s) == [s[0]] + rest;
        assert DoubleQuotes(s)[1..] == rest;
      }
      assert s == [s[0]] + s[1..];
    }
  }

  /** `esc` applied to a text: doubled quotes, wrapped in quotes exactly when needed. */
  function EscapeText(s: string): (e: string)
    ensures !NeedsQuotes(s) ==> e == s
    ensures NeedsQuotes(s) <==> (|e| > 0 && e[0] == '"')
    ensures NeedsQuotes(s) ==> |e| >= 2 && e[|e| - 1] == '"' && e[1..|e| - 1] == DoubleQuotes(s)
  {
    DoubleQuotesKeeps(s);
    var d := DoubleQuotes(s);
    if NeedsQuotes(s) then "\"" + d + "\"" else d
  }

  /** Dropping the wrapping quotes and un-doubling: how a CSV reader recovers a cell. */
  function Unescape(e: string): string
  {
    if |e| >= 2 && e[0] == '"' && e[|e| - 1] == '"' then Undouble(e[1..|e| - 1]) else e
  }

  lemma EscapeRoundTrip(s: string)
    ensures Unescape(EscapeText(s)) == s
  {
    if NeedsQuotes(s) {
      UndoubleDouble(s);
    }
  }

  /** `esc(v)` of the Data and Reports pages: null and undefined give the empty
      text; anything else is the escaped form of the text the cell shows. */
  function Esc(v: Value): (e: string)
    ensures v.Null? || v.Undefined? ==> e == ""
    ensures e == EscapeText(FormatCell(v))
    ensures Unescape(e) == FormatCell(v)
  {
    EscapeRoundTrip(FormatCell(v));
    if v.Null? || v.Undefined? then ""
    else
      var s := if v.Obj? then v.json else StringOf(v);
      var d := DoubleQuotes(s);
      if NeedsQuotes(s) then "\"" + d + "\"" else d
  }

  // --------------------------------------------------------------- the export

  /** The escaped cells of one row, one per column, in column order. */
  function EscCells(cols: seq<string>, row: Row): (cells: seq<string>)
    ensures |cells| == |cols|
    ensures forall j :: 0 <= j < |cols| ==> cells[j] == Esc(Get(row, cols[j]))
    decreases |cols|
  {
    if cols == [] then [] else [Esc(Get(row, cols[0]))] + EscCells(cols[1..], row)
  }

  /** `rows.map(r => cols.map(c => esc(r[c])).join(","))`. */
  function Lines(cols: seq<string>, rows: seq<Row>): (ls: seq<string>)
    ensures |ls| == |rows|
    ensures forall i :: 0 <= i < |rows| ==> ls[i] == Join(EscCells(cols, rows[i]), ",")
    decreases |rows|
  {
    if rows == [] then [] else [Join(EscCells(cols, rows[0]), ",")] + Lines(cols, rows[1..])
  }

  /** `[header, body].join("\n")` with the header the column names joined by commas
      (not escaped) and the body the lines joined by line feeds. */
  function CsvText(cols: seq<string>, rows: seq<Row>): string
  {
    Join(cols, ",") + "\n" + Join(Lines(cols, rows), "\n")
  }

  /** The texts a reader should get back for the body: each row's cells as shown. */
  function CellTexts(cols: seq<string>, row: Row): (ts: seq<string>)
    ensures |ts| == |cols|
    ensures forall j :: 0 <= j < |cols| ==> ts[j] == FormatCell(Get(row, cols[j]))
    decreases |cols|
  {
    if cols == [] then [] else [FormatCell(Get(row, cols[0]))] + CellTexts(cols[1..], row)
  }

  function Table(cols: seq<string>, rows: seq<Row>): (t: seq<seq<string>>)
    ensures |t| == |rows|
    ensures forall i :: 0 <= i < |rows| ==> t[i] == CellTexts(cols, rows[i])
    decreases |rows|
  {
    if rows == [] then [] else [CellTexts(cols, rows[0])] + Table(cols, rows[1..])
  }

  // ------------------------------------------------- a reader for the dialect

  /** The body of a quoted field, after its opening quote, up to the closing quote. */
  function ReadQuoted(s: string): (r: (string, string))
    ensures |r.1| <= |s|
    decreases |s|
  {
    if s == [] then ("", "")
    else if s[0] == '"' then
      if |s| >= 2 && s[1] == '"' then
        var (f, rest) := ReadQuoted(s[2..]);
        ("\"" + f, rest)
      else ("", s[1..])
    else
      var (f, rest) := ReadQuoted(s[1..]);
      ([s[0]] + f, rest)
  }

  /** An unquoted field: everything up to the next comma or line feed. */
  function ReadBare(s: string): (r: (string, string))
    ensures |r.1| <= |s|
    decreases |s|
  {
    if s == [] || s[0] == ',' || s[0] == '\n' then ("", s)
    else
      var (f, rest) := ReadBare(s[1..]);
      ([s[0]] + f, rest)
  }

  function ReadField(s: string): (r: (string, string))
    ensures |r.1| <= |s|
  {
    if s != [] && s[0] == '"' then ReadQuoted(s[1..]) else ReadBare(s)
  }

  /** The fields of one record and the input after it. */
  function ReadRecord(s: string): (r: (seq<string>, string))
    ensures |r.1| <= |s|
    ensures |r.0| > 0
    decreases |s|
  {
    var (f, rest) := ReadField(s);
    if rest != [] && rest[0] == ',' then
      var (fs, rest2) := ReadRecord(rest[1..]);
      ([f] + fs, rest2)
    else ([f], rest)
  }

  /** All records of a CSV text; a line feed separates two records. */
  function ParseCsv(s: string): seq<seq<string>>
    decreases |s|
  {
    var (rec, rest) := ReadRecord(s);
    if rest != [] then [rec] + ParseCsv(rest[1..]) else [rec]
  }

  // ------------------------------------------------------ writer meets reader

  predicate EndsField(rest: string)
  {
    rest == [] || rest[0] == ',' || rest[0] == '\n'
  }

  lemma ReadQuotedClose(rest: string)
    requires EndsField(rest)
    ensures ReadQuoted("\"" + rest) == ("", rest)
  {
    var x := "\"" + rest;
    assert x[0] == '"' && x[1..] == rest;
  }

  lemma ReadQuotedPair(y: string)
    ensures ReadQuoted("\"\"" + y) == ("\"" + ReadQuoted(y).0, ReadQuoted(y).1)
  {
    var x := "\"\"" + y;
    assert x[0] == '"' && x[1] == '"' && x[2..] == y;
  }

  lemma ReadQuotedChar(c: char, y: string)
    requires c != '"'
    ensures ReadQuoted([c] + y) == ([c] + ReadQuoted(y).0, ReadQuoted(y).1)
  {
    var x := [c] + y;
    assert x[0] == c && x[1..] == y;
  }

  lemma {:induction false} ReadQuotedDoubled(s: string, rest: string)
    requires EndsField(rest)
    ensures ReadQuoted(DoubleQuotes(s) + "\"" + rest) == (s, rest)
    decreases |s|
  {
    var close := "\"" + rest;
    assert DoubleQuotes(s) + "\"" + rest == DoubleQuotes(s) + close;
    if s == [] {
      assert DoubleQuotes(s) + close == close;
      ReadQuotedClose(rest);
    } else {
      ReadQuotedDoubled(s[1..], rest);
      assert DoubleQuotes(s[1..]) + "\"" + rest == DoubleQuotes(s[1..]) + close;
      ReadQuotedHead(s, close);
      assert s == [s[0]] + s[1..];
    }
  }

  /** Reading the doubled form of a non-empty text gives back its first
      character, then reads on after it. */
  lemma ReadQuotedHead(s: string, y: string)
    requires s != []
    ensures ReadQuoted(DoubleQuotes(s) + y) ==
      ([s[0]] + ReadQuoted(DoubleQuotes(s[1..]) + y).0, ReadQuoted(DoubleQuotes(s[1..]) + y).1)
  {
    var z := DoubleQuotes(s[1..]) + y;
    if s[0] == '"' {
      assert DoubleQuotes(s) + y == "\"\"" + z;
      ReadQuotedPair(z);
    } else {
      assert DoubleQuotes(s) + y == [s[0]] + z;
      ReadQuotedChar(s[0], z);
    }
  }

  lemma {:induction false} ReadBarePlain(s: string, rest: string)
    requires !NeedsQuotes(s) && EndsField(rest)
    ensures ReadBare(s + rest) == (s, rest)
    decreases |s|
  {
    if s == [] {
      assert s + rest == rest;
    } else {
      ReadBarePlain(s[1..], rest);
      assert s + rest == [s[0]] + (s[1..] + rest);
      assert s == [s[0]] + s[1..];
    }
  }

  lemma ReadFieldEscaped(s: string, rest: string)
    requires EndsField(rest)
    ensures ReadField(EscapeText(s) + rest) == (s, rest)
  {
    if NeedsQuotes(s) {
      ReadFieldQuoted(s, rest);
    } else {
      ReadFieldPlain(s, rest);
    }
  }

  lemma ReadFieldQuoted(s: string, rest: string)
    requires NeedsQuotes(s) && EndsField(rest)
    ensures ReadField(EscapeText(s) + rest) == (s, rest)
  {
    var y := DoubleQuotes(s) + "\"" + rest;
    var x := "\"" + y;
    assert EscapeText(s) + rest == x;
    assert x[0] == '"' && x[1..] == y;
    ReadQuotedDoubled(s, rest);
  }

  lemma ReadFieldPlain(s: string, rest: string)
    requires !NeedsQuotes(s) && EndsField(rest)
    ensures ReadField(EscapeText(s) + rest) == (s, rest)
  {
    ReadBarePlain(s, rest);
    if s != [] {
      assert s[0] != '"' by { assert s[0] in s; }
      assert (s + rest)[0] == s[0];
    }
  }

  /** The escaped fields of one record. */
  function EscapeAll(fs: seq<string>): (es: seq<string>)
    ensures |es| == |fs|
    decreases |fs|
  {
    if fs == [] then [] else [EscapeText(fs[0])] + EscapeAll(fs[1..])
  }

  function EncodeRecord(fs: seq<string>): string
  {
    Join(EscapeAll(fs), ",")
  }

  function EncodeAll(t: seq<seq<string>>): (ls: seq<string>)
    ensures |ls| == |t|
    decreases |t|
  {
    if t == [] then [] else [EncodeRecord(t[0])] + EncodeAll(t[1..])
  }

  function EncodeTable(t: seq<seq<string>>): string
  {
    Join(EncodeAll(t), "\n")
  }

  lemma {:induction false} ReadRecordEncoded(fs: seq<string>, rest: string)
    requires |fs| > 0
    requires rest == [] || rest[0] == '\n'
    ensures ReadRecord(EncodeRecord(fs) + rest) == (fs, rest)
    decreases |fs|
  {
    var es := EscapeAll(fs);
    if |fs| == 1 {
      assert es == [EscapeText(fs[0])];
      ReadRecordLast(fs[0], rest);
      assert fs == [fs[0]];
    } else {
      var tail := EncodeRecord(fs[1..]);
      assert es[1..] == EscapeAll(fs[1..]);
      assert EncodeRecord(fs) + rest == EscapeText(fs[0]) + "," + (tail + rest);
      ReadRecordEncoded(fs[1..], rest);
      ReadRecordNext(fs[0], tail + rest);
      assert fs == [fs[0]] + fs[1..];
    }
  }

  /** The last field of a record is read up to the end of the record. */
  lemma ReadRecordLast(f: string, rest: string)
    requires rest == [] || rest[0] == '\n'
    ensures ReadRecord(EscapeText(f) + rest) == ([f], rest)
  {
    ReadFieldEscaped(f, rest);
  }

  /** A field followed by a comma is read, then the record goes on after the comma. */
  lemma ReadRecordNext(f: string, tail: string)
    ensures ReadRecord(EscapeText(f) + "," + tail) == ([f] + ReadRecord(tail).0, ReadRecord(tail).1)
  {
    var after := "," + tail;
    assert EscapeText(f) + "," + tail == EscapeText(f) + after;
    ReadFieldEscaped(f, after);
    assert after[1..] == tail;
  }

  /** A reader gets back exactly the records that were written, provided no
      record is empty. */
  lemma {:induction false} ParseEncoded(t: seq<seq<string>>)
    requires |t| > 0
    requires forall i :: 0 <= i < |t| ==> |t[i]| > 0
    ensures ParseCsv(EncodeTable(t)) == t
    decreases |t|
  {
    var ls := EncodeAll(t);
    if |t| == 1 {
      assert EncodeTable(t) == EncodeRecord(t[0]) + "";
      ReadRecordEncoded(t[0], "");
    } else {
      var tail := Join(ls[1..], "\n");
      assert ls[1..] == EncodeAll(t[1..]);
      assert EncodeTable(t) == EncodeRecord(t[0]) + ("\n" + tail);
      ReadRecordEncoded(t[0], "\n" + tail);
      ParseEncoded(t[1..]);
      assert ("\n" + tail)[1..] == EncodeTable(t[1..]);
      assert t == [t[0]] + t[1..];
    }
  }

  lemma {:induction false} EscCellsAreEscapedTexts(cols: seq<string>, row: Row)
    ensures EscCells(cols, row) == EscapeAll(CellTexts(cols, row))
    decreases |cols|
  {
    if cols != [] {
      EscCellsAreEscapedTexts(cols[1..], row);
    }
  }

  lemma {:induction false} LinesAreEncodedRows(cols: seq<string>, rows: seq<Row>)
    ensures Lines(cols, rows) == EncodeAll(Table(cols, rows))
    decreases |rows|
  {
    if rows != [] {
      EscCellsAreEscapedTexts(cols, rows[0]);
      LinesAreEncodedRows(cols, rows[1..]);
    }
  }

  lemma {:induction false} PlainNamesEscapeToThemselves(cols: seq<string>)
    requires forall j :: 0 <= j < |cols| ==> !NeedsQuotes(cols[j])
    ensures EscapeAll(cols) == cols
    decreases |cols|
  {
    if cols != [] {
      PlainNamesEscapeToThemselves(cols[1..]);
    }
  }

  /** The export is faithful: reading the CSV text back gives the column names
      as the first record and, for every row, the text of each column's cell in
      column order. This needs at least one column and one row, and column names
      without a quote, comma or line feed, since the header is not escaped. */
  lemma CsvRoundTrip(cols: seq<string>, rows: seq<Row>)
    requires |cols| > 0 && |rows| > 0
    requires forall j :: 0 <= j < |cols| ==> !NeedsQuotes(cols[j])
    ensures ParseCsv(CsvText(cols, rows)) == [cols] + Table(cols, rows)
  {
    var t := [cols] + Table(cols, rows);
    PlainNamesEscapeToThemselves(cols);
    LinesAreEncodedRows(cols, rows);
    assert EncodeAll(t) == [EncodeRecord(cols)] + EncodeAll(Table(cols, rows)) by {
      assert t[1..] == Table(cols, rows);
    }
    assert EncodeRecord(cols) == Join(cols, ",");
    assert EncodeTable(t) == CsvText(cols, rows);
    ParseEncoded(t);
  }

  // ---------------------------------------------------------- the file name

  /** What a CSV button hands to the browser: the name to save under and the text. */
  datatype Download = Download(fileName: string, text: string)

  /** The name a download is saved under: `label.replace(/\W+/g, "_") + ".csv"`. */
  function FileName(name: string): string
  {
    Collapse(IsNonWordChar, '_', name) + ".csv"
  }

  /** Every run of characters outside `\w` becomes one `_`: the name is the
      extension after a stem of word characters no longer than the label, the
      stem is empty only for an empty label, and a label of word characters
      is its own stem. */
  lemma FileNameShape(name: string)
    ensures |FileName(name)| >= 4
    ensures FileName(name)[|FileName(name)| - 4..] == ".csv"
    ensures |FileName(name)| - 4 <= |name|
    ensures forall i :: 0 <= i < |FileName(name)| - 4 ==> IsWordChar(FileName(name)[i])
    ensures |FileName(name)| == 4 <==> name == []
    ensures (forall i :: 0 <= i < |name| ==> IsWordChar(name[i])) ==> FileName(name) == name + ".csv"
  {
    var stem := Collapse(IsNonWordChar, '_', name);
    CollapseChars(IsNonWordChar, '_', name);
    forall i | 0 <= i < |stem| ensures IsWordChar(stem[i]) {
      assert stem[i] in stem;
    }
    assert FileName(name)[..|stem|] == stem;
    if forall i :: 0 <= i < |name| ==> IsWordChar(name[i]) {
      CollapseIdentity(IsNonWordChar, '_', name);
    }
  }

  /** A run of characters outside `\w` between two word characters (or the
      ends of the label) becomes one `_`, and the parts on either side are
      named as they would be on their own: "a!!b" is saved as "a_b.csv". */
  lemma FileNameRun(a: string, w: string, b: string)
    requires a == [] || IsWordChar(a[|a| - 1])
    requires b == [] || IsWordChar(b[0])
    requires w != [] && forall i :: 0 <= i < |w| ==> IsNonWordChar(w[i])
    ensures FileName(a + w + b) ==
              Collapse(IsNonWordChar, '_', a) + "_" + Collapse(IsNonWordChar, '_', b) + ".csv"
  {
    CollapseAppend(IsNonWordChar, '_', a, w);
    CollapseAppend(IsNonWordChar, '_', a + w, b);
    CollapseRun(IsNonWordChar, '_', w);
  }

  /** The example above, worked out. */
  lemma FileNameExample()
    ensures FileName("a!!b") == "a_b.csv"
  {
    FileNameRun("a", "!!", "b");
    assert "a" + "!!" + "b" == "a!!b";
    CollapseIdentity(IsNonWordChar, '_', "a");
    CollapseIdentity(IsNonWordChar, '_', "b");
  }
}
