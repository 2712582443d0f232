/** The CSV export of the reports page (apps/web/src/app/reports/page.tsx):
    the text `downloadCSV` builds and the export file names. Cells are
    quoted as in section 2 of RFC 4180, with two departures: lines end in
    LF rather than CRLF, and the header line is not quoted. */
module CsvExport {
  import opened Wrappers

  /** `String(cell).replace(/"/g, '""')`. */
  function EscapeQuotes(s: string): (r: string)
    ensures |r| >= |s|
    ensures '\n' !in s ==> '\n' !in r
    decreases |s|
  {
    if s == [] then []
    else (if s[0] == '"' then "\"\"" else [s[0]]) + EscapeQuotes(s[1..])
  }

  /** One data cell as emitted: wrapped in double quotes, inner quotes doubled. */
  function QuoteCell(s: string): (r: string)
    ensures |r| >= 2 && r[0] == '"' && r[|r| - 1] == '"'
    ensures '\n' !in s ==> '\n' !in r
  {
    "\"" + EscapeQuotes(s) + "\""
  }

  /** Reads an escaped body back: `""` becomes `"`; a lone quote is malformed. */
  function UnescapeQuotes(t: string): (r: Option<string>)
    decreases |t|
  {
    if t == [] then Some([])
    else if t[0] != '"' then
      match UnescapeQuotes(t[1..])
      case None => None
      case Some(rest) => Some([t[0]] + rest)
    else if |t| >= 2 && t[1] == '"' then
      match UnescapeQuotes(t[2..])
      case None => None
      case Some(rest) => Some("\"" + rest)
    else None
  }

  /** A reader's view of one quoted field: strip the outer quotes, undouble
      the inner ones. */
  function Unquote(t: string): Option<string> {
    if |t| >= 2 && t[0] == '"' && t[|t| - 1] == '"' then UnescapeQuotes(t[1..|t| - 1]) else None
  }

  lemma {:induction false} UnescapeEscape(s: string)
    ensures UnescapeQuotes(EscapeQuotes(s)) == Some(s)
    decreases |s|
  {
    if s != [] {
      var rest := EscapeQuotes(s[1..]);
      UnescapeEscape(s[1..]);
      if s[0] == '"' {
        assert EscapeQuotes(s) == "\"\"" + rest;
        assert (EscapeQuotes(s))[2..] == rest;
        assert s == "\"" + s[1..];
      } else {
        assert EscapeQuotes(s) == [s[0]] + rest;
        assert (EscapeQuotes(s))[1..] == rest;
        assert s == [s[0]] + s[1..];
      }
    }
  }

  /** Unquoting an emitted cell gives the original cell back. */
  lemma QuoteCellRoundTrip(s: string)
    ensures Unquote(QuoteCell(s)) == Some(s)
  {
    var q := QuoteCell(s);
    assert q[1..|q| - 1] == EscapeQuotes(s);
    UnescapeEscape(s);
  }

  /** `parts.join(sep)`. */
  function JoinWith(parts: seq<string>, sep: char): string
    decreases |parts|
  {
    if parts == [] then []
    else if |parts| == 1 then parts[0]
    else parts[0] + [sep] + JoinWith(parts[1..], sep)
  }

  /** `s.split(sep)`: the pieces between separators (at least one). */
  function Split(s: string, sep: char): (r: seq<string>)
    ensures |r| >= 1
    decreases |s|
  {
    if s == [] then [[]]
    else if s[0] == sep then [[]] + Split(s[1..], sep)
    else
      var rest := Split(s[1..], sep);
      [[s[0]] + rest[0]] + rest[1..]
  }

  lemma {:induction false} SplitNoSep(p: string, sep: char)
    requires sep !in p
    ensures Split(p, sep) == [p]
    decreases |p|
  {
    if p != [] {
      SplitNoSep(p[1..], sep);
      assert [p[0]] + p[1..] == p;
    }
  }

  lemma {:induction false} SplitAfterPiece(p: string, sep: char, rest: string)
    requires sep !in p
    ensures Split(p + [sep] + rest, sep) == [p] + Split(rest, sep)
    decreases |p|
  {
    var s := p + [sep] + rest;
    if p == [] {
      assert s == [sep] + rest;
      assert s[1..] == rest;
    } else {
      assert s[1..] == p[1..] + [sep] + rest;
      SplitAfterPiece(p[1..], sep, rest);
      assert [p[0]] + p[1..] == p;
    }
  }

  /** Splitting a join at the separator gives the parts back, provided no
      part contains the separator. */
  lemma {:induction false} SplitJoin(parts: seq<string>, sep: char)
    requires |parts| >= 1
    requires forall k :: 0 <= k < |parts| ==> sep !in parts[k]
    ensures Split(JoinWith(parts, sep), sep) == parts
    decreases |parts|
  {
    if |parts| == 1 {
      SplitNoSep(parts[0], sep);
    } else {
      SplitJoin(parts[1..], sep);
      SplitAfterPiece(parts[0], sep, JoinWith(parts[1..], sep));
      assert [parts[0]] + parts[1..] == parts;
    }
  }

  lemma {:induction false} JoinWithout(parts: seq<string>, sep: char, c: char)
    requires c != sep
    requires forall k :: 0 <= k < |parts| ==> c !in parts[k]
    ensures c !in JoinWith(parts, sep)
    decreases |parts|
  {
    if |parts| > 1 {
      JoinWithout(parts[1..], sep, c);
    }
  }

  /** The cells of one data line: each cell reads back unchanged, and no
      line break is introduced. */
  function QuoteRow(row: seq<string>): (r: seq<string>)
    ensures |r| == |row|
    ensures forall k :: 0 <= k < |row| ==> Unquote(r[k]) == Some(row[k])
    ensures NoNewline(row) ==> NoNewline(r)
  {
    assert forall k :: 0 <= k < |row| ==> Unquote(QuoteCell(row[k])) == Some(row[k]) by {
      forall k | 0 <= k < |row| ensures Unquote(QuoteCell(row[k])) == Some(row[k]) {
        QuoteCellRoundTrip(row[k]);
      }
    }
    seq(|row|, k requires 0 <= k < |row| => QuoteCell(row[k]))
  }

  /** The lines of the file: the header line, then one line per row. */
  function CsvLines(headers: seq<string>, rows: seq<seq<string>>): (r: seq<string>)
    ensures |r| == |rows| + 1
    ensures r[0] == JoinWith(headers, ',')
    ensures forall k :: 0 <= k < |rows| ==> r[k + 1] == QuotedLine(rows[k])
  {
    var data := seq(|rows|, k requires 0 <= k < |rows| => QuotedLine(rows[k]));
    var r := [JoinWith(headers, ',')] + data;
    assert forall k :: 0 <= k < |data| ==> r[k + 1] == data[k];
    r
  }

  /** One data line: the row's cells quoted, joined by commas. */
  function QuotedLine(row: seq<string>): string {
    JoinWith(QuoteRow(row), ',')
  }

  /** `csvContent`: the lines joined with LF. When no header or cell holds a
      line break, splitting the content at LF gives the lines back. */
  function CsvContent(headers: seq<string>, rows: seq<seq<string>>): (r: string)
    ensures NoNewline(headers) && (forall k :: 0 <= k < |rows| ==> NoNewline(rows[k])) ==>
      Split(r, '\n') == CsvLines(headers, rows)
  {
    LinesSplitBack(headers, rows);
    JoinWith(CsvLines(headers, rows), '\n')
  }

  lemma LinesSplitBack(headers: seq<string>, rows: seq<seq<string>>)
    ensures NoNewline(headers) && (forall k :: 0 <= k < |rows| ==> NoNewline(rows[k])) ==>
      Split(JoinWith(CsvLines(headers, rows), '\n'), '\n') == CsvLines(headers, rows)
  {
    if NoNewline(headers) && (forall k :: 0 <= k < |rows| ==> NoNewline(rows[k])) {
      var lines := CsvLines(headers, rows);
      JoinWithout(headers, ',', '\n');
      forall k | 0 <= k < |lines| ensures '\n' !in lines[k] {
        if k > 0 {
          JoinWithout(QuoteRow(rows[k - 1]), ',', '\n');
        }
      }
      SplitJoin(lines, '\n');
    }
  }

  predicate NoNewline(cells: seq<string>) {
    forall k :: 0 <= k < |cells| ==> '\n' !in cells[k]
  }

  /** When no header or cell holds a line break, the content has exactly
      rows + 1 lines: the unquoted header line, then each row's cells
      quoted and joined by commas, and every cell reads back unchanged. */
  lemma CsvLineStructure(headers: seq<string>, rows: seq<seq<string>>)
    requires NoNewline(headers)
    requires forall k :: 0 <= k < |rows| ==> NoNewline(rows[k])
    ensures var lines := Split(CsvContent(headers, rows), '\n');
      && |lines| == |rows| + 1
      && lines[0] == JoinWith(headers, ',')
      && (forall k :: 0 <= k < |rows| ==> lines[k + 1] == JoinWith(QuoteRow(rows[k]), ','))
  {
  }

  /** The export file name: the prefix, `-from-<dateFrom>` and
      `-to-<dateTo>` only for non-empty dates, then `.csv`. */
  function ExportFilename(prefix: string, dateFrom: string, dateTo: string): (r: string)
    ensures |r| >= |prefix| + 4 && r[..|prefix|] == prefix && r[|r| - 4..] == ".csv"
    ensures dateFrom == "" && dateTo == "" ==> r == prefix + ".csv"
    ensures dateFrom != "" && dateTo == "" ==> r == prefix + "-from-" + dateFrom + ".csv"
    ensures dateFrom == "" && dateTo != "" ==> r == prefix + "-to-" + dateTo + ".csv"
    ensures dateFrom != "" && dateTo != "" ==> r == prefix + "-from-" + dateFrom + "-to-" + dateTo + ".csv"
  {
    prefix + (if dateFrom != "" then "-from-" + dateFrom else "") + (if dateTo != "" then "-to-" + dateTo else "") + ".csv"
  }

  /** What `downloadCSV` hands to the browser. */
  datatype CsvFile = CsvFile(filename: string, content: string)

  /** An export handler: nothing when there is no data, otherwise one file. */
  function Export(filename: string, headers: seq<string>, rows: seq<seq<string>>): (r: Option<CsvFile>)
    ensures r.None? <==> |rows| == 0
    ensures r.Some? ==> r.value.filename == filename && r.value.content == CsvContent(headers, rows)
    ensures r.Some? && NoNewline(headers) && (forall k :: 0 <= k < |rows| ==> NoNewline(rows[k])) ==>
      |Split(r.value.content, '\n')| == |rows| + 1
  {
    if |rows| == 0 then None else Some(CsvFile(filename, CsvContent(headers, rows)))
  }
}
