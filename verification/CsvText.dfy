/**
 * The CSV reader of the import: line split, quote-aware line splitter, and the
 * round trip with the quoting of section 2 of RFC 4180.
 */
module CsvText {

  // ----- reading -----

  /** What is left of a line, the field read so far, and whether a quote is open. */
  function Scan(s: string, cur: string, inQuotes: bool): seq<string>
    decreases |s|
  {
    if s == "" then [cur]
    else if s[0] == '"' then
      if inQuotes && |s| > 1 && s[1] == '"' then Scan(s[2..], cur + ['"'], inQuotes)
      else Scan(s[1..], cur, !inQuotes)
    else if s[0] == ',' && !inQuotes then [cur] + Scan(s[1..], "", inQuotes)
    else Scan(s[1..], cur + [s[0]], inQuotes)
  }

  method SplitCsvLine(line: string) returns (fields: seq<string>)
    ensures fields == Scan(line, "", false)
  {
    fields := [];
    var cur: string, inQuotes := "", false;
    var i := 0;
    while i < |line|
      invariant 0 <= i <= |line|
      invariant fields + Scan(line[i..], cur, inQuotes) == Scan(line, "", false)
    {
      var ch := line[i];
      assert line[i..][0] == ch && line[i..][1..] == line[i + 1..];
      if ch == '"' {
        if inQuotes && i + 1 < |line| && line[i + 1] == '"' {
          assert line[i..][1] == '"' && line[i..][2..] == line[i + 2..];
          cur := cur + ['"'];
          i := i + 1;
        } else {
          inQuotes := !inQuotes;
        }
      } else if ch == ',' && !inQuotes {
        assert fields + ([cur] + Scan(line[i + 1..], "", inQuotes)) == (fields + [cur]) + Scan(line[i + 1..], "", inQuotes);
        fields := fields + [cur];
        cur := "";
      } else {
        cur := cur + [ch];
      }
      i := i + 1;
    }
    assert line[i..] == "";
    fields := fields + [cur];
  }

  /** Position of the first line feed, or the length. */
  function FirstLf(text: string): (k: nat)
    ensures k <= |text| && (forall j :: 0 <= j < k ==> text[j] != '\n') && (k < |text| ==> text[k] == '\n')
  {
    if text == "" || text[0] == '\n' then 0 else 1 + FirstLf(text[1..])
  }

  function StripCr(line: string): string {
    if line != "" && line[|line| - 1] == '\r' then line[..|line| - 1] else line
  }

  /** Split at every line feed, with the carriage return before it. */
  function Lines(text: string): seq<string>
    decreases |text|
  {
    var k := FirstLf(text);
    if k == |text| then [text] else [StripCr(text[..k])] + Lines(text[k + 1..])
  }

  function NonEmpty(lines: seq<string>): seq<string> {
    if lines == [] then []
    else (if |lines[0]| > 0 then [lines[0]] else []) + NonEmpty(lines[1..])
  }

  function ScanAll(lines: seq<string>): seq<seq<string>> {
    seq(|lines|, i requires 0 <= i < |lines| => Scan(lines[i], "", false))
  }

  function ParseCsv(text: string): seq<seq<string>> {
    ScanAll(NonEmpty(Lines(text)))
  }

  // ----- writing -----

  datatype Cell = Quoted(text: string) | Bare(text: string)

  /** A record and its line end; both forms of line end are read alike. */
  datatype Record = Record(cells: seq<Cell>, crlf: bool)

  function Escape(t: string): string {
    if t == "" then "" else (if t[0] == '"' then ['"', '"'] else [t[0]]) + Escape(t[1..])
  }

  function RenderCell(c: Cell): string {
    match c
    case Quoted(t) => ['"'] + (Escape(t) + ['"'])
    case Bare(t) => t
  }

  function RenderCells(cells: seq<Cell>): string {
    if cells == [] then ""
    else if |cells| == 1 then RenderCell(cells[0])
    else RenderCell(cells[0]) + ([','] + RenderCells(cells[1..]))
  }

  function LineEnd(crlf: bool): string {
    if crlf then ['\r', '\n'] else ['\n']
  }

  /** Terminated records, then perhaps one without a line end. */
  function Render(records: seq<Record>, last: seq<Cell>): string {
    if records == [] then RenderCells(last)
    else RenderCells(records[0].cells) + (LineEnd(records[0].crlf) + Render(records[1..], last))
  }

  /** A quoted field may hold anything but a line feed; a bare one no quote, comma or line end. */
  predicate Writable(c: Cell) {
    match c
    case Quoted(t) => '\n' !in t
    case Bare(t) => '"' !in t && ',' !in t && '\n' !in t && '\r' !in t
  }

  predicate AllWritable(cells: seq<Cell>) {
    forall k :: 0 <= k < |cells| ==> Writable(cells[k])
  }

  function Texts(cells: seq<Cell>): seq<string> {
    seq(|cells|, i requires 0 <= i < |cells| => cells[i].text)
  }

  /** A record with no cells and a record of one bare empty field are both the empty line. */
  predicate Blank(cells: seq<Cell>) {
    cells == [] || cells == [Bare("")]
  }

  /** The matrix that was written, without the records that are the empty line. */
  function Matrix(records: seq<Record>, last: seq<Cell>): seq<seq<string>> {
    if records == [] then (if Blank(last) then [] else [Texts(last)])
    else (if Blank(records[0].cells) then [] else [Texts(records[0].cells)]) + Matrix(records[1..], last)
  }

  // ----- round trip of one line -----

  lemma {:induction false} ScanBare(t: string, rest: string, cur: string)
    requires '"' !in t && ',' !in t
    ensures Scan(t + rest, cur, false) == Scan(rest, cur + t, false)
    decreases |t|
  {
    if t == "" {
      assert t + rest == rest && cur + t == cur;
    } else {
      assert (t + rest)[0] == t[0] && (t + rest)[1..] == t[1..] + rest;
      assert t[0] in t && forall c :: c in t[1..] ==> c in t;
      ScanBare(t[1..], rest, cur + [t[0]]);
      assert cur + [t[0]] + t[1..] == cur + t;
    }
  }

  /** Inside an open quote the escaped text comes back, up to the closing quote. */
  lemma {:induction false} ScanQuoted(t: string, rest: string, cur: string)
    requires rest != "" ==> rest[0] != '"'
    ensures Scan(Escape(t) + (['"'] + rest), cur, true) == Scan(rest, cur + t, false)
    decreases |t|
  {
    var s := Escape(t) + (['"'] + rest);
    if t == "" {
      assert s == ['"'] + rest && s[1..] == rest && cur + t == cur;
    } else {
      var tail := Escape(t[1..]) + (['"'] + rest);
      ScanQuoted(t[1..], rest, cur + [t[0]]);
      assert cur + [t[0]] + t[1..] == cur + t;
      if t[0] == '"' {
        assert s == ['"', '"'] + tail && s[2..] == tail;
      } else {
        assert s == [t[0]] + tail && s[1..] == tail;
      }
    }
  }

  lemma ScanCell(c: Cell, rest: string)
    requires Writable(c) && (rest != "" ==> rest[0] == ',')
    ensures Scan(RenderCell(c) + rest, "", false) == Scan(rest, c.text, false)
  {
    match c
    case Bare(t) =>
      ScanBare(t, rest, "");
      assert "" + t == t;
    case Quoted(t) =>
      var s := RenderCell(c) + rest;
      assert s == ['"'] + (Escape(t) + (['"'] + rest));
      assert s[1..] == Escape(t) + (['"'] + rest);
      ScanQuoted(t, rest, "");
      assert "" + t == t;
  }

  lemma {:induction false} ScanCells(cells: seq<Cell>)
    requires cells != [] && AllWritable(cells)
    ensures Scan(RenderCells(cells), "", false) == Texts(cells)
    decreases |cells|
  {
    if |cells| == 1 {
      ScanCell(cells[0], "");
      assert RenderCell(cells[0]) + "" == RenderCell(cells[0]);
      assert Texts(cells) == [cells[0].text];
    } else {
      var rest := [','] + RenderCells(cells[1..]);
      ScanCell(cells[0], rest);
      assert rest[0] == ',' && rest[1..] == RenderCells(cells[1..]);
      ScanCells(cells[1..]);
      assert Texts(cells) == [cells[0].text] + Texts(cells[1..]);
    }
  }

  // ----- round trip of a file -----

  lemma {:induction false} EscapeHasNoLf(t: string)
    requires '\n' !in t
    ensures '\n' !in Escape(t)
    decreases |t|
  {
    if t != "" {
      assert t[0] in t && forall c :: c in t[1..] ==> c in t;
      EscapeHasNoLf(t[1..]);
    }
  }

  /** A rendered record stays on its line, and cannot lose a last carriage return. */
  lemma {:induction false} RenderedLine(cells: seq<Cell>)
    requires cells != [] && AllWritable(cells)
    ensures var line := RenderCells(cells);
            && '\n' !in line
            && (line != "" ==> line[|line| - 1] != '\r')
            && (line == "" <==> cells == [Bare("")])
    decreases |cells|
  {
    if cells[0].Quoted? {
      EscapeHasNoLf(cells[0].text);
    }
    if |cells| == 1 {
      assert cells == [cells[0]];
    } else {
      RenderedLine(cells[1..]);
    }
  }

  lemma FirstLfOf(line: string, rest: string)
    requires '\n' !in line
    ensures FirstLf(line + (['\n'] + rest)) == |line|
  {
    var text := line + (['\n'] + rest);
    assert text[|line|] == '\n';
    assert forall k :: 0 <= k < |line| ==> line[k] in line && text[k] == line[k];
  }

  lemma LinesOfBody(body: string, rest: string)
    requires '\n' !in body
    ensures Lines(body + (['\n'] + rest)) == [StripCr(body)] + Lines(rest)
  {
    var text := body + (['\n'] + rest);
    FirstLfOf(body, rest);
    assert text[..|body|] == body && text[|body| + 1..] == rest;
  }

  lemma LinesOfRecord(line: string, crlf: bool, rest: string)
    requires '\n' !in line && (line != "" ==> line[|line| - 1] != '\r')
    ensures Lines(line + (LineEnd(crlf) + rest)) == [line] + Lines(rest)
  {
    if crlf {
      var body := line + ['\r'];
      CrLfIsCrThenLf(line, rest);
      LinesOfBody(body, rest);
      StripAddedCr(line);
    } else {
      LinesOfBody(line, rest);
    }
  }

  lemma CrLfIsCrThenLf(line: string, rest: string)
    ensures line + (LineEnd(true) + rest) == (line + ['\r']) + (['\n'] + rest)
  {
    assert LineEnd(true) + rest == ['\r'] + (['\n'] + rest);
  }

  lemma StripAddedCr(line: string)
    ensures StripCr(line + ['\r']) == line
  {
    assert (line + ['\r'])[..|line|] == line;
  }

  lemma ScanAllCons(line: string, lines: seq<string>)
    ensures ScanAll([line] + lines) == [Scan(line, "", false)] + ScanAll(lines)
  {
  }

  lemma NonEmptyCons(line: string, lines: seq<string>)
    ensures ScanAll(NonEmpty([line] + lines)) == (if line == "" then [] else [Scan(line, "", false)]) + ScanAll(NonEmpty(lines))
  {
    var all, rest := [line] + lines, NonEmpty(lines);
    assert all[0] == line && all[1..] == lines;
    if line == "" {
      assert NonEmpty(all) == rest;
    } else {
      assert NonEmpty(all) == [line] + rest;
      ScanAllCons(line, rest);
    }
  }

  lemma ParseOneMore(line: string, crlf: bool, rest: string)
    requires '\n' !in line && (line != "" ==> line[|line| - 1] != '\r')
    ensures ParseCsv(line + (LineEnd(crlf) + rest)) == (if line == "" then [] else [Scan(line, "", false)]) + ParseCsv(rest)
  {
    LinesOfRecord(line, crlf, rest);
    NonEmptyCons(line, Lines(rest));
  }

  lemma LinesOfLast(line: string)
    requires '\n' !in line
    ensures ParseCsv(line) == if line == "" then [] else [Scan(line, "", false)]
  {
    assert forall k :: 0 <= k < |line| ==> line[k] in line;
    NonEmptyCons(line, []);
    assert [line] + [] == [line];
  }

  /**
   * Every matrix written as section 2 of RFC 4180 has it, fields quoted or bare,
   * lines ended either way, comes back field for field; only empty lines vanish.
   */
  lemma {:induction false} RoundTrip(records: seq<Record>, last: seq<Cell>)
    requires AllWritable(last) && forall k :: 0 <= k < |records| ==> AllWritable(records[k].cells)
    ensures ParseCsv(Render(records, last)) == Matrix(records, last)
    decreases |records|
  {
    if records == [] {
      if last == [] {
        LinesOfLast("");
      } else {
        RenderedLine(last);
        LinesOfLast(RenderCells(last));
        ScanCells(last);
      }
    } else {
      var cells := records[0].cells;
      RoundTrip(records[1..], last);
      if cells == [] {
        ParseOneMore("", records[0].crlf, Render(records[1..], last));
      } else {
        RenderedLine(cells);
        ScanCells(cells);
        ParseOneMore(RenderCells(cells), records[0].crlf, Render(records[1..], last));
      }
    }
  }

  /** With every field quoted, not even a record of one empty field is lost. */
  lemma {:induction false} QuotedMatrixComesBack(matrix: seq<seq<string>>, crlf: bool)
    requires forall i :: 0 <= i < |matrix| ==> matrix[i] != [] && forall j :: 0 <= j < |matrix[i]| ==> '\n' !in matrix[i][j]
    ensures ParseCsv(Render(QuoteAll(matrix, crlf), [])) == matrix
    decreases |matrix|
  {
    RoundTrip(QuoteAll(matrix, crlf), []);
    QuotedMatrix(matrix, crlf);
  }

  function QuoteAll(matrix: seq<seq<string>>, crlf: bool): seq<Record> {
    seq(|matrix|, i requires 0 <= i < |matrix| =>
      Record(seq(|matrix[i]|, j requires 0 <= j < |matrix[i]| => Quoted(matrix[i][j])), crlf))
  }

  lemma {:induction false} QuotedMatrix(matrix: seq<seq<string>>, crlf: bool)
    requires forall i :: 0 <= i < |matrix| ==> matrix[i] != []
    ensures Matrix(QuoteAll(matrix, crlf), []) == matrix
    decreases |matrix|
  {
    if matrix != [] {
      var records := QuoteAll(matrix, crlf);
      QuotedMatrix(matrix[1..], crlf);
      assert records[1..] == QuoteAll(matrix[1..], crlf);
      assert Texts(records[0].cells) == matrix[0];
      assert records[0].cells[0] == Quoted(matrix[0][0]);
    }
  }

  // ----- what the reader can never give back -----

  lemma {:induction false} ScanYieldsNoLf(s: string, cur: string, inQuotes: bool)
    requires '\n' !in s && '\n' !in cur
    ensures Scan(s, cur, inQuotes) != []
    ensures forall field :: field in Scan(s, cur, inQuotes) ==> '\n' !in field
    decreases |s|
  {
    if s != "" {
      assert s[0] in s && (forall c :: c in s[1..] ==> c in s) && (|s| > 1 ==> forall c :: c in s[2..] ==> c in s);
      if s[0] == '"' {
        if inQuotes && |s| > 1 && s[1] == '"' {
          ScanYieldsNoLf(s[2..], cur + ['"'], inQuotes);
        } else {
          ScanYieldsNoLf(s[1..], cur, !inQuotes);
        }
      } else if s[0] == ',' && !inQuotes {
        ScanYieldsNoLf(s[1..], "", inQuotes);
      } else {
        ScanYieldsNoLf(s[1..], cur + [s[0]], inQuotes);
      }
    }
  }

  lemma {:induction false} LinesHaveNoLf(text: string)
    ensures forall line :: line in Lines(text) ==> '\n' !in line
    decreases |text|
  {
    var k := FirstLf(text);
    if k < |text| {
      var line := StripCr(text[..k]);
      assert forall j :: 0 <= j < |line| ==> line[j] == text[j];
      LinesHaveNoLf(text[k + 1..]);
    }
  }

  lemma {:induction false} NonEmptySelects(lines: seq<string>)
    ensures forall line :: line in NonEmpty(lines) ==> line in lines
    decreases |lines|
  {
    if lines != [] {
      NonEmptySelects(lines[1..]);
    }
  }

  /** Whatever the text, no record is without fields and no field holds a line feed. */
  lemma ParsedIsFlat(text: string, i: nat)
    requires i < |ParseCsv(text)|
    ensures ParseCsv(text)[i] != [] && forall field :: field in ParseCsv(text)[i] ==> '\n' !in field
  {
    var lines := NonEmpty(Lines(text));
    LinesHaveNoLf(text);
    NonEmptySelects(Lines(text));
    assert lines[i] in lines;
    ScanYieldsNoLf(lines[i], "", false);
  }

  /** A matrix comes back from quoted text if and only if no record is without fields and no field holds a line feed. */
  lemma QuotedMatrixComesBackExactly(matrix: seq<seq<string>>, crlf: bool)
    ensures ParseCsv(Render(QuoteAll(matrix, crlf), [])) == matrix
       <==> forall i :: 0 <= i < |matrix| ==> matrix[i] != [] && forall j :: 0 <= j < |matrix[i]| ==> '\n' !in matrix[i][j]
  {
    var text := Render(QuoteAll(matrix, crlf), []);
    if ParseCsv(text) == matrix {
      forall i | 0 <= i < |matrix|
        ensures matrix[i] != [] && forall j :: 0 <= j < |matrix[i]| ==> '\n' !in matrix[i][j]
      {
        ParsedIsFlat(text, i);
        assert forall j :: 0 <= j < |matrix[i]| ==> matrix[i][j] in matrix[i];
      }
    }
    if forall i :: 0 <= i < |matrix| ==> matrix[i] != [] && forall j :: 0 <= j < |matrix[i]| ==> '\n' !in matrix[i][j] {
      QuotedMatrixComesBack(matrix, crlf);
    }
  }

  /** Bare fields as section 2 of RFC 4180 allows them; quoted fields may hold anything. */
  predicate WellQuoted(cells: seq<Cell>) {
    forall k :: 0 <= k < |cells| && cells[k].Bare? ==> Writable(cells[k])
  }

  lemma {:induction false} FlatMatrixIsWritable(records: seq<Record>, last: seq<Cell>)
    requires WellQuoted(last) && forall k :: 0 <= k < |records| ==> WellQuoted(records[k].cells)
    requires forall i :: 0 <= i < |Matrix(records, last)| ==> forall field :: field in Matrix(records, last)[i] ==> '\n' !in field
    ensures AllWritable(last) && forall k :: 0 <= k < |records| ==> AllWritable(records[k].cells)
    decreases |records|
  {
    var m := Matrix(records, last);
    if records == [] {
      if !Blank(last) {
        FlatTextsAreWritable(last, m[0]);
      }
    } else {
      var head, tail := records[0].cells, Matrix(records[1..], last);
      if !Blank(head) {
        assert m == [Texts(head)] + tail;
        FlatTextsAreWritable(head, m[0]);
      }
      assert forall i :: 0 <= i < |tail| ==> tail[i] == m[|m| - |tail| + i];
      FlatMatrixIsWritable(records[1..], last);
      assert forall k :: 1 <= k < |records| ==> records[k] == records[1..][k - 1];
    }
  }

  lemma FlatTextsAreWritable(cells: seq<Cell>, texts: seq<string>)
    requires WellQuoted(cells) && texts == Texts(cells) && forall field :: field in texts ==> '\n' !in field
    ensures AllWritable(cells)
  {
    forall k | 0 <= k < |cells|
      ensures Writable(cells[k])
    {
      assert texts[k] == cells[k].text && texts[k] in texts;
    }
  }

  /**
   * The round trip of properly quoted text in general, bare fields and either
   * line end included: it holds if and only if no quoted field holds a line feed.
   */
  lemma RoundTripExactly(records: seq<Record>, last: seq<Cell>)
    requires WellQuoted(last) && forall k :: 0 <= k < |records| ==> WellQuoted(records[k].cells)
    ensures ParseCsv(Render(records, last)) == Matrix(records, last)
       <==> AllWritable(last) && forall k :: 0 <= k < |records| ==> AllWritable(records[k].cells)
  {
    var text := Render(records, last);
    if ParseCsv(text) == Matrix(records, last) {
      forall i | 0 <= i < |Matrix(records, last)|
        ensures forall field :: field in Matrix(records, last)[i] ==> '\n' !in field
      {
        ParsedIsFlat(text, i);
      }
      FlatMatrixIsWritable(records, last);
    }
    if AllWritable(last) && forall k :: 0 <= k < |records| ==> AllWritable(records[k].cells) {
      RoundTrip(records, last);
    }
  }

  /**
   * A line feed inside quotes, which RFC 4180 allows, ends the line here: the
   * field comes back as two records.
   */
  lemma LineFeedInQuotesSplitsRecord(a: string, b: string)
    requires '"' !in a && '\n' !in a && '\r' !in a && a != ""
    requires '"' !in b && ',' !in b && '\n' !in b && '\r' !in b
    ensures ParseCsv(RenderCells([Quoted(a + ['\n'] + b)])) == [[a], [b]]
  {
    var first, second := ['"'] + a, b + ['"'];
    EscapePlain(a + ['\n'] + b);
    assert RenderCells([Quoted(a + ['\n'] + b)]) == first + (LineEnd(false) + second);
    ParseOneMore(first, false, second);
    LinesOfLast(second);
    ScanUnclosed(a);
    ScanUnopened(b);
  }

  lemma ScanUnclosed(a: string)
    requires '"' !in a
    ensures Scan(['"'] + a, "", false) == [a]
  {
    var s := ['"'] + a;
    assert s[1..] == a && "" + a == a;
    ScanOpen(a, "");
  }

  lemma ScanUnopened(b: string)
    requires '"' !in b && ',' !in b
    ensures Scan(b + ['"'], "", false) == [b]
  {
    ScanBare(b, ['"'], "");
    assert ['"'][1..] == "" && "" + b == b;
    assert Scan(['"'], b, false) == Scan("", b, true);
  }

  lemma {:induction false} EscapePlain(t: string)
    requires '"' !in t
    ensures Escape(t) == t
    decreases |t|
  {
    if t != "" {
      assert t[0] in t && forall c :: c in t[1..] ==> c in t;
      EscapePlain(t[1..]);
    }
  }

  lemma {:induction false} ScanOpen(t: string, cur: string)
    requires '"' !in t
    ensures Scan(t, cur, true) == [cur + t]
    decreases |t|
  {
    if t == "" {
      assert cur + t == cur;
    } else {
      assert t[0] in t && forall c :: c in t[1..] ==> c in t;
      ScanOpen(t[1..], cur + [t[0]]);
      assert cur + [t[0]] + t[1..] == cur + t;
    }
  }
  // ----- any line, properly quoted or not -----

  function Unquoted(s: string): string {
    if s == "" then "" else (if s[0] == '"' then "" else [s[0]]) + Unquoted(s[1..])
  }

  function UnquotedAll(fields: seq<string>): (r: seq<string>)
    ensures |r| == |fields|
  {
    if fields == [] then [] else [Unquoted(fields[0])] + UnquotedAll(fields[1..])
  }

  /** A line cut at the commas with an even number of quotes before them, and the quotes left out; `quotes` have been passed so far. */
  function CutAtEvenCommas(s: string, cur: string, quotes: nat): seq<string>
    decreases |s|
  {
    if s == "" then [cur]
    else if s[0] == '"' then CutAtEvenCommas(s[1..], cur, quotes + 1)
    else if s[0] == ',' && quotes % 2 == 0 then [cur] + CutAtEvenCommas(s[1..], "", quotes)
    else CutAtEvenCommas(s[1..], cur + [s[0]], quotes)
  }

  lemma {:induction false} UnquotedOneMore(s: string, c: char)
    ensures Unquoted(s + [c]) == Unquoted(s) + if c == '"' then "" else [c]
    decreases |s|
  {
    if s == "" {
      assert [c][1..] == "";
      assert Unquoted([c]) == (if c == '"' then "" else [c]) + Unquoted("");
    } else {
      assert (s + [c])[1..] == s[1..] + [c];
      UnquotedOneMore(s[1..], c);
    }
  }

  lemma {:induction false} ScanCutsAtEvenCommas(s: string, cur: string, inQuotes: bool, quotes: nat)
    requires inQuotes <==> quotes % 2 == 1
    ensures UnquotedAll(Scan(s, cur, inQuotes)) == CutAtEvenCommas(s, Unquoted(cur), quotes)
    decreases |s|
  {
    if s == "" {
      assert [cur][1..] == [];
    } else if s[0] == '"' {
      if inQuotes && |s| > 1 && s[1] == '"' {
        UnquotedOneMore(cur, '"');
        ScanCutsAtEvenCommas(s[2..], cur + ['"'], inQuotes, quotes + 2);
        var u := Unquoted(cur);
        assert s[1..][0] == '"' && s[1..][1..] == s[2..];
        assert CutAtEvenCommas(s[1..], u, quotes + 1) == CutAtEvenCommas(s[2..], u, quotes + 2);
        assert Unquoted(cur + ['"']) == u + "" == u;
      } else {
        ScanCutsAtEvenCommas(s[1..], cur, !inQuotes, quotes + 1);
      }
    } else if s[0] == ',' && !inQuotes {
      ScanCutsAtEvenCommas(s[1..], "", inQuotes, quotes);
      assert ([cur] + Scan(s[1..], "", inQuotes))[1..] == Scan(s[1..], "", inQuotes);
    } else {
      UnquotedOneMore(cur, s[0]);
      ScanCutsAtEvenCommas(s[1..], cur + [s[0]], inQuotes, quotes);
    }
  }

  /**
   * Every line, however its quotes stand, is cut at exactly the commas that an
   * even number of quotes precedes, and apart from quotes no character is lost,
   * added or moved.
   */
  lemma EveryLineIsCutAtEvenCommas(line: string)
    ensures UnquotedAll(Scan(line, "", false)) == CutAtEvenCommas(line, "", 0)
  {
    ScanCutsAtEvenCommas(line, "", false, 0);
  }
}
