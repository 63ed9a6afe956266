/**
 * The parse stage of an import: header detection, the data rows of a sheet, and
 * the limited, chunked insert that replaces whatever an earlier attempt stored.
 */
module ImportParse {
  import opened Common
  import opened ImportJobs
  import opened ImportStages

  type Matrix = seq<seq<string>>

  type Record = map<string, string>

  // ----- cells -----

  function TrimLeft(s: string): string {
    if s != "" && IsSpace(s[0]) then TrimLeft(s[1..]) else s
  }

  function TrimRight(s: string): string {
    if s != "" && IsSpace(s[|s| - 1]) then TrimRight(s[..|s| - 1]) else s
  }

  function Trim(s: string): string {
    TrimRight(TrimLeft(s))
  }

  predicate Digits(s: string) {
    s != "" && forall k :: 0 <= k < |s| ==> '0' <= s[k] <= '9'
  }

  /** An optional minus, digits, and an optional fraction. */
  predicate Numeric(s: string) {
    var t := if s != "" && s[0] == '-' then s[1..] else s;
    Digits(t) || exists k :: 0 <= k < |t| && t[k] == '.' && Digits(t[..k]) && Digits(t[k + 1..])
  }

  function Labels(cells: seq<string>): seq<string>
    decreases |cells|
  {
    if cells == [] then []
    else (if Trim(cells[0]) == "" then [] else [Trim(cells[0])]) + Labels(cells[1..])
  }

  function Numbers(cells: seq<string>): seq<string>
    decreases |cells|
  {
    if cells == [] then [] else (if Numeric(cells[0]) then [cells[0]] else []) + Numbers(cells[1..])
  }

  // ----- header row -----

  const HEADER_SEARCH := 30

  /** At least two filled cells, fewer than half of them numbers. */
  predicate LooksLikeHeader(cells: seq<string>) {
    var labels := Labels(cells);
    |labels| >= 2 && 2 * |Numbers(labels)| < |labels|
  }

  /** The first of the leading rows that looks like a header, or row 0. */
  ghost predicate IsHeaderRow(matrix: Matrix, h: nat) {
    var limit := Min(|matrix|, HEADER_SEARCH);
    || (h < limit && LooksLikeHeader(matrix[h]) && forall i :: 0 <= i < h ==> !LooksLikeHeader(matrix[i]))
    || (h == 0 && forall i :: 0 <= i < limit ==> !LooksLikeHeader(matrix[i]))
  }

  function HeaderFrom(matrix: Matrix, i: nat): nat
    decreases Min(|matrix|, HEADER_SEARCH) - i
  {
    if i >= Min(|matrix|, HEADER_SEARCH) then 0
    else if LooksLikeHeader(matrix[i]) then i
    else HeaderFrom(matrix, i + 1)
  }

  method DetectHeaderRow(matrix: Matrix) returns (h: nat)
    ensures h == HeaderFrom(matrix, 0)
  {
    var limit := Min(|matrix|, HEADER_SEARCH);
    for i := 0 to limit
      invariant HeaderFrom(matrix, i) == HeaderFrom(matrix, 0)
    {
      var cells := Labels(matrix[i]);
      if |cells| < 2 {
        continue;
      }
      var numericish := |Numbers(cells)|;
      if 2 * numericish < |cells| {
        return i;
      }
    }
    return 0;
  }

  lemma {:induction false} HeaderFromFindsFirst(matrix: Matrix, i: nat)
    requires i <= Min(|matrix|, HEADER_SEARCH)
    requires forall j :: 0 <= j < i ==> !LooksLikeHeader(matrix[j])
    ensures IsHeaderRow(matrix, HeaderFrom(matrix, i))
    decreases Min(|matrix|, HEADER_SEARCH) - i
  {
    if i < Min(|matrix|, HEADER_SEARCH) && !LooksLikeHeader(matrix[i]) {
      HeaderFromFindsFirst(matrix, i + 1);
    }
  }

  // ----- data rows -----

  datatype DataRow = DataRow(number: nat, values: Record)

  function CellAt(line: seq<string>, c: nat): string {
    if c < |line| then Trim(line[c]) else ""
  }

  /** A line has data if a column under a named header is filled. */
  predicate HasData(headers: seq<string>, line: seq<string>)
    decreases |headers|
  {
    headers != [] &&
    ((headers[|headers| - 1] != "" && CellAt(line, |headers| - 1) != "") || HasData(headers[..|headers| - 1], line))
  }

  lemma {:induction false} HasDataMeans(headers: seq<string>, line: seq<string>)
    ensures HasData(headers, line) <==> exists c :: 0 <= c < |headers| && headers[c] != "" && CellAt(line, c) != ""
    decreases |headers|
  {
    if headers != [] {
      var front := headers[..|headers| - 1];
      HasDataMeans(front, line);
      assert forall c :: 0 <= c < |front| ==> front[c] == headers[c];
    }
  }

  /** The last of several columns under one name gives the value. */
  function LastColumn(headers: seq<string>, name: string): (c: nat)
    requires name in headers
    ensures c < |headers| && headers[c] == name && name !in headers[c + 1..]
    decreases |headers|
  {
    if headers[|headers| - 1] == name then |headers| - 1 else LastColumn(headers[..|headers| - 1], name)
  }

  function Values(headers: seq<string>, line: seq<string>): Record
    decreases |headers|
  {
    if headers == [] then map[]
    else
      var name, before := headers[|headers| - 1], Values(headers[..|headers| - 1], line);
      if name == "" then before else before[name := CellAt(line, |headers| - 1)]
  }

  /** Exactly the named columns have a value, each that of the last column of its name. */
  lemma {:induction false} ValuesAreTheLastColumns(headers: seq<string>, line: seq<string>, name: string)
    ensures name in Values(headers, line) <==> name in headers && name != ""
    ensures name in headers && name != "" ==> Values(headers, line)[name] == CellAt(line, LastColumn(headers, name))
    decreases |headers|
  {
    if headers != [] {
      ValuesAreTheLastColumns(headers[..|headers| - 1], line, name);
    }
  }

  function TrimAll(cells: seq<string>): seq<string> {
    seq(|cells|, i requires 0 <= i < |cells| => Trim(cells[i]))
  }

  function Headers(matrix: Matrix): seq<string> {
    var h := HeaderFrom(matrix, 0);
    if h < |matrix| then TrimAll(matrix[h]) else []
  }

  /** What a line gives: its values, or nothing if it has no data. */
  function Read(headers: seq<string>, line: seq<string>): Option<Record> {
    if HasData(headers, line) then Some(Values(headers, line)) else None
  }

  function ReadAll(matrix: Matrix, headers: seq<string>): (lines: seq<Option<Record>>)
    ensures |lines| == |matrix|
  {
    seq(|matrix|, i requires 0 <= i < |matrix| => Read(headers, matrix[i]))
  }

  /** The data rows from line i on, at most `room` of them. */
  function RowsFrom(lines: seq<Option<Record>>, i: nat, room: nat): seq<DataRow>
    decreases |lines| - i
  {
    if i >= |lines| || room == 0 then []
    else if lines[i].Some? then [DataRow(i + 1, lines[i].value)] + RowsFrom(lines, i + 1, room - 1)
    else RowsFrom(lines, i + 1, room)
  }

  function Materialized(matrix: Matrix, maxRows: nat): seq<DataRow> {
    RowsFrom(ReadAll(matrix, Headers(matrix)), HeaderFrom(matrix, 0) + 1, maxRows)
  }

  /** The inner loop: one value per named column, later columns overwriting, and a count of filled cells. */
  method ReadLine(headers: seq<string>, line: seq<string>) returns (values: Record, nonEmpty: nat)
    ensures Read(headers, line) == if nonEmpty > 0 then Some(values) else None
  {
    values, nonEmpty := map[], 0;
    for c := 0 to |headers|
      invariant values == Values(headers[..c], line)
      invariant nonEmpty > 0 <==> HasData(headers[..c], line)
    {
      var key := headers[c];
      ValuesOneMore(headers[..c], key, line);
      HasDataOneMore(headers[..c], key, line);
      assert headers[..c + 1] == headers[..c] + [key];
      if key == "" {
        continue;
      }
      var text := if c < |line| then Trim(line[c]) else "";
      if text != "" {
        nonEmpty := nonEmpty + 1;
      }
      values := values[key := text];
    }
    assert headers[..|headers|] == headers;
  }

  lemma HasDataOneMore(headers: seq<string>, key: string, line: seq<string>)
    ensures HasData(headers + [key], line) <==> HasData(headers, line) || (key != "" && CellAt(line, |headers|) != "")
  {
    assert (headers + [key])[..|headers|] == headers;
  }

  lemma ValuesOneMore(headers: seq<string>, key: string, line: seq<string>)
    ensures Values(headers + [key], line)
            == if key == "" then Values(headers, line) else Values(headers, line)[key := CellAt(line, |headers|)]
  {
    assert (headers + [key])[..|headers|] == headers;
  }

  /** The loop over the lines below the header. */
  method CollectRows(matrix: Matrix, headers: seq<string>, from: nat, maxRows: nat) returns (rows: seq<DataRow>)
    ensures rows == RowsFrom(ReadAll(matrix, headers), from, maxRows)
  {
    rows := [];
    ghost var lines := ReadAll(matrix, headers);
    var i := from;
    while i < |matrix|
      invariant |rows| <= maxRows
      invariant rows + RowsFrom(lines, i, maxRows - |rows|) == RowsFrom(lines, from, maxRows)
    {
      if |rows| >= maxRows {
        break;
      }
      var values, nonEmpty := ReadLine(headers, matrix[i]);
      if nonEmpty != 0 {
        var row := DataRow(i + 1, values);
        AppendThenRest(rows, row, RowsFrom(lines, i + 1, maxRows - |rows| - 1));
        rows := rows + [row];
      }
      i := i + 1;
    }
  }

  lemma AppendThenRest<T>(a: seq<T>, x: T, rest: seq<T>)
    ensures a + ([x] + rest) == (a + [x]) + rest
  {
  }

  method Materialize(matrix: Matrix, maxRows: nat) returns (rows: seq<DataRow>)
    ensures rows == Materialized(matrix, maxRows)
  {
    var headerRowIndex := DetectHeaderRow(matrix);
    var headerCells := if headerRowIndex < |matrix| then TrimAll(matrix[headerRowIndex]) else [];
    rows := CollectRows(matrix, headerCells, headerRowIndex + 1, maxRows);
  }

  // ----- what parsing keeps -----

  /** The line is a data line of the sheet: below the header, and filled under a named column. */
  predicate IsDataLine(matrix: Matrix, n: nat) {
    HeaderFrom(matrix, 0) < n < |matrix| && HasData(Headers(matrix), matrix[n])
  }

  function AllRows(matrix: Matrix): seq<DataRow> {
    Materialized(matrix, |matrix|)
  }

  predicate Increasing(rows: seq<DataRow>) {
    forall i, j :: 0 <= i < j < |rows| ==> rows[i].number < rows[j].number
  }

  predicate IsRowOf(lines: seq<Option<Record>>, i: nat, row: DataRow) {
    i < row.number <= |lines| && lines[row.number - 1] == Some(row.values)
  }

  /** Every row is a data line from i on, under its sheet row number, and they are in order. */
  lemma {:induction false} RowsFromAreDataLines(lines: seq<Option<Record>>, i: nat, room: nat)
    ensures forall row :: row in RowsFrom(lines, i, room) ==> IsRowOf(lines, i, row)
    ensures Increasing(RowsFrom(lines, i, room))
    decreases |lines| - i
  {
    if i < |lines| && room > 0 {
      var rest := RowsFrom(lines, i + 1, if lines[i].Some? then room - 1 else room);
      RowsFromAreDataLines(lines, i + 1, if lines[i].Some? then room - 1 else room);
      assert forall row :: row in rest ==> IsRowOf(lines, i, row) && i + 1 < row.number;
      if lines[i].Some? {
        SmallestFirst(DataRow(i + 1, lines[i].value), rest);
      }
    }
  }

  lemma SmallestFirst(first: DataRow, rest: seq<DataRow>)
    requires Increasing(rest) && forall row :: row in rest ==> first.number < row.number
    ensures Increasing([first] + rest)
  {
    var rows := [first] + rest;
    assert forall k :: 1 <= k < |rows| ==> rows[k] == rest[k - 1] && rows[k] in rest;
  }

  /** With room to spare no data line is missing. */
  lemma {:induction false} RowsFromMissNone(lines: seq<Option<Record>>, i: nat, room: nat, n: nat)
    requires room >= |lines| - i && i <= n < |lines| && lines[n].Some?
    ensures DataRow(n + 1, lines[n].value) in RowsFrom(lines, i, room)
    decreases |lines| - i
  {
    if i < n {
      RowsFromMissNone(lines, i + 1, if lines[i].Some? then room - 1 else room, n);
    }
  }

  /** A limit cuts the rows off and changes nothing else. */
  lemma {:induction false} RowsFromIsAPrefix(lines: seq<Option<Record>>, i: nat, room: nat, more: nat)
    requires room <= more
    ensures var all := RowsFrom(lines, i, more);
            RowsFrom(lines, i, room) == all[..Min(room, |all|)]
    decreases |lines| - i
  {
    if i < |lines| && room > 0 {
      var data := lines[i].Some?;
      RowsFromIsAPrefix(lines, i + 1, if data then room - 1 else room, if data then more - 1 else more);
    }
  }

  lemma {:induction false} RowsFromHasRoom(lines: seq<Option<Record>>, i: nat, room: nat)
    ensures |RowsFrom(lines, i, room)| <= Min(room, Max(0, |lines| - i))
    decreases |lines| - i
  {
    if i < |lines| && room > 0 {
      RowsFromHasRoom(lines, i + 1, if lines[i].Some? then room - 1 else room);
    }
  }

  /** Reading one row beyond the limit tells exactly whether the sheet exceeds it, and keeps it whole if it does not. */
  lemma {:induction false} LimitIsExact(matrix: Matrix, maxRows: nat)
    ensures var read := Materialized(matrix, maxRows + 1);
            && (|read| > maxRows <==> |AllRows(matrix)| > maxRows)
            && (|read| <= maxRows ==> read == AllRows(matrix))
  {
    LimitCuts(ReadAll(matrix, Headers(matrix)), HeaderFrom(matrix, 0) + 1, maxRows);
  }

  lemma LimitCuts(lines: seq<Option<Record>>, from: nat, maxRows: nat)
    ensures var read, all := RowsFrom(lines, from, maxRows + 1), RowsFrom(lines, from, |lines|);
            && (|read| > maxRows <==> |all| > maxRows)
            && (|read| <= maxRows ==> read == all)
  {
    if maxRows + 1 <= |lines| {
      RowsFromIsAPrefix(lines, from, maxRows + 1, |lines|);
    } else {
      RowsFromHasRoom(lines, from, |lines|);
      RowsFromHasRoom(lines, from, maxRows + 1);
      RowsFromIsAPrefix(lines, from, |lines|, maxRows + 1);
    }
  }

  // ----- the stored rows -----

  datatype Payload = Payload(raw: Record, mapped: Record)

  type Stored = map<nat, Payload>

  function InsertAll(stored: Stored, rows: seq<DataRow>, apply: Record -> Record): Stored
    decreases |rows|
  {
    if rows == [] then stored
    else
      var before := InsertAll(stored, rows[..|rows| - 1], apply);
      var row := rows[|rows| - 1];
      if row.number in before then before else before[row.number := Payload(row.values, apply(row.values))]
  }

  /** Rows in increasing order, inserted into an empty table, are each there once. */
  lemma {:induction false} InsertAllKeepsEach(rows: seq<DataRow>, apply: Record -> Record)
    requires Increasing(rows)
    ensures var stored := InsertAll(map[], rows, apply);
            && (forall n :: n in stored ==> rows != [] && n <= rows[|rows| - 1].number)
            && (forall k :: 0 <= k < |rows| ==> rows[k].number in stored && stored[rows[k].number] == Payload(rows[k].values, apply(rows[k].values)))
            && |stored.Keys| == |rows|
    decreases |rows|
  {
    if rows != [] {
      var front, row := rows[..|rows| - 1], rows[|rows| - 1];
      InsertAllKeepsEach(front, apply);
      var before := InsertAll(map[], front, apply);
      assert row.number !in before;
      InsertedRow(before, row, apply);
      assert forall k :: 0 <= k < |front| ==> rows[k] == front[k] && rows[k].number < row.number;
    }
  }

  lemma InsertedRow(before: Stored, row: DataRow, apply: Record -> Record)
    requires row.number !in before
    ensures |before[row.number := Payload(row.values, apply(row.values))].Keys| == |before.Keys| + 1
  {
    assert before[row.number := Payload(row.values, apply(row.values))].Keys == before.Keys + {row.number};
  }

  lemma {:induction false} InsertAllAddsNothingElse(rows: seq<DataRow>, apply: Record -> Record, n: nat) returns (k: nat)
    requires n in InsertAll(map[], rows, apply)
    ensures k < |rows| && rows[k].number == n
    decreases |rows|
  {
    var front := rows[..|rows| - 1];
    if n in InsertAll(map[], front, apply) {
      k := InsertAllAddsNothingElse(front, apply, n);
    } else {
      k := |rows| - 1;
    }
  }

  lemma RowIsStored(rows: seq<DataRow>, apply: Record -> Record, row: DataRow)
    requires Increasing(rows) && row in rows
    ensures var stored := InsertAll(map[], rows, apply);
            row.number in stored && stored[row.number] == Payload(row.values, apply(row.values))
  {
    InsertAllKeepsEach(rows, apply);
  }

  /** All data lines from `from` on, inserted into an empty table: exactly those lines are there. */
  lemma LinesAreStored(lines: seq<Option<Record>>, from: nat, apply: Record -> Record)
    ensures var rows := RowsFrom(lines, from, |lines|);
            var stored := InsertAll(map[], rows, apply);
            && |stored.Keys| == |rows|
            && (forall n: nat :: n in stored <==> from < n <= |lines| && lines[n - 1].Some?)
            && (forall n: nat :: n in stored ==> stored[n] == Payload(lines[n - 1].value, apply(lines[n - 1].value)))
  {
    var rows := RowsFrom(lines, from, |lines|);
    var stored := InsertAll(map[], rows, apply);
    RowsFromAreDataLines(lines, from, |lines|);
    InsertAllKeepsEach(rows, apply);
    forall n: nat | n in stored
      ensures from < n <= |lines| && lines[n - 1].Some?
    {
      var k := InsertAllAddsNothingElse(rows, apply, n);
      assert IsRowOf(lines, from, rows[k]);
    }
    forall n: nat | from < n <= |lines| && lines[n - 1].Some?
      ensures n in stored && stored[n] == Payload(lines[n - 1].value, apply(lines[n - 1].value))
    {
      RowsFromMissNone(lines, from, |lines|, n - 1);
      RowIsStored(rows, apply, DataRow(n, lines[n - 1].value));
    }
  }

  /**
   * An accepted sheet loses nothing: exactly its data lines are stored, each
   * once, under its row number, with its values.
   */
  lemma {:induction false} AcceptedSheetIsStoredWhole(matrix: Matrix, apply: Record -> Record)
    ensures var stored := InsertAll(map[], AllRows(matrix), apply);
            && |stored.Keys| == |AllRows(matrix)|
            && (forall n: nat :: n in stored <==> 0 < n <= |matrix| && IsDataLine(matrix, n - 1))
            && (forall n: nat :: n in stored ==>
                  var values := Values(Headers(matrix), matrix[n - 1]);
                  stored[n] == Payload(values, apply(values)))
  {
    var lines := ReadAll(matrix, Headers(matrix));
    LinesAreStored(lines, HeaderFrom(matrix, 0) + 1, apply);
    forall i | 0 <= i < |matrix|
      ensures lines[i] == Read(Headers(matrix), matrix[i])
    {
    }
  }

  // ----- the stage -----

  const CHUNK := 500

  const MAX_COLUMNS := 256

  /** What the object store yields: nothing, a CSV file, or a workbook whose first sheet may declare its extent. */
  datatype SourceFile = Missing | Csv(matrix: Matrix) | Sheet(matrix: Matrix, declared: Option<(nat, nat)>)

  /** A declared extent is checked before the sheet is read, against the limit that reading is given. */
  predicate WithinBudget(file: SourceFile, maxRows: nat) {
    file.Sheet? && file.declared.Some? ==> file.declared.value.0 <= maxRows + 2 && file.declared.value.1 <= MAX_COLUMNS
  }

  predicate Acceptable(file: SourceFile, maxRows: nat) {
    !file.Missing? && WithinBudget(file, maxRows + 1) && |AllRows(file.matrix)| <= maxRows
  }

  class ParsedRowRepository {
    var stored: Stored

    constructor ()
      ensures stored == map[]
    {
      stored := map[];
    }

    method DeleteByJob()
      modifies this
      ensures stored == map[]
    {
      stored := map[];
    }

    /** Row numbers already stored are skipped. */
    method BulkInsert(chunk: seq<DataRow>, apply: Record -> Record)
      modifies this
      ensures stored == InsertAll(old(stored), chunk, apply)
    {
      for k := 0 to |chunk|
        invariant stored == InsertAll(old(stored), chunk[..k], apply)
      {
        assert chunk[..k + 1][..k] == chunk[..k];
        if chunk[k].number !in stored {
          stored := stored[chunk[k].number := Payload(chunk[k].values, apply(chunk[k].values))];
        }
      }
      assert chunk[..|chunk|] == chunk;
    }
  }

  lemma {:induction false} InsertAllAppend(stored: Stored, a: seq<DataRow>, b: seq<DataRow>, apply: Record -> Record)
    ensures InsertAll(stored, a + b, apply) == InsertAll(InsertAll(stored, a, apply), b, apply)
    decreases |b|
  {
    if b == [] {
      assert a + b == a;
    } else {
      var front := b[..|b| - 1];
      assert (a + b)[..|a + b| - 1] == a + front;
      InsertAllAppend(stored, a, front, apply);
    }
  }

  lemma FlushMore(stored: Stored, rows: seq<DataRow>, flushed: nat, k: nat, apply: Record -> Record)
    requires flushed <= k <= |rows|
    ensures InsertAll(InsertAll(stored, rows[..flushed], apply), rows[flushed..k], apply) == InsertAll(stored, rows[..k], apply)
  {
    InsertAllAppend(stored, rows[..flushed], rows[flushed..k], apply);
    assert rows[..flushed] + rows[flushed..k] == rows[..k];
  }

  class ParseImportJob {
    const jobs: ImportJobRepository
    const table: ParsedRowRepository
    var events: seq<Status>

    constructor (jobs: ImportJobRepository, table: ParsedRowRepository)
      ensures this.jobs == jobs && this.table == table && events == []
    {
      this.jobs, this.table, events := jobs, table, [];
    }

    /** Fill a buffer, flush it at 500 rows, flush the rest. */
    method InsertInChunks(rows: seq<DataRow>, apply: Record -> Record)
      modifies table
      ensures table.stored == InsertAll(old(table.stored), rows, apply)
    {
      ghost var was, flushed := table.stored, 0;
      var chunk: seq<DataRow> := [];
      for k := 0 to |rows|
        invariant 0 <= flushed <= k && chunk == rows[flushed..k] && |chunk| < CHUNK
        invariant table.stored == InsertAll(was, rows[..flushed], apply)
      {
        chunk := chunk + [rows[k]];
        assert chunk == rows[flushed..k + 1];
        if |chunk| >= CHUNK {
          FlushMore(was, rows, flushed, k + 1, apply);
          table.BulkInsert(chunk, apply);
          chunk, flushed := [], k + 1;
        }
      }
      if chunk != [] {
        FlushMore(was, rows, flushed, |rows|, apply);
        table.BulkInsert(chunk, apply);
      }
      assert rows[..|rows|] == rows;
    }

    method End(status: Status)
      modifies this, jobs
      ensures jobs.job == ImportJobs.MarkTerminal(old(jobs.job), status, Parsing).GetOr(old(jobs.job))
      ensures events == if Terminal(old(jobs.job).status) then old(events) else old(events) + [status]
    {
      var ended := jobs.MarkTerminal(status, Parsing);
      if ended {
        events := events + [status];
      }
    }

    /** Rejects by the declared extent before anything is read. */
    method ParseFile(file: SourceFile, maxRows: nat) returns (rows: Option<seq<DataRow>>)
      requires !file.Missing?
      ensures rows == if WithinBudget(file, maxRows) then Some(Materialized(file.matrix, maxRows)) else None
    {
      if file.Sheet? && file.declared.Some? {
        var (declaredRows, declaredCols) := file.declared.value;
        if declaredRows > maxRows + 2 || declaredCols > MAX_COLUMNS {
          return None;
        }
      }
      var read := Materialize(file.matrix, maxRows);
      rows := Some(read);
    }

    /** The data rows of an acceptable file, read one beyond the limit to tell. */
    method ReadAcceptable(file: SourceFile, maxRows: nat) returns (rows: Option<seq<DataRow>>)
      ensures rows == if Acceptable(file, maxRows) then Some(AllRows(file.matrix)) else None
    {
      if file.Missing? {
        return None;
      }
      LimitIsExact(file.matrix, maxRows);
      rows := ParseFile(file, maxRows + 1);
      if rows.Some? && |rows.value| > maxRows {
        rows := None;
      }
    }

    /**
     * A missing file, a sheet that declares too much, or one above the limit
     * fails the job and leaves the stored rows alone; any other replaces them,
     * whatever they were.
     */
    method RunParse(file: SourceFile, maxRows: nat, apply: Record -> Record) returns (result: StageResult)
      modifies this, jobs, table
      ensures old(jobs.job).status !in {Uploaded, Parsing} ==>
                && result == (if old(jobs.job).status in {Mapped, Validating, Validated} then Nothing else Conflict(old(jobs.job).status))
                && jobs.job == old(jobs.job) && table.stored == old(table.stored) && events == old(events)
      ensures old(jobs.job).status in {Uploaded, Parsing} ==>
                var was := old(jobs.job);
                var entered := was.history + [Change(was.status, Parsing)];
                if Acceptable(file, maxRows)
                then result == Ended(Mapped) && events == old(events) &&
                     jobs.job == was.(status := Mapped, total := |AllRows(file.matrix)|, history := entered + [Change(Parsing, Mapped)]) &&
                     table.stored == InsertAll(map[], AllRows(file.matrix), apply)
                else result == Raised && events == old(events) + [JobFailed] && table.stored == old(table.stored) &&
                     jobs.job == was.(status := JobFailed, history := entered + [Change(Parsing, JobFailed)])
    {
      if jobs.job.status.Mapped? || jobs.job.status.Validating? || jobs.job.status.Validated? {
        return Nothing;
      }
      if !jobs.job.status.Uploaded? && !jobs.job.status.Parsing? {
        return Conflict(jobs.job.status);
      }
      var _ := jobs.TransitionStatus({Uploaded, Parsing}, Parsing, jobs.job.status);
      var read := ReadAcceptable(file, maxRows);
      if read.None? {
        End(JobFailed);
        return Raised;
      }
      var parsed := read.value;
      table.DeleteByJob();
      InsertInChunks(parsed, apply);
      jobs.UpdateTotal(|parsed|);
      var _ := jobs.TransitionStatus({Parsing}, Mapped, Parsing);
      return Ended(Mapped);
    }
  }
}
