/** What the parse stage takes cells, header rows and limits to be, character by character and number by number. */
module ImportCells {
  import opened Common
  import opened ImportParse

  // ----- white space -----

  predicate AllSpace(s: string) {
    forall k :: 0 <= k < |s| ==> IsSpace(s[k])
  }

  /** Tab to carriage return, the space, the no-break space, the Unicode spaces, both separators, and the byte order mark. */
  lemma SpacesExactly(c: char)
    ensures IsSpace(c) <==>
              || 0x9 <= c as int <= 0xd || c as int in {0x20, 0xa0, 0x1680} || 0x2000 <= c as int <= 0x200a
              || c as int in {0x2028, 0x2029, 0x202f, 0x205f, 0x3000, 0xfeff}
  {
    assert SPACES == "\U{9}\U{a}\U{b}\U{c}\U{d} \U{a0}\U{1680}\U{2000}\U{2001}\U{2002}\U{2003}\U{2004}\U{2005}\U{2006}\U{2007}\U{2008}\U{2009}\U{200a}\U{2028}\U{2029}\U{202f}\U{205f}\U{3000}\U{feff}";
  }

  lemma {:induction false} TrimLeftMeans(s: string) returns (a: string)
    ensures s == a + TrimLeft(s) && AllSpace(a)
    decreases |s|
  {
    a := "";
    if s != "" && IsSpace(s[0]) {
      var c := TrimLeftMeans(s[1..]);
      a := [s[0]] + c;
      JoinIsAssociative([s[0]], c, TrimLeft(s[1..]));
      SpaceJoins(s[0], c);
    }
  }

  lemma SpaceJoins(c: char, s: string)
    requires AllSpace(s) && IsSpace(c)
    ensures AllSpace([c] + s)
  {
  }

  lemma {:induction false} TrimLeftStarts(s: string)
    ensures TrimLeft(s) != "" ==> !IsSpace(TrimLeft(s)[0])
    decreases |s|
  {
    if s != "" && IsSpace(s[0]) {
      TrimLeftStarts(s[1..]);
    }
  }

  lemma {:induction false} TrimRightMeans(s: string) returns (b: string)
    ensures s == TrimRight(s) + b && AllSpace(b)
    decreases |s|
  {
    b := "";
    if s != "" && IsSpace(s[|s| - 1]) {
      var front, last := s[..|s| - 1], s[|s| - 1];
      var c := TrimRightMeans(front);
      b := c + [last];
      JoinIsAssociative(TrimRight(front), c, [last]);
      SpacesJoin(c, last);
    }
  }

  lemma {:induction false} TrimRightEnds(s: string)
    ensures TrimRight(s) != "" ==> !IsSpace(TrimRight(s)[|TrimRight(s)| - 1])
    decreases |s|
  {
    if s != "" && IsSpace(s[|s| - 1]) {
      TrimRightEnds(s[..|s| - 1]);
    }
  }

  lemma JoinIsAssociative(a: string, b: string, c: string)
    ensures (a + b) + c == a + (b + c)
  {
  }

  lemma SpacesJoin(s: string, c: char)
    requires AllSpace(s) && IsSpace(c)
    ensures AllSpace(s + [c])
  {
  }

  lemma {:induction false} TrimRightIsPrefix(s: string)
    ensures TrimRight(s) <= s
    decreases |s|
  {
    if s != "" && IsSpace(s[|s| - 1]) {
      TrimRightIsPrefix(s[..|s| - 1]);
    }
  }

  /** Trimming takes white space off both ends and nothing else. */
  lemma TrimMeans(s: string) returns (a: string, b: string)
    ensures s == a + Trim(s) + b && AllSpace(a) && AllSpace(b)
  {
    a := TrimLeftMeans(s);
    b := TrimRightMeans(TrimLeft(s));
    JoinIsAssociative(a, Trim(s), b);
  }

  /** And all of it: neither end of what is left is white space. */
  lemma TrimLeavesNoSpace(s: string)
    ensures Trim(s) != "" ==> !IsSpace(Trim(s)[0]) && !IsSpace(Trim(s)[|Trim(s)| - 1])
  {
    TrimLeftStarts(s);
    TrimRightEnds(TrimLeft(s));
    TrimRightIsPrefix(TrimLeft(s));
  }

  /** A cell is empty once trimmed if and only if it is white space throughout. */
  lemma BlankTrimsAway(s: string)
    ensures Trim(s) == "" <==> AllSpace(s)
  {
    var a, b := TrimMeans(s);
    TrimLeavesNoSpace(s);
    if Trim(s) != "" {
      assert s[|a|] == Trim(s)[0];
    }
  }

  // ----- numbers -----

  predicate AllDigits(s: string) {
    |s| > 0 && forall k :: 0 <= k < |s| ==> 0x30 <= s[k] as int <= 0x39
  }

  lemma DigitsAreDigits(s: string)
    ensures Digits(s) <==> AllDigits(s)
  {
  }

  /** A text is numeric if and only if it is digits, or digits, a point and digits, with or without a minus in front. */
  lemma NumericExactly(s: string)
    ensures Numeric(s) <==> exists sign: string, whole: string, fraction: string :: IsNumber(s, sign, whole, fraction)
  {
    if Numeric(s) {
      var sign, whole, fraction := NumericIsWritten(s);
    }
    if sign: string, whole: string, fraction: string :| IsNumber(s, sign, whole, fraction) {
      WrittenIsNumeric(s, sign, whole, fraction);
    }
  }

  lemma NumericIsWritten(s: string) returns (sign: string, whole: string, fraction: string)
    requires Numeric(s)
    ensures IsNumber(s, sign, whole, fraction)
  {
    var t := if s != "" && s[0] == '-' then s[1..] else s;
    sign := if s != "" && s[0] == '-' then "-" else "";
    assert s == sign + t;
    if Digits(t) {
      DigitsAreDigits(t);
      whole, fraction := t, "";
    } else {
      var k :| 0 <= k < |t| && t[k] == '.' && Digits(t[..k]) && Digits(t[k + 1..]);
      whole, fraction := t[..k], t[k + 1..];
      DigitsAreDigits(whole);
      DigitsAreDigits(fraction);
      PointInBetween(t, k);
      JoinIsAssociative(sign, whole + ".", fraction);
      JoinIsAssociative(sign, whole, ".");
    }
  }

  lemma PointInBetween(t: string, k: nat)
    requires k < |t| && t[k] == '.'
    ensures t == (t[..k] + ".") + t[k + 1..]
  {
  }

  predicate IsNumber(s: string, sign: string, whole: string, fraction: string) {
    && (sign == "" || sign == "-") && AllDigits(whole)
    && (s == sign + whole || (AllDigits(fraction) && s == sign + whole + "." + fraction))
  }

  lemma WrittenIsNumeric(s: string, sign: string, whole: string, fraction: string)
    requires IsNumber(s, sign, whole, fraction)
    ensures Numeric(s)
  {
    var t := if s != "" && s[0] == '-' then s[1..] else s;
    assert whole[0] != '-';
    assert t == s[|sign|..];
    DigitsAreDigits(whole);
    if s == sign + whole {
      assert t == whole;
    } else {
      DigitsAreDigits(fraction);
      assert t == whole + "." + fraction;
      assert t[..|whole|] == whole && t[|whole|] == '.' && t[|whole| + 1..] == fraction;
    }
  }

  // ----- the header row -----

  /** The columns that are filled, and those among them that hold a number. */
  function Filled(cells: seq<string>): set<nat> {
    set c: nat | c < |cells| && !AllSpace(cells[c])
  }

  function NumberColumns(cells: seq<string>): set<nat> {
    set c: nat | c < |cells| && !AllSpace(cells[c]) && Numeric(Trim(cells[c]))
  }

  lemma {:induction false} LabelsCount(cells: seq<string>)
    ensures |Labels(cells)| == |Filled(cells)|
    decreases |cells|
  {
    if cells != [] {
      LabelsCount(cells[1..]);
      BlankTrimsAway(cells[0]);
      FilledShifts(cells);
      ShiftedCount(Filled(cells[1..]), Filled(cells), !AllSpace(cells[0]));
    }
  }

  lemma FilledShifts(cells: seq<string>)
    requires cells != []
    ensures forall c: nat :: c + 1 in Filled(cells) <==> c in Filled(cells[1..])
    ensures forall c: nat :: c + 1 in NumberColumns(cells) <==> c in NumberColumns(cells[1..])
  {
    assert forall c: nat :: c < |cells[1..]| ==> cells[1..][c] == cells[c + 1];
  }

  lemma {:induction false} NumbersCount(cells: seq<string>)
    ensures |Numbers(Labels(cells))| == |NumberColumns(cells)|
    decreases |cells|
  {
    if cells != [] {
      NumbersCount(cells[1..]);
      BlankTrimsAway(cells[0]);
      FilledShifts(cells);
      ShiftedCount(NumberColumns(cells[1..]), NumberColumns(cells), !AllSpace(cells[0]) && Numeric(Trim(cells[0])));
      LabelsOfFirst(cells);
    }
  }

  lemma LabelsOfFirst(cells: seq<string>)
    requires cells != []
    ensures |Numbers(Labels(cells))| == |Numbers(Labels(cells[1..]))| + if Trim(cells[0]) != "" && Numeric(Trim(cells[0])) then 1 else 0
  {
    if Trim(cells[0]) == "" {
      assert Labels(cells) == Labels(cells[1..]);
    } else {
      assert Labels(cells)[0] == Trim(cells[0]) && Labels(cells)[1..] == Labels(cells[1..]);
    }
  }

  lemma ShiftedCount(rest: set<nat>, all: set<nat>, first: bool)
    requires forall c: nat :: c + 1 in all <==> c in rest
    requires 0 in all <==> first
    ensures |all| == |rest| + if first then 1 else 0
  {
    var later := set c | c in all && c > 0;
    ShiftKeepsSize(rest, later);
    assert all == later + if first then {0} else {};
  }

  lemma {:induction false} ShiftKeepsSize(rest: set<nat>, later: set<nat>)
    requires forall c: nat :: c + 1 in later <==> c in rest
    requires 0 !in later
    ensures |rest| == |later|
    decreases rest
  {
    assert forall c: nat :: c in later ==> c > 0 && c - 1 in rest;
    if rest != {} {
      var c :| c in rest;
      ShiftKeepsSize(rest - {c}, later - {c + 1});
    }
  }

  /** A row looks like a header if and only if at least two cells are filled and fewer than half of those hold numbers. */
  lemma LooksLikeHeaderExactly(cells: seq<string>)
    ensures LooksLikeHeader(cells) <==> |Filled(cells)| >= 2 && 2 * |NumberColumns(cells)| < |Filled(cells)|
  {
    LabelsCount(cells);
    NumbersCount(cells);
  }

  /** The header is the first such row among the leading 30, or row 0 if there is none. */
  lemma HeaderExactly(matrix: Matrix)
    ensures var h := HeaderFrom(matrix, 0);
            if exists i :: 0 <= i < |matrix| && i < 30 && LooksLikeHeader(matrix[i])
            then h < |matrix| && h < 30 && LooksLikeHeader(matrix[h]) && forall i :: 0 <= i < h ==> !LooksLikeHeader(matrix[i])
            else h == 0
  {
    HeaderFromFindsFirst(matrix, 0);
  }

  /** Column names and values are the trimmed cells; a line that ends early has empty ones. */
  lemma CellsAreTrimmed(matrix: Matrix, line: seq<string>, c: nat)
    ensures CellAt(line, c) == if c < |line| then Trim(line[c]) else ""
    ensures var h := HeaderFrom(matrix, 0); var headers := Headers(matrix);
            if h < |matrix| then |headers| == |matrix[h]| && (c < |headers| ==> headers[c] == Trim(matrix[h][c])) else headers == []
  {
  }

  /** Every stored row carries its mapped form, and under each named column the trimmed cell of the last column of that name. */
  lemma StoredValues(matrix: Matrix, apply: Record -> Record, n: nat, name: string)
    requires n in InsertAll(map[], AllRows(matrix), apply)
    ensures 0 < n <= |matrix|
    ensures var headers, line, raw := Headers(matrix), matrix[n - 1], InsertAll(map[], AllRows(matrix), apply)[n].raw;
            && InsertAll(map[], AllRows(matrix), apply)[n].mapped == apply(raw)
            && (name in raw <==> name != "" && name in headers)
            && (name in raw ==>
                  exists c: nat :: c < |headers| && headers[c] == name && name !in headers[c + 1..] &&
                    raw[name] == if c < |line| then Trim(line[c]) else "")
  {
    AcceptedSheetIsStoredWhole(matrix, apply);
    ValuesAreTheLastColumns(Headers(matrix), matrix[n - 1], name);
    if name in Headers(matrix) && name != "" {
      CellsAreTrimmed(matrix, matrix[n - 1], LastColumn(Headers(matrix), name));
    }
  }

  /** An insert adds the first row of each new number, and leaves every stored row as it is. */
  lemma {:induction false} InsertKeepsStored(stored: Stored, rows: seq<DataRow>, apply: Record -> Record, n: nat)
    ensures var after := InsertAll(stored, rows, apply);
            && (n in after <==> n in stored || exists k :: 0 <= k < |rows| && rows[k].number == n)
            && (n in stored ==> after[n] == stored[n])
            && (forall k :: 0 <= k < |rows| && rows[k].number == n && n !in stored && (forall j :: 0 <= j < k ==> rows[j].number != n) ==>
                  n in after && after[n] == Payload(rows[k].values, apply(rows[k].values)))
    decreases |rows|
  {
    if rows != [] {
      var front := rows[..|rows| - 1];
      InsertKeepsStored(stored, front, apply, n);
      assert forall k :: 0 <= k < |front| ==> front[k] == rows[k];
    }
  }

  // ----- limits -----

  /** A sheet that declares its extent is read if and only if it declares at most three rows beyond the limit, and at most 256 columns. */
  lemma AcceptableExactly(file: SourceFile, maxRows: nat)
    ensures Acceptable(file, maxRows) <==>
              && file != Missing
              && (file.Sheet? && file.declared.Some? ==> file.declared.value.0 <= maxRows + 3 && file.declared.value.1 <= 256)
              && |AllRows(file.matrix)| <= maxRows
  {
  }
}
