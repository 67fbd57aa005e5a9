/** Markdown tables of maintainer files: what a table row contributes, stated
    declaratively, and the loops that skip along the lines by hand. */
module RefTables {
  import opened Options
  import opened Text
  import opened RefScan

  function TrimPrefix(s: string, c: char): string { if s != "" && s[0] == c then s[1..] else s }

  function TrimSuffix(s: string, c: char): string { if s != "" && s[|s| - 1] == c then s[..|s| - 1] else s }

  /** `strings.Trim` with a single character. */
  function TrimChar(s: string, c: char): string {
    if s != "" && s[0] == c then TrimChar(s[1..], c)
    else if s != "" && s[|s| - 1] == c then TrimChar(s[..|s| - 1], c)
    else s
  }

  /** The trimmed cells of a table row; empty when the line holds no bar. */
  function ParseRow(line: string): seq<string> {
    if '|' !in line || Trim(line) == "" then []
    else
      var parts := Split(TrimSuffix(TrimPrefix(Trim(line), '|'), '|'), '|');
      seq(|parts|, i requires 0 <= i < |parts| => Trim(parts[i]))
  }

  predicate HeaderMatch(cell: string) {
    Lower(Trim(cell)) in {"github", "github id", "github username", "github handle", "github account"}
  }

  predicate IsDashes(s: string) { forall i :: 0 <= i < |s| ==> s[i] == '-' || s[i] == ':' }

  predicate IsSeparatorRow(cells: seq<string>) {
    |cells| > 0 && forall i :: 0 <= i < |cells| ==> IsDashes(Trim(cells[i]))
  }

  predicate IsValidHandle(handle: string) {
    var h := Lower(Trim(handle));
    && h != "" && !IsReserved(h) && |h| <= MAX_HANDLE
    && forall i :: 0 <= i < |h| ==> 'a' <= h[i] <= 'z' || '0' <= h[i] <= '9' || h[i] == '-'
  }

  /** The handle in a column of a row.  It is validated after trimming, yet kept as it stands. */
  function CellHandle(cells: seq<string>, col: nat): Option<string> {
    if col >= |cells| || Trim(cells[col]) == "" then None
    else
      var cell := TrimPrefix(TrimChar(Trim(cells[col]), '`'), '@');
      if IsValidHandle(cell) then Some(Lower(cell)) else None
  }

  /** The first column headed by one of the GitHub titles, or the number of columns. */
  function GitHubColumn(cells: seq<string>): (col: nat)
    ensures col <= |cells|
  {
    if cells == [] || HeaderMatch(cells[0]) then 0 else 1 + GitHubColumn(cells[1..])
  }

  lemma {:induction false} ColumnIsTitled(cells: seq<string>)
    requires GitHubColumn(cells) < |cells|
    ensures HeaderMatch(cells[GitHubColumn(cells)])
  {
    hide HeaderMatch;
    if !HeaderMatch(cells[0]) {
      ColumnIsTitled(cells[1..]);
    }
  }

  /* ----- the declarative meaning ----- */

  predicate IsRow(line: string) { ParseRow(line) != [] && !IsSeparatorRow(ParseRow(line)) }

  /** Line p heads a table with a GitHub column and line p + 1 is its separator. */
  predicate IsHeader(lines: seq<string>, p: nat) {
    && p + 1 < |lines|
    && GitHubColumn(ParseRow(lines[p])) < |ParseRow(lines[p])|
    && IsSeparatorRow(ParseRow(lines[p + 1]))
  }

  /** Row r belongs to the table headed at p: no line between breaks the table off. */
  ghost predicate Reaches(lines: seq<string>, p: nat, r: nat) {
    p + 2 <= r < |lines| && forall k :: p + 2 <= k <= r ==> IsRow(lines[k])
  }

  ghost predicate Yields(lines: seq<string>, p: nat, r: nat, h: string) {
    && IsHeader(lines, p) && Reaches(lines, p, r)
    && CellHandle(ParseRow(lines[r]), GitHubColumn(ParseRow(lines[p]))) == Some(h)
  }

  ghost predicate RowYields(lines: seq<string>, r: nat, h: string) {
    exists p: nat :: Yields(lines, p, r, h)
  }

  ghost predicate TableHandle(lines: seq<string>, h: string) {
    exists p: nat, r: nat :: Yields(lines, p, r, h)
  }

  ghost predicate YieldedBefore(lines: seq<string>, i: nat, h: string) {
    exists p: nat, r: nat :: p < i && Yields(lines, p, r, h)
  }

  ghost predicate YieldedIn(lines: seq<string>, i: nat, row: nat, h: string) {
    exists r: nat :: r < row && Yields(lines, i, r, h)
  }

  lemma DashesAreNoTitle(cell: string)
    requires IsDashes(Trim(cell))
    ensures !HeaderMatch(cell)
  {
    hide Trim;
    var t := Trim(cell);
    if t != "" {
      assert t[0] == '-' || t[0] == ':';
      assert Lower(t)[0] == LowerChar(t[0]) != 'g';
    }
  }

  /** Why skipping the separator line loses nothing: it can never head a table. */
  lemma SeparatorIsNoHeader(lines: seq<string>, p: nat)
    requires p < |lines| && IsSeparatorRow(ParseRow(lines[p]))
    ensures !IsHeader(lines, p)
  {
    hide HeaderMatch, ParseRow, IsDashes;
    var cells := ParseRow(lines[p]);
    var col := GitHubColumn(cells);
    if col < |cells| {
      ColumnIsTitled(cells);
      DashesAreNoTitle(cells[col]);
    }
  }

  /** Tables never share rows, and later tables stand below earlier ones. */
  lemma TablesAreOrdered(lines: seq<string>, p: nat, r: nat, p': nat, r': nat)
    requires IsHeader(lines, p') && Reaches(lines, p, r) && Reaches(lines, p', r') && p < p'
    ensures r < r'
  {
    hide ParseRow, CellHandle, GitHubColumn, HeaderMatch, IsDashes;
    assert !IsRow(lines[p' + 1]);
  }

  lemma NothingYielded(lines: seq<string>, i: nat, h: string)
    requires !IsHeader(lines, i)
    ensures YieldedBefore(lines, i + 1, h) <==> YieldedBefore(lines, i, h)
  {
    hide ParseRow, CellHandle, GitHubColumn, IsSeparatorRow, Reaches, IsHeader;
    if YieldedBefore(lines, i + 1, h) {
      var p: nat, r: nat :| p < i + 1 && Yields(lines, p, r, h);
      assert p < i;
    }
  }

  /** One finished table and its skipped separator extend what has been found. */
  lemma TableDone(lines: seq<string>, i: nat, row: nat, h: string)
    requires IsHeader(lines, i) && i + 2 <= row
    requires row >= |lines| || !IsRow(lines[row])
    ensures YieldedBefore(lines, i + 2, h) <==> YieldedBefore(lines, i, h) || YieldedIn(lines, i, row, h)
  {
    hide ParseRow, CellHandle, GitHubColumn, IsSeparatorRow;
    SeparatorIsNoHeader(lines, i + 1);
    if YieldedBefore(lines, i + 2, h) && !YieldedBefore(lines, i, h) {
      var p: nat, r: nat :| p < i + 2 && Yields(lines, p, r, h);
      assert p == i;
      assert r < row;
    }
    if YieldedIn(lines, i, row, h) {
      var r: nat :| r < row && Yields(lines, i, r, h);
      assert Yields(lines, i, r, h) && i < i + 2;
    }
  }

  lemma RowDone(lines: seq<string>, i: nat, row: nat, h: string)
    requires IsHeader(lines, i) && Reaches(lines, i, row)
    ensures YieldedIn(lines, i, row + 1, h) <==>
      YieldedIn(lines, i, row, h) || CellHandle(ParseRow(lines[row]), GitHubColumn(ParseRow(lines[i]))) == Some(h)
  {
    hide ParseRow, CellHandle, GitHubColumn, IsSeparatorRow, IsRow;
    if CellHandle(ParseRow(lines[row]), GitHubColumn(ParseRow(lines[i]))) == Some(h) {
      assert Yields(lines, i, row, h);
    }
    if YieldedIn(lines, i, row + 1, h) {
      var r: nat :| r < row + 1 && Yields(lines, i, r, h);
      assert r < row || r == row;
    }
  }

  lemma AllDone(lines: seq<string>, i: nat, h: string)
    requires i + 1 >= |lines|
    ensures YieldedBefore(lines, i, h) <==> TableHandle(lines, h)
  {
    hide ParseRow, CellHandle, GitHubColumn, IsSeparatorRow, Reaches;
    if TableHandle(lines, h) {
      var p: nat, r: nat :| Yields(lines, p, r, h);
      assert p < i;
    }
  }

  /** A handle met for the first time at a row is yielded by no earlier row. */
  lemma FirstSighting(lines: seq<string>, i: nat, row: nat, h: string, r: nat)
    requires IsHeader(lines, i) && Reaches(lines, i, row) && r < row
    requires !YieldedBefore(lines, i, h) && !YieldedIn(lines, i, row, h)
    ensures !RowYields(lines, r, h)
  {
    hide ParseRow, CellHandle, GitHubColumn, IsHeader, Reaches;
    if RowYields(lines, r, h) {
      var p: nat :| Yields(lines, p, r, h);
      if p > i {
        TablesAreOrdered(lines, i, row, p, r);
      }
      assert false;
    }
  }

  /* ----- the loops ----- */

  method FindColumn(cells: seq<string>) returns (col: nat)
    ensures col == GitHubColumn(cells)
  {
    col := 0;
    while col < |cells| && !HeaderMatch(cells[col])
      invariant 0 <= col <= |cells|
      invariant GitHubColumn(cells) == col + GitHubColumn(cells[col..])
    {
      assert cells[col..][1..] == cells[col + 1..];
      col := col + 1;
    }
  }

  /** The handles of the table headed at i, row by row until it breaks off. */
  method CollectRows(lines: seq<string>, i: nat, col: nat, found: set<string>) returns (result: set<string>, row: nat)
    requires IsHeader(lines, i) && col == GitHubColumn(ParseRow(lines[i]))
    ensures i + 2 <= row && (row >= |lines| || !IsRow(lines[row]))
    ensures forall h :: h in result <==> h in found || YieldedIn(lines, i, row, h)
  {
    hide Yields, IsHeader, Reaches, CellHandle, ParseRow, IsSeparatorRow, HeaderMatch, TableHandle, YieldedBefore, YieldedIn;
    result := found;
    row := i + 2;
    NoRowsYet(lines, i, row);
    while row < |lines|
      invariant i + 2 <= row && Rows(lines, i + 2, row)
      invariant forall h :: h in result <==> h in found || YieldedIn(lines, i, row, h)
    {
      var cells := ParseRow(lines[row]);
      if !IsRow(lines[row]) {
        return;
      }
      RowsReach(lines, i, row);
      hide IsRow, Rows;
      var handle := CellHandle(cells, col);
      forall h { RowDone(lines, i, row, h); }
      if handle.Some? {
        result := result + {handle.value};
      }
      row := row + 1;
    }
  }

  /** parseMarkdownTablesForHandles: exactly the valid GitHub cells of rows reachable from a header. */
  method ParseTables(lines: seq<string>) returns (result: set<string>)
    ensures forall h :: h in result <==> TableHandle(lines, h)
  {
    hide Yields, IsHeader, Reaches, CellHandle, ParseRow, IsSeparatorRow, IsRow, TableHandle, YieldedBefore, YieldedIn;
    result := {};
    var i := 0;
    NoneYet(lines);
    while i + 1 < |lines|
      invariant 0 <= i
      invariant forall h :: h in result <==> YieldedBefore(lines, i, h)
      decreases |lines| - i
    {
      var header := CheckHeader(lines, i);
      if header.None? {
        forall h { NothingYielded(lines, i, h); }
        i := i + 1;
        continue;
      }
      var row;
      result, row := CollectRows(lines, i, header.value, result);
      forall h { TableDone(lines, i, row, h); }
      i := i + 2;
    }
    forall h { AllDone(lines, i, h); }
  }

  ghost predicate Rows(lines: seq<string>, from: nat, to: nat) {
    forall k :: from <= k < to && k < |lines| ==> IsRow(lines[k])
  }

  lemma RowsReach(lines: seq<string>, i: nat, row: nat)
    requires i + 2 <= row < |lines| && Rows(lines, i + 2, row) && IsRow(lines[row])
    ensures Reaches(lines, i, row) && Rows(lines, i + 2, row + 1)
  {
    hide IsRow;
  }

  lemma NoneYet(lines: seq<string>)
    ensures forall h :: !YieldedBefore(lines, 0, h)
  {
  }

  lemma NoRowsYet(lines: seq<string>, i: nat, row: nat)
    requires row == i + 2
    ensures forall h :: !YieldedIn(lines, i, row, h)
  {
    hide ParseRow, CellHandle, GitHubColumn, IsHeader;
  }

  /** The three tests that decide whether a table starts at line i, and its GitHub column. */
  method CheckHeader(lines: seq<string>, i: nat) returns (col: Option<nat>)
    requires i + 1 < |lines|
    ensures col == if IsHeader(lines, i) then Some(GitHubColumn(ParseRow(lines[i]))) else None
  {
    hide ParseRow, HeaderMatch;
    var headerCells := ParseRow(lines[i]);
    if |headerCells| == 0 {
      return None;
    }
    var separatorCells := ParseRow(lines[i + 1]);
    if |separatorCells| == 0 || !IsSeparatorRow(separatorCells) {
      return None;
    }
    var at := FindColumn(headerCells);
    if at == |headerCells| {
      return None;
    }
    return Some(at);
  }

  /** The row a handle is attributed to: the first row of any table that yields it. */
  ghost predicate FirstRow(lines: seq<string>, h: string, r: nat) {
    r < |lines| && RowYields(lines, r, h) && forall k: nat :: k < r ==> !RowYields(lines, k, h)
  }

  ghost predicate FromFirstRow(lines: seq<string>, h: string, text: string) {
    exists r: nat :: FirstRow(lines, h, r) && text == Trim(lines[r])
  }

  /** The rows of the table headed at i, as far as they go. */
  method RecordRows(lines: seq<string>, i: nat, col: nat, found: map<string, string>)
    returns (result: map<string, string>, row: nat)
    requires IsHeader(lines, i) && col == GitHubColumn(ParseRow(lines[i]))
    requires forall h :: h in found <==> YieldedBefore(lines, i, h)
    requires forall h :: h in found ==> FromFirstRow(lines, h, found[h])
    ensures i + 2 <= row && (row >= |lines| || !IsRow(lines[row]))
    ensures forall h :: h in result <==> h in found || YieldedIn(lines, i, row, h)
    ensures forall h :: h in result ==> FromFirstRow(lines, h, result[h])
  {
    hide Yields, IsHeader, Reaches, CellHandle, ParseRow, IsSeparatorRow, HeaderMatch, TableHandle, YieldedBefore, YieldedIn, FromFirstRow;
    result := found;
    row := i + 2;
    NoRowsYet(lines, i, row);
    while row < |lines|
      invariant i + 2 <= row && Rows(lines, i + 2, row)
      invariant forall h :: h in result <==> h in found || YieldedIn(lines, i, row, h)
      invariant forall h :: h in result ==> FromFirstRow(lines, h, result[h])
    {
      var cells := ParseRow(lines[row]);
      if !IsRow(lines[row]) {
        return;
      }
      RowsReach(lines, i, row);
      hide IsRow, Rows;
      var handle := CellHandle(cells, col);
      forall h { RowDone(lines, i, row, h); }
      if handle.Some? && handle.value !in result {
        NewRow(lines, i, row, handle.value);
        result := result[handle.value := Trim(lines[row])];
      }
      row := row + 1;
    }
  }

  /** The table part of buildMaintainerRefLines: the same handles, each with its first row. */
  method TableLines(lines: seq<string>) returns (result: map<string, string>)
    ensures forall h :: h in result <==> TableHandle(lines, h)
    ensures forall h :: h in result ==> FromFirstRow(lines, h, result[h])
  {
    hide Yields, IsHeader, Reaches, CellHandle, ParseRow, IsSeparatorRow, IsRow, TableHandle, YieldedBefore, YieldedIn, FromFirstRow;
    result := map[];
    var i := 0;
    NoneYet(lines);
    while i + 1 < |lines|
      invariant 0 <= i
      invariant forall h :: h in result <==> YieldedBefore(lines, i, h)
      invariant forall h :: h in result ==> FromFirstRow(lines, h, result[h])
      decreases |lines| - i
    {
      var header := CheckHeader(lines, i);
      if header.None? {
        forall h { NothingYielded(lines, i, h); }
        i := i + 1;
        continue;
      }
      var row;
      result, row := RecordRows(lines, i, header.value, result);
      forall h { TableDone(lines, i, row, h); }
      i := i + 2;
    }
    forall h { AllDone(lines, i, h); }
  }

  lemma NewYield(lines: seq<string>, i: nat, row: nat, h: string)
    requires IsHeader(lines, i) && Reaches(lines, i, row)
    requires CellHandle(ParseRow(lines[row]), GitHubColumn(ParseRow(lines[i]))) == Some(h)
    ensures Yields(lines, i, row, h)
  {
  }

  lemma RowYieldsBy(lines: seq<string>, p: nat, r: nat, h: string)
    requires Yields(lines, p, r, h)
    ensures RowYields(lines, r, h)
  {
    hide Yields;
  }

  lemma NewRow(lines: seq<string>, i: nat, row: nat, h: string)
    requires IsHeader(lines, i) && Reaches(lines, i, row)
    requires CellHandle(ParseRow(lines[row]), GitHubColumn(ParseRow(lines[i]))) == Some(h)
    requires !YieldedBefore(lines, i, h) && !YieldedIn(lines, i, row, h)
    ensures FromFirstRow(lines, h, Trim(lines[row]))
  {
    hide ParseRow, CellHandle, GitHubColumn, IsSeparatorRow, IsRow, YieldedBefore, YieldedIn, RowYields, Yields;
    assert Yields(lines, i, row, h) by { NewYield(lines, i, row, h); }
    RowYieldsBy(lines, i, row, h);
    forall k: nat | k < row ensures !RowYields(lines, k, h) {
      FirstSighting(lines, i, row, h, k);
    }
    assert FirstRow(lines, h, row);
  }
}
