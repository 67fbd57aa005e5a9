/** Reading a worksheet whose blank cells repeat the value above in some columns. */
module SheetRows {
  import opened Options
  import opened Text

  type Grid = seq<seq<string>>

  /** A cell, trimmed; short rows read as blank. */
  function Cell(row: seq<string>, i: nat): string {
    if i < |row| then Trim(row[i]) else ""
  }

  function Headers(row: seq<string>): (r: seq<string>)
    ensures |r| == |row| && forall i :: 0 <= i < |row| ==> r[i] == Trim(row[i])
  {
    seq(|row|, i requires 0 <= i < |row| => Trim(row[i]))
  }

  /** A column is carried when its header is asked for and no earlier column has that header. */
  predicate Carried(headers: seq<string>, wanted: seq<string>, i: nat)
    requires i < |headers|
  {
    headers[i] in wanted && headers[i] !in headers[..i]
  }

  predicate HasValue(row: seq<string>, width: nat) {
    exists i :: 0 <= i < width && Cell(row, i) != ""
  }

  /** The last cell of column i above line n that is not blank. */
  ghost predicate LastAbove(body: Grid, n: nat, i: nat, v: string)
    requires n <= |body|
  {
    || (v == "" && forall k :: 0 <= k < n ==> Cell(body[k], i) == "")
    || (v != "" && exists k :: 0 <= k < n && LastIs(body, n, i, v, k))
  }

  ghost predicate LastIs(body: Grid, n: nat, i: nat, v: string, k: nat)
    requires k < n <= |body|
  {
    Cell(body[k], i) == v && forall m :: k < m < n ==> Cell(body[m], i) == ""
  }

  /** The value the k-th line has in column i. */
  ghost predicate Shows(headers: seq<string>, wanted: seq<string>, body: Grid, k: nat, i: nat, v: string)
    requires k < |body| && i < |headers|
  {
    if Carried(headers, wanted, i) then LastAbove(body, k + 1, i, v) else v == Cell(body[k], i)
  }

  /** No later column below n has the header of column i. */
  predicate LastColumn(headers: seq<string>, n: nat, i: nat)
    requires i < n <= |headers|
  {
    forall j :: i < j < n ==> headers[j] != headers[i]
  }

  predicate IsHeader(headers: seq<string>, n: nat, h: string)
    requires n <= |headers|
  {
    exists i :: 0 <= i < n && headers[i] == h
  }

  /** The map holds, for the first n headers, what the last column with that header shows. */
  ghost predicate Describes(row: map<string, string>, headers: seq<string>, wanted: seq<string>, body: Grid, k: nat, n: nat)
    requires k < |body| && n <= |headers|
  {
    && (forall h :: h in row <==> IsHeader(headers, n, h))
    && forall i :: 0 <= i < n && LastColumn(headers, n, i) ==>
         headers[i] in row && Shows(headers, wanted, body, k, i, row[headers[i]])
  }

  /** The lines below n that have a value, in order. */
  function Kept(body: Grid, width: nat, n: nat): seq<nat>
    requires n <= |body|
  {
    if n == 0 then [] else Kept(body, width, n - 1) + (if HasValue(body[n - 1], width) then [n - 1] else [])
  }

  lemma LastAboveStep(body: Grid, n: nat, i: nat, v: string)
    requires n < |body| && LastAbove(body, n, i, v)
    ensures LastAbove(body, n + 1, i, if Cell(body[n], i) != "" then Cell(body[n], i) else v)
  {
    hide Cell;
    if Cell(body[n], i) != "" {
      assert LastIs(body, n + 1, i, Cell(body[n], i), n);
    } else if v != "" {
      var k :| 0 <= k < n && LastIs(body, n, i, v, k);
      assert LastIs(body, n + 1, i, v, k);
    }
  }

  ghost predicate Remembers(last: map<nat, string>, headers: seq<string>, wanted: seq<string>, body: Grid, k: nat, done: nat)
    requires done <= |headers| && k < |body|
  {
    forall i :: 0 <= i < |headers| && Carried(headers, wanted, i) ==>
      LastAbove(body, if i < done then k + 1 else k, i, Recall(last, i))
  }

  function Recall(last: map<nat, string>, i: nat): string {
    if i in last then last[i] else ""
  }

  /** One line: the map, whether it has a value, and the values remembered for the lines below. */
  method ReadLine(headers: seq<string>, wanted: seq<string>, body: Grid, k: nat, before: map<nat, string>)
    returns (row: map<string, string>, hasAnyValue: bool, last: map<nat, string>)
    requires k < |body| && Remembers(before, headers, wanted, body, k, 0)
    ensures Describes(row, headers, wanted, body, k, |headers|)
    ensures hasAnyValue == HasValue(body[k], |headers|)
    ensures Remembers(last, headers, wanted, body, k, |headers|)
  {
    hide LastAbove, Cell, Describes;
    assert Describes(map[], headers, wanted, body, k, 0) by { NoColumns(headers, wanted, body, k); }
    row, hasAnyValue, last := map[], false, before;
    for i := 0 to |headers|
      invariant Describes(row, headers, wanted, body, k, i)
      invariant hasAnyValue == HasValue(body[k], i)
      invariant Remembers(last, headers, wanted, body, k, i)
    {
      var cell := Cell(body[k], i);
      ghost var was := last;
      if cell != "" {
        hasAnyValue := true;
      }
      if Carried(headers, wanted, i) {
        LastAboveStep(body, k, i, Recall(last, i));
        if cell != "" {
          last := last[i := cell];
        }
        DescribesMore(row, headers, wanted, body, k, i, Recall(last, i));
        row := row[headers[i] := Recall(last, i)];
      } else {
        DescribesMore(row, headers, wanted, body, k, i, cell);
        row := row[headers[i] := cell];
      }
    }
  }

  lemma NoColumns(headers: seq<string>, wanted: seq<string>, body: Grid, k: nat)
    requires k < |body|
    ensures Describes(map[], headers, wanted, body, k, 0)
  {
  }

  lemma DescribesMore(row: map<string, string>, headers: seq<string>, wanted: seq<string>, body: Grid, k: nat, n: nat,
                      v: string)
    requires k < |body| && n < |headers| && Describes(row, headers, wanted, body, k, n)
    requires Shows(headers, wanted, body, k, n, v)
    ensures Describes(row[headers[n] := v], headers, wanted, body, k, n + 1)
  {
    hide Shows, IsHeader;
    KeysMore(headers, n);
    forall i | 0 <= i < n && LastColumn(headers, n + 1, i)
      ensures LastColumn(headers, n, i) && headers[i] != headers[n]
    {
    }
  }

  lemma KeysMore(headers: seq<string>, n: nat)
    requires n < |headers|
    ensures forall h :: IsHeader(headers, n + 1, h) <==> IsHeader(headers, n, h) || headers[n] == h
  {
    forall h ensures IsHeader(headers, n + 1, h) <==> IsHeader(headers, n, h) || headers[n] == h {
      if i :| 0 <= i < n && headers[i] == h {
        assert IsHeader(headers, n + 1, h);
      }
    }
  }

  ghost predicate AllDescribed(rows: seq<map<string, string>>, headers: seq<string>, wanted: seq<string>, body: Grid,
                               n: nat)
    requires n <= |body|
  {
    var kept := Kept(body, |headers|, n);
    |rows| == |kept| && forall r :: 0 <= r < |rows| ==>
      kept[r] < |body| && Describes(rows[r], headers, wanted, body, kept[r], |headers|)
  }

  lemma OneMoreLine(rows: seq<map<string, string>>, headers: seq<string>, wanted: seq<string>, body: Grid, n: nat,
                    row: map<string, string>)
    requires n < |body| && AllDescribed(rows, headers, wanted, body, n)
    requires Describes(row, headers, wanted, body, n, |headers|)
    ensures AllDescribed(if HasValue(body[n], |headers|) then rows + [row] else rows, headers, wanted, body, n + 1)
  {
    hide Describes, HasValue;
  }

  /** The rows returned are the lines with a value, in order, blank cells of carried columns
      standing for the last value above. An empty sheet is an error. */
  method ReadSheetRows(grid: Grid, wanted: seq<string>) returns (rows: Option<seq<map<string, string>>>)
    ensures rows.None? <==> grid == []
    ensures rows.Some? ==> AllDescribed(rows.value, Headers(grid[0]), wanted, grid[1..], |grid| - 1)
  {
    if grid == [] {
      return None;
    }
    var headers, body := Headers(grid[0]), grid[1..];
    var out: seq<map<string, string>> := [];
    var last: map<nat, string> := map[];
    assert AllDescribed(out, headers, wanted, body, 0);
    hide Describes, HasValue, AllDescribed, Remembers;
    assert body != [] ==> Remembers(last, headers, wanted, body, 0, 0) by {
      if body != [] {
        NothingAbove(headers, wanted, body);
      }
    }
    for k := 0 to |body|
      invariant AllDescribed(out, headers, wanted, body, k)
      invariant k < |body| ==> Remembers(last, headers, wanted, body, k, 0)
    {
      var row, hasAnyValue;
      row, hasAnyValue, last := ReadLine(headers, wanted, body, k, last);
      OneMoreLine(out, headers, wanted, body, k, row);
      if hasAnyValue {
        out := out + [row];
      }
      NextLine(last, headers, wanted, body, k);
    }
    rows := Some(out);
  }

  lemma NextLine(last: map<nat, string>, headers: seq<string>, wanted: seq<string>, body: Grid, k: nat)
    requires k < |body| && Remembers(last, headers, wanted, body, k, |headers|)
    ensures k + 1 < |body| ==> Remembers(last, headers, wanted, body, k + 1, 0)
  {
    hide LastAbove;
  }

  lemma NothingAbove(headers: seq<string>, wanted: seq<string>, body: Grid)
    requires body != []
    ensures Remembers(map[], headers, wanted, body, 0, 0)
  {
  }

  /** With distinct headers every column has its own entry: the cell, or in a carried column the
      last value at or above. */
  lemma DistinctHeaders(row: map<string, string>, headers: seq<string>, wanted: seq<string>, body: Grid, k: nat, i: nat)
    requires forall a, b :: 0 <= a < b < |headers| ==> headers[a] != headers[b]
    requires k < |body| && i < |headers| && Describes(row, headers, wanted, body, k, |headers|)
    ensures headers[i] in row
    ensures if headers[i] in wanted then LastAbove(body, k + 1, i, row[headers[i]])
            else row[headers[i]] == Cell(body[k], i)
  {
    assert LastColumn(headers, |headers|, i);
    assert headers[i] !in headers[..i];
    assert Shows(headers, wanted, body, k, i, row[headers[i]]);
  }

  /** The text of a cell without the spaces around it; a row that is too short has an empty one. */
  ghost predicate CellReads(row: seq<string>, i: nat, v: string) {
    if i < |row| then exists a, b :: row[i] == a + v + b && Spaces(a) && Spaces(b) && Tight(v) else v == ""
  }

  lemma CellMeaning(row: seq<string>, i: nat, v: string)
    ensures Cell(row, i) == v <==> CellReads(row, i, v)
  {
    hide Trim, Spaces, Tight;
    if i < |row| {
      var a, b := TrimSplits(row[i]);
      assert row[i] == a + Trim(row[i]) + b;
      forall a, b | row[i] == a + v + b && Spaces(a) && Spaces(b) && Tight(v) ensures Trim(row[i]) == v {
        TrimOf(a, v, b);
      }
    }
  }

  /** The last line at or above k that reads something in column i reads v, or none does and v is empty. */
  ghost predicate LastRead(body: Grid, k: nat, i: nat, v: string)
    requires k < |body|
  {
    || (v == "" && forall m :: 0 <= m <= k ==> CellReads(body[m], i, ""))
    || (v != "" && exists n :: 0 <= n <= k && ReadLast(body, k, i, v, n))
  }

  ghost predicate ReadLast(body: Grid, k: nat, i: nat, v: string, n: nat)
    requires n <= k < |body|
  {
    CellReads(body[n], i, v) && forall m :: n < m <= k ==> CellReads(body[m], i, "")
  }

  lemma LastReadIs(body: Grid, k: nat, i: nat, v: string)
    requires k < |body| && LastAbove(body, k + 1, i, v)
    ensures LastRead(body, k, i, v)
  {
    hide Cell, CellReads;
    forall m, u | 0 <= m < |body| ensures Cell(body[m], i) == u <==> CellReads(body[m], i, u) {
      CellMeaning(body[m], i, u);
    }
    if v != "" {
      var n :| 0 <= n < k + 1 && LastIs(body, k + 1, i, v, n);
      assert ReadLast(body, k, i, v, n);
    }
  }

  /** What the rows returned hold, told from the sheet: with distinct headers, each of them is a line that
      reads something, and each of its columns holds the text of the cell, or in a carried column the last
      text at or above. */
  lemma SheetReads(rows: seq<map<string, string>>, headers: seq<string>, wanted: seq<string>, body: Grid, r: nat, i: nat)
    requires forall a, b :: 0 <= a < b < |headers| ==> headers[a] != headers[b]
    requires AllDescribed(rows, headers, wanted, body, |body|) && r < |rows| && i < |headers|
    ensures var k := Kept(body, |headers|, |body|)[r];
            && k < |body| && headers[i] in rows[r]
            && (if headers[i] in wanted then LastRead(body, k, i, rows[r][headers[i]])
                else CellReads(body[k], i, rows[r][headers[i]]))
  {
    hide Describes, LastAbove, LastRead, CellReads, Cell, HasValue;
    var k := Kept(body, |headers|, |body|)[r];
    DistinctHeaders(rows[r], headers, wanted, body, k, i);
    var v := rows[r][headers[i]];
    if headers[i] in wanted {
      LastReadIs(body, k, i, v);
    } else {
      CellMeaning(body[k], i, v);
    }
  }

  /** The lines returned are those that read something in some column, in order. */
  lemma {:induction false} KeptReads(body: Grid, width: nat, n: nat)
    requires n <= |body|
    ensures forall j, k :: 0 <= j < k < |Kept(body, width, n)| ==> Kept(body, width, n)[j] < Kept(body, width, n)[k]
    ensures forall k: nat :: k in Kept(body, width, n) <==> k < n && ReadsSomething(body[k], width)
  {
    hide ReadsSomething, HasValue;
    if n > 0 {
      KeptReads(body, width, n - 1);
      var before := Kept(body, width, n - 1);
      assert forall j :: 0 <= j < |before| ==> before[j] in before;
      HasValueMeaning(body[n - 1], width);
    }
  }

  ghost predicate ReadsSomething(row: seq<string>, width: nat) {
    exists i :: 0 <= i < width && !CellReads(row, i, "")
  }

  lemma HasValueMeaning(row: seq<string>, width: nat)
    ensures HasValue(row, width) <==> ReadsSomething(row, width)
  {
    hide CellReads, Cell;
    forall i | 0 <= i < width ensures Cell(row, i) == "" <==> CellReads(row, i, "") {
      CellMeaning(row, i, "");
    }
  }
}
