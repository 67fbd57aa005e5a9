/** Sorting and paging the recent projects. */
module RecentProjects {
  import opened Options
  import opened Text

  datatype SortBy = ByName | ByIssue | ByCreation
  /** `issue` is the number read out of the onboarding link, if there is one. */
  datatype Row = Row(id: nat, name: string, issue: Option<nat>, created: int)

  function IssueNumber(r: Row): nat { if r.issue.Some? then r.issue.value else 0 }

  /** The comparison handed to the sort. */
  predicate Less(mode: SortBy, ascending: bool, left: Row, right: Row) {
    match mode
    case ByName =>
      if ascending then StringLess(Lower(left.name), Lower(right.name))
      else StringLess(Lower(right.name), Lower(left.name))
    case ByIssue =>
      if left.issue.Some? != right.issue.Some? then left.issue.Some? && !right.issue.Some?
      else if IssueNumber(left) == IssueNumber(right) then
        if ascending then left.id < right.id else left.id > right.id
      else if ascending then IssueNumber(left) < IssueNumber(right)
      else IssueNumber(left) > IssueNumber(right)
    case ByCreation =>
      if ascending then left.created < right.created else left.created > right.created
  }

  predicate Tied(mode: SortBy, ascending: bool, a: Row, b: Row) {
    !Less(mode, ascending, a, b) && !Less(mode, ascending, b, a)
  }

  /* ----- the comparisons are orders ----- */

  /** In every mode the comparison is a strict weak order: irreflexive, transitive, and being tied
      is an equivalence. */
  lemma StrictWeakOrder(mode: SortBy, ascending: bool, a: Row, b: Row, c: Row)
    ensures !Less(mode, ascending, a, a)
    ensures Less(mode, ascending, a, b) && Less(mode, ascending, b, c) ==> Less(mode, ascending, a, c)
    ensures Tied(mode, ascending, a, b) && Tied(mode, ascending, b, c) ==> Tied(mode, ascending, a, c)
  {
    hide StringLess, Lower;
    var (x, y, z) := (Lower(a.name), Lower(b.name), Lower(c.name));
    StringOrder(x, y, z);
    StringOrder(z, y, x);
    StringOrder(y, x, z);
    StringOrder(x, z, y);
    StringOrder(y, z, x);
    StringOrder(x, x, x);
  }

  /** What a tie means: the same name but for case, the same instant, or, by issue, the same row id. */
  lemma TiesAre(mode: SortBy, ascending: bool, a: Row, b: Row)
    ensures Tied(mode, ascending, a, b) <==>
      match mode
      case ByName => Lower(a.name) == Lower(b.name)
      case ByIssue => a.issue.Some? == b.issue.Some? && IssueNumber(a) == IssueNumber(b) && a.id == b.id
      case ByCreation => a.created == b.created
  {
    StringOrder(Lower(a.name), Lower(b.name), "");
    StringOrder(Lower(b.name), Lower(a.name), "");
  }

  /* ----- what a sorted list shows ----- */

  /** The first row may stand before the second. By name and by creation the direction is the one asked
      for; by issue, rows with a number come first either way, and number and then row id go in the
      direction asked for. */
  predicate MayPrecede(mode: SortBy, ascending: bool, a: Row, b: Row) {
    match mode
    case ByCreation => if ascending then a.created <= b.created else a.created >= b.created
    case ByName =>
      if ascending then !StringLess(Lower(b.name), Lower(a.name)) else !StringLess(Lower(a.name), Lower(b.name))
    case ByIssue =>
      match (a.issue, b.issue)
      case (Some(_), None) => true
      case (None, Some(_)) => false
      case (None, None) => if ascending then a.id <= b.id else a.id >= b.id
      case (Some(m), Some(n)) =>
        if m == n then (if ascending then a.id <= b.id else a.id >= b.id)
        else if ascending then m < n else m > n
  }

  ghost predicate Ordered(mode: SortBy, ascending: bool, rows: seq<Row>) {
    forall i, j :: 0 <= i < j < |rows| ==> MayPrecede(mode, ascending, rows[i], rows[j])
  }

  /* ----- pages ----- */

  ghost predicate Sorted(mode: SortBy, ascending: bool, rows: seq<Row>) {
    forall i, j :: 0 <= i < j < |rows| ==> !Less(mode, ascending, rows[j], rows[i])
  }

  /** Sorting by the comparison is being in that order. */
  lemma SortedMeaning(mode: SortBy, ascending: bool, rows: seq<Row>)
    ensures Sorted(mode, ascending, rows) <==> Ordered(mode, ascending, rows)
  {
    hide Less, MayPrecede;
    forall i, j | 0 <= i < j < |rows|
      ensures !Less(mode, ascending, rows[j], rows[i]) <==> MayPrecede(mode, ascending, rows[i], rows[j])
    {
      PrecedesIs(mode, ascending, rows[i], rows[j]);
    }
  }

  lemma PrecedesIs(mode: SortBy, ascending: bool, a: Row, b: Row)
    ensures !Less(mode, ascending, b, a) <==> MayPrecede(mode, ascending, a, b)
  {
    hide StringLess, Lower;
  }

  /** One of the results an unstable sort may give. */
  ghost predicate SortOf(mode: SortBy, ascending: bool, sorted: seq<Row>, rows: seq<Row>) {
    Sorted(mode, ascending, sorted) && multiset(sorted) == multiset(rows)
  }

  method Window(length: nat, limit: nat, offset: nat) returns (start: nat, end: nat)
    ensures start <= end <= length
    ensures forall rows: seq<Row> :: |rows| == length ==> rows[start..end] == Page(rows, limit, offset)
  {
    start := offset;
    if start > length {
      start := length;
    }
    end := offset + limit;
    if end > length {
      end := length;
    }
  }

  function Page(rows: seq<Row>, limit: nat, offset: nat): seq<Row> {
    if offset >= |rows| then []
    else if offset + limit >= |rows| then rows[offset..]
    else rows[offset..offset + limit]
  }

  /** The first n pages, each cut from the sort its own request made. */
  function Pages(sorts: seq<seq<Row>>, limit: nat, n: nat): seq<Row>
    requires n <= |sorts|
  {
    if n == 0 then [] else Pages(sorts, limit, n - 1) + Page(sorts[n - 1], limit, (n - 1) * limit)
  }

  function Prefix(rows: seq<Row>, n: nat): seq<Row> {
    if n >= |rows| then rows else rows[..n]
  }

  lemma PageExtends(rows: seq<Row>, limit: nat, offset: nat)
    ensures Prefix(rows, offset) + Page(rows, limit, offset) == Prefix(rows, offset + limit)
  {
  }

  lemma {:induction false} PagesOfOneSort(sorted: seq<Row>, sorts: seq<seq<Row>>, limit: nat, n: nat)
    requires n <= |sorts| && forall k :: 0 <= k < n ==> sorts[k] == sorted
    ensures Pages(sorts, limit, n) == Prefix(sorted, n * limit)
  {
    if n == 0 {
      assert Prefix(sorted, 0) == [];
    } else {
      hide Page, Prefix;
      PagesOfOneSort(sorted, sorts, limit, n - 1);
      PageExtends(sorted, limit, (n - 1) * limit);
      assert n * limit == (n - 1) * limit + limit;
    }
  }

  /* ----- a break between rows that do not tie is in the same place in every sort ----- */

  /** The rows on both sides of position b do not tie, if there are rows on both sides. */
  predicate Untied(mode: SortBy, ascending: bool, s: seq<Row>, b: nat) {
    0 < b < |s| ==> !Tied(mode, ascending, s[b - 1], s[b])
  }

  lemma BreakIsStrict(mode: SortBy, ascending: bool, s: seq<Row>, b: nat, i: nat, j: nat)
    requires Sorted(mode, ascending, s) && 0 < b < |s| && Untied(mode, ascending, s, b) && i < b <= j < |s|
    ensures Less(mode, ascending, s[b - 1], s[j]) && !Less(mode, ascending, s[b - 1], s[i])
  {
    hide Less;
    StrictWeakOrder(mode, ascending, s[b - 1], s[b], s[j]);
    StrictWeakOrder(mode, ascending, s[b - 1], s[j], s[b]);
    StrictWeakOrder(mode, ascending, s[b - 1], s[b - 1], s[b - 1]);
  }

  lemma LessExtends(mode: SortBy, ascending: bool, a: Row, b: Row, c: Row)
    requires Less(mode, ascending, a, b) && !Less(mode, ascending, c, b)
    ensures Less(mode, ascending, a, c)
  {
    hide Less;
    StrictWeakOrder(mode, ascending, a, c, b);
    StrictWeakOrder(mode, ascending, c, a, b);
    StrictWeakOrder(mode, ascending, a, b, c);
  }

  /** In any sort, nothing stands before the break that the first sort has behind it. */
  lemma LowRowsFirst(mode: SortBy, ascending: bool, s: seq<Row>, t: seq<Row>, b: nat, i: nat)
    requires Sorted(mode, ascending, s) && Sorted(mode, ascending, t) && multiset(s) == multiset(t)
    requires 0 < b < |s| && Untied(mode, ascending, s, b) && i < b && i < |t|
    ensures !Less(mode, ascending, s[b - 1], t[i])
  {
    hide Less;
    var pivot := s[b - 1];
    if Less(mode, ascending, pivot, t[i]) {
      forall j | i <= j < |t| ensures Less(mode, ascending, pivot, t[j]) {
        StrictWeakOrder(mode, ascending, pivot, t[i], t[j]);
        if i < j { LessExtends(mode, ascending, pivot, t[i], t[j]); }
      }
      forall x | x in multiset(s[..b]) ensures multiset(s[..b])[x] <= multiset(t[..i])[x] {
        var k :| 0 <= k < b && s[..b][k] == x;
        BreakIsStrict(mode, ascending, s, b, k, b);
        assert x !in t[i..];
        assert t == t[..i] + t[i..] && s == s[..b] + s[b..];
        assert multiset(t)[x] == multiset(t[..i])[x];
      }
      assert multiset(s[..b]) <= multiset(t[..i]);
      MoreIsNotFewer(s[..b], t[..i]);
    }
  }

  lemma MoreIsNotFewer(a: seq<Row>, b: seq<Row>)
    requires multiset(a) <= multiset(b)
    ensures |a| <= |b|
  {
    assert multiset(b) == multiset(a) + (multiset(b) - multiset(a));
    assert |multiset(a)| == |a| && |multiset(b)| == |b|;
  }

  /** So both sorts have the same rows before it. */
  lemma SamePrefix(mode: SortBy, ascending: bool, s: seq<Row>, t: seq<Row>, b: nat)
    requires Sorted(mode, ascending, s) && Sorted(mode, ascending, t) && multiset(s) == multiset(t)
    requires Untied(mode, ascending, s, b)
    ensures multiset(Prefix(t, b)) == multiset(Prefix(s, b))
  {
    hide Less, Sorted, Untied;
    assert |s| == |multiset(s)| == |multiset(t)| == |t|;
    if 0 < b < |s| {
      forall x ensures multiset(t[..b])[x] <= multiset(s[..b])[x] {
        if x in t[..b] {
          var i :| 0 <= i < b && t[..b][i] == x;
          LowRowsFirst(mode, ascending, s, t, b, i);
          assert x !in s[b..] by {
            forall j | b <= j < |s| ensures s[j] != x {
              BreakIsStrict(mode, ascending, s, b, 0, j);
            }
          }
          assert s == s[..b] + s[b..] && t == t[..b] + t[b..];
          assert multiset(s)[x] == multiset(s[..b])[x];
        }
      }
      SubsetOfSameSize(t[..b], s[..b]);
    } else if b == 0 {
      assert Prefix(t, 0) == [] && Prefix(s, 0) == [];
    }
  }

  lemma SubsetOfSameSize(a: seq<Row>, b: seq<Row>)
    requires multiset(a) <= multiset(b) && |a| == |b|
    ensures multiset(a) == multiset(b)
  {
    assert multiset(b) == multiset(a) + (multiset(b) - multiset(a));
    assert |multiset(a)| == |a| && |multiset(b)| == |b|;
    assert |multiset(b) - multiset(a)| == 0;
  }

  /** No page of this size ends between two rows that tie. */
  ghost predicate BreaksUntied(mode: SortBy, ascending: bool, s: seq<Row>, limit: nat) {
    forall m: nat :: BreakUntied(mode, ascending, s, limit, m)
  }

  predicate BreakUntied(mode: SortBy, ascending: bool, s: seq<Row>, limit: nat, m: nat) {
    Untied(mode, ascending, s, m * limit)
  }

  ghost predicate AllSorts(mode: SortBy, ascending: bool, sorts: seq<seq<Row>>, rows: seq<Row>) {
    forall k :: 0 <= k < |sorts| ==> SortOf(mode, ascending, sorts[k], rows)
  }

  /** The rows are the sort's first b rows, in some order that counts as sorted. */
  ghost predicate FirstRows(mode: SortBy, ascending: bool, s: seq<Row>, pages: seq<Row>, b: nat) {
    multiset(pages) == multiset(Prefix(s, b)) && Sorted(mode, ascending, pages)
  }

  /** Then the first n pages together are a sort's first rows, whoever sorted for each page. */
  lemma {:induction false} PagesAreAPrefix(mode: SortBy, ascending: bool, rows: seq<Row>, s: seq<Row>,
                                           sorts: seq<seq<Row>>, limit: nat, n: nat)
    requires SortOf(mode, ascending, s, rows) && AllSorts(mode, ascending, sorts, rows) && n <= |sorts|
    requires BreaksUntied(mode, ascending, s, limit)
    ensures FirstRows(mode, ascending, s, Pages(sorts, limit, n), n * limit)
  {
    hide FirstRows, Page, Prefix, Untied, BreaksUntied, AllSorts, Pages, Sorted;
    if n == 0 {
      NoPages(mode, ascending, s, sorts, limit);
    } else {
      var b, t := (n - 1) * limit, sorts[n - 1];
      PagesAreAPrefix(mode, ascending, rows, s, sorts, limit, n - 1);
      OneMorePage(sorts, limit, n);
      assert SortOf(mode, ascending, t, rows) by { SortAt(mode, ascending, sorts, rows, n - 1); }
      BreakAt(mode, ascending, s, limit, n - 1);
      BreakAt(mode, ascending, s, limit, n);
      NextPage(mode, ascending, s, t, Pages(sorts, limit, n - 1), limit, b);
    }
  }

  lemma NoPages(mode: SortBy, ascending: bool, s: seq<Row>, sorts: seq<seq<Row>>, limit: nat)
    ensures FirstRows(mode, ascending, s, Pages(sorts, limit, 0), 0 * limit)
  {
    assert Prefix(s, 0) == [] == Pages(sorts, limit, 0);
  }

  lemma OneMorePage(sorts: seq<seq<Row>>, limit: nat, n: nat)
    requires 0 < n <= |sorts|
    ensures Pages(sorts, limit, n) == Pages(sorts, limit, n - 1) + Page(sorts[n - 1], limit, (n - 1) * limit)
    ensures n * limit == (n - 1) * limit + limit
  {
    hide Page;
  }

  lemma SortAt(mode: SortBy, ascending: bool, sorts: seq<seq<Row>>, rows: seq<Row>, k: nat)
    requires AllSorts(mode, ascending, sorts, rows) && k < |sorts|
    ensures SortOf(mode, ascending, sorts[k], rows)
  {
    hide SortOf;
  }

  lemma NextPage(mode: SortBy, ascending: bool, s: seq<Row>, t: seq<Row>, sofar: seq<Row>, limit: nat, b: nat)
    requires Sorted(mode, ascending, s) && Sorted(mode, ascending, t) && multiset(s) == multiset(t)
    requires Untied(mode, ascending, s, b) && Untied(mode, ascending, s, b + limit)
    requires FirstRows(mode, ascending, s, sofar, b)
    ensures FirstRows(mode, ascending, s, sofar + Page(t, limit, b), b + limit)
  {
    hide Page, Prefix, Sorted, Untied;
    SamePrefix(mode, ascending, s, t, b);
    SamePrefix(mode, ascending, s, t, b + limit);
    PageExtends(t, limit, b);
    assert multiset(sofar + Page(t, limit, b)) == multiset(Prefix(t, b)) + multiset(Page(t, limit, b));
    PagesStaySorted(mode, ascending, s, t, sofar, limit, b);
  }

  lemma BreakAt(mode: SortBy, ascending: bool, s: seq<Row>, limit: nat, m: nat)
    requires BreaksUntied(mode, ascending, s, limit)
    ensures Untied(mode, ascending, s, m * limit)
  {
    hide Untied;
    assert BreakUntied(mode, ascending, s, limit, m);
  }

  lemma PagesStaySorted(mode: SortBy, ascending: bool, s: seq<Row>, t: seq<Row>, sofar: seq<Row>, limit: nat, b: nat)
    requires Sorted(mode, ascending, s) && Sorted(mode, ascending, t) && multiset(s) == multiset(t)
    requires Untied(mode, ascending, s, b) && Sorted(mode, ascending, sofar) && multiset(sofar) == multiset(Prefix(s, b))
    ensures Sorted(mode, ascending, sofar + Page(t, limit, b))
  {
    hide Less, Untied, Sorted, Page, Prefix;
    assert |s| == |multiset(s)| == |multiset(t)| == |t|;
    var page := Page(t, limit, b);
    PageIsSorted(mode, ascending, t, limit, b);
    if b == 0 {
      EmptySofar(sofar, s);
    } else {
      forall i, j | 0 <= i < |sofar| && 0 <= j < |page| ensures !Less(mode, ascending, page[j], sofar[i]) {
        PageRow(t, limit, b, j);
        FirstIsLow(mode, ascending, s, sofar, b, i);
        RestIsHigh(mode, ascending, s, t, b, b + j);
        StrictWeakOrder(mode, ascending, s[b - 1], t[b + j], sofar[i]);
      }
    }
    SortedAppend(mode, ascending, sofar, page);
  }

  lemma PageRow(t: seq<Row>, limit: nat, b: nat, j: nat)
    requires j < |Page(t, limit, b)|
    ensures b + j < |t| && Page(t, limit, b)[j] == t[b + j]
  {
  }

  lemma PageIsSorted(mode: SortBy, ascending: bool, t: seq<Row>, limit: nat, b: nat)
    requires Sorted(mode, ascending, t)
    ensures Sorted(mode, ascending, Page(t, limit, b))
  {
    hide Less, Page;
    var page := Page(t, limit, b);
    forall i, j | 0 <= i < j < |page| ensures !Less(mode, ascending, page[j], page[i]) {
      PageRow(t, limit, b, i);
      PageRow(t, limit, b, j);
    }
  }

  lemma SortedAppend(mode: SortBy, ascending: bool, a: seq<Row>, b: seq<Row>)
    requires Sorted(mode, ascending, a) && Sorted(mode, ascending, b)
    requires forall i, j :: 0 <= i < |a| && 0 <= j < |b| ==> !Less(mode, ascending, b[j], a[i])
    ensures Sorted(mode, ascending, a + b)
  {
    hide Less;
    var c := a + b;
    forall i, j | 0 <= i < j < |c| ensures !Less(mode, ascending, c[j], c[i]) {
      if j < |a| {
        assert c[i] == a[i] && c[j] == a[j];
      } else if i < |a| {
        assert c[i] == a[i] && c[j] == b[j - |a|];
      } else {
        assert c[i] == b[i - |a|] && c[j] == b[j - |a|];
      }
    }
  }

  lemma EmptySofar(sofar: seq<Row>, s: seq<Row>)
    requires multiset(sofar) == multiset(Prefix(s, 0))
    ensures sofar == []
  {
    assert Prefix(s, 0) == [];
    assert |sofar| == |multiset(sofar)| == 0;
  }

  lemma FirstIsLow(mode: SortBy, ascending: bool, s: seq<Row>, sofar: seq<Row>, b: nat, i: nat)
    requires Sorted(mode, ascending, s) && 0 < b < |s| && Untied(mode, ascending, s, b)
    requires multiset(sofar) == multiset(Prefix(s, b)) && i < |sofar|
    ensures !Less(mode, ascending, s[b - 1], sofar[i])
  {
    hide Less, Sorted, Untied;
    assert sofar[i] in multiset(sofar);
    assert sofar[i] in s[..b];
    var k :| 0 <= k < b && s[..b][k] == sofar[i];
    BreakIsStrict(mode, ascending, s, b, k, b);
  }

  lemma SameRest(mode: SortBy, ascending: bool, s: seq<Row>, t: seq<Row>, b: nat)
    requires Sorted(mode, ascending, s) && Sorted(mode, ascending, t) && multiset(s) == multiset(t)
    requires Untied(mode, ascending, s, b) && b <= |s| == |t|
    ensures multiset(t[b..]) == multiset(s[b..])
  {
    hide Sorted, Untied;
    SamePrefix(mode, ascending, s, t, b);
    assert s == Prefix(s, b) + s[b..] && t == Prefix(t, b) + t[b..];
    assert multiset(t[b..]) == multiset(t) - multiset(Prefix(t, b)) == multiset(s[b..]);
  }

  /** In any sort, what stands behind the break is greater than the last row before it. */
  lemma RestIsHigh(mode: SortBy, ascending: bool, s: seq<Row>, t: seq<Row>, b: nat, j: nat)
    requires Sorted(mode, ascending, s) && Sorted(mode, ascending, t) && multiset(s) == multiset(t)
    requires 0 < b < |s| && Untied(mode, ascending, s, b) && b <= j < |t|
    ensures Less(mode, ascending, s[b - 1], t[j])
  {
    hide Less, Sorted, Untied;
    assert |s| == |multiset(s)| == |multiset(t)| == |t|;
    SameRest(mode, ascending, s, t, b);
    assert t[j] == t[b..][j - b] && t[j] in multiset(t[b..]);
    var k :| 0 <= k < |s| - b && s[b..][k] == t[j];
    BreakIsStrict(mode, ascending, s, b, 0, b + k);
  }

  /** Enough pages, each from a request that sorted for itself, show every row exactly once and in order,
      when no page of that size ends between rows that tie. */
  lemma PagesShowEachRowOnce(mode: SortBy, ascending: bool, rows: seq<Row>, s: seq<Row>, sorts: seq<seq<Row>>, limit: nat)
    requires SortOf(mode, ascending, s, rows) && AllSorts(mode, ascending, sorts, rows)
    requires |sorts| * limit >= |rows| && BreaksUntied(mode, ascending, s, limit)
    ensures var shown := Pages(sorts, limit, |sorts|);
            multiset(shown) == multiset(rows) && Ordered(mode, ascending, shown)
  {
    hide Less, BreaksUntied, Sorted, Ordered;
    SortedMeaning(mode, ascending, Pages(sorts, limit, |sorts|));
    assert |s| == |multiset(s)| == |multiset(rows)| == |rows|;
    PagesAreAPrefix(mode, ascending, rows, s, sorts, limit, |sorts|);
  }

  /** By issue, distinct rows with distinct ids tie nowhere, so every page size will do. */
  lemma IssueOrderHasNoTies(ascending: bool, rows: seq<Row>, s: seq<Row>, limit: nat)
    requires forall a, b :: a in rows && b in rows && a.id == b.id ==> a == b
    requires Distinct(rows) && SortOf(ByIssue, ascending, s, rows)
    ensures BreaksUntied(ByIssue, ascending, s, limit)
  {
    hide Sorted;
    forall m: nat ensures BreakUntied(ByIssue, ascending, s, limit, m) {
      var b := m * limit;
      if 0 < b < |s| {
        TiesAre(ByIssue, ascending, s[b - 1], s[b]);
        assert s[b - 1] in multiset(s) && s[b] in multiset(s);
        NeighboursDiffer(rows, s, b);
      }
    }
  }

  lemma NeighboursDiffer(rows: seq<Row>, s: seq<Row>, b: nat)
    requires Distinct(rows) && multiset(s) == multiset(rows) && 0 < b < |s|
    ensures s[b - 1] != s[b]
  {
    var x := s[b];
    assert s == s[..b - 1] + [s[b - 1]] + [x] + s[b + 1..];
    assert multiset(s) == multiset(s[..b - 1]) + multiset([s[b - 1]]) + multiset([x]) + multiset(s[b + 1..]);
    OneEach(rows, x);
  }

  /* ----- and otherwise not ----- */

  function Swapped(s: seq<Row>, k: nat): seq<Row>
    requires k + 1 < |s|
  {
    s[k := s[k + 1]][k + 1 := s[k]]
  }

  lemma SwappedIsSorted(mode: SortBy, ascending: bool, s: seq<Row>, k: nat)
    requires k + 1 < |s| && Sorted(mode, ascending, s) && Tied(mode, ascending, s[k], s[k + 1])
    ensures Sorted(mode, ascending, Swapped(s, k)) && multiset(Swapped(s, k)) == multiset(s)
  {
    hide Less;
    var t := Swapped(s, k);
    forall i, j | 0 <= i < j < |t| ensures !Less(mode, ascending, t[j], t[i]) {
      var p := if i == k then k + 1 else if i == k + 1 then k else i;
      var q := if j == k then k + 1 else if j == k + 1 then k else j;
      assert t[i] == s[p] && t[j] == s[q];
    }
  }

  /** Rows of the database are distinct. */
  ghost predicate Distinct(rows: seq<Row>) {
    forall x :: multiset(rows)[x] <= 1
  }

  lemma OneEach(rows: seq<Row>, x: Row)
    requires Distinct(rows)
    ensures multiset(rows)[x] <= 1
  {
  }

  lemma InBoth(a: seq<Row>, b: seq<Row>, x: Row)
    requires x in a && x in b
    ensures multiset(a + b)[x] >= 2
  {
  }

  /** However the requests sort, no row shows twice on consecutive pages of this size. */
  ghost predicate NoRowTwice(mode: SortBy, ascending: bool, rows: seq<Row>, limit: nat) {
    forall sorts, n: nat :: n <= |sorts| && AllSorts(mode, ascending, sorts, rows) ==>
      multiset(Pages(sorts, limit, n)) <= multiset(rows)
  }

  /** The last of several requests sorts the other way. */
  lemma TieShowsARowTwice(mode: SortBy, ascending: bool, rows: seq<Row>, s: seq<Row>, limit: nat, m: nat)
    requires Distinct(rows) && SortOf(mode, ascending, s, rows) && limit > 0
    requires 0 < m * limit < |s| && Tied(mode, ascending, s[m * limit - 1], s[m * limit])
    ensures !NoRowTwice(mode, ascending, rows, limit)
  {
    hide Less, Tied, Sorted, Page, Swapped, Distinct;
    var b := m * limit;
    var t, x := Swapped(s, b - 1), s[b - 1];
    SwappedIsSorted(mode, ascending, s, b - 1);
    var sorts := seq(m, k requires 0 <= k < m => s) + [t];
    assert AllSorts(mode, ascending, sorts, rows);
    PagesOfOneSort(s, sorts, limit, m);
    assert Pages(sorts, limit, m + 1) == Pages(sorts, limit, m) + Page(t, limit, b);
    SwappedRow(s, t, limit, b);
    InBoth(Prefix(s, b), Page(t, limit, b), x);
    OneEach(rows, x);
    assert multiset(Pages(sorts, limit, m + 1))[x] > multiset(rows)[x];
  }

  lemma SwappedRow(s: seq<Row>, t: seq<Row>, limit: nat, b: nat)
    requires 0 < b < |s| && limit > 0 && t == Swapped(s, b - 1)
    ensures s[b - 1] in Prefix(s, b) && s[b - 1] in Page(t, limit, b)
  {
    assert Prefix(s, b)[b - 1] == s[b - 1];
    assert Page(t, limit, b)[0] == t[b] == s[b - 1];
  }

  /** For distinct rows and a given page size, no row can show on two pages if and only if no page ends
      between two rows that tie. */
  lemma PagesAreDisjointExactlyWhen(mode: SortBy, ascending: bool, rows: seq<Row>, s: seq<Row>, limit: nat)
    requires Distinct(rows) && SortOf(mode, ascending, s, rows) && limit > 0
    ensures NoRowTwice(mode, ascending, rows, limit) <==> BreaksUntied(mode, ascending, s, limit)
  {
    hide Tied, Sorted, Distinct, Pages;
    if BreaksUntied(mode, ascending, s, limit) {
      forall sorts, n: nat | n <= |sorts| && AllSorts(mode, ascending, sorts, rows)
        ensures multiset(Pages(sorts, limit, n)) <= multiset(rows)
      {
        PagesAreAPrefix(mode, ascending, rows, s, sorts, limit, n);
        PrefixIsPart(s, n * limit);
      }
    } else {
      var m: nat :| !BreakUntied(mode, ascending, s, limit, m);
      TieShowsARowTwice(mode, ascending, rows, s, limit, m);
    }
  }

  lemma PrefixIsPart(rows: seq<Row>, n: nat)
    ensures multiset(Prefix(rows, n)) <= multiset(rows)
  {
    if n < |rows| {
      assert rows == rows[..n] + rows[n..];
    }
  }
}
