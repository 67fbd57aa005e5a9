/** The two readings of a maintainer file: the whole-body extraction and the
    per-line index behind the web page, which must name the same handles. */
module RefParse {
  import opened Options
  import opened Text
  import opened RefScan
  import opened RefTables
  import opened RefMeaning

  ghost predicate InSomeItem(lines: seq<string>, h: string) {
    exists k :: 0 <= k < |lines| && h in ItemHandles(lines[k])
  }

  /** What the whole-body extraction finds. */
  ghost predicate InBody(body: string, h: string) {
    TableHandle(Split(body, '\n'), h) || h in FreeHandles(body) || InSomeItem(Split(body, '\n'), h)
  }

  predicate InLine(line: string, h: string) { h in FreeHandles(line) || h in ItemHandles(line) }

  ghost predicate InSomeLine(lines: seq<string>, h: string) {
    exists k :: 0 <= k < |lines| && InLine(lines[k], h)
  }

  /** Whole-body scan equals per-line scan, for every text: a handle is found in the body iff some table
      yields it or some line contains it. */
  lemma BodyEqualsLines(body: string, h: string)
    ensures InBody(body, h) <==> TableHandle(Split(body, '\n'), h) || InSomeLine(Split(body, '\n'), h)
  {
    hide FreeHandles, ItemHandles, TableHandle, Split;
    var lines := Split(body, '\n');
    WholeEqualsLines(body);
    if h in FreeHandles(body) {
      assert h in FreeInLines(lines);
      var k :| 0 <= k < |lines| && h in FreeHandles(lines[k]);
      assert InLine(lines[k], h);
    }
    if InSomeItem(lines, h) {
      var k :| 0 <= k < |lines| && h in ItemHandles(lines[k]);
      assert InLine(lines[k], h);
    }
    if InSomeLine(lines, h) {
      var k :| 0 <= k < |lines| && InLine(lines[k], h);
      assert h in FreeHandles(lines[k]) ==> h in FreeInLines(lines);
    }
  }

  lemma InBodyMeaning(body: string, h: string)
    ensures InBody(body, h) <==> FileSays(body, h)
  {
    hide FreeHandles, ItemHandles, TableHandle, Split, TablesSay, AtNames, UrlNames, ItemSays, KeySays;
    var lines := Split(body, '\n');
    TablesMeaning(lines, h);
    FreeMeaning(body, h);
    forall k | 0 <= k < |lines| ensures h in ItemHandles(lines[k]) <==> (ItemSays(lines[k], h) || KeySays(lines[k], h)) && h !in RESERVED {
      ItemsMeaning(lines[k], h);
    }
  }

  lemma InLineMeaning(line: string, h: string)
    ensures InLine(line, h) <==> LineSays(line, h)
  {
    hide FreeHandles, ItemHandles, AtNames, UrlNames, ItemSays, KeySays;
    FreeMeaning(line, h);
    ItemsMeaning(line, h);
  }

  /* ----- ExtractGitHubHandles ----- */

  method AddAll(handles: seq<string>, found: set<string>) returns (result: set<string>)
    ensures forall h :: h in result <==> h in found || h in handles
  {
    result := found;
    var i := 0;
    while i < |handles|
      invariant 0 <= i <= |handles|
      invariant forall h :: h in result <==> h in found || h in handles[..i]
    {
      assert handles[..i + 1] == handles[..i] + [handles[i]];
      result := result + {handles[i]};
      i := i + 1;
    }
    assert handles[..i] == handles;
  }

  method ExtractGitHubHandles(body: string) returns (result: set<string>)
    ensures forall h :: h in result <==> FileSays(body, h)
  {
    hide TableHandle, AtHandles, UrlHandles, ItemHandles, ListItem, KeyValue, FileSays;
    forall h ensures InBody(body, h) <==> FileSays(body, h) {
      InBodyMeaning(body, h);
    }
    if body == "" {
      EmptyBody();
      return {};
    }
    var lines := Split(body, '\n');
    hide Split;
    var tables := ParseTables(lines);
    result := tables;
    result := AddAll(AtHandles(body, 0), result);
    result := AddAll(UrlHandles(body, 0), result);
    var i := 0;
    while i < |lines|
      invariant 0 <= i <= |lines|
      invariant forall h :: h in result <==> h in tables || h in FreeHandles(body) || InSomeItem(lines[..i], h)
    {
      forall h { ItemStep(lines, i, h); }
      var item := ListItem(lines[i]);
      var key := KeyValue(lines[i]);
      LineItems(lines[i]);
      if item.Some? && !IsReserved(item.value) {
        result := result + {item.value};
      }
      if key.Some? && !IsReserved(key.value) {
        result := result + {key.value};
      }
      i := i + 1;
    }
    assert lines[..i] == lines;
  }

  lemma LineItems(line: string)
    ensures forall h :: h in ItemHandles(line) <==>
      (ListItem(line) == Some(h) || KeyValue(line) == Some(h)) && !IsReserved(h)
  {
    hide ListItem, KeyValue, IsReserved;
  }

  lemma ItemStep(lines: seq<string>, i: nat, h: string)
    requires i < |lines|
    ensures InSomeItem(lines[..i + 1], h) <==> InSomeItem(lines[..i], h) || h in ItemHandles(lines[i])
  {
    hide ItemHandles;
    if InSomeItem(lines[..i], h) {
      var k :| 0 <= k < i && h in ItemHandles(lines[..i][k]);
      assert lines[..i + 1][k] == lines[k];
    }
    if h in ItemHandles(lines[i]) {
      assert lines[..i + 1][i] == lines[i];
    }
    if InSomeItem(lines[..i + 1], h) {
      var k :| 0 <= k < i + 1 && h in ItemHandles(lines[..i + 1][k]);
      assert k < i ==> lines[..i][k] == lines[k];
    }
  }

  lemma EmptyBody()
    ensures forall h :: !InBody("", h)
  {
    assert Split("", '\n') == [""];
    assert SkipBlanks("", 0) == 0;
    forall h ensures !TableHandle([""], h) {
      NoTable([""], h);
    }
    hide TableHandle;
  }

  lemma NoTable(lines: seq<string>, h: string)
    requires |lines| < 2
    ensures !TableHandle(lines, h)
  {
    hide GitHubColumn, ParseRow, CellHandle, IsSeparatorRow;
  }

  /* ----- buildMaintainerRefLines ----- */

  /** The first line that contains the handle. */
  ghost predicate FirstLine(lines: seq<string>, h: string, k: nat) {
    k < |lines| && InLine(lines[k], h) && forall j :: 0 <= j < k ==> !InLine(lines[j], h)
  }

  /** Where a handle of the page comes from: the first table row that yields it, or else the first line
      that contains it; shown trimmed. */
  ghost predicate Sourced(lines: seq<string>, h: string, text: string) {
    if TableHandle(lines, h) then FromFirstRow(lines, h, text)
    else exists k: nat :: FirstLine(lines, h, k) && text == Trim(lines[k])
  }

  /** First come, first served: handles already recorded keep their line. */
  method Record(handles: seq<string>, text: string, found: map<string, string>) returns (result: map<string, string>)
    ensures forall h :: h in result <==> h in found || h in handles
    ensures forall h :: h in result ==> result[h] == if h in found then found[h] else text
  {
    result := found;
    var i := 0;
    while i < |handles|
      invariant 0 <= i <= |handles|
      invariant forall h :: h in result <==> h in found || h in handles[..i]
      invariant forall h :: h in result ==> result[h] == if h in found then found[h] else text
    {
      assert handles[..i + 1] == handles[..i] + [handles[i]];
      if handles[i] !in result {
        result := result[handles[i] := text];
      }
      i := i + 1;
    }
    assert handles[..i] == handles;
  }

  /** The four patterns on one line. */
  method RecordLine(line: string, found: map<string, string>) returns (result: map<string, string>)
    ensures forall h :: h in result <==> h in found || InLine(line, h)
    ensures forall h :: h in result ==> result[h] == if h in found then found[h] else Trim(line)
  {
    hide AtHandles, UrlHandles, ListItem, KeyValue, ItemHandles, Trim;
    LineItems(line);
    var text := Trim(line);
    result := Record(AtHandles(line, 0), text, found);
    result := Record(UrlHandles(line, 0), text, result);
    var item := ListItem(line);
    if item.Some? && !IsReserved(item.value) && item.value !in result {
      result := result[item.value := text];
    }
    var key := KeyValue(line);
    if key.Some? && !IsReserved(key.value) && key.value !in result {
      result := result[key.value := text];
    }
  }

  /** Row r of some table is the first to yield the handle. */
  ghost predicate FirstToSay(lines: seq<string>, r: nat, h: string) {
    r < |lines| && RowSays(lines, r, h) && forall k: nat :: k < r ==> !RowSays(lines, k, h)
  }

  ghost predicate FirstToName(lines: seq<string>, k: nat, h: string) {
    k < |lines| && LineSays(lines[k], h) && forall j :: 0 <= j < k ==> !LineSays(lines[j], h)
  }

  /** The line shown for a handle: the first table row that yields it, or else the first line that names it. */
  ghost predicate ShownFor(lines: seq<string>, h: string, text: string) {
    if TablesSay(lines, h) then exists r: nat :: FirstToSay(lines, r, h) && text == Trim(lines[r])
    else exists k: nat :: FirstToName(lines, k, h) && text == Trim(lines[k])
  }

  lemma SourcedMeaning(lines: seq<string>, h: string, text: string)
    requires Sourced(lines, h, text)
    ensures ShownFor(lines, h, text)
  {
    hide TableHandle, InLine, RowYields, RowSays, LineSays, TablesSay, Trim;
    TablesMeaning(lines, h);
    if TableHandle(lines, h) {
      forall k: nat ensures RowYields(lines, k, h) <==> RowSays(lines, k, h) {
        RowYieldsMeaning(lines, k, h);
      }
      var r: nat :| FirstRow(lines, h, r) && text == Trim(lines[r]);
      assert FirstToSay(lines, r, h);
    } else {
      forall k | 0 <= k < |lines| ensures InLine(lines[k], h) <==> LineSays(lines[k], h) {
        InLineMeaning(lines[k], h);
      }
      var k: nat :| FirstLine(lines, h, k) && text == Trim(lines[k]);
      assert FirstToName(lines, k, h);
    }
  }

  method BuildMaintainerRefLines(body: string) returns (result: map<string, string>)
    ensures forall h :: h in result <==> FileSays(body, h)
    ensures forall h :: h in result ==> ShownFor(Split(body, '\n'), h, result[h])
  {
    hide TableHandle, InLine, FromFirstRow, Split, Trim, FileSays, ShownFor;
    var lines := Split(body, '\n');
    var tables := TableLines(lines);
    result := tables;
    var i := 0;
    while i < |lines|
      invariant 0 <= i <= |lines|
      invariant forall h :: h in result <==> h in tables || InSomeLine(lines[..i], h)
      invariant forall h :: h in tables ==> h in result && result[h] == tables[h]
      invariant forall h :: h in result && h !in tables ==> Sourced(lines, h, result[h])
    {
      forall h { LineStep(lines, i, h); }
      var before := result;
      result := RecordLine(lines[i], before);
      forall h | h in result && h !in tables ensures Sourced(lines, h, result[h]) {
        if h !in before {
          NewLine(lines, i, h);
        }
      }
      i := i + 1;
    }
    assert lines[..i] == lines;
    forall h ensures h in result <==> FileSays(body, h) {
      BodyEqualsLines(body, h);
      InBodyMeaning(body, h);
    }
    forall h | h in result ensures ShownFor(lines, h, result[h]) {
      SourcedMeaning(lines, h, result[h]);
    }
  }

  lemma NewLine(lines: seq<string>, i: nat, h: string)
    requires i < |lines| && InLine(lines[i], h) && !InSomeLine(lines[..i], h) && !TableHandle(lines, h)
    ensures Sourced(lines, h, Trim(lines[i]))
  {
    hide InLine, TableHandle, Trim;
    forall j | 0 <= j < i ensures !InLine(lines[j], h) {
      assert lines[..i][j] == lines[j];
    }
    assert FirstLine(lines, h, i);
  }

  lemma LineStep(lines: seq<string>, i: nat, h: string)
    requires i < |lines|
    ensures InSomeLine(lines[..i + 1], h) <==> InSomeLine(lines[..i], h) || InLine(lines[i], h)
  {
    hide InLine;
    if InSomeLine(lines[..i], h) {
      var k :| 0 <= k < i && InLine(lines[..i][k], h);
      assert lines[..i + 1][k] == lines[k];
    }
    if InLine(lines[i], h) {
      assert lines[..i + 1][i] == lines[i];
    }
    if InSomeLine(lines[..i + 1], h) {
      var k :| 0 <= k < i + 1 && InLine(lines[..i + 1][k], h);
      assert k < i ==> lines[..i][k] == lines[k];
    }
  }

  /* ----- buildMaintainerRefOnly ----- */

  /** The account names that count as registered, folded. */
  ghost predicate Registered(accounts: seq<string>, h: string) {
    exists k :: 0 <= k < |accounts| && AccountName(accounts[k]) == Some(h)
  }

  method SortStrings(keys: set<string>) returns (out: seq<string>)
    ensures Ascending(out) && forall h :: h in out <==> h in keys
  {
    hide Ascending;
    out := [];
    assert Ascending(out) by { NoneAscending(); }
    var left := keys;
    while left != {}
      invariant left <= keys && Ascending(out)
      invariant forall h :: h in out <==> h in keys - left
      decreases |left|
    {
      var h :| h in left;
      out := Insert(out, h);
      left := left - {h};
    }
  }

  lemma NoneAscending()
    ensures Ascending([])
  {
  }

  /** The folded name of an account, if it is one. */
  function AccountName(account: string): Option<string> {
    if Trim(account) != "" && Trim(account) != "GITHUB_MISSING" then Some(Lower(Trim(account))) else None
  }

  /** An account registers the name it holds between spaces, unless that is the placeholder. */
  predicate Holds(account: string, a: string, name: string, b: string, h: string) {
    && account == a + name + b && Spaces(a) && Spaces(b) && Tight(name)
    && name != "" && name != "GITHUB_MISSING" && Lower(name) == h
  }

  lemma AccountMeaning(account: string, h: string)
    ensures AccountName(account) == Some(h) <==> exists a, name, b :: Holds(account, a, name, b, h)
  {
    hide Trim, Lower, Tight, Spaces;
    var a, b := TrimSplits(account);
    assert AccountName(account) == Some(h) ==> Holds(account, a, Trim(account), b, h);
    forall a, name, b | Holds(account, a, name, b, h) ensures Trim(account) == name {
      TrimOf(a, name, b);
    }
  }

  method RegisteredHandles(accounts: seq<string>) returns (registered: set<string>)
    ensures forall h :: h in registered <==> Registered(accounts, h)
  {
    hide Trim, Lower;
    registered := {};
    var i := 0;
    NobodyRegistered(accounts);
    hide Registered;
    while i < |accounts|
      invariant 0 <= i <= |accounts|
      invariant forall h :: h in registered <==> Registered(accounts[..i], h)
    {
      var name := Trim(accounts[i]);
      var before := registered;
      if name != "" && name != "GITHUB_MISSING" {
        registered := registered + {Lower(name)};
      }
      AccountAdded(accounts, i, before, registered);
      i := i + 1;
    }
    assert accounts[..i] == accounts;
  }

  lemma NobodyRegistered(accounts: seq<string>)
    ensures forall h :: !Registered(accounts[..0], h)
  {
  }

  lemma AccountAdded(accounts: seq<string>, i: nat, before: set<string>, after: set<string>)
    requires i < |accounts| && forall h :: h in before <==> Registered(accounts[..i], h)
    requires var name := AccountName(accounts[i]); after == if name.Some? then before + {name.value} else before
    ensures forall h :: h in after <==> Registered(accounts[..i + 1], h)
  {
    hide Trim, Lower, Registered, AccountName;
    forall h ensures h in after <==> Registered(accounts[..i + 1], h) {
      AccountStep(accounts, i, h);
    }
  }

  method BuildMaintainerRefOnly(body: string, accounts: seq<string>) returns (out: seq<string>)
    ensures Ascending(out)
    ensures forall h :: h in out <==> FileSays(body, h) && !Registered(accounts, h)
  {
    hide Registered, FileSays, Ascending;
    var handles := ExtractGitHubHandles(body);
    var registered := RegisteredHandles(accounts);
    out := SortStrings(handles - registered);
  }

  lemma AccountStep(accounts: seq<string>, i: nat, h: string)
    requires i < |accounts|
    ensures Registered(accounts[..i + 1], h) <==> Registered(accounts[..i], h) || AccountName(accounts[i]) == Some(h)
  {
    hide AccountName;
    if k :| 0 <= k < i && AccountName(accounts[..i][k]) == Some(h) {
      assert accounts[..i + 1][k] == accounts[k];
    }
    if AccountName(accounts[i]) == Some(h) {
      assert accounts[..i + 1][i] == accounts[i];
    }
    var more := accounts[..i + 1];
    if k :| 0 <= k < i + 1 && AccountName(more[k]) == Some(h) {
      assert k < i ==> accounts[..i][k] == accounts[k];
    }
  }

  /** The page shows, for every handle it lists as unregistered, the line it came from. */
  method RefReport(body: string, accounts: seq<string>) returns (only: seq<string>, source: map<string, string>)
    ensures forall h :: h in only ==> !Registered(accounts, h) && h in source && ShownFor(Split(body, '\n'), h, source[h])
  {
    hide Registered, FileSays, ShownFor, Split;
    only := BuildMaintainerRefOnly(body, accounts);
    source := BuildMaintainerRefLines(body);
  }
}
