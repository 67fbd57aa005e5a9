/** The four patterns of the maintainer-file parser, each as a scanner over ASCII
    text, and the proof that scanning a whole body finds what scanning its lines finds. */
module RefScan {
  import opened Options
  import opened Text

  predicate IsAlnum(c: char) { 'a' <= LowerChar(c) <= 'z' || '0' <= c <= '9' }

  predicate IsHandleChar(c: char) { IsAlnum(c) || c == '-' }

  /** What may not stand right before an @, and what a word boundary separates from the rest. */
  predicate IsPrefixWord(c: char) { IsHandleChar(c) || c == '_' }

  predicate IsWord(c: char) { IsAlnum(c) || c == '_' }

  /** The length of the longest run of handle characters at q, up to a limit. */
  function Run(s: string, q: nat, limit: nat): (n: nat)
    ensures n <= limit && (q <= |s| ==> q + n <= |s|)
    ensures forall k :: q <= k < q + n ==> k < |s| && IsHandleChar(s[k])
    ensures n < limit && q + n < |s| ==> !IsHandleChar(s[q + n])
    decreases limit
  {
    if limit == 0 || q >= |s| || !IsHandleChar(s[q]) then 0 else 1 + Run(s, q + 1, limit - 1)
  }

  datatype Span = Span(start: nat, end: nat)

  const MAX_HANDLE: nat := 39

  /* ----- @handle ----- */

  predicate AtHere(s: string, q: nat) { q < |s| && s[q] == '@' && Run(s, q + 1, MAX_HANDLE) > 0 }

  /** A match of `(^|[^a-z0-9_-])@([a-z0-9-]{1,39})` starting at p: the span of the handle. */
  function AtMatch(s: string, p: nat): (m: Option<Span>)
    ensures m.Some? ==> p < m.value.start < m.value.end <= |s|
  {
    if p == 0 && AtHere(s, 0) then Some(Span(1, 1 + Run(s, 1, MAX_HANDLE)))
    else if p < |s| && !IsPrefixWord(s[p]) && AtHere(s, p + 1) then Some(Span(p + 2, p + 2 + Run(s, p + 2, MAX_HANDLE)))
    else None
  }

  /** The handles of all matches from p on, left to right and without overlap. */
  function AtHandles(s: string, p: nat): seq<string>
    decreases |s| - p
  {
    if p >= |s| then []
    else
      var m := AtMatch(s, p);
      if m.None? then AtHandles(s, p + 1)
      else [Lower(s[m.value.start..m.value.end])] + AtHandles(s, m.value.end)
  }

  /* ----- github.com/handle ----- */

  const HOST := "github.com/"

  /** A match of `github\.com/([a-z0-9-]{1,39})` starting at p. */
  function UrlMatch(s: string, p: nat): (m: Option<Span>)
    ensures m.Some? ==> p < m.value.start < m.value.end <= |s|
  {
    if p + |HOST| <= |s| && Lower(s[p..p + |HOST|]) == HOST && Run(s, p + |HOST|, MAX_HANDLE) > 0
    then Some(Span(p + |HOST|, p + |HOST| + Run(s, p + |HOST|, MAX_HANDLE)))
    else None
  }

  predicate IsReserved(handle: string) { handle == "organizations" || handle == "orgs" || handle == "repos" }

  /** A matched address counts unless its name is reserved or a path segment follows. */
  predicate UrlCounts(s: string, m: Span)
    requires m.start <= m.end <= |s|
  {
    !IsReserved(Lower(s[m.start..m.end])) && !(m.end < |s| && s[m.end] == '/')
  }

  function UrlHandles(s: string, p: nat): seq<string>
    decreases |s| - p
  {
    if p >= |s| then []
    else
      var m := UrlMatch(s, p);
      if m.None? then UrlHandles(s, p + 1)
      else
        (if UrlCounts(s, m.value) then [Lower(s[m.value.start..m.value.end])] else [])
        + UrlHandles(s, m.value.end)
  }

  /* ----- "- handle" and "github: handle" on one line ----- */

  /** The class `\s` of the pattern language, which lacks the vertical tab. */
  predicate IsBlank(c: char) { IsSpace(c) && c as int != 11 }

  function SkipBlanks(s: string, p: nat): (q: nat)
    ensures p <= q && (p <= |s| ==> q <= |s|)
    decreases |s| - p
  {
    if p < |s| && IsBlank(s[p]) then SkipBlanks(s, p + 1) else p
  }

  predicate Boundary(s: string, e: nat)
    requires 0 < e <= |s|
  {
    IsWord(s[e - 1]) != (e < |s| && IsWord(s[e]))
  }

  /** The longest capture at q of at most n characters that ends on a word boundary; 0 if none. */
  function Bounded(s: string, q: nat, n: nat): (r: nat)
    requires q + n <= |s|
    ensures r <= n && (r > 0 ==> Boundary(s, q + r))
    ensures forall e :: q + r < e <= q + n ==> !Boundary(s, e)
  {
    if n == 0 then 0
    else if Boundary(s, q + n) then n
    else Bounded(s, q, n - 1)
  }

  /** Where the capture `([a-z0-9][a-z0-9-]{0,38})\b` stands after optional blanks at p. */
  function NameSpan(s: string, p: nat): (m: Option<Span>)
    requires p <= |s|
    ensures m.Some? ==> p <= m.value.start < m.value.end <= |s|
  {
    var q := SkipBlanks(s, p);
    if q < |s| && IsAlnum(s[q]) then
      var n := Bounded(s, q, Run(s, q, MAX_HANDLE));
      if n > 0 then Some(Span(q, q + n)) else None
    else None
  }

  function ListSpan(line: string): (m: Option<Span>)
    ensures m.Some? ==> 0 < m.value.start < m.value.end <= |line|
  {
    var p := SkipBlanks(line, 0);
    if p < |line| && (line[p] == '-' || line[p] == '*') then NameSpan(line, p + 1) else None
  }

  const KEY := "github"

  function KeySpan(line: string): (m: Option<Span>)
    ensures m.Some? ==> 0 < m.value.start < m.value.end <= |line|
  {
    var p := SkipBlanks(line, 0);
    if p + |KEY| <= |line| && Lower(line[p..p + |KEY|]) == KEY then
      var q := SkipBlanks(line, p + |KEY|);
      if q < |line| && line[q] == ':' then NameSpan(line, q + 1) else None
    else None
  }

  function Captured(s: string, m: Option<Span>): Option<string>
    requires m.Some? ==> m.value.start <= m.value.end <= |s|
  {
    if m.None? then None else Some(Lower(s[m.value.start..m.value.end]))
  }

  function ListItem(line: string): Option<string> { Captured(line, ListSpan(line)) }

  function KeyValue(line: string): Option<string> { Captured(line, KeySpan(line)) }

  function Unreserved(h: Option<string>): set<string> {
    if h.Some? && !IsReserved(h.value) then {h.value} else {}
  }

  /** What a line contributes through its list item and its key. */
  function ItemHandles(line: string): set<string> {
    Unreserved(ListItem(line)) + Unreserved(KeyValue(line))
  }

  /* ----- the whole text against its lines ----- */

  /** A run does not see past a line break. */
  lemma {:induction false} RunStops(line: string, rest: string, q: nat, limit: nat)
    requires q <= |line|
    ensures Run(line + ['\n'] + rest, q, limit) == Run(line, q, limit)
    decreases limit
  {
    var body := line + ['\n'] + rest;
    assert body[|line|] == '\n';
    if limit > 0 && q < |line| {
      assert body[q] == line[q];
      RunStops(line, rest, q + 1, limit - 1);
    }
  }

  lemma {:induction false} RunShifts(pre: string, rest: string, q: nat, limit: nat)
    ensures Run(pre + rest, |pre| + q, limit) == Run(rest, q, limit)
    decreases limit
  {
    if limit > 0 && q < |rest| {
      assert (pre + rest)[|pre| + q] == rest[q];
      RunShifts(pre, rest, q + 1, limit - 1);
    }
  }

  lemma AtHereShifts(pre: string, rest: string, q: nat)
    ensures AtHere(pre + rest, |pre| + q) == AtHere(rest, q)
  {
    RunShifts(pre, rest, q + 1, MAX_HANDLE);
  }

  lemma AtMatchShifts(pre: string, rest: string, q: nat)
    requires |pre| > 0 && q < |rest| && (q == 0 ==> !AtHere(rest, 0))
    ensures var m := AtMatch(pre + rest, |pre| + q);
      var n := AtMatch(rest, q);
      if n.None? then m.None? else m == Some(Span(|pre| + n.value.start, |pre| + n.value.end))
  {
    hide AtHere, Run, IsPrefixWord;
    AtHereShifts(pre, rest, q + 1);
    RunShifts(pre, rest, q + 2, MAX_HANDLE);
  }

  /** Behind its first position, a text is scanned the same way wherever it stands. */
  lemma {:induction false} AtHandlesShift(pre: string, rest: string, q: nat)
    requires |pre| > 0 && (q == 0 && rest != "" ==> !AtHere(rest, 0))
    ensures AtHandles(pre + rest, |pre| + q) == AtHandles(rest, q)
    decreases |rest| - q
  {
    hide AtMatch, AtHere, Lower;
    if q < |rest| {
      AtMatchShifts(pre, rest, q);
      var n := AtMatch(rest, q);
      if n.None? {
        AtHandlesShift(pre, rest, q + 1);
      } else {
        AtHandlesShift(pre, rest, n.value.end);
        assert (pre + rest)[|pre| + n.value.start..|pre| + n.value.end] == rest[n.value.start..n.value.end];
      }
    }
  }

  lemma AtHereInLine(line: string, rest: string, q: nat)
    requires q <= |line|
    ensures AtHere(line + ['\n'] + rest, q) == AtHere(line, q)
  {
    var body := line + ['\n'] + rest;
    assert body[|line|] == '\n';
    if q < |line| {
      assert body[q] == line[q];
      RunStops(line, rest, q + 1, MAX_HANDLE);
    }
  }

  lemma AtMatchInLine(line: string, rest: string, p: nat)
    requires p < |line|
    ensures AtMatch(line + ['\n'] + rest, p) == AtMatch(line, p)
  {
    hide AtHere, Run, IsPrefixWord;
    AtHereInLine(line, rest, p);
    AtHereInLine(line, rest, p + 1);
    RunStops(line, rest, p + 1, MAX_HANDLE);
    if p + 2 <= |line| {
      RunStops(line, rest, p + 2, MAX_HANDLE);
    } else {
      AtHereAtEnd(line, p + 1);
    }
    assert (line + ['\n'] + rest)[p] == line[p];
  }

  lemma AtHereAtEnd(s: string, q: nat)
    requires q >= |s|
    ensures !AtHere(s, q)
  {
  }

  /** At a line break a match can only be the next line's match at its start. */
  lemma AtMatchAtBreak(line: string, rest: string)
    ensures var m := AtMatch(line + ['\n'] + rest, |line|);
      if AtHere(rest, 0)
      then AtMatch(rest, 0) == Some(Span(1, 1 + Run(rest, 1, MAX_HANDLE)))
           && m == Some(Span(|line| + 2, |line| + 2 + Run(rest, 1, MAX_HANDLE)))
      else m.None?
  {
    hide Run, AtHere, IsPrefixWord;
    var pre := line + ['\n'];
    AtHereInLine(line, rest, |line|);
    AtHereAtEnd(line, |line|);
    AtHereShifts(pre, rest, 0);
    RunShifts(pre, rest, 1, MAX_HANDLE);
    assert (pre + rest)[|line|] == '\n';
    BreakIsNoWord();
  }

  lemma BreakIsNoWord()
    ensures !IsPrefixWord('\n')
  {
  }

  /** Scanning distributes over the first line break, from any position of the first line on. */
  lemma {:induction false} AtHandlesBreak(line: string, rest: string, p: nat)
    requires p <= |line|
    ensures AtHandles(line + ['\n'] + rest, p) == AtHandles(line, p) + AtHandles(rest, 0)
    decreases |line| - p
  {
    hide AtMatch, Lower, AtHere, Run;
    var pre := line + ['\n'];
    var body := pre + rest;
    if p < |line| {
      AtMatchInLine(line, rest, p);
      var m := AtMatch(line, p);
      if m.None? {
        AtHandlesBreak(line, rest, p + 1);
      } else {
        AtHandlesBreak(line, rest, m.value.end);
        assert body[m.value.start..m.value.end] == line[m.value.start..m.value.end];
      }
    } else {
      AtMatchAtBreak(line, rest);
      if AtHere(rest, 0) {
        var e := 1 + Run(rest, 1, MAX_HANDLE);
        assert body[|pre| + 1..|pre| + e] == rest[1..e];
        assert e > 0;
        AtHandlesShift(pre, rest, e);
        AtHandlesStep(rest);
      } else {
        AtHandlesShift(pre, rest, 0);
      }
    }
  }

  lemma AtHandlesStep(s: string)
    requires AtHere(s, 0)
    ensures var e := 1 + Run(s, 1, MAX_HANDLE);
      1 < e <= |s| && AtHandles(s, 0) == [Lower(s[1..e])] + AtHandles(s, e)
  {
    hide Lower, Run, IsPrefixWord;
    MatchAtStart(s);
    hide AtHere, AtMatch;
    assert s != "";
  }

  lemma MatchAtStart(s: string)
    requires AtHere(s, 0)
    ensures s != "" && AtMatch(s, 0) == Some(Span(1, 1 + Run(s, 1, MAX_HANDLE))) && Run(s, 1, MAX_HANDLE) > 0
  {
    hide Run;
  }

  lemma HostShifts(pre: string, rest: string, q: nat)
    requires q + |HOST| <= |rest|
    ensures (pre + rest)[|pre| + q..|pre| + q + |HOST|] == rest[q..q + |HOST|]
  {
  }

  lemma UrlMatchShifts(pre: string, rest: string, q: nat)
    requires q < |rest|
    ensures var m := UrlMatch(pre + rest, |pre| + q);
      var n := UrlMatch(rest, q);
      if n.None? then m.None? else m == Some(Span(|pre| + n.value.start, |pre| + n.value.end))
  {
    hide Lower, Run;
    RunShifts(pre, rest, q + |HOST|, MAX_HANDLE);
    if q + |HOST| <= |rest| {
      HostShifts(pre, rest, q);
    }
  }

  lemma UrlCountsShifts(pre: string, rest: string, n: Span)
    requires n.start <= n.end <= |rest|
    ensures (pre + rest)[|pre| + n.start..|pre| + n.end] == rest[n.start..n.end]
    ensures UrlCounts(pre + rest, Span(|pre| + n.start, |pre| + n.end)) == UrlCounts(rest, n)
  {
    hide Lower, IsReserved;
    assert (pre + rest)[|pre| + n.start..|pre| + n.end] == rest[n.start..n.end];
  }

  lemma {:induction false} UrlHandlesShift(pre: string, rest: string, q: nat)
    ensures UrlHandles(pre + rest, |pre| + q) == UrlHandles(rest, q)
    decreases |rest| - q
  {
    hide UrlMatch, UrlCounts, Lower;
    if q < |rest| {
      UrlMatchShifts(pre, rest, q);
      var n := UrlMatch(rest, q);
      if n.None? {
        UrlHandlesShift(pre, rest, q + 1);
      } else {
        UrlHandlesShift(pre, rest, n.value.end);
        UrlCountsShifts(pre, rest, n.value);
      }
    }
  }

  /** No host name spans a line break. */
  lemma HostInLine(line: string, rest: string, p: nat)
    requires p <= |line| < p + |HOST| <= |line| + 1 + |rest|
    ensures Lower((line + ['\n'] + rest)[p..p + |HOST|]) != HOST
  {
    var body := line + ['\n'] + rest;
    assert body[|line|] == '\n';
    assert Lower(body[p..p + |HOST|])[|line| - p] == '\n';
    assert '\n' !in HOST;
  }

  lemma UrlMatchInLine(line: string, rest: string, p: nat)
    requires p <= |line|
    ensures UrlMatch(line + ['\n'] + rest, p) == UrlMatch(line, p)
  {
    hide Lower, Run;
    var body := line + ['\n'] + rest;
    if p + |HOST| <= |line| {
      RunStops(line, rest, p + |HOST|, MAX_HANDLE);
      assert body[p..p + |HOST|] == line[p..p + |HOST|];
    } else if p + |HOST| <= |body| {
      HostInLine(line, rest, p);
    }
  }

  lemma UrlCountsInLine(line: string, rest: string, m: Span)
    requires m.start <= m.end <= |line|
    ensures (line + ['\n'] + rest)[m.start..m.end] == line[m.start..m.end]
    ensures UrlCounts(line + ['\n'] + rest, m) == UrlCounts(line, m)
  {
    hide Lower, IsReserved;
    assert (line + ['\n'] + rest)[m.start..m.end] == line[m.start..m.end];
  }

  lemma {:induction false} UrlHandlesBreak(line: string, rest: string, p: nat)
    requires p <= |line|
    ensures UrlHandles(line + ['\n'] + rest, p) == UrlHandles(line, p) + UrlHandles(rest, 0)
    decreases |line| - p
  {
    hide UrlMatch, UrlCounts, Lower;
    UrlMatchInLine(line, rest, p);
    if p < |line| {
      var m := UrlMatch(line, p);
      if m.None? {
        UrlHandlesBreak(line, rest, p + 1);
      } else {
        UrlHandlesBreak(line, rest, m.value.end);
        UrlCountsInLine(line, rest, m.value);
      }
    } else {
      assert UrlMatch(line, p).None?;
      UrlHandlesShift(line + ['\n'], rest, 0);
    }
  }

  /** The handles the two free patterns find in a text. */
  function FreeHandles(s: string): set<string> {
    (set h | h in AtHandles(s, 0)) + (set h | h in UrlHandles(s, 0))
  }

  /** The handles they find in some line of a list. */
  ghost function FreeInLines(lines: seq<string>): set<string> {
    set k, h | 0 <= k < |lines| && h in FreeHandles(lines[k]) :: h
  }

  /** A left-to-right scan without overlap over the whole text finds exactly what scanning line by line finds. */
  lemma {:induction false} WholeEqualsLines(body: string)
    ensures FreeHandles(body) == FreeInLines(Split(body, '\n'))
    decreases |body|
  {
    hide FreeHandles, FreeInLines;
    var i := IndexOf(body, '\n');
    if i == |body| {
      FreeInLinesCons(body, []);
      assert Split(body, '\n') == [body] + [];
      NoLines();
    } else {
      var rest := body[i + 1..];
      WholeEqualsLines(rest);
      assert body == body[..i] + ['\n'] + rest;
      assert Split(body, '\n') == [body[..i]] + Split(rest, '\n');
      FreeHandlesBreak(body[..i], rest);
      FreeInLinesCons(body[..i], Split(rest, '\n'));
    }
  }

  lemma NoLines()
    ensures FreeInLines([]) == {}
  {
  }

  lemma FreeHandlesBreak(line: string, rest: string)
    ensures FreeHandles(line + ['\n'] + rest) == FreeHandles(line) + FreeHandles(rest)
  {
    hide AtHandles, UrlHandles;
    AtHandlesBreak(line, rest, 0);
    UrlHandlesBreak(line, rest, 0);
  }

  lemma FreeInLinesCons(line: string, lines: seq<string>)
    ensures FreeInLines([line] + lines) == FreeHandles(line) + FreeInLines(lines)
  {
    hide FreeHandles;
    var all := [line] + lines;
    forall h | h in FreeHandles(line) + FreeInLines(lines) ensures h in FreeInLines(all) {
      if h in FreeHandles(line) {
        assert all[0] == line;
      } else {
        var k :| 0 <= k < |lines| && h in FreeHandles(lines[k]);
        assert all[k + 1] == lines[k];
      }
    }
    forall h | h in FreeInLines(all) ensures h in FreeHandles(line) + FreeInLines(lines) {
      var k :| 0 <= k < |all| && h in FreeHandles(all[k]);
      if k > 0 { assert all[k] == lines[k - 1]; }
    }
  }
}
