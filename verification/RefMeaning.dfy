/** What the patterns and tables of a maintainer file mean, told by positions of the text. */
module RefMeaning {
  import opened Options
  import opened Text
  import opened RefScan
  import opened RefTables

  /* ----- runs of handle characters ----- */

  predicate InHandle(c: char) { 'a' <= c <= 'z' || 'A' <= c <= 'Z' || '0' <= c <= '9' || c == '-' }

  predicate InWord(c: char) { 'a' <= c <= 'z' || 'A' <= c <= 'Z' || '0' <= c <= '9' || c == '_' }

  predicate AllInHandle(s: string, q: nat, e: nat) { q <= e <= |s| && forall k :: q <= k < e ==> InHandle(s[k]) }

  /** At q stand handle characters up to e, and e is as far as they go or 39 characters on. */
  predicate HandleSpan(s: string, q: nat, e: nat) {
    q < e && AllInHandle(s, q, e) && e - q <= 39 && (e - q == 39 || e == |s| || !InHandle(s[e]))
  }

  const RESERVED: set<string> := {"organizations", "orgs", "repos"}

  lemma HandleChar(c: char)
    ensures IsHandleChar(c) <==> InHandle(c)
    ensures IsPrefixWord(c) <==> InHandle(c) || c == '_'
    ensures IsWord(c) <==> InWord(c)
    ensures IsAlnum(c) <==> InHandle(c) && c != '-'
  {
  }

  lemma RunIsSpan(s: string, q: nat, e: nat)
    requires q <= |s|
    ensures HandleSpan(s, q, e) <==> Run(s, q, MAX_HANDLE) > 0 && e == q + Run(s, q, MAX_HANDLE)
  {
    hide Run, InHandle, IsHandleChar;
    var n := Run(s, q, MAX_HANDLE);
    forall c { HandleChar(c); }
    assert forall k :: q <= k < q + n ==> InHandle(s[k]);
    assert n < MAX_HANDLE && q + n < |s| ==> !InHandle(s[q + n]);
  }

  /* ----- @handle ----- */

  /** An @ with no handle character or underscore before it, and a handle from there to e. */
  predicate AtSpot(s: string, q: nat, e: nat) {
    q < |s| && s[q] == '@' && (q == 0 || (!InHandle(s[q - 1]) && s[q - 1] != '_')) && HandleSpan(s, q + 1, e)
  }

  predicate AtText(s: string, q: nat, e: nat, h: string) { AtSpot(s, q, e) && Lower(s[q + 1..e]) == h }

  ghost predicate AtNames(s: string, h: string) { exists q: nat, e: nat :: AtText(s, q, e, h) }

  /** A match that starts at p is a spot at p + 1, or at the very beginning. */
  lemma AtMatchIsSpot(s: string, p: nat, q: nat, e: nat)
    requires p < |s| && q == (if p == 0 && AtHere(s, 0) then 0 else p + 1)
    ensures AtSpot(s, q, e) <==> AtMatch(s, p) == Some(Span(q + 1, e))
    ensures AtMatch(s, p).Some? ==> AtMatch(s, p).value.start == q + 1
  {
    hide Run, InHandle, IsHandleChar;
    HandleChar(s[p]);
    if q + 1 <= |s| {
      RunIsSpan(s, q + 1, e);
    }
  }

  lemma AtStart(s: string, e: nat)
    requires s != "" && !AtHere(s, 0)
    ensures !AtSpot(s, 0, e)
  {
    hide Run, InHandle;
    if 1 <= |s| {
      RunIsSpan(s, 1, e);
    }
  }

  /** No other spot begins before a spot's handle is over, or right there. */
  lemma NoSpotInside(s: string, q: nat, e: nat, q': nat, e': nat)
    requires AtSpot(s, q, e) && q < q' <= e
    ensures !AtSpot(s, q', e')
  {
    if q' < e {
      assert InHandle(s[q']);
    } else {
      assert InHandle(s[e - 1]);
    }
  }

  /** The spots still to come at p. */
  predicate AtAhead(q: nat, p: nat) { q > p || (q == 0 && p == 0) }

  lemma {:induction false} AtHandlesFrom(s: string, p: nat, h: string)
    ensures h in AtHandles(s, p) <==> exists q: nat, e: nat :: AtAhead(q, p) && AtText(s, q, e, h)
    decreases |s| - p
  {
    hide AtMatch, AtHere, AtSpot, Lower;
    if p >= |s| {
      forall q: nat, e: nat ensures !(AtAhead(q, p) && AtText(s, q, e, h)) {
        NoSpotBehind(s, q, e);
      }
    } else {
      var m := AtMatch(s, p);
      var q0 := if p == 0 && AtHere(s, 0) then 0 else p + 1;
      if m.None? {
        AtHandlesFrom(s, p + 1, h);
        forall q: nat, e: nat ensures AtAhead(q, p) && AtText(s, q, e, h) <==> AtAhead(q, p + 1) && AtText(s, q, e, h) {
          AtNoMatch(s, p, q, e);
        }
      } else {
        AtHandlesFrom(s, m.value.end, h);
        AtMatchIsSpot(s, p, q0, m.value.end);
        forall q: nat, e: nat ensures AtAhead(q, p) && AtText(s, q, e, h) <==>
          (q == q0 && e == m.value.end && Lower(s[m.value.start..m.value.end]) == h) || (AtAhead(q, m.value.end) && AtText(s, q, e, h))
        {
          AtOneMatch(s, p, q0, m.value.end, q, e);
        }
        assert Lower(s[m.value.start..m.value.end]) == h ==> AtAhead(q0, p) && AtText(s, q0, m.value.end, h);
      }
    }
  }

  lemma NoSpotBehind(s: string, q: nat, e: nat)
    ensures AtSpot(s, q, e) ==> q + 1 < e <= |s|
  {
  }

  lemma AtNoMatch(s: string, p: nat, q: nat, e: nat)
    requires p < |s| && AtMatch(s, p).None?
    ensures AtAhead(q, p) && AtSpot(s, q, e) <==> AtAhead(q, p + 1) && AtSpot(s, q, e)
  {
    hide AtSpot, Run, IsHandleChar, AtMatch;
    assert !(p == 0 && AtHere(s, 0)) by { MatchesAtStart(s); }
    AtMatchIsSpot(s, p, p + 1, e);
    if p == 0 {
      AtStart(s, e);
    }
  }

  lemma MatchesAtStart(s: string)
    ensures AtHere(s, 0) ==> AtMatch(s, 0).Some?
  {
  }

  lemma AtOneMatch(s: string, p: nat, q0: nat, end: nat, q: nat, e: nat)
    requires p < |s| && q0 == (if p == 0 && AtHere(s, 0) then 0 else p + 1)
    requires AtMatch(s, p) == Some(Span(q0 + 1, end))
    ensures AtAhead(q, p) && AtSpot(s, q, e) <==> (q == q0 && e == end) || (AtAhead(q, end) && AtSpot(s, q, e))
    ensures AtSpot(s, q0, end) && AtAhead(q0, p)
  {
    hide AtSpot, AtHere, AtMatch;
    AtMatchIsSpot(s, p, q0, end);
    AtMatchIsSpot(s, p, q0, e);
    NoSpotBehind(s, q0, end);
    if q0 < q <= end {
      NoSpotInside(s, q0, end, q, e);
    }
    if p == 0 && q0 == 1 {
      AtStart(s, e);
    }
  }

  /** The @ pattern finds exactly the spots. */
  lemma AtHandlesMeaning(s: string, h: string)
    ensures h in AtHandles(s, 0) <==> AtNames(s, h)
  {
    hide AtText;
    AtHandlesFrom(s, 0, h);
    assert forall q: nat, e: nat :: AtAhead(q, 0) && AtText(s, q, e, h) <==> AtText(s, q, e, h);
  }

  /* ----- github.com/handle ----- */

  /** The host's name, in any letter case, and a handle from there to e. */
  predicate UrlSpot(s: string, q: nat, e: nat) {
    q + 11 <= |s| && Lower(s[q..q + 11]) == "github.com/" && HandleSpan(s, q + 11, e)
  }

  /** Spots can overlap; the pattern takes those that begin inside no spot taken before. */
  ghost predicate UrlTaken(s: string, q: nat, e: nat)
    decreases q
  {
    UrlSpot(s, q, e) && forall q': nat, e': nat :: q' < q && UrlTaken(s, q', e') ==> e' <= q
  }

  ghost predicate UrlText(s: string, q: nat, e: nat, h: string) {
    && UrlTaken(s, q, e) && q + 11 <= e <= |s| && Lower(s[q + 11..e]) == h
    && h !in RESERVED && !(e < |s| && s[e] == '/')
  }

  ghost predicate UrlNames(s: string, h: string) { exists q: nat, e: nat :: UrlText(s, q, e, h) }

  lemma UrlMatchIsSpot(s: string, p: nat, e: nat)
    ensures UrlSpot(s, p, e) <==> UrlMatch(s, p) == Some(Span(p + 11, e))
    ensures UrlMatch(s, p).Some? ==> UrlMatch(s, p).value.start == p + 11
  {
    hide Run, Lower, HandleSpan;
    assert |HOST| == 11;
    if p + 11 <= |s| {
      RunIsSpan(s, p + 11, e);
    }
  }

  lemma UrlCountsMeaning(s: string, m: Span)
    requires m.start <= m.end <= |s|
    ensures UrlCounts(s, m) <==> Lower(s[m.start..m.end]) !in RESERVED && !(m.end < |s| && s[m.end] == '/')
  {
    hide Lower;
  }

  /** What is taken before p ends by p. */
  ghost predicate DoneBefore(s: string, p: nat) {
    forall q: nat, e: nat :: q < p && UrlTaken(s, q, e) ==> e <= p
  }

  lemma SpotEnds(s: string, q: nat, e: nat, e': nat)
    requires UrlSpot(s, q, e)
    ensures q + 11 < e <= |s| && (UrlSpot(s, q, e') ==> e' == e)
  {
    hide Lower, HandleSpan, Run, UrlMatch;
    UrlMatchIsSpot(s, q, e);
    UrlMatchIsSpot(s, q, e');
    assert HandleSpan(s, q + 11, e);
    RunIsSpan(s, q + 11, e);
  }

  lemma {:induction false} UrlHandlesFrom(s: string, p: nat, h: string)
    requires DoneBefore(s, p)
    ensures h in UrlHandles(s, p) <==> exists q: nat, e: nat :: q >= p && UrlText(s, q, e, h)
    decreases |s| - p
  {
    hide UrlMatch, UrlSpot, Lower, UrlCounts, UrlText;
    if p >= |s| {
      forall q: nat, e: nat | q >= p ensures !UrlText(s, q, e, h) {
        NoTextBehind(s, q, e, h);
      }
    } else {
      var m := UrlMatch(s, p);
      if m.None? {
        NothingTaken(s, p);
        UrlHandlesFrom(s, p + 1, h);
        forall e: nat ensures !UrlText(s, p, e, h) {
          NoTextHere(s, p, e, h);
        }
      } else {
        UrlMatchIsSpot(s, p, m.value.end);
        OneTaken(s, p, m.value.end);
        UrlHandlesFrom(s, m.value.end, h);
        UrlCountsMeaning(s, m.value);
        assert UrlText(s, p, m.value.end, h) <==> UrlCounts(s, m.value) && Lower(s[m.value.start..m.value.end]) == h by {
          TextHere(s, p, m.value, h);
        }
        forall q: nat, e: nat | p <= q < m.value.end && UrlText(s, q, e, h) ensures q == p && e == m.value.end {
          TextIsTaken(s, q, e, h);
        }
      }
    }
  }

  lemma TextIsTaken(s: string, q: nat, e: nat, h: string)
    requires UrlText(s, q, e, h)
    ensures UrlTaken(s, q, e)
  {
  }

  lemma NoTextBehind(s: string, q: nat, e: nat, h: string)
    ensures UrlText(s, q, e, h) ==> q < |s|
  {
    hide Lower;
  }

  lemma NoTextHere(s: string, p: nat, e: nat, h: string)
    requires UrlMatch(s, p).None?
    ensures !UrlText(s, p, e, h)
  {
    hide Lower, UrlMatch;
    UrlMatchIsSpot(s, p, e);
  }

  lemma TextHere(s: string, p: nat, m: Span, h: string)
    requires UrlTaken(s, p, m.end) && m.start == p + 11 && m.start <= m.end <= |s|
    ensures UrlText(s, p, m.end, h) <==>
      Lower(s[m.start..m.end]) == h && Lower(s[m.start..m.end]) !in RESERVED && !(m.end < |s| && s[m.end] == '/')
  {
    hide Lower, UrlTaken;
  }

  lemma NothingTaken(s: string, p: nat)
    requires DoneBefore(s, p) && UrlMatch(s, p).None?
    ensures DoneBefore(s, p + 1)
  {
    hide UrlSpot, UrlMatch;
    forall q: nat, e: nat | q < p + 1 && UrlTaken(s, q, e) ensures e <= p + 1 {
      UrlMatchIsSpot(s, q, e);
      assert q < p;
    }
  }

  lemma OneTaken(s: string, p: nat, end: nat)
    requires DoneBefore(s, p) && UrlSpot(s, p, end)
    ensures UrlTaken(s, p, end) && DoneBefore(s, end)
    ensures forall q: nat, e: nat :: p <= q < end && UrlTaken(s, q, e) ==> q == p && e == end
  {
    hide UrlSpot;
    SpotEnds(s, p, end, end);
    assert UrlTaken(s, p, end);
    forall q: nat, e: nat | p <= q < end && UrlTaken(s, q, e) ensures q == p && e == end {
      SpotEnds(s, p, end, e);
    }
  }

  /** The host pattern finds exactly the handles of the spots it takes, but for the reserved ones and
      those that a path segment follows. */
  lemma UrlHandlesMeaning(s: string, h: string)
    ensures h in UrlHandles(s, 0) <==> UrlNames(s, h)
  {
    hide UrlText;
    UrlHandlesFrom(s, 0, h);
    assert forall q: nat, e: nat :: q >= 0 && UrlText(s, q, e, h) <==> UrlText(s, q, e, h);
  }

  /* ----- "- handle" and "github: handle" ----- */

  predicate Blanks(s: string, a: nat, b: nat) {
    a <= b <= |s| && forall k :: a <= k < b ==> s[k] in {' ', '\t', '\n', '\U{C}', '\r'}
  }

  lemma BlankChar(c: char)
    ensures IsBlank(c) <==> c in {' ', '\t', '\n', '\U{C}', '\r'}
  {
  }

  lemma {:induction false} BlanksAreSkipped(s: string, a: nat, b: nat)
    requires a <= |s|
    ensures SkipBlanks(s, a) == b <==> Blanks(s, a, b) && (b < |s| ==> !Blanks(s, b, b + 1))
    decreases |s| - a
  {
    hide IsBlank;
    if a < |s| {
      BlankChar(s[a]);
      if IsBlank(s[a]) {
        BlanksAreSkipped(s, a + 1, b);
      }
    }
  }

  /** A word ends at e, or one begins there. */
  predicate WordEdge(s: string, e: nat) {
    0 < e <= |s| && InWord(s[e - 1]) != (e < |s| && InWord(s[e]))
  }

  /** From q to e a handle that begins with a letter or a digit and ends at a word's edge: the longest such
      of at most 39 characters. */
  predicate NameSpot(s: string, q: nat, e: nat) {
    && q < e <= q + 39 && AllInHandle(s, q, e) && s[q] != '-' && WordEdge(s, e)
    && forall e' :: e < e' <= q + 39 && AllInHandle(s, q, e') ==> !WordEdge(s, e')
  }

  lemma EdgeIsBoundary(s: string, e: nat)
    requires 0 < e <= |s|
    ensures Boundary(s, e) <==> WordEdge(s, e)
  {
    hide InWord, IsWord;
    HandleChar(s[e - 1]);
    if e < |s| { HandleChar(s[e]); }
  }

  /** Up to the length of the run, all are handle characters, and not beyond. */
  lemma RunIsAllHandle(s: string, q: nat, e: nat)
    requires q <= e <= q + MAX_HANDLE && q <= |s|
    ensures AllInHandle(s, q, e) <==> e <= q + Run(s, q, MAX_HANDLE)
  {
    hide Run, InHandle, IsHandleChar;
    var n := Run(s, q, MAX_HANDLE);
    forall c { HandleChar(c); }
    assert forall k :: q <= k < q + n ==> InHandle(s[k]);
    assert n < MAX_HANDLE && q + n < |s| ==> !InHandle(s[q + n]);
  }

  lemma NameIsSpot(s: string, p: nat, q: nat, e: nat)
    requires p <= |s| && SkipBlanks(s, p) == q
    ensures NameSpan(s, p) == Some(Span(q, e)) <==> NameSpot(s, q, e)
    ensures NameSpan(s, p).Some? ==> NameSpan(s, p).value.start == q
  {
    hide Run, InHandle, IsAlnum, Bounded, Boundary, WordEdge, AllInHandle;
    if q < |s| {
      HandleChar(s[q]);
      var n := Run(s, q, MAX_HANDLE);
      var r := Bounded(s, q, n);
      forall e' | q < e' <= q + n ensures Boundary(s, e') <==> WordEdge(s, e') {
        EdgeIsBoundary(s, e');
      }
      forall e': nat | q <= e' <= q + MAX_HANDLE ensures AllInHandle(s, q, e') <==> e' <= q + n {
        RunIsAllHandle(s, q, e');
      }
      FirstInHandle(s, q, e);
    } else {
      NoNameBehind(s, q, e);
    }
  }

  lemma FirstInHandle(s: string, q: nat, e: nat)
    ensures q < e && AllInHandle(s, q, e) ==> InHandle(s[q])
  {
  }

  lemma NoNameBehind(s: string, q: nat, e: nat)
    requires q >= |s|
    ensures !NameSpot(s, q, e)
  {
  }

  /** Behind optional blanks a dash or a star, more blanks, and a name. */
  predicate ItemSpot(line: string, p: nat, q: nat, e: nat) {
    && Blanks(line, 0, p) && p < |line| && (line[p] == '-' || line[p] == '*')
    && Blanks(line, p + 1, q) && NameSpot(line, q, e)
  }

  /** Behind optional blanks the word, a colon, blanks around it, and a name. */
  predicate KeySpot(line: string, p: nat, c: nat, q: nat, e: nat) {
    && Blanks(line, 0, p) && p + 6 <= |line| && Lower(line[p..p + 6]) == "github"
    && Blanks(line, p + 6, c) && c < |line| && line[c] == ':'
    && Blanks(line, c + 1, q) && NameSpot(line, q, e)
  }

  predicate NameIs(line: string, q: nat, e: nat, h: string) { q <= e <= |line| && Lower(line[q..e]) == h }

  ghost predicate ItemSays(line: string, h: string) {
    exists p: nat, q: nat, e: nat :: ItemSpot(line, p, q, e) && NameIs(line, q, e, h)
  }

  ghost predicate KeySays(line: string, h: string) {
    exists p: nat, c: nat, q: nat, e: nat :: KeySpot(line, p, c, q, e) && NameIs(line, q, e, h)
  }

  lemma NameIsNoBlank(s: string, q: nat, e: nat)
    requires NameSpot(s, q, e)
    ensures q < |s| && !Blanks(s, q, q + 1)
  {
    hide WordEdge;
    assert InHandle(s[q]);
  }

  lemma ItemIsSpot(line: string, p: nat, q: nat, e: nat)
    ensures ItemSpot(line, p, q, e) <==>
      && SkipBlanks(line, 0) == p && p < |line| && (line[p] == '-' || line[p] == '*')
      && SkipBlanks(line, p + 1) == q && ListSpan(line) == Some(Span(q, e))
  {
    hide NameSpot, SkipBlanks, NameSpan;
    BlanksAreSkipped(line, 0, p);
    if p < |line| {
      BlanksAreSkipped(line, p + 1, q);
      NameIsSpot(line, p + 1, SkipBlanks(line, p + 1), e);
      if NameSpot(line, q, e) {
        NameIsNoBlank(line, q, e);
      }
    }
  }

  /** The list pattern finds the name of the item, if the line is one. */
  lemma ListItemMeaning(line: string, h: string)
    ensures ListItem(line) == Some(h) <==> ItemSays(line, h)
  {
    hide ItemSpot, SkipBlanks, NameSpan, Lower;
    var p := SkipBlanks(line, 0);
    var m := ListSpan(line);
    if m.Some? {
      NameIsSpot(line, p + 1, SkipBlanks(line, p + 1), m.value.end);
      ItemIsSpot(line, p, m.value.start, m.value.end);
      assert ItemSpot(line, p, m.value.start, m.value.end);
      assert NameIs(line, m.value.start, m.value.end, h) <==> ListItem(line) == Some(h);
    }
    forall p: nat, q: nat, e: nat | ItemSpot(line, p, q, e) ensures m == Some(Span(q, e)) {
      ItemIsSpot(line, p, q, e);
    }
  }

  lemma KeyIsSpot(line: string, p: nat, c: nat, q: nat, e: nat)
    ensures KeySpot(line, p, c, q, e) <==>
      && SkipBlanks(line, 0) == p && p + 6 <= |line| && Lower(line[p..p + 6]) == "github"
      && SkipBlanks(line, p + 6) == c && c < |line| && line[c] == ':'
      && SkipBlanks(line, c + 1) == q && KeySpan(line) == Some(Span(q, e))
  {
    hide NameSpot, SkipBlanks, NameSpan, Lower;
    assert |KEY| == 6;
    BlanksAreSkipped(line, 0, p);
    if p + 6 <= |line| && Lower(line[p..p + 6]) == "github" {
      KeyIsNoBlank(line, p);
      BlanksAreSkipped(line, p + 6, c);
      if c < |line| {
        BlanksAreSkipped(line, c + 1, q);
        NameIsSpot(line, c + 1, SkipBlanks(line, c + 1), e);
        if NameSpot(line, q, e) {
          NameIsNoBlank(line, q, e);
        }
      }
    }
  }

  lemma KeyIsNoBlank(line: string, p: nat)
    requires p + 6 <= |line| && Lower(line[p..p + 6]) == "github"
    ensures !Blanks(line, p, p + 1)
  {
    assert LowerChar(line[p]) == Lower(line[p..p + 6])[0] == 'g';
  }

  /** The key pattern finds the value of the key, if the line is one. */
  lemma KeyValueMeaning(line: string, h: string)
    ensures KeyValue(line) == Some(h) <==> KeySays(line, h)
  {
    hide KeySpot, SkipBlanks, NameSpan, Lower;
    var p := SkipBlanks(line, 0);
    var m := KeySpan(line);
    if m.Some? {
      var c := SkipBlanks(line, p + 6);
      assert |KEY| == 6;
      NameIsSpot(line, c + 1, SkipBlanks(line, c + 1), m.value.end);
      KeyIsSpot(line, p, c, m.value.start, m.value.end);
      assert KeySpot(line, p, c, m.value.start, m.value.end);
      assert NameIs(line, m.value.start, m.value.end, h) <==> KeyValue(line) == Some(h);
    }
    forall p: nat, c: nat, q: nat, e: nat | KeySpot(line, p, c, q, e) ensures m == Some(Span(q, e)) {
      KeyIsSpot(line, p, c, q, e);
    }
  }

  /* ----- tables ----- */

  /** The text between a bar at the beginning and a bar at the end, where there are such. */
  predicate BetweenBars(core: string, lead: string, inner: string, tail: string) {
    && core == lead + inner + tail && (lead == "" || lead == "|") && (tail == "" || tail == "|")
    && (lead == "" ==> core == "" || core[0] != '|')
    && (tail == "" ==> inner == "" || inner[|inner| - 1] != '|')
  }

  lemma BarsAreCut(core: string) returns (lead: string, tail: string)
    ensures BetweenBars(core, lead, TrimSuffix(TrimPrefix(core, '|'), '|'), tail)
  {
    var rest := TrimPrefix(core, '|');
    lead := if core != "" && core[0] == '|' then "|" else "";
    tail := if rest != "" && rest[|rest| - 1] == '|' then "|" else "";
  }

  lemma SpacesHoldNoBar(s: string)
    requires Spaces(s)
    ensures '|' !in s
  {
  }

  /** The row of a line: what stands between its bars, without spaces around it; a bar at either end of
      the line belongs to no cell. */
  lemma ParseRowMeaning(line: string) returns (a: string, lead: string, inner: string, tail: string, b: string)
    ensures var core := lead + inner + tail;
            && line == a + core + b && Spaces(a) && Spaces(b) && Tight(core) && BetweenBars(core, lead, inner, tail)
    ensures '|' !in line ==> ParseRow(line) == []
    ensures '|' in line ==> IsRowOf(ParseRow(line), Split(inner, '|'))
  {
    hide Trim, Split, BetweenBars, Spaces;
    a, b := TrimSplits(line);
    SpacesHoldNoBar(a);
    SpacesHoldNoBar(b);
    lead, tail := BarsAreCut(Trim(line));
    inner := TrimSuffix(TrimPrefix(Trim(line), '|'), '|');
    assert lead + inner + tail == Trim(line) by { BetweenIsAll(Trim(line), lead, inner, tail); }
    if '|' in line {
      assert '|' in Trim(line);
    }
  }

  lemma BetweenIsAll(core: string, lead: string, inner: string, tail: string)
    requires BetweenBars(core, lead, inner, tail)
    ensures core == lead + inner + tail
  {
  }

  /** One cell for each part, trimmed. */
  predicate IsRowOf(cells: seq<string>, parts: seq<string>) {
    |cells| == |parts| && forall k :: 0 <= k < |parts| ==> cells[k] == Trim(parts[k])
  }

  const TITLES: set<string> := {"github", "github id", "github username", "github handle", "github account"}

  predicate TitleSays(cell: string) { Lower(cell) in TITLES }

  /** The first column with one of the titles. */
  predicate TitledFirst(cells: seq<string>, col: nat) {
    col < |cells| && TitleSays(cells[col]) && forall j :: 0 <= j < col ==> !TitleSays(cells[j])
  }

  predicate RuleRow(cells: seq<string>) {
    cells != [] && forall i, k :: 0 <= i < |cells| && 0 <= k < |cells[i]| ==> cells[i][k] == '-' || cells[i][k] == ':'
  }

  ghost predicate TrimmedCells(cells: seq<string>) { forall i :: 0 <= i < |cells| ==> Trim(cells[i]) == cells[i] }

  lemma CellsAreTrimmed(line: string)
    ensures TrimmedCells(ParseRow(line))
  {
    hide Split, TrimLeft, TrimRight;
    var cells := ParseRow(line);
    forall i | 0 <= i < |cells| ensures Trim(cells[i]) == cells[i] {
      var part := Split(TrimSuffix(TrimPrefix(Trim(line), '|'), '|'), '|')[i];
      assert cells[i] == Trim(part) && Trim(Trim(part)) == Trim(part);
    }
  }

  lemma {:induction false} NoTitleBefore(cells: seq<string>, j: nat)
    requires j < GitHubColumn(cells)
    ensures !HeaderMatch(cells[j])
  {
    hide HeaderMatch;
    if j > 0 {
      NoTitleBefore(cells[1..], j - 1);
    }
  }

  lemma TitleIsMatch(cells: seq<string>, j: nat)
    requires TrimmedCells(cells) && j < |cells|
    ensures HeaderMatch(cells[j]) <==> TitleSays(cells[j])
  {
    hide Lower, Trim;
  }

  lemma TitledFirstMeaning(cells: seq<string>, col: nat)
    requires TrimmedCells(cells)
    ensures TitledFirst(cells, col) <==> col == GitHubColumn(cells) && col < |cells|
  {
    hide HeaderMatch, TitleSays, GitHubColumn, TrimmedCells;
    forall j | 0 <= j < |cells| ensures HeaderMatch(cells[j]) <==> TitleSays(cells[j]) {
      TitleIsMatch(cells, j);
    }
    var first := GitHubColumn(cells);
    forall j: nat | j < first ensures !HeaderMatch(cells[j]) {
      NoTitleBefore(cells, j);
    }
    if first < |cells| {
      ColumnIsTitled(cells);
    }
  }

  lemma RuleRowMeaning(cells: seq<string>)
    requires TrimmedCells(cells)
    ensures RuleRow(cells) <==> IsSeparatorRow(cells)
  {
    hide Trim;
    assert forall i :: 0 <= i < |cells| ==> (IsDashes(Trim(cells[i])) <==> forall k :: 0 <= k < |cells[i]| ==> cells[i][k] == '-' || cells[i][k] == ':');
  }

  /* ----- a cell ----- */

  predicate Ticks(s: string) { forall i :: 0 <= i < |s| ==> s[i] == '`' }

  /** A handle of at most 39 characters that is not reserved. */
  predicate PlainHandle(n: string) {
    0 < |n| <= 39 && AllInHandle(n, 0, |n|) && Lower(n) !in RESERVED
  }

  /** Inside backticks, the text behind an optional @. */
  predicate CellText(cell: string, u: string, x: string, v: string, t: string) {
    && cell == u + x + v && Ticks(u) && Ticks(v) && x != "" && x[0] != '`' && x[|x| - 1] != '`'
    && (x == "@" + t || (x == t && x[0] != '@'))
  }

  /** That text is a handle between spaces; the spaces are kept. */
  predicate PaddedHandle(t: string, a: string, n: string, b: string) {
    t == a + n + b && Spaces(a) && Spaces(b) && PlainHandle(n)
  }

  ghost predicate CellSays(cell: string, h: string) {
    exists u, x, v, t, a, n, b :: CellText(cell, u, x, v, t) && PaddedHandle(t, a, n, b) && h == Lower(t)
  }

  lemma {:induction false} TicksTrimmed(s: string) returns (u: string, v: string)
    ensures s == u + TrimChar(s, '`') + v && Ticks(u) && Ticks(v)
    ensures var x := TrimChar(s, '`'); x != "" ==> x[0] != '`' && x[|x| - 1] != '`'
    decreases |s|
  {
    if s != "" && s[0] == '`' {
      u, v := TicksTrimmed(s[1..]);
      u := "`" + u;
    } else if s != "" && s[|s| - 1] == '`' {
      u, v := TicksTrimmed(s[..|s| - 1]);
      v := v + "`";
    } else {
      u, v := "", "";
    }
  }

  lemma {:induction false} TrimCharOf(u: string, x: string, v: string)
    requires Ticks(u) && Ticks(v) && x != "" && x[0] != '`' && x[|x| - 1] != '`'
    ensures TrimChar(u + x + v, '`') == x
    decreases |u| + |v|
  {
    var s := u + x + v;
    if u != "" {
      TrimCharOf(u[1..], x, v);
      assert s[1..] == u[1..] + x + v;
    } else if v != "" {
      TrimCharOf(u, x, v[..|v| - 1]);
      assert s[..|s| - 1] == u + x + v[..|v| - 1];
    } else {
      assert s == x;
    }
  }

  lemma PlainIsValid(t: string)
    ensures IsValidHandle(t) <==> PlainHandle(Trim(t))
  {
    hide Trim;
    var n := Trim(t);
    assert |Lower(n)| == |n|;
    forall i | 0 <= i < |n| ensures
      ('a' <= Lower(n)[i] <= 'z' || '0' <= Lower(n)[i] <= '9' || Lower(n)[i] == '-') <==> InHandle(n[i])
    {
    }
  }

  lemma HandleIsTight(n: string)
    requires PlainHandle(n)
    ensures Tight(n)
  {
    hide Lower;
    assert InHandle(n[0]) && InHandle(n[|n| - 1]);
    assert n[..1][0] == n[0] && n[|n| - 1..][0] == n[|n| - 1];
  }

  lemma PaddedIsValid(t: string) returns (a: string, n: string, b: string)
    ensures IsValidHandle(t) <==> PaddedHandle(t, a, n, b)
    ensures forall a', n', b' :: PaddedHandle(t, a', n', b') ==> IsValidHandle(t)
  {
    hide Trim, IsValidHandle, PlainHandle;
    a, b := TrimSplits(t);
    n := Trim(t);
    PlainIsValid(t);
    forall a', n', b' | PaddedHandle(t, a', n', b') ensures IsValidHandle(t) {
      HandleIsTight(n');
      TrimOf(a', n', b');
    }
  }

  /** A cell yields a handle exactly when it reads so. */
  lemma CellHandleMeaning(cells: seq<string>, col: nat, h: string)
    requires TrimmedCells(cells)
    ensures CellHandle(cells, col) == Some(h) <==> col < |cells| && CellSays(cells[col], h)
  {
    hide Trim, IsValidHandle, PaddedHandle, Lower, TrimChar;
    if col < |cells| {
      var cell := cells[col];
      var u, v := TicksTrimmed(cell);
      var x := TrimChar(cell, '`');
      var t := TrimPrefix(x, '@');
      var a, n, b := PaddedIsValid(t);
      EmptyIsInvalid();
      if CellHandle(cells, col) == Some(h) {
        assert x != "";
        assert x[0] == '@' ==> x == "@" + t;
        assert CellText(cell, u, x, v, t);
      }
      forall u', x', v', t', a', n', b' | CellText(cell, u', x', v', t') && PaddedHandle(t', a', n', b')
        ensures t' == t && IsValidHandle(t)
      {
        TrimCharOf(u', x', v');
        var _, _, _ := PaddedIsValid(t');
      }
    }
  }

  lemma EmptyIsInvalid()
    ensures !IsValidHandle("") && Trim("") == "" && TrimChar("", '`') == ""
  {
  }

  /* ----- the file ----- */

  /** Row r of the table headed at line p yields the handle: the head has a title over that column, a rule
      stands below it, and no line between is missing its bars or is a rule. */
  ghost predicate TableSays(lines: seq<string>, p: nat, r: nat, h: string) {
    && p + 2 <= r < |lines| && RuleRow(ParseRow(lines[p + 1]))
    && (forall k :: p + 2 <= k <= r ==> ParseRow(lines[k]) != [] && !RuleRow(ParseRow(lines[k])))
    && exists col: nat ::
         && TitledFirst(ParseRow(lines[p]), col) && col < |ParseRow(lines[r])| && CellSays(ParseRow(lines[r])[col], h)
  }

  ghost predicate RowSays(lines: seq<string>, r: nat, h: string) { exists p: nat :: TableSays(lines, p, r, h) }

  ghost predicate TablesSay(lines: seq<string>, h: string) { exists r: nat :: RowSays(lines, r, h) }

  /** The line names the handle, tables aside. */
  ghost predicate LineSays(line: string, h: string) {
    AtNames(line, h) || UrlNames(line, h) || ((ItemSays(line, h) || KeySays(line, h)) && h !in RESERVED)
  }

  /** The file names the handle. */
  ghost predicate FileSays(body: string, h: string) {
    var lines := Split(body, '\n');
    || TablesSay(lines, h) || AtNames(body, h) || UrlNames(body, h)
    || exists k :: 0 <= k < |lines| && (ItemSays(lines[k], h) || KeySays(lines[k], h)) && h !in RESERVED
  }

  lemma YieldsMeaning(lines: seq<string>, p: nat, r: nat, h: string)
    ensures Yields(lines, p, r, h) <==> TableSays(lines, p, r, h)
  {
    hide ParseRow, CellHandle, IsSeparatorRow, RuleRow, TitledFirst, CellSays, TrimmedCells;
    if p + 2 <= r < |lines| {
      forall k | p <= k <= r ensures TrimmedCells(ParseRow(lines[k])) && (RuleRow(ParseRow(lines[k])) <==> IsSeparatorRow(ParseRow(lines[k]))) {
        CellsAreTrimmed(lines[k]);
        RuleRowMeaning(ParseRow(lines[k]));
      }
      var head, row := ParseRow(lines[p]), ParseRow(lines[r]);
      forall col: nat ensures TitledFirst(head, col) <==> col == GitHubColumn(head) && col < |head| {
        TitledFirstMeaning(head, col);
      }
      CellHandleMeaning(row, GitHubColumn(head), h);
    }
  }

  lemma RowYieldsMeaning(lines: seq<string>, r: nat, h: string)
    ensures RowYields(lines, r, h) <==> RowSays(lines, r, h)
  {
    hide Yields, TableSays;
    forall p: nat ensures Yields(lines, p, r, h) <==> TableSays(lines, p, r, h) {
      YieldsMeaning(lines, p, r, h);
    }
  }

  lemma TablesMeaning(lines: seq<string>, h: string)
    ensures TableHandle(lines, h) <==> TablesSay(lines, h)
  {
    hide Yields, RowSays;
    forall r: nat ensures RowYields(lines, r, h) <==> RowSays(lines, r, h) {
      RowYieldsMeaning(lines, r, h);
    }
    if TableHandle(lines, h) {
      var p: nat, r: nat :| Yields(lines, p, r, h);
      assert RowYields(lines, r, h);
    }
    if TablesSay(lines, h) {
      var r: nat :| RowSays(lines, r, h);
      assert RowYields(lines, r, h);
    }
  }

  lemma FreeMeaning(s: string, h: string)
    ensures h in FreeHandles(s) <==> AtNames(s, h) || UrlNames(s, h)
  {
    hide AtHandles, UrlHandles, AtNames, UrlNames;
    AtHandlesMeaning(s, h);
    UrlHandlesMeaning(s, h);
  }

  lemma ItemsMeaning(line: string, h: string)
    ensures h in ItemHandles(line) <==> (ItemSays(line, h) || KeySays(line, h)) && h !in RESERVED
  {
    hide ListItem, KeyValue, ItemSays, KeySays;
    ListItemMeaning(line, h);
    KeyValueMeaning(line, h);
  }
}
