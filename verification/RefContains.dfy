/** Whether a maintainer file mentions a given handle, and how far that agrees with
    the extraction of handles from the same file. */
module RefContains {
  import opened Options
  import opened Text
  import opened RefScan
  import opened RefTables
  import opened RefMeaning

  /** The handle at q, followed by no character that could continue it. */
  predicate HandleAt(s: string, h: string, q: nat) {
    && q + |h| <= |s| && Lower(s[q..q + |h|]) == Lower(h)
    && (q + |h| == |s| || !IsPrefixWord(s[q + |h|]))
  }

  /** `@?` and the handle. */
  predicate OptionalAt(s: string, h: string, q: nat) {
    HandleAt(s, h, q) || (q < |s| && s[q] == '@' && HandleAt(s, h, q + 1))
  }

  /** A match of `(^|[^a-z0-9_-])@?HANDLE([^a-z0-9_-]|$)` starting at p. */
  predicate MatchAt(s: string, h: string, p: nat) {
    (p == 0 && OptionalAt(s, h, 0)) || (p < |s| && !IsPrefixWord(s[p]) && OptionalAt(s, h, p + 1))
  }

  /** MaintainerRefContains: no answer for the empty handle. */
  function Contains(body: string, h: string): Option<bool> {
    if h == "" then None else Some(exists p: nat :: p <= |body| && MatchAt(body, h, p))
  }

  /** A free-standing mention: neither neighbour could belong to a handle. */
  predicate FreeStanding(s: string, h: string, q: nat)
    requires q <= |s|
  {
    HandleAt(s, h, q) && (q == 0 || !IsPrefixWord(s[q - 1]))
  }

  /** The pattern means exactly a free-standing mention; its optional @ decides nothing. */
  lemma ContainsMeaning(body: string, h: string)
    requires h != ""
    ensures Contains(body, h) == Some(true) <==> exists q: nat :: q <= |body| && FreeStanding(body, h, q)
  {
    if p: nat :| p <= |body| && MatchAt(body, h, p) {
      var q := if p == 0 && OptionalAt(body, h, 0) then 0 else p + 1;
      if HandleAt(body, h, q) {
        assert FreeStanding(body, h, q);
      } else {
        assert FreeStanding(body, h, q + 1);
      }
    }
    if q: nat :| q <= |body| && FreeStanding(body, h, q) {
      if q == 0 {
        assert MatchAt(body, h, 0);
      } else {
        assert MatchAt(body, h, q - 1);
      }
    }
  }

  /** The text has the handle there, letter case aside, with no letter, digit, dash or underscore on
      either side. */
  predicate MentionedAt(s: string, h: string, q: nat) {
    && q + |h| <= |s| && Lower(s[q..q + |h|]) == Lower(h)
    && (q == 0 || (!InHandle(s[q - 1]) && s[q - 1] != '_'))
    && (q + |h| == |s| || (!InHandle(s[q + |h|]) && s[q + |h|] != '_'))
  }

  /** So the answer is whether the handle stands somewhere on its own; there is none for the empty one. */
  lemma ContainsExactlyWhen(body: string, h: string)
    ensures Contains(body, h) == (if h == "" then None else Some(exists q: nat :: MentionedAt(body, h, q)))
  {
    hide Lower, IsPrefixWord, InHandle, MatchAt;
    if h != "" {
      forall q: nat ensures MentionedAt(body, h, q) <==> q <= |body| && FreeStanding(body, h, q) {
        if 0 < q <= |body| { HandleChar(body[q - 1]); }
        if q + |h| < |body| { HandleChar(body[q + |h|]); }
      }
      ContainsMeaning(body, h);
    }
  }

  /* ----- the four patterns, where they match ----- */

  predicate EndsFree(s: string, e: nat) { e >= |s| || !IsPrefixWord(s[e]) }

  predicate StartsFree(s: string, q: nat)
    requires q <= |s|
  {
    q == 0 || !IsPrefixWord(s[q - 1])
  }

  /** A captured handle is a mention where it stands exactly when neither neighbour could belong to it. */
  lemma SpanIsMentioned(s: string, m: Span)
    requires m.start < m.end <= |s|
    ensures FreeStanding(s, Lower(s[m.start..m.end]), m.start) <==> StartsFree(s, m.start) && EndsFree(s, m.end)
  {
    hide Lower, IsPrefixWord;
    LowerIdempotent(s[m.start..m.end]);
  }

  lemma NoWords()
    ensures !IsPrefixWord('@') && !IsPrefixWord('/') && !IsPrefixWord(':') && !IsPrefixWord('*')
    ensures IsPrefixWord('-') && !IsPrefixWord('|') && !IsPrefixWord('`') && !IsPrefixWord('\n')
    ensures forall c :: IsSpace(c) ==> !IsPrefixWord(c)
  {
  }

  /** A handle extracted after an @ is also mentioned there, exactly when the text does not go on with an
      underscore or, after 39 characters, with the rest of a longer name. */
  lemma ExtractedIsMentioned(s: string, p: nat)
    requires AtMatch(s, p).Some?
    ensures var m := AtMatch(s, p).value;
      FreeStanding(s, Lower(s[m.start..m.end]), m.start) <==> EndsFree(s, m.end)
  {
    hide Lower, Run, IsPrefixWord;
    var m := AtMatch(s, p).value;
    SpanIsMentioned(s, m);
    assert s[m.start - 1] == '@';
    NoWords();
  }

  /** The same for an address of the host. */
  lemma UrlIsMentioned(s: string, p: nat)
    requires UrlMatch(s, p).Some?
    ensures var m := UrlMatch(s, p).value;
      FreeStanding(s, Lower(s[m.start..m.end]), m.start) <==> EndsFree(s, m.end)
  {
    hide Run, IsPrefixWord;
    var m := UrlMatch(s, p).value;
    SpanIsMentioned(s, m);
    var host := s[p..p + |HOST|];
    assert LowerChar(host[|HOST| - 1]) == Lower(host)[|HOST| - 1] == '/';
    assert s[m.start - 1] == '/';
    NoWords();
  }

  lemma {:induction false} BlanksBefore(s: string, p: nat)
    requires 0 < p <= |s|
    ensures var q := SkipBlanks(s, p); q <= |s| && (q == p || IsSpace(s[q - 1]))
    decreases |s| - p
  {
    if p < |s| && IsBlank(s[p]) {
      BlanksBefore(s, p + 1);
    }
  }

  /** The same for the value of a key. */
  lemma KeyIsMentioned(line: string)
    requires KeySpan(line).Some?
    ensures var m := KeySpan(line).value;
      FreeStanding(line, Lower(line[m.start..m.end]), m.start) <==> EndsFree(line, m.end)
  {
    hide Lower, IsPrefixWord, SkipBlanks, Bounded, Run, IsAlnum;
    var m := KeySpan(line).value;
    SpanIsMentioned(line, m);
    var q := SkipBlanks(line, SkipBlanks(line, 0) + |KEY|);
    BlanksBefore(line, q + 1);
    NoWords();
  }

  /** A list item must also be set off from its dash. */
  lemma ItemIsMentioned(line: string)
    requires ListSpan(line).Some?
    ensures var m := ListSpan(line).value;
      FreeStanding(line, Lower(line[m.start..m.end]), m.start) <==> line[m.start - 1] != '-' && EndsFree(line, m.end)
  {
    hide Lower, IsPrefixWord, SkipBlanks, Bounded, Run, IsAlnum;
    var m := ListSpan(line).value;
    SpanIsMentioned(line, m);
    BlanksBefore(line, SkipBlanks(line, 0) + 1);
    NoWords();
  }

  /* ----- tables ----- */

  /** The text stands in s with nothing of a handle next to it. */
  predicate StandsAt(s: string, t: string, q: nat) {
    q + |t| <= |s| && s[q..q + |t|] == t && StartsFree(s, q) && EndsFree(s, q + |t|)
  }

  ghost predicate Stands(s: string, t: string) { exists q: nat :: StandsAt(s, t, q) }

  /** Text that may be cut off without touching a handle. */
  predicate CutsBefore(a: string) { a == "" || !IsPrefixWord(a[|a| - 1]) }

  predicate CutsAfter(b: string) { b == "" || !IsPrefixWord(b[0]) }

  lemma StandsInside(a: string, u: string, b: string, t: string)
    requires Stands(u, t) && CutsBefore(a) && CutsAfter(b)
    ensures Stands(a + u + b, t)
  {
    hide IsPrefixWord;
    var q: nat :| StandsAt(u, t, q);
    var s := a + u + b;
    assert s[|a| + q..|a| + q + |t|] == u[q..q + |t|];
    if q > 0 {
      assert s[|a| + q - 1] == u[q - 1];
    }
    if q + |t| < |u| {
      assert s[|a| + q + |t|] == u[q + |t|];
    }
    assert StandsAt(s, t, |a| + q);
  }

  lemma StandsBehind(s: string, t: string)
    requires s != "" && Stands(s[1..], t) && !IsPrefixWord(s[0])
    ensures Stands(s, t)
  {
    hide Stands;
    StandsInside(s[..1], s[1..], "", t);
    assert s == s[..1] + s[1..] + "";
  }

  lemma StandsAhead(s: string, t: string)
    requires s != "" && Stands(s[..|s| - 1], t) && !IsPrefixWord(s[|s| - 1])
    ensures Stands(s, t)
  {
    hide Stands;
    var n := |s| - 1;
    StandsInside("", s[..n], s[n..], t);
    assert s == "" + s[..n] + s[n..];
  }

  lemma WholeStands(t: string)
    ensures Stands(t, t)
  {
    assert StandsAt(t, t, 0);
  }

  lemma {:induction false} StandsBeforeTrimLeft(s: string, t: string)
    requires Stands(TrimLeft(s), t)
    ensures Stands(s, t)
  {
    if s != "" && IsSpace(s[0]) {
      hide Stands, IsSpace, IsPrefixWord;
      StandsBeforeTrimLeft(s[1..], t);
      NoWords();
      StandsBehind(s, t);
    }
  }

  lemma {:induction false} StandsBeforeTrimRight(s: string, t: string)
    requires Stands(TrimRight(s), t)
    ensures Stands(s, t)
  {
    if s != "" && IsSpace(s[|s| - 1]) {
      hide Stands, IsSpace, IsPrefixWord;
      StandsBeforeTrimRight(s[..|s| - 1], t);
      NoWords();
      StandsAhead(s, t);
    }
  }

  lemma StandsBeforeTrim(s: string, t: string)
    requires Stands(Trim(s), t)
    ensures Stands(s, t)
  {
    hide Stands, TrimLeft, TrimRight;
    StandsBeforeTrimRight(TrimLeft(s), t);
    StandsBeforeTrimLeft(s, t);
  }

  lemma StandsBeforePrefix(s: string, c: char, t: string)
    requires Stands(TrimPrefix(s, c), t) && !IsPrefixWord(c)
    ensures Stands(s, t)
  {
    hide Stands;
    if s != "" && s[0] == c {
      StandsBehind(s, t);
    }
  }

  lemma StandsBeforeSuffix(s: string, c: char, t: string)
    requires Stands(TrimSuffix(s, c), t) && !IsPrefixWord(c)
    ensures Stands(s, t)
  {
    hide Stands;
    if s != "" && s[|s| - 1] == c {
      StandsAhead(s, t);
    }
  }

  lemma {:induction false} StandsBeforeTrimChar(s: string, c: char, t: string)
    requires Stands(TrimChar(s, c), t) && !IsPrefixWord(c)
    ensures Stands(s, t)
    decreases |s|
  {
    hide Stands, IsPrefixWord;
    if s != "" && s[0] == c {
      StandsBeforeTrimChar(s[1..], c, t);
      StandsBehind(s, t);
    } else if s != "" && s[|s| - 1] == c {
      StandsBeforeTrimChar(s[..|s| - 1], c, t);
      StandsAhead(s, t);
    }
  }

  lemma {:induction false} StandsBeforeSplit(s: string, c: char, k: nat, t: string)
    requires k < |Split(s, c)| && Stands(Split(s, c)[k], t) && !IsPrefixWord(c)
    ensures Stands(s, t)
    decreases |s|
  {
    hide Stands, IsPrefixWord, IndexOf;
    var i := IndexOf(s, c);
    if i < |s| {
      var rest := s[i + 1..];
      assert Split(s, c) == [s[..i]] + Split(rest, c);
      if k == 0 {
        StandsInside("", s[..i], s[i..], t);
        assert s == "" + s[..i] + s[i..];
      } else {
        StandsBeforeSplit(rest, c, k - 1, t);
        StandsInside(s[..i + 1], rest, "", t);
        assert s == s[..i + 1] + rest + "";
      }
    }
  }

  /** The cell as it stands in its line. */
  lemma CellStands(line: string, col: nat) returns (cell: string)
    requires CellHandle(ParseRow(line), col).Some?
    ensures Stands(line, cell) && CellHandle(ParseRow(line), col) == Some(Lower(cell)) && cell != ""
  {
    var row := ParseRow(line);
    hide Stands, Trim, TrimChar, TrimPrefix, TrimSuffix, Split, Lower;
    NoWords();
    hide IsPrefixWord;
    var inner := TrimSuffix(TrimPrefix(Trim(line), '|'), '|');
    var part := Split(inner, '|')[col];
    assert row[col] == Trim(part);
    var ticked := TrimChar(Trim(row[col]), '`');
    cell := TrimPrefix(ticked, '@');
    WholeStands(cell);
    StandsBeforePrefix(ticked, '@', cell);
    StandsBeforeTrimChar(Trim(row[col]), '`', cell);
    StandsBeforeTrim(row[col], cell);
    StandsBeforeTrim(part, cell);
    StandsBeforeSplit(inner, '|', col, cell);
    StandsBeforeSuffix(TrimPrefix(Trim(line), '|'), '|', cell);
    StandsBeforePrefix(Trim(line), '|', cell);
    StandsBeforeTrim(line, cell);
    ValidIsNotEmpty(cell);
  }

  lemma ValidIsNotEmpty(cell: string)
    ensures IsValidHandle(cell) ==> cell != ""
  {
    assert Trim("") == "" && Lower("") == "";
  }

  lemma StandingIsMentioned(body: string, t: string)
    requires Stands(body, t) && t != ""
    ensures Contains(body, Lower(t)) == Some(true)
  {
    hide IsPrefixWord;
    var q: nat :| StandsAt(body, t, q);
    SpanIsMentioned(body, Span(q, q + |t|));
    assert FreeStanding(body, Lower(t), q);
    assert Lower(t) != "";
    ContainsMeaning(body, Lower(t));
  }

  /** A mention in a line is a mention in the file, since nothing of a handle ends or starts a line break. */
  lemma LineMentionCounts(body: string, k: nat, h: string, q: nat)
    requires k < |Split(body, '\n')| && h != "" && Lower(h) == h
    requires q <= |Split(body, '\n')[k]| && FreeStanding(Split(body, '\n')[k], h, q)
    ensures Contains(body, h) == Some(true)
  {
    hide Split, Lower, IsPrefixWord, Contains;
    var line := Split(body, '\n')[k];
    var t := line[q..q + |h|];
    assert StandsAt(line, t, q);
    hide StandsAt;
    NoWords();
    StandsBeforeSplit(body, '\n', k, t);
    StandingIsMentioned(body, t);
  }

  /** The tables never disagree: every handle they yield is mentioned in the file. */
  lemma TableHandleIsMentioned(body: string, h: string)
    requires TableHandle(Split(body, '\n'), h)
    ensures Contains(body, h) == Some(true)
  {
    hide Stands, Split, ParseRow, CellHandle, GitHubColumn, IsSeparatorRow, Contains;
    var lines := Split(body, '\n');
    var p: nat, r: nat :| Yields(lines, p, r, h);
    var cell := CellStands(lines[r], GitHubColumn(ParseRow(lines[p])));
    NoWords();
    StandsBeforeSplit(body, '\n', r, cell);
    StandingIsMentioned(body, cell);
  }

  /* ----- where the two readings differ ----- */

  lemma OnlyMention(s: string, q: nat)
    requires q < |s| && LowerChar(s[q]) == 'a' && forall k :: 0 <= k < |s| && k != q ==> LowerChar(s[k]) != 'a'
    ensures Contains(s, "a") == Some(FreeStanding(s, "a", q))
  {
    hide IsPrefixWord, Contains;
    assert Lower("a") == "a";
    forall k: nat | k <= |s| && k != q ensures !FreeStanding(s, "a", k) {
      if k < |s| {
        assert Lower(s[k..k + 1])[0] == LowerChar(s[k]);
      }
    }
    ContainsMeaning(s, "a");
    ContainsAnswers(s);
    assert FreeStanding(s, "a", q) <==> exists k: nat :: k <= |s| && FreeStanding(s, "a", k);
    assert Contains(s, "a").value == FreeStanding(s, "a", q);
  }

  lemma ContainsAnswers(s: string)
    ensures Contains(s, "a").Some?
  {
  }

  /** All four patterns can disagree with the mention: each of these texts yields "a" and does not
      mention it. */
  lemma ExtractedButNotMentioned()
    ensures AtHandles("@a_", 0) == ["a"] && Contains("@a_", "a") == Some(false)
    ensures UrlHandles("github.com/a_", 0) == ["a"] && Contains("github.com/a_", "a") == Some(false)
    ensures ListItem("-a") == Some("a") && Contains("-a", "a") == Some(false)
    ensures KeyValue("github:a-") == Some("a") && Contains("github:a-", "a") == Some(false)
  {
    AtDiffers();
    UrlDiffers();
    ItemDiffers();
    KeyDiffers();
  }

  lemma AtDiffers()
    ensures AtHandles("@a_", 0) == ["a"] && Contains("@a_", "a") == Some(false)
  {
    hide Contains;
    var s := "@a_";
    assert Run(s, 1, MAX_HANDLE) == 1 by {
      assert Run(s, 2, MAX_HANDLE - 1) == 0;
    }
    assert AtMatch(s, 0) == Some(Span(1, 2));
    assert Lower(s[1..2]) == "a";
    assert AtMatch(s, 2).None?;
    assert AtHandles(s, 3) == [];
    OnlyMention(s, 1);
  }

  lemma UrlDiffers()
    ensures UrlHandles("github.com/a_", 0) == ["a"] && Contains("github.com/a_", "a") == Some(false)
  {
    hide Contains;
    var s := "github.com/a_";
    assert s[0..11] == HOST && Lower(HOST) == HOST;
    assert Run(s, 11, MAX_HANDLE) == 1 by {
      assert Run(s, 12, MAX_HANDLE - 1) == 0;
    }
    assert UrlMatch(s, 0) == Some(Span(11, 12));
    assert s[11..12] == "a" && Lower("a") == "a";
    assert UrlMatch(s, 12).None? && UrlHandles(s, 13) == [];
    assert UrlHandles(s, 12) == [];
    OnlyMention(s, 11);
  }

  lemma ItemDiffers()
    ensures ListItem("-a") == Some("a") && Contains("-a", "a") == Some(false)
  {
    hide Contains;
    var s := "-a";
    assert SkipBlanks(s, 0) == 0 && SkipBlanks(s, 1) == 1;
    assert Run(s, 1, MAX_HANDLE) == 1 by {
      assert Run(s, 2, MAX_HANDLE - 1) == 0;
    }
    assert Boundary(s, 2) && Bounded(s, 1, 1) == 1;
    assert s[1..2] == "a" && Lower("a") == "a";
    OnlyMention(s, 1);
  }

  lemma KeyDiffers()
    ensures KeyValue("github:a-") == Some("a") && Contains("github:a-", "a") == Some(false)
  {
    hide Contains, Bounded, Run, SkipBlanks;
    var s := "github:a-";
    assert SkipBlanks(s, 0) == 0 by { NoBlanks(s, 0); }
    assert SkipBlanks(s, 6) == 6 by { NoBlanks(s, 6); }
    assert SkipBlanks(s, 7) == 7 by { NoBlanks(s, 7); }
    assert s[0..6] == KEY && Lower(KEY) == KEY;
    KeyCapture();
    assert NameSpan(s, 7) == Some(Span(7, 8));
    assert s[7..8] == "a" && Lower("a") == "a";
    OnlyMention(s, 7);
  }

  lemma NoBlanks(s: string, p: nat)
    requires p < |s| && !IsBlank(s[p])
    ensures SkipBlanks(s, p) == p
  {
  }

  /** The dash is captured first and given back, since no word ends behind it. */
  lemma KeyCapture()
    ensures Bounded("github:a-", 7, Run("github:a-", 7, MAX_HANDLE)) == 1
  {
    var s := "github:a-";
    assert Run(s, 7, MAX_HANDLE) == 2 by {
      assert Run(s, 9, MAX_HANDLE - 2) == 0;
      assert Run(s, 8, MAX_HANDLE - 1) == 1;
    }
    hide Run;
    assert !Boundary(s, 9) && Boundary(s, 8);
    assert Bounded(s, 7, 1) == 1;
  }
}
