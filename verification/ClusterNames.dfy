/** Object names derived from database text. */
module ClusterNames {
  import opened Text

  predicate IsAlphanumeric(c: char) { 'a' <= c <= 'z' || '0' <= c <= '9' }
  predicate IsNameChar(c: char) { IsAlphanumeric(c) || c == '-' || c == '.' }
  predicate IsEdge(c: char) { c == '-' || c == '.' }

  ghost predicate InAlphabet(s: string) {
    forall i :: 0 <= i < |s| ==> IsNameChar(s[i])
  }

  /** Each maximal run of other characters becomes one dash. */
  function ReplaceRuns(s: string): (r: string)
    ensures InAlphabet(r)
    decreases |s|
  {
    if s == "" then ""
    else if IsNameChar(s[0]) then [s[0]] + ReplaceRuns(s[1..])
    else ['-'] + ReplaceRuns(SkipRun(s))
  }

  function SkipRun(s: string): (r: string)
    ensures |r| <= |s| && (s != "" && !IsNameChar(s[0]) ==> |r| < |s|)
    ensures r != "" ==> IsNameChar(r[0])
  {
    if s == "" || IsNameChar(s[0]) then s else SkipRun(s[1..])
  }

  function TrimEdgesLeft(s: string): (r: string)
    ensures |r| <= |s| && r == s[|s| - |r|..] && (r != "" ==> !IsEdge(r[0]))
    ensures s != "" && !IsEdge(s[0]) ==> r == s
  {
    if s != "" && IsEdge(s[0]) then TrimEdgesLeft(s[1..]) else s
  }

  function TrimEdgesRight(s: string): (r: string)
    ensures |r| <= |s| && r == s[..|r|] && (r != "" ==> !IsEdge(r[|r| - 1]))
    ensures s != "" && !IsEdge(s[0]) ==> r != ""
    ensures s != "" && !IsEdge(s[|s| - 1]) ==> r == s
  {
    if s != "" && IsEdge(s[|s| - 1]) then TrimEdgesRight(s[..|s| - 1]) else s
  }

  function TrimEdges(s: string): string { TrimEdgesRight(TrimEdgesLeft(s)) }

  /** The name before its length is looked at. */
  function Cleaned(s: string): string { TrimEdges(ReplaceRuns(Lower(Trim(s)))) }

  function SanitizeName(s: string): string {
    if s == "" then "unnamed"
    else
      var t := Cleaned(s);
      if t == "" then "unnamed"
      else
        var cut := if |t| > 63 then TrimEdges(t[..63]) else t;
        if cut == "" then "unnamed" else cut
  }

  ghost predicate Trimmed(s: string) {
    InAlphabet(s) && (s != "" ==> IsAlphanumeric(s[0]) && IsAlphanumeric(s[|s| - 1]))
  }

  /** A name the sanitizer has nothing to change in: the alphabet and ends section 2.1 of RFC 1123
      asks of one label, with dots let in, and at most 63 characters. */
  ghost predicate IsName(s: string) {
    0 < |s| <= 63 && Trimmed(s)
  }

  lemma NotAnEdge(c: char)
    requires IsNameChar(c) && !IsEdge(c)
    ensures IsAlphanumeric(c)
  {
  }

  lemma Alphanumeric(c: char)
    requires IsAlphanumeric(c)
    ensures !IsEdge(c)
  {
  }

  lemma TrimEdgesShape(s: string)
    requires InAlphabet(s)
    ensures Trimmed(TrimEdges(s))
    ensures |TrimEdges(s)| <= |s|
    ensures s != "" && !IsEdge(s[0]) ==> TrimEdges(s) != ""
    ensures Trimmed(s) ==> TrimEdges(s) == s
  {
    hide TrimEdgesLeft, TrimEdgesRight, IsNameChar, IsEdge, IsAlphanumeric;
    var left := TrimEdgesLeft(s);
    var t := TrimEdgesRight(left);
    assert forall i :: 0 <= i < |left| ==> left[i] == s[|s| - |left| + i];
    assert InAlphabet(left);
    assert InAlphabet(t);
    if t != "" {
      assert IsNameChar(t[0]) && IsNameChar(t[|t| - 1]);
      assert t[0] == left[0];
      NotAnEdge(t[0]);
      NotAnEdge(t[|t| - 1]);
    }
    if s != "" && Trimmed(s) {
      Alphanumeric(s[0]);
      Alphanumeric(s[|s| - 1]);
    }
  }

  lemma CleanedShape(s: string)
    ensures Trimmed(Cleaned(s))
  {
    hide TrimEdges, Trimmed, ReplaceRuns, Lower, Trim;
    TrimEdgesShape(ReplaceRuns(Lower(Trim(s))));
  }

  /** Cutting a clean name to 63 characters never empties it, so the last guard cannot fire. */
  lemma CutIsNeverEmpty(s: string)
    requires |Cleaned(s)| > 63
    ensures TrimEdges(Cleaned(s)[..63]) != ""
  {
    hide TrimEdges, Cleaned;
    CleanedShape(s);
    TrimEdgesShape(Cleaned(s)[..63]);
  }

  lemma NameShape(s: string)
    ensures IsName(SanitizeName(s))
  {
    hide TrimEdges, Cleaned;
    CleanedShape(s);
    if |Cleaned(s)| > 63 {
      CutIsNeverEmpty(s);
      TrimEdgesShape(Cleaned(s)[..63]);
    }
    assert Trimmed("unnamed");
  }

  lemma {:induction false} NothingToReplace(s: string)
    requires InAlphabet(s)
    ensures ReplaceRuns(s) == s
  {
    if s != "" {
      NothingToReplace(s[1..]);
      assert s == [s[0]] + s[1..];
    }
  }

  lemma NothingToLower(s: string)
    requires InAlphabet(s)
    ensures Lower(s) == s
  {
    forall i | 0 <= i < |s| ensures Lower(s)[i] == s[i] {
      assert IsNameChar(s[i]);
    }
  }

  /** The sanitizer changes everything but the names, and every result is a name: so it is
      idempotent, its fixed points are the names, and its results are the names. A value that is
      not a name therefore always collides with another one, its own sanitized form. */
  lemma NamesAreFixedPoints(s: string)
    ensures SanitizeName(s) == s <==> IsName(s)
    ensures IsName(SanitizeName(s)) && SanitizeName(SanitizeName(s)) == SanitizeName(s)
  {
    NameShape(s);
    NameShapeFixed(SanitizeName(s));
    if IsName(s) {
      NameShapeFixed(s);
    }
  }

  lemma NameShapeFixed(s: string)
    requires IsName(s)
    ensures SanitizeName(s) == s
  {
    hide TrimEdges, Trim, ReplaceRuns, Lower;
    assert Trim(s) == s;
    NothingToLower(s);
    NothingToReplace(s);
    TrimEdgesShape(s);
  }

  /* ----- what a name is made of ----- */

  function Weave(parts: seq<string>, gaps: seq<string>): string
    requires |parts| == |gaps| + 1
  {
    if gaps == [] then parts[0] else parts[0] + gaps[0] + Weave(parts[1..], gaps[1..])
  }

  predicate Kept(c: char) { 'a' <= c <= 'z' || '0' <= c <= '9' || c == '-' || c == '.' }

  predicate AllKept(s: string) { forall i :: 0 <= i < |s| ==> Kept(s[i]) }

  predicate NoneKept(s: string) { forall i :: 0 <= i < |s| ==> !Kept(s[i]) }

  /** Kept characters and gaps in turn; only the outer parts may be empty. */
  predicate Alternates(parts: seq<string>, gaps: seq<string>) {
    && |parts| == |gaps| + 1
    && (forall k :: 0 <= k < |parts| ==> AllKept(parts[k]))
    && (forall k :: 0 < k < |gaps| ==> parts[k] != "")
    && (forall k :: 0 <= k < |gaps| ==> gaps[k] != "" && NoneKept(gaps[k]))
  }

  lemma {:induction false} RunIsSkipped(s: string)
    ensures var n := |s| - |SkipRun(s)|; n >= 0 && s == s[..n] + SkipRun(s) && NoneKept(s[..n])
  {
    if s != "" && !IsNameChar(s[0]) {
      RunIsSkipped(s[1..]);
      var n := |s| - |SkipRun(s)|;
      assert s[..n] == [s[0]] + s[1..][..n - 1];
    }
  }

  ghost predicate Dashed(s: string, parts: seq<string>, gaps: seq<string>) {
    && Alternates(parts, gaps) && s == Weave(parts, gaps) && ReplaceRuns(s) == Join(parts, '-')
    && (s != "" && Kept(s[0]) ==> parts[0] != "")
  }

  /** Each gap becomes one dash, and nothing else changes. */
  lemma {:induction false} RunsBecomeDashes(s: string) returns (parts: seq<string>, gaps: seq<string>)
    ensures Dashed(s, parts, gaps)
    decreases |s|
  {
    hide Dashed;
    if s == "" {
      parts, gaps := [""], [];
      assert Dashed(s, parts, gaps) by { NothingDashed(); }
    } else if IsNameChar(s[0]) {
      parts, gaps := RunsBecomeDashes(s[1..]);
      KeptMore(s, parts, gaps);
      parts := [[s[0]] + parts[0]] + parts[1..];
    } else {
      parts, gaps := RunsBecomeDashes(SkipRun(s));
      GapMore(s, parts, gaps);
      parts, gaps := [""] + parts, [s[..|s| - |SkipRun(s)|]] + gaps;
    }
  }

  lemma NothingDashed()
    ensures Dashed("", [""], [])
  {
  }

  lemma KeptMore(s: string, parts: seq<string>, gaps: seq<string>)
    requires s != "" && IsNameChar(s[0]) && Dashed(s[1..], parts, gaps)
    ensures |parts| > 0 && Dashed(s, [[s[0]] + parts[0]] + parts[1..], gaps)
  {
    hide Weave, Join;
    var more := [[s[0]] + parts[0]] + parts[1..];
    assert forall k :: 0 < k < |parts| ==> more[k] == parts[k];
    WeaveMore(s[0], parts, gaps);
    assert s == [s[0]] + s[1..];
  }

  lemma WeaveMore(c: char, parts: seq<string>, gaps: seq<string>)
    requires |parts| == |gaps| + 1
    ensures var more := [[c] + parts[0]] + parts[1..];
            Weave(more, gaps) == [c] + Weave(parts, gaps) && Join(more, '-') == [c] + Join(parts, '-')
  {
    var more := [[c] + parts[0]] + parts[1..];
    assert more[1..] == parts[1..];
  }

  lemma GapMore(s: string, parts: seq<string>, gaps: seq<string>)
    requires s != "" && !IsNameChar(s[0]) && Dashed(SkipRun(s), parts, gaps)
    ensures |s| > |SkipRun(s)| && Dashed(s, [""] + parts, [s[..|s| - |SkipRun(s)|]] + gaps)
  {
    hide Weave, Join;
    var tail := SkipRun(s);
    var gap := s[..|s| - |tail|];
    RunIsSkipped(s);
    if tail == "" {
      NoGaps(parts, gaps);
    }
    WeaveGap(gap, parts, gaps);
    JoinParts("", parts, '-');
    var more, between := [""] + parts, [gap] + gaps;
    assert forall k :: 0 < k < |more| ==> more[k] == parts[k - 1];
    assert forall k :: 0 < k < |between| ==> between[k] == gaps[k - 1];
    assert "" + ['-'] + Join(parts, '-') == ['-'] + Join(parts, '-');
  }

  lemma WeaveGap(gap: string, parts: seq<string>, gaps: seq<string>)
    requires |parts| == |gaps| + 1
    ensures Weave([""] + parts, [gap] + gaps) == gap + Weave(parts, gaps)
  {
    var more, between := [""] + parts, [gap] + gaps;
    assert more[1..] == parts && between[1..] == gaps && more[0] == "" && between[0] == gap;
    assert Weave(more, between) == "" + gap + Weave(parts, gaps);
    assert "" + gap == gap;
  }

  lemma NoGaps(parts: seq<string>, gaps: seq<string>)
    requires Alternates(parts, gaps) && Weave(parts, gaps) == ""
    ensures gaps == []
  {
    hide AllKept, NoneKept;
  }

  /* ----- and the ends ----- */

  predicate Edges(s: string) { forall i :: 0 <= i < |s| ==> s[i] == '-' || s[i] == '.' }

  lemma {:induction false} EdgesCutLeft(s: string)
    ensures Edges(s[..|s| - |TrimEdgesLeft(s)|])
  {
    if s != "" && IsEdge(s[0]) {
      EdgesCutLeft(s[1..]);
      var n := |s| - |TrimEdgesLeft(s)|;
      assert s[..n] == [s[0]] + s[1..][..n - 1];
    }
  }

  lemma {:induction false} EdgesCutRight(s: string)
    ensures Edges(s[|TrimEdgesRight(s)|..])
  {
    if s != "" && IsEdge(s[|s| - 1]) {
      var k := |s| - 1;
      EdgesCutRight(s[..k]);
      assert s[|TrimEdgesRight(s)|..] == s[..k][|TrimEdgesRight(s)|..] + [s[k]];
    }
  }

  /** Only dashes and dots are cut from the ends. */
  lemma EdgesAreCut(s: string) returns (a: string, b: string)
    ensures s == a + TrimEdges(s) + b && Edges(a) && Edges(b)
  {
    hide Edges;
    var left := TrimEdgesLeft(s);
    EdgesCutLeft(s);
    EdgesCutRight(left);
    a, b := s[..|s| - |left|], left[|TrimEdges(s)|..];
  }

  predicate NoEdges(t: string) { t == "" || !(t[0] == '-' || t[0] == '.' || t[|t| - 1] == '-' || t[|t| - 1] == '.') }

  /** How a name comes about: the text in small letters without outer spaces, a dash for each gap, and t is
      that without the dashes and dots at its ends. The name is t; or "unnamed" if t is empty; or, if t is
      too long, its first 63 characters without those at their end. */
  lemma SanitizeMeaning(s: string)
    returns (parts: seq<string>, gaps: seq<string>, a: string, t: string, b: string, c: string)
    ensures Alternates(parts, gaps) && Lower(Trim(s)) == Weave(parts, gaps)
    ensures Join(parts, '-') == a + t + b && Edges(a) && NoEdges(t) && Edges(b)
    ensures t == "" ==> SanitizeName(s) == "unnamed"
    ensures 0 < |t| <= 63 ==> SanitizeName(s) == t
    ensures |t| > 63 ==> t[..63] == SanitizeName(s) + c && Edges(c) && NoEdges(SanitizeName(s))
  {
    hide ReplaceRuns, TrimEdges, Weave, Join, Lower, Trim;
    c := "";
    parts, gaps := RunsBecomeDashes(Lower(Trim(s)));
    a, b := EdgesAreCut(Join(parts, '-'));
    t := Cleaned(s);
    CleanedShape(s);
    assert s == "" ==> t == "" by { NothingCleaned(); }
    NameShape(s);
    if |t| > 63 {
      var front;
      front, c := EdgesAreCut(t[..63]);
      CutIsNeverEmpty(s);
      NoEdgeInFront(front, SanitizeName(s) + c, t[0]);
      assert front + SanitizeName(s) + c == front + (SanitizeName(s) + c);
    }
  }

  lemma NoEdgeInFront(front: string, rest: string, first: char)
    requires Edges(front) && front + rest != "" && (front + rest)[0] == first && first != '-' && first != '.'
    ensures front == ""
  {
  }

  lemma NothingCleaned()
    ensures Cleaned("") == ""
  {
    assert Trim("") == "" && Lower("") == "";
  }
}
