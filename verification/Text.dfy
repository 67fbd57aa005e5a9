/** Options and the few string operations the models share, over ASCII. */
module Options {
  datatype Option<+T> = None | Some(value: T)
}

module Text {

  function LowerChar(c: char): char {
    if 'A' <= c <= 'Z' then (c as int + 32) as char else c
  }

  /** `strings.ToLower` on ASCII text. */
  function Lower(s: string): (r: string)
    ensures |r| == |s|
    ensures forall i :: 0 <= i < |s| ==> r[i] == LowerChar(s[i])
  {
    seq(|s|, i requires 0 <= i < |s| => LowerChar(s[i]))
  }

  const UPPERS := "ABCDEFGHIJKLMNOPQRSTUVWXYZ"
  const LOWERS := "abcdefghijklmnopqrstuvwxyz"

  /** The 26 capitals go to their small letters and every other character stays. */
  lemma LowerCharMeaning(c: char)
    ensures forall i :: 0 <= i < 26 ==> LowerChar(UPPERS[i]) == LOWERS[i]
    ensures c !in UPPERS ==> LowerChar(c) == c
  {
    if 'A' <= c <= 'Z' {
      assert UPPERS[c as int - 65] == c;
    }
  }

  lemma LowerIdempotent(s: string)
    ensures Lower(Lower(s)) == Lower(s)
  {
    assert forall i :: 0 <= i < |s| ==> Lower(Lower(s))[i] == Lower(s)[i];
  }

  ghost predicate NoRepeats(xs: seq<string>) {
    forall i, j :: 0 <= i < j < |xs| ==> xs[i] != xs[j]
  }

  /** The addresses of a list, with letter case ignored. */
  function Folded(xs: seq<string>): set<string> {
    set x | x in xs :: Lower(x)
  }

  lemma FoldedAppend(xs: seq<string>, x: string)
    ensures Folded(xs + [x]) == Folded(xs) + {Lower(x)}
  {
    forall k | k in Folded(xs) + {Lower(x)} ensures k in Folded(xs + [x]) {
      if k == Lower(x) {
        assert (xs + [x])[|xs|] == x;
      } else {
        var y :| y in xs && Lower(y) == k;
        assert y in xs + [x];
      }
    }
  }

  /** No two addresses of the list differ only in letter case. */
  ghost predicate DistinctFold(xs: seq<string>) {
    forall i, j :: 0 <= i < j < |xs| ==> Lower(xs[i]) != Lower(xs[j])
  }

  lemma DistinctFoldAppend(xs: seq<string>, x: string)
    requires DistinctFold(xs) && Lower(x) !in Folded(xs)
    ensures DistinctFold(xs + [x])
  {
  }

  /** The list without every spelling of one address. */
  function Without(xs: seq<string>, x: string): (r: seq<string>)
    ensures forall y :: y in r <==> y in xs && Lower(y) != Lower(x)
    ensures Folded(r) == Folded(xs) - {Lower(x)}
    ensures DistinctFold(xs) ==> DistinctFold(r)
  {
    if xs == [] then []
    else
      var rest := Without(xs[1..], x);
      assert xs == [xs[0]] + xs[1..];
      assert DistinctFold(xs) ==> DistinctFold(xs[1..]) && Lower(xs[0]) !in Folded(xs[1..]);
      if Lower(xs[0]) == Lower(x) then rest else [xs[0]] + rest
  }

  /* ----- trimming and splitting ----- */

  /** The ASCII characters `strings.TrimSpace` removes. */
  predicate IsSpace(c: char) { c == ' ' || 9 <= c as int <= 13 }

  function TrimLeft(s: string): (r: string)
    ensures |r| <= |s| && r == s[|s| - |r|..]
    ensures r != "" ==> !IsSpace(r[0])
  {
    if s != "" && IsSpace(s[0]) then TrimLeft(s[1..]) else s
  }

  function TrimRight(s: string): (r: string)
    ensures |r| <= |s| && r == s[..|r|]
    ensures r != "" ==> !IsSpace(r[|r| - 1])
  {
    if s != "" && IsSpace(s[|s| - 1]) then TrimRight(s[..|s| - 1]) else s
  }

  /** `strings.TrimSpace`. */
  function Trim(s: string): (r: string)
    ensures r != "" ==> !IsSpace(r[0]) && !IsSpace(r[|r| - 1])
    ensures (s == "" || (!IsSpace(s[0]) && !IsSpace(s[|s| - 1]))) ==> r == s
  {
    TrimRight(TrimLeft(s))
  }

  /** Nothing but spaces, tabs, line and page breaks. */
  predicate Spaces(s: string) {
    forall i :: 0 <= i < |s| ==> s[i] in {' ', '\t', '\n', '\U{B}', '\U{C}', '\r'}
  }

  /** No such character at either end. */
  predicate Tight(s: string) {
    s == "" || (!Spaces(s[..1]) && !Spaces(s[|s| - 1..]))
  }

  lemma SpaceIs(c: char)
    ensures IsSpace(c) <==> Spaces([c])
  {
    assert Spaces([c]) <==> [c][0] in {' ', '\t', '\n', '\U{B}', '\U{C}', '\r'};
  }

  lemma {:induction false} TrimLeftSplits(s: string)
    ensures Spaces(s[..|s| - |TrimLeft(s)|])
  {
    if s != "" && IsSpace(s[0]) {
      TrimLeftSplits(s[1..]);
      SpaceIs(s[0]);
      var n := |s| - |TrimLeft(s)|;
      assert s[..n] == [s[0]] + s[1..][..n - 1];
    }
  }

  lemma {:induction false} TrimRightSplits(s: string)
    ensures Spaces(s[|TrimRight(s)|..])
  {
    if s != "" && IsSpace(s[|s| - 1]) {
      var k := |s| - 1;
      TrimRightSplits(s[..k]);
      SpaceIs(s[k]);
      assert s[|TrimRight(s)|..] == s[..k][|TrimRight(s)|..] + [s[k]];
    }
  }

  /** Trimming cuts off spaces, and all of them. */
  lemma TrimSplits(s: string) returns (a: string, b: string)
    ensures s == a + Trim(s) + b && Spaces(a) && Spaces(b) && Tight(Trim(s))
  {
    hide Spaces;
    var left := TrimLeft(s);
    TrimLeftSplits(s);
    TrimRightSplits(left);
    a, b := s[..|s| - |left|], left[|Trim(s)|..];
    TrimIsTight(s);
  }

  lemma TrimIsTight(s: string)
    ensures Tight(Trim(s))
  {
    hide TrimLeft, TrimRight, IsSpace;
    var t := Trim(s);
    if t != "" {
      SpaceIs(t[0]);
      SpaceIs(t[|t| - 1]);
      assert t[..1] == [t[0]] && t[|t| - 1..] == [t[|t| - 1]];
    }
  }

  lemma {:induction false} TrimLeftOf(a: string, t: string)
    requires Spaces(a) && (t == "" || !IsSpace(t[0]))
    ensures TrimLeft(a + t) == t
  {
    hide Spaces, IsSpace;
    if a == "" {
      assert a + t == t;
    } else {
      SpacesEnds(a);
      TrimLeftOf(a[1..], t);
      var s := a + t;
      assert s[0] == a[0] && s[1..] == a[1..] + t;
    }
  }

  lemma SpacesEnds(a: string)
    requires Spaces(a) && a != ""
    ensures IsSpace(a[0]) && Spaces(a[1..]) && IsSpace(a[|a| - 1]) && Spaces(a[..|a| - 1])
  {
    hide IsSpace;
    SpaceIs(a[0]);
    SpaceIs(a[|a| - 1]);
    assert Spaces([a[0]]) && Spaces([a[|a| - 1]]);
  }

  lemma {:induction false} TrimRightOf(t: string, b: string)
    requires Spaces(b) && (t == "" || !IsSpace(t[|t| - 1]))
    ensures TrimRight(t + b) == t
  {
    hide Spaces, IsSpace;
    if b == "" {
      assert t + b == t;
    } else {
      var n := |b| - 1;
      SpacesEnds(b);
      TrimRightOf(t, b[..n]);
      var s := t + b;
      assert s[|s| - 1] == b[n] && s[..|s| - 1] == t + b[..n];
    }
  }

  /** The other way about: what is tight between spaces is what trimming leaves. */
  lemma TrimOf(a: string, t: string, b: string)
    requires Spaces(a) && Spaces(b) && Tight(t)
    ensures Trim(a + t + b) == t
  {
    hide TrimLeft, TrimRight, IsSpace, Spaces;
    if t == "" {
      SpacesJoin(a, b);
      TrimLeftOf(a + b, "");
      assert a + t + b == a + b + "";
      assert Trim("") == "";
    } else {
      SpaceIs(t[0]);
      SpaceIs(t[|t| - 1]);
      assert t[..1] == [t[0]] && t[|t| - 1..] == [t[|t| - 1]];
      TrimLeftOf(a, t + b);
      assert a + t + b == a + (t + b);
      TrimRightOf(t, b);
    }
  }

  lemma SpacesJoin(a: string, b: string)
    requires Spaces(a) && Spaces(b)
    ensures Spaces(a + b)
  {
  }

  /** The first position of c, or the length. */
  function IndexOf(s: string, c: char): (i: nat)
    ensures i <= |s| && (i < |s| ==> s[i] == c) && c !in s[..i]
  {
    if s == "" || s[0] == c then 0
    else
      var i := 1 + IndexOf(s[1..], c);
      assert s[..i] == [s[0]] + s[1..][..i - 1];
      i
  }

  /** `strings.Split` on one character: never empty, and the separators disappear. */
  function Split(s: string, c: char): (parts: seq<string>)
    ensures |parts| > 0
    decreases |s|
  {
    var i := IndexOf(s, c);
    if i == |s| then [s] else [s[..i]] + Split(s[i + 1..], c)
  }

  function Join(parts: seq<string>, c: char): string
    requires |parts| > 0
  {
    if |parts| == 1 then parts[0] else parts[0] + [c] + Join(parts[1..], c)
  }

  lemma JoinPart(part: string, c: char)
    ensures Join([part], c) == part
  {
  }

  lemma JoinParts(part: string, parts: seq<string>, c: char)
    requires |parts| > 0
    ensures Join([part] + parts, c) == part + [c] + Join(parts, c)
  {
    assert ([part] + parts)[1..] == parts;
  }

  /** Splitting loses nothing and leaves no separator inside a part. */
  lemma {:induction false} SplitJoin(s: string, c: char)
    ensures Join(Split(s, c), c) == s
    ensures forall k :: 0 <= k < |Split(s, c)| ==> c !in Split(s, c)[k]
    decreases |s|
  {
    hide IndexOf, Join;
    var i := IndexOf(s, c);
    if i == |s| {
      assert s[..i] == s;
      JoinPart(s, c);
    } else {
      SplitJoin(s[i + 1..], c);
      assert Split(s, c) == [s[..i]] + Split(s[i + 1..], c);
      JoinParts(s[..i], Split(s[i + 1..], c), c);
      assert s == s[..i] + [c] + s[i + 1..];
    }
  }

  /* ----- order ----- */

  /** Byte-wise string order. */
  predicate StringLess(a: string, b: string) {
    b != "" && (a == "" || a[0] < b[0] || (a[0] == b[0] && StringLess(a[1..], b[1..])))
  }

  lemma {:induction false} StringOrder(a: string, b: string, c: string)
    ensures !StringLess(a, a) && !(StringLess(a, b) && StringLess(b, a))
    ensures StringLess(a, b) && StringLess(b, c) ==> StringLess(a, c)
    ensures StringLess(a, b) || a == b || StringLess(b, a)
    decreases |a| + |b| + |c|
  {
    if a != "" && b != "" && c != "" {
      StringOrder(a[1..], b[1..], c[1..]);
    } else if a != "" && b != "" {
      StringOrder(a[1..], b[1..], c);
    } else if a != "" {
      StringOrder(a[1..], b, c);
    }
    if a != "" && b != "" && a[0] == b[0] && a[1..] == b[1..] {
      assert a == [a[0]] + a[1..] && b == [b[0]] + b[1..];
    }
  }

  /** It is the order of the first difference; a proper prefix comes before the longer text. */
  lemma {:induction false} StringLessMeaning(a: string, b: string)
    ensures StringLess(a, b) <==> exists k: nat :: DifferAt(a, b, k)
  {
    if a == "" || b == "" || a[0] != b[0] {
      assert (b != "" && (a == "" || a[0] < b[0])) ==> DifferAt(a, b, 0);
      forall k: nat | DifferAt(a, b, k) ensures k == 0 {
        DifferFirst(a, b, k);
      }
    } else {
      StringLessMeaning(a[1..], b[1..]);
      forall k: nat ensures DifferAt(a[1..], b[1..], k) <==> DifferAt(a, b, k + 1) {
        DifferLater(a, b, k);
      }
      forall k: nat | DifferAt(a, b, k) ensures k > 0 && DifferAt(a[1..], b[1..], k - 1) {
        assert DifferAt(a, b, (k - 1) + 1);
      }
      if k: nat :| DifferAt(a[1..], b[1..], k) {
        assert DifferAt(a, b, k + 1);
      }
    }
  }

  lemma DifferFirst(a: string, b: string, k: nat)
    requires a == "" || b == "" || a[0] != b[0]
    ensures DifferAt(a, b, k) ==> k == 0
  {
    if 0 < k <= |a| && k <= |b| {
      assert a[..k][0] == a[0] && b[..k][0] == b[0];
    }
  }

  lemma DifferLater(a: string, b: string, k: nat)
    requires a != "" && b != "" && a[0] == b[0]
    ensures DifferAt(a[1..], b[1..], k) <==> DifferAt(a, b, k + 1)
  {
    if k + 1 <= |a| && k + 1 <= |b| {
      assert a[..k + 1] == [a[0]] + a[1..][..k] && b[..k + 1] == [b[0]] + b[1..][..k];
      assert a[..k + 1] == b[..k + 1] ==> a[1..][..k] == a[..k + 1][1..] == b[..k + 1][1..];
    }
  }

  /** The texts agree up to k, and there the first one ends or has the smaller character. */
  predicate DifferAt(a: string, b: string, k: nat) {
    k <= |a| && k < |b| && a[..k] == b[..k] && (k == |a| || a[k] < b[k])
  }

  /** Strictly ascending: sorted and without repeats. */
  ghost predicate Ascending(xs: seq<string>) {
    forall i, j :: 0 <= i < j < |xs| ==> StringLess(xs[i], xs[j])
  }

  function Insert(xs: seq<string>, x: string): (r: seq<string>)
    requires Ascending(xs) && x !in xs
    ensures Ascending(r) && forall y :: y in r <==> y in xs || y == x
  {
    if xs == [] then [x]
    else if StringLess(x, xs[0]) then
      InsertFirst(xs, x);
      [x] + xs
    else
      var rest := Insert(xs[1..], x);
      InsertLater(xs, x, rest);
      [xs[0]] + rest
  }

  lemma InsertFirst(xs: seq<string>, x: string)
    requires Ascending(xs) && xs != [] && StringLess(x, xs[0])
    ensures Ascending([x] + xs)
  {
    hide StringLess;
    forall j | 0 <= j < |xs| ensures StringLess(x, xs[j]) {
      StringOrder(x, xs[0], xs[j]);
    }
  }

  lemma InsertLater(xs: seq<string>, x: string, rest: seq<string>)
    requires Ascending(xs) && xs != [] && x !in xs && !StringLess(x, xs[0])
    requires Ascending(rest) && forall y :: y in rest <==> y in xs[1..] || y == x
    ensures Ascending([xs[0]] + rest)
    ensures forall y :: y in [xs[0]] + rest <==> y in xs || y == x
  {
    hide StringLess;
    StringOrder(xs[0], x, "");
    assert xs == [xs[0]] + xs[1..];
    forall j | 0 <= j < |rest| ensures StringLess(xs[0], rest[j]) {
      assert rest[j] in xs[1..] || rest[j] == x;
    }
  }
}
