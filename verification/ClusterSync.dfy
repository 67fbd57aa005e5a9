/** The job that copies database rows into cluster objects. */
module ClusterSync {
  import opened Options
  import opened ClusterNames
  import opened Text

  /* ----- rows and objects ----- */

  datatype Spec =
    | CompanySpec(display: string)
    | StaffSpec(display: string, email: string, github: string, githubEmail: string, registered: Option<int>,
                foundation: Option<string>)
    | MaintainerSpec(display: string, email: string, github: string, githubEmail: string, status: string,
                     registered: Option<int>, company: Option<string>)
    | ProjectSpec(display: string, maturity: string, mailingList: string, issue: string, lead: Option<string>,
                  parent: Option<string>, refs: seq<string>)
    | MembershipSpec(project: string, maintainer: string)

  datatype Kind = Companies | Staff | Maintainers | Projects | Memberships
  datatype Key = Key(kind: Kind, name: string)
  datatype Row = Row(name: string, spec: Spec)

  type Cluster = map<Key, Spec>

  function KindOf(s: Spec): Kind {
    match s
    case CompanySpec(_) => Companies
    case StaffSpec(_, _, _, _, _, _) => Staff
    case MaintainerSpec(_, _, _, _, _, _, _) => Maintainers
    case ProjectSpec(_, _, _, _, _, _, _) => Projects
    case MembershipSpec(_, _) => Memberships
  }

  function KeyOf(row: Row): Key { Key(KindOf(row.spec), row.name) }

  /** Two project specs agree but for the maintainer references. */
  predicate SameFields(a: Spec, b: Spec)
    requires a.ProjectSpec? && b.ProjectSpec?
  {
    a.(refs := b.refs) == b
  }

  /** The comparisons before an update; projects compare references by length and one inclusion. */
  predicate SpecEqual(a: Spec, b: Spec) {
    if a.ProjectSpec? && b.ProjectSpec? then
      SameFields(a, b) && |a.refs| == |b.refs| && forall r :: r in b.refs ==> r in a.refs
    else a == b
  }

  ghost predicate CleanRefs(s: Spec) {
    s.ProjectSpec? ==> NoRepeats(s.refs)
  }

  /** The comparison done one field at a time, with the local set of names. */
  method ProjectSpecEqual(a: Spec, b: Spec) returns (same: bool)
    requires a.ProjectSpec? && b.ProjectSpec?
    ensures same == SpecEqual(a, b)
  {
    if a.display != b.display || a.maturity != b.maturity || a.mailingList != b.mailingList || a.issue != b.issue {
      return false;
    }
    if a.parent != b.parent || a.lead != b.lead || |a.refs| != |b.refs| {
      return false;
    }
    var names: set<string> := {};
    for i := 0 to |a.refs|
      invariant forall r :: r in names <==> r in a.refs[..i]
    {
      names := names + {a.refs[i]};
    }
    for i := 0 to |b.refs|
      invariant forall k :: 0 <= k < i ==> b.refs[k] in a.refs
    {
      if b.refs[i] !in names {
        assert a.refs[..|a.refs|] == a.refs && b.refs[i] in b.refs;
        return false;
      }
    }
    return true;
  }

  /* ----- what the comparison means ----- */

  lemma {:induction false} Occurrence(xs: seq<string>, x: string)
    ensures x in multiset(xs) <==> x in xs
    ensures NoRepeats(xs) ==> multiset(xs)[x] <= 1
  {
    if xs != [] {
      assert xs == [xs[0]] + xs[1..];
      Occurrence(xs[1..], x);
    }
  }

  /** A duplicate-free list inside another list is a sub-multiset of it. */
  lemma CleanInclusion(a: seq<string>, b: seq<string>)
    requires NoRepeats(b) && forall x :: x in b ==> x in a
    ensures multiset(b) <= multiset(a)
  {
    forall x ensures multiset(b)[x] <= multiset(a)[x] {
      Occurrence(a, x);
      Occurrence(b, x);
    }
  }

  lemma SubMultisetOfSameSize(m: multiset<string>, n: multiset<string>)
    requires m <= n && |m| == |n|
    ensures m == n
  {
    assert n == m + (n - m);
    assert |n - m| == 0;
  }

  lemma {:induction false} FromMultiset(a: seq<string>, b: seq<string>)
    requires multiset(a) == multiset(b)
    ensures |a| == |b| && forall x :: x in b ==> x in a
    ensures NoRepeats(b) ==> NoRepeats(a)
  {
    assert |a| == |multiset(a)| == |multiset(b)| == |b|;
    forall x | x in b ensures x in a {
      assert x in multiset(b);
    }
    if NoRepeats(b) {
      forall i, j | 0 <= i < j < |a| ensures a[i] != a[j] {
        if a[i] == a[j] {
          Occurrence(b, a[i]);
          Twice(a, i, j);
          assert false;
        }
      }
    }
  }

  lemma Twice(a: seq<string>, i: nat, j: nat)
    requires i < j < |a| && a[i] == a[j]
    ensures multiset(a)[a[i]] >= 2
  {
    assert a == a[..j] + a[j..];
    assert a[i] in a[..j] && a[j] in a[j..];
  }

  /** When the row lists no maintainer twice, the comparison is equality of the specs with the
      references taken as an unordered collection. */
  lemma ComparisonMeaning(a: Spec, b: Spec)
    requires a.ProjectSpec? && b.ProjectSpec? && NoRepeats(b.refs)
    ensures SpecEqual(a, b) <==> SameFields(a, b) && multiset(a.refs) == multiset(b.refs)
    ensures SpecEqual(a, b) ==> NoRepeats(a.refs)
  {
    if SpecEqual(a, b) {
      CleanInclusion(a.refs, b.refs);
      SubMultisetOfSameSize(multiset(b.refs), multiset(a.refs));
      FromMultiset(a.refs, b.refs);
    } else if multiset(a.refs) == multiset(b.refs) {
      FromMultiset(a.refs, b.refs);
    }
  }

  /** On such specs it is an equivalence. */
  lemma ComparisonIsEquivalence(a: Spec, b: Spec, c: Spec)
    ensures SpecEqual(a, a)
    ensures CleanRefs(b) && SpecEqual(a, b) ==> SpecEqual(b, a) && CleanRefs(a)
    ensures CleanRefs(c) && SpecEqual(a, b) && SpecEqual(b, c) ==> SpecEqual(a, c)
  {
    if CleanRefs(b) && SpecEqual(a, b) && a.ProjectSpec? {
      ComparisonMeaning(a, b);
      ComparisonMeaning(b, a);
    }
  }

  lemma RepeatHidesAChange(b: Spec, i: nat, j: nat)
    requires b.ProjectSpec? && i < j < |b.refs| && b.refs[i] == b.refs[j]
    ensures exists a: Spec :: a.ProjectSpec? && SpecEqual(a, b) && multiset(a.refs) != multiset(b.refs)
  {
    var x := b.refs[j];
    var y := x + "-old";
    var a := b.(refs := b.refs[j := y]);
    forall r | r in b.refs ensures r in a.refs {
      var k :| 0 <= k < |b.refs| && b.refs[k] == r;
      assert a.refs[if k == j then i else k] == r;
    }
    assert multiset(a.refs) == multiset(b.refs)[x := multiset(b.refs)[x] - 1] + multiset{y};
    assert multiset(a.refs)[y] == multiset(b.refs)[y] + 1;
    assert SpecEqual(a, b);
  }

  ghost predicate SameProject(a: Spec, b: Spec)
    requires a.ProjectSpec? && b.ProjectSpec?
  {
    SameFields(a, b) && multiset(a.refs) == multiset(b.refs)
  }

  /** Against a given row, the comparison is right about every object if and only if the row lists no
      maintainer twice; otherwise some object with a maintainer the row does not list counts as equal. */
  lemma ComparisonIsExactWhen(b: Spec)
    requires b.ProjectSpec?
    ensures (forall a: Spec :: a.ProjectSpec? ==> (SpecEqual(a, b) <==> SameProject(a, b))) <==> NoRepeats(b.refs)
  {
    if NoRepeats(b.refs) {
      forall a: Spec | a.ProjectSpec? ensures SpecEqual(a, b) <==> SameProject(a, b) {
        ComparisonMeaning(a, b);
      }
    } else {
      var i, j :| 0 <= i < j < |b.refs| && b.refs[i] == b.refs[j];
      RepeatHidesAChange(b, i, j);
    }
  }

  /** The object says what the row says: every field, and for a project the same references as far as the
      row repeats none, and otherwise as many, with none of the row's missing. */
  ghost predicate Mirrors(o: Spec, row: Spec) {
    match row
    case ProjectSpec(display, maturity, mailingList, issue, lead, parent, refs) =>
      && o.ProjectSpec? && o.display == display && o.maturity == maturity && o.mailingList == mailingList
      && o.issue == issue && o.lead == lead && o.parent == parent
      && |o.refs| == |refs| && (forall r :: r in refs ==> r in o.refs)
      && (NoRepeats(refs) ==> multiset(o.refs) == multiset(refs))
    case _ => o == row
  }

  /** The comparison finds an object up to date exactly when it mirrors the row. */
  lemma ComparisonIsMirroring(o: Spec, row: Spec)
    ensures SpecEqual(o, row) <==> Mirrors(o, row)
  {
    if o.ProjectSpec? && row.ProjectSpec? && NoRepeats(row.refs) {
      ComparisonMeaning(o, row);
    }
  }

  /* ----- the loop ----- */

  datatype Fault = Fine | GetFails | WriteFails
  datatype Write = Created(key: Key) | Updated(key: Key)

  function FaultAt(faults: seq<Fault>, i: nat): Fault {
    if i < |faults| then faults[i] else Fine
  }

  /** None when a call fails, which ends the job. */
  function SyncRow(c: Cluster, row: Row, fault: Fault): Option<(Cluster, seq<Write>)> {
    if fault.GetFails? then None
    else
      var key := KeyOf(row);
      if key !in c then
        if fault.WriteFails? then None else Some((c[key := row.spec], [Created(key)]))
      else if SpecEqual(c[key], row.spec) then Some((c, []))
      else if fault.WriteFails? then None
      else Some((c[key := row.spec], [Updated(key)]))
  }

  datatype Progress = Progress(cluster: Cluster, writes: seq<Write>, done: nat, failed: bool)

  /** The state after at most n rows; a failed row stops the job with the earlier rows written. */
  function SyncFirst(c: Cluster, rows: seq<Row>, faults: seq<Fault>, n: nat): (p: Progress)
    requires n <= |rows|
    ensures p.done <= n && (p.failed ==> p.done < n) && (!p.failed ==> p.done == n)
  {
    if n == 0 then Progress(c, [], 0, false)
    else
      var p := SyncFirst(c, rows, faults, n - 1);
      if p.failed then p
      else
        var out := SyncRow(p.cluster, rows[n - 1], FaultAt(faults, n - 1));
        if out.None? then p.(failed := true)
        else Progress(out.value.0, p.writes + out.value.1, n, false)
  }

  function Sync(c: Cluster, rows: seq<Row>, faults: seq<Fault>): Progress {
    SyncFirst(c, rows, faults, |rows|)
  }

  class Job {
    var cluster: Cluster
    var writes: seq<Write>

    constructor (c: Cluster)
      ensures cluster == c && writes == []
    {
      cluster, writes := c, [];
    }

    method SyncRows(rows: seq<Row>, faults: seq<Fault>) returns (failed: bool, ghost done: nat)
      modifies this
      ensures Progress(cluster, writes, done, failed)
           == var p := Sync(old(cluster), rows, faults); p.(writes := old(writes) + p.writes)
    {
      hide SpecEqual;
      failed, done := false, 0;
      assert writes + [] == writes;
      for i := 0 to |rows|
        invariant done == i
        invariant Progress(cluster, writes, done, false)
               == var p := SyncFirst(old(cluster), rows, faults, i); p.(writes := old(writes) + p.writes)
      {
        var row, fault := rows[i], FaultAt(faults, i);
        if !fault.GetFails? {
          var key := KeyOf(row);
          if key !in cluster {
            if !fault.WriteFails? {
              cluster := cluster[key := row.spec];
              writes := writes + [Created(key)];
              done := i + 1;
              continue;
            }
          } else if SpecEqual(cluster[key], row.spec) {
            done := i + 1;
            continue;
          } else if !fault.WriteFails? {
            cluster := cluster[key := row.spec];
            writes := writes + [Updated(key)];
            done := i + 1;
            continue;
          }
        }
        StopsThere(old(cluster), rows, faults, i);
        failed := true;
        return;
      }
    }
  }

  lemma {:induction false} StopsThere(c: Cluster, rows: seq<Row>, faults: seq<Fault>, i: nat)
    requires i < |rows|
    requires SyncFirst(c, rows, faults, i + 1).failed
    ensures Sync(c, rows, faults) == SyncFirst(c, rows, faults, i + 1)
  {
    FailureIsFinal(c, rows, faults, i + 1, |rows|);
  }

  lemma {:induction false} FailureIsFinal(c: Cluster, rows: seq<Row>, faults: seq<Fault>, i: nat, n: nat)
    requires i <= n <= |rows| && SyncFirst(c, rows, faults, i).failed
    ensures SyncFirst(c, rows, faults, n) == SyncFirst(c, rows, faults, i)
  {
    if i < n {
      FailureIsFinal(c, rows, faults, i, n - 1);
    }
  }

  /* ----- what a run leaves behind ----- */

  /** The row has an object, and it mirrors the row. */
  ghost predicate Holds(c: Cluster, row: Row) {
    KeyOf(row) in c && Mirrors(c[KeyOf(row)], row.spec)
  }

  lemma HoldsWhenEqual(c: Cluster, row: Row)
    ensures Holds(c, row) <==> KeyOf(row) in c && SpecEqual(c[KeyOf(row)], row.spec)
  {
    hide SpecEqual, Mirrors;
    if KeyOf(row) in c {
      ComparisonIsMirroring(c[KeyOf(row)], row.spec);
    }
  }

  /** No later row below n has the same object. */
  predicate IsLast(rows: seq<Row>, n: nat, i: nat)
    requires i < n <= |rows|
  {
    forall j :: i < j < n ==> KeyOf(rows[j]) != KeyOf(rows[i])
  }

  ghost predicate SameObject(c: Cluster, c1: Cluster, key: Key) {
    (key in c <==> key in c1) && (key in c ==> c[key] == c1[key])
  }

  predicate Named(rows: seq<Row>, n: nat, key: Key)
    requires n <= |rows|
  {
    exists i :: 0 <= i < n && KeyOf(rows[i]) == key
  }

  lemma RowSynced(c: Cluster, row: Row, fault: Fault)
    requires SyncRow(c, row, fault).Some?
    ensures var c1 := SyncRow(c, row, fault).value.0;
            && Holds(c1, row) && c.Keys <= c1.Keys
            && forall key :: key != KeyOf(row) ==> SameObject(c, c1, key)
  {
    hide SpecEqual, Holds, Mirrors;
    ComparisonIsEquivalence(row.spec, row.spec, row.spec);
    HoldsWhenEqual(SyncRow(c, row, fault).value.0, row);
  }

  lemma HoldsStill(c: Cluster, c1: Cluster, row: Row)
    requires Holds(c, row) && SameObject(c, c1, KeyOf(row))
    ensures Holds(c1, row)
  {
    hide Mirrors;
  }

  lemma SameObjectTwice(c: Cluster, c1: Cluster, c2: Cluster, key: Key)
    requires SameObject(c, c1, key) && SameObject(c1, c2, key)
    ensures SameObject(c, c2, key)
  {
  }

  /** Whether or not the run fails: every processed row that no later processed row overwrote has
      its object, and objects no processed row names are as they were. */
  lemma {:induction false} AfterSync(c: Cluster, rows: seq<Row>, faults: seq<Fault>, n: nat)
    requires n <= |rows|
    ensures var p := SyncFirst(c, rows, faults, n);
            && (forall i :: 0 <= i < p.done && IsLast(rows, p.done, i) ==> Holds(p.cluster, rows[i]))
            && (forall key :: !Named(rows, p.done, key) ==> SameObject(c, p.cluster, key))
            && c.Keys <= p.cluster.Keys
  {
    if n > 0 {
      hide SyncRow, KeyOf, Holds, SameObject;
      AfterSync(c, rows, faults, n - 1);
      var p, q := SyncFirst(c, rows, faults, n - 1), SyncFirst(c, rows, faults, n);
      if !q.failed {
        RowSynced(p.cluster, rows[n - 1], FaultAt(faults, n - 1));
        forall i | 0 <= i < n && IsLast(rows, n, i) ensures Holds(q.cluster, rows[i]) {
          if i < n - 1 {
            assert IsLast(rows, n - 1, i);
            HoldsStill(p.cluster, q.cluster, rows[i]);
          }
        }
        forall key | !Named(rows, n, key) ensures SameObject(c, q.cluster, key) {
          assert KeyOf(rows[n - 1]) != key;
          assert !Named(rows, n - 1, key);
          SameObjectTwice(c, p.cluster, q.cluster, key);
        }
      }
    }
  }

  /** A row's call fails: the read does, or the write it needs does. */
  ghost predicate CallFails(c: Cluster, row: Row, fault: Fault) {
    fault == GetFails || (fault == WriteFails && !Holds(c, row))
  }

  /** The write a row needs. */
  ghost function WriteFor(c: Cluster, row: Row): seq<Write> {
    if Holds(c, row) then [] else if KeyOf(row) in c then [Updated(KeyOf(row))] else [Created(KeyOf(row))]
  }

  lemma RowStepIs(c: Cluster, row: Row, fault: Fault)
    ensures var out := SyncRow(c, row, fault);
            && (out.None? <==> CallFails(c, row, fault))
            && (out.Some? ==> out.value.1 == WriteFor(c, row))
  {
    hide SpecEqual, Holds;
    HoldsWhenEqual(c, row);
  }

  /** The run goes through the rows in order and stops at the first one whose call fails; each row before
      makes the one write it needs, or none. */
  lemma StopsExactlyWhen(c: Cluster, rows: seq<Row>, faults: seq<Fault>, n: nat)
    requires n < |rows|
    ensures var p, q := SyncFirst(c, rows, faults, n), SyncFirst(c, rows, faults, n + 1);
            && (q.failed <==> p.failed || CallFails(p.cluster, rows[n], FaultAt(faults, n)))
            && (q.failed ==> q.cluster == p.cluster && q.writes == p.writes && q.done == p.done)
            && (!q.failed ==> q.writes == p.writes + WriteFor(p.cluster, rows[n]))
  {
    hide SyncRow, CallFails, WriteFor;
    RowStepIs(SyncFirst(c, rows, faults, n).cluster, rows[n], FaultAt(faults, n));
  }

  /** A run with no failing call writes nothing exactly when every row already holds. */
  lemma {:induction false} QuietExactlyWhen(c: Cluster, rows: seq<Row>, n: nat)
    requires n <= |rows|
    ensures var p := SyncFirst(c, rows, [], n);
            && !p.failed
            && (p.writes == [] <==> forall i :: 0 <= i < n ==> Holds(c, rows[i]))
            && (p.writes == [] ==> p.cluster == c)
  {
    if n > 0 {
      hide SpecEqual, Holds;
      QuietExactlyWhen(c, rows, n - 1);
      HoldsWhenEqual(SyncFirst(c, rows, [], n - 1).cluster, rows[n - 1]);
    }
  }

  function LastIndex(rows: seq<Row>, n: nat, i: nat): (j: nat)
    requires i < n <= |rows|
    ensures i <= j < n && KeyOf(rows[j]) == KeyOf(rows[i]) && IsLast(rows, n, j)
  {
    if KeyOf(rows[n - 1]) == KeyOf(rows[i]) then n - 1 else LastIndex(rows, n - 1, i)
  }

  /** Rows that share an object have one spec, as when all names are distinct. */
  ghost predicate Consistent(rows: seq<Row>) {
    forall i, j :: 0 <= i < |rows| && 0 <= j < |rows| && KeyOf(rows[i]) == KeyOf(rows[j]) ==> rows[i].spec == rows[j].spec
  }

  /** Unless different rows share a name, an error-free run leaves nothing to do: running again at
      once, over the same rows in any order, makes no create and no update. */
  lemma SecondRunIsQuiet(c: Cluster, rows: seq<Row>, faults: seq<Fault>, again: seq<Row>)
    requires Consistent(rows) && !Sync(c, rows, faults).failed
    requires forall row :: row in again ==> row in rows
    ensures var c1 := Sync(c, rows, faults).cluster;
            var p := Sync(c1, again, []);
            p.writes == [] && p.cluster == c1 && !p.failed
  {
    hide SpecEqual, Mirrors;
    AfterSync(c, rows, faults, |rows|);
    var c1 := Sync(c, rows, faults).cluster;
    forall k | 0 <= k < |again| ensures Holds(c1, again[k]) {
      assert again[k] in rows;
      var i :| 0 <= i < |rows| && rows[i] == again[k];
      var j := LastIndex(rows, |rows|, i);
      assert Holds(c1, rows[j]);
    }
    QuietExactlyWhen(c1, again, |again|);
  }

  /** Rows that share an object agree on its spec. */
  ghost predicate Agreeing(rows: seq<Row>) {
    forall i, j :: 0 <= i < |rows| && 0 <= j < |rows| && KeyOf(rows[i]) == KeyOf(rows[j]) ==>
      Mirrors(rows[i].spec, rows[j].spec)
  }

  /** When names collide, repeating an error-free run is quiet exactly when the colliding rows
      agree; otherwise they overwrite each other on every run. */
  lemma RerunIsQuietExactlyWhen(c: Cluster, rows: seq<Row>, faults: seq<Fault>)
    requires !Sync(c, rows, faults).failed
    requires forall i :: 0 <= i < |rows| ==> CleanRefs(rows[i].spec)
    ensures Sync(Sync(c, rows, faults).cluster, rows, []).writes == [] <==> Agreeing(rows)
  {
    hide SpecEqual, CleanRefs, Holds, Mirrors;
    AfterSync(c, rows, faults, |rows|);
    var c1 := Sync(c, rows, faults).cluster;
    forall i | 0 <= i < |rows| ensures
      Holds(c1, rows[i]) <==> KeyOf(rows[i]) in c1 && SpecEqual(c1[KeyOf(rows[i])], rows[i].spec)
    {
      HoldsWhenEqual(c1, rows[i]);
    }
    forall i, j | 0 <= i < |rows| && 0 <= j < |rows| ensures
      Mirrors(rows[i].spec, rows[j].spec) <==> SpecEqual(rows[i].spec, rows[j].spec)
    {
      ComparisonIsMirroring(rows[i].spec, rows[j].spec);
    }
    QuietExactlyWhen(c1, rows, |rows|);
    if Agreeing(rows) {
      forall i | 0 <= i < |rows| ensures Holds(c1, rows[i]) {
        var j := LastIndex(rows, |rows|, i);
        assert Holds(c1, rows[j]);
        ComparisonIsEquivalence(c1[KeyOf(rows[j])], rows[j].spec, rows[i].spec);
      }
    }
    if forall i :: 0 <= i < |rows| ==> Holds(c1, rows[i]) {
      forall i, j | 0 <= i < |rows| && 0 <= j < |rows| && KeyOf(rows[i]) == KeyOf(rows[j])
        ensures SpecEqual(rows[i].spec, rows[j].spec)
      {
        assert Holds(c1, rows[i]) && Holds(c1, rows[j]);
        var o := c1[KeyOf(rows[i])];
        ComparisonIsEquivalence(o, rows[i].spec, rows[j].spec);
        ComparisonIsEquivalence(rows[i].spec, o, rows[j].spec);
      }
    }
  }

  /* ----- rows from the database ----- */

  datatype Person = Person(name: string, email: string, github: string, githubEmail: string, status: string,
                           registered: Option<int>, group: Option<string>)
  datatype ProjectRecord = ProjectRecord(id: nat, name: string, maturity: string, mailingList: Option<string>,
                                         issue: Option<string>, lead: string, parent: Option<nat>,
                                         people: seq<Person>)
  datatype Database = Database(companies: seq<string>, staff: seq<Person>, people: seq<Person>,
                               projects: seq<ProjectRecord>)

  function GroupRef(p: Person): Option<string> {
    if p.group.Some? && p.group.value != "" then Some(SanitizeName(p.group.value)) else None
  }

  function CompanyRow(name: string): Row { Row(SanitizeName(name), CompanySpec(name)) }

  function StaffRow(p: Person): Row {
    var source := if p.email != "" then p.email else if p.github != "" then p.github else p.name;
    Row(SanitizeName(source), StaffSpec(p.name, p.email, p.github, p.githubEmail, p.registered, GroupRef(p)))
  }

  function MaintainerRow(p: Person): Row {
    Row(SanitizeName(p.email),
        MaintainerSpec(p.name, p.email, p.github, p.githubEmail, if p.status == "" then "Active" else p.status,
                       p.registered, GroupRef(p)))
  }

  function Refs(people: seq<Person>): (r: seq<string>)
    ensures |r| == |people| && forall i :: 0 <= i < |people| ==> r[i] == SanitizeName(people[i].email)
  {
    seq(|people|, i requires 0 <= i < |people| => SanitizeName(people[i].email))
  }

  function NameOf(projects: seq<ProjectRecord>, id: nat): Option<string> {
    if projects == [] then None
    else if projects[|projects| - 1].id == id then Some(projects[|projects| - 1].name)
    else NameOf(projects[..|projects| - 1], id)
  }

  function OrEmpty(s: Option<string>): string { if s.Some? then s.value else "" }

  function ProjectRow(projects: seq<ProjectRecord>, p: ProjectRecord): Row {
    var parent := if p.parent.Some? then NameOf(projects, p.parent.value) else None;
    Row(SanitizeName(p.name),
        ProjectSpec(p.name, p.maturity, OrEmpty(p.mailingList), OrEmpty(p.issue),
                    if p.lead != "" then Some(SanitizeName(p.lead)) else None,
                    if parent.Some? then Some(SanitizeName(parent.value)) else None, Refs(p.people)))
  }

  function MembershipRows(p: ProjectRecord): seq<Row> {
    seq(|p.people|, i requires 0 <= i < |p.people| =>
      Row(SanitizeName(p.name + "-" + p.people[i].email),
          MembershipSpec(SanitizeName(p.name), SanitizeName(p.people[i].email))))
  }

  function AllMemberships(projects: seq<ProjectRecord>): seq<Row> {
    if projects == [] then [] else MembershipRows(projects[0]) + AllMemberships(projects[1..])
  }

  /** The five listings in the order the job goes through them. */
  function RowsOf(db: Database): seq<Row> {
    seq(|db.companies|, i requires 0 <= i < |db.companies| => CompanyRow(db.companies[i])) +
    seq(|db.staff|, i requires 0 <= i < |db.staff| => StaffRow(db.staff[i])) +
    seq(|db.people|, i requires 0 <= i < |db.people| => MaintainerRow(db.people[i])) +
    seq(|db.projects|, i requires 0 <= i < |db.projects| => ProjectRow(db.projects, db.projects[i])) +
    AllMemberships(db.projects)
  }

  /** The same listings, each in an order of its own; ids tell projects apart. */
  ghost predicate Relisted(db: Database, other: Database) {
    && (forall x :: x in other.companies ==> x in db.companies)
    && (forall x :: x in other.staff ==> x in db.staff)
    && (forall x :: x in other.people ==> x in db.people)
    && (forall x :: x in other.projects <==> x in db.projects)
    && (forall x, y :: x in db.projects && y in db.projects && x.id == y.id ==> x == y)
  }

  lemma {:induction false} NameOfMember(projects: seq<ProjectRecord>, id: nat)
    ensures var r := NameOf(projects, id);
            if r.None? then forall x :: x in projects ==> x.id != id
            else exists x :: x in projects && x.id == id && x.name == r.value
  {
    if projects != [] {
      var n := |projects| - 1;
      assert projects == projects[..n] + [projects[n]];
      if projects[n].id != id {
        NameOfMember(projects[..n], id);
      }
    }
  }

  lemma SameParents(db: Database, other: Database, p: ProjectRecord)
    requires Relisted(db, other)
    ensures ProjectRow(other.projects, p) == ProjectRow(db.projects, p)
  {
    hide SanitizeName;
    if p.parent.Some? {
      NameOfMember(db.projects, p.parent.value);
      NameOfMember(other.projects, p.parent.value);
    }
  }

  lemma {:induction false} InMemberships(projects: seq<ProjectRecord>, row: Row)
    ensures row in AllMemberships(projects) <==> exists p :: p in projects && row in MembershipRows(p)
  {
    if projects != [] {
      hide MembershipRows;
      assert projects == [projects[0]] + projects[1..];
      InMemberships(projects[1..], row);
    }
  }

  predicate InListings(db: Database, row: Row) {
    || (exists x :: x in db.companies && row == CompanyRow(x))
    || (exists x :: x in db.staff && row == StaffRow(x))
    || (exists x :: x in db.people && row == MaintainerRow(x))
    || (exists x :: x in db.projects && row == ProjectRow(db.projects, x))
    || (exists x :: x in db.projects && row in MembershipRows(x))
  }

  lemma RowsAreListed(db: Database, row: Row)
    ensures row in RowsOf(db) <==> InListings(db, row)
  {
    hide CompanyRow, StaffRow, MaintainerRow, ProjectRow, MembershipRows, AllMemberships;
    InMemberships(db.projects, row);
    var a := seq(|db.companies|, i requires 0 <= i < |db.companies| => CompanyRow(db.companies[i]));
    var b := seq(|db.staff|, i requires 0 <= i < |db.staff| => StaffRow(db.staff[i]));
    var c := seq(|db.people|, i requires 0 <= i < |db.people| => MaintainerRow(db.people[i]));
    var e := seq(|db.projects|, i requires 0 <= i < |db.projects| => ProjectRow(db.projects, db.projects[i]));
    assert RowsOf(db) == a + b + c + e + AllMemberships(db.projects);
    assert row in a <==> exists x :: x in db.companies && row == CompanyRow(x) by { CompaniesListed(db.companies, a, row); }
    assert row in b <==> exists x :: x in db.staff && row == StaffRow(x) by { StaffListed(db.staff, b, row); }
    assert row in c <==> exists x :: x in db.people && row == MaintainerRow(x) by { PeopleListed(db.people, c, row); }
    assert row in e <==> exists x :: x in db.projects && row == ProjectRow(db.projects, x) by {
      ProjectsListed(db.projects, e, row);
    }
  }

  lemma CompaniesListed(xs: seq<string>, rows: seq<Row>, row: Row)
    requires |rows| == |xs| && forall i :: 0 <= i < |xs| ==> rows[i] == CompanyRow(xs[i])
    ensures row in rows <==> exists x :: x in xs && row == CompanyRow(x)
  {
    hide CompanyRow;
    if x :| x in xs && row == CompanyRow(x) {
      var i :| 0 <= i < |xs| && xs[i] == x;
      assert rows[i] == row;
    }
  }

  lemma StaffListed(xs: seq<Person>, rows: seq<Row>, row: Row)
    requires |rows| == |xs| && forall i :: 0 <= i < |xs| ==> rows[i] == StaffRow(xs[i])
    ensures row in rows <==> exists x :: x in xs && row == StaffRow(x)
  {
    hide StaffRow;
    if x :| x in xs && row == StaffRow(x) {
      var i :| 0 <= i < |xs| && xs[i] == x;
      assert rows[i] == row;
    }
  }

  lemma PeopleListed(xs: seq<Person>, rows: seq<Row>, row: Row)
    requires |rows| == |xs| && forall i :: 0 <= i < |xs| ==> rows[i] == MaintainerRow(xs[i])
    ensures row in rows <==> exists x :: x in xs && row == MaintainerRow(x)
  {
    hide MaintainerRow;
    if x :| x in xs && row == MaintainerRow(x) {
      var i :| 0 <= i < |xs| && xs[i] == x;
      assert rows[i] == row;
    }
  }

  lemma ProjectsListed(xs: seq<ProjectRecord>, rows: seq<Row>, row: Row)
    requires |rows| == |xs| && forall i :: 0 <= i < |xs| ==> rows[i] == ProjectRow(xs, xs[i])
    ensures row in rows <==> exists x :: x in xs && row == ProjectRow(xs, x)
  {
    hide ProjectRow;
    if x :| x in xs && row == ProjectRow(xs, x) {
      var i :| 0 <= i < |xs| && xs[i] == x;
      assert rows[i] == row;
    }
  }

  /** The whole job, twice, the second time over the same listings in any order: it creates and updates
      nothing, unless some listed objects share a name without sharing a spec. */
  lemma JobTwiceIsQuiet(db: Database, other: Database, c: Cluster, faults: seq<Fault>)
    requires Relisted(db, other)
    requires Consistent(RowsOf(db)) && !Sync(c, RowsOf(db), faults).failed
    ensures var c1 := Sync(c, RowsOf(db), faults).cluster;
            Sync(c1, RowsOf(other), []).writes == [] && Sync(c1, RowsOf(other), []).cluster == c1
  {
    hide RowsOf, Consistent, CompanyRow, StaffRow, MaintainerRow, ProjectRow, MembershipRows;
    forall row | row in RowsOf(other) ensures row in RowsOf(db) {
      RowsAreListed(other, row);
      RowsAreListed(db, row);
      if x :| x in other.projects && row == ProjectRow(other.projects, x) {
        SameParents(db, other, x);
      }
    }
    SecondRunIsQuiet(c, RowsOf(db), faults, RowsOf(other));
  }

  /** The names of two maintainers' addresses are the same. */
  predicate SharedReference(p: ProjectRecord, i: nat, j: nat)
    requires i < j < |p.people|
  {
    SanitizeName(p.people[i].email) == SanitizeName(p.people[j].email)
  }

  /** The job compares every object with a project's row rightly if and only if no two of its
      maintainers' addresses share a name. */
  lemma ProjectIsComparedExactlyWhen(projects: seq<ProjectRecord>, p: ProjectRecord)
    ensures var row := ProjectRow(projects, p).spec;
            (forall a: Spec :: a.ProjectSpec? ==> (SpecEqual(a, row) <==> SameProject(a, row))) <==>
            forall i, j :: 0 <= i < j < |p.people| ==> !SharedReference(p, i, j)
  {
    hide SanitizeName, SpecEqual, SameProject;
    var row := ProjectRow(projects, p).spec;
    assert forall i :: 0 <= i < |row.refs| ==> row.refs[i] == SanitizeName(p.people[i].email);
    if NoRepeats(row.refs) {
      forall i, j | 0 <= i < j < |p.people| ensures !SharedReference(p, i, j) {
        assert row.refs[i] != row.refs[j];
      }
    }
    if forall i, j :: 0 <= i < j < |p.people| ==> !SharedReference(p, i, j) {
      forall i, j | 0 <= i < j < |row.refs| ensures row.refs[i] != row.refs[j] {
        assert !SharedReference(p, i, j);
      }
    }
    ComparisonIsExactWhen(row);
  }

  /** Two maintainers with one address, as with the placeholder of those who gave none, always share a
      reference: some object that lists another maintainer then counts as equal, and the job leaves it. */
  lemma SameAddressHidesAChange(db: Database, p: ProjectRecord, i: nat, j: nat, c: Cluster)
    requires i < j < |p.people| && p.people[i].email == p.people[j].email
    ensures var row := ProjectRow(db.projects, p);
            exists a: Spec :: a.ProjectSpec? && multiset(a.refs) != multiset(row.spec.refs) &&
              SyncRow(c[KeyOf(row) := a], row, Fine) == Some((c[KeyOf(row) := a], []))
  {
    hide SanitizeName, SpecEqual;
    var row := ProjectRow(db.projects, p);
    assert row.spec.refs[i] == row.spec.refs[j];
    RepeatHidesAChange(row.spec, i, j);
    var a: Spec :| a.ProjectSpec? && SpecEqual(a, row.spec) && multiset(a.refs) != multiset(row.spec.refs);
    assert c[KeyOf(row) := a][KeyOf(row)] == a;
  }
}
