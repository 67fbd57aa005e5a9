/** What the job leaves in the cluster, told from the database. */
module ClusterJob {
  import opened Options
  import opened ClusterNames
  import opened ClusterSync
  import opened Text

  function Ref(name: string): Option<string> { Some(SanitizeName(name)) }

  /** The group a person is filed under, if it has a name. */
  predicate FiledUnder(ref: Option<string>, p: Person) {
    if p.group == None || p.group == Some("") then ref == None else ref == Ref(p.group.value)
  }

  predicate ShowsMaintainer(c: Cluster, p: Person) {
    var key := Key(Maintainers, SanitizeName(p.email));
    && key in c && c[key].MaintainerSpec?
    && c[key].display == p.name && c[key].email == p.email && c[key].github == p.github
    && c[key].githubEmail == p.githubEmail && c[key].registered == p.registered
    && c[key].status == (if p.status == "" then "Active" else p.status)
    && FiledUnder(c[key].company, p)
  }

  /** Staff go by their address, or else their account, or else their name. */
  predicate ShowsStaff(c: Cluster, p: Person) {
    exists key ::
      && key in c && key.kind == Staff && c[key].StaffSpec?
      && (p.email != "" ==> key.name == SanitizeName(p.email))
      && (p.email == "" && p.github != "" ==> key.name == SanitizeName(p.github))
      && (p.email == "" && p.github == "" ==> key.name == SanitizeName(p.name))
      && c[key].display == p.name && c[key].email == p.email && c[key].github == p.github
      && c[key].githubEmail == p.githubEmail && c[key].registered == p.registered
      && FiledUnder(c[key].foundation, p)
  }

  predicate ShowsCompany(c: Cluster, name: string) {
    Key(Companies, SanitizeName(name)) in c && c[Key(Companies, SanitizeName(name))] == CompanySpec(name)
  }

  predicate TextOf(value: string, column: Option<string>) {
    if column == None then value == "" else value == column.value
  }

  /** A reference for each maintainer of the project, and as many as it has; so no other, when their
      addresses have different names. */
  ghost predicate RefersToAll(refs: seq<string>, people: seq<Person>) {
    && |refs| == |people| && (forall i :: 0 <= i < |people| ==> SanitizeName(people[i].email) in refs)
    && ((forall i, j :: 0 <= i < j < |people| ==> !SameName(people, i, j)) ==>
          forall r :: r in refs ==> exists i :: 0 <= i < |people| && SanitizeName(people[i].email) == r)
  }

  predicate SameName(people: seq<Person>, i: nat, j: nat)
    requires i < |people| && j < |people|
  {
    SanitizeName(people[i].email) == SanitizeName(people[j].email)
  }

  ghost predicate ShowsProject(c: Cluster, projects: seq<ProjectRecord>, p: ProjectRecord) {
    var key := Key(Projects, SanitizeName(p.name));
    && key in c && c[key].ProjectSpec?
    && c[key].display == p.name && c[key].maturity == p.maturity
    && TextOf(c[key].mailingList, p.mailingList) && TextOf(c[key].issue, p.issue)
    && c[key].lead == (if p.lead == "" then None else Ref(p.lead))
    && (c[key].parent != None ==>
          exists q :: q in projects && Some(q.id) == p.parent && c[key].parent == Ref(q.name))
    && (c[key].parent == None ==> forall q :: q in projects ==> Some(q.id) != p.parent)
    && RefersToAll(c[key].refs, p.people)
  }

  predicate ShowsMembership(c: Cluster, p: ProjectRecord, m: Person) {
    var key := Key(Memberships, SanitizeName(p.name + "-" + m.email));
    key in c && c[key] == MembershipSpec(SanitizeName(p.name), SanitizeName(m.email))
  }

  /** A row that no other row contradicts is mirrored once the run is over. */
  lemma ListedIsHeld(c: Cluster, rows: seq<Row>, faults: seq<Fault>, row: Row)
    requires Consistent(rows) && !Sync(c, rows, faults).failed && row in rows
    ensures Holds(Sync(c, rows, faults).cluster, row)
  {
    hide Mirrors, SyncFirst;
    AfterSync(c, rows, faults, |rows|);
    var i :| 0 <= i < |rows| && rows[i] == row;
    var j := LastIndex(rows, |rows|, i);
    assert Holds(Sync(c, rows, faults).cluster, rows[j]);
  }

  /** After a run in which no call failed, whatever the cluster held before, every company, member of staff,
      maintainer, project and membership of the database has its object, and each of its fields comes from
      the column it should, unless listed objects share a name without sharing a spec. */
  lemma JobMirrorsDatabase(db: Database, c: Cluster, faults: seq<Fault>)
    requires Consistent(RowsOf(db)) && !Sync(c, RowsOf(db), faults).failed
    ensures var c1 := Sync(c, RowsOf(db), faults).cluster;
            && (forall x :: x in db.companies ==> ShowsCompany(c1, x))
            && (forall p :: p in db.staff ==> ShowsStaff(c1, p))
            && (forall p :: p in db.people ==> ShowsMaintainer(c1, p))
            && (forall p :: p in db.projects ==> ShowsProject(c1, db.projects, p))
            && (forall p, i :: p in db.projects && 0 <= i < |p.people| ==> ShowsMembership(c1, p, p.people[i]))
  {
    hide Consistent, RowsOf, SyncFirst, SanitizeName, CompanyRow, StaffRow, MaintainerRow, ProjectRow, MembershipRows, Holds;
    var rows := RowsOf(db);
    var c1 := Sync(c, rows, faults).cluster;
    forall row | InListings(db, row) ensures Holds(c1, row) {
      RowsAreListed(db, row);
      ListedIsHeld(c, rows, faults, row);
    }
    forall x | x in db.companies ensures ShowsCompany(c1, x) {
      assert InListings(db, CompanyRow(x));
      CompanyShown(c1, x);
    }
    forall p | p in db.staff ensures ShowsStaff(c1, p) {
      assert InListings(db, StaffRow(p));
      StaffShown(c1, p);
    }
    forall p | p in db.people ensures ShowsMaintainer(c1, p) {
      assert InListings(db, MaintainerRow(p));
      MaintainerShown(c1, p);
    }
    forall p | p in db.projects ensures ShowsProject(c1, db.projects, p) {
      assert InListings(db, ProjectRow(db.projects, p));
      ProjectShown(c1, db.projects, p);
    }
    forall p, i | p in db.projects && 0 <= i < |p.people| ensures ShowsMembership(c1, p, p.people[i]) {
      MembershipIsListed(db, p, i);
      MembershipShown(c1, p, i);
    }
  }

  lemma CompanyShown(c: Cluster, x: string)
    requires Holds(c, CompanyRow(x))
    ensures ShowsCompany(c, x)
  {
    hide SanitizeName;
  }

  lemma StaffShown(c: Cluster, p: Person)
    requires Holds(c, StaffRow(p))
    ensures ShowsStaff(c, p)
  {
    hide SanitizeName;
    assert KeyOf(StaffRow(p)) in c && c[KeyOf(StaffRow(p))] == StaffRow(p).spec;
  }

  lemma MaintainerShown(c: Cluster, p: Person)
    requires Holds(c, MaintainerRow(p))
    ensures ShowsMaintainer(c, p)
  {
    hide SanitizeName;
  }

  lemma ProjectShown(c: Cluster, projects: seq<ProjectRecord>, p: ProjectRecord)
    requires Holds(c, ProjectRow(projects, p))
    ensures ShowsProject(c, projects, p)
  {
    hide SanitizeName;
    if p.parent.Some? {
      NameOfMember(projects, p.parent.value);
    }
    RefsShown(c[KeyOf(ProjectRow(projects, p))].refs, ProjectRow(projects, p).spec.refs, p.people);
  }

  lemma RefsShown(refs: seq<string>, listed: seq<string>, people: seq<Person>)
    requires |refs| == |listed| == |people| && forall r :: r in listed ==> r in refs
    requires NoRepeats(listed) ==> multiset(refs) == multiset(listed)
    requires forall i :: 0 <= i < |people| ==> listed[i] == SanitizeName(people[i].email)
    ensures RefersToAll(refs, people)
  {
    hide SanitizeName;
    assert forall i :: 0 <= i < |people| ==> listed[i] in listed;
    if forall i, j :: 0 <= i < j < |people| ==> !SameName(people, i, j) {
      forall i, j | 0 <= i < j < |listed| ensures listed[i] != listed[j] {
        assert !SameName(people, i, j);
      }
      FromMultiset(listed, refs);
    }
  }

  lemma MembershipIsListed(db: Database, p: ProjectRecord, i: nat)
    requires p in db.projects && i < |p.people|
    ensures InListings(db, MembershipRows(p)[i])
  {
    assert MembershipRows(p)[i] in MembershipRows(p);
  }

  lemma MembershipShown(c: Cluster, p: ProjectRecord, i: nat)
    requires i < |p.people| && Holds(c, MembershipRows(p)[i])
    ensures ShowsMembership(c, p, p.people[i])
  {
    hide SanitizeName;
  }

  /* ----- the order of the listings ----- */

  function Rank(kind: Kind): nat {
    match kind
    case Companies => 0
    case Staff => 1
    case Maintainers => 2
    case Projects => 3
    case Memberships => 4
  }

  ghost predicate InOrder(rows: seq<Row>) {
    forall i, j :: 0 <= i < j < |rows| ==> Rank(KeyOf(rows[i]).kind) <= Rank(KeyOf(rows[j]).kind)
  }

  lemma {:induction false} AllAreMemberships(projects: seq<ProjectRecord>, row: Row)
    requires row in AllMemberships(projects)
    ensures KeyOf(row).kind == Memberships
  {
    hide SanitizeName;
    InMemberships(projects, row);
  }

  /** Companies come first, then staff, maintainers, projects and memberships, so a failing call leaves
      the later listings as they were. */
  lemma ListingsInOrder(db: Database)
    ensures InOrder(RowsOf(db))
  {
    hide SanitizeName, AllMemberships;
    var rows := RowsOf(db);
    var a, b := |db.companies|, |db.companies| + |db.staff|;
    var d := b + |db.people|;
    var e := d + |db.projects|;
    forall i | 0 <= i < |rows| ensures
      Rank(KeyOf(rows[i]).kind) == if i < a then 0 else if i < b then 1 else if i < d then 2 else if i < e then 3 else 4
    {
      if i >= e {
        assert rows[i] in AllMemberships(db.projects);
        AllAreMemberships(db.projects, rows[i]);
      }
    }
  }
}
