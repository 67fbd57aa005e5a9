/** What every run of the maintainer operations keeps. */
module MaintainerLaws {
  import opened Options
  import opened Text
  import opened MaintainerStore

  predicate Tidy(s: string) { Trim(s) == s }

  lemma NormalizeIsTidy(value: string, sentinel: string)
    requires Tidy(sentinel) && sentinel != ""
    ensures Tidy(Normalize(value, sentinel)) && Normalize(value, sentinel) != ""
    ensures Normalize(Normalize(value, sentinel), sentinel) == Normalize(value, sentinel)
    ensures Tidy(value) && value != "" ==> Normalize(value, sentinel) == value
  {
    hide Trim;
    assert Trim(Trim(value)) == Trim(value);
  }

  lemma SentinelsAreTidy()
    ensures Tidy(NO_EMAIL) && Tidy(NO_HANDLE)
  {
    assert NO_EMAIL[0] == 'E' && NO_EMAIL[|NO_EMAIL| - 1] == 'G';
    assert NO_HANDLE[0] == 'G' && NO_HANDLE[|NO_HANDLE| - 1] == 'G';
  }

  ghost predicate GoodPerson(db: Db, p: Person) {
    && (p.company.Some? ==> p.company.value in db.companies)
    && Tidy(p.handle) && Tidy(p.email)
  }

  /** Every maintainer's company is live and stored handles and addresses carry no outer spaces. */
  ghost predicate Valid(db: Db) {
    && (forall id :: id in db.people ==> id < db.nextPerson && GoodPerson(db, db.people[id]))
    && (forall c :: c in db.companies ==> c < db.nextCompany)
  }

  ghost predicate SameHandle(db: Db, i: nat, j: nat)
    requires i in db.people && j in db.people
  {
    && !Missing(db.people[i].handle, NO_HANDLE) && !Missing(db.people[j].handle, NO_HANDLE)
    && Lower(db.people[i].handle) == Lower(db.people[j].handle)
  }

  /** No two maintainers on file share a handle, letter case aside. */
  ghost predicate Unique(db: Db) {
    forall i, j :: i in db.people && j in db.people && SameHandle(db, i, j) ==> i == j
  }

  /* ----- one upsert ----- */

  /** The row a request starts from. */
  function Base(db: Db, q: Request, employer: Option<nat>): Person {
    var target := Target(db, q);
    if target.Some? && target.value in db.people then db.people[target.value]
    else Person(q.name, Normalize(q.email, NO_EMAIL), Normalize(q.handle, NO_HANDLE), Active, employer, {})
  }

  /** What is on file stays, what is missing is taken from the request, and the project is linked. */
  function Filled(base: Person, q: Request, employer: Option<nat>): Person {
    Person(if Blank(base.name) then Trim(q.name) else Trim(base.name),
           if Missing(base.email, NO_EMAIL) then Normalize(q.email, NO_EMAIL) else base.email,
           if Missing(base.handle, NO_HANDLE) then Normalize(q.handle, NO_HANDLE) else base.handle,
           base.status,
           if base.company.Some? then base.company else employer,
           base.projects + {q.project})
  }

  function RowId(db: Db, q: Request): nat {
    if Target(db, q).Some? then Target(db, q).value else db.nextPerson
  }

  lemma CompletedIsFilled(base: Person, q: Request, employer: Option<nat>)
    requires Tidy(base.handle) && Tidy(base.email)
    ensures var row := Completed(base.(projects := base.projects + {q.project}), q, employer);
            Filled(base, q, employer) ==
            row.(name := Trim(row.name), email := Normalize(row.email, NO_EMAIL), handle := Normalize(row.handle, NO_HANDLE))
  {
    SentinelsAreTidy();
    hide Trim;
  }

  lemma EmployerIsLive(db: Db, company: string, stored: string)
    requires Valid(db)
    ensures var e := EnsureCompany(db, company, stored);
            && Valid(e.db) && e.db.people == db.people && e.db.nextPerson == db.nextPerson && e.db.projects == db.projects
            && (e.id.Some? ==> e.id.value in e.db.companies)
            && db.companies.Keys <= e.db.companies.Keys
            && (!e.ok ==> e.db == db)
            && (e.ok <==> company == "" || NameTakenLive(db, company) || !NameTaken(db, stored))
  {
    hide NameTaken, FirstCompany, Tidy;
    CompanyIsFound(db, company);
  }

  lemma CompanyIsFound(db: Db, company: string)
    requires Valid(db)
    ensures FirstCompany(db.companies, company, 0, db.nextCompany).Some? <==> NameTakenLive(db, company)
  {
    hide FirstCompany;
  }

  predicate NameTakenLive(db: Db, name: string) {
    exists c :: c in db.companies && db.companies[c] == name
  }

  lemma BaseIsGood(db: Db, q: Request, stored: string)
    requires Valid(db)
    ensures var e := EnsureCompany(db, q.company, stored); GoodPerson(e.db, Base(db, q, e.id))
  {
    hide EnsureCompany, Target, Normalize, Trim, Tidy;
    EmployerIsLive(db, q.company, stored);
    SentinelsAreTidy();
    NormalizeIsTidy(q.email, NO_EMAIL);
    NormalizeIsTidy(q.handle, NO_HANDLE);
  }

  /** Exactly what an upsert does: it fails only for an unknown project, a company name the unique
      index refuses, or a failing call; it changes one row; and a failure after the transaction
      still leaves the row linked to the project. */
  lemma UpsertFillsGaps(db: Db, q: Request, stored: string, trouble: Trouble)
    requires Valid(db)
    ensures var (db1, out) := Upsert(db, q, stored, trouble);
            var e := EnsureCompany(db, q.company, stored);
            var base, id := Base(db, q, e.id), RowId(db, q);
            if q.project !in db.projects || !e.ok || trouble.InTransaction? then
              db1 == db && out == (if q.project !in db.projects && !trouble.InTransaction? then ProjectNotFound else DbFailure)
            else
              && id in db1.people
              && db1 == e.db.(people := db.people[id := db1.people[id]],
                              nextPerson := if Target(db, q).Some? then db.nextPerson else db.nextPerson + 1)
              && db1.people[id] == (if trouble.InUpdate? then base.(projects := base.projects + {q.project})
                                    else Filled(base, q, e.id))
              && out == (if trouble.NoTrouble? then Saved(id) else DbFailure)
  {
    hide EnsureCompany, Target, Completed, Normalize, Filled, Blank, Trim, Tidy;
    EmployerIsLive(db, q.company, stored);
    TargetExists(db, q);
    BaseIsGood(db, q, stored);
    var e := EnsureCompany(db, q.company, stored);
    var base := Base(db, q, e.id);
    CompletedIsFilled(base, q, e.id);
    CompletedCompany(base, q, e.id);
  }

  lemma CompletedCompany(base: Person, q: Request, employer: Option<nat>)
    ensures var row := Completed(base.(projects := base.projects + {q.project}), q, employer);
            row.company == (if base.company.Some? then base.company else employer) && row.status == base.status
              && row.projects == base.projects + {q.project}
  {
  }

  lemma FilledIsGood(db: Db, base: Person, q: Request, employer: Option<nat>)
    requires GoodPerson(db, base) && (employer.Some? ==> employer.value in db.companies)
    ensures GoodPerson(db, Filled(base, q, employer))
  {
    hide Normalize, Tidy;
    SentinelsAreTidy();
    NormalizeIsTidy(q.email, NO_EMAIL);
    NormalizeIsTidy(q.handle, NO_HANDLE);
  }

  lemma UpsertKeepsValid(db: Db, q: Request, stored: string, trouble: Trouble)
    requires Valid(db)
    ensures Valid(Upsert(db, q, stored, trouble).0)
  {
    hide Upsert, EnsureCompany, Base, Filled, Tidy, Target;
    UpsertFillsGaps(db, q, stored, trouble);
    EmployerIsLive(db, q.company, stored);
    BaseIsGood(db, q, stored);
    TargetExists(db, q);
    var e := EnsureCompany(db, q.company, stored);
    FilledIsGood(e.db, Base(db, q, e.id), q, e.id);
  }

  /* ----- one handle, one maintainer ----- */

  /** The request writes a new handle: its maintainer is new or has none on file. */
  predicate WritesHandle(db: Db, q: Request) {
    && !Missing(Normalize(q.handle, NO_HANDLE), NO_HANDLE)
    && (Target(db, q).Some? && Target(db, q).value in db.people ==>
          Missing(db.people[Target(db, q).value].handle, NO_HANDLE))
  }

  /** Someone else already has the handle once its outer spaces are gone. */
  predicate HandleInUse(db: Db, q: Request) {
    exists i :: i in db.people && i != RowId(db, q) && !Missing(db.people[i].handle, NO_HANDLE) &&
                Lower(db.people[i].handle) == Lower(Trim(q.handle))
  }

  predicate Proceeds(db: Db, q: Request, stored: string, trouble: Trouble) {
    q.project in db.projects && EnsureCompany(db, q.company, stored).ok && !trouble.InTransaction?
  }

  /** The handle of the row after an upsert that got past its transaction. */
  lemma HandleAfter(db: Db, q: Request, stored: string, trouble: Trouble)
    requires Valid(db) && Proceeds(db, q, stored, trouble)
    ensures var db1 := Upsert(db, q, stored, trouble).0;
            var id := RowId(db, q);
            && id in db1.people && db1.people.Keys == db.people.Keys + {id}
            && (forall i :: i in db.people && i != id ==> db1.people[i] == db.people[i])
            && (Missing(db1.people[id].handle, NO_HANDLE) ||
                (id in db.people && db1.people[id].handle == db.people[id].handle) ||
                (WritesHandle(db, q) && db1.people[id].handle == Trim(q.handle)))
            && (WritesHandle(db, q) && !trouble.InUpdate? ==>
                  db1.people[id].handle == Trim(q.handle) && !Missing(Trim(q.handle), NO_HANDLE))
  {
    hide Upsert, EnsureCompany, Target, Trim;
    UpsertFillsGaps(db, q, stored, trouble);
    TargetExists(db, q);
  }

  lemma UpsertKeepsUniqueWhen(db: Db, q: Request, stored: string, trouble: Trouble)
    requires Valid(db) && Unique(db) && !(WritesHandle(db, q) && HandleInUse(db, q))
    ensures Unique(Upsert(db, q, stored, trouble).0)
  {
    hide Upsert, Target, Trim, WritesHandle, RowId, Lower, EnsureCompany;
    UpsertFillsGaps(db, q, stored, trouble);
    if Proceeds(db, q, stored, trouble) {
      HandleAfter(db, q, stored, trouble);
      var db1 := Upsert(db, q, stored, trouble).0;
      forall i, j | i in db1.people && j in db1.people && SameHandle(db1, i, j) ensures i == j {
        assert i in db.people && j in db.people && i != j ==> !SameHandle(db, i, j);
      }
    }
  }

  /** An upsert breaks the rule exactly when it writes a handle that someone else has: the lookup
      compares the handle as given, the write stores it trimmed. */
  lemma UpsertKeepsUniqueExactlyWhen(db: Db, q: Request, stored: string)
    requires Valid(db) && Unique(db) && Upsert(db, q, stored, NoTrouble).1.Saved?
    ensures Unique(Upsert(db, q, stored, NoTrouble).0) <==> !(WritesHandle(db, q) && HandleInUse(db, q))
  {
    hide Upsert, Target, Trim, WritesHandle, RowId, Lower, EnsureCompany;
    UpsertFillsGaps(db, q, stored, NoTrouble);
    HandleAfter(db, q, stored, NoTrouble);
    if WritesHandle(db, q) && HandleInUse(db, q) {
      var db1, id := Upsert(db, q, stored, NoTrouble).0, RowId(db, q);
      var i :| i in db.people && i != id && !Missing(db.people[i].handle, NO_HANDLE) &&
               Lower(db.people[i].handle) == Lower(Trim(q.handle));
      assert SameHandle(db1, i, id);
    } else {
      UpsertKeepsUniqueWhen(db, q, stored, NoTrouble);
    }
  }

  /** A handle with no outer spaces that is not the placeholder in any letter case, or no handle. */
  predicate GoodHandle(handle: string) {
    Blank(handle) || (Tidy(handle) && Lower(handle) != Lower(NO_HANDLE))
  }

  lemma GoodHandlesNeverClash(db: Db, q: Request)
    requires Valid(db) && GoodHandle(q.handle)
    ensures !(WritesHandle(db, q) && HandleInUse(db, q))
  {
    hide Trim, FirstEmail, Lower;
    if WritesHandle(db, q) && HandleInUse(db, q) {
      var i :| i in db.people && i != RowId(db, q) && !Missing(db.people[i].handle, NO_HANDLE) &&
               Lower(db.people[i].handle) == Lower(Trim(q.handle));
      assert q.handle == Trim(q.handle) && HasHandle(db.people, i, Lower(q.handle));
      TargetHasHandle(db, q, i);
      assert false;
    }
  }

  lemma TargetHasHandle(db: Db, q: Request, i: nat)
    requires Valid(db) && q.handle != "" && HasHandle(db.people, i, Lower(q.handle))
    ensures Target(db, q).Some? && HasHandle(db.people, Target(db, q).value, Lower(q.handle))
    ensures Lower(q.handle) != Lower(NO_HANDLE) ==> !Missing(db.people[Target(db, q).value].handle, NO_HANDLE)
  {
    hide FirstEmail, FirstHandle, Lower, Tidy;
    assert i < db.nextPerson;
    var found := FirstHandle(db.people, Lower(q.handle), 0, db.nextPerson);
    assert Target(db, q) == found;
    assert |Lower("")| == 0;
  }

  /** Somebody on file answers to the handle, letter case aside. */
  ghost predicate HandleOnFile(db: Db, handle: string) {
    exists i: nat :: HasHandle(db.people, i, Lower(handle))
  }

  ghost predicate EmailOnFile(db: Db, email: string) {
    exists i: nat :: HasEmail(db.people, i, Lower(email))
  }

  lemma TargetExactlyWhen(db: Db, q: Request)
    requires Valid(db)
    ensures Target(db, q).None? <==>
      (q.handle == "" || !HandleOnFile(db, q.handle)) && (q.email == "" || !EmailOnFile(db, q.email))
  {
    hide Lower, Tidy, HasHandle, HasEmail;
    forall i: nat | HasHandle(db.people, i, Lower(q.handle)) || HasEmail(db.people, i, Lower(q.email))
      ensures i < db.nextPerson
    {
      OnFile(db, i, q);
    }
  }

  lemma OnFile(db: Db, i: nat, q: Request)
    requires Valid(db) && (HasHandle(db.people, i, Lower(q.handle)) || HasEmail(db.people, i, Lower(q.email)))
    ensures i < db.nextPerson
  {
  }

  /** Whoever a request names gets a row of their own exactly when nobody on file has the handle and
      nobody has the address; a placeholder counts as a handle or an address here. */
  lemma NewcomerExactlyWhen(db: Db, q: Request, stored: string, trouble: Trouble)
    requires Valid(db) && Proceeds(db, q, stored, trouble)
    ensures Upsert(db, q, stored, trouble).0.people.Keys != db.people.Keys <==>
      (q.handle == "" || !HandleOnFile(db, q.handle)) && (q.email == "" || !EmailOnFile(db, q.email))
  {
    hide Upsert, EnsureCompany, Target, HandleOnFile, EmailOnFile, WritesHandle, Tidy;
    HandleAfter(db, q, stored, trouble);
    TargetExactlyWhen(db, q);
    TargetExists(db, q);
    assert db.nextPerson !in db.people;
  }

  /** So the placeholders adopt strangers: once somebody on file lacks a handle, a newcomer given as
      "GITHUB_MISSING" is merged into a maintainer on file; and once somebody lacks an address, so is
      one given as "EMAIL_MISSING". */
  lemma PlaceholderAdoptsAStranger(db: Db, q: Request, stored: string, trouble: Trouble, i: nat)
    requires Valid(db) && Proceeds(db, q, stored, trouble) && i in db.people
    requires (q.handle == NO_HANDLE && db.people[i].handle == NO_HANDLE) ||
             (q.email == NO_EMAIL && db.people[i].email == NO_EMAIL)
    ensures Upsert(db, q, stored, trouble).0.people.Keys == db.people.Keys
  {
    hide Upsert, Valid, Proceeds, Lower;
    NewcomerExactlyWhen(db, q, stored, trouble);
    assert q.handle == db.people[i].handle ==> HasHandle(db.people, i, Lower(q.handle));
    assert q.email == db.people[i].email ==> HasEmail(db.people, i, Lower(q.email));
  }

  /* ----- an upsert twice ----- */

  lemma FirstHandleIs(people: map<nat, Person>, key: string, n: nat, id: nat)
    requires id < n && HasHandle(people, id, key) && forall k :: 0 <= k < id ==> !HasHandle(people, k, key)
    ensures FirstHandle(people, key, 0, n) == Some(id)
  {
    hide HasHandle;
    var r := FirstHandle(people, key, 0, n);
    assert r.Some?;
    assert r.value <= id;
  }

  lemma FirstEmailIs(people: map<nat, Person>, key: string, n: nat, id: nat)
    requires id < n && HasEmail(people, id, key) && forall k :: 0 <= k < id ==> !HasEmail(people, k, key)
    ensures FirstEmail(people, key, 0, n) == Some(id)
  {
    hide HasEmail;
    var r := FirstEmail(people, key, 0, n);
    assert r.Some?;
    assert r.value <= id;
  }

  /** The request gives a handle or an address that is stored as it is given. */
  predicate Names(q: Request) {
    (q.handle != "" && Tidy(q.handle)) || (q.email != "" && Tidy(q.email))
  }

  /** Stored values are trimmed, so a value with outer spaces matches nobody. */
  lemma LowerKeepsTidy(s: string, t: string)
    requires Lower(t) == Lower(s) && Tidy(t)
    ensures Tidy(s)
  {
    hide Trim, Lower;
    assert |s| == |Lower(s)| == |t|;
    if t != "" {
      var n := |t| - 1;
      assert Trim(t) == t && !IsSpace(t[0]) && !IsSpace(t[n]);
      assert LowerChar(t[0]) == Lower(t)[0] == LowerChar(s[0]);
      assert LowerChar(t[n]) == Lower(t)[n] == LowerChar(s[n]);
    }
  }

  lemma UntidyMatchesNobody(db: Db, s: string, k: nat)
    requires Valid(db) && !Tidy(s)
    ensures !HasHandle(db.people, k, Lower(s)) && !HasEmail(db.people, k, Lower(s))
  {
    hide Lower, Tidy;
    if HasHandle(db.people, k, Lower(s)) {
      LowerKeepsTidy(s, db.people[k].handle);
    }
    if HasEmail(db.people, k, Lower(s)) {
      LowerKeepsTidy(s, db.people[k].email);
    }
  }

  /** What a completed request leaves in its row, and that other rows stay. */
  lemma RowAfter(db: Db, q: Request, stored: string)
    requires Valid(db) && Upsert(db, q, stored, NoTrouble).1.Saved?
    ensures var db1, id := Upsert(db, q, stored, NoTrouble).0, RowId(db, q);
            var base := Base(db, q, EnsureCompany(db, q.company, stored).id);
            && id in db1.people && id < db1.nextPerson && Valid(db1)
            && (forall k :: k != id ==> (k in db1.people <==> k in db.people))
            && (forall k :: k != id && k in db.people ==> db1.people[k] == db.people[k])
            && db1.people[id].handle == (if Missing(base.handle, NO_HANDLE) then Normalize(q.handle, NO_HANDLE) else base.handle)
            && db1.people[id].email == (if Missing(base.email, NO_EMAIL) then Normalize(q.email, NO_EMAIL) else base.email)
  {
    hide Upsert, EnsureCompany, Base, Normalize, Missing, Tidy;
    UpsertFillsGaps(db, q, stored, NoTrouble);
    UpsertKeepsValid(db, q, stored, NoTrouble);
    TargetExists(db, q);
  }

  lemma TidyIsNormal(value: string, sentinel: string)
    requires Tidy(value) && value != ""
    ensures Normalize(value, sentinel) == value
  {
  }

  lemma NothingIsNothing(s: string)
    ensures Lower(s) == "" ==> s == ""
  {
    assert |Lower(s)| == |s|;
  }

  /** A row found by handle keeps the handle, letter case aside. */
  lemma FoundByHandle(db: Db, q: Request, stored: string)
    requires Valid(db) && Upsert(db, q, stored, NoTrouble).1.Saved?
    requires q.handle != "" && RowId(db, q) in db.people && HasHandle(db.people, RowId(db, q), Lower(q.handle))
    ensures HasHandle(Upsert(db, q, stored, NoTrouble).0.people, RowId(db, q), Lower(q.handle))
  {
    hide Upsert, EnsureCompany, Target, Lower, Tidy, Normalize;
    RowAfter(db, q, stored);
    TargetExists(db, q);
    var id := RowId(db, q);
    LowerKeepsTidy(q.handle, db.people[id].handle);
    TidyIsNormal(q.handle, NO_HANDLE);
    NothingIsNothing(q.handle);
  }

  /** A row found by address keeps it likewise. */
  lemma FoundByEmail(db: Db, q: Request, stored: string)
    requires Valid(db) && Upsert(db, q, stored, NoTrouble).1.Saved?
    requires q.email != "" && RowId(db, q) in db.people && HasEmail(db.people, RowId(db, q), Lower(q.email))
    ensures HasEmail(Upsert(db, q, stored, NoTrouble).0.people, RowId(db, q), Lower(q.email))
  {
    hide Upsert, EnsureCompany, Target, Lower, Tidy, Normalize;
    RowAfter(db, q, stored);
    TargetExists(db, q);
    var id := RowId(db, q);
    LowerKeepsTidy(q.email, db.people[id].email);
    TidyIsNormal(q.email, NO_EMAIL);
    NothingIsNothing(q.email);
  }

  lemma NobodyHasHandle(people: map<nat, Person>, key: string, n: nat)
    requires forall k :: 0 <= k < n ==> !HasHandle(people, k, key)
    ensures FirstHandle(people, key, 0, n).None?
  {
    hide HasHandle;
  }

  /** The row is found again by handle, once it has it and no earlier row does. */
  lemma AgainByHandle(db: Db, q: Request, stored: string)
    requires Valid(db) && Upsert(db, q, stored, NoTrouble).1.Saved? && q.handle != ""
    requires HasHandle(Upsert(db, q, stored, NoTrouble).0.people, RowId(db, q), Lower(q.handle))
    requires forall k: nat :: k < RowId(db, q) ==> !HasHandle(db.people, k, Lower(q.handle))
    ensures Target(Upsert(db, q, stored, NoTrouble).0, q) == Some(RowId(db, q))
  {
    hide Upsert, Lower, FirstEmail, Valid, Base, Normalize, RowId;
    RowAfter(db, q, stored);
    var db1, id := Upsert(db, q, stored, NoTrouble).0, RowId(db, q);
    forall k: nat | k < id ensures !HasHandle(db1.people, k, Lower(q.handle)) {
      assert !HasHandle(db.people, k, Lower(q.handle));
      assert k in db1.people <==> k in db.people;
    }
    FirstHandleIs(db1.people, Lower(q.handle), db1.nextPerson, id);
  }

  /** Or by address, once it has it, no earlier row does, and nobody answers to the handle. */
  lemma AgainByEmail(db: Db, q: Request, stored: string)
    requires Valid(db) && Upsert(db, q, stored, NoTrouble).1.Saved? && q.email != ""
    requires HasEmail(Upsert(db, q, stored, NoTrouble).0.people, RowId(db, q), Lower(q.email))
    requires forall k: nat :: k < RowId(db, q) ==> !HasEmail(db.people, k, Lower(q.email))
    requires q.handle != "" ==> forall k: nat :: !HasHandle(Upsert(db, q, stored, NoTrouble).0.people, k, Lower(q.handle))
    ensures Target(Upsert(db, q, stored, NoTrouble).0, q) == Some(RowId(db, q))
  {
    hide Upsert, Lower, Valid, Base, Normalize, RowId, HasHandle;
    RowAfter(db, q, stored);
    var db1, id := Upsert(db, q, stored, NoTrouble).0, RowId(db, q);
    forall k: nat | k < id ensures !HasEmail(db1.people, k, Lower(q.email)) {
      assert !HasEmail(db.people, k, Lower(q.email));
      assert k in db1.people <==> k in db.people;
    }
    FirstEmailIs(db1.people, Lower(q.email), db1.nextPerson, id);
    if q.handle != "" {
      NobodyHasHandle(db1.people, Lower(q.handle), db1.nextPerson);
    }
  }

  /** If nobody had the handle, at most the request's own row has it now. */
  lemma OnlyOwnHandle(db: Db, q: Request, stored: string, k: nat)
    requires Valid(db) && Upsert(db, q, stored, NoTrouble).1.Saved?
    requires !HandleOnFile(db, q.handle) && k != RowId(db, q)
    ensures !HasHandle(Upsert(db, q, stored, NoTrouble).0.people, k, Lower(q.handle))
  {
    hide Upsert, Lower, Valid, Base, Normalize, RowId;
    RowAfter(db, q, stored);
    assert !HasHandle(db.people, k, Lower(q.handle));
    assert k in Upsert(db, q, stored, NoTrouble).0.people <==> k in db.people;
  }

  /** The lookups of the repeated request find the row the first one wrote. */
  lemma TargetAgain(db: Db, q: Request, stored: string)
    requires Valid(db) && Upsert(db, q, stored, NoTrouble).1.Saved? && Names(q)
    ensures Target(Upsert(db, q, stored, NoTrouble).0, q) == Some(RowId(db, q))
  {
    hide Upsert, Lower, Valid, HasHandle, HasEmail, Tidy;
    var db1, id := Upsert(db, q, stored, NoTrouble).0, RowId(db, q);
    if q.handle != "" && HandleOnFile(db, q.handle) {
      TargetIsFirst(db, q);
      FoundByHandle(db, q, stored);
      AgainByHandle(db, q, stored);
    } else if q.handle != "" && HasHandle(db1.people, id, Lower(q.handle)) {
      AgainByHandle(db, q, stored);
    } else {
      if q.handle != "" {
        forall k: nat ensures !HasHandle(db1.people, k, Lower(q.handle)) {
          if k != id {
            OnlyOwnHandle(db, q, stored, k);
          }
        }
      }
      FoundByEmailOrNew(db, q, stored);
      AgainByEmail(db, q, stored);
    }
  }

  lemma TargetIsFirst(db: Db, q: Request)
    requires Valid(db) && q.handle != "" && HandleOnFile(db, q.handle)
    ensures RowId(db, q) in db.people && HasHandle(db.people, RowId(db, q), Lower(q.handle))
    ensures forall k: nat :: k < RowId(db, q) ==> !HasHandle(db.people, k, Lower(q.handle))
  {
    hide Lower, FirstEmail, FirstHandle, Valid, HasHandle;
    var i: nat :| HasHandle(db.people, i, Lower(q.handle));
    OnFile(db, i, q);
    var found := FirstHandle(db.people, Lower(q.handle), 0, db.nextPerson);
    assert found.Some? && Target(db, q) == found;
    HandleIsOnFile(db, found.value, Lower(q.handle));
  }

  lemma HandleIsOnFile(db: Db, i: nat, key: string)
    requires HasHandle(db.people, i, key)
    ensures i in db.people
  {
  }

  lemma FoundByEmailOrNew(db: Db, q: Request, stored: string)
    requires Valid(db) && Upsert(db, q, stored, NoTrouble).1.Saved? && Names(q)
    requires q.handle == "" || !HandleOnFile(db, q.handle)
    requires q.handle == "" || !HasHandle(Upsert(db, q, stored, NoTrouble).0.people, RowId(db, q), Lower(q.handle))
    ensures q.email != "" && HasEmail(Upsert(db, q, stored, NoTrouble).0.people, RowId(db, q), Lower(q.email))
    ensures forall k: nat :: k < RowId(db, q) ==> !HasEmail(db.people, k, Lower(q.email))
  {
    hide Upsert, EnsureCompany, Lower, Tidy, Normalize, HandleOnFile;
    TargetExactlyWhen(db, q);
    RowAfter(db, q, stored);
    if Target(db, q).Some? {
      EmailIsFirst(db, q);
      FoundByEmail(db, q, stored);
    } else {
      NewRowHasBoth(db, q, stored);
      NobodyHasEmail(db, q);
    }
  }

  lemma EmailIsFirst(db: Db, q: Request)
    requires Valid(db) && Target(db, q).Some? && (q.handle == "" || !HandleOnFile(db, q.handle))
    ensures q.email != "" && RowId(db, q) in db.people && HasEmail(db.people, RowId(db, q), Lower(q.email))
    ensures forall k: nat :: k < RowId(db, q) ==> !HasEmail(db.people, k, Lower(q.email))
  {
    hide Lower, HasHandle, HasEmail, FirstHandle, FirstEmail, Valid;
    TargetExists(db, q);
    if q.handle != "" {
      var byHandle := FirstHandle(db.people, Lower(q.handle), 0, db.nextPerson);
      assert byHandle.None?;
    }
  }

  lemma NobodyHasEmail(db: Db, q: Request)
    requires Target(db, q).None?
    ensures q.email != "" ==> forall k: nat :: k < db.nextPerson ==> !HasEmail(db.people, k, Lower(q.email))
  {
    hide Lower, HasEmail, FirstHandle;
  }

  /** A new row has the handle and the address of the request, if they are stored as given. */
  lemma NewRowHasBoth(db: Db, q: Request, stored: string)
    requires Valid(db) && Upsert(db, q, stored, NoTrouble).1.Saved? && Target(db, q).None?
    ensures q.handle != "" && Tidy(q.handle) ==>
      HasHandle(Upsert(db, q, stored, NoTrouble).0.people, RowId(db, q), Lower(q.handle))
    ensures q.email != "" && Tidy(q.email) ==>
      HasEmail(Upsert(db, q, stored, NoTrouble).0.people, RowId(db, q), Lower(q.email))
  {
    hide Upsert, EnsureCompany, Lower, Tidy, Normalize, Target;
    RowAfter(db, q, stored);
    if q.handle != "" && Tidy(q.handle) {
      TidyIsNormal(q.handle, NO_HANDLE);
    }
    if q.email != "" && Tidy(q.email) {
      TidyIsNormal(q.email, NO_EMAIL);
    }
  }

  lemma BlankIsEmpty()
    ensures Blank("")
  {
  }

  lemma FilledTwice(base: Person, q: Request, employer: Option<nat>)
    requires Tidy(base.handle) && Tidy(base.email)
    ensures var once := Filled(base, q, employer); Filled(once, q, employer) == once
  {
    hide Trim;
    SentinelsAreTidy();
    NormalizeIsTidy(q.email, NO_EMAIL);
    NormalizeIsTidy(q.handle, NO_HANDLE);
    BlankIsEmpty();
    assert Trim(Trim(base.name)) == Trim(base.name) && Trim(Trim(q.name)) == Trim(q.name);
  }

  lemma FirstCompanyIs(companies: map<nat, string>, name: string, n: nat, c: nat)
    requires c < n && c in companies && companies[c] == name
    requires forall k :: 0 <= k < c && k in companies ==> companies[k] != name
    ensures FirstCompany(companies, name, 0, n) == Some(c)
  {
    FirstCompanyLowest(companies, name, 0, n, c);
  }

  lemma {:induction false} FirstCompanyLowest(companies: map<nat, string>, name: string, i: nat, n: nat, c: nat)
    requires i <= c < n && c in companies && companies[c] == name
    requires forall k :: i <= k < c && k in companies ==> companies[k] != name
    ensures FirstCompany(companies, name, i, n) == Some(c)
    decreases n - i
  {
    if i < c {
      FirstCompanyLowest(companies, name, i + 1, n, c);
    }
  }

  /** The company is found again if it was there or its new row is stored under the name asked for. */
  lemma EmployerAgain(db: Db, company: string, stored: string)
    requires Valid(db) && EnsureCompany(db, company, stored).ok
    ensures var e := EnsureCompany(db, company, stored);
            forall people, next ::
              var again := EnsureCompany(e.db.(people := people, nextPerson := next), company, stored);
              if company == "" || NameTakenLive(db, company) || stored == company
              then again == Employer(e.db.(people := people, nextPerson := next), e.id, true)
              else !again.ok
  {
    var e := EnsureCompany(db, company, stored);
    if company != "" && FirstCompany(db.companies, company, 0, db.nextCompany).None? {
      assert e.db.companies[db.nextCompany] == stored;
      if stored == company {
        FirstCompanyIs(e.db.companies, company, e.db.nextCompany, db.nextCompany);
      } else {
        NoCompany(e.db.companies, company, 0, e.db.nextCompany);
      }
    }
  }

  lemma {:induction false} NoCompany(companies: map<nat, string>, name: string, i: nat, n: nat)
    requires i <= n && forall k :: i <= k < n && k in companies ==> companies[k] != name
    ensures FirstCompany(companies, name, i, n).None?
    decreases n - i
  {
    if i < n {
      NoCompany(companies, name, i + 1, n);
    }
  }

  /** The request's company was there, or is found again under the name its row was stored under. */
  predicate CompanyFoundAgain(db: Db, q: Request, stored: string) {
    q.company == "" || NameTakenLive(db, q.company) || stored == q.company
  }

  /** A request that names nobody is given a row each time. */
  lemma NamelessIsNew(db: Db, q: Request, stored: string)
    requires Valid(db) && !Names(q)
    ensures Target(db, q).None?
  {
    hide Lower, Valid, HasHandle, HasEmail, Tidy;
    if q.handle != "" {
      forall k: nat ensures !HasHandle(db.people, k, Lower(q.handle)) {
        UntidyMatchesNobody(db, q.handle, k);
      }
    }
    if q.email != "" {
      forall k: nat ensures !HasEmail(db.people, k, Lower(q.email)) {
        UntidyMatchesNobody(db, q.email, k);
      }
    }
  }

  /** Sending the same request again: it leaves the database alone exactly when it gives a handle or an
      address stored as given, or names a company that cannot be found again and so fails; and it is answered
      alike exactly when it does the former and not the latter. */
  lemma UpsertTwiceIsOnceExactlyWhen(db: Db, q: Request, stored: string)
    requires Valid(db) && Upsert(db, q, stored, NoTrouble).1.Saved?
    ensures var once := Upsert(db, q, stored, NoTrouble);
            var twice := Upsert(once.0, q, stored, NoTrouble);
            && (twice.0 == once.0 <==> Names(q) || !CompanyFoundAgain(db, q, stored))
            && (twice.1 == once.1 <==> Names(q) && CompanyFoundAgain(db, q, stored))
  {
    hide Upsert, EnsureCompany, Target, Filled, Names, Tidy, HasHandle, HasEmail, NameTakenLive;
    var (db1, out) := Upsert(db, q, stored, NoTrouble);
    var e := EnsureCompany(db, q.company, stored);
    UpsertFillsGaps(db, q, stored, NoTrouble);
    UpsertKeepsValid(db, q, stored, NoTrouble);
    UpsertFillsGaps(db1, q, stored, NoTrouble);
    EmployerIsLive(db, q.company, stored);
    EmployerAgain(db, q.company, stored);
    TargetExists(db, q);
    var id := RowId(db, q);
    assert db1 == e.db.(people := db1.people, nextPerson := db1.nextPerson);
    if !CompanyFoundAgain(db, q, stored) {
      assert !EnsureCompany(db1, q.company, stored).ok;
    } else {
      assert EnsureCompany(db1, q.company, stored) == Employer(db1, e.id, true);
      if Names(q) {
        TargetAgain(db, q, stored);
        BaseIsGood(db, q, stored);
        FilledTwice(Base(db, q, e.id), q, e.id);
        assert Base(db1, q, e.id) == db1.people[id] == Filled(Base(db, q, e.id), q, e.id);
        assert db1.people[id := db1.people[id]] == db1.people;
      } else {
        NamelessIsNew(db, q, stored);
        NamelessIsNew(db1, q, stored);
        assert db1.nextPerson == db.nextPerson + 1 && RowId(db1, q) == db1.nextPerson;
        assert Upsert(db1, q, stored, NoTrouble).0.nextPerson != db1.nextPerson;
      }
    }
  }

  /** A handle with outer spaces, and nothing else to go by: the request adds a maintainer called "bob" each
      time, and so breaks the rule that handles are unshared when it is repeated. */
  lemma PaddedHandleIsAddedTwice(db: Db, q: Request, stored: string)
    requires Valid(db) && q.project in db.projects && q.handle == " bob" && q.email == "" && q.company == ""
    ensures var once := Upsert(db, q, stored, NoTrouble).0;
            var twice := Upsert(once, q, stored, NoTrouble).0;
            && once.people.Keys == db.people.Keys + {db.nextPerson} && once.people[db.nextPerson].handle == "bob"
            && twice.people.Keys == once.people.Keys + {once.nextPerson} && once.nextPerson != db.nextPerson
            && twice.people[once.nextPerson].handle == "bob" && !Unique(twice)
  {
    hide Upsert, Target, Lower;
    PaddedBob();
    hide Trim, Tidy;
    var once := Upsert(db, q, stored, NoTrouble).0;
    UpsertFillsGaps(db, q, stored, NoTrouble);
    UpsertKeepsValid(db, q, stored, NoTrouble);
    UpsertFillsGaps(once, q, stored, NoTrouble);
    NamelessIsNew(db, q, stored);
    NamelessIsNew(once, q, stored);
    RowAfter(db, q, stored);
    RowAfter(once, q, stored);
    var twice := Upsert(once, q, stored, NoTrouble).0;
    assert SameHandle(twice, db.nextPerson, once.nextPerson);
  }

  /** With "bob" on file, one such request is enough. */
  lemma PaddedHandleIsShared(db: Db, q: Request, stored: string, i: nat)
    requires Valid(db) && q.project in db.projects && q.handle == " bob" && q.email == "" && q.company == ""
    requires i in db.people && db.people[i].handle == "bob"
    ensures !Unique(Upsert(db, q, stored, NoTrouble).0)
  {
    hide Upsert, Target, Lower;
    PaddedBob();
    hide Trim, Tidy;
    UpsertFillsGaps(db, q, stored, NoTrouble);
    NamelessIsNew(db, q, stored);
    RowAfter(db, q, stored);
    assert SameHandle(Upsert(db, q, stored, NoTrouble).0, i, db.nextPerson);
  }

  lemma PaddedBob()
    ensures Trim(" bob") == "bob" && !Tidy(" bob") && Normalize(" bob", NO_HANDLE) == "bob" && !Missing("bob", NO_HANDLE)
  {
    assert " bob"[1..] == "bob";
    assert TrimLeft(" bob") == "bob";
    assert TrimRight("bob") == "bob";
  }

  /* ----- editing ----- */

  /** The text without outer spaces, or the placeholder if nothing is left. */
  predicate StoredAs(value: string, stored: string, placeholder: string) {
    stored == if Trim(value) == "" then placeholder else Trim(value)
  }

  /** What an edit writes, and when it fails: for a company that is not live and for a failing update
      nothing is written, and neither is anything for somebody who is not on file; a failing read hides a
      change that was made. */
  lemma EditWrites(db: Db, id: nat, name: string, email: string, handle: string, status: Status, company: Option<nat>,
                   trouble: Trouble)
    ensures var (db1, out) := UpdateDetails(db, id, name, email, handle, status, company, trouble);
            var dead := company.Some? && company.value !in db.companies;
            && (out == CompanyNotFound <==> dead)
            && (out == DbFailure <==> !dead && (trouble.InUpdate? || trouble.InRead?))
            && (out == NotFound <==> !dead && !trouble.InUpdate? && !trouble.InRead? && id !in db.people)
            && (out == Saved(id) <==> !dead && !trouble.InUpdate? && !trouble.InRead? && id in db.people)
            && (dead || trouble.InUpdate? || id !in db.people ==> db1 == db)
            && (!dead && !trouble.InUpdate? && id in db.people ==>
                  && id in db1.people && db1 == db.(people := db.people[id := db1.people[id]])
                  && db1.people[id].name == Trim(name) && db1.people[id].status == status
                  && db1.people[id].company == company && db1.people[id].projects == db.people[id].projects
                  && StoredAs(email, db1.people[id].email, "EMAIL_MISSING")
                  && StoredAs(handle, db1.people[id].handle, "GITHUB_MISSING"))
  {
    hide Trim;
    if id in db.people {
      assert db.people == db.people[id := db.people[id]];
    }
  }

  /* ----- merging companies ----- */

  /** A merge succeeds exactly for two different live companies when the transaction does; the source's
      name is then retired, and otherwise nothing changes. */
  lemma MergesExactlyWhen(db: Db, from: nat, to: nat, trouble: Trouble)
    ensures var (db1, out) := Merge(db, from, to, trouble);
            && (out == SameCompany <==> from == to)
            && (out == DbFailure <==> from != to && trouble.InTransaction?)
            && (out == CompanyNotFound <==>
                  from != to && !trouble.InTransaction? && (from !in db.companies || to !in db.companies))
            && (out == Merged <==>
                  from != to && !trouble.InTransaction? && from in db.companies && to in db.companies)
            && (out != Merged ==> db1 == db)
            && (out == Merged ==>
                  && from !in db1.companies && db1.companies[from := db.companies[from]] == db.companies
                  && db1.retired == db.retired + {db.companies[from]}
                  && db1 == db.(people := db1.people, companies := db1.companies, retired := db1.retired)
                  && db1.people.Keys == db.people.Keys
                  && forall id :: id in db.people ==> Reassigned(db.people[id], db1.people[id], from, to))
  {
  }

  /** Only somebody at the source changes company. */
  predicate Reassigned(was: Person, now: Person, from: nat, to: nat) {
    now == if was.company == Some(from) then was.(company := Some(to)) else was
  }

  function Staff(db: Db, company: nat): set<nat> {
    set id | id in db.people && db.people[id].company == Some(company)
  }

  lemma StaffAfter(db: Db, from: nat, to: nat)
    requires Merge(db, from, to, NoTrouble).1.Merged?
    ensures var db1 := Merge(db, from, to, NoTrouble).0;
            && Staff(db1, to) == Staff(db, to) + Staff(db, from) && Staff(db1, from) == {}
            && Staff(db, to) !! Staff(db, from)
            && forall c :: c != from && c != to ==> Staff(db1, c) == Staff(db, c)
  {
  }

  /** A merge moves the source's people to the target and touches nobody else; head counts add up. */
  lemma MergeConserves(db: Db, from: nat, to: nat, c: nat)
    requires Merge(db, from, to, NoTrouble).1.Merged?
    ensures var db1 := Merge(db, from, to, NoTrouble).0;
            && db1.people.Keys == db.people.Keys
            && (forall id :: id in db.people ==> db1.people[id].(company := None) == db.people[id].(company := None))
            && |Staff(db1, to)| == |Staff(db, to)| + |Staff(db, from)| && Staff(db1, from) == {}
            && (c != from && c != to ==> Staff(db1, c) == Staff(db, c))
            && db1.companies.Keys == db.companies.Keys - {from}
  {
    hide Staff;
    StaffAfter(db, from, to);
  }

  lemma MergeKeeps(db: Db, from: nat, to: nat, trouble: Trouble)
    requires Valid(db)
    ensures Valid(Merge(db, from, to, trouble).0)
    ensures Unique(db) ==> Unique(Merge(db, from, to, trouble).0)
  {
    hide Tidy;
    var db1 := Merge(db, from, to, trouble).0;
    if Unique(db) {
      forall i, j | i in db1.people && j in db1.people && SameHandle(db1, i, j) ensures i == j {
        assert SameHandle(db, i, j);
      }
    }
  }

  /** After a merge, a request naming the merged company fails exactly when the name its new row would
      be stored under is taken; the merged name itself is, since the soft-deleted row keeps it. */
  lemma MergedNameIsLostExactlyWhen(db: Db, from: nat, to: nat, q: Request, stored: string)
    requires Valid(db) && Merge(db, from, to, NoTrouble).1.Merged? && q.project in db.projects
    requires q.company == db.companies[from] && q.company != ""
    requires forall c :: c in db.companies && c != from ==> db.companies[c] != q.company
    ensures var db1 := Merge(db, from, to, NoTrouble).0;
            && (Upsert(db1, q, stored, NoTrouble).1.Saved? <==> !NameTaken(db1, stored))
            && NameTaken(db1, q.company)
  {
    hide Upsert, Valid, EnsureCompany, Target, Base, Filled, Moved;
    MergeKeeps(db, from, to, NoTrouble);
    var db1 := Merge(db, from, to, NoTrouble).0;
    UpsertFillsGaps(db1, q, stored, NoTrouble);
    EmployerIsLive(db1, q.company, stored);
  }

  /* ----- runs ----- */

  datatype Step =
    | DoUpsert(q: Request, stored: string, trouble: Trouble)
    | DoMerge(from: nat, to: nat, trouble: Trouble)

  function Apply(db: Db, s: Step): Db {
    match s
    case DoUpsert(q, stored, trouble) => Upsert(db, q, stored, trouble).0
    case DoMerge(from, to, trouble) => Merge(db, from, to, trouble).0
  }

  function Run(db: Db, steps: seq<Step>): Db
    decreases |steps|
  {
    if steps == [] then db else Run(Apply(db, steps[0]), steps[1..])
  }

  /** Over every run of upserts and merges, failed calls included, each maintainer's company is
      live; and when the handles given are good, no two maintainers ever share one. */
  lemma {:induction false} RunKeeps(db: Db, steps: seq<Step>)
    requires Valid(db)
    ensures Valid(Run(db, steps))
    ensures Unique(db) && (forall s :: s in steps && s.DoUpsert? ==> GoodHandle(s.q.handle)) ==> Unique(Run(db, steps))
    decreases |steps|
  {
    if steps != [] {
      hide Valid, Unique, GoodHandle, Upsert, Merge, WritesHandle, HandleInUse;
      match steps[0] {
        case DoUpsert(q, stored, trouble) =>
          UpsertKeepsValid(db, q, stored, trouble);
          if Unique(db) && GoodHandle(q.handle) {
            GoodHandlesNeverClash(db, q);
            UpsertKeepsUniqueWhen(db, q, stored, trouble);
          }
        case DoMerge(from, to, trouble) =>
          MergeKeeps(db, from, to, trouble);
      }
      RunKeeps(Apply(db, steps[0]), steps[1..]);
    }
  }
}
